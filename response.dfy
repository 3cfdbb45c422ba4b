/** Extraction of the two fields of the translation service's reply
    (google_translate_cb, trunk/purple-translate.c:43-74). The reply is not
    parsed: each field is found by searching for a fixed key and taking the
    characters up to the next double quote. */
module Response {
  import opened Wrappers
  import opened Text

  /** The reply as a C string: the characters before its terminating NUL.
      Neither g_strstr_len nor strchr looks past the terminator, so nothing
      after it matters. */
  type CString = s: seq<char> | '\0' !in s

  const TranslatedKey: string := "\"translatedText\":\""
  const DetectedKey: string := "\"detectedSourceLanguage\":\""

  /** What one search for a key yields. `Unterminated` is the case where the
      key is found but no double quote follows it: strchr returns NULL there
      and the length handed to g_strndup is undefined behaviour in C. */
  datatype Field = Missing | Found(value: string) | Unterminated

  /** The two values handed to the completion callback; None is a NULL
      pointer. */
  datatype Reply = Reply(translated: Option<string>, detected: Option<string>)

  datatype ParseError = UnterminatedField(key: string)

  /** How much of the reply g_strstr_len may search: the first `len`
      characters, and never past the terminator. */
  function Window(s: seq<char>, len: nat): (w: nat)
    ensures w <= |s| && w <= len && (w == len || w == |s|)
  {
    if len < |s| then len else |s|
  }

  /** The key occurs wholly inside the first `limit` characters. */
  ghost predicate OccursWithin(s: seq<char>, key: string, limit: nat) {
    exists i :: 0 <= i && i + |key| <= limit && OccursAt(s, key, i)
  }

  /** i is where g_strstr_len finds the key when it may look at the first
      `limit` characters: the earliest occurrence that fits. */
  ghost predicate FirstOccurrence(s: seq<char>, key: string, limit: nat, i: nat) {
    i + |key| <= limit && OccursAt(s, key, i)
    && forall j :: 0 <= j < i ==> !OccursAt(s, key, j)
  }

  /** One field of the reply: search the first `len` characters for the key,
      then take everything from the end of the key up to the next double
      quote. The closing quote is searched in the whole string, not only in
      the first `len` characters, as strchr does. */
  function ExtractField(s: CString, len: nat, key: string): (r: Field)
    ensures r.Missing? <==> !OccursWithin(s, key, Window(s, len))
    ensures r.Found? ==> '"' !in r.value
    ensures r.Found? ==>
      exists i: nat :: FirstOccurrence(s, key, Window(s, len), i)
                  && i + |key| + |r.value| < |s| && s[i + |key| .. i + |key| + |r.value|] == r.value
                  && s[i + |key| + |r.value|] == '"'
    ensures r.Unterminated? ==>
      exists i: nat :: FirstOccurrence(s, key, Window(s, len), i)
                  && forall j :: i + |key| <= j < |s| ==> s[j] != '"'
  {
    var limit := Window(s, len);
    match FindKey(s, key, limit, 0)
    case None => Missing
    case Some(i) =>
      assert FirstOccurrence(s, key, limit, i);
      match FindChar(s, '"', i + |key|)
      case None => Unterminated
      case Some(k) =>
        assert forall j :: i + |key| <= j < k ==> s[i + |key| .. k][j - i - |key|] == s[j];
        Found(s[i + |key| .. k])
  }

  function AsOption(f: Field): Option<string>
    requires !f.Unterminated?
  {
    if f.Found? then Some(f.value) else None
  }

  /** Both fields of a reply. A failed fetch delivers a NULL text, for which
      g_strstr_len finds nothing; a key without a closing quote is the
      undefined case, reported as an error. */
  function ParseReply(text: Option<CString>, len: nat): (r: Result<Reply, ParseError>)
    ensures text.None? ==> r == Ok(Reply(None, None))
    ensures text.Some? ==>
      (r.Err? <==> ExtractField(text.value, len, TranslatedKey).Unterminated?
                   || ExtractField(text.value, len, DetectedKey).Unterminated?)
    ensures r.Ok? && text.Some? ==>
      && (r.value.translated.Some? <==> OccursWithin(text.value, TranslatedKey, Window(text.value, len)))
      && (r.value.detected.Some? <==> OccursWithin(text.value, DetectedKey, Window(text.value, len)))
    ensures r.Ok? ==> (r.value.translated.Some? ==> '"' !in r.value.translated.value)
                      && (r.value.detected.Some? ==> '"' !in r.value.detected.value)
    ensures r.Ok? && text.Some? ==>
      && r.value.translated == AsOption(ExtractField(text.value, len, TranslatedKey))
      && r.value.detected == AsOption(ExtractField(text.value, len, DetectedKey))
  {
    match text
    case None => Ok(Reply(None, None))
    case Some(s) =>
      var t := ExtractField(s, len, TranslatedKey);
      var d := ExtractField(s, len, DetectedKey);
      if t.Unterminated? then Err(UnterminatedField(TranslatedKey))
      else if d.Unterminated? then Err(UnterminatedField(DetectedKey))
      else Ok(Reply(AsOption(t), AsOption(d)))
  }

  /** The converse of ExtractField's contract: wherever the first occurrence
      of the key is followed by a quote-free value and a quote, that value
      is what is extracted. */
  lemma ExtractAt(s: CString, len: nat, key: string, i: nat, v: string)
    requires FirstOccurrence(s, key, Window(s, len), i)
    requires '"' !in v
    requires i + |key| + |v| < |s| && s[i + |key| .. i + |key| + |v|] == v
    requires s[i + |key| + |v|] == '"'
    ensures ExtractField(s, len, key) == Found(v)
  {
    var limit := Window(s, len);
    var found := FindKey(s, key, limit, 0);
    assert found == Some(i);
    var start := i + |key|;
    forall j | start <= j < start + |v| ensures s[j] != '"' {
      assert s[j] == s[start .. start + |v|][j - start];
    }
    var q := FindChar(s, '"', start);
    assert q == Some(start + |v|);
  }

  // ---- A reply of the service, field by field ----

  /** A reply of the service carrying both fields, translation first. */
  function SampleReply(translated: string, detected: string): string {
    "{" + TranslatedKey + translated + "\"," + DetectedKey + detected + "\"}"
  }

  /** A key does not occur where one of its characters is not matched. */
  lemma Mismatch(s: seq<char>, key: string, j: nat, k: nat)
    requires k < |key| && j + k < |s| && s[j + k] != key[k]
    ensures !OccursAt(s, key, j)
  {
    if j + |key| <= |s| {
      assert s[j..j + |key|][k] == s[j + k];
    }
  }

  /** The detected-language key cannot start before the end of the
      translation field of a SampleReply. */
  lemma DetectedKeyNotEarly(s: seq<char>, v: string, j: nat)
    requires '"' !in v && |s| >= 21 + |v|
    requires s[..21 + |v|] == "{" + TranslatedKey + v + "\","
    requires j < 21 + |v|
    ensures !OccursAt(s, DetectedKey, j)
  {
    var head := "{" + TranslatedKey + v + "\",";
    assert s[j] == head[j];
    if j == 0 || 19 <= j < 19 + |v| || j == 20 + |v| {
      Mismatch(s, DetectedKey, j, 0);
    } else if j < 18 {
      assert head[j] == TranslatedKey[j - 1] && head[j + 1] == TranslatedKey[j];
      if j == 1 || j == 16 {
        assert s[j + 1] == head[j + 1];
        Mismatch(s, DetectedKey, j, 1);
      } else {
        Mismatch(s, DetectedKey, j, 0);
      }
    } else if j == 18 {
      // The key would have to run over the translation and its closing quote.
      if |v| < 22 {
        assert s[19 + |v|] == head[19 + |v|] == '"';
        Mismatch(s, DetectedKey, j, 1 + |v|);
      } else if |v| == 22 {
        assert s[j + 24] == head[j + 24] == ',';
        Mismatch(s, DetectedKey, j, 24);
      } else {
        assert s[j + 23] == head[j + 23] == v[22];
        Mismatch(s, DetectedKey, j, 23);
      }
    } else {
      assert s[j + 1] == head[j + 1] == ',';
      Mismatch(s, DetectedKey, j, 1);
    }
  }

  /** The translation field of a SampleReply is found. */
  lemma SampleTranslated(v: string, d: string)
    requires '"' !in v && '\0' !in v && '\0' !in d
    ensures '\0' !in SampleReply(v, d)
    ensures ExtractField(SampleReply(v, d), |SampleReply(v, d)|, TranslatedKey) == Found(v)
  {
    var head := "{" + TranslatedKey;
    var tail := v + "\"" + ("," + DetectedKey + d + "\"}");
    assert SampleReply(v, d) == head + tail;
    var s: CString := SampleReply(v, d);
    var t := |head|;
    assert s[..t] == head && s[t..] == tail;
    assert s[1 .. t] == s[..t][1..] == TranslatedKey;
    assert s[t .. t + |v|] == tail[..|v|] == v;
    Mismatch(s, TranslatedKey, 0, 0);
    ExtractAt(s, |s|, TranslatedKey, 1, v);
  }

  /** The detected-language field of a SampleReply is found. */
  lemma SampleDetected(v: string, d: string)
    requires '"' !in v && '"' !in d && '\0' !in v && '\0' !in d
    ensures '\0' !in SampleReply(v, d)
    ensures ExtractField(SampleReply(v, d), |SampleReply(v, d)|, DetectedKey) == Found(d)
  {
    var head := "{" + TranslatedKey + v + "\",";
    assert SampleReply(v, d) == head + DetectedKey + d + "\"}";
    var s: CString := SampleReply(v, d);
    var p := |head|;
    assert s[..p] == head;
    forall j: nat | j < p ensures !OccursAt(s, DetectedKey, j) {
      DetectedKeyNotEarly(s, v, j);
    }
    assert s[p .. p + |DetectedKey|] == DetectedKey;
    assert s[p + |DetectedKey| .. p + |DetectedKey| + |d|] == d;
    ExtractAt(s, |s|, DetectedKey, p, d);
  }

  /** A transcript of a reply: both fields are found, whatever the
      translation and the detected code are, as long as neither contains a
      double quote. */
  lemma SampleReplyFields(v: string, d: string)
    requires '"' !in v && '"' !in d && '\0' !in v && '\0' !in d
    ensures '\0' !in SampleReply(v, d)
    ensures ParseReply(Some(SampleReply(v, d)), |SampleReply(v, d)|) == Ok(Reply(Some(v), Some(d)))
  {
    SampleTranslated(v, d);
    SampleDetected(v, d);
  }
}
