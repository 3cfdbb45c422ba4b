/** The request google_translate builds (trunk/purple-translate.c:77-102): the
    source language as the service expects it, the URL carrying the language
    pair and the encoded phrase, and the record that keeps a copy of the
    phrase until the reply arrives. */
module Request {
  import opened Wrappers
  import opened Text

  const Endpoint: string := "http://ajax.googleapis.com/ajax/services/language/translate?v=1.0&langpair="

  /** The URL-encoded "|" between the two languages of the pair. */
  const PairSeparator: string := "%7C"

  const PhraseParameter: string := "&q="

  /** What fetching the URL needs, and the phrase the reply will be reported
      against. */
  datatype Request = Request(phrase: string, from: string, to: string, url: string)

  /** The source language sent to the service: a missing one and "auto" are
      sent as the empty string, which asks the service to detect it. */
  function SourceParameter(from: Option<string>): (r: string)
    ensures r == "" <==> from.None? || from.value == "auto" || from.value == ""
    ensures r != "" ==> from == Some(r)
  {
    if from.None? || from.value == "auto" then "" else from.value
  }

  function TranslateUrl(from: string, to: string, encoded: string): string {
    Endpoint + from + PairSeparator + to + PhraseParameter + encoded
  }

  /** Splits `s` at the first `c`, provided the delimiter `sep` (which
      starts with `c`) stands there. */
  function SplitAtFirst(s: string, c: char, sep: string): (r: Option<(string, string)>)
    requires |sep| > 0 && sep[0] == c
    ensures r.Some? ==> c !in r.value.0 && s == r.value.0 + sep + r.value.1
  {
    match FindChar(s, c, 0)
    case None => None
    case Some(k) =>
      if |s| < k + |sep| || s[k..k + |sep|] != sep then None
      else
        var before, after := s[..k], s[k + |sep|..];
        assert forall j :: 0 <= j < k ==> before[j] == s[j];
        assert s == before + sep + after;
        Some((before, after))
  }

  lemma SplitAtFirstJoin(before: string, c: char, sep: string, after: string)
    requires |sep| > 0 && sep[0] == c && c !in before
    ensures SplitAtFirst(before + sep + after, c, sep) == Some((before, after))
  {
    var s := before + sep + after;
    assert s[|before|] == c;
    assert FindChar(s, c, 0) == Some(|before|);
    assert s[|before|..|before| + |sep|] == sep;
    assert s[..|before|] == before;
    assert s[|before| + |sep|..] == after;
  }

  /** Reads the language pair and the encoded phrase back out of a URL of
      the form TranslateUrl builds. */
  function ParseUrl(url: string): (r: Option<(string, string, string)>)
    ensures r.Some? ==> '%' !in r.value.0 && '&' !in r.value.1
                        && TranslateUrl(r.value.0, r.value.1, r.value.2) == url
  {
    if |url| < |Endpoint| || url[..|Endpoint|] != Endpoint then None
    else
      var rest := url[|Endpoint|..];
      assert url == Endpoint + rest;
      match SplitAtFirst(rest, '%', PairSeparator)
      case None => None
      case Some((from, tail)) =>
        match SplitAtFirst(tail, '&', PhraseParameter)
        case None => None
        case Some((to, encoded)) => Some((from, to, encoded))
  }

  /** Language codes never contain the delimiters, so the pair and the
      phrase can be read back from the URL. */
  lemma UrlRoundTrip(from: string, to: string, encoded: string)
    requires '%' !in from && '&' !in to
    ensures ParseUrl(TranslateUrl(from, to, encoded)) == Some((from, to, encoded))
  {
    var tail := to + PhraseParameter + encoded;
    var rest := from + PairSeparator + tail;
    var url := TranslateUrl(from, to, encoded);
    assert url == Endpoint + rest;
    assert url[..|Endpoint|] == Endpoint;
    assert url[|Endpoint|..] == rest;
    SplitAtFirstJoin(from, '%', PairSeparator, tail);
    SplitAtFirstJoin(to, '&', PhraseParameter, encoded);
  }

  /** The request for a phrase, given how the host URL-encodes it. */
  function MakeRequest(phrase: string, from: Option<string>, to: string,
                       encode: string -> string): (r: Request)
    ensures r.phrase == phrase && r.to == to
    ensures r.from == SourceParameter(from)
  {
    var source := SourceParameter(from);
    Request(phrase, source, to, TranslateUrl(source, to, encode(phrase)))
  }

  /** The URL of a request carries exactly its language pair and the encoded
      phrase, whenever the target contains no '&' and the source no '%'. */
  lemma RequestUrlCarriesPair(phrase: string, from: Option<string>, to: string,
                              encode: string -> string)
    requires from.Some? ==> '%' !in from.value
    requires '&' !in to
    ensures ParseUrl(MakeRequest(phrase, from, to, encode).url)
            == Some((SourceParameter(from), to, encode(phrase)))
  {
    UrlRoundTrip(SourceParameter(from), to, encode(phrase));
  }
}
