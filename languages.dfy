/** The language catalog the plugin offers (the add_language table filled in
    init_plugin), lookup of a display name by code, and the choice of the
    user's default locale from the system's language names. */
module Languages {
  import opened Wrappers

  /** One catalog entry: the key is the service's language code, the value
      the name shown in menus and notices. */
  datatype Language = Language(code: string, name: string)

  /** The supported languages in the order init_plugin appends them:
      Afrikaans to French, Galician to Maltese, then Norwegian to Yiddish. */
  const Catalog: seq<Language> := CatalogAToF + CatalogGToM + CatalogNToY

  const CatalogAToF: seq<Language> := [
    Language("af", "Afrikaans"),
    Language("sq", "Albanian"),
    Language("ar", "Arabic"),
    Language("hy", "Armenian"),
    Language("az", "Azerbaijani"),
    Language("eu", "Basque"),
    Language("be", "Belarusian"),
    Language("bg", "Bulgarian"),
    Language("ca", "Catalan"),
    Language("zh-CN", "Chinese (Simplified)"),
    Language("zh-TW", "Chinese (Traditional)"),
    Language("hr", "Croatian"),
    Language("cs", "Czech"),
    Language("da", "Danish"),
    Language("nl", "Dutch"),
    Language("en", "English"),
    Language("et", "Estonian"),
    Language("tl", "Filipino"),
    Language("fi", "Finnish"),
    Language("fr", "French")
  ]

  const CatalogGToM: seq<Language> := [
    Language("gl", "Galician"),
    Language("ka", "Georgian"),
    Language("de", "German"),
    Language("el", "Greek"),
    Language("ht", "Haitian Creole"),
    Language("iw", "Hebrew"),
    Language("hi", "Hindi"),
    Language("hu", "Hungarian"),
    Language("is", "Icelandic"),
    Language("id", "Indonesian"),
    Language("ga", "Irish"),
    Language("it", "Italian"),
    Language("ja", "Japanese"),
    Language("ko", "Korean"),
    Language("la", "Latin"),
    Language("lv", "Latvian"),
    Language("lt", "Lithuanian"),
    Language("mk", "Macedonian"),
    Language("ms", "Malay"),
    Language("mt", "Maltese")
  ]

  const CatalogNToY: seq<Language> := [
    Language("no", "Norwegian"),
    Language("fa", "Persian"),
    Language("pl", "Polish"),
    Language("pt", "Portuguese"),
    Language("ro", "Romanian"),
    Language("ru", "Russian"),
    Language("sr", "Serbian"),
    Language("sk", "Slovak"),
    Language("sl", "Slovenian"),
    Language("es", "Spanish"),
    Language("sw", "Swahili"),
    Language("sv", "Swedish"),
    Language("th", "Thai"),
    Language("tr", "Turkish"),
    Language("uk", "Ukrainian"),
    Language("ur", "Urdu"),
    Language("vi", "Vietnamese"),
    Language("cy", "Welsh"),
    Language("yi", "Yiddish")
  ]

  /** No two entries share a code. */
  predicate DistinctCodes(langs: seq<Language>) {
    forall i, j :: 0 <= i < j < |langs| ==> langs[i].code != langs[j].code
  }

  /** A code the request URL can carry verbatim: two to five characters and
      none of the characters that delimit the query or a reply field. */
  predicate PlainCode(code: string) {
    2 <= |code| <= 5 && '%' !in code && '&' !in code && '"' !in code
  }

  predicate AllPlain(langs: seq<Language>) {
    forall i :: 0 <= i < |langs| ==> PlainCode(langs[i].code)
  }

  lemma PlainAToF() ensures AllPlain(CatalogAToF) { }
  lemma PlainGToM() ensures AllPlain(CatalogGToM) { }
  lemma PlainNToY() ensures AllPlain(CatalogNToY) { }

  lemma PlainConcat(a: seq<Language>, b: seq<Language>)
    requires AllPlain(a) && AllPlain(b)
    ensures AllPlain(a + b)
  {
    forall i | 0 <= i < |a + b| ensures PlainCode((a + b)[i].code) {
      if i >= |a| {
        assert (a + b)[i] == b[i - |a|];
      }
    }
  }

  lemma CatalogCodesPlain()
    ensures |Catalog| == 59
    ensures forall i :: 0 <= i < |Catalog| ==> PlainCode(Catalog[i].code)
  {
    PlainAToF();
    PlainGToM();
    PlainNToY();
    PlainConcat(CatalogAToF, CatalogGToM);
    PlainConcat(CatalogAToF + CatalogGToM, CatalogNToY);
  }

  // ---- Distinctness of the catalog codes ----

  /** A number built from the characters that tell the catalog's codes
      apart: the first two and, for the regional variants zh-CN and zh-TW,
      the fourth. Equal codes have equal keys, so distinct keys mean
      distinct codes. */
  function Key(code: string): int {
    (if |code| > 0 then code[0] as int else 32)
    + 256 * (if |code| > 1 then code[1] as int else 32)
    + 65536 * (if |code| > 3 then code[3] as int else 32)
  }

  /** The key of the catalog entry at each position. */
  function KeyAt(i: int): int {
    if i == 0 then 2123361  // af
    else if i == 1 then 2126195  // sq
    else if i == 2 then 2126433  // ar
    else if i == 3 then 2128232  // hy
    else if i == 4 then 2128481  // az
    else if i == 5 then 2127205  // eu
    else if i == 6 then 2123106  // be
    else if i == 7 then 2123618  // bg
    else if i == 8 then 2122083  // ca
    else if i == 9 then 4417658  // zh-CN
    else if i == 10 then 5531770  // zh-TW
    else if i == 11 then 2126440  // hr
    else if i == 12 then 2126691  // cs
    else if i == 13 then 2122084  // da
    else if i == 14 then 2124910  // nl
    else if i == 15 then 2125413  // en
    else if i == 16 then 2126949  // et
    else if i == 17 then 2124916  // tl
    else if i == 18 then 2124134  // fi
    else if i == 19 then 2126438  // fr
    else if i == 20 then 2124903  // gl
    else if i == 21 then 2122091  // ka
    else if i == 22 then 2123108  // de
    else if i == 23 then 2124901  // el
    else if i == 24 then 2126952  // ht
    else if i == 25 then 2127721  // iw
    else if i == 26 then 2124136  // hi
    else if i == 27 then 2127208  // hu
    else if i == 28 then 2126697  // is
    else if i == 29 then 2122857  // id
    else if i == 30 then 2122087  // ga
    else if i == 31 then 2126953  // it
    else if i == 32 then 2122090  // ja
    else if i == 33 then 2125675  // ko
    else if i == 34 then 2122092  // la
    else if i == 35 then 2127468  // lv
    else if i == 36 then 2126956  // lt
    else if i == 37 then 2124653  // mk
    else if i == 38 then 2126701  // ms
    else if i == 39 then 2126957  // mt
    else if i == 40 then 2125678  // no
    else if i == 41 then 2122086  // fa
    else if i == 42 then 2124912  // pl
    else if i == 43 then 2126960  // pt
    else if i == 44 then 2125682  // ro
    else if i == 45 then 2127218  // ru
    else if i == 46 then 2126451  // sr
    else if i == 47 then 2124659  // sk
    else if i == 48 then 2124915  // sl
    else if i == 49 then 2126693  // es
    else if i == 50 then 2127731  // sw
    else if i == 51 then 2127475  // sv
    else if i == 52 then 2123892  // th
    else if i == 53 then 2126452  // tr
    else if i == 54 then 2124661  // uk
    else if i == 55 then 2126453  // ur
    else if i == 56 then 2124150  // vi
    else if i == 57 then 2128227  // cy
    else if i == 58 then 2124153  // yi
    else -1
  }

  predicate KeysFrom(langs: seq<Language>, offset: int) {
    forall i :: 0 <= i < |langs| ==> Key(langs[i].code) == KeyAt(offset + i)
  }

  lemma KeysConcat(a: seq<Language>, b: seq<Language>, offset: int)
    requires KeysFrom(a, offset) && KeysFrom(b, offset + |a|)
    ensures KeysFrom(a + b, offset)
  {
    forall i | 0 <= i < |a + b| ensures Key((a + b)[i].code) == KeyAt(offset + i) {
      if i >= |a| {
        assert (a + b)[i] == b[i - |a|];
      }
    }
  }

  lemma KeyAtDistinct()
    ensures forall i, j :: 0 <= i < j < 59 ==> KeyAt(i) != KeyAt(j)
  {
  }

  lemma KeysAToF() ensures KeysFrom(CatalogAToF, 0) { }
  lemma KeysGToM() ensures KeysFrom(CatalogGToM, 20) { }
  lemma KeysNToY() ensures KeysFrom(CatalogNToY, 40) { }

  lemma CatalogKeys()
    ensures KeysFrom(Catalog, 0)
  {
    KeysAToF();
    KeysGToM();
    KeysNToY();
    KeysConcat(CatalogAToF, CatalogGToM, 0);
    KeysConcat(CatalogAToF + CatalogGToM, CatalogNToY, 0);
  }

  /** The catalog's codes are pairwise distinct, so a code names at most one
      language. */
  lemma CatalogDistinct()
    ensures DistinctCodes(Catalog)
  {
    CatalogKeys();
    CatalogCodesPlain();
    KeyAtDistinct();
    forall i, j | 0 <= i < j < |Catalog| ensures Catalog[i].code != Catalog[j].code {
      assert KeyAt(i) != KeyAt(j);
      assert Key(Catalog[i].code) != Key(Catalog[j].code);
    }
  }

  // ---- Lookup by code ----

  /** The name of the first entry whose code is `code`, as the loop in
      translate_receiving_message_cb finds it, or None when no entry has it. */
  function LookupName(langs: seq<Language>, code: string): (r: Option<string>)
    ensures r.None? <==> forall i :: 0 <= i < |langs| ==> langs[i].code != code
    ensures r.Some? ==> exists i :: 0 <= i < |langs| && langs[i] == Language(code, r.value)
                                    && forall j :: 0 <= j < i ==> langs[j].code != code
  {
    if |langs| == 0 then None
    else if langs[0].code == code then Some(langs[0].name)
    else
      var r := LookupName(langs[1..], code);
      assert forall i :: 0 < i < |langs| ==> langs[i] == langs[1..][i - 1];
      r
  }

  /** With distinct codes the first match is the only match: a code finds
      exactly the name it is paired with. */
  lemma {:induction false} LookupExact(langs: seq<Language>, code: string, name: string)
    requires DistinctCodes(langs)
    ensures LookupName(langs, code) == Some(name) <==> Language(code, name) in langs
  {
    var r := LookupName(langs, code);
    if Language(code, name) in langs {
      var k :| 0 <= k < |langs| && langs[k] == Language(code, name);
      assert r.Some?;
      var i :| 0 <= i < |langs| && langs[i] == Language(code, r.value)
               && forall j :: 0 <= j < i ==> langs[j].code != code;
      assert langs[i].code == langs[k].code;
      assert i == k;
    }
  }

  /** Every catalog code finds its own name. */
  lemma CatalogLookup(code: string, name: string)
    ensures LookupName(Catalog, code) == Some(name) <==> Language(code, name) in Catalog
  {
    CatalogDistinct();
    LookupExact(Catalog, code, name);
  }

  /** The search loop of translate_receiving_message_cb (:136-144): walk the
      list and stop at the first entry whose key equals the code. */
  method FindLanguageName(langs: seq<Language>, code: string) returns (name: Option<string>)
    ensures name == LookupName(langs, code)
  {
    var i := 0;
    while i < |langs|
      invariant 0 <= i <= |langs|
      invariant forall j :: 0 <= j < i ==> langs[j].code != code
    {
      if langs[i].code == code {
        name := Some(langs[i].name);
        return;
      }
      i := i + 1;
    }
    name := None;
  }

  // ---- Default locale ----

  /** The locale chosen in init_plugin (:440-444): the first system language
      name that is exactly two characters long, or "en" when there is none. */
  method DefaultLocale(names: seq<string>) returns (locale: string)
    ensures |locale| == 2
    ensures (forall i :: 0 <= i < |names| ==> |names[i]| != 2) ==> locale == "en"
    ensures (exists i :: 0 <= i < |names| && |names[i]| == 2) ==>
              exists i :: 0 <= i < |names| && names[i] == locale
                          && forall j :: 0 <= j < i ==> |names[j]| != 2
  {
    var i := 0;
    while i < |names|
      invariant 0 <= i <= |names|
      invariant forall j :: 0 <= j < i ==> |names[j]| != 2
    {
      if |names[i]| == 2 {
        return names[i];
      }
      i := i + 1;
    }
    locale := "en";
  }
}
