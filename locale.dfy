/**
 * Locale resolution: questionnaire.go's getLocale, and the handler's
 * extraction of the locale token from the request path.
 */
module Locale {
  import opened Wrappers

  /** The supported locales, in the order getLocale tries them. */
  const ValidLocales: seq<string> := ["en", "ar"]

  /** The locale used for every token that is not supported. */
  const DefaultLocale: string := "en"

  /** Reference definition: a supported token stands for itself, anything else for the default. */
  function Resolve(token: string): (l: string)
    ensures l == "en" || l == "ar"
    ensures l == token <==> token in ValidLocales
  {
    if token in ValidLocales then token else DefaultLocale
  }

  lemma ResolveIsSupported(token: string)
    ensures Resolve(token) == "en" || Resolve(token) == "ar"
    ensures Resolve(token) == token <==> token == "en" || token == "ar"
    ensures token != "en" && token != "ar" ==> Resolve(token) == "en"
    ensures Resolve(Resolve(token)) == Resolve(token)
  {
  }

  /** getLocale: scans the supported locales and returns the first one equal to the token. */
  method GetLocale(token: string) returns (l: string)
    ensures l == Resolve(token)
  {
    for i := 0 to |ValidLocales|
      invariant forall j :: 0 <= j < i ==> ValidLocales[j] != token
    {
      if ValidLocales[i] == token {
        return ValidLocales[i];
      }
    }
    return DefaultLocale;
  }

  /**
   * strings.SplitAfterN(path, "/", 2): the text up to and including the first
   * '/', and the rest; None when there is no '/' (the call then yields a single
   * piece, and indexing its second element panics).
   */
  function SplitAfterFirstSlash(path: string): (r: Option<(string, string)>)
    ensures r.None? <==> '/' !in path
    ensures r.Some? ==> r.value.0 + r.value.1 == path
    ensures r.Some? ==> |r.value.0| > 0 && r.value.0[|r.value.0| - 1] == '/'
    ensures r.Some? ==> '/' !in r.value.0[..|r.value.0| - 1]
  {
    if path == [] then None
    else if path[0] == '/' then Some(("/", path[1..]))
    else match SplitAfterFirstSlash(path[1..])
      case None => None
      case Some(p) =>
        assert ([path[0]] + p.0)[..|p.0|] == [path[0]] + p.0[..|p.0| - 1];
        Some(([path[0]] + p.0, p.1))
  }

  /** The locale token of a request path: everything after the first '/'. */
  function LocaleToken(path: string): (r: Option<string>)
    ensures r.None? <==> '/' !in path
    ensures r.Some? ==> |r.value| < |path| && r.value == path[|path| - |r.value|..]
    ensures r.Some? ==> path[|path| - |r.value| - 1] == '/' && '/' !in path[..|path| - |r.value| - 1]
  {
    match SplitAfterFirstSlash(path)
    case None => None
    case Some(p) =>
      assert path[..|p.0|] == p.0 && path[|p.0|..] == p.1;
      assert path[..|p.0| - 1] == p.0[..|p.0| - 1];
      Some(p.1)
  }

  lemma {:induction false} LocaleTokenAfterFirstSlash(pre: string, rest: string)
    requires '/' !in pre
    ensures LocaleToken(pre + "/" + rest) == Some(rest)
  {
    if pre != [] {
      var path := pre + "/" + rest;
      assert path[0] == pre[0] && path[0] != '/';
      assert path[1..] == pre[1..] + "/" + rest;
      LocaleTokenAfterFirstSlash(pre[1..], rest);
    } else {
      assert (pre + "/" + rest)[1..] == rest;
    }
  }

  /** The locale a request is served in (questionnaire.go lines 157-158); None where the handler panics. */
  function PathLocale(path: string): (r: Option<string>)
    ensures r.None? <==> '/' !in path
    ensures r.Some? ==> r.value in ValidLocales
  {
    match LocaleToken(path)
    case None => None
    case Some(token) => Some(Resolve(token))
  }

  lemma PathLocaleOfToken(token: string)
    ensures PathLocale("/" + token) == Some(Resolve(token))
  {
    LocaleTokenAfterFirstSlash("", token);
    assert "" + "/" + token == "/" + token;
  }

  lemma PathLocaleExamples()
    ensures PathLocale("/ar") == Some("ar")
    ensures PathLocale("/en") == Some("en")
    ensures PathLocale("/") == Some("en")
    ensures PathLocale("/xx") == Some("en")
    ensures PathLocale("/ar/x") == Some("en")
    ensures PathLocale("") == None
  {
    PathLocaleOfToken("ar");
    assert "/" + "ar" == "/ar";
    PathLocaleOfToken("en");
    assert "/" + "en" == "/en";
    PathLocaleOfToken("");
    assert "/" + "" == "/";
    PathLocaleOfToken("xx");
    assert "/" + "xx" == "/xx";
    PathLocaleOfToken("ar/x");
    assert "/" + "ar/x" == "/ar/x";
  }
}
