/** The regular-expression library as the module sees it, and the keyword
    normalisation built on it. */
module Regex {

  /** `re.escape`, `re.compile` and `re.search(p, text, re.IGNORECASE)` as
      uninterpreted total functions: `compiles(p)` is false exactly when the
      library raises `re.error` for `p`. */
  datatype Engine = Engine(
    escape: string -> string,
    compiles: string -> bool,
    search: (string, string) -> bool)

  /** A keyword typed as `/X/` with a non-empty `X`: an explicit regex. */
  predicate IsExplicit(kw: string) {
    |kw| > 2 && kw[0] == '/' && kw[|kw| - 1] == '/'
  }

  /** `normalize_keyword`: an explicit regex loses its slashes; anything else is
      escaped and wrapped in word boundaries `\b`. */
  function Normalize(re: Engine, kw: string): string
  {
    if IsExplicit(kw) then kw[1..|kw| - 1] else "\\b" + re.escape(kw) + "\\b"
  }

  /** Every input `/X/` with non-empty `X` yields `X` verbatim, unescaped. */
  lemma ExplicitYieldsInner(re: Engine, x: string)
    requires x != []
    ensures Normalize(re, "/" + x + "/") == x
  {
    var kw := "/" + x + "/";
    assert IsExplicit(kw);
    assert kw[1..|kw| - 1] == x;
  }

  /** An explicit result put back between slashes is the input again. */
  lemma ExplicitReconstructs(re: Engine, kw: string)
    requires IsExplicit(kw)
    ensures "/" + Normalize(re, kw) + "/" == kw
  {
    assert kw == [kw[0]] + kw[1..|kw| - 1] + [kw[|kw| - 1]];
  }

  /** Any input that is not `/X/` with non-empty `X` is escaped and wrapped. */
  lemma NonExplicitWrapped(re: Engine, kw: string)
    requires !(|kw| > 2 && kw[0] == '/' && kw[|kw| - 1] == '/')
    ensures Normalize(re, kw) == "\\b" + re.escape(kw) + "\\b"
  {
  }

  /** The single slash and the two slashes are not explicit regexes. */
  lemma ShortSlashesWrapped(re: Engine)
    ensures Normalize(re, "/") == "\\b" + re.escape("/") + "\\b"
    ensures Normalize(re, "//") == "\\b" + re.escape("//") + "\\b"
  {
  }
}
