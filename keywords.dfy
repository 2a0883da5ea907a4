/** The module's key-value store `nv` and the two comma-joined keyword lists
    kept in it: `raw_keywords` (what the user typed) and `keywords` (the
    patterns matched against messages), index by index. */
module Keywords {
  import opened Text

  const KeywordsKey := "keywords"
  const RawKeywordsKey := "raw_keywords"
  const TopicKey := "ntfy_topic"
  const ServerKey := "ntfy_server"
  const DefaultTopic := "dein-topic"
  const DefaultServer := "https://ntfy.sh"

  /** `nv.get(key, default)`. */
  function Get(nv: map<string, string>, key: string, default: string): string
  {
    if key in nv then nv[key] else default
  }

  /** `if key not in nv: nv[key] = value`. */
  function SetDefault(nv: map<string, string>, key: string, value: string): (r: map<string, string>)
    ensures r.Keys == nv.Keys + {key}
    ensures forall k :: k in nv ==> r[k] == nv[k]
    ensures key !in nv ==> r[key] == value
  {
    if key in nv then nv else nv[key := value]
  }

  /** The store after `OnLoad`: every key present keeps its value, each of
      the four keys that is missing gets its default, nothing else is added. */
  function WithDefaults(nv: map<string, string>): (r: map<string, string>)
    ensures r.Keys == nv.Keys + {KeywordsKey, RawKeywordsKey, TopicKey, ServerKey}
    ensures forall k :: k in nv ==> r[k] == nv[k]
    ensures KeywordsKey !in nv ==> r[KeywordsKey] == ""
    ensures RawKeywordsKey !in nv ==> r[RawKeywordsKey] == ""
    ensures TopicKey !in nv ==> r[TopicKey] == DefaultTopic
    ensures ServerKey !in nv ==> r[ServerKey] == DefaultServer
  {
    var nv1 := SetDefault(nv, KeywordsKey, "");
    var nv2 := SetDefault(nv1, RawKeywordsKey, "");
    var nv3 := SetDefault(nv2, TopicKey, DefaultTopic);
    SetDefault(nv3, ServerKey, DefaultServer)
  }

  /** Defaults are set once: loading again changes nothing. */
  lemma WithDefaultsIdempotent(nv: map<string, string>)
    ensures WithDefaults(WithDefaults(nv)) == WithDefaults(nv)
  {
    var once := WithDefaults(nv);
    var twice := WithDefaults(once);
    assert forall k :: k in twice <==> k in once;
    assert forall k :: k in twice ==> twice[k] == once[k];
  }

  /** A freshly loaded module has no keywords. */
  lemma FreshStoreEmpty()
    ensures RawKeywords(WithDefaults(map[])) == [] && Patterns(WithDefaults(map[])) == []
  {
    var nv := WithDefaults(map[]);
    assert Get(nv, RawKeywordsKey, "") == "" && Get(nv, KeywordsKey, "") == "";
    assert Split([], ',') == [[]];
  }

  /** An element that survives a save and a reload unchanged: non-empty, no
      surrounding whitespace, no comma. */
  predicate Storable(x: string) {
    x != [] && Stripped(x) && ',' !in x
  }

  predicate AllStorable(xs: seq<string>) {
    forall k :: 0 <= k < |xs| ==> Storable(xs[k])
  }

  /** The comprehension `[kw.strip() for kw in parts if kw.strip()]`. */
  function Clean(parts: seq<string>): (r: seq<string>)
    ensures |r| <= |parts|
    ensures (forall k :: 0 <= k < |parts| ==> ',' !in parts[k]) ==> AllStorable(r)
    ensures forall x :: x in r <==> exists k :: 0 <= k < |parts| && x == Strip(parts[k]) && x != []
  {
    if parts == [] then []
    else
      var s := Strip(parts[0]);
      (if s != [] then [s] else []) + Clean(parts[1..])
  }

  /** `get_keywords` / `get_raw_keywords` on the stored string `s`. */
  function ParseList(s: string): (r: seq<string>)
    ensures AllStorable(r)
  {
    Clean(Split(s, ','))
  }

  lemma AppendStorable(xs: seq<string>, x: string)
    requires AllStorable(xs) && Storable(x)
    ensures AllStorable(xs + [x])
  {
  }

  /** `",".join(xs)`. */
  function JoinList(xs: seq<string>): string
  {
    Join(xs, ',')
  }

  function RawKeywords(nv: map<string, string>): seq<string>
  {
    ParseList(Get(nv, RawKeywordsKey, ""))
  }

  function Patterns(nv: map<string, string>): seq<string>
  {
    ParseList(Get(nv, KeywordsKey, ""))
  }

  /** Both lists hold the same number of entries, so index `i` of one belongs
      to index `i` of the other. */
  predicate Aligned(nv: map<string, string>) {
    |RawKeywords(nv)| == |Patterns(nv)|
  }

  /** `save_keywords`: overwrites the two list keys and no other key. */
  function Save(nv: map<string, string>, raws: seq<string>, pats: seq<string>): (r: map<string, string>)
    ensures r.Keys == nv.Keys + {RawKeywordsKey, KeywordsKey}
    ensures forall k :: k in nv && k != RawKeywordsKey && k != KeywordsKey ==> r[k] == nv[k]
  {
    nv[RawKeywordsKey := JoinList(raws)][KeywordsKey := JoinList(pats)]
  }

  /** What a reload reads after `save_keywords`. */
  lemma SavedStrings(nv: map<string, string>, raws: seq<string>, pats: seq<string>)
    ensures Get(Save(nv, raws, pats), RawKeywordsKey, "") == JoinList(raws)
    ensures Get(Save(nv, raws, pats), KeywordsKey, "") == JoinList(pats)
  {
    assert |RawKeywordsKey| != |KeywordsKey|;
  }

  lemma {:induction false} CleanKeepsStorable(xs: seq<string>)
    requires AllStorable(xs)
    ensures Clean(xs) == xs
  {
    if xs != [] {
      CleanKeepsStorable(xs[1..]);
      assert [xs[0]] + xs[1..] == xs;
    }
  }

  /** Reloading a saved list gives it back when every element is storable. */
  lemma ParseJoin(xs: seq<string>)
    requires AllStorable(xs)
    ensures ParseList(JoinList(xs)) == xs
  {
    if xs == [] {
      assert Split([], ',') == [[]];
    } else {
      SplitJoin(xs, ',');
      CleanKeepsStorable(xs);
    }
  }

  /** `save_keywords` followed by `get_raw_keywords` and `get_keywords`
      returns the saved lists when every element is storable. */
  lemma SaveThenLoad(nv: map<string, string>, raws: seq<string>, pats: seq<string>)
    requires AllStorable(raws) && AllStorable(pats)
    ensures RawKeywords(Save(nv, raws, pats)) == raws
    ensures Patterns(Save(nv, raws, pats)) == pats
  {
    SavedStrings(nv, raws, pats);
    ParseJoin(raws);
    ParseJoin(pats);
  }

  lemma ParseExplicitWithComma()
    ensures ParseList("/a,/") == ["/a", "/"]
  {
    assert "/a,/" == "/a" + [','] + "/";
    SplitAfterFirstPiece("/a", "/", ',');
    SplitWithoutSep("/", ',');
    assert Storable("/a") && Storable("/");
    CleanKeepsStorable(["/a", "/"]);
  }

  lemma ParseTrailingComma()
    ensures ParseList("a,") == ["a"]
  {
    assert "a," == "a" + [','] + [];
    SplitAfterFirstPiece("a", [], ',');
    assert Split([], ',') == [[]];
    SplitWithoutSep("a", ',');
    assert Split("a,", ',') == ["a", []];
    assert Strip("a") == "a";
    assert Clean([[]]) == [];
    assert ["a", []][1..] == [[]];
  }

  lemma ParseTwoPieces(a: string, b: string)
    requires Storable(a) && Storable(b)
    ensures ParseList(a + "," + b) == [a, b]
  {
    assert a + "," + b == a + [','] + b;
    SplitAfterFirstPiece(a, b, ',');
    SplitWithoutSep(b, ',');
    CleanKeepsStorable([a, b]);
  }

  /** A comma inside a stored value can turn one rule into several: the
      explicit regex `/a,b/`, stored as raw `/a,b/` and pattern `a,b`, reloads
      as raw `/a`, `b/` and patterns `a`, `b`. */
  lemma CommaSplitsRule(nv: map<string, string>, raws: seq<string>, pats: seq<string>)
    requires raws == ["/a,b/"] && pats == ["a,b"]
    ensures RawKeywords(Save(nv, raws, pats)) == ["/a", "b/"]
    ensures Patterns(Save(nv, raws, pats)) == ["a", "b"]
  {
    SavedStrings(nv, raws, pats);
    assert JoinList(raws) == "/a" + "," + "b/";
    assert JoinList(pats) == "a" + "," + "b";
    assert Storable("/a") && Storable("b/") && Storable("a") && Storable("b");
    ParseTwoPieces("/a", "b/");
    ParseTwoPieces("a", "b");
  }

  /** A comma inside a stored value splits it on reload, and the two lists
      can then differ in length: the explicit regex `/a,/` is stored as raw
      `/a,/` and pattern `a,`, and reloads as raw `/a`, `/` but pattern `a`. */
  lemma CommaMisalignsOnReload(nv: map<string, string>, raws: seq<string>, pats: seq<string>)
    requires raws == ["/a,/"] && pats == ["a,"]
    ensures RawKeywords(Save(nv, raws, pats)) == ["/a", "/"]
    ensures Patterns(Save(nv, raws, pats)) == ["a"]
    ensures |raws| == |pats| && !Aligned(Save(nv, raws, pats))
  {
    SavedStrings(nv, raws, pats);
    assert JoinList(raws) == "/a,/";
    assert JoinList(pats) == "a,";
    ParseExplicitWithComma();
    ParseTrailingComma();
  }

  lemma StripLeadingSpace()
    ensures Strip(" x") == "x"
  {
    assert LeadingSpace("x") == 0;
    assert LeadingSpace(" x") == 1;
    assert LStrip(" x") == "x";
    assert TrailingSpace("x") == 0;
  }

  lemma ParseLeadingSpace()
    ensures ParseList(" x") == ["x"]
  {
    SplitWithoutSep(" x", ',');
    StripLeadingSpace();
    assert Clean([" x"]) == ["x"] + Clean([]);
  }

  lemma ParseSpacedPair()
    ensures ParseList("x, x") == ["x", "x"]
  {
    SplitSpacedPair();
    CleanSpacedPair();
  }

  lemma SplitSpacedPair()
    ensures Split("x, x", ',') == ["x", " x"]
  {
    assert "x, x" == "x" + [','] + " x";
    SplitAfterFirstPiece("x", " x", ',');
    SplitWithoutSep(" x", ',');
  }

  lemma CleanSpacedPair()
    ensures Clean(["x", " x"]) == ["x", "x"]
  {
    StripLeadingSpace();
    assert Strip("x") == "x";
    assert ["x", " x"][1..] == [" x"];
    assert Clean([" x"]) == ["x"] + Clean([]);
  }

  /** Whitespace at either end of a stored pattern is stripped on reload: the
      explicit regex `/ x/` is stored as pattern ` x` and reloads as `x`. */
  lemma SpaceStrippedOnReload(nv: map<string, string>, raws: seq<string>, pats: seq<string>)
    requires raws == ["/ x/"] && pats == [" x"]
    ensures RawKeywords(Save(nv, raws, pats)) == ["/ x/"]
    ensures Patterns(Save(nv, raws, pats)) == ["x"]
  {
    SavedStrings(nv, raws, pats);
    assert JoinList(pats) == " x";
    assert Storable("/ x/");
    ParseJoin(raws);
    ParseLeadingSpace();
  }

  /** Appending ` x` to the reloaded pattern list `x` stores `x, x`, which
      reloads as the same pattern twice. */
  lemma SpaceDuplicatesOnReload(nv: map<string, string>, raws: seq<string>, pats: seq<string>)
    requires raws == ["/ x/", "/ x/"] && pats == ["x", " x"]
    ensures RawKeywords(Save(nv, raws, pats)) == ["/ x/", "/ x/"]
    ensures Patterns(Save(nv, raws, pats)) == ["x", "x"]
  {
    SavedStrings(nv, raws, pats);
    assert JoinList(pats) == "x, x" by {
      assert Join(pats[1..], ',') == " x";
    }
    assert Storable("/ x/");
    ParseJoin(raws);
    ParseSpacedPair();
  }
}
