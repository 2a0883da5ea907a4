/** `OnModCommand`: how a command line is parsed and what each command does to
    the store, the replies and the pushes. */
module Commands {
  import opened Text
  import opened Regex
  import opened Keywords
  import opened Effects
  import opened Dispatch

  datatype Command =
    | Add(arg: string)
    | Del(arg: string)
    | List
    | SetTopic(arg: string)
    | SetServer(arg: string)
    | Test(arg: string)
    | Help

  /** `command.strip().split(" ", 1)`: the lower-cased command word, and the
      stripped rest of the line when there is one. */
  function CommandParts(line: string): (string, Option<string>)
  {
    var parts := SplitOnce(Strip(line), ' ');
    (Lower(parts[0]), if |parts| > 1 then Some(Strip(parts[1])) else None)
  }

  /** The branch of `OnModCommand` taken for a command word and argument: a
      command that needs an argument and has none falls through to the help
      text. */
  function Classify(cmd: string, arg: Option<string>): Command
  {
    match arg
    case Some(a) =>
      if cmd == "add" then Add(a)
      else if cmd == "del" then Del(a)
      else if cmd == "list" then List
      else if cmd == "topic" then SetTopic(a)
      else if cmd == "server" then SetServer(a)
      else if cmd == "test" then Test(a)
      else Help
    case None => if cmd == "list" then List else Help
  }

  function ParseCommand(line: string): Command
  {
    var (cmd, arg) := CommandParts(line);
    Classify(cmd, arg)
  }

  /** A parsed argument is never empty and carries no surrounding whitespace. */
  lemma ParsedArgumentNonEmpty(line: string)
    requires CommandParts(line).1.Some?
    ensures CommandParts(line).1.value != [] && Stripped(CommandParts(line).1.value)
  {
    SplitOnceTail(Strip(line));
  }

  /** The command word is split off at the first space and lower-cased; the
      argument is the rest of the line. */
  lemma WordAndArgument(line: string, w: string, a: string)
    requires w != [] && forall k :: 0 <= k < |w| ==> !IsSpace(w[k])
    requires a != [] && Stripped(a)
    requires line == w + " " + a
    ensures CommandParts(line) == (Lower(w), Some(a))
    ensures ParseCommand(line) == Classify(Lower(w), Some(a))
  {
    assert Stripped(line) by {
      assert line[0] == w[0] && line[|line| - 1] == a[|a| - 1];
    }
    assert ' ' !in w by {
      assert IsSpace(' ');
    }
    SplitOnceAt(w, ' ', a);
    var parts := SplitOnce(Strip(line), ' ');
    assert parts == [w, a];
    assert Strip(a) == a;
  }

  /** A line with no space after stripping has no argument: it lists, or it
      prints the help text. */
  lemma MissingArgumentIsHelp(line: string)
    requires ' ' !in Strip(line)
    ensures CommandParts(line) == (Lower(Strip(line)), None)
    ensures ParseCommand(line) == (if Lower(Strip(line)) == "list" then List else Help)
  {
  }

  /** `list` on its own line lists. */
  lemma ParseListWord()
    ensures ParseCommand("list") == List
  {
    assert Stripped("list");
    assert Strip("list") == "list";
    assert ' ' !in "list";
    MissingArgumentIsHelp("list");
    assert Lower("list") == "list";
  }

  /** What one command does: the new store, the replies in order, the pushes,
      and whether it ended in an uncaught `IndexError`. */
  datatype Outcome = Outcome(nv: map<string, string>, replies: seq<Reply>, pushes: seq<Push>, raised: bool)

  /** The `add` branch. */
  function AddRule(re: Engine, nv: map<string, string>, rawKw: string): (o: Outcome)
    ensures o.pushes == [] && !o.raised
  {
    var regexKw := Normalize(re, rawKw);
    var raws := RawKeywords(nv);
    var pats := Patterns(nv);
    if regexKw !in pats then
      if re.compiles(regexKw) then
        Outcome(Save(nv, raws + [rawKw], pats + [regexKw]), [Added(rawKw, regexKw)], [], false)
      else Outcome(nv, [InvalidRegex], [], false)
    else Outcome(nv, [AlreadyExists(rawKw)], [], false)
  }

  /** The `del` branch: both lists lose the entry at the first position of the
      pattern; when the raw list is too short for that position, `del
      raw_list[idx]` raises before anything is saved. */
  function DelRule(re: Engine, nv: map<string, string>, rawKw: string): (o: Outcome)
    ensures o.pushes == []
  {
    var regexKw := Normalize(re, rawKw);
    var raws := RawKeywords(nv);
    var pats := Patterns(nv);
    if regexKw in pats then
      var idx := FirstIndex(pats, regexKw);
      if idx < |raws| then
        Outcome(Save(nv, RemoveAt(raws, idx), RemoveAt(pats, idx)), [Removed(rawKw)], [], false)
      else Outcome(nv, [], [], true)
    else Outcome(nv, [NotFound(rawKw)], [], false)
  }

  /** `zip(raw_list, regex_list)`: one line per pair, up to the shorter list. */
  function ListEntries(raws: seq<string>, pats: seq<string>): seq<Reply>
  {
    seq(if |raws| < |pats| then |raws| else |pats|,
        k requires 0 <= k < |raws| && k < |pats| => ListEntry(raws[k], pats[k]))
  }

  /** What `list` prints for the two lists and the configured endpoint. */
  function Listing(raws: seq<string>, pats: seq<string>, topic: string, server: string): seq<Reply>
  {
    (if raws != [] then [ListHeader] + ListEntries(raws, pats) else [NoKeywords])
    + [CurrentTopic(topic), CurrentServer(server)]
  }

  /** The `list` branch. */
  function ListReplies(nv: map<string, string>): seq<Reply>
  {
    Listing(RawKeywords(nv), Patterns(nv), Get(nv, TopicKey, DefaultTopic), Get(nv, ServerKey, DefaultServer))
  }

  /** What one parsed command does to the store `nv`. */
  function Run(re: Engine, nv: map<string, string>, cmd: Command): Outcome
  {
    match cmd
    case Add(a) => AddRule(re, nv, a)
    case Del(a) => DelRule(re, nv, a)
    case List => Outcome(nv, ListReplies(nv), [], false)
    case SetTopic(t) => Outcome(nv[TopicKey := t], [TopicSet(t)], [], false)
    case SetServer(s) => Outcome(nv[ServerKey := s], [ServerSet(s)], [], false)
    case Test(m) => Outcome(nv, [TestSent], [Push(Endpoint(nv), "[TEST] " + m)], false)
    case Help => Outcome(nv, [Usage], [], false)
  }

  /** `OnModCommand(line)` on the store `nv`. */
  function Execute(re: Engine, nv: map<string, string>, line: string): Outcome
  {
    Run(re, nv, ParseCommand(line))
  }

  predicate Distinct(xs: seq<string>) {
    forall i, j :: 0 <= i < j < |xs| ==> xs[i] != xs[j]
  }

  /** A duplicate is refused without compiling: the outcome is the same
      whatever the compiler would say, and nothing is stored. A pattern that
      does not compile stores nothing either. */
  lemma AddRejects(re: Engine, nv: map<string, string>, rawKw: string, otherCompiles: string -> bool)
    ensures Normalize(re, rawKw) in Patterns(nv) ==>
      && AddRule(re, nv, rawKw) == Outcome(nv, [AlreadyExists(rawKw)], [], false)
      && AddRule(re.(compiles := otherCompiles), nv, rawKw) == AddRule(re, nv, rawKw)
    ensures Normalize(re, rawKw) !in Patterns(nv) && !re.compiles(Normalize(re, rawKw)) ==>
      AddRule(re, nv, rawKw) == Outcome(nv, [InvalidRegex], [], false)
  {
    assert Normalize(re.(compiles := otherCompiles), rawKw) == Normalize(re, rawKw);
  }

  /** A new pattern that compiles is saved after the existing ones, its raw
      input after the existing raw inputs; nothing else is stored (see `Save`
      for the keys left alone). */
  lemma AddSaves(re: Engine, nv: map<string, string>, rawKw: string, regexKw: string)
    requires regexKw == Normalize(re, rawKw)
    requires regexKw !in Patterns(nv) && re.compiles(regexKw)
    ensures AddRule(re, nv, rawKw)
      == Outcome(Save(nv, RawKeywords(nv) + [rawKw], Patterns(nv) + [regexKw]), [Added(rawKw, regexKw)], [], false)
  {
  }

  /** Reloaded after an `add`, the lists are the old ones with the new entry
      at the end. Holds for storable inputs (see `AddWithCommaMisaligns` for
      one that is not). */
  lemma AddAppends(re: Engine, nv: map<string, string>, rawKw: string)
    requires Storable(rawKw) && Storable(Normalize(re, rawKw))
    requires Normalize(re, rawKw) !in Patterns(nv) && re.compiles(Normalize(re, rawKw))
    ensures var regexKw := Normalize(re, rawKw);
      var o := AddRule(re, nv, rawKw);
      && o == Outcome(Save(nv, RawKeywords(nv) + [rawKw], Patterns(nv) + [regexKw]), [Added(rawKw, regexKw)], [], false)
      && RawKeywords(o.nv) == RawKeywords(nv) + [rawKw]
      && Patterns(o.nv) == Patterns(nv) + [regexKw]
  {
    var regexKw := Normalize(re, rawKw);
    var raws := RawKeywords(nv);
    var pats := Patterns(nv);
    AddSaves(re, nv, rawKw, regexKw);
    AppendStorable(raws, rawKw);
    AppendStorable(pats, regexKw);
    SaveThenLoad(nv, raws + [rawKw], pats + [regexKw]);
  }

  /** An `add` of storable values keeps the two lists aligned. */
  lemma AddKeepsAlignment(re: Engine, nv: map<string, string>, rawKw: string)
    requires Storable(rawKw) && Storable(Normalize(re, rawKw))
    requires Aligned(nv)
    ensures Aligned(AddRule(re, nv, rawKw).nv)
  {
    var regexKw := Normalize(re, rawKw);
    if regexKw !in Patterns(nv) && re.compiles(regexKw) {
      AddAppends(re, nv, rawKw);
      var o := AddRule(re, nv, rawKw);
      assert |RawKeywords(o.nv)| == |RawKeywords(nv)| + 1;
      assert |Patterns(o.nv)| == |Patterns(nv)| + 1;
    }
  }

  /** No two stored patterns are equal after an `add` if none were before. */
  lemma AddKeepsPatternsDistinct(re: Engine, nv: map<string, string>, rawKw: string)
    requires Storable(rawKw) && Storable(Normalize(re, rawKw))
    requires Distinct(Patterns(nv))
    ensures Distinct(Patterns(AddRule(re, nv, rawKw).nv))
  {
    var regexKw := Normalize(re, rawKw);
    if regexKw !in Patterns(nv) && re.compiles(regexKw) {
      AddAppends(re, nv, rawKw);
    }
  }

  /** Adding the same keyword twice: the second time it already exists and
      nothing changes. */
  lemma AddTwice(re: Engine, nv: map<string, string>, rawKw: string)
    requires Storable(rawKw) && Storable(Normalize(re, rawKw))
    requires re.compiles(Normalize(re, rawKw))
    ensures var once := AddRule(re, nv, rawKw);
      AddRule(re, once.nv, rawKw) == Outcome(once.nv, [AlreadyExists(rawKw)], [], false)
  {
    var regexKw := Normalize(re, rawKw);
    var once := AddRule(re, nv, rawKw);
    if regexKw !in Patterns(nv) {
      AddAppends(re, nv, rawKw);
      assert Patterns(once.nv)[|Patterns(nv)|] == regexKw;
    }
    AddRejects(re, once.nv, rawKw, re.compiles);
  }

  /** `list` always ends with the topic and the server. */
  lemma ListingEnds(raws: seq<string>, pats: seq<string>, topic: string, server: string)
    ensures var l := Listing(raws, pats, topic, server);
      |l| >= 3 && l[|l| - 2..] == [CurrentTopic(topic), CurrentServer(server)]
  {
  }

  /** `list` ends with the configured topic and server, defaults filled in. */
  lemma ListedEndpoint(re: Engine, nv: map<string, string>)
    ensures var l := Run(re, nv, List).replies;
      && |l| >= 3
      && l[|l| - 2..] == [CurrentTopic(Get(nv, TopicKey, DefaultTopic)), CurrentServer(Get(nv, ServerKey, DefaultServer))]
  {
    ListingEnds(RawKeywords(nv), Patterns(nv), Get(nv, TopicKey, DefaultTopic), Get(nv, ServerKey, DefaultServer));
  }

  /** Lists that end in the pair `(r, p)`, `p` appearing nowhere before,
      show that pair once, just before the topic and the server. */
  lemma ListedLast(raws: seq<string>, pats: seq<string>, r: string, p: string, topic: string, server: string)
    requires |raws| == |pats| && p !in pats
    ensures var l := Listing(raws + [r], pats + [p], topic, server);
      && |l| >= 4
      && l[|l| - 3] == ListEntry(r, p)
      && forall k :: 0 <= k < |l| - 3 ==> l[k] != ListEntry(r, p)
  {
    var n := |raws|;
    var entries := ListEntries(raws + [r], pats + [p]);
    assert |entries| == n + 1;
    var l := Listing(raws + [r], pats + [p], topic, server);
    assert l == [ListHeader] + entries + [CurrentTopic(topic), CurrentServer(server)];
    assert l[|l| - 3] == entries[n];
    forall k | 0 <= k < |l| - 3
      ensures l[k] != ListEntry(r, p)
    {
      if k > 0 {
        assert l[k] == entries[k - 1] == ListEntry(raws[k - 1], pats[k - 1]);
      }
    }
  }

  /** After a successful `add`, `list` shows the new pair once, as its last
      entry. */
  lemma AddThenList(re: Engine, nv: map<string, string>, rawKw: string)
    requires Storable(rawKw) && Storable(Normalize(re, rawKw))
    requires Normalize(re, rawKw) !in Patterns(nv) && re.compiles(Normalize(re, rawKw))
    requires Aligned(nv)
    ensures var l := ListReplies(AddRule(re, nv, rawKw).nv);
      && |l| >= 4
      && l[|l| - 3] == ListEntry(rawKw, Normalize(re, rawKw))
      && forall k :: 0 <= k < |l| - 3 ==> l[k] != ListEntry(rawKw, Normalize(re, rawKw))
  {
    AddAppends(re, nv, rawKw);
    var nv' := AddRule(re, nv, rawKw).nv;
    var topic, server := Get(nv', TopicKey, DefaultTopic), Get(nv', ServerKey, DefaultServer);
    ListedLast(RawKeywords(nv), Patterns(nv), rawKw, Normalize(re, rawKw), topic, server);
    assert ListReplies(nv') == Listing(RawKeywords(nv) + [rawKw], Patterns(nv) + [Normalize(re, rawKw)], topic, server);
  }

  /** `del` of an absent pattern changes nothing; of a present one, it
      removes the entry at the pattern's first position from both lists, the
      others keeping their order. It raises exactly when the raw list is too
      short for that position, which aligned lists never are. */
  lemma DelSpec(re: Engine, nv: map<string, string>, rawKw: string)
    ensures var regexKw := Normalize(re, rawKw);
      var o := DelRule(re, nv, rawKw);
      && (regexKw !in Patterns(nv) ==> o == Outcome(nv, [NotFound(rawKw)], [], false))
      && (o.raised <==>
            regexKw in Patterns(nv) && FirstIndex(Patterns(nv), regexKw) >= |RawKeywords(nv)|)
      && (o.raised ==> o.nv == nv && o.replies == [])
      && (regexKw in Patterns(nv) && !o.raised ==>
            var idx := FirstIndex(Patterns(nv), regexKw);
            && o.nv == Save(nv, RemoveAt(RawKeywords(nv), idx), RemoveAt(Patterns(nv), idx))
            && RawKeywords(o.nv) == RemoveAt(RawKeywords(nv), idx)
            && Patterns(o.nv) == RemoveAt(Patterns(nv), idx)
            && o.replies == [Removed(rawKw)])
  {
    var regexKw := Normalize(re, rawKw);
    var raws := RawKeywords(nv);
    var pats := Patterns(nv);
    if regexKw in pats {
      var idx := FirstIndex(pats, regexKw);
      if idx < |raws| {
        var raws' := RemoveAt(raws, idx);
        var pats' := RemoveAt(pats, idx);
        assert AllStorable(raws') by {
          forall k | 0 <= k < |raws'| ensures Storable(raws'[k]) {
            if k < idx { assert raws'[k] == raws[k]; } else { assert raws'[k] == raws[k + 1]; }
          }
        }
        assert AllStorable(pats') by {
          forall k | 0 <= k < |pats'| ensures Storable(pats'[k]) {
            if k < idx { assert pats'[k] == pats[k]; } else { assert pats'[k] == pats[k + 1]; }
          }
        }
        SaveThenLoad(nv, raws', pats');
      }
    }
  }

  /** Aligned lists never make `del` raise, and stay aligned. */
  lemma DelKeepsAlignment(re: Engine, nv: map<string, string>, rawKw: string)
    requires Aligned(nv)
    ensures !DelRule(re, nv, rawKw).raised
    ensures Aligned(DelRule(re, nv, rawKw).nv)
  {
    DelSpec(re, nv, rawKw);
    var regexKw := Normalize(re, rawKw);
    var o := DelRule(re, nv, rawKw);
    var n := |RawKeywords(nv)|;
    assert |Patterns(nv)| == n;
    if regexKw in Patterns(nv) {
      assert FirstIndex(Patterns(nv), regexKw) < n;
      assert |RawKeywords(o.nv)| == n - 1;
      assert |Patterns(o.nv)| == n - 1;
    }
  }

  /** Removing the first occurrence from a list without repetitions removes
      every occurrence and leaves no repetition. */
  lemma RemoveFromDistinct(xs: seq<string>, x: string)
    requires Distinct(xs) && x in xs
    ensures var r := RemoveAt(xs, FirstIndex(xs, x)); x !in r && Distinct(r)
  {
    var idx := FirstIndex(xs, x);
    var r := RemoveAt(xs, idx);
    forall k | 0 <= k < |r| ensures r[k] != x {
      if k < idx { assert r[k] == xs[k]; } else { assert r[k] == xs[k + 1]; }
    }
    forall i, j | 0 <= i < j < |r| ensures r[i] != r[j] {
      var i' := if i < idx then i else i + 1;
      var j' := if j < idx then j else j + 1;
      assert r[i] == xs[i'] && r[j] == xs[j'];
    }
  }

  /** With distinct patterns, `del` leaves no trace of the pattern. */
  lemma DelRemovesPattern(re: Engine, nv: map<string, string>, rawKw: string)
    requires Distinct(Patterns(nv)) && Aligned(nv)
    ensures Normalize(re, rawKw) !in Patterns(DelRule(re, nv, rawKw).nv)
    ensures Distinct(Patterns(DelRule(re, nv, rawKw).nv))
  {
    DelSpec(re, nv, rawKw);
    DelKeepsAlignment(re, nv, rawKw);
    var regexKw := Normalize(re, rawKw);
    if regexKw in Patterns(nv) {
      RemoveFromDistinct(Patterns(nv), regexKw);
    }
  }

  /** `topic` and `server` write their own key and no other. */
  lemma ConfigCommandsTouchOneKey(re: Engine, nv: map<string, string>, cmd: Command)
    requires cmd.SetTopic? || cmd.SetServer?
    ensures var key := if cmd.SetTopic? then TopicKey else ServerKey;
      var o := Run(re, nv, cmd);
      && key in o.nv && o.nv[key] == cmd.arg
      && (forall k :: k != key ==> (k in o.nv <==> k in nv))
      && (forall k :: k != key && k in nv ==> o.nv[k] == nv[k])
      && o.pushes == [] && !o.raised
  {
  }

  /** `add` writes only the two list keys: where pushes go is unchanged. */
  lemma AddKeepsEndpoint(re: Engine, nv: map<string, string>, rawKw: string)
    ensures Endpoint(AddRule(re, nv, rawKw).nv) == Endpoint(nv)
  {
    var regexKw := Normalize(re, rawKw);
    if regexKw !in Patterns(nv) && re.compiles(regexKw) {
      AddSaves(re, nv, rawKw, regexKw);
      SaveKeepsEndpoint(nv, RawKeywords(nv) + [rawKw], Patterns(nv) + [regexKw]);
    }
  }

  /** `del` writes only the two list keys: where pushes go is unchanged. */
  lemma DelKeepsEndpoint(re: Engine, nv: map<string, string>, rawKw: string)
    ensures Endpoint(DelRule(re, nv, rawKw).nv) == Endpoint(nv)
  {
    DelSpec(re, nv, rawKw);
    var regexKw := Normalize(re, rawKw);
    if regexKw in Patterns(nv) && !DelRule(re, nv, rawKw).raised {
      var idx := FirstIndex(Patterns(nv), regexKw);
      SaveKeepsEndpoint(nv, RemoveAt(RawKeywords(nv), idx), RemoveAt(Patterns(nv), idx));
    }
  }

  /** Which command each lower-cased word selects: `list` with or without an
      argument, the others only with one. */
  lemma CommandWords(a: string)
    ensures Classify("add", Some(a)) == Add(a) && Classify("del", Some(a)) == Del(a)
    ensures Classify("topic", Some(a)) == SetTopic(a) && Classify("server", Some(a)) == SetServer(a)
    ensures Classify("test", Some(a)) == Test(a)
    ensures Classify("list", Some(a)) == List && Classify("list", None) == List
    ensures Classify("add", None) == Help && Classify("del", None) == Help
    ensures Classify("topic", None) == Help && Classify("server", None) == Help
    ensures Classify("test", None) == Help
  {
  }

  /** The command word is matched whatever its case: a word spelling one of
      the six command words in any mix of cases selects that word's branch,
      and any other word selects the help text. */
  lemma CommandWordAnyCase(w: string, arg: Option<string>)
    ensures CaseVariant(w, "add") ==> Classify(Lower(w), arg) == Classify("add", arg)
    ensures CaseVariant(w, "del") ==> Classify(Lower(w), arg) == Classify("del", arg)
    ensures CaseVariant(w, "list") ==> Classify(Lower(w), arg) == Classify("list", arg)
    ensures CaseVariant(w, "topic") ==> Classify(Lower(w), arg) == Classify("topic", arg)
    ensures CaseVariant(w, "server") ==> Classify(Lower(w), arg) == Classify("server", arg)
    ensures CaseVariant(w, "test") ==> Classify(Lower(w), arg) == Classify("test", arg)
    ensures !CaseVariant(w, "add") && !CaseVariant(w, "del") && !CaseVariant(w, "list")
      && !CaseVariant(w, "topic") && !CaseVariant(w, "server") && !CaseVariant(w, "test")
      ==> Classify(Lower(w), arg) == Help
  {
    LowerMatchesCaseVariant(w, "add");
    LowerMatchesCaseVariant(w, "del");
    LowerMatchesCaseVariant(w, "list");
    LowerMatchesCaseVariant(w, "topic");
    LowerMatchesCaseVariant(w, "server");
    LowerMatchesCaseVariant(w, "test");
  }

  /** A topic and a server set by command are what a later `test` push goes
      to. */
  lemma ConfigThenTest(re: Engine, nv: map<string, string>, topic: string, server: string, msg: string)
    ensures var nv1 := Run(re, nv, SetTopic(topic)).nv;
      var nv2 := Run(re, nv1, SetServer(server)).nv;
      Run(re, nv2, Test(msg)).pushes == [Push(Url(server, topic), "[TEST] " + msg)]
  {
    var nv2 := nv[TopicKey := topic][ServerKey := server];
    assert |TopicKey| != |ServerKey|;
    assert Endpoint(nv2) == Url(server, topic);
  }

  /** A topic and a server set by command are what a later `list` shows last. */
  lemma ConfigThenList(re: Engine, nv: map<string, string>, topic: string, server: string)
    ensures var nv1 := Run(re, nv, SetTopic(topic)).nv;
      var nv2 := Run(re, nv1, SetServer(server)).nv;
      var l := Run(re, nv2, List).replies;
      |l| >= 3 && l[|l| - 2..] == [CurrentTopic(topic), CurrentServer(server)]
  {
    var nv1 := Run(re, nv, SetTopic(topic)).nv;
    var nv2 := Run(re, nv1, SetServer(server)).nv;
    assert nv2 == nv[TopicKey := topic][ServerKey := server];
    assert |TopicKey| != |ServerKey|;
    assert Get(nv2, TopicKey, DefaultTopic) == topic && Get(nv2, ServerKey, DefaultServer) == server;
    ListedEndpoint(re, nv2);
  }

  /** `add /a,/` stores the raw input `/a,/` and the pattern `a,`. */
  lemma AddExplicitWithComma(re: Engine, nv: map<string, string>)
    requires "a," !in Patterns(nv) && re.compiles("a,")
    ensures AddRule(re, nv, "/a,/")
      == Outcome(Save(nv, RawKeywords(nv) + ["/a,/"], Patterns(nv) + ["a,"]), [Added("/a,/", "a,")], [], false)
  {
    ExplicitCommaNormalizes(re);
    AddSaves(re, nv, "/a,/", "a,");
  }

  lemma ExplicitCommaNormalizes(re: Engine)
    ensures Normalize(re, "/a,/") == "a,"
  {
    assert IsExplicit("/a,/");
  }

  /** Adding the explicit regex `/a,/` to empty lists breaks their alignment:
      the comma splits both stored values on reload, differently. */
  lemma AddWithCommaMisaligns(re: Engine, nv: map<string, string>)
    requires RawKeywords(nv) == [] && Patterns(nv) == []
    requires re.compiles("a,")
    ensures AddRule(re, nv, "/a,/").replies == [Added("/a,/", "a,")]
    ensures Aligned(nv) && !Aligned(AddRule(re, nv, "/a,/").nv)
  {
    AddExplicitWithComma(re, nv);
    CommaMisalignsOnReload(nv, RawKeywords(nv) + ["/a,/"], Patterns(nv) + ["a,"]);
  }

  lemma ExplicitSpaceNormalizes(re: Engine)
    ensures Normalize(re, "/ x/") == " x"
  {
    assert IsExplicit("/ x/");
  }

  /** Adding the explicit regex `/ x/` to empty lists stores the pattern ` x`,
      which reloads as `x`. */
  lemma AddSpacedOnce(re: Engine, nv: map<string, string>)
    requires RawKeywords(nv) == [] && Patterns(nv) == []
    requires re.compiles(" x")
    ensures var o := AddRule(re, nv, "/ x/");
      && o.replies == [Added("/ x/", " x")]
      && RawKeywords(o.nv) == ["/ x/"] && Patterns(o.nv) == ["x"]
  {
    ExplicitSpaceNormalizes(re);
    AddSaves(re, nv, "/ x/", " x");
    SpaceStrippedOnReload(nv, RawKeywords(nv) + ["/ x/"], Patterns(nv) + [" x"]);
  }

  /** Because the reloaded pattern lost its space, the same `add / x/` is
      accepted a second time, and the pattern list then holds `x` twice. */
  lemma AddSpacedTwice(re: Engine, nv: map<string, string>)
    requires RawKeywords(nv) == [] && Patterns(nv) == []
    requires re.compiles(" x")
    ensures var once := AddRule(re, nv, "/ x/").nv;
      var twice := AddRule(re, once, "/ x/");
      && twice.replies == [Added("/ x/", " x")]
      && RawKeywords(twice.nv) == ["/ x/", "/ x/"] && Patterns(twice.nv) == ["x", "x"]
      && !Distinct(Patterns(twice.nv))
  {
    AddSpacedOnce(re, nv);
    var once := AddRule(re, nv, "/ x/").nv;
    AddSpacedAgain(re, once);
    SpaceDuplicatesOnReload(once, ["/ x/", "/ x/"], ["x", " x"]);
    var p := Patterns(AddRule(re, once, "/ x/").nv);
    assert p[0] == p[1];
  }

  lemma AddSpacedAgain(re: Engine, once: map<string, string>)
    requires RawKeywords(once) == ["/ x/"] && Patterns(once) == ["x"]
    requires re.compiles(" x")
    ensures AddRule(re, once, "/ x/")
      == Outcome(Save(once, ["/ x/", "/ x/"], ["x", " x"]), [Added("/ x/", " x")], [], false)
  {
    ExplicitSpaceNormalizes(re);
    assert " x" !in Patterns(once) by {
      assert |" x"| != |"x"|;
    }
    AddSaves(re, once, "/ x/", " x");
    assert RawKeywords(once) + ["/ x/"] == ["/ x/", "/ x/"];
    assert Patterns(once) + [" x"] == ["x", " x"];
  }

  /** `del / x/` looks for ` x`, which no reloaded pattern is: after one `add
      / x/` or two, it reports the keyword as not found and changes nothing. */
  lemma DelSpacedNotFound(re: Engine, nv: map<string, string>)
    requires RawKeywords(nv) == [] && Patterns(nv) == []
    requires re.compiles(" x")
    ensures var once := AddRule(re, nv, "/ x/").nv;
      DelRule(re, once, "/ x/") == Outcome(once, [NotFound("/ x/")], [], false)
    ensures var twice := AddRule(re, AddRule(re, nv, "/ x/").nv, "/ x/").nv;
      DelRule(re, twice, "/ x/") == Outcome(twice, [NotFound("/ x/")], [], false)
  {
    AddSpacedOnce(re, nv);
    AddSpacedTwice(re, nv);
    ExplicitSpaceNormalizes(re);
    var once := AddRule(re, nv, "/ x/").nv;
    var twice := AddRule(re, once, "/ x/").nv;
    assert " x" !in Patterns(once);
    assert " x" !in Patterns(twice);
  }

  /** A plain keyword is stored intact when its escaped form has no comma:
      the `\\b` around it is neither blank nor a comma. */
  lemma PlainKeywordStorable(re: Engine, kw: string)
    requires !IsExplicit(kw) && ',' !in re.escape(kw)
    ensures Storable(Normalize(re, kw))
  {
    var p := Normalize(re, kw);
    assert p == "\\b" + re.escape(kw) + "\\b";
    assert p[0] == '\\' && p[|p| - 1] == 'b';
    assert !IsSpace('\\') && !IsSpace('b');
  }

  /** The end-to-end run: on a freshly loaded module, `add` a plain keyword,
      then a message it matches is pushed once, to
      `https://ntfy.sh/dein-topic`. */
  lemma AddThenMessage(re: Engine, kw: string, sender: string, context: string, text: string)
    requires Storable(kw) && !IsExplicit(kw) && ',' !in re.escape(kw)
    requires re.compiles(Normalize(re, kw)) && re.search(Normalize(re, kw), text)
    ensures var nv := AddRule(re, WithDefaults(map[]), kw).nv;
      MessagePushes(re, nv, sender, context, text)
      == [Push("https://ntfy.sh/dein-topic", PushText(sender, context, text))]
  {
    var nv0 := WithDefaults(map[]);
    FreshStoreEmpty();
    var regexKw := Normalize(re, kw);
    PlainKeywordStorable(re, kw);
    AddAppends(re, nv0, kw);
    var nv := AddRule(re, nv0, kw).nv;
    assert Patterns(nv) == [regexKw];
    assert FirstMatch(re, Patterns(nv), text).hit == Some(0);
    SaveKeepsEndpoint(nv0, RawKeywords(nv0) + [kw], Patterns(nv0) + [regexKw]);
    DefaultEndpoint();
    assert Endpoint(nv) == "https://ntfy.sh/dein-topic";
  }
}
