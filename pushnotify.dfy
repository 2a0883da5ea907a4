/** The ZNC module object `pushnotify`: its store `nv`, and the lines it has
    written to the user and the pushes it has sent so far. Each method is
    tied to the pure definition of what it does in `Keywords`, `Dispatch`
    and `Commands`. */
module PushNotify {
  import opened Text
  import opened Regex
  import opened Keywords
  import opened Effects
  import opened Dispatch
  import opened Commands

  class Module {
    /** The regular-expression library the module calls. */
    const re: Engine
    var nv: map<string, string>
    var replies: seq<Reply>
    var pushes: seq<Push>

    /** A module with the store ZNC hands it and nothing written or sent yet. */
    constructor (re: Engine, stored: map<string, string>)
      ensures this.re == re && nv == stored
      ensures replies == [] && pushes == []
    {
      this.re := re;
      nv := stored;
      replies := [];
      pushes := [];
    }

    /** `OnLoad`: each of the four keys that is missing gets its default. */
    method OnLoad() returns (ok: bool)
      modifies this
      ensures nv == WithDefaults(old(nv))
      ensures replies == old(replies) && pushes == old(pushes)
      ensures ok
    {
      FillDefault(KeywordsKey, "");
      FillDefault(RawKeywordsKey, "");
      FillDefault(TopicKey, DefaultTopic);
      FillDefault(ServerKey, DefaultServer);
      ok := true;
    }

    /** One `if key not in self.nv: self.nv[key] = value` of `OnLoad`. */
    method FillDefault(key: string, value: string)
      modifies this
      ensures nv == SetDefault(old(nv), key, value)
      ensures replies == old(replies) && pushes == old(pushes)
    {
      if key !in nv {
        nv := nv[key := value];
      }
    }

    /** `PutModule`: one more line on the module's query window. */
    method PutModule(r: Reply)
      modifies this
      ensures replies == old(replies) + [r]
      ensures nv == old(nv) && pushes == old(pushes)
    {
      replies := replies + [r];
    }

    /** `save_keywords`: both lists are written back comma-joined. */
    method SaveKeywords(rawList: seq<string>, regexList: seq<string>)
      modifies this
      ensures nv == Save(old(nv), rawList, regexList)
      ensures replies == old(replies) && pushes == old(pushes)
    {
      nv := nv[RawKeywordsKey := JoinList(rawList)];
      nv := nv[KeywordsKey := JoinList(regexList)];
    }

    /** `do_push`: the body goes to the endpoint of the current store. */
    method DoPush(pushText: string)
      modifies this
      ensures pushes == old(pushes) + [Push(Endpoint(old(nv)), pushText)]
      ensures nv == old(nv) && replies == old(replies)
    {
      var topic := Get(nv, TopicKey, DefaultTopic);
      var server := Get(nv, ServerKey, DefaultServer);
      var url := RStripChar(server, '/') + "/" + topic;
      pushes := pushes + [Push(url, pushText)];
    }

    /** `send_push`: one notification for a message. */
    method SendPush(sender: string, context: string, text: string)
      modifies this
      ensures pushes == old(pushes) + [Push(Endpoint(old(nv)), PushText(sender, context, text))]
      ensures nv == old(nv) && replies == old(replies)
    {
      DoPush("[" + context + "] <" + sender + "> " + text);
    }

    /** `check_message`: the stored patterns are tried in order; one that does
        not compile is reported and skipped, the first that matches sends the
        single push and ends the scan. */
    method CheckMessage(sender: string, context: string, text: string)
      modifies this
      ensures nv == old(nv)
      ensures replies == old(replies) + Diagnostics(FirstMatch(re, Patterns(old(nv)), text).invalid)
      ensures pushes == old(pushes) + MessagePushes(re, old(nv), sender, context, text)
    {
      var kws := Patterns(nv);
      ScanPatterns(kws, sender, context, text);
    }

    /** The loop of `check_message` over the patterns `kws`. */
    method ScanPatterns(kws: seq<string>, sender: string, context: string, text: string)
      modifies this
      ensures nv == old(nv)
      ensures replies == old(replies) + Diagnostics(FirstMatch(re, kws, text).invalid)
      ensures pushes == old(pushes)
        + (if FirstMatch(re, kws, text).hit.Some? then [Push(Endpoint(nv), PushText(sender, context, text))] else [])
    {
      ghost var bad: seq<string> := [];
      var i := 0;
      while i < |kws|
        invariant i <= |kws| && nv == old(nv)
        invariant FirstMatch(re, kws, text).invalid == bad + ScanFrom(re, kws, text, i).invalid
        invariant FirstMatch(re, kws, text).hit == ScanFrom(re, kws, text, i).hit
        invariant replies == old(replies) + Diagnostics(bad)
        invariant pushes == old(pushes)
        decreases |kws| - i
      {
        if !re.compiles(kws[i]) {
          SkipInvalid(re, kws, text, i, bad);
          DiagnosticsAppend(bad, kws[i]);
          PutModule(InvalidStoredRegex(kws[i]));
          bad := bad + [kws[i]];
        } else if re.search(kws[i], text) {
          assert bad + [] == bad;
          SendPush(sender, context, text);
          return;
        }
        i := i + 1;
      }
      assert bad + [] == bad;
    }

    /** `OnModCommand`: the line is split into its command word and argument,
        the `if`/`elif` chain picks the branch, and the branch runs on the
        store. */
    method OnModCommand(command: string) returns (raised: bool)
      modifies this
      ensures nv == Execute(re, old(nv), command).nv
      ensures replies == old(replies) + Execute(re, old(nv), command).replies
      ensures pushes == old(pushes) + Execute(re, old(nv), command).pushes
      ensures raised == Execute(re, old(nv), command).raised
    {
      var parts := SplitOnce(Strip(command), ' ');
      var cmd := Lower(parts[0]);
      var arg := if |parts| > 1 then Some(Strip(parts[1])) else None;
      assert CommandParts(command) == (cmd, arg);
      raised := Perform(Classify(cmd, arg));
    }

    /** The body of the branch for one command. */
    method Perform(c: Command) returns (raised: bool)
      modifies this
      ensures nv == Run(re, old(nv), c).nv
      ensures replies == old(replies) + Run(re, old(nv), c).replies
      ensures pushes == old(pushes) + Run(re, old(nv), c).pushes
      ensures raised == Run(re, old(nv), c).raised
    {
      raised := false;
      match c
      case Add(rawKw) =>
        AddKeyword(rawKw);
        assert Run(re, old(nv), c) == AddRule(re, old(nv), rawKw);
      case Del(rawKw) =>
        raised := DelKeyword(rawKw);
        assert Run(re, old(nv), c) == DelRule(re, old(nv), rawKw);
      case List =>
        ListKeywords();
        assert Run(re, old(nv), c) == Outcome(old(nv), ListReplies(old(nv)), [], false);
      case SetTopic(topic) =>
        SetTopicKey(topic);
      case SetServer(server) =>
        SetServerKey(server);
      case Test(msg) =>
        SendTest(msg);
      case Help =>
        PutModule(Usage);
        assert Run(re, old(nv), c) == Outcome(nv, [Usage], [], false);
    }

    /** The `topic` branch of `OnModCommand`. */
    method SetTopicKey(topic: string)
      modifies this
      ensures var o := Run(re, old(nv), SetTopic(topic));
        nv == o.nv && replies == old(replies) + o.replies && pushes == old(pushes) + o.pushes && !o.raised
    {
      nv := nv[TopicKey := topic];
      PutModule(TopicSet(topic));
    }

    /** The `server` branch of `OnModCommand`. */
    method SetServerKey(server: string)
      modifies this
      ensures var o := Run(re, old(nv), SetServer(server));
        nv == o.nv && replies == old(replies) + o.replies && pushes == old(pushes) + o.pushes && !o.raised
    {
      nv := nv[ServerKey := server];
      PutModule(ServerSet(server));
    }

    /** The `test` branch of `OnModCommand`. */
    method SendTest(msg: string)
      modifies this
      ensures var o := Run(re, old(nv), Test(msg));
        nv == o.nv && replies == old(replies) + o.replies && pushes == old(pushes) + o.pushes && !o.raised
    {
      DoPush("[TEST] " + msg);
      PutModule(TestSent);
    }

    /** The `add` branch of `OnModCommand`. */
    method AddKeyword(rawKw: string)
      modifies this
      ensures var o := AddRule(re, old(nv), rawKw);
        nv == o.nv && replies == old(replies) + o.replies && pushes == old(pushes)
    {
      var regexKw := Normalize(re, rawKw);
      var rawList := RawKeywords(nv);
      var regexList := Patterns(nv);
      if regexKw !in regexList {
        if re.compiles(regexKw) {
          rawList := rawList + [rawKw];
          regexList := regexList + [regexKw];
          SaveKeywords(rawList, regexList);
          PutModule(Added(rawKw, regexKw));
        } else {
          PutModule(InvalidRegex);
        }
      } else {
        PutModule(AlreadyExists(rawKw));
      }
    }

    /** The `del` branch of `OnModCommand`: `raised` when `del raw_list[idx]`
        raises `IndexError`, after the pattern list lost its entry but before
        anything was saved. */
    method DelKeyword(rawKw: string) returns (raised: bool)
      modifies this
      ensures var o := DelRule(re, old(nv), rawKw);
        nv == o.nv && replies == old(replies) + o.replies && pushes == old(pushes) && raised == o.raised
    {
      var regexKw := Normalize(re, rawKw);
      var rawList := RawKeywords(nv);
      var regexList := Patterns(nv);
      raised := false;
      if regexKw in regexList {
        var idx := IndexOf(regexList, regexKw);
        regexList := RemoveAt(regexList, idx);
        if idx >= |rawList| {
          raised := true;
          return;
        }
        rawList := RemoveAt(rawList, idx);
        SaveKeywords(rawList, regexList);
        PutModule(Removed(rawKw));
      } else {
        PutModule(NotFound(rawKw));
      }
    }

    /** The `list` branch of `OnModCommand`. */
    method ListKeywords()
      modifies this
      ensures nv == old(nv) && replies == old(replies) + ListReplies(old(nv)) && pushes == old(pushes)
    {
      var rawList := RawKeywords(nv);
      var regexList := Patterns(nv);
      var topic := Get(nv, TopicKey, DefaultTopic);
      var server := Get(nv, ServerKey, DefaultServer);
      PutListing(rawList, regexList, topic, server);
    }

    /** What the `list` branch writes for the two lists and the endpoint. */
    method PutListing(rawList: seq<string>, regexList: seq<string>, topic: string, server: string)
      modifies this
      ensures replies == old(replies) + Listing(rawList, regexList, topic, server)
      ensures nv == old(nv) && pushes == old(pushes)
    {
      ghost var head: seq<Reply>;
      if rawList != [] {
        PutModule(ListHeader);
        PutEntries(rawList, regexList);
        head := [ListHeader] + ListEntries(rawList, regexList);
        AppendAssoc(old(replies), [ListHeader], ListEntries(rawList, regexList));
      } else {
        PutModule(NoKeywords);
        head := [NoKeywords];
      }
      PutModule(CurrentTopic(topic));
      PutModule(CurrentServer(server));
      AppendAssoc(old(replies) + head, [CurrentTopic(topic)], [CurrentServer(server)]);
      AppendAssoc(old(replies), head, [CurrentTopic(topic), CurrentServer(server)]);
    }

    /** The loop over `zip(raw_list, regex_list)`: one line per pair, up to the
        end of the shorter list. */
    method PutEntries(rawList: seq<string>, regexList: seq<string>)
      modifies this
      ensures replies == old(replies) + ListEntries(rawList, regexList)
      ensures nv == old(nv) && pushes == old(pushes)
    {
      var k := 0;
      while k < |rawList| && k < |regexList|
        invariant k <= |rawList| && k <= |regexList|
        invariant nv == old(nv) && pushes == old(pushes)
        invariant replies == old(replies) + ListEntries(rawList[..k], regexList[..k])
        decreases |rawList| - k
      {
        ListEntriesAppend(rawList, regexList, k);
        PutModule(ListEntry(rawList[k], regexList[k]));
        k := k + 1;
      }
      ListEntriesZip(rawList, regexList, k);
    }
  }

  /** Skipping a pattern that does not compile moves it from the rest of the
      scan to the reported prefix. */
  lemma SkipInvalid(re: Engine, pats: seq<string>, text: string, i: nat, bad: seq<string>)
    requires i < |pats| && !re.compiles(pats[i])
    ensures bad + ScanFrom(re, pats, text, i).invalid == (bad + [pats[i]]) + ScanFrom(re, pats, text, i + 1).invalid
    ensures ScanFrom(re, pats, text, i).hit == ScanFrom(re, pats, text, i + 1).hit
  {
  }

  lemma AppendAssoc<T>(a: seq<T>, b: seq<T>, c: seq<T>)
    ensures a + b + c == a + (b + c)
  {
  }

  /** One more invalid pattern adds one more diagnostic at the end. */
  lemma DiagnosticsAppend(bad: seq<string>, p: string)
    ensures Diagnostics(bad + [p]) == Diagnostics(bad) + [InvalidStoredRegex(p)]
  {
    assert forall k :: 0 <= k < |bad| ==> Diagnostics(bad + [p])[k] == Diagnostics(bad)[k];
  }

  /** One more pair of the zip adds one more entry at the end. */
  lemma ListEntriesAppend(raws: seq<string>, pats: seq<string>, k: nat)
    requires k < |raws| && k < |pats|
    ensures ListEntries(raws[..k + 1], pats[..k + 1])
      == ListEntries(raws[..k], pats[..k]) + [ListEntry(raws[k], pats[k])]
  {
    var longer := ListEntries(raws[..k + 1], pats[..k + 1]);
    var shorter := ListEntries(raws[..k], pats[..k]);
    assert |longer| == k + 1 && |shorter| == k;
    assert forall j :: 0 <= j < k ==> longer[j] == shorter[j];
  }

  /** The zip stops at the end of the shorter list. */
  lemma ListEntriesZip(raws: seq<string>, pats: seq<string>, k: nat)
    requires k <= |raws| && k <= |pats| && (k == |raws| || k == |pats|)
    ensures ListEntries(raws[..k], pats[..k]) == ListEntries(raws, pats)
  {
  }
}
