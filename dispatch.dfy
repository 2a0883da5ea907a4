/** `check_message`, `send_push` and `do_push`: which stored pattern fires for
    an incoming message, and what is sent where. */
module Dispatch {
  import opened Text
  import opened Keywords
  import opened Regex
  import opened Effects

  /** The notification body built by `send_push`. */
  function PushText(sender: string, context: string, text: string): string
  {
    "[" + context + "] <" + sender + "> " + text
  }

  /** The endpoint built by `do_push`: the server without its trailing
      slashes, one slash, the topic. */
  function Url(server: string, topic: string): string
  {
    RStripChar(server, '/') + "/" + topic
  }

  /** The endpoint for the current store, with the same defaults as `do_push`. */
  function Endpoint(nv: map<string, string>): string
  {
    Url(Get(nv, ServerKey, DefaultServer), Get(nv, TopicKey, DefaultTopic))
  }

  /** The text before the first `close` and the text after it. */
  function SplitField(s: string, close: char): Option<(string, string)>
  {
    if close in s then
      var i := FirstIndex(s, close);
      Some((s[..i], s[i + 1..]))
    else None
  }

  lemma SplitFieldAfter(a: string, close: char, b: string)
    requires close !in a
    ensures SplitField(a + [close] + b, close) == Some((a, b))
  {
    FirstIndexAfter(a, close, b);
    var s := a + [close] + b;
    assert s[..|a|] == a && s[|a| + 1..] == b;
  }

  /** Reads the sender, context and text back out of a push body. */
  function DecodePushText(body: string): Option<(string, string, string)>
  {
    if body == [] || body[0] != '[' then None
    else match SplitField(body[1..], ']')
      case None => None
      case Some((context, rest)) =>
        if |rest| < 2 || rest[..2] != " <" then None
        else match SplitField(rest[2..], '>')
          case None => None
          case Some((sender, tail)) =>
            if tail == [] || tail[0] != ' ' then None
            else Some((sender, context, tail[1..]))
  }

  /** The body holds the three fields in recoverable form whenever the context
      has no `]` and the sender no `>`. */
  lemma PushTextRoundTrip(sender: string, context: string, text: string)
    requires ']' !in context && '>' !in sender
    ensures DecodePushText(PushText(sender, context, text)) == Some((sender, context, text))
  {
    var body := PushText(sender, context, text);
    var rest := " <" + sender + "> " + text;
    var tail := " " + text;
    assert body[1..] == context + "]" + rest;
    SplitFieldAfter(context, ']', rest);
    assert rest[..2] == " <";
    assert rest[2..] == sender + ">" + tail;
    SplitFieldAfter(sender, '>', tail);
    assert tail[1..] == text;
  }

  /** Trailing slashes on the server do not change the endpoint. */
  lemma UrlIgnoresTrailingSlash(server: string, topic: string)
    ensures Url(server + "/", topic) == Url(server, topic)
  {
    assert (server + "/")[..|server|] == server;
  }

  /** A server without a trailing slash is used as it is. */
  lemma UrlOfBareServer(server: string, topic: string)
    requires server == [] || server[|server| - 1] != '/'
    ensures Url(server, topic) == server + "/" + topic
  {
  }

  /** Saving the keyword lists leaves the endpoint alone. */
  lemma SaveKeepsEndpoint(nv: map<string, string>, raws: seq<string>, pats: seq<string>)
    ensures Endpoint(Save(nv, raws, pats)) == Endpoint(nv)
  {
    var r := Save(nv, raws, pats);
    assert |ServerKey| != |RawKeywordsKey| && |ServerKey| != |KeywordsKey|;
    assert |TopicKey| != |RawKeywordsKey| && |TopicKey| != |KeywordsKey|;
    assert Get(r, ServerKey, DefaultServer) == Get(nv, ServerKey, DefaultServer);
    assert Get(r, TopicKey, DefaultTopic) == Get(nv, TopicKey, DefaultTopic);
  }

  /** A freshly loaded module pushes to `https://ntfy.sh/dein-topic`. */
  lemma DefaultEndpoint()
    ensures Endpoint(WithDefaults(map[])) == "https://ntfy.sh/dein-topic"
  {
    var nv := WithDefaults(map[]);
    assert Get(nv, ServerKey, DefaultServer) == "https://ntfy.sh";
    assert Get(nv, TopicKey, DefaultTopic) == "dein-topic";
    UrlOfBareServer("https://ntfy.sh", "dein-topic");
  }

  /** A message is pushed for pattern `p` when `p` compiles and matches. */
  predicate Hits(re: Engine, p: string, text: string) {
    re.compiles(p) && re.search(p, text)
  }

  /** The outcome of the scan: the patterns reported as invalid, in order, and
      the position of the pattern that fired, if any. */
  datatype Scan = Scan(invalid: seq<string>, hit: Option<nat>)

  /** The loop of `check_message` from position `i` on: a pattern that raises
      `re.error` is reported and skipped, the first one that matches stops it. */
  function ScanFrom(re: Engine, pats: seq<string>, text: string, i: nat): Scan
    requires i <= |pats|
    decreases |pats| - i
  {
    if i == |pats| then Scan([], None)
    else if !re.compiles(pats[i]) then
      var s := ScanFrom(re, pats, text, i + 1);
      Scan([pats[i]] + s.invalid, s.hit)
    else if re.search(pats[i], text) then Scan([], Some(i))
    else ScanFrom(re, pats, text, i + 1)
  }

  function FirstMatch(re: Engine, pats: seq<string>, text: string): Scan
  {
    ScanFrom(re, pats, text, 0)
  }

  /** The patterns of `ps` that fail to compile, in order. */
  function BadPatterns(re: Engine, ps: seq<string>): seq<string>
  {
    if ps == [] then []
    else (if re.compiles(ps[0]) then [] else [ps[0]]) + BadPatterns(re, ps[1..])
  }

  /** Where the scan stopped looking. */
  function ScanEnd(s: Scan, n: nat): nat
  {
    if s.hit.Some? then s.hit.value else n
  }

  /** The scan fires on the first pattern, from `i` on, that compiles and
      matches, and on none if there is none; it reports exactly the patterns
      before that point that fail to compile. */
  lemma {:induction false} ScanFromSpec(re: Engine, pats: seq<string>, text: string, i: nat)
    requires i <= |pats|
    ensures var s := ScanFrom(re, pats, text, i);
      && (s.hit.Some? ==>
            && i <= s.hit.value < |pats|
            && Hits(re, pats[s.hit.value], text)
            && forall j :: i <= j < s.hit.value ==> !Hits(re, pats[j], text))
      && (s.hit.None? ==> forall j :: i <= j < |pats| ==> !Hits(re, pats[j], text))
      && s.invalid == BadPatterns(re, pats[i..ScanEnd(s, |pats|)])
    decreases |pats| - i
  {
    var s := ScanFrom(re, pats, text, i);
    if i < |pats| {
      var t := ScanFrom(re, pats, text, i + 1);
      ScanFromSpec(re, pats, text, i + 1);
      if !re.compiles(pats[i]) {
        var e := ScanEnd(t, |pats|);
        assert pats[i..e] == [pats[i]] + pats[i + 1..e];
        assert BadPatterns(re, pats[i..e]) == [pats[i]] + BadPatterns(re, pats[i + 1..e]);
      } else if re.search(pats[i], text) {
        assert pats[i..i] == [];
      } else {
        var e := ScanEnd(t, |pats|);
        assert pats[i..e] == [pats[i]] + pats[i + 1..e];
        assert BadPatterns(re, pats[i..e]) == BadPatterns(re, pats[i + 1..e]);
      }
    } else {
      assert pats[i..i] == [];
    }
  }

  /** At most one push per message, for the earliest pattern that fires: a
      later pattern that would also match is never reached. */
  lemma FirstMatchWins(re: Engine, pats: seq<string>, text: string, k: nat)
    requires k < |pats| && Hits(re, pats[k], text)
    ensures FirstMatch(re, pats, text).hit.Some?
    ensures FirstMatch(re, pats, text).hit.value <= k
  {
    ScanFromSpec(re, pats, text, 0);
  }

  /** Patterns that raise `re.error` do not stop the scan: a later pattern
      that compiles and matches still fires, and each bad one is reported. */
  lemma InvalidPatternsSkipped(re: Engine, pats: seq<string>, text: string, k: nat)
    requires k < |pats| && Hits(re, pats[k], text)
    requires forall j :: 0 <= j < k ==> !re.compiles(pats[j])
    ensures FirstMatch(re, pats, text) == Scan(pats[..k], Some(k))
  {
    ScanFromSpec(re, pats, text, 0);
    AllBad(re, pats[..k]);
  }

  lemma {:induction false} AllBad(re: Engine, ps: seq<string>)
    requires forall j :: 0 <= j < |ps| ==> !re.compiles(ps[j])
    ensures BadPatterns(re, ps) == ps
  {
    if ps != [] {
      AllBad(re, ps[1..]);
      assert [ps[0]] + ps[1..] == ps;
    }
  }

  /** The diagnostics `check_message` writes for the invalid patterns. */
  function Diagnostics(invalid: seq<string>): (r: seq<Reply>)
  {
    seq(|invalid|, k requires 0 <= k < |invalid| => InvalidStoredRegex(invalid[k]))
  }

  /** The pushes `check_message` makes for one message. */
  function MessagePushes(re: Engine, nv: map<string, string>, sender: string, context: string, text: string): seq<Push>
  {
    if FirstMatch(re, Patterns(nv), text).hit.Some?
    then [Push(Endpoint(nv), PushText(sender, context, text))]
    else []
  }

  /** The scan fires exactly when some pattern compiles and matches. */
  lemma FiresIffSomePatternHits(re: Engine, pats: seq<string>, text: string)
    ensures FirstMatch(re, pats, text).hit.Some? <==>
      exists k :: 0 <= k < |pats| && Hits(re, pats[k], text)
  {
    var s := FirstMatch(re, pats, text);
    ScanFromSpec(re, pats, text, 0);
    if s.hit.Some? {
      assert Hits(re, pats[s.hit.value], text);
    }
  }
}
