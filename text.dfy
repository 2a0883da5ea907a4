/** Python string and list primitives that the module relies on: `str.strip`,
    `str.rstrip(c)`, `str.split(sep)`, `str.split(sep, 1)`, `sep.join`,
    `str.lower`, `list.index` and `del list[i]`. */
module Text {

  datatype Option<T> = None | Some(value: T)

  /** Python's `str.isspace()` for one character: the set `str.strip()` removes. */
  predicate IsSpace(c: char) {
    || c == ' '
    || '\t' <= c <= '\r'
    || '\U{1c}' <= c <= '\U{1f}'
    || c == '\U{85}' || c == '\U{a0}' || c == '\U{1680}'
    || '\U{2000}' <= c <= '\U{200a}'
    || c == '\U{2028}' || c == '\U{2029}' || c == '\U{202f}' || c == '\U{205f}' || c == '\U{3000}'
  }

  /** No leading and no trailing whitespace. */
  predicate Stripped(s: string) {
    s == [] || (!IsSpace(s[0]) && !IsSpace(s[|s| - 1]))
  }

  /** How many whitespace characters `s` starts with. */
  function LeadingSpace(s: string): (n: nat)
    ensures n <= |s|
    ensures forall k :: 0 <= k < n ==> IsSpace(s[k])
    ensures n < |s| ==> !IsSpace(s[n])
  {
    if s != [] && IsSpace(s[0]) then LeadingSpace(s[1..]) + 1 else 0
  }

  /** How many whitespace characters `s` ends with. */
  function TrailingSpace(s: string): (n: nat)
    ensures n <= |s|
    ensures forall k :: |s| - n <= k < |s| ==> IsSpace(s[k])
    ensures n < |s| ==> !IsSpace(s[|s| - 1 - n])
  {
    if s != [] && IsSpace(s[|s| - 1]) then TrailingSpace(s[..|s| - 1]) + 1 else 0
  }

  /** `s.lstrip()`. */
  function LStrip(s: string): string
  {
    s[LeadingSpace(s)..]
  }

  /** `s.rstrip()`. */
  function RStrip(s: string): string
  {
    s[..|s| - TrailingSpace(s)]
  }

  /** `s` is `r` with whitespace only before position `i` and after `r`. */
  predicate PaddedAt(s: string, i: int, r: string) {
    && 0 <= i <= |s| - |r|
    && r == s[i..i + |r|]
    && (forall k :: 0 <= k < i ==> IsSpace(s[k]))
    && (forall k :: i + |r| <= k < |s| ==> IsSpace(s[k]))
  }

  /** `s.strip()`. */
  function Strip(s: string): (r: string)
    ensures Stripped(r)
    ensures forall c :: c in r ==> c in s
    ensures Stripped(s) ==> r == s
    ensures r == [] ==> forall k :: 0 <= k < |s| ==> IsSpace(s[k])
  {
    StripEnds(s);
    StripKeepsChars(s);
    StripBlank(s);
    if Stripped(s) then StripStripped(s); RStrip(LStrip(s)) else RStrip(LStrip(s))
  }

  lemma StripEnds(s: string)
    ensures Stripped(RStrip(LStrip(s)))
  {
    var l := LStrip(s);
    var r := RStrip(l);
    if r != [] {
      assert r[0] == l[0] == s[LeadingSpace(s)];
      assert r[|r| - 1] == l[|l| - 1 - TrailingSpace(l)];
    }
  }

  /** `s.strip()` removes whitespace only: what it returns is the slice of
      `s` left once the whitespace at both ends is cut off. */
  lemma StripIsTrimmed(s: string)
    ensures exists i :: PaddedAt(s, i, Strip(s))
  {
    var i := LeadingSpace(s);
    var l := LStrip(s);
    var r := RStrip(l);
    assert r == Strip(s);
    assert r == s[i..i + |r|];
    forall k | i + |r| <= k < |s| ensures IsSpace(s[k]) {
      assert s[k] == l[k - i];
    }
    assert PaddedAt(s, i, r);
  }

  lemma StripKeepsChars(s: string)
    ensures forall c :: c in RStrip(LStrip(s)) ==> c in s
  {
    var d := LeadingSpace(s);
    var r := RStrip(LStrip(s));
    forall c | c in r ensures c in s {
      var k :| 0 <= k < |r| && r[k] == c;
      assert s[d + k] == c;
    }
  }

  lemma StripBlank(s: string)
    ensures RStrip(LStrip(s)) == [] ==> forall k :: 0 <= k < |s| ==> IsSpace(s[k])
  {
    var l := LStrip(s);
    if l != [] {
      assert !IsSpace(l[0]);
      assert TrailingSpace(l) < |l|;
    }
  }

  lemma StripStripped(s: string)
    requires Stripped(s)
    ensures RStrip(LStrip(s)) == s
  {
    if s != [] {
      assert LeadingSpace(s) == 0;
      assert LStrip(s) == s;
      assert TrailingSpace(s) == 0;
    }
  }

  /** `s.rstrip(c)`: `s` without all trailing copies of `c`. */
  function RStripChar(s: string, c: char): (r: string)
    ensures |r| <= |s| && r == s[..|r|]
    ensures r == [] || r[|r| - 1] != c
    ensures forall k :: |r| <= k < |s| ==> s[k] == c
  {
    if s != [] && s[|s| - 1] == c then RStripChar(s[..|s| - 1], c) else s
  }

  /** `s.split(sep)`: the pieces between occurrences of `sep`, empty pieces included. */
  function Split(s: string, sep: char): (parts: seq<string>)
    ensures |parts| >= 1
    ensures forall k :: 0 <= k < |parts| ==> sep !in parts[k]
  {
    if s == [] then [[]]
    else
      var rest := Split(s[1..], sep);
      if s[0] == sep then [[]] + rest
      else [[s[0]] + rest[0]] + rest[1..]
  }

  /** `sep.join(xs)`. */
  function Join(xs: seq<string>, sep: char): string
  {
    if |xs| == 0 then []
    else if |xs| == 1 then xs[0]
    else xs[0] + [sep] + Join(xs[1..], sep)
  }

  lemma {:induction false} SplitWithoutSep(a: string, sep: char)
    requires sep !in a
    ensures Split(a, sep) == [a]
  {
    if a != [] {
      SplitWithoutSep(a[1..], sep);
      assert [a[0]] + a[1..] == a;
    }
  }

  lemma {:induction false} SplitAfterFirstPiece(a: string, b: string, sep: char)
    requires sep !in a
    ensures Split(a + [sep] + b, sep) == [a] + Split(b, sep)
  {
    var s := a + [sep] + b;
    if a == [] {
      assert s[1..] == b;
    } else {
      assert s[1..] == a[1..] + [sep] + b;
      SplitAfterFirstPiece(a[1..], b, sep);
      assert [a[0]] + a[1..] == a;
    }
  }

  /** Splitting a joined list gives the list back when no element holds the separator. */
  lemma {:induction false} SplitJoin(xs: seq<string>, sep: char)
    requires |xs| >= 1
    requires forall k :: 0 <= k < |xs| ==> sep !in xs[k]
    ensures Split(Join(xs, sep), sep) == xs
  {
    if |xs| == 1 {
      SplitWithoutSep(xs[0], sep);
    } else {
      SplitJoin(xs[1..], sep);
      SplitAfterFirstPiece(xs[0], Join(xs[1..], sep), sep);
      assert [xs[0]] + xs[1..] == xs;
    }
  }

  /** Joining the pieces of a split gives the string back, for every string. */
  lemma {:induction false} JoinSplit(s: string, sep: char)
    ensures Join(Split(s, sep), sep) == s
  {
    if s != [] {
      var rest := Split(s[1..], sep);
      JoinSplit(s[1..], sep);
      if s[0] == sep {
        assert ([[]] + rest)[1..] == rest;
      } else {
        var parts := [[s[0]] + rest[0]] + rest[1..];
        if |rest| > 1 {
          assert parts[1..] == rest[1..];
          assert Join(rest, sep) == rest[0] + [sep] + Join(rest[1..], sep);
        }
        assert [s[0]] + s[1..] == s;
      }
    }
  }

  /** The position of the first occurrence of `x` in `xs` (what `list.index` returns). */
  function FirstIndex<T(==)>(xs: seq<T>, x: T): (i: nat)
    requires x in xs
    ensures i < |xs| && xs[i] == x
    ensures forall j :: 0 <= j < i ==> xs[j] != x
  {
    if xs[0] == x then 0 else FirstIndex(xs[1..], x) + 1
  }

  /** The first `x` in `a + [x] + b` is the one after `a` when `a` holds none. */
  lemma FirstIndexAfter<T>(a: seq<T>, x: T, b: seq<T>)
    requires x !in a
    ensures x in a + [x] + b && FirstIndex(a + [x] + b, x) == |a|
  {
    var s := a + [x] + b;
    assert s[|a|] == x;
    assert forall j :: 0 <= j < |a| ==> s[j] == a[j];
  }

  /** `xs.index(x)`: a linear scan from the front. */
  method IndexOf<T(==)>(xs: seq<T>, x: T) returns (i: nat)
    requires x in xs
    ensures i < |xs| && xs[i] == x
    ensures forall j :: 0 <= j < i ==> xs[j] != x
  {
    i := 0;
    while xs[i] != x
      invariant i < |xs|
      invariant x in xs[i..]
      invariant forall j :: 0 <= j < i ==> xs[j] != x
      decreases |xs| - i
    {
      assert xs[i..] == [xs[i]] + xs[i + 1..];
      i := i + 1;
    }
  }

  /** `del xs[i]`: the entries before `i` and after `i`, in their order. */
  function RemoveAt<T>(xs: seq<T>, i: nat): (r: seq<T>)
    requires i < |xs|
    ensures |r| == |xs| - 1
    ensures forall k :: 0 <= k < i ==> r[k] == xs[k]
    ensures forall k :: i <= k < |r| ==> r[k] == xs[k + 1]
  {
    xs[..i] + xs[i + 1..]
  }

  /** `s.split(sep, 1)`: one piece when `sep` does not occur, otherwise the text
      before and after its first occurrence. */
  function SplitOnce(s: string, sep: char): (parts: seq<string>)
    ensures 1 <= |parts| <= 2
    ensures |parts| == 1 <==> sep !in s
    ensures |parts| == 1 ==> parts[0] == s
    ensures |parts| == 2 ==> sep !in parts[0]
  {
    if sep in s then
      var i := FirstIndex(s, sep);
      assert s[..i] + [sep] + s[i + 1..] == s;
      [s[..i], s[i + 1..]]
    else [s]
  }

  /** Rejoining the two halves around the separator gives the string back. */
  lemma SplitOnceRejoin(s: string, sep: char)
    requires sep in s
    ensures var parts := SplitOnce(s, sep); |parts| == 2 && parts[0] + [sep] + parts[1] == s
  {
  }

  /** Splitting once at the first separator gives back the two halves it joined. */
  lemma SplitOnceAt(a: string, sep: char, b: string)
    requires sep !in a
    ensures SplitOnce(a + [sep] + b, sep) == [a, b]
  {
    var s := a + [sep] + b;
    FirstIndexAfter(a, sep, b);
    assert s[..|a|] == a && s[|a| + 1..] == b;
  }

  /** In a string without trailing whitespace, the text after the first
      space ends with what the string ends with, so it is not blank. */
  lemma SplitOnceTail(t: string)
    requires Stripped(t) && |SplitOnce(t, ' ')| == 2
    ensures Strip(SplitOnce(t, ' ')[1]) != []
  {
    var parts := SplitOnce(t, ' ');
    var p := parts[1];
    SplitOnceRejoin(t, ' ');
    assert t == parts[0] + [' '] + p;
    assert p != [];
    assert t[|t| - 1] == p[|p| - 1];
  }

  /** Python's `str.lower` on one character, restricted to ASCII letters. */
  function LowerChar(c: char): char
  {
    if 'A' <= c <= 'Z' then (c as int - 'A' as int + 'a' as int) as char else c
  }

  /** The capital of an ASCII lower-case letter. */
  function UpperChar(c: char): char
  {
    if 'a' <= c <= 'z' then (c as int - 'a' as int + 'A' as int) as char else c
  }

  /** `s.lower()`, character by character. */
  function Lower(s: string): string
  {
    seq(|s|, k requires 0 <= k < |s| => LowerChar(s[k]))
  }

  /** A word made of ASCII lower-case letters only. */
  predicate LowerWord(c: string) {
    forall k :: 0 <= k < |c| ==> 'a' <= c[k] <= 'z'
  }

  /** `w` spells `c` with any of its letters capitalised. */
  predicate CaseVariant(w: string, c: string) {
    |w| == |c| && forall k :: 0 <= k < |w| ==> w[k] == c[k] || w[k] == UpperChar(c[k])
  }

  /** Lower-casing yields a lower-case word exactly for the spellings of that
      word in any mix of cases. */
  lemma LowerMatchesCaseVariant(w: string, c: string)
    requires LowerWord(c)
    ensures Lower(w) == c <==> CaseVariant(w, c)
  {
    if Lower(w) == c {
      forall k | 0 <= k < |w| ensures w[k] == c[k] || w[k] == UpperChar(c[k]) {
        assert LowerChar(w[k]) == c[k];
      }
    }
    if CaseVariant(w, c) {
      forall k | 0 <= k < |w| ensures Lower(w)[k] == c[k] {
        assert w[k] == c[k] || w[k] == UpperChar(c[k]);
      }
    }
  }
}
