/** The string operations of Python that the modelled code relies on, over sequences of characters.
    Case folding is ASCII only and so preserves length. */
module PyText {

  function Lower(c: char): char {
    if 'A' <= c <= 'Z' then ((c as int) + 32) as char else c
  }

  function LowerText(s: string): (r: string)
    ensures |r| == |s|
  {
    seq(|s|, i requires 0 <= i < |s| => Lower(s[i]))
  }

  lemma LowerTwice(s: string)
    ensures LowerText(LowerText(s)) == LowerText(s)
  {
  }

  lemma ConcatAssoc<T>(a: seq<T>, b: seq<T>, c: seq<T>)
    ensures a + (b + c) == a + b + c
  {
  }

  lemma SplitConcat<T>(a: seq<T>, b: seq<T>)
    ensures (a + b)[..|a|] == a && (a + b)[|a|..] == b
  {
  }

  /** str.isspace for a single character, as str.strip uses it. */
  predicate IsSpace(c: char) {
    || ('\t' <= c <= '\r') || ('\U{1c}' <= c <= ' ') || c == '\U{85}' || c == '\U{a0}' || c == '\U{1680}'
    || ('\U{2000}' <= c <= '\U{200a}') || c == '\U{2028}' || c == '\U{2029}' || c == '\U{202f}' || c == '\U{205f}'
    || c == '\U{3000}'
  }

  function LStrip(s: string): string {
    if s == "" || !IsSpace(s[0]) then s else LStrip(s[1..])
  }

  function RStrip(s: string): string {
    if s == "" || !IsSpace(s[|s| - 1]) then s else RStrip(s[..|s| - 1])
  }

  function Strip(s: string): string {
    RStrip(LStrip(s))
  }

  /** Nothing to strip at either end. */
  predicate Trimmed(s: string) {
    s == "" || (!IsSpace(s[0]) && !IsSpace(s[|s| - 1]))
  }

  lemma {:induction false} LStripSlice(s: string) returns (a: nat)
    ensures a <= |s| && LStrip(s) == s[a..]
    ensures forall i :: 0 <= i < a ==> IsSpace(s[i])
    ensures a < |s| ==> !IsSpace(s[a])
  {
    if s == "" || !IsSpace(s[0]) {
      a := 0;
    } else {
      var b := LStripSlice(s[1..]);
      a := b + 1;
    }
  }

  lemma {:induction false} RStripSlice(s: string) returns (b: nat)
    ensures b <= |s| && RStrip(s) == s[..b]
    ensures forall i :: b <= i < |s| ==> IsSpace(s[i])
    ensures 0 < b ==> !IsSpace(s[b - 1])
  {
    if s == "" || !IsSpace(s[|s| - 1]) {
      b := |s|;
    } else {
      b := RStripSlice(s[..|s| - 1]);
    }
  }

  /** Stripping leaves the slice between the first and the last character that is not whitespace. */
  lemma StripSlice(s: string) returns (a: nat, b: nat)
    ensures a <= b <= |s| && Strip(s) == s[a..b]
    ensures forall i :: 0 <= i < a ==> IsSpace(s[i])
    ensures forall i :: b <= i < |s| ==> IsSpace(s[i])
    ensures a < b ==> !IsSpace(s[a]) && !IsSpace(s[b - 1])
  {
    a := LStripSlice(s);
    var l := s[a..];
    var n := RStripSlice(l);
    b := a + n;
    assert l[..n] == s[a..b];
    forall i | b <= i < |s| ensures IsSpace(s[i]) {
      assert s[i] == l[i - a];
    }
    assert a < b ==> l[n - 1] == s[b - 1];
  }

  lemma StripTrims(s: string)
    ensures Trimmed(Strip(s)) && |Strip(s)| <= |s|
    ensures Strip(s) == s <==> Trimmed(s)
  {
    var a, b := StripSlice(s);
    assert Trimmed(s) && s != "" ==> a == 0 && b == |s|;
  }

  predicate MatchesAt(s: string, p: string, i: int) {
    0 <= i && i + |p| <= |s| && s[i..i + |p|] == p
  }

  /** s.find(p, from): the least matching index at or after from, or -1. */
  function Find(s: string, p: string, from: nat): (r: int)
    ensures r == -1 ==> forall i :: from <= i ==> !MatchesAt(s, p, i)
    ensures r != -1 ==> from <= r && MatchesAt(s, p, r) && forall i :: from <= i < r ==> !MatchesAt(s, p, i)
    decreases |s| - from
  {
    if from + |p| > |s| then -1
    else if MatchesAt(s, p, from) then from
    else Find(s, p, from + 1)
  }

  predicate Contains(s: string, p: string) {
    Find(s, p, 0) != -1
  }

  /** The part before the first c, or everything. */
  function Before(s: string, c: char): (r: string)
    ensures |r| <= |s| && r == s[..|r|] && c !in r
    ensures |r| < |s| ==> s[|r|] == c
  {
    if s == "" || s[0] == c then "" else [s[0]] + Before(s[1..], c)
  }

  /** The part after the first c, or nothing. */
  function After(s: string, c: char): (r: string)
  {
    if Before(s, c) == s then "" else s[|Before(s, c)| + 1..]
  }

  lemma {:induction false} BeforeConcat(a: string, c: char, b: string)
    requires c !in a
    ensures Before(a + [c] + b, c) == a && After(a + [c] + b, c) == b
  {
    if a == "" {
      assert a + [c] + b == [c] + b;
    } else {
      BeforeConcat(a[1..], c, b);
      assert (a + [c] + b)[1..] == a[1..] + [c] + b;
    }
  }

  lemma {:induction false} BeforeAbsent(a: string, c: char)
    requires c !in a
    ensures Before(a, c) == a && After(a, c) == ""
  {
    if a != "" {
      BeforeAbsent(a[1..], c);
    }
  }

  /** s.split(c) */
  function Split(s: string, c: char): (r: seq<string>)
    ensures |r| >= 1
    ensures forall i :: 0 <= i < |r| ==> c !in r[i]
    decreases |s|
  {
    var head := Before(s, c);
    if head == s then [s] else [head] + Split(s[|head| + 1..], c)
  }

  /** c.join(parts) */
  function Join(parts: seq<string>, c: char): string {
    if |parts| == 0 then "" else if |parts| == 1 then parts[0] else parts[0] + [c] + Join(parts[1..], c)
  }

  lemma {:induction false} SplitJoin(parts: seq<string>, c: char)
    requires |parts| >= 1 && forall i :: 0 <= i < |parts| ==> c !in parts[i]
    ensures Split(Join(parts, c), c) == parts
    decreases |parts|
  {
    if |parts| == 1 {
      BeforeAbsent(parts[0], c);
      assert parts == [parts[0]];
    } else {
      SplitJoin(parts[1..], c);
      BeforeConcat(parts[0], c, Join(parts[1..], c));
      assert parts == [parts[0]] + parts[1..];
    }
  }

  lemma {:induction false} JoinSplit(s: string, c: char)
    ensures Join(Split(s, c), c) == s
    decreases |s|
  {
    var head := Before(s, c);
    if head != s {
      JoinSplit(s[|head| + 1..], c);
      assert s == head + [c] + s[|head| + 1..];
    }
  }

  lemma {:induction false} JoinChars(parts: seq<string>, c: char, ok: char -> bool)
    requires ok(c) && forall i, j :: 0 <= i < |parts| && 0 <= j < |parts[i]| ==> ok(parts[i][j])
    ensures forall j :: 0 <= j < |Join(parts, c)| ==> ok(Join(parts, c)[j])
    decreases |parts|
  {
    if |parts| >= 2 {
      var rest := parts[1..];
      assert forall i, j :: 0 <= i < |rest| && 0 <= j < |rest[i]| ==> rest[i][j] == parts[i + 1][j];
      JoinChars(rest, c, ok);
    }
  }
}
