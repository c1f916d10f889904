/** Putting the line breaks back into job text that was captured as one long line: the section markers it
    contains are moved to the start of a line. The text grows while it is scanned. */
module FlattenedText {
  import opened PyText

  const SECTION_BREAK_MARKERS: seq<string> := [
    "About the job",
    "Job description",
    "Responsibilities",
    "Requirements",
    "Nice to Have",
    "Similar jobs",
    "People also viewed",
    "Determine your fit",
    "Meet the hiring team",
    "People you can reach out to"
  ]

  // ---------------------------------------------------------------------------------------------
  // Lines
  // ---------------------------------------------------------------------------------------------

  /** The characters str.splitlines breaks at. A carriage return before a newline makes one break for Python and two
      here, which differ only by an empty line. */
  predicate IsLineBreak(c: char) {
    || c == '\n' || c == '\r' || c == '\U{b}' || c == '\U{c}' || ('\U{1c}' <= c <= '\U{1e}') || c == '\U{85}'
    || c == '\U{2028}' || c == '\U{2029}'
  }

  function FirstLine(text: string): (r: string)
    ensures |r| <= |text| && r == text[..|r|]
    ensures |r| < |text| ==> IsLineBreak(text[|r|])
    ensures forall i :: 0 <= i < |r| ==> !IsLineBreak(r[i])
  {
    if text == "" || IsLineBreak(text[0]) then "" else [text[0]] + FirstLine(text[1..])
  }

  /** _split_lines: the stripped non-blank lines. */
  function SplitLines(text: string): seq<string>
    decreases |text|
  {
    if text == "" then [] else
      var line := FirstLine(text);
      var rest := if |line| < |text| then SplitLines(text[|line| + 1..]) else [];
      (if Strip(line) == "" then [] else [Strip(line)]) + rest
  }

  lemma {:induction false} FirstLineConcat(a: string, c: char, b: string)
    requires IsLineBreak(c) && forall i :: 0 <= i < |a| ==> !IsLineBreak(a[i])
    ensures FirstLine(a + [c] + b) == a && FirstLine(a) == a
  {
    if a == "" {
      assert a + [c] + b == [c] + b;
    } else {
      FirstLineConcat(a[1..], c, b);
      assert (a + [c] + b)[1..] == a[1..] + [c] + b;
    }
  }

  /** A text without a break is one line: itself, stripped, unless it is blank. */
  lemma LoneLine(line: string)
    requires forall i :: 0 <= i < |line| ==> !IsLineBreak(line[i])
    ensures SplitLines(line) == if Strip(line) == "" then [] else [Strip(line)]
  {
    FirstLineConcat(line, '\n', "");
    StripTrims(line);
  }

  lemma LineThenRest(line: string, c: char, rest: string)
    requires IsLineBreak(c) && forall i :: 0 <= i < |line| ==> !IsLineBreak(line[i])
    ensures SplitLines(line + [c] + rest) == (if Strip(line) == "" then [] else [Strip(line)]) + SplitLines(rest)
  {
    FirstLineConcat(line, c, rest);
    SplitConcat(line + [c], rest);
  }

  /** A break parts the lines before it from those after it. */
  lemma {:induction false} LinesPartAtBreak(a: string, c: char, b: string)
    requires IsLineBreak(c)
    ensures SplitLines(a + [c] + b) == SplitLines(a) + SplitLines(b)
    decreases |a|
  {
    var line := FirstLine(a);
    if |line| == |a| {
      LineThenRest(a, c, b);
      LoneLine(a);
    } else {
      var next, rest := a[|line|], a[|line| + 1..];
      LinesPartAtBreak(rest, c, b);
      Regroup(a, |line|);
      PartBehindLine(a, line, next, rest, c, b);
    }
  }

  lemma Regroup(a: string, n: nat)
    requires n < |a|
    ensures a == a[..n] + [a[n]] + a[n + 1..]
  {
  }

  lemma PartBehindLine(a: string, line: string, next: char, rest: string, c: char, b: string)
    requires a == line + [next] + rest
    requires IsLineBreak(next) && forall i :: 0 <= i < |line| ==> !IsLineBreak(line[i])
    requires SplitLines(rest + [c] + b) == SplitLines(rest) + SplitLines(b)
    ensures SplitLines(a + [c] + b) == SplitLines(a) + SplitLines(b)
  {
    LineThenRest(line, next, rest);
    LineThenRest(line, next, rest + [c] + b);
    ConcatAssoc(line + [next], rest, [c]);
    ConcatAssoc(line + [next], rest + [c], b);
    ConcatAssoc(if Strip(line) == "" then [] else [Strip(line)], SplitLines(rest), SplitLines(b));
  }

  // ---------------------------------------------------------------------------------------------
  // Occurrences of a marker and inserted newlines
  // ---------------------------------------------------------------------------------------------

  /** marker (in lower case) occurs at i, whatever the case of the text. */
  ghost predicate OccursAt(text: string, marker: string, i: int) {
    0 <= i && i + |marker| <= |text| && forall k :: 0 <= k < |marker| ==> Lower(text[i + k]) == marker[k]
  }

  predicate AtLineStart(text: string, i: nat)
    requires i <= |text|
  {
    i == 0 || text[i - 1] == '\n'
  }

  /** What follows an occurrence that ends at i. */
  predicate EndsWell(text: string, i: nat) {
    i >= |text| || text[i] == '\n' || text[i] == ' '
  }

  ghost predicate SettledAt(text: string, marker: string, i: nat)
    requires OccursAt(text, marker, i)
  {
    AtLineStart(text, i) && EndsWell(text, i + |marker|)
  }

  /** Every occurrence of the marker starts a line and is followed by a newline, a blank or nothing. */
  ghost predicate Settled(text: string, marker: string) {
    forall i: nat :: OccursAt(text, marker, i) ==> SettledAt(text, marker, i)
  }

  ghost predicate AllSettled(text: string, markers: seq<string>) {
    forall j :: 0 <= j < |markers| ==> Settled(text, LowerText(markers[j]))
  }

  function InsertBreak(text: string, p: nat): (r: string)
    requires p <= |text|
    ensures |r| == |text| + 1
    ensures forall i :: 0 <= i < p ==> r[i] == text[i]
    ensures r[p] == '\n'
    ensures forall i :: p < i <= |text| ==> r[i] == text[i - 1]
  {
    text[..p] + "\n" + text[p..]
  }

  /** A marker that spans no line and does not begin with a blank. */
  predicate OneLine(marker: string) {
    marker != "" && marker[0] != ' ' && forall k :: 0 <= k < |marker| ==> marker[k] != '\n'
  }

  lemma NoMarkerAcross(text: string, p: nat, marker: string, i: nat)
    requires p <= |text| && OneLine(marker)
    ensures i <= p < i + |marker| ==> !OccursAt(InsertBreak(text, p), marker, i)
  {
    var r := InsertBreak(text, p);
    if i <= p < i + |marker| && i + |marker| <= |r| {
      assert Lower(r[i + (p - i)]) != marker[p - i];
    }
  }

  /** Inserting a newline creates no occurrence: each one found afterwards was there before, on one side of it. */
  lemma InsertKeepsOccurrences(text: string, p: nat, marker: string, i: nat)
    requires p <= |text| && OneLine(marker) && OccursAt(InsertBreak(text, p), marker, i)
    ensures i + |marker| <= p || i > p
    ensures i + |marker| <= p ==> OccursAt(text, marker, i)
    ensures i > p ==> OccursAt(text, marker, i - 1)
  {
    var r := InsertBreak(text, p);
    NoMarkerAcross(text, p, marker, i);
    if i + |marker| <= p {
      forall k | 0 <= k < |marker| ensures Lower(text[i + k]) == marker[k] {
        assert Lower(r[i + k]) == marker[k];
      }
    } else {
      forall k | 0 <= k < |marker| ensures Lower(text[i - 1 + k]) == marker[k] {
        assert Lower(r[i + k]) == marker[k];
      }
    }
  }

  /** Later passes do not undo earlier ones. */
  lemma InsertKeepsSettled(text: string, p: nat, marker: string)
    requires p <= |text| && OneLine(marker) && Settled(text, marker)
    ensures Settled(InsertBreak(text, p), marker)
  {
    var r := InsertBreak(text, p);
    forall i: nat | OccursAt(r, marker, i) ensures SettledAt(r, marker, i) {
      InsertKeepsOccurrences(text, p, marker, i);
      if i > p {
        assert SettledAt(text, marker, i - 1);
      } else {
        assert SettledAt(text, marker, i);
      }
    }
  }

  // ---------------------------------------------------------------------------------------------
  // Justified insertions
  // ---------------------------------------------------------------------------------------------

  /** A newline goes in front of an occurrence that does not start a line, or behind one that does not end well. */
  ghost predicate JustifiedBy(text: string, p: nat, marker: string, i: nat) {
    && OccursAt(text, marker, i)
    && ((p == i && !AtLineStart(text, i)) || (p == i + |marker| && !EndsWell(text, p)))
  }

  ghost predicate Justified(text: string, p: nat, markers: seq<string>) {
    p <= |text| && exists j, i: nat :: 0 <= j < |markers| && JustifiedBy(text, p, LowerText(markers[j]), i)
  }

  ghost predicate JustifiedStep(a: string, b: string, markers: seq<string>) {
    exists p: nat :: Justified(a, p, markers) && b == InsertBreak(a, p)
  }

  /** The history of a rewriting: each text is the one before with a justified newline. */
  ghost predicate IsTrace(trace: seq<string>, from: string, to: string, markers: seq<string>) {
    && |trace| >= 1 && trace[0] == from && trace[|trace| - 1] == to
    && forall t :: 0 <= t < |trace| - 1 ==> JustifiedStep(trace[t], trace[t + 1], markers)
  }

  /** b is a with newlines inserted and nothing else. */
  ghost predicate OnlyNewlinesAdded(a: string, b: string) {
    if b == "" then a == ""
    else (a != "" && a[0] == b[0] && OnlyNewlinesAdded(a[1..], b[1..]))
         || (b[0] == '\n' && OnlyNewlinesAdded(a, b[1..]))
  }

  lemma {:induction false} NothingAdded(a: string)
    ensures OnlyNewlinesAdded(a, a)
  {
    if a != "" {
      NothingAdded(a[1..]);
    }
  }

  lemma {:induction false} OneMoreNewline(a: string, b: string, p: nat)
    requires OnlyNewlinesAdded(a, b) && p <= |b|
    ensures OnlyNewlinesAdded(a, InsertBreak(b, p))
  {
    var r := InsertBreak(b, p);
    if p == 0 {
      assert r[1..] == b;
    } else {
      assert r[1..] == InsertBreak(b[1..], p - 1);
      if a != "" && a[0] == b[0] && OnlyNewlinesAdded(a[1..], b[1..]) {
        OneMoreNewline(a[1..], b[1..], p - 1);
      } else {
        OneMoreNewline(a, b[1..], p - 1);
      }
    }
  }

  /** The output differs from the input only by inserted newlines. */
  lemma {:induction false} TraceAddsOnlyNewlines(trace: seq<string>, from: string, to: string, markers: seq<string>)
    requires IsTrace(trace, from, to, markers)
    ensures OnlyNewlinesAdded(from, to)
    decreases |trace|
  {
    if |trace| == 1 {
      NothingAdded(from);
    } else {
      var n := |trace| - 1;
      assert JustifiedStep(trace[n - 1], trace[n - 1 + 1], markers);
      var p: nat :| Justified(trace[n - 1], p, markers) && trace[n] == InsertBreak(trace[n - 1], p);
      TraceAddsOnlyNewlines(trace[..n], from, trace[n - 1], markers);
      OneMoreNewline(from, trace[n - 1], p);
    }
  }

  lemma NothingJustified(text: string, markers: seq<string>)
    requires AllSettled(text, markers)
    ensures forall p :: !Justified(text, p, markers)
  {
    forall j, i: nat, p: nat | 0 <= j < |markers| ensures !JustifiedBy(text, p, LowerText(markers[j]), i) {
      assert OccursAt(text, LowerText(markers[j]), i) ==> SettledAt(text, LowerText(markers[j]), i);
    }
  }

  /** A settled text is a fixed point: no insertion is justified. */
  lemma SettledIsFixed(trace: seq<string>, from: string, to: string, markers: seq<string>)
    requires IsTrace(trace, from, to, markers) && AllSettled(from, markers)
    ensures to == from
  {
    NothingJustified(from, markers);
    assert |trace| > 1 ==> JustifiedStep(trace[0], trace[0 + 1], markers);
  }

  lemma ExtendTrace(trace: seq<string>, from: string, text: string, markers: seq<string>, p: nat)
    requires IsTrace(trace, from, text, markers) && Justified(text, p, markers)
    ensures IsTrace(trace + [InsertBreak(text, p)], from, InsertBreak(text, p), markers)
  {
    var longer := trace + [InsertBreak(text, p)];
    assert JustifiedStep(text, InsertBreak(text, p), markers);
    forall t | 0 <= t < |longer| - 1 ensures JustifiedStep(longer[t], longer[t + 1], markers) {
      assert t < |trace| - 1 ==> longer[t] == trace[t] && longer[t + 1] == trace[t + 1];
    }
  }

  // ---------------------------------------------------------------------------------------------
  // Self-overlap
  // ---------------------------------------------------------------------------------------------

  /** A border of a marker is a proper prefix that is also a suffix. No border is followed, in the marker, by a blank:
      so an occurrence that overlaps a settled one cannot go on past its end. */
  ghost predicate BordersBreak(marker: string) {
    forall b :: 0 < b < |marker| && marker[b] == ' ' ==> exists k :: 0 <= k < b && marker[k] != marker[|marker| - b + k]
  }

  lemma NoOverlap(text: string, marker: string, i: nat, j: nat)
    requires OneLine(marker) && BordersBreak(marker)
    requires OccursAt(text, marker, i) && EndsWell(text, i + |marker|) && i < j <= i + |marker|
    ensures !OccursAt(text, marker, j)
  {
    var n := |marker|;
    var b := i + n - j;
    if i + n < |text| {
      if b > 0 && marker[b] == ' ' {
        var k :| 0 <= k < b && marker[k] != marker[n - b + k];
        BorderDiffers(text, marker, i, j, k);
      } else {
        assert j + n <= |text| ==> Lower(text[j + b]) != marker[b];
      }
    }
  }

  lemma BorderDiffers(text: string, marker: string, i: nat, j: nat, k: nat)
    requires OccursAt(text, marker, i) && i < j && j - i + k < |marker| && marker[k] != marker[j - i + k]
    ensures !OccursAt(text, marker, j)
  {
    assert Lower(text[i + (j - i + k)]) == marker[j - i + k];
    assert j + |marker| <= |text| ==> Lower(text[j + k]) != marker[k];
  }

  lemma MatchIsOccurrence(text: string, marker: string, i: int)
    ensures MatchesAt(LowerText(text), marker, i) <==> OccursAt(text, marker, i)
  {
    if 0 <= i && i + |marker| <= |text| {
      var cut := LowerText(text)[i..i + |marker|];
      assert forall k :: 0 <= k < |marker| ==> cut[k] == Lower(text[i + k]);
    }
  }

  // ---------------------------------------------------------------------------------------------
  // The rewriting loop
  // ---------------------------------------------------------------------------------------------

  /** Every occurrence before bound is settled. */
  ghost predicate SettledBelow(text: string, marker: string, bound: int) {
    forall i: nat :: i < bound && OccursAt(text, marker, i) ==> SettledAt(text, marker, i)
  }

  /** Handling the occurrence at idx: break before, break after. Everything up to its end is settled then. */
  lemma OccurrenceHandled(text: string, marker: string, idx: nat)
    requires OneLine(marker) && BordersBreak(marker)
    requires OccursAt(text, marker, idx) && SettledAt(text, marker, idx) && SettledBelow(text, marker, idx)
    ensures SettledBelow(text, marker, idx + |marker| + 1)
  {
    forall j | idx < j <= idx + |marker| ensures !OccursAt(text, marker, j) {
      NoOverlap(text, marker, idx, j);
    }
  }

  lemma InsertKeepsSettledBelow(text: string, p: nat, marker: string, bound: nat)
    requires bound <= p <= |text| && OneLine(marker) && SettledBelow(text, marker, bound)
    ensures SettledBelow(InsertBreak(text, p), marker, if bound == p then p + 1 else bound)
  {
    var r := InsertBreak(text, p);
    forall i: nat | i <= p && i < (if bound == p then p + 1 else bound) && OccursAt(r, marker, i)
      ensures SettledAt(r, marker, i)
    {
      InsertKeepsOccurrences(text, p, marker, i);
      assert SettledAt(text, marker, i);
    }
  }

  lemma BreakBefore(text: string, marker: string, idx: nat)
    requires OneLine(marker) && OccursAt(text, marker, idx) && SettledBelow(text, marker, idx)
    ensures var r := InsertBreak(text, idx);
            OccursAt(r, marker, idx + 1) && AtLineStart(r, idx + 1) && SettledBelow(r, marker, idx + 1)
  {
    var r := InsertBreak(text, idx);
    forall k | 0 <= k < |marker| ensures Lower(r[idx + 1 + k]) == marker[k] {
      assert Lower(text[idx + k]) == marker[k];
    }
    InsertKeepsSettledBelow(text, idx, marker, idx);
  }

  lemma BreakAfter(text: string, marker: string, idx: nat)
    requires OneLine(marker) && OccursAt(text, marker, idx) && AtLineStart(text, idx) && SettledBelow(text, marker, idx)
    ensures var r := InsertBreak(text, idx + |marker|);
            OccursAt(r, marker, idx) && SettledAt(r, marker, idx) && SettledBelow(r, marker, idx)
  {
    InsertKeepsSettledBelow(text, idx + |marker|, marker, idx);
  }

  lemma InsertKeepsAllSettled(text: string, p: nat, markers: seq<string>, k: nat)
    requires p <= |text| && k <= |markers| && AllSettled(text, markers[..k]) && GoodMarkers(markers)
    ensures AllSettled(InsertBreak(text, p), markers[..k])
  {
    forall j | 0 <= j < k ensures Settled(InsertBreak(text, p), LowerText(markers[..k][j])) {
      assert markers[..k][j] == markers[j];
      InsertKeepsSettled(text, p, LowerText(markers[j]));
    }
  }

  ghost predicate GoodMarkers(markers: seq<string>) {
    forall j :: 0 <= j < |markers| ==> OneLine(LowerText(markers[j])) && BordersBreak(LowerText(markers[j]))
  }

  /** The search for the next occurrence, from from on. */
  lemma FoundNext(text: string, marker: string, from: nat, idx: int)
    requires idx == Find(LowerText(text), marker, from) && SettledBelow(text, marker, from)
    ensures idx == -1 ==> Settled(text, marker)
    ensures idx != -1 ==> from <= idx && OccursAt(text, marker, idx) && SettledBelow(text, marker, idx)
  {
    forall i: nat ensures MatchesAt(LowerText(text), marker, i) <==> OccursAt(text, marker, i) {
      MatchIsOccurrence(text, marker, i);
    }
  }

  /** Breaks the line before and after the occurrence at idx where that is missing. */
  method BreakAround(ghost start: string, text: string, markers: seq<string>, k: nat, at: nat,
                     ghost before: seq<string>)
    returns (result: string, after: nat, ghost trace: seq<string>)
    requires k < |markers| && GoodMarkers(markers) && AllSettled(text, markers[..k])
    requires OccursAt(text, LowerText(markers[k]), at) && SettledBelow(text, LowerText(markers[k]), at)
    requires IsTrace(before, start, text, markers)
    ensures SettledBelow(result, LowerText(markers[k]), after + 1) && AllSettled(result, markers[..k])
    ensures IsTrace(trace, start, result, markers)
    ensures |result| - after <= |text| - at
  {
    ghost var marker := LowerText(markers[k]);
    result, trace := text, before;
    var idx := at;
    if idx > 0 && result[idx - 1] != '\n' {
      BreakBefore(result, marker, idx);
      InsertKeepsAllSettled(result, idx, markers, k);
      assert JustifiedBy(result, idx, marker, idx);
      ExtendTrace(trace, start, result, markers, idx);
      result := InsertBreak(result, idx);
      trace := trace + [result];
      idx := idx + 1;
    }
    after := idx + |markers[k]|;
    result, trace := BreakBehind(start, result, markers, k, idx, trace);
  }

  /** The second half: a break behind the occurrence. */
  method BreakBehind(ghost start: string, text: string, markers: seq<string>, k: nat, idx: nat,
                     ghost before: seq<string>)
    returns (result: string, ghost trace: seq<string>)
    requires k < |markers| && GoodMarkers(markers) && AllSettled(text, markers[..k])
    requires OccursAt(text, LowerText(markers[k]), idx) && AtLineStart(text, idx)
    requires SettledBelow(text, LowerText(markers[k]), idx)
    requires IsTrace(before, start, text, markers)
    ensures SettledBelow(result, LowerText(markers[k]), idx + |markers[k]| + 1) && AllSettled(result, markers[..k])
    ensures IsTrace(trace, start, result, markers)
    ensures |result| <= |text| + 1 && (|result| == |text| || idx + |markers[k]| < |text|)
  {
    ghost var marker := LowerText(markers[k]);
    result, trace := text, before;
    var after := idx + |markers[k]|;
    if after < |result| && result[after] != '\n' && result[after] != ' ' {
      BreakAfter(result, marker, idx);
      InsertKeepsAllSettled(result, after, markers, k);
      assert JustifiedBy(result, after, marker, idx);
      ExtendTrace(trace, start, result, markers, after);
      result := InsertBreak(result, after);
      trace := trace + [result];
    }
    OccurrenceHandled(result, marker, idx);
  }

  /** One marker's pass over the text. */
  method BreakAtMarker(text: string, markers: seq<string>, k: nat) returns (result: string, ghost trace: seq<string>)
    requires k < |markers| && GoodMarkers(markers) && AllSettled(text, markers[..k])
    ensures AllSettled(result, markers[..k + 1])
    ensures IsTrace(trace, text, result, markers)
  {
    result, trace := text, [text];
    var marker := LowerText(markers[k]);
    var idx := Find(LowerText(result), marker, 0);
    FoundNext(result, marker, 0, idx);
    while idx != -1
      invariant -1 <= idx
      invariant idx != -1 ==> OccursAt(result, marker, idx) && SettledBelow(result, marker, idx)
      invariant idx == -1 ==> Settled(result, marker)
      invariant AllSettled(result, markers[..k])
      invariant IsTrace(trace, text, result, markers)
      decreases if idx == -1 then 0 else |result| - idx
    {
      var after;
      result, after, trace := BreakAround(text, result, markers, k, idx, trace);
      idx := Find(LowerText(result), marker, after + 1);
      FoundNext(result, marker, after + 1, idx);
    }
    assert forall j :: 0 <= j < k ==> markers[..k + 1][j] == markers[..k][j];
  }

  lemma JoinTraces(a: seq<string>, b: seq<string>, x: string, y: string, z: string, markers: seq<string>)
    requires IsTrace(a, x, y, markers) && IsTrace(b, y, z, markers)
    ensures IsTrace(a + b[1..], x, z, markers)
  {
    var c := a + b[1..];
    forall t | 0 <= t < |c| - 1 ensures JustifiedStep(c[t], c[t + 1], markers) {
      if t < |a| - 1 {
        assert c[t] == a[t] && c[t + 1] == a[t + 1];
      } else {
        assert c[t] == b[t - (|a| - 1)] && c[t + 1] == b[t - (|a| - 1) + 1];
      }
    }
  }

  // ---------------------------------------------------------------------------------------------
  // The program's markers
  // ---------------------------------------------------------------------------------------------

  ghost predicate GoodMarker(marker: string) {
    OneLine(marker) && BordersBreak(marker)
  }

  lemma OneWordIsGood(marker: string)
    requires marker != "" && forall k :: 0 <= k < |marker| ==> marker[k] != ' ' && marker[k] != '\n'
    ensures GoodMarker(LowerText(marker))
  {
    assert forall k :: 0 <= k < |marker| ==> LowerText(marker)[k] == Lower(marker[k]);
  }

  /** The border of length b, if there were one, would differ from the start at k. */
  predicate BreaksAt(marker: string, b: nat, k: nat) {
    k < b < |marker| && Lower(marker[k]) != Lower(marker[|marker| - b + k])
  }

  lemma WordsAreGood(marker: string)
    requires marker != "" && marker[0] != ' ' && forall k :: 0 <= k < |marker| ==> marker[k] != '\n'
    requires forall b: nat :: 0 < b < |marker| && marker[b] == ' ' ==> BreaksAt(marker, b, 0) || BreaksAt(marker, b, 1)
    ensures GoodMarker(LowerText(marker))
  {
    var m := LowerText(marker);
    assert forall k :: 0 <= k < |marker| ==> m[k] == Lower(marker[k]);
    forall b: nat | 0 < b < |m| && m[b] == ' ' ensures exists k :: 0 <= k < b && m[k] != m[|m| - b + k] {
      assert marker[b] == ' ';
      var k := if BreaksAt(marker, b, 0) then 0 else 1;
      assert m[k] != m[|m| - b + k];
    }
  }

  lemma AboutTheJobIsGood()
    ensures GoodMarker(LowerText("About the job"))
  {
    WordsAreGood("About the job");
  }

  lemma JobDescriptionIsGood()
    ensures GoodMarker(LowerText("Job description"))
  {
    WordsAreGood("Job description");
  }

  lemma NiceToHaveIsGood()
    ensures GoodMarker(LowerText("Nice to Have"))
  {
    WordsAreGood("Nice to Have");
  }

  lemma SimilarJobsIsGood()
    ensures GoodMarker(LowerText("Similar jobs"))
  {
    WordsAreGood("Similar jobs");
  }

  lemma PeopleAlsoViewedIsGood()
    ensures GoodMarker(LowerText("People also viewed"))
  {
    WordsAreGood("People also viewed");
  }

  lemma DetermineYourFitIsGood()
    ensures GoodMarker(LowerText("Determine your fit"))
  {
    WordsAreGood("Determine your fit");
  }

  lemma MeetTheHiringTeamIsGood()
    ensures GoodMarker(LowerText("Meet the hiring team"))
  {
    WordsAreGood("Meet the hiring team");
  }

  lemma PeopleYouCanReachIsGood()
    ensures GoodMarker(LowerText("People you can reach out to"))
  {
    WordsAreGood("People you can reach out to");
  }

  lemma ResponsibilitiesIsGood()
    ensures GoodMarker(LowerText("Responsibilities"))
  {
    OneWordIsGood("Responsibilities");
  }

  lemma RequirementsIsGood()
    ensures GoodMarker(LowerText("Requirements"))
  {
    OneWordIsGood("Requirements");
  }

  lemma AllMarkersAreGood()
    ensures GoodMarkers(SECTION_BREAK_MARKERS)
  {
    AboutTheJobIsGood();
    JobDescriptionIsGood();
    ResponsibilitiesIsGood();
    RequirementsIsGood();
    NiceToHaveIsGood();
    SimilarJobsIsGood();
    PeopleAlsoViewedIsGood();
    DetermineYourFitIsGood();
    MeetTheHiringTeamIsGood();
    PeopleYouCanReachIsGood();
    forall j | 0 <= j < |SECTION_BREAK_MARKERS| ensures GoodMarker(LowerText(SECTION_BREAK_MARKERS[j])) {
      assert j == 0 || j == 1 || j == 2 || j == 3 || j == 4 || j == 5 || j == 6 || j == 7 || j == 8 || j == 9;
    }
  }

  /** normalize_flattened_job_text: text of more than three lines is left alone; otherwise afterwards every occurrence
      of every marker starts a line, by justified newlines only. */
  method NormalizeFlattenedJobText(text: string) returns (result: string, ghost trace: seq<string>)
    ensures |SplitLines(text)| > 3 ==> result == text
    ensures |SplitLines(text)| <= 3 ==> AllSettled(result, SECTION_BREAK_MARKERS)
    ensures IsTrace(trace, text, result, SECTION_BREAK_MARKERS)
  {
    result, trace := text, [text];
    if |SplitLines(text)| > 3 {
      return;
    }
    AllMarkersAreGood();
    for k := 0 to |SECTION_BREAK_MARKERS|
      invariant AllSettled(result, SECTION_BREAK_MARKERS[..k])
      invariant IsTrace(trace, text, result, SECTION_BREAK_MARKERS)
    {
      var next;
      ghost var more;
      next, more := BreakAtMarker(result, SECTION_BREAK_MARKERS, k);
      JoinTraces(trace, more, text, result, next, SECTION_BREAK_MARKERS);
      result, trace := next, trace + more[1..];
    }
    assert SECTION_BREAK_MARKERS[..|SECTION_BREAK_MARKERS|] == SECTION_BREAK_MARKERS;
  }
}
