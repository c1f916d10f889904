/** Cutting the job description out of a captured page: by lines when headings stand alone, inline otherwise.
    The regular expressions for headings, stops and interface noise are arbitrary tests of a line. */
module JobSection {
  import opened Options
  import opened PyText

  type LineTest = string -> bool

  // ---------------------------------------------------------------------------------------------
  // By lines
  // ---------------------------------------------------------------------------------------------

  const PREFIX_LINES: nat := 4
  const PREFIX_LINE_LENGTH: nat := 120

  /** The first heading. */
  predicate StartsAt(lines: seq<string>, heading: LineTest, start: nat) {
    start < |lines| && heading(lines[start]) && forall i :: 0 <= i < start ==> !heading(lines[i])
  }

  /** The section runs to the first stop or noise after the heading, or to the last line. */
  ghost predicate Section(lines: seq<string>, ends: LineTest, start: nat, end: nat) {
    && start < end <= |lines|
    && (forall i :: start < i < end ==> !ends(lines[i]))
    && (end < |lines| ==> ends(lines[end]))
  }

  predicate Introduces(line: string, ends: LineTest) {
    |line| <= PREFIX_LINE_LENGTH && !ends(line)
  }

  function Introduction(lines: seq<string>, ends: LineTest, first: nat, last: nat): seq<string>
    requires first <= last <= |lines|
  {
    if first == last then []
    else
      var before := Introduction(lines, ends, first, last - 1);
      if Introduces(lines[last - 1], ends) then before + [lines[last - 1]] else before
  }

  function IntroductionStart(start: nat): nat {
    if start < PREFIX_LINES then 0 else start - PREFIX_LINES
  }

  /** The lines at the given places, which are in order. */
  ghost predicate LinesAt(chosen: seq<string>, lines: seq<string>, places: seq<nat>) {
    && |chosen| == |places|
    && (forall k :: 0 <= k < |places| ==> places[k] < |lines| && chosen[k] == lines[places[k]])
    && (forall j, k :: 0 <= j < k < |places| ==> places[j] < places[k])
  }

  /** The places of the up to four lines before the heading that are short and neither a stop nor noise. */
  ghost predicate IntroducedBy(places: seq<nat>, lines: seq<string>, ends: LineTest, start: nat)
    requires start <= |lines|
  {
    forall i: nat :: i in places <==> start - 4 <= i < start && |lines[i]| <= 120 && !ends(lines[i])
  }

  lemma {:induction false} IntroductionPlaces(lines: seq<string>, ends: LineTest, first: nat, last: nat)
    returns (places: seq<nat>)
    requires first <= last <= |lines|
    ensures LinesAt(Introduction(lines, ends, first, last), lines, places)
    ensures forall i: nat :: i in places <==> first <= i < last && |lines[i]| <= 120 && !ends(lines[i])
  {
    places := [];
    if first < last {
      places := IntroductionPlaces(lines, ends, first, last - 1);
      if Introduces(lines[last - 1], ends) {
        OneMorePlace(Introduction(lines, ends, first, last - 1), lines, places, last - 1);
        places := places + [last - 1];
      }
    }
  }

  lemma OneMorePlace(chosen: seq<string>, lines: seq<string>, places: seq<nat>, i: nat)
    requires LinesAt(chosen, lines, places) && i < |lines| && forall p :: p in places ==> p < i
    ensures LinesAt(chosen + [lines[i]], lines, places + [i])
    ensures forall p :: p in places + [i] <==> p in places || p == i
  {
    assert forall k :: 0 <= k < |places| ==> places[k] in places;
  }

  method ExtractFromLines(lines: seq<string>, heading: LineTest, stop: LineTest, noise: LineTest, plain: LineTest)
    returns (section: Option<seq<string>>, ghost start: nat, ghost end: nat, ghost introduction: seq<string>,
             ghost places: seq<nat>)
    ensures section.None? <==> forall i :: 0 <= i < |lines| ==> !heading(lines[i])
    ensures section.Some? ==>
              && StartsAt(lines, heading, start)
              && Section(lines, line => stop(line) || noise(line), start, end)
              && section.value == introduction + lines[start..end] && LinesAt(introduction, lines, places)
              && if plain(lines[start]) then places == []
                 else IntroducedBy(places, lines, line => stop(line) || noise(line), start)
  {
    start, end, introduction, places := 0, 0, [], [];
    var startIdx := 0;
    while startIdx < |lines| && !heading(lines[startIdx])
      invariant startIdx <= |lines| && forall i :: 0 <= i < startIdx ==> !heading(lines[i])
    {
      startIdx := startIdx + 1;
    }
    if startIdx == |lines| {
      return None, 0, 0, [], [];
    }
    start := startIdx;
    ghost var ends := (line: string) => stop(line) || noise(line);
    var prefix: seq<string> := [];
    var first := IntroductionStart(startIdx);
    if !plain(lines[startIdx]) {
      for i := first to startIdx
        invariant prefix == Introduction(lines, ends, first, i)
      {
        if |lines[i]| <= PREFIX_LINE_LENGTH && !noise(lines[i]) && !stop(lines[i]) {
          prefix := prefix + [lines[i]];
        }
      }
    }
    var body := [lines[startIdx]];
    var next := startIdx + 1;
    while next < |lines|
      invariant startIdx < next <= |lines| && body == lines[startIdx..next]
      invariant forall i :: startIdx < i < next ==> !ends(lines[i])
    {
      if stop(lines[next]) || noise(lines[next]) {
        break;
      }
      body := body + [lines[next]];
      next := next + 1;
    }
    end := next;
    introduction := prefix;
    if !plain(lines[start]) {
      places := IntroductionPlaces(lines, ends, first, start);
    }
    section := Some(prefix + body);
  }

  // ---------------------------------------------------------------------------------------------
  // Inline
  // ---------------------------------------------------------------------------------------------

  ghost predicate SomeMatch(text: string, markers: seq<string>, i: int) {
    exists m :: 0 <= m < |markers| && MatchesAt(text, markers[m], i)
  }

  /** No marker at all, or the leftmost place where one stands. */
  ghost predicate IsFirstPlace(text: string, markers: seq<string>, place: Option<nat>) {
    && (place.None? ==> forall i :: 0 <= i ==> !SomeMatch(text, markers, i))
    && (place.Some? ==> SomeMatch(text, markers, place.value)
                        && forall i :: 0 <= i < place.value ==> !SomeMatch(text, markers, i))
  }

  lemma OneMoreMarker(text: string, markers: seq<string>, k: nat, best: Option<nat>, idx: int)
    requires k < |markers| && IsFirstPlace(text, markers[..k], best) && idx == Find(text, markers[k], 0)
    ensures IsFirstPlace(text, markers[..k + 1],
                         if idx != -1 && (best.None? || idx < best.value) then Some(idx) else best)
  {
    var more := markers[..k + 1];
    forall i ensures SomeMatch(text, more, i) <==> SomeMatch(text, markers[..k], i) || MatchesAt(text, markers[k], i) {
      SomeMatchStep(text, markers, k, i);
    }
  }

  lemma SomeMatchStep(text: string, markers: seq<string>, k: nat, i: int)
    requires k < |markers|
    ensures SomeMatch(text, markers[..k + 1], i) <==> SomeMatch(text, markers[..k], i) || MatchesAt(text, markers[k], i)
  {
    if SomeMatch(text, markers[..k], i) {
      var m :| 0 <= m < k && MatchesAt(text, markers[..k][m], i);
      assert markers[..k + 1][m] == markers[m];
    }
    if MatchesAt(text, markers[k], i) {
      assert markers[..k + 1][k] == markers[k];
    }
    if SomeMatch(text, markers[..k + 1], i) {
      var m :| 0 <= m < k + 1 && MatchesAt(text, markers[..k + 1][m], i);
      assert m < k ==> markers[..k][m] == markers[m];
    }
  }

  method FindFirstStop(lowered: string, markers: seq<string>) returns (best: Option<nat>)
    ensures IsFirstPlace(lowered, markers, best)
  {
    best := None;
    for k := 0 to |markers|
      invariant IsFirstPlace(lowered, markers[..k], best)
    {
      var idx := Find(lowered, markers[k], 0);
      OneMoreMarker(lowered, markers, k, best, idx);
      if idx != -1 && (best.None? || idx < best.value) {
        best := Some(idx);
      }
    }
    assert markers[..|markers|] == markers;
  }

  /** The leftmost marker; of several there, the first of the list. */
  method FindFirstMarker(lowered: string, markers: seq<string>) returns (best: Option<nat>, which: nat)
    ensures IsFirstPlace(lowered, markers, best)
    ensures best.Some? ==> which < |markers| && MatchesAt(lowered, markers[which], best.value)
    ensures best.Some? ==> forall m :: 0 <= m < which ==> !MatchesAt(lowered, markers[m], best.value)
  {
    best, which := None, 0;
    for k := 0 to |markers|
      invariant IsFirstPlace(lowered, markers[..k], best)
      invariant best.Some? ==> which < k && MatchesAt(lowered, markers[which], best.value)
      invariant best.Some? ==> forall m :: 0 <= m < which ==> !MatchesAt(lowered, markers[m], best.value)
    {
      var idx := Find(lowered, markers[k], 0);
      OneMoreMarker(lowered, markers, k, best, idx);
      if idx != -1 && (best.None? || idx < best.value) {
        EarlierMarkersMiss(lowered, markers, k, best, idx);
        best, which := Some(idx), k;
      }
    }
    assert markers[..|markers|] == markers;
  }

  lemma EarlierMarkersMiss(text: string, markers: seq<string>, k: nat, best: Option<nat>, idx: nat)
    requires k < |markers| && IsFirstPlace(text, markers[..k], best) && (best.None? || idx < best.value)
    ensures forall m :: 0 <= m < k ==> !MatchesAt(text, markers[m], idx)
  {
    assert !SomeMatch(text, markers[..k], idx);
    forall m | 0 <= m < k ensures !MatchesAt(text, markers[m], idx) {
      assert markers[..k][m] == markers[m];
    }
  }

  /** Cutting a text at the first stop leaves a part in which no stop marker stands. */
  lemma CutHasNoStop(lowered: string, markers: seq<string>, stop: Option<nat>, i: int)
    requires IsFirstPlace(lowered, markers, stop) && (stop.Some? ==> stop.value <= |lowered|)
    requires forall m :: 0 <= m < |markers| ==> markers[m] != ""
    ensures !SomeMatch(if stop.Some? then lowered[..stop.value] else lowered, markers, i)
  {
    var cut := if stop.Some? then lowered[..stop.value] else lowered;
    forall m | 0 <= m < |markers| ensures !MatchesAt(cut, markers[m], i) {
      CutMatch(lowered, |cut|, markers[m], i);
      assert MatchesAt(lowered, markers[m], i) ==> SomeMatch(lowered, markers, i);
    }
  }

  lemma CutMatch(text: string, n: nat, marker: string, i: int)
    requires n <= |text| && marker != ""
    ensures MatchesAt(text[..n], marker, i) ==> MatchesAt(text, marker, i) && 0 <= i < n
  {
    if 0 <= i && i + |marker| <= n {
      assert text[..n][i..i + |marker|] == text[i..i + |marker|];
    }
  }

  /** The inline section: its heading, which is the first marker of the list at the leftmost place of any, and the
      body from there to the first stop marker, or to the end. */
  method ExtractInline(text: string, markers: seq<string>, stops: seq<string>)
    returns (found: Option<(string, string)>, ghost at: nat, ghost which: nat, ghost stop: Option<nat>)
    requires forall m :: 0 <= m < |stops| ==> stops[m] != ""
    ensures found.None? <==> IsFirstPlace(LowerText(text), markers, None)
    ensures found.Some? ==>
              && IsFirstPlace(LowerText(text), markers, Some(at))
              && which < |markers| && LowerText(found.value.0) == markers[which]
              && forall m :: 0 <= m < which ==> !MatchesAt(LowerText(text), markers[m], at)
    ensures found.Some? ==>
              var bodyStart := at + |found.value.0|;
              && bodyStart <= |text| && found.value.0 == text[at..bodyStart]
              && IsFirstPlace(LowerText(text[bodyStart..]), stops, stop)
              && (stop.Some? ==> stop.value <= |text| - bodyStart)
              && found.value.1 == text[bodyStart..if stop.Some? then bodyStart + stop.value else |text|]
    ensures found.Some? ==> forall i :: !SomeMatch(LowerText(found.value.1), stops, i)
  {
    at, which, stop := 0, 0, None;
    var lowered := LowerText(text);
    var best, first := FindFirstMarker(lowered, markers);
    if best.None? {
      return None, 0, 0, None;
    }
    at, which := best.value, first;
    var bodyStart := best.value + |markers[first]|;
    var heading := text[best.value..bodyStart];
    LowerSlice(text, best.value, bodyStart);
    var body := text[bodyStart..];
    var cut := FindFirstStop(LowerText(body), stops);
    stop := cut;
    ghost var whole := body;
    if cut.Some? {
      StopInside(LowerText(body), stops, cut.value);
      LowerSlice(body, 0, cut.value);
      body := body[..cut.value];
    }
    forall i ensures !SomeMatch(LowerText(body), stops, i) {
      CutHasNoStop(LowerText(whole), stops, cut, i);
    }
    found := Some((heading, body));
  }

  lemma LowerSlice(text: string, i: nat, j: nat)
    requires i <= j <= |text|
    ensures LowerText(text[i..j]) == LowerText(text)[i..j]
  {
  }

  lemma StopInside(lowered: string, stops: seq<string>, i: nat)
    requires SomeMatch(lowered, stops, i)
    ensures i <= |lowered|
  {
  }
}
