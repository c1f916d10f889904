/** The overlapping windows a page is cut into for the document classifier. */
module ClassifierWindows {
  import opened PyText

  datatype ChunkResult = Chunks(chunks: seq<string>) | BadSize | BadOverlap

  function Min(a: int, b: int): int {
    if a <= b then a else b
  }

  /** The windows before trimming, from a start position on. */
  function WindowsFrom(s: string, start: nat, size: nat, step: nat): seq<string>
    requires 0 < step && start <= |s|
    decreases |s| - start
  {
    if start + size >= |s| then [s[start..]]
    else if start + step > |s| then []
    else [s[start..start + size]] + WindowsFrom(s, start + step, size, step)
  }

  function Windows(s: string, size: nat, overlap: nat): seq<string>
    requires overlap < size
  {
    WindowsFrom(s, 0, size, size - overlap)
  }

  /** What is emitted: windows without the whitespace around them, blank ones left out. */
  function Trim(windows: seq<string>, strip: string -> string): seq<string> {
    if windows == [] then [] else
      var chunk := strip(windows[|windows| - 1]);
      Trim(windows[..|windows| - 1], strip) + if chunk == "" then [] else [chunk]
  }

  function ChunkText(text: string, chunkSize: int, overlap: int): ChunkResult {
    var cleaned := Strip(text);
    if cleaned == "" then Chunks([])
    else if chunkSize <= 0 then BadSize
    else if overlap < 0 || overlap >= chunkSize then BadOverlap
    else if |cleaned| <= chunkSize then Chunks([cleaned])
    else Chunks(Trim(Windows(cleaned, chunkSize, overlap), Strip))
  }

  lemma TrimAppend(windows: seq<string>, w: string, strip: string -> string)
    ensures Trim(windows + [w], strip) == Trim(windows, strip) + if strip(w) == "" then [] else [strip(w)]
  {
    assert (windows + [w])[..|windows|] == windows;
  }

  lemma LastWindow(s: string, start: nat, size: nat, step: nat)
    requires 0 < step && start <= |s| && start + size >= |s|
    ensures WindowsFrom(s, start, size, step) == [s[start..|s|]]
  {
    assert s[start..] == s[start..|s|];
  }

  lemma NextWindow(s: string, start: nat, size: nat, step: nat, cut: seq<string>, all: seq<string>)
    requires 0 < step <= size && start + size < |s| && all == cut + WindowsFrom(s, start, size, step)
    ensures all == cut + [s[start..start + size]] + WindowsFrom(s, start + step, size, step)
  {
    ConcatAssoc(cut, [s[start..start + size]], WindowsFrom(s, start + step, size, step));
  }

  method CutWindows(cleaned: string, chunkSize: nat, overlap: nat, strip: string -> string)
    returns (chunks: seq<string>)
    requires overlap < chunkSize < |cleaned|
    ensures chunks == Trim(Windows(cleaned, chunkSize, overlap), strip)
  {
    chunks := [];
    var step := chunkSize - overlap;
    var start := 0;
    ghost var cut: seq<string>, all := [], Windows(cleaned, chunkSize, overlap);
    while start < |cleaned|
      invariant start < |cleaned|
      invariant all == cut + WindowsFrom(cleaned, start, chunkSize, step)
      invariant chunks == Trim(cut, strip)
    {
      var end := Min(start + chunkSize, |cleaned|);
      var chunk := strip(cleaned[start..end]);
      TrimAppend(cut, cleaned[start..end], strip);
      if chunk != "" {
        chunks := chunks + [chunk];
      }
      if end >= |cleaned| {
        LastWindow(cleaned, start, chunkSize, step);
        break;
      }
      NextWindow(cleaned, start, chunkSize, step, cut, all);
      cut := cut + [cleaned[start..end]];
      start := start + step;
    }
  }

  method ChunkTextForClassification(text: string, chunkSize: int, overlap: int) returns (r: ChunkResult)
    ensures r == ChunkText(text, chunkSize, overlap)
    ensures Strip(text) == "" ==> r == Chunks([])
    ensures Strip(text) != "" && chunkSize <= 0 ==> r == BadSize
    ensures Strip(text) != "" && chunkSize > 0 && !(0 <= overlap < chunkSize) ==> r == BadOverlap
    ensures 0 < |Strip(text)| <= chunkSize && 0 <= overlap < chunkSize ==> r == Chunks([Strip(text)])
  {
    var cleaned := Strip(text);
    if cleaned == "" {
      return Chunks([]);
    }
    if chunkSize <= 0 {
      return BadSize;
    }
    if overlap < 0 || overlap >= chunkSize {
      return BadOverlap;
    }
    if |cleaned| <= chunkSize {
      return Chunks([cleaned]);
    }
    var chunks := CutWindows(cleaned, chunkSize, overlap, Strip);
    r := Chunks(chunks);
  }

  // ---------------------------------------------------------------------------------------------
  // Where the windows lie
  // ---------------------------------------------------------------------------------------------

  /** The number of windows that n characters need from a start with that many left. */
  function Count(n: int, size: nat, step: nat): nat
    requires 0 < step
  {
    if n <= size then 1 else 1 + (n - size + step - 1) / step
  }

  lemma CountStep(n: int, size: nat, step: nat)
    requires 0 < step && size < n
    ensures Count(n, size, step) == 1 + Count(n - step, size, step)
  {
    var a := n - size;
    if a <= step {
      QuotientOne(a + step - 1, step);
    } else {
      QuotientStep(a - 1, step);
    }
  }

  lemma QuotientOne(a: int, step: int)
    requires 0 < step <= a < 2 * step
    ensures a / step == 1
  {
  }

  lemma QuotientStep(a: int, step: int)
    requires 0 < step && 0 <= a
    ensures (a + step) / step == 1 + a / step
  {
    var q, r := a / step, a % step;
    assert a + step == (q + 1) * step + r;
    QuotientUnique(a + step, q + 1, r, step);
  }

  lemma QuotientUnique(a: int, q: int, r: int, step: int)
    requires 0 < step && 0 <= r < step && a == q * step + r
    ensures a / step == q
  {
    var d := a / step - q;
    assert d * step == r - a % step;
    assert d >= 1 ==> d * step >= step;
    assert d <= -1 ==> d * step <= -step;
  }

  lemma {:induction false} CountFrom(s: string, start: nat, size: nat, step: nat)
    requires 0 < step <= size && start <= |s|
    ensures |WindowsFrom(s, start, size, step)| == Count(|s| - start, size, step)
    decreases |s| - start
  {
    if start + size < |s| {
      CountFrom(s, start + step, size, step);
      CountStep(|s| - start, size, step);
    }
  }

  /** Where window i starts. */
  function StartOf(i: nat, step: nat): nat {
    if i == 0 then 0 else StartOf(i - 1, step) + step
  }

  lemma {:induction false} StartIsMultiple(i: nat, step: nat)
    ensures StartOf(i, step) == i * step
  {
    if i > 0 {
      StartIsMultiple(i - 1, step);
      assert i * step == (i - 1) * step + step;
    }
  }

  lemma {:induction false} StartShift(i: nat, step: nat)
    requires i > 0
    ensures StartOf(i, step) == step + StartOf(i - 1, step)
  {
  }

  /** Window i is the slice that starts at i steps and runs for the chunk size or to the end. */
  lemma {:induction false} WindowFrom(s: string, start: nat, size: nat, step: nat, i: nat, from: nat)
    requires 0 < step <= size && start < |s|
    requires i < |WindowsFrom(s, start, size, step)| && from == start + StartOf(i, step)
    ensures from < |s|
    ensures WindowsFrom(s, start, size, step)[i] == s[from..Min(from + size, |s|)]
    ensures i == |WindowsFrom(s, start, size, step)| - 1 <==> from + size >= |s|
    decreases |s| - start
  {
    if start + size >= |s| {
      LastWindow(s, start, size, step);
    } else {
      NextWindow(s, start, size, step, [], WindowsFrom(s, start, size, step));
      var rest := WindowsFrom(s, start + step, size, step);
      var all := WindowsFrom(s, start, size, step);
      assert all == [s[start..start + size]] + rest;
      if i > 0 {
        StartShift(i, step);
        WindowFrom(s, start + step, size, step, i - 1, from);
        assert all[i] == rest[i - 1];
      } else {
        CountFrom(s, start + step, size, step);
      }
    }
  }

  lemma WindowAt(s: string, size: nat, overlap: nat, i: nat)
    requires overlap < size < |s| && i < |Windows(s, size, overlap)|
    ensures var from := StartOf(i, size - overlap);
            && from < |s|
            && Windows(s, size, overlap)[i] == s[from..Min(from + size, |s|)]
            && (i == |Windows(s, size, overlap)| - 1 <==> from + size >= |s|)
  {
    WindowFrom(s, 0, size, size - overlap, i, StartOf(i, size - overlap));
  }

  // ---------------------------------------------------------------------------------------------
  // Main results
  // ---------------------------------------------------------------------------------------------

  /** One window, or 1 + ceil((n - size) / (size - overlap)). */
  lemma WindowCount(s: string, size: nat, overlap: nat)
    requires overlap < size
    ensures |Windows(s, size, overlap)| ==
            if |s| <= size then 1 else 1 + (|s| - size + (size - overlap) - 1) / (size - overlap)
  {
    CountFrom(s, 0, size, size - overlap);
  }

  /** The first window followed by what each later one adds after the overlap. */
  function Glue(windows: seq<string>, overlap: nat): string
    requires forall i :: 0 < i < |windows| ==> overlap <= |windows[i]|
  {
    if |windows| == 0 then ""
    else if |windows| == 1 then windows[0]
    else Glue(windows[..|windows| - 1], overlap) + windows[|windows| - 1][overlap..]
  }

  lemma LaterWindowsReach(s: string, size: nat, overlap: nat, i: nat)
    requires overlap < size < |s| && 0 < i < |Windows(s, size, overlap)|
    ensures overlap <= |Windows(s, size, overlap)[i]|
  {
    WindowAt(s, size, overlap, i);
    WindowAt(s, size, overlap, i - 1);
  }

  lemma SliceJoins(s: string, p: nat, o: nat, q: nat)
    requires p + o <= q <= |s|
    ensures s[..p + o] + s[p..q][o..] == s[..q]
  {
    assert s[p..q][o..] == s[p + o..q];
  }

  lemma {:induction false} GlueFirst(s: string, size: nat, overlap: nat, m: nat)
    requires overlap < size < |s| && 0 < m <= |Windows(s, size, overlap)|
    ensures forall i :: 0 < i < m ==> overlap <= |Windows(s, size, overlap)[i]|
    ensures Glue(Windows(s, size, overlap)[..m], overlap) == s[..Min(StartOf(m - 1, size - overlap) + size, |s|)]
  {
    var windows, step := Windows(s, size, overlap), size - overlap;
    forall i | 0 < i < m ensures overlap <= |windows[i]| { LaterWindowsReach(s, size, overlap, i); }
    WindowAt(s, size, overlap, m - 1);
    var first := windows[..m];
    if m == 1 {
      assert first == [windows[0]];
    } else {
      GlueFirst(s, size, overlap, m - 1);
      WindowAt(s, size, overlap, m - 2);
      assert first[..m - 1] == windows[..m - 1];
      var p := StartOf(m - 1, step);
      SliceJoins(s, p, overlap, Min(p + size, |s|));
    }
  }

  /** Nothing is lost or doubled: dropping the overlap of every window but the first rebuilds the text. */
  lemma WindowsRebuild(s: string, size: nat, overlap: nat)
    requires overlap < size < |s|
    ensures forall i :: 0 < i < |Windows(s, size, overlap)| ==> overlap <= |Windows(s, size, overlap)[i]|
    ensures Glue(Windows(s, size, overlap), overlap) == s
  {
    var windows, step := Windows(s, size, overlap), size - overlap;
    CountFrom(s, 0, size, step);
    var m := |windows|;
    GlueFirst(s, size, overlap, m);
    assert windows[..m] == windows;
    WindowAt(s, size, overlap, m - 1);
    assert s[..|s|] == s;
  }

  /** No window lies inside the one before it: each starts later and ends later. */
  lemma WindowsAdvance(s: string, size: nat, overlap: nat, i: nat)
    requires overlap < size < |s| && i + 1 < |Windows(s, size, overlap)|
    ensures var step := size - overlap;
            var a, b := i * step, (i + 1) * step;
            var a', b' := a + size, Min(b + size, |s|);
            && a < b && a' < b' <= |s|
            && Windows(s, size, overlap)[i] == s[a..a'] && Windows(s, size, overlap)[i + 1] == s[b..b']
  {
    var step := size - overlap;
    WindowAt(s, size, overlap, i);
    WindowAt(s, size, overlap, i + 1);
    StartIsMultiple(i, step);
    StartIsMultiple(i + 1, step);
  }

  // Coverage

  /** What stripping is, for the proofs that need no more: a slice that leaves out nothing but whitespace. */
  ghost predicate IsStrip(strip: string -> string) {
    forall w :: StripsTo(w, strip(w))
  }

  ghost predicate StripsTo(w: string, t: string) {
    exists a: nat, b: nat :: StripsBetween(w, t, a, b)
  }

  ghost predicate StripsBetween(w: string, t: string, a: nat, b: nat) {
    && a <= b <= |w| && t == w[a..b]
    && (forall j :: 0 <= j < a ==> IsSpace(w[j]))
    && (forall j :: b <= j < |w| ==> IsSpace(w[j]))
  }

  lemma StripIsStrip()
    ensures IsStrip(Strip)
  {
    forall w ensures StripsTo(w, Strip(w)) {
      var a, b := StripSlice(w);
      assert StripsBetween(w, Strip(w), a, b);
    }
  }

  lemma {:induction false} TrimKeeps(windows: seq<string>, i: nat, strip: string -> string)
    requires i < |windows| && strip(windows[i]) != ""
    ensures strip(windows[i]) in Trim(windows, strip)
  {
    if i < |windows| - 1 {
      TrimKeeps(windows[..|windows| - 1], i, strip);
    }
  }

  /** The window a position falls into. */
  lemma WindowOf(s: string, size: nat, overlap: nat, j: nat) returns (i: nat)
    requires overlap < size < |s| && j < |s|
    ensures i < |Windows(s, size, overlap)|
    ensures StartOf(i, size - overlap) <= j < StartOf(i, size - overlap) + |Windows(s, size, overlap)[i]|
  {
    var step := size - overlap;
    CountFrom(s, 0, size, step);
    i := 0;
    WindowAt(s, size, overlap, 0);
    while j >= StartOf(i, step) + |Windows(s, size, overlap)[i]|
      invariant i < |Windows(s, size, overlap)| && StartOf(i, step) <= j
      decreases |Windows(s, size, overlap)| - i
    {
      WindowAt(s, size, overlap, i);
      i := i + 1;
    }
  }

  ghost predicate CoveredBy(text: string, j: nat, chunks: seq<string>, a: nat, b: nat) {
    a <= j < b <= |text| && text[a..b] in chunks
  }

  /** Stripping a slice that holds a visible character leaves a slice that still holds it. */
  lemma StrippedSlice(s: string, at: nat, end: nat, j: nat, strip: string -> string) returns (a: nat, b: nat)
    requires IsStrip(strip) && at <= j < end <= |s| && !IsSpace(s[j])
    ensures a <= j < b <= |s| && s[a..b] == strip(s[at..end]) && strip(s[at..end]) != ""
  {
    var w := s[at..end];
    assert w[j - at] == s[j];
    assert StripsTo(w, strip(w));
    var l: nat, r: nat :| StripsBetween(w, strip(w), l, r);
    a, b := at + l, at + r;
    SliceOfSlice(s, at, end, l, r);
  }

  lemma SliceOfSlice(s: string, at: nat, end: nat, l: nat, r: nat)
    requires at <= end <= |s| && l <= r <= end - at
    ensures s[at..end][l..r] == s[at + l..at + r]
  {
    assert forall k :: 0 <= k < r - l ==> s[at..end][l..r][k] == s[at + l + k];
  }

  lemma WindowsCover(s: string, size: nat, overlap: nat, j: nat, strip: string -> string)
    requires IsStrip(strip) && overlap < size < |s| && j < |s| && !IsSpace(s[j])
    ensures exists a, b :: CoveredBy(s, j, Trim(Windows(s, size, overlap), strip), a, b)
  {
    var i := WindowOf(s, size, overlap, j);
    var at := StartOf(i, size - overlap);
    WindowAt(s, size, overlap, i);
    var a, b := StrippedSlice(s, at, Min(at + size, |s|), j, strip);
    TrimKeeps(Windows(s, size, overlap), i, strip);
    assert CoveredBy(s, j, Trim(Windows(s, size, overlap), strip), a, b);
  }

  /** Every character that is not whitespace is in a chunk that is sent to the classifier, whenever anything is. */
  lemma EveryInkIsCovered(text: string, chunkSize: int, overlap: int, s: string, j: nat)
    requires ChunkText(text, chunkSize, overlap).Chunks? && s == Strip(text) && j < |s| && !IsSpace(s[j])
    ensures exists a, b :: CoveredBy(s, j, ChunkText(text, chunkSize, overlap).chunks, a, b)
  {
    if |s| <= chunkSize {
      assert s[0..|s|] == s;
      assert CoveredBy(s, j, [s], 0, |s|);
    } else {
      StripIsStrip();
      WindowsCover(s, chunkSize, overlap, j, Strip);
    }
  }

  lemma WindowsFit(s: string, size: nat, overlap: nat)
    requires overlap < size < |s|
    ensures forall i :: 0 <= i < |Windows(s, size, overlap)| ==> |Windows(s, size, overlap)[i]| <= size
  {
    forall i | 0 <= i < |Windows(s, size, overlap)| ensures |Windows(s, size, overlap)[i]| <= size {
      WindowAt(s, size, overlap, i);
    }
  }

  /** No chunk is blank, has whitespace to trim, or is longer than the chunk size. */
  lemma ChunksFit(text: string, chunkSize: int, overlap: int, s: string)
    requires ChunkText(text, chunkSize, overlap).Chunks? && s == Strip(text)
    ensures forall c :: c in ChunkText(text, chunkSize, overlap).chunks ==> c != "" && Trimmed(c) && |c| <= chunkSize
  {
    StripTrims(text);
    if s != "" && |s| > chunkSize {
      WindowsFit(s, chunkSize, overlap);
      TrimFits(Windows(s, chunkSize, overlap), chunkSize);
    }
  }

  lemma {:induction false} TrimFits(windows: seq<string>, size: nat)
    requires forall i :: 0 <= i < |windows| ==> |windows[i]| <= size
    ensures forall c :: c in Trim(windows, Strip) ==> c != "" && Trimmed(c) && |c| <= size
  {
    if windows != [] {
      TrimFits(windows[..|windows| - 1], size);
      StripTrims(windows[|windows| - 1]);
    }
  }

  // ---------------------------------------------------------------------------------------------
  // What is sent
  // ---------------------------------------------------------------------------------------------

  /** The chunks are the windows at the given places, in order, without the white space around them; the places are
      those whose window is not blank. */
  ghost predicate SentFrom(chunks: seq<string>, windows: seq<string>, places: seq<nat>, strip: string -> string) {
    && |chunks| == |places|
    && (forall k :: 0 <= k < |places| ==> places[k] < |windows| && chunks[k] == strip(windows[places[k]]))
    && (forall j, k :: 0 <= j < k < |places| ==> places[j] < places[k])
    && (forall i: nat :: i < |windows| ==> (i in places <==> strip(windows[i]) != ""))
  }

  lemma {:induction false} TrimPlaces(windows: seq<string>, strip: string -> string) returns (places: seq<nat>)
    ensures SentFrom(Trim(windows, strip), windows, places, strip)
  {
    if windows == [] {
      places := [];
    } else {
      var init, last := windows[..|windows| - 1], windows[|windows| - 1];
      places := TrimPlaces(init, strip);
      TrimAppend(init, last, strip);
      assert windows == init + [last];
      if strip(last) == "" {
        NothingMoreSent(Trim(init, strip), init, last, places, strip);
      } else {
        OneMoreSent(Trim(init, strip), init, last, places, strip);
        places := places + [|init|];
      }
    }
  }

  lemma NothingMoreSent(chunks: seq<string>, init: seq<string>, last: string, places: seq<nat>,
                        strip: string -> string)
    requires SentFrom(chunks, init, places, strip) && strip(last) == ""
    ensures SentFrom(chunks + [], init + [last], places, strip)
  {
    assert chunks + [] == chunks;
    assert forall k :: 0 <= k < |places| ==> places[k] in places;
  }

  lemma OneMoreSent(chunks: seq<string>, init: seq<string>, last: string, places: seq<nat>, strip: string -> string)
    requires SentFrom(chunks, init, places, strip) && strip(last) != ""
    ensures SentFrom(chunks + [strip(last)], init + [last], places + [|init|], strip)
  {
  }

  lemma WindowReaches(s: string, size: nat, overlap: nat, i: nat)
    requires overlap < size < |s| && i < |Windows(s, size, overlap)|
    ensures var from := i * (size - overlap);
            from < |s| && Windows(s, size, overlap)[i] == s[from..if from + size <= |s| then from + size else |s|]
  {
    WindowAt(s, size, overlap, i);
    StartIsMultiple(i, size - overlap);
  }

  /** What a text too long for one chunk comes to: its windows, the i-th from i steps on as far as the size allows, a
      step being the size less the overlap. */
  lemma LongTextIsWindows(text: string, chunkSize: int, overlap: int) returns (places: seq<nat>, windows: seq<string>)
    requires 0 <= overlap < chunkSize < |Strip(text)|
    ensures ChunkText(text, chunkSize, overlap).Chunks?
    ensures SentFrom(ChunkText(text, chunkSize, overlap).chunks, windows, places, Strip)
    ensures var n, step := |Strip(text)|, chunkSize - overlap;
            && |windows| == 1 + (n - chunkSize + step - 1) / step
            && forall i: nat :: i < |windows| ==> IsWindow(windows[i], Strip(text), i * step, chunkSize)
  {
    var s := Strip(text);
    windows := Windows(s, chunkSize, overlap);
    places := TrimPlaces(windows, Strip);
    WindowCount(s, chunkSize, overlap);
    forall i: nat | i < |windows| ensures IsWindow(windows[i], s, i * (chunkSize - overlap), chunkSize) {
      WindowReaches(s, chunkSize, overlap, i);
    }
  }

  predicate IsWindow(window: string, s: string, from: int, size: int) {
    0 <= from < |s| && size >= 0 && window == s[from..if from + size <= |s| then from + size else |s|]
  }
}
