/** Discipline triage: which of a board's unseen roles the LLM lets through.
    The LLM is an arbitrary sequence of replies, one for each call in order; triage must conserve
    the postings whatever it says. */
module RadarTriage {
  import opened Options

  const TRIAGE_BATCH_SIZE: nat := 60
  const MAX_TRIAGE_BATCHES: nat := 10
  const TRIAGE_ATTEMPTS: nat := 2

  /** What one LLM call does: it answers with 1-based indices, or raises LLMError or ValueError (which
      triage catches), or raises anything else (which it does not). */
  datatype Reply = Indices(relevant: seq<int>) | Refused | Crashed

  type Oracle = nat -> Reply

  function Min(a: nat, b: nat): nat {
    if a <= b then a else b
  }

  // ---------------------------------------------------------------------------------------------
  // Batches
  // ---------------------------------------------------------------------------------------------

  /** ceil(n / TRIAGE_BATCH_SIZE) */
  function BatchCount(n: nat): nat {
    (n + TRIAGE_BATCH_SIZE - 1) / TRIAGE_BATCH_SIZE
  }

  function BatchStart(b: nat, n: nat): nat {
    Min(b * TRIAGE_BATCH_SIZE, n)
  }

  function Batches<T>(postings: seq<T>): seq<seq<T>> {
    seq(BatchCount(|postings|), (b: nat) => BatchOf(postings, b))
  }

  function BatchOf<T>(postings: seq<T>, b: nat): seq<T> {
    postings[BatchStart(b, |postings|)..BatchStart(b + 1, |postings|)]
  }

  function Flatten<T>(xss: seq<seq<T>>): seq<T> {
    if xss == [] then [] else Flatten(xss[..|xss| - 1]) + xss[|xss| - 1]
  }

  lemma {:induction false} FlattenFirstBatches<T>(postings: seq<T>, m: nat)
    requires m <= BatchCount(|postings|)
    ensures Flatten(Batches(postings)[..m]) == postings[..BatchStart(m, |postings|)]
  {
    if m > 0 {
      FlattenFirstBatches(postings, m - 1);
      var first := Batches(postings)[..m];
      assert first[..m - 1] == Batches(postings)[..m - 1];
      assert first[m - 1] == BatchOf(postings, m - 1);
      assert postings[..BatchStart(m - 1, |postings|)] + BatchOf(postings, m - 1) ==
             postings[..BatchStart(m, |postings|)];
    }
  }

  /** Concatenating the batches gives back the input, and each holds 1 to 60 postings. */
  lemma BatchesPartition<T>(postings: seq<T>)
    ensures Flatten(Batches(postings)) == postings
    ensures forall b :: 0 <= b < |Batches(postings)| ==> 1 <= |Batches(postings)[b]| <= TRIAGE_BATCH_SIZE
  {
    var all := Batches(postings);
    FlattenFirstBatches(postings, |all|);
    assert all[..|all|] == all;
    assert postings[..|postings|] == postings;
  }

  lemma {:induction false} FlattenLastBatches<T>(postings: seq<T>, m: nat)
    requires m <= BatchCount(|postings|)
    ensures Flatten(Batches(postings)[m..]) == postings[BatchStart(m, |postings|)..]
  {
    var all := Batches(postings);
    FlattenConcat(all[..m], all[m..]);
    assert all[..m] + all[m..] == all;
    FlattenFirstBatches(postings, m);
    BatchesPartition(postings);
  }

  lemma {:induction false} FlattenConcat<T>(xss: seq<seq<T>>, yss: seq<seq<T>>)
    ensures Flatten(xss + yss) == Flatten(xss) + Flatten(yss)
    decreases |yss|
  {
    if yss == [] {
      assert xss + yss == xss;
    } else {
      var n := |yss| - 1;
      FlattenConcat(xss, yss[..n]);
      assert (xss + yss)[..|xss + yss| - 1] == xss + yss[..n];
      assert (xss + yss)[|xss + yss| - 1] == yss[n];
    }
  }

  // ---------------------------------------------------------------------------------------------
  // One batch
  // ---------------------------------------------------------------------------------------------

  /** The positions a reply names in a batch of n: in range, each once, in order of first mention. */
  function Picks(relevant: seq<int>, n: nat): seq<nat> {
    if relevant == [] then [] else
      var rest := Picks(relevant[..|relevant| - 1], n);
      var index := relevant[|relevant| - 1] - 1;
      if index < 0 || index >= n || index in rest then rest else rest + [index]
  }

  ghost predicate Distinct(ps: seq<nat>) {
    forall i, j :: 0 <= i < j < |ps| ==> ps[i] != ps[j]
  }

  lemma {:induction false} PicksAreDistinctAndNamed(relevant: seq<int>, n: nat)
    ensures Distinct(Picks(relevant, n))
    ensures forall p: nat :: p in Picks(relevant, n) <==> p < n && p + 1 in relevant
  {
    if relevant != [] {
      var init, x := relevant[..|relevant| - 1], relevant[|relevant| - 1];
      PicksAreDistinctAndNamed(init, n);
      assert relevant == init + [x];
    }
  }

  function At<T>(postings: seq<T>, ps: seq<nat>): (r: seq<T>)
    requires forall i :: 0 <= i < |ps| ==> ps[i] < |postings|
    ensures |r| == |ps|
  {
    seq(|ps|, i requires 0 <= i < |ps| => postings[ps[i]])
  }

  /** kept is what the positions select, or both are missing. */
  ghost predicate Selects<T>(kept: Option<seq<T>>, postings: seq<T>, ps: Option<seq<nat>>) {
    && (kept.None? <==> ps.None?)
    && (kept.Some? ==> (forall i :: 0 <= i < |ps.value| ==> ps.value[i] < |postings|)
                       && kept.value == At(postings, ps.value))
  }

  method TriageBatch<T>(relevant: seq<int>, batch: seq<T>) returns (kept: seq<T>)
    ensures (forall i :: 0 <= i < |Picks(relevant, |batch|)| ==> Picks(relevant, |batch|)[i] < |batch|)
    ensures kept == At(batch, Picks(relevant, |batch|))
  {
    kept := [];
    var seen: set<int> := {};
    for i := 0 to |relevant|
      invariant forall k :: 0 <= k < |Picks(relevant[..i], |batch|)| ==> Picks(relevant[..i], |batch|)[k] < |batch|
      invariant forall p: int :: p in seen <==> p >= 0 && p in Picks(relevant[..i], |batch|)
      invariant kept == At(batch, Picks(relevant[..i], |batch|))
    {
      assert relevant[..i + 1][..i] == relevant[..i];
      var index := relevant[i] - 1;
      if index < 0 || index >= |batch| || index in seen {
        continue;
      }
      seen := seen + {index};
      kept := kept + [batch[index]];
    }
    assert relevant[..|relevant|] == relevant;
  }

  // ---------------------------------------------------------------------------------------------
  // One batch with its retry
  // ---------------------------------------------------------------------------------------------

  /** The reply that decides a batch whose first call is number k, and how many calls that takes. */
  function Deciding(llm: Oracle, k: nat): Reply {
    if llm(k).Refused? then llm(k + 1) else llm(k)
  }

  function Used(llm: Oracle, k: nat): nat {
    if llm(k).Refused? then 2 else 1
  }

  /** Fails open: a batch refused twice is kept whole. */
  function BatchVerdict(reply: Reply, n: nat): Option<seq<nat>> {
    match reply
    case Indices(relevant) => Some(Picks(relevant, n))
    case Refused => Some(Upto(n))
    case Crashed => None
  }

  function Upto(n: nat): seq<nat> {
    seq(n, (i: nat) => i)
  }

  lemma VerdictInRange(reply: Reply, n: nat)
    ensures BatchVerdict(reply, n).Some? ==> Distinct(BatchVerdict(reply, n).value)
    ensures BatchVerdict(reply, n).Some? ==> forall p :: p in BatchVerdict(reply, n).value ==> p < n
  {
    if reply.Indices? {
      PicksAreDistinctAndNamed(reply.relevant, n);
    }
  }

  method TriageBatchWithRetry<T>(llm: Oracle, k: nat, batch: seq<T>) returns (kept: Option<seq<T>>, calls: nat)
    ensures calls == Used(llm, k)
    ensures Selects(kept, batch, BatchVerdict(Deciding(llm, k), |batch|))
  {
    calls := 0;
    for attempt := 1 to TRIAGE_ATTEMPTS + 1
      invariant calls == attempt - 1
      invariant forall j :: k <= j < k + calls ==> llm(j).Refused?
    {
      var reply := llm(k + calls);
      calls := calls + 1;
      match reply {
        case Indices(relevant) =>
          var picked := TriageBatch(relevant, batch);
          return Some(picked), calls;
        case Crashed =>
          return None, calls;
        case Refused =>
      }
    }
    assert batch == At(batch, Upto(|batch|));
    kept := Some(batch);
  }

  // ---------------------------------------------------------------------------------------------
  // The whole of triage
  // ---------------------------------------------------------------------------------------------

  function CallsBefore(llm: Oracle, b: nat): nat {
    if b == 0 then 0 else CallsBefore(llm, b - 1) + Used(llm, CallsBefore(llm, b - 1))
  }

  function BatchLen(b: nat, n: nat): nat
    requires b < BatchCount(n)
  {
    BatchStart(b + 1, n) - BatchStart(b, n)
  }

  function Shifted(ps: seq<nat>, offset: nat): seq<nat> {
    seq(|ps|, i requires 0 <= i < |ps| => ps[i] + offset)
  }

  function VerdictOn(llm: Oracle, b: nat, n: nat): Option<seq<nat>>
    requires b < BatchCount(n)
  {
    BatchVerdict(Deciding(llm, CallsBefore(llm, b)), BatchLen(b, n))
  }

  /** The positions kept from the first m batches of n postings. */
  function KeptFrom(llm: Oracle, m: nat, n: nat): Option<seq<nat>>
    requires m <= BatchCount(n)
  {
    if m == 0 then Some([]) else
      var before := KeptFrom(llm, m - 1, n);
      if before.None? then None else
      var verdict := VerdictOn(llm, m - 1, n);
      if verdict.None? then None else Some(before.value + Shifted(verdict.value, BatchStart(m - 1, n)))
  }

  function Triaged(n: nat): nat {
    Min(MAX_TRIAGE_BATCHES, BatchCount(n))
  }

  /** The positions triage_postings returns: what the triaged batches kept, then everything over the cap. */
  function Kept(llm: Oracle, n: nat): Option<seq<nat>> {
    var kept := KeptFrom(llm, Triaged(n), n);
    var cap := BatchStart(Triaged(n), n);
    if kept.None? then None else Some(kept.value + Shifted(Upto(n - cap), cap))
  }

  lemma {:induction false} KeptFromInRange(llm: Oracle, m: nat, n: nat)
    requires m <= BatchCount(n) && KeptFrom(llm, m, n).Some?
    ensures Distinct(KeptFrom(llm, m, n).value)
    ensures forall p :: p in KeptFrom(llm, m, n).value ==> p < BatchStart(m, n)
  {
    if m > 0 {
      KeptFromInRange(llm, m - 1, n);
      VerdictInRange(Deciding(llm, CallsBefore(llm, m - 1)), BatchLen(m - 1, n));
      var before, verdict := KeptFrom(llm, m - 1, n).value, VerdictOn(llm, m - 1, n).value;
      var shifted := Shifted(verdict, BatchStart(m - 1, n));
      assert forall i :: 0 <= i < |shifted| ==> verdict[i] in verdict;
      assert forall i :: 0 <= i < |before| ==> before[i] in before;
    }
  }

  /** Conservation: whatever the LLM says, the result uses each input position at most once. */
  lemma KeptIsDistinct(llm: Oracle, n: nat)
    requires Kept(llm, n).Some?
    ensures Distinct(Kept(llm, n).value)
    ensures forall i :: 0 <= i < |Kept(llm, n).value| ==> Kept(llm, n).value[i] < n
  {
    KeptFromInRange(llm, Triaged(n), n);
    var kept := KeptFrom(llm, Triaged(n), n).value;
    assert forall i :: 0 <= i < |kept| ==> kept[i] in kept;
  }

  lemma {:induction false} KeptFromMembership(llm: Oracle, m: nat, n: nat, b: nat, p: nat)
    requires m <= BatchCount(n) && KeptFrom(llm, m, n).Some? && b < BatchCount(n)
    requires BatchStart(b, n) <= p < BatchStart(b + 1, n)
    ensures p in KeptFrom(llm, m, n).value <==>
            b < m && VerdictOn(llm, b, n).Some? && p - BatchStart(b, n) in VerdictOn(llm, b, n).value
  {
    if m > 0 {
      KeptFromMembership(llm, m - 1, n, b, p);
      VerdictInRange(Deciding(llm, CallsBefore(llm, m - 1)), BatchLen(m - 1, n));
      ShiftedHas(VerdictOn(llm, m - 1, n).value, BatchStart(m - 1, n), p);
    }
  }

  lemma ShiftedHas(ps: seq<nat>, offset: nat, p: nat)
    ensures p in Shifted(ps, offset) <==> p >= offset && p - offset in ps
  {
    if p >= offset && p - offset in ps {
      var i :| 0 <= i < |ps| && ps[i] == p - offset;
      assert Shifted(ps, offset)[i] == p;
    }
  }

  /** starts[b] is the number of the first call for batch b: a batch takes a second call if its first is refused. */
  ghost predicate CallsBegin(llm: Oracle, starts: seq<nat>) {
    && |starts| == MAX_TRIAGE_BATCHES && starts[0] == 0
    && forall b, next :: 0 < next < |starts| && b == next - 1 ==>
         starts[next] == starts[b] + if llm(starts[b]).Refused? then 2 else 1
  }

  /** Posting p comes through: it lies beyond the cap, its batch was refused on both calls, or the reply that decided
      its batch, on the first call or the second, names it by its 1-based place in the batch. */
  predicate ComesThrough(llm: Oracle, starts: seq<nat>, p: nat)
    requires |starts| == MAX_TRIAGE_BATCHES
  {
    var b, place := p / TRIAGE_BATCH_SIZE, p % TRIAGE_BATCH_SIZE + 1;
    if b >= MAX_TRIAGE_BATCHES then true else
      match llm(starts[b])
      case Indices(relevant) => place in relevant
      case Crashed => false
      case Refused =>
        match llm(starts[b] + 1)
        case Indices(relevant) => place in relevant
        case Crashed => false
        case Refused => true
  }

  lemma {:induction false} CallsBeginAt(llm: Oracle, starts: seq<nat>, b: nat)
    requires CallsBegin(llm, starts) && b < |starts|
    ensures CallsBefore(llm, b) == starts[b]
  {
    if b > 0 {
      CallsBeginAt(llm, starts, b - 1);
    }
  }

  lemma KeptByVerdict(llm: Oracle, n: nat, p: nat)
    requires p < n && Kept(llm, n).Some?
    ensures var b := p / TRIAGE_BATCH_SIZE;
            p in Kept(llm, n).value <==>
              || b >= MAX_TRIAGE_BATCHES
              || Deciding(llm, CallsBefore(llm, b)).Refused?
              || (Deciding(llm, CallsBefore(llm, b)).Indices?
                  && p % TRIAGE_BATCH_SIZE + 1 in Deciding(llm, CallsBefore(llm, b)).relevant)
  {
    BatchOfPosition(n, p);
    var m, cap := Triaged(n), BatchStart(Triaged(n), n);
    var over := Shifted(Upto(n - cap), cap);
    OverTheCap(n - cap, cap, p);
    if p < cap {
      KeptInBatch(llm, n, p);
    }
    assert p in Kept(llm, n).value <==> p in KeptFrom(llm, m, n).value || p in over;
  }

  lemma BatchOfPosition(n: nat, p: nat)
    requires p < n
    ensures var b := p / TRIAGE_BATCH_SIZE;
            && b < BatchCount(n) && BatchStart(b, n) == b * TRIAGE_BATCH_SIZE <= p < BatchStart(b + 1, n)
            && (b < Triaged(n) <==> b < MAX_TRIAGE_BATCHES) && (p < BatchStart(Triaged(n), n) <==> b < Triaged(n))
  {
  }

  lemma OverTheCap(k: nat, cap: nat, p: nat)
    ensures p in Shifted(Upto(k), cap) <==> cap <= p < cap + k
  {
    if cap <= p < cap + k {
      assert Shifted(Upto(k), cap)[p - cap] == p;
    }
  }

  lemma KeptInBatch(llm: Oracle, n: nat, p: nat)
    requires p < n && Kept(llm, n).Some? && p / TRIAGE_BATCH_SIZE < MAX_TRIAGE_BATCHES
    ensures var reply := Deciding(llm, CallsBefore(llm, p / TRIAGE_BATCH_SIZE));
            p in KeptFrom(llm, Triaged(n), n).value <==>
              reply.Refused? || (reply.Indices? && p % TRIAGE_BATCH_SIZE + 1 in reply.relevant)
  {
    var b := p / TRIAGE_BATCH_SIZE;
    BatchOfPosition(n, p);
    KeptFromMembership(llm, Triaged(n), n, b, p);
    VerdictsPresent(llm, Triaged(n), n, b);
    var reply := Deciding(llm, CallsBefore(llm, b));
    if reply.Indices? {
      PicksAreDistinctAndNamed(reply.relevant, BatchLen(b, n));
    } else if reply.Refused? {
      OverTheCap(BatchLen(b, n), 0, p - BatchStart(b, n));
      assert Shifted(Upto(BatchLen(b, n)), 0) == Upto(BatchLen(b, n));
    }
  }

  /** Which postings survive, exactly, in terms of the replies alone. */
  lemma KeptExactly(llm: Oracle, starts: seq<nat>, n: nat, p: nat)
    requires CallsBegin(llm, starts) && p < n && Kept(llm, n).Some?
    ensures p in Kept(llm, n).value <==> ComesThrough(llm, starts, p)
  {
    KeptByVerdict(llm, n, p);
    if p / TRIAGE_BATCH_SIZE < MAX_TRIAGE_BATCHES {
      CallsBeginAt(llm, starts, p / TRIAGE_BATCH_SIZE);
    }
  }

  /** Triage crashes exactly if a call of some triaged batch does. */
  lemma CrashesIff(llm: Oracle, starts: seq<nat>, n: nat)
    requires CallsBegin(llm, starts)
    ensures Kept(llm, n).None? <==>
              exists b :: 0 <= b < MAX_TRIAGE_BATCHES && b * TRIAGE_BATCH_SIZE < n
                          && (llm(starts[b]).Crashed? || (llm(starts[b]).Refused? && llm(starts[b] + 1).Crashed?))
  {
    KeptFromNoneIff(llm, Triaged(n), n);
    forall b: nat | b < MAX_TRIAGE_BATCHES
      ensures VerdictCrashes(llm, b) <==>
                llm(starts[b]).Crashed? || (llm(starts[b]).Refused? && llm(starts[b] + 1).Crashed?)
    {
      CallsBeginAt(llm, starts, b);
    }
  }

  predicate VerdictCrashes(llm: Oracle, b: nat) {
    Deciding(llm, CallsBefore(llm, b)).Crashed?
  }

  lemma {:induction false} KeptFromNoneIff(llm: Oracle, m: nat, n: nat)
    requires m <= BatchCount(n)
    ensures KeptFrom(llm, m, n).None? <==> exists b: nat :: b < m && VerdictCrashes(llm, b)
  {
    if m > 0 {
      KeptFromNoneIff(llm, m - 1, n);
      assert VerdictOn(llm, m - 1, n).None? <==> VerdictCrashes(llm, m - 1);
    }
  }

  lemma {:induction false} VerdictsPresent(llm: Oracle, m: nat, n: nat, b: nat)
    requires b < m <= BatchCount(n) && KeptFrom(llm, m, n).Some?
    ensures VerdictOn(llm, b, n).Some?
  {
    if b < m - 1 {
      VerdictsPresent(llm, m - 1, n, b);
    }
  }

  lemma {:induction false} CallsAreBounded(llm: Oracle, b: nat)
    ensures b <= CallsBefore(llm, b) <= 2 * b
  {
    if b > 0 {
      CallsAreBounded(llm, b - 1);
    }
  }

  /** A dead provider: every call refused. Everything passes, in order. */
  lemma {:induction false} DeadProviderKeepsAll(llm: Oracle, n: nat)
    requires forall k :: llm(k) == Refused
    ensures Kept(llm, n) == Some(Upto(n))
  {
    DeadProviderKeepsBatches(llm, Triaged(n), n);
    UptoJoins(BatchStart(Triaged(n), n), n - BatchStart(Triaged(n), n), n);
  }

  lemma {:induction false} DeadProviderKeepsBatches(llm: Oracle, m: nat, n: nat)
    requires m <= BatchCount(n) && forall k :: llm(k) == Refused
    ensures KeptFrom(llm, m, n) == Some(Upto(BatchStart(m, n)))
  {
    if m > 0 {
      DeadProviderKeepsBatches(llm, m - 1, n);
      var start, len := BatchStart(m - 1, n), BatchLen(m - 1, n);
      DeadVerdict(llm, m - 1, n);
      UptoJoins(start, len, BatchStart(m, n));
    }
  }

  lemma DeadVerdict(llm: Oracle, b: nat, n: nat)
    requires b < BatchCount(n) && forall k :: llm(k) == Refused
    ensures VerdictOn(llm, b, n) == Some(Upto(BatchLen(b, n)))
  {
    assert llm(CallsBefore(llm, b)) == Refused && llm(CallsBefore(llm, b) + 1) == Refused;
  }

  lemma UptoJoins(start: nat, len: nat, end: nat)
    requires end == start + len
    ensures Upto(start) + Shifted(Upto(len), start) == Upto(end)
  {
  }

  lemma AtAppend<T>(postings: seq<T>, start: nat, batch: seq<T>, before: seq<nat>, ps: seq<nat>)
    requires forall i :: 0 <= i < |before| ==> before[i] < |postings|
    requires forall i :: 0 <= i < |ps| ==> ps[i] < |batch|
    requires start + |batch| <= |postings| && batch == postings[start..start + |batch|]
    ensures forall i :: 0 <= i < |before + Shifted(ps, start)| ==> (before + Shifted(ps, start))[i] < |postings|
    ensures At(postings, before + Shifted(ps, start)) == At(postings, before) + At(batch, ps)
  {
  }

  /** What the next batch adds to what is kept. */
  lemma OneMoreBatch<T>(llm: Oracle, postings: seq<T>, b: nat, acc: seq<T>, one: seq<T>)
    requires b < BatchCount(|postings|) && Selects(Some(acc), postings, KeptFrom(llm, b, |postings|))
    requires Selects(Some(one), BatchOf(postings, b), VerdictOn(llm, b, |postings|))
    ensures Selects(Some(acc + one), postings, KeptFrom(llm, b + 1, |postings|))
  {
    var n := |postings|;
    AtAppend(postings, BatchStart(b, n), BatchOf(postings, b), KeptFrom(llm, b, n).value, VerdictOn(llm, b, n).value);
  }

  method TriageBatches<T>(llm: Oracle, postings: seq<T>, batches: seq<seq<T>>)
    returns (kept: Option<seq<T>>, calls: nat)
    requires |batches| <= BatchCount(|postings|)
    requires forall b :: 0 <= b < |batches| ==> batches[b] == BatchOf(postings, b)
    ensures Selects(kept, postings, KeptFrom(llm, |batches|, |postings|))
    ensures calls <= 2 * |batches|
  {
    var n := |postings|;
    var acc: seq<T> := [];
    calls := 0;
    for b := 0 to |batches|
      invariant Selects(Some(acc), postings, KeptFrom(llm, b, n))
      invariant calls == CallsBefore(llm, b)
    {
      var one, used := TriageBatchWithRetry(llm, calls, batches[b]);
      calls := calls + used;
      CallsAreBounded(llm, b + 1);
      if one.None? {
        KeptStaysNone(llm, b + 1, |batches|, n);
        return None, calls;
      }
      OneMoreBatch(llm, postings, b, acc, one.value);
      acc := acc + one.value;
    }
    CallsAreBounded(llm, |batches|);
    kept := Some(acc);
  }

  method TriagePostings<T>(llm: Oracle, postings: seq<T>) returns (kept: Option<seq<T>>, calls: nat)
    ensures calls <= 2 * Min(MAX_TRIAGE_BATCHES, BatchCount(|postings|))
    ensures Selects(kept, postings, Kept(llm, |postings|))
  {
    if postings == [] {
      return Some([]), 0;
    }
    var batches := Batches(postings);
    var passedThrough: seq<T> := [];
    if |batches| > MAX_TRIAGE_BATCHES {
      FlattenLastBatches(postings, MAX_TRIAGE_BATCHES);
      passedThrough := Flatten(batches[MAX_TRIAGE_BATCHES..]);
      batches := batches[..MAX_TRIAGE_BATCHES];
    }
    ghost var cap := BatchStart(|batches|, |postings|);
    assert passedThrough == postings[cap..];
    kept, calls := TriageBatches(llm, postings, batches);
    if kept.Some? {
      AtAppend(postings, cap, passedThrough, KeptFrom(llm, |batches|, |postings|).value, Upto(|passedThrough|));
      assert At(passedThrough, Upto(|passedThrough|)) == passedThrough;
      kept := Some(kept.value + passedThrough);
    }
  }

  lemma {:induction false} KeptStaysNone(llm: Oracle, b: nat, m: nat, n: nat)
    requires b <= m <= BatchCount(n) && KeptFrom(llm, b, n).None?
    ensures KeptFrom(llm, m, n).None?
    decreases m
  {
    if b < m {
      KeptStaysNone(llm, b, m - 1, n);
    }
  }

  // ---------------------------------------------------------------------------------------------
  // The order of what comes through
  // ---------------------------------------------------------------------------------------------

  /** x is named before y is. */
  ghost predicate MentionedBefore(relevant: seq<int>, x: int, y: int) {
    exists a :: 0 <= a < |relevant| && relevant[a] == x && y !in relevant[..a]
  }

  lemma MentionedBeforeMore(init: seq<int>, last: int, x: int, y: int)
    requires x in init && x != y && (y !in init || MentionedBefore(init, x, y))
    ensures MentionedBefore(init + [last], x, y)
  {
    var more := init + [last];
    if y !in init {
      var a :| 0 <= a < |init| && init[a] == x;
      assert more[a] == x && more[..a] == init[..a];
    } else {
      var a :| 0 <= a < |init| && init[a] == x && y !in init[..a];
      assert more[a] == x && more[..a] == init[..a];
    }
  }

  ghost predicate InMentionOrder(ps: seq<nat>, relevant: seq<int>) {
    forall i, j :: 0 <= i < j < |ps| ==> MentionedBefore(relevant, ps[i] + 1, ps[j] + 1)
  }

  ghost predicate AllNamed(ps: seq<nat>, relevant: seq<int>) {
    Distinct(ps) && forall i :: 0 <= i < |ps| ==> ps[i] + 1 in relevant
  }

  lemma StillInOrder(ps: seq<nat>, init: seq<int>, last: int)
    requires InMentionOrder(ps, init) && AllNamed(ps, init)
    ensures InMentionOrder(ps, init + [last])
  {
    forall i, j | 0 <= i < j < |ps| ensures MentionedBefore(init + [last], ps[i] + 1, ps[j] + 1) {
      MentionedBeforeMore(init, last, ps[i] + 1, ps[j] + 1);
    }
  }

  lemma OneMoreInOrder(ps: seq<nat>, init: seq<int>, last: int, p: nat)
    requires InMentionOrder(ps, init) && AllNamed(ps, init) && p + 1 !in init
    ensures InMentionOrder(ps + [p], init + [last])
  {
    StillInOrder(ps, init, last);
    forall i | 0 <= i < |ps| ensures MentionedBefore(init + [last], ps[i] + 1, p + 1) {
      MentionedBeforeMore(init, last, ps[i] + 1, p + 1);
    }
  }

  lemma PicksAreNamed(relevant: seq<int>, n: nat)
    ensures AllNamed(Picks(relevant, n), relevant)
  {
    PicksAreDistinctAndNamed(relevant, n);
    forall i | 0 <= i < |Picks(relevant, n)| ensures Picks(relevant, n)[i] + 1 in relevant {
      assert Picks(relevant, n)[i] in Picks(relevant, n);
    }
  }

  /** Picks come in the order in which the reply first names them. */
  lemma {:induction false} PicksInOrder(relevant: seq<int>, n: nat)
    ensures InMentionOrder(Picks(relevant, n), relevant)
  {
    if relevant != [] {
      var init, last := relevant[..|relevant| - 1], relevant[|relevant| - 1];
      var rest := Picks(init, n);
      PicksInOrder(init, n);
      PicksAreNamed(init, n);
      PicksAreDistinctAndNamed(init, n);
      assert relevant == init + [last];
      if Picks(relevant, n) == rest {
        StillInOrder(rest, init, last);
      } else {
        OneMoreInOrder(rest, init, last, last - 1);
      }
    }
  }

  /** Two places of a batch in the order its deciding reply puts them: that of first mention, or as listed. */
  ghost predicate InReplyOrder(reply: Reply, x: nat, y: nat) {
    if reply.Indices? then MentionedBefore(reply.relevant, x + 1, y + 1) else x < y
  }

  lemma VerdictInOrder(reply: Reply, n: nat, v: seq<nat>, i: nat, j: nat)
    requires BatchVerdict(reply, n) == Some(v) && i < j < |v|
    ensures InReplyOrder(reply, v[i], v[j])
  {
    if reply.Indices? {
      PicksInOrder(reply.relevant, n);
    }
  }

  lemma PlaceInBatch(x: nat, b: nat)
    requires x < TRIAGE_BATCH_SIZE
    ensures (x + b * TRIAGE_BATCH_SIZE) % TRIAGE_BATCH_SIZE == x
    ensures (x + b * TRIAGE_BATCH_SIZE) / TRIAGE_BATCH_SIZE == b
  {
  }

  ghost predicate Follows(llm: Oracle, p: nat, q: nat) {
    var b, c := p / TRIAGE_BATCH_SIZE, q / TRIAGE_BATCH_SIZE;
    || b < c
    || (b == c && InReplyOrder(Deciding(llm, CallsBefore(llm, b)), p % TRIAGE_BATCH_SIZE, q % TRIAGE_BATCH_SIZE))
  }

  ghost predicate InOrder(llm: Oracle, ps: seq<nat>) {
    forall i, j :: 0 <= i < j < |ps| ==> Follows(llm, ps[i], ps[j])
  }

  lemma EarlierBatchFirst(llm: Oracle, a: seq<nat>, b: seq<nat>, k: nat)
    requires InOrder(llm, a) && InOrder(llm, b)
    requires forall i :: 0 <= i < |a| ==> a[i] < k * TRIAGE_BATCH_SIZE
    requires forall i :: 0 <= i < |b| ==> k * TRIAGE_BATCH_SIZE <= b[i]
    ensures InOrder(llm, a + b)
  {
    forall i, j | 0 <= i < |a| && 0 <= j < |b| ensures Follows(llm, a[i], b[j]) {
      assert a[i] / TRIAGE_BATCH_SIZE < k <= b[j] / TRIAGE_BATCH_SIZE;
    }
  }

  lemma {:induction false} KeptFromInOrder(llm: Oracle, m: nat, n: nat)
    requires m <= BatchCount(n) && KeptFrom(llm, m, n).Some?
    ensures InOrder(llm, KeptFrom(llm, m, n).value)
  {
    if m > 0 {
      KeptFromInOrder(llm, m - 1, n);
      KeptFromInRange(llm, m - 1, n);
      var before, verdict := KeptFrom(llm, m - 1, n).value, VerdictOn(llm, m - 1, n).value;
      var last := Shifted(verdict, BatchStart(m - 1, n));
      forall i, j | 0 <= i < j < |last| ensures Follows(llm, last[i], last[j]) {
        LastBatchInOrder(llm, m - 1, n, i, j);
      }
      assert forall i :: 0 <= i < |before| ==> before[i] in before;
      EarlierBatchFirst(llm, before, last, m - 1);
    }
  }

  lemma LastBatchInOrder(llm: Oracle, b: nat, n: nat, i: nat, j: nat)
    requires b < BatchCount(n) && VerdictOn(llm, b, n).Some? && i < j < |VerdictOn(llm, b, n).value|
    ensures var v := VerdictOn(llm, b, n).value;
            Follows(llm, v[i] + BatchStart(b, n), v[j] + BatchStart(b, n))
  {
    var v := VerdictOn(llm, b, n).value;
    VerdictInRange(Deciding(llm, CallsBefore(llm, b)), BatchLen(b, n));
    VerdictInOrder(Deciding(llm, CallsBefore(llm, b)), BatchLen(b, n), v, i, j);
    assert v[i] in v && v[j] in v;
    PlaceInBatch(v[i], b);
    PlaceInBatch(v[j], b);
  }

  /** What comes through keeps the order of the batches; within a batch it comes in the order of first mention, and as
      listed when the batch was refused twice or lies beyond the cap. */
  lemma KeptInOrder(llm: Oracle, starts: seq<nat>, n: nat, i: nat, j: nat)
    requires CallsBegin(llm, starts) && Kept(llm, n).Some? && i < j < |Kept(llm, n).value|
    ensures var p, q := Kept(llm, n).value[i], Kept(llm, n).value[j];
            var b, c := p / TRIAGE_BATCH_SIZE, q / TRIAGE_BATCH_SIZE;
            b < c || (b == c && if b >= MAX_TRIAGE_BATCHES then p < q else
              InReplyOrder(if llm(starts[b]).Refused? then llm(starts[b] + 1) else llm(starts[b]),
                           p % TRIAGE_BATCH_SIZE, q % TRIAGE_BATCH_SIZE))
  {
    var m := Triaged(n);
    KeptFromInOrder(llm, m, n);
    KeptFromInRange(llm, m, n);
    var kept, cap := KeptFrom(llm, m, n).value, BatchStart(m, n);
    var p, q := Kept(llm, n).value[i], Kept(llm, n).value[j];
    if i < |kept| {
      assert kept[i] in kept;
      if p / TRIAGE_BATCH_SIZE < MAX_TRIAGE_BATCHES {
        CallsBeginAt(llm, starts, p / TRIAGE_BATCH_SIZE);
      }
    }
  }
}
