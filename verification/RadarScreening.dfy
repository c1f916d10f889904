/** The cheap first screen: score pending postings one LLM call at a time, capped for each poll, giving the
    batch up after a run of consecutive failures. The LLM is an arbitrary sequence of replies. */
module RadarScreening {
  import opened Options

  const MAX_CONSECUTIVE_FAILURES: nat := 2

  /** PostingScreenResult.fit_score is validated to lie in 0..100. */
  type FitScore = n: int | 0 <= n <= 100

  /** One call answers with a score, raises LLMError or ValueError (caught), or raises anything else
      (which ends the loop and reaches the poll's own handler). */
  datatype Reply = Scored(fitScore: FitScore, reason: string) | Refused | Crashed

  type Oracle = nat -> Reply

  datatype PostingState = New | Screened | Promoted | Dismissed

  /** The columns of a posting row that screening reads and writes. */
  class PostingRow {
    var state: PostingState
    var screenScore: Option<int>
    var screenReason: Option<string>

    constructor ()
      ensures state == New && screenScore == None && screenReason == None
    {
      state, screenScore, screenReason := New, None, None;
    }
  }

  /** xs[:cap] as Python slices: a negative bound counts from the end. */
  function Prefix<T>(xs: seq<T>, cap: int): seq<T> {
    if cap >= |xs| then xs
    else if cap >= 0 then xs[..cap]
    else if |xs| + cap >= 0 then xs[..|xs| + cap]
    else []
  }

  // ---------------------------------------------------------------------------------------------
  // How far a batch gets
  // ---------------------------------------------------------------------------------------------

  /** The failures in a row that end just before call i. */
  function Streak(llm: Oracle, i: nat): nat {
    if i == 0 || !llm(i - 1).Refused? then 0 else Streak(llm, i - 1) + 1
  }

  predicate StopsAfter(llm: Oracle, k: nat, i: nat) {
    llm(i).Crashed? || (llm(i).Refused? && Streak(llm, i + 1) >= k)
  }

  /** The number of postings of a batch of m that are attempted when calls i, i + 1, ... are still to be made. */
  function AttemptedFrom(llm: Oracle, k: nat, m: nat, i: nat): (a: nat)
    requires i <= m
    ensures i <= a <= m
    ensures forall j :: i <= j < a - 1 ==> !StopsAfter(llm, k, j)
    ensures a < m ==> i < a && StopsAfter(llm, k, a - 1)
    decreases m - i
  {
    if i == m then m else if StopsAfter(llm, k, i) then i + 1 else AttemptedFrom(llm, k, m, i + 1)
  }

  function Attempted(llm: Oracle, k: nat, m: nat): nat {
    AttemptedFrom(llm, k, m, 0)
  }

  function ScoredCount(llm: Oracle, i: nat): nat {
    if i == 0 then 0 else ScoredCount(llm, i - 1) + if llm(i - 1).Scored? then 1 else 0
  }

  function RefusedCount(llm: Oracle, i: nat): nat {
    if i == 0 then 0 else RefusedCount(llm, i - 1) + if llm(i - 1).Refused? then 1 else 0
  }

  /** No call of the batch crashed and no run of failures reached the limit. */
  predicate Completed(llm: Oracle, k: nat, m: nat) {
    var a := Attempted(llm, k, m);
    a == m && (m > 0 ==> !StopsAfter(llm, k, m - 1))
  }

  // ---------------------------------------------------------------------------------------------
  // Bounds for every LLM behaviour
  // ---------------------------------------------------------------------------------------------

  /** While no failure run has reached k, failures are paid for by scores. */
  lemma {:induction false} FailuresBeforeStop(llm: Oracle, k: nat, i: nat)
    requires k >= 1 && forall j :: 0 <= j < i ==> !StopsAfter(llm, k, j)
    ensures RefusedCount(llm, i) <= (k - 1) * ScoredCount(llm, i) + Streak(llm, i)
    ensures Streak(llm, i) <= k - 1
    ensures ScoredCount(llm, i) + RefusedCount(llm, i) == i
  {
    if i > 0 {
      FailuresBeforeStop(llm, k, i - 1);
      assert !StopsAfter(llm, k, i - 1);
      Distribute(k - 1, ScoredCount(llm, i - 1));
    }
  }

  /** failures <= (K - 1) * (scored + 1) + 1, and the 1 is only paid by a batch that is given up. */
  lemma FailureBound(llm: Oracle, k: nat, m: nat)
    requires k >= 1
    ensures var a := Attempted(llm, k, m);
            && RefusedCount(llm, a) <= (k - 1) * (ScoredCount(llm, a) + 1) + 1
            && (Completed(llm, k, m) ==> RefusedCount(llm, a) <= (k - 1) * (ScoredCount(llm, a) + 1))
  {
    var a := Attempted(llm, k, m);
    if a > 0 {
      FailuresBeforeStop(llm, k, a - 1);
      Distribute(k - 1, ScoredCount(llm, a - 1));
      Distribute(k - 1, ScoredCount(llm, a - 1) + 1);
    }
    if Completed(llm, k, m) {
      FailuresBeforeStop(llm, k, m);
      Distribute(k - 1, ScoredCount(llm, m));
    }
  }

  lemma Distribute(x: nat, y: nat)
    ensures x * (y + 1) == x * y + x
  {
  }

  /** With the limit the program uses, a batch that is not given up scores at least half its postings. */
  lemma CompletedBatchScoresHalf(llm: Oracle, m: nat)
    requires Completed(llm, MAX_CONSECUTIVE_FAILURES, m)
    ensures ScoredCount(llm, m) >= m / 2
  {
    FailureBound(llm, MAX_CONSECUTIVE_FAILURES, m);
    FailuresBeforeStop(llm, MAX_CONSECUTIVE_FAILURES, m);
  }

  /** A provider that always answers scores the whole batch. */
  lemma {:induction false} AnsweringProviderScoresAll(llm: Oracle, k: nat, m: nat)
    requires forall j :: 0 <= j < m ==> llm(j).Scored?
    ensures Attempted(llm, k, m) == m && ScoredCount(llm, m) == m
  {
    AllScored(llm, m);
  }

  lemma {:induction false} AllScored(llm: Oracle, m: nat)
    requires forall j :: 0 <= j < m ==> llm(j).Scored?
    ensures ScoredCount(llm, m) == m
  {
    if m > 0 {
      AllScored(llm, m - 1);
    }
  }

  /** A dead provider is given up after exactly K calls. */
  lemma {:induction false} DeadProviderStopsEarly(llm: Oracle, k: nat, m: nat)
    requires k >= 1 && forall j :: llm(j) == Refused
    ensures Attempted(llm, k, m) == if k < m then k else m
    ensures ScoredCount(llm, Attempted(llm, k, m)) == 0
  {
    forall i: nat ensures Streak(llm, i) == i && ScoredCount(llm, i) == 0 { DeadStreak(llm, i); }
    var a := Attempted(llm, k, m);
    if a < m {
      assert StopsAfter(llm, k, a - 1);
      assert a - 2 >= 0 ==> !StopsAfter(llm, k, a - 2);
    } else if m > 1 {
      assert !StopsAfter(llm, k, m - 2);
    }
  }

  lemma {:induction false} DeadStreak(llm: Oracle, i: nat)
    requires forall j :: llm(j) == Refused
    ensures Streak(llm, i) == i && ScoredCount(llm, i) == 0
  {
    if i > 0 {
      DeadStreak(llm, i - 1);
    }
  }

  // ---------------------------------------------------------------------------------------------
  // The loop
  // ---------------------------------------------------------------------------------------------

  predicate WasScored(llm: Oracle, k: nat, m: nat, i: nat) {
    i < Attempted(llm, k, m) && llm(i).Scored?
  }

  /** A batch that gets as far as position i has scored one of any two neighbours before it. */
  lemma NeighboursBeforeScore(llm: Oracle, m: nat, k: nat, i: nat)
    requires k + 1 < i && WasScored(llm, MAX_CONSECUTIVE_FAILURES, m, i)
    ensures llm(k).Scored? || llm(k + 1).Scored?
  {
    assert !StopsAfter(llm, MAX_CONSECUTIVE_FAILURES, k) && !StopsAfter(llm, MAX_CONSECUTIVE_FAILURES, k + 1);
    TwoRefusalsStop(llm, k);
  }

  lemma TwoRefusalsStop(llm: Oracle, k: nat)
    ensures llm(k).Refused? && llm(k + 1).Refused? ==> StopsAfter(llm, MAX_CONSECUTIVE_FAILURES, k + 1)
  {
    assert llm(k).Refused? ==> Streak(llm, k + 1) >= 1;
  }

  lemma RefusalStopsAfterTwo(llm: Oracle, k: nat)
    requires StopsAfter(llm, MAX_CONSECUTIVE_FAILURES, k) && !llm(k).Crashed?
    ensures llm(k).Refused? && k >= 1 && llm(k - 1).Refused?
  {
    assert Streak(llm, k + 1) == Streak(llm, k) + 1;
  }

  /** Without a crash, scoring one of any two neighbours is enough to get there. */
  lemma NeighboursReach(llm: Oracle, m: nat, i: nat)
    requires i < m && llm(i).Scored? && forall j :: 0 <= j < i ==> !llm(j).Crashed?
    requires forall j: nat, k :: k == j + 1 < i ==> llm(j).Scored? || llm(k).Scored?
    ensures WasScored(llm, MAX_CONSECUTIVE_FAILURES, m, i)
  {
    var a := Attempted(llm, MAX_CONSECUTIVE_FAILURES, m);
    if a <= i {
      RefusalStopsAfterTwo(llm, a - 1);
    }
  }

  predicate CrashEnds(llm: Oracle, a: nat) {
    a > 0 && llm(a - 1).Crashed?
  }

  /** Call i of a batch of m is made: no call before it crashed, and no two in a row before it were refused. */
  ghost predicate Called(llm: Oracle, m: nat, i: nat) {
    && i < m
    && (forall j :: 0 <= j < i ==> !llm(j).Crashed?)
    && (forall j, next :: 0 <= j && next == j + 1 < i ==> !(llm(j).Refused? && llm(next).Refused?))
  }

  lemma CalledIff(llm: Oracle, m: nat, i: nat)
    ensures Called(llm, m, i) <==> i < Attempted(llm, MAX_CONSECUTIVE_FAILURES, m)
  {
    var a := Attempted(llm, MAX_CONSECUTIVE_FAILURES, m);
    if i < a {
      forall j | 0 <= j < i ensures !llm(j).Crashed? {
        assert !StopsAfter(llm, MAX_CONSECUTIVE_FAILURES, j);
      }
      forall j, next | 0 <= j && next == j + 1 < i ensures !(llm(j).Refused? && llm(next).Refused?) {
        TwoRefusalsStop(llm, j);
        assert !StopsAfter(llm, MAX_CONSECUTIVE_FAILURES, next);
      }
    } else if Called(llm, m, i) {
      RefusalStopsAfterTwo(llm, a - 1);
    }
  }

  /** The rows of a batch that get a score, exactly: their call is made and answers. */
  lemma ScoredIff(llm: Oracle, m: nat, i: nat)
    ensures WasScored(llm, MAX_CONSECUTIVE_FAILURES, m, i) <==> Called(llm, m, i) && llm(i).Scored?
  {
    CalledIff(llm, m, i);
  }

  /** The batch ends in a crash exactly if a call that is made crashes. */
  lemma CrashIff(llm: Oracle, m: nat)
    ensures CrashEnds(llm, Attempted(llm, MAX_CONSECUTIVE_FAILURES, m)) <==>
              exists i :: Called(llm, m, i) && llm(i).Crashed?
  {
    var a := Attempted(llm, MAX_CONSECUTIVE_FAILURES, m);
    if a > 0 {
      CalledIff(llm, m, a - 1);
    }
    forall i: nat | Called(llm, m, i) && llm(i).Crashed? ensures i == a - 1 {
      CalledIff(llm, m, i);
      assert StopsAfter(llm, MAX_CONSECUTIVE_FAILURES, i);
    }
  }

  predicate HasReply(row: PostingRow, reply: Reply)
    requires reply.Scored?
    reads row
  {
    row.state == Screened && row.screenScore == Some(reply.fitScore) && row.screenReason == Some(reply.reason)
  }

  /** The loop gets to call i. */
  predicate Reaches(llm: Oracle, a: nat, i: nat) {
    i <= a && (i > 0 ==> !StopsAfter(llm, MAX_CONSECUTIVE_FAILURES, i - 1))
  }

  lemma NextAttempt(llm: Oracle, m: nat, i: nat)
    requires i < m && Reaches(llm, Attempted(llm, MAX_CONSECUTIVE_FAILURES, m), i)
    ensures i < Attempted(llm, MAX_CONSECUTIVE_FAILURES, m)
    ensures StopsAfter(llm, MAX_CONSECUTIVE_FAILURES, i) ==> Attempted(llm, MAX_CONSECUTIVE_FAILURES, m) == i + 1
    ensures Streak(llm, i + 1) == if llm(i).Refused? then Streak(llm, i) + 1 else 0
    ensures ScoredCount(llm, i + 1) == ScoredCount(llm, i) + if llm(i).Scored? then 1 else 0
  {
  }

  method WriteReply(row: PostingRow, fitScore: FitScore, reason: string)
    modifies row
    ensures HasReply(row, Scored(fitScore, reason))
  {
    row.screenScore := Some(fitScore);
    row.screenReason := Some(reason);
    row.state := Screened;
  }

  /** Screens up to cap of the rows in place. Rows are distinct: they come from one query over the table. */
  method ScreenPostings(llm: Oracle, postings: seq<PostingRow>, cap: int) returns (scored: nat, crashed: bool)
    requires forall i, j :: 0 <= i < j < |postings| ==> postings[i] != postings[j]
    modifies postings
    ensures scored == ScoredCount(llm, Attempted(llm, MAX_CONSECUTIVE_FAILURES, |Prefix(postings, cap)|))
    ensures crashed <==> CrashEnds(llm, Attempted(llm, MAX_CONSECUTIVE_FAILURES, |Prefix(postings, cap)|))
    ensures forall i :: 0 <= i < |postings| && WasScored(llm, MAX_CONSECUTIVE_FAILURES, |Prefix(postings, cap)|, i) ==>
              HasReply(postings[i], llm(i))
    ensures forall i :: 0 <= i < |postings| && !WasScored(llm, MAX_CONSECUTIVE_FAILURES, |Prefix(postings, cap)|, i) ==>
              unchanged(postings[i])
  {
    var batch := Prefix(postings, cap);
    scored, crashed := 0, false;
    var consecutiveFailures := 0;
    ghost var m := |batch|;
    ghost var a := Attempted(llm, MAX_CONSECUTIVE_FAILURES, m);
    var i := 0;
    while i < |batch|
      invariant Reaches(llm, a, i) && a <= m && !crashed
      invariant scored == ScoredCount(llm, i)
      invariant consecutiveFailures == Streak(llm, i)
      invariant forall j :: 0 <= j < i && llm(j).Scored? ==> HasReply(postings[j], llm(j))
      invariant forall j :: 0 <= j < i && !llm(j).Scored? ==> unchanged(postings[j])
      invariant forall j :: i <= j < |postings| ==> unchanged(postings[j])
    {
      var reply := llm(i);
      NextAttempt(llm, m, i);
      i := i + 1;
      match reply {
        case Crashed =>
          crashed := true;
          break;
        case Refused =>
          consecutiveFailures := consecutiveFailures + 1;
          if consecutiveFailures >= MAX_CONSECUTIVE_FAILURES {
            break;
          }
        case Scored(fitScore, reason) =>
          consecutiveFailures := 0;
          var posting := batch[i - 1];
          assert posting == postings[i - 1];
          WriteReply(posting, fitScore, reason);
          scored := scored + 1;
      }
    }
  }
}
