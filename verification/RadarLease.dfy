/** The lease a poll takes on a watched company: claim, run, finalise, and everything that can interrupt it.
    Rows are claimed under a row lock, the claim is a timestamp on the row, and a claim older than
    STALE_CLAIM_MINUTES may be taken over. A process-local semaphore bounds how many polls run at once. */
module RadarLease {
  import opened Options

  type CompanyId = nat
  type TaskId = nat
  type Time = int

  /** settings.radar_stale_claim_minutes; one clock unit is a minute. */
  const STALE_CLAIM_MINUTES: int := 15

  /** How far one run of poll_company has got.
      Entered: holds a permit and a session. Clocked: has read the clock its claim will carry.
      Locked: holds the row lock and has judged the old claim free. Polling: has committed its claim. */
  datatype Phase = Entered | Clocked(now: Time) | Locked(now: Time) | Polling(start: Time)

  datatype Task = Task(company: CompanyId, phase: Phase)

  /** claims holds the polling_started_at column of every watched company; tasks are the runs inside the semaphore;
      held has an entry for each lock that some other transaction has on a company's row: an uncommitted posting
      that refers to it, or an uncommitted target change. Company ids are never used twice, so a removed company
      does not come back. */
  datatype Lease = Lease(
    clock: Time,
    cap: nat,
    permits: nat,
    nextCompany: CompanyId,
    claims: map<CompanyId, Option<Time>>,
    tasks: map<TaskId, Task>,
    held: multiset<CompanyId>)

  // ---------------------------------------------------------------------------------------------
  // Single steps
  // ---------------------------------------------------------------------------------------------

  ghost predicate RowLocked(s: Lease, c: CompanyId) {
    exists t :: t in s.tasks && s.tasks[t].company == c && s.tasks[t].phase.Locked?
  }

  /** The staleness test of claim_company: a claim is refused while it is younger than the limit. */
  predicate ClaimIsFree(claim: Option<Time>, now: Time) {
    claim.None? || claim.value <= now - STALE_CLAIM_MINUTES
  }

  /** A run leaves the semaphore: its permit returns, its claim (if any) stays on the row. */
  function Leave(s: Lease, t: TaskId): Lease
    requires t in s.tasks
  {
    s.(tasks := s.tasks - {t}, permits := s.permits + 1)
  }

  function WithPhase(s: Lease, t: TaskId, phase: Phase): Lease
    requires t in s.tasks
  {
    s.(tasks := s.tasks[t := s.tasks[t].(phase := phase)])
  }

  /** select ... for update skip locked, followed by the staleness test. */
  ghost function TryLock(s: Lease, t: TaskId): Lease
    requires t in s.tasks && s.tasks[t].phase.Clocked?
  {
    var c, now := s.tasks[t].company, s.tasks[t].phase.now;
    if c in s.claims && !RowLocked(s, c) && c !in s.held && ClaimIsFree(s.claims[c], now)
    then WithPhase(s, t, Locked(now))
    else Leave(s, t)
  }

  function CommitClaim(s: Lease, t: TaskId): Lease
    requires t in s.tasks && s.tasks[t].phase.Locked?
  {
    var c, now := s.tasks[t].company, s.tasks[t].phase.now;
    WithPhase(s.(claims := s.claims[c := Some(now)]), t, Polling(now))
  }

  /** Finalise clears polling_started_at without asking whose claim it is. It may have to wait for a lock in held;
      that it never does here only adds runs. */
  function Finalise(s: Lease, t: TaskId): Lease
    requires t in s.tasks && s.tasks[t].phase.Polling?
  {
    var c := s.tasks[t].company;
    Leave(if c in s.claims then s.(claims := s.claims[c := None]) else s, t)
  }

  /** The process stops: every run and every open transaction is gone, the semaphore is rebuilt, the rows keep
      their claims. */
  function Crash(s: Lease): Lease {
    s.(tasks := map[], permits := s.cap, held := multiset{})
  }

  datatype Step =
    | Enter(t: TaskId, c: CompanyId)
    | ReadClock(t: TaskId)
    | Lock(t: TaskId)
    | Commit(t: TaskId)
    | Finish(t: TaskId)
    | Cancel(t: TaskId)
    | CrashAll
    | Tick(now: Time)
    | Watch
    | Unwatch(c: CompanyId)
    | Hold(c: CompanyId)
    | Release(c: CompanyId)

  ghost predicate Enabled(s: Lease, step: Step) {
    match step
    case Enter(t, c) => t !in s.tasks && s.permits > 0 && c < s.nextCompany
    case ReadClock(t) => t in s.tasks && s.tasks[t].phase.Entered?
    case Lock(t) => t in s.tasks && s.tasks[t].phase.Clocked?
    case Commit(t) => t in s.tasks && s.tasks[t].phase.Locked?
    case Finish(t) => t in s.tasks && s.tasks[t].phase.Polling? && !RowLocked(s, s.tasks[t].company)
    case Cancel(t) => t in s.tasks
    case CrashAll => true
    case Tick(now) => s.clock <= now
    case Watch => true
    case Unwatch(c) => c in s.claims && !RowLocked(s, c)
    case Hold(c) => c in s.claims && !RowLocked(s, c)
    case Release(c) => c in s.held
  }

  ghost function Apply(s: Lease, step: Step): Lease
    requires Enabled(s, step)
  {
    match step
    case Enter(t, c) => s.(tasks := s.tasks[t := Task(c, Entered)], permits := s.permits - 1)
    case ReadClock(t) => WithPhase(s, t, Clocked(s.clock))
    case Lock(t) => TryLock(s, t)
    case Commit(t) => CommitClaim(s, t)
    case Finish(t) => Finalise(s, t)
    case Cancel(t) => Leave(s, t)
    case CrashAll => Crash(s)
    case Tick(now) => s.(clock := now)
    case Watch => s.(claims := s.claims[s.nextCompany := None], nextCompany := s.nextCompany + 1)
    case Unwatch(c) => s.(claims := s.claims - {c})
    case Hold(c) => s.(held := s.held + multiset{c})
    case Release(c) => s.(held := s.held - multiset{c})
  }

  // ---------------------------------------------------------------------------------------------
  // What every step keeps, with no assumption on how long a poll takes
  // ---------------------------------------------------------------------------------------------

  function PhaseTime(p: Phase): Option<Time> {
    match p
    case Entered => None
    case Clocked(now) => Some(now)
    case Locked(now) => Some(now)
    case Polling(start) => Some(start)
  }

  /** Live polls and free permits add up to the semaphore's size. */
  ghost predicate PermitsConserved(s: Lease) {
    |s.tasks| + s.permits == s.cap
  }

  /** No timestamp lies in the future and no company id is used before it is handed out. */
  ghost predicate NothingAhead(s: Lease) {
    && (forall c :: c in s.claims ==> c < s.nextCompany && (s.claims[c].Some? ==> s.claims[c].value <= s.clock))
    && (forall t :: t in s.tasks ==> s.tasks[t].company < s.nextCompany)
    && (forall t :: t in s.tasks && !s.tasks[t].phase.Entered? ==> PhaseTime(s.tasks[t].phase).value <= s.clock)
  }

  predicate InLock(s: Lease, t: TaskId) {
    t in s.tasks && s.tasks[t].phase.Locked?
  }

  /** At most one run is inside a row lock, and what it judged is still on the row. */
  ghost predicate LockSound(s: Lease) {
    && (forall t :: InLock(s, t) ==>
          s.tasks[t].company in s.claims && ClaimIsFree(s.claims[s.tasks[t].company], s.tasks[t].phase.now))
    && (forall t, u :: InLock(s, t) && InLock(s, u) && s.tasks[t].company == s.tasks[u].company ==> t == u)
  }

  ghost predicate Sound(s: Lease) {
    PermitsConserved(s) && NothingAhead(s) && LockSound(s)
  }

  lemma {:induction false} StepKeepsPermits(s: Lease, step: Step)
    requires PermitsConserved(s) && Enabled(s, step)
    ensures PermitsConserved(Apply(s, step))
  {
    match step
    case Enter(t, c) => TaskCounts(s.tasks, t, Task(c, Entered));
    case ReadClock(t) => TaskCounts(s.tasks, t, s.tasks[t].(phase := Clocked(s.clock)));
    case Commit(t) => TaskCounts(s.tasks, t, s.tasks[t].(phase := Polling(s.tasks[t].phase.now)));
    case Lock(t) => TaskCounts(s.tasks, t, s.tasks[t].(phase := Locked(s.tasks[t].phase.now)));
    case Finish(t) => TaskCounts(s.tasks, t, s.tasks[t]);
    case Cancel(t) => TaskCounts(s.tasks, t, s.tasks[t]);
    case _ =>
  }

  lemma TaskCounts(tasks: map<TaskId, Task>, t: TaskId, task: Task)
    ensures |tasks[t := task]| == if t in tasks then |tasks| else |tasks| + 1
    ensures |tasks - {t}| == if t in tasks then |tasks| - 1 else |tasks|
  {
    assert tasks[t := task].Keys == tasks.Keys + {t} && (tasks - {t}).Keys == tasks.Keys - {t};
    assert |tasks| == |tasks.Keys| && |tasks[t := task]| == |tasks[t := task].Keys|
           && |tasks - {t}| == |(tasks - {t}).Keys|;
  }

  lemma {:induction false} StepKeepsNothingAhead(s: Lease, step: Step)
    requires NothingAhead(s) && Enabled(s, step)
    ensures NothingAhead(Apply(s, step))
  {
  }

  lemma {:induction false} StepKeepsLockSound(s: Lease, step: Step)
    requires NothingAhead(s) && LockSound(s) && Enabled(s, step)
    ensures LockSound(Apply(s, step))
  {
    if step.Lock? {
      LockKeepsLockSound(s, step.t);
    } else {
      var s' := Apply(s, step);
      assert forall u :: InLock(s', u) ==> InLock(s, u) && s'.tasks[u] == s.tasks[u];
    }
  }

  lemma LockKeepsLockSound(s: Lease, t: TaskId)
    requires LockSound(s) && Enabled(s, Lock(t))
    ensures LockSound(TryLock(s, t))
  {
    var s' := TryLock(s, t);
    assert forall u :: InLock(s', u) && u != t ==> InLock(s, u) && s'.tasks[u] == s.tasks[u];
  }

  // ---------------------------------------------------------------------------------------------
  // Mutual exclusion
  // ---------------------------------------------------------------------------------------------

  predicate IsPolling(s: Lease, t: TaskId) {
    t in s.tasks && s.tasks[t].phase.Polling?
  }

  /** The bound a poll has to meet: it is over before its claim is old enough to be taken over. */
  ghost predicate Prompt(s: Lease) {
    forall t :: IsPolling(s, t) ==> s.clock < s.tasks[t].phase.start + STALE_CLAIM_MINUTES
  }

  /** At most one live poll a company, none beside a run that is about to commit a claim, and the row
      carries exactly the start time of the poll that holds it. */
  ghost predicate Exclusive(s: Lease) {
    && (forall t, u :: IsPolling(s, t) && IsPolling(s, u) && s.tasks[t].company == s.tasks[u].company ==> t == u)
    && (forall t, u :: IsPolling(s, t) && InLock(s, u) ==> s.tasks[t].company != s.tasks[u].company)
    && (forall t :: IsPolling(s, t) && s.tasks[t].company in s.claims ==>
          s.claims[s.tasks[t].company] == Some(s.tasks[t].phase.start))
  }

  /** A run that gets the lock finds no live poll: a prompt poll's claim would have been refused. */
  lemma LockKeepsExclusive(s: Lease, t: TaskId)
    requires NothingAhead(s) && LockSound(s) && Exclusive(s) && Prompt(s) && Enabled(s, Lock(t))
    ensures Exclusive(TryLock(s, t))
  {
    var s' := TryLock(s, t);
    forall u | IsPolling(s', u) ensures IsPolling(s, u) && s.tasks[u] == s'.tasks[u] {}
    forall u | InLock(s', u) && u != t ensures InLock(s, u) && s.tasks[u] == s'.tasks[u] {}
    forall u | IsPolling(s, u) && s.tasks[u].company == s.tasks[t].company
      ensures !InLock(s', t)
    {}
  }

  lemma CommitKeepsExclusive(s: Lease, t: TaskId)
    requires LockSound(s) && Exclusive(s) && Enabled(s, Commit(t))
    ensures Exclusive(CommitClaim(s, t))
  {
    var s' := CommitClaim(s, t);
    assert InLock(s, t);
    forall u | IsPolling(s', u) && u != t
      ensures IsPolling(s, u) && s.tasks[u] == s'.tasks[u] && s.tasks[u].company != s.tasks[t].company
    {}
    forall u | InLock(s', u)
      ensures InLock(s, u) && s.tasks[u] == s'.tasks[u] && s.tasks[u].company != s.tasks[t].company
    {}
  }

  lemma FinishKeepsExclusive(s: Lease, t: TaskId)
    requires Exclusive(s) && Enabled(s, Finish(t))
    ensures Exclusive(Finalise(s, t))
  {
    var s' := Finalise(s, t);
    assert IsPolling(s, t);
    forall u | IsPolling(s', u)
      ensures IsPolling(s, u) && s.tasks[u] == s'.tasks[u] && s.tasks[u].company != s.tasks[t].company
    {}
    forall u | InLock(s', u) ensures InLock(s, u) && s.tasks[u] == s'.tasks[u] {}
  }

  /** A step that makes nobody poll or lock and leaves the claims of watched companies alone. */
  lemma FewerKeepExclusive(s: Lease, s': Lease)
    requires Exclusive(s)
    requires forall u :: IsPolling(s', u) ==> IsPolling(s, u) && s'.tasks[u] == s.tasks[u]
    requires forall u :: InLock(s', u) ==> InLock(s, u) && s'.tasks[u] == s.tasks[u]
    requires forall c :: c in s'.claims && c < s.nextCompany ==> c in s.claims && s'.claims[c] == s.claims[c]
    requires forall u :: IsPolling(s, u) ==> s.tasks[u].company < s.nextCompany
    ensures Exclusive(s')
  {
  }

  lemma {:induction false} OtherTasks(s: Lease, step: Step)
    requires Enabled(s, step) && !step.Lock? && !step.Commit? && !step.Finish?
    ensures var s' := Apply(s, step);
            forall u :: (IsPolling(s', u) ==> IsPolling(s, u) && s'.tasks[u] == s.tasks[u])
                        && (InLock(s', u) ==> InLock(s, u) && s'.tasks[u] == s.tasks[u])
  {
  }

  lemma {:induction false} OtherClaims(s: Lease, step: Step)
    requires NothingAhead(s) && Enabled(s, step) && !step.Lock? && !step.Commit? && !step.Finish?
    ensures var s' := Apply(s, step);
            forall c :: c in s'.claims && c < s.nextCompany ==> c in s.claims && s'.claims[c] == s.claims[c]
  {
  }

  lemma {:induction false} StepKeepsExclusive(s: Lease, step: Step)
    requires NothingAhead(s) && LockSound(s) && Exclusive(s) && Prompt(s) && Enabled(s, step)
    ensures Exclusive(Apply(s, step))
  {
    match step
    case Lock(t) => LockKeepsExclusive(s, t);
    case Commit(t) => CommitKeepsExclusive(s, t);
    case Finish(t) => FinishKeepsExclusive(s, t);
    case _ =>
      OtherTasks(s, step);
      OtherClaims(s, step);
      FewerKeepExclusive(s, Apply(s, step));
  }

  // ---------------------------------------------------------------------------------------------
  // Whole runs
  // ---------------------------------------------------------------------------------------------

  predicate Initial(s: Lease) {
    s.permits == s.cap && s.claims == map[] && s.tasks == map[] && s.held == multiset{}
  }

  /** states[i + 1] is what steps[i] makes of states[i]. */
  ghost predicate IsRun(states: seq<Lease>, steps: seq<Step>) {
    && |states| == |steps| + 1
    && Initial(states[0])
    && forall i :: 0 <= i < |steps| ==> Enabled(states[i], steps[i]) && states[i + 1] == Apply(states[i], steps[i])
  }

  lemma {:induction false} RunIsSound(states: seq<Lease>, steps: seq<Step>, i: nat)
    requires IsRun(states, steps) && i < |states|
    ensures Sound(states[i])
  {
    if i > 0 {
      RunIsSound(states, steps, i - 1);
      StepKeepsPermits(states[i - 1], steps[i - 1]);
      StepKeepsNothingAhead(states[i - 1], steps[i - 1]);
      StepKeepsLockSound(states[i - 1], steps[i - 1]);
    }
  }

  /** Lease safety: however claims, finalises, cancellations, crashes, removals and the clock interleave,
      as long as every poll so far met the time bound, no company has two live polls and every live poll's
      start time is what its row carries. */
  lemma {:induction false} LeaseSafety(states: seq<Lease>, steps: seq<Step>, i: nat)
    requires IsRun(states, steps) && i < |states|
    requires forall j :: 0 <= j < i ==> Prompt(states[j])
    ensures Exclusive(states[i])
  {
    if i > 0 {
      LeaseSafety(states, steps, i - 1);
      RunIsSound(states, steps, i - 1);
      StepKeepsExclusive(states[i - 1], steps[i - 1]);
    }
  }

  /** Exactly when mutual exclusion breaks: beside a live poll, another run gets the row lock
      if and only if the live poll's claim has reached the limit on the clock the other run has read, and no other
      transaction has the row locked. */
  lemma OverlapIffHolderStale(s: Lease, t: TaskId, u: TaskId)
    requires Exclusive(s) && Enabled(s, Lock(t)) && IsPolling(s, u)
    requires s.tasks[u].company == s.tasks[t].company && s.tasks[t].company in s.claims
    ensures InLock(TryLock(s, t), t) <==>
            && s.tasks[t].company !in s.held
            && s.tasks[t].phase.now >= s.tasks[u].phase.start + STALE_CLAIM_MINUTES
  {
    assert forall v :: InLock(s, v) ==> s.tasks[v].company != s.tasks[u].company;
  }

  // ---------------------------------------------------------------------------------------------
  // No company stays wedged
  // ---------------------------------------------------------------------------------------------

  /** One run of poll_company up to its first commit, with nothing in between. */
  ghost function Attempt(s: Lease, t: TaskId, c: CompanyId): Lease
    requires Enabled(s, Enter(t, c))
  {
    var s1 := Apply(s, Enter(t, c));
    var s2 := Apply(s1, ReadClock(t));
    var s3 := TryLock(s2, t);
    if InLock(s3, t) then CommitClaim(s3, t) else s3
  }

  lemma AttemptSucceedsIff(s: Lease, t: TaskId, c: CompanyId)
    requires Enabled(s, Enter(t, c))
    ensures IsPolling(Attempt(s, t, c), t) <==>
            && c in s.claims && !RowLocked(s, c) && c !in s.held
            && (s.claims[c].None? || s.clock - s.claims[c].value >= STALE_CLAIM_MINUTES)
    ensures IsPolling(Attempt(s, t, c), t) ==>
            Attempt(s, t, c) == s.(claims := s.claims[c := Some(s.clock)], permits := s.permits - 1,
                                   tasks := s.tasks[t := Task(c, Polling(s.clock))])
    ensures !IsPolling(Attempt(s, t, c), t) ==> Attempt(s, t, c) == s
  {
    var s2 := Apply(Apply(s, Enter(t, c)), ReadClock(t));
    if RowLocked(s, c) {
      var u :| u in s.tasks && s.tasks[u].company == c && s.tasks[u].phase.Locked?;
      assert u in s2.tasks && s2.tasks[u] == s.tasks[u];
    }
    if RowLocked(s2, c) {
      var u :| u in s2.tasks && s2.tasks[u].company == c && s2.tasks[u].phase.Locked?;
      assert u in s.tasks && s2.tasks[u] == s.tasks[u];
    }
    if !IsPolling(Attempt(s, t, c), t) {
      assert Attempt(s, t, c).tasks == s.tasks;
    }
  }

  /** From any state a run can reach, a process that restarts can claim every watched company again
      once the limit has passed, whatever the crashed polls left on the rows. */
  lemma NoCompanyWedged(states: seq<Lease>, steps: seq<Step>, i: nat, c: CompanyId, t: TaskId, later: Time)
    requires IsRun(states, steps) && i < |states|
    requires c in states[i].claims && states[i].cap > 0
    requires later >= states[i].clock + STALE_CLAIM_MINUTES
    ensures var s := Crash(states[i]).(clock := later);
            && Enabled(s, Enter(t, c))
            && IsPolling(Attempt(s, t, c), t)
            && Attempt(s, t, c).claims[c] == Some(later)
  {
    RunIsSound(states, steps, i);
    var s := Crash(states[i]).(clock := later);
    AttemptSucceedsIff(s, t, c);
  }

  // ---------------------------------------------------------------------------------------------
  // What goes wrong without the bound
  // ---------------------------------------------------------------------------------------------

  /** A poll that outlives its claim is joined by a second one ... */
  lemma OverrunPollIsJoined(s: Lease, u: TaskId, t: TaskId, c: CompanyId)
    requires IsPolling(s, u) && s.tasks[u].company == c && c in s.claims && !RowLocked(s, c) && c !in s.held
    requires s.claims[c] == Some(s.tasks[u].phase.start) && s.clock >= s.tasks[u].phase.start + STALE_CLAIM_MINUTES
    requires Enabled(s, Enter(t, c))
    ensures var s' := Attempt(s, t, c);
            && IsPolling(s', u) && IsPolling(s', t) && !Exclusive(s') && !RowLocked(s', c)
            && s'.tasks[t] == Task(c, Polling(s.clock)) && s'.tasks[u] == s.tasks[u]
            && s'.claims[c] == Some(s.clock) && s'.clock == s.clock && s'.permits == s.permits - 1
            && s'.tasks.Keys == s.tasks.Keys + {t}
  {
    AttemptSucceedsIff(s, t, c);
    var s' := Attempt(s, t, c);
    assert t != u && s'.tasks[u].company == s'.tasks[t].company;
  }

  /** ... and when it does finish it clears the second one's claim, so a third may start at once. */
  lemma OverrunFinishFreesTheSuccessor(s: Lease, u: TaskId, t: TaskId, v: TaskId, c: CompanyId)
    requires IsPolling(s, u) && IsPolling(s, t) && u != t && v !in s.tasks
    requires s.tasks[u].company == s.tasks[t].company == c && c in s.claims && c < s.nextCompany
    requires !RowLocked(s, c) && c !in s.held
    ensures Enabled(s, Finish(u))
    ensures var s1 := Apply(s, Finish(u));
            && IsPolling(s1, t) && s1.tasks[t] == s.tasks[t] && s1.claims[c] == None
            && Enabled(s1, Enter(v, c))
            && IsPolling(Attempt(s1, v, c), v) && IsPolling(Attempt(s1, v, c), t)
  {
    var s1 := Apply(s, Finish(u));
    AttemptSucceedsIff(s1, v, c);
  }

  /** A watched company whose one live poll carries the claim on the row, and nothing else going on. */
  ghost predicate OnePoll(s: Lease, t: TaskId, c: CompanyId, start: Time) {
    && s.claims == map[c := Some(start)] && s.tasks == map[t := Task(c, Polling(start))]
    && s.permits == s.cap - 1 && s.nextCompany == c + 1 && s.held == multiset{}
  }

  lemma FirstPollStarts(s: Lease, t: TaskId)
    requires Initial(s) && s.cap >= 2
    ensures Enabled(s, Watch) && Enabled(Apply(s, Watch), Enter(t, s.nextCompany))
    ensures var s2 := Attempt(Apply(s, Watch), t, s.nextCompany);
            OnePoll(s2, t, s.nextCompany, s.clock) && s2.clock == s.clock && s2.cap == s.cap
  {
    AttemptSucceedsIff(Apply(s, Watch), t, s.nextCompany);
  }

  lemma ClockPasses(s: Lease, t: TaskId, c: CompanyId)
    requires OnePoll(s, t, c, s.clock)
    ensures var s' := s.(clock := s.clock + STALE_CLAIM_MINUTES);
            Enabled(s, Tick(s'.clock)) && s' == Apply(s, Tick(s'.clock)) && OnePoll(s', t, c, s.clock)
  {
  }

  lemma SecondPollStarts(s: Lease, u: TaskId, t: TaskId, c: CompanyId, start: Time)
    requires OnePoll(s, u, c, start) && s.cap >= 2 && t != u && s.clock >= start + STALE_CLAIM_MINUTES
    ensures Enabled(s, Enter(t, c))
    ensures var s' := Attempt(s, t, c);
            IsPolling(s', u) && IsPolling(s', t) && s'.tasks[u].company == s'.tasks[t].company && !Exclusive(s')
  {
    OverrunPollIsJoined(s, u, t, c);
  }

  /** Without the bound the lease does fail on a reachable state: watch a company, poll it, wait until the
      claim is stale, poll it again. */
  lemma OverrunIsReachable(s0: Lease) returns (s: Lease)
    requires Initial(s0) && s0.cap >= 2
    ensures Enabled(s0, Watch) && Enabled(Apply(s0, Watch), Enter(0, s0.nextCompany))
    ensures var s2 := Attempt(Apply(s0, Watch), 0, s0.nextCompany);
            var s3 := s2.(clock := s2.clock + STALE_CLAIM_MINUTES);
            && Enabled(s2, Tick(s3.clock)) && s3 == Apply(s2, Tick(s3.clock))
            && Enabled(s3, Enter(1, s0.nextCompany))
            && s == Attempt(s3, 1, s0.nextCompany)
    ensures IsPolling(s, 0) && IsPolling(s, 1) && s.tasks[0].company == s.tasks[1].company && !Exclusive(s)
  {
    var c := s0.nextCompany;
    FirstPollStarts(s0, 0);
    var s2 := Attempt(Apply(s0, Watch), 0, c);
    ClockPasses(s2, 0, c);
    var s3 := s2.(clock := s2.clock + STALE_CLAIM_MINUTES);
    SecondPollStarts(s3, 0, 1, c, s2.clock);
    s := Attempt(s3, 1, c);
  }

  // ---------------------------------------------------------------------------------------------
  // What interruptions leave
  // ---------------------------------------------------------------------------------------------

  /** The steps that write a company's claim: a poll of it claims or finishes, or it is no longer watched. */
  predicate WritesClaim(s: Lease, step: Step, c: CompanyId) {
    match step
    case Commit(t) => t in s.tasks && s.tasks[t].company == c
    case Finish(t) => t in s.tasks && s.tasks[t].company == c
    case Unwatch(other) => other == c
    case _ => false
  }

  /** What a step writes on a company's claim: the time of the poll that claims, nothing when one finishes. */
  function ClaimWritten(s: Lease, step: Step, c: CompanyId): Option<Time>
    requires WritesClaim(s, step, c) && (step.Commit? ==> s.tasks[step.t].phase.Locked?)
  {
    if step.Commit? then Some(s.tasks[step.t].phase.now) else None
  }

  /** What every step makes of a company's row and of the locks on it. A row appears only by watching, unclaimed, and
      goes only by unwatching; a poll that finishes after that brings no row back. Its claim is what the step writes or
      stays. The locks of other transactions on it are taken and released one at a time, and a crash releases all. */
  lemma StepOnRow(s: Lease, step: Step, c: CompanyId)
    requires NothingAhead(s) && LockSound(s) && Enabled(s, step)
    ensures var s' := Apply(s, step);
            && (c in s'.claims <==>
                  (c in s.claims && step != Unwatch(c)) || (step.Watch? && c == s.nextCompany))
            && (c in s.claims && c in s'.claims ==>
                  s'.claims[c] == if WritesClaim(s, step, c) then ClaimWritten(s, step, c) else s.claims[c])
            && (c !in s.claims && c in s'.claims ==> s'.claims[c] == None)
            && s'.held[c] == if step == Hold(c) then s.held[c] + 1
                             else if step == Release(c) then s.held[c] - 1
                             else if step.CrashAll? then 0 else s.held[c]
  {
    if step.Commit? {
      assert InLock(s, step.t);
    }
  }

  /** A claim stays on its row through everything else, a cancelled poll and a crash of the process among it. */
  lemma {:induction false} InterruptedClaimStands(states: seq<Lease>, steps: seq<Step>, i: nat, j: nat, c: CompanyId)
    requires IsRun(states, steps) && i <= j < |states| && c in states[i].claims
    requires forall k :: i <= k < j ==> !WritesClaim(states[k], steps[k], c)
    ensures c in states[j].claims && states[j].claims[c] == states[i].claims[c]
  {
    if i < j {
      InterruptedClaimStands(states, steps, i, j - 1, c);
      RunIsSound(states, steps, j - 1);
      StepOnRow(states[j - 1], steps[j - 1], c);
      StepOfRun(states, steps, j - 1);
    }
  }

  lemma StepOfRun(states: seq<Lease>, steps: seq<Step>, k: nat)
    requires IsRun(states, steps) && k + 1 < |states|
    ensures Enabled(states[k], steps[k]) && states[k + 1] == Apply(states[k], steps[k])
  {
  }
}
