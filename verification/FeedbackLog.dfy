/** State derived from the feedback log: the active career memories and every job's application status, each
    written when an event arrives, against what the whole log says. */
module FeedbackLog {
  import opened Options

  type ProfileId = nat
  type JobId = nat
  type EventId = nat
  type AnalysisId = nat
  type Time = int

  datatype Status = Saved | Applied | Interviewing | Rejected | Offer | Passed

  /** The status in an outcome's payload: missing, not a string, one of the known values, or another string. */
  datatype StatusText = Missing | NotText | Known(status: Status) | Unknown(text: string)

  /** A text field: missing or null, a string, or a value of another type. */
  datatype TextField = NoText | IsText(text: string) | NotAText

  /** The payload of each kind of event, field by field; helpful is what can be read as a boolean. */
  datatype Payload =
    | MatchHelpful(helpful: Option<bool>)
    | GapDispute(gapEvidence: TextField, userNote: TextField)
    | StrengthConfirm(strengthEvidence: TextField)
    | Preference(key: TextField, value: TextField, note: TextField)
    | Outcome(status: StatusText, note: TextField)

  datatype Event = Event(id: EventId, profile: ProfileId, job: Option<JobId>, analysis: Option<AnalysisId>,
                         payload: Payload, createdAt: Time)

  datatype Draft = Draft(category: string, content: string, key: Option<string>)

  /** What the synthesizer makes of an event; any function of it. */
  type Drafter = Event -> Option<Draft>

  datatype Memory = Memory(profile: ProfileId, draft: Draft, source: EventId, active: bool)

  datatype Analysis = Analysis(profile: ProfileId, job: JobId)

  datatype Store = Store(log: seq<Event>, memories: seq<Memory>, statuses: map<JobId, Status>,
                         profiles: set<ProfileId>, analyses: map<AnalysisId, Analysis>)

  const EMPTY := Store([], [], map[], {}, map[])

  // ---------------------------------------------------------------------------------------------
  // One event
  // ---------------------------------------------------------------------------------------------

  predicate Keyed(d: Draft) {
    d.key.Some? && d.key.value != ""
  }

  /** The new draft takes the place of the memory. */
  predicate Replaces(profile: ProfileId, d: Draft, m: Memory) {
    Keyed(d) && m.profile == profile && m.draft.key == d.key
  }

  function Deactivated(memories: seq<Memory>, profile: ProfileId, d: Draft): (r: seq<Memory>)
    ensures |r| == |memories|
  {
    seq(|memories|, i requires 0 <= i < |memories| =>
      if Replaces(profile, d, memories[i]) then memories[i].(active := false) else memories[i])
  }

  function MemoryOf(e: Event, d: Draft): Memory {
    Memory(e.profile, d, e.id, true)
  }

  function Remember(memories: seq<Memory>, e: Event, drafter: Drafter): seq<Memory> {
    var d := drafter(e);
    if d.None? then memories else Deactivated(memories, e.profile, d.value) + [MemoryOf(e, d.value)]
  }

  function ParsedStatus(t: StatusText): Status {
    if t.Known? then t.status else Saved
  }

  predicate IsOutcome(e: Event, j: JobId) {
    e.payload.Outcome? && e.job == Some(j)
  }

  function UpdateStatus(statuses: map<JobId, Status>, e: Event): map<JobId, Status> {
    if e.payload.Outcome? && e.job.Some? && e.job.value in statuses
    then statuses[e.job.value := ParsedStatus(e.payload.status)] else statuses
  }

  /** A required text of at least one and at most max characters. */
  predicate Required(field: TextField, max: nat) {
    field.IsText? && 1 <= |field.text| <= max
  }

  /** A text that may be absent, of at most max characters. */
  predicate Optional(field: TextField, max: nat) {
    field.NoText? || (field.IsText? && |field.text| <= max)
  }

  predicate PayloadOk(payload: Payload) {
    match payload
    case MatchHelpful(helpful) => helpful.Some?
    case GapDispute(evidence, note) => Required(evidence, 2000) && Optional(note, 2000)
    case StrengthConfirm(evidence) => Required(evidence, 2000)
    case Preference(key, value, note) => Required(key, 100) && Required(value, 500) && Optional(note, 2000)
    case Outcome(status, note) => status.Known? && Optional(note, 2000)
  }

  /** The request's schema: a valid payload, a job for every kind but a preference, and a match analysis for the
      three kinds that speak of one. */
  predicate WellFormed(e: Event) {
    && PayloadOk(e.payload)
    && (!e.payload.Preference? ==> e.job.Some?)
    && (e.payload.MatchHelpful? || e.payload.GapDispute? || e.payload.StrengthConfirm? ==> e.analysis.Some?)
  }

  predicate TextOf(field: TextField, min: nat, max: nat) {
    field.IsText? && min <= |field.text| <= max
  }

  predicate NoteOf(note: TextField) {
    note.NoText? || TextOf(note, 0, 2000)
  }

  /** The profile, the job and the analysis exist, and the analysis is of this profile and this job. */
  predicate RefersTo(s: Store, e: Event) {
    && e.profile in s.profiles
    && (e.job.Some? ==> e.job.value in s.statuses)
    && (e.analysis.Some? ==>
          && e.analysis.value in s.analyses && s.analyses[e.analysis.value].profile == e.profile
          && (e.job.Some? ==> s.analyses[e.analysis.value].job == e.job.value))
  }

  /** Every other event is refused. */
  predicate Accepted(s: Store, e: Event) {
    WellFormed(e) && RefersTo(s, e)
  }

  function Record(s: Store, e: Event, drafter: Drafter): Store {
    if !Accepted(s, e) then s
    else s.(log := s.log + [e], memories := Remember(s.memories, e, drafter), statuses := UpdateStatus(s.statuses, e))
  }

  function AddJob(s: Store, j: JobId): Store {
    if j in s.statuses then s else s.(statuses := s.statuses[j := Saved])
  }

  class FeedbackTables {
    var log: seq<Event>
    var memories: seq<Memory>
    var statuses: map<JobId, Status>
    var profiles: set<ProfileId>
    var analyses: map<AnalysisId, Analysis>

    ghost function Now(): Store
      reads this
    {
      Store(log, memories, statuses, profiles, analyses)
    }

    constructor ()
      ensures Now() == EMPTY
    {
      log, memories, statuses, profiles, analyses := [], [], map[], {}, map[];
    }

    method SyncCareerMemory(e: Event, drafter: Drafter) returns (memory: Option<Memory>)
      modifies this`memories
      ensures memories == Remember(old(memories), e, drafter)
      ensures memory == if drafter(e).Some? then Some(Memory(e.profile, drafter(e).value, e.id, true)) else None
      ensures memory.None? ==> memories == old(memories)
      ensures memory.Some? ==>
                && |memories| == |old(memories)| + 1 && memories[|old(memories)|] == memory.value
                && forall i :: 0 <= i < |old(memories)| ==>
                     var m, key := old(memories)[i], drafter(e).value.key;
                     memories[i] == if key.Some? && key.value != "" && m.profile == e.profile && m.draft.key == key
                                    then m.(active := false) else m
    {
      var draft := drafter(e);
      if draft.None? {
        return None;
      }
      ghost var before := memories;
      var rows := memories;
      if Keyed(draft.value) {
        for i := 0 to |rows|
          invariant |rows| == |before|
          invariant forall k :: 0 <= k < i ==> rows[k] == Deactivated(before, e.profile, draft.value)[k]
          invariant forall k :: i <= k < |rows| ==> rows[k] == before[k]
        {
          if rows[i].profile == e.profile && rows[i].draft.key == draft.value.key && rows[i].active {
            rows := rows[i := rows[i].(active := false)];
          }
        }
      }
      assert rows == Deactivated(before, e.profile, draft.value);
      memories := rows + [MemoryOf(e, draft.value)];
      memory := Some(MemoryOf(e, draft.value));
    }

    method SyncJobApplicationStatus(e: Event) returns (job: Option<JobId>)
      modifies this`statuses
      ensures statuses == UpdateStatus(old(statuses), e)
      ensures job.Some? <==> e.payload.Outcome? && e.job.Some? && e.job.value in old(statuses)
      ensures statuses == if job.None? then old(statuses) else
                old(statuses)[e.job.value := if e.payload.status.Known? then e.payload.status.status else Saved]
    {
      if !e.payload.Outcome? || e.job.None? || e.job.value !in statuses {
        return None;
      }
      var status := match e.payload.status
        case Known(status) => status
        case _ => Saved;
      statuses := statuses[e.job.value := status];
      job := e.job;
    }

    /** The schema's checks; the first that fails refuses the request. */
    method ValidateEvent(e: Event) returns (ok: bool)
      ensures ok <==> WellFormed(e)
      ensures ok <==>
                match e.payload
                case MatchHelpful(helpful) => helpful.Some? && e.job.Some? && e.analysis.Some?
                case GapDispute(evidence, note) =>
                  TextOf(evidence, 1, 2000) && NoteOf(note) && e.job.Some? && e.analysis.Some?
                case StrengthConfirm(evidence) => TextOf(evidence, 1, 2000) && e.job.Some? && e.analysis.Some?
                case Preference(key, value, note) => TextOf(key, 1, 100) && TextOf(value, 1, 500) && NoteOf(note)
                case Outcome(status, note) => status.Known? && NoteOf(note) && e.job.Some?
    {
      if !PayloadOk(e.payload) {
        return false;
      }
      if !e.payload.Preference? && e.job.None? {
        return false;
      }
      if !e.payload.Preference? && !e.payload.Outcome? && e.analysis.None? {
        return false;
      }
      ok := true;
    }

    method ValidateReferences(e: Event) returns (ok: bool)
      ensures ok <==> RefersTo(Now(), e)
      ensures ok <==>
                && e.profile in profiles && (e.job.None? || e.job.value in statuses)
                && (e.analysis.None? ||
                    (e.analysis.value in analyses && analyses[e.analysis.value].profile == e.profile
                     && (e.job.None? || analyses[e.analysis.value].job == e.job.value)))
    {
      if e.profile !in profiles {
        return false;
      }
      if e.job.Some? && e.job.value !in statuses {
        return false;
      }
      if e.analysis.Some? {
        if e.analysis.value !in analyses {
          return false;
        }
        var analysis := analyses[e.analysis.value];
        if analysis.profile != e.profile {
          return false;
        }
        if e.job.Some? && analysis.job != e.job.value {
          return false;
        }
      }
      ok := true;
    }

    method CreateFeedback(e: Event, drafter: Drafter) returns (ok: bool)
      modifies this
      ensures Now() == Record(old(Now()), e, drafter)
      ensures ok <==> Accepted(old(Now()), e)
      ensures profiles == old(profiles) && analyses == old(analyses)
      ensures ok ==> log == old(log) + [e]
      ensures ok ==> memories == Remember(old(memories), e, drafter) && statuses == UpdateStatus(old(statuses), e)
      ensures !ok ==> log == old(log) && memories == old(memories) && statuses == old(statuses)
    {
      ok := ValidateEvent(e);
      if ok {
        ok := ValidateReferences(e);
      }
      if !ok {
        return;
      }
      log := log + [e];
      var memory := SyncCareerMemory(e, drafter);
      var job := SyncJobApplicationStatus(e);
    }

    method CreateJob(j: JobId)
      modifies this`statuses
      ensures Now() == AddJob(old(Now()), j)
      ensures statuses == if j in old(statuses) then old(statuses) else old(statuses)[j := Saved]
    {
      if j !in statuses {
        statuses := statuses[j := Saved];
      }
    }
  }

  // ---------------------------------------------------------------------------------------------
  // Runs
  // ---------------------------------------------------------------------------------------------

  datatype Op =
    | NewProfile(profile: ProfileId)
    | NewJob(job: JobId)
    | NewAnalysis(analysis: AnalysisId, of: Analysis)
    | Feedback(event: Event)

  function Do(s: Store, op: Op, drafter: Drafter): Store {
    match op
    case NewProfile(p) => s.(profiles := s.profiles + {p})
    case NewJob(j) => AddJob(s, j)
    case NewAnalysis(a, of) => s.(analyses := s.analyses[a := of])
    case Feedback(e) => Record(s, e, drafter)
  }

  function Run(ops: seq<Op>, drafter: Drafter): Store {
    if ops == [] then EMPTY else Do(Run(ops[..|ops| - 1], drafter), ops[|ops| - 1], drafter)
  }

  /** What each operation of a run adds: an accepted event to the log, a profile, a job that is saved unless it is
      known, an analysis. */
  lemma RunGrows(ops: seq<Op>, op: Op, drafter: Drafter)
    ensures var s, s' := Run(ops, drafter), Run(ops + [op], drafter);
            && s'.log == s.log + (if op.Feedback? && Accepted(s, op.event) then [op.event] else [])
            && s'.profiles == s.profiles + (if op.NewProfile? then {op.profile} else {})
            && s'.analyses == (if op.NewAnalysis? then s.analyses[op.analysis := op.of] else s.analyses)
            && s'.statuses.Keys == s.statuses.Keys + (if op.NewJob? then {op.job} else {})
            && (op.NewJob? && op.job !in s.statuses ==> s'.statuses[op.job] == Saved)
  {
    assert (ops + [op])[..|ops|] == ops;
  }

  // ---------------------------------------------------------------------------------------------
  // Memories against the log
  // ---------------------------------------------------------------------------------------------

  function Active(memories: seq<Memory>): seq<Memory> {
    if memories == [] then [] else
      var before, last := Active(memories[..|memories| - 1]), memories[|memories| - 1];
      if last.active then before + [last] else before
  }

  /** The draft of event i still stands: no later event of the profile has a draft with the same key. */
  ghost predicate Stands(log: seq<Event>, i: nat, drafter: Drafter)
    requires i < |log|
  {
    && drafter(log[i]).Some?
    && forall k :: i < k < |log| && drafter(log[k]).Some? ==>
         !Replaces(log[k].profile, drafter(log[k]).value, MemoryOf(log[i], drafter(log[i]).value))
  }

  /** The memories of the first n events that still stand at the end of the log. */
  ghost function Standing(log: seq<Event>, n: nat, drafter: Drafter): seq<Memory>
    requires n <= |log|
  {
    if n == 0 then [] else
      var before := Standing(log, n - 1, drafter);
      if Stands(log, n - 1, drafter) then before + [MemoryOf(log[n - 1], drafter(log[n - 1]).value)] else before
  }

  function Without(memories: seq<Memory>, profile: ProfileId, d: Draft): seq<Memory> {
    if memories == [] then [] else
      var before, last := Without(memories[..|memories| - 1], profile, d), memories[|memories| - 1];
      if Replaces(profile, d, last) then before else before + [last]
  }

  lemma WithoutAppend(memories: seq<Memory>, m: Memory, profile: ProfileId, d: Draft)
    ensures Without(memories + [m], profile, d) ==
            if Replaces(profile, d, m) then Without(memories, profile, d) else Without(memories, profile, d) + [m]
  {
    assert (memories + [m])[..|memories|] == memories;
  }

  lemma ActiveAppend(memories: seq<Memory>, m: Memory)
    ensures Active(memories + [m]) == if m.active then Active(memories) + [m] else Active(memories)
  {
    assert (memories + [m])[..|memories|] == memories;
  }

  lemma {:induction false} ActiveDeactivated(memories: seq<Memory>, profile: ProfileId, d: Draft)
    ensures Active(Deactivated(memories, profile, d)) == Without(Active(memories), profile, d)
  {
    if memories != [] {
      var n := |memories| - 1;
      var init, last := memories[..n], memories[n];
      ActiveDeactivated(init, profile, d);
      var last' := if Replaces(profile, d, last) then last.(active := false) else last;
      assert Deactivated(memories, profile, d) == Deactivated(init, profile, d) + [last'];
      ActiveAppend(Deactivated(init, profile, d), last');
      if last.active {
        WithoutAppend(Active(init), last, profile, d);
      }
    }
  }

  /** One more event takes away the memories it replaces. */
  lemma {:induction false} StandingAfter(log: seq<Event>, e: Event, n: nat, drafter: Drafter)
    requires n <= |log|
    ensures Standing(log + [e], n, drafter) ==
            if drafter(e).Some? then Without(Standing(log, n, drafter), e.profile, drafter(e).value)
            else Standing(log, n, drafter)
  {
    if n > 0 {
      StandingAfter(log, e, n - 1, drafter);
      var longer := log + [e];
      assert longer[n - 1] == log[n - 1] && longer[|log|] == e;
      assert forall k :: n - 1 < k < |log| ==> longer[k] == log[k];
      if Stands(log, n - 1, drafter) {
        var m := MemoryOf(log[n - 1], drafter(log[n - 1]).value);
        if drafter(e).Some? {
          WithoutAppend(Standing(log, n - 1, drafter), m, e.profile, drafter(e).value);
        }
      }
    }
  }

  lemma StandingLast(log: seq<Event>, e: Event, drafter: Drafter)
    ensures Standing(log + [e], |log| + 1, drafter) ==
            if drafter(e).Some? then Standing(log + [e], |log|, drafter) + [MemoryOf(e, drafter(e).value)]
            else Standing(log + [e], |log|, drafter)
  {
  }

  lemma RememberStands(log: seq<Event>, memories: seq<Memory>, e: Event, drafter: Drafter)
    requires Active(memories) == Standing(log, |log|, drafter)
    ensures Active(Remember(memories, e, drafter)) == Standing(log + [e], |log + [e]|, drafter)
  {
    StandingAfter(log, e, |log|, drafter);
    StandingLast(log, e, drafter);
    var d := drafter(e);
    if d.Some? {
      ActiveDeactivated(memories, e.profile, d.value);
      ActiveAppend(Deactivated(memories, e.profile, d.value), MemoryOf(e, d.value));
    }
  }

  /** Over every run, the active memories are exactly the drafts of the log that still stand, in log order. */
  lemma {:induction false} ActiveIsFold(ops: seq<Op>, drafter: Drafter)
    ensures var s := Run(ops, drafter); Active(s.memories) == Standing(s.log, |s.log|, drafter)
  {
    if ops != [] {
      var init := Run(ops[..|ops| - 1], drafter);
      ActiveIsFold(ops[..|ops| - 1], drafter);
      match ops[|ops| - 1]
      case Feedback(e) =>
        if Accepted(init, e) {
          RememberStands(init.log, init.memories, e, drafter);
        }
      case _ =>
    }
  }

  ghost predicate HasKey(m: Memory, profile: ProfileId, key: string) {
    m.profile == profile && m.draft.key == Some(key)
  }

  /** Where a standing memory comes from. */
  lemma {:induction false} StandingComesFrom(log: seq<Event>, n: nat, drafter: Drafter, a: nat) returns (i: nat)
    requires n <= |log| && a < |Standing(log, n, drafter)|
    ensures i < n && Stands(log, i, drafter)
    ensures Standing(log, n, drafter)[a] == MemoryOf(log[i], drafter(log[i]).value)
    ensures a == |Standing(log, i, drafter)|
  {
    var before := Standing(log, n - 1, drafter);
    if a < |before| {
      i := StandingComesFrom(log, n - 1, drafter, a);
    } else {
      i := n - 1;
    }
  }

  /** At most one active memory for a profile and a key ... */
  lemma ActiveKeysUnique(ops: seq<Op>, drafter: Drafter, a: nat, b: nat, profile: ProfileId, key: string)
    requires var active := Active(Run(ops, drafter).memories);
             && a < |active| && b < |active| && key != ""
             && HasKey(active[a], profile, key) && HasKey(active[b], profile, key)
    ensures a == b
  {
    var log := Run(ops, drafter).log;
    ActiveIsFold(ops, drafter);
    var i := StandingComesFrom(log, |log|, drafter, a);
    var j := StandingComesFrom(log, |log|, drafter, b);
    StandingApart(log, drafter);
  }

  lemma StandingApart(log: seq<Event>, drafter: Drafter)
    ensures forall i, j :: 0 <= i < j < |log| && Stands(log, i, drafter) && Stands(log, j, drafter) ==>
              !Replaces(log[j].profile, drafter(log[j]).value, MemoryOf(log[i], drafter(log[i]).value))
  {
  }

  ghost predicate HasDraft(log: seq<Event>, i: nat, drafter: Drafter, profile: ProfileId, key: string) {
    i < |log| && log[i].profile == profile && drafter(log[i]).Some? && drafter(log[i]).value.key == Some(key)
  }

  /** ... and it is the draft of the last event in the log with that key. */
  lemma LatestDraftIsActive(ops: seq<Op>, drafter: Drafter, i: nat, profile: ProfileId, key: string)
    requires var log := Run(ops, drafter).log;
             && HasDraft(log, i, drafter, profile, key) && key != ""
             && forall k :: i < k < |log| ==> !HasDraft(log, k, drafter, profile, key)
    ensures MemoryOf(Run(ops, drafter).log[i], drafter(Run(ops, drafter).log[i]).value)
            in Active(Run(ops, drafter).memories)
  {
    var log := Run(ops, drafter).log;
    ActiveIsFold(ops, drafter);
    assert Stands(log, i, drafter) by {
      forall k | i < k < |log| && drafter(log[k]).Some?
        ensures !Replaces(log[k].profile, drafter(log[k]).value, MemoryOf(log[i], drafter(log[i]).value))
      {
        assert !HasDraft(log, k, drafter, profile, key);
      }
    }
    StandingHas(log, |log|, drafter, i);
  }

  lemma {:induction false} StandingHas(log: seq<Event>, n: nat, drafter: Drafter, i: nat)
    requires i < n <= |log| && Stands(log, i, drafter)
    ensures MemoryOf(log[i], drafter(log[i]).value) in Standing(log, n, drafter)
  {
    if i < n - 1 {
      StandingHas(log, n - 1, drafter, i);
    }
  }

  // ---------------------------------------------------------------------------------------------
  // Statuses against the log
  // ---------------------------------------------------------------------------------------------

  /** The last outcome event of a job. */
  function LastOutcome(log: seq<Event>, j: JobId): (last: Option<Event>)
    ensures last.Some? ==> IsOutcome(last.value, j)
  {
    if log == [] then None
    else if IsOutcome(log[|log| - 1], j) then Some(log[|log| - 1])
    else LastOutcome(log[..|log| - 1], j)
  }

  function StatusFromLog(log: seq<Event>, j: JobId): Status {
    var last := LastOutcome(log, j);
    if last.None? then Saved else ParsedStatus(last.value.payload.status)
  }

  /** Events only speak of jobs that exist. */
  ghost predicate JobsKnown(s: Store) {
    forall i :: 0 <= i < |s.log| && s.log[i].job.Some? ==> s.log[i].job.value in s.statuses
  }

  lemma {:induction false} UnknownJobHasNoOutcome(log: seq<Event>, j: JobId)
    requires forall i :: 0 <= i < |log| ==> log[i].job != Some(j)
    ensures LastOutcome(log, j).None?
  {
    if log != [] {
      UnknownJobHasNoOutcome(log[..|log| - 1], j);
    }
  }

  lemma LastOutcomeAppend(log: seq<Event>, e: Event, j: JobId)
    ensures LastOutcome(log + [e], j) == if IsOutcome(e, j) then Some(e) else LastOutcome(log, j)
  {
    assert (log + [e])[..|log|] == log;
  }

  /** Over every run, each job's stored status is that of its last outcome event, or saved without one. */
  lemma {:induction false} StatusIsFold(ops: seq<Op>, drafter: Drafter)
    ensures var s := Run(ops, drafter);
            JobsKnown(s) && forall j :: j in s.statuses ==> s.statuses[j] == StatusFromLog(s.log, j)
  {
    if ops != [] {
      var s := Run(ops[..|ops| - 1], drafter);
      StatusIsFold(ops[..|ops| - 1], drafter);
      match ops[|ops| - 1]
      case NewJob(j) =>
        if j !in s.statuses {
          UnknownJobHasNoOutcome(s.log, j);
        }
      case Feedback(e) =>
        forall j ensures LastOutcome(s.log + [e], j) == if IsOutcome(e, j) then Some(e) else LastOutcome(s.log, j) {
          LastOutcomeAppend(s.log, e, j);
        }
      case _ =>
    }
  }

  // The scan in the user interface

  function Outcomes(events: seq<Event>, j: JobId): seq<Event> {
    if events == [] then [] else
      (if IsOutcome(events[0], j) then [events[0]] else []) + Outcomes(events[1..], j)
  }

  /** The first of a stable sort by creation time, newest first. */
  function Newest(events: seq<Event>): Option<Event> {
    if events == [] then None else
      var rest := Newest(events[1..]);
      if rest.None? || events[0].createdAt >= rest.value.createdAt then Some(events[0]) else rest
  }

  datatype Shown = ShownStatus(status: Status) | ShownText(text: string)

  /** What the interface shows: the string of the newest outcome as it stands, saved without one. */
  function ShownFor(events: seq<Event>, j: JobId): Shown {
    OutcomesAre(events, j);
    NewestIsNewest(Outcomes(events, j));
    var latest := Newest(Outcomes(events, j));
    if latest.None? then ShownStatus(Saved)
    else match latest.value.payload.status
      case Known(status) => ShownStatus(status)
      case Unknown(text) => ShownText(text)
      case _ => ShownStatus(Saved)
  }

  lemma {:induction false} OutcomesAre(events: seq<Event>, j: JobId)
    ensures forall e :: e in Outcomes(events, j) <==> e in events && IsOutcome(e, j)
  {
    if events != [] {
      OutcomesAre(events[1..], j);
    }
  }

  lemma {:induction false} NewestIsNewest(events: seq<Event>)
    ensures Newest(events).None? <==> events == []
    ensures Newest(events).Some? ==>
              Newest(events).value in events
              && forall e :: e in events ==> e.createdAt <= Newest(events).value.createdAt
  {
    if events != [] {
      NewestIsNewest(events[1..]);
    }
  }

  lemma {:induction false} LastOutcomeIs(log: seq<Event>, j: JobId) returns (i: int)
    ensures LastOutcome(log, j).None? ==> forall e :: e in log ==> !IsOutcome(e, j)
    ensures LastOutcome(log, j).Some? ==>
              && 0 <= i < |log| && LastOutcome(log, j) == Some(log[i]) && IsOutcome(log[i], j)
              && forall k :: i < k < |log| ==> !IsOutcome(log[k], j)
  {
    i := |log| - 1;
    if log != [] && !IsOutcome(log[i], j) {
      var init := log[..i];
      assert log == init + [log[i]];
      i := LastOutcomeIs(init, j);
    }
  }

  ghost predicate TimesIncrease(log: seq<Event>) {
    forall i, k :: 0 <= i < k < |log| ==> log[i].createdAt < log[k].createdAt
  }

  /** In whatever order they are delivered, together with whatever events of other jobs, the newest of the job's
      outcomes is the last one in the log when creation times strictly increase along it. */
  lemma NewestIsLast(log: seq<Event>, events: seq<Event>, j: JobId)
    requires TimesIncrease(log) && forall e :: IsOutcome(e, j) ==> (e in events <==> e in log)
    ensures Newest(Outcomes(events, j)) == LastOutcome(log, j)
  {
    var outcomes := Outcomes(events, j);
    OutcomesAre(events, j);
    NewestIsNewest(outcomes);
    var i := LastOutcomeIs(log, j);
    HeadIsIn(outcomes);
    if LastOutcome(log, j).Some? {
      assert log[i] in outcomes;
      var newest := Newest(outcomes).value;
      assert newest in log;
      var k :| 0 <= k < |log| && log[k] == newest;
      assert k <= i;
      assert k == i;
    }
  }

  lemma HeadIsIn(events: seq<Event>)
    ensures events != [] ==> events[0] in events
  {
  }

  lemma {:induction false} LogIsWellFormed(ops: seq<Op>, drafter: Drafter)
    ensures forall i :: 0 <= i < |Run(ops, drafter).log| ==> WellFormed(Run(ops, drafter).log[i])
  {
    if ops != [] {
      LogIsWellFormed(ops[..|ops| - 1], drafter);
    }
  }

  // What the endpoints deliver

  function OnlyWhere(log: seq<Event>, keep: Event -> bool): seq<Event> {
    if log == [] then [] else
      OnlyWhere(log[..|log| - 1], keep) + if keep(log[|log| - 1]) then [log[|log| - 1]] else []
  }

  lemma {:induction false} OnlyWhereHas(log: seq<Event>, keep: Event -> bool)
    ensures forall e :: e in OnlyWhere(log, keep) <==> e in log && keep(e)
  {
    if log != [] {
      var init := log[..|log| - 1];
      OnlyWhereHas(init, keep);
      assert log == init + [log[|log| - 1]];
    }
  }

  lemma {:induction false} OnlyWhereTimes(log: seq<Event>, keep: Event -> bool)
    requires TimesIncrease(log)
    ensures TimesIncrease(OnlyWhere(log, keep))
  {
    if log != [] {
      var init := log[..|log| - 1];
      OnlyWhereTimes(init, keep);
      OnlyWhereHas(init, keep);
      forall e | e in init ensures e.createdAt < log[|log| - 1].createdAt {
        var i :| 0 <= i < |init| && init[i] == e;
      }
    }
  }

  function OfJob(j: JobId): Event -> bool {
    (e: Event) => e.job == Some(j)
  }

  function OfProfile(p: ProfileId): Event -> bool {
    (e: Event) => e.profile == p
  }

  /** The feedback of one job. */
  function JobList(log: seq<Event>, j: JobId): seq<Event> {
    OnlyWhere(log, OfJob(j))
  }

  /** The feedback of one profile, on all its jobs. */
  function ProfileList(log: seq<Event>, p: ProfileId): seq<Event> {
    OnlyWhere(log, OfProfile(p))
  }

  ghost predicate NewestFirst(events: seq<Event>) {
    forall i, k :: 0 <= i < k < |events| ==> events[i].createdAt >= events[k].createdAt
  }

  /** order_by(created_at.desc()): events of one moment come in any order. */
  ghost predicate IsDelivery(events: seq<Event>, list: seq<Event>) {
    multiset(events) == multiset(list) && NewestFirst(events)
  }

  // Distinct creation times

  /** When creation times strictly increase, the stored status is the one the interface scans out of any list that
      has the job's outcomes, such as the job's own feedback, in whatever order it is delivered. */
  lemma ScanAgrees(ops: seq<Op>, drafter: Drafter, events: seq<Event>, j: JobId)
    requires var s := Run(ops, drafter);
             j in s.statuses && TimesIncrease(s.log) && forall e :: IsOutcome(e, j) ==> (e in events <==> e in s.log)
    ensures ShownFor(events, j) == ShownStatus(Run(ops, drafter).statuses[j])
  {
    var s := Run(ops, drafter);
    StatusIsFold(ops, drafter);
    LogIsWellFormed(ops, drafter);
    NewestIsLast(s.log, events, j);
    var i := LastOutcomeIs(s.log, j);
  }

  /** Scanned out of one profile's feedback it is the stored status exactly if the profile's last outcome of the job,
      or saved without one, carries the status of the last outcome of any profile. */
  lemma ProfileScanAgreesIff(ops: seq<Op>, drafter: Drafter, events: seq<Event>, j: JobId, p: ProfileId)
    requires var s := Run(ops, drafter);
             && j in s.statuses && TimesIncrease(s.log)
             && forall e :: IsOutcome(e, j) ==> (e in events <==> e in s.log && e.profile == p)
    ensures var s := Run(ops, drafter);
            ShownFor(events, j) == ShownStatus(s.statuses[j]) <==>
              StatusFromLog(ProfileList(s.log, p), j) == StatusFromLog(s.log, j)
  {
    var s := Run(ops, drafter);
    var list := ProfileList(s.log, p);
    StatusIsFold(ops, drafter);
    LogIsWellFormed(ops, drafter);
    OnlyWhereTimes(s.log, OfProfile(p));
    OnlyWhereHas(s.log, OfProfile(p));
    NewestIsLast(list, events, j);
    var i := LastOutcomeIs(list, j);
  }

  // Creation times that tie

  /** An outcome of the job that no other outcome of the job in the list is newer than. */
  ghost predicate IsNewestOutcome(list: seq<Event>, e: Event, j: JobId) {
    e in list && IsOutcome(e, j) && forall o :: o in list && IsOutcome(o, j) ==> o.createdAt <= e.createdAt
  }

  /** What the interface shows is the status of one of the newest outcomes ... */
  lemma ShownIsNewest(list: seq<Event>, events: seq<Event>, j: JobId)
    requires forall e :: e in events <==> e in list
    requires forall e :: e in list ==> WellFormed(e)
    ensures LastOutcome(list, j).None? ==> ShownFor(events, j) == ShownStatus(Saved)
    ensures LastOutcome(list, j).Some? ==>
              exists e ::
                IsNewestOutcome(list, e, j) && ShownFor(events, j) == ShownStatus(ParsedStatus(e.payload.status))
  {
    var outcomes := Outcomes(events, j);
    OutcomesAre(events, j);
    NewestIsNewest(outcomes);
    HeadIsIn(outcomes);
    var i := LastOutcomeIs(list, j);
    if LastOutcome(list, j).Some? {
      assert list[i] in outcomes;
      assert IsNewestOutcome(list, Newest(outcomes).value, j);
    }
  }

  lemma NewestWhenFirst(e: Event, rest: seq<Event>, j: JobId)
    requires IsOutcome(e, j) && forall o :: o in rest && IsOutcome(o, j) ==> o.createdAt <= e.createdAt
    ensures Newest(Outcomes([e] + rest, j)) == Some(e)
  {
    var events := [e] + rest;
    assert events[0] == e && events[1..] == rest;
    assert Outcomes(events, j) == [e] + Outcomes(rest, j);
    OutcomesAre(rest, j);
    NewestIsNewest(Outcomes(rest, j));
    assert Outcomes(events, j)[1..] == Outcomes(rest, j);
  }

  /** Puts an event before those of its own moment. */
  function Insert(e: Event, events: seq<Event>): seq<Event> {
    if events == [] || e.createdAt >= events[0].createdAt then [e] + events
    else [events[0]] + Insert(e, events[1..])
  }

  lemma {:induction false} InsertAdds(e: Event, events: seq<Event>)
    ensures multiset(Insert(e, events)) == multiset(events) + multiset{e}
  {
    if events != [] && e.createdAt < events[0].createdAt {
      InsertAdds(e, events[1..]);
      assert events == [events[0]] + events[1..];
    }
  }

  lemma {:induction false} InsertOrders(e: Event, events: seq<Event>)
    requires NewestFirst(events)
    ensures NewestFirst(Insert(e, events))
  {
    if events != [] && e.createdAt < events[0].createdAt {
      var rest := Insert(e, events[1..]);
      InsertOrders(e, events[1..]);
      InsertAdds(e, events[1..]);
      forall i | 0 <= i < |rest| ensures events[0].createdAt >= rest[i].createdAt {
        assert rest[i] in multiset(rest);
        assert rest[i] == e || rest[i] in events[1..];
      }
    }
  }

  lemma {:induction false} Deliverable(list: seq<Event>) returns (events: seq<Event>)
    ensures IsDelivery(events, list)
  {
    events := [];
    if list != [] {
      var rest := Deliverable(list[1..]);
      InsertAdds(list[0], rest);
      InsertOrders(list[0], rest);
      events := Insert(list[0], rest);
      assert list == [list[0]] + list[1..];
    }
  }

  lemma {:induction false} InsertedIsNewest(e: Event, events: seq<Event>, j: JobId)
    requires IsOutcome(e, j) && forall o :: o in events && IsOutcome(o, j) ==> o.createdAt <= e.createdAt
    ensures Newest(Outcomes(Insert(e, events), j)) == Some(e)
  {
    if events == [] || e.createdAt >= events[0].createdAt {
      NewestWhenFirst(e, events, j);
    } else {
      assert events[0] in events && !IsOutcome(events[0], j);
      InsertedIsNewest(e, events[1..], j);
      var inserted := Insert(e, events);
      assert inserted[0] == events[0] && inserted[1..] == Insert(e, events[1..]);
      assert Outcomes(inserted, j) == Outcomes(inserted[1..], j);
    }
  }

  lemma DeliverableWithout(list: seq<Event>, i: nat) returns (rest: seq<Event>)
    requires i < |list|
    ensures NewestFirst(rest) && multiset(rest) + multiset{list[i]} == multiset(list)
    ensures forall o :: o in rest ==> o in list
  {
    assert list == list[..i] + [list[i]] + list[i + 1..];
    rest := Deliverable(list[..i] + list[i + 1..]);
    SameMembers(rest, list[..i] + list[i + 1..]);
  }

  /** ... and each of them is shown in some delivery of the list. */
  lemma AnyNewestCanBeShown(list: seq<Event>, e: Event, j: JobId) returns (events: seq<Event>)
    requires IsNewestOutcome(list, e, j) && e.payload.status.Known?
    ensures IsDelivery(events, list) && ShownFor(events, j) == ShownStatus(e.payload.status.status)
  {
    var i :| 0 <= i < |list| && list[i] == e;
    var rest := DeliverableWithout(list, i);
    InsertAdds(e, rest);
    InsertOrders(e, rest);
    InsertedIsNewest(e, rest, j);
    events := Insert(e, rest);
  }

  lemma SameMembers(events: seq<Event>, list: seq<Event>)
    requires multiset(events) == multiset(list)
    ensures forall e :: e in events <==> e in list
  {
    forall e ensures e in events <==> e in list {
      assert e in events <==> e in multiset(events);
      assert e in list <==> e in multiset(list);
    }
  }

  /** Every delivery of a list shows the status exactly if every newest outcome of the job in it carries it, and it is
      saved when the list has none. */
  lemma EveryDeliveryShowsIff(list: seq<Event>, j: JobId, status: Status)
    requires forall e :: e in list ==> WellFormed(e)
    ensures (forall events :: IsDelivery(events, list) ==> ShownFor(events, j) == ShownStatus(status)) <==>
              && (forall e :: IsNewestOutcome(list, e, j) ==> e.payload.status == Known(status))
              && (LastOutcome(list, j).None? ==> status == Saved)
  {
    forall events | IsDelivery(events, list)
      ensures LastOutcome(list, j).None? ==> ShownFor(events, j) == ShownStatus(Saved)
      ensures LastOutcome(list, j).Some?
              && (forall e :: IsNewestOutcome(list, e, j) ==> e.payload.status == Known(status)) ==>
                ShownFor(events, j) == ShownStatus(status)
    {
      SameMembers(events, list);
      ShownIsNewest(list, events, j);
    }
    var some := Deliverable(list);
    if e :| IsNewestOutcome(list, e, j) && e.payload.status != Known(status) {
      var events := AnyNewestCanBeShown(list, e, j);
    }
  }

  /** Exactly when the job's own feedback can be relied on although creation times may tie: every delivery shows the
      stored status if and only if every newest outcome of the job carries it. */
  lemma EveryScanAgreesIff(ops: seq<Op>, drafter: Drafter, j: JobId)
    requires j in Run(ops, drafter).statuses
    ensures var s := Run(ops, drafter);
            var stored := s.statuses[j];
            (forall events :: IsDelivery(events, JobList(s.log, j)) ==> ShownFor(events, j) == ShownStatus(stored)) <==>
            (forall e :: IsNewestOutcome(s.log, e, j) ==> e.payload.status == Known(stored))
  {
    var s := Run(ops, drafter);
    var list := JobList(s.log, j);
    StatusIsFold(ops, drafter);
    LogIsWellFormed(ops, drafter);
    OnlyWhereHas(s.log, OfJob(j));
    forall e ensures IsNewestOutcome(list, e, j) <==> IsNewestOutcome(s.log, e, j) {}
    NoneInBoth(s.log, list, j);
    EveryDeliveryShowsIff(list, j, s.statuses[j]);
  }

  lemma NoneInBoth(log: seq<Event>, list: seq<Event>, j: JobId)
    requires forall e :: IsOutcome(e, j) ==> (e in list <==> e in log)
    ensures LastOutcome(log, j).None? <==> LastOutcome(list, j).None?
  {
    var i := LastOutcomeIs(log, j);
    var k := LastOutcomeIs(list, j);
  }

  /** The same for one profile's feedback: each of the profile's newest outcomes of the job carries the stored status,
      and without any the stored status is saved. */
  lemma EveryProfileScanAgreesIff(ops: seq<Op>, drafter: Drafter, j: JobId, p: ProfileId)
    requires j in Run(ops, drafter).statuses
    ensures var s := Run(ops, drafter);
            var list, stored := ProfileList(s.log, p), s.statuses[j];
            (forall events :: IsDelivery(events, list) ==> ShownFor(events, j) == ShownStatus(stored)) <==>
            && (forall e :: IsNewestOutcome(list, e, j) ==> e.payload.status == Known(stored))
            && (LastOutcome(list, j).None? ==> stored == Saved)
  {
    var s := Run(ops, drafter);
    LogIsWellFormed(ops, drafter);
    OnlyWhereHas(s.log, OfProfile(p));
    EveryDeliveryShowsIff(ProfileList(s.log, p), j, s.statuses[j]);
  }
}
