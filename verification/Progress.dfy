/** The improvement tracker kept in a job's metadata: steps that are marked done, a baseline taken when
    suggestions are applied, and the one re-measurement that follows. Scores are exact reals. */
module Progress {
  import opened Options

  datatype Scalar = Null | Bool(b: bool) | Number(x: real) | Text(s: string) | Other(truthy: bool)

  datatype Key =
    | Completed | CompletedAt | BaselineAnalysisId | BaselineScore | BaselineGapCount | SuggestionsAppliedAt
    | SuggestionsCount | AwaitingReanalysis | RemeasuredAt | RemeasuredAnalysisId | RemeasuredScore | ScoreDelta
    | RemeasuredGapCount | OtherKey(name: string)

  type Fields = map<Key, Scalar>

  datatype StepEntry = Dict(fields: Fields) | NotADict(value: Scalar)

  /** The value under a metadata key: a dictionary of steps, or anything else. */
  datatype MetaValue = Steps(steps: map<string, StepEntry>) | Opaque(raw: string)

  type Metadata = map<string, MetaValue>

  /** float(s) for a string; None when it raises. */
  type Float = string -> Option<real>

  const APPLICATION_PROGRESS_KEY := "application_progress"
  const STEP_RESUME := "resume"

  predicate Truthy(v: Scalar) {
    match v
    case Null => false
    case Bool(b) => b
    case Number(x) => x != 0.0
    case Text(s) => s != ""
    case Other(truthy) => truthy
  }

  /** float(v); None when it raises. */
  function NumberOf(v: Scalar, float: Float): Option<real> {
    match v
    case Number(x) => Some(x)
    case Bool(b) => Some(if b then 1.0 else 0.0)
    case Text(s) => float(s)
    case _ => None
  }

  function Get(fields: Fields, key: Key): Scalar {
    if key in fields then fields[key] else Null
  }

  function ProgressOf(metadata: Metadata): map<string, StepEntry> {
    if APPLICATION_PROGRESS_KEY in metadata && metadata[APPLICATION_PROGRESS_KEY].Steps?
    then metadata[APPLICATION_PROGRESS_KEY].steps else map[]
  }

  function WithProgress(metadata: Metadata, progress: map<string, StepEntry>): Metadata {
    metadata[APPLICATION_PROGRESS_KEY := Steps(progress)]
  }

  function WithStep(metadata: Metadata, step: string, fields: Fields): Metadata {
    WithProgress(metadata, ProgressOf(metadata)[step := Dict(fields)])
  }

  /** The fields of a step, when its entry is a dictionary. */
  function StepFields(metadata: Metadata, step: string): Option<Fields> {
    var progress := ProgressOf(metadata);
    if step in progress && progress[step].Dict? then Some(progress[step].fields) else None
  }

  function IsDone(metadata: Metadata, step: string): bool {
    var progress := ProgressOf(metadata);
    if step !in progress then false
    else match progress[step]
      case Dict(fields) => Truthy(Get(fields, Completed))
      case NotADict(value) => Truthy(value)
  }

  // ---------------------------------------------------------------------------------------------
  // Rounding
  // ---------------------------------------------------------------------------------------------

  function Even(n: int): int {
    if n % 2 == 0 then n else n + 1
  }

  /** The nearest integer, the even one of two. */
  function Nearest(x: real): int {
    var down := x.Floor;
    var part := x - down as real;
    if part < 0.5 then down else if part > 0.5 then down + 1 else Even(down)
  }

  /** round(x, 1) */
  function Round1(x: real): real {
    Nearest(10.0 * x) as real / 10.0
  }

  // ---------------------------------------------------------------------------------------------
  // The operations
  // ---------------------------------------------------------------------------------------------

  /** Everything an operation is told; the times come from the clock. */
  datatype Op =
    | MarkStep(step: string, at: string)
    | MarkApplied(analysisId: string, score: real, gaps: int, suggestions: int, completedAt: string, appliedAt: string)
    | Remeasure(otherId: string, otherScore: real, otherGaps: int, measuredAt: string)

  /** The tracker's entries, if the metadata holds any. */
  ghost predicate Tracks(metadata: Metadata, steps: map<string, StepEntry>) {
    if APPLICATION_PROGRESS_KEY in metadata && metadata[APPLICATION_PROGRESS_KEY].Steps?
    then steps == metadata[APPLICATION_PROGRESS_KEY].steps else steps == map[]
  }

  /** One entry is written, and nothing else in the metadata changes. */
  ghost predicate StepWritten(before: Metadata, after: Metadata, step: string, fields: Fields) {
    exists steps :: Tracks(before, steps)
                    && after == before[APPLICATION_PROGRESS_KEY := Steps(steps[step := Dict(fields)])]
  }

  /** The fields of a step's entry, if it has one that is a dictionary. */
  ghost predicate HasFields(metadata: Metadata, step: string, fields: Fields) {
    exists steps :: Tracks(metadata, steps) && step in steps && steps[step] == Dict(fields)
  }

  lemma HasFieldsIff(metadata: Metadata, step: string, fields: Fields)
    ensures HasFields(metadata, step, fields) <==> StepFields(metadata, step) == Some(fields)
  {
    assert Tracks(metadata, ProgressOf(metadata));
  }

  lemma WithStepIsWritten(metadata: Metadata, step: string, fields: Fields)
    ensures StepWritten(metadata, WithStep(metadata, step, fields), step, fields)
  {
    assert Tracks(metadata, ProgressOf(metadata));
  }

  /** Marking adds the two completion fields to what a dictionary entry holds; any other entry gives way to them. */
  lemma MarkWrites(metadata: Metadata, step: string, at: string, float: Float)
    ensures forall fields :: HasFields(metadata, step, fields) ==>
              StepWritten(metadata, Do(metadata, MarkStep(step, at), float), step,
                          fields[Completed := Bool(true)][CompletedAt := Text(at)])
    ensures (forall fields :: !HasFields(metadata, step, fields)) ==>
              StepWritten(metadata, Do(metadata, MarkStep(step, at), float), step,
                          map[Completed := Bool(true), CompletedAt := Text(at)])
  {
    var prior := StepFields(metadata, step);
    forall fields ensures HasFields(metadata, step, fields) <==> prior == Some(fields) {
      HasFieldsIff(metadata, step, fields);
    }
    assert Marked(map[], at) == map[Completed := Bool(true), CompletedAt := Text(at)];
    WithStepIsWritten(metadata, step, Marked(if prior.Some? then prior.value else map[], at));
  }

  /** Applying suggestions replaces the resume entry by a completed one with the rounded score as its baseline. */
  lemma ApplyWrites(metadata: Metadata, op: Op, float: Float)
    requires op.MarkApplied?
    ensures StepWritten(metadata, Do(metadata, op, float), "resume",
                        map[Completed := Bool(true), CompletedAt := Text(op.completedAt),
                            BaselineAnalysisId := Text(op.analysisId), BaselineScore := Number(Round1(op.score)),
                            BaselineGapCount := Number(op.gaps as real), SuggestionsAppliedAt := Text(op.appliedAt),
                            SuggestionsCount := Number(op.suggestions as real), AwaitingReanalysis := Bool(true)])
  {
    WithStepIsWritten(metadata, STEP_RESUME, Baseline(op));
    assert Baseline(op) ==
           map[Completed := Bool(true), CompletedAt := Text(op.completedAt),
               BaselineAnalysisId := Text(op.analysisId), BaselineScore := Number(Round1(op.score)),
               BaselineGapCount := Number(op.gaps as real), SuggestionsAppliedAt := Text(op.appliedAt),
               SuggestionsCount := Number(op.suggestions as real), AwaitingReanalysis := Bool(true)];
  }

  /** The entry waits for an analysis other than the baseline's own, and has a baseline score. */
  ghost predicate Waits(fields: Fields, otherId: string) {
    && AwaitingReanalysis in fields && Truthy(fields[AwaitingReanalysis])
    && !(BaselineAnalysisId in fields && fields[BaselineAnalysisId] == Text(otherId))
    && BaselineScore in fields && fields[BaselineScore] != Null
  }

  /** float() reads the value as x: a number is itself, a boolean is 1 or 0, a text is parsed. */
  ghost predicate ReadsAs(v: Scalar, float: Float, x: real) {
    || v == Number(x) || (v == Bool(true) && x == 1.0) || (v == Bool(false) && x == 0.0)
    || (v.Text? && float(v.s) == Some(x))
  }

  lemma ReadsAsIff(v: Scalar, float: Float, x: real)
    ensures ReadsAs(v, float, x) <==> NumberOf(v, float) == Some(x)
  {
  }

  lemma WaitsIff(fields: Fields, op: Op)
    requires op.Remeasure?
    ensures Guarded(fields, op) <==> Waits(fields, op.otherId)
  {
  }

  /** What a re-measurement does: it is recorded where the resume entry waits and its baseline reads as a number,
      it raises where it waits and the baseline does not, and otherwise it is ignored. */
  lemma RemeasureWrites(metadata: Metadata, op: Op, float: Float)
    requires op.Remeasure?
    ensures forall fields, x :: HasFields(metadata, "resume", fields) && Waits(fields, op.otherId)
                                && ReadsAs(fields[BaselineScore], float, x) ==>
              StepWritten(metadata, Do(metadata, op, float), "resume",
                          fields[AwaitingReanalysis := Bool(false)][RemeasuredAt := Text(op.measuredAt)]
                                [RemeasuredAnalysisId := Text(op.otherId)]
                                [RemeasuredScore := Number(Round1(op.otherScore))]
                                [ScoreDelta := Number(Round1(op.otherScore - x))]
                                [RemeasuredGapCount := Number(op.otherGaps as real)])
    ensures (forall fields, x :: HasFields(metadata, "resume", fields) && Waits(fields, op.otherId) ==>
               !ReadsAs(fields[BaselineScore], float, x)) ==>
              Do(metadata, op, float) == metadata
    ensures Raises(metadata, op, float) <==>
              exists fields :: HasFields(metadata, "resume", fields) && Waits(fields, op.otherId)
                               && forall x :: !ReadsAs(fields[BaselineScore], float, x)
  {
    var resume := StepFields(metadata, STEP_RESUME);
    forall fields ensures HasFields(metadata, "resume", fields) <==> resume == Some(fields) {
      HasFieldsIff(metadata, "resume", fields);
    }
    if resume.Some? {
      WaitsIff(resume.value, op);
      var baseline := Get(resume.value, BaselineScore);
      forall x ensures ReadsAs(baseline, float, x) <==> NumberOf(baseline, float) == Some(x) {
        ReadsAsIff(baseline, float, x);
      }
      if Records(resume.value, op, float) {
        WithStepIsWritten(metadata, STEP_RESUME, Remeasured(resume.value, op, float));
        assert ReadsAs(baseline, float, NumberOf(baseline, float).value);
      }
    }
  }

  method MarkApplicationStep(raw: Option<Metadata>, step: string, at: string) returns (metadata: Metadata)
    ensures Start(raw) == if raw.Some? then raw.value else map[]
    ensures forall float :: metadata == Do(Start(raw), MarkStep(step, at), float)
  {
    metadata := Start(raw);
    var progress := ProgressOf(metadata);
    var entry: Fields := map[Completed := Bool(true), CompletedAt := Text(at)];
    if step in progress && progress[step].Dict? {
      entry := progress[step].fields + entry;
      assert entry == Marked(progress[step].fields, at);
    }
    progress := progress[step := Dict(entry)];
    metadata := metadata[APPLICATION_PROGRESS_KEY := Steps(progress)];
  }

  method MarkResumeApplied(raw: Option<Metadata>, analysisId: string, score: real, gaps: int, suggestions: int,
                           completedAt: string, appliedAt: string) returns (metadata: Metadata)
    ensures Start(raw) == if raw.Some? then raw.value else map[]
    ensures forall float ::
              var op := MarkApplied(analysisId, score, gaps, suggestions, completedAt, appliedAt);
              metadata == Do(Start(raw), op, float)
  {
    metadata := Start(raw);
    var progress := ProgressOf(metadata);
    progress := progress[STEP_RESUME := Dict(map[
      Completed := Bool(true), CompletedAt := Text(completedAt), BaselineAnalysisId := Text(analysisId),
      BaselineScore := Number(Round1(score)), BaselineGapCount := Number(gaps as real),
      SuggestionsAppliedAt := Text(appliedAt), SuggestionsCount := Number(suggestions as real),
      AwaitingReanalysis := Bool(true)])];
    metadata := metadata[APPLICATION_PROGRESS_KEY := Steps(progress)];
  }

  /** Raises when the baseline is there but does not read as a number; the request then changes nothing. */
  method RecordMatchRemeasurement(raw: Option<Metadata>, analysisId: string, score: real, gaps: int, at: string,
                                  float: Float) returns (metadata: Metadata, raised: bool)
    ensures var start := if raw.Some? then raw.value else map[];
            && metadata == Do(start, Remeasure(analysisId, score, gaps, at), float)
            && (raised <==> Raises(start, Remeasure(analysisId, score, gaps, at), float))
  {
    metadata, raised := Start(raw), false;
    var progress := ProgressOf(metadata);
    if STEP_RESUME !in progress || !progress[STEP_RESUME].Dict? {
      return;
    }
    var resume := progress[STEP_RESUME].fields;
    if !Truthy(Get(resume, AwaitingReanalysis)) {
      return;
    }
    var baselineScore := Get(resume, BaselineScore);
    if Get(resume, BaselineAnalysisId) == Text(analysisId) || baselineScore.Null? {
      return;
    }
    resume := resume[AwaitingReanalysis := Bool(false)];
    resume := resume[RemeasuredAt := Text(at)];
    resume := resume[RemeasuredAnalysisId := Text(analysisId)];
    resume := resume[RemeasuredScore := Number(Round1(score))];
    var baseline := NumberOf(baselineScore, float);
    if baseline.None? {
      raised := true;
      return;
    }
    resume := resume[ScoreDelta := Number(Round1(score - baseline.value))];
    resume := resume[RemeasuredGapCount := Number(gaps as real)];
    progress := progress[STEP_RESUME := Dict(resume)];
    metadata := metadata[APPLICATION_PROGRESS_KEY := Steps(progress)];
  }

  function Start(raw: Option<Metadata>): Metadata {
    if raw.Some? then raw.value else map[]
  }

  function Marked(fields: Fields, at: string): Fields {
    fields[Completed := Bool(true)][CompletedAt := Text(at)]
  }

  function Baseline(op: Op): Fields
    requires op.MarkApplied?
  {
    Marked(map[], op.completedAt)
      [BaselineAnalysisId := Text(op.analysisId)][BaselineScore := Number(Round1(op.score))]
      [BaselineGapCount := Number(op.gaps as real)][SuggestionsAppliedAt := Text(op.appliedAt)]
      [SuggestionsCount := Number(op.suggestions as real)][AwaitingReanalysis := Bool(true)]
  }

  /** The three guards. */
  predicate Guarded(fields: Fields, op: Op)
    requires op.Remeasure?
  {
    && Truthy(Get(fields, AwaitingReanalysis))
    && Get(fields, BaselineAnalysisId) != Text(op.otherId)
    && !Get(fields, BaselineScore).Null?
  }

  predicate Records(fields: Fields, op: Op, float: Float)
    requires op.Remeasure?
  {
    Guarded(fields, op) && NumberOf(Get(fields, BaselineScore), float).Some?
  }

  predicate Raises(metadata: Metadata, op: Op, float: Float)
    requires op.Remeasure?
  {
    var fields := StepFields(metadata, STEP_RESUME);
    fields.Some? && Guarded(fields.value, op) && NumberOf(Get(fields.value, BaselineScore), float).None?
  }

  function Remeasured(fields: Fields, op: Op, float: Float): Fields
    requires op.Remeasure? && Records(fields, op, float)
  {
    fields
      [AwaitingReanalysis := Bool(false)][RemeasuredAt := Text(op.measuredAt)][RemeasuredAnalysisId := Text(op.otherId)]
      [RemeasuredScore := Number(Round1(op.otherScore))]
      [ScoreDelta := Number(Round1(op.otherScore - NumberOf(Get(fields, BaselineScore), float).value))]
      [RemeasuredGapCount := Number(op.otherGaps as real)]
  }

  /** An operation that raises leaves the stored metadata as it is. */
  function Do(metadata: Metadata, op: Op, float: Float): Metadata {
    match op
    case MarkStep(step, at) =>
      var fields := StepFields(metadata, step);
      WithStep(metadata, step, Marked(if fields.Some? then fields.value else map[], at))
    case MarkApplied(_, _, _, _, _, _) => WithStep(metadata, STEP_RESUME, Baseline(op))
    case Remeasure(_, _, _, _) =>
      var fields := StepFields(metadata, STEP_RESUME);
      if fields.Some? && Records(fields.value, op, float)
      then WithStep(metadata, STEP_RESUME, Remeasured(fields.value, op, float)) else metadata
  }

  function DoAll(metadata: Metadata, ops: seq<Op>, float: Float): Metadata {
    if ops == [] then metadata else Do(DoAll(metadata, ops[..|ops| - 1], float), ops[|ops| - 1], float)
  }

  // ---------------------------------------------------------------------------------------------
  // What every operation keeps
  // ---------------------------------------------------------------------------------------------

  /** Only the tracker's own key is ever written. */
  lemma {:induction false} OtherKeysUntouched(metadata: Metadata, ops: seq<Op>, float: Float, key: string)
    requires key != APPLICATION_PROGRESS_KEY
    ensures key in DoAll(metadata, ops, float) <==> key in metadata
    ensures key in metadata ==> DoAll(metadata, ops, float)[key] == metadata[key]
  {
    if ops != [] {
      OtherKeysUntouched(metadata, ops[..|ops| - 1], float, key);
    }
  }

  lemma StepAfter(metadata: Metadata, step: string, fields: Fields, other: string)
    ensures StepFields(WithStep(metadata, step, fields), step) == Some(fields)
    ensures IsDone(WithStep(metadata, step, fields), step) == Truthy(Get(fields, Completed))
    ensures other != step ==> StepFields(WithStep(metadata, step, fields), other) == StepFields(metadata, other)
    ensures other != step ==> IsDone(WithStep(metadata, step, fields), other) == IsDone(metadata, other)
  {
  }

  lemma DoKeepsDone(metadata: Metadata, op: Op, float: Float, step: string)
    requires IsDone(metadata, step)
    ensures IsDone(Do(metadata, op, float), step)
  {
    match op
    case MarkStep(s, at) =>
      var fields := StepFields(metadata, s);
      StepAfter(metadata, s, Marked(if fields.Some? then fields.value else map[], at), step);
    case MarkApplied(_, _, _, _, _, _) => StepAfter(metadata, STEP_RESUME, Baseline(op), step);
    case Remeasure(_, _, _, _) =>
      var fields := StepFields(metadata, STEP_RESUME);
      if fields.Some? && Records(fields.value, op, float) {
        StepAfter(metadata, STEP_RESUME, Remeasured(fields.value, op, float), step);
      }
  }

  /** A step that is done stays done, from any metadata and over any run. */
  lemma {:induction false} DoneStaysDone(metadata: Metadata, ops: seq<Op>, float: Float, step: string)
    requires IsDone(metadata, step)
    ensures IsDone(DoAll(metadata, ops, float), step)
  {
    if ops != [] {
      DoneStaysDone(metadata, ops[..|ops| - 1], float, step);
      DoKeepsDone(DoAll(metadata, ops[..|ops| - 1], float), ops[|ops| - 1], float, step);
    }
  }

  /** A step that was marked, or whose suggestions were applied, is done at the end of the run. */
  lemma {:induction false} MarkedIsDone(metadata: Metadata, ops: seq<Op>, float: Float, k: nat, step: string)
    requires k < |ops| && ((ops[k].MarkStep? && ops[k].step == step) || (ops[k].MarkApplied? && step == STEP_RESUME))
    ensures IsDone(DoAll(metadata, ops, float), step)
  {
    var n := |ops| - 1;
    var before := DoAll(metadata, ops[..n], float);
    if k < n {
      MarkedIsDone(metadata, ops[..n], float, k, step);
      DoKeepsDone(before, ops[n], float, step);
    } else if ops[n].MarkStep? {
      var fields := StepFields(before, step);
      StepAfter(before, step, Marked(if fields.Some? then fields.value else map[], ops[n].at), step);
    } else {
      StepAfter(before, STEP_RESUME, Baseline(ops[n]), step);
    }
  }

  // ---------------------------------------------------------------------------------------------
  // The measuring state machine
  // ---------------------------------------------------------------------------------------------

  /** What the resume entry says about measuring. */
  datatype Phase =
    | Idle
    | Awaiting(baselineId: string, baseline: real, baseGaps: real)
    | Measured(id: string, base: real, baseGapCount: real, otherId: string, score: real, delta: real, gaps: real)

  function PhaseStep(phase: Phase, op: Op): Phase {
    match op
    case MarkStep(_, _) => phase
    case MarkApplied(id, score, gaps, _, _, _) => Awaiting(id, Round1(score), gaps as real)
    case Remeasure(id, score, gaps, _) =>
      if phase.Awaiting? && phase.baselineId != id
      then Measured(phase.baselineId, phase.baseline, phase.baseGaps, id, Round1(score),
                    Round1(score - phase.baseline), gaps as real)
      else phase
  }

  function PhaseOf(phase: Phase, ops: seq<Op>): Phase {
    if ops == [] then phase else PhaseStep(PhaseOf(phase, ops[..|ops| - 1]), ops[|ops| - 1])
  }

  predicate NoneOf(fields: Fields, keys: set<Key>) {
    forall k :: k in keys ==> k !in fields
  }

  const REMEASURED_KEYS: set<Key> :=
    {RemeasuredAt, RemeasuredAnalysisId, RemeasuredScore, ScoreDelta, RemeasuredGapCount}
  const BASELINE_KEYS: set<Key> :=
    {BaselineAnalysisId, BaselineScore, BaselineGapCount, SuggestionsAppliedAt, SuggestionsCount, AwaitingReanalysis}

  predicate HasBaseline(fields: Fields, id: string, score: real, gaps: real, awaiting: bool) {
    && Get(fields, BaselineAnalysisId) == Text(id) && Get(fields, BaselineScore) == Number(score)
    && Get(fields, BaselineGapCount) == Number(gaps) && Get(fields, AwaitingReanalysis) == Bool(awaiting)
  }

  /** The resume entry represents the phase. */
  predicate FieldsShow(fields: Fields, phase: Phase) {
    match phase
    case Idle => NoneOf(fields, REMEASURED_KEYS) && NoneOf(fields, BASELINE_KEYS)
    case Awaiting(id, score, gaps) => HasBaseline(fields, id, score, gaps, true) && NoneOf(fields, REMEASURED_KEYS)
    case Measured(id, base, baseGaps, otherId, score, delta, gaps) =>
      && HasBaseline(fields, id, base, baseGaps, false)
      && Get(fields, RemeasuredAnalysisId) == Text(otherId) && Get(fields, RemeasuredScore) == Number(score)
      && Get(fields, ScoreDelta) == Number(delta) && Get(fields, RemeasuredGapCount) == Number(gaps)
  }

  predicate Shows(metadata: Metadata, phase: Phase) {
    var fields := StepFields(metadata, STEP_RESUME);
    if fields.Some? then FieldsShow(fields.value, phase) else phase.Idle?
  }

  lemma MarkShows(fields: Fields, at: string, phase: Phase)
    requires FieldsShow(fields, phase)
    ensures FieldsShow(Marked(fields, at), phase)
  {
    var r := Marked(fields, at);
    assert forall k :: k in REMEASURED_KEYS || k in BASELINE_KEYS ==>
             Get(r, k) == Get(fields, k) && (k in r <==> k in fields);
  }

  lemma ApplyShows(op: Op)
    requires op.MarkApplied?
    ensures FieldsShow(Baseline(op), PhaseStep(Idle, op))
  {
  }

  lemma RemeasureShows(fields: Fields, op: Op, float: Float, phase: Phase)
    requires op.Remeasure? && FieldsShow(fields, phase)
    ensures Records(fields, op, float) <==> phase.Awaiting? && phase.baselineId != op.otherId
    ensures Records(fields, op, float) ==> FieldsShow(Remeasured(fields, op, float), PhaseStep(phase, op))
  {
  }

  lemma DoShows(metadata: Metadata, op: Op, float: Float, phase: Phase)
    requires Shows(metadata, phase)
    ensures Shows(Do(metadata, op, float), PhaseStep(phase, op))
  {
    var fields := StepFields(metadata, STEP_RESUME);
    match op
    case MarkStep(step, at) =>
      var prior := StepFields(metadata, step);
      var marked := Marked(if prior.Some? then prior.value else map[], at);
      StepAfter(metadata, step, marked, STEP_RESUME);
      if step == STEP_RESUME {
        MarkShows(if fields.Some? then fields.value else map[], at, phase);
      }
    case MarkApplied(_, _, _, _, _, _) =>
      StepAfter(metadata, STEP_RESUME, Baseline(op), STEP_RESUME);
      ApplyShows(op);
    case Remeasure(_, _, _, _) =>
      if fields.Some? {
        RemeasureShows(fields.value, op, float, phase);
        if Records(fields.value, op, float) {
          StepAfter(metadata, STEP_RESUME, Remeasured(fields.value, op, float), STEP_RESUME);
        }
      }
  }

  /** From empty metadata, the stored entry shows exactly the state machine's phase: awaiting goes with a
      baseline and without any re-measured field, and marking a step again keeps the baseline. */
  lemma {:induction false} RunShowsPhase(ops: seq<Op>, float: Float)
    ensures Shows(DoAll(map[], ops, float), PhaseOf(Idle, ops))
  {
    if ops != [] {
      RunShowsPhase(ops[..|ops| - 1], float);
      DoShows(DoAll(map[], ops[..|ops| - 1], float), ops[|ops| - 1], float, PhaseOf(Idle, ops[..|ops| - 1]));
    }
  }

  /** So over every run from empty metadata, no re-measurement raises. */
  lemma {:induction false} RunNeverRaises(ops: seq<Op>, op: Op, float: Float)
    requires op.Remeasure?
    ensures !Raises(DoAll(map[], ops, float), op, float)
  {
    RunShowsPhase(ops, float);
  }

  /** The first analysis in the list that is not the baseline's own. */
  function FirstOther(ops: seq<Op>, id: string): Option<Op> {
    if ops == [] then None else
      var before := FirstOther(ops[..|ops| - 1], id);
      var last := ops[|ops| - 1];
      if before.None? && last.Remeasure? && last.otherId != id then Some(last) else before
  }

  /** After an apply, until the next one: the first analysis other than the baseline's is recorded, all later
      ones are ignored, and without one the tracker keeps waiting. */
  lemma {:induction false} FirstOtherIsRecorded(ops: seq<Op>, start: Phase)
    requires start.Awaiting? && forall k :: 0 <= k < |ops| ==> !ops[k].MarkApplied?
    ensures var first := FirstOther(ops, start.baselineId);
            && (first.Some? ==> first.value.Remeasure? && first.value.otherId != start.baselineId)
            && PhaseOf(start, ops) == if first.Some? then PhaseStep(start, first.value) else start
  {
    if ops != [] {
      FirstOtherIsRecorded(ops[..|ops| - 1], start);
    }
  }

  lemma {:induction false} PhaseConcat(phase: Phase, a: seq<Op>, b: seq<Op>)
    ensures PhaseOf(phase, a + b) == PhaseOf(PhaseOf(phase, a), b)
    decreases |b|
  {
    if b == [] {
      assert a + b == a;
    } else {
      assert (a + b)[..|a + b| - 1] == a + b[..|b| - 1];
      PhaseConcat(phase, a, b[..|b| - 1]);
    }
  }

  /** The same on the stored metadata: whatever happened before the last apply is forgotten. */
  lemma LastApplyDecides(before: seq<Op>, apply: Op, after: seq<Op>, float: Float)
    requires apply.MarkApplied? && forall k :: 0 <= k < |after| ==> !after[k].MarkApplied?
    ensures var start := PhaseStep(Idle, apply);
            var first := FirstOther(after, apply.analysisId);
            Shows(DoAll(map[], before + [apply] + after, float),
                  if first.Some? then PhaseStep(start, first.value) else start)
  {
    RunShowsPhase(before + [apply] + after, float);
    PhaseConcat(Idle, before + [apply], after);
    PhaseConcat(Idle, before, [apply]);
    assert [apply][..0] == [];
    assert PhaseOf(PhaseOf(Idle, before), [apply]) == PhaseStep(Idle, apply);
    FirstOtherIsRecorded(after, PhaseStep(Idle, apply));
  }

  // ---------------------------------------------------------------------------------------------
  // The recorded delta
  // ---------------------------------------------------------------------------------------------

  lemma NearestShift(x: real, n: int)
    ensures Nearest(x - n as real) == Nearest(x) - n
            || (n % 2 != 0 && x - x.Floor as real == 0.5
                && Nearest(x - n as real) == if x.Floor % 2 == 0 then Nearest(x) - n + 1 else Nearest(x) - n - 1)
    ensures Nearest(x - n as real) != Nearest(x) - n <==> n % 2 != 0 && x - x.Floor as real == 0.5
  {
    var y := x - n as real;
    FloorIs(y, x.Floor - n);
    assert y - y.Floor as real == x - x.Floor as real;
    Parity(x.Floor, n);
  }

  lemma Parity(a: int, n: int)
    ensures n % 2 == 0 ==> (a - n) % 2 == a % 2
    ensures n % 2 != 0 ==> (a - n) % 2 != a % 2
    ensures Even(a - n) == Even(a) - n <==> n % 2 == 0
    ensures n % 2 != 0 ==> Even(a - n) == if a % 2 == 0 then a - n + 1 else a - n
  {
  }

  lemma FloorIs(y: real, k: int)
    requires k as real <= y < k as real + 1.0
    ensures y.Floor == k
  {
  }

  /** The stored delta against the difference of the two stored scores: never more than a tenth away, and
      equal unless the new score lies exactly between two tenths and the baseline is an odd number of them. */
  lemma DeltaWithinATenth(baselineScore: real, score: real)
    ensures var base, measured := Round1(baselineScore), Round1(score);
            var delta := Round1(score - base);
            && -0.1 <= delta - (measured - base) <= 0.1
            && (delta != measured - base <==>
                  Nearest(10.0 * baselineScore) % 2 != 0 && 10.0 * score - (10.0 * score).Floor as real == 0.5)
  {
    var n := Nearest(10.0 * baselineScore);
    assert 10.0 * (score - Round1(baselineScore)) == 10.0 * score - n as real;
    NearestShift(10.0 * score, n);
  }

  /** Every recorded delta in every run. */
  lemma {:induction false} RecordedDeltaWithinATenth(ops: seq<Op>)
    ensures var phase := PhaseOf(Idle, ops);
            && (phase.Measured? ==> -0.1 <= phase.delta - (phase.score - phase.base) <= 0.1)
            && (phase.Awaiting? ==> exists s :: phase.baseline == Round1(s))
  {
    if ops != [] {
      RecordedDeltaWithinATenth(ops[..|ops| - 1]);
      var before, op := PhaseOf(Idle, ops[..|ops| - 1]), ops[|ops| - 1];
      if before.Awaiting? && op.Remeasure? {
        var s :| before.baseline == Round1(s);
        DeltaWithinATenth(s, op.otherScore);
      }
    }
  }

  /** round(x, 1) is a number of tenths nearest to x, the even one of two. */
  lemma Round1IsNearestTenth(x: real) returns (tenths: int)
    ensures Round1(x) == tenths as real / 10.0
    ensures tenths as real - 0.5 <= 10.0 * x <= tenths as real + 0.5
    ensures 10.0 * x == tenths as real - 0.5 || 10.0 * x == tenths as real + 0.5 ==> tenths % 2 == 0
  {
    tenths := Nearest(10.0 * x);
    var down := (10.0 * x).Floor;
    assert down as real <= 10.0 * x < down as real + 1.0;
  }
}
