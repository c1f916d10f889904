/** The rows behind the Radar feed: watched companies, postings and jobs, and every step that writes them.
    A request is one step. A poll is three: it stores and commits, it reads the rows to be screened, and,
    after the LLM calls, it writes the scores and finalises; other steps may come in between. */
module RadarFeed {
  import opened Options
  import opened JobUrl
  import opened RadarScreening

  type ProfileId = nat
  type CompanyId = nat
  type PostingId = nat
  type JobId = nat
  type TaskId = nat
  type Time = int

  /** settings.radar_screen_limit_per_poll */
  const SCREEN_LIMIT_PER_POLL: nat := 20

  datatype CompanyStatus = Active | Paused | Failed | Unresolved

  /** board stands for the pair of provider and token. */
  datatype Company = Company(profile: ProfileId, board: string, status: CompanyStatus, lastPolled: Option<Time>)

  datatype Advert = Advert(title: string, location: Option<string>, url: Option<string>)

  /** One role as a board advertises it. */
  datatype Item = Item(externalId: string, advert: Advert, description: string)

  datatype Posting = Posting(
    company: CompanyId,
    profile: ProfileId,
    externalId: string,
    advert: Advert,
    description: string,
    state: PostingState,
    score: Option<int>,
    reason: Option<string>,
    job: Option<JobId>,
    firstSeen: Time,
    lastSeen: Time)

  /** origin is the posting whose promotion made the job; it is not a column. */
  datatype Job = Job(url: Option<string>, origin: Option<PostingId>)

  /** What a poll holds through the LLM calls: its company, the rows it has read for screening, and the status the
      company had when it was claimed. */
  datatype Snapshot = Snapshot(company: CompanyId, order: seq<PostingId>, held: CompanyStatus)

  /** Ids are never handed out twice. */
  datatype Feed = Feed(
    companies: map<CompanyId, Company>,
    postings: map<PostingId, Posting>,
    jobs: map<JobId, Job>,
    snapshots: map<TaskId, Snapshot>,
    nextCompany: CompanyId,
    nextPosting: PostingId,
    nextJob: JobId)

  predicate Truthy(text: Option<string>) {
    text.Some? && text.value != ""
  }

  // ---------------------------------------------------------------------------------------------
  // Storing what a poll fetched
  // ---------------------------------------------------------------------------------------------

  function Known(s: Feed, c: CompanyId): set<string> {
    set p | p in s.postings && s.postings[p].company == c :: s.postings[p].externalId
  }

  /** The incoming items that have no row yet. */
  function Fresh(items: seq<Item>, known: set<string>): seq<Item> {
    if items == [] then [] else
      var last := items[|items| - 1];
      Fresh(items[..|items| - 1], known) + if last.externalId in known then [] else [last]
  }

  function Touch(row: Posting, item: Item, now: Time): Posting {
    if item.externalId != row.externalId then row
    else row.(lastSeen := now, advert := Readvertised(row.advert, item.advert))
  }

  /** A missing or empty URL does not overwrite the one on the row. */
  function Readvertised(prior: Advert, latest: Advert): Advert {
    if Truthy(latest.url) then latest else latest.(url := prior.url)
  }

  function Refreshed(row: Posting, items: seq<Item>, now: Time): Posting {
    if items == [] then row else Touch(Refreshed(row, items[..|items| - 1], now), items[|items| - 1], now)
  }

  function NewRow(c: CompanyId, profile: ProfileId, item: Item, now: Time): Posting {
    Posting(c, profile, item.externalId, item.advert, item.description, New, None, None, None, now, now)
  }

  predicate HandedOut(p: PostingId, first: PostingId, n: nat) {
    first <= p < first + n
  }

  function IdsFrom(first: PostingId, n: nat): set<PostingId> {
    set p: PostingId | first <= p < first + n && HandedOut(p, first, n)
  }

  predicate DistinctIds(items: seq<Item>) {
    forall i, j :: 0 <= i < j < |items| ==> items[i].externalId != items[j].externalId
  }

  function StoredRows(s: Feed, c: CompanyId, items: seq<Item>, now: Time): map<PostingId, Posting>
    requires c in s.companies
  {
    var added := Fresh(items, Known(s, c));
    map p | p in s.postings.Keys + IdsFrom(s.nextPosting, |added|) ::
      if p in s.postings then
        if s.postings[p].company == c then Refreshed(s.postings[p], items, now) else s.postings[p]
      else NewRow(c, s.companies[c].profile, added[p - s.nextPosting], now)
  }

  /** The flush fails on the unique constraint when two fresh items share an external id, and on the
      foreign key when the company is gone. */
  predicate StoreAccepted(s: Feed, c: CompanyId, items: seq<Item>) {
    c in s.companies && DistinctIds(Fresh(items, Known(s, c)))
  }

  function Store(s: Feed, c: CompanyId, items: seq<Item>, now: Time): Feed {
    if StoreAccepted(s, c, items)
    then s.(postings := StoredRows(s, c, items, now), nextPosting := s.nextPosting + |Fresh(items, Known(s, c))|)
    else s
  }

  // ---------------------------------------------------------------------------------------------
  // Screening
  // ---------------------------------------------------------------------------------------------

  ghost predicate IsPending(s: Feed, c: CompanyId, p: PostingId) {
    p in s.postings && s.postings[p].company == c && s.postings[p].state == New
  }

  /** Every unscored posting of the company, oldest first; rows seen first at the same moment come in any order. */
  ghost predicate PendingOrder(s: Feed, c: CompanyId, order: seq<PostingId>) {
    && (forall i, j :: 0 <= i < j < |order| ==> order[i] != order[j])
    && (forall p :: p in order <==> IsPending(s, c, p))
    && (forall i, j :: 0 <= i < j < |order| && order[i] in s.postings && order[j] in s.postings ==>
          s.postings[order[i]].firstSeen <= s.postings[order[j]].firstSeen)
  }

  /** Whether the screen that read n rows scores the one at position i. Without an LLM client it scores none. */
  predicate Scores(llm: Option<Oracle>, n: nat, i: nat) {
    llm.Some? && i < n && WasScored(llm.value, MAX_CONSECUTIVE_FAILURES, ScreenedLen(n), i)
  }

  predicate ScreenCrashes(llm: Option<Oracle>, n: nat) {
    llm.Some? && CrashEnds(llm.value, Attempted(llm.value, MAX_CONSECUTIVE_FAILURES, ScreenedLen(n)))
  }

  function ScreenedLen(n: nat): nat {
    if n <= SCREEN_LIMIT_PER_POLL then n else SCREEN_LIMIT_PER_POLL
  }

  lemma ScreenedLenIsPrefix<T>(pending: seq<T>)
    ensures |Prefix(pending, SCREEN_LIMIT_PER_POLL)| == ScreenedLen(|pending|)
  {
  }

  function ScoredRow(row: Posting, reply: Reply): Posting
    requires reply.Scored?
  {
    row.(state := Screened, score := Some(reply.fitScore), reason := Some(reply.reason))
  }

  /** The writes of the first n positions of a screen. */
  function WriteScores(rows: map<PostingId, Posting>, order: seq<PostingId>, llm: Option<Oracle>,
                       n: nat): map<PostingId, Posting>
    requires n <= |order|
  {
    if n == 0 then rows else WriteScore(WriteScores(rows, order, llm, n - 1), order, llm, n - 1)
  }

  function WriteScore(rows: map<PostingId, Posting>, order: seq<PostingId>, llm: Option<Oracle>,
                      i: nat): map<PostingId, Posting>
    requires i < |order|
  {
    if Scores(llm, |order|, i) && order[i] in rows
    then rows[order[i] := ScoredRow(rows[order[i]], llm.value(i))] else rows
  }

  function BeginScreen(s: Feed, t: TaskId, c: CompanyId, order: seq<PostingId>, held: CompanyStatus): Feed {
    s.(snapshots := s.snapshots[t := Snapshot(c, order, held)])
  }

  /** The poll is cancelled, or the process stops: what it read is lost and nothing is written. */
  function Abandon(s: Feed, t: TaskId): Feed {
    s.(snapshots := s.snapshots - {t})
  }

  /** A poll that fails to fetch or to store leaves its error on the company's row. */
  function Fail(s: Feed, c: CompanyId, status: CompanyStatus, now: Time): Feed
    requires c in s.companies
  {
    s.(companies := s.companies[c := s.companies[c].(status := status, lastPolled := Some(now))])
  }

  /** What the final flush does when a scored row is gone: it raises and the whole commit is lost, or it passes
      over the row and writes the others. Which of the two depends on the database driver. */
  datatype MissingRows = CommitLost | RowsSkipped

  /** The final commit updates the company's row and every scored row that is still there. It fails when the
      company is gone, and perhaps when a scored row is. */
  ghost predicate FinishCommits(s: Feed, snapshot: Snapshot, llm: Option<Oracle>, missing: MissingRows) {
    snapshot.company in s.companies && (missing.RowsSkipped? || RowsIntact(s, snapshot.order, llm))
  }

  ghost predicate RowsIntact(s: Feed, order: seq<PostingId>, llm: Option<Oracle>) {
    forall i :: 0 <= i < |order| && Scores(llm, |order|, i) ==> order[i] in s.postings
  }

  function ScreenOutcome(llm: Option<Oracle>, n: nat): CompanyStatus {
    if ScreenCrashes(llm, n) then Failed else Active
  }

  /** The session writes a status that differs from the one it holds; otherwise what is on the row by now stays. */
  function FinalStatus(current: CompanyStatus, held: CompanyStatus, outcome: CompanyStatus): CompanyStatus {
    if outcome == held then current else outcome
  }

  ghost function FinishScreen(s: Feed, t: TaskId, llm: Option<Oracle>, now: Time, missing: MissingRows): Feed
    requires t in s.snapshots
  {
    var snapshot := s.snapshots[t];
    var c, order := snapshot.company, snapshot.order;
    var done := s.(snapshots := s.snapshots - {t});
    if !FinishCommits(s, snapshot, llm, missing) then done else
      var status := FinalStatus(s.companies[c].status, snapshot.held, ScreenOutcome(llm, |order|));
      done.(postings := WriteScores(s.postings, order, llm, |order|),
            companies := s.companies[c := s.companies[c].(status := status, lastPolled := Some(now))])
  }

  /** The companies a scheduler tick polls. */
  predicate Due(company: Company, now: Time, interval: Time) {
    company.status == Active && (company.lastPolled.None? || company.lastPolled.value <= now - interval)
  }

  // ---------------------------------------------------------------------------------------------
  // Requests
  // ---------------------------------------------------------------------------------------------

  ghost predicate BoardTaken(s: Feed, profile: ProfileId, board: string) {
    exists c :: c in s.companies && s.companies[c].profile == profile && s.companies[c].board == board
  }

  ghost function AddCompany(s: Feed, profile: ProfileId, board: string): Feed {
    if BoardTaken(s, profile, board) then s
    else s.(companies := s.companies[s.nextCompany := Company(profile, board, Active, None)],
            nextCompany := s.nextCompany + 1)
  }

  function RemoveCompany(s: Feed, c: CompanyId): Feed {
    s.(companies := s.companies - {c},
       postings := map p | p in s.postings && s.postings[p].company != c :: s.postings[p])
  }

  function Dismiss(s: Feed, p: PostingId): Feed {
    if p in s.postings then s.(postings := s.postings[p := s.postings[p].(state := Dismissed)]) else s
  }

  /** select(Job).where(Job.url == url).limit(1), which is only asked for a URL that is not empty. */
  ghost predicate Finds(s: Feed, url: Option<string>, found: Option<JobId>) {
    && (found.Some? ==> Truthy(url) && found.value in s.jobs && s.jobs[found.value].url == url)
    && (found.None? && Truthy(url) ==> forall j :: j in s.jobs ==> s.jobs[j].url != url)
  }

  function PromotedUrl(row: Posting): Option<string> {
    if Truthy(row.advert.url) then NormalizeJobUrl(row.advert.url) else None
  }

  function Linked(s: Feed, p: PostingId, j: JobId): Feed
    requires p in s.postings
  {
    s.(postings := s.postings[p := s.postings[p].(job := Some(j), state := Promoted)])
  }

  function AddJob(s: Feed, job: Job): Feed {
    s.(jobs := s.jobs[s.nextJob := job], nextJob := s.nextJob + 1)
  }

  /** structured tells whether the extraction call succeeded; a failure leaves everything as it was. */
  function Promote(s: Feed, p: PostingId, found: Option<JobId>, structured: bool): Feed {
    if p !in s.postings || s.postings[p].job.Some? then s
    else if found.Some? then Linked(s, p, found.value)
    else if !structured then s
    else Linked(AddJob(s, Job(PromotedUrl(s.postings[p]), Some(p))), p, s.nextJob)
  }

  predicate Undecided(row: Posting) {
    row.state == New || row.state == Screened
  }

  predicate Decided(row: Posting) {
    row.state == Promoted || row.state == Dismissed
  }

  function KeptRows(postings: map<PostingId, Posting>, profile: ProfileId): map<PostingId, Posting> {
    map p | p in postings && !(postings[p].profile == profile && Undecided(postings[p])) :: postings[p]
  }

  function DueAgain(companies: map<CompanyId, Company>, profile: ProfileId): map<CompanyId, Company> {
    map c | c in companies ::
      if companies[c].profile == profile && companies[c].status == Active
      then companies[c].(lastPolled := None) else companies[c]
  }

  function SetTarget(s: Feed, profile: ProfileId): Feed {
    s.(postings := KeptRows(s.postings, profile), companies := DueAgain(s.companies, profile))
  }

  /** The URL create_job stores, and the one it looks up: normalised once more. */
  function StoredUrl(url: Option<string>): Option<string> {
    if Truthy(url) then NormalizeJobUrl(url) else url
  }

  function LookedUpUrl(url: Option<string>): Option<string> {
    if Truthy(url) then NormalizeJobUrl(NormalizeJobUrl(url)) else None
  }

  function CreateJob(s: Feed, url: Option<string>, found: Option<JobId>): Feed {
    if found.Some? then s else AddJob(s, Job(StoredUrl(url), None))
  }

  /** A job that a posting refers to cannot be deleted: the foreign key forbids it. */
  ghost function DeleteJob(s: Feed, j: JobId): Feed {
    if exists p :: p in s.postings && s.postings[p].job == Some(j) then s else s.(jobs := s.jobs - {j})
  }

  // ---------------------------------------------------------------------------------------------
  // Steps
  // ---------------------------------------------------------------------------------------------

  datatype Step =
    | DoAddCompany(profile: ProfileId, board: string)
    | DoRemoveCompany(c: CompanyId)
    | DoStore(c: CompanyId, items: seq<Item>, now: Time)
    | DoBeginScreen(t: TaskId, c: CompanyId, order: seq<PostingId>, held: CompanyStatus)
    | DoFinishScreen(t: TaskId, llm: Option<Oracle>, now: Time, missing: MissingRows)
    | DoAbandon(t: TaskId)
    | DoFail(c: CompanyId, status: CompanyStatus, now: Time)
    | DoDismiss(p: PostingId)
    | DoPromote(p: PostingId, found: Option<JobId>, structured: bool)
    | DoSetTarget(profile: ProfileId)
    | DoCreateJob(url: Option<string>, found: Option<JobId>)
    | DoDeleteJob(j: JobId)

  ghost predicate Enabled(s: Feed, step: Step) {
    match step
    case DoBeginScreen(t, c, order, _) => t !in s.snapshots && c in s.companies && PendingOrder(s, c, order)
    case DoFinishScreen(t, _, _, _) => t in s.snapshots
    case DoFail(c, _, _) => c in s.companies
    case DoPromote(p, found, _) => p in s.postings ==> Finds(s, PromotedUrl(s.postings[p]), found)
    case DoCreateJob(url, found) => Finds(s, LookedUpUrl(url), found)
    case _ => true
  }

  ghost function Apply(s: Feed, step: Step): Feed
    requires Enabled(s, step)
  {
    match step
    case DoAddCompany(profile, board) => AddCompany(s, profile, board)
    case DoRemoveCompany(c) => RemoveCompany(s, c)
    case DoStore(c, items, now) => Store(s, c, items, now)
    case DoBeginScreen(t, c, order, held) => BeginScreen(s, t, c, order, held)
    case DoFinishScreen(t, llm, now, missing) => FinishScreen(s, t, llm, now, missing)
    case DoAbandon(t) => Abandon(s, t)
    case DoFail(c, status, now) => Fail(s, c, status, now)
    case DoDismiss(p) => Dismiss(s, p)
    case DoPromote(p, found, structured) => Promote(s, p, found, structured)
    case DoSetTarget(profile) => SetTarget(s, profile)
    case DoCreateJob(url, found) => CreateJob(s, url, found)
    case DoDeleteJob(j) => DeleteJob(s, j)
  }

  // ---------------------------------------------------------------------------------------------
  // The invariant
  // ---------------------------------------------------------------------------------------------

  predicate RowOk(row: Posting) {
    && (row.state == New ==> row.score == None && row.reason == None)
    && (row.state == Screened ==> row.score.Some? && 0 <= row.score.value <= 100 && row.reason.Some?)
    && (row.state == Promoted ==> row.job.Some?)
  }

  /** Every row is well formed and its foreign keys resolve. */
  ghost predicate RowsOk(s: Feed) {
    forall p :: p in s.postings ==>
      && p < s.nextPosting
      && RowOk(s.postings[p])
      && s.postings[p].company in s.companies
      && s.companies[s.postings[p].company].profile == s.postings[p].profile
      && (s.postings[p].job.Some? ==> s.postings[p].job.value in s.jobs)
  }

  predicate SameRole(a: Posting, b: Posting) {
    a.company == b.company && a.externalId == b.externalId
  }

  ghost predicate UniqueRoles(s: Feed) {
    forall p, q :: p in s.postings && q in s.postings && SameRole(s.postings[p], s.postings[q]) ==> p == q
  }

  predicate MadeFrom(s: Feed, j: JobId, p: PostingId) {
    j in s.jobs && s.jobs[j].origin == Some(p)
  }

  /** A posting makes at most one job, and while its row lives the row names it. */
  ghost predicate JobsOk(s: Feed) {
    && (forall j :: j in s.jobs ==> j < s.nextJob)
    && (forall j: JobId, p: PostingId :: MadeFrom(s, j, p) ==>
          p < s.nextPosting && (p in s.postings ==> s.postings[p].job == Some(j)))
    && (forall j: JobId, k: JobId, p: PostingId :: MadeFrom(s, j, p) && MadeFrom(s, k, p) ==> j == k)
  }

  ghost predicate CompaniesOk(s: Feed) {
    forall c :: c in s.companies ==> c < s.nextCompany
  }

  /** What a poll holds was a distinct list of its company's rows when it was read. */
  ghost predicate SnapshotsOk(s: Feed) {
    forall t :: t in s.snapshots ==>
      var snapshot := s.snapshots[t];
      && snapshot.company < s.nextCompany
      && (forall i, j :: 0 <= i < j < |snapshot.order| ==> snapshot.order[i] != snapshot.order[j])
      && (forall p :: p in snapshot.order ==>
            p < s.nextPosting && (p in s.postings ==> s.postings[p].company == snapshot.company))
  }

  ghost predicate FeedOk(s: Feed) {
    CompaniesOk(s) && RowsOk(s) && UniqueRoles(s) && JobsOk(s) && SnapshotsOk(s)
  }

  /** Losing rows, or changing nothing but a row's state, keeps the roles unique. */
  lemma FewerRolesUnique(s: Feed, s': Feed)
    requires UniqueRoles(s)
    requires forall p :: p in s'.postings ==> p in s.postings && SameRole(s.postings[p], s'.postings[p])
    ensures UniqueRoles(s')
  {
    assert forall p, q :: p in s'.postings && q in s'.postings && SameRole(s'.postings[p], s'.postings[q]) ==>
        SameRole(s.postings[p], s.postings[q]);
  }

  // ---------------------------------------------------------------------------------------------
  // What storing does to the rows
  // ---------------------------------------------------------------------------------------------

  lemma {:induction false} RefreshKeeps(row: Posting, items: seq<Item>, now: Time)
    ensures var r := Refreshed(row, items, now);
            && r == row.(lastSeen := r.lastSeen, advert := r.advert)
            && (r.lastSeen == row.lastSeen || r.lastSeen == now)
  {
    if items != [] {
      RefreshKeeps(row, items[..|items| - 1], now);
    }
  }

  /** A known row takes its advert from the last incoming item with its id; a URL that is missing there stays. */
  lemma {:induction false} RefreshTakesLast(row: Posting, items: seq<Item>, now: Time, k: nat)
    requires k < |items| && items[k].externalId == row.externalId
    requires forall m :: k < m < |items| ==> items[m].externalId != row.externalId
    ensures var r := Refreshed(row, items, now);
            && r.lastSeen == now
            && r.advert.title == items[k].advert.title && r.advert.location == items[k].advert.location
            && r.advert.url == (if Truthy(items[k].advert.url) then items[k].advert.url
                                else Refreshed(row, items[..k], now).advert.url)
  {
    var n := |items| - 1;
    RefreshKeeps(row, items[..n], now);
    if k < n {
      assert items[..n][..k] == items[..k];
      RefreshTakesLast(row, items[..n], now, k);
    }
  }

  /** A row that no incoming item speaks of stays as it is. */
  lemma {:induction false} RefreshSkipsOthers(row: Posting, items: seq<Item>, now: Time)
    requires forall m :: 0 <= m < |items| ==> items[m].externalId != row.externalId
    ensures Refreshed(row, items, now) == row
  {
    if items != [] {
      RefreshSkipsOthers(row, items[..|items| - 1], now);
    }
  }

  lemma {:induction false} FreshIsUnknown(items: seq<Item>, known: set<string>)
    ensures forall i :: 0 <= i < |Fresh(items, known)| ==>
              Fresh(items, known)[i] in items && Fresh(items, known)[i].externalId !in known
    ensures forall item :: item in items && item.externalId !in known ==> item in Fresh(items, known)
  {
    if items != [] {
      FreshIsUnknown(items[..|items| - 1], known);
    }
  }

  /** A stored row is either an old row with nothing but its advert refreshed, or a new row for a fresh item. */
  lemma StoredRow(s: Feed, c: CompanyId, items: seq<Item>, now: Time, p: PostingId)
    requires c in s.companies && p in StoredRows(s, c, items, now)
    ensures var row := StoredRows(s, c, items, now)[p];
            if p in s.postings then
              row == s.postings[p].(lastSeen := row.lastSeen, advert := row.advert)
            else
              var i := p - s.nextPosting;
              && 0 <= i < |Fresh(items, Known(s, c))|
              && row == NewRow(c, s.companies[c].profile, Fresh(items, Known(s, c))[i], now)
              && row.externalId !in Known(s, c)
  {
    if p in s.postings {
      RefreshKeeps(s.postings[p], items, now);
    } else {
      FreshIsUnknown(items, Known(s, c));
    }
  }

  lemma StoreKeepsRoles(s: Feed, c: CompanyId, items: seq<Item>, now: Time)
    requires FeedOk(s) && StoreAccepted(s, c, items)
    ensures UniqueRoles(Store(s, c, items, now))
  {
    var s' := Store(s, c, items, now);
    var added := Fresh(items, Known(s, c));
    forall p, q | p in s'.postings && q in s'.postings && SameRole(s'.postings[p], s'.postings[q]) ensures p == q {
      StoredRow(s, c, items, now, p);
      StoredRow(s, c, items, now, q);
      if p in s.postings && q in s.postings {
        assert SameRole(s.postings[p], s.postings[q]);
      } else if p !in s.postings && q !in s.postings {
        var i, j := p - s.nextPosting, q - s.nextPosting;
        assert added[i].externalId == added[j].externalId;
      }
    }
  }

  lemma StoreKeepsOk(s: Feed, c: CompanyId, items: seq<Item>, now: Time)
    requires FeedOk(s)
    ensures FeedOk(Store(s, c, items, now))
  {
    if StoreAccepted(s, c, items) {
      AcceptedStoreKeepsOk(s, c, items, now);
    }
  }

  lemma AcceptedStoreKeepsOk(s: Feed, c: CompanyId, items: seq<Item>, now: Time)
    requires FeedOk(s) && StoreAccepted(s, c, items)
    ensures FeedOk(Store(s, c, items, now))
  {
    var s' := Store(s, c, items, now);
    StoreKeepsRoles(s, c, items, now);
    forall p | p in s'.postings
      ensures p < s'.nextPosting && RowOk(s'.postings[p])
      ensures p in s.postings ==> s'.postings[p].job == s.postings[p].job
                                  && s'.postings[p].company == s.postings[p].company
                                  && s'.postings[p].profile == s.postings[p].profile
      ensures p !in s.postings ==> p >= s.nextPosting && s'.postings[p].job.None? && s'.postings[p].company == c
                                   && s'.postings[p].profile == s.companies[c].profile
    {
      StoredRow(s, c, items, now, p);
    }
    SameJobsOk(s, s');
  }

  // ---------------------------------------------------------------------------------------------
  // What screening does to the rows
  // ---------------------------------------------------------------------------------------------

  lemma {:induction false} WriteScoresKeys(rows: map<PostingId, Posting>, order: seq<PostingId>, llm: Option<Oracle>,
                                           n: nat)
    requires n <= |order|
    ensures WriteScores(rows, order, llm, n).Keys == rows.Keys
  {
    if n > 0 {
      WriteScoresKeys(rows, order, llm, n - 1);
    }
  }

  /** Row by row: a scored row gets its own reply, every other row is untouched. */
  lemma {:induction false} WriteScoresElsewhere(rows: map<PostingId, Posting>, order: seq<PostingId>,
                                                llm: Option<Oracle>, n: nat, p: PostingId)
    requires n <= |order| && p in rows && forall i :: 0 <= i < n && order[i] == p ==> !Scores(llm, |order|, i)
    ensures p in WriteScores(rows, order, llm, n) && WriteScores(rows, order, llm, n)[p] == rows[p]
  {
    if n > 0 {
      WriteScoresElsewhere(rows, order, llm, n - 1, p);
    }
  }

  lemma {:induction false} WriteScoresAt(rows: map<PostingId, Posting>, order: seq<PostingId>, llm: Option<Oracle>,
                                         n: nat, i: nat)
    requires i < n <= |order| && (forall k :: 0 <= k < |order| && k != i ==> order[k] != order[i])
    requires order[i] in rows && Scores(llm, |order|, i)
    ensures order[i] in WriteScores(rows, order, llm, n)
    ensures WriteScores(rows, order, llm, n)[order[i]] == ScoredRow(rows[order[i]], llm.value(i))
  {
    if i == n - 1 {
      WriteScoresElsewhere(rows, order, llm, n - 1, order[i]);
    } else {
      WriteScoresAt(rows, order, llm, n - 1, i);
    }
  }

  /** Whether a finished screen writes the row: the screen commits and scores a position that holds it. */
  ghost predicate WrittenAt(order: seq<PostingId>, llm: Option<Oracle>, p: PostingId, i: nat) {
    i < |order| && order[i] == p && Scores(llm, |order|, i)
  }

  ghost predicate Writes(s: Feed, t: TaskId, llm: Option<Oracle>, missing: MissingRows, p: PostingId)
    requires t in s.snapshots
  {
    FinishCommits(s, s.snapshots[t], llm, missing) && exists i :: WrittenAt(s.snapshots[t].order, llm, p, i)
  }

  lemma FinishedRow(s: Feed, t: TaskId, llm: Option<Oracle>, now: Time, missing: MissingRows, p: PostingId)
    requires SnapshotsOk(s) && t in s.snapshots && p in s.postings
    ensures p in FinishScreen(s, t, llm, now, missing).postings
    ensures Writes(s, t, llm, missing, p) ==>
              exists i :: (WrittenAt(s.snapshots[t].order, llm, p, i)
                           && FinishScreen(s, t, llm, now, missing).postings[p] ==
                              ScoredRow(s.postings[p], llm.value(i)))
    ensures !Writes(s, t, llm, missing, p) ==> FinishScreen(s, t, llm, now, missing).postings[p] == s.postings[p]
  {
    var order := s.snapshots[t].order;
    if FinishCommits(s, s.snapshots[t], llm, missing) {
      if i :| WrittenAt(order, llm, p, i) {
        WriteScoresAt(s.postings, order, llm, |order|, i);
      } else {
        assert forall i :: 0 <= i < |order| && order[i] == p ==> !WrittenAt(order, llm, p, i);
        WriteScoresElsewhere(s.postings, order, llm, |order|, p);
      }
    }
  }

  /** Any row after a finished screen: as before, or scored, with the job it had. */
  lemma FinishedRowShape(s: Feed, t: TaskId, llm: Option<Oracle>, now: Time, missing: MissingRows, p: PostingId)
    requires SnapshotsOk(s) && t in s.snapshots && p in s.postings
    ensures p in FinishScreen(s, t, llm, now, missing).postings
    ensures var row := FinishScreen(s, t, llm, now, missing).postings[p];
            && (RowOk(s.postings[p]) ==> RowOk(row))
            && SameRole(s.postings[p], row) && row.job == s.postings[p].job && row.profile == s.postings[p].profile
            && (Decided(s.postings[p]) ==> (Decided(row) <==> !Writes(s, t, llm, missing, p)))
  {
    FinishedRow(s, t, llm, now, missing, p);
  }

  lemma FinishKeys(s: Feed, t: TaskId, llm: Option<Oracle>, now: Time, missing: MissingRows)
    requires t in s.snapshots
    ensures FinishScreen(s, t, llm, now, missing).postings.Keys == s.postings.Keys
  {
    WriteScoresKeys(s.postings, s.snapshots[t].order, llm, |s.snapshots[t].order|);
  }

  lemma FinishKeepsOk(s: Feed, t: TaskId, llm: Option<Oracle>, now: Time, missing: MissingRows)
    requires FeedOk(s) && t in s.snapshots
    ensures FeedOk(FinishScreen(s, t, llm, now, missing))
  {
    var s' := FinishScreen(s, t, llm, now, missing);
    FinishKeys(s, t, llm, now, missing);
    forall p | p in s'.postings
      ensures p in s.postings && SameRole(s.postings[p], s'.postings[p])
      ensures RowOk(s.postings[p]) ==> RowOk(s'.postings[p])
      ensures s'.postings[p].job == s.postings[p].job && s'.postings[p].profile == s.postings[p].profile
    {
      FinishedRowShape(s, t, llm, now, missing, p);
    }
    SameColumnsKeepOk(s, s');
  }

  /** Rows keep their ids, roles, owners and jobs; each stays well formed. */
  lemma SameColumnsKeepOk(s: Feed, s': Feed)
    requires FeedOk(s) && s'.jobs == s.jobs && s'.nextJob == s.nextJob && s'.nextPosting == s.nextPosting
    requires s'.nextCompany == s.nextCompany && s'.snapshots.Keys <= s.snapshots.Keys
    requires forall t :: t in s'.snapshots ==> s'.snapshots[t] == s.snapshots[t]
    requires forall c :: c in s'.companies <==> c in s.companies
    requires forall c :: c in s'.companies ==> s'.companies[c].profile == s.companies[c].profile
    requires forall p :: p in s'.postings ==>
               && p in s.postings && SameRole(s.postings[p], s'.postings[p])
               && (RowOk(s.postings[p]) ==> RowOk(s'.postings[p]))
               && s'.postings[p].job == s.postings[p].job && s'.postings[p].profile == s.postings[p].profile
    ensures FeedOk(s')
  {
    FewerRolesUnique(s, s');
    SameJobsOk(s, s');
  }

  lemma SameJobsOk(s: Feed, s': Feed)
    requires JobsOk(s) && s'.jobs == s.jobs && s'.nextJob == s.nextJob && s'.nextPosting >= s.nextPosting
    requires forall p :: p in s'.postings ==>
               if p in s.postings then s'.postings[p].job == s.postings[p].job else p >= s.nextPosting
    ensures JobsOk(s')
  {
    assert forall j: JobId, p: PostingId :: MadeFrom(s', j, p) ==> MadeFrom(s, j, p);
  }

  // ---------------------------------------------------------------------------------------------
  // What the requests do to the rows
  // ---------------------------------------------------------------------------------------------

  lemma LinkKeepsOk(s: Feed, p: PostingId, j: JobId)
    requires FeedOk(s) && p in s.postings && s.postings[p].job.None? && j in s.jobs && s.jobs[j].origin != Some(p)
    ensures FeedOk(Linked(s, p, j))
  {
    var s' := Linked(s, p, j);
    FewerRolesUnique(s, s');
    assert forall k: JobId, q: PostingId :: MadeFrom(s', k, q) ==> MadeFrom(s, k, q);
    assert forall k: JobId :: MadeFrom(s, k, p) ==> s.postings[p].job == Some(k);
  }

  lemma AddJobKeepsOk(s: Feed, job: Job)
    requires FeedOk(s) && job.origin.None?
    ensures FeedOk(AddJob(s, job))
  {
    var s' := AddJob(s, job);
    assert forall j: JobId, p: PostingId :: MadeFrom(s', j, p) ==> MadeFrom(s, j, p);
  }

  lemma MakersAfter(s: Feed, p: PostingId, url: Option<string>, j: JobId, q: PostingId)
    requires JobsOk(s) && p in s.postings && s.postings[p].job.None?
    requires MadeFrom(AddJob(s, Job(url, Some(p))), j, q)
    ensures if j == s.nextJob then q == p else q != p && MadeFrom(s, j, q)
  {
    assert j != s.nextJob ==> MadeFrom(s, j, q);
  }

  lemma MakeJobKeepsOk(s: Feed, p: PostingId, url: Option<string>)
    requires FeedOk(s) && p in s.postings && s.postings[p].job.None?
    ensures FeedOk(Linked(AddJob(s, Job(url, Some(p))), p, s.nextJob))
  {
    var s' := Linked(AddJob(s, Job(url, Some(p))), p, s.nextJob);
    FewerRolesUnique(s, s');
    forall j: JobId, q: PostingId | MadeFrom(s', j, q)
      ensures if j == s.nextJob then q == p else q != p && MadeFrom(s, j, q) {
      assert MadeFrom(AddJob(s, Job(url, Some(p))), j, q);
      MakersAfter(s, p, url, j, q);
    }
  }

  lemma PromoteKeepsOk(s: Feed, p: PostingId, found: Option<JobId>, structured: bool)
    requires FeedOk(s) && Enabled(s, DoPromote(p, found, structured))
    ensures FeedOk(Promote(s, p, found, structured))
  {
    if p in s.postings && s.postings[p].job.None? {
      if found.Some? {
        assert s.jobs[found.value].origin == Some(p) ==> MadeFrom(s, found.value, p);
        LinkKeepsOk(s, p, found.value);
      } else if structured {
        MakeJobKeepsOk(s, p, PromotedUrl(s.postings[p]));
      }
    }
  }

  /** Rows may go, with or without their company; nothing else changes about them. */
  lemma RemovalKeepsOk(s: Feed, s': Feed)
    requires FeedOk(s) && s' == s.(companies := s'.companies, postings := s'.postings)
    requires forall p :: p in s'.postings ==>
               p in s.postings && s'.postings[p] == s.postings[p] && s.postings[p].company in s'.companies
    requires forall c :: c in s'.companies ==> c in s.companies && s'.companies[c].profile == s.companies[c].profile
    ensures FeedOk(s')
  {
    FewerRolesUnique(s, s');
    SameJobsOk(s, s');
  }

  lemma RemoveCompanyKeepsOk(s: Feed, c: CompanyId)
    requires FeedOk(s)
    ensures FeedOk(RemoveCompany(s, c))
  {
    RemovalKeepsOk(s, RemoveCompany(s, c));
  }

  lemma SetTargetKeepsOk(s: Feed, profile: ProfileId)
    requires FeedOk(s)
    ensures FeedOk(SetTarget(s, profile))
  {
    RemovalKeepsOk(s, SetTarget(s, profile));
  }

  lemma DismissKeepsOk(s: Feed, p: PostingId)
    requires FeedOk(s)
    ensures FeedOk(Dismiss(s, p))
  {
    SameColumnsKeepOk(s, Dismiss(s, p));
  }

  lemma DeleteJobKeepsOk(s: Feed, j: JobId)
    requires FeedOk(s)
    ensures FeedOk(DeleteJob(s, j))
  {
    var s' := DeleteJob(s, j);
    assert forall k: JobId, p: PostingId :: MadeFrom(s', k, p) ==> MadeFrom(s, k, p);
  }

  /** Only the companies table changes, and no company is lost or moves to another profile. */
  lemma CompanyStepKeepsOk(s: Feed, s': Feed)
    requires FeedOk(s) && s' == s.(companies := s'.companies, nextCompany := s'.nextCompany)
             && s.nextCompany <= s'.nextCompany
    requires forall c :: c in s.companies ==> c in s'.companies && s'.companies[c].profile == s.companies[c].profile
    requires forall c :: c in s'.companies ==> c < s'.nextCompany
    ensures FeedOk(s')
  {
    SameJobsOk(s, s');
  }

  lemma AddCompanyKeepsOk(s: Feed, profile: ProfileId, board: string)
    requires FeedOk(s)
    ensures FeedOk(AddCompany(s, profile, board))
  {
    CompanyStepKeepsOk(s, AddCompany(s, profile, board));
  }

  lemma FailKeepsOk(s: Feed, c: CompanyId, status: CompanyStatus, now: Time)
    requires FeedOk(s) && c in s.companies
    ensures FeedOk(Fail(s, c, status, now))
  {
    CompanyStepKeepsOk(s, Fail(s, c, status, now));
  }

  lemma BeginKeepsOk(s: Feed, t: TaskId, c: CompanyId, order: seq<PostingId>, held: CompanyStatus)
    requires FeedOk(s) && c in s.companies && PendingOrder(s, c, order)
    ensures FeedOk(BeginScreen(s, t, c, order, held))
  {
    var s' := BeginScreen(s, t, c, order, held);
    assert forall p :: p in order ==> IsPending(s, c, p);
    SameJobsOk(s, s');
  }

  lemma AbandonKeepsOk(s: Feed, t: TaskId)
    requires FeedOk(s)
    ensures FeedOk(Abandon(s, t))
  {
    SameJobsOk(s, Abandon(s, t));
  }

  lemma {:induction false} StepKeepsOk(s: Feed, step: Step)
    requires FeedOk(s) && Enabled(s, step)
    ensures FeedOk(Apply(s, step))
  {
    match step
    case DoAddCompany(profile, board) => AddCompanyKeepsOk(s, profile, board);
    case DoRemoveCompany(c) => RemoveCompanyKeepsOk(s, c);
    case DoStore(c, items, now) => StoreKeepsOk(s, c, items, now);
    case DoBeginScreen(t, c, order, held) => BeginKeepsOk(s, t, c, order, held);
    case DoFinishScreen(t, llm, now, missing) => FinishKeepsOk(s, t, llm, now, missing);
    case DoAbandon(t) => AbandonKeepsOk(s, t);
    case DoFail(c, status, now) => FailKeepsOk(s, c, status, now);
    case DoDismiss(p) => DismissKeepsOk(s, p);
    case DoPromote(p, found, structured) => PromoteKeepsOk(s, p, found, structured);
    case DoSetTarget(profile) => SetTargetKeepsOk(s, profile);
    case DoCreateJob(url, found) => if found.None? { AddJobKeepsOk(s, Job(StoredUrl(url), None)); }
    case DoDeleteJob(j) => DeleteJobKeepsOk(s, j);
  }

  // ---------------------------------------------------------------------------------------------
  // A set job id is never cleared, and decisions stand
  // ---------------------------------------------------------------------------------------------

  /** What a step must leave of a row: its role, its job id once set, and the row itself once decided,
      as long as its company is watched. */
  ghost predicate Keeps(s: Feed, s': Feed, p: PostingId)
    requires p in s.postings
  {
    && (p in s'.postings ==> SameRole(s.postings[p], s'.postings[p]))
    && (p in s'.postings && s.postings[p].job.Some? ==> s'.postings[p].job == s.postings[p].job)
    && (Decided(s.postings[p]) && s.postings[p].company in s'.companies ==> p in s'.postings)
  }

  lemma StoreKeepsRow(s: Feed, c: CompanyId, items: seq<Item>, now: Time, p: PostingId)
    requires p in s.postings
    ensures Keeps(s, Store(s, c, items, now), p)
    ensures Decided(s.postings[p]) ==> Decided(Store(s, c, items, now).postings[p])
  {
    if StoreAccepted(s, c, items) {
      StoredRow(s, c, items, now, p);
    }
  }

  lemma PromoteKeepsRow(s: Feed, p: PostingId, found: Option<JobId>, structured: bool, q: PostingId)
    requires q in s.postings
    ensures Keeps(s, Promote(s, p, found, structured), q)
    ensures Decided(s.postings[q]) ==> Decided(Promote(s, p, found, structured).postings[q])
  {
  }

  lemma {:induction false} StepKeepsRow(s: Feed, step: Step, p: PostingId)
    requires SnapshotsOk(s) && Enabled(s, step) && p in s.postings
    ensures Keeps(s, Apply(s, step), p)
  {
    match step
    case DoStore(c, items, now) => StoreKeepsRow(s, c, items, now, p);
    case DoFinishScreen(t, llm, now, missing) => FinishedRowShape(s, t, llm, now, missing, p);
    case DoPromote(q, found, structured) => PromoteKeepsRow(s, q, found, structured, p);
    case _ =>
  }

  /** Exactly which decisions a finished screen undoes, putting the row back into the feed:
      those on the rows it writes. */
  lemma FinishKeepsDecisionIff(s: Feed, t: TaskId, llm: Option<Oracle>, now: Time, missing: MissingRows, p: PostingId)
    requires SnapshotsOk(s) && t in s.snapshots && p in s.postings && Decided(s.postings[p])
    ensures p in FinishScreen(s, t, llm, now, missing).postings
    ensures Decided(FinishScreen(s, t, llm, now, missing).postings[p]) <==> !Writes(s, t, llm, missing, p)
  {
    FinishedRowShape(s, t, llm, now, missing, p);
  }

  /** The rows a screen may write: the first ones it read, up to the limit. */
  function Reach(order: seq<PostingId>): seq<PostingId> {
    order[..ScreenedLen(|order|)]
  }

  lemma WritesOnlyReach(s: Feed, t: TaskId, llm: Option<Oracle>, missing: MissingRows, p: PostingId)
    requires t in s.snapshots
    ensures Writes(s, t, llm, missing, p) ==> p in Reach(s.snapshots[t].order)
  {
    var order := s.snapshots[t].order;
    if Writes(s, t, llm, missing, p) {
      var i: nat :| WrittenAt(order, llm, p, i);
      assert Reach(order)[i] == p;
    }
  }

  ghost predicate Answering(llm: Option<Oracle>) {
    llm.Some? && forall k :: llm.value(k).Scored?
  }

  lemma AnsweringScores(llm: Option<Oracle>, n: nat, i: nat)
    requires Answering(llm)
    ensures Scores(llm, n, i) <==> i < ScreenedLen(n)
    ensures !ScreenCrashes(llm, n)
  {
    AnsweringProviderScoresAll(llm.value, MAX_CONSECUTIVE_FAILURES, ScreenedLen(n));
  }

  /** Two neighbours that are both gone: if a missing row loses the commit, a screen has to leave both unscored, and
      then it stops there. */
  predicate PairGone(s: Feed, order: seq<PostingId>, k: int) {
    0 <= k && k + 1 < |order| && order[k] !in s.postings && order[k + 1] !in s.postings
  }

  ghost predicate Shielded(s: Feed, order: seq<PostingId>, p: PostingId) {
    exists k, i :: 0 <= k && k + 1 < i < |order| && order[i] == p && PairGone(s, order, k)
  }

  /** Whatever the LLM will reply: a decision survives the screen for certain exactly when its row is beyond the
      screen's reach, or two neighbours before it are gone and a missing row loses the commit. */
  lemma DecisionSurvivesEveryReplyIff(s: Feed, t: TaskId, now: Time, missing: MissingRows, p: PostingId)
    requires RowsOk(s) && SnapshotsOk(s) && t in s.snapshots && p in s.postings && Decided(s.postings[p])
    ensures var order := s.snapshots[t].order;
            (forall llm :: FinishLeavesDecided(s, t, llm, now, missing, p)) <==>
              p !in Reach(order) || (missing.CommitLost? && Shielded(s, order, p))
  {
    var order := s.snapshots[t].order;
    forall llm ensures FinishLeavesDecided(s, t, llm, now, missing, p) <==> !Writes(s, t, llm, missing, p) {
      FinishKeepsDecisionIff(s, t, llm, now, missing, p);
    }
    if p !in Reach(order) {
      forall llm ensures !Writes(s, t, llm, missing, p) {
        WritesOnlyReach(s, t, llm, missing, p);
      }
    } else if missing.CommitLost? && Shielded(s, order, p) {
      forall llm ensures !Writes(s, t, llm, missing, p) {
        ShieldedIsNotWritten(s, t, llm, missing, p);
      }
    } else {
      var i :| 0 <= i < |Reach(order)| && Reach(order)[i] == p;
      var llm := CarefulOracle(s, order, missing);
      CarefulWrites(s, t, missing, i);
      assert !FinishLeavesDecided(s, t, llm, now, missing, p);
    }
  }

  lemma ShieldedIsNotWritten(s: Feed, t: TaskId, llm: Option<Oracle>, missing: MissingRows, p: PostingId)
    requires SnapshotsOk(s) && t in s.snapshots && missing.CommitLost? && Shielded(s, s.snapshots[t].order, p)
    ensures !Writes(s, t, llm, missing, p)
  {
    var order := s.snapshots[t].order;
    var k, i :| 0 <= k && k + 1 < i < |order| && order[i] == p && PairGone(s, order, k);
    if Writes(s, t, llm, missing, p) {
      var m: nat :| WrittenAt(order, llm, p, m);
      assert m == i;
      NeighboursBeforeScore(llm.value, ScreenedLen(|order|), k, i);
    }
  }

  /** Answers for every row, but where a missing row loses the commit refuses those that are gone. */
  function CarefulOracle(s: Feed, order: seq<PostingId>, missing: MissingRows): Option<Oracle> {
    Some((k: nat) =>
      if missing.RowsSkipped? || (k < |order| && order[k] in s.postings) then Scored(0, "") else Refused)
  }

  lemma CarefulWrites(s: Feed, t: TaskId, missing: MissingRows, i: nat)
    requires RowsOk(s) && SnapshotsOk(s) && t in s.snapshots
    requires i < |Reach(s.snapshots[t].order)| && s.snapshots[t].order[i] in s.postings
    requires missing.RowsSkipped? || !Shielded(s, s.snapshots[t].order, s.snapshots[t].order[i])
    ensures var order := s.snapshots[t].order;
            Writes(s, t, CarefulOracle(s, order, missing), missing, order[i])
  {
    var order := s.snapshots[t].order;
    var llm := CarefulOracle(s, order, missing);
    forall j: nat, k | k == j + 1 < i ensures llm.value(j).Scored? || llm.value(k).Scored? {
      assert missing.CommitLost? ==> !PairGone(s, order, j);
    }
    NeighboursReach(llm.value, ScreenedLen(|order|), i);
    assert order[i] in order;
    assert WrittenAt(order, llm, order[i], i);
  }

  ghost predicate FinishLeavesDecided(s: Feed, t: TaskId, llm: Option<Oracle>, now: Time, missing: MissingRows,
                                      p: PostingId)
    requires t in s.snapshots
  {
    var s' := FinishScreen(s, t, llm, now, missing);
    p in s'.postings && Decided(s'.postings[p])
  }

  lemma {:induction false} OtherStepsKeepDecisions(s: Feed, step: Step, p: PostingId)
    requires Enabled(s, step) && !step.DoFinishScreen? && p in s.postings && Decided(s.postings[p])
    ensures var s' := Apply(s, step); p in s'.postings ==> Decided(s'.postings[p])
  {
    match step
    case DoStore(c, items, now) => StoreKeepsRow(s, c, items, now, p);
    case DoPromote(q, found, structured) => PromoteKeepsRow(s, q, found, structured, p);
    case _ =>
  }

  /** A request to dismiss or promote the posting. */
  predicate Decides(step: Step, p: PostingId) {
    (step.DoDismiss? && step.p == p) || (step.DoPromote? && step.p == p)
  }

  lemma {:induction false} StepKeepsUndecided(s: Feed, step: Step, p: PostingId)
    requires SnapshotsOk(s) && Enabled(s, step) && !Decides(step, p) && p in s.postings && Undecided(s.postings[p])
    ensures var s' := Apply(s, step); p in s'.postings ==> Undecided(s'.postings[p])
  {
    match step
    case DoStore(c, items, now) =>
      if StoreAccepted(s, c, items) {
        StoredRow(s, c, items, now, p);
      }
    case DoFinishScreen(t, llm, now, missing) => FinishedRow(s, t, llm, now, missing, p);
    case _ =>
  }

  // ---------------------------------------------------------------------------------------------
  // Whole runs
  // ---------------------------------------------------------------------------------------------

  predicate Initial(s: Feed) {
    s.companies == map[] && s.postings == map[] && s.jobs == map[] && s.snapshots == map[]
  }

  ghost predicate IsRun(states: seq<Feed>, steps: seq<Step>) {
    && |states| == |steps| + 1
    && Initial(states[0])
    && forall i :: 0 <= i < |steps| ==> Enabled(states[i], steps[i]) && states[i + 1] == Apply(states[i], steps[i])
  }

  /** However polls, decisions, target changes and removals interleave: roles stay unique, new rows have no
      score, screened rows have one in 0..100, promoted rows have a job, and a posting makes at most one. */
  lemma {:induction false} RunIsOk(states: seq<Feed>, steps: seq<Step>, i: nat)
    requires IsRun(states, steps) && i < |states|
    ensures FeedOk(states[i])
  {
    if i > 0 {
      RunIsOk(states, steps, i - 1);
      StepKeepsOk(states[i - 1], steps[i - 1]);
    }
  }

  /** Company ids are not reused, so a company watched later was watched all along. */
  lemma {:induction false} StepKeepsUnwatched(s: Feed, step: Step, c: CompanyId)
    requires Enabled(s, step) && c < s.nextCompany && c !in s.companies
    ensures c !in Apply(s, step).companies && c < Apply(s, step).nextCompany
  {
  }

  lemma {:induction false} WatchedThroughout(states: seq<Feed>, steps: seq<Step>, i: nat, j: nat, c: CompanyId)
    requires IsRun(states, steps) && i <= j < |states| && c in states[i].companies && c in states[j].companies
    ensures forall k :: i <= k <= j ==> c in states[k].companies
    decreases j - i
  {
    if i < j {
      if c !in states[i + 1].companies {
        RunIsOk(states, steps, i);
        assert c < states[i + 1].nextCompany;
        UnwatchedStays(states, steps, i + 1, j, c);
      } else {
        WatchedThroughout(states, steps, i + 1, j, c);
      }
    }
  }

  lemma {:induction false} UnwatchedStays(states: seq<Feed>, steps: seq<Step>, i: nat, j: nat, c: CompanyId)
    requires IsRun(states, steps) && i <= j < |states| && c < states[i].nextCompany && c !in states[i].companies
    ensures c !in states[j].companies
    decreases j - i
  {
    if i < j {
      StepKeepsUnwatched(states[i], steps[i], c);
      UnwatchedStays(states, steps, i + 1, j, c);
    }
  }

  lemma {:induction false} StepKeepsGone(s: Feed, step: Step, p: PostingId)
    requires Enabled(s, step) && p < s.nextPosting && p !in s.postings
    ensures p !in Apply(s, step).postings && p < Apply(s, step).nextPosting
  {
    if step.DoFinishScreen? {
      FinishKeys(s, step.t, step.llm, step.now, step.missing);
    }
  }

  lemma {:induction false} GoneStays(states: seq<Feed>, steps: seq<Step>, i: nat, j: nat, p: PostingId)
    requires IsRun(states, steps) && i <= j < |states| && p < states[i].nextPosting && p !in states[i].postings
    ensures p !in states[j].postings
    decreases j - i
  {
    if i < j {
      StepKeepsGone(states[i], steps[i], p);
      GoneStays(states, steps, i + 1, j, p);
    }
  }

  /** A set job id is never cleared or replaced, as long as its row exists. */
  lemma {:induction false} JobIdPersists(states: seq<Feed>, steps: seq<Step>, i: nat, j: nat, p: PostingId)
    requires IsRun(states, steps) && i <= j < |states|
    requires p in states[i].postings && states[i].postings[p].job.Some? && p in states[j].postings
    ensures states[j].postings[p].job == states[i].postings[p].job
    decreases j - i
  {
    if i < j {
      RunIsOk(states, steps, i);
      StepKeepsRow(states[i], steps[i], p);
      if p in states[i + 1].postings {
        JobIdPersists(states, steps, i + 1, j, p);
      } else {
        assert p < states[i + 1].nextPosting;
        GoneStays(states, steps, i + 1, j, p);
      }
    }
  }

  /** The default feed: undecided rows of the profile's watched companies. */
  ghost predicate InDefaultFeed(s: Feed, profile: ProfileId, p: PostingId) {
    p in s.postings && s.postings[p].profile == profile
    && s.postings[p].company in s.companies && Undecided(s.postings[p])
  }

  predicate Ends(step: Step, t: TaskId) {
    (step.DoFinishScreen? || step.DoAbandon?) && step.t == t
  }

  /** The screen that steps[b] begins is the one that steps[e] finishes. */
  ghost predicate ScreenSpans(steps: seq<Step>, b: int, e: int) {
    && 0 <= b < e < |steps| && steps[b].DoBeginScreen? && steps[e].DoFinishScreen? && steps[b].t == steps[e].t
    && forall x :: b < x < e ==> !Ends(steps[x], steps[b].t)
  }

  predicate DecidesOneOf(step: Step, ps: seq<PostingId>) {
    (step.DoDismiss? && step.p in ps) || (step.DoPromote? && step.p in ps)
  }

  /** The schedule up to step j: no request decides a row while a screen that can reach it is under way. */
  ghost predicate ScreensUndisturbed(steps: seq<Step>, j: int) {
    forall b, m, e :: b < m < e < j && ScreenSpans(steps, b, e) ==> !DecidesOneOf(steps[m], Reach(steps[b].order))
  }

  lemma {:induction false} SnapshotsMade(s: Feed, step: Step, t: TaskId)
    requires Enabled(s, step) && t in Apply(s, step).snapshots
    ensures var snapshot := Apply(s, step).snapshots[t];
            step == DoBeginScreen(t, snapshot.company, snapshot.order, snapshot.held)
            || (t in s.snapshots && s.snapshots[t] == snapshot && !Ends(step, t))
  {
  }

  /** A poll holds what the last of its begin steps read. */
  lemma {:induction false} SnapshotOrigin(states: seq<Feed>, steps: seq<Step>, e: nat, t: TaskId) returns (b: nat)
    requires IsRun(states, steps) && e < |states| && t in states[e].snapshots
    ensures var snapshot := states[e].snapshots[t];
            b < e && steps[b] == DoBeginScreen(t, snapshot.company, snapshot.order, snapshot.held)
    ensures forall x :: b < x < e ==> !Ends(steps[x], t)
  {
    b := e - 1;
    assert states[b + 1] == Apply(states[b], steps[b]);
    SnapshotsMade(states[b], steps[b], t);
    if !steps[b].DoBeginScreen? || steps[b].t != t {
      b := SnapshotOrigin(states, steps, e - 1, t);
    }
  }

  lemma {:induction false} UndecidedStays(states: seq<Feed>, steps: seq<Step>, b: nat, e: nat, p: PostingId)
    requires IsRun(states, steps) && b <= e < |states| && p in states[b].postings && Undecided(states[b].postings[p])
    requires forall x :: b <= x < e ==> !Decides(steps[x], p)
    ensures p in states[e].postings ==> Undecided(states[e].postings[p])
    decreases e - b
  {
    if b < e {
      RunIsOk(states, steps, b);
      StepKeepsUndecided(states[b], steps[b], p);
      if p in states[b + 1].postings {
        UndecidedStays(states, steps, b + 1, e, p);
      } else {
        StepGrows(states[b], steps[b]);
        GoneStays(states, steps, b + 1, e, p);
      }
    }
  }

  lemma {:induction false} StepGrows(s: Feed, step: Step)
    requires Enabled(s, step)
    ensures s.nextPosting <= Apply(s, step).nextPosting
  {
  }

  /** Under such a schedule every row a finishing screen can write is still undecided. */
  lemma ReachIsUndecided(states: seq<Feed>, steps: seq<Step>, e: nat, p: PostingId)
    requires IsRun(states, steps) && e < |steps| && steps[e].DoFinishScreen? && ScreensUndisturbed(steps, e + 1)
    requires p in Reach(states[e].snapshots[steps[e].t].order)
    ensures p in states[e].postings ==> Undecided(states[e].postings[p])
  {
    var t := steps[e].t;
    var b := SnapshotOrigin(states, steps, e, t);
    var order := states[e].snapshots[t].order;
    assert ScreenSpans(steps, b, e);
    assert IsPending(states[b], steps[b].c, p) by {
      assert p in order;
    }
    forall x | b <= x < e ensures !Decides(steps[x], p) {
      if b < x {
        assert !DecidesOneOf(steps[x], Reach(steps[b].order));
      }
    }
    UndecidedStays(states, steps, b, e, p);
  }

  lemma FinishWritesNoDecision(states: seq<Feed>, steps: seq<Step>, e: nat, p: PostingId)
    requires IsRun(states, steps) && e < |steps| && steps[e].DoFinishScreen? && ScreensUndisturbed(steps, e + 1)
    requires p in states[e].postings && Decided(states[e].postings[p])
    ensures !Writes(states[e], steps[e].t, steps[e].llm, steps[e].missing, p)
  {
    WritesOnlyReach(states[e], steps[e].t, steps[e].llm, steps[e].missing, p);
    forall q | q in Reach(states[e].snapshots[steps[e].t].order)
      ensures q in states[e].postings ==> Undecided(states[e].postings[q])
    {
      ReachIsUndecided(states, steps, e, q);
    }
  }

  lemma RunStepKeepsDecision(states: seq<Feed>, steps: seq<Step>, i: nat, p: PostingId)
    requires IsRun(states, steps) && i < |steps| && ScreensUndisturbed(steps, i + 1)
    requires p in states[i].postings && Decided(states[i].postings[p])
    ensures p in states[i + 1].postings ==> Decided(states[i + 1].postings[p])
  {
    RunIsOk(states, steps, i);
    if steps[i].DoFinishScreen? {
      FinishWritesNoDecision(states, steps, i, p);
      FinishKeepsDecisionIff(states[i], steps[i].t, steps[i].llm, steps[i].now, steps[i].missing, p);
    } else {
      OtherStepsKeepDecisions(states[i], steps[i], p);
    }
  }

  /** Decisions only accumulate, on every schedule in which no request decides a row while a screen that can reach
      it is under way, whatever the LLM replies: while the company stays watched, the row stays and stays decided. */
  lemma {:induction false} DecisionStands(states: seq<Feed>, steps: seq<Step>, i: nat, j: nat, p: PostingId)
    requires IsRun(states, steps) && i <= j < |states| && ScreensUndisturbed(steps, j)
    requires p in states[i].postings && Decided(states[i].postings[p])
    requires states[i].postings[p].company in states[j].companies
    ensures p in states[j].postings && Decided(states[j].postings[p])
            && SameRole(states[i].postings[p], states[j].postings[p])
    decreases j - i
  {
    if i < j {
      RunIsOk(states, steps, i);
      WatchedThroughout(states, steps, i, j, states[i].postings[p].company);
      StepKeepsRow(states[i], steps[i], p);
      RunStepKeepsDecision(states, steps, i, p);
      DecisionStands(states, steps, i + 1, j, p);
    }
  }

  /** A decided role never comes back: no row for it is ever in a default feed again. */
  lemma DecidedRoleStaysOut(states: seq<Feed>, steps: seq<Step>, i: nat, j: nat, p: PostingId, q: PostingId,
                            profile: ProfileId)
    requires IsRun(states, steps) && i <= j < |states| && ScreensUndisturbed(steps, j)
    requires p in states[i].postings && Decided(states[i].postings[p])
    requires q in states[j].postings && SameRole(states[i].postings[p], states[j].postings[q])
    ensures !InDefaultFeed(states[j], profile, q)
  {
    if states[i].postings[p].company in states[j].companies {
      DecisionStands(states, steps, i, j, p);
      RunIsOk(states, steps, j);
      assert SameRole(states[j].postings[p], states[j].postings[q]);
    }
  }
}
