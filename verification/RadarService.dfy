/** The tables and the code that writes them: the methods of the poller and of the request handlers, each
    proved to do exactly its step of RadarFeed. */
module RadarService {
  import opened FiniteSets
  import opened JobUrl
  import opened Options
  import opened PyText
  import opened RadarFeed
  import opened RadarOutcomes
  import opened RadarPoll
  import opened RadarScreening
  import Lease = RadarLease
  import Triage = RadarTriage

  // ---------------------------------------------------------------------------------------------
  // The loops of _store_postings
  // ---------------------------------------------------------------------------------------------

  predicate RolesDistinct(rows: map<PostingId, Posting>, c: CompanyId) {
    forall p, q ::
      p in rows && q in rows && rows[p].company == c && SameRole(rows[p], rows[q]) ==> p == q
  }

  function ByExternalId(rows: map<PostingId, Posting>, c: CompanyId): map<string, PostingId>
    requires RolesDistinct(rows, c)
  {
    map p | p in rows && rows[p].company == c :: rows[p].externalId := p
  }

  function RowAfter(row: Posting, c: CompanyId, items: seq<Item>, now: Time): Posting {
    if row.company == c then Refreshed(row, items, now) else row
  }

  ghost predicate RefreshedUpTo(rows: map<PostingId, Posting>, before: map<PostingId, Posting>, c: CompanyId,
                                items: seq<Item>, now: Time) {
    rows.Keys == before.Keys && forall p :: p in before ==> rows[p] == RowAfter(before[p], c, items, now)
  }

  lemma NoMatchNoChange(row: Posting, c: CompanyId, items: seq<Item>, item: Item, now: Time)
    requires row.company != c || row.externalId != item.externalId
    ensures RowAfter(row, c, items + [item], now) == RowAfter(row, c, items, now)
  {
    RefreshKeeps(row, items, now);
    assert (items + [item])[..|items|] == items;
  }

  lemma MatchTouches(row: Posting, c: CompanyId, items: seq<Item>, item: Item, now: Time)
    requires row.company == c
    ensures RowAfter(row, c, items + [item], now) == Touch(RowAfter(row, c, items, now), item, now)
  {
    assert (items + [item])[..|items|] == items;
  }

  lemma KnownStep(rows: map<PostingId, Posting>, before: map<PostingId, Posting>, c: CompanyId, items: seq<Item>,
                  item: Item, now: Time, prior: PostingId)
    requires RefreshedUpTo(rows, before, c, items, now) && RolesDistinct(before, c)
    requires prior in before && before[prior].company == c && before[prior].externalId == item.externalId
    ensures RefreshedUpTo(rows[prior := Touch(rows[prior], item, now)], before, c, items + [item], now)
  {
    forall p | p in before && p != prior ensures RowAfter(before[p], c, items + [item], now) == rows[p] {
      NoMatchNoChange(before[p], c, items, item, now);
    }
    MatchTouches(before[prior], c, items, item, now);
  }

  lemma UnknownStep(rows: map<PostingId, Posting>, before: map<PostingId, Posting>, c: CompanyId, items: seq<Item>,
                    item: Item, now: Time)
    requires RefreshedUpTo(rows, before, c, items, now)
    requires forall p :: p in before && before[p].company == c ==> before[p].externalId != item.externalId
    ensures RefreshedUpTo(rows, before, c, items + [item], now)
  {
    forall p | p in before ensures RowAfter(before[p], c, items + [item], now) == rows[p] {
      NoMatchNoChange(before[p], c, items, item, now);
    }
  }

  lemma FreshStep(items: seq<Item>, item: Item, known: set<string>)
    ensures Fresh(items + [item], known) == Fresh(items, known) + if item.externalId in known then [] else [item]
  {
    assert (items + [item])[..|items|] == items;
  }

  method SplitIncoming(before: map<PostingId, Posting>, c: CompanyId, incoming: seq<Item>, now: Time)
    returns (rows: map<PostingId, Posting>, added: seq<Item>)
    requires RolesDistinct(before, c)
    ensures RefreshedUpTo(rows, before, c, incoming, now)
    ensures added == Fresh(incoming, set p | p in before && before[p].company == c :: before[p].externalId)
  {
    var byExternalId := ByExternalId(before, c);
    ghost var known := set p | p in before && before[p].company == c :: before[p].externalId;
    assert byExternalId.Keys == known;
    rows, added := before, [];
    for i := 0 to |incoming|
      invariant RefreshedUpTo(rows, before, c, incoming[..i], now)
      invariant added == Fresh(incoming[..i], known)
    {
      var item := incoming[i];
      assert incoming[..i + 1] == incoming[..i] + [item];
      FreshStep(incoming[..i], item, known);
      if item.externalId in byExternalId {
        var prior := byExternalId[item.externalId];
        KnownStep(rows, before, c, incoming[..i], item, now, prior);
        rows := rows[prior := Touch(rows[prior], item, now)];
      } else {
        assert item.externalId !in known;
        UnknownStep(rows, before, c, incoming[..i], item, now);
        added := added + [item];
      }
    }
    assert incoming[..|incoming|] == incoming;
  }

  ghost predicate Inserted(all: map<PostingId, Posting>, rows: map<PostingId, Posting>, c: CompanyId,
                           profile: ProfileId, added: seq<Item>, first: PostingId, now: Time) {
    && all.Keys == rows.Keys + IdsFrom(first, |added|)
    && (forall p :: p in rows ==> all[p] == rows[p])
    && (forall p :: p in all && p !in rows ==>
          first <= p < first + |added| && all[p] == NewRow(c, profile, added[p - first], now))
  }

  method InsertRows(rows: map<PostingId, Posting>, c: CompanyId, profile: ProfileId, added: seq<Item>, first: PostingId,
                    now: Time) returns (all: map<PostingId, Posting>)
    requires forall p :: p in rows ==> p < first
    ensures Inserted(all, rows, c, profile, added, first, now)
  {
    all := rows;
    assert IdsFrom(first, 0) == {};
    for k := 0 to |added|
      invariant Inserted(all, rows, c, profile, added[..k], first, now)
    {
      IdsFromNext(first, k);
      all := all[first + k := NewRow(c, profile, added[k], now)];
    }
    assert added[..|added|] == added;
  }

  lemma InsertedAt(s: Feed, c: CompanyId, incoming: seq<Item>, now: Time, rows: map<PostingId, Posting>,
                   all: map<PostingId, Posting>, p: PostingId)
    requires c in s.companies && RefreshedUpTo(rows, s.postings, c, incoming, now)
    requires Inserted(all, rows, c, s.companies[c].profile, Fresh(incoming, Known(s, c)), s.nextPosting, now)
    ensures p in all <==> p in StoredRows(s, c, incoming, now)
    ensures p in all ==> all[p] == StoredRows(s, c, incoming, now)[p]
  {
    if p in s.postings {
      assert p in rows;
    }
  }

  lemma InsertedIsStored(s: Feed, c: CompanyId, incoming: seq<Item>, now: Time, rows: map<PostingId, Posting>,
                         all: map<PostingId, Posting>)
    requires c in s.companies && RefreshedUpTo(rows, s.postings, c, incoming, now)
    requires Inserted(all, rows, c, s.companies[c].profile, Fresh(incoming, Known(s, c)), s.nextPosting, now)
    ensures all == StoredRows(s, c, incoming, now)
  {
    forall p ensures p in all <==> p in StoredRows(s, c, incoming, now)
             ensures p in all ==> all[p] == StoredRows(s, c, incoming, now)[p]
    {
      InsertedAt(s, c, incoming, now, rows, all, p);
    }
  }

  lemma StoringNothing(s: Feed, c: CompanyId, now: Time)
    ensures Store(s, c, [], now) == s
  {
    if c in s.companies {
      assert IdsFrom(s.nextPosting, 0) == {};
      assert StoredRows(s, c, [], now) == s.postings;
    }
  }

  // ---------------------------------------------------------------------------------------------
  // The query for what is to be screened
  // ---------------------------------------------------------------------------------------------

  method Oldest(rows: map<PostingId, Posting>, todo: set<PostingId>) returns (p: PostingId)
    requires todo != {} && todo <= rows.Keys
    ensures p in todo && forall q :: q in todo ==> rows[p].firstSeen <= rows[q].firstSeen
  {
    p :| p in todo;
    var rest := todo - {p};
    while rest != {}
      invariant p in todo && rest <= todo
      invariant forall q :: q in todo - rest ==> rows[p].firstSeen <= rows[q].firstSeen
      decreases rest
    {
      var q :| q in rest;
      if rows[q].firstSeen < rows[p].firstSeen {
        p := q;
      }
      rest := rest - {q};
    }
  }

  method InOrder(rows: map<PostingId, Posting>, pending: set<PostingId>) returns (order: seq<PostingId>)
    requires pending <= rows.Keys
    ensures forall p :: p in order <==> p in pending
    ensures forall i, j :: 0 <= i < j < |order| ==> order[i] != order[j]
    ensures forall i, j :: 0 <= i < j < |order| && order[i] in rows && order[j] in rows ==>
              rows[order[i]].firstSeen <= rows[order[j]].firstSeen
  {
    order := [];
    var todo := pending;
    while todo != {}
      invariant todo <= pending && forall p :: p in order <==> p in pending - todo
      invariant forall i, j :: 0 <= i < j < |order| ==> order[i] != order[j]
      invariant forall i :: 0 <= i < |order| ==> order[i] in rows
      invariant forall i, j :: 0 <= i < j < |order| ==> rows[order[i]].firstSeen <= rows[order[j]].firstSeen
      invariant forall i, q :: 0 <= i < |order| && q in todo ==> rows[order[i]].firstSeen <= rows[q].firstSeen
      decreases todo
    {
      var p := Oldest(rows, todo);
      assert p !in order;
      todo := todo - {p};
      order := order + [p];
    }
  }

  // ---------------------------------------------------------------------------------------------
  // The final commit of a poll
  // ---------------------------------------------------------------------------------------------

  /** The session's copies after screening: scored ones carry their reply, the others are as read. */
  ghost predicate Dirty(rows: seq<PostingRow>, llm: Option<Oracle>)
    reads rows
  {
    forall i :: 0 <= i < |rows| ==> RowAnswers(rows[i], llm, |rows|, i)
  }

  ghost predicate RowAnswers(row: PostingRow, llm: Option<Oracle>, n: nat, i: nat)
    reads row
  {
    if Scores(llm, n, i)
    then row.state == Screened
         && row.screenScore == Some(llm.value(i).fitScore) && row.screenReason == Some(llm.value(i).reason)
    else row.state == New
  }

  method ReadRows(n: nat) returns (rows: seq<PostingRow>)
    ensures |rows| == n && fresh(rows)
    ensures forall i, j :: 0 <= i < j < n ==> rows[i] != rows[j]
    ensures forall i :: 0 <= i < n ==> rows[i].state == New
  {
    rows := [];
    for i := 0 to n
      invariant |rows| == i && fresh(rows)
      invariant forall k, m :: 0 <= k < m < i ==> rows[k] != rows[m]
      invariant forall k :: 0 <= k < i ==> rows[k].state == New
    {
      var row := new PostingRow();
      rows := rows + [row];
    }
  }

  method Screen(rows: seq<PostingRow>, llm: Option<Oracle>) returns (scored: nat, crashed: bool)
    requires forall i, j :: 0 <= i < j < |rows| ==> rows[i] != rows[j]
    requires forall i :: 0 <= i < |rows| ==> rows[i].state == New
    modifies rows
    ensures Dirty(rows, llm)
    ensures crashed <==> ScreenCrashes(llm, |rows|)
    ensures scored == ScreenedCount(llm, |rows|)
  {
    if llm.None? {
      return 0, false;
    }
    ScreenedLenIsPrefix(rows);
    scored, crashed := ScreenPostings(llm.value, rows, SCREEN_LIMIT_PER_POLL);
  }

  /** The rows scored at the first n positions are all there. */
  ghost predicate Intact(table: map<PostingId, Posting>, order: seq<PostingId>, llm: Option<Oracle>, n: nat)
    requires n <= |order|
  {
    forall i :: 0 <= i < n && Scores(llm, |order|, i) ==> order[i] in table
  }

  /** Flushes the dirty rows. One that is gone makes the flush raise, which is None, or is passed over. */
  method Flush(table: map<PostingId, Posting>, order: seq<PostingId>, rows: seq<PostingRow>, ghost llm: Option<Oracle>,
               missing: MissingRows) returns (written: Option<map<PostingId, Posting>>)
    requires |rows| == |order| && Dirty(rows, llm)
    ensures written.None? <==> missing.CommitLost? && !Intact(table, order, llm, |order|)
    ensures written.Some? ==> written.value == WriteScores(table, order, llm, |order|)
  {
    var all := table;
    for i := 0 to |order|
      invariant all == WriteScores(table, order, llm, i)
      invariant missing.CommitLost? ==> Intact(table, order, llm, i)
    {
      FlushStep(table, order, llm, i);
      var there;
      all, there := FlushRow(all, order, i, rows[i], llm);
      if !there && missing.CommitLost? {
        return None;
      }
    }
    written := Some(all);
  }

  lemma FlushStep(table: map<PostingId, Posting>, order: seq<PostingId>, llm: Option<Oracle>, i: nat)
    requires i < |order|
    ensures WriteScores(table, order, llm, i).Keys == table.Keys
    ensures WriteScores(table, order, llm, i + 1) == WriteScore(WriteScores(table, order, llm, i), order, llm, i)
    ensures Intact(table, order, llm, i + 1) <==>
              Intact(table, order, llm, i) && (Scores(llm, |order|, i) ==> order[i] in table)
  {
    WriteScoresKeys(table, order, llm, i);
  }

  method FlushRow(all: map<PostingId, Posting>, order: seq<PostingId>, i: nat, row: PostingRow,
                  ghost llm: Option<Oracle>)
    returns (all': map<PostingId, Posting>, there: bool)
    requires i < |order| && RowAnswers(row, llm, |order|, i)
    ensures there <==> (Scores(llm, |order|, i) ==> order[i] in all)
    ensures all' == WriteScore(all, order, llm, i) && all'.Keys == all.Keys
  {
    all', there := all, true;
    if row.state == Screened {
      if order[i] !in all {
        return all, false;
      }
      all' := all[order[i] := all[order[i]].(state := Screened, score := row.screenScore, reason := row.screenReason)];
    }
  }

  method TriageUnseen(unseen: seq<Item>, llm: Option<Triage.Oracle>) returns (relevant: Option<seq<Item>>, calls: nat)
    ensures relevant == Relevant(unseen, llm)
    ensures calls <= 2 * Triage.MAX_TRIAGE_BATCHES
  {
    if unseen == [] || llm.None? {
      return Some(unseen), 0;
    }
    relevant, calls := Triage.TriagePostings(llm.value, unseen);
  }

  lemma CommitTells(s: Feed, c: CompanyId, order: seq<PostingId>, held: CompanyStatus, llm: Option<Oracle>, now: Time,
                    missing: MissingRows)
    requires FeedOk(s) && c < s.nextCompany
    requires forall i, j :: 0 <= i < j < |order| ==> order[i] != order[j]
    requires forall p :: p in order ==> p < s.nextPosting && (p in s.postings ==> s.postings[p].company == c)
    ensures var s' := ScreenedAtOnce(s, c, order, held, llm, now, missing);
            if Goes(s.companies, s.postings, c, order, llm, missing)
            then ScreenWrites(s.postings, s'.postings, order, llm)
                 && CompanyFinalised(s.companies, s'.companies, c, held, CrashMade(llm, |order|), now)
            else s'.postings == s.postings && s'.companies == s.companies
    ensures FinishCommits(s, Snapshot(c, order, held), llm, missing) <==>
              Goes(s.companies, s.postings, c, order, llm, missing)
    ensures ScreenedCount(llm, |order|) == |AnsweredAt(llm, |order|)|
  {
    FinishComesTo(BeginScreen(s, 0, c, order, held), 0, llm, now, missing);
    GoesIff(s, Snapshot(c, order, held), llm, missing);
    ScreenedCountIsAnswers(llm, |order|);
  }

  /** What the target request stores: the text without surrounding white space, or nothing when that is empty. */
  function StoredTarget(target: Option<string>): Option<string> {
    if target.None? || Strip(target.value) == "" then None else Some(Strip(target.value))
  }

  /** Of the rows that are not to be visited any more, those the target request keeps are left. */
  ghost predicate KeptSoFar(rows: map<PostingId, Posting>, before: map<PostingId, Posting>, profile: ProfileId,
                            todo: set<PostingId>) {
    && rows.Keys <= before.Keys
    && (forall p :: p in rows ==> rows[p] == before[p])
    && (forall p :: p in before && p !in todo ==>
          (p in rows <==> !(before[p].profile == profile && Undecided(before[p]))))
  }

  lemma OneMoreGone(rows: map<PostingId, Posting>, before: map<PostingId, Posting>, profile: ProfileId,
                    todo: set<PostingId>, p: PostingId)
    requires KeptSoFar(rows, before, profile, todo)
    requires p in todo && p in rows && rows[p].profile == profile && Undecided(rows[p])
    ensures KeptSoFar(rows - {p}, before, profile, todo - {p})
    ensures |before.Keys - (rows - {p}).Keys| == |before.Keys - rows.Keys| + 1
  {
    assert before.Keys - (rows - {p}).Keys == (before.Keys - rows.Keys) + {p};
  }

  /** Of the profile's rows the new and the screened ones are gone; every other row is as before. */
  ghost predicate UndecidedGone(before: map<PostingId, Posting>, after: map<PostingId, Posting>, profile: ProfileId) {
    && (forall p :: p in after <==>
          p in before && !(before[p].profile == profile && (before[p].state == New || before[p].state == Screened)))
    && (forall p :: p in after ==> after[p] == before[p])
  }

  /** The profile's active companies have never been polled; nothing else about a company changes. */
  ghost predicate ActiveDue(before: map<CompanyId, Company>, after: map<CompanyId, Company>, profile: ProfileId) {
    && after.Keys == before.Keys
    && forall c :: c in before ==>
         after[c] == if before[c].profile == profile && before[c].status == Active
                     then before[c].(lastPolled := None) else before[c]
  }

  lemma TargetTells(s: Feed, profile: ProfileId)
    requires FeedOk(s)
    ensures FeedOk(SetTarget(s, profile))
    ensures UndecidedGone(s.postings, SetTarget(s, profile).postings, profile)
    ensures ActiveDue(s.companies, SetTarget(s, profile).companies, profile)
  {
    SetTargetKeepsOk(s, profile);
  }

  lemma AllVisited(rows: map<PostingId, Posting>, before: map<PostingId, Posting>, profile: ProfileId)
    requires KeptSoFar(rows, before, profile, {})
    ensures rows == KeptRows(before, profile)
  {
  }

  method ActiveCompanies(companies: map<CompanyId, Company>, profile: ProfileId) returns (ids: set<CompanyId>)
    ensures forall c :: c in ids <==>
              c in companies && companies[c].profile == profile && companies[c].status.Active?
  {
    ids := set c | c in companies && companies[c].profile == profile && companies[c].status == Active;
  }

  // ---------------------------------------------------------------------------------------------
  // The tables
  // ---------------------------------------------------------------------------------------------

  datatype PromoteOutcome = NoSuchPosting | AlreadyPromoted(job: JobId) | ExtractionFailed | JobMade(job: JobId)

  ghost predicate JobWithUrl(jobs: map<JobId, Job>, url: Option<string>) {
    Truthy(url) && exists j :: j in jobs && jobs[j].url == url
  }

  /** What a promotion does and answers. A posting that has a job keeps it. Otherwise it becomes promoted and names a
      job: one that has its normalised URL, or else a new one made for it with that URL, if the extraction succeeds.
      Nothing else changes. */
  ghost predicate Promotion(before: map<PostingId, Posting>, after: map<PostingId, Posting>,
                            jobsBefore: map<JobId, Job>, jobsAfter: map<JobId, Job>,
                            p: PostingId, structured: bool, outcome: PromoteOutcome) {
    if p !in before then outcome.NoSuchPosting? && after == before && jobsAfter == jobsBefore
    else if before[p].job.Some? then
      outcome == AlreadyPromoted(before[p].job.value) && after == before && jobsAfter == jobsBefore
    else
      var url := if Truthy(before[p].advert.url) then NormalizeJobUrl(before[p].advert.url) else None;
      if JobWithUrl(jobsBefore, url) then
        && outcome.AlreadyPromoted? && outcome.job in jobsBefore && jobsBefore[outcome.job].url == url
        && after == before[p := before[p].(job := Some(outcome.job), state := Promoted)] && jobsAfter == jobsBefore
      else if !structured then outcome.ExtractionFailed? && after == before && jobsAfter == jobsBefore
      else
        && outcome.JobMade? && outcome.job !in jobsBefore
        && after == before[p := before[p].(job := Some(outcome.job), state := Promoted)]
        && jobsAfter == jobsBefore[outcome.job := Job(url, Some(p))]
  }

  /** The answer of the request, from the job the lookup found. */
  function PromoteAnswer(s: Feed, p: PostingId, found: Option<JobId>, structured: bool): PromoteOutcome {
    if p !in s.postings then NoSuchPosting
    else if s.postings[p].job.Some? then AlreadyPromoted(s.postings[p].job.value)
    else if found.Some? then AlreadyPromoted(found.value)
    else if structured then JobMade(s.nextJob)
    else ExtractionFailed
  }

  ghost predicate DecidedAndOut(s: Feed, p: PostingId) {
    p in s.postings && Decided(s.postings[p]) && forall profile :: !InDefaultFeed(s, profile, p)
  }

  lemma PromoteTells(s: Feed, p: PostingId, found: Option<JobId>, structured: bool)
    requires FeedOk(s) && Enabled(s, DoPromote(p, found, structured))
    ensures var s' := Promote(s, p, found, structured);
            && FeedOk(s')
            && var answer := PromoteAnswer(s, p, found, structured);
            && Promotion(s.postings, s'.postings, s.jobs, s'.jobs, p, structured, answer)
            && (p in s.postings && (answer.JobMade? || answer.AlreadyPromoted?) && s.postings[p].job.None? ==>
                  DecidedAndOut(s', p))
  {
    PromoteKeepsOk(s, p, found, structured);
  }

  datatype CreateOutcome = Conflict(existing: JobId) | Created(job: JobId)

  class RadarDb {
    var companies: map<CompanyId, Company>
    var postings: map<PostingId, Posting>
    var jobs: map<JobId, Job>
    var nextCompany: CompanyId
    var nextPosting: PostingId
    var nextJob: JobId
    /** The polling_started_at column. */
    var claims: map<CompanyId, Option<Time>>
    /** The radar_target column of the profiles. */
    var targets: map<ProfileId, Option<string>>
    /** How the database driver treats a flush that finds a row gone. */
    const missing: MissingRows

    /** The rows. A poll that is waiting for the LLM holds its list of row ids outside the tables. */
    ghost function State(): Feed
      reads this
    {
      Feed(companies, postings, jobs, map[], nextCompany, nextPosting, nextJob)
    }

    ghost predicate Valid()
      reads this
    {
      FeedOk(State()) && claims.Keys == companies.Keys
    }

    constructor (missing: MissingRows)
      ensures Valid() && Initial(State()) && this.missing == missing
    {
      this.missing := missing;
      companies, postings, jobs, claims, targets := map[], map[], map[], map[], map[];
      nextCompany, nextPosting, nextJob := 0, 0, 0;
    }

    // The poller

    /** Takes the claim unless another transaction has the row locked, which skips the row, or somebody holds a
        claim younger than the limit. */
    method ClaimCompany(c: CompanyId, now: Time, rowLocked: bool) returns (claimed: bool)
      requires Valid()
      modifies this`claims
      ensures Valid() && State() == old(State())
      ensures claimed <==>
                && !rowLocked && c in old(claims)
                && (old(claims)[c].None? || now - old(claims)[c].value >= Lease.STALE_CLAIM_MINUTES)
      ensures claims == if claimed then old(claims)[c := Some(now)] else old(claims)
    {
      if c !in claims || rowLocked {
        return false;
      }
      var claimedAt := claims[c];
      if claimedAt.Some? && claimedAt.value > now - Lease.STALE_CLAIM_MINUTES {
        return false;
      }
      claims := claims[c := Some(now)];
      claimed := true;
    }

    /** Upsert on (company, external id). The number of new rows, or None when the flush fails. */
    method StorePostings(c: CompanyId, incoming: seq<Item>, now: Time) returns (added: Option<nat>)
      requires Valid()
      modifies this`postings, this`nextPosting
      ensures State() == Store(old(State()), c, incoming, now) && Valid()
      ensures StoreReport(companies, old(postings), postings, c, incoming, now, added)
    {
      if incoming == [] {
        StoringNothing(State(), c, now);
        return Some(0);
      }
      StoreReports(State(), c, incoming, now);
      added := Upsert(c, incoming, now);
    }

    /** The refreshed rows and the new ones in one flush. */
    method Upsert(c: CompanyId, incoming: seq<Item>, now: Time) returns (added: Option<nat>)
      requires Valid()
      modifies this`postings, this`nextPosting
      ensures State() == Store(old(State()), c, incoming, now)
      ensures added == AddedBy(old(State()), c, incoming)
    {
      assert RolesDistinct(postings, c) by {
        assert UniqueRoles(State());
      }
      var rows, items := SplitIncoming(postings, c, incoming, now);
      assert items == Fresh(incoming, Known(State(), c));
      if c !in companies || !DistinctIds(items) {
        return None;
      }
      var all := InsertRows(rows, c, companies[c].profile, items, nextPosting, now);
      InsertedIsStored(State(), c, incoming, now, rows, all);
      postings, nextPosting := all, nextPosting + |items|;
      added := Some(|items|);
    }

    method UnscreenedPostings(c: CompanyId) returns (order: seq<PostingId>)
      ensures ToScreen(order, postings, c) && PendingOrder(State(), c, order)
    {
      order := InOrder(postings, set p | p in postings && postings[p].company == c && postings[p].state == New);
    }

    /** Screens the rows that were read and finalises: scores, the company's status and the claim in one commit.
        When the commit fails the poll dies, its claim still set. */
    method ScreenAndFinalise(c: CompanyId, order: seq<PostingId>, held: CompanyStatus, llm: Option<Oracle>, now: Time)
      returns (scored: nat, committed: bool)
      requires Valid()
      requires forall i, j :: 0 <= i < j < |order| ==> order[i] != order[j]
      requires forall p :: p in order ==> p < nextPosting && (p in postings ==> postings[p].company == c)
      requires c < nextCompany
      modifies this`postings, this`companies, this`claims
      ensures State() == ScreenedAtOnce(old(State()), c, order, held, llm, now, missing) && Valid()
      ensures committed <==> Goes(old(companies), old(postings), c, order, llm, missing)
      ensures committed ==>
                && ScreenWrites(old(postings), postings, order, llm)
                && CompanyFinalised(old(companies), companies, c, held, CrashMade(llm, |order|), now)
                && claims == old(claims)[c := None]
      ensures !committed ==> postings == old(postings) && companies == old(companies) && claims == old(claims)
      ensures scored == |AnsweredAt(llm, |order|)|
    {
      CommitTells(State(), c, order, held, llm, now, missing);
      scored, committed := ScreenAndCommit(c, order, held, llm, now);
    }

    /** The screening loop, then the flush and the company's columns in one commit. */
    method ScreenAndCommit(c: CompanyId, order: seq<PostingId>, held: CompanyStatus, llm: Option<Oracle>, now: Time)
      returns (scored: nat, committed: bool)
      requires Valid()
      requires forall i, j :: 0 <= i < j < |order| ==> order[i] != order[j]
      requires forall p :: p in order ==> p < nextPosting && (p in postings ==> postings[p].company == c)
      requires c < nextCompany
      modifies this`postings, this`companies, this`claims
      ensures State() == ScreenedAtOnce(old(State()), c, order, held, llm, now, missing) && Valid()
      ensures committed <==> FinishCommits(old(State()), Snapshot(c, order, held), llm, missing)
      ensures claims == if committed then old(claims)[c := None] else old(claims)
      ensures scored == ScreenedCount(llm, |order|)
    {
      FinishAsCommit(State(), c, order, held, llm, now, missing);
      var rows := ReadRows(|order|);
      var crashed;
      scored, crashed := Screen(rows, llm);
      var written := Flush(postings, order, rows, llm, missing);
      committed := written.Some? && c in companies;
      if committed {
        postings := written.value;
        Finalise(c, held, if crashed then Failed else Active, now);
      }
    }

    /** The company's columns of the final commit; a status equal to the one the session holds is not written. */
    method Finalise(c: CompanyId, held: CompanyStatus, outcome: CompanyStatus, now: Time)
      requires c in companies
      modifies this`companies, this`claims
      ensures State() == Fail(old(State()), c, FinalStatus(old(companies)[c].status, held, outcome), now)
      ensures claims == old(claims)[c := None]
    {
      var company := companies[c];
      if outcome != held {
        company := company.(status := outcome);
      }
      companies := companies[c := company.(lastPolled := Some(now))];
      claims := claims[c := None];
    }

    /** A fetch, triage or store that fails: the error stays on the row, the claim is released. */
    method FinaliseFailed(c: CompanyId, held: CompanyStatus, outcome: CompanyStatus, now: Time)
      requires Valid() && c in companies
      modifies this`companies, this`claims
      ensures State() == Fail(old(State()), c, FinalStatus(old(companies)[c].status, held, outcome), now) && Valid()
      ensures held != outcome ==> companies == Polled(old(companies), c, outcome, now)
      ensures held == outcome ==> companies == Polled(old(companies), c, old(companies)[c].status, now)
      ensures claims == old(claims)[c := None]
    {
      FailKeepsOk(State(), c, FinalStatus(companies[c].status, held, outcome), now);
      Finalise(c, held, outcome, now);
    }

    // The requests

    method AddWatchedCompany(profile: ProfileId, board: string) returns (added: Option<CompanyId>)
      requires Valid()
      modifies this`companies, this`nextCompany, this`claims
      ensures State() == AddCompany(old(State()), profile, board) && Valid()
      ensures added.None? <==>
                exists c ::
                  c in old(companies) && old(companies)[c].profile == profile && old(companies)[c].board == board
      ensures added.None? ==> companies == old(companies) && claims == old(claims)
      ensures added.Some? ==>
                && added.value !in old(companies) && claims == old(claims)[added.value := None]
                && companies == old(companies)[added.value := Company(profile, board, Active, None)]
    {
      AddCompanyKeepsOk(State(), profile, board);
      if exists c :: c in companies && companies[c].profile == profile && companies[c].board == board {
        return None;
      }
      companies := companies[nextCompany := Company(profile, board, Active, None)];
      claims := claims[nextCompany := None];
      added := Some(nextCompany);
      nextCompany := nextCompany + 1;
    }

    method RemoveWatchedCompany(c: CompanyId)
      requires Valid()
      modifies this`companies, this`postings, this`claims
      ensures State() == RemoveCompany(old(State()), c) && Valid()
      ensures companies == old(companies) - {c} && claims == old(claims) - {c}
      ensures forall p :: p in postings <==> p in old(postings) && old(postings)[p].company != c
      ensures forall p :: p in postings ==> postings[p] == old(postings)[p]
    {
      RemoveCompanyKeepsOk(State(), c);
      postings := map p | p in postings && postings[p].company != c :: postings[p];
      companies, claims := companies - {c}, claims - {c};
    }

    /** Stores the trimmed target, deletes the profile's undecided postings and makes its active companies due.
        Returns what is to be polled at once. */
    method SetRadarTarget(profile: ProfileId, target: Option<string>)
      returns (cleared: nat, repolled: set<CompanyId>)
      requires Valid()
      modifies this`companies, this`postings, this`targets
      ensures State() == SetTarget(old(State()), profile) && Valid()
      ensures UndecidedGone(old(postings), postings, profile)
      ensures cleared == |old(postings).Keys - postings.Keys|
      ensures forall c :: c in repolled <==>
                c in old(companies) && old(companies)[c].profile == profile && old(companies)[c].status.Active?
      ensures ActiveDue(old(companies), companies, profile)
      ensures targets == old(targets)[profile :=
                           if target.None? || Strip(target.value) == "" then None else Some(Strip(target.value))]
    {
      TargetTells(State(), profile);
      targets := targets[profile := StoredTarget(target)];
      cleared := DeleteUndecided(profile);
      repolled := ActiveCompanies(companies, profile);
      MakeDue(profile, repolled);
    }

    method DeleteUndecided(profile: ProfileId) returns (cleared: nat)
      modifies this`postings
      ensures postings == KeptRows(old(postings), profile)
      ensures cleared == |old(postings).Keys - postings.Keys|
    {
      ghost var before := postings;
      var rows, todo := postings, postings.Keys;
      cleared := 0;
      assert rows.Keys - rows.Keys == {};
      while todo != {}
        invariant todo <= rows.Keys
        invariant KeptSoFar(rows, before, profile, todo)
        invariant cleared == |before.Keys - rows.Keys|
        decreases todo
      {
        var p :| p in todo;
        if rows[p].profile == profile && (rows[p].state == New || rows[p].state == Screened) {
          OneMoreGone(rows, before, profile, todo, p);
          rows := rows - {p};
          cleared := cleared + 1;
        }
        todo := todo - {p};
      }
      AllVisited(rows, before, profile);
      postings := rows;
    }

    method MakeDue(profile: ProfileId, repolled: set<CompanyId>)
      requires forall c :: c in repolled <==>
                 c in companies && companies[c].profile == profile && companies[c].status.Active?
      modifies this`companies
      ensures companies == DueAgain(old(companies), profile)
    {
      ghost var before := companies;
      var todo := repolled;
      while todo != {}
        invariant todo <= repolled && companies.Keys == before.Keys
        invariant forall c :: c in before ==>
                    companies[c] == if c in repolled - todo then before[c].(lastPolled := None) else before[c]
        decreases todo
      {
        var c :| c in todo;
        companies := companies[c := companies[c].(lastPolled := None)];
        todo := todo - {c};
      }
    }

    method DismissPosting(p: PostingId) returns (ok: bool)
      requires Valid()
      modifies this`postings
      ensures State() == Dismiss(old(State()), p) && Valid()
      ensures ok <==> p in old(postings)
      ensures postings == if ok then old(postings)[p := old(postings)[p].(state := Dismissed)] else old(postings)
    {
      DismissKeepsOk(State(), p);
      if p !in postings {
        return false;
      }
      postings := postings[p := postings[p].(state := Dismissed)];
      ok := true;
    }

    method FindJob(url: Option<string>) returns (found: Option<JobId>)
      ensures Finds(State(), url, found)
      ensures found.Some? ==> Truthy(url) && found.value in jobs && jobs[found.value].url == url
      ensures found.None? && Truthy(url) ==> forall j :: j in jobs ==> jobs[j].url != url
    {
      if !Truthy(url) {
        return None;
      }
      var todo := jobs.Keys;
      while todo != {}
        invariant todo <= jobs.Keys && forall j :: j in jobs && j !in todo ==> jobs[j].url != url
        decreases todo
      {
        var j :| j in todo;
        if jobs[j].url == url {
          return Some(j);
        }
        todo := todo - {j};
      }
      found := None;
    }

    method LinkPosting(p: PostingId, j: JobId)
      requires p in postings
      modifies this`postings
      ensures State() == Linked(old(State()), p, j)
    {
      postings := postings[p := postings[p].(job := Some(j), state := Promoted)];
    }

    method InsertJob(job: Job) returns (id: JobId)
      modifies this`jobs, this`nextJob
      ensures State() == AddJob(old(State()), job) && id == old(nextJob) && nextJob == id + 1
    {
      id := nextJob;
      jobs := jobs[id := job];
      nextJob := id + 1;
    }

    /** structured is the outcome of the extraction call, which is only made when no job is found. */
    method PromotePosting(p: PostingId, structured: bool) returns (outcome: PromoteOutcome, ghost found: Option<JobId>)
      requires Valid()
      modifies this`postings, this`jobs, this`nextJob
      ensures Enabled(old(State()), DoPromote(p, found, structured))
      ensures State() == Promote(old(State()), p, found, structured) && Valid()
      ensures Promotion(old(postings), postings, old(jobs), jobs, p, structured, outcome)
      ensures p in old(postings) && (outcome.JobMade? || outcome.AlreadyPromoted?) && old(postings)[p].job.None? ==>
                DecidedAndOut(State(), p)
    {
      if p !in postings {
        return NoSuchPosting, None;
      }
      var posting := postings[p];
      var normalizedUrl := if Truthy(posting.advert.url) then NormalizeJobUrl(posting.advert.url) else None;
      var existing := FindJob(normalizedUrl);
      found := existing;
      PromoteTells(State(), p, existing, structured);
      if posting.job.Some? {
        return AlreadyPromoted(posting.job.value), existing;
      }
      outcome := LinkToJob(p, normalizedUrl, existing, structured);
    }

    /** Links a posting without a job to the job that was found, or to a new one. */
    method LinkToJob(p: PostingId, url: Option<string>, existing: Option<JobId>, structured: bool)
      returns (outcome: PromoteOutcome)
      requires p in postings && postings[p].job.None? && url == PromotedUrl(postings[p])
      modifies this`postings, this`jobs, this`nextJob
      ensures State() == Promote(old(State()), p, existing, structured)
      ensures outcome == PromoteAnswer(old(State()), p, existing, structured)
    {
      if existing.Some? {
        LinkPosting(p, existing.value);
        return AlreadyPromoted(existing.value);
      }
      if !structured {
        return ExtractionFailed;
      }
      var id := InsertJob(Job(url, Some(p)));
      LinkPosting(p, id);
      outcome := JobMade(id);
    }

    method CreateJobRow(url: Option<string>) returns (outcome: CreateOutcome, ghost found: Option<JobId>)
      requires Valid()
      modifies this`jobs, this`nextJob
      ensures Enabled(old(State()), DoCreateJob(url, found))
      ensures State() == CreateJob(old(State()), url, found) && Valid()
      ensures outcome.Conflict? <==>
                Truthy(url) && JobWithUrl(old(jobs), NormalizeJobUrl(NormalizeJobUrl(url)))
      ensures outcome.Conflict? ==>
                && jobs == old(jobs) && outcome.existing in jobs
                && jobs[outcome.existing].url == NormalizeJobUrl(NormalizeJobUrl(url))
      ensures outcome.Created? ==>
                && outcome.job !in old(jobs)
                && jobs == old(jobs)[outcome.job := Job(if Truthy(url) then NormalizeJobUrl(url) else url, None)]
    {
      var stored, existing := url, None;
      if Truthy(url) {
        stored := NormalizeJobUrl(url);
        existing := FindJob(NormalizeJobUrl(stored));
      }
      found := existing;
      if existing.Some? {
        return Conflict(existing.value), existing;
      }
      AddJobKeepsOk(State(), Job(stored, None));
      var id := InsertJob(Job(stored, None));
      outcome := Created(id);
    }

    /** The second half of a poll: read what is pending, screen it, finalise. */
    method ScreenPending(c: CompanyId, llm: Option<Oracle>, now: Time)
      returns (screened: nat, ghost order: seq<PostingId>)
      requires Valid() && c in companies
      modifies this`postings, this`companies, this`claims
      ensures Valid() && PolledTo(old(State()), State(), c, order, llm, screened, now)
      ensures claims == old(claims)[c := None]
    {
      var pending := UnscreenedPostings(c);
      order := pending;
      ScreenedCountIsAnswers(llm, |order|);
      GoesIff(State(), Snapshot(c, order, companies[c].status), llm, missing);
      assert forall p :: p in order ==> IsPending(State(), c, p);
      IntactScreenCommits(State(), State(), c, order, llm);
      forall other {
        DriverDoesNotMatter(State(), c, order, companies[c].status, llm, now, missing, other);
      }
      var committed;
      screened, committed := ScreenAndFinalise(c, pending, companies[c].status, llm, now);
    }

    /** The first half: filter, triage what is unseen, store. None when the LLM client raises something triage
        does not catch; otherwise whether the store's flush went through. */
    method TriageAndStore(c: CompanyId, fetched: seq<Item>, wanted: Item -> bool, llm: Option<Triage.Oracle>, now: Time)
      returns (ok: Option<bool>, newPostings: nat, dropped: nat)
      requires Valid()
      modifies this`postings, this`nextPosting
      ensures Valid()
      ensures ok.Some? <==> ToStore(Filter(fetched, wanted), Known(old(State()), c), llm).Some?
      ensures ok != Some(true) ==> State() == old(State())
      ensures ok.None? ==> newPostings == dropped == 0
      ensures ok.Some? ==>
                var items := ToStore(Filter(fetched, wanted), Known(old(State()), c), llm).value;
                && State() == Store(old(State()), c, items, now)
                && (ok.value <==> items == [] || StoreAccepted(old(State()), c, items))
                && (ok.value ==>
                      && newPostings == |postings.Keys - old(postings).Keys|
                      && newPostings + dropped == |Unseen(Filter(fetched, wanted), Known(old(State()), c))|)
    {
      newPostings, dropped := 0, 0;
      var eligible := Filter(fetched, wanted);
      var known := set p | p in postings && postings[p].company == c :: postings[p].externalId;
      assert known == Known(State(), c);
      var unseen := Unseen(eligible, known);
      var relevant, calls := TriageUnseen(unseen, llm);
      if relevant.None? {
        return None, 0, 0;
      }
      RelevantIsFewer(unseen, llm);
      dropped := |unseen| - |relevant.value|;
      FreshIsRelevant(eligible, known, llm);
      var items := Seen(eligible, known) + relevant.value;
      AcceptedIff(State(), c, items);
      NewRowsAreFresh(State(), c, items, now);
      var added := StorePostings(c, items, now);
      ok := Some(added.Some?);
      if added.Some? {
        newPostings := added.value;
      }
    }

    /** A claimed poll up to its last commit, with nothing in between. The board and the LLM are parameters. */
    method PollClaimed(c: CompanyId, fetch: Fetch, wanted: Item -> bool, triage: Option<Triage.Oracle>,
                       screen: Option<Oracle>, stored: Time, end: Time)
      returns (outcome: PollOutcome, newPostings: nat, dropped: nat, screened: nat, ghost trace: PollTrace)
      requires Valid() && c in companies
      modifies this
      ensures Valid()
      ensures PollReport(old(State()), State(), c, fetch, wanted, triage, screen, stored, end,
                         outcome, newPostings, dropped, screened, trace)
      ensures PollTells(old(State()), State(), c, fetch, wanted, triage, screen, stored, end,
                        outcome, newPostings, dropped, screened, trace)
      ensures claims == if outcome.Died? then old(claims) else old(claims)[c := None]
    {
      newPostings, dropped, screened := 0, 0, 0;
      ghost var before := State();
      trace := PollTrace([], [], [], map[], []);
      if fetch.Fetched? {
        trace := TraceFrom(before, c, fetch.items, wanted, triage, stored);
      }
      outcome, newPostings, dropped, screened, trace := PollBody(c, fetch, wanted, triage, screen, stored, end, trace);
      ReportTells(before, State(), c, fetch, wanted, triage, screen, stored, end,
                  outcome, newPostings, dropped, screened, trace);
    }

    /** The body of a poll, which leaves the order it screens in the trace. */
    method PollBody(c: CompanyId, fetch: Fetch, wanted: Item -> bool, triage: Option<Triage.Oracle>,
                    screen: Option<Oracle>, stored: Time, end: Time, ghost begun: PollTrace)
      returns (outcome: PollOutcome, newPostings: nat, dropped: nat, screened: nat, ghost trace: PollTrace)
      requires Valid() && c in companies
      modifies this
      ensures Valid() && trace == begun.(order := trace.order)
      ensures PollReport(old(State()), State(), c, fetch, wanted, triage, screen, stored, end,
                         outcome, newPostings, dropped, screened, trace)
      ensures claims == if outcome.Died? then old(claims) else old(claims)[c := None]
    {
      trace := begun;
      if !fetch.Fetched? {
        FinaliseFailed(c, companies[c].status, if fetch.BoardGone? then Unresolved else Failed, end);
        return Errored, 0, 0, 0, begun;
      }
      var ok;
      ok, newPostings, dropped := TriageAndStore(c, fetch.items, wanted, triage, stored);
      if ok.None? {
        FinaliseFailed(c, companies[c].status, Failed, end);
        return Errored, newPostings, dropped, 0, begun;
      }
      if !ok.value {
        return Died, newPostings, dropped, 0, begun;
      }
      ghost var order;
      screened, order := ScreenPending(c, screen, end);
      outcome, trace := Finished, begun.(order := order);
    }

    /** A whole poll. A claim that is refused changes nothing. */
    method PollCompany(c: CompanyId, rowLocked: bool, fetch: Fetch, wanted: Item -> bool,
                       triage: Option<Triage.Oracle>, screen: Option<Oracle>, start: Time, stored: Time, end: Time)
      returns (outcome: PollOutcome, newPostings: nat, dropped: nat, screened: nat, ghost trace: PollTrace)
      requires Valid()
      modifies this
      ensures Valid()
      ensures outcome.AlreadyRunning? <==>
                || rowLocked || c !in old(claims)
                || (old(claims)[c].Some? && start - old(claims)[c].value < Lease.STALE_CLAIM_MINUTES)
      ensures outcome.AlreadyRunning? ==> State() == old(State()) && claims == old(claims)
      ensures !outcome.AlreadyRunning? ==>
                && PollReport(old(State()), State(), c, fetch, wanted, triage, screen, stored, end,
                              outcome, newPostings, dropped, screened, trace)
                && PollTells(old(State()), State(), c, fetch, wanted, triage, screen, stored, end,
                             outcome, newPostings, dropped, screened, trace)
                && claims == old(claims)[c := if outcome.Died? then Some(start) else None]
    {
      ghost var before: map<CompanyId, Option<Time>> := claims;
      var claimed := ClaimCompany(c, start, rowLocked);
      if !claimed {
        return AlreadyRunning, 0, 0, 0, PollTrace([], [], [], map[], []);
      }
      assert before[c := Some(start)][c := None] == before[c := None];
      outcome, newPostings, dropped, screened, trace := PollClaimed(c, fetch, wanted, triage, screen, stored, end);
    }
  }
}
