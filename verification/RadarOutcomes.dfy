/** What polls come to, told row by row and column by column from what the board and the LLM replied. */
module RadarOutcomes {
  import opened Options
  import opened RadarFeed
  import opened RadarPoll
  import opened RadarScreening
  import Triage = RadarTriage

  // ---------------------------------------------------------------------------------------------
  // The final commit of a screen
  // ---------------------------------------------------------------------------------------------

  /** The screen that read n rows makes the call for the one at position i. */
  ghost predicate CallMade(llm: Option<Oracle>, n: nat, i: nat) {
    llm.Some? && i < SCREEN_LIMIT_PER_POLL && Called(llm.value, n, i)
  }

  ghost predicate Answered(llm: Option<Oracle>, n: nat, i: nat) {
    CallMade(llm, n, i) && llm.value(i).Scored?
  }

  ghost predicate CrashMade(llm: Option<Oracle>, n: nat) {
    exists i :: CallMade(llm, n, i) && llm.value(i).Crashed?
  }

  lemma CallMadeIff(llm: Option<Oracle>, n: nat, i: nat)
    ensures CallMade(llm, n, i) <==> llm.Some? && Called(llm.value, ScreenedLen(n), i)
  {
  }

  lemma ScoresIff(llm: Option<Oracle>, n: nat, i: nat)
    ensures Scores(llm, n, i) <==> Answered(llm, n, i)
  {
    CallMadeIff(llm, n, i);
    if llm.Some? {
      ScoredIff(llm.value, ScreenedLen(n), i);
    }
  }

  lemma ScreenCrashesIff(llm: Option<Oracle>, n: nat)
    ensures ScreenCrashes(llm, n) <==> CrashMade(llm, n)
  {
    forall i: nat ensures CallMade(llm, n, i) <==> llm.Some? && Called(llm.value, ScreenedLen(n), i) {
      CallMadeIff(llm, n, i);
    }
    if llm.Some? {
      CrashIff(llm.value, ScreenedLen(n));
      if i: nat :| Called(llm.value, ScreenedLen(n), i) && llm.value(i).Crashed? {
        assert CallMade(llm, n, i);
      }
    }
  }

  /** A row whose call was answered carries that answer and is otherwise as before; every other row is as before. */
  ghost predicate ScreenWrites(before: map<PostingId, Posting>, after: map<PostingId, Posting>, order: seq<PostingId>,
                               llm: Option<Oracle>) {
    && after.Keys == before.Keys
    && (forall p :: p in before && p !in order ==> after[p] == before[p])
    && (forall i :: 0 <= i < |order| && order[i] in before ==>
          after[order[i]] ==
          if Answered(llm, |order|, i)
          then before[order[i]].(state := Screened, score := Some(llm.value(i).fitScore),
                                 reason := Some(llm.value(i).reason))
          else before[order[i]])
  }

  /** The company's row: just polled, and failed after a crash or else active, unless the session held that status
      already, when the row keeps the one it has by now. */
  ghost predicate CompanyFinalised(before: map<CompanyId, Company>, after: map<CompanyId, Company>, c: CompanyId,
                                   held: CompanyStatus, failed: bool, now: Time) {
    && c in before && after.Keys == before.Keys
    && (forall other :: other in before && other != c ==> after[other] == before[other])
    && after[c].profile == before[c].profile && after[c].board == before[c].board
    && after[c].lastPolled == Some(now)
    && (failed ==> after[c].status == if held == Failed then before[c].status else Failed)
    && (!failed ==> after[c].status == if held == Active then before[c].status else Active)
  }

  /** The commit goes through: the company is there, and where a missing row would lose the commit so is every row
      that was answered for. */
  ghost predicate Goes(companies: map<CompanyId, Company>, rows: map<PostingId, Posting>, c: CompanyId,
                       order: seq<PostingId>, llm: Option<Oracle>, missing: MissingRows) {
    && c in companies
    && (missing.RowsSkipped? || forall i :: 0 <= i < |order| && Answered(llm, |order|, i) ==> order[i] in rows)
  }

  lemma GoesIff(s: Feed, snapshot: Snapshot, llm: Option<Oracle>, missing: MissingRows)
    ensures FinishCommits(s, snapshot, llm, missing) <==>
              Goes(s.companies, s.postings, snapshot.company, snapshot.order, llm, missing)
  {
    forall i: nat ensures Scores(llm, |snapshot.order|, i) <==> Answered(llm, |snapshot.order|, i) {
      ScoresIff(llm, |snapshot.order|, i);
    }
  }

  lemma WritesComeTo(rows: map<PostingId, Posting>, order: seq<PostingId>, llm: Option<Oracle>)
    requires forall i, j :: 0 <= i < j < |order| ==> order[i] != order[j]
    ensures ScreenWrites(rows, WriteScores(rows, order, llm, |order|), order, llm)
  {
    WriteScoresKeys(rows, order, llm, |order|);
    forall p | p in rows && p !in order ensures WriteScores(rows, order, llm, |order|)[p] == rows[p] {
      WriteScoresElsewhere(rows, order, llm, |order|, p);
    }
    forall i | 0 <= i < |order| && order[i] in rows
      ensures WriteScores(rows, order, llm, |order|)[order[i]] ==
              if Answered(llm, |order|, i)
              then rows[order[i]].(state := Screened, score := Some(llm.value(i).fitScore),
                                   reason := Some(llm.value(i).reason))
              else rows[order[i]]
    {
      ScoresIff(llm, |order|, i);
      if Answered(llm, |order|, i) {
        WriteScoresAt(rows, order, llm, |order|, i);
      } else {
        WriteScoresElsewhere(rows, order, llm, |order|, order[i]);
      }
    }
  }

  /** What a finished screen leaves of the rows and of the companies, from the replies alone. */
  lemma FinishComesTo(s: Feed, t: TaskId, llm: Option<Oracle>, now: Time, missing: MissingRows)
    requires SnapshotsOk(s) && t in s.snapshots
    ensures var Snapshot(c, order, held) := s.snapshots[t];
            var s' := FinishScreen(s, t, llm, now, missing);
            && s'.jobs == s.jobs && s'.snapshots == s.snapshots - {t}
            && (s'.nextCompany, s'.nextPosting, s'.nextJob) == (s.nextCompany, s.nextPosting, s.nextJob)
            && if Goes(s.companies, s.postings, c, order, llm, missing)
               then ScreenWrites(s.postings, s'.postings, order, llm)
                    && CompanyFinalised(s.companies, s'.companies, c, held, CrashMade(llm, |order|), now)
               else s'.postings == s.postings && s'.companies == s.companies
  {
    var Snapshot(c, order, held) := s.snapshots[t];
    GoesIff(s, s.snapshots[t], llm, missing);
    WritesComeTo(s.postings, order, llm);
    ScreenCrashesIff(llm, |order|);
  }

  // ---------------------------------------------------------------------------------------------
  // Storing
  // ---------------------------------------------------------------------------------------------

  ghost predicate HasRow(rows: map<PostingId, Posting>, c: CompanyId, id: string) {
    exists p :: p in rows && rows[p].company == c && rows[p].externalId == id
  }

  /** Item k is the last with the id. */
  ghost predicate IsLast(items: seq<Item>, k: int, id: string) {
    && 0 <= k < |items| && items[k].externalId == id
    && forall m :: k < m < |items| ==> items[m].externalId != id
  }

  /** Item k is the last with the id that has a URL. */
  ghost predicate IsLastUrl(items: seq<Item>, k: int, id: string) {
    && 0 <= k < |items| && items[k].externalId == id && Truthy(items[k].advert.url)
    && forall m :: k < m < |items| && items[m].externalId == id ==> !Truthy(items[m].advert.url)
  }

  /** A row the company had: seen now, with the title and location of the last item with its id and the last URL one of
      them gave, if the board lists it; otherwise as it was. */
  ghost predicate SeenAgain(before: Posting, after: Posting, items: seq<Item>, now: Time) {
    var id := before.externalId;
    && after == before.(lastSeen := after.lastSeen, advert := after.advert)
    && (forall k :: IsLast(items, k, id) ==>
          && after.lastSeen == now && after.advert.title == items[k].advert.title
          && after.advert.location == items[k].advert.location)
    && (forall k :: IsLastUrl(items, k, id) ==> after.advert.url == items[k].advert.url)
    && ((forall k :: !IsLastUrl(items, k, id)) ==> after.advert.url == before.advert.url)
    && ((forall k :: !IsLast(items, k, id)) ==> after == before)
  }

  /** A row made for an item: new, unscored, with the item's columns. */
  predicate MadeFor(row: Posting, item: Item, c: CompanyId, profile: ProfileId, now: Time) {
    && row.company == c && row.profile == profile && row.externalId == item.externalId
    && row.advert == item.advert && row.description == item.description
    && row.state == New && row.score == None && row.reason == None && row.job == None
    && row.firstSeen == now && row.lastSeen == now
  }

  /** Every row of before is kept, the company's seen again; every other row is made for an item that had none; and
      every item has a row. */
  ghost predicate StoreWrites(before: map<PostingId, Posting>, after: map<PostingId, Posting>, items: seq<Item>,
                              c: CompanyId, profile: ProfileId, now: Time) {
    && (forall p :: p in before ==>
          p in after && if before[p].company == c then SeenAgain(before[p], after[p], items, now)
                        else after[p] == before[p])
    && (forall p :: p in after && p !in before ==>
          exists i :: 0 <= i < |items| && !HasRow(before, c, items[i].externalId)
                      && MadeFor(after[p], items[i], c, profile, now))
    && (forall i :: 0 <= i < |items| ==> HasRow(after, c, items[i].externalId))
  }

  lemma {:induction false} RefreshedUrl(row: Posting, items: seq<Item>, now: Time)
    ensures forall k :: IsLastUrl(items, k, row.externalId) ==>
              Refreshed(row, items, now).advert.url == items[k].advert.url
    ensures (forall k :: !IsLastUrl(items, k, row.externalId)) ==>
              Refreshed(row, items, now).advert.url == row.advert.url
  {
    if items != [] {
      var n := |items| - 1;
      var init := items[..n];
      RefreshedUrl(row, init, now);
      RefreshKeeps(row, init, now);
      assert items == init + [items[n]];
      if items[n].externalId == row.externalId && Truthy(items[n].advert.url) {
        assert IsLastUrl(items, n, row.externalId);
      } else {
        forall k ensures IsLastUrl(items, k, row.externalId) <==> IsLastUrl(init, k, row.externalId) {}
      }
    }
  }

  lemma RefreshedSeenAgain(row: Posting, items: seq<Item>, now: Time)
    ensures SeenAgain(row, Refreshed(row, items, now), items, now)
  {
    RefreshKeeps(row, items, now);
    RefreshedUrl(row, items, now);
    forall k | IsLast(items, k, row.externalId)
      ensures var after := Refreshed(row, items, now);
              && after.lastSeen == now && after.advert.title == items[k].advert.title
              && after.advert.location == items[k].advert.location
    {
      RefreshTakesLast(row, items, now, k);
    }
    if forall k :: !IsLast(items, k, row.externalId) {
      UnlistedHasNone(items, row.externalId);
      RefreshSkipsOthers(row, items, now);
    }
  }

  lemma {:induction false} UnlistedHasNone(items: seq<Item>, id: string)
    requires forall k :: !IsLast(items, k, id)
    ensures forall m :: 0 <= m < |items| ==> items[m].externalId != id
  {
    if items != [] {
      var n := |items| - 1;
      assert !IsLast(items, n, id);
      forall k ensures !IsLast(items[..n], k, id) {
        assert IsLast(items[..n], k, id) ==> IsLast(items, k, id);
      }
      UnlistedHasNone(items[..n], id);
      assert items == items[..n] + [items[n]];
    }
  }

  /** What an accepted store leaves of the rows. */
  lemma StoreComesTo(s: Feed, c: CompanyId, items: seq<Item>, now: Time)
    requires RowsOk(s) && StoreAccepted(s, c, items)
    ensures var s' := Store(s, c, items, now);
            && StoreWrites(s.postings, s'.postings, items, c, s.companies[c].profile, now)
            && s' == s.(postings := s'.postings, nextPosting := s'.nextPosting)
  {
    var s' := Store(s, c, items, now);
    forall p | p in s.postings
      ensures p in s'.postings
      ensures if s.postings[p].company == c then SeenAgain(s.postings[p], s'.postings[p], items, now)
              else s'.postings[p] == s.postings[p]
    {
      RefreshedSeenAgain(s.postings[p], items, now);
    }
    forall p | p in s'.postings && p !in s.postings
      ensures exists i :: 0 <= i < |items| && !HasRow(s.postings, c, items[i].externalId)
                          && MadeFor(s'.postings[p], items[i], c, s.companies[c].profile, now)
    {
      NewRowIsMade(s, c, items, now, p);
    }
    forall i | 0 <= i < |items| ensures HasRow(s'.postings, c, items[i].externalId) {
      StoredIsKnown(s, c, items, now, items[i]);
      KnownHasRow(s', c, items[i].externalId);
    }
  }

  /** No two of the items share an id the company has no row for. */
  ghost predicate NewIdsOnce(items: seq<Item>, rows: map<PostingId, Posting>, c: CompanyId) {
    forall i, j :: 0 <= i < j < |items| && items[i].externalId == items[j].externalId ==>
      HasRow(rows, c, items[i].externalId)
  }

  /** When a store is accepted, from the rows it finds. */
  lemma AcceptedIff(s: Feed, c: CompanyId, items: seq<Item>)
    ensures StoreAccepted(s, c, items) <==> c in s.companies && NewIdsOnce(items, s.postings, c)
  {
    FreshDistinctIff(items, Known(s, c));
    forall id ensures id in Known(s, c) <==> HasRow(s.postings, c, id) {
      KnownHasRow(s, c, id);
    }
    if NewIdsOnce(items, s.postings, c) {
      forall id | id !in Known(s, c) ensures AtMostOnce(items, id) {}
    }
    if OnceOutside(items, Known(s, c)) {
      forall i, j | 0 <= i < j < |items| && items[i].externalId == items[j].externalId
        ensures HasRow(s.postings, c, items[i].externalId)
      {
        assert items[i].externalId in Known(s, c) || AtMostOnce(items, items[i].externalId);
      }
    }
  }

  /** What a store does and reports: nothing for no items, nothing and None where the flush fails, and otherwise the
      writes and the number of new rows. */
  ghost predicate StoreReport(companies: map<CompanyId, Company>, before: map<PostingId, Posting>,
                              after: map<PostingId, Posting>, c: CompanyId, items: seq<Item>, now: Time,
                              added: Option<nat>) {
    if items == [] then added == Some(0) && after == before
    else if c in companies && NewIdsOnce(items, before, c) then
      && StoreWrites(before, after, items, c, companies[c].profile, now)
      && added == Some(|after.Keys - before.Keys|)
    else added.None? && after == before
  }

  function AddedBy(s: Feed, c: CompanyId, items: seq<Item>): Option<nat> {
    if StoreAccepted(s, c, items) then Some(|Fresh(items, Known(s, c))|) else None
  }

  lemma StoreReports(s: Feed, c: CompanyId, items: seq<Item>, now: Time)
    requires FeedOk(s) && items != []
    ensures FeedOk(Store(s, c, items, now))
    ensures StoreReport(s.companies, s.postings, Store(s, c, items, now).postings, c, items, now, AddedBy(s, c, items))
  {
    StoreKeepsOk(s, c, items, now);
    AcceptedIff(s, c, items);
    if StoreAccepted(s, c, items) {
      StoreComesTo(s, c, items, now);
      StoreAddsFresh(s, c, items, now);
    }
  }

  lemma KnownHasRow(s: Feed, c: CompanyId, id: string)
    ensures id in Known(s, c) <==> HasRow(s.postings, c, id)
  {
    if HasRow(s.postings, c, id) {
      var p :| p in s.postings && s.postings[p].company == c && s.postings[p].externalId == id;
      assert s.postings[p].externalId in Known(s, c);
    }
  }

  lemma NewRowIsMade(s: Feed, c: CompanyId, items: seq<Item>, now: Time, p: PostingId)
    requires StoreAccepted(s, c, items) && p in Store(s, c, items, now).postings && p !in s.postings
    ensures exists i :: 0 <= i < |items| && !HasRow(s.postings, c, items[i].externalId)
                        && MadeFor(Store(s, c, items, now).postings[p], items[i], c, s.companies[c].profile, now)
  {
    StoredRow(s, c, items, now, p);
    var item := Fresh(items, Known(s, c))[p - s.nextPosting];
    FreshIsUnknown(items, Known(s, c));
    var i :| 0 <= i < |items| && items[i] == item;
    KnownHasRow(s, c, item.externalId);
    assert MadeFor(Store(s, c, items, now).postings[p], items[i], c, s.companies[c].profile, now);
  }

  // ---------------------------------------------------------------------------------------------
  // From the board to the rows
  // ---------------------------------------------------------------------------------------------

  predicate Increasing(ps: seq<nat>, n: nat) {
    && (forall a, b :: 0 <= a < b < |ps| ==> ps[a] < ps[b])
    && (forall a :: 0 <= a < |ps| ==> ps[a] < n)
  }

  /** What is wanted of a board, in the board's order. */
  ghost predicate WantedOf(eligible: seq<Item>, items: seq<Item>, wanted: Item -> bool) {
    exists ps :: Increasing(ps, |items|) && eligible == Triage.At(items, ps)
                 && forall i: nat :: i < |items| ==> (i in ps <==> wanted(items[i]))
  }

  /** Those of the wanted items the company has no row for, in their order. */
  ghost predicate UnseenOf(unseen: seq<Item>, eligible: seq<Item>, rows: map<PostingId, Posting>, c: CompanyId) {
    exists ps :: Increasing(ps, |eligible|) && unseen == Triage.At(eligible, ps)
                 && forall i: nat :: i < |eligible| ==> (i in ps <==> !HasRow(rows, c, eligible[i].externalId))
  }

  lemma {:induction false} FilterPositions(items: seq<Item>, wanted: Item -> bool) returns (ps: seq<nat>)
    ensures Increasing(ps, |items|) && Filter(items, wanted) == Triage.At(items, ps)
    ensures forall i: nat :: i < |items| ==> (i in ps <==> wanted(items[i]))
  {
    ps := [];
    if items != [] {
      var n := |items| - 1;
      ps := FilterPositions(items[..n], wanted);
      assert Triage.At(items, ps) == Triage.At(items[..n], ps);
      if wanted(items[n]) {
        assert Triage.At(items, ps + [n]) == Triage.At(items, ps) + [items[n]];
        ps := ps + [n];
      }
    }
  }

  lemma FilterIsWanted(items: seq<Item>, wanted: Item -> bool)
    ensures WantedOf(Filter(items, wanted), items, wanted)
  {
    var ps := FilterPositions(items, wanted);
  }

  function NotIn(known: set<string>): Item -> bool {
    (item: Item) => item.externalId !in known
  }

  lemma {:induction false} FreshIsFilter(items: seq<Item>, known: set<string>)
    ensures Fresh(items, known) == Filter(items, NotIn(known))
  {
    if items != [] {
      FreshIsFilter(items[..|items| - 1], known);
    }
  }

  lemma FreshIsUnseen(s: Feed, c: CompanyId, eligible: seq<Item>)
    ensures UnseenOf(Unseen(eligible, Known(s, c)), eligible, s.postings, c)
  {
    FreshIsFilter(eligible, Known(s, c));
    var ps := FilterPositions(eligible, NotIn(Known(s, c)));
    forall i: nat | i < |eligible| ensures i in ps <==> !HasRow(s.postings, c, eligible[i].externalId) {
      KnownHasRow(s, c, eligible[i].externalId);
    }
  }

  /** Position i of the unseen postings comes through triage: there is no LLM client, or the replies let it. */
  ghost predicate Passes(llm: Option<Triage.Oracle>, starts: seq<nat>, i: nat)
    requires |starts| == Triage.MAX_TRIAGE_BATCHES
  {
    llm.None? || Triage.ComesThrough(llm.value, starts, i)
  }

  ghost predicate StartsOk(llm: Option<Triage.Oracle>, starts: seq<nat>) {
    |starts| == Triage.MAX_TRIAGE_BATCHES && (llm.Some? ==> Triage.CallsBegin(llm.value, starts))
  }

  /** Some unseen posting with the id passes. */
  ghost predicate PassesFor(unseen: seq<Item>, llm: Option<Triage.Oracle>, starts: seq<nat>, id: string)
    requires |starts| == Triage.MAX_TRIAGE_BATCHES
  {
    exists j: nat :: j < |unseen| && Passes(llm, starts, j) && unseen[j].externalId == id
  }

  /** Of the unseen postings exactly those have a row afterwards for which one with their id passes, so with distinct
      ids those that pass themselves; and there are as many new rows as postings that pass. */
  ghost predicate StoredAsTriaged(before: map<PostingId, Posting>, after: map<PostingId, Posting>, c: CompanyId,
                                  unseen: seq<Item>, llm: Option<Triage.Oracle>, starts: seq<nat>)
    requires |starts| == Triage.MAX_TRIAGE_BATCHES
  {
    && (forall i :: 0 <= i < |unseen| ==>
          (HasRow(after, c, unseen[i].externalId) <==> PassesFor(unseen, llm, starts, unseen[i].externalId)))
    && (DistinctIds(unseen) ==>
          forall i :: 0 <= i < |unseen| ==> (HasRow(after, c, unseen[i].externalId) <==> Passes(llm, starts, i)))
    && |after.Keys - before.Keys| == |Passing(llm, starts, |unseen|)|
  }

  ghost function Passing(llm: Option<Triage.Oracle>, starts: seq<nat>, n: nat): set<nat>
    requires |starts| == Triage.MAX_TRIAGE_BATCHES
  {
    set i: nat | i < n && Passes(llm, starts, i)
  }

  /** The positions that make up the relevant postings. */
  lemma RelevantPositions(unseen: seq<Item>, llm: Option<Triage.Oracle>, starts: seq<nat>) returns (ps: seq<nat>)
    requires StartsOk(llm, starts) && Relevant(unseen, llm).Some?
    ensures Triage.Distinct(ps) && (forall i :: 0 <= i < |ps| ==> ps[i] < |unseen|)
    ensures Relevant(unseen, llm).value == Triage.At(unseen, ps)
    ensures forall i: nat :: i < |unseen| ==> (i in ps <==> Passes(llm, starts, i))
  {
    if unseen == [] {
      ps := [];
    } else if llm.None? {
      ps := Triage.Upto(|unseen|);
      assert Triage.At(unseen, ps) == unseen;
      forall i: nat | i < |unseen| ensures i in ps {
        assert ps[i] == i;
      }
    } else {
      ps := Triage.Kept(llm.value, |unseen|).value;
      Triage.KeptIsDistinct(llm.value, |unseen|);
      forall i: nat | i < |unseen| ensures i in ps <==> Passes(llm, starts, i) {
        Triage.KeptExactly(llm.value, starts, |unseen|, i);
      }
    }
  }

  lemma PassingCount(ps: seq<nat>, llm: Option<Triage.Oracle>, starts: seq<nat>, n: nat)
    requires |starts| == Triage.MAX_TRIAGE_BATCHES && Triage.Distinct(ps) && forall i :: 0 <= i < |ps| ==> ps[i] < n
    requires forall i: nat :: i < n ==> (i in ps <==> Passes(llm, starts, i))
    ensures |Passing(llm, starts, n)| == |ps|
  {
    SeqAsSet(ps);
    assert Elements(ps) == Passing(llm, starts, n);
  }

  /** A poll that finds the rows as they were when it read the ids. */
  lemma PollStoresWhatPasses(s: Feed, c: CompanyId, eligible: seq<Item>, llm: Option<Triage.Oracle>, starts: seq<nat>,
                             now: Time)
    requires RowsOk(s) && StartsOk(llm, starts) && ToStore(eligible, Known(s, c), llm).Some?
    requires StoreAccepted(s, c, ToStore(eligible, Known(s, c), llm).value)
    ensures var s' := Store(s, c, ToStore(eligible, Known(s, c), llm).value, now);
            StoredAsTriaged(s.postings, s'.postings, c, Unseen(eligible, Known(s, c)), llm, starts)
  {
    var known := Known(s, c);
    var unseen := Unseen(eligible, known);
    var items := ToStore(eligible, known, llm).value;
    FreshIsRelevant(eligible, known, llm);
    StoreAddsFresh(s, c, items, now);
    var ps := RelevantPositions(unseen, llm, starts);
    PassingCount(ps, llm, starts, |unseen|);
    forall i | 0 <= i < |unseen|
      ensures HasRow(Store(s, c, items, now).postings, c, unseen[i].externalId) <==>
                PassesFor(unseen, llm, starts, unseen[i].externalId)
    {
      RowIffPasses(s, c, eligible, llm, starts, ps, now, i);
    }
    DistinctPass(unseen, llm, starts);
  }

  lemma RowIffPasses(s: Feed, c: CompanyId, eligible: seq<Item>, llm: Option<Triage.Oracle>, starts: seq<nat>,
                     ps: seq<nat>, now: Time, i: nat)
    requires RowsOk(s) && StartsOk(llm, starts) && ToStore(eligible, Known(s, c), llm).Some?
    requires StoreAccepted(s, c, ToStore(eligible, Known(s, c), llm).value) && i < |Unseen(eligible, Known(s, c))|
    requires forall k :: 0 <= k < |ps| ==> ps[k] < |Unseen(eligible, Known(s, c))|
    requires Relevant(Unseen(eligible, Known(s, c)), llm).value == Triage.At(Unseen(eligible, Known(s, c)), ps)
    requires forall k: nat :: k < |Unseen(eligible, Known(s, c))| ==> (k in ps <==> Passes(llm, starts, k))
    ensures var unseen := Unseen(eligible, Known(s, c));
            HasRow(Store(s, c, ToStore(eligible, Known(s, c), llm).value, now).postings, c, unseen[i].externalId) <==>
              PassesFor(unseen, llm, starts, unseen[i].externalId)
  {
    var unseen := Unseen(eligible, Known(s, c));
    FreshIsRelevant(eligible, Known(s, c), llm);
    FreshIsUnknown(eligible, Known(s, c));
    FreshHaveRows(s, c, ToStore(eligible, Known(s, c), llm).value, now, unseen[i].externalId);
    ChosenWithId(unseen, llm, starts, ps, unseen[i].externalId);
  }

  lemma DistinctPass(unseen: seq<Item>, llm: Option<Triage.Oracle>, starts: seq<nat>)
    requires |starts| == Triage.MAX_TRIAGE_BATCHES
    ensures DistinctIds(unseen) ==>
              forall i: nat :: i < |unseen| ==>
                (PassesFor(unseen, llm, starts, unseen[i].externalId) <==> Passes(llm, starts, i))
  {
  }

  lemma ChosenWithId(unseen: seq<Item>, llm: Option<Triage.Oracle>, starts: seq<nat>, ps: seq<nat>, id: string)
    requires |starts| == Triage.MAX_TRIAGE_BATCHES && forall k :: 0 <= k < |ps| ==> ps[k] < |unseen|
    requires forall i: nat :: i < |unseen| ==> (i in ps <==> Passes(llm, starts, i))
    ensures (exists k :: 0 <= k < |Triage.At(unseen, ps)| && Triage.At(unseen, ps)[k].externalId == id) <==>
              PassesFor(unseen, llm, starts, id)
  {
    if PassesFor(unseen, llm, starts, id) {
      var j: nat :| j < |unseen| && Passes(llm, starts, j) && unseen[j].externalId == id;
      var k :| 0 <= k < |ps| && ps[k] == j;
      assert Triage.At(unseen, ps)[k] == unseen[j];
    }
    if k :| 0 <= k < |Triage.At(unseen, ps)| && Triage.At(unseen, ps)[k].externalId == id {
      assert ps[k] in ps;
    }
  }

  /** An unknown id has a row after a store exactly if a fresh item carries it. */
  lemma FreshHaveRows(s: Feed, c: CompanyId, items: seq<Item>, now: Time, id: string)
    requires RowsOk(s) && StoreAccepted(s, c, items) && id !in Known(s, c)
    ensures HasRow(Store(s, c, items, now).postings, c, id) <==>
              exists k :: 0 <= k < |Fresh(items, Known(s, c))| && Fresh(items, Known(s, c))[k].externalId == id
  {
    var added := Fresh(items, Known(s, c));
    var s' := Store(s, c, items, now);
    if HasRow(s'.postings, c, id) {
      var p :| p in s'.postings && s'.postings[p].company == c && s'.postings[p].externalId == id;
      StoredRow(s, c, items, now, p);
      if p in s.postings {
        KnownHasRow(s, c, id);
      } else {
        assert added[p - s.nextPosting].externalId == id;
      }
    }
    if k :| 0 <= k < |added| && added[k].externalId == id {
      FreshIsUnknown(items, Known(s, c));
      StoredIsKnown(s, c, items, now, added[k]);
      KnownHasRow(s', c, id);
    }
  }

  // What a poll makes of the rows before it screens

  /** The company's rows are seen again by what the board lists, every other row is as before, and each new row is made
      for a listed item that had none. */
  ghost predicate PollWrites(before: map<PostingId, Posting>, after: map<PostingId, Posting>, eligible: seq<Item>,
                             c: CompanyId, profile: ProfileId, now: Time) {
    && (forall p :: p in before ==>
          p in after && if before[p].company == c then SeenAgain(before[p], after[p], eligible, now)
                        else after[p] == before[p])
    && (forall p :: p in after && p !in before ==>
          exists i :: 0 <= i < |eligible| && !HasRow(before, c, eligible[i].externalId)
                      && MadeFor(after[p], eligible[i], c, profile, now))
  }

  lemma {:induction false} RefreshedByOthers(row: Posting, a: seq<Item>, b: seq<Item>, now: Time)
    requires forall item :: item in b ==> item.externalId != row.externalId
    ensures Refreshed(row, a + b, now) == Refreshed(row, a, now)
  {
    if b == [] {
      assert a + b == a;
    } else {
      assert (a + b)[..|a + b| - 1] == a + b[..|b| - 1];
      RefreshedByOthers(row, a, b[..|b| - 1], now);
      RefreshKeeps(row, a, now);
    }
  }

  lemma {:induction false} RefreshedBySeen(row: Posting, eligible: seq<Item>, known: set<string>, now: Time)
    requires row.externalId in known
    ensures Refreshed(row, Seen(eligible, known), now) == Refreshed(row, eligible, now)
  {
    if eligible != [] {
      var init, last := eligible[..|eligible| - 1], eligible[|eligible| - 1];
      RefreshedBySeen(row, init, known, now);
      RefreshKeeps(row, init, now);
      if last.externalId in known {
        assert Seen(eligible, known) == Seen(init, known) + [last];
        assert (Seen(init, known) + [last])[..|Seen(init, known)|] == Seen(init, known);
      } else {
        assert Seen(eligible, known) == Seen(init, known);
      }
    }
  }

  lemma PollSeesAgain(s: Feed, c: CompanyId, eligible: seq<Item>, llm: Option<Triage.Oracle>, now: Time, p: PostingId)
    requires ToStore(eligible, Known(s, c), llm).Some?
    requires StoreAccepted(s, c, ToStore(eligible, Known(s, c), llm).value) && p in s.postings
    ensures var s' := Store(s, c, ToStore(eligible, Known(s, c), llm).value, now);
            p in s'.postings && if s.postings[p].company == c
                                then SeenAgain(s.postings[p], s'.postings[p], eligible, now)
                                else s'.postings[p] == s.postings[p]
  {
    var known, row := Known(s, c), s.postings[p];
    if row.company == c {
      assert row.externalId in known;
      RelevantIsUnseen(eligible, known, llm);
      RefreshedByOthers(row, Seen(eligible, known), Relevant(Unseen(eligible, known), llm).value, now);
      RefreshedBySeen(row, eligible, known, now);
      RefreshedSeenAgain(row, eligible, now);
    }
  }

  lemma StoredIsListed(eligible: seq<Item>, known: set<string>, llm: Option<Triage.Oracle>, item: Item)
    requires ToStore(eligible, known, llm).Some? && item in ToStore(eligible, known, llm).value
    ensures item in eligible
  {
    SeenOnceIff(eligible, known, "");
    RelevantIsUnseen(eligible, known, llm);
    var relevant := Relevant(Unseen(eligible, known), llm).value;
    if item in relevant {
      var k :| 0 <= k < |relevant| && relevant[k] == item;
    }
  }

  lemma PollMakesFor(s: Feed, c: CompanyId, eligible: seq<Item>, llm: Option<Triage.Oracle>, now: Time, p: PostingId)
    requires ToStore(eligible, Known(s, c), llm).Some?
    requires StoreAccepted(s, c, ToStore(eligible, Known(s, c), llm).value) && p !in s.postings
    requires p in Store(s, c, ToStore(eligible, Known(s, c), llm).value, now).postings
    ensures var s' := Store(s, c, ToStore(eligible, Known(s, c), llm).value, now);
            exists i :: 0 <= i < |eligible| && !HasRow(s.postings, c, eligible[i].externalId)
                        && MadeFor(s'.postings[p], eligible[i], c, s.companies[c].profile, now)
  {
    var items := ToStore(eligible, Known(s, c), llm).value;
    NewRowIsMade(s, c, items, now, p);
    var k :| 0 <= k < |items| && !HasRow(s.postings, c, items[k].externalId)
             && MadeFor(Store(s, c, items, now).postings[p], items[k], c, s.companies[c].profile, now);
    StoredIsListed(eligible, Known(s, c), llm, items[k]);
    var i :| 0 <= i < |eligible| && eligible[i] == items[k];
  }

  lemma PollComesTo(s: Feed, c: CompanyId, eligible: seq<Item>, llm: Option<Triage.Oracle>, now: Time)
    requires ToStore(eligible, Known(s, c), llm).Some?
    requires StoreAccepted(s, c, ToStore(eligible, Known(s, c), llm).value)
    ensures var s' := Store(s, c, ToStore(eligible, Known(s, c), llm).value, now);
            PollWrites(s.postings, s'.postings, eligible, c, s.companies[c].profile, now)
  {
    var s' := Store(s, c, ToStore(eligible, Known(s, c), llm).value, now);
    forall p | p in s.postings
      ensures p in s'.postings && if s.postings[p].company == c
                                  then SeenAgain(s.postings[p], s'.postings[p], eligible, now)
                                  else s'.postings[p] == s.postings[p]
    {
      PollSeesAgain(s, c, eligible, llm, now, p);
    }
    forall p | p in s'.postings && p !in s.postings
      ensures exists i :: 0 <= i < |eligible| && !HasRow(s.postings, c, eligible[i].externalId)
                          && MadeFor(s'.postings[p], eligible[i], c, s.companies[c].profile, now)
    {
      PollMakesFor(s, c, eligible, llm, now, p);
    }
  }

  /** Two of the positions hold the same id. */
  ghost predicate Doubled(unseen: seq<Item>, ps: set<nat>) {
    exists i, j :: i in ps && j in ps && i < j < |unseen| && unseen[i].externalId == unseen[j].externalId
  }

  lemma DoubledIff(unseen: seq<Item>, ps: seq<nat>)
    requires Triage.Distinct(ps) && forall k :: 0 <= k < |ps| ==> ps[k] < |unseen|
    ensures DistinctIds(Triage.At(unseen, ps)) <==> !Doubled(unseen, Elements(ps))
  {
    var chosen := Triage.At(unseen, ps);
    if i, j :| i in Elements(ps) && j in Elements(ps) && i < j < |unseen|
               && unseen[i].externalId == unseen[j].externalId {
      var a :| 0 <= a < |ps| && ps[a] == i;
      var b :| 0 <= b < |ps| && ps[b] == j;
      assert chosen[a].externalId == chosen[b].externalId;
    }
    if a, b :| 0 <= a < b < |chosen| && chosen[a].externalId == chosen[b].externalId {
      assert ps[a] in Elements(ps) && ps[b] in Elements(ps);
    }
  }

  /** The store of an undisturbed poll is rejected exactly if two unseen postings with one id pass. */
  lemma RejectedIff(s: Feed, c: CompanyId, eligible: seq<Item>, llm: Option<Triage.Oracle>, starts: seq<nat>)
    requires c in s.companies && StartsOk(llm, starts) && ToStore(eligible, Known(s, c), llm).Some?
    ensures var unseen := Unseen(eligible, Known(s, c));
            !StoreAccepted(s, c, ToStore(eligible, Known(s, c), llm).value) <==>
              Doubled(unseen, Passing(llm, starts, |unseen|))
  {
    var unseen := Unseen(eligible, Known(s, c));
    FreshIsRelevant(eligible, Known(s, c), llm);
    var ps := RelevantPositions(unseen, llm, starts);
    DoubledIff(unseen, ps);
    assert Elements(ps) == Passing(llm, starts, |unseen|);
  }

  /** The call for the batch crashes, or the second after a refused first. */
  predicate BatchCrashes(llm: Triage.Oracle, starts: seq<nat>, b: nat)
    requires b < |starts|
  {
    llm(starts[b]).Crashed? || (llm(starts[b]).Refused? && llm(starts[b] + 1).Crashed?)
  }

  ghost predicate TriageCrashes(llm: Option<Triage.Oracle>, starts: seq<nat>, n: nat)
    requires |starts| == Triage.MAX_TRIAGE_BATCHES
  {
    && llm.Some?
    && exists b: nat :: b < |starts| && b * Triage.TRIAGE_BATCH_SIZE < n && BatchCrashes(llm.value, starts, b)
  }

  /** Triage ends a poll in an error exactly if a batch crashes. */
  lemma TriageCrashesIff(unseen: seq<Item>, llm: Option<Triage.Oracle>, starts: seq<nat>)
    requires StartsOk(llm, starts)
    ensures Relevant(unseen, llm).None? <==> TriageCrashes(llm, starts, |unseen|)
  {
    if llm.Some? {
      Triage.CrashesIff(llm.value, starts, |unseen|);
      forall b: nat | b < |starts|
        ensures BatchCrashes(llm.value, starts, b) <==>
                  llm.value(starts[b]).Crashed? || (llm.value(starts[b]).Refused? && llm.value(starts[b] + 1).Crashed?)
      {}
    }
  }

  lemma {:induction false} StartsExist(llm: Triage.Oracle, n: nat) returns (starts: seq<nat>)
    requires n > 0
    ensures |starts| == n && starts[0] == 0
    ensures forall b, next :: 0 < next < n && b == next - 1 ==>
              starts[next] == starts[b] + if llm(starts[b]).Refused? then 2 else 1
  {
    if n == 1 {
      starts := [0];
    } else {
      var before := StartsExist(llm, n - 1);
      starts := before + [before[n - 2] + if llm(before[n - 2]).Refused? then 2 else 1];
    }
  }

  /** Every LLM has its calls. */
  lemma SomeStarts(llm: Option<Triage.Oracle>) returns (starts: seq<nat>)
    ensures StartsOk(llm, starts)
  {
    if llm.None? {
      starts := seq(Triage.MAX_TRIAGE_BATCHES, (b: nat) => 0);
    } else {
      starts := StartsExist(llm.value, Triage.MAX_TRIAGE_BATCHES);
    }
  }

  // ---------------------------------------------------------------------------------------------
  // A whole poll
  // ---------------------------------------------------------------------------------------------

  /** What reading the board comes to: its roles, a 404, or any other exception. */
  datatype Fetch = Fetched(items: seq<Item>) | BoardGone | FetchFailed

  datatype PollOutcome = AlreadyRunning | Errored | Died | Finished

  /** What a poll goes through: the wanted items of the board, those the company had no row for, where the calls for
      each batch of those begin, the rows once they are stored, and the rows read for screening. */
  datatype PollTrace = PollTrace(eligible: seq<Item>, unseen: seq<Item>, calls: seq<nat>,
                                 rows: map<PostingId, Posting>, order: seq<PostingId>)

  /** The number of rows a screen of n pending rows scores. */
  function ScreenedCount(llm: Option<Oracle>, n: nat): nat {
    if llm.None? then 0 else ScoredCount(llm.value, Attempted(llm.value, MAX_CONSECUTIVE_FAILURES, ScreenedLen(n)))
  }

  /** What an uninterrupted poll makes of the rows it has stored, whichever way the driver treats missing rows. */
  ghost predicate PolledTo(s: Feed, s': Feed, c: CompanyId, order: seq<PostingId>, llm: Option<Oracle>, screened: nat,
                           now: Time)
    requires c in s.companies
  {
    && PendingOrder(s, c, order)
    && (forall missing :: s' == ScreenedAtOnce(s, c, order, s.companies[c].status, llm, now, missing))
    && screened == ScreenedCount(llm, |order|)
  }

  /** A screen with nothing between reading the rows and the final commit. */
  ghost function ScreenedAtOnce(s: Feed, c: CompanyId, order: seq<PostingId>, held: CompanyStatus, llm: Option<Oracle>,
                                now: Time, missing: MissingRows): Feed {
    FinishScreen(BeginScreen(s, 0, c, order, held), 0, llm, now, missing)
  }

  lemma DriverDoesNotMatter(s: Feed, c: CompanyId, order: seq<PostingId>, held: CompanyStatus, llm: Option<Oracle>,
                            now: Time, missing: MissingRows, other: MissingRows)
    requires c in s.companies && PendingOrder(s, c, order)
    ensures ScreenedAtOnce(s, c, order, held, llm, now, missing) == ScreenedAtOnce(s, c, order, held, llm, now, other)
  {
    IntactScreenCommits(s, BeginScreen(s, 0, c, order, held), c, order, llm);
  }

  /** A screen that has read the rows of order, as the final commit leaves the tables. */
  lemma FinishAsCommit(s: Feed, c: CompanyId, order: seq<PostingId>, held: CompanyStatus, llm: Option<Oracle>,
                       now: Time, missing: MissingRows)
    requires FeedOk(s) && s.snapshots == map[] && c < s.nextCompany
    requires forall i, j :: 0 <= i < j < |order| ==> order[i] != order[j]
    requires forall p :: p in order ==> p < s.nextPosting && (p in s.postings ==> s.postings[p].company == c)
    ensures FeedOk(ScreenedAtOnce(s, c, order, held, llm, now, missing))
    ensures ScreenedAtOnce(s, c, order, held, llm, now, missing) ==
            if !FinishCommits(s, Snapshot(c, order, held), llm, missing) then s else
              Fail(s.(postings := WriteScores(s.postings, order, llm, |order|)), c,
                   FinalStatus(s.companies[c].status, held, ScreenOutcome(llm, |order|)), now)
  {
    var s1 := BeginScreen(s, 0, c, order, held);
    SameJobsOk(s, s1);
    FinishKeepsOk(s1, 0, llm, now, missing);
    assert s1.snapshots - {0} == s.snapshots;
  }

  /** A whole poll that reaches its last commit, from the rows it found to the rows it leaves. */
  ghost predicate PolledAll(s: Feed, s': Feed, c: CompanyId, eligible: seq<Item>, triage: Option<Triage.Oracle>,
                            screen: Option<Oracle>, stored: Time, end: Time,
                            newPostings: nat, dropped: nat, screened: nat, order: seq<PostingId>) {
    var items := ToStore(eligible, Known(s, c), triage);
    && items.Some?
    && (items.value == [] || StoreAccepted(s, c, items.value))
    && c in s.companies && PolledTo(Store(s, c, items.value, stored), s', c, order, screen, screened, end)
    && newPostings == |Store(s, c, items.value, stored).postings.Keys - s.postings.Keys|
    && newPostings + dropped == |Unseen(eligible, Known(s, c))|
  }

  /** What a claimed poll does to the rows, by its outcome. It errs exactly when the board cannot be read or the
      LLM client raises something triage does not catch; it dies exactly when the store's flush is rejected;
      otherwise it reaches its last commit. */
  ghost predicate PollReport(s: Feed, s': Feed, c: CompanyId, fetch: Fetch, wanted: Item -> bool,
                             triage: Option<Triage.Oracle>, screen: Option<Oracle>, stored: Time, end: Time,
                             outcome: PollOutcome, newPostings: nat, dropped: nat, screened: nat,
                             trace: PollTrace) {
    match fetch
    case BoardGone => outcome.Errored? && c in s.companies && s' == Fail(s, c, Unresolved, end)
    case FetchFailed => outcome.Errored? && c in s.companies && s' == Fail(s, c, Failed, end)
    case Fetched(fetched) =>
      var eligible := Filter(fetched, wanted);
      var items := ToStore(eligible, Known(s, c), triage);
      if items.None? then outcome.Errored? && c in s.companies && s' == Fail(s, c, Failed, end)
      else if items.value != [] && !StoreAccepted(s, c, items.value) then outcome.Died? && s' == s
      else outcome.Finished?
           && PolledAll(s, s', c, eligible, triage, screen, stored, end, newPostings, dropped, screened, trace.order)
  }

  /** The company's unscored rows, each once, oldest first. */
  ghost predicate ToScreen(order: seq<PostingId>, rows: map<PostingId, Posting>, c: CompanyId) {
    && (forall i, j :: 0 <= i < j < |order| ==> order[i] != order[j])
    && (forall p :: p in order <==> p in rows && rows[p].company == c && rows[p].state == New)
    && (forall i, j :: 0 <= i < j < |order| && order[i] in rows && order[j] in rows ==>
          rows[order[i]].firstSeen <= rows[order[j]].firstSeen)
  }

  ghost function AnsweredAt(llm: Option<Oracle>, n: nat): set<nat> {
    set i: nat | i < n && Answered(llm, n, i)
  }

  lemma {:induction false} ScoredCountIsSize(llm: Oracle, n: nat)
    ensures |set i: nat | i < n && llm(i).Scored?| == ScoredCount(llm, n)
  {
    if n > 0 {
      ScoredCountIsSize(llm, n - 1);
      var before := set i: nat | i < n - 1 && llm(i).Scored?;
      assert (set i: nat | i < n && llm(i).Scored?) == if llm(n - 1).Scored? then before + {n - 1} else before;
    }
  }

  /** What a poll reports as screened is the number of calls that are made and answer. */
  lemma ScreenedCountIsAnswers(llm: Option<Oracle>, n: nat)
    ensures ScreenedCount(llm, n) == |AnsweredAt(llm, n)|
  {
    if llm.None? {
      assert AnsweredAt(llm, n) == {};
    } else {
      var a := Attempted(llm.value, MAX_CONSECUTIVE_FAILURES, ScreenedLen(n));
      ScoredCountIsSize(llm.value, a);
      forall i: nat ensures i in AnsweredAt(llm, n) <==> i < a && llm.value(i).Scored? {
        ScoresIff(llm, n, i);
      }
      assert AnsweredAt(llm, n) == set i: nat | i < a && llm.value(i).Scored?;
    }
  }

  function Polled(companies: map<CompanyId, Company>, c: CompanyId, status: CompanyStatus,
                  now: Time): map<CompanyId, Company>
    requires c in companies
  {
    companies[c := companies[c].(status := status, lastPolled := Some(now))]
  }

  /** What was read: the wanted items, the unseen ones among them, and where the calls for each batch begin. */
  ghost predicate ReadsBoard(trace: PollTrace, items: seq<Item>, wanted: Item -> bool, rows: map<PostingId, Posting>,
                             c: CompanyId, llm: Option<Triage.Oracle>) {
    && WantedOf(trace.eligible, items, wanted)
    && UnseenOf(trace.unseen, trace.eligible, rows, c)
    && StartsOk(llm, trace.calls)
  }

  /** A claimed poll, told from the replies. It errs if the board is not read or a triage call crashes, and leaves only
      that on the company's row. It dies if two unseen postings with one id pass triage, and leaves nothing. Otherwise
      what passes is stored, what waits is screened, and the company is active unless a screening call crashed. */
  ghost predicate PollTells(s: Feed, s': Feed, c: CompanyId, fetch: Fetch, wanted: Item -> bool,
                            triage: Option<Triage.Oracle>, screen: Option<Oracle>, stored: Time, end: Time,
                            outcome: PollOutcome, newPostings: nat, dropped: nat, screened: nat, trace: PollTrace) {
    c in s.companies && s'.jobs == s.jobs &&
    if !fetch.Fetched? then
      && outcome.Errored? && s'.postings == s.postings
      && s'.companies == Polled(s.companies, c, if fetch.BoardGone? then Unresolved else Failed, end)
    else
      && ReadsBoard(trace, fetch.items, wanted, s.postings, c, triage)
      && var passing := Passing(triage, trace.calls, |trace.unseen|);
      if TriageCrashes(triage, trace.calls, |trace.unseen|) then
        outcome.Errored? && s'.postings == s.postings && s'.companies == Polled(s.companies, c, Failed, end)
      else if Doubled(trace.unseen, passing) then
        outcome.Died? && s'.postings == s.postings && s'.companies == s.companies
      else
        && outcome.Finished?
        && PollWrites(s.postings, trace.rows, trace.eligible, c, s.companies[c].profile, stored)
        && StoredAsTriaged(s.postings, trace.rows, c, trace.unseen, triage, trace.calls)
        && newPostings == |passing| && newPostings + dropped == |trace.unseen|
        && ToScreen(trace.order, trace.rows, c)
        && ScreenWrites(trace.rows, s'.postings, trace.order, screen)
        && screened == |AnsweredAt(screen, |trace.order|)|
        && s'.companies ==
           Polled(s.companies, c, if CrashMade(screen, |trace.order|) then Failed else Active, end)
  }

  lemma PendingToScreen(s: Feed, c: CompanyId, order: seq<PostingId>)
    ensures PendingOrder(s, c, order) <==> ToScreen(order, s.postings, c)
  {
    if ToScreen(order, s.postings, c) {
      forall p ensures p in order <==> IsPending(s, c, p) {}
    } else if PendingOrder(s, c, order) {
      forall p ensures p in order <==> p in s.postings && s.postings[p].company == c && s.postings[p].state == New {
        assert p in order <==> IsPending(s, c, p);
      }
    }
  }

  /** The second half of a poll that nothing disturbs. */
  lemma ScreenTells(s: Feed, s': Feed, c: CompanyId, order: seq<PostingId>, llm: Option<Oracle>, screened: nat,
                    now: Time)
    requires FeedOk(s) && c in s.companies && PolledTo(s, s', c, order, llm, screened, now)
    ensures ToScreen(order, s.postings, c) && s'.jobs == s.jobs
    ensures ScreenWrites(s.postings, s'.postings, order, llm) && screened == |AnsweredAt(llm, |order|)|
    ensures s'.companies == Polled(s.companies, c, if CrashMade(llm, |order|) then Failed else Active, now)
  {
    PendingToScreen(s, c, order);
    ScreenedCountIsAnswers(llm, |order|);
    var begun := BeginScreen(s, 0, c, order, s.companies[c].status);
    assert s' == ScreenedAtOnce(s, c, order, s.companies[c].status, llm, now, RowsSkipped);
    FinishComesTo(begun, 0, llm, now, RowsSkipped);
  }

  /** The trace of a poll that finds the rows as they are in s. */
  ghost predicate TraceOf(trace: PollTrace, s: Feed, c: CompanyId, items: seq<Item>, wanted: Item -> bool,
                          llm: Option<Triage.Oracle>, stored: Time) {
    && trace.eligible == Filter(items, wanted) && trace.unseen == Unseen(trace.eligible, Known(s, c))
    && StartsOk(llm, trace.calls)
    && var toStore := ToStore(trace.eligible, Known(s, c), llm);
       toStore.Some? ==> trace.rows == Store(s, c, toStore.value, stored).postings
  }

  lemma EmptyStoreAccepted(s: Feed, c: CompanyId)
    requires c in s.companies
    ensures StoreAccepted(s, c, [])
  {
  }

  lemma TraceFrom(s: Feed, c: CompanyId, items: seq<Item>, wanted: Item -> bool, llm: Option<Triage.Oracle>,
                  stored: Time) returns (trace: PollTrace)
    ensures TraceOf(trace, s, c, items, wanted, llm, stored)
  {
    var eligible := Filter(items, wanted);
    var toStore := ToStore(eligible, Known(s, c), llm);
    var calls := SomeStarts(llm);
    var rows := if toStore.Some? then Store(s, c, toStore.value, stored).postings else s.postings;
    trace := PollTrace(eligible, Unseen(eligible, Known(s, c)), calls, rows, []);
  }

  lemma NewRowsAreFresh(s: Feed, c: CompanyId, items: seq<Item>, now: Time)
    requires RowsOk(s)
    ensures StoreAccepted(s, c, items) ==>
              |Store(s, c, items, now).postings.Keys - s.postings.Keys| == |Fresh(items, Known(s, c))|
  {
    if StoreAccepted(s, c, items) {
      StoreAddsFresh(s, c, items, now);
    }
  }

  /** The first half of a poll that nothing disturbs. */
  lemma StoreTells(s: Feed, c: CompanyId, items: seq<Item>, wanted: Item -> bool, llm: Option<Triage.Oracle>,
                   stored: Time, trace: PollTrace)
    requires FeedOk(s) && c in s.companies && TraceOf(trace, s, c, items, wanted, llm, stored)
    ensures ReadsBoard(trace, items, wanted, s.postings, c, llm)
    ensures ToStore(trace.eligible, Known(s, c), llm).None? <==> TriageCrashes(llm, trace.calls, |trace.unseen|)
    ensures var toStore := ToStore(trace.eligible, Known(s, c), llm);
            toStore.Some? ==>
              && (StoreAccepted(s, c, toStore.value) <==>
                    !Doubled(trace.unseen, Passing(llm, trace.calls, |trace.unseen|)))
              && (StoreAccepted(s, c, toStore.value) ==>
                    && PollWrites(s.postings, trace.rows, trace.eligible, c, s.companies[c].profile, stored)
                    && StoredAsTriaged(s.postings, trace.rows, c, trace.unseen, llm, trace.calls))
  {
    FilterIsWanted(items, wanted);
    FreshIsUnseen(s, c, trace.eligible);
    TriageCrashesIff(trace.unseen, llm, trace.calls);
    var toStore := ToStore(trace.eligible, Known(s, c), llm);
    if toStore.Some? {
      RejectedIff(s, c, trace.eligible, llm, trace.calls);
      if StoreAccepted(s, c, toStore.value) {
        PollComesTo(s, c, trace.eligible, llm, stored);
        PollStoresWhatPasses(s, c, trace.eligible, llm, trace.calls, stored);
      }
    }
  }

  /** What the report of a poll says, told from the replies. */
  lemma ReportTells(s: Feed, s': Feed, c: CompanyId, fetch: Fetch, wanted: Item -> bool, triage: Option<Triage.Oracle>,
                    screen: Option<Oracle>, stored: Time, end: Time,
                    outcome: PollOutcome, newPostings: nat, dropped: nat, screened: nat, trace: PollTrace)
    requires FeedOk(s)
    requires PollReport(s, s', c, fetch, wanted, triage, screen, stored, end,
                        outcome, newPostings, dropped, screened, trace)
    requires c in s.companies && (fetch.Fetched? ==> TraceOf(trace, s, c, fetch.items, wanted, triage, stored))
    ensures PollTells(s, s', c, fetch, wanted, triage, screen, stored, end,
                      outcome, newPostings, dropped, screened, trace)
  {
    if fetch.Fetched? {
      StoreTells(s, c, fetch.items, wanted, triage, stored, trace);
      EmptyStoreAccepted(s, c);
      if outcome.Finished? {
        var s1 := Store(s, c, ToStore(trace.eligible, Known(s, c), triage).value, stored);
        StoreKeepsOk(s, c, ToStore(trace.eligible, Known(s, c), triage).value, stored);
        ScreenTells(s1, s', c, trace.order, screen, screened, end);
      }
    }
  }
}
