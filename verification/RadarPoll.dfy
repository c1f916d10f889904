/** One poll as a whole: what it stores of what it fetched, and how polls drain the postings waiting for a score. */
module RadarPoll {
  import opened FiniteSets
  import opened Options
  import opened RadarFeed
  import opened RadarScreening
  import Triage = RadarTriage

  // ---------------------------------------------------------------------------------------------
  // From the fetched board to what is stored
  // ---------------------------------------------------------------------------------------------

  function Filter(items: seq<Item>, keep: Item -> bool): seq<Item> {
    if items == [] then [] else
      Filter(items[..|items| - 1], keep) + if keep(items[|items| - 1]) then [items[|items| - 1]] else []
  }

  function Unseen(eligible: seq<Item>, known: set<string>): seq<Item> {
    Fresh(eligible, known)
  }

  function Seen(eligible: seq<Item>, known: set<string>): seq<Item> {
    Filter(eligible, (item: Item) => item.externalId in known)
  }

  /** Triage of the unseen postings; without an LLM client they all pass. None when the LLM crashes the poll. */
  function Relevant(unseen: seq<Item>, llm: Option<Triage.Oracle>): Option<seq<Item>> {
    if unseen == [] || llm.None? then Some(unseen) else
      var kept := Triage.Kept(llm.value, |unseen|);
      if kept.None? then None else
        Triage.KeptIsDistinct(llm.value, |unseen|);
        Some(Triage.At(unseen, kept.value))
  }

  function ToStore(eligible: seq<Item>, known: set<string>, llm: Option<Triage.Oracle>): Option<seq<Item>> {
    var relevant := Relevant(Unseen(eligible, known), llm);
    if relevant.None? then None else Some(Seen(eligible, known) + relevant.value)
  }

  // ---------------------------------------------------------------------------------------------
  // Conservation
  // ---------------------------------------------------------------------------------------------

  lemma {:induction false} FreshConcat(a: seq<Item>, b: seq<Item>, known: set<string>)
    ensures Fresh(a + b, known) == Fresh(a, known) + Fresh(b, known)
    decreases |b|
  {
    if b == [] {
      assert a + b == a;
    } else {
      var n := |b| - 1;
      assert (a + b)[..|a + b| - 1] == a + b[..n];
      FreshConcat(a, b[..n], known);
    }
  }

  lemma {:induction false} SeenIsNotFresh(eligible: seq<Item>, known: set<string>)
    ensures Fresh(Seen(eligible, known), known) == []
  {
    if eligible != [] {
      var n := |eligible| - 1;
      SeenIsNotFresh(eligible[..n], known);
      var last := if eligible[n].externalId in known then [eligible[n]] else [];
      FreshConcat(Seen(eligible[..n], known), last, known);
    }
  }

  lemma {:induction false} AllFresh(items: seq<Item>, known: set<string>)
    requires forall i :: 0 <= i < |items| ==> items[i].externalId !in known
    ensures Fresh(items, known) == items
  {
    if items != [] {
      AllFresh(items[..|items| - 1], known);
      assert items == items[..|items| - 1] + [items[|items| - 1]];
    }
  }

  lemma RelevantIsUnseen(eligible: seq<Item>, known: set<string>, llm: Option<Triage.Oracle>)
    requires Relevant(Unseen(eligible, known), llm).Some?
    ensures var relevant := Relevant(Unseen(eligible, known), llm).value;
            && (forall i :: 0 <= i < |relevant| ==> relevant[i].externalId !in known && relevant[i] in eligible)
            && (DistinctIds(Unseen(eligible, known)) ==> DistinctIds(relevant))
  {
    var unseen := Unseen(eligible, known);
    FreshIsUnknown(eligible, known);
    if unseen != [] && llm.Some? {
      Triage.KeptIsDistinct(llm.value, |unseen|);
    }
  }

  /** When the rows have not changed since the ids were read, the items stored as new are exactly the relevant ones. */
  lemma FreshIsRelevant(eligible: seq<Item>, known: set<string>, llm: Option<Triage.Oracle>)
    requires ToStore(eligible, known, llm).Some?
    ensures Fresh(ToStore(eligible, known, llm).value, known) == Relevant(Unseen(eligible, known), llm).value
  {
    var relevant := Relevant(Unseen(eligible, known), llm).value;
    RelevantIsUnseen(eligible, known, llm);
    SeenIsNotFresh(eligible, known);
    AllFresh(relevant, known);
    FreshConcat(Seen(eligible, known), relevant, known);
  }

  // When the store is accepted

  /** No two of the items carry the id. */
  predicate AtMostOnce(items: seq<Item>, id: string) {
    forall i, j :: 0 <= i < j < |items| && items[i].externalId == id ==> items[j].externalId != id
  }

  lemma OnceMore(items: seq<Item>, last: Item, id: string)
    ensures AtMostOnce(items + [last], id) <==>
              && AtMostOnce(items, id)
              && (last.externalId == id ==> forall item :: item in items ==> item.externalId != id)
  {
    var more := items + [last];
    if AtMostOnce(more, id) {
      forall i, j | 0 <= i < j < |items| && items[i].externalId == id ensures items[j].externalId != id {
        assert more[i] == items[i] && more[j] == items[j];
      }
      forall item | item in items && last.externalId == id ensures item.externalId != id {
        var i :| 0 <= i < |items| && items[i] == item;
        assert more[i] == item && more[|items|] == last;
      }
    }
  }

  ghost predicate OnceOutside(items: seq<Item>, known: set<string>) {
    forall id :: id !in known ==> AtMostOnce(items, id)
  }

  lemma OnceOutsideMore(items: seq<Item>, last: Item, known: set<string>)
    ensures OnceOutside(items + [last], known) <==>
              && OnceOutside(items, known)
              && (last.externalId in known || forall item :: item in items ==> item.externalId != last.externalId)
  {
    forall id ensures AtMostOnce(items + [last], id) <==>
        AtMostOnce(items, id) && (last.externalId == id ==> forall item :: item in items ==> item.externalId != id)
    {
      OnceMore(items, last, id);
    }
  }

  lemma {:induction false} FreshDistinctIff(items: seq<Item>, known: set<string>)
    ensures DistinctIds(Fresh(items, known)) <==> OnceOutside(items, known)
  {
    if items != [] {
      var init, last := items[..|items| - 1], items[|items| - 1];
      FreshDistinctIff(init, known);
      FreshIsUnknown(init, known);
      OnceOutsideMore(init, last, known);
      assert items == init + [last];
      if last.externalId in known {
        assert Fresh(items, known) == Fresh(init, known);
      } else {
        DistinctWithIff(Fresh(init, known), last);
      }
    }
  }

  lemma DistinctWithIff(items: seq<Item>, last: Item)
    ensures DistinctIds(items + [last]) <==>
              DistinctIds(items) && forall item :: item in items ==> item.externalId != last.externalId
  {
    var more := items + [last];
    if DistinctIds(more) {
      forall i, j | 0 <= i < j < |items| ensures items[i].externalId != items[j].externalId {
        assert more[i] == items[i] && more[j] == items[j];
      }
      forall item | item in items ensures item.externalId != last.externalId {
        var i :| 0 <= i < |items| && items[i] == item;
        assert more[i] == item && more[|items|] == last;
      }
    }
  }

  lemma {:induction false} SeenOnceIff(eligible: seq<Item>, known: set<string>, id: string)
    ensures AtMostOnce(Seen(eligible, known), id) <==> id !in known || AtMostOnce(eligible, id)
    ensures forall item :: item in Seen(eligible, known) <==> item in eligible && item.externalId in known
  {
    if eligible != [] {
      var init, last := eligible[..|eligible| - 1], eligible[|eligible| - 1];
      assert eligible == init + [last];
      SeenOnceIff(init, known, id);
      OnceMore(init, last, id);
      if last.externalId in known {
        OnceMore(Seen(init, known), last, id);
      } else {
        assert Seen(eligible, known) == Seen(init, known);
      }
    }
  }

  lemma {:induction false} UnseenOnceIff(eligible: seq<Item>, known: set<string>, id: string)
    ensures AtMostOnce(Unseen(eligible, known), id) <==> id in known || AtMostOnce(eligible, id)
  {
    if eligible != [] {
      var init, last := eligible[..|eligible| - 1], eligible[|eligible| - 1];
      assert eligible == init + [last];
      UnseenOnceIff(init, known, id);
      FreshIsUnknown(init, known);
      OnceMore(init, last, id);
      if last.externalId in known {
        assert Unseen(eligible, known) == Unseen(init, known);
      } else {
        OnceMore(Unseen(init, known), last, id);
      }
    }
  }

  lemma RelevantOnce(unseen: seq<Item>, llm: Option<Triage.Oracle>, id: string)
    requires Relevant(unseen, llm).Some? && AtMostOnce(unseen, id)
    ensures AtMostOnce(Relevant(unseen, llm).value, id)
  {
    if unseen != [] && llm.Some? {
      Triage.KeptIsDistinct(llm.value, |unseen|);
    }
  }

  lemma ConcatOnceIff(a: seq<Item>, b: seq<Item>, id: string)
    requires forall x, y :: x in a && y in b ==> x.externalId != y.externalId
    ensures AtMostOnce(a + b, id) <==> AtMostOnce(a, id) && AtMostOnce(b, id)
  {
    if AtMostOnce(a + b, id) {
      forall i, j | 0 <= i < j < |a| && a[i].externalId == id ensures a[j].externalId != id {
        assert (a + b)[i] == a[i] && (a + b)[j] == a[j];
      }
      forall i, j | 0 <= i < j < |b| && b[i].externalId == id ensures b[j].externalId != id {
        assert (a + b)[|a| + i] == b[i] && (a + b)[|a| + j] == b[j];
      }
    }
  }

  /** What is stored names an id twice at most if the board does, and when nothing is dropped exactly then. */
  lemma StoredOnce(eligible: seq<Item>, known: set<string>, llm: Option<Triage.Oracle>, id: string)
    requires ToStore(eligible, known, llm).Some?
    ensures AtMostOnce(eligible, id) ==> AtMostOnce(ToStore(eligible, known, llm).value, id)
    ensures llm.None? && AtMostOnce(ToStore(eligible, known, llm).value, id) ==> AtMostOnce(eligible, id)
  {
    var unseen := Unseen(eligible, known);
    var relevant := Relevant(unseen, llm).value;
    SeenOnceIff(eligible, known, id);
    UnseenOnceIff(eligible, known, id);
    RelevantIsUnseen(eligible, known, llm);
    ConcatOnceIff(Seen(eligible, known), relevant, id);
    if AtMostOnce(unseen, id) {
      RelevantOnce(unseen, llm, id);
    }
  }

  /** The store of a poll that read the ids in known, if the LLM lets it get there, goes through. */
  ghost predicate AcceptedWith(s: Feed, c: CompanyId, eligible: seq<Item>, known: set<string>,
                               llm: Option<Triage.Oracle>) {
    var items := ToStore(eligible, known, llm);
    items.Some? ==> StoreAccepted(s, c, items.value)
  }

  /** Exactly when the store is accepted whatever triage makes of the board, for whatever ids the poll has read and
      whatever has become of the rows since: no id is listed twice that has no row when the poll stores. */
  lemma AcceptedForEveryReplyIff(s: Feed, c: CompanyId, eligible: seq<Item>, known: set<string>)
    requires c in s.companies
    ensures (forall llm :: AcceptedWith(s, c, eligible, known, llm)) <==> DistinctIds(Fresh(eligible, Known(s, c)))
  {
    FreshDistinctIff(eligible, Known(s, c));
    if DistinctIds(Fresh(eligible, Known(s, c))) {
      forall llm ensures AcceptedWith(s, c, eligible, known, llm) {
        EveryReplyAccepted(s, c, eligible, known, llm);
      }
    } else {
      var id :| id !in Known(s, c) && !AtMostOnce(eligible, id);
      var items := ToStore(eligible, known, None).value;
      StoredOnce(eligible, known, None, id);
      FreshDistinctIff(items, Known(s, c));
      assert !AcceptedWith(s, c, eligible, known, None);
    }
  }

  lemma EveryReplyAccepted(s: Feed, c: CompanyId, eligible: seq<Item>, known: set<string>, llm: Option<Triage.Oracle>)
    requires c in s.companies && DistinctIds(Fresh(eligible, Known(s, c)))
    ensures AcceptedWith(s, c, eligible, known, llm)
  {
    FreshDistinctIff(eligible, Known(s, c));
    if ToStore(eligible, known, llm).Some? {
      FreshDistinctIff(ToStore(eligible, known, llm).value, Known(s, c));
      forall id | id !in Known(s, c) ensures AtMostOnce(ToStore(eligible, known, llm).value, id) {
        StoredOnce(eligible, known, llm, id);
      }
    }
  }

  /** With unchanged rows: no unseen id is listed twice. */
  lemma UnchangedAcceptedIff(s: Feed, c: CompanyId, eligible: seq<Item>)
    requires c in s.companies
    ensures (forall llm :: AcceptedWith(s, c, eligible, Known(s, c), llm)) <==>
              DistinctIds(Unseen(eligible, Known(s, c)))
  {
    AcceptedForEveryReplyIff(s, c, eligible, Known(s, c));
  }

  /** Whatever becomes of the rows between reading the ids and storing: no id is listed twice. */
  lemma AlwaysAcceptedIff(c: CompanyId, eligible: seq<Item>, known: set<string>)
    ensures (forall s: Feed, llm :: c in s.companies ==> AcceptedWith(s, c, eligible, known, llm)) <==>
              DistinctIds(eligible)
  {
    var bare := Feed(map[c := Company(0, "", Active, None)], map[], map[], map[], c + 1, 0, 0);
    assert Known(bare, c) == {};
    AllFresh(eligible, {});
    AcceptedForEveryReplyIff(bare, c, eligible, known);
    if DistinctIds(eligible) {
      forall s: Feed, llm | c in s.companies ensures AcceptedWith(s, c, eligible, known, llm) {
        AllFresh(eligible, {});
        FreshDistinctIff(eligible, {});
        FreshDistinctIff(eligible, Known(s, c));
        EveryReplyAccepted(s, c, eligible, known, llm);
      }
    }
  }

  /** An accepted store adds exactly one row for each fresh item. */
  lemma StoreAddsFresh(s: Feed, c: CompanyId, items: seq<Item>, now: Time)
    requires RowsOk(s) && StoreAccepted(s, c, items)
    ensures Store(s, c, items, now).postings.Keys - s.postings.Keys ==
            IdsFrom(s.nextPosting, |Fresh(items, Known(s, c))|)
    ensures |Store(s, c, items, now).postings.Keys - s.postings.Keys| == |Fresh(items, Known(s, c))|
  {
    IdsFromSize(s.nextPosting, |Fresh(items, Known(s, c))|);
    StoredKeys(s, c, items, now);
  }

  lemma StoredKeys(s: Feed, c: CompanyId, items: seq<Item>, now: Time)
    requires RowsOk(s) && StoreAccepted(s, c, items)
    ensures Store(s, c, items, now).postings.Keys - s.postings.Keys ==
            IdsFrom(s.nextPosting, |Fresh(items, Known(s, c))|)
  {
    var added := IdsFrom(s.nextPosting, |Fresh(items, Known(s, c))|);
    assert StoredRows(s, c, items, now).Keys == s.postings.Keys + added;
    assert added !! s.postings.Keys;
  }

  lemma RelevantIsFewer(unseen: seq<Item>, llm: Option<Triage.Oracle>)
    requires Relevant(unseen, llm).Some?
    ensures |Relevant(unseen, llm).value| <= |unseen|
  {
    if unseen != [] && llm.Some? {
      Triage.KeptIsDistinct(llm.value, |unseen|);
      DistinctFit(Triage.Kept(llm.value, |unseen|).value, |unseen|);
    }
  }

  /** new_postings + dropped_by_triage is the number of unseen eligible postings, for every LLM behaviour:
      an accepted store adds exactly one row for each relevant item, and triage accounts for the rest. */
  lemma PollConserves(s: Feed, c: CompanyId, eligible: seq<Item>, llm: Option<Triage.Oracle>, now: Time)
    requires RowsOk(s) && ToStore(eligible, Known(s, c), llm).Some?
    requires StoreAccepted(s, c, ToStore(eligible, Known(s, c), llm).value)
    ensures var unseen := Unseen(eligible, Known(s, c));
            var s' := Store(s, c, ToStore(eligible, Known(s, c), llm).value, now);
            var newPostings := |s'.postings.Keys - s.postings.Keys|;
            var dropped := |unseen| - |Relevant(unseen, llm).value|;
            dropped >= 0 && newPostings + dropped == |unseen|
  {
    var known := Known(s, c);
    FreshIsRelevant(eligible, known, llm);
    StoreAddsFresh(s, c, ToStore(eligible, known, llm).value, now);
    RelevantIsFewer(Unseen(eligible, known), llm);
  }

  lemma IdsFromNext(first: PostingId, n: nat)
    ensures IdsFrom(first, n + 1) == IdsFrom(first, n) + {first + n}
    ensures first + n !in IdsFrom(first, n)
  {
    forall p ensures p in IdsFrom(first, n + 1) <==> p in IdsFrom(first, n) || p == first + n {
      assert HandedOut(p, first, n + 1) <==> HandedOut(p, first, n) || p == first + n;
    }
  }

  lemma {:induction false} IdsFromSize(first: PostingId, n: nat)
    ensures |IdsFrom(first, n)| == n
  {
    if n > 0 {
      IdsFromSize(first, n - 1);
      IdsFromNext(first, n - 1);
    } else {
      assert IdsFrom(first, n) == {};
    }
  }

  /** Distinct positions below n are at most n. */
  lemma DistinctFit(ps: seq<nat>, n: nat)
    requires Triage.Distinct(ps) && forall i :: 0 <= i < |ps| ==> ps[i] < n
    ensures |ps| <= n
  {
    SeqAsSet(ps);
    IdsFromSize(0, n);
    forall p | p in ps ensures p in IdsFrom(0, n) {
      assert HandedOut(p, 0, n);
    }
    SubsetSize(Elements(ps), IdsFrom(0, n));
  }

  function Elements(ps: seq<nat>): set<nat> {
    set p | p in ps
  }

  lemma {:induction false} SeqAsSet(ps: seq<nat>)
    requires forall i, j :: 0 <= i < j < |ps| ==> ps[i] != ps[j]
    ensures |Elements(ps)| == |ps|
  {
    if ps == [] {
      assert Elements(ps) == {};
    } else {
      var n := |ps| - 1;
      SeqAsSet(ps[..n]);
      assert ps == ps[..n] + [ps[n]];
      assert ps[n] !in ps[..n];
      assert Elements(ps) == Elements(ps[..n]) + {ps[n]};
    }
  }

  lemma KnownStays(s: Feed, c: CompanyId, items: seq<Item>, now: Time, id: string)
    requires StoreAccepted(s, c, items) && id in Known(s, c)
    ensures id in Known(Store(s, c, items, now), c)
  {
    var p :| p in s.postings && s.postings[p].company == c && s.postings[p].externalId == id;
    assert p in StoredRows(s, c, items, now);
    StoredRow(s, c, items, now, p);
  }

  /** After an accepted store every incoming item has its row. */
  lemma StoredIsKnown(s: Feed, c: CompanyId, items: seq<Item>, now: Time, item: Item)
    requires RowsOk(s) && StoreAccepted(s, c, items) && item in items
    ensures item.externalId in Known(Store(s, c, items, now), c)
  {
    var known := Known(s, c);
    var s' := Store(s, c, items, now);
    FreshIsUnknown(items, known);
    if item.externalId in known {
      KnownStays(s, c, items, now, item.externalId);
    } else {
      var i :| 0 <= i < |Fresh(items, known)| && Fresh(items, known)[i] == item;
      var p := s.nextPosting + i;
      assert HandedOut(p, s.nextPosting, |Fresh(items, known)|);
      assert p in s'.postings;
      StoredRow(s, c, items, now, p);
    }
  }

  lemma {:induction false} SeenHas(eligible: seq<Item>, known: set<string>, item: Item)
    requires item in eligible && item.externalId in known
    ensures item in Seen(eligible, known)
  {
    var n := |eligible| - 1;
    if item != eligible[n] {
      SeenHas(eligible[..n], known, item);
    }
  }

  /** With no LLM client, or with a provider that refuses every call, every eligible posting ends up stored. */
  lemma DeadProviderStoresAll(s: Feed, c: CompanyId, eligible: seq<Item>, llm: Option<Triage.Oracle>, now: Time,
                              item: Item)
    requires RowsOk(s) && c in s.companies && item in eligible
    requires llm.Some? ==> forall k :: llm.value(k) == Triage.Refused
    requires DistinctIds(Unseen(eligible, Known(s, c)))
    ensures ToStore(eligible, Known(s, c), llm).Some?
    ensures item.externalId in Known(Store(s, c, ToStore(eligible, Known(s, c), llm).value, now), c)
  {
    var known := Known(s, c);
    var unseen := Unseen(eligible, known);
    if llm.Some? {
      Triage.DeadProviderKeepsAll(llm.value, |unseen|);
      assert Triage.At(unseen, Triage.Upto(|unseen|)) == unseen;
    }
    assert Relevant(unseen, llm) == Some(unseen);
    EveryReplyAccepted(s, c, eligible, known, llm);
    if item.externalId in known {
      SeenHas(eligible, known, item);
    } else {
      FreshIsUnknown(eligible, known);
    }
    StoredIsKnown(s, c, Seen(eligible, known) + unseen, now, item);
  }

  // ---------------------------------------------------------------------------------------------
  // Draining the backlog
  // ---------------------------------------------------------------------------------------------

  function Pending(s: Feed, c: CompanyId): set<PostingId> {
    set p | p in s.postings && s.postings[p].company == c && s.postings[p].state == New
  }

  /** What a screen that is not interrupted leaves pending: all but the rows it scores. */
  lemma ScreenLeaves(s: Feed, t: TaskId, c: CompanyId, order: seq<PostingId>, held: CompanyStatus,
                     llm: Option<Oracle>, now: Time, missing: MissingRows)
    requires FeedOk(s) && Enabled(s, DoBeginScreen(t, c, order, held))
    ensures var s1 := BeginScreen(s, t, c, order, held);
            var s' := FinishScreen(s1, t, llm, now, missing);
            forall p :: p in Pending(s', c) <==> p in Pending(s, c) && !Writes(s1, t, llm, missing, p)
  {
    var s1 := BeginScreen(s, t, c, order, held);
    var s' := FinishScreen(s1, t, llm, now, missing);
    BeginKeepsOk(s, t, c, order, held);
    FinishKeys(s1, t, llm, now, missing);
    forall p | p in s.postings
      ensures p in Pending(s', c) <==> p in Pending(s, c) && !Writes(s1, t, llm, missing, p)
    {
      FinishedRow(s1, t, llm, now, missing, p);
    }
  }

  /** The commit of a screen goes through as long as the company and the rows it read are still there. */
  lemma IntactScreenCommits(s: Feed, s2: Feed, c: CompanyId, order: seq<PostingId>, llm: Option<Oracle>)
    requires PendingOrder(s, c, order) && c in s2.companies && forall p :: p in s.postings ==> p in s2.postings
    ensures forall held, missing :: FinishCommits(s2, Snapshot(c, order, held), llm, missing)
  {
    forall i | 0 <= i < |order| ensures order[i] in s2.postings {
      assert order[i] in order && IsPending(s, c, order[i]);
    }
  }

  lemma AnsweringWrites(order: seq<PostingId>, llm: Option<Oracle>, p: PostingId)
    requires Answering(llm)
    ensures (exists i :: WrittenAt(order, llm, p, i)) <==> p in Reach(order)
  {
    var n := ScreenedLen(|order|);
    forall i: nat ensures Scores(llm, |order|, i) <==> i < n { AnsweringScores(llm, |order|, i); }
    if p in Reach(order) {
      var i :| 0 <= i < n && Reach(order)[i] == p;
      assert WrittenAt(order, llm, p, i);
    }
  }

  lemma PendingIsOrder(s: Feed, c: CompanyId, order: seq<PostingId>)
    requires PendingOrder(s, c, order)
    ensures Pending(s, c) == Elements(order) && |Pending(s, c)| == |order|
  {
    forall p ensures p in Pending(s, c) <==> p in order {
      assert p in order <==> IsPending(s, c, p);
    }
    assert Pending(s, c) == Elements(order);
    SeqAsSet(order);
  }

  /** With a provider that answers, one screen takes the oldest rows off the backlog, up to the limit. */
  lemma ScreenDrains(s: Feed, t: TaskId, c: CompanyId, order: seq<PostingId>, held: CompanyStatus,
                     llm: Option<Oracle>, now: Time, missing: MissingRows)
    requires FeedOk(s) && Enabled(s, DoBeginScreen(t, c, order, held)) && Answering(llm)
    ensures var s' := FinishScreen(BeginScreen(s, t, c, order, held), t, llm, now, missing);
            Pending(s', c) == Pending(s, c) - Elements(Reach(order))
  {
    var s1 := BeginScreen(s, t, c, order, held);
    ScreenLeaves(s, t, c, order, held, llm, now, missing);
    IntactScreenCommits(s, s1, c, order, llm);
    forall p ensures Writes(s1, t, llm, missing, p) <==> p in Reach(order) {
      AnsweringWrites(order, llm, p);
    }
  }

  lemma ScreenDrainsCount(s: Feed, t: TaskId, c: CompanyId, order: seq<PostingId>, held: CompanyStatus,
                          llm: Option<Oracle>, now: Time, missing: MissingRows)
    requires FeedOk(s) && Enabled(s, DoBeginScreen(t, c, order, held)) && Answering(llm)
    ensures var s' := FinishScreen(BeginScreen(s, t, c, order, held), t, llm, now, missing);
            |Pending(s', c)| == |Pending(s, c)| - ScreenedLen(|Pending(s, c)|)
  {
    ScreenDrains(s, t, c, order, held, llm, now, missing);
    PendingIsOrder(s, c, order);
    var s' := FinishScreen(BeginScreen(s, t, c, order, held), t, llm, now, missing);
    ReachTakenAway(order, Pending(s, c), Pending(s', c));
  }

  lemma ReachTakenAway(order: seq<PostingId>, before: set<PostingId>, after: set<PostingId>)
    requires forall i, j :: 0 <= i < j < |order| ==> order[i] != order[j]
    requires before == Elements(order) && after == before - Elements(Reach(order))
    ensures |after| == |before| - ScreenedLen(|before|)
  {
    SeqAsSet(order);
    SeqAsSet(Reach(order));
    assert Elements(Reach(order)) <= before;
  }

  /** What a poll reads and is told from outside the tables. */
  datatype PollInput = PollInput(t: TaskId, items: seq<Item>, order: seq<PostingId>, held: CompanyStatus,
                                 llm: Option<Oracle>, now: Time, later: Time, missing: MissingRows)

  /** A poll with nothing new to store and nobody interfering: known rows are refreshed, then screened by a
      provider that answers. */
  ghost predicate QuietPoll(s: Feed, s': Feed, c: CompanyId) {
    exists input :: IsQuietPoll(s, s', c, input)
  }

  ghost predicate IsQuietPoll(s: Feed, s': Feed, c: CompanyId, input: PollInput) {
    var PollInput(t, items, order, held, llm, now, later, missing) := input;
    var stored := Store(s, c, items, now);
    && Fresh(items, Known(s, c)) == []
    && Answering(llm)
    && Enabled(stored, DoBeginScreen(t, c, order, held))
    && s' == FinishScreen(BeginScreen(stored, t, c, order, held), t, llm, later, missing)
  }

  lemma RefreshKeepsPending(s: Feed, c: CompanyId, items: seq<Item>, now: Time)
    requires c in s.companies && Fresh(items, Known(s, c)) == []
    ensures Pending(Store(s, c, items, now), c) == Pending(s, c)
  {
    var s' := Store(s, c, items, now);
    forall p | p in s'.postings
      ensures p in s.postings && s'.postings[p].company == s.postings[p].company
      ensures s'.postings[p].state == s.postings[p].state
    {
      StoredRow(s, c, items, now, p);
    }
    assert forall p :: p in s.postings ==> p in s'.postings;
  }

  lemma StoreKeepsCompanies(s: Feed, c: CompanyId, items: seq<Item>, now: Time)
    ensures Store(s, c, items, now).companies == s.companies
  {
  }

  lemma QuietPollDrains(s: Feed, s': Feed, c: CompanyId)
    requires FeedOk(s) && QuietPoll(s, s', c)
    ensures FeedOk(s')
    ensures |Pending(s', c)| == |Pending(s, c)| - ScreenedLen(|Pending(s, c)|)
  {
    var input :| IsQuietPoll(s, s', c, input);
    var PollInput(t, items, order, held, llm, now, later, missing) := input;
    var stored := Store(s, c, items, now);
    StoreKeepsOk(s, c, items, now);
    StoreKeepsCompanies(s, c, items, now);
    RefreshKeepsPending(s, c, items, now);
    BeginKeepsOk(stored, t, c, order, held);
    FinishKeepsOk(BeginScreen(stored, t, c, order, held), t, llm, later, missing);
    ScreenDrainsCount(stored, t, c, order, held, llm, later, missing);
  }

  /** n pending postings are gone after exactly ceil(n / limit) quiet polls, and not before. */
  lemma {:induction false} BacklogDrains(states: seq<Feed>, c: CompanyId, i: nat)
    requires i < |states| && FeedOk(states[0])
    requires forall k :: 0 <= k < |states| - 1 ==> QuietPoll(states[k], states[k + 1], c)
    ensures FeedOk(states[i])
    ensures var n := |Pending(states[0], c)|;
            && |Pending(states[i], c)| == (if i * SCREEN_LIMIT_PER_POLL >= n then 0 else n - i * SCREEN_LIMIT_PER_POLL)
            && (Pending(states[i], c) == {} <==> i >= (n + SCREEN_LIMIT_PER_POLL - 1) / SCREEN_LIMIT_PER_POLL)
  {
    if i > 0 {
      BacklogDrains(states, c, i - 1);
      assert QuietPoll(states[i - 1], states[i - 1 + 1], c);
      QuietPollDrains(states[i - 1], states[i], c);
    }
  }

  // ---------------------------------------------------------------------------------------------
  // What interference can do
  // ---------------------------------------------------------------------------------------------

  lemma AnsweredFinishScores(s: Feed, t: TaskId, llm: Option<Oracle>, now: Time, missing: MissingRows, i: nat)
    requires SnapshotsOk(s) && t in s.snapshots && FinishCommits(s, s.snapshots[t], llm, missing) && Answering(llm)
    requires i < ScreenedLen(|s.snapshots[t].order|) && s.snapshots[t].order[i] in s.postings
    ensures var p := s.snapshots[t].order[i];
            var s' := FinishScreen(s, t, llm, now, missing);
            && Writes(s, t, llm, missing, p)
            && p in s'.postings && s'.postings[p] == ScoredRow(s.postings[p], llm.value(i))
  {
    var order := s.snapshots[t].order;
    AnsweringScores(llm, |order|, i);
    assert WrittenAt(order, llm, order[i], i);
    FinishedRow(s, t, llm, now, missing, order[i]);
  }

  /** A role dismissed while a poll is scoring it returns to the feed when the poll finishes: from any state,
      for any pending posting within the limit. */
  lemma DismissedDuringScreenReturns(s: Feed, t: TaskId, c: CompanyId, order: seq<PostingId>,
                                     held: CompanyStatus, i: nat, llm: Option<Oracle>, now: Time, missing: MissingRows)
    requires FeedOk(s) && Enabled(s, DoBeginScreen(t, c, order, held)) && i < ScreenedLen(|order|) && Answering(llm)
    ensures var p, s2 := order[i], Dismiss(BeginScreen(s, t, c, order, held), order[i]);
            && p in s.postings && p in s2.postings && Decided(s2.postings[p])
            && InDefaultFeed(FinishScreen(s2, t, llm, now, missing), s.postings[p].profile, p)
  {
    assert order[i] in order && IsPending(s, c, order[i]);
    var s1 := BeginScreen(s, t, c, order, held);
    BeginKeepsOk(s, t, c, order, held);
    DismissedRowReturns(s1, t, i, llm, now, missing);
    IntactScreenCommits(s, Dismiss(s1, order[i]), c, order, llm);
  }

  lemma DismissedRowReturns(s: Feed, t: TaskId, i: nat, llm: Option<Oracle>, now: Time, missing: MissingRows)
    requires FeedOk(s) && t in s.snapshots && Answering(llm)
    requires i < ScreenedLen(|s.snapshots[t].order|) && s.snapshots[t].order[i] in s.postings
    ensures var p, s2 := s.snapshots[t].order[i], Dismiss(s, s.snapshots[t].order[i]);
            && p in s2.postings && Decided(s2.postings[p])
            && (FinishCommits(s2, s.snapshots[t], llm, missing) ==>
                  InDefaultFeed(FinishScreen(s2, t, llm, now, missing), s.postings[p].profile, p))
  {
    var p := s.snapshots[t].order[i];
    var s2 := Dismiss(s, p);
    DismissKeepsOk(s, p);
    if FinishCommits(s2, s.snapshots[t], llm, missing) {
      AnsweredFinishScores(s2, t, llm, now, missing, i);
    }
  }

  lemma {:induction false} WriteScoresNowhere(rows: map<PostingId, Posting>, order: seq<PostingId>,
                                              llm: Option<Oracle>, n: nat)
    requires n <= |order| && forall i :: 0 <= i < n ==> order[i] !in rows
    ensures WriteScores(rows, order, llm, n) == rows
  {
    if n > 0 {
      WriteScoresNowhere(rows, order, llm, n - 1);
    }
  }

  lemma PendingRow(s: Feed, c: CompanyId, order: seq<PostingId>, i: nat)
    requires RowsOk(s) && c in s.companies && PendingOrder(s, c, order) && i < |order|
    ensures order[i] in s.postings && Undecided(s.postings[order[i]])
    ensures s.postings[order[i]].profile == s.companies[c].profile
  {
    assert order[i] in order && IsPending(s, c, order[i]);
  }

  /** A target change while a poll is scoring costs the poll all its scores, whatever the LLM replies. If a row was
      scored and the final flush raises over the missing rows, the rest of the commit is lost too; otherwise the
      company counts as just polled, and the immediate poll that the target change asked for waits for the interval. */
  lemma TargetChangeDuringScreenLosesScores(s: Feed, t: TaskId, c: CompanyId, order: seq<PostingId>,
                                            held: CompanyStatus, llm: Option<Oracle>, now: Time, missing: MissingRows,
                                            later: Time, interval: Time)
    requires RowsOk(s) && Enabled(s, DoBeginScreen(t, c, order, held))
    ensures var s2 := SetTarget(BeginScreen(s, t, c, order, held), s.companies[c].profile);
            var s3 := FinishScreen(s2, t, llm, now, missing);
            var status := FinalStatus(s.companies[c].status, held, ScreenOutcome(llm, |order|));
            var lost := missing.CommitLost? && ScoresAny(llm, |order|);
            && s3.postings == s2.postings && c in s3.companies
            && s3 == (if lost then Abandon(s2, t) else Fail(Abandon(s2, t), c, status, now))
            && (s.companies[c].status.Active? ==>
                  (Due(s3.companies[c], later, interval) <==> lost || (status.Active? && later >= now + interval)))
  {
    var s2 := SetTarget(BeginScreen(s, t, c, order, held), s.companies[c].profile);
    forall i | 0 <= i < |order| ensures order[i] !in s2.postings {
      PendingRow(s, c, order, i);
    }
    WriteScoresNowhere(s2.postings, order, llm, |order|);
    assert RowsIntact(s2, order, llm) <==> !ScoresAny(llm, |order|);
  }

  ghost predicate ScoresAny(llm: Option<Oracle>, n: nat) {
    exists i :: Scores(llm, n, i)
  }

  /** What a poll holds once a pending row was dismissed and a target change has taken the others. */
  ghost predicate OnlyLeft(s: Feed, t: TaskId, c: CompanyId, order: seq<PostingId>, i: nat) {
    && FeedOk(s) && t in s.snapshots && s.snapshots[t].company == c && s.snapshots[t].order == order && c in s.companies
    && i < |order| && order[i] in s.postings && Decided(s.postings[order[i]])
    && forall k :: 0 <= k < |order| && k != i ==> order[k] !in s.postings
  }

  ghost function DismissedThenRetargeted(s: Feed, t: TaskId, c: CompanyId, order: seq<PostingId>, held: CompanyStatus,
                                         i: nat): Feed
    requires c in s.companies && i < |order|
  {
    SetTarget(Dismiss(BeginScreen(s, t, c, order, held), order[i]), s.companies[c].profile)
  }

  lemma DismissedIsLeft(s: Feed, t: TaskId, c: CompanyId, order: seq<PostingId>, held: CompanyStatus, i: nat)
    requires FeedOk(s) && Enabled(s, DoBeginScreen(t, c, order, held)) && i < |order|
    ensures OnlyLeft(DismissedThenRetargeted(s, t, c, order, held, i), t, c, order, i)
  {
    var s1 := BeginScreen(s, t, c, order, held);
    var s2 := Dismiss(s1, order[i]);
    BeginKeepsOk(s, t, c, order, held);
    DismissKeepsOk(s1, order[i]);
    SetTargetKeepsOk(s2, s.companies[c].profile);
    PendingRow(s, c, order, i);
    forall k | 0 <= k < |order| && k != i ensures order[k] !in SetTarget(s2, s.companies[c].profile).postings {
      PendingRow(s, c, order, k);
      TargetTakes(s1, s.companies[c].profile, order[k], order[i]);
    }
  }

  lemma TargetTakes(s: Feed, profile: ProfileId, q: PostingId, p: PostingId)
    requires p != q && q in s.postings && s.postings[q].profile == profile && Undecided(s.postings[q])
    ensures q !in SetTarget(Dismiss(s, p), profile).postings
  {
  }

  lemma LeftSurvivesIff(s: Feed, t: TaskId, c: CompanyId, order: seq<PostingId>, i: nat, llm: Option<Oracle>, now: Time,
                        missing: MissingRows)
    requires OnlyLeft(s, t, c, order, i)
    ensures FinishLeavesDecided(s, t, llm, now, missing, order[i]) <==>
              !Scores(llm, |order|, i) || (missing.CommitLost? && exists k :: k != i && Scores(llm, |order|, k))
  {
    FinishKeepsDecisionIff(s, t, llm, now, missing, order[i]);
    if Scores(llm, |order|, i) {
      assert WrittenAt(order, llm, order[i], i);
    }
  }

  lemma LeftSurvivesEveryReplyIff(s: Feed, t: TaskId, c: CompanyId, order: seq<PostingId>, i: nat, now: Time,
                                  missing: MissingRows)
    requires OnlyLeft(s, t, c, order, i)
    ensures (forall llm :: FinishLeavesDecided(s, t, llm, now, missing, order[i])) <==>
              i >= ScreenedLen(|order|) || (missing.CommitLost? && i >= 2)
  {
    DecisionSurvivesEveryReplyIff(s, t, now, missing, order[i]);
    if i < ScreenedLen(|order|) {
      assert Reach(order)[i] == order[i];
    }
    if i >= 2 {
      assert PairGone(s, order, 0);
    }
  }

  /** A pending row dismissed while it is scored, and then a target change that takes all the others: the decision
      survives exactly when the row is not scored, or another one is and the flush that misses it raises. Whatever the
      LLM replies it survives exactly for a row beyond the limit, or, if that flush raises, one with two before it. */
  lemma DismissedThenTargetChangeIff(s: Feed, t: TaskId, c: CompanyId, order: seq<PostingId>, held: CompanyStatus,
                                     i: nat, llm: Option<Oracle>, now: Time, missing: MissingRows)
    requires FeedOk(s) && Enabled(s, DoBeginScreen(t, c, order, held)) && i < |order|
    ensures var s2 := DismissedThenRetargeted(s, t, c, order, held, i);
            && order[i] in s2.postings && Decided(s2.postings[order[i]])
            && (FinishLeavesDecided(s2, t, llm, now, missing, order[i]) <==>
                  !Scores(llm, |order|, i) || (missing.CommitLost? && exists k :: k != i && Scores(llm, |order|, k)))
            && ((forall reply :: FinishLeavesDecided(s2, t, reply, now, missing, order[i])) <==>
                  i >= ScreenedLen(|order|) || (missing.CommitLost? && i >= 2))
  {
    DismissedIsLeft(s, t, c, order, held, i);
    var s2 := DismissedThenRetargeted(s, t, c, order, held, i);
    LeftSurvivesIff(s2, t, c, order, i, llm, now, missing);
    LeftSurvivesEveryReplyIff(s2, t, c, order, i, now, missing);
  }
}
