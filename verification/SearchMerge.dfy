/** Merging search results: the early-exit merge of several providers, and the research agent's loop that
    dedupes as it goes. Case folding of URLs is an arbitrary function. */
module SearchMerge {
  import opened Options

  const MAX_AGENT_STEPS: nat := 5
  const MAX_AGENT_SEARCHES: nat := 5

  datatype SearchResult = SearchResult(url: string, title: string, snippet: string)

  type Fold = string -> string

  function Flatten(batches: seq<seq<SearchResult>>): seq<SearchResult> {
    if batches == [] then [] else Flatten(batches[..|batches| - 1]) + batches[|batches| - 1]
  }

  function Keys(results: seq<SearchResult>, fold: Fold): set<string> {
    set r | r in results :: fold(r.url)
  }

  /** The first result for each folded URL, in order. */
  function Dedupe(results: seq<SearchResult>, fold: Fold): seq<SearchResult> {
    if results == [] then [] else
      var before, last := Dedupe(results[..|results| - 1], fold), results[|results| - 1];
      if fold(last.url) in Keys(before, fold) then before else before + [last]
  }

  function Take(results: seq<SearchResult>, n: nat): seq<SearchResult> {
    if n <= |results| then results[..n] else results
  }

  // ---------------------------------------------------------------------------------------------
  // What deduping is
  // ---------------------------------------------------------------------------------------------

  ghost predicate IsFirst(results: seq<SearchResult>, i: nat, fold: Fold) {
    i < |results| && forall j :: 0 <= j < i ==> fold(results[j].url) != fold(results[i].url)
  }

  function FirstPositions(results: seq<SearchResult>, fold: Fold): seq<nat> {
    if results == [] then [] else
      var n := |results| - 1;
      var before := FirstPositions(results[..n], fold);
      if exists j :: 0 <= j < n && fold(results[j].url) == fold(results[n].url) then before else before + [n]
  }

  /** The positions of the first occurrences, all of them, in increasing order. */
  lemma {:induction false} FirstPositionsAreFirst(results: seq<SearchResult>, fold: Fold)
    ensures var ps := FirstPositions(results, fold);
            && (forall k :: 0 <= k < |ps| ==> IsFirst(results, ps[k], fold))
            && (forall k, m :: 0 <= k < m < |ps| ==> ps[k] < ps[m])
            && (forall i :: IsFirst(results, i, fold) ==> i in ps)
  {
    if results != [] {
      var n := |results| - 1;
      FirstPositionsAreFirst(results[..n], fold);
      forall i: nat ensures i < n ==> (IsFirst(results, i, fold) <==> IsFirst(results[..n], i, fold)) {}
    }
  }

  lemma {:induction false} SameKeys(results: seq<SearchResult>, fold: Fold)
    ensures Keys(Dedupe(results, fold), fold) == Keys(results, fold)
  {
    if results != [] {
      var n := |results| - 1;
      SameKeys(results[..n], fold);
      KeysAppend(results[..n], results[n], fold);
      KeysAppend(Dedupe(results[..n], fold), results[n], fold);
      assert results == results[..n] + [results[n]];
    }
  }

  lemma KeysAppend(results: seq<SearchResult>, r: SearchResult, fold: Fold)
    ensures Keys(results + [r], fold) == Keys(results, fold) + {fold(r.url)}
  {
    assert forall x :: x in results + [r] <==> x in results || x == r;
  }

  /** Deduping keeps exactly the first occurrence of each folded URL, in order. */
  lemma {:induction false} DedupeKeepsFirsts(results: seq<SearchResult>, fold: Fold)
    ensures var ps := FirstPositions(results, fold);
            && |Dedupe(results, fold)| == |ps|
            && forall k :: 0 <= k < |ps| ==> ps[k] < |results| && Dedupe(results, fold)[k] == results[ps[k]]
  {
    if results != [] {
      var n := |results| - 1;
      var init := results[..n];
      DedupeKeepsFirsts(init, fold);
      SameKeys(init, fold);
      assert fold(results[n].url) in Keys(init, fold) <==>
             exists j :: 0 <= j < n && fold(results[j].url) == fold(results[n].url) by {
        if j :| 0 <= j < n && fold(results[j].url) == fold(results[n].url) {
          assert init[j] in init;
        }
      }
    }
  }

  lemma {:induction false} DedupeAppend(results: seq<SearchResult>, r: SearchResult, fold: Fold)
    ensures Dedupe(results + [r], fold) ==
            if fold(r.url) in Keys(results, fold) then Dedupe(results, fold) else Dedupe(results, fold) + [r]
  {
    assert (results + [r])[..|results|] == results;
    SameKeys(results, fold);
  }

  /** Deduping a part first changes nothing: what lets the loop dedupe after every search. */
  lemma {:induction false} DedupeIncremental(a: seq<SearchResult>, b: seq<SearchResult>, fold: Fold)
    ensures Dedupe(Dedupe(a, fold) + b, fold) == Dedupe(a + b, fold)
    decreases |b|
  {
    if b == [] {
      assert a + b == a && Dedupe(a, fold) + b == Dedupe(a, fold);
      DedupeTwice(a, fold);
    } else {
      var n := |b| - 1;
      DedupeIncremental(a, b[..n], fold);
      assert a + b == (a + b[..n]) + [b[n]];
      assert Dedupe(a, fold) + b == (Dedupe(a, fold) + b[..n]) + [b[n]];
      DedupeAppend(a + b[..n], b[n], fold);
      DedupeAppend(Dedupe(a, fold) + b[..n], b[n], fold);
      SameKeys(a + b[..n], fold);
      SameKeys(Dedupe(a, fold) + b[..n], fold);
    }
  }

  lemma {:induction false} DedupeTwice(a: seq<SearchResult>, fold: Fold)
    ensures Dedupe(Dedupe(a, fold), fold) == Dedupe(a, fold)
  {
    if a != [] {
      var n := |a| - 1;
      DedupeTwice(a[..n], fold);
      DedupeAppend(Dedupe(a[..n], fold), a[n], fold);
    }
  }

  lemma {:induction false} DedupeGrows(results: seq<SearchResult>, m: nat, fold: Fold)
    requires m <= |results|
    ensures Dedupe(results[..m], fold) <= Dedupe(results, fold)
    decreases |results|
  {
    if m < |results| {
      var n := |results| - 1;
      DedupeGrows(results[..n], m, fold);
      assert results[..n][..m] == results[..m];
    } else {
      assert results[..m] == results;
    }
  }

  // ---------------------------------------------------------------------------------------------
  // The loops
  // ---------------------------------------------------------------------------------------------

  method DedupeSearchResults(results: seq<SearchResult>, fold: Fold) returns (unique: seq<SearchResult>)
    ensures unique == Dedupe(results, fold)
  {
    unique := [];
    var seenUrls: set<string> := {};
    for i := 0 to |results|
      invariant unique == Dedupe(results[..i], fold) && seenUrls == Keys(unique, fold)
    {
      assert results[..i + 1][..i] == results[..i];
      var key := fold(results[i].url);
      if key in seenUrls {
        continue;
      }
      KeysAppend(unique, results[i], fold);
      seenUrls := seenUrls + {key};
      unique := unique + [results[i]];
    }
    assert results[..|results|] == results;
  }

  lemma FlattenStep(batches: seq<seq<SearchResult>>, b: nat)
    requires b < |batches|
    ensures Flatten(batches[..b + 1]) == Flatten(batches[..b]) + batches[b] <= Flatten(batches)
  {
    assert batches[..b + 1][..b] == batches[..b];
    FlattenPrefix(batches, b + 1);
  }

  lemma {:induction false} FlattenPrefix(batches: seq<seq<SearchResult>>, b: nat)
    requires b <= |batches|
    ensures Flatten(batches[..b]) <= Flatten(batches)
    decreases |batches|
  {
    if b < |batches| {
      var n := |batches| - 1;
      FlattenPrefix(batches[..n], b);
      assert batches[..n][..b] == batches[..b];
    } else {
      assert batches[..b] == batches;
    }
  }

  /** What is flattened is the batches one after the other. */
  lemma {:induction false} FlattenConcat(a: seq<seq<SearchResult>>, b: seq<seq<SearchResult>>)
    ensures Flatten(a + b) == Flatten(a) + Flatten(b)
    ensures |b| == 1 ==> Flatten(b) == b[0]
    decreases |b|
  {
    if b == [] {
      assert a + b == a;
    } else {
      var n := |b| - 1;
      FlattenConcat(a, b[..n]);
      assert (a + b)[..|a + b| - 1] == a + b[..n];
      assert Flatten([]) == [];
    }
  }

  lemma PrefixDedupe(part: seq<SearchResult>, all: seq<SearchResult>, fold: Fold)
    requires part <= all
    ensures Dedupe(part, fold) <= Dedupe(all, fold)
  {
    assert all[..|part|] == part;
    DedupeGrows(all, |part|, fold);
  }

  lemma MergeStep(before: seq<SearchResult>, batch: seq<SearchResult>, i: nat, fold: Fold)
    requires i < |batch|
    ensures var merged := Dedupe(before + batch[..i], fold);
            Dedupe(before + batch[..i + 1], fold) ==
            if fold(batch[i].url) in Keys(merged, fold) then merged else merged + [batch[i]]
  {
    assert before + batch[..i + 1] == (before + batch[..i]) + [batch[i]];
    DedupeAppend(before + batch[..i], batch[i], fold);
    SameKeys(before + batch[..i], fold);
  }

  function Cap(maxResults: int): nat {
    if maxResults < 1 then 1 else maxResults
  }

  /** The inner loop: one more batch, until the cap is reached. */
  method MergeBatch(merged0: seq<SearchResult>, seen0: set<string>, batch: seq<SearchResult>, maxResults: int,
                    fold: Fold, ghost before: seq<SearchResult>)
    returns (merged: seq<SearchResult>, seenUrls: set<string>, full: bool)
    requires merged0 == Dedupe(before, fold) && seen0 == Keys(merged0, fold) && |merged0| < Cap(maxResults)
    ensures seenUrls == Keys(merged, fold)
    ensures !full ==> merged == Dedupe(before + batch, fold) && |merged| < Cap(maxResults)
    ensures full ==> |merged| == Cap(maxResults) && merged <= Dedupe(before + batch, fold)
  {
    merged, seenUrls := merged0, seen0;
    assert before + batch[..0] == before;
    for i := 0 to |batch|
      invariant merged == Dedupe(before + batch[..i], fold) && seenUrls == Keys(merged, fold)
      invariant |merged| < Cap(maxResults)
    {
      MergeStep(before, batch, i, fold);
      var key := fold(batch[i].url);
      if key in seenUrls {
        continue;
      }
      KeysAppend(merged, batch[i], fold);
      seenUrls := seenUrls + {key};
      merged := merged + [batch[i]];
      if |merged| >= maxResults {
        PrefixDedupe(before + batch[..i + 1], before + batch, fold);
        return merged, seenUrls, true;
      }
    }
    assert batch[..|batch|] == batch;
    full := false;
  }

  /** The early-exit merge returns the first maxResults of the deduped concatenation; a cap below 1 acts as 1. */
  method MergeResults(batches: seq<seq<SearchResult>>, maxResults: int, fold: Fold) returns (merged: seq<SearchResult>)
    ensures merged == Take(Dedupe(Flatten(batches), fold), Cap(maxResults))
    ensures merged <= Dedupe(Flatten(batches), fold)
    ensures |merged| < |Dedupe(Flatten(batches), fold)| ==> |merged| == if maxResults < 1 then 1 else maxResults
    ensures |merged| <= if maxResults < 1 then 1 else maxResults
  {
    merged := [];
    var seenUrls: set<string> := {};
    ghost var all := Flatten(batches);
    for b := 0 to |batches|
      invariant merged == Dedupe(Flatten(batches[..b]), fold) && seenUrls == Keys(merged, fold)
      invariant |merged| < Cap(maxResults)
    {
      ghost var before := Flatten(batches[..b]);
      FlattenStep(batches, b);
      var full;
      merged, seenUrls, full := MergeBatch(merged, seenUrls, batches[b], maxResults, fold, before);
      if full {
        PrefixDedupe(before + batches[b], all, fold);
        return;
      }
    }
    assert batches[..|batches|] == batches;
  }

  // ---------------------------------------------------------------------------------------------
  // The research agent
  // ---------------------------------------------------------------------------------------------

  /** What the LLM decides at a step: search for something, stop, or an error that ends the loop. A query is
      what is left of it after stripping, empty when it was missing. */
  datatype Decision = Search(query: string) | Synthesize | LlmFails

  type Agent = nat -> Decision

  /** The search client by call number; None when it raises. */
  type SearchClient = nat -> Option<seq<SearchResult>>

  predicate Asks(decision: Decision) {
    decision.Search? && decision.query != ""
  }

  function SearchesIn(agent: Agent, steps: nat): nat {
    if steps == 0 then 0 else SearchesIn(agent, steps - 1) + if Asks(agent(steps - 1)) then 1 else 0
  }

  /** Everything the first n searches found, one batch after the other. */
  function AllFound(client: SearchClient, n: nat): seq<SearchResult> {
    if n == 0 then [] else AllFound(client, n - 1) + if client(n - 1).Some? then client(n - 1).value else []
  }

  /** The batches of the first n searches, when none of them fails. */
  lemma {:induction false} FoundInBatches(client: SearchClient, n: nat) returns (batches: seq<seq<SearchResult>>)
    requires forall i: nat :: i < n ==> client(i).Some?
    ensures |batches| == n && (forall i: nat :: i < n ==> client(i) == Some(batches[i]))
    ensures AllFound(client, n) == Flatten(batches)
  {
    batches := [];
    if n > 0 {
      var before := FoundInBatches(client, n - 1);
      batches := before + [client(n - 1).value];
      assert batches[..n - 1] == before;
    }
  }

  /** One search of the loop; None when the client raises. */
  method SearchOnce(client: SearchClient, n: nat, found: seq<SearchResult>, fold: Fold)
    returns (more: Option<seq<SearchResult>>)
    requires found == Dedupe(AllFound(client, n), fold)
    ensures more.Some? <==> client(n).Some?
    ensures more.Some? ==> more.value == Dedupe(AllFound(client, n + 1), fold)
  {
    var batch := client(n);
    if batch.None? {
      return None;
    }
    DedupeIncremental(AllFound(client, n), batch.value, fold);
    var unique := DedupeSearchResults(found + batch.value, fold);
    more := Some(unique);
  }

  /** The searches done in the first k steps, when the loop gets through them. */
  function DoneAfter(agent: Agent, client: SearchClient, k: nat): Option<nat> {
    if k == 0 then Some(0) else
      var before := DoneAfter(agent, client, k - 1);
      if before.None? || !agent(k - 1).Search? then None
      else if !Asks(agent(k - 1)) then before
      else if client(before.value).None? then None
      else Some(before.value + 1)
  }

  /** Getting through k steps means that each was a search decision, that as many searches were made as
      queries were asked, so at most k, and that none of them failed. */
  lemma {:induction false} DoneAfterMeans(agent: Agent, client: SearchClient, k: nat)
    requires DoneAfter(agent, client, k).Some?
    ensures var n := DoneAfter(agent, client, k).value;
            && n == SearchesIn(agent, k) <= k
            && (forall i :: 0 <= i < k ==> agent(i).Search?)
            && (forall i :: 0 <= i < n ==> client(i).Some?)
  {
    if k > 0 {
      DoneAfterMeans(agent, client, k - 1);
    }
  }

  lemma DoneNext(agent: Agent, client: SearchClient, k: nat, n: nat)
    requires DoneAfter(agent, client, k) == Some(n) && agent(k).Search? && (Asks(agent(k)) ==> client(n).Some?)
    ensures DoneAfter(agent, client, k + 1) == Some(if Asks(agent(k)) then n + 1 else n)
  {
  }

  /** What the searches of the first steps found. */
  lemma BatchesOf(agent: Agent, client: SearchClient, steps: nat, n: nat) returns (batches: seq<seq<SearchResult>>)
    requires DoneAfter(agent, client, steps) == Some(n)
    ensures |batches| == n && (forall i: nat :: i < n ==> client(i) == Some(batches[i]))
    ensures AllFound(client, n) == Flatten(batches)
  {
    DoneAfterMeans(agent, client, steps);
    batches := FoundInBatches(client, n);
  }

  /** For every agent and every search client: within 5 steps and 5 searches, what is collected is the dedupe
      of everything that was found, and the loop ends only when the agent synthesises, its steps are used up,
      or a call fails. */
  method RunAgentSearchLoop(agent: Agent, client: SearchClient, fold: Fold)
    returns (collected: Option<seq<SearchResult>>, steps: nat, searchesDone: nat,
             ghost batches: seq<seq<SearchResult>>)
    ensures steps <= MAX_AGENT_STEPS && searchesDone <= MAX_AGENT_SEARCHES
    ensures DoneAfter(agent, client, steps) == Some(searchesDone)
    ensures |batches| == searchesDone && forall i: nat :: i < searchesDone ==> client(i) == Some(batches[i])
    ensures collected.Some? ==> collected.value == Dedupe(Flatten(batches), fold)
    ensures collected.Some? ==> steps == MAX_AGENT_STEPS || agent(steps).Synthesize?
    ensures collected.None? ==>
              steps < MAX_AGENT_STEPS && (agent(steps).LlmFails? || (Asks(agent(steps)) && client(searchesDone).None?))
  {
    var found: seq<SearchResult> := [];
    steps, searchesDone, batches := 0, 0, [];
    while steps < MAX_AGENT_STEPS
      invariant searchesDone <= steps <= MAX_AGENT_STEPS
      invariant DoneAfter(agent, client, steps) == Some(searchesDone)
      invariant found == Dedupe(AllFound(client, searchesDone), fold)
    {
      var decision := agent(steps);
      if decision.LlmFails? {
        batches := BatchesOf(agent, client, steps, searchesDone);
        return None, steps, searchesDone, batches;
      }
      if decision.Synthesize? || searchesDone >= MAX_AGENT_SEARCHES {
        break;
      }
      if decision.query != "" {
        var more := SearchOnce(client, searchesDone, found, fold);
        if more.None? {
          batches := BatchesOf(agent, client, steps, searchesDone);
          return None, steps, searchesDone, batches;
        }
        DoneNext(agent, client, steps, searchesDone);
        found := more.value;
        searchesDone := searchesDone + 1;
      }
      steps := steps + 1;
    }
    batches := BatchesOf(agent, client, steps, searchesDone);
    collected := Some(found);
  }
}
