/** Retrieval of resume evidence: each query takes its own best chunks, the results are merged by chunk id keeping
    the best score, sorted, and cut. Scores are reals; an embedder is any function from query and text to a score. */
module RagRanking {
  import opened FiniteSets
  import opened RagChunking

  datatype Scored = Scored(chunk: Chunk, score: real)

  /** cosine_similarity of the embeddings of a query and of a chunk's text. */
  type Similarity = (string, string) -> real

  // ---------------------------------------------------------------------------------------------
  // Python's stable descending sort and its slices
  // ---------------------------------------------------------------------------------------------

  /** x goes after everything that scores at least as much. */
  function InsertDesc(sorted: seq<Scored>, x: Scored): seq<Scored> {
    if sorted == [] || sorted[|sorted| - 1].score >= x.score then sorted + [x]
    else InsertDesc(sorted[..|sorted| - 1], x) + [sorted[|sorted| - 1]]
  }

  /** sorted(xs, key=score, reverse=True) */
  function SortDesc(xs: seq<Scored>): seq<Scored> {
    if xs == [] then [] else InsertDesc(SortDesc(xs[..|xs| - 1]), xs[|xs| - 1])
  }

  ghost predicate Descending(xs: seq<Scored>) {
    forall i, j :: 0 <= i < j < |xs| ==> xs[i].score >= xs[j].score
  }

  lemma {:induction false} InsertDescSorts(sorted: seq<Scored>, x: Scored)
    requires Descending(sorted)
    ensures Descending(InsertDesc(sorted, x))
    ensures multiset(InsertDesc(sorted, x)) == multiset(sorted) + multiset{x}
  {
    if sorted != [] && sorted[|sorted| - 1].score < x.score {
      var init, last := sorted[..|sorted| - 1], sorted[|sorted| - 1];
      assert sorted == init + [last];
      InsertDescSorts(init, x);
      AppendLowest(init, x, InsertDesc(init, x), last);
    }
  }

  lemma AppendLowest(init: seq<Scored>, x: Scored, r: seq<Scored>, last: Scored)
    requires Descending(r) && multiset(r) == multiset(init) + multiset{x}
    requires x.score >= last.score && forall i :: 0 <= i < |init| ==> init[i].score >= last.score
    ensures Descending(r + [last]) && multiset(r + [last]) == multiset(init + [last]) + multiset{x}
  {
    forall i | 0 <= i < |r| ensures r[i].score >= last.score {
      assert r[i] in multiset(r);
      assert r[i] == x || r[i] in multiset(init);
    }
  }

  lemma {:induction false} SortDescSorts(xs: seq<Scored>)
    ensures Descending(SortDesc(xs))
    ensures multiset(SortDesc(xs)) == multiset(xs)
  {
    if xs != [] {
      var init := xs[..|xs| - 1];
      SortDescSorts(init);
      InsertDescSorts(SortDesc(init), xs[|xs| - 1]);
      assert xs == init + [xs[|xs| - 1]];
    }
  }

  lemma SortDescMembers(xs: seq<Scored>, x: Scored)
    ensures x in SortDesc(xs) <==> x in xs
  {
    SortDescSorts(xs);
    assert x in SortDesc(xs) <==> x in multiset(SortDesc(xs));
    assert x in xs <==> x in multiset(xs);
  }

  lemma {:induction false} SortDescOfSorted(xs: seq<Scored>)
    requires Descending(xs)
    ensures SortDesc(xs) == xs
  {
    if xs != [] {
      SortDescOfSorted(xs[..|xs| - 1]);
    }
  }

  /** xs[:n] */
  function Take<T>(xs: seq<T>, n: int): (r: seq<T>)
    ensures |r| <= |xs| && r == xs[..|r|]
  {
    if n >= |xs| then xs else if n >= 0 then xs[..n] else if |xs| + n >= 0 then xs[..|xs| + n] else []
  }

  // ---------------------------------------------------------------------------------------------
  // The pipeline
  // ---------------------------------------------------------------------------------------------

  function ScoreAll(query: string, chunks: seq<Chunk>, sim: Similarity): seq<Scored> {
    seq(|chunks|, i requires 0 <= i < |chunks| => Scored(chunks[i], sim(query, chunks[i].text)))
  }

  function RetrieveChunks(query: string, chunks: seq<Chunk>, sim: Similarity, topK: int): seq<Scored> {
    if chunks == [] || topK <= 0 then [] else
      var scored := SortDesc(ScoreAll(query, chunks, sim));
      scored[..if topK <= |scored| then topK else |scored|]
  }

  function Collect(queries: seq<string>, chunks: seq<Chunk>, sim: Similarity, perQueryTopK: int): seq<Scored> {
    if queries == [] then [] else
      Collect(queries[..|queries| - 1], chunks, sim, perQueryTopK)
      + RetrieveChunks(queries[|queries| - 1], chunks, sim, perQueryTopK)
  }

  /** The dictionary best of _merge_scored_chunks: insertion order of the keys, and the entries. */
  datatype Best = Best(order: seq<string>, entries: map<string, Scored>)

  function AddBest(best: Best, item: Scored): Best {
    var id := item.chunk.id;
    if id !in best.entries then Best(best.order + [id], best.entries[id := item])
    else if item.score > best.entries[id].score then best.(entries := best.entries[id := item])
    else best
  }

  function BestOf(items: seq<Scored>): Best {
    if items == [] then Best([], map[]) else AddBest(BestOf(items[..|items| - 1]), items[|items| - 1])
  }

  ghost predicate BestValid(best: Best) {
    && (forall i :: 0 <= i < |best.order| ==> best.order[i] in best.entries)
    && (forall id :: id in best.entries ==> id in best.order && best.entries[id].chunk.id == id)
    && (forall i, j :: 0 <= i < j < |best.order| ==> best.order[i] != best.order[j])
  }

  lemma AddBestValid(best: Best, x: Scored)
    requires BestValid(best)
    ensures BestValid(AddBest(best, x))
  {
    var after := AddBest(best, x);
    if x.chunk.id !in best.entries {
      assert x.chunk.id !in best.order;
      assert after.order[|best.order|] == x.chunk.id;
    }
  }

  /** Each entry is one of the items, and no item beats the entry with its id. */
  ghost predicate BestCovers(best: Best, items: seq<Scored>) {
    && (forall id :: id in best.entries ==> best.entries[id] in items)
    && (forall item :: item in items ==>
          item.chunk.id in best.entries && best.entries[item.chunk.id].score >= item.score)
  }

  lemma AddBestCovers(best: Best, items: seq<Scored>, x: Scored)
    requires BestCovers(best, items)
    ensures BestCovers(AddBest(best, x), items + [x])
  {
    var after, all := AddBest(best, x), items + [x];
    assert forall item :: item in all <==> item in items || item == x;
    forall id | id in after.entries ensures after.entries[id] in all {
      assert after.entries[id] == x || id in best.entries;
    }
    forall item | item in all
      ensures item.chunk.id in after.entries && after.entries[item.chunk.id].score >= item.score
    {
      assert item == x || item in items;
    }
  }

  lemma {:induction false} BestOfValid(items: seq<Scored>)
    ensures BestValid(BestOf(items)) && BestCovers(BestOf(items), items)
  {
    if items != [] {
      var init, x := items[..|items| - 1], items[|items| - 1];
      BestOfValid(init);
      assert items == init + [x];
      AddBestValid(BestOf(init), x);
      AddBestCovers(BestOf(init), init, x);
    }
  }

  /** best.values(), in insertion order */
  function Values(best: Best): seq<Scored>
    requires forall i :: 0 <= i < |best.order| ==> best.order[i] in best.entries
  {
    seq(|best.order|, i requires 0 <= i < |best.order| => best.entries[best.order[i]])
  }

  function MergeScored(items: seq<Scored>): seq<Scored> {
    BestOfValid(items);
    SortDesc(Values(BestOf(items)))
  }

  function RetrieveInMemory(queries: seq<string>, chunks: seq<Chunk>, sim: Similarity, perQueryTopK: int,
                            totalTopK: int): seq<Scored> {
    if chunks == [] then [] else Take(MergeScored(Collect(queries, chunks, sim, perQueryTopK)), totalTopK)
  }

  method MergeScoredChunks(items: seq<Scored>) returns (merged: seq<Scored>)
    ensures merged == MergeScored(items)
  {
    var best: map<string, Scored> := map[];
    var order: seq<string> := [];
    for i := 0 to |items|
      invariant BestOf(items[..i]) == Best(order, best)
    {
      assert items[..i + 1][..i] == items[..i];
      var item := items[i];
      var known := item.chunk.id in best;
      if !known {
        order := order + [item.chunk.id];
      }
      if !known || item.score > best[item.chunk.id].score {
        best := best[item.chunk.id := item];
      }
    }
    assert items[..|items|] == items;
    BestOfValid(items);
    merged := SortDesc(Values(Best(order, best)));
  }

  method Retrieve(queries: seq<string>, chunks: seq<Chunk>, sim: Similarity, perQueryTopK: int, totalTopK: int)
    returns (scored: seq<Scored>)
    ensures scored == RetrieveInMemory(queries, chunks, sim, perQueryTopK, totalTopK)
  {
    if chunks == [] {
      return [];
    }
    var collected: seq<Scored> := [];
    for i := 0 to |queries|
      invariant collected == Collect(queries[..i], chunks, sim, perQueryTopK)
    {
      assert queries[..i + 1][..i] == queries[..i];
      collected := collected + RetrieveChunks(queries[i], chunks, sim, perQueryTopK);
    }
    assert queries[..|queries|] == queries;
    var merged := MergeScoredChunks(collected);
    scored := Take(merged, totalTopK);
  }

  // ---------------------------------------------------------------------------------------------
  // Distinct ids
  // ---------------------------------------------------------------------------------------------

  ghost predicate DistinctIds(xs: seq<Scored>) {
    forall i, j :: 0 <= i < j < |xs| ==> xs[i].chunk.id != xs[j].chunk.id
  }

  lemma TwiceMeansMultiplicity(xs: seq<Scored>, i: nat, j: nat)
    requires i < j < |xs| && xs[i] == xs[j]
    ensures multiset(xs)[xs[i]] >= 2
  {
    assert xs == xs[..j] + xs[j..];
    assert xs[..j][i] == xs[i] && xs[j..][0] == xs[i];
  }

  lemma MultiplicityMeansTwice(xs: seq<Scored>, x: Scored) returns (i: nat, j: nat)
    requires multiset(xs)[x] >= 2
    ensures i < j < |xs| && xs[i] == xs[j] == x
  {
    assert x in xs;
    i :| 0 <= i < |xs| && xs[i] == x && forall k :: 0 <= k < i ==> xs[k] != x by { FirstIndex(xs, x); }
    var rest := xs[i + 1..];
    assert xs == xs[..i] + [x] + rest;
    assert x !in xs[..i];
    assert multiset(xs) == multiset(xs[..i]) + multiset{x} + multiset(rest);
    assert x in rest;
    var k :| 0 <= k < |rest| && rest[k] == x;
    j := i + 1 + k;
  }

  lemma {:induction false} FirstIndex(xs: seq<Scored>, x: Scored)
    requires x in xs
    ensures exists i :: 0 <= i < |xs| && xs[i] == x && forall k :: 0 <= k < i ==> xs[k] != x
  {
    var n := |xs| - 1;
    if x in xs[..n] {
      FirstIndex(xs[..n], x);
      var i :| 0 <= i < n && xs[..n][i] == x && forall k :: 0 <= k < i ==> xs[..n][k] != x;
      assert xs[i] == x && forall k :: 0 <= k < i ==> xs[k] != x by {
        forall k | 0 <= k < i ensures xs[k] != x { assert xs[..n][k] == xs[k]; }
      }
    } else {
      assert xs[n] == x by { assert xs == xs[..n] + [xs[n]]; }
      forall k | 0 <= k < n ensures xs[k] != x { assert xs[..n][k] == xs[k]; }
    }
  }

  lemma PermutationKeepsDistinct(xs: seq<Scored>, ys: seq<Scored>)
    requires multiset(xs) == multiset(ys) && DistinctIds(xs)
    ensures DistinctIds(ys)
  {
    forall i, j | 0 <= i < j < |ys| ensures ys[i].chunk.id != ys[j].chunk.id {
      assert ys[i] in multiset(ys) && ys[j] in multiset(ys);
      assert ys[i] in xs && ys[j] in xs;
      if ys[i] == ys[j] {
        TwiceMeansMultiplicity(ys, i, j);
        var a, b := MultiplicityMeansTwice(xs, ys[i]);
      }
    }
  }

  // ---------------------------------------------------------------------------------------------
  // Counting ids by score
  // ---------------------------------------------------------------------------------------------

  ghost function IdsOf(xs: seq<Scored>): set<string> {
    set i | 0 <= i < |xs| :: xs[i].chunk.id
  }

  ghost function IdsAtLeast(xs: seq<Scored>, t: real): set<string> {
    set i | 0 <= i < |xs| && xs[i].score >= t :: xs[i].chunk.id
  }

  lemma {:induction false} IdsOfSize(xs: seq<Scored>)
    ensures |IdsOf(xs)| <= |xs|
    ensures DistinctIds(xs) ==> |IdsOf(xs)| == |xs|
  {
    if xs == [] {
      assert IdsOf(xs) == {};
    } else {
      var init, last := xs[..|xs| - 1], xs[|xs| - 1];
      IdsOfSize(init);
      assert IdsOf(xs) == IdsOf(init) + {last.chunk.id} by {
        forall id | id in IdsOf(init) ensures id in IdsOf(xs) {
          var i :| 0 <= i < |init| && init[i].chunk.id == id;
          assert xs[i].chunk.id == id;
        }
      }
    }
  }

  /** In a descending list of distinct ids, more than i ids score at least t exactly if entry i does. */
  lemma RankByCount(xs: seq<Scored>, i: nat, t: real)
    requires Descending(xs) && DistinctIds(xs)
    ensures |IdsAtLeast(xs, t)| > i <==> i < |xs| && xs[i].score >= t
  {
    if i < |xs| && xs[i].score >= t {
      var top := xs[..i + 1];
      IdsOfSize(top);
      assert IdsOf(top) <= IdsAtLeast(xs, t) by {
        forall id | id in IdsOf(top) ensures id in IdsAtLeast(xs, t) {
          var j :| 0 <= j < |top| && top[j].chunk.id == id;
          assert xs[j].chunk.id == id && xs[j].score >= t;
        }
      }
      SubsetSize(IdsOf(top), IdsAtLeast(xs, t));
    } else {
      var top := if i < |xs| then xs[..i] else xs;
      IdsOfSize(top);
      assert IdsAtLeast(xs, t) <= IdsOf(top) by {
        forall id | id in IdsAtLeast(xs, t) ensures id in IdsOf(top) {
          var j :| 0 <= j < |xs| && xs[j].score >= t && xs[j].chunk.id == id;
          assert top[j].chunk.id == id;
        }
      }
      SubsetSize(IdsAtLeast(xs, t), IdsOf(top));
    }
  }

  // ---------------------------------------------------------------------------------------------
  // The simple ranking
  // ---------------------------------------------------------------------------------------------

  /** A chunk's best score over all queries. */
  function MaxScore(queries: seq<string>, chunk: Chunk, sim: Similarity): (m: real)
    requires queries != []
    ensures forall q :: q in queries ==> sim(q, chunk.text) <= m
    ensures exists q :: q in queries && sim(q, chunk.text) == m
  {
    var last := sim(queries[|queries| - 1], chunk.text);
    if |queries| == 1 then
      assert queries[0] in queries;
      last
    else
      var init := queries[..|queries| - 1];
      assert queries == init + [queries[|queries| - 1]];
      assert queries[|queries| - 1] in queries;
      var m := MaxScore(init, chunk, sim);
      if m >= last then m else last
  }

  /** Every chunk with its best score over all queries, best first. */
  function GlobalRanking(queries: seq<string>, chunks: seq<Chunk>, sim: Similarity): seq<Scored>
    requires queries != []
  {
    SortDesc(seq(|chunks|, i requires 0 <= i < |chunks| => Scored(chunks[i], MaxScore(queries, chunks[i], sim))))
  }

  lemma GlobalRankingFacts(queries: seq<string>, chunks: seq<Chunk>, sim: Similarity)
    requires queries != [] && DistinctChunks(chunks)
    ensures var g := GlobalRanking(queries, chunks, sim);
            && |g| == |chunks| && Descending(g) && DistinctIds(g)
            && (forall x :: x in g <==> x.chunk in chunks && x.score == MaxScore(queries, x.chunk, sim))
  {
    var all := seq(|chunks|, i requires 0 <= i < |chunks| => Scored(chunks[i], MaxScore(queries, chunks[i], sim)));
    var g := GlobalRanking(queries, chunks, sim);
    SortDescSorts(all);
    PermutationKeepsDistinct(all, g);
    assert |g| == |multiset(g)| == |multiset(all)| == |all|;
    forall x ensures x in g <==> x.chunk in chunks && x.score == MaxScore(queries, x.chunk, sim) {
      assert x in g <==> x in multiset(g) <==> x in multiset(all) <==> x in all;
      if x.chunk in chunks && x.score == MaxScore(queries, x.chunk, sim) {
        var i :| 0 <= i < |chunks| && chunks[i] == x.chunk;
        assert all[i] == x;
      }
    }
  }

  // ---------------------------------------------------------------------------------------------
  // What one query contributes
  // ---------------------------------------------------------------------------------------------

  /** The chunks a query returns are distinct and honestly scored ... */
  lemma RetrieveChunksFacts(query: string, chunks: seq<Chunk>, sim: Similarity, topK: int)
    requires DistinctChunks(chunks)
    ensures var top := RetrieveChunks(query, chunks, sim, topK);
            && DistinctIds(top)
            && (forall x :: x in top ==> x.chunk in chunks && x.score == sim(query, x.chunk.text))
  {
    var all := ScoreAll(query, chunks, sim);
    var sorted := SortDesc(all);
    var top := RetrieveChunks(query, chunks, sim, topK);
    SortDescSorts(all);
    PermutationKeepsDistinct(all, sorted);
    forall x | x in top ensures x.chunk in chunks && x.score == sim(query, x.chunk.text) {
      assert x in sorted;
      SortDescMembers(all, x);
    }
  }

  /** ... and a chunk it leaves out is beaten or tied by topK others. */
  lemma LeftOutIsOutranked(query: string, chunks: seq<Chunk>, sim: Similarity, topK: int, c: Chunk)
    requires c in chunks && Scored(c, sim(query, c.text)) !in RetrieveChunks(query, chunks, sim, topK)
    ensures var top := RetrieveChunks(query, chunks, sim, topK);
            |top| >= topK && forall i :: 0 <= i < |top| ==> top[i].score >= sim(query, c.text)
  {
    var all := ScoreAll(query, chunks, sim);
    var sorted := SortDesc(all);
    var s := Scored(c, sim(query, c.text));
    var i :| 0 <= i < |chunks| && chunks[i] == c;
    assert all[i] == s;
    SortDescSorts(all);
    SortDescMembers(all, s);
    var p :| 0 <= p < |sorted| && sorted[p] == s;
  }

  lemma {:induction false} CollectFacts(queries: seq<string>, chunks: seq<Chunk>, sim: Similarity, k: int)
    requires DistinctChunks(chunks)
    ensures forall x :: x in Collect(queries, chunks, sim, k) ==>
              x.chunk in chunks && exists q :: q in queries && x.score == sim(q, x.chunk.text)
    ensures forall q, x :: q in queries && x in RetrieveChunks(q, chunks, sim, k) ==>
              x in Collect(queries, chunks, sim, k)
  {
    if queries != [] {
      var init, last := queries[..|queries| - 1], queries[|queries| - 1];
      assert queries == init + [last];
      CollectFacts(init, chunks, sim, k);
      RetrieveChunksFacts(last, chunks, sim, k);
    }
  }

  /** What the merged list is, before it is cut. */
  ghost predicate IsMerge(merged: seq<Scored>, queries: seq<string>, chunks: seq<Chunk>, sim: Similarity, k: int) {
    && Descending(merged) && DistinctIds(merged)
    && (forall x :: x in merged ==> x.chunk in chunks && exists q :: q in queries && x.score == sim(q, x.chunk.text))
    && (forall q, x :: q in queries && x in RetrieveChunks(q, chunks, sim, k) ==> Covers(merged, x))
  }

  /** The list has the chunk of x with at least x's score. */
  ghost predicate Covers(merged: seq<Scored>, x: Scored) {
    exists y :: y in merged && y.chunk.id == x.chunk.id && y.score >= x.score
  }

  lemma ValuesFacts(items: seq<Scored>)
    requires BestValid(BestOf(items))
    ensures DistinctIds(Values(BestOf(items)))
    ensures forall x :: x in Values(BestOf(items)) <==>
              x.chunk.id in BestOf(items).entries && BestOf(items).entries[x.chunk.id] == x
  {
    var best := BestOf(items);
    var values := Values(best);
    forall x: Scored | x.chunk.id in best.entries && best.entries[x.chunk.id] == x ensures x in values {
      var i :| 0 <= i < |best.order| && best.order[i] == x.chunk.id;
      assert values[i] == x;
    }
  }

  lemma MergeScoredSorted(items: seq<Scored>)
    ensures Descending(MergeScored(items)) && DistinctIds(MergeScored(items))
    ensures forall x :: x in MergeScored(items) ==> x in items
  {
    BestOfValid(items);
    ValuesFacts(items);
    var values := Values(BestOf(items));
    SortDescSorts(values);
    PermutationKeepsDistinct(values, MergeScored(items));
    forall x | x in MergeScored(items) ensures x in items {
      SortDescMembers(values, x);
    }
  }

  lemma MergeScoredCovers(items: seq<Scored>, x: Scored)
    requires x in items
    ensures Covers(MergeScored(items), x)
  {
    BestOfValid(items);
    ValuesFacts(items);
    var y := BestOf(items).entries[x.chunk.id];
    SortDescMembers(Values(BestOf(items)), y);
  }

  lemma MergedIsMerge(queries: seq<string>, chunks: seq<Chunk>, sim: Similarity, k: int)
    requires DistinctChunks(chunks)
    ensures IsMerge(MergeScored(Collect(queries, chunks, sim, k)), queries, chunks, sim, k)
  {
    var items := Collect(queries, chunks, sim, k);
    CollectFacts(queries, chunks, sim, k);
    MergeScoredSorted(items);
    forall q, x | q in queries && x in RetrieveChunks(q, chunks, sim, k)
      ensures Covers(MergeScored(items), x)
    {
      MergeScoredCovers(items, x);
    }
  }

  // ---------------------------------------------------------------------------------------------
  // Exchange: a chunk that lost its best query is outranked by k others
  // ---------------------------------------------------------------------------------------------

  lemma OutrankedByK(merged: seq<Scored>, queries: seq<string>, chunks: seq<Chunk>, sim: Similarity, k: int, q: string,
                     c: Chunk)
    requires DistinctChunks(chunks) && IsMerge(merged, queries, chunks, sim, k) && q in queries && c in chunks
    requires c.id !in IdsAtLeast(merged, sim(q, c.text))
    ensures |IdsAtLeast(merged, sim(q, c.text))| >= k
  {
    var t := sim(q, c.text);
    var top := RetrieveChunks(q, chunks, sim, k);
    RetrieveChunksFacts(q, chunks, sim, k);
    forall i | 0 <= i < |top| ensures top[i].chunk.id in IdsAtLeast(merged, top[i].score) {
      MergedHas(merged, queries, chunks, sim, k, q, top[i]);
    }
    assert Scored(c, t) !in top;
    LeftOutIsOutranked(q, chunks, sim, k, c);
    IdsOfSize(top);
    assert IdsOf(top) <= IdsAtLeast(merged, t) by {
      forall i | 0 <= i < |top| ensures top[i].chunk.id in IdsAtLeast(merged, t) {
        MonotoneIds(merged, t, top[i].score);
      }
    }
    SubsetSize(IdsOf(top), IdsAtLeast(merged, t));
  }

  lemma MergedHas(merged: seq<Scored>, queries: seq<string>, chunks: seq<Chunk>, sim: Similarity, k: int, q: string,
                  x: Scored)
    requires IsMerge(merged, queries, chunks, sim, k) && q in queries && x in RetrieveChunks(q, chunks, sim, k)
    ensures x.chunk.id in IdsAtLeast(merged, x.score)
  {
    assert Covers(merged, x);
    var y :| y in merged && y.chunk.id == x.chunk.id && y.score >= x.score;
    var j :| 0 <= j < |merged| && merged[j] == y;
    assert merged[j].chunk.id in IdsAtLeast(merged, x.score);
  }

  lemma BelowThreshold(merged: seq<Scored>, i: nat, t: real)
    requires DistinctIds(merged) && i < |merged| && merged[i].score < t
    ensures merged[i].chunk.id !in IdsAtLeast(merged, t)
  {
    forall j | 0 <= j < |merged| && merged[j].score >= t ensures merged[j].chunk.id != merged[i].chunk.id {
      assert i < j || j < i;
    }
  }

  /** At every threshold the merged list has as many ids as the global ranking, up to k. */
  lemma EnoughAtThreshold(merged: seq<Scored>, queries: seq<string>, chunks: seq<Chunk>, sim: Similarity, k: int,
                          t: real)
    requires DistinctChunks(chunks) && queries != [] && IsMerge(merged, queries, chunks, sim, k)
    ensures var all := IdsAtLeast(GlobalRanking(queries, chunks, sim), t);
            && IdsAtLeast(merged, t) <= all
            && (|IdsAtLeast(merged, t)| >= k || IdsAtLeast(merged, t) == all)
  {
    var g := GlobalRanking(queries, chunks, sim);
    var all, got := IdsAtLeast(g, t), IdsAtLeast(merged, t);
    GlobalRankingFacts(queries, chunks, sim);
    forall id | id in got ensures id in all {
      var j :| 0 <= j < |merged| && merged[j].score >= t && merged[j].chunk.id == id;
      var c := merged[j].chunk;
      assert merged[j] in merged;
      var x := Scored(c, MaxScore(queries, c, sim));
      assert x in g;
      var i :| 0 <= i < |g| && g[i] == x;
      assert g[i].chunk.id in all;
    }
    if got != all {
      var id :| id in all && id !in got;
      var i :| 0 <= i < |g| && g[i].score >= t && g[i].chunk.id == id;
      assert g[i] in g;
      var c := g[i].chunk;
      var q :| q in queries && sim(q, c.text) == MaxScore(queries, c, sim);
      var t' := sim(q, c.text);
      MonotoneIds(merged, t, t');
      OutrankedByK(merged, queries, chunks, sim, k, q, c);
      SubsetSize(IdsAtLeast(merged, t'), got);
    }
  }

  lemma MonotoneIds(xs: seq<Scored>, t: real, t': real)
    requires t <= t'
    ensures IdsAtLeast(xs, t') <= IdsAtLeast(xs, t)
  {
  }

  /** Position i of the merged list, for every i below k, carries the i-th largest best score, and it is the
      true best score of the chunk that stands there. */
  lemma MergedPrefixExact(merged: seq<Scored>, queries: seq<string>, chunks: seq<Chunk>, sim: Similarity, k: int,
                          i: nat)
    requires DistinctChunks(chunks) && queries != [] && IsMerge(merged, queries, chunks, sim, k)
    requires i < k && i < |chunks|
    ensures |GlobalRanking(queries, chunks, sim)| == |chunks| && i < |merged|
    ensures merged[i].score == GlobalRanking(queries, chunks, sim)[i].score
    ensures merged[i].chunk in chunks && merged[i].score == MaxScore(queries, merged[i].chunk, sim)
  {
    var g := GlobalRanking(queries, chunks, sim);
    GlobalRankingFacts(queries, chunks, sim);
    var t := g[i].score;
    RankByCount(g, i, t);
    EnoughAtThreshold(merged, queries, chunks, sim, k, t);
    RankByCount(merged, i, t);
    var u := merged[i].score;
    RankByCount(merged, i, u);
    EnoughAtThreshold(merged, queries, chunks, sim, k, u);
    SubsetSize(IdsAtLeast(merged, u), IdsAtLeast(g, u));
    RankByCount(g, i, u);

    var c := merged[i].chunk;
    assert merged[i] in merged;
    var q :| q in queries && sim(q, c.text) == MaxScore(queries, c, sim);
    var m := sim(q, c.text);
    if u < m {
      BelowThreshold(merged, i, m);
      OutrankedByK(merged, queries, chunks, sim, k, q, c);
      RankByCount(merged, i, m);
    }
  }

  // ---------------------------------------------------------------------------------------------
  // Main results
  // ---------------------------------------------------------------------------------------------

  /** Exact top-k: the first min(perQueryTopK, totalTopK) results carry exactly the largest best scores over all
      queries, in descending order, and each its chunk's true best. */
  lemma TopKExact(queries: seq<string>, chunks: seq<Chunk>, sim: Similarity, perQueryTopK: int, totalTopK: int, i: nat)
    requires DistinctChunks(chunks) && queries != []
    requires i < perQueryTopK && i < totalTopK && i < |chunks|
    ensures var r := RetrieveInMemory(queries, chunks, sim, perQueryTopK, totalTopK);
            var g := GlobalRanking(queries, chunks, sim);
            && |g| == |chunks| && i < |r|
            && r[i].score == g[i].score
            && r[i].chunk in chunks && r[i].score == MaxScore(queries, r[i].chunk, sim)
  {
    var merged := MergeScored(Collect(queries, chunks, sim, perQueryTopK));
    MergedIsMerge(queries, chunks, sim, perQueryTopK);
    MergedPrefixExact(merged, queries, chunks, sim, perQueryTopK, i);
  }

  /** The whole result is best first, names no chunk twice, and never claims more than a chunk's best score. */
  lemma ResultIsHonest(queries: seq<string>, chunks: seq<Chunk>, sim: Similarity, perQueryTopK: int, totalTopK: int)
    requires DistinctChunks(chunks) && queries != []
    ensures var r := RetrieveInMemory(queries, chunks, sim, perQueryTopK, totalTopK);
            && Descending(r) && DistinctIds(r)
            && forall x :: x in r ==> x.chunk in chunks && x.score <= MaxScore(queries, x.chunk, sim)
  {
    MergedIsMerge(queries, chunks, sim, perQueryTopK);
    var merged := MergeScored(Collect(queries, chunks, sim, perQueryTopK));
    MergeIsHonest(merged, queries, chunks, sim, perQueryTopK);
    PrefixFacts(merged, |Take(merged, totalTopK)|);
  }

  lemma MergeIsHonest(merged: seq<Scored>, queries: seq<string>, chunks: seq<Chunk>, sim: Similarity, k: int)
    requires queries != [] && IsMerge(merged, queries, chunks, sim, k)
    ensures forall x :: x in merged ==> x.chunk in chunks && x.score <= MaxScore(queries, x.chunk, sim)
  {
    forall x | x in merged ensures x.score <= MaxScore(queries, x.chunk, sim) {
      var q :| q in queries && x.score == sim(q, x.chunk.text);
    }
  }

  lemma PrefixFacts(xs: seq<Scored>, n: nat)
    requires n <= |xs| && Descending(xs) && DistinctIds(xs)
    ensures Descending(xs[..n]) && DistinctIds(xs[..n]) && forall x :: x in xs[..n] ==> x in xs
  {
  }

  function ScoresOf(xs: seq<Scored>): seq<real> {
    seq(|xs|, i requires 0 <= i < |xs| => xs[i].score)
  }

  /** When each query may return as many chunks as the caller asks for in all, or as there are, the scores are the
      global ranking's. */
  lemma WideQueriesMatchGlobalRanking(queries: seq<string>, chunks: seq<Chunk>, sim: Similarity, perQueryTopK: int,
                                      totalTopK: nat)
    requires DistinctChunks(chunks) && queries != [] && (perQueryTopK >= totalTopK || perQueryTopK >= |chunks|)
    ensures ScoresOf(RetrieveInMemory(queries, chunks, sim, perQueryTopK, totalTopK))
         == ScoresOf(Take(GlobalRanking(queries, chunks, sim), totalTopK))
  {
    var r := RetrieveInMemory(queries, chunks, sim, perQueryTopK, totalTopK);
    var g := GlobalRanking(queries, chunks, sim);
    assert |g| == |chunks| by { GlobalRankingFacts(queries, chunks, sim); }
    assert |r| <= |chunks| by {
      ResultIsHonest(queries, chunks, sim, perQueryTopK, totalTopK);
      NoMoreThanChunks(r, chunks);
    }
    forall i: nat | i < totalTopK && i < |chunks| ensures i < |r| && r[i].score == g[i].score {
      TopKExact(queries, chunks, sim, perQueryTopK, totalTopK, i);
    }
    var n := if totalTopK < |chunks| then totalTopK else |chunks|;
    if n > 0 {
      TopKExact(queries, chunks, sim, perQueryTopK, totalTopK, n - 1);
    }
    assert |r| == n == |Take(g, totalTopK)|;
    assert ScoresOf(r) == ScoresOf(Take(g, totalTopK));
  }

  /** Whether the scores of the result are those at the top of the global ranking. */
  predicate MatchesGlobalRanking(queries: seq<string>, chunks: seq<Chunk>, sim: Similarity, perQueryTopK: int,
                                 totalTopK: nat)
    requires queries != []
  {
    ScoresOf(RetrieveInMemory(queries, chunks, sim, perQueryTopK, totalTopK))
    == ScoresOf(Take(GlobalRanking(queries, chunks, sim), totalTopK))
  }

  /** Exactly when the result can be relied on beyond its first perQueryTopK places: the scores are the global
      ranking's for every embedder if and only if a query may return as many chunks as are asked for, or as there
      are, or the ranking to be shown is empty. */
  lemma RanksForEveryEmbedderIff(queries: seq<string>, chunks: seq<Chunk>, perQueryTopK: int, totalTopK: nat)
    requires DistinctChunks(chunks) && queries != []
    ensures (forall sim :: MatchesGlobalRanking(queries, chunks, sim, perQueryTopK, totalTopK)) <==>
              perQueryTopK >= totalTopK || perQueryTopK >= |chunks| || totalTopK == 0 || chunks == []
  {
    if perQueryTopK >= totalTopK || perQueryTopK >= |chunks| || totalTopK == 0 || chunks == [] {
      forall sim ensures MatchesGlobalRanking(queries, chunks, sim, perQueryTopK, totalTopK) {
        if perQueryTopK >= totalTopK || perQueryTopK >= |chunks| {
          WideQueriesMatchGlobalRanking(queries, chunks, sim, perQueryTopK, totalTopK);
        } else if chunks == [] {
          GlobalRankingFacts(queries, chunks, sim);
        }
      }
    } else {
      var same: Similarity := (query, text) => 0.0;
      SameScoresReturnFew(queries, chunks, same, perQueryTopK, totalTopK);
      GlobalRankingFacts(queries, chunks, same);
      var found := ScoresOf(RetrieveInMemory(queries, chunks, same, perQueryTopK, totalTopK));
      var ranked := ScoresOf(Take(GlobalRanking(queries, chunks, same), totalTopK));
      assert |found| < |ranked|;
      assert !MatchesGlobalRanking(queries, chunks, same, perQueryTopK, totalTopK);
    }
  }

  /** An embedder that tells nothing apart makes every query return the same first chunks. */
  lemma SameScoresReturnFew(queries: seq<string>, chunks: seq<Chunk>, sim: Similarity, perQueryTopK: int,
                            totalTopK: int)
    requires DistinctChunks(chunks) && forall q, text :: sim(q, text) == 0.0
    ensures |RetrieveInMemory(queries, chunks, sim, perQueryTopK, totalTopK)|
         <= if perQueryTopK <= 0 then 0 else perQueryTopK
  {
    var items := Collect(queries, chunks, sim, perQueryTopK);
    var top := RetrieveChunks("", chunks, sim, perQueryTopK);
    CollectOfSame(queries, chunks, sim, perQueryTopK);
    MergeScoredSorted(items);
    NoMoreIds(MergeScored(items), top);
  }

  lemma {:induction false} CollectOfSame(queries: seq<string>, chunks: seq<Chunk>, sim: Similarity, k: int)
    requires forall q, text :: sim(q, text) == 0.0
    ensures forall x :: x in Collect(queries, chunks, sim, k) ==> x in RetrieveChunks("", chunks, sim, k)
  {
    if queries != [] {
      CollectOfSame(queries[..|queries| - 1], chunks, sim, k);
      var last := queries[|queries| - 1];
      assert ScoreAll(last, chunks, sim) == ScoreAll("", chunks, sim) by {
        forall i | 0 <= i < |chunks| ensures sim(last, chunks[i].text) == sim("", chunks[i].text) {}
      }
    }
  }

  lemma NoMoreIds(xs: seq<Scored>, ys: seq<Scored>)
    requires DistinctIds(xs) && forall x :: x in xs ==> x in ys
    ensures |xs| <= |ys|
  {
    IdsOfSize(xs);
    IdsOfSize(ys);
    forall id | id in IdsOf(xs) ensures id in IdsOf(ys) {
      var i :| 0 <= i < |xs| && xs[i].chunk.id == id;
      assert xs[i] in ys;
    }
    SubsetSize(IdsOf(xs), IdsOf(ys));
  }

  /** How many chunks each query may return: fewer when there are several queries and they count separately. */
  function PerQueryTopK(perRequirement: bool, requirementTopK: int, queries: seq<string>, topK: int): int {
    if perRequirement && |queries| > 1 then requirementTopK else topK
  }

  function RetrieveForMatch(resume: Resume, queries: seq<string>, sim: Similarity, perRequirement: bool,
                            requirementTopK: int, topK: int): seq<Scored> {
    RetrieveInMemory(queries, ToChunks(StructuredChunks(resume)), sim,
                     PerQueryTopK(perRequirement, requirementTopK, queries, topK), topK)
  }

  /** For every structured resume, with nothing asked of its ids: retrieval agrees with the global ranking on
      its first min(per query, total) places, and throughout when one query or the setting makes them equal. */
  lemma MatchRanksExactly(resume: Resume, queries: seq<string>, sim: Similarity, perRequirement: bool,
                          requirementTopK: int, topK: nat, i: nat)
    requires queries != []
    ensures var chunks := ToChunks(StructuredChunks(resume));
            var r := RetrieveForMatch(resume, queries, sim, perRequirement, requirementTopK, topK);
            var g := GlobalRanking(queries, chunks, sim);
            && (i < topK && i < |chunks| && i < PerQueryTopK(perRequirement, requirementTopK, queries, topK) ==>
                  i < |r| && i < |g| && r[i].score == g[i].score && r[i].score == MaxScore(queries, r[i].chunk, sim))
            && (!perRequirement || |queries| == 1 || requirementTopK >= topK || requirementTopK >= |chunks| ==>
                  ScoresOf(r) == ScoresOf(Take(g, topK)))
  {
    StructuredIdsDistinct(resume);
    var chunks := ToChunks(StructuredChunks(resume));
    var k := PerQueryTopK(perRequirement, requirementTopK, queries, topK);
    if i < topK && i < |chunks| && i < k {
      TopKExact(queries, chunks, sim, k, topK, i);
    }
    if k >= topK || k >= |chunks| {
      WideQueriesMatchGlobalRanking(queries, chunks, sim, k, topK);
    }
  }

  lemma NoMoreThanChunks(r: seq<Scored>, chunks: seq<Chunk>)
    requires DistinctIds(r) && forall x :: x in r ==> x.chunk in chunks
    ensures |r| <= |chunks|
  {
    var all := seq(|chunks|, i requires 0 <= i < |chunks| => Scored(chunks[i], 0.0));
    IdsOfSize(r);
    IdsOfSize(all);
    assert IdsOf(r) <= IdsOf(all) by {
      forall id | id in IdsOf(r) ensures id in IdsOf(all) {
        var i :| 0 <= i < |r| && r[i].chunk.id == id;
        assert r[i] in r;
        var j :| 0 <= j < |chunks| && chunks[j] == r[i].chunk;
        assert all[j].chunk.id == id;
      }
    }
    SubsetSize(IdsOf(r), IdsOf(all));
  }

  lemma {:induction false} DistinctItemsAreTheirBest(items: seq<Scored>)
    requires DistinctIds(items)
    ensures var best := BestOf(items);
            && |best.order| == |items|
            && (forall i :: 0 <= i < |items| ==> best.order[i] == items[i].chunk.id)
            && (forall i :: 0 <= i < |items| ==>
                  items[i].chunk.id in best.entries && best.entries[items[i].chunk.id] == items[i])
  {
    if items != [] {
      var init, x := items[..|items| - 1], items[|items| - 1];
      DistinctItemsAreTheirBest(init);
      NewKey(init, x) by {
        forall i | 0 <= i < |init| ensures init[i].chunk.id != x.chunk.id {
          assert init[i] == items[i];
        }
      }
    }
  }

  lemma NewKey(init: seq<Scored>, x: Scored)
    requires forall i :: 0 <= i < |init| ==> init[i].chunk.id != x.chunk.id
    ensures x.chunk.id !in BestOf(init).entries
  {
    BestOfValid(init);
  }

  lemma MergeOfSortedDistinct(items: seq<Scored>)
    requires DistinctIds(items) && Descending(items)
    ensures MergeScored(items) == items
  {
    BestOfValid(items);
    DistinctItemsAreTheirBest(items);
    assert Values(BestOf(items)) == items;
    SortDescOfSorted(items);
  }

  lemma CollectOne(query: string, chunks: seq<Chunk>, sim: Similarity, k: int)
    ensures Collect([query], chunks, sim, k) == RetrieveChunks(query, chunks, sim, k)
  {
    assert [query][..0] == [];
  }

  lemma RankingOfOne(query: string, chunks: seq<Chunk>, sim: Similarity)
    ensures GlobalRanking([query], chunks, sim) == SortDesc(ScoreAll(query, chunks, sim))
  {
    assert seq(|chunks|, i requires 0 <= i < |chunks| => Scored(chunks[i], MaxScore([query], chunks[i], sim)))
        == ScoreAll(query, chunks, sim);
  }

  /** With one query the result is the global ranking itself, chunk by chunk. */
  lemma SingleQueryIsGlobalRanking(query: string, chunks: seq<Chunk>, sim: Similarity, perQueryTopK: int,
                                   totalTopK: nat)
    requires DistinctChunks(chunks) && perQueryTopK >= totalTopK
    ensures RetrieveInMemory([query], chunks, sim, perQueryTopK, totalTopK)
         == Take(GlobalRanking([query], chunks, sim), totalTopK)
  {
    CollectOne(query, chunks, sim, perQueryTopK);
    RankingOfOne(query, chunks, sim);
    OneQueryMerges(query, chunks, sim, perQueryTopK);
  }

  lemma OneQueryMerges(query: string, chunks: seq<Chunk>, sim: Similarity, k: int)
    requires DistinctChunks(chunks)
    ensures MergeScored(RetrieveChunks(query, chunks, sim, k)) == RetrieveChunks(query, chunks, sim, k)
  {
    var top := RetrieveChunks(query, chunks, sim, k);
    assert Descending(top) by { SortDescSorts(ScoreAll(query, chunks, sim)); }
    RetrieveChunksFacts(query, chunks, sim, k);
    MergeOfSortedDistinct(top);
  }
}
