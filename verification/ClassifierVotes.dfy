/** How the classifications of a page's chunks are pooled into one. Scores are exact reals; the score table
    of a classification is arbitrary, a label that is missing from it counts as 0. */
module ClassifierVotes {
  import opened Options

  datatype Label = ResumePage | JobPost | Other

  datatype Classification = Classification(kind: Label, confidence: real, scores: map<Label, real>)

  function Score(c: Classification, l: Label): real {
    if l in c.scores then c.scores[l] else 0.0
  }

  function Opponent(l: Label): Label {
    if l == JobPost then ResumePage else JobPost
  }

  /** The chunk counts as a vote for the label. */
  predicate Votes(c: Classification, l: Label, min: real) {
    Score(c, l) >= min && Score(c, l) > Score(c, Opponent(l))
  }

  function Count(cs: seq<Classification>, l: Label, min: real): nat {
    if cs == [] then 0 else Count(cs[..|cs| - 1], l, min) + if Votes(cs[|cs| - 1], l, min) then 1 else 0
  }

  /** A vote can be the best one only above the score the search starts from. */
  const SEARCH_START: real := -1.0

  predicate Electable(c: Classification, l: Label, min: real) {
    Votes(c, l, min) && Score(c, l) > SEARCH_START
  }

  /** The first of the electable votes with the highest score. */
  ghost predicate IsBest(cs: seq<Classification>, l: Label, min: real, i: int) {
    && 0 <= i < |cs| && Electable(cs[i], l, min)
    && (forall k :: 0 <= k < |cs| && Electable(cs[k], l, min) ==> Score(cs[k], l) <= Score(cs[i], l))
    && (forall k :: 0 <= k < i && Electable(cs[k], l, min) ==> Score(cs[k], l) < Score(cs[i], l))
  }

  function Best(cs: seq<Classification>, l: Label, min: real): Option<Classification> {
    if cs == [] then None else
      var before := Best(cs[..|cs| - 1], l, min);
      var last := cs[|cs| - 1];
      if Electable(last, l, min) && (before.None? || Score(last, l) > Score(before.value, l))
      then Some(last) else before
  }

  lemma {:induction false} BestIsFirstHighest(cs: seq<Classification>, l: Label, min: real) returns (i: int)
    ensures Best(cs, l, min).Some? ==> IsBest(cs, l, min, i) && Best(cs, l, min) == Some(cs[i])
    ensures Best(cs, l, min).None? ==> forall k :: 0 <= k < |cs| ==> !Electable(cs[k], l, min)
  {
    i := 0;
    if cs != [] {
      var n := |cs| - 1;
      var init := cs[..n];
      i := BestIsFirstHighest(init, l, min);
      assert forall k :: 0 <= k < n ==> init[k] == cs[k];
      if Electable(cs[n], l, min) && (Best(init, l, min).None? || Score(cs[n], l) > Score(init[i], l)) {
        i := n;
      }
    }
  }

  /** Any electable vote makes a best one. */
  lemma BestExists(cs: seq<Classification>, l: Label, min: real, k: nat)
    requires k < |cs| && Electable(cs[k], l, min)
    ensures Best(cs, l, min).Some? && Score(Best(cs, l, min).value, l) >= Score(cs[k], l)
  {
    var i := BestIsFirstHighest(cs, l, min);
  }

  /** The first classification of the highest confidence. */
  function MostConfident(cs: seq<Classification>): Classification
    requires cs != []
  {
    if |cs| == 1 then cs[0] else
      var before := MostConfident(cs[..|cs| - 1]);
      if cs[|cs| - 1].confidence > before.confidence then cs[|cs| - 1] else before
  }

  const EMPTY_PAGE := Classification(Other, 1.0, map[ResumePage := 0.0, JobPost := 0.0, Other := 1.0])

  /** The resume side wins when it has votes and outnumbers the job side, or ties with a strictly better best. */
  predicate ResumeWins(cs: seq<Classification>, min: real) {
    var resume, job := Best(cs, ResumePage, min), Best(cs, JobPost, min);
    && resume.Some?
    && (job.None?
        || Count(cs, ResumePage, min) > Count(cs, JobPost, min)
        || (Count(cs, ResumePage, min) == Count(cs, JobPost, min)
            && Score(resume.value, ResumePage) > Score(job.value, JobPost)))
  }

  /** The constructor validates the confidence: a score outside 0..1 raises. */
  function Validated(l: Label, confidence: real, scores: map<Label, real>): Option<Classification> {
    if 0.0 <= confidence <= 1.0 then Some(Classification(l, confidence, scores)) else None
  }

  function Elected(best: Classification, l: Label): Option<Classification> {
    Validated(l, Score(best, l), best.scores)
  }

  function Aggregate(cs: seq<Classification>, min: real): Option<Classification> {
    if cs == [] then Some(EMPTY_PAGE)
    else if ResumeWins(cs, min) then Elected(Best(cs, ResumePage, min).value, ResumePage)
    else if Best(cs, JobPost, min).Some? then Elected(Best(cs, JobPost, min).value, JobPost)
    else Some(MostConfident(cs))
  }

  lemma {:induction false} BestVotes(cs: seq<Classification>, l: Label, min: real)
    ensures Best(cs, l, min).Some? ==> Count(cs, l, min) > 0 && Electable(Best(cs, l, min).value, l, min)
  {
    if cs != [] {
      BestVotes(cs[..|cs| - 1], l, min);
    }
  }

  // ---------------------------------------------------------------------------------------------
  // The verdict, told by which chunks vote
  // ---------------------------------------------------------------------------------------------

  /** The chunk reaches the threshold for the label and scores it above its rival. */
  predicate Leads(c: Classification, l: Label, rival: Label, min: real) {
    Score(c, l) >= min && Score(c, l) > Score(c, rival)
  }

  ghost function VotersFor(cs: seq<Classification>, l: Label, rival: Label, min: real): set<nat> {
    set i: nat | i < |cs| && Leads(cs[i], l, rival, min)
  }

  /** The first of the highest scoring votes above -1. */
  ghost predicate Champion(cs: seq<Classification>, l: Label, rival: Label, min: real, i: int) {
    && 0 <= i < |cs| && Leads(cs[i], l, rival, min) && Score(cs[i], l) > -1.0
    && (forall k :: 0 <= k < |cs| && Leads(cs[k], l, rival, min) ==>
          Score(cs[k], l) < Score(cs[i], l) || (Score(cs[k], l) == Score(cs[i], l) && i <= k))
  }

  ghost predicate JobChampion(cs: seq<Classification>, min: real, j: int) {
    Champion(cs, JobPost, ResumePage, min, j)
  }

  /** The resume side has a champion, and the job side has none, or fewer votes, or as many and a worse champion. */
  ghost predicate ResumeChosen(cs: seq<Classification>, min: real, i: int) {
    var resumes, jobs := |VotersFor(cs, ResumePage, JobPost, min)|, |VotersFor(cs, JobPost, ResumePage, min)|;
    && Champion(cs, ResumePage, JobPost, min, i)
    && forall j :: JobChampion(cs, min, j) ==>
         resumes > jobs || (resumes == jobs && Score(cs[i], ResumePage) > Score(cs[j], JobPost))
  }

  /** The chosen chunk's score becomes the confidence, which must lie in 0..1. */
  ghost predicate ElectedAs(r: Option<Classification>, c: Classification, l: Label) {
    if 0.0 <= Score(c, l) <= 1.0
    then r.Some? && r.value.kind == l && r.value.confidence == Score(c, l) && r.value.scores == c.scores
    else r.None?
  }

  /** The first of the most confident chunks. */
  ghost predicate FirstMostConfident(cs: seq<Classification>, k: int) {
    && 0 <= k < |cs| && (forall m :: 0 <= m < |cs| ==> cs[m].confidence <= cs[k].confidence)
    && (forall m :: 0 <= m < k ==> cs[m].confidence < cs[k].confidence)
  }

  /** A page without text is something else for certain. A chosen resume vote decides, failing that the job side's
      champion, and without champions the first of the most confident chunks. */
  ghost predicate Verdict(cs: seq<Classification>, min: real, r: Option<Classification>) {
    if cs == [] then r.Some? && r.value.kind == Other && r.value.confidence == 1.0
    else if exists i :: ResumeChosen(cs, min, i) then
      exists i :: ResumeChosen(cs, min, i) && ElectedAs(r, cs[i], ResumePage)
    else if exists j :: JobChampion(cs, min, j) then
      exists j :: JobChampion(cs, min, j) && ElectedAs(r, cs[j], JobPost)
    else exists k :: FirstMostConfident(cs, k) && r == Some(cs[k])
  }

  lemma {:induction false} CountIsVoters(cs: seq<Classification>, l: Label, min: real)
    ensures Count(cs, l, min) == |VotersFor(cs, l, Opponent(l), min)|
  {
    if cs != [] {
      var n := |cs| - 1;
      CountIsVoters(cs[..n], l, min);
      var before := VotersFor(cs[..n], l, Opponent(l), min);
      assert VotersFor(cs, l, Opponent(l), min) == if Leads(cs[n], l, Opponent(l), min) then before + {n} else before;
    }
  }

  lemma ChampionIs(cs: seq<Classification>, l: Label, min: real)
    ensures Best(cs, l, min).None? ==> forall i :: !Champion(cs, l, Opponent(l), min, i)
    ensures Best(cs, l, min).Some? ==> exists i :: Champion(cs, l, Opponent(l), min, i)
    ensures forall i :: Champion(cs, l, Opponent(l), min, i) ==> Best(cs, l, min) == Some(cs[i])
  {
    var b := BestIsFirstHighest(cs, l, min);
    if Best(cs, l, min).Some? {
      assert Champion(cs, l, Opponent(l), min, b);
      forall i | Champion(cs, l, Opponent(l), min, i) ensures i == b {
        assert Electable(cs[i], l, min);
      }
    } else {
      forall i ensures !Champion(cs, l, Opponent(l), min, i) {
        assert 0 <= i < |cs| ==> !Electable(cs[i], l, min);
      }
    }
  }

  lemma ResumeChosenIff(cs: seq<Classification>, min: real)
    ensures ResumeWins(cs, min) <==> exists i :: ResumeChosen(cs, min, i)
    ensures forall i :: ResumeChosen(cs, min, i) ==> Best(cs, ResumePage, min) == Some(cs[i])
  {
    ChampionIs(cs, ResumePage, min);
    ChampionIs(cs, JobPost, min);
    CountIsVoters(cs, ResumePage, min);
    CountIsVoters(cs, JobPost, min);
    if ResumeWins(cs, min) {
      var i :| Champion(cs, ResumePage, JobPost, min, i);
      assert ResumeChosen(cs, min, i);
    }
  }

  lemma {:induction false} FirstMostConfidentIs(cs: seq<Classification>) returns (k: nat)
    requires cs != []
    ensures FirstMostConfident(cs, k) && MostConfident(cs) == cs[k]
  {
    k := 0;
    if |cs| > 1 {
      var n := |cs| - 1;
      k := FirstMostConfidentIs(cs[..n]);
      assert forall m :: 0 <= m < n ==> cs[..n][m] == cs[m];
      if cs[n].confidence > cs[k].confidence {
        k := n;
      }
    }
  }

  lemma ElectedIs(best: Classification, l: Label)
    ensures ElectedAs(Elected(best, l), best, l)
  {
  }

  lemma JobVerdict(cs: seq<Classification>, min: real)
    requires cs != [] && !ResumeWins(cs, min)
    ensures Best(cs, JobPost, min).Some? <==> exists j :: JobChampion(cs, min, j)
    ensures forall j :: JobChampion(cs, min, j) ==> ElectedAs(Aggregate(cs, min), cs[j], JobPost)
  {
    ChampionIs(cs, JobPost, min);
    if Best(cs, JobPost, min).Some? {
      var j :| Champion(cs, JobPost, ResumePage, min, j);
      assert JobChampion(cs, min, j);
      ElectedIs(Best(cs, JobPost, min).value, JobPost);
    }
  }

  /** What a page's chunks come to. */
  lemma AggregateIsVerdict(cs: seq<Classification>, min: real)
    ensures Verdict(cs, min, Aggregate(cs, min))
  {
    if cs != [] {
      ResumeChosenIff(cs, min);
      if ResumeWins(cs, min) {
        var i :| ResumeChosen(cs, min, i);
        ElectedIs(cs[i], ResumePage);
      } else {
        JobVerdict(cs, min);
        var k := FirstMostConfidentIs(cs);
      }
    }
  }

  method FallBack(cs: seq<Classification>) returns (c: Classification)
    requires cs != []
    ensures c == MostConfident(cs)
  {
    c := cs[0];
    assert cs[..1] == [cs[0]];
    for i := 1 to |cs|
      invariant c == MostConfident(cs[..i])
    {
      assert cs[..i + 1][..i] == cs[..i];
      if cs[i].confidence > c.confidence {
        c := cs[i];
      }
    }
    assert cs[..|cs|] == cs;
  }

  /** One side of the loop body: count the vote and keep the best. */
  method CountVote(c: Classification, l: Label, min: real, ghost before: seq<Classification>, count: nat,
                   best: Option<Classification>, bestScore: real)
    returns (count': nat, best': Option<Classification>, bestScore': real)
    requires count == Count(before, l, min) && best == Best(before, l, min)
    requires bestScore == if best.Some? then Score(best.value, l) else SEARCH_START
    ensures count' == Count(before + [c], l, min) && best' == Best(before + [c], l, min)
    ensures bestScore' == if best'.Some? then Score(best'.value, l) else SEARCH_START
  {
    assert (before + [c])[..|before|] == before;
    BestVotes(before, l, min);
    count', best', bestScore' := count, best, bestScore;
    var score := Score(c, l);
    if score >= min && score > Score(c, Opponent(l)) {
      count' := count + 1;
      if score > bestScore {
        bestScore', best' := score, Some(c);
      }
    }
  }

  method AggregateChunks(cs: seq<Classification>, min: real) returns (r: Option<Classification>)
    ensures r == Aggregate(cs, min)
  {
    if cs == [] {
      return Some(EMPTY_PAGE);
    }
    var bestJob: Option<Classification>, bestJobScore := None, SEARCH_START;
    var bestResume: Option<Classification>, bestResumeScore := None, SEARCH_START;
    var jobs, resumes := 0, 0;
    for i := 0 to |cs|
      invariant jobs == Count(cs[..i], JobPost, min) && bestJob == Best(cs[..i], JobPost, min)
      invariant resumes == Count(cs[..i], ResumePage, min) && bestResume == Best(cs[..i], ResumePage, min)
      invariant bestJobScore == if bestJob.Some? then Score(bestJob.value, JobPost) else SEARCH_START
      invariant bestResumeScore == if bestResume.Some? then Score(bestResume.value, ResumePage) else SEARCH_START
    {
      assert cs[..i + 1] == cs[..i] + [cs[i]];
      jobs, bestJob, bestJobScore := CountVote(cs[i], JobPost, min, cs[..i], jobs, bestJob, bestJobScore);
      resumes, bestResume, bestResumeScore :=
        CountVote(cs[i], ResumePage, min, cs[..i], resumes, bestResume, bestResumeScore);
    }
    assert cs[..|cs|] == cs;
    BestVotes(cs, ResumePage, min);
    if bestJob.Some? && jobs > resumes {
      return Validated(JobPost, bestJobScore, bestJob.value.scores);
    }
    if bestJob.Some? && resumes == 0 {
      return Validated(JobPost, bestJobScore, bestJob.value.scores);
    }
    if bestJob.Some? && bestResume.Some? && jobs == resumes && bestJobScore >= bestResumeScore {
      return Validated(JobPost, bestJobScore, bestJob.value.scores);
    }
    if bestResume.Some? {
      return Validated(ResumePage, bestResumeScore, bestResume.value.scores);
    }
    if bestJob.Some? {
      return Validated(JobPost, bestJobScore, bestJob.value.scores);
    }
    var fallback := FallBack(cs);
    r := Some(fallback);
  }

  // ---------------------------------------------------------------------------------------------
  // The last job branch
  // ---------------------------------------------------------------------------------------------

  /** None of the earlier returns is taken, but there is a best job chunk. */
  ghost predicate ReachesLastJobBranch(cs: seq<Classification>, min: real) {
    && Best(cs, JobPost, min).Some? && Best(cs, ResumePage, min).None?
    && Count(cs, JobPost, min) <= Count(cs, ResumePage, min) && Count(cs, ResumePage, min) != 0
  }

  lemma {:induction false} VotesAreElectable(cs: seq<Classification>, l: Label, min: real)
    requires min > SEARCH_START && Count(cs, l, min) > 0
    ensures Best(cs, l, min).Some?
  {
    if !Votes(cs[|cs| - 1], l, min) {
      VotesAreElectable(cs[..|cs| - 1], l, min);
    }
  }

  lemma OneChunk(c: Classification, l: Label, min: real)
    ensures Best([c], l, min) == if Electable(c, l, min) then Some(c) else None
    ensures Count([c], l, min) == if Votes(c, l, min) then 1 else 0
  {
    assert [c][..0] == [];
  }

  /** The branch is dead exactly for thresholds above the score the search starts from. */
  lemma LastJobBranchIff(min: real)
    ensures (exists cs :: ReachesLastJobBranch(cs, min)) <==> min <= SEARCH_START
  {
    if min > SEARCH_START {
      forall cs ensures !ReachesLastJobBranch(cs, min) {
        if Count(cs, ResumePage, min) > 0 {
          VotesAreElectable(cs, ResumePage, min);
        }
      }
    } else {
      var resume := Classification(ResumePage, 1.0, map[ResumePage := -1.0, JobPost := -2.0]);
      var job := Classification(JobPost, 1.0, map[JobPost := 1.0]);
      var cs := [resume, job];
      assert cs[..1] == [resume];
      OneChunk(resume, ResumePage, min);
      OneChunk(resume, JobPost, min);
      assert Score(resume, ResumePage) == -1.0 && Score(resume, JobPost) == -2.0;
      assert Score(job, ResumePage) == 0.0 && Score(job, JobPost) == 1.0;
      assert ReachesLastJobBranch(cs, min);
    }
  }

  // ---------------------------------------------------------------------------------------------
  // Order does not matter
  // ---------------------------------------------------------------------------------------------

  lemma {:induction false} CountConcat(a: seq<Classification>, b: seq<Classification>, l: Label, min: real)
    ensures Count(a + b, l, min) == Count(a, l, min) + Count(b, l, min)
    decreases |b|
  {
    if b == [] {
      assert a + b == a;
    } else {
      var n := |b| - 1;
      assert (a + b)[..|a + b| - 1] == a + b[..n];
      CountConcat(a, b[..n], l, min);
    }
  }

  lemma RemoveOne(cs: seq<Classification>, ds: seq<Classification>, i: nat)
    requires cs != [] && multiset(cs) == multiset(ds) && i < |ds| && ds[i] == cs[|cs| - 1]
    ensures multiset(cs[..|cs| - 1]) == multiset(ds[..i] + ds[i + 1..])
  {
    var x := ds[i];
    assert cs == cs[..|cs| - 1] + [x];
    assert multiset(cs) == multiset(cs[..|cs| - 1]) + multiset{x};
    assert ds == ds[..i] + [x] + ds[i + 1..];
    assert multiset(ds) == multiset(ds[..i] + ds[i + 1..]) + multiset{x};
    assert multiset(cs[..|cs| - 1]) == multiset(cs) - multiset{x};
    assert multiset(ds[..i] + ds[i + 1..]) == multiset(ds) - multiset{x};
  }

  lemma CountWithout(ds: seq<Classification>, i: nat, l: Label, min: real)
    requires i < |ds|
    ensures Count(ds, l, min) == Count(ds[..i] + ds[i + 1..], l, min) + Count([ds[i]], l, min)
  {
    assert ds == ds[..i] + [ds[i]] + ds[i + 1..];
    CountConcat(ds[..i] + [ds[i]], ds[i + 1..], l, min);
    CountConcat(ds[..i], [ds[i]], l, min);
    CountConcat(ds[..i], ds[i + 1..], l, min);
  }

  lemma {:induction false} CountPermutes(cs: seq<Classification>, ds: seq<Classification>, l: Label, min: real)
    requires multiset(cs) == multiset(ds)
    ensures Count(cs, l, min) == Count(ds, l, min)
    decreases |cs|
  {
    assert |ds| == |multiset(ds)| == |multiset(cs)| == |cs|;
    if cs != [] {
      var x := cs[|cs| - 1];
      assert x in multiset(cs);
      var i :| 0 <= i < |ds| && ds[i] == x;
      RemoveOne(cs, ds, i);
      CountPermutes(cs[..|cs| - 1], ds[..i] + ds[i + 1..], l, min);
      CountWithout(ds, i, l, min);
      assert cs == cs[..|cs| - 1] + [x];
      CountConcat(cs[..|cs| - 1], [x], l, min);
    }
  }

  lemma BestScoreBelow(cs: seq<Classification>, ds: seq<Classification>, l: Label, min: real)
    requires multiset(cs) == multiset(ds) && Best(cs, l, min).Some?
    ensures Best(ds, l, min).Some?
    ensures Score(Best(cs, l, min).value, l) <= Score(Best(ds, l, min).value, l)
  {
    var i := BestIsFirstHighest(cs, l, min);
    assert cs[i] in multiset(cs);
    assert cs[i] in ds;
    var k :| 0 <= k < |ds| && ds[k] == cs[i];
    BestExists(ds, l, min, k);
  }

  lemma BestScorePermutes(cs: seq<Classification>, ds: seq<Classification>, l: Label, min: real)
    requires multiset(cs) == multiset(ds)
    ensures Best(cs, l, min).Some? <==> Best(ds, l, min).Some?
    ensures Best(cs, l, min).Some? ==> Score(Best(cs, l, min).value, l) == Score(Best(ds, l, min).value, l)
  {
    if Best(cs, l, min).Some? {
      BestScoreBelow(cs, ds, l, min);
    }
    if Best(ds, l, min).Some? {
      BestScoreBelow(ds, cs, l, min);
    }
  }

  predicate AnyElectable(cs: seq<Classification>, min: real) {
    Best(cs, JobPost, min).Some? || Best(cs, ResumePage, min).Some?
  }

  /** Reordering the chunks changes neither label nor confidence, as long as some vote can be elected. */
  lemma OrderDoesNotMatter(cs: seq<Classification>, ds: seq<Classification>, min: real)
    requires multiset(cs) == multiset(ds) && AnyElectable(cs, min)
    ensures Aggregate(cs, min).Some? <==> Aggregate(ds, min).Some?
    ensures Aggregate(cs, min).Some? ==>
              && Aggregate(cs, min).value.kind == Aggregate(ds, min).value.kind
              && Aggregate(cs, min).value.confidence == Aggregate(ds, min).value.confidence
  {
    BestScorePermutes(cs, ds, JobPost, min);
    BestScorePermutes(cs, ds, ResumePage, min);
    CountPermutes(cs, ds, JobPost, min);
    CountPermutes(cs, ds, ResumePage, min);
  }

  lemma {:induction false} MostConfidentIs(cs: seq<Classification>)
    requires cs != []
    ensures MostConfident(cs) in cs && forall c :: c in cs ==> c.confidence <= MostConfident(cs).confidence
  {
    if |cs| > 1 {
      var n := |cs| - 1;
      MostConfidentIs(cs[..n]);
      assert cs == cs[..n] + [cs[n]];
    }
  }

  lemma {:induction false} FirstStaysMostConfident(cs: seq<Classification>)
    requires cs != [] && forall c :: c in cs ==> c.confidence <= cs[0].confidence
    ensures MostConfident(cs) == cs[0]
  {
    if |cs| > 1 {
      FirstStaysMostConfident(cs[..|cs| - 1]);
    }
  }

  /** A chunk that no other is more confident than. */
  ghost predicate IsTop(cs: seq<Classification>, c: Classification) {
    c in cs && forall d :: d in cs ==> d.confidence <= c.confidence
  }

  lemma TopCanComeFirst(cs: seq<Classification>, c: Classification) returns (ds: seq<Classification>)
    requires IsTop(cs, c)
    ensures multiset(ds) == multiset(cs) && ds != [] && MostConfident(ds) == c
  {
    var i :| 0 <= i < |cs| && cs[i] == c;
    ds := [c] + cs[..i] + cs[i + 1..];
    assert cs == cs[..i] + [c] + cs[i + 1..];
    forall d | d in ds ensures d in cs {
      assert d in multiset(ds);
    }
    FirstStaysMostConfident(ds);
  }

  lemma ElectableOrderFree(cs: seq<Classification>, ds: seq<Classification>, min: real)
    requires multiset(cs) == multiset(ds)
    ensures AnyElectable(cs, min) <==> AnyElectable(ds, min)
    ensures |cs| == |ds|
  {
    BestScorePermutes(cs, ds, JobPost, min);
    BestScorePermutes(cs, ds, ResumePage, min);
    assert |cs| == |multiset(cs)| == |multiset(ds)| == |ds|;
  }

  /** The two pages get the same label with the same confidence, or both fail validation. */
  predicate SameVerdict(cs: seq<Classification>, ds: seq<Classification>, min: real) {
    var a, b := Aggregate(cs, min), Aggregate(ds, min);
    && (a.Some? <==> b.Some?)
    && (a.Some? && b.Some? ==> a.value.kind == b.value.kind && a.value.confidence == b.value.confidence)
  }

  /** Exactly when the order of the chunks does not matter: some vote can be elected, or all chunks of the highest
      confidence have one label. Otherwise the first of the most confident chunks decides. */
  lemma OrderDoesNotMatterIff(cs: seq<Classification>, min: real)
    ensures (forall ds :: multiset(ds) == multiset(cs) ==> SameVerdict(cs, ds, min)) <==>
              AnyElectable(cs, min) || forall c, d :: IsTop(cs, c) && IsTop(cs, d) ==> c.kind == d.kind
  {
    forall ds | multiset(ds) == multiset(cs)
      ensures AnyElectable(cs, min) ==> SameVerdict(cs, ds, min)
      ensures cs == [] ==> ds == []
      ensures !AnyElectable(cs, min) && cs != [] ==>
                ds != [] && Aggregate(ds, min) == Some(MostConfident(ds)) && IsTop(cs, MostConfident(ds))
    {
      ElectableOrderFree(cs, ds, min);
      if AnyElectable(cs, min) {
        OrderDoesNotMatter(cs, ds, min);
      } else if cs != [] {
        FallbackIsTop(cs, ds, min);
      }
    }
    if c, d :| !AnyElectable(cs, min) && IsTop(cs, c) && IsTop(cs, d) && c.kind != d.kind {
      var cFirst := TopCanComeFirst(cs, c);
      var dFirst := TopCanComeFirst(cs, d);
      assert SameVerdict(cs, cFirst, min) ==> !SameVerdict(cs, dFirst, min);
    }
  }

  lemma FallbackIsTop(cs: seq<Classification>, ds: seq<Classification>, min: real)
    requires multiset(cs) == multiset(ds) && cs != [] && ds != [] && !AnyElectable(ds, min)
    ensures Aggregate(ds, min) == Some(MostConfident(ds)) && IsTop(cs, MostConfident(ds))
  {
    MostConfidentIs(ds);
    forall c ensures c in cs <==> c in ds {
      assert c in cs <==> c in multiset(cs);
      assert c in ds <==> c in multiset(ds);
    }
  }

  // ---------------------------------------------------------------------------------------------
  // One more job chunk
  // ---------------------------------------------------------------------------------------------

  lemma JobVoteAppended(cs: seq<Classification>, c: Classification, min: real)
    requires Electable(c, JobPost, min)
    ensures Best(cs + [c], JobPost, min).Some?
    ensures Best(cs, JobPost, min).Some? ==>
              Score(Best(cs + [c], JobPost, min).value, JobPost) >= Score(Best(cs, JobPost, min).value, JobPost)
    ensures Best(cs + [c], ResumePage, min) == Best(cs, ResumePage, min)
    ensures Count(cs + [c], JobPost, min) == Count(cs, JobPost, min) + 1
    ensures Count(cs + [c], ResumePage, min) == Count(cs, ResumePage, min)
  {
    assert (cs + [c])[..|cs|] == cs;
  }

  /** A further job vote, put in anywhere, never turns a job post into a resume. */
  lemma JobVoteNeverBackfires(cs: seq<Classification>, i: nat, c: Classification, min: real)
    requires i <= |cs| && Electable(c, JobPost, min)
    requires Aggregate(cs, min).Some? && Aggregate(cs, min).value.kind == JobPost
    ensures var r := Aggregate(cs[..i] + [c] + cs[i..], min); r.Some? ==> r.value.kind == JobPost
  {
    JobVoteAppended(cs, c, min);
    var more := cs + [c];
    BestVotes(cs, ResumePage, min);
    assert !ResumeWins(cs, min);
    assert !ResumeWins(more, min);
    assert cs == cs[..i] + cs[i..];
    assert multiset(more) == multiset(cs[..i] + [c] + cs[i..]);
    OrderDoesNotMatter(more, cs[..i] + [c] + cs[i..], min);
  }
}
