/** Duplicate protection of the pipeline: job creation and promotion both look a URL up before adding a job.
    Promotion looks up the form it stores; creation looks up the form it stores normalised once more. */
module RadarPipeline {
  import opened Options
  import opened JobUrl
  import opened RadarFeed

  /** No two jobs share a stored URL, blank ones aside. */
  ghost predicate UniqueUrls(s: Feed) {
    forall j, k :: j in s.jobs && k in s.jobs && Truthy(s.jobs[j].url) && s.jobs[j].url == s.jobs[k].url ==> j == k
  }

  ghost predicate UrlInUse(s: Feed, url: Option<string>) {
    exists j :: j in s.jobs && s.jobs[j].url == url
  }

  lemma AddJobUniqueIff(s: Feed, job: Job)
    requires JobsOk(s) && UniqueUrls(s)
    ensures UniqueUrls(AddJob(s, job)) <==> !Truthy(job.url) || !UrlInUse(s, job.url)
  {
    var s' := AddJob(s, job);
    if Truthy(job.url) && UrlInUse(s, job.url) {
      var j :| j in s.jobs && s.jobs[j].url == job.url;
      assert s'.jobs[j].url == s'.jobs[s.nextJob].url;
    }
  }

  /** Promotion never adds a second job for a URL, whatever the URL. */
  lemma PromoteKeepsUniqueUrls(s: Feed, p: PostingId, found: Option<JobId>, structured: bool)
    requires JobsOk(s) && UniqueUrls(s) && Enabled(s, DoPromote(p, found, structured))
    ensures UniqueUrls(Promote(s, p, found, structured))
  {
    if p in s.postings && found.None? {
      AddJobUniqueIff(s, Job(PromotedUrl(s.postings[p]), Some(p)));
    }
  }

  /** Exactly when creation keeps the URLs unique: the lookup found a job, or what is stored is blank or unused. */
  lemma CreateKeepsUniqueUrlsIff(s: Feed, url: Option<string>, found: Option<JobId>)
    requires JobsOk(s) && UniqueUrls(s) && Enabled(s, DoCreateJob(url, found))
    ensures UniqueUrls(CreateJob(s, url, found)) <==>
              found.Some? || !Truthy(StoredUrl(url)) || !UrlInUse(s, StoredUrl(url))
  {
    AddJobUniqueIff(s, Job(StoredUrl(url), None));
  }

  /** A URL whose looked-up form is its stored form. */
  predicate Stable(url: Option<string>) {
    Truthy(url) ==> LookedUpUrl(url) == StoredUrl(url)
  }

  lemma StableCreateKeepsUniqueUrls(s: Feed, url: Option<string>, found: Option<JobId>)
    requires JobsOk(s) && UniqueUrls(s) && Enabled(s, DoCreateJob(url, found)) && Stable(url)
    ensures UniqueUrls(CreateJob(s, url, found))
  {
    CreateKeepsUniqueUrlsIff(s, url, found);
  }

  ghost predicate StableStep(step: Step) {
    step.DoCreateJob? ==> Stable(step.url)
  }

  lemma FewerJobsUnique(s: Feed, s': Feed)
    requires UniqueUrls(s) && forall j :: j in s'.jobs ==> j in s.jobs && s'.jobs[j] == s.jobs[j]
    ensures UniqueUrls(s')
  {
  }

  lemma {:induction false} StepKeepsUniqueUrls(s: Feed, step: Step)
    requires JobsOk(s) && UniqueUrls(s) && Enabled(s, step) && StableStep(step)
    ensures UniqueUrls(Apply(s, step))
  {
    match step
    case DoPromote(p, found, structured) => PromoteKeepsUniqueUrls(s, p, found, structured);
    case DoCreateJob(url, found) => StableCreateKeepsUniqueUrls(s, url, found);
    case _ => FewerJobsUnique(s, Apply(s, step));
  }

  /** The plain URLs for which normalisation is idempotent, and the absent and empty ones. */
  predicate Canonicalisable(url: Option<string>) {
    Truthy(url) ==> Plain(url.value) && StableJobId(url.value)
  }

  /** Over every run of polls, promotions, creations and deletions in which the created URLs are plain with
      stable LinkedIn ids, decimal ones among them, no two jobs ever share a stored URL. Promoted URLs may be
      anything. */
  lemma {:induction false} RunKeepsUniqueUrls(states: seq<Feed>, steps: seq<Step>, i: nat)
    requires IsRun(states, steps) && i < |states|
    requires forall k :: 0 <= k < |steps| && steps[k].DoCreateJob? ==> Canonicalisable(steps[k].url)
    ensures UniqueUrls(states[i])
  {
    if i > 0 {
      RunKeepsUniqueUrls(states, steps, i - 1);
      RunIsOk(states, steps, i - 1);
      if steps[i - 1].DoCreateJob? && Truthy(steps[i - 1].url) {
        IdempotentIff(steps[i - 1].url.value);
      }
      StepKeepsUniqueUrls(states[i - 1], steps[i - 1]);
    }
  }

  /** Posting one URL twice into an empty pipeline makes two jobs exactly when normalising it twice
      differs from normalising it once. */
  lemma TwiceCreatedIff(s: Feed, u: string, found: Option<JobId>)
    requires s.jobs == map[] && u != "" && Truthy(NormalizeJobUrl(Some(u)))
    requires Finds(CreateJob(s, Some(u), None), LookedUpUrl(Some(u)), found)
    ensures Finds(s, LookedUpUrl(Some(u)), None)
    ensures var s2 := CreateJob(CreateJob(s, Some(u), None), Some(u), found);
            UniqueUrls(s2) <==> NormalizeJobUrl(NormalizeJobUrl(Some(u))) == NormalizeJobUrl(Some(u))
  {
    var url := Some(u);
    var s1 := CreateJob(s, url, None);
    assert s.nextJob in s1.jobs && s1.jobs[s.nextJob].url == StoredUrl(url);
    var s2 := CreateJob(s1, url, found);
    if LookedUpUrl(url) != StoredUrl(url) {
      assert s2.jobs[s.nextJob].url == s2.jobs[s1.nextJob].url;
    }
  }

  /** For plain URLs that is exactly a currentJobId that does not come back from the URL built on it, such as one
      that is neither decimal nor holds a question mark. */
  lemma PlainTwiceCreatedIff(s: Feed, u: string, found: Option<JobId>)
    requires s.jobs == map[] && Plain(u) && Truthy(NormalizeJobUrl(Some(u))) && u != ""
    requires Finds(CreateJob(s, Some(u), None), LookedUpUrl(Some(u)), found)
    ensures var s2 := CreateJob(CreateJob(s, Some(u), None), Some(u), found);
            UniqueUrls(s2) <==> StableJobId(u)
  {
    TwiceCreatedIff(s, u, found);
    IdempotentIff(u);
  }
}
