/** What a located instance says of its node, and what each part of an atlas entry does to its score. */
module LocateScores {
  import opened Basics
  import opened Sorting
  import opened Spread
  import opened SpreadTheorems
  import opened Locating
  import opened LocateTheorems

  // ---- scores ----

  lemma Sixteenth(n: nat)
    ensures (n + 1) as real / 16.0 == n as real / 16.0 + 1.0 / 16.0
    ensures n >= 16 ==> n as real / 16.0 >= 1.0
    ensures n <= 16 ==> n as real / 16.0 <= 1.0
  {
  }

  lemma PerMiB(n: nat)
    ensures (n + 1) as real / 32_768.0 == n as real / 32_768.0 + 1.0 / 32_768.0
    ensures n >= 32_768 ==> n as real / 32_768.0 >= 1.0
    ensures n <= 32_768 ==> n as real / 32_768.0 <= 1.0
  {
  }

  /** A job more takes away what a core gives, as long as there are free cores and no more than 16 of them;
      beyond the cores, and above 16 free ones, it changes nothing. */
  lemma OneMoreJob(opts: Opts, a: Answers, id: string, e: AtlasEntry)
    ensures var busier := e.(runningJobs := e.runningJobs + 1);
            Score(opts, a, id, busier) == Score(opts, a, id, e)
              - if e.runningJobs < e.cpuCores <= e.runningJobs + 16 then 0.3 / 16.0 else 0.0
  {
    if e.runningJobs < e.cpuCores {
      Sixteenth(e.cpuCores - e.runningJobs - 1);
      Sixteenth(e.cpuCores - e.runningJobs);
    }
  }

  /** A core more adds as much, unless jobs are waiting for it or 16 are free already. */
  lemma OneMoreCore(opts: Opts, a: Answers, id: string, e: AtlasEntry)
    ensures var bigger := e.(cpuCores := e.cpuCores + 1);
            Score(opts, a, id, bigger) == Score(opts, a, id, e)
              + if e.runningJobs <= e.cpuCores < e.runningJobs + 16 then 0.3 / 16.0 else 0.0
  {
    if e.runningJobs <= e.cpuCores {
      Sixteenth(e.cpuCores - e.runningJobs);
      Sixteenth(e.cpuCores - e.runningJobs + 1);
    }
  }

  /** A MiB more counts up to 32 GiB. */
  lemma OneMoreMiB(opts: Opts, a: Answers, id: string, e: AtlasEntry)
    ensures var bigger := e.(memMb := e.memMb + 1);
            Score(opts, a, id, bigger) == Score(opts, a, id, e) + if e.memMb < 32_768 then 0.3 / 32_768.0 else 0.0
  {
    PerMiB(e.memMb);
    PerMiB(e.memMb + 1);
  }

  lemma PerSecond(n: nat, limit: nat)
    requires limit > 0
    ensures (n + 1) as real / limit as real == n as real / limit as real + 1.0 / limit as real
  {
  }

  /** A second more since the node was seen counts against the window; a time in the future does not count. */
  lemma OneSecondLater(opts: Opts, a: Answers, id: string, e: AtlasEntry)
    ensures var later := a.(now := a.now + 1);
            Score(opts, later, id, e) == Score(opts, a, id, e)
              - if e.lastSeen <= a.now then 0.4 / (if opts.maxStale == 0 then 1 else opts.maxStale) as real else 0.0
  {
    var limit := if opts.maxStale == 0 then 1 else opts.maxStale;
    PerSecond(Age(a.now, e), limit);
    assert 0.4 / limit as real == 0.4 * (1.0 / limit as real);
    hide Capacity;
  }

  /** With no free core, no memory, and just seen, the score is 0.4 and the tiebreak. Steps of the lemmas above
      lead from here to any entry at any time. */
  lemma NothingFree(opts: Opts, a: Answers, id: string, e: AtlasEntry)
    requires e.cpuCores == 0 && e.memMb == 0 && e.runningJobs == 0 && e.lastSeen == a.now
    ensures Score(opts, a, id, e) == 0.4 + 0.001 * a.jitter(id)
  {
  }

  /** Nothing else in an entry, and nothing in the request but its window, counts. */
  lemma NothingElseCounts(opts: Opts, other: Opts, a: Answers, b: Answers, id: string, e: AtlasEntry, f: AtlasEntry)
    requires other.maxStale == opts.maxStale && b.now == a.now && b.jitter(id) == a.jitter(id)
    requires f.(nodeId := e.nodeId, tags := e.tags) == e
    ensures Score(other, b, id, f) == Score(opts, a, id, e)
  {
  }

  /** A busy node is not preferred to an idle one with half its cores. */
  lemma IdleBeforeBusy(opts: Opts, a: Answers, busy: AtlasEntry, idle: AtlasEntry)
    requires busy.cpuCores == 16 && busy.runningJobs == 16 && idle.cpuCores == 8 && idle.runningJobs == 0
    requires busy.memMb == idle.memMb && busy.lastSeen == idle.lastSeen
    requires a.jitter(busy.nodeId) == a.jitter(idle.nodeId)
    ensures Score(opts, a, idle.nodeId, idle) == Score(opts, a, busy.nodeId, busy) + 0.15
  {
    hide Recency;
  }

  // ---- instances ----

  /** What is returned of a node. */
  ghost predicate Describes(opts: Opts, a: Answers, c: Instance)
    requires a.atlas.Ok?
  {
    if Some(c.nodeId) == a.local then
      && opts.requireTags == []
      && c.score == 1.0 && c.cores == 0 && c.memMb == 0 && c.tags == [] && c.lastSeen == a.now && c.faultDomain == None
    else
      exists e: AtlasEntry ::
        && IsLatest(a.atlas.value, c.nodeId, e)
        && a.now <= e.lastSeen + opts.maxStale && (forall t :: t in opts.requireTags ==> t in e.tags)
        && c.score == Score(opts, a, c.nodeId, e) && c.cores == e.cpuCores && c.memMb == e.memMb
        && c.tags == e.tags && c.lastSeen == e.lastSeen && c.faultDomain == FaultDomain(e.tags)
  }

  lemma CandidateDescribes(opts: Opts, a: Answers, id: string)
    requires a.atlas.Ok? && Candidate(opts, a, Index(a.atlas.value), id).Some?
    ensures Describes(opts, a, Candidate(opts, a, Index(a.atlas.value), id).value)
  {
    var byId := Index(a.atlas.value);
    var c := Candidate(opts, a, byId, id).value;
    IndexIs(a.atlas.value, id);
    hide Index, Score, FaultDomain, IsLatest;
    assert c.nodeId == id;
    if Some(id) != a.local {
      var e := byId[id];
      assert IsLatest(a.atlas.value, id, e) && Age(a.now, e) <= opts.maxStale;
    }
  }

  /** Every instance returned is described by the latest entry of its node, with its own score, or is this node
      with the fixed one. */
  lemma {:induction false} ReturnsEntries(opts: Opts, a: Answers, i: nat)
    requires a.found.Ok? && a.atlas.Ok? && Located(opts, a).Ok? && i < |Located(opts, a).value|
    ensures Describes(opts, a, Located(opts, a).value[i])
  {
    var c := Located(opts, a).value[i];
    assert c in Ranked(opts, a) by {
      hide Ranked;
    }
    RankedFrom(opts, a, c);
    hide Ranked, Located, Describes, Index, Candidate;
    var k :| 0 <= k < |a.found.value| && Candidate(opts, a, Index(a.atlas.value), a.found.value[k]) == Some(c);
    CandidateDescribes(opts, a, a.found.value[k]);
  }

  /** A search fails exactly when the service lookup does, or the atlas is needed and cannot be had; with the error
      of the one that failed. */
  lemma FailsIff(opts: Opts, a: Answers)
    ensures Located(opts, a).Err? <==> a.found.Err? || (a.found.value != [] && a.atlas.Err?)
    ensures Located(opts, a).Err? ==> Located(opts, a).error == if a.found.Err? then a.found.error else a.atlas.error
    ensures a.found.Ok? && a.found.value == [] ==> Located(opts, a) == Ok([])
  {
    hide Ranked, Selected;
  }

  // ---- calling ----

  /** What a call comes to, whichever replies there are: as `Locating.Call` promises. */
  ghost predicate CallsTo(opts: Opts, a: Answers, answers: Instance -> Result<seq<bv8>, string>,
                          r: Result<seq<bv8>, string>, asked: nat) {
    match Located(opts.(want := if opts.want < 3 then 3 else opts.want), a)
    case Err(e) => r == Err(e) && asked == 0
    case Ok(instances) => FirstReply(instances, answers, r, asked)
  }

  /** Before a call fails it has asked three nodes, or as many as are wanted if that is more, or all that are
      eligible. */
  lemma AsksBeforeFailing(opts: Opts, a: Answers, answers: Instance -> Result<seq<bv8>, string>,
                          r: Result<seq<bv8>, string>, asked: nat)
    requires a.found.Ok? && a.atlas.Ok? && CallsTo(opts, a, answers, r, asked) && r.Err?
    ensures asked == Least(if opts.want < 3 then 3 else opts.want, |EligibleIds(opts, a, a.found.value)|)
  {
    var several := opts.(want := if opts.want < 3 then 3 else opts.want);
    ReturnsEligible(several, a);
    SameEligible(opts, several, a, a.found.value);
    hide Located, EligibleIds;
  }

  lemma {:induction false} SameEligible(opts: Opts, other: Opts, a: Answers, ids: seq<string>)
    requires a.atlas.Ok? && other.requireTags == opts.requireTags && other.maxStale == opts.maxStale
    ensures EligibleIds(other, a, ids) == EligibleIds(opts, a, ids)
  {
    if ids == [] {
    } else {
      SameEligible(opts, other, a, ids[..|ids| - 1]);
      hide IsLatest;
    }
  }
}
