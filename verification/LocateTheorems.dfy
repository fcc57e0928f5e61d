/** What a search promises about the instances it returns. */
module LocateTheorems {
  import opened Basics
  import opened Sorting
  import opened Spread
  import opened SpreadGroups
  import opened SpreadTheorems
  import opened SpreadOptimal
  import opened SpreadRounds
  import opened Locating

  // ---- fault domains ----

  /** `t` is the first tag with a prefix. */
  ghost predicate IsFirstWith(tags: seq<string>, prefix: string, t: string) {
    exists i :: 0 <= i < |tags| && tags[i] == t && prefix <= t && forall j :: 0 <= j < i ==> !(prefix <= tags[j])
  }

  lemma {:induction false} FirstWithIs(tags: seq<string>, prefix: string)
    ensures match FirstWith(tags, prefix)
            case Some(t) => IsFirstWith(tags, prefix, t)
            case None => forall t :: t in tags ==> !(prefix <= t)
  {
    if tags != [] && !(prefix <= tags[0]) {
      FirstWithIs(tags[1..], prefix);
      assert tags == [tags[0]] + tags[1..];
      match FirstWith(tags, prefix) {
        case Some(t) =>
          var i :| 0 <= i < |tags[1..]| && tags[1..][i] == t && forall j :: 0 <= j < i ==> !(prefix <= tags[1..][j]);
          assert tags[i + 1] == t;
          forall j | 0 <= j < i + 1 ensures !(prefix <= tags[j]) {
            if j > 0 {
              assert tags[j] == tags[1..][j - 1];
            }
          }
        case None =>
      }
    } else if tags != [] {
      assert tags[0] in tags;
    }
  }

  /** A region counts before a zone and a zone before an ASN, wherever they stand among the tags. */
  lemma FaultDomainIs(tags: seq<string>)
    ensures match FaultDomain(tags)
            case Some(d) =>
              || IsFirstWith(tags, "region:", d)
              || (IsFirstWith(tags, "zone:", d) && forall t :: t in tags ==> !("region:" <= t))
              || (IsFirstWith(tags, "asn:", d) && forall t :: t in tags ==> !("region:" <= t) && !("zone:" <= t))
            case None => forall t :: t in tags ==> !("region:" <= t) && !("zone:" <= t) && !("asn:" <= t)
  {
    FirstWithIs(tags, "region:");
    FirstWithIs(tags, "zone:");
    FirstWithIs(tags, "asn:");
    hide IsFirstWith, FirstWith;
  }

  // ---- eligibility ----

  /** The last atlas entry of a node. */
  ghost predicate IsLatest(atlas: seq<AtlasEntry>, id: string, e: AtlasEntry) {
    exists i ::
      && 0 <= i < |atlas| && atlas[i] == e && e.nodeId == id
      && forall j :: i < j < |atlas| ==> atlas[j].nodeId != id
  }

  lemma {:induction false} IndexIs(atlas: seq<AtlasEntry>, id: string)
    ensures id in Index(atlas) ==> IsLatest(atlas, id, Index(atlas)[id])
    ensures id !in Index(atlas) ==> forall e :: e in atlas ==> e.nodeId != id
  {
    if atlas == [] {
    } else {
      var earlier, last := atlas[..|atlas| - 1], atlas[|atlas| - 1];
      IndexIs(earlier, id);
      assert atlas == earlier + [last];
      if last.nodeId == id {
        assert atlas[|atlas| - 1] == last;
      } else if id in Index(earlier) {
        var i :| 0 <= i < |earlier| && earlier[i] == Index(earlier)[id]
                 && forall j :: i < j < |earlier| ==> earlier[j].nodeId != id;
        assert atlas[i] == earlier[i];
      }
    }
  }

  /** The instance may be returned: it is this node, or its latest entry is fresh and has all tags. */
  ghost predicate Eligible(opts: Opts, a: Answers, id: string)
    requires a.atlas.Ok?
  {
    if Some(id) == a.local then opts.requireTags == []
    else
      exists e :: IsLatest(a.atlas.value, id, e)
                  && a.now <= e.lastSeen + opts.maxStale
                  && forall t :: t in opts.requireTags ==> t in e.tags
  }

  lemma LatestIsOne(atlas: seq<AtlasEntry>, id: string, e: AtlasEntry, f: AtlasEntry)
    requires IsLatest(atlas, id, e) && IsLatest(atlas, id, f)
    ensures e == f && e in atlas
  {
  }

  lemma CandidateIffEligible(opts: Opts, a: Answers, id: string)
    requires a.atlas.Ok?
    ensures Candidate(opts, a, Index(a.atlas.value), id).Some? <==> Eligible(opts, a, id)
    ensures Candidate(opts, a, Index(a.atlas.value), id).Some? ==>
              Candidate(opts, a, Index(a.atlas.value), id).value.nodeId == id
  {
    var atlas := a.atlas.value;
    var byId := Index(atlas);
    IndexIs(atlas, id);
    hide Index;
    if Some(id) != a.local {
      if Eligible(opts, a, id) {
        var e :| IsLatest(atlas, id, e) && a.now <= e.lastSeen + opts.maxStale
                 && forall t :: t in opts.requireTags ==> t in e.tags;
        assert e in atlas;
        LatestIsOne(atlas, id, e, byId[id]);
        assert Candidate(opts, a, byId, id).Some?;
      }
      if Candidate(opts, a, byId, id).Some? {
        var e := byId[id];
        assert IsLatest(atlas, id, e) && Age(a.now, e) <= opts.maxStale;
      }
    }
  }

  /** The ids that may be returned, in the order they were found. */
  ghost function EligibleIds(opts: Opts, a: Answers, ids: seq<string>): seq<string>
    requires a.atlas.Ok?
  {
    if ids == [] then []
    else
      EligibleIds(opts, a, ids[..|ids| - 1]) + if Eligible(opts, a, ids[|ids| - 1]) then [ids[|ids| - 1]] else []
  }

  function Id(c: Instance): string {
    c.nodeId
  }

  /** The candidates are the eligible ids, each once, in the order found. */
  lemma {:induction false} CandidatesAreEligible(opts: Opts, a: Answers, ids: seq<string>)
    requires a.atlas.Ok?
    ensures Map(Id, Candidates(opts, a, Index(a.atlas.value), ids)) == EligibleIds(opts, a, ids)
  {
    if ids == [] {
    } else {
      var n := |ids| - 1;
      CandidatesAreEligible(opts, a, ids[..n]);
      CandidateIffEligible(opts, a, ids[n]);
      hide Index, Eligible, Candidate;
    }
  }

  /** As many are returned as were asked for, or all that are eligible; each was found and is eligible. */
  lemma ReturnsEligible(opts: Opts, a: Answers)
    requires a.found.Ok? && a.atlas.Ok?
    ensures var r := Located(opts, a);
            && r.Ok?
            && |r.value| == Least(if opts.want < 1 then 1 else opts.want, |EligibleIds(opts, a, a.found.value)|)
            && forall c :: c in r.value ==> c.nodeId in EligibleIds(opts, a, a.found.value)
  {
    var ids := a.found.value;
    var candidates := Candidates(opts, a, Index(a.atlas.value), ids);
    var ranked := Ranked(opts, a);
    CandidatesAreEligible(opts, a, ids);
    SortIsStable(candidates, ByScore());
    SelectedSize(opts, ranked);
    assert ids == [] ==> candidates == [];
    hide Candidates, Index, Sort, EligibleIds, Selected;
    assert |multiset(ranked)| == |multiset(candidates)|;
    forall c | c in ranked ensures c.nodeId in EligibleIds(opts, a, ids) {
      assert c in multiset(ranked) && c in candidates;
      var i :| 0 <= i < |candidates| && candidates[i] == c;
      assert Map(Id, candidates)[i] == c.nodeId;
    }
  }

  lemma SelectedSize(opts: Opts, ranked: seq<Instance>)
    ensures |Selected(opts, ranked)| == Least(Wanted(opts), |ranked|) && NoRepeats(Selected(opts, ranked))
  {
    Conserves(Keys(ranked), Scores(ranked), Wanted(opts));
  }

  // ---- order ----

  lemma RankedIsSorted(opts: Opts, a: Answers)
    requires a.found.Ok? && a.atlas.Ok?
    ensures SortedDown(Scores(Ranked(opts, a)))
  {
    SortIsStable(Candidates(opts, a, Index(a.atlas.value), a.found.value), ByScore());
    var ranked := Ranked(opts, a);
    hide Candidates, Index, Sort;
    forall i, j | 0 <= i < j < |ranked| ensures Scores(ranked)[i] >= Scores(ranked)[j] {
      assert ByScore()(ranked[i]) >= ByScore()(ranked[j]);
    }
  }

  /** Without spreading the best candidates are returned, best first. */
  lemma BestAreReturned(opts: Opts, a: Answers, i: nat, j: nat)
    requires a.found.Ok? && a.atlas.Ok? && (Wanted(opts) == 1 || !opts.spreadDomains)
    requires i < |Located(opts, a).value| <= j < |Ranked(opts, a)|
    ensures Located(opts, a).value == Ranked(opts, a)[..|Located(opts, a).value|]
    ensures Located(opts, a).value[i].score >= Ranked(opts, a)[j].score
  {
    RankedIsSorted(opts, a);
    var ranked := Ranked(opts, a);
    assert Scores(ranked)[i] >= Scores(ranked)[j];
  }

  // ---- spreading ----

  predicate SameDomain(c: Instance, d: Instance) {
    c.faultDomain.Some? && c.faultDomain == d.faultDomain
  }

  /** The domain, if any, comes from the tags. */
  predicate OwnDomain(c: Instance) {
    c.faultDomain.Some? ==> c.faultDomain == FaultDomain(c.tags)
  }

  lemma {:induction false} CandidatesHaveOwnDomains(opts: Opts, a: Answers, byId: map<string, AtlasEntry>,
                                                    ids: seq<string>)
    ensures forall c :: c in Candidates(opts, a, byId, ids) ==> OwnDomain(c)
  {
    if ids == [] {
    } else {
      CandidatesHaveOwnDomains(opts, a, byId, ids[..|ids| - 1]);
      hide FaultDomain;
    }
  }

  /** Every domain comes before the made-up keys. */
  lemma DomainIsFirst(c: Instance, n: nat)
    requires OwnDomain(c) && c.faultDomain.Some?
    ensures c.faultDomain.value != "~" + Decimal(n) && !Before("~" + Decimal(n), c.faultDomain.value)
  {
    FaultDomainIs(c.tags);
    assert "region:"[0] == 'r' && "zone:"[0] == 'z' && "asn:"[0] == 'a' && ("~" + Decimal(n))[0] == '~';
  }

  /** Two ranked candidates share a bucket exactly when both name the same domain. */
  lemma SameBucketIffSameDomain(opts: Opts, a: Answers, i: nat, j: nat)
    requires a.found.Ok? && a.atlas.Ok? && i < j < |Ranked(opts, a)|
    ensures Key(Ranked(opts, a), i) == Key(Ranked(opts, a), j) <==> SameDomain(Ranked(opts, a)[i], Ranked(opts, a)[j])
  {
    var candidates, ranked := Candidates(opts, a, Index(a.atlas.value), a.found.value), Ranked(opts, a);
    CandidatesHaveOwnDomains(opts, a, Index(a.atlas.value), a.found.value);
    SortIsStable(candidates, ByScore());
    hide Candidates, Index, Sort, OwnDomain, Descending;
    SameBucketExactly(ranked, i, j);
    forall k | k == i || k == j ensures OwnDomain(ranked[k]) {
      assert ranked[k] in multiset(ranked) && ranked[k] in candidates;
    }
    hide Ranked;
    if ranked[i].faultDomain.Some? {
      DomainIsFirst(ranked[i], j);
    }
    if ranked[j].faultDomain.Some? {
      DomainIsFirst(ranked[j], i);
    }
  }

  predicate DistinctDomains(ranked: seq<Instance>, at: seq<nat>)
    requires Within(at, |ranked|)
  {
    forall i, j :: 0 <= i < j < |at| ==> at[i] != at[j] && !SameDomain(ranked[at[i]], ranked[at[j]])
  }

  lemma DistinctDomainsAreKeys(opts: Opts, a: Answers, at: seq<nat>)
    requires a.found.Ok? && a.atlas.Ok? && Within(at, |Ranked(opts, a)|)
    ensures DistinctDomains(Ranked(opts, a), at) <==> DistinctKeys(Keys(Ranked(opts, a)), at)
  {
    var ranked := Ranked(opts, a);
    hide Ranked, SameDomain;
    forall i, j | 0 <= i < j < |at|
      ensures at[i] != at[j] && !SameDomain(ranked[at[i]], ranked[at[j]])
              <==> Keys(ranked)[at[i]] != Keys(ranked)[at[j]]
    {
      if at[i] < at[j] {
        SameBucketIffSameDomain(opts, a, at[i], at[j]);
      } else if at[j] < at[i] {
        SameBucketIffSameDomain(opts, a, at[j], at[i]);
        assert SameDomain(ranked[at[i]], ranked[at[j]]) <==> SameDomain(ranked[at[j]], ranked[at[i]]);
      }
    }
  }

  /** If the request can be met with candidates no two of which share a fault domain, it is, and by the
      best such candidates: any others have at most the same total score. */
  lemma {:induction false} SurvivesOneDomain(opts: Opts, a: Answers, other: seq<nat>)
    requires a.found.Ok? && a.atlas.Ok? && opts.spreadDomains && opts.want == |other| > 1
    requires Within(other, |Ranked(opts, a)|) && DistinctDomains(Ranked(opts, a), other)
    ensures var ranked, at := Ranked(opts, a), Selected(opts, Ranked(opts, a));
            && Located(opts, a) == Ok(Pick(ranked, at))
            && |at| == opts.want
            && DistinctDomains(ranked, at)
            && Total(Scores(ranked), other) <= Total(Scores(ranked), at)
  {
    var ranked := Ranked(opts, a);
    RankedIsSorted(opts, a);
    DistinctDomainsAreKeys(opts, a, other);
    BestSpread(Keys(ranked), Scores(ranked), other);
    DistinctDomainsAreKeys(opts, a, Selected(opts, ranked));
  }

  // ---- this node ----

  lemma RatioIsSmall(x: nat, y: nat)
    requires y > 0 && x <= y
    ensures 0.0 <= x as real / y as real <= 1.0
  {
  }

  /** A score lies between 0 and 1.001, and falls short of 1 by what is missing in capacity and recency,
      less the tiebreak. */
  lemma ScoreBounds(opts: Opts, a: Answers, id: string, e: AtlasEntry)
    requires Remote(opts, a, id, e).Some? && 0.0 <= a.jitter(id) <= 1.0
    ensures 0.0 <= Score(opts, a, id, e) <= 1.001
    ensures Score(opts, a, id, e) > 1.0 <==>
            0.6 * (1.0 - Capacity(e)) + 0.4 * (1.0 - Recency(Age(a.now, e), opts.maxStale)) < 0.001 * a.jitter(id)
  {
    var limit := if opts.maxStale < 1 then 1 else opts.maxStale;
    RatioIsSmall(Age(a.now, e), limit);
    var free := if e.cpuCores < e.runningJobs then 0 else e.cpuCores - e.runningJobs;
    assert 0.0 <= AtMostOne(free as real / 16.0) <= 1.0;
    assert 0.0 <= AtMostOne(e.memMb as real / 32_768.0) <= 1.0;
    assert 0.0 <= Capacity(e) <= 1.0;
    assert 0.0 <= Recency(Age(a.now, e), opts.maxStale) <= 1.0;
  }

  /** Who is first when one more candidate comes after the others. */
  function Leader(ranked: seq<Instance>, c: Instance): Instance {
    if ranked == [] || c.score > ranked[0].score then c else ranked[0]
  }

  /** The first of a sort is the first of the best. */
  lemma {:induction false} HeadOfSort(s: seq<Instance>, c: Instance)
    ensures Sort(s + [c], ByScore()) != []
    ensures s != [] ==> Sort(s, ByScore()) != []
    ensures Sort(s + [c], ByScore())[0] == Leader(Sort(s, ByScore()), c)
  {
    if s == [] {
      assert s + [c] == [c];
    } else {
      HeadOfSort(s[1..], c);
      assert (s + [c])[0] == s[0] && (s + [c])[1..] == s[1..] + [c];
    }
  }

  /** What a found id other than this node's scores, if it is eligible. */
  function Rival(opts: Opts, a: Answers, byId: map<string, AtlasEntry>, id: string): Option<real> {
    if Some(id) != a.local && id in byId && Remote(opts, a, id, byId[id]).Some?
    then Some(Score(opts, a, id, byId[id]))
    else None
  }

  /** No rival scores more than 1, and none found before this node scores 1. */
  predicate NoRivalAhead(opts: Opts, a: Answers, byId: map<string, AtlasEntry>, ids: seq<string>, id: string) {
    forall k :: 0 <= k < |ids| && Rival(opts, a, byId, ids[k]).Some? ==>
      var score := Rival(opts, a, byId, ids[k]).value;
      score <= 1.0 && (id !in ids[..k] ==> score < 1.0)
  }

  /** Where the ranking stands: `hosted` tells whether this node was among the ids so far, and `clear`
      whether no rival is ahead. */
  predicate Leads(hosted: bool, clear: bool, id: string, ranked: seq<Instance>) {
    if hosted then
      && ranked != [] && ranked[0].score >= 1.0
      && (ranked[0].nodeId == id <==> clear)
      && (ranked[0].nodeId == id ==> ranked[0].score == 1.0)
    else if ranked == [] then clear
    else ranked[0].nodeId != id && (ranked[0].score < 1.0 <==> clear)
  }

  /** One more candidate. */
  lemma LeadsOn(hosted: bool, clear: bool, id: string, before: seq<Instance>, candidate: Option<Instance>,
                found: string, ranked: seq<Instance>)
    requires Leads(hosted, clear, id, before)
    requires candidate.Some? ==> candidate.value.nodeId == found
    requires found == id ==> candidate.Some? && candidate.value.score == 1.0
    requires if candidate.None? then ranked == before
             else ranked != [] && ranked[0] == Leader(before, candidate.value)
    ensures var rivals := candidate.Some? && found != id;
            var score := if rivals then candidate.value.score else 0.0;
            var still := clear && (rivals ==> score <= 1.0 && (!hosted ==> score < 1.0));
            Leads(hosted || found == id, still, id, ranked)
  {
  }

  lemma OneMoreRival(opts: Opts, a: Answers, byId: map<string, AtlasEntry>, ids: seq<string>, id: string)
    requires ids != []
    ensures var n := |ids| - 1;
            NoRivalAhead(opts, a, byId, ids, id) <==>
              && NoRivalAhead(opts, a, byId, ids[..n], id)
              && (Rival(opts, a, byId, ids[n]).Some? ==>
                    var score := Rival(opts, a, byId, ids[n]).value;
                    score <= 1.0 && (id !in ids[..n] ==> score < 1.0))
  {
    var n := |ids| - 1;
    hide Rival;
    forall k | 0 <= k < n ensures ids[..n][k] == ids[k] && ids[..n][..k] == ids[..k] {
    }
  }

  lemma RivalIsCandidate(opts: Opts, a: Answers, byId: map<string, AtlasEntry>, found: string, id: string)
    requires a.local == Some(id) && opts.requireTags == []
    ensures var candidate := Candidate(opts, a, byId, found);
            && (candidate.Some? ==> candidate.value.nodeId == found)
            && (found == id ==> candidate.Some? && candidate.value.score == 1.0)
            && Rival(opts, a, byId, found)
               == if candidate.Some? && found != id then Some(candidate.value.score) else None
  {
    hide Score, FaultDomain;
  }

  /** A candidate that comes after others leads when it beats their leader. */
  lemma AddedLeads(earlier: seq<Instance>, candidate: Option<Instance>)
    ensures var before := Sort(earlier, ByScore());
            var ranked := Sort(earlier + (if candidate.Some? then [candidate.value] else []), ByScore());
            if candidate.None? then ranked == before
            else
              && ranked != []
              && ranked[0] == Leader(before, candidate.value)
  {
    match candidate {
      case Some(c) =>
        HeadOfSort(earlier, c);
        if earlier == [] {
          assert Sort(earlier, ByScore()) == [];
        }
      case None => assert earlier + [] == earlier;
    }
  }

  lemma NextLeads(opts: Opts, a: Answers, byId: map<string, AtlasEntry>, ids: seq<string>, id: string)
    requires a.local == Some(id) && opts.requireTags == [] && ids != []
    requires var others := ids[..|ids| - 1];
             Leads(id in others, NoRivalAhead(opts, a, byId, others, id), id,
                   Sort(Candidates(opts, a, byId, others), ByScore()))
    ensures Leads(id in ids, NoRivalAhead(opts, a, byId, ids, id), id, Sort(Candidates(opts, a, byId, ids), ByScore()))
  {
    var others, found := ids[..|ids| - 1], ids[|ids| - 1];
    var earlier, candidate := Candidates(opts, a, byId, others), Candidate(opts, a, byId, found);
    assert Candidates(opts, a, byId, ids) == earlier + if candidate.Some? then [candidate.value] else [];
    assert id in ids <==> id in others || found == id by {
      assert ids == others + [found];
    }
    hide *;
    OneMoreRival(opts, a, byId, ids, id);
    RivalIsCandidate(opts, a, byId, found, id);
    AddedLeads(earlier, candidate);
    LeadsOn(id in others, NoRivalAhead(opts, a, byId, others, id), id, Sort(earlier, ByScore()), candidate, found,
            Sort(Candidates(opts, a, byId, ids), ByScore()));
  }

  lemma {:induction false} AllLead(opts: Opts, a: Answers, byId: map<string, AtlasEntry>, ids: seq<string>, id: string)
    requires a.local == Some(id) && opts.requireTags == []
    ensures Leads(id in ids, NoRivalAhead(opts, a, byId, ids, id), id, Sort(Candidates(opts, a, byId, ids), ByScore()))
  {
    if ids == [] {
    } else {
      AllLead(opts, a, byId, ids[..|ids| - 1], id);
      NextLeads(opts, a, byId, ids, id);
    }
  }

  /** The ranking starts with a node that hosts the service itself exactly when no rival is ahead of it. */
  lemma {:induction false} RankedFirstIff(opts: Opts, a: Answers, id: string)
    requires a.found.Ok? && a.atlas.Ok? && a.local == Some(id) && id in a.found.value && opts.requireTags == []
    ensures Ranked(opts, a) != [] && Ranked(opts, a)[0].score >= 1.0
    ensures Ranked(opts, a)[0].nodeId == id <==> NoRivalAhead(opts, a, Index(a.atlas.value), a.found.value, id)
  {
    AllLead(opts, a, Index(a.atlas.value), a.found.value, id);
  }

  // ---- ties between buckets ----

  /** A rival that names a fault domain scores what this node does. */
  predicate TieNamesDomain(opts: Opts, a: Answers, byId: map<string, AtlasEntry>, ids: seq<string>) {
    exists k ::
      0 <= k < |ids| && Rival(opts, a, byId, ids[k]) == Some(1.0) && FaultDomain(byId[ids[k]].tags).Some?
  }

  lemma {:induction false} CandidatesFrom(opts: Opts, a: Answers, byId: map<string, AtlasEntry>, ids: seq<string>,
                                          c: Instance)
    ensures c in Candidates(opts, a, byId, ids)
       <==> exists k :: 0 <= k < |ids| && Candidate(opts, a, byId, ids[k]) == Some(c)
  {
    if ids == [] {
    } else {
      var n := |ids| - 1;
      CandidatesFrom(opts, a, byId, ids[..n], c);
      hide Candidate;
      assert forall k :: 0 <= k < n ==> ids[..n][k] == ids[k];
      if Candidate(opts, a, byId, ids[n]) == Some(c) {
        assert exists k :: 0 <= k < |ids| && Candidate(opts, a, byId, ids[k]) == Some(c);
      }
    }
  }

  lemma RankedFrom(opts: Opts, a: Answers, c: Instance)
    requires a.found.Ok? && a.atlas.Ok?
    ensures c in Ranked(opts, a)
       <==> exists k ::
              0 <= k < |a.found.value| && Candidate(opts, a, Index(a.atlas.value), a.found.value[k]) == Some(c)
  {
    var candidates := Candidates(opts, a, Index(a.atlas.value), a.found.value);
    SortIsStable(candidates, ByScore());
    CandidatesFrom(opts, a, Index(a.atlas.value), a.found.value, c);
    hide Candidates, Candidate, Index, Sort;
    assert c in Ranked(opts, a) <==> c in multiset(Ranked(opts, a));
    assert c in candidates <==> c in multiset(candidates);
  }

  /** Another node in the ranking that names a domain and scores 1. */
  ghost predicate Ties(ranked: seq<Instance>, id: string, j: int) {
    0 <= j < |ranked| && ranked[j].nodeId != id && ranked[j].score == 1.0 && ranked[j].faultDomain.Some?
  }

  lemma CandidateTies(opts: Opts, a: Answers, byId: map<string, AtlasEntry>, found: string, id: string)
    requires a.local == Some(id) && opts.requireTags == []
    ensures (Rival(opts, a, byId, found) == Some(1.0) && FaultDomain(byId[found].tags).Some?)
       <==> var c := Candidate(opts, a, byId, found);
            c.Some? && c.value.nodeId != id && c.value.score == 1.0 && c.value.faultDomain.Some?
  {
    hide Score, FaultDomain;
  }

  lemma {:induction false} TieIsRanked(opts: Opts, a: Answers, id: string)
    requires a.found.Ok? && a.atlas.Ok? && a.local == Some(id) && opts.requireTags == []
    ensures TieNamesDomain(opts, a, Index(a.atlas.value), a.found.value) <==> exists j :: Ties(Ranked(opts, a), id, j)
  {
    var byId, ids, ranked := Index(a.atlas.value), a.found.value, Ranked(opts, a);
    forall k | 0 <= k < |ids|
      ensures (Rival(opts, a, byId, ids[k]) == Some(1.0) && FaultDomain(byId[ids[k]].tags).Some?)
         <==> var c := Candidate(opts, a, byId, ids[k]);
              c.Some? && c.value.nodeId != id && c.value.score == 1.0 && c.value.faultDomain.Some?
    {
      CandidateTies(opts, a, byId, ids[k], id);
    }
    forall c: Instance
      ensures c in ranked <==> exists k :: 0 <= k < |ids| && Candidate(opts, a, byId, ids[k]) == Some(c)
    {
      RankedFrom(opts, a, c);
    }
    hide Ranked, Candidate, Rival, FaultDomain, Index;
    if j :| Ties(ranked, id, j) {
      assert ranked[j] in ranked;
      var k :| 0 <= k < |ids| && Candidate(opts, a, byId, ids[k]) == Some(ranked[j]);
    }
    if k :| 0 <= k < |ids| && Rival(opts, a, byId, ids[k]) == Some(1.0) && FaultDomain(byId[ids[k]].tags).Some? {
      var c := Candidate(opts, a, byId, ids[k]).value;
      assert c in ranked;
      var j :| 0 <= j < |ranked| && ranked[j] == c;
      assert Ties(ranked, id, j);
    }
  }

  /** What this node is given as a candidate, and where domains come from. */
  predicate Sound(ranked: seq<Instance>, id: string) {
    forall c :: c in ranked ==> OwnDomain(c) && (c.nodeId == id ==> c.score == 1.0 && c.faultDomain.None?)
  }

  lemma RankedIsSound(opts: Opts, a: Answers, id: string)
    requires a.found.Ok? && a.atlas.Ok? && a.local == Some(id) && opts.requireTags == []
    ensures Sound(Ranked(opts, a), id)
  {
    forall c | c in Ranked(opts, a) ensures OwnDomain(c) && (c.nodeId == id ==> c.score == 1.0 && c.faultDomain.None?) {
      RankedFrom(opts, a, c);
      hide Index, FaultDomain, Score;
    }
  }

  lemma {:induction false} FirstDigit(n: nat)
    ensures Decimal(n) != [] && Decimal(n)[0] >= '0'
  {
    if n >= 10 {
      FirstDigit(n / 10);
    }
  }

  /** No made-up key comes before the first one. */
  lemma FirstMadeUpKey(n: nat)
    ensures !Before("~" + Decimal(n), "~" + Decimal(0))
  {
    FirstDigit(n);
    var s, t := "~" + Decimal(n), "~" + Decimal(0);
    assert s[1..] == Decimal(n) && t[1..] == Decimal(0);
    assert Decimal(0)[1..] == [] && Decimal(0)[0] == '0';
    assert !Before(Decimal(n), Decimal(0));
  }

  /** Of the best, the least key wins: a domain, if one of them names one. */
  lemma {:induction false} LeastKeyOfTies(ranked: seq<Instance>, id: string, first: nat)
    requires ranked != [] && Sound(ranked, id) && ranked[0].score >= 1.0 && SortedDown(Scores(ranked))
    requires BestOfLeastKey(Keys(ranked), Scores(ranked), first)
    ensures ranked[first].nodeId == id <==> ranked[0].nodeId == id && !exists j :: Ties(ranked, id, j)
  {
    var keys, scores := Keys(ranked), Scores(ranked);
    assert scores[first] >= scores[0] && (first > 0 ==> scores[0] >= scores[first]);
    hide Keys, Scores, OwnDomain;
    assert keys[first] == Key(ranked, first) && keys[0] == Key(ranked, 0);
    FirstMadeUpKey(first);
    if keys[first] == keys[0] && ranked[first].faultDomain.None? && ranked[0].faultDomain.None? && first != 0 {
      SameBucketExactly(ranked, 0, first);
      assert false;
    }
    if ranked[first].nodeId == id {
      forall j | 0 <= j < |ranked| ensures !(ranked[j].score == 1.0 && ranked[j].faultDomain.Some?) {
        if ranked[j].score == 1.0 && ranked[j].faultDomain.Some? {
          assert ranked[j] in ranked && keys[j] == Key(ranked, j);
          DomainIsFirst(ranked[j], first);
          assert false;
        }
      }
    } else if ranked[0].nodeId == id {
      if ranked[first].faultDomain.None? {
        assert false;
      }
      assert Ties(ranked, id, first);
    }
  }

  /** A node that hosts the service itself comes first in what is returned if and only if no other eligible
      node scores more than 1, none that was found before it scores 1 and, when the choice is spread, none
      that names a fault domain scores 1. */
  lemma {:induction false} LocalFirstIff(opts: Opts, a: Answers, id: string)
    requires a.found.Ok? && a.atlas.Ok? && a.local == Some(id) && id in a.found.value && opts.requireTags == []
    ensures Located(opts, a).Ok? && Located(opts, a).value != []
    ensures Located(opts, a).value[0].nodeId == id
       <==> && NoRivalAhead(opts, a, Index(a.atlas.value), a.found.value, id)
            && (Wanted(opts) == 1 || !opts.spreadDomains
                || !TieNamesDomain(opts, a, Index(a.atlas.value), a.found.value))
  {
    var ranked := Ranked(opts, a);
    RankedFirstIff(opts, a, id);
    RankedIsSorted(opts, a);
    SelectedSize(opts, ranked);
    if Wanted(opts) > 1 && opts.spreadDomains {
      TieIsRanked(opts, a, id);
      RankedIsSound(opts, a, id);
      FirstChosen(Keys(ranked), Scores(ranked), Wanted(opts));
      hide Ranked, Sound, BestOfLeastKey, NoRivalAhead, TieNamesDomain, Index, Choice;
      LeastKeyOfTies(ranked, id, Selected(opts, ranked)[0]);
    } else {
      hide Ranked, NoRivalAhead, TieNamesDomain, Index;
    }
  }

  lemma IndexOfOne(atlas: seq<AtlasEntry>)
    requires |atlas| == 1
    ensures Index(atlas) == map[atlas[0].nodeId := atlas[0]]
  {
    assert atlas[..0] == [];
  }

  /** A search that finds this node and then one other. */
  lemma {:induction false} OneRival(opts: Opts, a: Answers, e: AtlasEntry, near: string)
    requires a.found == Ok([near, e.nodeId]) && a.atlas == Ok([e]) && a.local == Some(near) && near != e.nodeId
    requires opts.requireTags == []
    ensures Index([e]) == map[e.nodeId := e]
    ensures var rival := Rival(opts, a, Index([e]), e.nodeId);
            && (NoRivalAhead(opts, a, Index([e]), [near, e.nodeId], near) <==> (rival.Some? ==> rival.value <= 1.0))
            && (TieNamesDomain(opts, a, Index([e]), [near, e.nodeId])
                <==> rival == Some(1.0) && FaultDomain(e.tags).Some?)
    ensures Located(opts, a).Ok? && Located(opts, a).value != []
    ensures Located(opts, a).value[0].nodeId == near || Located(opts, a).value[0].nodeId == e.nodeId
  {
    var ids, byId := [near, e.nodeId], Index([e]);
    IndexOfOne([e]);
    hide Index, Score, FaultDomain;
    var r := Rival(opts, a, byId, e.nodeId);
    assert Rival(opts, a, byId, near) == None;
    assert ids[0] == near && ids[1] == e.nodeId && near in ids[..1];
    LocalFirstIff(opts, a, near);
    var first := Located(opts, a).value[0];
    var ranked := Ranked(opts, a);
    assert first in ranked;
    hide Ranked, Located, Rival;
    RankedFrom(opts, a, first);
  }

  /** So this node, though it is always live and no distance away, is not always preferred. */
  lemma {:induction false} LocalIsOutranked()
    ensures var e := AtlasEntry("far", [], 100, 16, 32_768, 0);
            var a := Answers(Ok(["near", "far"]), Ok([e]), Some("near"), 100, id => 0.5);
            var r := Located(Opts(1, [], 120, true), a);
            r.Ok? && r.value != [] && r.value[0].nodeId == "far"
  {
    var e := AtlasEntry("far", [], 100, 16, 32_768, 0);
    var a := Answers(Ok(["near", "far"]), Ok([e]), Some("near"), 100, id => 0.5);
    var opts := Opts(1, [], 120, true);
    OneRival(opts, a, e, "near");
    FullyFree(opts, a, e);
    LocalFirstIff(opts, a, "near");
    hide Located, Rival, NoRivalAhead, Index;
  }

  /** A node with free capacity for anything that was seen just now. */
  lemma FullyFree(opts: Opts, a: Answers, e: AtlasEntry)
    requires e.cpuCores == 16 && e.memMb == 32_768 && e.runningJobs == 0 && a.now == e.lastSeen
    requires a.local != Some(e.nodeId) && opts.requireTags == []
    ensures Rival(opts, a, map[e.nodeId := e], e.nodeId) == Some(1.0 + 0.001 * a.jitter(e.nodeId))
  {
    assert Capacity(e) == 1.0;
    assert Recency(Age(a.now, e), opts.maxStale) == 1.0;
    hide Capacity, Recency;
  }

  /** And when the choice is spread, a remote node that only scores the same goes before it. */
  lemma {:induction false} LocalLosesTheTie()
    ensures var e := AtlasEntry("far", ["region:eu"], 100, 16, 32_768, 0);
            var a := Answers(Ok(["near", "far"]), Ok([e]), Some("near"), 100, id => 0.0);
            var r := Located(Opts(3, [], 120, true), a);
            && NoRivalAhead(Opts(3, [], 120, true), a, Index([e]), ["near", "far"], "near")
            && r.Ok? && r.value != [] && r.value[0].nodeId == "far"
  {
    var e := AtlasEntry("far", ["region:eu"], 100, 16, 32_768, 0);
    var a := Answers(Ok(["near", "far"]), Ok([e]), Some("near"), 100, id => 0.0);
    var opts := Opts(3, [], 120, true);
    OneRival(opts, a, e, "near");
    FullyFree(opts, a, e);
    FaultDomainIs(e.tags);
    assert e.tags[0] == "region:eu" && "region:" <= "region:eu";
    LocalFirstIff(opts, a, "near");
    hide Located, Rival, NoRivalAhead, TieNamesDomain, Index, FaultDomain;
  }
}
