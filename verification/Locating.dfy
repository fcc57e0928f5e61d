/** Finding and ranking live instances of a service, and calling one of them, as `src/locate.rs` does. */
module Locating {
  import opened Basics
  import opened Sorting
  import opened Spread
  import SpreadGroups
  import SpreadTheorems

  datatype AtlasEntry = AtlasEntry(
    nodeId: string,
    tags: seq<string>,
    lastSeen: nat,
    cpuCores: nat,
    memMb: nat,
    runningJobs: nat)

  datatype Opts = Opts(want: nat, requireTags: seq<string>, maxStale: nat, spreadDomains: bool)

  /** What the node answers to the queries a search makes; `jitter` is the beacon's tiebreak for a node. */
  datatype Answers = Answers(
    found: Result<seq<string>, string>,
    atlas: Result<seq<AtlasEntry>, string>,
    local: Option<string>,
    now: nat,
    jitter: string -> real)

  // ---- fault domains ----

  function FirstWith(tags: seq<string>, prefix: string): Option<string> {
    if tags == [] then None else if prefix <= tags[0] then Some(tags[0]) else FirstWith(tags[1..], prefix)
  }

  function FaultDomain(tags: seq<string>): Option<string> {
    match FirstWith(tags, "region:")
    case Some(t) => Some(t)
    case None =>
      match FirstWith(tags, "zone:")
      case Some(t) => Some(t)
      case None => FirstWith(tags, "asn:")
  }

  // ---- candidates ----

  /** The atlas by node: the last entry of a node counts. */
  function Index(atlas: seq<AtlasEntry>): map<string, AtlasEntry> {
    if atlas == [] then map[]
    else
      var last := atlas[|atlas| - 1];
      Index(atlas[..|atlas| - 1])[last.nodeId := last]
  }

  function Age(now: nat, e: AtlasEntry): nat {
    if now < e.lastSeen then 0 else now - e.lastSeen
  }

  function AtMostOne(x: real): real {
    if x < 1.0 then x else 1.0
  }

  function Capacity(e: AtlasEntry): real {
    var free := if e.cpuCores < e.runningJobs then 0 else e.cpuCores - e.runningJobs;
    AtMostOne(free as real / 16.0) * 0.5 + AtMostOne(e.memMb as real / 32_768.0) * 0.5
  }

  function Recency(age: nat, maxStale: nat): real {
    1.0 - age as real / (if maxStale < 1 then 1 else maxStale) as real
  }

  function Score(opts: Opts, a: Answers, id: string, e: AtlasEntry): real {
    0.6 * Capacity(e) + 0.4 * Recency(Age(a.now, e), opts.maxStale) + 0.001 * a.jitter(id)
  }

  function Local(opts: Opts, a: Answers, id: string): Option<Instance> {
    if opts.requireTags != [] then None else Some(Instance(id, 1.0, 0, 0, [], a.now, None))
  }

  function Remote(opts: Opts, a: Answers, id: string, e: AtlasEntry): Option<Instance> {
    if Age(a.now, e) > opts.maxStale || exists t :: t in opts.requireTags && t !in e.tags then None
    else Some(Instance(id, Score(opts, a, id, e), e.cpuCores, e.memMb, e.tags, e.lastSeen, FaultDomain(e.tags)))
  }

  /** The candidate an advertised id stands for, if any. */
  function Candidate(opts: Opts, a: Answers, byId: map<string, AtlasEntry>, id: string): Option<Instance> {
    if Some(id) == a.local then Local(opts, a, id)
    else if id in byId then Remote(opts, a, id, byId[id])
    else None
  }

  function Candidates(opts: Opts, a: Answers, byId: map<string, AtlasEntry>, ids: seq<string>): seq<Instance> {
    if ids == [] then []
    else
      Candidates(opts, a, byId, ids[..|ids| - 1])
      + match Candidate(opts, a, byId, ids[|ids| - 1]) case Some(c) => [c] case None => []
  }

  function ByScore(): Instance -> real {
    (c: Instance) => c.score
  }

  function Wanted(opts: Opts): nat {
    if opts.want < 1 then 1 else opts.want
  }

  /** The candidates for a service, best first. */
  function Ranked(opts: Opts, a: Answers): seq<Instance>
    requires a.found.Ok? && a.atlas.Ok?
  {
    Sort(Candidates(opts, a, Index(a.atlas.value), a.found.value), ByScore())
  }

  /** The positions in a ranking that are returned. */
  function Selected(opts: Opts, ranked: seq<Instance>): (at: seq<nat>)
    ensures Within(at, |ranked|)
  {
    if Wanted(opts) == 1 || !opts.spreadDomains then
      SpreadTheorems.UpTo(SpreadTheorems.Least(Wanted(opts), |ranked|))
    else
      SpreadTheorems.Conserves(Keys(ranked), Scores(ranked), Wanted(opts));
      Choice(Keys(ranked), Scores(ranked), Wanted(opts))
  }

  function Located(opts: Opts, a: Answers): Result<seq<Instance>, string> {
    if a.found.Err? then Err(a.found.error)
    else if a.found.value == [] then Ok([])
    else if a.atlas.Err? then Err(a.atlas.error)
    else Ok(Pick(Ranked(opts, a), Selected(opts, Ranked(opts, a))))
  }

  // ---- the program ----

  lemma PickMore(scored: seq<Instance>, at: seq<nat>, i: nat)
    requires Within(at, |scored|) && i < |scored|
    ensures Within(at + [i], |scored|) && Pick(scored, at + [i]) == Pick(scored, at) + [scored[i]]
  {
  }

  lemma RowMore(buckets: seq<Group>, round: nat, c: nat)
    requires c < |buckets|
    ensures Row(buckets[..c + 1], round)
            == Row(buckets[..c], round) + if round < |buckets[c].members| then [buckets[c].members[round]] else []
  {
    assert buckets[..c + 1][..c] == buckets[..c];
  }

  /** Every position a bucket holds is one of the list. */
  ghost predicate InRange(buckets: seq<Group>, n: nat) {
    forall g :: g in buckets ==> Within(g.members, n)
  }

  /** One pass over the buckets: takes from each the candidate at `round`, until there are enough. */
  method Round(scored: seq<Instance>, buckets: seq<Group>, round: nat, want: nat, before: seq<Instance>,
               ghost at: seq<nat>)
    returns (out: seq<Instance>, full: bool, tookAny: bool, ghost now: seq<nat>)
    requires InRange(buckets, |scored|) && Within(at, |scored|) && before == Pick(scored, at) && |before| <= want
    requires at == Rows(buckets, round)
    ensures Within(now, |scored|) && out == Pick(scored, now) && |out| <= want
    ensures full ==> now == Cut(Rows(buckets, Longest(buckets)), want)
    ensures !full ==> now == Rows(buckets, round + 1) && (tookAny <==> Row(buckets, round) != [])
  {
    out, tookAny, now := before, false, at;
    var c := 0;
    assert Row(buckets[..0], round) == [];
    while c < |buckets|
      invariant c <= |buckets| && |out| <= want
      invariant Within(now, |scored|) && out == Pick(scored, now)
      invariant now == Rows(buckets, round) + Row(buckets[..c], round)
      invariant tookAny <==> Row(buckets[..c], round) != []
    {
      hide Row, Rows, Longest, Cut;
      if |out| >= want {
        Reached(buckets, round, c, now, want);
        return out, true, tookAny, now;
      }
      RowMore(buckets, round, c);
      var bucket := buckets[c].members;
      if round < |bucket| {
        assert buckets[c] in buckets;
        PickMore(scored, now, bucket[round]);
        AppendAssociates(Rows(buckets, round), Row(buckets[..c], round), [bucket[round]]);
        out, now := out + [scored[bucket[round]]], now + [bucket[round]];
        tookAny := true;
      }
      c := c + 1;
    }
    assert buckets[..c] == buckets;
    OneMoreRow(buckets, round);
    return out, false, tookAny, now;
  }

  /** The choice spread over the fault domains. */
  method SpreadOut(scored: seq<Instance>, want: nat) returns (out: seq<Instance>)
    ensures Within(Choice(Keys(scored), Scores(scored), want), |scored|)
    ensures out == Pick(scored, Choice(Keys(scored), Scores(scored), want))
  {
    var keys, scores := Keys(scored), Scores(scored);
    SpreadTheorems.Conserves(keys, scores, want);
    var groups := [];
    for i := 0 to |scored|
      invariant groups == Grouped(keys, i)
    {
      groups := AddTo(groups, Key(scored, i), i);
    }
    var buckets := Sort(groups, ByBest(scores));
    assert buckets == Buckets(keys, scores);
    BucketsInRange(keys, scores);
    hide AddTo, Grouped, Sort, Row, Longest, Cut, Buckets;
    out := [];
    ghost var at := [];
    var round := 0;
    assert Rows(buckets, 0) == [];
    hide Rows;
    while true
      invariant Within(at, |scored|) && out == Pick(scored, at) && |out| <= want
      invariant at == Rows(buckets, round)
      invariant round == 0 || Row(buckets, round - 1) != []
      decreases Longest(buckets) + 1 - round
    {
      var full, tookAny;
      out, full, tookAny, at := Round(scored, buckets, round, want, out, at);
      if full {
        return;
      }
      if !tookAny {
        Exhausted(buckets, round, at, want);
        return;
      }
      RowIsEmpty(buckets, round);
      round := round + 1;
    }
  }

  lemma BucketsInRange(keys: seq<string>, scores: seq<real>)
    ensures InRange(Buckets(keys, scores), |keys|)
  {
    var b := Buckets(keys, scores);
    SpreadTheorems.ProperBuckets(keys, scores);
    hide Buckets;
    forall g | g in b ensures Within(g.members, |keys|) {
      SpreadGroups.KeyOfMembers(g, keys);
    }
  }

  /** A round that takes nothing has left nothing. */
  lemma Exhausted(buckets: seq<Group>, round: nat, at: seq<nat>, want: nat)
    requires Row(buckets, round) == [] && at == Rows(buckets, round + 1) && |at| <= want
    ensures at == Cut(Rows(buckets, Longest(buckets)), want)
  {
    RowIsEmpty(buckets, round);
    AddsNothing(buckets, round);
    var more := if Longest(buckets) > round then Longest(buckets) else round;
    EmptyRoundIsLast(buckets, round, more);
    RowsEnd(buckets, Longest(buckets), more);
  }

  /** Discovers and ranks the live instances of a service. */
  method Locate(opts: Opts, a: Answers) returns (r: Result<seq<Instance>, string>)
    ensures r == Located(opts, a)
  {
    if a.found.Err? {
      return Err(a.found.error);
    }
    var ids := a.found.value;
    if ids == [] {
      return Ok([]);
    }
    if a.atlas.Err? {
      return Err(a.atlas.error);
    }
    var atlas := a.atlas.value;
    var byId: map<string, AtlasEntry> := map[];
    for i := 0 to |atlas|
      invariant byId == Index(atlas[..i])
    {
      byId := byId[atlas[i].nodeId := atlas[i]];
      assert atlas[..i + 1][..i] == atlas[..i];
    }
    assert atlas[..|atlas|] == atlas;
    var scored := [];
    for i := 0 to |ids|
      invariant scored == Candidates(opts, a, byId, ids[..i])
    {
      var id := ids[i];
      assert ids[..i + 1][..i] == ids[..i];
      if Some(id) == a.local {
        if opts.requireTags != [] {
          continue;
        }
        scored := scored + [Instance(id, 1.0, 0, 0, [], a.now, None)];
        continue;
      }
      if id !in byId {
        continue;
      }
      var entry := byId[id];
      var age := Age(a.now, entry);
      if age > opts.maxStale {
        continue;
      }
      if exists t :: t in opts.requireTags && t !in entry.tags {
        continue;
      }
      var score := 0.6 * Capacity(entry) + 0.4 * Recency(age, opts.maxStale) + 0.001 * a.jitter(id);
      scored := scored + [Instance(id, score, entry.cpuCores, entry.memMb, entry.tags, entry.lastSeen,
                                   FaultDomain(entry.tags))];
    }
    assert ids[..|ids|] == ids;
    scored := Sort(scored, ByScore());
    assert scored == Ranked(opts, a);
    hide Candidates, Index, Sort, Choice;
    var want := Wanted(opts);
    if want == 1 || !opts.spreadDomains {
      scored := if |scored| > want then scored[..want] else scored;
      assert scored == Pick(Ranked(opts, a), SpreadTheorems.UpTo(|scored|));
      return Ok(scored);
    }
    var chosen := SpreadOut(scored, want);
    return Ok(chosen);
  }

  // ---- calling ----

  /** What asking some instances in turn comes to: the first reply counts, none after it is asked, and it
      fails only when each of them did, with the last error. */
  ghost predicate FirstReply(instances: seq<Instance>, answers: Instance -> Result<seq<bv8>, string>,
                             r: Result<seq<bv8>, string>, asked: nat)
  {
    && asked <= |instances|
    && (r.Ok? ==>
          && asked > 0 && r == answers(instances[asked - 1])
          && forall i :: 0 <= i < asked - 1 ==> answers(instances[i]).Err?)
    && (r.Err? ==> asked == |instances| && (forall i :: 0 <= i < asked ==> answers(instances[i]).Err?)
                   && (asked > 0 ==> r == answers(instances[asked - 1])))
  }

  /** Asks the instances in turn until one replies; `asked` counts the requests sent. */
  method FailOver(instances: seq<Instance>, answers: Instance -> Result<seq<bv8>, string>)
    returns (r: Result<seq<bv8>, string>, asked: nat)
    ensures FirstReply(instances, answers, r, asked)
  {
    asked := 0;
    if instances == [] {
      return Err("no live instance found"), 0;
    }
    r := Err("all instances failed");
    while asked < |instances|
      invariant asked <= |instances| && r.Err?
      invariant forall i :: 0 <= i < asked ==> answers(instances[i]).Err?
      invariant asked > 0 ==> r == answers(instances[asked - 1])
    {
      r := answers(instances[asked]);
      asked := asked + 1;
      if r.Ok? {
        return;
      }
    }
  }

  /** Finds at least three candidates, to fail over to, and sends a request to them in turn, with `answers` saying
      what each replies. */
  method Call(opts: Opts, a: Answers, answers: Instance -> Result<seq<bv8>, string>)
    returns (r: Result<seq<bv8>, string>, asked: nat)
    ensures match Located(opts.(want := if opts.want < 3 then 3 else opts.want), a)
            case Err(e) => r == Err(e) && asked == 0
            case Ok(instances) => FirstReply(instances, answers, r, asked)
  {
    var several := opts.(want := if opts.want < 3 then 3 else opts.want);
    var located := Locate(several, a);
    if located.Err? {
      return Err(located.error), 0;
    }
    r, asked := FailOver(located.value, answers);
  }
}
