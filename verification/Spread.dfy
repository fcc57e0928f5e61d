/**
 The fault-domain spread of `src/locate.rs`: candidates are grouped by domain in a map ordered by key,
 the groups ordered by their best candidate, and taken from in rounds. A candidate is named here by its
 position in the scored list, so that equal candidates stay apart.
 */
module Spread {
  import opened Basics
  import opened Sorting

  datatype Instance = Instance(
    nodeId: string,
    score: real,
    cores: nat,
    memMb: nat,
    tags: seq<string>,
    lastSeen: nat,
    faultDomain: Option<string>)

  /** A map entry: a key with the positions filed under it, in order. */
  datatype Group = Group(key: string, members: seq<nat>)

  // ---- keys ----

  function Digit(d: nat): char
    requires d < 10
  {
    '0' + d as char
  }

  function Decimal(n: nat): string {
    if n < 10 then [Digit(n)] else Decimal(n / 10) + [Digit(n % 10)]
  }

  /** The bucket of candidate `i`: its domain, or one of its own when it has none. */
  function Key(scored: seq<Instance>, i: nat): string
    requires i < |scored|
  {
    scored[i].faultDomain.GetOr("~" + Decimal(i))
  }

  function Keys(scored: seq<Instance>): (keys: seq<string>)
    ensures |keys| == |scored|
  {
    seq(|scored|, i requires 0 <= i < |scored| => Key(scored, i))
  }

  function Scores(scored: seq<Instance>): (scores: seq<real>)
    ensures |scores| == |scored|
  {
    seq(|scored|, i requires 0 <= i < |scored| => scored[i].score)
  }

  /** The order of the map: strings compared character by character. */
  predicate Before(a: string, b: string) {
    b != [] && (a == [] || a[0] < b[0] || (a[0] == b[0] && Before(a[1..], b[1..])))
  }

  // ---- grouping ----

  function AddTo(groups: seq<Group>, key: string, i: nat): (r: seq<Group>)
    ensures r != []
  {
    if groups == [] || Before(key, groups[0].key) then [Group(key, [i])] + groups
    else if groups[0].key == key then [Group(key, groups[0].members + [i])] + groups[1..]
    else [groups[0]] + AddTo(groups[1..], key, i)
  }

  /** The first `n` candidates filed under their keys. */
  function Grouped(keys: seq<string>, n: nat): seq<Group>
    requires n <= |keys|
  {
    if n == 0 then [] else AddTo(Grouped(keys, n - 1), keys[n - 1], n - 1)
  }

  function BestScore(scores: seq<real>, g: Group): real {
    if g.members != [] && g.members[0] < |scores| then scores[g.members[0]] else 0.0
  }

  function ByBest(scores: seq<real>): Group -> real {
    g => BestScore(scores, g)
  }

  function Buckets(keys: seq<string>, scores: seq<real>): seq<Group> {
    Sort(Grouped(keys, |keys|), ByBest(scores))
  }

  // ---- rounds ----

  /** What one round takes: the candidate at `round` of every bucket that has one. */
  function Row(buckets: seq<Group>, round: nat): seq<nat> {
    if buckets == [] then []
    else
      var last := buckets[|buckets| - 1].members;
      Row(buckets[..|buckets| - 1], round) + if round < |last| then [last[round]] else []
  }

  /** What the first `rounds` rounds take. */
  function Rows(buckets: seq<Group>, rounds: nat): seq<nat> {
    if rounds == 0 then [] else Rows(buckets, rounds - 1) + Row(buckets, rounds - 1)
  }

  function Longest(buckets: seq<Group>): (n: nat)
    ensures forall g :: g in buckets ==> |g.members| <= n
  {
    if buckets == [] then 0
    else
      var n := Longest(buckets[1..]);
      assert buckets == [buckets[0]] + buckets[1..];
      if |buckets[0].members| > n then |buckets[0].members| else n
  }

  function Cut(s: seq<nat>, want: nat): seq<nat> {
    if |s| > want then s[..want] else s
  }

  /** The positions chosen, in order. */
  function Choice(keys: seq<string>, scores: seq<real>, want: nat): seq<nat> {
    var buckets := Buckets(keys, scores);
    Cut(Rows(buckets, Longest(buckets)), want)
  }

  predicate Within(at: seq<nat>, n: nat) {
    forall j :: 0 <= j < |at| ==> at[j] < n
  }

  /** The candidates at some positions. */
  function Pick(scored: seq<Instance>, at: seq<nat>): (r: seq<Instance>)
    requires Within(at, |scored|)
    ensures |r| == |at|
    ensures forall j :: 0 <= j < |at| ==> r[j] == scored[at[j]]
  {
    seq(|at|, j requires 0 <= j < |at| => scored[at[j]])
  }

  // ---- what the rounds leave out ----

  lemma {:induction false} RowIsEmpty(buckets: seq<Group>, round: nat)
    ensures Row(buckets, round) == [] <==> forall g :: g in buckets ==> |g.members| <= round
  {
    if buckets == [] {
    } else {
      RowIsEmpty(buckets[..|buckets| - 1], round);
      assert buckets == buckets[..|buckets| - 1] + [buckets[|buckets| - 1]];
    }
  }

  /** Later rounds only add. */
  lemma {:induction false} RowsGrow(buckets: seq<Group>, a: nat, b: nat)
    requires a <= b
    ensures Rows(buckets, a) <= Rows(buckets, b)
  {
    if a == b {
    } else {
      RowsGrow(buckets, a, b - 1);
    }
  }

  lemma StaysEmpty(buckets: seq<Group>, a: nat, b: nat)
    requires a <= b && Row(buckets, a) == []
    ensures Row(buckets, b) == []
  {
    hide Row;
    RowIsEmpty(buckets, a);
    RowIsEmpty(buckets, b);
  }

  lemma OneMoreRow(buckets: seq<Group>, round: nat)
    ensures Rows(buckets, round + 1) == Rows(buckets, round) + Row(buckets, round)
  {
  }

  lemma AddsNothing(buckets: seq<Group>, round: nat)
    requires Row(buckets, round) == []
    ensures Rows(buckets, round + 1) == Rows(buckets, round)
  {
    OneMoreRow(buckets, round);
    hide *;
  }

  /** Nothing is left once a round takes nothing. */
  lemma {:induction false} EmptyRoundIsLast(buckets: seq<Group>, a: nat, b: nat)
    requires a <= b && Row(buckets, a) == []
    ensures Rows(buckets, b) == Rows(buckets, a)
  {
    if a == b {
    } else {
      EmptyRoundIsLast(buckets, a, b - 1);
      hide *;
      StaysEmpty(buckets, a, b - 1);
      AddsNothing(buckets, b - 1);
    }
  }

  /** However many rounds are run past the longest bucket, they take the same. */
  lemma RowsEnd(buckets: seq<Group>, a: nat, b: nat)
    requires Longest(buckets) <= a && Longest(buckets) <= b
    ensures Rows(buckets, a) == Rows(buckets, b)
  {
    RowIsEmpty(buckets, Longest(buckets));
    EmptyRoundIsLast(buckets, Longest(buckets), a);
    EmptyRoundIsLast(buckets, Longest(buckets), b);
  }

  lemma {:induction false} RowOfPrefix(buckets: seq<Group>, n: nat, round: nat)
    requires n <= |buckets|
    ensures Row(buckets[..n], round) <= Row(buckets, round)
  {
    if n < |buckets| {
      RowOfPrefix(buckets[..|buckets| - 1], n, round);
      assert buckets[..|buckets| - 1][..n] == buckets[..n];
    } else {
      assert buckets[..n] == buckets;
    }
  }

  lemma PrefixAfter(s: seq<nat>, a: seq<nat>, b: seq<nat>)
    requires a <= b
    ensures s + a <= s + b
  {
  }

  lemma PrefixIsCut(s: seq<nat>, t: seq<nat>)
    requires s <= t
    ensures s == Cut(t, |s|)
  {
  }

  lemma Chain(s: seq<nat>, t: seq<nat>, u: seq<nat>)
    requires s <= t <= u
    ensures s <= u
  {
  }

  /** A full output that the rounds have reached is the output. */
  lemma Reached(buckets: seq<Group>, round: nat, c: nat, out: seq<nat>, want: nat)
    requires c <= |buckets| && out == Rows(buckets, round) + Row(buckets[..c], round) && |out| == want
    ensures out == Cut(Rows(buckets, Longest(buckets)), want)
  {
    assert out <= Rows(buckets, round + 1) by {
      RowOfPrefix(buckets, c, round);
      OneMoreRow(buckets, round);
      hide Row, Rows;
      PrefixAfter(Rows(buckets, round), Row(buckets[..c], round), Row(buckets, round));
    }
    hide *;
    var more := if Longest(buckets) > round + 1 then Longest(buckets) else round + 1;
    RowsGrow(buckets, round + 1, more);
    RowsEnd(buckets, Longest(buckets), more);
    Chain(out, Rows(buckets, round + 1), Rows(buckets, more));
    PrefixIsCut(out, Rows(buckets, more));
  }
}
