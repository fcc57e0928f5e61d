/**
 What the spread promises: what it takes from each bucket, that it takes every position at most once, and
 that with room for one candidate a bucket it makes the best choice there is.
 */
module SpreadTheorems {
  import opened Sorting
  import opened Spread
  import opened SpreadGroups

  /** The chosen positions that have a key, in the order they were chosen. */
  function Of(at: seq<nat>, keys: seq<string>, key: string): seq<nat>
    requires Within(at, |keys|)
  {
    if at == [] then []
    else
      var last := at[|at| - 1];
      Of(at[..|at| - 1], keys, key) + if keys[last] == key then [last] else []
  }

  function Least(a: nat, b: nat): nat {
    if a < b then a else b
  }

  lemma {:induction false} OfAppend(a: seq<nat>, b: seq<nat>, keys: seq<string>, key: string)
    requires Within(a, |keys|) && Within(b, |keys|)
    ensures Within(a + b, |keys|) && Of(a + b, keys, key) == Of(a, keys, key) + Of(b, keys, key)
  {
    if b == [] {
      assert a + b == a;
    } else {
      OfAppend(a, b[..|b| - 1], keys, key);
      assert (a + b)[..|a + b| - 1] == a + b[..|b| - 1];
    }
  }

  /** The buckets `Buckets` makes, and any part of them. */
  ghost predicate Proper(b: seq<Group>, keys: seq<string>) {
    && OneGroupEach(b)
    && forall g :: g in b ==> g.members == Positions(keys, g.key, |keys|)
  }

  lemma DropLast(b: seq<Group>, keys: seq<string>)
    requires b != [] && Proper(b, keys)
    ensures Proper(b[..|b| - 1], keys) && !HasKey(b[..|b| - 1], b[|b| - 1].key)
  {
    var shorter, g := b[..|b| - 1], b[|b| - 1];
    hide Positions;
    assert b == shorter + [g];
    assert multiset(b) == multiset(shorter) + multiset{g};
    forall h | h in shorter ensures multiset(shorter)[h] == 1 && h.key != g.key {
      assert multiset(b)[h] == 1;
      assert multiset(shorter)[h] > 0;
    }
  }

  // ---- what a round takes ----

  /** What a round takes from a bucket. */
  function Turn(p: seq<nat>, round: nat): seq<nat> {
    if round < |p| then [p[round]] else []
  }

  lemma {:induction false} RowTakes(b: seq<Group>, keys: seq<string>, round: nat, key: string)
    requires Proper(b, keys)
    ensures Within(Row(b, round), |keys|)
    ensures Of(Row(b, round), keys, key) == if HasKey(b, key) then Turn(Positions(keys, key, |keys|), round) else []
  {
    if b != [] {
      var shorter, g := b[..|b| - 1], b[|b| - 1];
      DropLast(b, keys);
      RowTakes(shorter, keys, round, key);
      HasKeyLast(b, key);
      assert Row(b, round) == Row(shorter, round) + Turn(g.members, round);
      assert g.members == Positions(keys, g.key, |keys|);
      hide *;
      OfTurn(g, keys, round, key);
      OfAppend(Row(shorter, round), Turn(g.members, round), keys, key);
    } else {
      assert Row(b, round) == [];
    }
  }

  lemma HasKeyLast(b: seq<Group>, key: string)
    requires b != []
    ensures HasKey(b, key) <==> HasKey(b[..|b| - 1], key) || b[|b| - 1].key == key
  {
    assert b == b[..|b| - 1] + [b[|b| - 1]];
    assert b[|b| - 1] in b;
  }

  lemma OfTurn(g: Group, keys: seq<string>, round: nat, key: string)
    requires g.members == Positions(keys, g.key, |keys|)
    ensures Within(Turn(g.members, round), |keys|)
    ensures Of(Turn(g.members, round), keys, key) == if g.key == key then Turn(g.members, round) else []
  {
    PositionsAre(keys, g.key, |keys|);
    if round < |g.members| {
      var turn := [g.members[round]];
      assert turn[..|turn| - 1] == [];
    }
  }

  lemma RowTurn(b: seq<Group>, keys: seq<string>, round: nat, key: string)
    requires Proper(b, keys) && Exact(b, keys, |keys|)
    ensures Within(Row(b, round), |keys|)
    ensures Of(Row(b, round), keys, key) == Turn(Positions(keys, key, |keys|), round)
  {
    RowTakes(b, keys, round, key);
    hide Row, Of;
    FiledIsExact(b, keys, |keys|, key);
    if !HasKey(b, key) {
      NotFiled(b, key);
    }
  }

  lemma OneMoreTurn(p: seq<nat>, round: nat)
    ensures p[..Least(round, |p|)] + Turn(p, round) == p[..Least(round + 1, |p|)]
  {
  }

  /** The first rounds take, from each bucket, its best candidates in order. */
  lemma {:induction false} RowsTake(b: seq<Group>, keys: seq<string>, rounds: nat, key: string)
    requires Proper(b, keys) && Exact(b, keys, |keys|)
    ensures Within(Rows(b, rounds), |keys|)
    ensures var p := Positions(keys, key, |keys|); Of(Rows(b, rounds), keys, key) == p[..Least(rounds, |p|)]
  {
    hide Proper, Exact, Positions, Row, Turn;
    if rounds == 0 {
      assert Rows(b, 0) == [];
    } else {
      hide Rows, Of, Within, Least;
      OneMoreRow(b, rounds - 1);
      RowsTake(b, keys, rounds - 1, key);
      RowTurn(b, keys, rounds - 1, key);
      JoinTurns(Rows(b, rounds - 1), Row(b, rounds - 1), keys, rounds - 1, key);
    }
  }

  lemma JoinTurns(rows: seq<nat>, row: seq<nat>, keys: seq<string>, rounds: nat, key: string)
    requires Within(rows, |keys|) && Within(row, |keys|)
    requires var p := Positions(keys, key, |keys|);
             Of(rows, keys, key) == p[..Least(rounds, |p|)] && Of(row, keys, key) == Turn(p, rounds)
    ensures Within(rows + row, |keys|)
    ensures var p := Positions(keys, key, |keys|); Of(rows + row, keys, key) == p[..Least(rounds + 1, |p|)]
  {
    hide Of, Positions;
    OneMoreTurn(Positions(keys, key, |keys|), rounds);
    OfAppend(rows, row, keys, key);
  }

  /** A choice cut off anywhere ends inside some round. */
  lemma {:induction false} EndsInRound(b: seq<Group>, rounds: nat, out: seq<nat>) returns (round: nat)
    requires out <= Rows(b, rounds)
    ensures Rows(b, round) <= out <= Rows(b, round + 1)
  {
    if rounds == 0 {
      round := 0;
    } else if |out| <= |Rows(b, rounds - 1)| {
      round := EndsInRound(b, rounds - 1, out);
    } else {
      round := rounds - 1;
    }
  }

  lemma {:induction false} OfPrefix(a: seq<nat>, b: seq<nat>, keys: seq<string>, key: string)
    requires a <= b && Within(b, |keys|)
    ensures Within(a, |keys|) && Of(a, keys, key) <= Of(b, keys, key)
  {
    OfAppend(a, b[|a|..], keys, key);
    assert b == a + b[|a|..];
  }

  // ---- shares ----

  lemma ProperBuckets(keys: seq<string>, scores: seq<real>)
    ensures var b := Buckets(keys, scores);
            Proper(b, keys) && Exact(b, keys, |keys|) && Descending(b, ByBest(scores))
  {
    BucketsAreExact(keys, scores);
    hide Buckets, Descending, Positions, OneGroupEach;
  }

  lemma CutIsPrefix(s: seq<nat>, want: nat)
    ensures Cut(s, want) <= s && |Cut(s, want)| == Least(want, |s|)
  {
  }

  /** What the choice takes from the bucket of `key`: its best candidates in order, `round` or one more of
      them, or all of them when there are fewer. */
  ghost predicate Share(at: seq<nat>, keys: seq<string>, key: string, round: nat)
    requires Within(at, |keys|)
  {
    var share, p := Of(at, keys, key), Positions(keys, key, |keys|);
    share <= p && Least(round, |p|) <= |share| <= Least(round + 1, |p|)
  }

  lemma ShareOf(b: seq<Group>, keys: seq<string>, out: seq<nat>, round: nat, key: string)
    requires Proper(b, keys) && Exact(b, keys, |keys|)
    requires Rows(b, round) <= out <= Rows(b, round + 1)
    ensures Within(out, |keys|) && Share(out, keys, key, round)
  {
    hide Rows, Of, Positions, Proper, Exact;
    RowsTake(b, keys, round, key);
    RowsTake(b, keys, round + 1, key);
    OfPrefix(out, Rows(b, round + 1), keys, key);
    OfPrefix(Rows(b, round), out, keys, key);
  }

  /** One round number fits all buckets: every bucket gives its best `round` candidates, some one more,
      and a bucket gives fewer only when it has no more. */
  lemma FairShares(keys: seq<string>, scores: seq<real>, want: nat) returns (round: nat)
    ensures Within(Choice(keys, scores, want), |keys|)
    ensures forall key: string :: Share(Choice(keys, scores, want), keys, key, round)
  {
    var b, out := Buckets(keys, scores), Choice(keys, scores, want);
    ProperBuckets(keys, scores);
    CutIsPrefix(Rows(b, Longest(b)), want);
    hide Buckets, Rows, Longest, Cut, Share, Proper, Exact;
    round := EndsInRound(b, Longest(b), out);
    ShareOf(b, keys, out, round, "");
    forall key: string ensures Share(out, keys, key, round) {
      ShareOf(b, keys, out, round, key);
    }
  }

  /** From every bucket the best candidates are taken, in order: a candidate is never passed over for a
      worse one of its own domain. */
  lemma BestFirst(keys: seq<string>, scores: seq<real>, want: nat, key: string)
    ensures Within(Choice(keys, scores, want), |keys|)
    ensures Of(Choice(keys, scores, want), keys, key) <= Positions(keys, key, |keys|)
  {
    var round := FairShares(keys, scores, want);
    assert Share(Choice(keys, scores, want), keys, key, round);
    hide Choice, Of, Positions;
  }

  /** No bucket gives two more candidates than another, unless the other has no more to give. */
  lemma Balanced(keys: seq<string>, scores: seq<real>, want: nat, one: string, other: string)
    ensures Within(Choice(keys, scores, want), |keys|)
    ensures var out := Choice(keys, scores, want);
            || |Of(out, keys, one)| <= |Of(out, keys, other)| + 1
            || Of(out, keys, other) == Positions(keys, other, |keys|)
  {
    var round := FairShares(keys, scores, want);
    assert Share(Choice(keys, scores, want), keys, one, round);
    assert Share(Choice(keys, scores, want), keys, other, round);
    hide Choice, Of, Positions;
  }

  // ---- conservation ----

  lemma {:induction false} CountOf(at: seq<nat>, keys: seq<string>, i: nat)
    requires Within(at, |keys|) && i < |keys|
    ensures multiset(at)[i] == multiset(Of(at, keys, keys[i]))[i]
  {
    if at == [] {
    } else {
      CountOf(at[..|at| - 1], keys, i);
      assert at == at[..|at| - 1] + [at[|at| - 1]];
      assert Of(at, keys, keys[i]) == Of(at[..|at| - 1], keys, keys[i])
                                      + if keys[at[|at| - 1]] == keys[i] then [at[|at| - 1]] else [];
      hide Of;
    }
  }

  lemma OneMore(q: seq<nat>, more: seq<nat>, i: nat)
    ensures multiset(q + more)[i] == multiset(q)[i] + multiset(more)[i]
  {
    assert multiset(q + more) == multiset(q) + multiset(more);
  }

  lemma {:induction false} PositionsOnce(keys: seq<string>, i: nat, n: nat)
    requires n <= |keys| && i < |keys|
    ensures multiset(Positions(keys, keys[i], n))[i] == if i < n then 1 else 0
  {
    if n == 0 {
      assert Positions(keys, keys[i], 0) == [];
    } else {
      var more := if keys[n - 1] == keys[i] then [n - 1] else [];
      assert Positions(keys, keys[i], n) == Positions(keys, keys[i], n - 1) + more;
      hide *;
      PositionsOnce(keys, i, n - 1);
      OnlyItself(keys, i, n - 1, more);
      OneMore(Positions(keys, keys[i], n - 1), more, i);
    }
  }

  lemma OnlyItself(keys: seq<string>, i: nat, j: nat, more: seq<nat>)
    requires i < |keys| && j < |keys| && more == if keys[j] == keys[i] then [j] else []
    ensures multiset(more)[i] == if i == j then 1 else 0
  {
  }

  /** No position is chosen twice. */
  predicate NoRepeats(s: seq<nat>) {
    forall i, j :: 0 <= i < j < |s| ==> s[i] != s[j]
  }

  lemma OnceIsNoRepeats(s: seq<nat>)
    requires forall x: nat :: x in s ==> multiset(s)[x] <= 1
    ensures NoRepeats(s)
  {
    forall i, j | 0 <= i < j < |s| ensures s[i] != s[j] {
      assert s == s[..j] + s[j..];
      assert multiset(s) == multiset(s[..j]) + multiset(s[j..]);
      assert s[..j][i] == s[i] && s[j..][0] == s[j];
      assert multiset(s[..j])[s[i]] >= 1 && multiset(s[j..])[s[j]] >= 1;
      assert multiset(s)[s[i]] <= 1;
    }
  }

  lemma {:induction false} AllRowsOnce(b: seq<Group>, keys: seq<string>, i: nat)
    requires Proper(b, keys) && Exact(b, keys, |keys|) && i < |keys|
    ensures multiset(Rows(b, Longest(b)))[i] == 1
  {
    var key := keys[i];
    var p := Positions(keys, key, |keys|);
    RowsTake(b, keys, Longest(b), key);
    assert HasKey(b, key);
    var g :| g in b && g.key == key;
    assert |p| <= Longest(b);
    assert p[..|p|] == p;
    CountOf(Rows(b, Longest(b)), keys, i);
    PositionsOnce(keys, i, |keys|);
  }

  function UpTo(n: nat): (s: seq<nat>)
    ensures |s| == n
  {
    seq(n, i requires 0 <= i < n => i)
  }

  lemma {:induction false} UpToOnce(n: nat, i: nat)
    ensures multiset(UpTo(n))[i] == if i < n then 1 else 0
  {
    if n == 0 {
    } else {
      UpToOnce(n - 1, i);
      assert UpTo(n) == UpTo(n - 1) + [n - 1];
    }
  }

  lemma SameLength(s: seq<nat>, n: nat)
    requires Within(s, n) && forall i: nat :: i < n ==> multiset(s)[i] == 1
    ensures |s| == n && NoRepeats(s)
  {
    var m: multiset<nat>, all: multiset<nat> := multiset(s), multiset(UpTo(n));
    forall i: nat ensures m[i] == all[i] {
      UpToOnce(n, i);
    }
    assert m == all;
    assert |m| == |s| && |all| == n;
    OnceIsNoRepeats(s);
  }

  /** The choice has as many candidates as asked for, or all there are, and none twice. */
  lemma Conserves(keys: seq<string>, scores: seq<real>, want: nat)
    ensures var out := Choice(keys, scores, want);
            Within(out, |keys|) && NoRepeats(out) && |out| == Least(want, |keys|)
  {
    var b := Buckets(keys, scores);
    ProperBuckets(keys, scores);
    hide Buckets, Proper, Exact;
    var rows: seq<nat> := Rows(b, Longest(b));
    RowsTake(b, keys, Longest(b), "");
    hide Rows;
    forall i: nat | i < |keys| ensures multiset(rows)[i] == 1 {
      AllRowsOnce(b, keys, i);
    }
    SameLength(rows, |keys|);
    CutIsPrefix(rows, want);
  }
}
