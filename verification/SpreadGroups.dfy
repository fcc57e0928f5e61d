/**
 The buckets of the spread: which candidates share one, and that grouping and ordering lose nothing: each
 bucket is the list of the positions of its key.
 */
module SpreadGroups {
  import opened Basics
  import opened Sorting
  import opened Spread

  // ---- keys ----

  lemma {:induction false} DecimalIsInjective(a: nat, b: nat)
    requires Decimal(a) == Decimal(b)
    ensures a == b
  {
    NotEmpty(a / 10);
    NotEmpty(b / 10);
    var s, t := Decimal(a), Decimal(b);
    assert s[|s| - 1] == Digit(a % 10) && t[|t| - 1] == Digit(b % 10);
    assert a % 10 == b % 10;
    if a >= 10 && b >= 10 {
      assert s[..|s| - 1] == Decimal(a / 10) && t[..|t| - 1] == Decimal(b / 10);
      DecimalIsInjective(a / 10, b / 10);
    }
  }

  lemma NotEmpty(n: nat)
    ensures Decimal(n) != []
  {
  }

  /** Two candidates share a bucket exactly when they name the same domain, or one names, as its domain,
      the bucket made up for the other. */
  lemma SameBucketExactly(scored: seq<Instance>, i: nat, j: nat)
    requires i < j < |scored|
    ensures Key(scored, i) == Key(scored, j) <==>
            || (scored[i].faultDomain.Some? && scored[i].faultDomain == scored[j].faultDomain)
            || (scored[i].faultDomain.None? && scored[j].faultDomain == Some("~" + Decimal(i)))
            || (scored[j].faultDomain.None? && scored[i].faultDomain == Some("~" + Decimal(j)))
  {
    if scored[i].faultDomain.None? && scored[j].faultDomain.None? && Key(scored, i) == Key(scored, j) {
      assert Key(scored, i)[1..] == Decimal(i) && Key(scored, j)[1..] == Decimal(j);
      DecimalIsInjective(i, j);
    }
  }

  // ---- the order of the map ----

  lemma {:induction false} BeforeIsTotal(a: string, b: string)
    ensures Before(a, b) || a == b || Before(b, a)
  {
    if a != [] && b != [] && a[0] == b[0] {
      BeforeIsTotal(a[1..], b[1..]);
      assert a == [a[0]] + a[1..] && b == [b[0]] + b[1..];
    }
  }

  lemma {:induction false} BeforeIsStrict(a: string)
    ensures !Before(a, a)
  {
    if a == [] {
    } else {
      BeforeIsStrict(a[1..]);
    }
  }

  lemma {:induction false} BeforeIsTransitive(a: string, b: string, c: string)
    requires Before(a, b) && Before(b, c)
    ensures Before(a, c)
  {
    if a != [] && a[0] == b[0] && b[0] == c[0] {
      BeforeIsTransitive(a[1..], b[1..], c[1..]);
    }
  }

  // ---- grouping ----

  /** The groups stand in the order of their keys. */
  predicate Ascending(groups: seq<Group>) {
    groups == [] || ((forall g :: g in groups[1..] ==> Before(groups[0].key, g.key)) && Ascending(groups[1..]))
  }

  predicate HasKey(groups: seq<Group>, key: string) {
    exists g :: g in groups && g.key == key
  }

  /** What is filed under a key. */
  function Filed(groups: seq<Group>, key: string): seq<nat> {
    if groups == [] then [] else if groups[0].key == key then groups[0].members else Filed(groups[1..], key)
  }

  /** Every group holds what is filed under its key: no key has two groups. */
  ghost predicate OneGroupEach(groups: seq<Group>) {
    && (forall g :: g in groups ==> multiset(groups)[g] == 1)
    && (forall g, h :: g in groups && h in groups && g.key == h.key ==> g == h)
  }

  lemma {:induction false} AscendingIsOneEach(groups: seq<Group>)
    requires Ascending(groups)
    ensures OneGroupEach(groups)
  {
    if groups == [] {
    } else {
      AscendingIsOneEach(groups[1..]);
      BeforeIsStrict(groups[0].key);
      assert groups == [groups[0]] + groups[1..];
    }
  }

  lemma {:induction false} NotFiled(groups: seq<Group>, key: string)
    requires !HasKey(groups, key)
    ensures Filed(groups, key) == []
  {
    if groups == [] {
    } else {
      assert groups[0] in groups;
      assert !HasKey(groups[1..], key);
      NotFiled(groups[1..], key);
    }
  }

  /** What filing one more candidate does to the groups. */
  ghost predicate Files(groups: seq<Group>, key: string, i: nat, r: seq<Group>) {
    && (forall g :: g in r && g.key != key ==> g in groups)
    && (forall g :: g in groups && g.key != key ==> g in r)
    && (forall g :: g in r && g.key == key ==> g.members == Filed(groups, key) + [i])
    && HasKey(r, key)
  }

  lemma BeforeFirst(groups: seq<Group>, key: string)
    requires groups != [] && Ascending(groups) && Before(key, groups[0].key)
    ensures !HasKey(groups, key) && forall g :: g in groups ==> Before(key, g.key)
  {
    forall g | g in groups ensures Before(key, g.key) {
      if g != groups[0] {
        assert g in groups[1..];
        BeforeIsTransitive(key, groups[0].key, g.key);
      }
    }
    BeforeIsStrict(key);
  }

  lemma {:induction false} AddToFiles(groups: seq<Group>, key: string, i: nat)
    requires Ascending(groups)
    ensures Ascending(AddTo(groups, key, i)) && Files(groups, key, i, AddTo(groups, key, i))
  {
    var r := AddTo(groups, key, i);
    if groups == [] {
      assert r == [Group(key, [i])] && r[0] in r;
    } else if Before(key, groups[0].key) {
      BeforeFirst(groups, key);
      NotFiled(groups, key);
      assert r[0] in r && r[1..] == groups;
    } else if groups[0].key == key {
      BeforeIsStrict(key);
      assert r[0] in r && r[1..] == groups[1..];
      assert groups == [groups[0]] + groups[1..];
    } else {
      BeforeIsTotal(key, groups[0].key);
      AddToFiles(groups[1..], key, i);
      var rest := AddTo(groups[1..], key, i);
      assert r[1..] == rest;
      assert groups == [groups[0]] + groups[1..];
      forall g | g in rest ensures Before(groups[0].key, g.key) {
        if g.key != key {
          assert g in groups[1..];
        }
      }
    }
  }

  /** The first `n` positions with a key, in order. */
  function Positions(keys: seq<string>, key: string, n: nat): seq<nat>
    requires n <= |keys|
  {
    if n == 0 then [] else Positions(keys, key, n - 1) + if keys[n - 1] == key then [n - 1] else []
  }

  /** The positions below `n` with a key, ascending. */
  ghost predicate AreAll(p: seq<nat>, keys: seq<string>, key: string, n: nat)
    requires n <= |keys|
  {
    && (forall j :: 0 <= j < |p| ==> p[j] < n && keys[p[j]] == key)
    && (forall i, j :: 0 <= i < j < |p| ==> p[i] < p[j])
    && (forall i: nat :: i < n && keys[i] == key ==> i in p)
  }

  lemma AddPosition(q: seq<nat>, keys: seq<string>, key: string, n: nat)
    requires n < |keys| && AreAll(q, keys, key, n) && keys[n] == key
    ensures AreAll(q + [n], keys, key, n + 1)
  {
    assert (q + [n])[|q|] == n;
  }

  lemma SkipPosition(q: seq<nat>, keys: seq<string>, key: string, n: nat)
    requires n < |keys| && AreAll(q, keys, key, n) && keys[n] != key
    ensures AreAll(q, keys, key, n + 1)
  {
  }

  lemma {:induction false} PositionsAre(keys: seq<string>, key: string, n: nat)
    requires n <= |keys|
    ensures AreAll(Positions(keys, key, n), keys, key, n)
  {
    if n == 0 {
    } else {
      var q := Positions(keys, key, n - 1);
      PositionsAre(keys, key, n - 1);
      if keys[n - 1] == key {
        AddPosition(q, keys, key, n - 1);
      } else {
        SkipPosition(q, keys, key, n - 1);
        assert q + [] == q;
      }
      hide AreAll;
    }
  }

  lemma KeyOfMembers(g: Group, keys: seq<string>)
    requires g.members == Positions(keys, g.key, |keys|)
    ensures forall j :: 0 <= j < |g.members| ==> g.members[j] < |keys| && keys[g.members[j]] == g.key
  {
    PositionsAre(keys, g.key, |keys|);
  }

  lemma {:induction false} NoPositions(keys: seq<string>, key: string, n: nat)
    requires n <= |keys| && forall i: nat :: i < n ==> keys[i] != key
    ensures Positions(keys, key, n) == []
  {
    if n == 0 {
    } else {
      NoPositions(keys, key, n - 1);
    }
  }

  /** Every group is the list of positions of its key, and every key has a group. */
  ghost predicate Exact(groups: seq<Group>, keys: seq<string>, n: nat)
    requires n <= |keys|
  {
    && (forall g :: g in groups ==> g.members == Positions(keys, g.key, n) && g.members != [])
    && (forall i: nat :: i < n ==> HasKey(groups, keys[i]))
  }

  lemma {:induction false} FiledIs(groups: seq<Group>, keys: seq<string>, n: nat, key: string)
    requires n <= |keys|
    requires forall g :: g in groups ==> g.members == Positions(keys, g.key, n)
    ensures HasKey(groups, key) ==> Filed(groups, key) == Positions(keys, key, n)
  {
    if groups != [] && groups[0].key != key {
      FiledIs(groups[1..], keys, n, key);
      assert groups == [groups[0]] + groups[1..];
    }
  }

  lemma FiledIsExact(groups: seq<Group>, keys: seq<string>, n: nat, key: string)
    requires n <= |keys| && Exact(groups, keys, n)
    ensures Filed(groups, key) == Positions(keys, key, n)
  {
    FiledIs(groups, keys, n, key);
    if !HasKey(groups, key) {
      NotFiled(groups, key);
      forall i: nat | i < n ensures keys[i] != key {
        assert HasKey(groups, keys[i]);
      }
      NoPositions(keys, key, n);
    }
  }

  lemma AddToIsExact(groups: seq<Group>, keys: seq<string>, n: nat)
    requires n < |keys| && Ascending(groups) && Exact(groups, keys, n)
    ensures Exact(AddTo(groups, keys[n], n), keys, n + 1)
  {
    var key, r := keys[n], AddTo(groups, keys[n], n);
    AddToFiles(groups, key, n);
    FiledIsExact(groups, keys, n, key);
    hide AddTo, Filed, Ascending;
    KeysStay(groups, keys, n, r);
    MembersStay(groups, keys, n, r);
    hide HasKey, Files, Positions;
  }

  lemma MembersStay(groups: seq<Group>, keys: seq<string>, n: nat, r: seq<Group>)
    requires n < |keys| && Exact(groups, keys, n) && Files(groups, keys[n], n, r)
    requires Filed(groups, keys[n]) == Positions(keys, keys[n], n)
    ensures forall g :: g in r ==> g.members == Positions(keys, g.key, n + 1) && g.members != []
  {
    hide Filed, HasKey;
    forall g | g in r ensures g.members == Positions(keys, g.key, n + 1) && g.members != [] {
      assert Positions(keys, g.key, n + 1) == Positions(keys, g.key, n) + if keys[n] == g.key then [n] else [];
      hide Positions;
      if g.key != keys[n] {
        assert g in groups;
      }
    }
  }

  lemma KeysStay(groups: seq<Group>, keys: seq<string>, n: nat, r: seq<Group>)
    requires n < |keys| && Exact(groups, keys, n) && Files(groups, keys[n], n, r)
    ensures forall i: nat :: i < n + 1 ==> HasKey(r, keys[i])
  {
    hide Positions, Filed;
    forall i: nat | i < n + 1 ensures HasKey(r, keys[i]) {
      if i < n && keys[i] != keys[n] {
        var g :| g in groups && g.key == keys[i];
        assert g in r;
      }
    }
  }

  /** Grouping keeps the score order within each domain, and loses and invents nothing. */
  lemma {:induction false} GroupedIsExact(keys: seq<string>, n: nat)
    requires n <= |keys|
    ensures Ascending(Grouped(keys, n)) && Exact(Grouped(keys, n), keys, n)
  {
    if n == 0 {
      assert Grouped(keys, 0) == [];
    } else {
      GroupedIsExact(keys, n - 1);
      assert Grouped(keys, n) == AddTo(Grouped(keys, n - 1), keys[n - 1], n - 1);
      hide *;
      AddToFiles(Grouped(keys, n - 1), keys[n - 1], n - 1);
      AddToIsExact(Grouped(keys, n - 1), keys, n - 1);
    }
  }

  lemma BucketsAreGroups(keys: seq<string>, scores: seq<real>)
    ensures multiset(Buckets(keys, scores)) == multiset(Grouped(keys, |keys|))
    ensures Descending(Buckets(keys, scores), ByBest(scores))
  {
    SortIsStable(Grouped(keys, |keys|), ByBest(scores));
  }

  lemma Reordered(a: seq<Group>, b: seq<Group>, keys: seq<string>)
    requires multiset(a) == multiset(b) && OneGroupEach(a) && Exact(a, keys, |keys|)
    ensures OneGroupEach(b) && Exact(b, keys, |keys|)
  {
    hide Positions;
    forall g ensures g in b <==> g in a {
      assert g in b <==> g in multiset(b);
      assert g in a <==> g in multiset(a);
    }
    forall i: nat | i < |keys| ensures HasKey(b, keys[i]) {
      var g :| g in a && g.key == keys[i];
      assert g in b;
    }
  }

  lemma BucketsAreExact(keys: seq<string>, scores: seq<real>)
    ensures var b := Buckets(keys, scores);
            OneGroupEach(b) && Exact(b, keys, |keys|) && Descending(b, ByBest(scores))
  {
    hide *;
    GroupedIsExact(keys, |keys|);
    AscendingIsOneEach(Grouped(keys, |keys|));
    BucketsAreGroups(keys, scores);
    Reordered(Grouped(keys, |keys|), Buckets(keys, scores), keys);
  }
}
