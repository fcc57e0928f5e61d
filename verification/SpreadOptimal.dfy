/** The spread makes the best choice with distinct buckets, and decides the rest by rounds, not by score. */
module SpreadOptimal {
  import opened Sorting
  import opened Spread
  import opened SpreadGroups
  import opened SpreadTheorems

  predicate SortedDown(scores: seq<real>) {
    forall i, j :: 0 <= i < j < |scores| ==> scores[i] >= scores[j]
  }

  function Total(scores: seq<real>, at: seq<nat>): real
    requires Within(at, |scores|)
  {
    if at == [] then 0.0 else Total(scores, at[..|at| - 1]) + scores[at[|at| - 1]]
  }

  predicate DistinctKeys(keys: seq<string>, at: seq<nat>)
    requires Within(at, |keys|)
  {
    forall i, j :: 0 <= i < j < |at| ==> keys[at[i]] != keys[at[j]]
  }

  /** The keys of some positions. */
  function KeysAt(keys: seq<string>, at: seq<nat>): set<string>
    requires Within(at, |keys|)
  {
    set j | 0 <= j < |at| :: keys[at[j]]
  }

  /** The keys there are. */
  function AllKeys(keys: seq<string>): set<string> {
    set j | 0 <= j < |keys| :: keys[j]
  }

  // ---- exchange ----

  lemma {:induction false} TotalAtMost(f: seq<real>, a: seq<nat>, g: seq<real>, b: seq<nat>)
    requires |a| == |b| && Within(a, |f|) && Within(b, |g|)
    requires forall j :: 0 <= j < |a| ==> f[a[j]] <= g[b[j]]
    ensures Total(f, a) <= Total(g, b)
  {
    if a == [] {
    } else {
      TotalAtMost(f, a[..|a| - 1], g, b[..|b| - 1]);
    }
  }

  function Without(at: seq<nat>, j: nat): seq<nat>
    requires j < |at|
  {
    at[..j] + at[j + 1..]
  }

  lemma {:induction false} TotalWithout(f: seq<real>, at: seq<nat>, j: nat)
    requires Within(at, |f|) && j < |at|
    ensures Within(Without(at, j), |f|) && Total(f, at) == Total(f, Without(at, j)) + f[at[j]]
  {
    var n := |at| - 1;
    if j == n {
      assert Without(at, j) == at[..n];
    } else {
      TotalWithout(f, at[..n], j);
      assert Without(at, j)[..n - 1] == Without(at[..n], j);
    }
  }

  lemma DropPlace(places: seq<nat>, j: nat)
    requires j < |places| && NoRepeats(places) && Within(places, places[j] + 1)
    ensures NoRepeats(Without(places, j)) && Within(Without(places, j), places[j])
  {
    var others := Without(places, j);
    forall i | 0 <= i < |others| ensures others[i] < places[j] {
      assert others[i] == places[if i < j then i else i + 1];
    }
    forall i, k | 0 <= i < k < |others| ensures others[i] != others[k] {
      assert others[i] == places[if i < j then i else i + 1];
      assert others[k] == places[if k < j then k else k + 1];
    }
  }

  /** A larger list gives the same total for the places of a smaller one that it starts with. */
  lemma TotalOfPrefix(f: seq<real>, m: nat, at: seq<nat>)
    requires m <= |f| && Within(at, m)
    ensures Total(f, at) == Total(f[..m], at)
  {
    TotalAtMost(f, at, f[..m], at);
    TotalAtMost(f[..m], at, f, at);
  }

  /** No choice of distinct places beats the first ones. */
  lemma {:induction false} FirstPlacesAreBest(f: seq<real>, places: seq<nat>)
    requires SortedDown(f) && Within(places, |f|) && NoRepeats(places)
    ensures |places| <= |f| && Within(UpTo(|places|), |f|) && Total(f, places) <= Total(f, UpTo(|places|))
    decreases |f|
  {
    if f == [] {
      assert places == [];
    } else {
      var m := |f| - 1;
      if j: nat :| j < |places| && places[j] == m {
        var others := Without(places, j);
        DropPlace(places, j);
        FirstPlacesAreBest(f[..m], others);
        TotalWithout(f, places, j);
        TotalOfPrefix(f, m, others);
        TotalOfPrefix(f, m, UpTo(|others|));
        OneMorePlace(f, |others|);
        assert f[|others|] >= f[m];
      } else {
        FirstPlacesAreBest(f[..m], places);
        TotalOfPrefix(f, m, places);
        TotalOfPrefix(f, m, UpTo(|places|));
      }
    }
  }

  lemma OneMorePlace(f: seq<real>, n: nat)
    requires n < |f|
    ensures Within(UpTo(n), |f|) && Within(UpTo(n + 1), |f|)
    ensures Total(f, UpTo(n + 1)) == Total(f, UpTo(n)) + f[n]
  {
    assert UpTo(n + 1)[..n] == UpTo(n);
  }

  // ---- the first round ----

  lemma {:induction false} FirstRow(b: seq<Group>)
    requires forall g :: g in b ==> g.members != []
    ensures |Row(b, 0)| == |b|
    ensures forall j :: 0 <= j < |b| ==> Row(b, 0)[j] == b[j].members[0]
  {
    if b == [] {
    } else {
      FirstRow(b[..|b| - 1]);
      assert b[|b| - 1] in b;
    }
  }

  lemma FirstRowIsFirst(b: seq<Group>)
    requires forall g :: g in b ==> g.members != []
    ensures Row(b, 0) <= Rows(b, Longest(b))
  {
    if b == [] {
      assert Row(b, 0) == [];
    } else {
      assert b[0] in b;
      assert Longest(b) >= 1;
      assert Rows(b, 1) == Row(b, 0) by {
        assert Rows(b, 0) == [];
        OneMoreRow(b, 0);
      }
      hide *;
      RowsGrow(b, 1, Longest(b));
    }
  }

  lemma {:induction false} StartsWithFirstRow(b: seq<Group>, want: nat)
    requires forall g :: g in b ==> g.members != []
    ensures |Row(b, 0)| == |b|
    ensures want <= |b| ==> Cut(Rows(b, Longest(b)), want) == Row(b, 0)[..want]
    ensures want >= |b| ==> Row(b, 0) <= Cut(Rows(b, Longest(b)), want)
  {
    FirstRow(b);
    FirstRowIsFirst(b);
    hide Row, Rows, Longest, Cut;
    CutOfLonger(Row(b, 0), Rows(b, Longest(b)), want);
  }

  lemma CutOfLonger(s: seq<nat>, t: seq<nat>, want: nat)
    requires s <= t
    ensures want <= |s| ==> Cut(t, want) == s[..want]
    ensures want >= |s| ==> s <= Cut(t, want)
  {
  }

  function GroupKeys(b: seq<Group>): set<string> {
    set j | 0 <= j < |b| :: b[j].key
  }

  lemma {:induction false} OneKeyEach(b: seq<Group>, keys: seq<string>)
    requires Proper(b, keys)
    ensures forall i, j :: 0 <= i < j < |b| ==> b[i].key != b[j].key
  {
    if b == [] {
    } else {
      var shorter, g := b[..|b| - 1], b[|b| - 1];
      DropLast(b, keys);
      OneKeyEach(shorter, keys);
      hide Proper;
      forall i, j | 0 <= i < j < |b| ensures b[i].key != b[j].key {
        assert shorter[i] in shorter && b[i] == shorter[i];
        if j < |shorter| {
          assert b[j] == shorter[j];
        }
      }
    }
  }

  lemma {:induction false} CountKeys(b: seq<Group>)
    requires forall i, j :: 0 <= i < j < |b| ==> b[i].key != b[j].key
    ensures |GroupKeys(b)| == |b|
  {
    if b == [] {
    } else {
      var shorter, g := b[..|b| - 1], b[|b| - 1];
      CountKeys(shorter);
      assert GroupKeys(b) == GroupKeys(shorter) + {g.key};
    }
  }

  lemma KeyOfGroup(b: seq<Group>, keys: seq<string>, j: nat)
    requires Exact(b, keys, |keys|) && j < |b|
    ensures b[j].key in AllKeys(keys)
  {
    assert b[j] in b;
    KeyOfMembers(b[j], keys);
    var i := b[j].members[0];
    assert keys[i] in AllKeys(keys);
  }

  lemma GroupOfKey(b: seq<Group>, keys: seq<string>, i: nat)
    requires Exact(b, keys, |keys|) && i < |keys|
    ensures keys[i] in GroupKeys(b)
  {
    assert HasKey(b, keys[i]);
    var g :| g in b && g.key == keys[i];
    var j :| 0 <= j < |b| && b[j] == g;
  }

  lemma KeysBothWays(b: seq<Group>, keys: seq<string>)
    requires Exact(b, keys, |keys|)
    ensures GroupKeys(b) == AllKeys(keys)
  {
    hide Exact;
    forall k | k in GroupKeys(b) ensures k in AllKeys(keys) {
      var j: nat :| j < |b| && b[j].key == k;
      KeyOfGroup(b, keys, j);
    }
    forall k | k in AllKeys(keys) ensures k in GroupKeys(b) {
      var i: nat :| i < |keys| && keys[i] == k;
      GroupOfKey(b, keys, i);
    }
  }

  lemma AllKeysAreBuckets(keys: seq<string>, scores: seq<real>)
    ensures var b := Buckets(keys, scores); GroupKeys(b) == AllKeys(keys) && |b| == |AllKeys(keys)|
  {
    hide Buckets, Descending, Proper, Exact, GroupKeys, AllKeys;
    var b := Buckets(keys, scores);
    ProperBuckets(keys, scores);
    OneKeyEach(b, keys);
    CountKeys(b);
    KeysBothWays(b, keys);
  }

  /** With room for it, the choice is the best candidate of each of the best buckets. */
  lemma ChoiceOfFirsts(keys: seq<string>, scores: seq<real>, want: nat)
    requires want <= |AllKeys(keys)|
    ensures var b, out := Buckets(keys, scores), Choice(keys, scores, want);
            && |out| == want <= |b|
            && forall j :: 0 <= j < want ==> b[j].members != [] && out[j] == b[j].members[0]
  {
    var b := Buckets(keys, scores);
    ProperBuckets(keys, scores);
    AllKeysAreBuckets(keys, scores);
    hide Buckets, Proper, Descending, GroupKeys, AllKeys;
    StartsWithFirstRow(b, want);
    FirstRow(b);
    forall j | 0 <= j < want ensures b[j].members != [] {
      assert b[j] in b;
    }
  }

  /** The choice reaches as many buckets as it can: all of them, or as many as were asked for. */
  lemma TouchesMostBuckets(keys: seq<string>, scores: seq<real>, want: nat)
    ensures var out := Choice(keys, scores, want);
            Within(out, |keys|) && |KeysAt(keys, out)| == Least(want, |AllKeys(keys)|)
  {
    var b, out := Buckets(keys, scores), Choice(keys, scores, want);
    Conserves(keys, scores, want);
    ProperBuckets(keys, scores);
    AllKeysAreBuckets(keys, scores);
    if want <= |AllKeys(keys)| {
      ChoiceOfFirsts(keys, scores, want);
      FirstKeys(keys, b, out);
    } else {
      StartsWithFirstRow(b, want);
      hide Buckets, Choice, Rows, Row, Longest, Cut, Descending;
      EveryKey(keys, b, out);
    }
  }

  lemma FirstKeys(keys: seq<string>, b: seq<Group>, out: seq<nat>)
    requires Proper(b, keys) && Within(out, |keys|) && |out| <= |b|
    requires forall j :: 0 <= j < |out| ==> b[j].members != [] && out[j] == b[j].members[0]
    ensures |KeysAt(keys, out)| == |out| && DistinctKeys(keys, out)
  {
    OneKeyEach(b, keys);
    forall j | 0 <= j < |out| ensures keys[out[j]] == b[j].key {
      assert b[j] in b;
      KeyOfMembers(b[j], keys);
    }
    hide Proper;
    Cardinality(keys, out);
  }

  lemma {:induction false} Cardinality(keys: seq<string>, at: seq<nat>)
    requires Within(at, |keys|) && DistinctKeys(keys, at)
    ensures |KeysAt(keys, at)| == |at|
  {
    if at == [] {
    } else {
      var shorter, last := at[..|at| - 1], at[|at| - 1];
      Cardinality(keys, shorter);
      assert KeysAt(keys, at) == KeysAt(keys, shorter) + {keys[last]};
    }
  }

  lemma EveryKey(keys: seq<string>, b: seq<Group>, out: seq<nat>)
    requires Within(out, |keys|) && Exact(b, keys, |keys|) && Row(b, 0) <= out
    ensures KeysAt(keys, out) == AllKeys(keys)
  {
    FirstRow(b);
    forall i: nat | i < |keys| ensures keys[i] in KeysAt(keys, out) {
      assert HasKey(b, keys[i]);
      var g :| g in b && g.key == keys[i];
      var j :| 0 <= j < |b| && b[j] == g;
      PositionsAre(keys, g.key, |keys|);
      assert j < |out| && out[j] == Row(b, 0)[j] == g.members[0];
      assert keys[out[j]] == keys[i];
    }
  }

  // ---- the best choice ----

  function Firsts(b: seq<Group>, scores: seq<real>): (f: seq<real>)
    ensures |f| == |b|
  {
    seq(|b|, j requires 0 <= j < |b| => BestScore(scores, b[j]))
  }

  function PlaceOf(b: seq<Group>, key: string): (p: nat)
    requires HasKey(b, key)
    ensures p < |b| && b[p].key == key
  {
    if b[0].key == key then 0
    else
      assert b == [b[0]] + b[1..];
      PlaceOf(b[1..], key) + 1
  }

  /** The bucket of each position. */
  function Places(b: seq<Group>, keys: seq<string>, at: seq<nat>): (places: seq<nat>)
    requires Within(at, |keys|) && forall j :: 0 <= j < |at| ==> HasKey(b, keys[at[j]])
    ensures |places| == |at| && forall j :: 0 <= j < |at| ==> places[j] < |b| && b[places[j]].key == keys[at[j]]
  {
    seq(|at|, j requires 0 <= j < |at| => PlaceOf(b, keys[at[j]]))
  }

  /** The head of a bucket is its best candidate. */
  lemma HeadIsBest(keys: seq<string>, scores: seq<real>, g: Group, i: nat)
    requires |scores| == |keys| && SortedDown(scores) && i < |keys|
    requires g.key == keys[i] && g.members == Positions(keys, g.key, |keys|)
    ensures g.members != [] && g.members[0] < |scores| && scores[i] <= BestScore(scores, g)
  {
    PositionsAre(keys, g.key, |keys|);
    assert i in g.members;
    var j :| 0 <= j < |g.members| && g.members[j] == i;
    assert g.members[0] <= i;
  }

  lemma {:induction false} AtMostFirsts(b: seq<Group>, keys: seq<string>, scores: seq<real>, other: seq<nat>)
    requires |scores| == |keys| && SortedDown(scores) && SortedDown(Firsts(b, scores))
    requires Proper(b, keys) && Exact(b, keys, |keys|)
    requires Within(other, |keys|) && DistinctKeys(keys, other)
    ensures |other| <= |b| && Within(UpTo(|other|), |b|)
    ensures Total(scores, other) <= Total(Firsts(b, scores), UpTo(|other|))
  {
    forall j | 0 <= j < |other| ensures HasKey(b, keys[other[j]]) {
      var i := other[j];
      assert i < |keys|;
    }
    var f, places := Firsts(b, scores), Places(b, keys, other);
    forall j | 0 <= j < |other| ensures scores[other[j]] <= f[places[j]] {
      var g := b[places[j]];
      assert g in b;
      HeadIsBest(keys, scores, g, other[j]);
    }
    hide Proper, Exact, Positions, Firsts, Places;
    TotalAtMost(scores, other, f, places);
    forall i, j | 0 <= i < j < |places| ensures places[i] != places[j] {
      assert b[places[i]].key == keys[other[i]] && b[places[j]].key == keys[other[j]];
    }
    FirstPlacesAreBest(f, places);
  }

  /** The choice has distinct buckets and the greatest total score of all choices of its size that do. */
  lemma BestSpread(keys: seq<string>, scores: seq<real>, other: seq<nat>)
    requires |scores| == |keys| && SortedDown(scores)
    requires Within(other, |keys|) && DistinctKeys(keys, other)
    ensures var out := Choice(keys, scores, |other|);
            && |out| == |other|
            && Within(out, |keys|)
            && DistinctKeys(keys, out)
            && Total(scores, other) <= Total(scores, out)
  {
    var want, b := |other|, Buckets(keys, scores);
    ProperBuckets(keys, scores);
    AllKeysAreBuckets(keys, scores);
    FirstsDescend(b, scores);
    hide *;
    AtMostFirsts(b, keys, scores, other);
    ChoiceOfFirsts(keys, scores, want);
    Conserves(keys, scores, want);
    FirstKeys(keys, b, Choice(keys, scores, want));
    AtLeastFirsts(b, scores, Choice(keys, scores, want));
  }

  lemma FirstsDescend(b: seq<Group>, scores: seq<real>)
    requires Descending(b, ByBest(scores))
    ensures SortedDown(Firsts(b, scores))
  {
    var f := Firsts(b, scores);
    forall i, j | 0 <= i < j < |f| ensures f[i] >= f[j] {
      assert ByBest(scores)(b[i]) >= ByBest(scores)(b[j]);
    }
  }

  lemma AtLeastFirsts(b: seq<Group>, scores: seq<real>, out: seq<nat>)
    requires |out| <= |b| && Within(out, |scores|)
    requires forall j :: 0 <= j < |out| ==> b[j].members != [] && out[j] == b[j].members[0]
    ensures Within(UpTo(|out|), |b|) && Total(Firsts(b, scores), UpTo(|out|)) <= Total(scores, out)
  {
    TotalAtMost(Firsts(b, scores), UpTo(|out|), scores, out);
  }
}
