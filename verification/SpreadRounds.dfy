/** Who is chosen when there are more to choose than buckets: rounds decide, and only then scores. */
module SpreadRounds {
  import opened Sorting
  import opened Spread
  import opened SpreadGroups
  import opened SpreadTheorems
  import opened SpreadOptimal

  /** How many better candidates share the bucket of candidate `i`. */
  function Rank(keys: seq<string>, i: nat): nat
    requires i < |keys|
  {
    |Positions(keys, keys[i], i)|
  }

  /** The best score in the bucket of candidate `i`. */
  function HeadScore(keys: seq<string>, scores: seq<real>, i: nat): real
    requires i < |keys|
  {
    BestScore(scores, Group(keys[i], Positions(keys, keys[i], |keys|)))
  }

  lemma {:induction false} RankIsPlace(keys: seq<string>, i: nat, n: nat)
    requires i < n <= |keys|
    ensures var p := Positions(keys, keys[i], n); Rank(keys, i) < |p| && p[Rank(keys, i)] == i
  {
    if n > i + 1 {
      RankIsPlace(keys, i, n - 1);
    }
  }

  /** `from` names the bucket each entry of a round comes from. */
  ghost predicate Sources(b: seq<Group>, round: nat, row: seq<nat>, from: seq<nat>) {
    && |from| == |row|
    && (forall p :: 0 <= p < |from| ==>
         from[p] < |b| && round < |b[from[p]].members| && row[p] == b[from[p]].members[round])
    && (forall p, q :: 0 <= p < q < |from| ==> from[p] < from[q])
  }

  lemma {:induction false} RowSources(b: seq<Group>, round: nat) returns (from: seq<nat>)
    ensures Sources(b, round, Row(b, round), from)
  {
    if b == [] {
      from := [];
    } else {
      var n := |b| - 1;
      var last := b[n].members;
      from := RowSources(b[..n], round);
      var row := Row(b[..n], round);
      assert Row(b, round) == row + if round < |last| then [last[round]] else [];
      hide Row;
      assert Sources(b, round, row, from);
      if round < |last| {
        from := from + [n];
      }
    }
  }

  lemma SourceScore(b: seq<Group>, keys: seq<string>, scores: seq<real>, round: nat, x: nat)
    requires Proper(b, keys) && x < |b| && round < |b[x].members|
    ensures b[x].members[round] < |keys|
    ensures HeadScore(keys, scores, b[x].members[round]) == BestScore(scores, b[x])
  {
    var g := b[x];
    assert g in b;
    KeyOfMembers(g, keys);
    hide Positions, OneGroupEach;
    assert keys[g.members[round]] == g.key;
    assert g == Group(g.key, g.members);
  }

  // ---- the order of the rounds ----

  /** The order in which candidates are taken: by rank, then by the best score of the bucket, then by the
      bucket's key. */
  predicate Precedes(keys: seq<string>, scores: seq<real>, i: nat, j: nat)
    requires i < |keys| && j < |keys|
  {
    || Rank(keys, i) < Rank(keys, j)
    || (&& Rank(keys, i) == Rank(keys, j)
        && (|| HeadScore(keys, scores, i) > HeadScore(keys, scores, j)
            || (HeadScore(keys, scores, i) == HeadScore(keys, scores, j) && Before(keys[i], keys[j]))))
  }

  predicate Ahead(scores: seq<real>, g: Group, h: Group) {
    BestScore(scores, g) > BestScore(scores, h)
    || (BestScore(scores, g) == BestScore(scores, h) && Before(g.key, h.key))
  }

  predicate InOrder(b: seq<Group>, scores: seq<real>) {
    b == [] || ((forall g :: g in b[1..] ==> Ahead(scores, b[0], g)) && InOrder(b[1..], scores))
  }

  lemma {:induction false} InsertInOrder(x: Group, b: seq<Group>, scores: seq<real>)
    requires InOrder(b, scores) && forall g :: g in b ==> Before(x.key, g.key)
    ensures InOrder(Insert(x, b, ByBest(scores)), scores)
  {
    if b == [] {
      assert Insert(x, b, ByBest(scores)) == [x];
    } else if ByBest(scores)(b[0]) <= ByBest(scores)(x) {
      assert ([x] + b)[1..] == b;
      forall g | g in b ensures Ahead(scores, x, g) {
        if g != b[0] {
          assert g in b[1..];
        }
      }
    } else {
      var others := Insert(x, b[1..], ByBest(scores));
      assert b == [b[0]] + b[1..];
      InsertInOrder(x, b[1..], scores);
      InsertKeepsItems(x, b[1..], ByBest(scores));
      assert ([b[0]] + others)[1..] == others;
      forall g | g in others ensures Ahead(scores, b[0], g) {
        assert g in multiset(others);
        assert g == x || g in b[1..];
      }
    }
  }

  /** Buckets of equal best score keep the order of their keys. */
  lemma {:induction false} SortInOrder(groups: seq<Group>, scores: seq<real>)
    requires Ascending(groups)
    ensures InOrder(Sort(groups, ByBest(scores)), scores)
  {
    if groups == [] {
    } else {
      var others := Sort(groups[1..], ByBest(scores));
      SortInOrder(groups[1..], scores);
      SortIsStable(groups[1..], ByBest(scores));
      forall g | g in others ensures Before(groups[0].key, g.key) {
        assert g in multiset(others);
        assert g in groups[1..];
      }
      hide Sort, Descending, SameByScore;
      InsertInOrder(groups[0], others, scores);
      assert Sort(groups, ByBest(scores)) == Insert(groups[0], others, ByBest(scores)) by {
        SortFirst(groups, scores);
      }
    }
  }

  lemma SortFirst(groups: seq<Group>, scores: seq<real>)
    requires groups != []
    ensures Sort(groups, ByBest(scores)) == Insert(groups[0], Sort(groups[1..], ByBest(scores)), ByBest(scores))
  {
  }

  lemma {:induction false} InOrderAt(b: seq<Group>, scores: seq<real>, x: nat, y: nat)
    requires InOrder(b, scores) && x < y < |b|
    ensures Ahead(scores, b[x], b[y])
  {
    if x == 0 {
      assert b[y] == b[1..][y - 1];
    } else {
      InOrderAt(b[1..], scores, x - 1, y - 1);
    }
  }

  lemma BucketsInOrder(keys: seq<string>, scores: seq<real>)
    ensures InOrder(Buckets(keys, scores), scores)
  {
    GroupedIsExact(keys, |keys|);
    hide Grouped, InOrder, Exact, Ascending;
    SortInOrder(Grouped(keys, |keys|), scores);
  }

  /** A member's place in its bucket is its rank. */
  lemma RankOfMember(keys: seq<string>, g: Group, round: nat)
    requires g.members == Positions(keys, g.key, |keys|) && round < |g.members|
    ensures g.members[round] < |keys| && keys[g.members[round]] == g.key && Rank(keys, g.members[round]) == round
  {
    PositionsAre(keys, g.key, |keys|);
    var i := g.members[round];
    RankIsPlace(keys, i, |keys|);
    hide Positions, Rank;
  }

  /** One round is in order, and takes the candidates of its rank. */
  lemma RowInOrder(b: seq<Group>, keys: seq<string>, scores: seq<real>, round: nat)
    requires Proper(b, keys) && InOrder(b, scores)
    ensures Within(Row(b, round), |keys|)
    ensures forall p :: 0 <= p < |Row(b, round)| ==> Rank(keys, Row(b, round)[p]) == round
    ensures forall p, q :: 0 <= p < q < |Row(b, round)| ==> Precedes(keys, scores, Row(b, round)[p], Row(b, round)[q])
  {
    RowTakes(b, keys, round, "");
    var row := Row(b, round);
    var from := RowSources(b, round);
    hide Row, InOrder, Rank, HeadScore, OneGroupEach, Of;
    forall p | 0 <= p < |row| ensures Rank(keys, row[p]) == round {
      assert b[from[p]] in b;
      RankOfMember(keys, b[from[p]], round);
    }
    forall p, q | 0 <= p < q < |row| ensures Precedes(keys, scores, row[p], row[q]) {
      RowPair(b, keys, scores, round, from[p], from[q]);
    }
  }

  lemma RowPair(b: seq<Group>, keys: seq<string>, scores: seq<real>, round: nat, x: nat, y: nat)
    requires Proper(b, keys) && InOrder(b, scores) && x < y < |b| && round < |b[x].members| && round < |b[y].members|
    ensures b[x].members[round] < |keys| && b[y].members[round] < |keys|
    ensures Precedes(keys, scores, b[x].members[round], b[y].members[round])
  {
    assert b[x] in b && b[y] in b;
    InOrderAt(b, scores, x, y);
    SourceScore(b, keys, scores, round, x);
    SourceScore(b, keys, scores, round, y);
    hide InOrder, Rank, HeadScore, Positions, OneGroupEach;
    RankOfMember(keys, b[x], round);
    RankOfMember(keys, b[y], round);
  }

  /** So are all rounds together. */
  ghost predicate TakenInOrder(keys: seq<string>, scores: seq<real>, rows: seq<nat>, rounds: nat) {
    && Within(rows, |keys|)
    && (forall p :: 0 <= p < |rows| ==> Rank(keys, rows[p]) < rounds)
    && (forall p, q :: 0 <= p < q < |rows| ==> Precedes(keys, scores, rows[p], rows[q]))
  }

  lemma AddRow(keys: seq<string>, scores: seq<real>, rows: seq<nat>, row: seq<nat>, rounds: nat)
    requires TakenInOrder(keys, scores, rows, rounds) && Within(row, |keys|)
    requires forall p :: 0 <= p < |row| ==> Rank(keys, row[p]) == rounds
    requires forall p, q :: 0 <= p < q < |row| ==> Precedes(keys, scores, row[p], row[q])
    ensures TakenInOrder(keys, scores, rows + row, rounds + 1)
  {
    hide Rank, HeadScore;
  }

  lemma {:induction false} RowsInOrder(b: seq<Group>, keys: seq<string>, scores: seq<real>, rounds: nat)
    requires Proper(b, keys) && InOrder(b, scores)
    ensures TakenInOrder(keys, scores, Rows(b, rounds), rounds)
  {
    hide Proper, InOrder, Row, Rank, Precedes;
    if rounds == 0 {
      assert Rows(b, 0) == [];
    } else {
      OneMoreRow(b, rounds - 1);
      hide *;
      RowsInOrder(b, keys, scores, rounds - 1);
      RowInOrder(b, keys, scores, rounds - 1);
      AddRow(keys, scores, Rows(b, rounds - 1), Row(b, rounds - 1), rounds - 1);
    }
  }

  lemma PrecedesIsStrict(keys: seq<string>, scores: seq<real>, i: nat, j: nat)
    requires i < |keys| && j < |keys| && Precedes(keys, scores, i, j)
    ensures !Precedes(keys, scores, j, i) && i != j
  {
    hide Rank, HeadScore;
    BeforeIsStrict(keys[i]);
    if Before(keys[i], keys[j]) && Before(keys[j], keys[i]) {
      BeforeIsTransitive(keys[i], keys[j], keys[i]);
    }
  }

  /** All candidates in the order in which they are taken; the choice is cut from it. */
  lemma Order(keys: seq<string>, scores: seq<real>) returns (rows: seq<nat>)
    ensures forall want: nat :: Choice(keys, scores, want) == Cut(rows, want)
    ensures Within(rows, |keys|) && (forall i: nat :: i < |keys| ==> i in rows)
    ensures forall p, q :: 0 <= p < q < |rows| ==> Precedes(keys, scores, rows[p], rows[q])
  {
    var b := Buckets(keys, scores);
    ProperBuckets(keys, scores);
    BucketsInOrder(keys, scores);
    rows := Rows(b, Longest(b));
    RowsInOrder(b, keys, scores, Longest(b));
    hide Buckets, Proper, Exact, InOrder, Rows, Longest, Precedes, Rank;
    forall i: nat | i < |keys| ensures i in rows {
      AllRowsOnce(b, keys, i);
      assert i in multiset(rows);
    }
  }

  /** Who is chosen precedes who is not; and whoever precedes another is chosen without it by some count. */
  lemma {:induction false} ChosenIffPrecedes(keys: seq<string>, scores: seq<real>, i: nat, j: nat)
    requires i < |keys| && j < |keys|
    ensures Precedes(keys, scores, i, j)
            <==> exists want: nat :: i in Choice(keys, scores, want) && j !in Choice(keys, scores, want)
  {
    var rows := Order(keys, scores);
    hide Precedes, Choice;
    assert i in rows && j in rows;
    var p: nat :| p < |rows| && rows[p] == i;
    var q: nat :| q < |rows| && rows[q] == j;
    if Precedes(keys, scores, i, j) {
      PrecedesIsStrict(keys, scores, i, j);
      assert p < q;
      var out := Choice(keys, scores, p + 1);
      assert out == rows[..p + 1] && out[p] == i;
      forall k | 0 <= k < |out| ensures out[k] != j {
        if out[k] == j {
          assert Precedes(keys, scores, rows[k], rows[q]) || k == q;
          PrecedesIsStrict(keys, scores, j, j);
        }
      }
    }
    if want: nat :| i in Choice(keys, scores, want) && j !in Choice(keys, scores, want) {
      var out := Choice(keys, scores, want);
      var k :| 0 <= k < |out| && out[k] == i;
      assert rows[k] == i;
      assert q >= |out| by {
        assert forall m :: 0 <= m < |out| ==> out[m] == rows[m] && out[m] in out;
      }
    }
  }

  /** Candidate `i` of the best score comes first: none of that score has a lesser key. */
  ghost predicate BestOfLeastKey(keys: seq<string>, scores: seq<real>, i: nat)
    requires |scores| == |keys|
  {
    && i < |keys|
    && (forall j :: 0 <= j < |keys| ==> scores[i] >= scores[j])
    && (forall j :: 0 <= j < |keys| && scores[j] == scores[i] ==> keys[i] == keys[j] || Before(keys[i], keys[j]))
  }

  /** The first of its bucket. */
  lemma HeadOfBucket(keys: seq<string>, scores: seq<real>, j: nat) returns (h: nat)
    requires |scores| == |keys| && SortedDown(scores) && j < |keys|
    ensures h < |keys| && keys[h] == keys[j] && Rank(keys, h) == 0
    ensures HeadScore(keys, scores, j) == HeadScore(keys, scores, h) == scores[h] >= scores[j]
    ensures Rank(keys, j) == 0 ==> h == j
  {
    var p := Positions(keys, keys[j], |keys|);
    PositionsAre(keys, keys[j], |keys|);
    RankIsPlace(keys, j, |keys|);
    h := p[0];
    RankIsPlace(keys, h, |keys|);
    hide Positions;
    var at := Rank(keys, h);
    assert p[at] == p[0];
    assert h <= j;
  }

  /** The first chosen has the best score of all and, among those that have it, the least key. */
  lemma {:induction false} FirstChosen(keys: seq<string>, scores: seq<real>, want: nat)
    requires |scores| == |keys| > 0 && SortedDown(scores) && want > 0
    ensures Choice(keys, scores, want) != [] && BestOfLeastKey(keys, scores, Choice(keys, scores, want)[0])
  {
    var rows := Order(keys, scores);
    assert 0 in rows;
    var first := rows[0];
    assert Choice(keys, scores, want)[0] == first;
    hide Choice, Rank, HeadScore;
    forall j: nat | j < |keys|
      ensures scores[first] >= scores[j]
              && (scores[j] == scores[first] ==> keys[first] == keys[j] || Before(keys[first], keys[j]))
    {
      var head := HeadOfBucket(keys, scores, j);
      var own := HeadOfBucket(keys, scores, first);
      assert head in rows;
      assert head == first || Precedes(keys, scores, first, head);
    }
  }

  /** So one round number tells the chosen from the others: who is chosen ranks at most there, who is not at
      least there, and at that rank the better buckets go first. */
  lemma RoundsDecide(keys: seq<string>, scores: seq<real>, want: nat, i: nat, j: nat)
    requires i < |keys| && j < |keys|
    requires i in Choice(keys, scores, want) && j !in Choice(keys, scores, want)
    ensures Rank(keys, i) <= Rank(keys, j)
    ensures Rank(keys, i) == Rank(keys, j) ==> HeadScore(keys, scores, i) >= HeadScore(keys, scores, j)
  {
    ChosenIffPrecedes(keys, scores, i, j);
    hide Choice, Rank, HeadScore;
  }

  // ---- filling the remainder ----

  /** After one of each bucket, the rest is the best there is: nobody left out scores more. */
  ghost predicate RemainderByScore(keys: seq<string>, scores: seq<real>, want: nat)
    requires |scores| == |keys|
  {
    forall i: nat, j: nat ::
      (i < |keys| && j < |keys| && i in Choice(keys, scores, want) && j !in Choice(keys, scores, want)
       && Rank(keys, i) > 0)
      ==> scores[i] >= scores[j]
  }

  /** Rounds and scores agree on everyone but the first of each bucket. */
  ghost predicate RoundsFollowScores(keys: seq<string>, scores: seq<real>)
    requires |scores| == |keys|
  {
    forall i: nat, j: nat :: i < |keys| && j < |keys| && Rank(keys, i) > 0 && Precedes(keys, scores, i, j) ==>
      scores[i] >= scores[j]
  }

  /** The comment promises that what is left after one of each bucket is filled by score. However many are
      asked for, that holds if and only if the scores fall along the rounds. */
  lemma {:induction false} RemainderByScoreIff(keys: seq<string>, scores: seq<real>)
    requires |scores| == |keys|
    ensures (forall want: nat :: RemainderByScore(keys, scores, want)) <==> RoundsFollowScores(keys, scores)
  {
    hide Precedes, Choice, Rank;
    if RoundsFollowScores(keys, scores) {
      forall want: nat ensures RemainderByScore(keys, scores, want) {
        forall i: nat, j: nat |
          && i < |keys| && j < |keys|
          && i in Choice(keys, scores, want) && j !in Choice(keys, scores, want) && Rank(keys, i) > 0
          ensures scores[i] >= scores[j]
        {
          ChosenIffPrecedes(keys, scores, i, j);
        }
      }
    }
    if forall want: nat :: RemainderByScore(keys, scores, want) {
      forall i: nat, j: nat | i < |keys| && j < |keys| && Rank(keys, i) > 0 && Precedes(keys, scores, i, j)
        ensures scores[i] >= scores[j]
      {
        ChosenIffPrecedes(keys, scores, i, j);
        var want: nat :| i in Choice(keys, scores, want) && j !in Choice(keys, scores, want);
        assert RemainderByScore(keys, scores, want);
      }
    }
  }

  /** So what is left after one of each is not filled by score, as its comment says: here the third best
      candidate of all is passed over for the worst one. */
  lemma RemainderIsNotByScore()
    ensures var keys, scores := ["a", "a", "a", "b", "b"], [0.9, 0.8, 0.7, 0.2, 0.1];
            2 !in Choice(keys, scores, 4) && 4 in Choice(keys, scores, 4)
  {
    var keys, scores := ["a", "a", "a", "b", "b"], [0.9, 0.8, 0.7, 0.2, 0.1];
    var out := Choice(keys, scores, 4);
    Conserves(keys, scores, 4);
    Ranks();
    hide Choice, Positions, Rank;
    if 2 in out {
      forall j: nat | j == 0 || j == 1 || j == 3 || j == 4 ensures j in out {
        if j !in out {
          RoundsDecide(keys, scores, 4, 2, j);
        }
      }
    }
    FourOfFive(out);
  }

  lemma Ranks()
    ensures var keys := ["a", "a", "a", "b", "b"];
            && Rank(keys, 0) == 0 && Rank(keys, 1) == 1 && Rank(keys, 2) == 2
            && Rank(keys, 3) == 0 && Rank(keys, 4) == 1
  {
    var keys := ["a", "a", "a", "b", "b"];
    assert |Positions(keys, "a", 0)| == 0;
    assert |Positions(keys, "a", 1)| == 1;
    assert |Positions(keys, "a", 2)| == 2;
    assert |Positions(keys, "b", 0)| == 0;
    assert |Positions(keys, "b", 1)| == 0;
    assert |Positions(keys, "b", 2)| == 0;
    assert |Positions(keys, "b", 3)| == 0;
    assert |Positions(keys, "b", 4)| == 1;
  }

  lemma FourOfFive(out: seq<nat>)
    requires |out| == 4 && Within(out, 5) && NoRepeats(out)
    ensures 2 in out ==> 0 !in out || 1 !in out || 3 !in out || 4 !in out
    ensures 2 !in out ==> 4 in out
  {
    assert out == [out[0], out[1], out[2], out[3]];
  }
}
