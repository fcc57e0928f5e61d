/** Stable descending sort, which `sort_by` of the standard library provides to `src/locate.rs`. */
module Sorting {

  predicate Descending<T>(s: seq<T>, score: T -> real) {
    forall i, j :: 0 <= i < j < |s| ==> score(s[i]) >= score(s[j])
  }

  function Insert<T>(x: T, s: seq<T>, score: T -> real): seq<T> {
    if s == [] || score(s[0]) <= score(x) then [x] + s else [s[0]] + Insert(x, s[1..], score)
  }

  function Sort<T>(s: seq<T>, score: T -> real): seq<T> {
    if s == [] then [] else Insert(s[0], Sort(s[1..], score), score)
  }

  /** The items of one score, in order. */
  function OfScore<T>(s: seq<T>, score: T -> real, v: real): seq<T> {
    if s == [] then [] else (if score(s[0]) == v then [s[0]] else []) + OfScore(s[1..], score, v)
  }

  lemma {:induction false} InsertKeepsItems<T>(x: T, s: seq<T>, score: T -> real)
    ensures multiset(Insert(x, s, score)) == multiset{x} + multiset(s)
  {
    if s != [] && score(s[0]) > score(x) {
      InsertKeepsItems(x, s[1..], score);
      assert s == [s[0]] + s[1..];
    }
  }

  lemma Prepend<T>(x: T, s: seq<T>, score: T -> real)
    requires Descending(s, score) && forall y :: y in s ==> score(x) >= score(y)
    ensures Descending([x] + s, score)
  {
    var r := [x] + s;
    forall i, j | 0 <= i < j < |r| ensures score(r[i]) >= score(r[j]) {
      assert r[j] == s[j - 1] && s[j - 1] in s;
      if i > 0 {
        assert r[i] == s[i - 1];
      }
    }
  }

  lemma Tail<T>(s: seq<T>, score: T -> real)
    requires s != [] && Descending(s, score)
    ensures Descending(s[1..], score)
    ensures forall y :: y in s[1..] ==> score(s[0]) >= score(y)
  {
  }

  lemma {:induction false} InsertDescends<T>(x: T, s: seq<T>, score: T -> real)
    requires Descending(s, score)
    ensures Descending(Insert(x, s, score), score)
  {
    if s != [] {
      Tail(s, score);
      if score(s[0]) > score(x) {
        InsertDescends(x, s[1..], score);
        var r := Insert(x, s[1..], score);
        forall y | y in r ensures score(s[0]) >= score(y) {
          hide Descending, Insert;
          InsertKeepsItems(x, s[1..], score);
          assert y in multiset(r);
          assert y == x || y in s[1..];
        }
        hide Descending;
        Prepend(s[0], r, score);
      } else {
        forall y | y in s ensures score(x) >= score(y) {
          assert y == s[0] || y in s[1..];
        }
        hide Descending;
        Prepend(x, s, score);
      }
    } else {
      assert |Insert(x, s, score)| == 1;
    }
  }

  lemma {:induction false} InsertIsStable<T>(x: T, s: seq<T>, score: T -> real, v: real)
    ensures OfScore(Insert(x, s, score), score, v) == OfScore([x] + s, score, v)
  {
    assert ([x] + s)[1..] == s;
    if s != [] && score(s[0]) > score(x) {
      InsertIsStable(x, s[1..], score, v);
      assert ([x] + s[1..])[1..] == s[1..];
      assert ([s[0]] + Insert(x, s[1..], score))[1..] == Insert(x, s[1..], score);
    }
  }

  lemma {:induction false} SortKeepsOrder<T>(s: seq<T>, score: T -> real, v: real)
    ensures OfScore(Sort(s, score), score, v) == OfScore(s, score, v)
  {
    if s == [] {
    } else {
      var r := Sort(s[1..], score);
      SortKeepsOrder(s[1..], score, v);
      InsertIsStable(s[0], r, score, v);
      assert ([s[0]] + r)[1..] == r;
    }
  }

  /** The sort moves items and nothing else, puts higher scores first, and keeps items of equal score
      in the order they came in. */
  lemma {:induction false} SortIsStable<T>(s: seq<T>, score: T -> real)
    ensures Descending(Sort(s, score), score)
    ensures multiset(Sort(s, score)) == multiset(s)
    ensures SameByScore(Sort(s, score), s, score)
  {
    forall v: real ensures OfScore(Sort(s, score), score, v) == OfScore(s, score, v) {
      SortKeepsOrder(s, score, v);
    }
    hide OfScore, SameByScore;
    if s == [] {
    } else {
      SortIsStable(s[1..], score);
      var r := Sort(s[1..], score);
      assert s == [s[0]] + s[1..];
      assert Sort(s, score) == Insert(s[0], r, score);
      hide Sort, Insert, Descending;
      InsertDescends(s[0], r, score);
      InsertKeepsItems(s[0], r, score);
    }
  }

  lemma {:induction false} OfScoreHas<T>(s: seq<T>, score: T -> real, x: T)
    ensures x in s <==> x in OfScore(s, score, score(x))
  {
    if s == [] {
    } else {
      OfScoreHas(s[1..], score, x);
      assert s == [s[0]] + s[1..];
    }
  }

  lemma OfScoreHead<T>(s: seq<T>, score: T -> real)
    requires s != []
    ensures var f := OfScore(s, score, score(s[0])); f != [] && f[0] == s[0]
  {
  }

  ghost predicate SameByScore<T>(s: seq<T>, t: seq<T>, score: T -> real) {
    forall v: real :: OfScore(s, score, v) == OfScore(t, score, v)
  }

  lemma SameHeads<T>(s: seq<T>, t: seq<T>, score: T -> real)
    requires s != [] && SameByScore(s, t, score) && Descending(s, score) && Descending(t, score)
    ensures t != [] && s[0] == t[0]
  {
    OfScoreHead(s, score);
    OfScoreHas(t, score, s[0]);
    OfScoreHas(s, score, s[0]);
    assert OfScore(s, score, score(s[0])) == OfScore(t, score, score(s[0]));
    assert s[0] in t;
    OfScoreHead(t, score);
    OfScoreHas(s, score, t[0]);
    OfScoreHas(t, score, t[0]);
    assert OfScore(s, score, score(t[0])) == OfScore(t, score, score(t[0]));
    assert t[0] in s;
  }

  lemma SameTails<T>(s: seq<T>, t: seq<T>, score: T -> real)
    requires s != [] && t != [] && s[0] == t[0] && SameByScore(s, t, score)
    ensures SameByScore(s[1..], t[1..], score)
  {
    forall v: real ensures OfScore(s[1..], score, v) == OfScore(t[1..], score, v) {
      var head := if score(s[0]) == v then [s[0]] else [];
      assert OfScore(s, score, v) == OfScore(t, score, v);
      assert OfScore(s, score, v) == head + OfScore(s[1..], score, v);
      assert OfScore(t, score, v) == head + OfScore(t[1..], score, v);
      assert OfScore(s[1..], score, v) == (head + OfScore(s[1..], score, v))[|head|..];
    }
  }

  /** There is only one stable sort: two descending sequences that agree score by score are equal. */
  lemma {:induction false} StableSortIsUnique<T>(s: seq<T>, t: seq<T>, score: T -> real)
    requires Descending(s, score) && Descending(t, score) && SameByScore(s, t, score)
    ensures s == t
  {
    if s != [] {
      SameHeads(s, t, score);
      SameTails(s, t, score);
      Tail(s, score);
      Tail(t, score);
      hide Descending, SameByScore;
      StableSortIsUnique(s[1..], t[1..], score);
      assert s == [s[0]] + s[1..] && t == [t[0]] + t[1..];
    } else if t != [] {
      OfScoreHead(t, score);
    }
  }
}
