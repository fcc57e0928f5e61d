/** Small shared vocabulary: failure-carrying results, and a few facts about sequences and strings. */
module Basics {

  datatype Option<+T> = None | Some(value: T) {
    function GetOr(default: T): T {
      match this
      case Some(v) => v
      case None => default
    }
  }

  datatype Result<+T, +E> = Ok(value: T) | Err(error: E)

  /** The pieces written one after another. */
  function Concat<T>(pieces: seq<seq<T>>): seq<T> {
    if pieces == [] then [] else Concat(pieces[..|pieces| - 1]) + pieces[|pieces| - 1]
  }

  /** The list ends with another. */
  predicate EndsWith<T(==)>(s: seq<T>, end: seq<T>) {
    |end| <= |s| && s[|s| - |end|..] == end
  }

  /** How one turn of a thread's loop came out: it goes on, the loop ends, or nothing more happens. */
  datatype Turn = Goes | Ends | Idles

  lemma AppendAssociates<T>(a: seq<T>, b: seq<T>, c: seq<T>)
    ensures (a + b) + c == a + (b + c)
  {
  }

  lemma {:induction false} ConcatFront<T>(first: seq<T>, others: seq<seq<T>>)
    ensures Concat([first] + others) == first + Concat(others)
  {
    if others == [] {
      assert ([first] + others)[..0] == [];
    } else {
      var n := |others| - 1;
      assert ([first] + others)[..n + 1] == [first] + others[..n];
      ConcatFront(first, others[..n]);
      AppendAssociates(first, Concat(others[..n]), others[n]);
    }
  }

  /** The position of the first `c` in `s`, or `|s|` when there is none. */
  function IndexOf<T(==)>(s: seq<T>, c: T): (n: nat)
    ensures n <= |s| && c !in s[..n] && (n < |s| ==> s[n] == c)
  {
    if s == [] || s[0] == c then 0 else
      var n := IndexOf(s[1..], c) + 1;
      assert s[..n] == [s[0]] + s[1..][..n - 1];
      n
  }

  /** Only the first position with nothing before it can be what `IndexOf` returns. */
  lemma {:induction false} IndexOfIs<T>(s: seq<T>, c: T, n: nat)
    requires n <= |s| && c !in s[..n] && (n < |s| ==> s[n] == c)
    ensures IndexOf(s, c) == n
  {
    if n == 0 {
    } else {
      assert s[..n][0] == s[0];
      assert s[..n] == [s[0]] + s[1..][..n - 1];
      IndexOfIs(s[1..], c, n - 1);
    }
  }

  function Map<A, B>(f: A -> B, s: seq<A>): (r: seq<B>)
    ensures |r| == |s|
    ensures forall i :: 0 <= i < |s| ==> r[i] == f(s[i])
  {
    seq(|s|, i requires 0 <= i < |s| => f(s[i]))
  }

  /** `s` cut at every separator: one piece more than there are separators. */
  function Split<T(==)>(s: seq<T>, sep: T): (pieces: seq<seq<T>>)
    ensures pieces != []
    ensures forall p :: p in pieces ==> sep !in p
    decreases |s|
  {
    var n := IndexOf(s, sep);
    if n == |s| then [s] else [s[..n]] + Split(s[n + 1..], sep)
  }

  /** The pieces with one separator between neighbours. */
  function Join<T>(pieces: seq<seq<T>>, sep: T): seq<T> {
    if pieces == [] then []
    else if |pieces| == 1 then pieces[0]
    else pieces[0] + [sep] + Join(pieces[1..], sep)
  }

  lemma {:induction false} JoinOfSplit<T>(s: seq<T>, sep: T)
    ensures Join(Split(s, sep), sep) == s
    decreases |s|
  {
    var n := IndexOf(s, sep);
    if n == |s| {
    } else {
      var others := Split(s[n + 1..], sep);
      assert ([s[..n]] + others)[1..] == others;
      assert Join(Split(s, sep), sep) == s[..n] + [sep] + Join(others, sep);
      JoinOfSplit(s[n + 1..], sep);
      assert s == s[..n] + [s[n]] + s[n + 1..];
    }
  }

  lemma {:induction false} SplitOfJoin<T>(pieces: seq<seq<T>>, sep: T)
    requires pieces != [] && forall p :: p in pieces ==> sep !in p
    ensures Split(Join(pieces, sep), sep) == pieces
  {
    var j, p := Join(pieces, sep), pieces[0];
    assert j[..|p|] == p;
    IndexOfIs(j, sep, |p|);
    if |pieces| > 1 {
      assert j[|p| + 1..] == Join(pieces[1..], sep);
      SplitOfJoin(pieces[1..], sep);
    }
  }
}
