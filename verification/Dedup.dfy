/** The bounded set of answered reply tokens in `answer_one` of `src/serve.rs`. */
module Dedup {

  const LIMIT: nat := 100_000

  /** The set, and how often it was cleared. */
  datatype Memory = Memory(seen: set<nat>, clears: nat)

  const EMPTY := Memory({}, 0)

  /** Takes in a token; a fresh one may push the set over its limit, which starts it afresh. */
  function Insert(m: Memory, token: nat): (Memory, bool) {
    if token in m.seen then (m, false)
    else if |m.seen + {token}| > LIMIT then (Memory({token}, m.clears + 1), true)
    else (m.(seen := m.seen + {token}), true)
  }

  /** The memory after a history of tokens. */
  function After(tokens: seq<nat>): Memory {
    if tokens == [] then EMPTY else Insert(After(tokens[..|tokens| - 1]), tokens[|tokens| - 1]).0
  }

  /** Whether the last token of a history was fresh. */
  predicate LastIsFresh(tokens: seq<nat>)
    requires tokens != []
  {
    Insert(After(tokens[..|tokens| - 1]), tokens[|tokens| - 1]).1
  }

  /** How many tokens of a history were fresh. */
  function Fresh(tokens: seq<nat>): nat {
    if tokens == [] then 0
    else Fresh(tokens[..|tokens| - 1]) + if LastIsFresh(tokens) then 1 else 0
  }

  /** How often one token was fresh. */
  function FreshOf(tokens: seq<nat>, token: nat): nat {
    if tokens == [] then 0
    else FreshOf(tokens[..|tokens| - 1], token)
         + if LastIsFresh(tokens) && tokens[|tokens| - 1] == token then 1 else 0
  }

  /** What `n` fresh tokens leave: `(n - 1) % 100000 + 1` held and `(n - 1) / 100000` clearings. */
  predicate Holds(m: Memory, n: nat) {
    if n == 0 then m == EMPTY else |m.seen| == (n - 1) % LIMIT + 1 && m.clears == (n - 1) / LIMIT
  }

  lemma InsertCounts(m: Memory, n: nat, token: nat)
    requires Holds(m, n)
    ensures var (next, isNew) := Insert(m, token); Holds(next, n + if isNew then 1 else 0)
  {
    if token !in m.seen {
      assert |m.seen + {token}| == |m.seen| + 1;
      if n > 0 {
        NextDivMod(n - 1);
      }
    }
  }

  lemma NextDivMod(n: nat)
    ensures n % LIMIT == LIMIT - 1 ==> (n + 1) % LIMIT == 0 && (n + 1) / LIMIT == n / LIMIT + 1
    ensures n % LIMIT < LIMIT - 1 ==> (n + 1) % LIMIT == n % LIMIT + 1 && (n + 1) / LIMIT == n / LIMIT
  {
  }

  lemma {:induction false} Arithmetic(tokens: seq<nat>)
    ensures Holds(After(tokens), Fresh(tokens))
    ensures Fresh(tokens) > 0 ==>
              && |After(tokens).seen| == (Fresh(tokens) - 1) % 100_000 + 1
              && After(tokens).clears == (Fresh(tokens) - 1) / 100_000
  {
    if tokens == [] {
    } else {
      OneMoreToken(tokens);
      hide *;
      var before, last := tokens[..|tokens| - 1], tokens[|tokens| - 1];
      Arithmetic(before);
      InsertCounts(After(before), Fresh(before), last);
      Exactly(After(tokens), Fresh(tokens));
    }
  }

  lemma Exactly(m: Memory, n: nat)
    requires Holds(m, n) && n > 0
    ensures |m.seen| == (n - 1) % 100_000 + 1 && m.clears == (n - 1) / 100_000
  {
  }

  lemma OneMoreToken(tokens: seq<nat>)
    requires tokens != []
    ensures var before := tokens[..|tokens| - 1];
            var (next, isNew) := Insert(After(before), tokens[|tokens| - 1]);
            After(tokens) == next && Fresh(tokens) == Fresh(before) + if isNew then 1 else 0
  {
    hide Insert;
  }

  /** A token is fresh at most once per clearing, and once more while it is held. */
  lemma {:induction false} AtMostOncePerClear(tokens: seq<nat>, token: nat)
    ensures var m := After(tokens);
            FreshOf(tokens, token) <= m.clears + if token in m.seen then 1 else 0
  {
    if tokens == [] {
    } else {
      AtMostOncePerClear(tokens[..|tokens| - 1], token);
    }
  }

  lemma {:induction false} OnlyTaken(tokens: seq<nat>)
    ensures forall t :: t in After(tokens).seen ==> t in tokens
  {
    if tokens == [] {
    } else {
      var before := tokens[..|tokens| - 1];
      OnlyTaken(before);
      assert tokens == before + [tokens[|tokens| - 1]];
    }
  }

  /** A token that never came before is always fresh. */
  lemma FirstIsFresh(tokens: seq<nat>, token: nat)
    requires token !in tokens
    ensures LastIsFresh(tokens + [token])
  {
    OnlyTaken(tokens);
    assert (tokens + [token])[..|tokens|] == tokens;
  }

  /** Answered at most once until the limit is passed, and never more often than once plus the number of
      clearings. */
  lemma HandledRarely(tokens: seq<nat>, token: nat)
    ensures FreshOf(tokens, token) <= 1 + After(tokens).clears
    ensures Fresh(tokens) <= 100_000 ==> FreshOf(tokens, token) <= 1
  {
    AtMostOncePerClear(tokens, token);
    Arithmetic(tokens);
  }

  /** Whether a redelivered token is answered again: exactly when the set was cleared since the token
      last came. */
  lemma {:induction false} RedeliveryAnsweredIffCleared(tokens: seq<nat>, j: nat)
    requires j < |tokens| && tokens[j] !in tokens[j + 1..]
    ensures LastIsFresh(tokens + [tokens[j]]) <==> After(tokens).clears > After(tokens[..j + 1]).clears
  {
    assert (tokens + [tokens[j]])[..|tokens|] == tokens;
    HeldIffNotCleared(tokens, j);
  }

  lemma {:induction false} HeldIffNotCleared(tokens: seq<nat>, j: nat)
    requires j < |tokens| && tokens[j] !in tokens[j + 1..]
    ensures After(tokens[..j + 1]).clears <= After(tokens).clears
    ensures tokens[j] in After(tokens).seen <==> After(tokens).clears == After(tokens[..j + 1]).clears
  {
    if j == |tokens| - 1 {
      assert tokens[..j + 1] == tokens;
    } else {
      var before, last := tokens[..|tokens| - 1], tokens[|tokens| - 1];
      assert before[..j + 1] == tokens[..j + 1] && tokens[j + 1..] == before[j + 1..] + [last];
      HeldIffNotCleared(before, j);
    }
  }

  /** Every token from 0 up to `n`. */
  function Count(n: nat): (r: seq<nat>)
    ensures |r| == n && forall i :: 0 <= i < n ==> r[i] == i
  {
    seq(n, i => i)
  }

  function Below(n: nat): (r: set<nat>)
    ensures |r| == n && forall i :: i in r ==> i < n
  {
    if n == 0 then {} else Below(n - 1) + {n - 1}
  }

  lemma OneMore(tokens: seq<nat>, last: nat, token: nat)
    ensures var (m, isNew) := Insert(After(tokens), last);
            && After(tokens + [last]) == m && (LastIsFresh(tokens + [last]) <==> isNew)
            && FreshOf(tokens + [last], token) == FreshOf(tokens, token) + if isNew && last == token then 1 else 0
  {
    assert (tokens + [last])[..|tokens|] == tokens;
  }

  lemma InsertBelow(n: nat)
    requires n < LIMIT
    ensures Insert(Memory(Below(n), 0), n) == (Memory(Below(n + 1), 0), true)
  {
    assert |Below(n) + {n}| == n + 1;
  }

  lemma {:induction false} CountIsFresh(n: nat)
    requires n <= LIMIT
    ensures After(Count(n)) == Memory(Below(n), 0) && FreshOf(Count(n), 0) == if n == 0 then 0 else 1
  {
    if n > 0 {
      assert Count(n) == Count(n - 1) + [n - 1];
      hide After, FreshOf, LastIsFresh, Count, Insert, Below;
      CountIsFresh(n - 1);
      OneMore(Count(n - 1), n - 1, 0);
      InsertBelow(n - 1);
    } else {
      assert Count(0) == [];
    }
  }

  /** The limit is where a redelivered request is first answered twice: 100001 tokens, and the first one
      again. */
  lemma AnsweredTwice(n: nat)
    requires n == 100_000
    ensures FreshOf(Count(n) + [n] + [0], 0) == 2
  {
    CountIsFresh(n);
    OneMore(Count(n), n, 0);
    OneMore(Count(n) + [n], 0, 0);
    assert |Below(n) + {n}| == n + 1;
  }
}
