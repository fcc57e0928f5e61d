/**
 What can be said of the serve loop by looking at its run alone: how long it waits after a failure, which
 messages it takes in, and why it returns.
 */
module ServeRuns {
  import opened Basics
  import opened Serve
  import opened ServeObject
  import Dedup

  /** The last step of a run. */
  lemma {:induction false} LastStep(c: Config, s: State, steps: seq<Step>)
    requires steps != [] && IsRun(c, s, steps)
    ensures var n := |steps| - 1;
            && IsRun(c, s, steps[..n]) && Enabled(c, After(c, s, steps[..n]), steps[n])
            && After(c, s, steps) == Apply(c, After(c, s, steps[..n]), steps[n])
    decreases |steps|
  {
    var n := |steps| - 1;
    if n == 0 {
      assert steps[..0] == [] && steps[1..] == [];
    } else {
      var t := Apply(c, s, steps[0]);
      LastStep(c, t, steps[1..]);
      assert steps[1..][..n - 1] == steps[..n][1..] && steps[..n][0] == steps[0];
      hide Apply, Enabled;
    }
  }

  // ---- the backoff ----

  /** An attempt to connect that failed: the stream was not opened, or a topic not confirmed. */
  predicate Fails(l: Step) {
    l.ByLoop? && (l.loopStep == OpenStream(false) || (l.loopStep.Subscribe? && !l.loopStep.ok))
  }

  /** How many attempts have failed since the last that succeeded. */
  function Failures(steps: seq<Step>): nat {
    if steps == [] then 0
    else
      var earlier, last := steps[..|steps| - 1], steps[|steps| - 1];
      if last == ByLoop(AllSubscribed) then 0 else Failures(earlier) + if Fails(last) then 1 else 0
  }

  function Pow2(k: nat): (p: nat)
    ensures p >= 1
  {
    if k == 0 then 1 else 2 * Pow2(k - 1)
  }

  /** The wait after `k` failures in a row, and one more. */
  function Wait(k: nat): nat {
    if 250 * Pow2(k) < 10_000 then 250 * Pow2(k) else 10_000
  }

  lemma WaitDoubles(k: nat)
    ensures Wait(k + 1) == NextBackoff(Wait(k)) && Wait(0) == 250
  {
  }

  lemma StepWaits(c: Config, s: State, l: Step, failures: nat)
    requires Enabled(c, s, l)
    requires s.loop.BackingOff? ==> failures > 0 && s.backoffMs == Wait(failures - 1)
    requires !s.loop.BackingOff? && !s.loop.Returned? ==> s.backoffMs == Wait(failures)
    ensures var t := Apply(c, s, l);
            var now := if l == ByLoop(AllSubscribed) then 0 else failures + if Fails(l) then 1 else 0;
            && (t.loop.BackingOff? ==> now > 0 && t.backoffMs == Wait(now - 1))
            && (!t.loop.BackingOff? && !t.loop.Returned? ==> t.backoffMs == Wait(now))
            && (l == ByLoop(WakeUp) ==> t.loop.Connecting? && s.backoffMs == Wait(failures - 1))
  {
    WaitDoubles(0);
    if failures > 0 {
      WaitDoubles(failures - 1);
    }
    hide Wait, NextBackoff;
  }

  /** The loop waits only after an attempt that failed; after the first failure in a row it waits 250 ms, after
      each further one twice as long, and never more than 10 s. Success starts the count afresh. */
  lemma {:induction false} BackoffIsExact(c: Config, node: Node, steps: seq<Step>)
    requires IsRun(c, Start(node), steps)
    ensures var s := After(c, Start(node), steps);
            && (s.loop.BackingOff? ==> Failures(steps) > 0 && s.backoffMs == Wait(Failures(steps) - 1))
            && (!s.loop.BackingOff? && !s.loop.Returned? ==> s.backoffMs == Wait(Failures(steps)))
  {
    if steps == [] {
      WaitDoubles(0);
    } else {
      var n := |steps| - 1;
      LastStep(c, Start(node), steps);
      BackoffIsExact(c, node, steps[..n]);
      hide Wait, Apply, Enabled, IsRun, After;
      StepWaits(c, After(c, Start(node), steps[..n]), steps[n], Failures(steps[..n]));
    }
  }

  // ---- the messages ----

  /** What the node has sent on the stream that was opened last. */
  function Sent(steps: seq<Step>): seq<Message> {
    if steps == [] then []
    else
      var earlier, last := steps[..|steps| - 1], steps[|steps| - 1];
      if last == ByLoop(OpenStream(true)) then []
      else Sent(earlier) + match last case ByWorld(NodeSends(m)) => [m] case _ => []
  }

  /** How many of them the loop has taken in. */
  function TakenCount(steps: seq<Step>): nat {
    if steps == [] then 0
    else
      var earlier, last := steps[..|steps| - 1], steps[|steps| - 1];
      if last == ByLoop(OpenStream(true)) then 0 else TakenCount(earlier) + if last == ByLoop(TakeMessage) then 1 else 0
  }

  /** All messages taken in, on all streams, in order. */
  function Taken(steps: seq<Step>): seq<Message> {
    if steps == [] then []
    else
      var earlier, last := steps[..|steps| - 1], steps[|steps| - 1];
      Taken(earlier) + if last == ByLoop(TakeMessage) && TakenCount(earlier) < |Sent(earlier)|
                       then [Sent(earlier)[TakenCount(earlier)]] else []
  }

  predicate IsRequest(c: Config, m: Message) {
    m.topic in c.accepted && m.token.Some?
  }

  /** The tokens of the accepted requests among some messages. */
  function Tokens(c: Config, ms: seq<Message>): seq<nat> {
    if ms == [] then []
    else
      var last := ms[|ms| - 1];
      Tokens(c, ms[..|ms| - 1]) + if IsRequest(c, last) then [last.token.value] else []
  }

  /** Those of them that are to be handled: fresh, and readable. */
  function ToHandle(c: Config, ms: seq<Message>): seq<nat> {
    if ms == [] then []
    else
      var last := ms[|ms| - 1];
      ToHandle(c, ms[..|ms| - 1])
      + if IsRequest(c, last) && last.readable && Dedup.LastIsFresh(Tokens(c, ms)) then [last.token.value] else []
  }

  /** The state agrees with what the run says of messages. */
  predicate Agrees(c: Config, s: State, sent: seq<Message>, count: nat, taken: seq<Message>) {
    && count <= |sent| && s.stream.unread == sent[count..]
    && s.answered == Tokens(c, taken) && HandledIn(s.log) == ToHandle(c, taken)
  }

  lemma TokensMore(c: Config, ms: seq<Message>, m: Message)
    ensures Tokens(c, ms + [m]) == Tokens(c, ms) + if IsRequest(c, m) then [m.token.value] else []
    ensures ToHandle(c, ms + [m]) == ToHandle(c, ms)
            + if IsRequest(c, m) && m.readable && Dedup.LastIsFresh(Tokens(c, ms + [m])) then [m.token.value] else []
  {
    assert (ms + [m])[..|ms|] == ms;
  }

  lemma StepAgrees(c: Config, s: State, l: Step, sent: seq<Message>, count: nat, taken: seq<Message>)
    requires Enabled(c, s, l) && Agrees(c, s, sent, count, taken)
    ensures var t := Apply(c, s, l);
            if l == ByLoop(OpenStream(true)) then Agrees(c, t, [], 0, taken)
            else if l == ByLoop(TakeMessage) then
              count < |sent| && Agrees(c, t, sent, count + 1, taken + [sent[count]])
            else Agrees(c, t, sent + (match l case ByWorld(NodeSends(m)) => [m] case _ => []), count, taken)
  {
    hide HandledIn, Tokens, ToHandle, LoopDoes, AdvertiserDoes, WorldDoes, Agrees, LoopCan, AdvertiserCan, WorldCan;
    assert sent + [] == sent;
    match l
    case ByLoop(TakeMessage) => TakingAgrees(c, s, sent, count, taken);
    case ByLoop(k) => LoopAgrees(c, s, k, sent, count, taken);
    case ByWorld(k) => WorldAgrees(c, s, k, sent, count, taken);
    case ByAdvertiser(k) => AdvertiserAgrees(c, s, k, sent, count, taken);
  }

  lemma WorldAgrees(c: Config, s: State, k: WorldStep, sent: seq<Message>, count: nat, taken: seq<Message>)
    requires WorldCan(s, k) && Agrees(c, s, sent, count, taken)
    ensures Agrees(c, WorldDoes(s, k), sent + (match k case NodeSends(m) => [m] case _ => []), count, taken)
  {
    if k.NodeSends? {
      assert (sent + [k.m])[count..] == sent[count..] + [k.m];
    }
    assert sent + [] == sent;
    hide HandledIn, Tokens, ToHandle;
  }

  lemma AdvertiserAgrees(c: Config, s: State, k: AdvertiserStep, sent: seq<Message>, count: nat, taken: seq<Message>)
    requires AdvertiserCan(s, k) && Agrees(c, s, sent, count, taken)
    ensures Agrees(c, AdvertiserDoes(s, k), sent, count, taken)
  {
    HandledInMore(s.log, Advertised);
    hide HandledIn, Tokens, ToHandle;
  }

  lemma TakingAgrees(c: Config, s: State, sent: seq<Message>, count: nat, taken: seq<Message>)
    requires LoopCan(c, s, TakeMessage) && Agrees(c, s, sent, count, taken)
    ensures count < |sent| && Agrees(c, LoopDoes(c, s, TakeMessage), sent, count + 1, taken + [sent[count]])
  {
    TakingHandles(c, s);
    TokensMore(c, taken, sent[count]);
    assert s.stream.unread[0] == sent[count] && s.stream.unread[1..] == sent[count + 1..];
    TakingReads(c, s);
    hide HandledIn, Tokens, ToHandle, LoopDoes, Dedup.LastIsFresh;
  }

  lemma TakingReads(c: Config, s: State)
    requires LoopCan(c, s, TakeMessage)
    ensures LoopDoes(c, s, TakeMessage).stream.unread == s.stream.unread[1..]
  {
    hide Dedup.LastIsFresh;
  }

  lemma LoopAgrees(c: Config, s: State, k: LoopStep, sent: seq<Message>, count: nat, taken: seq<Message>)
    requires !k.TakeMessage? && LoopCan(c, s, k) && Agrees(c, s, sent, count, taken)
    ensures if k == OpenStream(true) then Agrees(c, LoopDoes(c, s, k), [], 0, taken)
            else Agrees(c, LoopDoes(c, s, k), sent, count, taken)
  {
    hide HandledIn, Tokens, ToHandle, LoopDoes, LoopCan;
    LoopHandles(c, s, k);
    LoopLeaves(c, s, k);
  }

  lemma LoopLeaves(c: Config, s: State, k: LoopStep)
    requires !k.TakeMessage? && LoopCan(c, s, k)
    ensures var t := LoopDoes(c, s, k);
            t.answered == s.answered && t.stream.unread == if k == OpenStream(true) then [] else s.stream.unread
  {
  }

  /** Of every stream the loop takes in a prefix of what the node sent on it, in order and without gaps. It
      handles exactly the accepted requests among these that are readable and fresh, in order. */
  lemma {:induction false} HandlesExactly(c: Config, node: Node, steps: seq<Step>)
    requires IsRun(c, Start(node), steps)
    ensures var s := After(c, Start(node), steps);
            && TakenCount(steps) <= |Sent(steps)| && s.stream.unread == Sent(steps)[TakenCount(steps)..]
            && s.answered == Tokens(c, Taken(steps)) && HandledIn(s.log) == ToHandle(c, Taken(steps))
  {
    if steps == [] {
    } else {
      var n := |steps| - 1;
      LastStep(c, Start(node), steps);
      HandlesExactly(c, node, steps[..n]);
      hide Apply, Enabled, IsRun, After, HandledIn, Tokens, ToHandle;
      StepAgrees(c, After(c, Start(node), steps[..n]), steps[n], Sent(steps[..n]), TakenCount(steps[..n]),
                 Taken(steps[..n]));
      assert Sent(steps[..n]) + [] == Sent(steps[..n]) && Taken(steps[..n]) + [] == Taken(steps[..n]);
    }
  }

  // ---- the end ----

  /** The loop returns, and the advertiser stops, only when there was a shutdown. */
  lemma {:induction false} EndsOnlyOnShutdown(c: Config, node: Node, steps: seq<Step>)
    requires IsRun(c, Start(node), steps)
    ensures var s := After(c, Start(node), steps);
            && (s.shutdown <==> ByWorld(Shutdown) in steps)
            && (s.loop.Returned? || s.advertiser.Stopped? ==> s.shutdown)
  {
    if steps == [] {
    } else {
      var n := |steps| - 1;
      LastStep(c, Start(node), steps);
      EndsOnlyOnShutdown(c, node, steps[..n]);
      assert steps == steps[..n] + [steps[n]];
      hide IsRun, After;
    }
  }

  /** The loop leaves one of its two waits because of the shutdown. */
  predicate LoopStops(l: Step) {
    l == ByLoop(StopWaiting) || l == ByLoop(StopProcessing)
  }

  /** The advertiser leaves one of its two waits because of the shutdown. */
  predicate AdvertiserStops(l: Step) {
    l == ByAdvertiser(StopPolling) || l == ByAdvertiser(StopPausing)
  }

  function Advertisements(log: seq<Event>): nat {
    multiset(log)[Advertised]
  }

  lemma AdvertisementsMore(log: seq<Event>, e: Event)
    ensures Advertisements(log + [e]) == Advertisements(log) + if e.Advertised? then 1 else 0
  {
    assert multiset(log + [e]) == multiset(log) + multiset{e};
  }

  /** Only the loop logs anything but advertisements, only the advertiser these, and each one at a time. */
  lemma OneMoreEvent(c: Config, s: State, l: Step)
    requires Enabled(c, s, l)
    ensures var t := Apply(c, s, l);
            t.log == s.log || (t.log != [] && t.log == s.log + [t.log[|t.log| - 1]]
                               && if t.log[|t.log| - 1].Advertised? then l.ByAdvertiser? else l.ByLoop?)
  {
    hide Dedup.LastIsFresh;
  }

  lemma WhoStops(c: Config, s: State, l: Step)
    requires Enabled(c, s, l)
    ensures LoopStops(l) || s.loop.Returned? ==>
              Apply(c, s, l).loop.Returned? && (l.ByLoop? ==> Apply(c, s, l).log == s.log)
    ensures AdvertiserStops(l) || s.advertiser.Stopped? ==>
              Apply(c, s, l).advertiser.Stopped? && (l.ByAdvertiser? ==> Apply(c, s, l).log == s.log)
  {
    hide Dedup.LastIsFresh;
  }

  lemma StepStaysStopped(c: Config, s: State, l: Step)
    requires Enabled(c, s, l)
    ensures var t := Apply(c, s, l);
            && (LoopStops(l) || s.loop.Returned? ==> t.loop.Returned? && HandledIn(t.log) == HandledIn(s.log))
            && (AdvertiserStops(l) || s.advertiser.Stopped? ==>
                  t.advertiser.Stopped? && Advertisements(t.log) == Advertisements(s.log))
  {
    hide HandledIn, Advertisements, Apply, Enabled;
    var t := Apply(c, s, l);
    WhoStops(c, s, l);
    OneMoreEvent(c, s, l);
    if t.log != s.log {
      AdvertisementsMore(s.log, t.log[|t.log| - 1]);
      HandledInMore(s.log, t.log[|t.log| - 1]);
    }
    assert HandledIn(s.log) + [] == HandledIn(s.log);
  }

  /** Who has stopped for the shutdown does nothing more: from that step on the loop has returned and handles
      nothing, and the advertiser is stopped and advertises nothing. */
  lemma {:induction false} StopIsFinal(c: Config, node: Node, steps: seq<Step>, j: nat)
    requires IsRun(c, Start(node), steps) && j < |steps|
    ensures IsRun(c, Start(node), steps[..j])
    ensures var s, t := After(c, Start(node), steps[..j]), After(c, Start(node), steps);
            && (LoopStops(steps[j]) ==> t.loop.Returned? && HandledIn(t.log) == HandledIn(s.log))
            && (AdvertiserStops(steps[j]) ==> t.advertiser.Stopped? && Advertisements(t.log) == Advertisements(s.log))
  {
    var n := |steps| - 1;
    LastStep(c, Start(node), steps);
    var before := After(c, Start(node), steps[..n]);
    hide IsRun, After, Apply, Enabled, HandledIn, Advertisements;
    StepStaysStopped(c, before, steps[n]);
    if j < n {
      StopIsFinal(c, node, steps[..n], j);
      assert steps[..n][..j] == steps[..j];
    }
  }
}
