/**
 Recovery and at-most-once handling: from wherever a failing node has left it, the loop gets back to
 hearing its requests in a bounded number of its own steps, and it does not answer twice on the way.
 */
module ServeRecovery {
  import opened Serve
  import Dedup
  import opened ServeTheorems

  /** The loop processes a stream that the running node feeds. */
  predicate Hearing(s: State) {
    s.loop.Processing? && Current(s)
  }

  /** What the loop does next when the node answers, reading an old stream to its end. */
  function HealthyStep(c: Config, s: State): LoopStep
    requires !s.loop.Returned? && !Hearing(s)
  {
    match s.loop
    case Connecting => OpenStream(true)
    case Subscribing(n) => if n < |c.topics| then Subscribe(true, true) else AllSubscribed
    case BackingOff => WakeUp
    case Processing => if s.stream.unread != [] then TakeMessage else StreamEnds
  }

  /** How many steps away from hearing the loop is. */
  function Distance(c: Config, s: State): nat {
    var connect := |c.topics| + 2;
    var drain := |s.stream.unread| + 1 + connect;
    match s.loop
    case Connecting => connect
    case BackingOff => connect + 1
    case Subscribing(n) =>
      (if n <= |c.topics| then |c.topics| - n else 0) + 1 + if Current(s) then 0 else drain
    case Processing => if Current(s) then 0 else drain
    case Returned => 0
  }

  lemma HealthyStepNears(c: Config, s: State)
    requires s.node.up && !s.loop.Returned? && !Hearing(s) && (s.loop.Subscribing? ==> s.loop.next <= |c.topics|)
    ensures LoopCan(c, s, HealthyStep(c, s))
    ensures var t := LoopDoes(c, s, HealthyStep(c, s));
            && t.node.up && !t.loop.Returned? && (t.loop.Subscribing? ==> t.loop.next <= |c.topics|)
            && Distance(c, t) == Distance(c, s) - 1
  {
    match s.loop
    case Processing =>
      if s.stream.unread != [] {
        AnswerTouches(c, s.(stream := s.stream.(unread := s.stream.unread[1..])), s.stream.unread[0]);
      }
    case _ =>
  }

  lemma AnswerTouches(c: Config, s: State, m: Message)
    ensures var t := Answer(c, s, m); t.node == s.node && t.stream == s.stream && t.loop == s.loop
  {
  }

  /** Never permanently deaf: with the node up and answering, from any reachable state of a loop that
      has not returned, `Distance` steps of the loop can lead to a stream of the running node with
      every topic subscribed. */
  lemma {:induction false} Recovers(c: Config, s: State) returns (steps: seq<Step>)
    requires Inv(c, s) && s.node.up && !s.loop.Returned?
    ensures |steps| == Distance(c, s) <= 2 * |c.topics| + |s.stream.unread| + 4
    ensures forall l :: l in steps ==> l.ByLoop?
    ensures IsRun(c, s, steps)
    ensures var t := After(c, s, steps);
            Hearing(t) && t.node.incarnation == s.node.incarnation && t.advertiser == s.advertiser
            && forall topic :: topic in c.topics ==> topic in t.node.subscribed
    decreases Distance(c, s)
  {
    if Hearing(s) {
      steps := [];
    } else {
      var k := HealthyStep(c, s);
      HealthyStepNears(c, s);
      StepKeeps(c, s, ByLoop(k));
      SameIncarnation(c, s, k);
      var t := LoopDoes(c, s, k);
      var others := Recovers(c, t);
      steps := [ByLoop(k)] + others;
      assert steps[1..] == others;
      Unroll(c, s, steps, t);
    }
  }

  lemma SameIncarnation(c: Config, s: State, k: LoopStep)
    requires LoopCan(c, s, k)
    ensures LoopDoes(c, s, k).node.incarnation == s.node.incarnation && LoopDoes(c, s, k).advertiser == s.advertiser
  {
  }

  // ---- every run recovers ----

  /** A step of a world in which the node runs, answers and is not asked to stop: whatever else happens. */
  predicate Healthy(l: Step) {
    match l
    case ByLoop(OpenStream(ok)) => ok
    case ByLoop(Subscribe(ok, _)) => ok
    case ByLoop(_) => true
    case ByAdvertiser(_) => true
    case ByWorld(NodeDown) => false
    case ByWorld(Shutdown) => false
    case ByWorld(_) => true
  }

  /** The node runs, the loop has not returned, and nothing asks it to. */
  predicate Recovering(c: Config, s: State) {
    s.node.up && !s.loop.Returned? && !s.shutdown && (s.loop.Subscribing? ==> s.loop.next <= |c.topics|)
  }

  lemma LoopNears(c: Config, s: State, k: LoopStep)
    requires Recovering(c, s) && !Hearing(s) && Healthy(ByLoop(k)) && LoopCan(c, s, k)
    ensures Recovering(c, LoopDoes(c, s, k)) && Distance(c, LoopDoes(c, s, k)) < Distance(c, s)
  {
    if k.TakeMessage? {
      AnswerTouches(c, s.(stream := s.stream.(unread := s.stream.unread[1..])), s.stream.unread[0]);
    }
  }

  lemma OthersDelayNothing(c: Config, s: State, l: Step)
    requires Recovering(c, s) && !Hearing(s) && Healthy(l) && !l.ByLoop? && Enabled(c, s, l)
    ensures Recovering(c, Apply(c, s, l)) && Distance(c, Apply(c, s, l)) == Distance(c, s)
  {
  }

  function LoopSteps(steps: seq<Step>): nat {
    if steps == [] then 0 else (if steps[0].ByLoop? then 1 else 0) + LoopSteps(steps[1..])
  }

  /** Never permanently deaf, in every run: as long as the node stays up and answers and no shutdown comes,
      and whatever the node sends and the advertiser does in between, the loop hears its requests after at
      most `Distance` of its own steps. */
  lemma {:induction false} EveryRunRecovers(c: Config, s: State, steps: seq<Step>) returns (n: nat)
    requires Recovering(c, s) && IsRun(c, s, steps) && (forall l :: l in steps ==> Healthy(l))
    requires LoopSteps(steps) >= Distance(c, s)
    ensures n <= |steps| && IsRun(c, s, steps[..n]) && Hearing(After(c, s, steps[..n]))
    decreases |steps|
  {
    if Hearing(s) {
      n := 0;
    } else {
      DistanceIsZero(c, s);
      var l, t := steps[0], Apply(c, s, steps[0]);
      assert l in steps && forall m :: m in steps[1..] ==> m in steps;
      if l.ByLoop? {
        LoopNears(c, s, l.loopStep);
      } else {
        OthersDelayNothing(c, s, l);
      }
      var later := EveryRunRecovers(c, t, steps[1..]);
      n := later + 1;
      assert steps[..n][1..] == steps[1..][..later];
      hide Hearing, Apply, Enabled;
      Unroll(c, s, steps[..n], t);
    }
  }

  lemma DistanceIsZero(c: Config, s: State)
    requires Recovering(c, s) && !Hearing(s)
    ensures Distance(c, s) > 0
  {
  }

  // ---- at most once ----

  /** How often the handler ran for a token. */
  function Runs(log: seq<Event>, token: nat): nat {
    if log == [] then 0
    else Runs(log[..|log| - 1], token)
         + match log[|log| - 1] case Handled(_, t) => (if t == token then 1 else 0) case _ => 0
  }

  lemma RunsOfOneMore(log: seq<Event>, e: Event, token: nat)
    ensures Runs(log + [e], token) == Runs(log, token) + if e.Handled? && e.token == token then 1 else 0
  {
    assert (log + [e])[..|log|] == log;
  }

  lemma AnswerRuns(c: Config, s: State, m: Message, token: nat)
    requires Runs(s.log, token) <= Dedup.FreshOf(s.answered, token)
    ensures var t := Answer(c, s, m); Runs(t.log, token) <= Dedup.FreshOf(t.answered, token)
  {
    if m.topic in c.accepted && m.token.Some? {
      Dedup.OneMore(s.answered, m.token.value, token);
      RunsOfOneMore(s.log, Handled(s.conn, m.token.value), token);
    }
  }

  lemma LoopRuns(c: Config, s: State, k: LoopStep, token: nat)
    requires LoopCan(c, s, k) && Runs(s.log, token) <= Dedup.FreshOf(s.answered, token)
    ensures var t := LoopDoes(c, s, k); Runs(t.log, token) <= Dedup.FreshOf(t.answered, token)
  {
    match k
    case OpenStream(_) => RunsOfOneMore(s.log, Opened(s.conn + 1), token);
    case Subscribe(_, _) => RunsOfOneMore(s.log, Confirmed(s.conn, c.topics[s.loop.next]), token);
    case AllSubscribed => RunsOfOneMore(s.log, Ready(s.conn), token);
    case TakeMessage =>
      AnswerRuns(c, s.(stream := s.stream.(unread := s.stream.unread[1..])), s.stream.unread[0], token);
    case _ =>
  }

  lemma StepRuns(c: Config, s: State, l: Step, token: nat)
    requires Enabled(c, s, l) && Runs(s.log, token) <= Dedup.FreshOf(s.answered, token)
    ensures var t := Apply(c, s, l); Runs(t.log, token) <= Dedup.FreshOf(t.answered, token)
  {
    match l
    case ByLoop(k) =>
      hide AdvertiserDoes, WorldDoes, LoopDoes, LoopCan, Runs, Dedup.FreshOf;
      LoopRuns(c, s, k, token);
    case ByAdvertiser(k) =>
      hide LoopDoes, WorldDoes, LoopCan, WorldCan, Runs, Dedup.FreshOf;
      RunsOfOneMore(s.log, Advertised, token);
    case ByWorld(_) =>
      hide LoopDoes, AdvertiserDoes, LoopCan, AdvertiserCan, Runs, Dedup.FreshOf;
  }

  lemma {:induction false} RunRuns(c: Config, s: State, steps: seq<Step>, token: nat)
    requires IsRun(c, s, steps) && Runs(s.log, token) <= Dedup.FreshOf(s.answered, token)
    ensures var t := After(c, s, steps); Runs(t.log, token) <= Dedup.FreshOf(t.answered, token)
    decreases |steps|
  {
    if steps == [] {
    } else {
      StepRuns(c, s, steps[0], token);
      RunRuns(c, Apply(c, s, steps[0]), steps[1..], token);
    }
  }

  /** Over any number of reconnects a request is handled at most once plus the number of times the set
      was cleared, and at most once until it has taken in 100000 tokens. */
  lemma HandledAtMostOnce(c: Config, s: State, token: nat)
    requires Reachable(c, s)
    ensures Runs(s.log, token) <= 1 + Dedup.After(s.answered).clears
    ensures Dedup.Fresh(s.answered) <= 100_000 ==> Runs(s.log, token) <= 1
  {
    var node: Node, steps: seq<Step> :| IsRun(c, Start(node), steps) && After(c, Start(node), steps) == s;
    RunRuns(c, Start(node), steps, token);
    Dedup.HandledRarely(s.answered, token);
  }
}
