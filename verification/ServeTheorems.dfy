/** What the serve loop and the advertiser promise, in every interleaving with a failing node. */
module ServeTheorems {
  import opened Serve

  // ---- the invariant ----

  /** Opened and confirmed for its first `n` topics. */
  predicate ConfirmedUpTo(c: Config, log: seq<Event>, conn: nat, n: nat) {
    Opened(conn) in log && forall t :: 0 <= t < n && t < |c.topics| ==> Confirmed(conn, c.topics[t]) in log
  }

  /** Every topic of the connection was confirmed. */
  predicate Open(c: Config, log: seq<Event>, conn: nat) {
    ConfirmedUpTo(c, log, conn, |c.topics|)
  }

  /** Some connection raised the flag. */
  ghost predicate WasReady(log: seq<Event>) {
    exists conn: nat :: Ready(conn) in log
  }

  /** What comes before an event in the log. */
  ghost predicate Justified(c: Config, before: seq<Event>, e: Event) {
    match e
    case Confirmed(conn, _) => Opened(conn) in before
    case Ready(conn) => Open(c, before, conn)
    case Handled(conn, _) => Open(c, before, conn)
    case Advertised => WasReady(before)
    case Opened(_) => true
  }

  ghost predicate LogInOrder(c: Config, log: seq<Event>) {
    forall i :: 0 <= i < |log| ==> Justified(c, log[..i], log[i])
  }

  /** The log and the threads agree. */
  ghost predicate Progress(c: Config, s: State) {
    && (s.loop.Subscribing? ==> s.loop.next <= |c.topics| && ConfirmedUpTo(c, s.log, s.conn, s.loop.next))
    && (s.loop.Processing? ==> s.ready && Open(c, s.log, s.conn))
    && (s.ready ==> WasReady(s.log))
    && (s.advertiser.Advertising? || s.advertiser.Pausing? ==> s.ready)
    && (s.advertiser.Polling? || s.advertiser.Sleeping? ==> Advertised !in s.log)
  }

  /** While the node that feeds the stream still runs, it knows every topic confirmed so far. */
  predicate Subscribed(c: Config, s: State) {
    && (s.loop.Subscribing? && Current(s) ==>
          forall t :: 0 <= t < s.loop.next && t < |c.topics| ==> c.topics[t] in s.node.subscribed)
    && (s.loop.Processing? && Current(s) ==> forall t :: t in c.topics ==> t in s.node.subscribed)
    && s.stream.incarnation <= s.node.incarnation
  }

  ghost predicate Inv(c: Config, s: State) {
    LogInOrder(c, s.log) && Progress(c, s) && Subscribed(c, s)
  }

  lemma StartSatisfies(c: Config, node: Node)
    ensures Inv(c, Start(node))
  {
  }

  lemma LogGrows(c: Config, log: seq<Event>, e: Event)
    requires LogInOrder(c, log) && Justified(c, log, e)
    ensures LogInOrder(c, log + [e])
  {
    forall i | 0 <= i < |log| + 1 ensures Justified(c, (log + [e])[..i], (log + [e])[i]) {
      assert (log + [e])[..i] == log[..i];
      assert log[..|log|] == log;
    }
  }

  lemma OpenGrows(c: Config, log: seq<Event>, e: Event, conn: nat, n: nat)
    requires ConfirmedUpTo(c, log, conn, n)
    ensures ConfirmedUpTo(c, log + [e], conn, n)
  {
  }

  lemma ReadyGrows(log: seq<Event>, e: Event)
    requires WasReady(log)
    ensures WasReady(log + [e])
  {
    var conn: nat :| Ready(conn) in log;
    assert Ready(conn) in log + [e];
  }

  lemma AnswerKeeps(c: Config, s: State, m: Message)
    requires Inv(c, s) && s.loop.Processing?
    ensures Inv(c, Answer(c, s, m))
  {
    var t := Answer(c, s, m);
    if t.log != s.log {
      var e := Handled(s.conn, m.token.value);
      assert t.log == s.log + [e];
      LogGrows(c, s.log, e);
      OpenGrows(c, s.log, e, s.conn, |c.topics|);
      if s.ready {
        ReadyGrows(s.log, e);
      }
    }
  }

  lemma OpenStreamKeeps(c: Config, s: State, ok: bool)
    requires Inv(c, s) && LoopCan(c, s, OpenStream(ok))
    ensures Inv(c, LoopDoes(c, s, OpenStream(ok)))
  {
    if ok {
      var e := Opened(s.conn + 1);
      LogGrows(c, s.log, e);
      if s.ready {
        ReadyGrows(s.log, e);
      }
      assert ConfirmedUpTo(c, s.log + [e], s.conn + 1, 0);
    }
    hide LogInOrder, ConfirmedUpTo, WasReady, Justified;
  }

  lemma SubscribeKeeps(c: Config, s: State, ok: bool, applied: bool)
    requires Inv(c, s) && LoopCan(c, s, Subscribe(ok, applied))
    ensures Inv(c, LoopDoes(c, s, Subscribe(ok, applied)))
  {
    if ok {
      LogGrows(c, s.log, Confirmed(s.conn, c.topics[s.loop.next]));
    }
    SubscribeProgress(c, s, ok, applied);
    SubscribeTells(c, s, ok, applied);
    hide LogInOrder, Progress, Subscribed, ConfirmedUpTo, WasReady, Justified;
  }

  lemma SubscribeProgress(c: Config, s: State, ok: bool, applied: bool)
    requires Progress(c, s) && LoopCan(c, s, Subscribe(ok, applied))
    ensures Progress(c, LoopDoes(c, s, Subscribe(ok, applied)))
  {
    if ok {
      var e := Confirmed(s.conn, c.topics[s.loop.next]);
      OneMoreConfirmed(c, s.log, s.conn, s.loop.next);
      if s.ready {
        ReadyGrows(s.log, e);
      }
    }
    hide ConfirmedUpTo, WasReady;
  }

  lemma SubscribeTells(c: Config, s: State, ok: bool, applied: bool)
    requires Subscribed(c, s) && LoopCan(c, s, Subscribe(ok, applied))
    ensures Subscribed(c, LoopDoes(c, s, Subscribe(ok, applied)))
  {
  }

  lemma OneMoreConfirmed(c: Config, log: seq<Event>, conn: nat, n: nat)
    requires ConfirmedUpTo(c, log, conn, n) && n < |c.topics|
    ensures ConfirmedUpTo(c, log + [Confirmed(conn, c.topics[n])], conn, n + 1)
  {
    var e := Confirmed(conn, c.topics[n]);
    OpenGrows(c, log, e, conn, n);
    assert e in log + [e];
  }

  lemma AllSubscribedKeeps(c: Config, s: State)
    requires Inv(c, s) && LoopCan(c, s, AllSubscribed)
    ensures Inv(c, LoopDoes(c, s, AllSubscribed))
  {
    var e := Ready(s.conn);
    LogGrows(c, s.log, e);
    OpenGrows(c, s.log, e, s.conn, |c.topics|);
    assert e in s.log + [e];
  }

  lemma LoopKeeps(c: Config, s: State, k: LoopStep)
    requires Inv(c, s) && LoopCan(c, s, k)
    ensures Inv(c, LoopDoes(c, s, k))
  {
    match k
    case OpenStream(ok) => OpenStreamKeeps(c, s, ok);
    case Subscribe(ok, applied) => SubscribeKeeps(c, s, ok, applied);
    case AllSubscribed => AllSubscribedKeeps(c, s);
    case TakeMessage =>
      var t := s.(stream := s.stream.(unread := s.stream.unread[1..]));
      AnswerKeeps(c, t, s.stream.unread[0]);
    case _ =>
  }

  lemma AdvertiserKeeps(c: Config, s: State, k: AdvertiserStep)
    requires Inv(c, s) && AdvertiserCan(s, k)
    ensures Inv(c, AdvertiserDoes(s, k))
  {
    if k.Advertise? {
      LogGrows(c, s.log, Advertised);
      ReadyGrows(s.log, Advertised);
      if s.loop.Subscribing? {
        OpenGrows(c, s.log, Advertised, s.conn, s.loop.next);
      } else if s.loop.Processing? {
        OpenGrows(c, s.log, Advertised, s.conn, |c.topics|);
      }
    }
  }

  lemma WorldKeeps(c: Config, s: State, k: WorldStep)
    requires Inv(c, s) && WorldCan(s, k)
    ensures Inv(c, WorldDoes(s, k))
  {
  }

  lemma {:induction false} StepKeeps(c: Config, s: State, l: Step)
    requires Inv(c, s) && Enabled(c, s, l)
    ensures Inv(c, Apply(c, s, l))
  {
    hide Inv;
    match l
    case ByLoop(k) => LoopKeeps(c, s, k);
    case ByAdvertiser(k) => AdvertiserKeeps(c, s, k);
    case ByWorld(k) => WorldKeeps(c, s, k);
  }

  lemma {:induction false} RunKeeps(c: Config, s: State, steps: seq<Step>)
    requires Inv(c, s) && IsRun(c, s, steps)
    ensures Inv(c, After(c, s, steps))
    decreases |steps|
  {
    if steps == [] {
    } else {
      StepKeeps(c, s, steps[0]);
      RunKeeps(c, Apply(c, s, steps[0]), steps[1..]);
    }
  }

  ghost predicate Reachable(c: Config, s: State) {
    exists node: Node, steps: seq<Step> :: IsRun(c, Start(node), steps) && After(c, Start(node), steps) == s
  }

  lemma ReachableInv(c: Config, s: State)
    requires Reachable(c, s)
    ensures Inv(c, s)
  {
    var node: Node, steps: seq<Step> :| IsRun(c, Start(node), steps) && After(c, Start(node), steps) == s;
    StartSatisfies(c, node);
    RunKeeps(c, Start(node), steps);
  }

  // ---- the promises ----

  /** Never deaf: whenever the loop processes a stream that the running node feeds, the node as it is
      now knows every served topic. */
  lemma NeverDeaf(c: Config, s: State)
    requires Reachable(c, s) && s.loop.Processing? && Current(s)
    ensures forall t :: t in c.topics ==> t in s.node.subscribed
  {
    ReachableInv(c, s);
  }

  /** No message is handled on a connection before it was opened and all its topics were confirmed. */
  lemma HandledAfterConfirmed(c: Config, s: State, i: nat)
    requires Reachable(c, s) && i < |s.log| && s.log[i].Handled?
    ensures Opened(s.log[i].conn) in s.log[..i]
    ensures forall t :: t in c.topics ==> Confirmed(s.log[i].conn, t) in s.log[..i]
  {
    ReachableInv(c, s);
    assert Justified(c, s.log[..i], s.log[i]);
  }

  /** The first advertisement comes after some connection was opened, then had all its topics confirmed,
      and then raised the flag. */
  lemma AdvertisedAfterConfirmed(c: Config, s: State, i: nat) returns (r: nat)
    requires Reachable(c, s) && i < |s.log| && s.log[i].Advertised?
    ensures r < i && s.log[r].Ready? && Open(c, s.log[..r], s.log[r].conn)
    ensures forall t :: t in c.topics ==>
              exists k :: 0 <= k < r && s.log[k] == Confirmed(s.log[r].conn, t) && Opened(s.log[r].conn) in s.log[..k]
  {
    ReachableInv(c, s);
    assert Justified(c, s.log[..i], s.log[i]);
    var conn: nat :| Ready(conn) in s.log[..i];
    r :| 0 <= r < i && s.log[r] == Ready(conn);
    assert Justified(c, s.log[..r], s.log[r]);
    forall t | t in c.topics
      ensures exists k :: 0 <= k < r && s.log[k] == Confirmed(conn, t) && Opened(conn) in s.log[..k]
    {
      assert Confirmed(conn, t) in s.log[..r];
      var k :| 0 <= k < r && s.log[k] == Confirmed(conn, t);
      assert Justified(c, s.log[..k], s.log[k]);
    }
  }

  /** The gate was left by the shutdown. */
  predicate NeverAdvertises(s: State) {
    s.advertiser.Stopped? && Advertised !in s.log
  }

  lemma StoppedStays(c: Config, s: State, l: Step)
    requires Enabled(c, s, l) && NeverAdvertises(s)
    ensures NeverAdvertises(Apply(c, s, l))
  {
  }

  lemma {:induction false} StoppedStaysInRun(c: Config, s: State, steps: seq<Step>)
    requires IsRun(c, s, steps) && NeverAdvertises(s)
    ensures NeverAdvertises(After(c, s, steps))
    decreases |steps|
  {
    if steps == [] {
    } else {
      StoppedStays(c, s, steps[0]);
      StoppedStaysInRun(c, Apply(c, s, steps[0]), steps[1..]);
    }
  }

  /** An advertiser that observes the shutdown at the gate, before it has seen the flag, never advertises:
      not before, and not in any continuation. */
  lemma ShutdownAtTheGate(c: Config, s: State, steps: seq<Step>)
    requires Reachable(c, s) && AdvertiserCan(s, StopPolling)
    requires IsRun(c, AdvertiserDoes(s, StopPolling), steps)
    ensures Advertised !in After(c, AdvertiserDoes(s, StopPolling), steps).log
  {
    ReachableInv(c, s);
    StoppedStaysInRun(c, AdvertiserDoes(s, StopPolling), steps);
  }

  /** A shutdown that has resolved, even before the flag was raised, does not by itself keep a late poll from
      seeing the flag and advertising. */
  lemma ShutdownUnobserved(topic: string) returns (s: State, early: State, steps: seq<Step>)
    ensures var c := Config([topic], {topic});
            && Reachable(c, early) && early.shutdown && !early.ready
            && IsRun(c, early, steps) && s == After(c, early, steps) && Advertised in s.log
  {
    var c, node := Config([topic], {topic}), Node(true, 1, {});
    var first := [ByWorld(Shutdown)];
    early := Start(node).(shutdown := true);
    assert IsRun(c, early, []) && After(c, early, []) == early;
    assert IsRun(c, Start(node), first) && After(c, Start(node), first) == early;
    var s1 := early.(loop := Subscribing(0), conn := 1, stream := Stream(1, []), log := [Opened(1)]);
    var s2 := s1.(loop := Subscribing(1), node := Node(true, 1, {topic}), log := [Opened(1), Confirmed(1, topic)]);
    var s3 := s2.(loop := Processing, ready := true, log := [Opened(1), Confirmed(1, topic), Ready(1)]);
    var s4 := s3.(advertiser := Advertising);
    s := s4.(advertiser := Pausing, log := [Opened(1), Confirmed(1, topic), Ready(1), Advertised]);
    steps := [ByLoop(OpenStream(true)), ByLoop(Subscribe(true, true)), ByLoop(AllSubscribed),
              ByAdvertiser(Poll), ByAdvertiser(Advertise)];
    Unroll(c, s4, steps[4..], s);
    Unroll(c, s3, steps[3..], s4);
    Unroll(c, s2, steps[2..], s3);
    Unroll(c, s1, steps[1..], s2);
    Unroll(c, early, steps, s1);
  }

  lemma {:induction false} JoinRuns(c: Config, s: State, a: seq<Step>, b: seq<Step>)
    requires IsRun(c, s, a) && IsRun(c, After(c, s, a), b)
    ensures IsRun(c, s, a + b) && After(c, s, a + b) == After(c, After(c, s, a), b)
    decreases |a|
  {
    if a == [] {
      assert a + b == b;
    } else {
      assert (a + b)[1..] == a[1..] + b;
      JoinRuns(c, Apply(c, s, a[0]), a[1..], b);
    }
  }

  lemma Unroll(c: Config, s: State, steps: seq<Step>, t: State)
    requires steps != [] && Enabled(c, s, steps[0]) && Apply(c, s, steps[0]) == t
    ensures IsRun(c, t, steps[1..]) ==> IsRun(c, s, steps) && After(c, s, steps) == After(c, t, steps[1..])
    ensures steps[1..] == [] ==> IsRun(c, t, steps[1..]) && After(c, t, steps[1..]) == t
  {
  }
}
