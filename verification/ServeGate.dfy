/** When the advertiser can still come to advertise. */
module ServeGate {
  import opened Serve
  import opened ServeTheorems
  import opened ServeRecovery

  /** What is left for an advertiser that may go on and finds the flag raised. */
  function StepsToAdvertise(a: Advertiser): seq<Step>
    requires !a.Stopped?
  {
    match a
    case Polling => [ByAdvertiser(Poll), ByAdvertiser(Advertise)]
    case Sleeping => [ByAdvertiser(PollTimer), ByAdvertiser(Poll), ByAdvertiser(Advertise)]
    case Advertising => [ByAdvertiser(Advertise)]
    case Pausing => [ByAdvertiser(PauseTimer), ByAdvertiser(Advertise)]
  }

  lemma AdvertisesWhenReady(c: Config, s: State)
    requires s.ready && !s.advertiser.Stopped?
    ensures IsRun(c, s, StepsToAdvertise(s.advertiser))
    ensures Advertised in After(c, s, StepsToAdvertise(s.advertiser)).log
  {
    var at := s.(advertiser := Advertising);
    var done := AdvertiserDoes(at, Advertise);
    assert Advertised in done.log;
    Unroll(c, at, [ByAdvertiser(Advertise)], done);
    match s.advertiser {
      case Polling =>
        Unroll(c, s, StepsToAdvertise(Polling), at);
      case Sleeping =>
        var polling := s.(advertiser := Polling);
        Unroll(c, polling, StepsToAdvertise(Sleeping)[1..], at);
        Unroll(c, s, StepsToAdvertise(Sleeping), polling);
      case Pausing =>
        Unroll(c, s, StepsToAdvertise(Pausing), at);
      case Advertising =>
        assert s == at;
    }
  }

  /** A loop that has not returned can always come to raise the flag. */
  lemma BecomesReady(c: Config, s: State) returns (steps: seq<Step>)
    requires Inv(c, s) && !s.loop.Returned?
    ensures IsRun(c, s, steps)
    ensures After(c, s, steps).ready && After(c, s, steps).advertiser == s.advertiser
  {
    var up := if s.node.up then [] else [ByWorld(NodeUp)];
    var s1 := if s.node.up then s else WorldDoes(s, NodeUp);
    if !s.node.up {
      StepKeeps(c, s, ByWorld(NodeUp));
      Unroll(c, s, up, s1);
    }
    assert IsRun(c, s, up) && After(c, s, up) == s1;
    var others := Recovers(c, s1);
    RunKeeps(c, s1, others);
    JoinRuns(c, s, up, others);
    steps := up + others;
  }

  /** Nothing has been advertised, and nothing will be. */
  predicate Silent(s: State) {
    && Advertised !in s.log
    && (s.advertiser.Stopped? || (!s.ready && s.loop.Returned? && (s.advertiser.Polling? || s.advertiser.Sleeping?)))
  }

  lemma SilentStays(c: Config, s: State, l: Step)
    requires Silent(s) && Enabled(c, s, l)
    ensures Silent(Apply(c, s, l))
  {
  }

  lemma {:induction false} SilentInRun(c: Config, s: State, steps: seq<Step>)
    requires Silent(s) && IsRun(c, s, steps)
    ensures Silent(After(c, s, steps))
    decreases |steps|
  {
    if steps == [] {
    } else {
      SilentStays(c, s, steps[0]);
      SilentInRun(c, Apply(c, s, steps[0]), steps[1..]);
    }
  }

  ghost predicate MayAdvertise(c: Config, s: State) {
    exists steps: seq<Step> :: IsRun(c, s, steps) && Advertised in After(c, s, steps).log
  }

  /** The first advertisement can still come if and only if the advertiser has not been stopped, and the
      flag is raised or the loop that raises it has not returned. A shutdown silences the advertiser by being
      observed at the gate, or by having ended the loop before it was ever ready, and in no other way. */
  lemma {:induction false} MayAdvertiseIff(c: Config, s: State)
    requires Reachable(c, s) && Advertised !in s.log
    ensures MayAdvertise(c, s) <==> !s.advertiser.Stopped? && (s.ready || !s.loop.Returned?)
  {
    ReachableInv(c, s);
    if !s.advertiser.Stopped? && (s.ready || !s.loop.Returned?) {
      var steps := [];
      if !s.ready {
        steps := BecomesReady(c, s);
      }
      var t := After(c, s, steps);
      AdvertisesWhenReady(c, t);
      JoinRuns(c, s, steps, StepsToAdvertise(t.advertiser));
    } else {
      assert Silent(s);
      forall steps: seq<Step> | IsRun(c, s, steps) ensures Advertised !in After(c, s, steps).log {
        SilentInRun(c, s, steps);
      }
    }
  }

  /** A run that falls silent without the gate having observed anything: the shutdown ends the loop while it
      backs off from its first connection. */
  lemma SilencedByTheLoop(topic: string) returns (s: State, steps: seq<Step>)
    ensures var c, start := Config([topic], {topic}), Start(Node(true, 1, {}));
            IsRun(c, start, steps) && After(c, start, steps) == s
    ensures s.advertiser.Polling? && !MayAdvertise(Config([topic], {topic}), s)
  {
    var c, start := Config([topic], {topic}), Start(Node(true, 1, {}));
    steps := [ByLoop(OpenStream(false)), ByWorld(Shutdown), ByLoop(StopWaiting)];
    var s1 := start.(loop := BackingOff);
    var s2 := s1.(shutdown := true);
    s := s2.(loop := Returned);
    Unroll(c, s2, steps[2..], s);
    Unroll(c, s1, steps[1..], s2);
    Unroll(c, start, steps, s1);
    MayAdvertiseIff(c, s);
  }
}
