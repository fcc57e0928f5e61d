/** How the end of a flow comes about: one side closes, and the threads close the other. */
module AdapterTeardown {
  import opened Adapter
  import opened AdapterTheorems

  // ---- the app closes ----

  function MainSteps(steps: seq<Step>): nat {
    if steps == [] then 0 else (if steps[0].ByMain? then 1 else 0) + MainSteps(steps[1..])
  }

  /** How many steps the first thread can still take once the app sends nothing more. */
  function MainDistance(s: State): nat {
    3 * (if s.appTaken <= |s.appFrames| then |s.appFrames| - s.appTaken else 0)
    + match s.main
      case Receiving => 7
      case Deciding => 9
      case Sending(_) => 8
      case Settling => 4
      case ClosingDown => 3
      case ClosingUp => 2
      case Joining => 1
      case Finished => 0
  }

  lemma MainNears(h: Handler, s: State, l: Step)
    requires Enabled(s, l) && s.downClosed
    ensures Apply(h, s, l).downClosed
    ensures MainDistance(Apply(h, s, l)) + (if l.ByMain? then 1 else 0) <= MainDistance(s)
  {
  }

  /** Past its own closing the first thread has closed the node's side; before, it has a step to take. */
  lemma MainGoesOn(h: Handler, s: State)
    requires Inv(h, s) && s.downClosed
    ensures !s.upClosed ==> exists k: MainStep :: MainCan(s, k)
    ensures MainDistance(s) == 0 ==> s.upClosed
  {
    hide CallsInv, UpInv, DownInv;
    var k := match s.main
      case Receiving => TakeFails
      case Deciding => Decide
      case Sending(_) => if s.upClosed then SendFails else Send
      case Settling => Settle
      case ClosingDown => CloseDown
      case ClosingUp => CloseUp
      case _ => Join;
    assert !s.upClosed ==> MainCan(s, k);
  }

  /** When the app has closed its side, the first thread passes on no more than what was still to be
      received, and closes the node's side: in every run it takes at most three steps for each frame still
      there and nine more, and until the node's side is closed it has a step to take. */
  lemma {:induction false} AppCloseSpreads(h: Handler, s: State, steps: seq<Step>)
    requires Reachable(h, s) && s.downClosed && IsRun(h, s, steps)
    ensures MainSteps(steps) + MainDistance(After(h, s, steps)) <= MainDistance(s)
    ensures MainDistance(s) <= 3 * (|s.appFrames| - s.appTaken) + 9
    ensures MainSteps(steps) >= MainDistance(s) ==> BothClosed(After(h, s, steps))
    ensures After(h, s, steps).downClosed
    ensures !After(h, s, steps).upClosed ==> exists k: MainStep :: MainCan(After(h, s, steps), k)
    decreases |steps|
  {
    ReachableInv(h, s);
    if steps == [] {
      MainGoesOn(h, s);
    } else {
      MainNears(h, s, steps[0]);
      ReachableOn(h, s, steps[0]);
      hide Reachable, MainDistance, Inv, MainCan;
      AppCloseSpreads(h, Apply(h, s, steps[0]), steps[1..]);
    }
  }

  // ---- the node closes ----

  function RelaySteps(steps: seq<Step>): nat {
    if steps == [] then 0 else (if steps[0].ByRelay? then 1 else 0) + RelaySteps(steps[1..])
  }

  /** How many steps the second thread can still take once the node sends nothing more. */
  function RelayDistance(s: State): nat {
    2 * (if s.nodeTaken <= |s.nodeFrames| then |s.nodeFrames| - s.nodeTaken else 0)
    + match s.relay
      case Listening => 3
      case Passing(_) => 4
      case LeavingDown => 2
      case LeavingUp => 1
      case Stopped => 0
  }

  /** The second thread was started: it runs, or has closed both sides. */
  predicate Started(s: State) {
    s.relay.Stopped? ==> s.downClosed
  }

  lemma RelayNears(h: Handler, s: State, l: Step)
    requires Enabled(s, l) && s.upClosed && Started(s) && CloseInv(s)
    ensures Apply(h, s, l).upClosed && Started(Apply(h, s, l))
    ensures RelayDistance(Apply(h, s, l)) + (if l.ByRelay? then 1 else 0) <= RelayDistance(s)
  {
  }

  lemma RelayGoesOn(h: Handler, s: State)
    requires Inv(h, s) && s.upClosed && Started(s)
    ensures !s.downClosed ==> exists k: RelayStep :: RelayCan(s, k)
    ensures RelayDistance(s) == 0 ==> s.downClosed
  {
    hide CallsInv, UpInv, DownInv;
    var k := match s.relay
      case Listening => HearFails
      case Passing(_) => if s.downClosed then PassFails else Pass
      case LeavingDown => LeaveDown
      case _ => LeaveUp;
    assert !s.downClosed ==> RelayCan(s, k);
  }

  /** When the node has closed its side, the second thread closes the app's, likewise, if it was started. */
  lemma {:induction false} NodeCloseSpreads(h: Handler, s: State, steps: seq<Step>)
    requires Reachable(h, s) && s.upClosed && Started(s) && IsRun(h, s, steps)
    ensures RelaySteps(steps) + RelayDistance(After(h, s, steps)) <= RelayDistance(s)
    ensures RelayDistance(s) <= 2 * (|s.nodeFrames| - s.nodeTaken) + 4
    ensures RelaySteps(steps) >= RelayDistance(s) ==> BothClosed(After(h, s, steps))
    ensures After(h, s, steps).upClosed
    ensures !After(h, s, steps).downClosed ==> exists k: RelayStep :: RelayCan(After(h, s, steps), k)
    decreases |steps|
  {
    ReachableInv(h, s);
    if steps == [] {
      RelayGoesOn(h, s);
    } else {
      RelayNears(h, s, steps[0]);
      ReachableOn(h, s, steps[0]);
      hide Reachable, RelayDistance, Inv, RelayCan, Started;
      NodeCloseSpreads(h, Apply(h, s, steps[0]), steps[1..]);
    }
  }

  // ---- when it does not ----

  /** Nothing happens in the flow until the world outside does something. */
  ghost predicate Waiting(s: State) {
    forall l: Step :: Enabled(s, l) ==> l.ByWorld?
  }

  /** Once a side is closed, a flow that is not over waits for the outside exactly when the second thread was
      never started, the node has closed, and the first waits for the app. */
  lemma {:induction false} WaitsIff(h: Handler, s: State)
    requires Reachable(h, s) && (s.downClosed || s.upClosed) && !Over(s)
    ensures Waiting(s) <==> !s.downClosed && s.relay.Stopped? && s.main.Receiving? && s.appTaken == |s.appFrames|
  {
    ReachableInv(h, s);
    hide CallsInv, UpInv, Reachable;
    assert s.appTaken <= |s.appFrames| by {
      TakenWithin(h, s);
    }
    if s.downClosed {
      if s.upClosed {
        NoDeadlockNow(s);
      } else {
        MainGoesOn(h, s);
        var k: MainStep :| MainCan(s, k);
        assert Enabled(s, ByMain(k));
      }
    } else if Started(s) {
      RelayGoesOn(h, s);
      var k: RelayStep :| RelayCan(s, k);
      assert Enabled(s, ByRelay(k));
    } else {
      FirstAlone(s);
    }
  }

  lemma NoDeadlockNow(s: State)
    requires CloseInv(s) && BothClosed(s) && !Over(s) && s.appTaken <= |s.appFrames|
    ensures !Waiting(s)
  {
    assert s.relay.Listening? ==> Enabled(s, ByRelay(HearFails));
    assert s.relay.Passing? ==> Enabled(s, ByRelay(PassFails));
    assert s.relay.LeavingDown? ==> Enabled(s, ByRelay(LeaveDown));
    assert s.relay.LeavingUp? ==> Enabled(s, ByRelay(LeaveUp));
    if s.relay.Stopped? {
      FirstAlone(s);
    }
  }

  /** The first thread when the second has stopped. */
  lemma FirstAlone(s: State)
    requires s.upClosed && s.relay.Stopped? && s.appTaken <= |s.appFrames| && !s.main.Finished?
    ensures Waiting(s) <==> !s.downClosed && s.main.Receiving? && s.appTaken == |s.appFrames|
  {
    var k := match s.main
      case Receiving => if s.downClosed then TakeFails else Take
      case Deciding => Decide
      case Sending(_) => SendFails
      case Settling => Settle
      case ClosingDown => CloseDown
      case ClosingUp => CloseUp
      case _ => Join;
    assert Enabled(s, ByMain(k)) || (!s.downClosed && s.main.Receiving? && s.appTaken == |s.appFrames|);
  }

  /** So a flow whose second thread could not be started may wait although the node is gone. */
  lemma WaitsWithoutRelay(h: Handler) returns (s: State)
    ensures Reachable(h, s) && s.upClosed && Waiting(s) && !Over(s)
  {
    var start, steps := Start(false), [ByWorld(NodeCloses)];
    s := start.(upClosed := true);
    assert steps[1..] == [];
    assert Apply(h, start, steps[0]) == s;
    assert IsRun(h, s, []) && After(h, s, []) == s;
    assert IsRun(h, start, steps) && After(h, start, steps) == s;
    FirstAlone(s);
  }
}
