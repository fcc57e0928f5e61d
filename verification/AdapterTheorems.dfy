/** What holds in every interleaving of a flow's two threads, the app and the node. */
module AdapterTheorems {
  import opened Adapter

  /** The requests the handler has been asked about. */
  function Decided(s: State): seq<Frame> {
    if s.main.Deciding? && Taken(s) != [] then Taken(s)[..|Taken(s)| - 1] else Taken(s)
  }

  predicate Settled(s: State) {
    s.main.ClosingDown? || s.main.ClosingUp? || s.main.Joining? || s.main.Finished?
  }

  /** The handler was asked about each request once, in order, and told of the end once, after that. */
  predicate CallsInv(s: State) {
    && s.appTaken <= |s.appFrames|
    && (s.main.Deciding? ==> Taken(s) != [])
    && s.calls == Intercepts(Decided(s)) + if Settled(s) then [OnClose] else []
  }

  /** The node was sent what the handler let through, but for one frame that may be under way or lost. */
  predicate UpInv(h: Handler, s: State) {
    match s.main
    case Receiving => !Denied(h, Decided(s)) && s.toNode == Outputs(h, Decided(s))
    case Deciding => !Denied(h, Decided(s)) && s.toNode == Outputs(h, Decided(s))
    case Sending(b) => !Denied(h, Decided(s)) && s.toNode + [b] == Outputs(h, Decided(s))
    case _ =>
      && s.toNode <= Outputs(h, Decided(s)) && |Outputs(h, Decided(s))| <= |s.toNode| + 1
      && (Decided(s) != [] ==> !Denied(h, Decided(s)[..|Decided(s)| - 1]))
      && (s.main.Settling? ==> Denied(h, Decided(s)) || s.downClosed || s.upClosed)
  }

  /** The app was sent what the node sent, but for one frame that may be under way or lost. */
  predicate DownInv(s: State) {
    && s.nodeTaken <= |s.nodeFrames|
    && match s.relay
       case Listening => s.toApp == s.nodeFrames[..s.nodeTaken]
       case Passing(f) => s.toApp + [f] == s.nodeFrames[..s.nodeTaken]
       case LeavingDown =>
         s.toApp <= s.nodeFrames[..s.nodeTaken] && s.nodeTaken <= |s.toApp| + 1 && (s.downClosed || s.upClosed)
       case _ => s.toApp <= s.nodeFrames[..s.nodeTaken] && s.nodeTaken <= |s.toApp| + 1
  }

  /** Whoever is past closing an endpoint has closed it. */
  predicate CloseInv(s: State) {
    && (s.main.ClosingUp? || s.main.Joining? || s.main.Finished? ==> s.downClosed)
    && (s.main.Joining? || s.main.Finished? ==> s.upClosed)
    && (s.relay.LeavingUp? ==> s.downClosed)
    && (s.main.Finished? ==> s.relay.Stopped?)
  }

  predicate Inv(h: Handler, s: State) {
    CallsInv(s) && UpInv(h, s) && DownInv(s) && CloseInv(s)
  }

  lemma InterceptsMore(requests: seq<Frame>)
    requires requests != []
    ensures Intercepts(requests) == Intercepts(requests[..|requests| - 1]) + [Intercept(requests[|requests| - 1])]
  {
  }

  lemma TakeCalls(h: Handler, s: State)
    requires MainCan(s, Take) && CallsInv(s)
    ensures CallsInv(MainDoes(h, s, Take))
  {
    var t := MainDoes(h, s, Take);
    assert Taken(t)[..|Taken(t)| - 1] == Taken(s);
    hide Intercepts;
  }

  lemma DecideCalls(h: Handler, s: State)
    requires MainCan(s, Decide) && CallsInv(s)
    ensures CallsInv(MainDoes(h, s, Decide))
  {
    InterceptsMore(Taken(s));
    hide Intercepts;
  }

  lemma MainCalls(h: Handler, s: State, k: MainStep)
    requires MainCan(s, k) && CallsInv(s)
    ensures CallsInv(MainDoes(h, s, k))
  {
    hide Intercepts;
    match k
    case Take => TakeCalls(h, s);
    case Decide => DecideCalls(h, s);
    case _ =>
      assert Decided(MainDoes(h, s, k)) == Decided(s);
  }

  lemma MainUp(h: Handler, s: State, k: MainStep)
    requires MainCan(s, k) && CallsInv(s) && UpInv(h, s)
    ensures UpInv(h, MainDoes(h, s, k))
  {
    var t := MainDoes(h, s, k);
    match k
    case Take =>
      assert Taken(t)[..|Taken(t)| - 1] == Taken(s);
    case Decide =>
      assert Outputs(h, Taken(s)) == Outputs(h, Decided(s)) + if !Denied(h, Taken(s)) then [h(Taken(s)).bytes] else [];
      assert Decided(t) == Taken(s);
    case _ =>
      assert Decided(t) == Decided(s);
  }

  lemma MainLeavesDown(h: Handler, s: State, k: MainStep)
    requires MainCan(s, k) && DownInv(s) && CloseInv(s)
    ensures DownInv(MainDoes(h, s, k)) && CloseInv(MainDoes(h, s, k))
  {
  }

  lemma RelayKeeps(h: Handler, s: State, k: RelayStep)
    requires RelayCan(s, k) && Inv(h, s)
    ensures Inv(h, RelayDoes(s, k))
  {
    var t := RelayDoes(s, k);
    assert Taken(t) == Taken(s) && Decided(t) == Decided(s);
    hide Outputs, Denied;
  }

  lemma WorldKeeps(h: Handler, s: State, k: WorldStep)
    requires Inv(h, s)
    ensures Inv(h, WorldDoes(s, k))
  {
    var t := WorldDoes(s, k);
    assert Taken(t) == Taken(s) && Decided(t) == Decided(s);
    assert t.nodeFrames[..t.nodeTaken] == s.nodeFrames[..s.nodeTaken];
    hide Outputs, Denied;
  }

  lemma StepKeeps(h: Handler, s: State, l: Step)
    requires Enabled(s, l) && Inv(h, s)
    ensures Inv(h, Apply(h, s, l))
  {
    match l
    case ByMain(k) =>
      MainCalls(h, s, k);
      MainUp(h, s, k);
      MainLeavesDown(h, s, k);
      hide CallsInv, UpInv, DownInv, CloseInv, MainDoes, MainCan;
    case ByRelay(k) => RelayKeeps(h, s, k);
    case ByWorld(k) => WorldKeeps(h, s, k);
  }

  lemma {:induction false} RunKeeps(h: Handler, s: State, steps: seq<Step>)
    requires IsRun(h, s, steps) && Inv(h, s)
    ensures Inv(h, After(h, s, steps))
    decreases |steps|
  {
    if steps == [] {
    } else {
      StepKeeps(h, s, steps[0]);
      RunKeeps(h, Apply(h, s, steps[0]), steps[1..]);
    }
  }

  // ---- the promises ----

  lemma TakenWithin(h: Handler, s: State)
    requires Inv(h, s)
    ensures s.appTaken <= |s.appFrames|
  {
  }

  ghost predicate Reachable(h: Handler, s: State) {
    exists spawned: bool, steps: seq<Step> :: IsRun(h, Start(spawned), steps) && After(h, Start(spawned), steps) == s
  }

  lemma ReachableInv(h: Handler, s: State)
    requires Reachable(h, s)
    ensures Inv(h, s)
  {
    var spawned: bool, steps: seq<Step> :| IsRun(h, Start(spawned), steps) && After(h, Start(spawned), steps) == s;
    assert Intercepts([]) == [];
    RunKeeps(h, Start(spawned), steps);
  }

  lemma {:induction false} OutputsGrow(h: Handler, requests: seq<Frame>, n: nat)
    requires n <= |requests|
    ensures Outputs(h, requests[..n]) <= Outputs(h, requests)
    ensures Denied(h, requests[..n]) ==> Outputs(h, requests[..n]) == Outputs(h, requests) && Denied(h, requests)
  {
    if n < |requests| {
      var earlier := requests[..|requests| - 1];
      OutputsGrow(h, earlier, n);
      assert earlier[..n] == requests[..n];
    } else {
      assert requests[..n] == requests;
    }
  }

  /** The node receives, in order and without gaps, what the handler let through of the app's frames; and
      once a frame was refused it receives nothing that was sent after it. */
  lemma NodeSeesOutputs(h: Handler, s: State, denied: nat)
    requires Reachable(h, s) && denied <= |s.appFrames|
    ensures s.toNode <= Outputs(h, s.appFrames)
    ensures Denied(h, s.appFrames[..denied]) ==> s.toNode <= Outputs(h, s.appFrames[..denied])
  {
    ReachableInv(h, s);
    OutputsGrow(h, s.appFrames, s.appTaken);
    OutputsGrow(h, s.appFrames, denied);
    var decided := Decided(s);
    if decided != Taken(s) {
      OutputsGrow(h, s.appFrames, s.appTaken - 1);
      assert decided == s.appFrames[..s.appTaken - 1];
    }
    hide Outputs, Denied;
  }

  /** While the flow is open nothing is lost: what was let through of the requests taken has been sent,
      but for the frame being sent. */
  lemma NothingLostWhileOpen(h: Handler, s: State)
    requires Reachable(h, s) && (s.main.Receiving? || s.main.Sending?)
    ensures s.appTaken <= |s.appFrames|
    ensures s.toNode + (if s.main.Sending? then [s.main.bytes] else []) == Outputs(h, s.appFrames[..s.appTaken])
  {
    ReachableInv(h, s);
  }

  /** The app receives the node's frames unchanged, in order and without gaps. */
  lemma AppSeesVerbatim(h: Handler, s: State)
    requires Reachable(h, s)
    ensures s.toApp <= s.nodeFrames
  {
    ReachableInv(h, s);
    assert s.nodeFrames[..s.nodeTaken] <= s.nodeFrames;
  }

  /** The handler sees each request once, in order, none after it refused one, and is told of the end
      exactly once, after the last request, before the flow is over. */
  lemma ClosedOnceLast(h: Handler, s: State)
    requires Reachable(h, s)
    ensures exists n: nat :: n <= |s.appFrames|
                             && !Denied(h, s.appFrames[..if n > 0 then n - 1 else 0])
                             && s.calls == Intercepts(s.appFrames[..n]) + if Settled(s) then [OnClose] else []
    ensures s.main.Finished? ==> Settled(s) && s.downClosed && s.upClosed && s.relay.Stopped?
  {
    ReachableInv(h, s);
    var n := |Decided(s)|;
    assert Decided(s) == s.appFrames[..n];
    if n > 0 {
      assert s.appFrames[..n][..n - 1] == s.appFrames[..n - 1];
      assert !Denied(h, s.appFrames[..n - 1]);
    }
  }

  /** The flow ends only because a side has closed or the handler has refused a request: the first thread goes to
      settle for no other reason, and the second leaves only when a side has closed. */
  lemma EndsOnlyFor(h: Handler, s: State)
    requires Reachable(h, s)
    ensures s.main.Settling? ==> Denied(h, s.appFrames) || s.downClosed || s.upClosed
    ensures s.relay.LeavingDown? ==> s.downClosed || s.upClosed
  {
    ReachableInv(h, s);
    if s.main.Settling? {
      OutputsGrow(h, s.appFrames, s.appTaken);
      assert Decided(s) == s.appFrames[..s.appTaken];
    }
    hide Outputs, Denied;
  }

  // ---- the end ----

  predicate BothClosed(s: State) {
    s.downClosed && s.upClosed
  }

  predicate Over(s: State) {
    s.main.Finished? && s.relay.Stopped?
  }

  /** How many steps the two threads can still take once both endpoints are closed. */
  function Distance(s: State): nat {
    (match s.main
     case Receiving => 7
     case Deciding => 6
     case Sending(_) => 5
     case Settling => 4
     case ClosingDown => 3
     case ClosingUp => 2
     case Joining => 1
     case Finished => 0)
    + match s.relay
      case Listening => 4
      case Passing(_) => 3
      case LeavingDown => 2
      case LeavingUp => 1
      case Stopped => 0
  }

  lemma StepNears(h: Handler, s: State, l: Step)
    requires Enabled(s, l) && BothClosed(s)
    ensures BothClosed(Apply(h, s, l)) && Distance(Apply(h, s, l)) <= Distance(s) - if l.ByWorld? then 0 else 1
  {
  }

  lemma NoDeadlock(h: Handler, s: State)
    requires Reachable(h, s) && BothClosed(s) && !Over(s)
    ensures exists l: Step :: !l.ByWorld? && Enabled(s, l)
  {
    ReachableInv(h, s);
    hide Outputs, Denied, UpInv, CallsInv;
    var main := match s.main
      case Receiving => TakeFails
      case Deciding => Decide
      case Sending(_) => SendFails
      case Settling => Settle
      case ClosingDown => CloseDown
      case ClosingUp => CloseUp
      case _ => Join;
    var relay := match s.relay
      case Listening => HearFails
      case Passing(_) => PassFails
      case LeavingDown => LeaveDown
      case _ => LeaveUp;
    assert Enabled(s, ByMain(main)) || Enabled(s, ByRelay(relay));
  }

  function ThreadSteps(steps: seq<Step>): nat {
    if steps == [] then 0 else (if steps[0].ByWorld? then 0 else 1) + ThreadSteps(steps[1..])
  }

  /** Once both endpoints are closed, and each thread closes both as it leaves, the flow ends: in every run
      from there the threads take at most eleven more steps, and until they are over one of them can. */
  lemma {:induction false} TeardownEnds(h: Handler, s: State, steps: seq<Step>)
    requires Reachable(h, s) && BothClosed(s) && IsRun(h, s, steps)
    ensures ThreadSteps(steps) + Distance(After(h, s, steps)) <= Distance(s) <= 11
    ensures !Over(After(h, s, steps)) ==> exists l: Step :: !l.ByWorld? && Enabled(After(h, s, steps), l)
    decreases |steps|
  {
    if steps == [] {
      if !Over(s) {
        NoDeadlock(h, s);
      }
    } else {
      StepNears(h, s, steps[0]);
      ReachableOn(h, s, steps[0]);
      hide Reachable;
      TeardownEnds(h, Apply(h, s, steps[0]), steps[1..]);
    }
  }

  lemma ReachableOn(h: Handler, s: State, l: Step)
    requires Reachable(h, s) && Enabled(s, l)
    ensures Reachable(h, Apply(h, s, l))
  {
    var spawned: bool, steps: seq<Step> :| IsRun(h, Start(spawned), steps) && After(h, Start(spawned), steps) == s;
    RunExtends(h, Start(spawned), steps, l);
  }

  lemma {:induction false} RunExtends(h: Handler, s: State, steps: seq<Step>, l: Step)
    requires IsRun(h, s, steps) && Enabled(After(h, s, steps), l)
    ensures IsRun(h, s, steps + [l]) && After(h, s, steps + [l]) == Apply(h, After(h, s, steps), l)
    decreases |steps|
  {
    if steps == [] {
      assert [] + [l] == [l] && [l][1..] == [];
    } else {
      assert (steps + [l])[1..] == steps[1..] + [l];
      RunExtends(h, Apply(h, s, steps[0]), steps[1..], l);
    }
  }
}
