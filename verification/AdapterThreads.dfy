/** The two relay loops of a flow, in the program's order. */
module AdapterThreads {
  import opened Basics
  import opened Adapter
  import opened AdapterTheorems
  import opened AdapterObject

  predicate MainAt(w: World, m: Main)
    reads w
  {
    w.me.First? && w.state.main == m
  }

  predicate RelayAt(w: World, r: Relay)
    reads w
  {
    w.me.Second? && w.state.relay == r
  }

  // ---- from the app to the node ----

  /** Receives the app's next request; none when the flow has ended. */
  method TakeRequest(w: World) returns (turn: Turn, buf: Frame)
    requires w.Valid() && MainAt(w, Receiving)
    modifies w, w.handler, w.down, w.up
    ensures w.Valid() && |w.script| <= |old(w.script)|
    ensures w.state.toNode == old(w.state.toNode) && w.handler.seen == old(w.handler.seen)
    ensures match turn
            case Goes => MainAt(w, Deciding) && Taken(w.state) == w.handler.seen + [buf] && |w.script| < |old(w.script)|
            case Ends => MainAt(w, Settling)
            case Idles => w.Stuck()
  {
    hide IsRun, After, OwnSteps, Inv, Intercepts, Taken, Decided, FromApp, FromNode;
    var l := w.Turn();
    SameSeen(old(w.state), w.state);
    if l.None? {
      return Idles, [];
    }
    if l.value == ByMain(TakeFails) {
      FailedToTake(w.handler.decide, w.state);
      w.Did(ByMain(TakeFails));
      return Ends, [];
    }
    ghost var before, next := w.state, MainDoes(w.handler.decide, w.state, Take);
    TakenMore(w.handler.decide, before);
    buf := w.down.Receive();
    SameHead(buf, w.down.inbox, before.appFrames[before.appTaken], FromApp(next));
    w.Did(ByMain(Take));
    return Goes, buf;
  }

  lemma SameHead<T>(x: T, s: seq<T>, y: T, t: seq<T>)
    requires [x] + s == [y] + t
    ensures x == y && s == t
  {
    assert ([x] + s)[0] == x && ([x] + s)[1..] == s;
    assert ([y] + t)[0] == y && ([y] + t)[1..] == t;
  }

  lemma SameSeen(s: State, t: State)
    requires SameFor(First, s, t)
    ensures Decided(t) == Decided(s)
  {
  }

  lemma FailedToTake(h: Handler, s: State)
    requires MainCan(s, TakeFails)
    ensures var t := MainDoes(h, s, TakeFails);
            Decided(t) == Decided(s) && FromApp(t) == FromApp(s) && FromNode(t) == FromNode(s)
  {
  }

  lemma TakenMore(h: Handler, s: State)
    requires MainCan(s, Take)
    ensures var t := MainDoes(h, s, Take);
            && Taken(t) == Decided(s) + [s.appFrames[s.appTaken]] && Decided(t) == Decided(s)
            && FromApp(s) == [s.appFrames[s.appTaken]] + FromApp(t) && FromNode(t) == FromNode(s)
  {
  }

  /** Asks the handler about it. */
  method Decide(w: World, buf: Frame) returns (turn: Turn, action: Action)
    requires w.Valid() && MainAt(w, Deciding) && Taken(w.state) == w.handler.seen + [buf]
    modifies w, w.handler, w.down, w.up
    ensures w.Valid() && |w.script| <= |old(w.script)| && w.state.toNode == old(w.state.toNode)
    ensures if turn.Idles? then w.Stuck() && w.handler.seen == old(w.handler.seen)
            else w.handler.seen == old(w.handler.seen) + [buf] && action == w.handler.decide(w.handler.seen)
    ensures turn.Goes? ==> action.Forward? && MainAt(w, Sending(action.bytes))
    ensures turn.Ends? ==> action.Deny? && MainAt(w, Settling)
  {
    hide IsRun, After, OwnSteps, Inv, Intercepts, RelayDoes, WorldDoes;
    var l := w.Turn();
    if l.None? {
      return Idles, Deny("");
    }
    assert Taken(w.state) == w.handler.seen + [buf];
    action := w.handler.Ask(buf);
    w.Did(ByMain(MainStep.Decide));
    return if action.Forward? then Goes else Ends, action;
  }

  /** Passes on what the handler made of it. */
  method PassOn(w: World, bytes: Frame) returns (turn: Turn)
    requires w.Valid() && MainAt(w, Sending(bytes))
    modifies w, w.handler, w.down, w.up
    ensures w.Valid() && |w.script| <= |old(w.script)| && w.handler.seen == old(w.handler.seen)
    ensures w.state.toNode == old(w.state.toNode) + if turn.Goes? then [bytes] else []
    ensures match turn
            case Goes => MainAt(w, Receiving)
            case Ends => MainAt(w, Settling)
            case Idles => w.Stuck()
  {
    hide IsRun, After, OwnSteps, Inv, Intercepts, RelayDoes, WorldDoes;
    var l := w.Turn();
    if l.None? {
      return Idles;
    }
    var ok := w.up.Send(bytes);
    w.Did(ByMain(if ok then MainStep.Send else SendFails));
    return if ok then Goes else Ends;
  }

  /** One turn of the loop. */
  method PassOne(w: World) returns (turn: Turn, passed: seq<Frame>)
    requires w.Valid() && MainAt(w, Receiving)
    modifies w, w.handler, w.down, w.up
    ensures w.Valid() && |w.script| <= |old(w.script)| && w.state.toNode == old(w.state.toNode) + passed
    ensures match turn
            case Goes =>
              && MainAt(w, Receiving) && |w.script| < |old(w.script)| && |w.handler.seen| == |old(w.handler.seen)| + 1
              && w.handler.decide(w.handler.seen).Forward? && passed == [w.handler.decide(w.handler.seen).bytes]
            case Ends => MainAt(w, Settling) && passed == []
            case Idles => w.Stuck() && passed == []
  {
    hide World.Valid, World.Stuck, World.Mirrors, Taken;
    var buf, action;
    passed := [];
    turn, buf := TakeRequest(w);
    if turn.Goes? {
      turn, action := Decide(w, buf);
      if turn.Goes? {
        turn := PassOn(w, action.bytes);
        if turn.Goes? {
          passed := [action.bytes];
        }
      }
    }
  }

  const FIRST_LEAVES: seq<Step> := [ByMain(Settle), ByMain(CloseDown), ByMain(CloseUp), ByMain(Join)]

  /** The first thread: asks the handler about every request and passes on what it lets through, until the
      flow ends or the handler refuses; `passed` is what it passed on. Then it tells the handler, closes both
      endpoints, and waits for the other thread. */
  method ServeFlow(w: World) returns (over: bool, passed: seq<Frame>)
    requires w.Valid() && MainAt(w, Receiving)
    modifies w, w.handler, w.down, w.up
    ensures w.Valid() && (over || w.Stuck())
    ensures w.state.toNode == old(w.state.toNode) + passed
            && w.state.toNode <= Outputs(w.handler.decide, w.handler.seen)
    ensures over ==> MainAt(w, Finished) && w.state.relay.Stopped? && EndsWith(w.Mine(), FIRST_LEAVES)
    ensures over ==> w.handler.calls == Intercepts(w.handler.seen) + [OnClose]
  {
    hide World.Valid, World.Stuck, World.Mirrors, World.Mine, Outputs, Intercepts;
    passed := [];
    var turn := Turn.Goes;
    while turn.Goes?
      invariant w.Valid() && w.state.toNode == old(w.state.toNode) + passed
      invariant match turn
                case Goes => MainAt(w, Receiving)
                case Ends => MainAt(w, Settling)
                case Idles => w.Stuck()
      decreases |w.script|, turn.Goes?
    {
      var more;
      turn, more := PassOne(w);
      AppendAssociates(old(w.state.toNode), passed, more);
      passed := passed + more;
    }
    over := false;
    if turn.Ends? {
      over := LeaveFirst(w);
    }
    SeenIsDecided(w);
  }

  /** What the invariant says in terms of the objects. */
  lemma SeenIsDecided(w: World)
    requires w.Valid()
    ensures w.state.toNode <= Outputs(w.handler.decide, w.handler.seen)
    ensures w.state.main.Finished? ==> w.handler.calls == Intercepts(w.handler.seen) + [OnClose]
  {
    hide IsRun, After, Intercepts;
  }

  /** The handler is told of the end. */
  method TellHandler(w: World) returns (done: bool)
    requires w.Valid() && MainAt(w, Settling)
    modifies w, w.handler, w.down, w.up
    ensures w.Valid() && w.state.toNode == old(w.state.toNode)
    ensures done ==> MainAt(w, ClosingDown) && w.Mine() == old(w.Mine()) + [ByMain(MainStep.Settle)]
    ensures !done ==> w.Stuck()
  {
    hide IsRun, After, OwnSteps, Inv, Intercepts, RelayDoes, WorldDoes;
    var l := w.Turn();
    if l.None? {
      return false;
    }
    w.handler.End();
    w.Did(ByMain(MainStep.Settle));
    return true;
  }

  /** The app's end is closed. */
  method CloseToApp(w: World) returns (done: bool)
    requires w.Valid() && MainAt(w, ClosingDown)
    modifies w, w.handler, w.down, w.up
    ensures w.Valid() && w.state.toNode == old(w.state.toNode)
    ensures done ==> MainAt(w, ClosingUp) && w.Mine() == old(w.Mine()) + [ByMain(MainStep.CloseDown)] && w.down.closed
    ensures !done ==> w.Stuck()
  {
    hide IsRun, After, OwnSteps, Inv, Intercepts, RelayDoes, WorldDoes;
    var l := w.Turn();
    if l.None? {
      return false;
    }
    w.down.Close();
    w.Did(ByMain(MainStep.CloseDown));
    return true;
  }

  /** The node's end is closed. */
  method CloseToNode(w: World) returns (done: bool)
    requires w.Valid() && MainAt(w, ClosingUp)
    modifies w, w.handler, w.down, w.up
    ensures w.Valid() && w.state.toNode == old(w.state.toNode)
    ensures done ==> MainAt(w, Joining) && w.Mine() == old(w.Mine()) + [ByMain(MainStep.CloseUp)] && w.up.closed
    ensures !done ==> w.Stuck()
  {
    hide IsRun, After, OwnSteps, Inv, Intercepts, RelayDoes, WorldDoes;
    var l := w.Turn();
    if l.None? {
      return false;
    }
    w.up.Close();
    w.Did(ByMain(MainStep.CloseUp));
    return true;
  }

  /** The other thread is waited for. */
  method JoinRelay(w: World) returns (done: bool)
    requires w.Valid() && MainAt(w, Joining)
    modifies w, w.handler, w.down, w.up
    ensures w.Valid() && w.state.toNode == old(w.state.toNode)
    ensures done ==> MainAt(w, Finished) && w.Mine() == old(w.Mine()) + [ByMain(MainStep.Join)]
    ensures done ==> w.state.relay.Stopped?
    ensures !done ==> w.Stuck()
  {
    hide IsRun, After, OwnSteps, Inv, Intercepts, RelayDoes, WorldDoes;
    var l := w.Turn();
    if l.None? {
      return false;
    }
    w.Did(ByMain(MainStep.Join));
    return true;
  }

  method LeaveFirst(w: World) returns (over: bool)
    requires w.Valid() && MainAt(w, Settling)
    modifies w, w.handler, w.down, w.up
    ensures w.Valid() && (over || w.Stuck()) && w.state.toNode == old(w.state.toNode)
    ensures over ==> MainAt(w, Finished) && w.state.relay.Stopped? && w.Mine() == old(w.Mine()) + FIRST_LEAVES
  {
    hide World.Valid, World.Stuck, World.Mirrors, World.Mine;
    over := TellHandler(w);
    if over {
      over := CloseToApp(w);
    }
    if over {
      over := CloseToNode(w);
    }
    if over {
      over := JoinRelay(w);
    }
  }

  // ---- from the node to the app ----

  /** Receives the node's next frame; none when the flow has ended. */
  method Hear(w: World) returns (turn: Turn, buf: Frame)
    requires w.Valid() && RelayAt(w, Listening)
    modifies w, w.handler, w.down, w.up
    ensures w.Valid() && |w.script| <= |old(w.script)| && w.state.toApp == old(w.state.toApp)
    ensures match turn
            case Goes => RelayAt(w, Passing(buf)) && |w.script| < |old(w.script)|
            case Ends => RelayAt(w, LeavingDown)
            case Idles => w.Stuck()
  {
    hide IsRun, After, OwnSteps, Outputs, Denied, UpInv, CallsInv, Decided;
    var l := w.Turn();
    if l.None? {
      return Idles, [];
    }
    if l.value == ByRelay(HearFails) {
      SameDecided(w.state, RelayDoes(w.state, HearFails));
      w.Did(ByRelay(HearFails));
      return Ends, [];
    }
    ghost var before, next := w.state, RelayDoes(w.state, RelayStep.Hear);
    HeardMore(before);
    SameDecided(before, next);
    buf := w.up.Receive();
    SameHead(buf, w.up.inbox, before.nodeFrames[before.nodeTaken], FromNode(next));
    w.Did(ByRelay(RelayStep.Hear));
    return Goes, buf;
  }

  lemma HeardMore(s: State)
    requires RelayCan(s, RelayStep.Hear)
    ensures FromNode(s) == [s.nodeFrames[s.nodeTaken]] + FromNode(RelayDoes(s, RelayStep.Hear))
  {
  }

  lemma SameDecided(s: State, t: State)
    requires t.appFrames == s.appFrames && t.appTaken == s.appTaken && t.main == s.main
    ensures Decided(t) == Decided(s)
  {
  }

  /** Passes it on as it is. */
  method PassBack(w: World, buf: Frame) returns (turn: Turn)
    requires w.Valid() && RelayAt(w, Passing(buf))
    modifies w, w.handler, w.down, w.up
    ensures w.Valid() && |w.script| <= |old(w.script)|
    ensures w.state.toApp == old(w.state.toApp) + if turn.Goes? then [buf] else []
    ensures match turn
            case Goes => RelayAt(w, Listening)
            case Ends => RelayAt(w, LeavingDown)
            case Idles => w.Stuck()
  {
    hide IsRun, After, OwnSteps, Outputs, Denied, UpInv, CallsInv, Decided;
    var l := w.Turn();
    if l.None? {
      return Idles;
    }
    var ok := w.down.Send(buf);
    SameDecided(w.state, RelayDoes(w.state, if ok then Pass else PassFails));
    w.Did(ByRelay(if ok then Pass else PassFails));
    return if ok then Goes else Ends;
  }

  /** One turn of the loop. */
  method RelayOne(w: World) returns (turn: Turn, relayed: seq<Frame>)
    requires w.Valid() && RelayAt(w, Listening)
    modifies w, w.handler, w.down, w.up
    ensures w.Valid() && |w.script| <= |old(w.script)| && w.state.toApp == old(w.state.toApp) + relayed
    ensures match turn
            case Goes => RelayAt(w, Listening) && |w.script| < |old(w.script)| && |relayed| == 1
            case Ends => RelayAt(w, LeavingDown)
            case Idles => w.Stuck()
  {
    hide World.Valid, World.Stuck, World.Mirrors;
    var buf;
    relayed := [];
    turn, buf := Hear(w);
    if turn.Goes? {
      turn := PassBack(w, buf);
      if turn.Goes? {
        relayed := [buf];
      }
    }
  }

  const SECOND_LEAVES: seq<Step> := [ByRelay(LeaveDown), ByRelay(LeaveUp)]

  /** The second thread: passes on what the node sends, unchanged and in order, until either end fails;
      `relayed` is what it passed on. Then it closes both endpoints. */
  method RelayUp(w: World) returns (over: bool, relayed: seq<Frame>)
    requires w.Valid() && RelayAt(w, Listening)
    modifies w, w.handler, w.down, w.up
    ensures w.Valid() && (over || w.Stuck())
    ensures w.state.toApp == old(w.state.toApp) + relayed && w.state.toApp <= w.state.nodeFrames
    ensures over ==> RelayAt(w, Stopped) && EndsWith(w.Mine(), SECOND_LEAVES)
  {
    hide World.Valid, World.Stuck, World.Mirrors, World.Mine;
    relayed := [];
    var turn := Turn.Goes;
    while turn.Goes?
      invariant w.Valid() && w.state.toApp == old(w.state.toApp) + relayed
      invariant match turn
                case Goes => RelayAt(w, Listening)
                case Ends => RelayAt(w, LeavingDown)
                case Idles => w.Stuck()
      decreases |w.script|, turn.Goes?
    {
      var more;
      turn, more := RelayOne(w);
      AppendAssociates(old(w.state.toApp), relayed, more);
      relayed := relayed + more;
    }
    over := false;
    if turn.Ends? {
      over := CloseDownByRelay(w);
      if over {
        over := CloseUpByRelay(w);
      }
    }
    RelayedIsPrefix(w);
  }

  lemma RelayedIsPrefix(w: World)
    requires w.Valid()
    ensures w.state.toApp <= w.state.nodeFrames
  {
    hide IsRun, After, CallsInv, UpInv;
    assert w.state.nodeFrames[..w.state.nodeTaken] <= w.state.nodeFrames;
  }

  /** The app's end is closed. */
  method CloseDownByRelay(w: World) returns (done: bool)
    requires w.Valid() && RelayAt(w, LeavingDown)
    modifies w, w.handler, w.down, w.up
    ensures w.Valid() && w.state.toApp == old(w.state.toApp)
    ensures done ==> RelayAt(w, LeavingUp) && w.Mine() == old(w.Mine()) + [ByRelay(LeaveDown)] && w.down.closed
    ensures !done ==> w.Stuck()
  {
    hide IsRun, After, OwnSteps, Outputs, Denied, UpInv, CallsInv, Decided;
    var l := w.Turn();
    if l.None? {
      return false;
    }
    w.down.Close();
    SameDecided(w.state, RelayDoes(w.state, LeaveDown));
    w.Did(ByRelay(LeaveDown));
    return true;
  }

  /** The node's end is closed. */
  method CloseUpByRelay(w: World) returns (done: bool)
    requires w.Valid() && RelayAt(w, LeavingUp)
    modifies w, w.handler, w.down, w.up
    ensures w.Valid() && w.state.toApp == old(w.state.toApp)
    ensures done ==> RelayAt(w, Stopped) && w.Mine() == old(w.Mine()) + [ByRelay(LeaveUp)] && w.up.closed
    ensures !done ==> w.Stuck()
  {
    hide IsRun, After, OwnSteps, Outputs, Denied, UpInv, CallsInv, Decided;
    var l := w.Turn();
    if l.None? {
      return false;
    }
    w.up.Close();
    SameDecided(w.state, RelayDoes(w.state, LeaveUp));
    w.Did(ByRelay(LeaveUp));
    return true;
  }
}
