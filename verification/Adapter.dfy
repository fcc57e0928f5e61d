/**
 One interposed flow of `src/adapt.rs`: a thread that passes what the app sends through the handler to the
 node, and one that passes what the node sends to the app, over two endpoints that may close at any time.
 A step is one receive, send, decision or close.
 */
module Adapter {
  import opened Basics

  type Frame = seq<bv8>

  datatype Action = Forward(bytes: Frame) | Deny(reason: string)

  /** A handler decides on the last of the requests it has seen, whatever it has kept of the others. */
  type Handler = seq<Frame> -> Action

  datatype Call = Intercept(request: Frame) | OnClose

  datatype Main =
    | Receiving
    | Deciding
    | Sending(bytes: Frame)
    | Settling
    | ClosingDown
    | ClosingUp
    | Joining
    | Finished

  datatype Relay =
    | Listening
    | Passing(frame: Frame)
    | LeavingDown
    | LeavingUp
    | Stopped

  datatype State = State(
    appFrames: seq<Frame>,     // all the app has sent
    appTaken: nat,             // how many of them were received
    nodeFrames: seq<Frame>,    // all the node has sent
    nodeTaken: nat,
    toNode: seq<Frame>,        // what was passed on
    toApp: seq<Frame>,
    calls: seq<Call>,          // the calls made to the handler
    main: Main,
    relay: Relay,
    downClosed: bool,
    upClosed: bool)

  datatype MainStep = Take | TakeFails | Decide | Send | SendFails | Settle | CloseDown | CloseUp | Join
  datatype RelayStep = Hear | HearFails | Pass | PassFails | LeaveDown | LeaveUp
  datatype WorldStep = AppSends(frame: Frame) | NodeSends(frame: Frame) | AppCloses | NodeCloses

  datatype Step = ByMain(mainStep: MainStep) | ByRelay(relayStep: RelayStep) | ByWorld(worldStep: WorldStep)

  /** The second thread may fail to start. */
  function Start(spawned: bool): State {
    State([], 0, [], 0, [], [], [], Receiving, if spawned then Listening else Stopped, false, false)
  }

  /** The requests received. */
  function Taken(s: State): seq<Frame> {
    if s.appTaken <= |s.appFrames| then s.appFrames[..s.appTaken] else s.appFrames
  }

  predicate MainCan(s: State, k: MainStep) {
    match k
    case Take => s.main.Receiving? && s.appTaken < |s.appFrames|
    case TakeFails => s.main.Receiving? && s.downClosed
    case Decide => s.main.Deciding?
    case Send => s.main.Sending? && !s.upClosed
    case SendFails => s.main.Sending? && s.upClosed
    case Settle => s.main.Settling?
    case CloseDown => s.main.ClosingDown?
    case CloseUp => s.main.ClosingUp?
    case Join => s.main.Joining? && s.relay.Stopped?
  }

  function MainDoes(h: Handler, s: State, k: MainStep): State
    requires MainCan(s, k)
  {
    match k
    case Take => s.(appTaken := s.appTaken + 1, main := Deciding)
    case TakeFails => s.(main := Settling)
    case Decide =>
      var request := if Taken(s) == [] then [] else Taken(s)[|Taken(s)| - 1];
      var asked := s.(calls := s.calls + [Intercept(request)]);
      (match h(Taken(s))
       case Forward(bytes) => asked.(main := Sending(bytes))
       case Deny(_) => asked.(main := Settling))
    case Send => s.(toNode := s.toNode + [s.main.bytes], main := Receiving)
    case SendFails => s.(main := Settling)
    case Settle => s.(calls := s.calls + [OnClose], main := ClosingDown)
    case CloseDown => s.(downClosed := true, main := ClosingUp)
    case CloseUp => s.(upClosed := true, main := Joining)
    case Join => s.(main := Finished)
  }

  predicate RelayCan(s: State, k: RelayStep) {
    match k
    case Hear => s.relay.Listening? && s.nodeTaken < |s.nodeFrames|
    case HearFails => s.relay.Listening? && s.upClosed
    case Pass => s.relay.Passing? && !s.downClosed
    case PassFails => s.relay.Passing? && s.downClosed
    case LeaveDown => s.relay.LeavingDown?
    case LeaveUp => s.relay.LeavingUp?
  }

  function RelayDoes(s: State, k: RelayStep): State
    requires RelayCan(s, k)
  {
    match k
    case Hear => s.(nodeTaken := s.nodeTaken + 1, relay := Passing(s.nodeFrames[s.nodeTaken]))
    case HearFails => s.(relay := LeavingDown)
    case Pass => s.(toApp := s.toApp + [s.relay.frame], relay := Listening)
    case PassFails => s.(relay := LeavingDown)
    case LeaveDown => s.(downClosed := true, relay := LeavingUp)
    case LeaveUp => s.(upClosed := true, relay := Stopped)
  }

  function WorldDoes(s: State, k: WorldStep): State {
    match k
    case AppSends(f) => if s.downClosed then s else s.(appFrames := s.appFrames + [f])
    case NodeSends(f) => if s.upClosed then s else s.(nodeFrames := s.nodeFrames + [f])
    case AppCloses => s.(downClosed := true)
    case NodeCloses => s.(upClosed := true)
  }

  predicate Enabled(s: State, l: Step) {
    match l
    case ByMain(k) => MainCan(s, k)
    case ByRelay(k) => RelayCan(s, k)
    case ByWorld(_) => true
  }

  function Apply(h: Handler, s: State, l: Step): State
    requires Enabled(s, l)
  {
    match l
    case ByMain(k) => MainDoes(h, s, k)
    case ByRelay(k) => RelayDoes(s, k)
    case ByWorld(k) => WorldDoes(s, k)
  }

  predicate IsRun(h: Handler, s: State, steps: seq<Step>)
    decreases |steps|
  {
    steps == [] || (Enabled(s, steps[0]) && IsRun(h, Apply(h, s, steps[0]), steps[1..]))
  }

  function After(h: Handler, s: State, steps: seq<Step>): State
    requires IsRun(h, s, steps)
    decreases |steps|
  {
    if steps == [] then s else After(h, Apply(h, s, steps[0]), steps[1..])
  }

  // ---- what the handler makes of the requests ----

  /** The handler has refused one of the requests. */
  predicate Denied(h: Handler, requests: seq<Frame>) {
    requests != [] && (Denied(h, requests[..|requests| - 1]) || h(requests).Deny?)
  }

  /** What it lets through of them: its outputs, up to the first refusal. */
  function Outputs(h: Handler, requests: seq<Frame>): seq<Frame> {
    if requests == [] then []
    else
      var earlier := requests[..|requests| - 1];
      Outputs(h, earlier) + if !Denied(h, requests) then [h(requests).bytes] else []
  }

  function Intercepts(requests: seq<Frame>): seq<Call> {
    Map((f: Frame) => Intercept(f), requests)
  }
}
