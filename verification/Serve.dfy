/**
 The serve loop of `src/serve.rs`, the advertiser that `provide_with` of `src/capability.rs` runs
 beside it, and a node that may go down and come back at any moment, as one transition system. A step
 is what one task does between two awaits, one answer of the node, or one event of the node's own.
 */
module Serve {
  import opened Basics
  import Dedup

  /** A delivered message; `token` is set for a request, `readable` when its payload decodes. */
  datatype Message = Message(topic: string, token: Option<nat>, readable: bool)

  /** What is fixed for a run: the topics subscribed to, and those accepted. */
  datatype Config = Config(topics: seq<string>, accepted: set<string>)

  /** What happened, as far as the promises are concerned. `conn` numbers the connections. */
  datatype Event =
    | Opened(conn: nat)
    | Confirmed(conn: nat, topic: string)
    | Ready(conn: nat)
    | Handled(conn: nat, token: nat)
    | Advertised

  /** The node: each start is a new incarnation, which knows of no subscription. */
  datatype Node = Node(up: bool, incarnation: nat, subscribed: set<string>)

  /** The open stream: the incarnation that feeds it, and what it has delivered so far unread. */
  datatype Stream = Stream(incarnation: nat, unread: seq<Message>)

  datatype Loop =
    | Connecting
    | Subscribing(next: nat)   // the first `next` topics are confirmed on this connection
    | BackingOff
    | Processing
    | Returned

  datatype Advertiser =
    | Polling
    | Sleeping                 // not ready yet: waits for the timer or the shutdown
    | Advertising
    | Pausing                  // between two advertisements
    | Stopped

  datatype State = State(
    node: Node,
    stream: Stream,
    loop: Loop,
    conn: nat,
    answered: seq<nat>,        // the tokens of the requests taken in, in order
    backoffMs: nat,
    ready: bool,
    shutdown: bool,
    advertiser: Advertiser,
    log: seq<Event>)

  datatype LoopStep =
    | OpenStream(ok: bool)
    | Subscribe(ok: bool, applied: bool)
    | AllSubscribed
    | WakeUp
    | TakeMessage
    | StreamEnds
    | StopWaiting              // the shutdown resolves while backing off
    | StopProcessing           // the shutdown resolves while waiting for a message

  datatype AdvertiserStep = Poll | PollTimer | StopPolling | Advertise | PauseTimer | StopPausing

  datatype WorldStep = NodeDown | NodeUp | NodeSends(m: Message) | Shutdown

  datatype Step =
    | ByLoop(loopStep: LoopStep)
    | ByAdvertiser(advertiserStep: AdvertiserStep)
    | ByWorld(worldStep: WorldStep)

  const FIRST_BACKOFF: nat := 250
  const LAST_BACKOFF: nat := 10_000

  function Start(node: Node): State {
    State(node, Stream(0, []), Connecting, 0, [], FIRST_BACKOFF, false, false, Polling, [])
  }

  function NextBackoff(ms: nat): nat {
    if ms * 2 < LAST_BACKOFF then ms * 2 else LAST_BACKOFF
  }

  /** The stream is fed by the node as it is now. */
  predicate Current(s: State) {
    s.node.up && s.stream.incarnation == s.node.incarnation
  }

  predicate LoopCan(c: Config, s: State, k: LoopStep) {
    match k
    case OpenStream(ok) => s.loop.Connecting? && (ok ==> s.node.up)
    case Subscribe(ok, applied) =>
      s.loop.Subscribing? && s.loop.next < |c.topics| && (applied ==> s.node.up) && (ok ==> applied)
    case AllSubscribed => s.loop.Subscribing? && s.loop.next >= |c.topics|
    case WakeUp => s.loop.BackingOff?
    case TakeMessage => s.loop.Processing? && s.stream.unread != []
    case StreamEnds => s.loop.Processing?
    case StopWaiting => s.loop.BackingOff? && s.shutdown
    case StopProcessing => s.loop.Processing? && s.shutdown
  }

  /** `answer_one`: an accepted request that was not answered yet is handled, unless its payload does
      not decode. */
  function Answer(c: Config, s: State, m: Message): State {
    if m.topic !in c.accepted || m.token.None? then s
    else
      var token := m.token.value;
      var answered := s.answered + [token];
      var taken := s.(answered := answered);
      if Dedup.LastIsFresh(answered) && m.readable then taken.(log := s.log + [Handled(s.conn, token)]) else taken
  }

  function LoopDoes(c: Config, s: State, k: LoopStep): State
    requires LoopCan(c, s, k)
  {
    match k
    case OpenStream(ok) =>
      if !ok then s.(loop := BackingOff)
      else s.(loop := Subscribing(0), conn := s.conn + 1, stream := Stream(s.node.incarnation, []),
              log := s.log + [Opened(s.conn + 1)])
    case Subscribe(ok, applied) =>
      var topic := c.topics[s.loop.next];
      var node := if applied then s.node.(subscribed := s.node.subscribed + {topic}) else s.node;
      if !ok then s.(loop := BackingOff, node := node)
      else s.(loop := Subscribing(s.loop.next + 1), node := node, log := s.log + [Confirmed(s.conn, topic)])
    case AllSubscribed =>
      s.(loop := Processing, ready := true, backoffMs := FIRST_BACKOFF, log := s.log + [Ready(s.conn)])
    case WakeUp => s.(loop := Connecting, backoffMs := NextBackoff(s.backoffMs))
    case TakeMessage => Answer(c, s.(stream := s.stream.(unread := s.stream.unread[1..])), s.stream.unread[0])
    case StreamEnds => s.(loop := Connecting)
    case StopWaiting => s.(loop := Returned)
    case StopProcessing => s.(loop := Returned)
  }

  predicate AdvertiserCan(s: State, k: AdvertiserStep) {
    match k
    case Poll => s.advertiser.Polling?
    case PollTimer => s.advertiser.Sleeping?
    case StopPolling => s.advertiser.Sleeping? && s.shutdown
    case Advertise => s.advertiser.Advertising?
    case PauseTimer => s.advertiser.Pausing?
    case StopPausing => s.advertiser.Pausing? && s.shutdown
  }

  function AdvertiserDoes(s: State, k: AdvertiserStep): State
    requires AdvertiserCan(s, k)
  {
    match k
    case Poll => s.(advertiser := if s.ready then Advertising else Sleeping)
    case PollTimer => s.(advertiser := Polling)
    case StopPolling => s.(advertiser := Stopped)
    case Advertise => s.(advertiser := Pausing, log := s.log + [Advertised])
    case PauseTimer => s.(advertiser := Advertising)
    case StopPausing => s.(advertiser := Stopped)
  }

  predicate WorldCan(s: State, k: WorldStep) {
    match k
    case NodeDown => s.node.up
    case NodeUp => !s.node.up
    case NodeSends(_) => Current(s) && (s.loop.Subscribing? || s.loop.Processing?)
    case Shutdown => true
  }

  function WorldDoes(s: State, k: WorldStep): State
    requires WorldCan(s, k)
  {
    match k
    case NodeDown => s.(node := s.node.(up := false))
    case NodeUp => s.(node := Node(true, s.node.incarnation + 1, {}))
    case NodeSends(m) => s.(stream := s.stream.(unread := s.stream.unread + [m]))
    case Shutdown => s.(shutdown := true)
  }

  predicate Enabled(c: Config, s: State, l: Step) {
    match l
    case ByLoop(k) => LoopCan(c, s, k)
    case ByAdvertiser(k) => AdvertiserCan(s, k)
    case ByWorld(k) => WorldCan(s, k)
  }

  function Apply(c: Config, s: State, l: Step): State
    requires Enabled(c, s, l)
  {
    match l
    case ByLoop(k) => LoopDoes(c, s, k)
    case ByAdvertiser(k) => AdvertiserDoes(s, k)
    case ByWorld(k) => WorldDoes(s, k)
  }

  predicate IsRun(c: Config, s: State, steps: seq<Step>)
    decreases |steps|
  {
    steps == [] || (Enabled(c, s, steps[0]) && IsRun(c, Apply(c, s, steps[0]), steps[1..]))
  }

  function After(c: Config, s: State, steps: seq<Step>): State
    requires IsRun(c, s, steps)
    decreases |steps|
  {
    if steps == [] then s else After(c, Apply(c, s, steps[0]), steps[1..])
  }
}
