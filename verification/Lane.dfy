/**
 The lane multiplexer of `src/lane.rs` under the lane-then-HTTP methods of `src/lib.rs`, as a
 transition system. Callers, the writer thread, the reader thread and the node are interleaved; one
 step is one lock section, one atomic access, or one channel send or receive.
 */
module Lane {
  import opened Basics

  /** Ids are 64-bit and wrap around. */
  const ID_SPACE: nat := 0x1_0000_0000_0000_0000

  /** What the node says to an op: the expected success, some other success, or a refusal. */
  datatype Answer = Done(payload: nat) | Unexpected | Refused(reason: nat)

  /** A request on its way to the node; `call` tells who sent it and is not on the wire. */
  datatype Frame = Frame(id: nat, call: nat)

  datatype Response = Reply(id: nat, answer: Answer) | Event(msg: nat) | Garbage

  /** A subscriber's channel: where in the event sequence it began, what was sent to it, and whether
      its receiver still exists. */
  datatype Stream = Stream(start: nat, got: seq<nat>, live: bool)

  /** What the threads share: the fields of the client and the channels they point to. */
  datatype Memory = Memory(
    dead: bool,
    nextId: nat,
    pending: map<nat, nat>,
    subscribers: seq<nat>,
    watchStarted: bool,
    answers: map<nat, Answer>,
    streams: map<nat, Stream>)
  {
    function Allocate(): Memory {
      this.(nextId := (nextId + 1) % ID_SPACE)
    }

    function Register(id: nat, call: nat): Memory {
      this.(pending := pending[id := call])
    }

    function Unregister(id: nat): Memory {
      this.(pending := pending - {id})
    }

    function Deliver(call: nat, answer: Answer): Memory {
      this.(answers := answers[call := answer])
    }

    function Subscribe(call: nat, start: nat): Memory {
      this.(subscribers := subscribers + [call], streams := streams[call := Stream(start, [], true)])
    }

    predicate Receives(call: nat) {
      call in streams && streams[call].live
    }

    /** An event goes to every subscriber whose receiver exists; the others are dropped. */
    function FanOut(msg: nat): Memory {
      this.(subscribers := Retain(subscribers),
            streams := map c | c in streams ::
              if c in subscribers && streams[c].live then streams[c].(got := streams[c].got + [msg])
              else streams[c])
    }

    function Retain(subs: seq<nat>): (kept: seq<nat>)
      ensures forall c :: c in kept <==> c in subs && Receives(c)
    {
      if subs == [] then []
      else (if Receives(subs[0]) then [subs[0]] else []) + Retain(subs[1..])
    }

    function DropReceiver(call: nat): Memory {
      if call in streams then this.(streams := streams[call := streams[call].(live := false)]) else this
    }
  }

  /** Why a call ended up on HTTP. */
  datatype Reason =
    | NoLane            // no lane applies: none bound, known dead, or an unparsable destination
    | DeadAtEntry       // `op` found the lane dead
    | SendFailed        // the writer had gone
    | Dropped           // the sender was dropped without an answer
    | WatchRefused      // the node refused to start the event flow
    | DeadAtRetest      // a fresh subscriber found the lane dead

  datatype Phase =
    | Begun
    | Watching          // about to look at `watch_started`
    | Entering          // at the top of `op`
    | Tested            // read `dead` as false
    | Numbered          // has an id
    | Registered        // its sender is in the pending map
    | Unsent            // the request channel refused the frame
    | Awaiting
    | Answered(answer: Answer)
    | Acknowledged      // the node started the event flow for this call
    | Joining           // about to push a subscriber
    | Listening         // pushed, and has not re-tested `dead`
    | Streaming         // a stream was returned
    | Left              // its receiver was dropped
    | Fallback(why: Reason)
    | ByHttp(why: Reason)

  /** One call of a messaging method, or of the message stream. `since` tells how many responses the reader
      had acted on when the call's sender was put into the pending map, and `late` whether that was after the
      reader had cleared it. */
  datatype Call = Call(
    watch: bool,
    addressable: bool,
    phase: Phase,
    ticket: Option<nat>,
    since: nat,
    late: bool,
    httpRuns: nat)

  datatype Reader =
    | Receiving | Got(resp: Response) | Delivering(call: nat, answer: Answer)
    | Failing | Marked | Shut | PendingCleared | Finished

  datatype Writer = Waiting | Sending | Broken | MarkedDead | ShutDown | Exited

  /** `queue` holds the accepted frames not yet on the ring, `down` the responses on their way back,
      `heard` the responses the reader has acted on and `events` those it fanned out. */
  datatype State = State(
    bound: bool,
    mem: Memory,
    issued: nat,
    calls: seq<Call>,
    queue: seq<Frame>,
    ring: seq<Frame>,
    executed: seq<Frame>,
    down: seq<Response>,
    closed: bool,
    reader: Reader,
    writer: Writer,
    heard: seq<Response>,
    events: seq<nat>)

  datatype CallStep =
    | Choose | LookStarted | TestDead | TakeId | Register | Send | Unregister | Resolve
    | MarkStarted | Join | Retest | Leave | RunHttp

  datatype WriterStep = WriterTake | WriterSend | WriterMark | WriterClose | WriterExit

  datatype ReaderStep =
    | ReaderReceive | ReaderClosed | ReaderReject | ReaderFanOut | ReaderRoute | ReaderDeliver
    | ReaderMark | ReaderClose | ReaderClearPending | ReaderClearSubscribers

  datatype NodeStep = NodeTake | NodeReply(id: nat, answer: Answer) | NodeEvent(msg: nat) | NodeGarbage | NodeClose

  datatype Step =
    | Begin(watch: bool, addressable: bool)
    | OfCall(call: nat, step: CallStep)
    | OfWriter(writerStep: WriterStep)
    | OfReader(readerStep: ReaderStep)
    | OfNode(nodeStep: NodeStep)

  const START_MEMORY := Memory(false, 1, map[], [], false, map[], map[])

  function Start(bound: bool): State {
    State(bound, START_MEMORY, 0, [], [], [], [], [], false, Receiving, Waiting, [], [])
  }

  /** The id that goes with a ticket: ids count up from 1. */
  function WireId(ticket: nat): nat {
    (ticket + 1) % ID_SPACE
  }

  function IdOf(s: State, call: nat): nat
    requires call < |s.calls|
  {
    WireId(s.calls[call].ticket.GetOr(0))
  }

  function ReaderRank(r: Reader): nat {
    match r
    case Failing => 1
    case Marked => 2
    case Shut => 3
    case PendingCleared => 4
    case Finished => 5
    case _ => 0
  }

  function WriterRank(w: Writer): nat {
    match w
    case Broken => 1
    case MarkedDead => 2
    case ShutDown => 3
    case Exited => 4
    case _ => 0
  }

  /** The reader has emptied the pending map for good. */
  predicate Drained(s: State) {
    ReaderRank(s.reader) >= 4
  }

  /** Nobody holds the sender of this call: not the pending map, and not the reader. */
  predicate SenderGone(s: State, call: nat)
    requires call < |s.calls|
  {
    !(IdOf(s, call) in s.mem.pending && s.mem.pending[IdOf(s, call)] == call)
    && !(s.reader.Delivering? && s.reader.call == call)
  }

  /** When a caller can take a step. */
  predicate CanCall(s: State, c: nat, k: CallStep) {
    && c < |s.calls|
    && var p := s.calls[c].phase;
       match k
       case Choose => p.Begun?
       case LookStarted => p.Watching?
       case TestDead => p.Entering?
       case TakeId => p.Tested?
       case Register => p.Numbered?
       case Send => p.Registered?
       case Unregister => p.Unsent?
       case Resolve => p.Awaiting? && (c in s.mem.answers || SenderGone(s, c))
       case MarkStarted => p.Acknowledged?
       case Join => p.Joining?
       case Retest => p.Listening?
       case Leave => p.Streaming?
       case RunHttp => p.Fallback?
  }

  predicate CanWrite(s: State, k: WriterStep) {
    match k
    case WriterTake => s.writer.Waiting? && s.queue != []
    case WriterSend => s.writer.Sending? && s.queue != []
    case WriterMark => s.writer.Broken?
    case WriterClose => s.writer.MarkedDead?
    case WriterExit => s.writer.ShutDown?
  }

  predicate CanRead(s: State, k: ReaderStep) {
    match k
    case ReaderReceive => s.reader.Receiving? && s.down != []
    case ReaderClosed => s.reader.Receiving? && s.closed
    case ReaderReject => s.reader == Got(Garbage)
    case ReaderFanOut => s.reader.Got? && s.reader.resp.Event?
    case ReaderRoute => s.reader.Got? && s.reader.resp.Reply?
    case ReaderDeliver => s.reader.Delivering?
    case ReaderMark => s.reader.Failing?
    case ReaderClose => s.reader.Marked?
    case ReaderClearPending => s.reader.Shut?
    case ReaderClearSubscribers => s.reader.PendingCleared?
  }

  predicate CanServe(s: State, k: NodeStep) {
    match k
    case NodeTake => s.ring != []
    case NodeReply(_, _) => !s.closed
    case NodeEvent(_) => !s.closed
    case NodeGarbage => !s.closed
    case NodeClose => true
  }

  predicate Enabled(s: State, l: Step) {
    match l
    case Begin(_, _) => true
    case OfCall(c, k) => CanCall(s, c, k)
    case OfWriter(k) => CanWrite(s, k)
    case OfReader(k) => CanRead(s, k)
    case OfNode(k) => CanServe(s, k)
  }

  function Enter(s: State, c: nat, phase: Phase): State
    requires c < |s.calls|
  {
    s.(calls := s.calls[c := s.calls[c].(phase := phase)])
  }

  /** A call's wait is over: with the routed answer, or because its sender was dropped. A refused watch
      and a dropped sender send the caller to HTTP; any other answer is final for a messaging method. */
  function Resolved(s: State, c: nat): Phase
    requires c < |s.calls|
  {
    if c !in s.mem.answers then Fallback(Dropped)
    else if !s.calls[c].watch then Answered(s.mem.answers[c])
    else if s.mem.answers[c].Refused? then Fallback(WatchRefused)
    else Acknowledged
  }

  function CallDoes(s: State, c: nat, k: CallStep): State
    requires CanCall(s, c, k)
  {
    match k
    case Choose =>
      Enter(s, c, if s.bound && !s.mem.dead && (s.calls[c].watch || s.calls[c].addressable)
                  then if s.calls[c].watch then Watching else Entering
                  else Fallback(NoLane))
    case LookStarted => Enter(s, c, if s.mem.watchStarted then Joining else Entering)
    case TestDead => Enter(s, c, if s.mem.dead then Fallback(DeadAtEntry) else Tested)
    case TakeId =>
      var call := s.calls[c].(phase := Numbered, ticket := Some(s.issued));
      s.(mem := s.mem.Allocate(), issued := s.issued + 1, calls := s.calls[c := call])
    case Register =>
      var call := s.calls[c].(phase := Registered, since := |s.heard|, late := Drained(s));
      s.(mem := s.mem.Register(IdOf(s, c), c), calls := s.calls[c := call])
    case Send =>
      if s.writer.Exited? then Enter(s, c, Unsent)
      else Enter(s, c, Awaiting).(queue := s.queue + [Frame(IdOf(s, c), c)])
    case Unregister => Enter(s, c, Fallback(SendFailed)).(mem := s.mem.Unregister(IdOf(s, c)))
    case Resolve => Enter(s, c, Resolved(s, c))
    case MarkStarted => Enter(s, c, Joining).(mem := s.mem.(watchStarted := true))
    case Join => Enter(s, c, Listening).(mem := s.mem.Subscribe(c, |s.events|))
    case Retest =>
      if s.mem.dead then Enter(s, c, Fallback(DeadAtRetest)).(mem := s.mem.DropReceiver(c))
      else Enter(s, c, Streaming)
    case Leave => Enter(s, c, Left).(mem := s.mem.DropReceiver(c))
    case RunHttp =>
      var call := s.calls[c];
      s.(calls := s.calls[c := call.(phase := ByHttp(call.phase.why), httpRuns := call.httpRuns + 1)])
  }

  /** A frame the ring refused stays at the head of the queue, where nobody will take it. */
  function WriterDoes(s: State, k: WriterStep): State
    requires CanWrite(s, k)
  {
    match k
    case WriterTake => s.(writer := Sending)
    case WriterSend =>
      if s.closed then s.(writer := Broken)
      else s.(writer := Waiting, queue := s.queue[1..], ring := s.ring + [s.queue[0]])
    case WriterMark => s.(writer := MarkedDead, mem := s.mem.(dead := true))
    case WriterClose => s.(writer := ShutDown, closed := true)
    case WriterExit => s.(writer := Exited)
  }

  function ReaderDoes(s: State, k: ReaderStep): State
    requires CanRead(s, k)
  {
    match k
    case ReaderReceive => s.(reader := Got(s.down[0]), down := s.down[1..])
    case ReaderClosed => s.(reader := Failing)
    case ReaderReject => s.(reader := Failing)
    case ReaderFanOut =>
      var msg := s.reader.resp.msg;
      s.(reader := Receiving, heard := s.heard + [s.reader.resp], events := s.events + [msg], mem := s.mem.FanOut(msg))
    case ReaderRoute =>
      var reply := s.reader.resp;
      var next := s.(heard := s.heard + [reply]);
      if reply.id !in s.mem.pending then next.(reader := Receiving)
      else next.(reader := Delivering(s.mem.pending[reply.id], reply.answer), mem := s.mem.Unregister(reply.id))
    case ReaderDeliver => s.(reader := Receiving, mem := s.mem.Deliver(s.reader.call, s.reader.answer))
    case ReaderMark => s.(reader := Marked, mem := s.mem.(dead := true))
    case ReaderClose => s.(reader := Shut, closed := true)
    case ReaderClearPending => s.(reader := PendingCleared, mem := s.mem.(pending := map[]))
    case ReaderClearSubscribers => s.(reader := Finished, mem := s.mem.(subscribers := []))
  }

  function NodeDoes(s: State, k: NodeStep): State
    requires CanServe(s, k)
  {
    match k
    case NodeTake => s.(executed := s.executed + [s.ring[0]], ring := s.ring[1..])
    case NodeReply(id, answer) => s.(down := s.down + [Reply(id, answer)])
    case NodeEvent(msg) => s.(down := s.down + [Event(msg)])
    case NodeGarbage => s.(down := s.down + [Garbage])
    case NodeClose => s.(closed := true)
  }

  function Apply(s: State, l: Step): State
    requires Enabled(s, l)
  {
    match l
    case Begin(watch, addressable) =>
      s.(calls := s.calls + [Call(watch, addressable, Begun, None, 0, false, 0)])
    case OfCall(c, k) => CallDoes(s, c, k)
    case OfWriter(k) => WriterDoes(s, k)
    case OfReader(k) => ReaderDoes(s, k)
    case OfNode(k) => NodeDoes(s, k)
  }

  predicate IsRun(s: State, steps: seq<Step>)
    decreases |steps|
  {
    steps == [] || (Enabled(s, steps[0]) && IsRun(Apply(s, steps[0]), steps[1..]))
  }

  /** The state a run leads to. */
  function After(s: State, steps: seq<Step>): State
    requires IsRun(s, steps)
    decreases |steps|
  {
    if steps == [] then s else After(Apply(s, steps[0]), steps[1..])
  }
}
