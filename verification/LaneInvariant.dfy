/**
 What every step of the lane keeps, as long as no more than 2^64 ids have been handed out.

 The invariant has a shared part, about the wire and the maps, and a local part that holds of each
 call. The local part speaks only of a view: what the shared state says about that one call. A step
 leaves the views of most calls as they were.
 */
module LaneInvariant {
  import opened Basics
  import opened Lane

  /** The first answer to an id among the responses the reader has acted on. */
  function FirstReply(heard: seq<Response>, id: nat): Option<Answer> {
    if heard == [] then None
    else if heard[0].Reply? && heard[0].id == id then Some(heard[0].answer)
    else FirstReply(heard[1..], id)
  }

  /** What the reader has acted on after its first `n` responses. */
  function Since(heard: seq<Response>, n: nat): seq<Response> {
    if n <= |heard| then heard[n..] else []
  }

  /** Every frame, in the order the request channel accepted them. */
  function Accepted(s: State): seq<Frame> {
    s.executed + s.ring + s.queue
  }

  predicate HasFrame(frames: seq<Frame>, c: nat) {
    exists k :: 0 <= k < |frames| && frames[k].call == c
  }

  /** What the shared state says about one call's op. */
  datatype OpView = OpView(
    call: Call,
    answer: Option<Answer>,      // routed to it
    pending: bool,               // its sender is in the pending map
    held: Option<Answer>,        // the reader has its sender, to send this
    first: Option<Answer>,       // the first reply heard for its id since it registered
    frame: bool,                 // a frame of it was accepted
    drained: bool, exited: bool, dead: bool)

  function ViewOp(s: State, c: nat): OpView
    requires c < |s.calls|
  {
    var ticket := s.calls[c].ticket;
    OpView(
      s.calls[c],
      if c in s.mem.answers then Some(s.mem.answers[c]) else None,
      ticket.Some? && WireId(ticket.value) in s.mem.pending && s.mem.pending[WireId(ticket.value)] == c,
      if s.reader.Delivering? && s.reader.call == c then Some(s.reader.answer) else None,
      if ticket.Some? then FirstReply(Since(s.heard, s.calls[c].since), WireId(ticket.value)) else None,
      HasFrame(Accepted(s), c),
      Drained(s), s.writer.Exited?, s.mem.dead)
  }

  /** Phases before an id is taken. */
  predicate Unnumbered(p: Phase) {
    match p
    case Fallback(why) => why.NoLane? || why.DeadAtEntry?
    case ByHttp(why) => why.NoLane? || why.DeadAtEntry?
    case _ => p.Begun? || p.Watching? || p.Entering? || p.Tested?
  }

  /** Phases with the sender still to be answered or dropped. */
  predicate Waits(p: Phase) {
    p.Registered? || p.Unsent? || p.Awaiting?
  }

  /** Phases after the frame was accepted by the request channel. */
  predicate FrameSent(p: Phase) {
    match p
    case Fallback(why) => why.Dropped? || why.WatchRefused? || why.DeadAtRetest?
    case ByHttp(why) => why.Dropped? || why.WatchRefused? || why.DeadAtRetest?
    case _ => p.Awaiting? || p.Answered? || p.Acknowledged? || p.Joining? || p.Listening? || p.Streaming? || p.Left?
  }

  /** Phases an answered call can be in. */
  predicate HasAnswer(p: Phase, a: Answer) {
    match p
    case Answered(b) => a == b
    case Fallback(why) => why.WatchRefused? || why.DeadAtRetest? || why.SendFailed?
    case ByHttp(why) => why.WatchRefused? || why.DeadAtRetest? || why.SendFailed?
    case _ => Waits(p) || p.Acknowledged? || p.Joining? || p.Listening? || p.Streaming? || p.Left?
  }

  /** The lane attempt ended as a transport failure. */
  predicate Lost(p: Phase) {
    (p.Fallback? || p.ByHttp?) && (p.why.NoLane? || p.why.DeadAtEntry? || p.why.SendFailed? || p.why.Dropped?)
  }

  /** The one such failure of an op that has its sender out and does not wait for it. */
  predicate Unheeded(p: Phase) {
    Lost(p) && p.why.SendFailed?
  }

  /** Only the message stream goes through the subscribing phases, and only the messaging methods end
      with an answer. */
  predicate FitsKind(watch: bool, p: Phase) {
    match p
    case Answered(_) => !watch
    case Fallback(why) => watch || (!why.WatchRefused? && !why.DeadAtRetest?)
    case ByHttp(why) => watch || (!why.WatchRefused? && !why.DeadAtRetest?)
    case _ => p.Watching? || p.Acknowledged? || p.Joining? || p.Listening? || p.Streaming? || p.Left? ==> watch
  }

  predicate LocalOp(v: OpView) {
    var p := v.call.phase;
    && FitsKind(v.call.watch, p)
    && (Unnumbered(p) ==> v.call.ticket.None?)
    && (Waits(p) || p.Numbered? || p.Acknowledged? ==> v.call.ticket.Some?)
    && (p.Answered? || v.answer.Some? || v.held.Some? || v.frame ==> v.call.ticket.Some?)
    && (v.frame ==> FrameSent(p))
    // the sender is in one place
    && (v.pending ==> Waits(p) && v.answer.None? && v.held.None? && v.first.None? && (v.drained ==> v.call.late))
    && (v.held.Some? ==> (Waits(p) || Unheeded(p)) && v.answer.None? && v.first == v.held)
    && (v.answer.Some? ==> HasAnswer(p, v.answer.value) && v.first == v.answer)
    && (p.Answered? ==> v.answer.Some?)
    && (Waits(p) && v.first.Some? ==> v.answer.Some? || v.held.Some?)
    // a waiting call loses its sender only to the drain, and only if it was there before it
    && (Waits(p) && v.answer.None? && !v.drained ==> v.pending || v.held.Some?)
    && (v.call.late ==> v.drained)
    && (v.call.late && Waits(p) ==> v.pending)
    && (p.Unsent? ==> v.exited)
    // what is known once the lane attempt has failed
    && (Lost(p) ==> !v.pending)
    && (Lost(p) && !Unheeded(p) ==> v.answer.None? && v.held.None?)
    && (Lost(p) && p.why.Dropped? ==> v.drained && !v.call.late)
    && (Lost(p) && p.why.SendFailed? ==> v.exited)
    && (Lost(p) && p.why.DeadAtEntry? ==> v.dead)
    && v.call.httpRuns == (if p.ByHttp? then 1 else 0)
  }

  /** What the shared state says about one call's stream. */
  datatype StreamView = StreamView(
    phase: Phase,
    subscribed: bool,
    stream: Option<Stream>,
    finished: bool,
    events: seq<nat>)

  function ViewStream(s: State, c: nat): StreamView
    requires c < |s.calls|
  {
    StreamView(
      s.calls[c].phase,
      c in s.mem.subscribers,
      if c in s.mem.streams then Some(s.mem.streams[c]) else None,
      s.reader.Finished?,
      s.events)
  }

  predicate Joined(p: Phase) {
    match p
    case Fallback(why) => why.DeadAtRetest?
    case ByHttp(why) => why.DeadAtRetest?
    case _ => p.Listening? || p.Streaming? || p.Left?
  }

  /** A subscriber has been sent a contiguous run of the events from where it joined, a live one all of
      them; the reader's final clear leaves only those yet to re-test `dead`, or that found it set. */
  predicate LocalStream(v: StreamView) {
    && (v.stream.Some? <==> Joined(v.phase))
    && (v.subscribed ==> v.stream.Some?)
    && (v.stream.Some? ==>
          var st := v.stream.value;
          && st.start + |st.got| <= |v.events|
          && st.got == v.events[st.start..st.start + |st.got|]
          && (st.live <==> v.phase.Listening? || v.phase.Streaming?)
          && (st.live && !v.finished ==> v.subscribed)
          && (st.live && v.subscribed ==> st.start + |st.got| == |v.events|)
          && (v.finished && v.subscribed ==> !v.phase.Streaming? && !v.phase.Left?))
  }

  predicate AllOps(s: State) {
    forall c :: 0 <= c < |s.calls| ==> LocalOp(ViewOp(s, c))
  }

  predicate AllStreams(s: State) {
    forall c :: 0 <= c < |s.calls| ==> LocalStream(ViewStream(s, c))
  }

  /** The flags tell how far the two threads have got. */
  predicate Flags(s: State) {
    && (s.mem.dead <==> ReaderRank(s.reader) >= 2 || WriterRank(s.writer) >= 2)
    && (ReaderRank(s.reader) >= 3 || WriterRank(s.writer) >= 1 ==> s.closed)
  }

  predicate HasTicket(s: State, c: nat) {
    c < |s.calls| && s.calls[c].ticket.Some?
  }

  predicate Tickets(s: State) {
    && s.mem.nextId == WireId(s.issued)
    && (forall c: nat :: c < |s.calls| && HasTicket(s, c) ==> s.calls[c].ticket.value < s.issued)
    && (forall c: nat, d: nat :: c < d < |s.calls| && HasTicket(s, c) && HasTicket(s, d) ==>
          s.calls[c].ticket.value != s.calls[d].ticket.value)
  }

  predicate Distinct(subs: seq<nat>) {
    forall i, j :: 0 <= i < j < |subs| ==> subs[i] != subs[j]
  }

  /** The keys of the maps belong to calls. */
  predicate Owners(s: State) {
    && (forall i :: i in s.mem.pending ==> HasTicket(s, s.mem.pending[i]) && IdOf(s, s.mem.pending[i]) == i)
    && (forall c :: c in s.mem.answers ==> c < |s.calls|)
    && (forall c :: c in s.mem.streams ==> c < |s.calls|)
    && (forall c :: c in s.mem.subscribers ==> c < |s.calls|)
    && Distinct(s.mem.subscribers)
    && (s.reader.Delivering? ==> s.reader.call < |s.calls|)
  }

  /** A call has at most one frame, and it carries the call's id. */
  predicate Frames(frames: seq<Frame>, calls: seq<Call>) {
    && (forall k :: 0 <= k < |frames| ==>
          var f := frames[k];
          f.call < |calls| && calls[f.call].ticket.Some? && f.id == WireId(calls[f.call].ticket.value))
    && (forall j, k :: 0 <= j < k < |frames| ==> frames[j].call != frames[k].call)
  }

  /** Nobody registered in the future. */
  predicate Times(s: State) {
    forall c :: 0 <= c < |s.calls| ==> s.calls[c].since <= |s.heard|
  }

  predicate Shared(s: State) {
    s.issued <= ID_SPACE && Flags(s) && Tickets(s) && Owners(s) && Frames(Accepted(s), s.calls) && Times(s)
  }

  predicate Inv(s: State) {
    Shared(s) && AllOps(s) && AllStreams(s)
  }

  lemma StartSatisfies(bound: bool)
    ensures Inv(Start(bound))
  {
    assert Accepted(Start(bound)) == [];
    hide LocalOp, LocalStream, Accepted;
  }
}
