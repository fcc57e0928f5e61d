/**
 The reader and the writer thread as the program runs them: each works on the shared client and the
 channels, in its own order and with its own variables, and every piece of work is a step of the
 transition system.
 */
module LaneThreads {
  import opened Basics
  import opened Lane
  import opened LaneWorld

  predicate ReaderAt(w: World, r: Reader)
    reads w
  {
    w.me.TheReader? && w.state.reader == r
  }

  // ---- the reader ----

  /** What the reader has received and not acted on yet. */
  function InHand(s: State): seq<Response> {
    if s.reader.Got? then [s.reader.resp] else []
  }

  /** Waits for the next response; none when the flow has failed. */
  method Receive(w: World) returns (turn: Turn, resp: Response)
    requires w.Valid() && ReaderAt(w, Receiving)
    modifies w, w.client, w.wire
    ensures w.Valid() && |w.script| <= |old(w.script)| && w.state.heard == old(w.state.heard)
    ensures match turn
            case Goes => ReaderAt(w, Got(resp)) && |w.script| < |old(w.script)|
            case Ends => ReaderAt(w, Failing)
            case Idles => w.Stuck() && ReaderAt(w, Receiving)
    ensures old(w.state.down) <= (if turn.Goes? then [resp] else []) + w.state.down
  {
    hide IsRun, After, Tidy, OwnSteps;
    var l := w.Turn();
    if l.None? {
      return Idles, Garbage;
    }
    if l.value == OfReader(ReaderClosed) {
      w.Did(OfReader(ReaderClosed));
      return Ends, Garbage;
    }
    resp := w.wire.Receive();
    w.Did(OfReader(ReaderReceive));
    return Goes, resp;
  }

  /** An event goes to every subscriber. */
  method PassEvent(w: World, msg: nat) returns (turn: Turn)
    requires w.Valid() && ReaderAt(w, Got(Event(msg)))
    modifies w, w.client, w.wire
    ensures w.Valid() && |w.script| <= |old(w.script)| && old(w.state.down) <= w.state.down
    ensures if turn.Goes? then ReaderAt(w, Receiving) && w.state.heard == old(w.state.heard) + [Event(msg)]
            else turn.Idles? && w.Stuck() && ReaderAt(w, old(w.state.reader)) && w.state.heard == old(w.state.heard)
  {
    hide IsRun, After, OwnSteps, WireId;
    var l := w.Turn();
    if l.None? {
      return Idles;
    }
    w.client.FanOut(msg);
    w.Did(OfReader(ReaderFanOut));
    return Goes;
  }

  /** A reply goes to the op that waits under its id, if one does. */
  method Route(w: World, id: nat, answer: Answer) returns (turn: Turn, waiter: Option<nat>)
    requires w.Valid() && ReaderAt(w, Got(Reply(id, answer)))
    modifies w, w.client, w.wire
    ensures w.Valid() && |w.script| <= |old(w.script)| && old(w.state.down) <= w.state.down
    ensures if turn.Goes? then
              && ReaderAt(w, if waiter.Some? then Delivering(waiter.value, answer) else Receiving)
              && w.state.heard == old(w.state.heard) + [Reply(id, answer)]
            else turn.Idles? && w.Stuck() && ReaderAt(w, old(w.state.reader)) && w.state.heard == old(w.state.heard)
  {
    hide IsRun, After, OwnSteps, Tidy;
    var l := w.Turn();
    if l.None? {
      return Idles, None;
    }
    waiter := w.client.RemovePending(id);
    w.Did(OfReader(ReaderRoute));
    return Goes, waiter;
  }

  method Deliver(w: World, call: nat, answer: Answer) returns (turn: Turn)
    requires w.Valid() && ReaderAt(w, Delivering(call, answer))
    modifies w, w.client, w.wire
    ensures w.Valid() && |w.script| <= |old(w.script)| && w.state.heard == old(w.state.heard)
    ensures old(w.state.down) <= w.state.down
    ensures if turn.Goes? then ReaderAt(w, Receiving) && call in w.state.mem.answers
            && w.state.mem.answers[call] == answer
            else turn.Idles? && w.Stuck() && ReaderAt(w, old(w.state.reader))
  {
    hide IsRun, After, OwnSteps, Tidy;
    var l := w.Turn();
    if l.None? {
      return Idles;
    }
    w.client.Deliver(call, answer);
    w.Did(OfReader(ReaderDeliver));
    return Goes;
  }

  /** What cannot be decoded ends the flow. */
  method Reject(w: World) returns (turn: Turn)
    requires w.Valid() && ReaderAt(w, Got(Garbage))
    modifies w, w.client, w.wire
    ensures w.Valid() && |w.script| <= |old(w.script)| && w.state.heard == old(w.state.heard)
    ensures old(w.state.down) <= w.state.down
    ensures if turn.Ends? then ReaderAt(w, Failing) else turn.Idles? && w.Stuck() && ReaderAt(w, old(w.state.reader))
  {
    hide IsRun, After, OwnSteps, Tidy;
    var l := w.Turn();
    if l.None? {
      return Idles;
    }
    w.Did(OfReader(ReaderReject));
    return Ends;
  }

  /** One turn of the reader's loop: a response is received and acted on. What was received and not acted on
      is left over. */
  method ReadOne(w: World) returns (turn: Turn, acted: seq<Response>, left: seq<Response>)
    requires w.Valid() && ReaderAt(w, Receiving)
    modifies w, w.client, w.wire
    ensures w.Valid() && |w.script| <= |old(w.script)| && w.state.heard == old(w.state.heard) + acted
    ensures old(w.state.down) <= acted + left + w.state.down
    ensures match turn
            case Goes => ReaderAt(w, Receiving) && |w.script| < |old(w.script)| && |acted| == 1 && left == []
            case Ends => ReaderAt(w, Failing) && acted == [] && (left == [] || left == [Garbage])
            case Idles => w.Stuck() && left == InHand(w.state)
  {
    hide World.Valid, World.Stuck, World.Mirrors;
    var resp;
    turn, resp := Receive(w);
    acted, left := [], [];
    if !turn.Goes? {
      return;
    }
    match resp {
      case Garbage =>
        turn := Reject(w);
        left := [resp];
      case Event(msg) =>
        turn := PassEvent(w, msg);
        acted, left := if turn.Goes? then [resp] else [], if turn.Goes? then [] else [resp];
      case Reply(id, answer) =>
        var waiter;
        turn, waiter := Route(w, id, answer);
        acted, left := if turn.Goes? then [resp] else [], if turn.Goes? then [] else [resp];
        if turn.Goes? && waiter.Some? {
          turn := Deliver(w, waiter.value, answer);
        }
    }
  }

  const READER_LEAVES: seq<Step> :=
    [OfReader(ReaderMark), OfReader(ReaderClose), OfReader(ReaderClearPending), OfReader(ReaderClearSubscribers)]

  /** The reader: acts on what it receives, in order, until the flow fails; `acted` is what it acted on, and
      `left` what it received last and did not act on: what it could not decode, if anything. On its way out
      it marks the lane dead, closes it, and drops the waiters and then the subscribers. */
  method Reader(w: World) returns (over: bool, acted: seq<Response>, left: seq<Response>)
    requires w.Valid() && ReaderAt(w, Receiving)
    modifies w, w.client, w.wire
    ensures w.Valid() && (over || w.Stuck())
    ensures w.state.heard == old(w.state.heard) + acted
    ensures old(w.state.down) <= acted + left + w.state.down
    ensures left == [] || left == [Garbage] || (!over && left == InHand(w.state))
    ensures over ==> ReaderAt(w, Finished) && EndsWith(w.Mine(), READER_LEAVES)
    ensures over ==> w.client.subscribers == []
  {
    hide World.Valid, World.Stuck, World.Mirrors, World.Mine;
    acted, left := [], [];
    var turn := Turn.Goes;
    while turn.Goes?
      invariant w.Valid() && w.state.heard == old(w.state.heard) + acted
      invariant old(w.state.down) <= acted + left + w.state.down
      invariant match turn
                case Goes => ReaderAt(w, Receiving) && left == []
                case Ends => ReaderAt(w, Failing) && (left == [] || left == [Garbage])
                case Idles => w.Stuck() && left == InHand(w.state)
      decreases |w.script|, turn.Goes?
    {
      ghost var down := w.state.down;
      var more;
      turn, more, left := ReadOne(w);
      AppendAssociates(old(w.state.heard), acted, more);
      StillToCome(old(w.state.down), acted, down, more + left + w.state.down);
      AppendAssociates(more, left, w.state.down);
      AppendAssociates(acted, more, left + w.state.down);
      acted := acted + more;
      AppendAssociates(acted, left, w.state.down);
    }
    if turn.Idles? {
      return false, acted, left;
    }
    ghost var down := w.state.down;
    over := LeaveReader(w);
    StillToCome(old(w.state.down), acted + left, down, w.state.down);
  }

  lemma StillToCome(all: seq<Response>, done: seq<Response>, rest: seq<Response>, more: seq<Response>)
    requires all <= done + rest && rest <= more
    ensures all <= done + more
  {
  }

  /** The lane is marked dead. */
  method MarkDead(w: World) returns (done: bool)
    requires w.Valid() && ReaderAt(w, Failing)
    modifies w, w.client, w.wire
    ensures w.Valid() && w.state.heard == old(w.state.heard) && old(w.state.down) <= w.state.down
    ensures done ==> ReaderAt(w, Marked) && w.Mine() == old(w.Mine()) + [OfReader(ReaderMark)] && w.client.dead
    ensures !done ==> w.Stuck() && w.Mine() == old(w.Mine())
  {
    hide IsRun, After, OwnSteps, Tidy;
    var l := w.Turn();
    if l.None? {
      return false;
    }
    w.client.MarkDead();
    w.Did(OfReader(ReaderMark));
    return true;
  }

  /** The ring is closed. */
  method CloseWire(w: World) returns (done: bool)
    requires w.Valid() && ReaderAt(w, Marked)
    modifies w, w.client, w.wire
    ensures w.Valid() && w.state.heard == old(w.state.heard) && old(w.state.down) <= w.state.down
    ensures done ==> ReaderAt(w, Shut) && w.Mine() == old(w.Mine()) + [OfReader(ReaderClose)] && w.wire.closed
    ensures !done ==> w.Stuck() && w.Mine() == old(w.Mine())
  {
    hide IsRun, After, OwnSteps, Tidy;
    var l := w.Turn();
    if l.None? {
      return false;
    }
    w.wire.Close();
    w.Did(OfReader(ReaderClose));
    return true;
  }

  /** Every op that waits loses its sender. */
  method DropWaiters(w: World) returns (done: bool)
    requires w.Valid() && ReaderAt(w, Shut)
    modifies w, w.client, w.wire
    ensures w.Valid() && w.state.heard == old(w.state.heard) && old(w.state.down) <= w.state.down
    ensures done ==> ReaderAt(w, PendingCleared) && w.Mine() == old(w.Mine()) + [OfReader(ReaderClearPending)]
    ensures done ==> w.client.pending == map[]
    ensures !done ==> w.Stuck() && w.Mine() == old(w.Mine())
  {
    hide IsRun, After, OwnSteps, Tidy;
    var l := w.Turn();
    if l.None? {
      return false;
    }
    w.client.ClearPending();
    w.Did(OfReader(ReaderClearPending));
    return true;
  }

  /** Every stream loses its sender. */
  method DropSubscribers(w: World) returns (done: bool)
    requires w.Valid() && ReaderAt(w, PendingCleared)
    modifies w, w.client, w.wire
    ensures w.Valid() && w.state.heard == old(w.state.heard) && old(w.state.down) <= w.state.down
    ensures done ==> ReaderAt(w, Finished) && w.Mine() == old(w.Mine()) + [OfReader(ReaderClearSubscribers)]
    ensures done ==> w.client.subscribers == []
    ensures !done ==> w.Stuck() && w.Mine() == old(w.Mine())
  {
    hide IsRun, After, OwnSteps, Tidy;
    var l := w.Turn();
    if l.None? {
      return false;
    }
    w.client.ClearSubscribers();
    w.Did(OfReader(ReaderClearSubscribers));
    return true;
  }

  /** The way out, in this order. */
  method LeaveReader(w: World) returns (over: bool)
    requires w.Valid() && ReaderAt(w, Failing)
    modifies w, w.client, w.wire
    ensures w.Valid() && (over || w.Stuck()) && w.state.heard == old(w.state.heard) && old(w.state.down) <= w.state.down
    ensures over ==> ReaderAt(w, Finished) && w.Mine() == old(w.Mine()) + READER_LEAVES && w.client.subscribers == []
  {
    hide World.Valid, World.Stuck, World.Mirrors, World.Mine;
    over := MarkDead(w);
    if over {
      over := CloseWire(w);
    }
    if over {
      over := DropWaiters(w);
    }
    if over {
      over := DropSubscribers(w);
    }
  }

  // ---- the writer ----

  predicate WriterAt(w: World, p: Writer)
    reads w
  {
    w.me.TheWriter? && w.state.writer == p
  }

  /** Takes the next frame from the request channel. */
  method TakeFrame(w: World) returns (turn: Turn, frame: Frame)
    requires w.Valid() && WriterAt(w, Waiting)
    modifies w, w.client, w.wire
    ensures w.Valid() && |w.script| <= |old(w.script)|
    ensures OnRing(w.state) == old(OnRing(w.state)) && old(w.state.queue) <= w.state.queue
    ensures if turn.Goes? then WriterAt(w, Sending) && |w.script| < |old(w.script)| && w.state.queue != []
            && w.state.queue[0] == frame
            else turn.Idles? && w.Stuck()
  {
    hide IsRun, After, OwnSteps, Tidy;
    var l := w.Turn();
    if l.None? {
      return Idles, Frame(0, 0);
    }
    frame := w.wire.NextRequest();
    w.Did(OfWriter(WriterTake));
    return Goes, frame;
  }

  /** Puts it on the ring, unless that is closed. */
  method SendFrame(w: World, frame: Frame) returns (turn: Turn)
    requires w.Valid() && WriterAt(w, Sending) && w.state.queue != [] && w.state.queue[0] == frame
    modifies w, w.client, w.wire
    ensures w.Valid() && |w.script| <= |old(w.script)|
    ensures match turn
            case Goes =>
              && WriterAt(w, Waiting) && OnRing(w.state) == old(OnRing(w.state)) + [frame]
              && old(w.state.queue) <= [frame] + w.state.queue
            case Ends => WriterAt(w, Broken) && OnRing(w.state) == old(OnRing(w.state))
                         && old(w.state.queue) <= w.state.queue
            case Idles => w.Stuck() && OnRing(w.state) == old(OnRing(w.state)) && old(w.state.queue) <= w.state.queue
  {
    hide IsRun, After, OwnSteps, Tidy;
    var l := w.Turn();
    if l.None? {
      return Idles;
    }
    ghost var before := w.state;
    var ok := w.wire.Send(frame);
    w.Did(OfWriter(WriterSend));
    if ok {
      AppendAssociates(before.executed, before.ring, [frame]);
      assert before.queue == [frame] + before.queue[1..];
      return Goes;
    }
    return Ends;
  }

  const WRITER_LEAVES: seq<Step> := [OfWriter(WriterMark), OfWriter(WriterClose), OfWriter(WriterExit)]

  /** The writer: puts what callers hand over on the ring, in the order handed over, until the ring refuses
      a frame; `sent` is what it put there. On its way out it marks the lane dead, closes it, and is gone. */
  method Writer(w: World) returns (over: bool, sent: seq<Frame>)
    requires w.Valid() && WriterAt(w, Waiting)
    modifies w, w.client, w.wire
    ensures w.Valid() && (over || w.Stuck())
    ensures OnRing(w.state) == old(OnRing(w.state)) + sent
    ensures old(w.state.queue) <= sent + w.state.queue
    ensures over ==> WriterAt(w, Exited) && EndsWith(w.Mine(), WRITER_LEAVES)
  {
    hide World.Valid, World.Stuck, World.Mirrors, World.Mine, OnRing;
    sent := [];
    var turn := Turn.Goes;
    while turn.Goes?
      invariant w.Valid() && OnRing(w.state) == old(OnRing(w.state)) + sent
                && old(w.state.queue) <= sent + w.state.queue
      invariant match turn
                case Goes => WriterAt(w, Waiting)
                case Ends => WriterAt(w, Broken)
                case Idles => w.Stuck()
      decreases |w.script|, turn.Goes?
    {
      var more;
      turn, more := WriteOne(w);
      AppendAssociates(old(OnRing(w.state)), sent, more);
      AppendAssociates(sent, more, w.state.queue);
      sent := sent + more;
    }
    if turn.Idles? {
      return false, sent;
    }
    over := LeaveWriter(w);
  }

  /** One turn of the writer's loop. */
  method WriteOne(w: World) returns (turn: Turn, sent: seq<Frame>)
    requires w.Valid() && WriterAt(w, Waiting)
    modifies w, w.client, w.wire
    ensures w.Valid() && |w.script| <= |old(w.script)|
    ensures OnRing(w.state) == old(OnRing(w.state)) + sent && old(w.state.queue) <= sent + w.state.queue
    ensures match turn
            case Goes => WriterAt(w, Waiting) && |w.script| < |old(w.script)|
            case Ends => WriterAt(w, Broken)
            case Idles => w.Stuck()
  {
    hide World.Valid, World.Stuck, World.Mirrors, OnRing;
    var frame;
    turn, frame := TakeFrame(w);
    sent := [];
    if turn.Goes? {
      turn := SendFrame(w, frame);
      if turn.Goes? {
        sent := [frame];
      }
    }
  }

  method MarkDeadByWriter(w: World) returns (done: bool)
    requires w.Valid() && WriterAt(w, Broken)
    modifies w, w.client, w.wire
    ensures w.Valid() && OnRing(w.state) == old(OnRing(w.state)) && old(w.state.queue) <= w.state.queue
    ensures done ==> WriterAt(w, MarkedDead) && w.Mine() == old(w.Mine()) + [OfWriter(WriterMark)] && w.client.dead
    ensures !done ==> w.Stuck()
  {
    hide IsRun, After, OwnSteps, Tidy;
    var l := w.Turn();
    if l.None? {
      return false;
    }
    w.client.MarkDead();
    w.Did(OfWriter(WriterMark));
    return true;
  }

  method CloseByWriter(w: World) returns (done: bool)
    requires w.Valid() && WriterAt(w, MarkedDead)
    modifies w, w.client, w.wire
    ensures w.Valid() && OnRing(w.state) == old(OnRing(w.state)) && old(w.state.queue) <= w.state.queue
    ensures done ==> WriterAt(w, ShutDown) && w.Mine() == old(w.Mine()) + [OfWriter(WriterClose)] && w.wire.closed
    ensures !done ==> w.Stuck()
  {
    hide IsRun, After, OwnSteps, Tidy;
    var l := w.Turn();
    if l.None? {
      return false;
    }
    w.wire.Close();
    w.Did(OfWriter(WriterClose));
    return true;
  }

  method HangUp(w: World) returns (done: bool)
    requires w.Valid() && WriterAt(w, ShutDown)
    modifies w, w.client, w.wire
    ensures w.Valid() && OnRing(w.state) == old(OnRing(w.state)) && old(w.state.queue) <= w.state.queue
    ensures done ==> WriterAt(w, Exited) && w.Mine() == old(w.Mine()) + [OfWriter(WriterExit)] && !w.wire.listening
    ensures !done ==> w.Stuck()
  {
    hide IsRun, After, OwnSteps, Tidy;
    var l := w.Turn();
    if l.None? {
      return false;
    }
    w.wire.HangUp();
    w.Did(OfWriter(WriterExit));
    return true;
  }

  method LeaveWriter(w: World) returns (over: bool)
    requires w.Valid() && WriterAt(w, Broken)
    modifies w, w.client, w.wire
    ensures w.Valid() && (over || w.Stuck()) && OnRing(w.state) == old(OnRing(w.state))
            && old(w.state.queue) <= w.state.queue
    ensures over ==> WriterAt(w, Exited) && w.Mine() == old(w.Mine()) + WRITER_LEAVES
  {
    hide World.Valid, World.Stuck, World.Mirrors, World.Mine, OnRing;
    over := MarkDeadByWriter(w);
    if over {
      over := CloseByWriter(w);
    }
    if over {
      over := HangUp(w);
    }
  }
}
