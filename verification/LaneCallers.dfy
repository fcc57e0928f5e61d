/**
 The callers as the program writes them: `op`, `watch_stream`, and a messaging method that falls back to
 HTTP. Each keeps its id, its channel and its outcome in variables of its own and works on the shared client
 and the channels; every piece of work is a step of the transition system.
 */
module LaneCallers {
  import opened Basics
  import opened Lane
  import opened LaneWorld
  import LaneReasons

  /** The actor is a caller whose call stands thus. */
  predicate CallIs(w: World, call: Call)
    reads w
  {
    w.me.Caller? && w.me.call < |w.state.calls| && w.state.calls[w.me.call] == call
  }

  // ---- one step each ----

  /** Whether a live lane applies. */
  method Choose(w: World, ghost call: Call, watch: bool, addressable: bool) returns (done: bool, byLane: bool)
    requires w.Valid() && CallIs(w, call) && call.phase.Begun? && call.watch == watch && call.addressable == addressable
    modifies w, w.client, w.wire
    ensures w.Valid() && |w.script| <= |old(w.script)|
    ensures done ==>
              CallIs(w, call.(phase := if !byLane then Fallback(NoLane) else if watch then Watching else Entering))
    ensures done ==> w.Mine() == old(w.Mine()) + [OfCall(w.me.call, CallStep.Choose)]
    ensures !done ==> w.Stuck() && CallIs(w, call)
  {
    hide IsRun, After, OwnSteps, Tidy, WireId;
    var l := w.Turn();
    if l.None? {
      return false, false;
    }
    byLane := w.bound && !w.client.dead && (watch || addressable);
    w.Did(OfCall(w.me.call, CallStep.Choose));
    done := true;
  }

  /** The test at the top of an op. */
  method TestDead(w: World, ghost call: Call) returns (done: bool, dead: bool)
    requires w.Valid() && CallIs(w, call) && call.phase.Entering?
    modifies w, w.client, w.wire
    ensures w.Valid() && |w.script| <= |old(w.script)|
    ensures done ==> CallIs(w, call.(phase := if dead then Fallback(DeadAtEntry) else Tested))
    ensures done ==> w.Mine() == old(w.Mine()) + [OfCall(w.me.call, CallStep.TestDead)]
    ensures !done ==> w.Stuck() && CallIs(w, call)
  {
    hide IsRun, After, OwnSteps, Tidy, WireId;
    var l := w.Turn();
    if l.None? {
      return false, false;
    }
    dead := w.client.dead;
    w.Did(OfCall(w.me.call, CallStep.TestDead));
    done := true;
  }

  /** An id of its own. */
  method TakeId(w: World, ghost call: Call) returns (done: bool, id: nat, ghost ticket: nat)
    requires w.Valid() && CallIs(w, call) && call.phase.Tested?
    modifies w, w.client, w.wire
    ensures w.Valid() && |w.script| <= |old(w.script)|
    ensures done ==> id == WireId(ticket) && CallIs(w, call.(phase := Numbered, ticket := Some(ticket)))
    ensures done ==> w.Mine() == old(w.Mine()) + [OfCall(w.me.call, CallStep.TakeId)]
    ensures !done ==> w.Stuck() && CallIs(w, call)
  {
    hide IsRun, After, OwnSteps, Tidy, WireId;
    var l := w.Turn();
    if l.None? {
      return false, 0, 0;
    }
    ticket := w.state.issued;
    TicketIsId(w.state);
    id := w.client.TakeId();
    w.Did(OfCall(w.me.call, CallStep.TakeId));
    done := true;
  }

  /** Its sender goes into the pending map. */
  method Register(w: World, ghost call: Call, id: nat) returns (done: bool, ghost since: nat, ghost late: bool)
    requires w.Valid() && CallIs(w, call) && call.phase.Numbered? && call.ticket.Some?
             && id == WireId(call.ticket.value)
    modifies w, w.client, w.wire
    ensures w.Valid() && |w.script| <= |old(w.script)|
    ensures done ==> CallIs(w, call.(phase := Registered, since := since, late := late))
    ensures done ==> w.Mine() == old(w.Mine()) + [OfCall(w.me.call, CallStep.Register)]
    ensures !done ==> w.Stuck() && CallIs(w, call)
  {
    hide IsRun, After, OwnSteps, Tidy, WireId;
    var l := w.Turn();
    if l.None? {
      return false, 0, false;
    }
    since, late := |w.state.heard|, Drained(w.state);
    w.client.InsertPending(id, w.me.call);
    w.Did(OfCall(w.me.call, CallStep.Register));
    done := true;
  }

  /** Its request goes to the writer, if that still listens. */
  method Send(w: World, ghost call: Call, id: nat) returns (done: bool, ok: bool)
    requires w.Valid() && CallIs(w, call) && call.phase.Registered? && call.ticket.Some?
             && id == WireId(call.ticket.value)
    modifies w, w.client, w.wire
    ensures w.Valid() && |w.script| <= |old(w.script)|
    ensures done ==> CallIs(w, call.(phase := if ok then Awaiting else Unsent))
    ensures done ==> w.Mine() == old(w.Mine()) + [OfCall(w.me.call, CallStep.Send)]
    ensures !done ==> w.Stuck() && CallIs(w, call)
  {
    hide IsRun, After, OwnSteps, Tidy, WireId;
    var l := w.Turn();
    if l.None? {
      return false, false;
    }
    Queued(w.state);
    ok := w.wire.Request(Frame(id, w.me.call));
    w.Did(OfCall(w.me.call, CallStep.Send));
    done := true;
  }

  /** A request that was not taken is not waited for. */
  method Unregister(w: World, ghost call: Call, id: nat) returns (done: bool)
    requires w.Valid() && CallIs(w, call) && call.phase.Unsent? && call.ticket.Some? && id == WireId(call.ticket.value)
    modifies w, w.client, w.wire
    ensures w.Valid() && |w.script| <= |old(w.script)|
    ensures done ==> CallIs(w, call.(phase := Fallback(SendFailed)))
    ensures done ==> w.Mine() == old(w.Mine()) + [OfCall(w.me.call, CallStep.Unregister)]
    ensures !done ==> w.Stuck() && CallIs(w, call)
  {
    hide IsRun, After, OwnSteps, Tidy, WireId;
    var l := w.Turn();
    if l.None? {
      return false;
    }
    var waiter := w.client.RemovePending(id);
    w.Did(OfCall(w.me.call, CallStep.Unregister));
    done := true;
  }

  /** Its channel has an answer, or has lost its sender. */
  method AwaitAnswer(w: World, ghost call: Call) returns (done: bool, answer: Option<Answer>)
    requires w.Valid() && CallIs(w, call) && call.phase.Awaiting?
    modifies w, w.client, w.wire
    ensures w.Valid() && |w.script| <= |old(w.script)|
    ensures done ==> CallIs(w, call.(phase := AfterWait(call.watch, answer))) && Routed(w.state, w.me.call) == answer
    ensures done ==> w.Mine() == old(w.Mine()) + [OfCall(w.me.call, CallStep.Resolve)]
    ensures !done ==> w.Stuck() && CallIs(w, call)
  {
    hide IsRun, After, OwnSteps, Tidy, WireId;
    var l := w.Turn();
    if l.None? {
      return false, None;
    }
    answer := w.client.Receive(w.me.call);
    w.Did(OfCall(w.me.call, CallStep.Resolve));
    done := true;
  }

  /** Whether the flow of events was started. */
  method LookStarted(w: World, ghost call: Call) returns (done: bool, started: bool)
    requires w.Valid() && CallIs(w, call) && call.phase.Watching?
    modifies w, w.client, w.wire
    ensures w.Valid() && |w.script| <= |old(w.script)|
    ensures done ==> CallIs(w, call.(phase := if started then Joining else Entering))
    ensures done ==> w.Mine() == old(w.Mine()) + [OfCall(w.me.call, CallStep.LookStarted)]
    ensures !done ==> w.Stuck() && CallIs(w, call)
  {
    hide IsRun, After, OwnSteps, Tidy, WireId;
    var l := w.Turn();
    if l.None? {
      return false, false;
    }
    started := w.client.watchStarted;
    w.Did(OfCall(w.me.call, CallStep.LookStarted));
    done := true;
  }

  /** The flow of events is started. */
  method MarkStarted(w: World, ghost call: Call) returns (done: bool)
    requires w.Valid() && CallIs(w, call) && call.phase.Acknowledged?
    modifies w, w.client, w.wire
    ensures w.Valid() && |w.script| <= |old(w.script)|
    ensures done ==> CallIs(w, call.(phase := Joining))
    ensures done ==> w.Mine() == old(w.Mine()) + [OfCall(w.me.call, CallStep.MarkStarted)]
    ensures !done ==> w.Stuck() && CallIs(w, call)
  {
    hide IsRun, After, OwnSteps, Tidy, WireId;
    var l := w.Turn();
    if l.None? {
      return false;
    }
    w.client.MarkStarted();
    w.Did(OfCall(w.me.call, CallStep.MarkStarted));
    done := true;
  }

  /** The new subscriber, from the next event on. */
  method Subscribe(w: World, ghost call: Call) returns (done: bool, start: nat)
    requires w.Valid() && CallIs(w, call) && call.phase.Joining?
    modifies w, w.client, w.wire
    ensures w.Valid() && |w.script| <= |old(w.script)|
    ensures done ==> CallIs(w, call.(phase := Listening)) && Subscribed(w.state, w.me.call, start)
    ensures done ==> w.Mine() == old(w.Mine()) + [OfCall(w.me.call, CallStep.Join)]
    ensures !done ==> w.Stuck() && CallIs(w, call)
  {
    hide IsRun, After, OwnSteps, Tidy, WireId;
    var l := w.Turn();
    if l.None? {
      return false, 0;
    }
    start := w.client.Subscribe(w.me.call);
    w.Did(OfCall(w.me.call, CallStep.Join));
    done := true;
  }

  /** The test after it. */
  method Retest(w: World, ghost call: Call, start: nat) returns (done: bool, dead: bool)
    requires w.Valid() && CallIs(w, call) && call.phase.Listening? && Subscribed(w.state, w.me.call, start)
    modifies w, w.client, w.wire
    ensures w.Valid() && |w.script| <= |old(w.script)|
    ensures done ==> CallIs(w, call.(phase := if dead then Fallback(DeadAtRetest) else Streaming))
    ensures done && !dead ==> Subscribed(w.state, w.me.call, start) && !w.state.mem.dead
    ensures done ==> w.Mine() == old(w.Mine()) + [OfCall(w.me.call, CallStep.Retest)]
    ensures !done ==> w.Stuck() && CallIs(w, call)
  {
    hide IsRun, After, OwnSteps, Tidy, WireId;
    var l := w.Turn();
    if l.None? {
      return false, false;
    }
    dead := w.client.dead;
    if dead {
      w.client.DropReceiver(w.me.call);
    }
    w.Did(OfCall(w.me.call, CallStep.Retest));
    done := true;
  }

  /** The request over HTTP. */
  method RunHttp(w: World, ghost call: Call) returns (done: bool)
    requires w.Valid() && CallIs(w, call) && call.phase.Fallback?
    modifies w, w.client, w.wire
    ensures w.Valid() && |w.script| <= |old(w.script)|
    ensures done ==> CallIs(w, call.(phase := ByHttp(call.phase.why), httpRuns := call.httpRuns + 1))
    ensures done ==> w.Mine() == old(w.Mine()) + [OfCall(w.me.call, CallStep.RunHttp)]
    ensures !done ==> w.Stuck() && CallIs(w, call)
  {
    hide IsRun, After, OwnSteps, Tidy, WireId;
    var l := w.Turn();
    if l.None? {
      return false;
    }
    w.Did(OfCall(w.me.call, CallStep.RunHttp));
    done := true;
  }

  /** Where the end of the wait leads. */
  function AfterWait(watch: bool, answer: Option<Answer>): Phase {
    match answer
    case None => Fallback(Dropped)
    case Some(a) => if !watch then Answered(a) else if a.Refused? then Fallback(WatchRefused) else Acknowledged
  }

  /** The answer routed to a call. */
  function Routed(s: State, c: nat): Option<Answer> {
    if c in s.mem.answers then Some(s.mem.answers[c]) else None
  }

  /** The call is sent the events from `start` on. */
  predicate Subscribed(s: State, c: nat, start: nat) {
    c in s.mem.streams && s.mem.streams[c].start == start && s.mem.streams[c].live
  }

  lemma TicketIsId(s: State)
    requires Tidy(s)
    ensures s.mem.nextId == WireId(s.issued)
  {
  }

  /** The frame the writer holds is not in the channel. */
  lemma Queued(s: State)
    requires Tidy(s)
    ensures !s.writer.Waiting? ==> s.queue != []
  {
  }

  // ---- the methods ----

  datatype Outcome<+T> = Given(value: T) | Gone(why: Reason) | Waits

  /** The steps of an op that has ended: it tests, takes an id, registers and sends, in this order. */
  function OpSteps(c: nat, r: Outcome<Answer>): seq<Step> {
    match r
    case Gone(DeadAtEntry) => [OfCall(c, CallStep.TestDead)]
    case _ => [OfCall(c, CallStep.TestDead), OfCall(c, CallStep.TakeId), OfCall(c, CallStep.Register)] + SendSteps(c, r)
  }

  function SendSteps(c: nat, r: Outcome<Answer>): seq<Step> {
    [OfCall(c, CallStep.Send), OfCall(c, if r == Gone(SendFailed) then CallStep.Unregister else CallStep.Resolve)]
  }

  /** One pipelined op: the answer that was routed to it, or that the lane is gone. */
  method Op(w: World, ghost call: Call) returns (r: Outcome<Answer>, ghost after: Call)
    requires w.Valid() && CallIs(w, call) && call.phase.Entering?
    modifies w, w.client, w.wire
    ensures w.Valid() && |w.script| <= |old(w.script)| && CallIs(w, after) && after.watch == call.watch
            && after.httpRuns == call.httpRuns
    ensures match r
            case Given(answer) =>
              && after.phase == AfterWait(call.watch, Some(answer))
              && Routed(w.state, w.me.call) == Some(answer)
            case Gone(why) => after.phase == Fallback(why) && (why.DeadAtEntry? || why.SendFailed? || why.Dropped?)
            case Waits => w.Stuck()
    ensures !r.Waits? ==> w.Mine() == old(w.Mine()) + OpSteps(w.me.call, r)
  {
    hide World.Valid, World.Stuck, World.Mine, Subscribed;
    after := call;
    var done, dead := TestDead(w, after);
    if !done {
      return Waits, after;
    }
    after := after.(phase := if dead then Fallback(DeadAtEntry) else Tested);
    if dead {
      return Gone(DeadAtEntry), after;
    }
    var id;
    ghost var ticket;
    done, id, ticket := TakeId(w, after);
    if !done {
      return Waits, after;
    }
    after := after.(phase := Numbered, ticket := Some(ticket));
    ghost var since, late;
    done, since, late := Register(w, after, id);
    if !done {
      return Waits, after;
    }
    after := after.(phase := Registered, since := since, late := late);
    r, after := SendAndWait(w, after, id);
  }

  /** The rest of it, once it is registered under `id`. */
  method SendAndWait(w: World, ghost call: Call, id: nat) returns (r: Outcome<Answer>, ghost after: Call)
    requires w.Valid() && CallIs(w, call) && call.phase.Registered? && call.ticket.Some?
             && id == WireId(call.ticket.value)
    modifies w, w.client, w.wire
    ensures w.Valid() && |w.script| <= |old(w.script)| && CallIs(w, after) && after.watch == call.watch
            && after.httpRuns == call.httpRuns
    ensures match r
            case Given(answer) =>
              && after.phase == AfterWait(call.watch, Some(answer))
              && Routed(w.state, w.me.call) == Some(answer)
            case Gone(why) => after.phase == Fallback(why) && (why.SendFailed? || why.Dropped?)
            case Waits => w.Stuck()
    ensures !r.Waits? ==> w.Mine() == old(w.Mine()) + SendSteps(w.me.call, r)
  {
    hide World.Valid, World.Stuck, World.Mine, Subscribed;
    after := call;
    var done, ok := Send(w, after, id);
    if !done {
      return Waits, after;
    }
    after := after.(phase := if ok then Awaiting else Unsent);
    if !ok {
      done := Unregister(w, after, id);
      if !done {
        return Waits, after;
      }
      return Gone(SendFailed), after.(phase := Fallback(SendFailed));
    }
    var answer;
    done, answer := AwaitAnswer(w, after);
    if !done {
      return Waits, after;
    }
    after := after.(phase := AfterWait(call.watch, answer));
    return if answer.Some? then Given(answer.value) else Gone(Dropped), after;
  }

  /** The call has given up the lane for a reason exactly when it took the step at which it would find out, and
      the reason held. */
  ghost predicate GivesUpOnlyFor(bound: bool, trace: seq<Step>, c: nat, p: Phase) {
    forall why: Reason :: LaneReasons.GivenUp(p, why) <==> LaneReasons.Decided(Start(bound), trace, c, why)
  }

  lemma Reasons(w: World, call: Call)
    requires w.Valid() && CallIs(w, call)
    ensures GivesUpOnlyFor(w.bound, w.trace, w.me.call, call.phase)
  {
    hide LaneReasons.Decided, LaneReasons.GivenUp, IsRun, After;
    forall why: Reason
      ensures LaneReasons.GivenUp(call.phase, why) <==> LaneReasons.Decided(Start(w.bound), w.trace, w.me.call, why)
    {
      LaneReasons.GivenUpIff(w.bound, w.trace, w.me.call, why);
    }
  }

  /** A messaging method: through the lane if one applies, and over HTTP only when the lane gave no answer;
      `http` counts the requests it made there. */
  method Message(w: World, ghost call: Call, addressable: bool)
    returns (r: Outcome<Option<Answer>>, http: nat, ghost after: Call)
    requires w.Valid() && CallIs(w, call) && call.phase.Begun? && !call.watch && call.addressable == addressable
             && call.httpRuns == 0
    modifies w, w.client, w.wire
    ensures w.Valid() && CallIs(w, after) && http == after.httpRuns
    ensures match r
            case Given(Some(answer)) =>
              after.phase == Answered(answer) && Routed(w.state, w.me.call) == Some(answer) && http == 0
            case Given(None) => after.phase.ByHttp? && http == 1
            case Gone(_) => false
            case Waits => w.Stuck() && http == 0
    ensures GivesUpOnlyFor(w.bound, w.trace, w.me.call, after.phase)
  {
    hide World.Valid, World.Stuck, World.Mine, Subscribed, GivesUpOnlyFor;
    after, http := call, 0;
    var done, byLane := Choose(w, after, false, addressable);
    if !done {
      Reasons(w, after);
      return Waits, 0, after;
    }
    after := after.(phase := if byLane then Entering else Fallback(NoLane));
    if byLane {
      var answer;
      answer, after := Op(w, after);
      match answer {
        case Given(a) =>
          Reasons(w, after);
          return Given(Some(a)), 0, after;
        case Waits =>
          Reasons(w, after);
          return Waits, 0, after;
        case Gone(_) =>
      }
    }
    done := RunHttp(w, after);
    if !done {
      Reasons(w, after);
      return Waits, 0, after;
    }
    http := http + 1;
    after := after.(phase := ByHttp(after.phase.why), httpRuns := after.httpRuns + 1);
    Reasons(w, after);
    return Given(None), http, after;
  }

  /** Has the node send events, unless an earlier stream already did. */
  method StartWatch(w: World, ghost call: Call) returns (r: Outcome<()>, ghost after: Call)
    requires w.Valid() && CallIs(w, call) && call.phase.Watching? && call.watch
    modifies w, w.client, w.wire
    ensures w.Valid() && CallIs(w, after)
    ensures match r
            case Given(_) => after.phase.Joining?
            case Gone(why) => after.phase == Fallback(why)
            case Waits => w.Stuck()
  {
    hide World.Valid, World.Stuck, World.Mine, Subscribed, Routed;
    after := call;
    var done, started := LookStarted(w, after);
    if !done {
      return Waits, after;
    }
    after := after.(phase := if started then Joining else Entering);
    if started {
      return Given(()), after;
    }
    var answer;
    answer, after := Op(w, after);
    match answer {
      case Waits => return Waits, after;
      case Gone(why) => return Gone(why), after;
      case Given(a) =>
        if a.Refused? {
          return Gone(WatchRefused), after;
        }
    }
    done := MarkStarted(w, after);
    if !done {
      return Waits, after;
    }
    return Given(()), after.(phase := Joining);
  }

  /** Subscribes to the node's events: registers first and only then tests whether the lane is dead. A
      stream that is returned begins at event `start`. */
  method WatchStream(w: World, ghost call: Call) returns (r: Outcome<nat>, ghost after: Call)
    requires w.Valid() && CallIs(w, call) && call.phase.Watching? && call.watch
    modifies w, w.client, w.wire
    ensures w.Valid() && CallIs(w, after)
    ensures match r
            case Given(start) =>
              && after.phase.Streaming? && !w.state.mem.dead && Subscribed(w.state, w.me.call, start)
              && EndsWith(w.Mine(), [OfCall(w.me.call, CallStep.Join), OfCall(w.me.call, CallStep.Retest)])
            case Gone(why) => after.phase == Fallback(why)
            case Waits => w.Stuck()
    ensures GivesUpOnlyFor(w.bound, w.trace, w.me.call, after.phase)
  {
    hide World.Valid, World.Stuck, World.Mine, Subscribed, GivesUpOnlyFor;
    var watching;
    watching, after := StartWatch(w, call);
    match watching {
      case Waits =>
        Reasons(w, after);
        return Waits, after;
      case Gone(why) =>
        Reasons(w, after);
        return Gone(why), after;
      case Given(_) =>
    }
    var done, start := Subscribe(w, after);
    if !done {
      Reasons(w, after);
      return Waits, after;
    }
    after := after.(phase := Listening);
    var dead;
    done, dead := Retest(w, after, start);
    if !done {
      Reasons(w, after);
      return Waits, after;
    }
    after := after.(phase := if dead then Fallback(DeadAtRetest) else Streaming);
    Reasons(w, after);
    return if dead then Gone(DeadAtRetest) else Given(start), after;
  }
}
