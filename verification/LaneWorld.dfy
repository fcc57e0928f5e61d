/**
 What a lane thread runs against: the shared client and the channels as objects that the thread itself
 changes, and beside them the state of the transition system. A thread does its work on the objects and
 then declares which step that was; the step must be enabled, and must lead to what the objects hold.
 */
module LaneWorld {
  import opened Basics
  import opened Lane
  import opened LaneInvariant
  import opened LaneObject
  import LaneSteps

  /** The request channel and the two directions of the ring. */
  class Wire {
    var requests: seq<Frame>   // handed over and not yet taken by the writer
    var listening: bool        // the channel's receiver exists
    var ring: seq<Frame>
    var down: seq<Response>
    var closed: bool

    constructor ()
      ensures requests == [] && listening && ring == [] && down == [] && !closed
    {
      requests, listening, ring, down, closed := [], true, [], [], false;
    }

    /** Hands a frame to the writer; fails when the writer is gone. */
    method Request(f: Frame) returns (ok: bool)
      modifies this`requests
      ensures ok == listening && requests == if ok then old(requests) + [f] else old(requests)
    {
      ok := listening;
      if ok {
        requests := requests + [f];
      }
    }

    method NextRequest() returns (f: Frame)
      requires requests != []
      modifies this`requests
      ensures [f] + requests == old(requests)
    {
      f := requests[0];
      requests := requests[1..];
    }

    method HangUp()
      modifies this`listening
      ensures !listening
    {
      listening := false;
    }

    /** Puts a frame on the ring; fails once that is closed. */
    method Send(f: Frame) returns (ok: bool)
      modifies this`ring
      ensures ok == !closed && ring == if ok then old(ring) + [f] else old(ring)
    {
      ok := !closed;
      if ok {
        ring := ring + [f];
      }
    }

    method Receive() returns (r: Response)
      requires down != []
      modifies this`down
      ensures [r] + down == old(down)
    {
      r := down[0];
      down := down[1..];
    }

    method Close()
      modifies this`closed
      ensures closed
    {
      closed := true;
    }

    /** What others have done to the channels meanwhile. */
    method Follow(requests: seq<Frame>, listening: bool, ring: seq<Frame>, down: seq<Response>, closed: bool)
      modifies this
      ensures this.requests == requests && this.listening == listening && this.ring == ring
      ensures this.down == down && this.closed == closed
    {
      this.requests, this.listening, this.ring, this.down, this.closed := requests, listening, ring, down, closed;
    }
  }

  /** The frames still in the request channel: the writer has taken the one it is sending. */
  function InChannel(s: State): seq<Frame> {
    if s.writer.Waiting? || s.queue == [] then s.queue else s.queue[1..]
  }

  /** The frames that were put on the ring. */
  function OnRing(s: State): seq<Frame> {
    s.executed + s.ring
  }

  // ---- what holds whatever the ids ----

  /** Phases of a call that has subscribed. */
  predicate Past(p: Phase) {
    p.Listening? || p.Streaming? || p.Left? || p == Fallback(DeadAtRetest) || p == ByHttp(DeadAtRetest)
  }

  /** The counter tells how many ids were issued, the frame the writer holds is the head of the queue, and
      nobody subscribes twice. */
  predicate Tidy(s: State) {
    && s.mem.nextId == WireId(s.issued)
    && (!s.writer.Waiting? ==> s.queue != [])
    && Distinct(s.mem.subscribers)
    && forall c :: c in s.mem.subscribers ==> c < |s.calls| && Past(s.calls[c].phase)
  }

  lemma CallKeepsTidy(s: State, c: nat, k: CallStep)
    requires CanCall(s, c, k) && Tidy(s)
    ensures Tidy(CallDoes(s, c, k))
  {
    hide WireId, Distinct;
    if k.TakeId? {
      NextId(s.issued);
    } else if k.Join? {
      JoinKeepsTidy(s, c);
    } else {
      var t := CallDoes(s, c, k);
      assert t.mem.subscribers == s.mem.subscribers && t.calls == s.calls[c := t.calls[c]];
      assert Past(s.calls[c].phase) ==> Past(t.calls[c].phase);
    }
  }

  lemma JoinKeepsTidy(s: State, c: nat)
    requires CanCall(s, c, Join) && Tidy(s)
    ensures Tidy(CallDoes(s, c, Join))
  {
    assert c !in s.mem.subscribers;
  }

  lemma NextId(issued: nat)
    ensures (WireId(issued) + 1) % ID_SPACE == WireId(issued + 1)
  {
  }

  lemma ReaderKeepsTidy(s: State, k: ReaderStep)
    requires CanRead(s, k) && Tidy(s)
    ensures Tidy(ReaderDoes(s, k))
  {
    LaneSteps.RetainDistinct(s.mem, s.mem.subscribers);
  }

  lemma StepKeepsTidy(s: State, l: Step)
    requires Enabled(s, l) && Tidy(s)
    ensures Tidy(Apply(s, l))
  {
    match l
    case OfCall(c, k) =>
      hide CallDoes, ReaderDoes, WriterDoes, NodeDoes;
      CallKeepsTidy(s, c, k);
    case OfReader(k) =>
      hide CallDoes, ReaderDoes, WriterDoes, NodeDoes;
      ReaderKeepsTidy(s, k);
    case _ => hide CallDoes, ReaderDoes, WireId;
  }

  lemma {:induction false} RunIsTidy(s: State, steps: seq<Step>)
    requires IsRun(s, steps) && Tidy(s)
    ensures Tidy(After(s, steps))
    decreases |steps|
  {
    if steps == [] {
    } else {
      StepKeepsTidy(s, steps[0]);
      RunIsTidy(Apply(s, steps[0]), steps[1..]);
    }
  }

  // ---- actors ----

  datatype Actor = TheReader | TheWriter | Caller(call: nat)

  predicate Acts(a: Actor, l: Step) {
    match a
    case TheReader => l.OfReader?
    case TheWriter => l.OfWriter?
    case Caller(c) => l.OfCall? && l.call == c
  }

  /** The actor's own steps, in order. */
  function OwnSteps(steps: seq<Step>, a: Actor): seq<Step> {
    if steps == [] then []
    else
      var last := steps[|steps| - 1];
      OwnSteps(steps[..|steps| - 1], a) + if Acts(a, last) then [last] else []
  }

  lemma OwnStepsMore(steps: seq<Step>, l: Step, a: Actor)
    ensures OwnSteps(steps + [l], a) == OwnSteps(steps, a) + if Acts(a, l) then [l] else []
  {
    assert (steps + [l])[..|steps|] == steps;
  }

  predicate Exists(a: Actor, s: State) {
    a.Caller? ==> a.call < |s.calls|
  }

  /** What only the actor changes. */
  predicate SameFor(a: Actor, s: State, t: State) {
    match a
    case TheReader => t.reader == s.reader && t.heard == s.heard && t.events == s.events && s.down <= t.down
    case TheWriter => t.writer == s.writer && OnRing(t) == OnRing(s) && s.queue <= t.queue
    case Caller(c) => c < |s.calls| && c < |t.calls| && t.calls[c] == s.calls[c] && SameStream(s, t, c)
  }

  /** A stream's receiver and where it began are its caller's business. */
  predicate SameStream(s: State, t: State, c: nat) {
    c in s.mem.streams ==>
      c in t.mem.streams && t.mem.streams[c].live == s.mem.streams[c].live
      && t.mem.streams[c].start == s.mem.streams[c].start
  }

  lemma CallLeaves(a: Actor, s: State, d: nat, k: CallStep)
    requires CanCall(s, d, k) && a != Caller(d) && Exists(a, s)
    ensures SameFor(a, s, CallDoes(s, d, k))
  {
  }

  lemma ReaderLeaves(a: Actor, s: State, k: ReaderStep)
    requires CanRead(s, k) && !a.TheReader? && Exists(a, s)
    ensures SameFor(a, s, ReaderDoes(s, k))
  {
  }

  lemma OthersLeave(a: Actor, s: State, l: Step)
    requires Enabled(s, l) && !Acts(a, l) && Exists(a, s)
    ensures SameFor(a, s, Apply(s, l))
  {
    match l
    case OfCall(d, k) => CallLeaves(a, s, d, k);
    case OfReader(k) => ReaderLeaves(a, s, k);
    case OfNode(NodeTake) =>
      hide CallDoes, ReaderDoes, CanCall, CanRead;
      AppendAssociates(s.executed, [s.ring[0]], s.ring[1..]);
      assert s.ring == [s.ring[0]] + s.ring[1..];
    case _ =>
      hide CallDoes, ReaderDoes, CanCall, CanRead;
  }

  lemma SameAsItself(a: Actor, s: State)
    requires Exists(a, s)
    ensures SameFor(a, s, s)
  {
  }

  lemma SameAfter(a: Actor, s: State, t: State, u: State)
    requires SameFor(a, s, t) && SameFor(a, t, u)
    ensures SameFor(a, s, u) && Exists(a, u)
  {
    hide OnRing;
  }

  /** The world of one actor. A script says what the others do, and when it is the actor's turn. */
  class World {
    const me: Actor
    const bound: bool
    const client: LaneClient
    const wire: Wire
    var script: seq<Step>
    var state: State
    ghost var trace: seq<Step>

    /** The state is that of a run. */
    ghost predicate Running()
      reads this
    {
      IsRun(Start(bound), trace) && state == After(Start(bound), trace) && state.bound == bound && Tidy(state)
      && Exists(me, state)
    }

    /** The objects hold what a state says. */
    predicate Mirrors(s: State)
      reads client, wire
    {
      && client.Mem() == s.mem && client.fanned == |s.events|
      && wire.requests == InChannel(s) && (wire.listening <==> !s.writer.Exited?)
      && wire.ring == s.ring && wire.down == s.down && wire.closed == s.closed
    }

    ghost predicate Valid()
      reads this, client, wire
    {
      Running() && Mirrors(state)
    }

    /** The steps the actor has declared. */
    ghost function Mine(): seq<Step>
      reads this
    {
      OwnSteps(trace, me)
    }

    /** Nothing more happens: the script is at its end, or what it asks for cannot happen. */
    predicate Stuck()
      reads this
    {
      script == [] || !Enabled(state, script[0])
    }

    /** The actor comes in after a run that has brought it about. */
    constructor (me: Actor, bound: bool, before: seq<Step>, script: seq<Step>)
      requires IsRun(Start(bound), before) && Exists(me, After(Start(bound), before))
      ensures Valid() && this.me == me && this.bound == bound && this.script == script
      ensures trace == before && state == After(Start(bound), before)
      ensures fresh(client) && fresh(wire)
    {
      this.me, this.bound, this.script := me, bound, script;
      var c := new LaneClient();
      var w := new Wire();
      client, wire := c, w;
      state, trace := After(Start(bound), before), before;
      new;
      RunIsTidy(Start(bound), before);
      LaneSteps.BoundStaysInRun(Start(bound), before);
      client.Follow(state.mem, |state.events|);
      wire.Follow(InChannel(state), !state.writer.Exited?, state.ring, state.down, state.closed);
    }

    /** Lets the others run until it is the actor's turn, and says how a wait of its own ended. */
    method Turn() returns (l: Option<Step>)
      requires Valid()
      modifies this`script, this`state, this`trace, client, wire
      ensures Valid() && SameFor(me, old(state), state) && |script| <= |old(script)| && Mine() == old(Mine())
      ensures match l
              case None => Stuck()
              case Some(step) => Acts(me, step) && Enabled(state, step) && |script| < |old(script)|
    {
      hide IsRun, After, SameFor, Tidy, Enabled, Apply, Exists, OwnSteps;
      SameAsItself(me, state);
      while script != []
        invariant Valid() && |script| <= |old(script)| && SameFor(me, old(state), state) && Mine() == old(Mine())
        decreases |script|
      {
        var next := script[0];
        if !Enabled(state, next) {
          break;
        }
        if Acts(me, next) {
          script := script[1..];
          return Some(next);
        }
        script := script[1..];
        Other(next);
      }
      return None;
    }

    /** A step of somebody else. */
    method Other(l: Step)
      requires Valid() && Enabled(state, l) && !Acts(me, l)
      modifies this`state, this`trace, client, wire
      ensures Valid() && Mine() == old(Mine())
      ensures forall s :: SameFor(me, s, old(state)) ==> SameFor(me, s, state)
    {
      hide IsRun, After, SameFor, Tidy, Enabled, Apply, Exists, OwnSteps;
      LaneSteps.RunExtends(Start(bound), trace, l);
      StepKeepsTidy(state, l);
      LaneSteps.BoundStays(state, l);
      OthersLeave(me, state, l);
      OwnStepsMore(trace, l, me);
      ghost var before := state;
      SameAsItself(me, before);
      SameAfter(me, before, before, Apply(before, l));
      state, trace := Apply(state, l), trace + [l];
      client.Follow(state.mem, |state.events|);
      wire.Follow(InChannel(state), !state.writer.Exited?, state.ring, state.down, state.closed);
      forall s | SameFor(me, s, before) ensures SameFor(me, s, state) {
        SameAfter(me, s, before, state);
      }
    }

    /** What the actor has just done to the objects was this step. */
    method Did(l: Step)
      requires Running() && Acts(me, l) && Enabled(state, l) && Mirrors(Apply(state, l))
      modifies this`state, this`trace
      ensures Valid() && state == Apply(old(state), l) && Mine() == old(Mine()) + [l]
    {
      LaneSteps.RunExtends(Start(bound), trace, l);
      StepKeepsTidy(state, l);
      LaneSteps.BoundStays(state, l);
      OwnStepsMore(trace, l, me);
      StillExists(me, state, l);
      hide IsRun, After, Tidy, Enabled, Apply, Exists, OwnSteps;
      state, trace := Apply(state, l), trace + [l];
    }
  }

  lemma StillExists(a: Actor, s: State, l: Step)
    requires Exists(a, s) && Enabled(s, l)
    ensures Exists(a, Apply(s, l))
  {
    match l
    case OfCall(c, k) => hide ReaderDoes, WriterDoes, NodeDoes;
    case OfReader(k) => hide CallDoes, WriterDoes, NodeDoes;
    case _ => hide CallDoes, ReaderDoes;
  }
}
