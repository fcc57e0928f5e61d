/**
 The two threads of a flow as the program runs them: each works on the endpoints and the handler with its
 own variables and in its own order, against whatever the other thread, the app and the node do in between;
 every piece of work is a step of the transition system.
 */
module AdapterObject {
  import opened Basics
  import opened Adapter
  import opened AdapterTheorems

  /** One end of a connection. */
  class Endpoint {
    var inbox: seq<Frame>      // received and not yet taken
    var sent: seq<Frame>
    var closed: bool

    constructor ()
      ensures inbox == [] && sent == [] && !closed
    {
      inbox, sent, closed := [], [], false;
    }

    method Receive() returns (f: Frame)
      requires inbox != []
      modifies this`inbox
      ensures [f] + inbox == old(inbox)
    {
      f := inbox[0];
      inbox := inbox[1..];
    }

    method Send(f: Frame) returns (ok: bool)
      modifies this`sent
      ensures ok == !closed && sent == if ok then old(sent) + [f] else old(sent)
    {
      ok := !closed;
      if ok {
        sent := sent + [f];
      }
    }

    method Close()
      modifies this`closed
      ensures closed
    {
      closed := true;
    }

    /** What others have done to it meanwhile. */
    method Follow(inbox: seq<Frame>, sent: seq<Frame>, closed: bool)
      modifies this
      ensures this.inbox == inbox && this.sent == sent && this.closed == closed
    {
      this.inbox, this.sent, this.closed := inbox, sent, closed;
    }
  }

  /** The handler of a flow: it keeps what it has seen. */
  class FlowHandler {
    const decide: Handler
    var seen: seq<Frame>
    var calls: seq<Call>

    constructor (decide: Handler)
      ensures this.decide == decide && seen == [] && calls == []
    {
      this.decide, seen, calls := decide, [], [];
    }

    method Ask(request: Frame) returns (action: Action)
      modifies this
      ensures seen == old(seen) + [request] && calls == old(calls) + [Intercept(request)] && action == decide(seen)
    {
      seen := seen + [request];
      calls := calls + [Intercept(request)];
      action := decide(seen);
    }

    method End()
      modifies this`calls
      ensures calls == old(calls) + [OnClose]
    {
      calls := calls + [OnClose];
    }
  }

  datatype Actor = First | Second

  predicate Acts(a: Actor, l: Step) {
    match a
    case First => l.ByMain?
    case Second => l.ByRelay?
  }

  /** What only the actor changes; the app and the node may have sent more. */
  predicate SameFor(a: Actor, s: State, t: State) {
    match a
    case First =>
      && t.main == s.main && t.appTaken == s.appTaken && Taken(t) == Taken(s)
      && t.toNode == s.toNode && t.calls == s.calls && s.appFrames <= t.appFrames
    case Second => t.relay == s.relay && t.nodeTaken == s.nodeTaken && t.toApp == s.toApp
                   && s.nodeFrames <= t.nodeFrames
  }

  lemma OthersLeave(h: Handler, a: Actor, s: State, l: Step)
    requires Enabled(s, l) && !Acts(a, l) && s.appTaken <= |s.appFrames|
    ensures SameFor(a, s, Apply(h, s, l))
  {
  }

  lemma SameAfter(a: Actor, s: State, t: State, u: State)
    requires SameFor(a, s, t) && SameFor(a, t, u)
    ensures SameFor(a, s, u)
  {
  }

  /** The actor's own steps, in order. */
  function OwnSteps(steps: seq<Step>, a: Actor): seq<Step> {
    if steps == [] then []
    else
      var last := steps[|steps| - 1];
      OwnSteps(steps[..|steps| - 1], a) + if Acts(a, last) then [last] else []
  }

  lemma OwnStepsMore(steps: seq<Step>, l: Step, a: Actor)
    ensures OwnSteps(steps + [l], a) == OwnSteps(steps, a) + if Acts(a, l) then [l] else []
  {
    assert (steps + [l])[..|steps|] == steps;
  }

  /** What the app, and the node, have sent that was not yet received. */
  function FromApp(s: State): seq<Frame> {
    if s.appTaken <= |s.appFrames| then s.appFrames[s.appTaken..] else []
  }

  function FromNode(s: State): seq<Frame> {
    if s.nodeTaken <= |s.nodeFrames| then s.nodeFrames[s.nodeTaken..] else []
  }

  /** The world of one thread. A script says what the others do, and when it is the thread's turn. */
  class World {
    const me: Actor
    const spawned: bool
    const handler: FlowHandler
    const down: Endpoint
    const up: Endpoint
    var script: seq<Step>
    var state: State
    ghost var trace: seq<Step>

    ghost predicate Running()
      reads this
    {
      IsRun(handler.decide, Start(spawned), trace) && state == After(handler.decide, Start(spawned), trace)
      && Inv(handler.decide, state)
    }

    /** The objects hold what a state says. */
    predicate Mirrors(s: State)
      reads handler, down, up
    {
      && handler.calls == s.calls && handler.seen == Decided(s)
      && down.inbox == FromApp(s) && down.sent == s.toApp && down.closed == s.downClosed
      && up.inbox == FromNode(s) && up.sent == s.toNode && up.closed == s.upClosed
      && down != up
    }

    ghost predicate Valid()
      reads this, handler, down, up
    {
      Running() && Mirrors(state)
    }

    /** The steps the thread has declared. */
    ghost function Mine(): seq<Step>
      reads this
    {
      OwnSteps(trace, me)
    }

    /** Nothing more happens: the script is at its end, or what it asks for cannot happen. */
    predicate Stuck()
      reads this
    {
      script == [] || !Enabled(state, script[0])
    }

    constructor (me: Actor, decide: Handler, spawned: bool, script: seq<Step>)
      ensures Valid() && this.me == me && this.spawned == spawned && this.script == script && handler.decide == decide
      ensures state == Start(spawned) && trace == [] && fresh(handler) && fresh(down) && fresh(up)
    {
      this.me, this.spawned, this.script := me, spawned, script;
      var h := new FlowHandler(decide);
      var d := new Endpoint();
      var u := new Endpoint();
      handler, down, up := h, d, u;
      state, trace := Start(spawned), [];
      new;
      assert Intercepts([]) == [];
    }

    /** Lets the others run until it is the thread's turn, and says how a wait of its own ended. */
    method Turn() returns (l: Option<Step>)
      requires Valid()
      modifies this`script, this`state, this`trace, handler, down, up
      ensures Valid() && SameFor(me, old(state), state) && |script| <= |old(script)| && Mine() == old(Mine())
      ensures match l
              case None => Stuck()
              case Some(step) => Acts(me, step) && Enabled(state, step) && |script| < |old(script)|
    {
      hide IsRun, After, Inv, Enabled, Apply, OwnSteps;
      while script != []
        invariant Valid() && |script| <= |old(script)| && SameFor(me, old(state), state) && Mine() == old(Mine())
        decreases |script|
      {
        hide SameFor;
        var next := script[0];
        if !Enabled(state, next) {
          break;
        }
        script := script[1..];
        if Acts(me, next) {
          return Some(next);
        }
        ghost var before := state;
        Other(next);
        SameAfter(me, old(state), before, state);
      }
      return None;
    }

    /** A step of somebody else. */
    method Other(l: Step)
      requires Valid() && Enabled(state, l) && !Acts(me, l)
      modifies this`state, this`trace, handler, down, up
      ensures Valid() && Mine() == old(Mine()) && SameFor(me, old(state), state)
    {
      hide IsRun, After, Inv, SameFor, Enabled, Apply, OwnSteps;
      RunExtends(handler.decide, Start(spawned), trace, l);
      StepKeeps(handler.decide, state, l);
      TakenWithin(handler.decide, state);
      OthersLeave(handler.decide, me, state, l);
      OwnStepsMore(trace, l, me);
      state, trace := Apply(handler.decide, state, l), trace + [l];
      handler.calls, handler.seen := state.calls, Decided(state);
      down.Follow(FromApp(state), state.toApp, state.downClosed);
      up.Follow(FromNode(state), state.toNode, state.upClosed);
    }

    /** What the thread has just done to the objects was this step. */
    method Did(l: Step)
      requires Running() && Acts(me, l) && Enabled(state, l) && Mirrors(Apply(handler.decide, state, l))
      modifies this`state, this`trace
      ensures Valid() && state == Apply(handler.decide, old(state), l) && Mine() == old(Mine()) + [l]
    {
      RunExtends(handler.decide, Start(spawned), trace, l);
      StepKeeps(handler.decide, state, l);
      OwnStepsMore(trace, l, me);
      hide IsRun, After, Inv, Enabled, Apply, OwnSteps;
      state, trace := Apply(handler.decide, state, l), trace + [l];
    }
  }
}
