/**
 The serve loop as the program runs it: an outer loop that reconnects, a loop over the topics and an
 inner loop over the messages, updating `seen`, `backoff_ms` and the readiness flag. Whatever the world
 does at its awaits, what it does is a run of the transition system, so all that holds of runs holds of
 the loop.
 */
module ServeObject {
  import opened Basics
  import opened Serve
  import Dedup

  /** What the loop is run against: a script says what happens at each await, other tasks and the node
      taking any number of steps first. An exhausted script leaves the loop waiting. */
  class World {
    const config: Config
    const node: Node
    var script: seq<Step>
    var state: State
    ghost var trace: seq<Step>

    ghost predicate Valid()
      reads this
    {
      IsRun(config, Start(node), trace) && state == After(config, Start(node), trace)
    }

    constructor (config: Config, node: Node, script: seq<Step>)
      ensures Valid() && this.config == config && this.node == node && this.script == script
      ensures state == Start(node)
    {
      this.config, this.node, this.script := config, node, script;
      state, trace := Start(node), [];
    }

    /** Nothing more happens: the script is at its end, or what it asks for cannot happen. */
    predicate Stuck()
      reads this
    {
      script == [] || !Enabled(config, state, script[0])
    }

    method Take(l: Step)
      requires Valid() && Enabled(config, state, l)
      modifies this`state, this`trace
      ensures Valid() && state == Apply(config, old(state), l) && trace == old(trace) + [l]
    {
      RunExtends(config, Start(node), trace, l);
      state := Apply(config, state, l);
      trace := trace + [l];
    }

    /** Waits for something that happens to the loop: `before` is the world when it does. Nothing that
        others do meanwhile touches what the loop owns. */
    method Await() returns (k: Option<LoopStep>, before: State)
      requires Valid()
      modifies this
      ensures Valid() && |script| <= |old(script)| && SameForLoop(old(state), before)
      ensures k.Some? ==> LoopCan(config, before, k.value) && state == LoopDoes(config, before, k.value)
                          && |script| < |old(script)|
      ensures k.None? ==> state == before && Stuck()
    {
      while script != []
        invariant Valid() && |script| <= |old(script)| && SameForLoop(old(state), state)
        decreases |script|
      {
        var l := script[0];
        if !Enabled(config, state, l) {
          break;
        }
        script := script[1..];
        before := state;
        Take(l);
        if l.ByLoop? {
          return Some(l.loopStep), before;
        }
        OthersLeaveLoop(config, before, l);
      }
      return None, state;
    }
  }

  /** The part of the state that only the loop changes. */
  predicate SameForLoop(s: State, t: State) {
    && t.loop == s.loop && t.conn == s.conn && t.answered == s.answered && t.backoffMs == s.backoffMs
    && t.ready == s.ready && HandledIn(t.log) == HandledIn(s.log)
  }

  /** The tokens of the requests handled, in order. */
  function HandledIn(log: seq<Event>): seq<nat> {
    if log == [] then []
    else
      HandledIn(log[..|log| - 1]) + match log[|log| - 1] case Handled(_, token) => [token] case _ => []
  }

  lemma HandledInMore(log: seq<Event>, e: Event)
    ensures HandledIn(log + [e]) == HandledIn(log) + if e.Handled? then [e.token] else []
  {
    assert (log + [e])[..|log|] == log;
  }

  /** Only taking a message makes the loop handle anything. */
  lemma LoopHandles(c: Config, s: State, k: LoopStep)
    requires LoopCan(c, s, k)
    ensures !k.TakeMessage? ==> HandledIn(LoopDoes(c, s, k).log) == HandledIn(s.log)
  {
    hide HandledIn;
    match k
    case OpenStream(_) => HandledInMore(s.log, Opened(s.conn + 1));
    case Subscribe(_, _) => HandledInMore(s.log, Confirmed(s.conn, c.topics[s.loop.next]));
    case AllSubscribed => HandledInMore(s.log, Ready(s.conn));
    case _ =>
  }

  /** Taking a message handles it exactly when it is a fresh, readable request for an accepted topic. */
  lemma TakingHandles(c: Config, s: State)
    requires LoopCan(c, s, TakeMessage)
    ensures var m, t := s.stream.unread[0], LoopDoes(c, s, TakeMessage);
            if m.topic in c.accepted && m.token.Some? then
              && t.answered == s.answered + [m.token.value]
              && HandledIn(t.log)
                 == HandledIn(s.log) + if Dedup.LastIsFresh(t.answered) && m.readable then [m.token.value] else []
            else t.answered == s.answered && t.log == s.log
  {
    var m := s.stream.unread[0];
    if m.token.Some? {
      HandledInMore(s.log, Handled(s.conn, m.token.value));
    }
    hide HandledIn, Dedup.LastIsFresh;
  }

  lemma OthersLeaveLoop(c: Config, s: State, l: Step)
    requires Enabled(c, s, l) && !l.ByLoop?
    ensures SameForLoop(s, Apply(c, s, l))
  {
    HandledInMore(s.log, Advertised);
    hide HandledIn;
  }

  lemma {:induction false} RunExtends(c: Config, s: State, steps: seq<Step>, l: Step)
    requires IsRun(c, s, steps) && Enabled(c, After(c, s, steps), l)
    ensures IsRun(c, s, steps + [l]) && After(c, s, steps + [l]) == Apply(c, After(c, s, steps), l)
    decreases |steps|
  {
    if steps == [] {
      assert [] + [l] == [l] && [l][1..] == [];
    } else {
      assert (steps + [l])[1..] == steps[1..] + [l];
      RunExtends(c, Apply(c, s, steps[0]), steps[1..], l);
    }
  }

  class ServeLoop {
    var seen: set<nat>
    var backoffMs: nat
    var subscribed: bool
    var handled: seq<nat>      // the tokens of the requests given to the handler

    constructor ()
      ensures seen == {} && backoffMs == FIRST_BACKOFF && !subscribed && handled == []
    {
      seen, backoffMs, subscribed, handled := {}, FIRST_BACKOFF, false, [];
    }

    /** What the loop holds is what the model says it holds. */
    predicate Mirrors(s: State)
      reads this
    {
      && seen == Dedup.After(s.answered).seen && backoffMs == s.backoffMs && subscribed == s.ready
      && handled == HandledIn(s.log)
    }

    /** Gives a request to the handler, unless it is not for it, was answered before, or is unreadable. */
    method AnswerOne(accepted: set<string>, m: Message, ghost answered: seq<nat>)
      requires seen == Dedup.After(answered).seen
      modifies this`seen, this`handled
      ensures m.topic !in accepted || m.token.None? ==> seen == old(seen) && handled == old(handled)
      ensures m.topic in accepted && m.token.Some? ==>
                var now := answered + [m.token.value];
                && seen == Dedup.After(now).seen
                && handled == old(handled) + if Dedup.LastIsFresh(now) && m.readable then [m.token.value] else []
    {
      if m.topic !in accepted || m.token.None? {
        return;
      }
      var token := m.token.value;
      Dedup.OneMore(answered, token, token);
      if token in seen {
        return;
      }
      seen := seen + {token};
      if |seen| > Dedup.LIMIT {
        seen := {};
        seen := seen + {token};
      }
      if !m.readable {
        return;
      }
      handled := handled + [token];
    }

    /** The wait after a failed connect; false when the shutdown came first, or the script ended. */
    method BackOff(w: World) returns (goOn: bool)
      requires w.Valid() && w.state.loop.BackingOff? && Mirrors(w.state)
      modifies this`backoffMs, w
      ensures w.Valid() && |w.script| <= |old(w.script)| && Mirrors(w.state)
      ensures if goOn then w.state.loop.Connecting? && |w.script| < |old(w.script)|
              else w.state.loop.Returned? || w.Stuck()
    {
      var woke, before := w.Await();
      if woke.Some? {
        LoopHandles(w.config, before, woke.value);
      }
      if woke != Some(WakeUp) {
        return false;
      }
      backoffMs := NextBackoff(backoffMs);
      return true;
    }

    /** Subscribes one topic; false when that failed or nothing more happens. */
    method SubscribeOne(w: World, ghost i: nat) returns (ok: bool)
      requires w.Valid() && w.state.loop == Subscribing(i) && i < |w.config.topics| && Mirrors(w.state)
      modifies w
      ensures w.Valid() && |w.script| <= |old(w.script)| && Mirrors(w.state)
      ensures if ok then w.state.loop == Subscribing(i + 1)
              else w.state.loop.BackingOff? || (w.state.loop.Subscribing? && w.Stuck())
    {
      hide HandledIn, IsRun, After, Dedup.After;
      var answer, before := w.Await();
      if answer.None? {
        return false;
      }
      LoopHandles(w.config, before, answer.value);
      return answer.value.ok;
    }

    /** Subscribes every topic on the stream just opened; true when one failed or nothing more happens. */
    method SubscribeAll(w: World) returns (subFailed: bool)
      requires w.Valid() && w.state.loop == Subscribing(0) && Mirrors(w.state)
      modifies w
      ensures w.Valid() && |w.script| <= |old(w.script)| && Mirrors(w.state)
      ensures !subFailed ==> w.state.loop.Subscribing? && w.state.loop.next == |w.config.topics|
      ensures subFailed ==> w.state.loop.BackingOff? || (w.state.loop.Subscribing? && w.Stuck())
    {
      hide HandledIn, IsRun, After, Dedup.After;
      for i := 0 to |w.config.topics|
        invariant w.Valid() && |w.script| <= |old(w.script)| && Mirrors(w.state)
        invariant w.state.loop == Subscribing(i)
      {
        var ok := SubscribeOne(w, i);
        if !ok {
          return true;
        }
      }
      return false;
    }

    /** Waits for one message or the end of the stream; `goOn` says whether the loop still runs, `ended`
        whether the stream is over. */
    method ProcessOne(w: World) returns (goOn: bool, ended: bool)
      requires w.Valid() && w.state.loop.Processing? && Mirrors(w.state)
      modifies this`seen, this`handled, w
      ensures w.Valid() && |w.script| <= |old(w.script)| && Mirrors(w.state)
      ensures if goOn then |w.script| < |old(w.script)| else w.state.loop.Returned? || w.Stuck()
      ensures goOn ==> if ended then w.state.loop.Connecting? else w.state.loop.Processing?
    {
      hide HandledIn, IsRun, After, Dedup.After, Dedup.LastIsFresh;
      var item, before := w.Await();
      if item.None? {
        return false, true;
      }
      if item.value.TakeMessage? {
        TakingHandles(w.config, before);
        AnswerOne(w.config.accepted, before.stream.unread[0], before.answered);
        return true, false;
      }
      LoopHandles(w.config, before, item.value);
      return item.value.StreamEnds?, true;
    }

    /** Takes messages until the stream ends; false when the shutdown came first, or nothing more happens. */
    method Process(w: World) returns (goOn: bool)
      requires w.Valid() && w.state.loop.Processing? && Mirrors(w.state)
      modifies this`seen, this`handled, w
      ensures w.Valid() && |w.script| <= |old(w.script)| && Mirrors(w.state)
      ensures if goOn then w.state.loop.Connecting? && |w.script| < |old(w.script)|
              else w.state.loop.Returned? || w.Stuck()
    {
      goOn := true;
      var ended := false;
      while goOn && !ended
        invariant w.Valid() && |w.script| <= |old(w.script)| && Mirrors(w.state)
        invariant if !goOn then w.state.loop.Returned? || w.Stuck()
                  else if ended then w.state.loop.Connecting? && |w.script| < |old(w.script)|
                  else w.state.loop.Processing?
        decreases |w.script|, goOn
      {
        goOn, ended := ProcessOne(w);
      }
    }

    /** The loop. It ends when the shutdown resolves at one of its two waits, or is left waiting. */
    method Serve(w: World)
      requires w.Valid() && w.state.loop.Connecting? && Mirrors(w.state)
      modifies this, w
      ensures w.Valid() && Mirrors(w.state) && (w.state.loop.Returned? || w.Stuck())
    {
      hide HandledIn, IsRun, After, Dedup.After;
      while true
        invariant w.Valid() && w.state.loop.Connecting? && Mirrors(w.state)
        decreases |w.script|
      {
        var connect, before := w.Await();
        if connect.None? {
          return;
        }
        LoopHandles(w.config, before, connect.value);
        var ready := false;
        if connect.value.ok {
          var subFailed := SubscribeAll(w);
          if subFailed && !w.state.loop.BackingOff? {
            return;
          }
          ready := !subFailed;
        }
        if !ready {
          var goOn := BackOff(w);
          if !goOn {
            return;
          }
          continue;
        }
        LoopHandles(w.config, w.state, AllSubscribed);
        w.Take(ByLoop(AllSubscribed));
        subscribed := true;
        backoffMs := FIRST_BACKOFF;
        var goOn := Process(w);
        if !goOn {
          return;
        }
      }
    }
  }
}
