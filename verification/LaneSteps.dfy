/** Every step of the lane keeps its invariant, and so does every run. */
module LaneSteps {
  import opened Basics
  import opened Lane
  import opened LaneInvariant

  // ---- steps that leave most views alone ----

  /** What a call's op can see is the same in both states, but for flags that were set. */
  predicate SameForOps(s: State, t: State) {
    && t.mem.pending == s.mem.pending && t.mem.answers == s.mem.answers && t.heard == s.heard
    && Accepted(t) == Accepted(s)
    && (t.reader == s.reader || (!t.reader.Delivering? && !s.reader.Delivering?))
    && (Drained(t) <==> Drained(s))
    && (s.writer.Exited? ==> t.writer.Exited?)
    && (s.mem.dead ==> t.mem.dead)
  }

  predicate SameForStreams(s: State, t: State) {
    && t.mem.subscribers == s.mem.subscribers && t.mem.streams == s.mem.streams && t.events == s.events
    && (t.reader.Finished? <==> s.reader.Finished?)
  }

  /** Setting a flag upsets no call. */
  lemma FlagsRise(v: OpView, exited: bool, dead: bool)
    requires LocalOp(v) && (v.exited ==> exited) && (v.dead ==> dead)
    ensures LocalOp(v.(exited := exited, dead := dead))
  {
  }

  lemma ThreadStepOps(s: State, t: State)
    requires AllOps(s) && SameForOps(s, t) && t.calls == s.calls
    ensures AllOps(t)
  {
    forall d | 0 <= d < |t.calls| ensures LocalOp(ViewOp(t, d)) {
      FlagsRise(ViewOp(s, d), t.writer.Exited?, t.mem.dead);
      hide LocalOp, Accepted, HasFrame;
      assert ViewOp(t, d) == ViewOp(s, d).(exited := t.writer.Exited?, dead := t.mem.dead);
    }
  }

  lemma ThreadStepStreams(s: State, t: State)
    requires AllStreams(s) && SameForStreams(s, t) && t.calls == s.calls
    ensures AllStreams(t)
  {
    forall d | 0 <= d < |t.calls| ensures LocalStream(ViewStream(t, d)) {
      assert LocalStream(ViewStream(s, d));
    }
  }

  lemma CallStepView(s: State, t: State, c: nat, call: Call, d: nat)
    requires SameForOps(s, t)
    requires c < |s.calls| && t.calls == s.calls[c := call] && call.ticket == s.calls[c].ticket
             && call.since == s.calls[c].since && d < |s.calls|
    ensures ViewOp(t, d) == ViewOp(s, d).(call := t.calls[d], exited := t.writer.Exited?, dead := t.mem.dead)
  {
    hide Accepted, HasFrame, FirstReply;
  }

  /** A step that touches one call only: it keeps its ticket, and its new record fits what it can see. */
  lemma CallStepOps(s: State, t: State, c: nat, call: Call)
    requires AllOps(s) && SameForOps(s, t)
    requires c < |s.calls| && t.calls == s.calls[c := call]
    requires call.ticket == s.calls[c].ticket && call.since == s.calls[c].since && LocalOp(ViewOp(s, c).(call := call))
    ensures AllOps(t)
  {
    forall d | 0 <= d < |t.calls| ensures LocalOp(ViewOp(t, d)) {
      CallStepView(s, t, c, call, d);
      var v := ViewOp(s, d).(call := t.calls[d]);
      assert v.exited == s.writer.Exited? && v.dead == s.mem.dead && ViewOp(s, d).call == s.calls[d];
      hide LocalOp, ViewOp, Accepted, HasFrame, FirstReply;
      assert LocalOp(ViewOp(s, d));
      assert LocalOp(v);
      FlagsRise(v, t.writer.Exited?, t.mem.dead);
    }
  }

  lemma CallStepStreams(s: State, t: State, c: nat, call: Call)
    requires AllStreams(s) && SameForStreams(s, t)
    requires c < |s.calls| && t.calls == s.calls[c := call]
    requires LocalStream(ViewStream(s, c).(phase := call.phase))
    ensures AllStreams(t)
  {
    forall d | 0 <= d < |t.calls| ensures LocalStream(ViewStream(t, d)) {
      assert LocalStream(ViewStream(s, d));
    }
  }

  /** The shared part depends on tickets, not on phases. */
  lemma CallStepShared(s: State, t: State, c: nat, call: Call)
    requires Shared(s) && c < |s.calls| && t.calls == s.calls[c := call] && call.ticket == s.calls[c].ticket
             && call.since == s.calls[c].since
    requires t.mem.pending == s.mem.pending && t.mem.answers == s.mem.answers && t.mem.nextId == s.mem.nextId
    requires t.mem.streams.Keys <= s.mem.streams.Keys + {c}
    requires || t.mem.subscribers == s.mem.subscribers
             || (t.mem.subscribers == s.mem.subscribers + [c] && c !in s.mem.subscribers)
    requires t == s.(mem := t.mem, calls := t.calls) && t.mem.dead == s.mem.dead
    ensures Shared(t)
  {
    assert Accepted(t) == Accepted(s);
  }

  /** A step that moves a call to another phase and changes nothing a call can see. */
  lemma PhaseStep(s: State, t: State, c: nat, call: Call)
    requires Inv(s) && c < |s.calls|
    requires t == s.(calls := s.calls[c := call], mem := s.mem.(watchStarted := t.mem.watchStarted))
    requires call.ticket == s.calls[c].ticket && call.since == s.calls[c].since && LocalOp(ViewOp(s, c).(call := call))
    requires LocalStream(ViewStream(s, c).(phase := call.phase))
    ensures Inv(t)
  {
    hide LocalOp, LocalStream, ViewOp, ViewStream;
    assert Accepted(t) == Accepted(s);
    CallStepOps(s, t, c, call);
    CallStepStreams(s, t, c, call);
    CallStepShared(s, t, c, call);
  }

  // ---- routing ----

  /** Below the wrap-around an id belongs to one call. */
  lemma IdsDiffer(s: State, c: nat, d: nat)
    requires Tickets(s) && s.issued <= ID_SPACE && HasTicket(s, c) && HasTicket(s, d) && IdOf(s, c) == IdOf(s, d)
    ensures c == d
  {
  }

  // ---- the steps of a caller ----

  lemma BeginKeeps(s: State, t: State, watch: bool, addressable: bool)
    requires Inv(s) && t == s.(calls := s.calls + [Call(watch, addressable, Begun, None, 0, false, 0)])
    ensures Inv(t)
  {
    assert Accepted(t) == Accepted(s);
    assert forall c :: 0 <= c < |s.calls| ==> t.calls[c] == s.calls[c];
    forall d | 0 <= d < |t.calls| ensures LocalOp(ViewOp(t, d)) && LocalStream(ViewStream(t, d)) {
      if d < |s.calls| {
        assert LocalOp(ViewOp(s, d)) && LocalStream(ViewStream(s, d));
      }
    }
  }

  predicate Move(k: CallStep) {
    k.Choose? || k.LookStarted? || k.TestDead? || k.Resolve? || k.MarkStarted? || k.RunHttp?
  }

  /** Steps that only move a call to its next phase. */
  lemma MoveKeeps(s: State, c: nat, k: CallStep)
    requires Inv(s) && CanCall(s, c, k) && Move(k)
    ensures Inv(CallDoes(s, c, k))
  {
    assert LocalOp(ViewOp(s, c)) && LocalStream(ViewStream(s, c));
    MoveIsOwn(s, c, k);
    hide *;
    MoveFits(s, c, k);
    MoveKeepsStream(s, c, k);
    PhaseStep(s, CallDoes(s, c, k), c, CallDoes(s, c, k).calls[c]);
  }

  lemma MoveIsOwn(s: State, c: nat, k: CallStep)
    requires CanCall(s, c, k) && Move(k)
    ensures var t := CallDoes(s, c, k);
            && c < |t.calls| == |s.calls|
            && t.calls[c].ticket == s.calls[c].ticket && t.calls[c].since == s.calls[c].since
            && t == s.(calls := s.calls[c := t.calls[c]], mem := s.mem.(watchStarted := t.mem.watchStarted))
  {
  }

  lemma MoveFits(s: State, c: nat, k: CallStep)
    requires CanCall(s, c, k) && Move(k) && LocalOp(ViewOp(s, c))
    ensures LocalOp(ViewOp(s, c).(call := CallDoes(s, c, k).calls[c]))
  {
    var v := ViewOp(s, c);
    if k.Resolve? {
      ResolveFits(v, Resolved(s, c));
    } else if k.RunHttp? {
      RunHttpFits(v);
    } else {
      EarlyMoveFits(v, CallDoes(s, c, k).calls[c].phase);
    }
    hide LocalOp, ViewOp;
    assert CallDoes(s, c, k).calls[c].httpRuns == s.calls[c].httpRuns + if k.RunHttp? then 1 else 0;
  }

  lemma ResolveFits(v: OpView, p: Phase)
    requires LocalOp(v) && v.call.phase.Awaiting? && (v.answer.Some? || (!v.pending && v.held.None?))
    requires p == if v.answer.None? then Fallback(Dropped)
                  else if !v.call.watch then Answered(v.answer.value)
                  else if v.answer.value.Refused? then Fallback(WatchRefused) else Acknowledged
    ensures LocalOp(v.(call := v.call.(phase := p)))
  {
  }

  lemma RunHttpFits(v: OpView)
    requires LocalOp(v) && v.call.phase.Fallback?
    ensures LocalOp(v.(call := v.call.(phase := ByHttp(v.call.phase.why), httpRuns := v.call.httpRuns + 1)))
  {
  }

  lemma EarlyMoveFits(v: OpView, p: Phase)
    requires LocalOp(v)
    requires match v.call.phase
             case Begun => p == Fallback(NoLane) || p == if v.call.watch then Watching else Entering
             case Watching => p.Joining? || p.Entering?
             case Entering => p == if v.dead then Fallback(DeadAtEntry) else Tested
             case Acknowledged => p.Joining?
             case _ => false
    ensures LocalOp(v.(call := v.call.(phase := p)))
  {
  }

  lemma MoveKeepsStream(s: State, c: nat, k: CallStep)
    requires CanCall(s, c, k) && Move(k) && LocalStream(ViewStream(s, c))
    ensures LocalStream(ViewStream(s, c).(phase := CallDoes(s, c, k).calls[c].phase))
  {
    assert Joined(CallDoes(s, c, k).calls[c].phase) <==> Joined(s.calls[c].phase);
  }

  predicate OnStream(k: CallStep) {
    k.Join? || k.Retest? || k.Leave?
  }

  /** Steps of a call that change its own stream. */
  lemma StreamStepKeeps(s: State, c: nat, k: CallStep)
    requires Inv(s) && CanCall(s, c, k) && OnStream(k)
    ensures Inv(CallDoes(s, c, k))
  {
    assert Flags(s);
    hide *;
    StreamStepShared(s, c, k);
    StreamStepOps(s, c, k);
    StreamStepStreams(s, c, k);
    InvOf(CallDoes(s, c, k));
  }

  lemma StreamStepShared(s: State, c: nat, k: CallStep)
    requires Shared(s) && AllStreams(s) && CanCall(s, c, k) && OnStream(k)
    ensures Shared(CallDoes(s, c, k))
  {
    assert LocalStream(ViewStream(s, c));
    assert k.Join? ==> c !in s.mem.subscribers;
    hide AllStreams, Shared, LocalStream, ViewStream;
    CallStepShared(s, CallDoes(s, c, k), c, CallDoes(s, c, k).calls[c]);
  }

  lemma StreamStepOps(s: State, c: nat, k: CallStep)
    requires AllOps(s) && CanCall(s, c, k) && OnStream(k)
    ensures AllOps(CallDoes(s, c, k))
  {
    assert LocalOp(ViewOp(s, c));
    StreamStepIsOwn(s, c, k);
    hide *;
    StreamStepFits(s, c, k);
    CallStepOps(s, CallDoes(s, c, k), c, CallDoes(s, c, k).calls[c]);
  }

  lemma StreamStepIsOwn(s: State, c: nat, k: CallStep)
    requires CanCall(s, c, k) && OnStream(k)
    ensures var t := CallDoes(s, c, k);
            && c < |t.calls| == |s.calls| && t.calls == s.calls[c := t.calls[c]] && SameForOps(s, t)
            && t.calls[c].ticket == s.calls[c].ticket && t.calls[c].since == s.calls[c].since
  {
    assert Accepted(CallDoes(s, c, k)) == Accepted(s);
    hide Accepted;
  }

  lemma InvOf(s: State)
    requires Shared(s) && AllOps(s) && AllStreams(s)
    ensures Inv(s)
  {
  }

  lemma StreamStepFits(s: State, c: nat, k: CallStep)
    requires CanCall(s, c, k) && OnStream(k) && LocalOp(ViewOp(s, c))
    ensures LocalOp(ViewOp(s, c).(call := CallDoes(s, c, k).calls[c]))
  {
  }

  lemma StreamStepStreams(s: State, c: nat, k: CallStep)
    requires AllStreams(s) && Flags(s) && CanCall(s, c, k) && OnStream(k)
    ensures AllStreams(CallDoes(s, c, k))
  {
    var t := CallDoes(s, c, k);
    assert LocalStream(ViewStream(s, c));
    OwnStreamFits(s, c, k);
    hide LocalStream;
    forall d | 0 <= d < |t.calls| ensures LocalStream(ViewStream(t, d)) {
      assert LocalStream(ViewStream(s, d));
      if d != c {
        assert ViewStream(t, d) == ViewStream(s, d);
      }
    }
  }

  lemma OwnStreamFits(s: State, c: nat, k: CallStep)
    requires CanCall(s, c, k) && OnStream(k) && Flags(s) && LocalStream(ViewStream(s, c))
    ensures LocalStream(ViewStream(CallDoes(s, c, k), c))
  {
    assert s.events[|s.events|..|s.events|] == [];
  }

  lemma TakeIdKeeps(s: State, c: nat)
    requires Inv(s) && CanCall(s, c, TakeId) && s.issued < ID_SPACE
    ensures Inv(CallDoes(s, c, TakeId))
  {
    var t := CallDoes(s, c, TakeId);
    assert LocalOp(ViewOp(s, c)) && LocalStream(ViewStream(s, c));
    TakeIdShared(s, c);
    TakeIdOps(s, c);
    CallStepStreams(s, t, c, t.calls[c]);
  }

  lemma TakeIdShared(s: State, c: nat)
    requires Shared(s) && CanCall(s, c, TakeId) && s.calls[c].ticket.None? && s.issued < ID_SPACE
    ensures Shared(CallDoes(s, c, TakeId))
  {
    assert Accepted(CallDoes(s, c, TakeId)) == Accepted(s);
  }

  lemma TakeIdOps(s: State, c: nat)
    requires AllOps(s) && CanCall(s, c, TakeId) && Owners(s) && Owners(CallDoes(s, c, TakeId))
    ensures AllOps(CallDoes(s, c, TakeId))
  {
    var t := CallDoes(s, c, TakeId);
    assert Accepted(t) == Accepted(s);
    assert LocalOp(ViewOp(s, c));
    forall d | 0 <= d < |t.calls| ensures LocalOp(ViewOp(t, d)) {
      assert LocalOp(ViewOp(s, d));
    }
  }

  lemma RegisterKeeps(s: State, c: nat)
    requires Inv(s) && CanCall(s, c, CallStep.Register)
    ensures Inv(CallDoes(s, c, CallStep.Register))
  {
    var t := CallDoes(s, c, CallStep.Register);
    assert LocalOp(ViewOp(s, c)) && LocalStream(ViewStream(s, c));
    assert Accepted(t) == Accepted(s);
    RegisterOps(s, c);
    RegisterShared(s, c);
    hide LocalOp, ViewOp, Shared, AllOps;
    CallStepStreams(s, t, c, t.calls[c]);
  }

  lemma RegisterShared(s: State, c: nat)
    requires Shared(s) && CanCall(s, c, CallStep.Register) && HasTicket(s, c)
    ensures Shared(CallDoes(s, c, CallStep.Register))
  {
    assert Accepted(CallDoes(s, c, CallStep.Register)) == Accepted(s);
  }

  lemma RegisterOps(s: State, c: nat)
    requires Shared(s) && AllOps(s) && CanCall(s, c, CallStep.Register) && HasTicket(s, c)
    ensures AllOps(CallDoes(s, c, CallStep.Register))
  {
    var t, id := CallDoes(s, c, CallStep.Register), IdOf(s, c);
    assert Accepted(t) == Accepted(s);
    assert LocalOp(ViewOp(s, c));
    forall d | 0 <= d < |t.calls| ensures LocalOp(ViewOp(t, d)) {
      assert LocalOp(ViewOp(s, d));
      if d != c && HasTicket(s, d) && IdOf(s, d) == id {
        IdsDiffer(s, c, d);
      }
      if d != c {
        assert ViewOp(t, d) == ViewOp(s, d);
      }
    }
  }

  lemma SendKeeps(s: State, c: nat)
    requires Inv(s) && CanCall(s, c, Send)
    ensures Inv(CallDoes(s, c, Send))
  {
    var t := CallDoes(s, c, Send);
    assert LocalOp(ViewOp(s, c)) && LocalStream(ViewStream(s, c));
    if s.writer.Exited? {
      hide AllOps, AllStreams, Shared, Accepted;
      PhaseStep(s, t, c, t.calls[c]);
    } else {
      SendAcceptedKeeps(s, c);
    }
  }

  lemma SendAcceptedKeeps(s: State, c: nat)
    requires Inv(s) && CanCall(s, c, Send) && !s.writer.Exited?
    ensures Inv(CallDoes(s, c, Send))
  {
    var t := CallDoes(s, c, Send);
    assert LocalOp(ViewOp(s, c)) && LocalStream(ViewStream(s, c));
    assert Accepted(t) == Accepted(s) + [Frame(IdOf(s, c), c)];
    hide Accepted, LocalOp;
    SendOps(s, c);
    SendShared(s, c);
    hide ViewOp;
    CallStepStreams(s, t, c, t.calls[c]);
  }

  lemma SendOps(s: State, c: nat)
    requires AllOps(s) && CanCall(s, c, Send) && !s.writer.Exited?
    requires Accepted(CallDoes(s, c, Send)) == Accepted(s) + [Frame(IdOf(s, c), c)]
    ensures AllOps(CallDoes(s, c, Send))
  {
    var t := CallDoes(s, c, Send);
    hide Accepted;
    FrameAppended(Accepted(s), Frame(IdOf(s, c), c));
    hide HasFrame;
    forall d | 0 <= d < |t.calls| ensures LocalOp(ViewOp(t, d)) {
      assert LocalOp(ViewOp(s, d));
    }
  }

  lemma SendShared(s: State, c: nat)
    requires Shared(s) && CanCall(s, c, Send) && !s.writer.Exited? && HasTicket(s, c) && !HasFrame(Accepted(s), c)
    requires Accepted(CallDoes(s, c, Send)) == Accepted(s) + [Frame(IdOf(s, c), c)]
    ensures Shared(CallDoes(s, c, Send))
  {
    hide Accepted;
  }

  lemma FrameAppended(frames: seq<Frame>, f: Frame)
    ensures forall d :: HasFrame(frames + [f], d) <==> HasFrame(frames, d) || d == f.call
  {
    forall d ensures HasFrame(frames + [f], d) <==> HasFrame(frames, d) || d == f.call {
      if HasFrame(frames, d) {
        var k :| 0 <= k < |frames| && frames[k].call == d;
        assert (frames + [f])[k].call == d;
      }
      assert (frames + [f])[|frames|] == f;
    }
  }

  lemma UnregisterKeeps(s: State, c: nat)
    requires Inv(s) && CanCall(s, c, CallStep.Unregister)
    ensures Inv(CallDoes(s, c, CallStep.Unregister))
  {
    var t := CallDoes(s, c, CallStep.Unregister);
    assert LocalStream(ViewStream(s, c));
    UnregisterOps(s, c);
    UnregisterShared(s, c);
    hide AllOps, LocalOp, ViewOp, Shared;
    CallStepStreams(s, t, c, t.calls[c]);
  }

  lemma UnregisterShared(s: State, c: nat)
    requires Shared(s) && CanCall(s, c, CallStep.Unregister)
    ensures Shared(CallDoes(s, c, CallStep.Unregister))
  {
    assert Accepted(CallDoes(s, c, CallStep.Unregister)) == Accepted(s);
    hide Accepted;
  }

  lemma UnregisterOps(s: State, c: nat)
    requires Shared(s) && AllOps(s) && CanCall(s, c, CallStep.Unregister)
    ensures AllOps(CallDoes(s, c, CallStep.Unregister))
  {
    var t := CallDoes(s, c, CallStep.Unregister);
    assert Accepted(t) == Accepted(s);
    assert LocalOp(ViewOp(s, c));
    UnregisterFits(ViewOp(s, c));
    forall d | 0 <= d < |t.calls| ensures LocalOp(ViewOp(t, d)) {
      assert LocalOp(ViewOp(s, d));
      if d != c && HasTicket(s, d) && IdOf(s, d) == IdOf(s, c) {
        IdsDiffer(s, c, d);
      }
      hide LocalOp, Accepted, HasFrame, FirstReply;
      if d != c {
        assert ViewOp(t, d) == ViewOp(s, d);
      } else {
        assert ViewOp(t, d) == ViewOp(s, d).(call := t.calls[c], pending := false);
      }
    }
  }

  lemma UnregisterFits(v: OpView)
    requires LocalOp(v) && v.call.phase.Unsent?
    ensures LocalOp(v.(call := v.call.(phase := Fallback(SendFailed)), pending := false))
  {
  }

  // ---- the steps of the writer and the node ----

  lemma WriterKeeps(s: State, k: WriterStep)
    requires Inv(s) && CanWrite(s, k)
    ensures Inv(WriterDoes(s, k))
  {
    var t := WriterDoes(s, k);
    WriterShared(s, k);
    hide Shared, AllOps, AllStreams;
    ThreadStepOps(s, t);
    ThreadStepStreams(s, t);
  }

  lemma WriterShared(s: State, k: WriterStep)
    requires Shared(s) && CanWrite(s, k)
    ensures Shared(WriterDoes(s, k)) && SameForOps(s, WriterDoes(s, k))
  {
    assert Accepted(WriterDoes(s, k)) == Accepted(s);
    hide Accepted;
  }

  lemma NodeKeeps(s: State, k: NodeStep)
    requires Inv(s) && CanServe(s, k)
    ensures Inv(NodeDoes(s, k))
  {
    var t := NodeDoes(s, k);
    assert Accepted(t) == Accepted(s);
    hide Accepted;
    assert SameForOps(s, t) && Shared(t);
    hide Shared, AllOps, AllStreams;
    ThreadStepOps(s, t);
    ThreadStepStreams(s, t);
  }

  // ---- the steps of the reader ----

  predicate Quiet(k: ReaderStep) {
    k.ReaderReceive? || k.ReaderClosed? || k.ReaderReject? || k.ReaderMark? || k.ReaderClose?
  }

  /** The reader's steps no call notices. */
  lemma QuietStepKeeps(s: State, k: ReaderStep)
    requires Inv(s) && CanRead(s, k) && Quiet(k)
    ensures Inv(ReaderDoes(s, k))
  {
    var t := ReaderDoes(s, k);
    assert Accepted(t) == Accepted(s);
    hide Accepted;
    assert SameForOps(s, t) && Shared(t);
    hide Shared, AllOps, AllStreams;
    ThreadStepOps(s, t);
    ThreadStepStreams(s, t);
  }

  lemma FanOutKeeps(s: State)
    requires Inv(s) && CanRead(s, ReaderFanOut)
    ensures Inv(ReaderDoes(s, ReaderFanOut))
  {
    var t := ReaderDoes(s, ReaderFanOut);
    assert Accepted(t) == Accepted(s);
    forall d | 0 <= d < |t.calls| ensures LocalOp(ViewOp(t, d)) && LocalStream(ViewStream(t, d)) {
      FanOutOp(s, d);
      FanOutStream(s, d);
    }
    RetainDistinct(s.mem, s.mem.subscribers);
  }

  lemma {:induction false} RetainDistinct(m: Memory, subs: seq<nat>)
    requires Distinct(subs)
    ensures Distinct(m.Retain(subs))
  {
    if subs == [] {
    } else {
      RetainDistinct(m, subs[1..]);
      assert subs[0] !in subs[1..];
    }
  }

  lemma FanOutOp(s: State, d: nat)
    requires AllOps(s) && Times(s) && CanRead(s, ReaderFanOut) && d < |s.calls|
    ensures LocalOp(ViewOp(ReaderDoes(s, ReaderFanOut), d))
  {
    var t := ReaderDoes(s, ReaderFanOut);
    assert Accepted(t) == Accepted(s);
    assert LocalOp(ViewOp(s, d));
    if HasTicket(s, d) {
      SinceAppend(s, d, s.reader.resp);
    }
    hide LocalOp;
    assert ViewOp(t, d) == ViewOp(s, d);
  }

  lemma FanOutStream(s: State, d: nat)
    requires AllStreams(s) && CanRead(s, ReaderFanOut) && d < |s.calls|
    ensures LocalStream(ViewStream(ReaderDoes(s, ReaderFanOut), d))
  {
    assert LocalStream(ViewStream(s, d));
    if d in s.mem.streams {
      var st, msg := s.mem.streams[d], s.reader.resp.msg;
      var grown := s.events + [msg];
      assert grown[st.start..st.start + |st.got|] == s.events[st.start..st.start + |st.got|];
      if st.live && d in s.mem.subscribers {
        assert grown[st.start..|grown|] == st.got + [msg];
      }
    }
  }

  lemma {:induction false} FirstReplyAppend(heard: seq<Response>, r: Response, id: nat)
    ensures FirstReply(heard + [r], id) ==
            if FirstReply(heard, id).Some? then FirstReply(heard, id)
            else if r.Reply? && r.id == id then Some(r.answer) else None
  {
    if heard == [] {
      assert heard + [r] == [r] && [r][1..] == [];
    } else {
      assert (heard + [r])[1..] == heard[1..] + [r];
      FirstReplyAppend(heard[1..], r, id);
    }
  }

  lemma SinceAppend(s: State, d: nat, r: Response)
    requires Times(s) && HasTicket(s, d)
    ensures var id, was := IdOf(s, d), FirstReply(Since(s.heard, s.calls[d].since), IdOf(s, d));
            FirstReply(Since(s.heard + [r], s.calls[d].since), id) ==
            if was.Some? then was else if r.Reply? && r.id == id then Some(r.answer) else None
  {
    FirstReplyAppend(Since(s.heard, s.calls[d].since), r, IdOf(s, d));
    assert Since(s.heard + [r], s.calls[d].since) == Since(s.heard, s.calls[d].since) + [r];
  }

  /** A reply nobody waits for is thrown away. */
  lemma RouteMissOps(s: State, t: State, id: nat, answer: Answer, d: nat)
    requires AllOps(s) && Times(s) && s.reader == Got(Reply(id, answer)) && id !in s.mem.pending
    requires t == s.(heard := s.heard + [Reply(id, answer)], reader := Receiving) && d < |s.calls|
    ensures LocalOp(ViewOp(t, d))
  {
    assert Accepted(t) == Accepted(s);
    assert LocalOp(ViewOp(s, d));
    if HasTicket(s, d) {
      SinceAppend(s, d, Reply(id, answer));
    }
    hide Accepted, HasFrame, FirstReply;
    assert ViewOp(t, d) == ViewOp(s, d).(first := ViewOp(t, d).first);
  }

  /** A reply takes the sender it is for out of the pending map. */
  lemma RouteHitOps(s: State, t: State, id: nat, answer: Answer, d: nat)
    requires AllOps(s) && Times(s) && s.reader == Got(Reply(id, answer)) && id in s.mem.pending && d < |s.calls|
    requires t == s.(heard := s.heard + [Reply(id, answer)], reader := Delivering(s.mem.pending[id], answer),
                     mem := s.mem.Unregister(id))
    requires HasTicket(s, d) && IdOf(s, d) == id <==> s.mem.pending[id] == d
    ensures LocalOp(ViewOp(t, d))
  {
    assert Accepted(t) == Accepted(s);
    assert LocalOp(ViewOp(s, d));
    if HasTicket(s, d) {
      SinceAppend(s, d, Reply(id, answer));
    }
    hide Accepted, HasFrame, FirstReply;
    if s.mem.pending[id] == d {
      assert ViewOp(t, d) == ViewOp(s, d).(pending := false, held := Some(answer), first := Some(answer));
    } else {
      assert ViewOp(t, d) == ViewOp(s, d);
    }
  }

  lemma RouteKeeps(s: State)
    requires Inv(s) && CanRead(s, ReaderRoute)
    ensures Inv(ReaderDoes(s, ReaderRoute))
  {
    var t := ReaderDoes(s, ReaderRoute);
    forall d | 0 <= d < |t.calls| ensures LocalOp(ViewOp(t, d)) {
      RouteOp(s, t, d);
    }
    hide LocalOp, ViewOp;
    RouteShared(s);
    hide Shared;
    ThreadStepStreams(s, t);
  }

  lemma RouteOp(s: State, t: State, d: nat)
    requires Shared(s) && AllOps(s) && CanRead(s, ReaderRoute) && t == ReaderDoes(s, ReaderRoute) && d < |s.calls|
    ensures LocalOp(ViewOp(t, d))
  {
    var r := s.reader.resp;
    if HasTicket(s, d) && IdOf(s, d) == r.id {
      if r.id in s.mem.pending {
        IdsDiffer(s, s.mem.pending[r.id], d);
      }
    }
    hide AllOps, LocalOp, ViewOp, HasFrame, Accepted;
    if r.id in s.mem.pending {
      RouteHitOps(s, t, r.id, r.answer, d);
    } else {
      RouteMissOps(s, t, r.id, r.answer, d);
    }
  }

  lemma RouteShared(s: State)
    requires Shared(s) && CanRead(s, ReaderRoute)
    ensures Shared(ReaderDoes(s, ReaderRoute))
  {
    var t := ReaderDoes(s, ReaderRoute);
    assert Accepted(t) == Accepted(s);
    hide Accepted, FirstReply;
    hide Frames;
    assert Owners(t) && Tickets(t) && Flags(t);
  }

  lemma DeliverKeeps(s: State)
    requires Inv(s) && CanRead(s, ReaderDeliver)
    ensures Inv(ReaderDoes(s, ReaderDeliver))
  {
    var t := ReaderDoes(s, ReaderDeliver);
    assert Accepted(t) == Accepted(s);
    DeliverOps(s);
    hide LocalOp, ViewOp;
    ThreadStepStreams(s, t);
  }

  lemma DeliverOps(s: State)
    requires AllOps(s) && CanRead(s, ReaderDeliver) && s.reader.call < |s.calls|
    ensures AllOps(ReaderDoes(s, ReaderDeliver))
  {
    var t := ReaderDoes(s, ReaderDeliver);
    assert Accepted(t) == Accepted(s);
    hide Accepted, FirstReply, HasFrame;
    forall d | 0 <= d < |t.calls| ensures LocalOp(ViewOp(t, d)) {
      assert LocalOp(ViewOp(s, d));
    }
  }

  lemma ClearPendingKeeps(s: State)
    requires Inv(s) && CanRead(s, ReaderClearPending)
    ensures Inv(ReaderDoes(s, ReaderClearPending))
  {
    var t := ReaderDoes(s, ReaderClearPending);
    assert Accepted(t) == Accepted(s);
    forall d | 0 <= d < |t.calls| ensures LocalOp(ViewOp(t, d)) {
      assert LocalOp(ViewOp(s, d));
    }
    hide LocalOp, ViewOp;
    ThreadStepStreams(s, t);
  }

  lemma ClearSubscribersKeeps(s: State)
    requires Inv(s) && CanRead(s, ReaderClearSubscribers)
    ensures Inv(ReaderDoes(s, ReaderClearSubscribers))
  {
    var t := ReaderDoes(s, ReaderClearSubscribers);
    assert Accepted(t) == Accepted(s);
    forall d | 0 <= d < |t.calls| ensures LocalStream(ViewStream(t, d)) {
      assert LocalStream(ViewStream(s, d));
    }
    hide LocalStream, ViewStream;
    ThreadStepOps(s, t);
  }

  // ---- runs ----

  lemma CallKeeps(s: State, c: nat, k: CallStep)
    requires Inv(s) && CanCall(s, c, k) && CallDoes(s, c, k).issued <= ID_SPACE
    ensures Inv(CallDoes(s, c, k))
  {
    hide Inv;
    match k
    case TakeId => TakeIdKeeps(s, c);
    case Register => RegisterKeeps(s, c);
    case Send => SendKeeps(s, c);
    case Unregister => UnregisterKeeps(s, c);
    case Join => StreamStepKeeps(s, c, k);
    case Retest => StreamStepKeeps(s, c, k);
    case Leave => StreamStepKeeps(s, c, k);
    case _ => MoveKeeps(s, c, k);
  }

  lemma ReaderKeeps(s: State, k: ReaderStep)
    requires Inv(s) && CanRead(s, k)
    ensures Inv(ReaderDoes(s, k))
  {
    hide Inv, ReaderDoes;
    match k
    case ReaderFanOut => FanOutKeeps(s);
    case ReaderRoute => RouteKeeps(s);
    case ReaderDeliver => DeliverKeeps(s);
    case ReaderClearPending => ClearPendingKeeps(s);
    case ReaderClearSubscribers => ClearSubscribersKeeps(s);
    case _ => QuietStepKeeps(s, k);
  }

  lemma {:induction false} StepKeeps(s: State, l: Step)
    requires Inv(s) && Enabled(s, l) && Apply(s, l).issued <= ID_SPACE
    ensures Inv(Apply(s, l))
  {
    hide Inv, CallDoes, ReaderDoes, WriterDoes, NodeDoes;
    match l
    case Begin(watch, addressable) => BeginKeeps(s, Apply(s, l), watch, addressable);
    case OfCall(c, k) => CallKeeps(s, c, k);
    case OfWriter(k) => WriterKeeps(s, k);
    case OfReader(k) => ReaderKeeps(s, k);
    case OfNode(k) => NodeKeeps(s, k);
  }

  lemma IssuedGrows(s: State, l: Step)
    requires Enabled(s, l)
    ensures s.issued <= Apply(s, l).issued
  {
  }

  lemma {:induction false} IssuedGrowsInRun(s: State, steps: seq<Step>)
    requires IsRun(s, steps)
    ensures s.issued <= After(s, steps).issued
    decreases |steps|
  {
    if steps == [] {
    } else {
      IssuedGrows(s, steps[0]);
      IssuedGrowsInRun(Apply(s, steps[0]), steps[1..]);
    }
  }

  lemma {:induction false} RunKeeps(s: State, steps: seq<Step>)
    requires Inv(s) && IsRun(s, steps) && After(s, steps).issued <= ID_SPACE
    ensures Inv(After(s, steps))
    decreases |steps|
  {
    if steps == [] {
    } else {
      var t := Apply(s, steps[0]);
      IssuedGrowsInRun(t, steps[1..]);
      StepKeeps(s, steps[0]);
      RunKeeps(t, steps[1..]);
    }
  }

  lemma {:induction false} RunExtends(s: State, steps: seq<Step>, l: Step)
    requires IsRun(s, steps) && Enabled(After(s, steps), l)
    ensures IsRun(s, steps + [l]) && After(s, steps + [l]) == Apply(After(s, steps), l)
    decreases |steps|
  {
    if steps == [] {
      assert [] + [l] == [l] && [l][1..] == [];
    } else {
      assert (steps + [l])[1..] == steps[1..] + [l];
      RunExtends(Apply(s, steps[0]), steps[1..], l);
    }
  }

  lemma BoundStays(s: State, l: Step)
    requires Enabled(s, l)
    ensures Apply(s, l).bound == s.bound
  {
    hide CanCall, CanRead;
  }

  lemma {:induction false} BoundStaysInRun(s: State, steps: seq<Step>)
    requires IsRun(s, steps)
    ensures After(s, steps).bound == s.bound
    decreases |steps|
  {
    if steps == [] {
    } else {
      BoundStays(s, steps[0]);
      BoundStaysInRun(Apply(s, steps[0]), steps[1..]);
    }
  }

  /** Reached from the start, with the ids not yet used up. */
  ghost predicate Reachable(s: State) {
    s.issued <= ID_SPACE && exists steps: seq<Step> :: IsRun(Start(s.bound), steps) && After(Start(s.bound), steps) == s
  }

  lemma ReachableInv(s: State)
    requires Reachable(s)
    ensures Inv(s)
  {
    var steps: seq<Step> :| IsRun(Start(s.bound), steps) && After(Start(s.bound), steps) == s;
    StartSatisfies(s.bound);
    RunKeeps(Start(s.bound), steps);
  }
}
