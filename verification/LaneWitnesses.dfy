/** Runs of the lane that show what its callers are not promised. */
module LaneWitnesses {
  import opened Basics
  import opened Lane
  import opened LaneSteps
  import opened LaneTheorems

  /** One more step of a run. */
  lemma Do(s: State, l: Step) returns (t: State)
    requires Reachable(s) && Enabled(s, l) && Apply(s, l).issued <= ID_SPACE
    ensures Reachable(t) && t == Apply(s, l)
  {
    t := Apply(s, l);
    var steps: seq<Step> :| IsRun(Start(s.bound), steps) && After(Start(s.bound), steps) == s;
    RunExtends(Start(s.bound), steps, l);
    BoundStays(s, l);
  }

  /** A call of either kind that has taken the first id of a lane. */
  ghost predicate TookFirstId(s: State, call: Call) {
    && Reachable(s) && s == Start(true).(calls := [call], issued := 1, mem := START_MEMORY.(nextId := 2))
    && call == Call(call.watch, true, Numbered, Some(0), 0, false, 0)
  }

  lemma FirstId(watch: bool) returns (s: State)
    ensures s.calls != [] && TookFirstId(s, s.calls[0]) && s.calls[0].watch == watch
  {
    s := Start(true);
    assert IsRun(s, []) && After(s, []) == s;
    hide Reachable;
    s := Do(s, Begin(watch, true));
    s := Do(s, OfCall(0, Choose));
    if watch {
      s := Do(s, OfCall(0, LookStarted));
    }
    s := Do(s, OfCall(0, TestDead));
    s := Do(s, OfCall(0, TakeId));
  }

  // ---- an op that waits for ever ----

  /** An op tests `dead`, the node goes away, the reader drains, and the op then registers and sends to a
      writer that still listens. So it can be with a messaging call and with the first message stream. */
  lemma LateOpsExist(watch: bool) returns (s: State)
    ensures Reachable(s) && s.reader.Finished? && |s.calls| == 1 && s.calls[0].watch == watch
    ensures s.calls[0].phase.Awaiting? && s.calls[0].late
  {
    s := FirstId(watch);
    s := Dies(s);
    hide Reachable;
    s := Do(s, OfCall(0, CallStep.Register));
    s := Do(s, OfCall(0, Send));
  }

  /** The node goes away and the reader leaves. */
  lemma Dies(s: State) returns (t: State)
    requires Reachable(s) && s.reader.Receiving? && s.issued <= ID_SPACE
    ensures Reachable(t) && t == s.(closed := true, reader := Finished,
                                    mem := s.mem.(dead := true, pending := map[], subscribers := []))
  {
    hide Reachable;
    t := Do(s, OfNode(NodeClose));
    t := Do(t, OfReader(ReaderClosed));
    t := Do(t, OfReader(ReaderMark));
    t := Do(t, OfReader(ReaderClose));
    t := Do(t, OfReader(ReaderClearPending));
    t := Do(t, OfReader(ReaderClearSubscribers));
  }

  // ---- an op that is gone and has its answer ----

  /** A node that replies before it is asked: an op registers, the reply is routed to it, another call's
      request finds the node gone, and the op can no longer send its own. */
  lemma AnsweredUnaskedExists() returns (s: State)
    ensures Reachable(s) && |s.calls| == 2 && s.calls[0].phase == ByHttp(SendFailed) && 0 in s.mem.answers
    ensures AnsweredUnasked(s, 0) && s.calls[0].httpRuns == 1
  {
    s := FirstId(false);
    s := RepliesEarly(s);
    s := AnotherSends(s);
    s := WriterLeaves(s);
    hide Reachable;
    s := Do(s, OfCall(0, Send));
    s := Do(s, OfCall(0, CallStep.Unregister));
    s := Do(s, OfCall(0, RunHttp));
    ReachableInv(s);
    AnsweredWhenGone(s, 0);
  }

  lemma RepliesEarly(s: State) returns (t: State)
    requires s.calls != [] && TookFirstId(s, s.calls[0])
    ensures Reachable(t) && t.calls == [s.calls[0].(phase := Registered)] && t.mem.answers == map[0 := Done(7)]
    ensures t.bound && !t.mem.dead && !t.closed && t.queue == [] && t.writer.Waiting? && t.issued == 1
    ensures t.reader.Receiving?
  {
    hide Reachable;
    t := Do(s, OfCall(0, CallStep.Register));
    t := Do(t, OfNode(NodeReply(1, Done(7))));
    t := Do(t, OfReader(ReaderReceive));
    t := Do(t, OfReader(ReaderRoute));
    t := Do(t, OfReader(ReaderDeliver));
  }

  lemma AnotherSends(s: State) returns (t: State)
    requires Reachable(s) && |s.calls| == 1 && s.bound && !s.mem.dead && !s.closed && s.queue == [] && s.writer.Waiting?
    requires s.issued == 1
    ensures Reachable(t) && |t.calls| == 2 && t.calls[0] == s.calls[0] && t.mem.answers == s.mem.answers
    ensures t.queue != [] && t.writer.Waiting? && t.issued == 2
  {
    hide Reachable;
    t := Do(s, Begin(false, true));
    t := Do(t, OfCall(1, Choose));
    t := Do(t, OfCall(1, TestDead));
    t := Do(t, OfCall(1, TakeId));
    t := Do(t, OfCall(1, CallStep.Register));
    t := Do(t, OfCall(1, Send));
  }

  lemma WriterLeaves(s: State) returns (t: State)
    requires Reachable(s) && s.queue != [] && s.writer.Waiting? && s.issued <= ID_SPACE
    ensures Reachable(t) && t == s.(writer := Exited, closed := true, mem := s.mem.(dead := true))
  {
    hide Reachable;
    t := Do(s, OfNode(NodeClose));
    t := Do(t, OfWriter(WriterTake));
    t := Do(t, OfWriter(WriterSend));
    t := Do(t, OfWriter(WriterMark));
    t := Do(t, OfWriter(WriterClose));
    t := Do(t, OfWriter(WriterExit));
  }
}
