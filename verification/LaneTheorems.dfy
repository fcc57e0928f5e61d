/** What the lane promises its callers, in every interleaving. */
module LaneTheorems {
  import opened Basics
  import opened Lane
  import opened LaneInvariant
  import opened LaneSteps

  // ---- ids ----

  lemma CallKeepsTickets(s: State, c: nat, k: CallStep)
    requires CanCall(s, c, k) && Tickets(s)
    ensures Tickets(CallDoes(s, c, k))
  {
    var t := CallDoes(s, c, k);
    if k.TakeId? {
      NextWireId(s.issued);
      hide WireId;
    } else {
      assert t.issued == s.issued && t.mem.nextId == s.mem.nextId && t.calls == s.calls[c := t.calls[c]];
      assert t.calls[c].ticket == s.calls[c].ticket;
      hide CallDoes, WireId;
    }
  }

  lemma NextWireId(issued: nat)
    ensures (WireId(issued) + 1) % ID_SPACE == WireId(issued + 1)
  {
  }

  lemma SameTickets(s: State, t: State)
    requires Tickets(s) && t.calls == s.calls && t.issued == s.issued && t.mem.nextId == s.mem.nextId
    ensures Tickets(t)
  {
  }

  lemma BeginKeepsTickets(s: State, l: Step)
    requires Tickets(s) && l.Begin?
    ensures Tickets(Apply(s, l))
  {
    hide WireId;
  }

  lemma ReaderKeepsTickets(s: State, k: ReaderStep)
    requires CanRead(s, k) && Tickets(s)
    ensures Tickets(ReaderDoes(s, k))
  {
    hide Tickets, WireId;
    SameTickets(s, ReaderDoes(s, k));
  }

  lemma WriterKeepsTickets(s: State, k: WriterStep)
    requires CanWrite(s, k) && Tickets(s)
    ensures Tickets(WriterDoes(s, k))
  {
    hide Tickets, WireId;
    SameTickets(s, WriterDoes(s, k));
  }

  lemma NodeKeepsTickets(s: State, k: NodeStep)
    requires CanServe(s, k) && Tickets(s)
    ensures Tickets(NodeDoes(s, k))
  {
    hide Tickets, WireId;
    SameTickets(s, NodeDoes(s, k));
  }

  lemma StepKeepsTickets(s: State, l: Step)
    requires Enabled(s, l) && Tickets(s)
    ensures Tickets(Apply(s, l))
  {
    hide Tickets, WireId, CallDoes, ReaderDoes, WriterDoes, NodeDoes, CanCall, CanRead, CanWrite, CanServe;
    match l
    case Begin(_, _) => BeginKeepsTickets(s, l);
    case OfCall(c, k) => CallKeepsTickets(s, c, k);
    case OfReader(k) => ReaderKeepsTickets(s, k);
    case OfWriter(k) => WriterKeepsTickets(s, k);
    case OfNode(k) => NodeKeepsTickets(s, k);
  }

  lemma {:induction false} RunKeepsTickets(s: State, steps: seq<Step>)
    requires IsRun(s, steps) && Tickets(s)
    ensures Tickets(After(s, steps))
    decreases |steps|
  {
    if steps == [] {
    } else {
      StepKeepsTickets(s, steps[0]);
      RunKeepsTickets(Apply(s, steps[0]), steps[1..]);
    }
  }

  /** However long the run: every op takes the next id, and two ops have the same one exactly when a multiple
      of 2^64 ids were taken between them. */
  lemma {:induction false} IdsCollideExactly(bound: bool, steps: seq<Step>, c: nat, d: nat)
    requires IsRun(Start(bound), steps)
    requires var s := After(Start(bound), steps); HasTicket(s, c) && HasTicket(s, d) && c != d
    ensures var s := After(Start(bound), steps);
            var t, u := s.calls[c].ticket.value, s.calls[d].ticket.value;
            && t != u && t < s.issued && u < s.issued
            && IdOf(s, c) == (t + 1) % 0x1_0000_0000_0000_0000
            && s.mem.nextId == (s.issued + 1) % 0x1_0000_0000_0000_0000
            && (IdOf(s, c) == IdOf(s, d) <==> t % 0x1_0000_0000_0000_0000 == u % 0x1_0000_0000_0000_0000)
  {
    RunKeepsTickets(Start(bound), steps);
    var s := After(Start(bound), steps);
    ModPlusOne(s.calls[c].ticket.value);
    ModPlusOne(s.calls[d].ticket.value);
    hide WireId, After, IsRun;
  }

  lemma ModPlusOne(t: nat)
    ensures WireId(t) == if t % ID_SPACE == ID_SPACE - 1 then 0 else t % ID_SPACE + 1
  {
    var q, r := t / ID_SPACE, t % ID_SPACE;
    assert t + 1 == q * ID_SPACE + (r + 1);
    if r == ID_SPACE - 1 {
      assert t + 1 == (q + 1) * ID_SPACE;
      ModOf(q + 1, 0);
    } else {
      ModOf(q, r + 1);
    }
  }

  lemma ModOf(q: nat, r: nat)
    requires r < ID_SPACE
    ensures (q * ID_SPACE + r) % ID_SPACE == r
  {
  }

  /** Until the ids run out no two calls share one. */
  lemma IdsAreNeverShared(s: State, c: nat, d: nat)
    requires Reachable(s) && HasTicket(s, c) && HasTicket(s, d) && c != d
    ensures IdOf(s, c) != IdOf(s, d)
  {
    ReachableInv(s);
    if IdOf(s, c) == IdOf(s, d) {
      IdsDiffer(s, c, d);
    }
  }

  // ---- how a call can go on ----

  /** Where a call that has got to `p` can be later. */
  predicate Settled(p: Phase, q: Phase) {
    match p
    case Answered(_) => q == p
    case Fallback(why) => q == p || q == ByHttp(why)
    case ByHttp(_) => q == p
    case _ => true
  }

  /** A step touches the record of no call but the one that takes it. */
  lemma OthersUnmoved(s: State, l: Step, c: nat)
    requires Enabled(s, l) && c < |s.calls| && !(l.OfCall? && l.call == c)
    ensures c < |Apply(s, l).calls| && Apply(s, l).calls[c] == s.calls[c]
  {
    match l
    case OfCall(d, k) => OnlyCallMoves(s, d, k);
    case _ =>
  }

  lemma OnlyCallMoves(s: State, d: nat, k: CallStep)
    requires CanCall(s, d, k)
    ensures var t := CallDoes(s, d, k);
            |t.calls| == |s.calls| && t.calls == s.calls[d := t.calls[d]] && t.mem.dead == s.mem.dead
  {
  }

  lemma OwnStepSettles(s: State, c: nat, k: CallStep)
    requires CanCall(s, c, k)
    ensures Settled(s.calls[c].phase, CallDoes(s, c, k).calls[c].phase)
  {
  }

  lemma {:induction false} StepSettles(s: State, l: Step, c: nat)
    requires Enabled(s, l) && c < |s.calls|
    ensures c < |Apply(s, l).calls| && Settled(s.calls[c].phase, Apply(s, l).calls[c].phase)
  {
    if l.OfCall? && l.call == c {
      OwnStepSettles(s, c, l.step);
      OnlyCallMoves(s, c, l.step);
    } else {
      OthersUnmoved(s, l, c);
    }
  }

  /** An answer is final, and so is the turn to HTTP. */
  lemma {:induction false} RunSettles(s: State, steps: seq<Step>, c: nat)
    requires IsRun(s, steps) && c < |s.calls|
    ensures c < |After(s, steps).calls| && Settled(s.calls[c].phase, After(s, steps).calls[c].phase)
    decreases |steps|
  {
    if steps == [] {
    } else {
      StepSettles(s, steps[0], c);
      RunSettles(Apply(s, steps[0]), steps[1..], c);
    }
  }

  // ---- routing ----

  /** An op is answered with the first reply heard for its id since it registered, and with nothing else:
      whatever was routed to it, whether it has picked that up or not, and what a call has ended with. */
  lemma AnsweredByFirstReply(s: State, c: nat)
    requires Reachable(s) && (c in s.mem.answers || (c < |s.calls| && s.calls[c].phase.Answered?))
    ensures HasTicket(s, c) && c in s.mem.answers
    ensures FirstReply(Since(s.heard, s.calls[c].since), IdOf(s, c)) == Some(s.mem.answers[c])
    ensures s.calls[c].phase.Answered? ==> s.calls[c].phase.answer == s.mem.answers[c]
  {
    ReachableInv(s);
    assert LocalOp(ViewOp(s, c));
  }

  predicate HasRun(executed: seq<Frame>, id: nat) {
    exists k :: 0 <= k < |executed| && executed[k].id == id
  }

  predicate HasReply(heard: seq<Response>, id: nat) {
    exists k :: 0 <= k < |heard| && heard[k].Reply? && heard[k].id == id
  }

  /** The node has only replied to what it has run. */
  ghost predicate Honest(s: State) {
    forall id :: HasReply(s.heard, id) ==> HasRun(s.executed, id)
  }

  lemma {:induction false} HeardWas(heard: seq<Response>, id: nat) returns (k: nat)
    requires FirstReply(heard, id).Some?
    ensures k < |heard| && heard[k].Reply? && heard[k].id == id
  {
    if heard[0].Reply? && heard[0].id == id {
      k := 0;
    } else {
      k := HeardWas(heard[1..], id);
      k := k + 1;
    }
  }

  /** An id the node has run belongs to a call whose frame was accepted. */
  lemma RunMeansFrame(s: State, c: nat)
    requires Shared(s) && HasTicket(s, c) && HasRun(s.executed, IdOf(s, c))
    ensures HasFrame(Accepted(s), c)
  {
    var k :| 0 <= k < |s.executed| && s.executed[k].id == IdOf(s, c);
    assert Accepted(s)[k] == s.executed[k];
    IdsDiffer(s, Accepted(s)[k].call, c);
  }

  /** The op was answered although it was never sent. */
  predicate AnsweredUnasked(s: State, c: nat)
    requires c < |s.calls|
  {
    Unheeded(s.calls[c].phase) && HasReply(s.heard, IdOf(s, c)) && !HasRun(s.executed, IdOf(s, c))
  }

  lemma AnsweredWhenGone(s: State, c: nat)
    requires Inv(s) && c < |s.calls| && Lost(s.calls[c].phase) && c in s.mem.answers
    ensures AnsweredUnasked(s, c)
  {
    assert LocalOp(ViewOp(s, c));
    var since := Since(s.heard, s.calls[c].since);
    var k := HeardWas(since, IdOf(s, c));
    assert since[k] == s.heard[s.calls[c].since + k];
    if HasRun(s.executed, IdOf(s, c)) {
      RunMeansFrame(s, c);
      assert false;
    }
  }

  /** An op that ended as a transport failure is routed no answer, now or ever, unless its request could not
      be sent and the node has replied to its id all the same. */
  lemma {:induction false} LaneGoneMeansNoAnswer(s: State, steps: seq<Step>, c: nat)
    requires Inv(s) && c < |s.calls| && Lost(s.calls[c].phase)
    requires IsRun(s, steps) && After(s, steps).issued <= ID_SPACE
    ensures c < |After(s, steps).calls| && Lost(After(s, steps).calls[c].phase)
    ensures c in s.mem.answers ==> AnsweredUnasked(s, c)
    ensures c in After(s, steps).mem.answers ==> AnsweredUnasked(After(s, steps), c)
    ensures Honest(After(s, steps)) ==> c !in After(s, steps).mem.answers
  {
    var t := After(s, steps);
    RunSettles(s, steps, c);
    RunKeeps(s, steps);
    hide After, IsRun, Inv, AnsweredUnasked;
    if c in s.mem.answers {
      AnsweredWhenGone(s, c);
    }
    if c in t.mem.answers {
      AnsweredWhenGone(t, c);
      NotUnasked(t, c);
    }
  }

  lemma NotUnasked(s: State, c: nat)
    requires c < |s.calls|
    ensures Honest(s) ==> !AnsweredUnasked(s, c)
  {
  }

  /** While an op is registered, its answer was routed to it or is about to be exactly when a reply with its id
      was heard since it registered. So when its request cannot be sent, these are the ops that end with an
      answer that nobody looks at. */
  lemma RoutedIff(s: State, c: nat)
    requires Reachable(s) && c < |s.calls| && Waits(s.calls[c].phase)
    ensures HasTicket(s, c)
    ensures (c in s.mem.answers || (s.reader.Delivering? && s.reader.call == c))
       <==> FirstReply(Since(s.heard, s.calls[c].since), IdOf(s, c)).Some?
  {
    ReachableInv(s);
    assert LocalOp(ViewOp(s, c));
  }

  /** And that is so exactly when it does not find its sender in the map again, or the reader has cleared that
      since: a late op always finds it. */
  lemma NotFoundIff(s: State, c: nat)
    requires Reachable(s) && c < |s.calls| && Waits(s.calls[c].phase)
    ensures !(IdOf(s, c) in s.mem.pending && s.mem.pending[IdOf(s, c)] == c)
       <==> || FirstReply(Since(s.heard, s.calls[c].since), IdOf(s, c)).Some?
            || (Drained(s) && !s.calls[c].late)
  {
    ReachableInv(s);
    assert LocalOp(ViewOp(s, c));
  }

  // ---- the drain ----

  /** Once the reader has cleared the map, an entry in it was put there afterwards, by an op that had
      read `dead` as false; every op registered before is answered or has lost its sender. */
  lemma DrainResolvesEarlierOps(s: State)
    requires Reachable(s) && Drained(s)
    ensures forall i :: i in s.mem.pending ==> s.mem.pending[i] < |s.calls| && s.calls[s.mem.pending[i]].late
    ensures forall c :: 0 <= c < |s.calls| && s.calls[c].phase.Awaiting? && !s.calls[c].late ==> CanCall(s, c, Resolve)
  {
    ReachableInv(s);
    forall i | i in s.mem.pending ensures s.mem.pending[i] < |s.calls| && s.calls[s.mem.pending[i]].late {
      assert LocalOp(ViewOp(s, s.mem.pending[i]));
    }
    forall c | 0 <= c < |s.calls| && s.calls[c].phase.Awaiting? && !s.calls[c].late
      ensures CanCall(s, c, Resolve)
    {
      assert LocalOp(ViewOp(s, c));
    }
  }

  /** After the drain an op that awaits its answer can be resumed exactly when it registered in time. */
  lemma ResumesUnlessLate(s: State, c: nat)
    requires Reachable(s) && Drained(s) && c < |s.calls| && s.calls[c].phase.Awaiting?
    ensures CanCall(s, c, Resolve) <==> !s.calls[c].late
  {
    DrainResolvesEarlierOps(s);
    ReachableInv(s);
    assert LocalOp(ViewOp(s, c));
  }

  lemma LateStaysLate(s: State, l: Step, c: nat)
    requires Inv(s) && Enabled(s, l) && c < |s.calls| && s.calls[c].phase.Awaiting? && s.calls[c].late
    ensures c < |Apply(s, l).calls| && Apply(s, l).calls[c] == s.calls[c]
  {
    assert LocalOp(ViewOp(s, c));
    assert !CanCall(s, c, Resolve);
    assert !(l.OfCall? && l.call == c);
    OthersUnmoved(s, l, c);
  }

  /** One that registered late and was sent waits for ever, whatever happens. */
  lemma {:induction false} LateOpsHang(s: State, steps: seq<Step>, c: nat)
    requires Inv(s) && IsRun(s, steps) && After(s, steps).issued <= ID_SPACE
    requires c < |s.calls| && s.calls[c].phase.Awaiting? && s.calls[c].late
    ensures c < |After(s, steps).calls| && After(s, steps).calls[c] == s.calls[c]
    decreases |steps|
  {
    if steps == [] {
    } else {
      var t := Apply(s, steps[0]);
      IssuedGrowsInRun(t, steps[1..]);
      LateStaysLate(s, steps[0], c);
      StepKeeps(s, steps[0]);
      LateOpsHang(t, steps[1..], c);
    }
  }

  // ---- streams ----

  /** No stream is stranded: once the reader has finished, the sender of every stream that was returned
      is gone, so the stream ends; a caller still about to re-test will find the lane dead. */
  lemma NoStrandedStream(s: State, c: nat)
    requires Reachable(s) && s.reader.Finished? && c < |s.calls|
    ensures s.calls[c].phase.Streaming? ==> c !in s.mem.subscribers
    ensures s.calls[c].phase.Listening? ==> CallDoes(s, c, Retest).calls[c].phase == Fallback(DeadAtRetest)
  {
    ReachableInv(s);
    assert LocalStream(ViewStream(s, c));
  }

  /** A subscriber was sent a contiguous run of the events, from where it joined; while it is live and
      the reader has not finished, every one of them. */
  lemma StreamsAreContiguous(s: State, c: nat)
    requires Reachable(s) && c in s.mem.streams
    ensures var st := s.mem.streams[c];
            && st.start + |st.got| <= |s.events|
            && st.got == s.events[st.start..st.start + |st.got|]
            && (st.live && !s.reader.Finished? ==> st.got == s.events[st.start..])
  {
    ReachableInv(s);
    assert c < |s.calls| && LocalStream(ViewStream(s, c));
  }

  /** Two live subscribers have been sent the same since the later of them joined. */
  lemma LiveStreamsAgree(s: State, c: nat, d: nat)
    requires Reachable(s) && !s.reader.Finished? && c in s.mem.streams && d in s.mem.streams
    requires s.mem.streams[c].live && s.mem.streams[d].live && s.mem.streams[c].start <= s.mem.streams[d].start
    ensures var a, b := s.mem.streams[c], s.mem.streams[d];
            b.start - a.start <= |a.got| && a.got[b.start - a.start..] == b.got
  {
    StreamsAreContiguous(s, c);
    StreamsAreContiguous(s, d);
  }

  // ---- fallback discipline ----

  /** How often the node has run a call through the lane. */
  function LaneRuns(executed: seq<Frame>, c: nat): nat {
    if executed == [] then 0 else (if executed[0].call == c then 1 else 0) + LaneRuns(executed[1..], c)
  }

  lemma {:induction false} AtMostOneRun(executed: seq<Frame>, c: nat)
    requires forall j, k :: 0 <= j < k < |executed| ==> executed[j].call != executed[k].call
    ensures LaneRuns(executed, c) <= 1
    ensures LaneRuns(executed, c) == 1 ==> HasFrame(executed, c)
    ensures LaneRuns(executed, c) == 0 ==> !HasFrame(executed, c)
  {
    if executed == [] {
    } else {
      AtMostOneRun(executed[1..], c);
      if HasFrame(executed[1..], c) {
        var k :| 0 <= k < |executed[1..]| && executed[1..][k].call == c;
        assert executed[k + 1].call == c;
      }
      assert forall k :: 1 <= k < |executed| ==> executed[k] == executed[1..][k - 1];
    }
  }

  /** A messaging call is run at most once through the lane and at most once over HTTP. It goes to HTTP
      exactly when no live lane applied or the op ended as a transport failure, with an answer only if that
      was to a request never sent; and if it was run both ways, the lane died, and drained the map, before its
      answer was routed. */
  lemma FallbackDiscipline(s: State, c: nat)
    requires Reachable(s) && c < |s.calls| && !s.calls[c].watch
    ensures LaneRuns(s.executed, c) <= 1 && s.calls[c].httpRuns <= 1
    ensures s.calls[c].httpRuns == 1 <==> s.calls[c].phase.ByHttp?
    ensures s.calls[c].phase.Fallback? || s.calls[c].phase.ByHttp? ==>
              Lost(s.calls[c].phase) && (c in s.mem.answers ==> AnsweredUnasked(s, c))
    ensures c in s.mem.answers && Honest(s) ==> s.calls[c].httpRuns == 0
    ensures s.calls[c].httpRuns == 1 && LaneRuns(s.executed, c) == 1 ==>
              s.calls[c].phase == ByHttp(Dropped) && s.mem.dead && Drained(s) && c !in s.mem.answers
  {
    ReachableInv(s);
    assert LocalOp(ViewOp(s, c));
    if Lost(s.calls[c].phase) {
      NotUnasked(s, c);
      if c in s.mem.answers {
        AnsweredWhenGone(s, c);
      }
    }
    hide AnsweredUnasked, Honest;
    ExecutedDistinct(s);
    AtMostOneRun(s.executed, c);
    if HasFrame(s.executed, c) {
      var k :| 0 <= k < |s.executed| && s.executed[k].call == c;
      assert Accepted(s)[k] == s.executed[k];
    }
  }

  lemma ExecutedDistinct(s: State)
    requires Shared(s)
    ensures forall j, k :: 0 <= j < k < |s.executed| ==> s.executed[j].call != s.executed[k].call
  {
    assert forall k :: 0 <= k < |s.executed| ==> Accepted(s)[k] == s.executed[k];
  }

  /** An answer stays an answer: in every continuation the call is not run over HTTP. */
  lemma {:induction false} AnsweredNeverFallsBack(s: State, steps: seq<Step>, c: nat)
    requires Inv(s) && c < |s.calls| && s.calls[c].phase.Answered?
    requires IsRun(s, steps) && After(s, steps).issued <= ID_SPACE
    ensures c < |After(s, steps).calls| && After(s, steps).calls[c].phase == s.calls[c].phase
    ensures After(s, steps).calls[c].httpRuns == 0
  {
    RunSettles(s, steps, c);
    RunKeeps(s, steps);
    assert LocalOp(ViewOp(After(s, steps), c));
  }

  /** On HTTP from the first look at the lane. */
  predicate StaysOnHttp(p: Phase) {
    p.Begun? || p == Fallback(NoLane) || p == ByHttp(NoLane)
  }

  lemma DeadStep(s: State, l: Step, c: nat)
    requires s.mem.dead && Enabled(s, l) && (c >= |s.calls| || StaysOnHttp(s.calls[c].phase))
    ensures Apply(s, l).mem.dead
    ensures c < |Apply(s, l).calls| ==> StaysOnHttp(Apply(s, l).calls[c].phase)
  {
    DeadIsForEver(s, l);
    if c < |s.calls| {
      if l.OfCall? && l.call == c {
        OnlyCallMoves(s, c, l.step);
        OwnDeadStep(s, c, l.step);
      } else {
        OthersUnmoved(s, l, c);
      }
    } else if l.OfCall? {
      OnlyCallMoves(s, l.call, l.step);
    }
  }

  lemma OwnDeadStep(s: State, c: nat, k: CallStep)
    requires s.mem.dead && CanCall(s, c, k) && StaysOnHttp(s.calls[c].phase)
    ensures StaysOnHttp(CallDoes(s, c, k).calls[c].phase)
  {
  }

  lemma DeadIsForEver(s: State, l: Step)
    requires s.mem.dead && Enabled(s, l)
    ensures Apply(s, l).mem.dead
  {
    match l
    case OfCall(c, k) =>
      hide ReaderDoes, WriterDoes, NodeDoes, CallDoes;
      OnlyCallMoves(s, c, k);
    case OfReader(k) =>
      hide CallDoes, WriterDoes, NodeDoes, ReaderDoes;
      ReaderKeepsDead(s, k);
    case _ => hide CallDoes, ReaderDoes, CanCall, CanRead;
  }

  lemma ReaderKeepsDead(s: State, k: ReaderStep)
    requires s.mem.dead && CanRead(s, k)
    ensures ReaderDoes(s, k).mem.dead
  {
  }

  /** After the lane's death a call not yet begun, on any clone, is made over HTTP. */
  lemma {:induction false} DeadLaneIsNeverChosen(s: State, steps: seq<Step>, c: nat)
    requires s.mem.dead && IsRun(s, steps)
    requires c >= |s.calls| || StaysOnHttp(s.calls[c].phase)
    ensures After(s, steps).mem.dead
    ensures c < |After(s, steps).calls| ==> StaysOnHttp(After(s, steps).calls[c].phase)
    decreases |steps|
  {
    if steps == [] {
    } else {
      DeadStep(s, steps[0], c);
      DeadLaneIsNeverChosen(Apply(s, steps[0]), steps[1..], c);
    }
  }
}
