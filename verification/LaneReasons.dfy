/** Why a call is made over HTTP, and why a lane dies: read off the run, from what held when it was decided. */
module LaneReasons {
  import opened Lane
  import opened LaneInvariant
  import opened LaneSteps
  import opened LaneTheorems

  /** The last step of a run. */
  lemma {:induction false} LastStep(s: State, steps: seq<Step>)
    requires steps != [] && IsRun(s, steps)
    ensures var n := |steps| - 1;
            && IsRun(s, steps[..n]) && Enabled(After(s, steps[..n]), steps[n])
            && After(s, steps) == Apply(After(s, steps[..n]), steps[n])
    decreases |steps|
  {
    var n := |steps| - 1;
    if n == 0 {
      assert steps[..0] == [] && steps[1..] == [];
    } else {
      var t := Apply(s, steps[0]);
      LastStep(t, steps[1..]);
      assert steps[1..][..n - 1] == steps[..n][1..] && steps[..n][0] == steps[0];
      hide Apply, Enabled;
    }
  }

  // ---- why HTTP ----

  /** The step with which a call finds out. */
  function Decider(why: Reason): CallStep {
    match why
    case NoLane => CallStep.Choose
    case DeadAtEntry => CallStep.TestDead
    case SendFailed => CallStep.Send
    case Dropped => CallStep.Resolve
    case WatchRefused => CallStep.Resolve
    case DeadAtRetest => CallStep.Retest
  }

  /** What it finds. */
  predicate Holds(why: Reason, s: State, c: nat)
    requires c < |s.calls|
  {
    match why
    case NoLane => !s.bound || s.mem.dead || !(s.calls[c].watch || s.calls[c].addressable)
    case DeadAtEntry => s.mem.dead
    case SendFailed => s.writer.Exited?
    case Dropped => c !in s.mem.answers
    case WatchRefused => s.calls[c].watch && c in s.mem.answers && s.mem.answers[c].Refused?
    case DeadAtRetest => s.mem.dead
  }

  /** The call has given up the lane for this reason. */
  predicate GivenUp(p: Phase, why: Reason) {
    p == Fallback(why) || p == ByHttp(why) || (p.Unsent? && why.SendFailed?)
  }

  /** At step `j` of the run the call took the deciding step, in a state in which the reason held. */
  ghost predicate DecidedAt(s: State, steps: seq<Step>, c: nat, why: Reason, j: int) {
    && 0 <= j < |steps| && steps[j] == OfCall(c, Decider(why)) && IsRun(s, steps[..j])
    && c < |After(s, steps[..j]).calls| && Holds(why, After(s, steps[..j]), c)
  }

  ghost predicate Decided(s: State, steps: seq<Step>, c: nat, why: Reason) {
    exists j :: DecidedAt(s, steps, c, why, j)
  }

  lemma OwnStepGivesUp(s: State, c: nat, k: CallStep, why: Reason)
    requires CanCall(s, c, k)
    ensures GivenUp(CallDoes(s, c, k).calls[c].phase, why)
       <==> GivenUp(s.calls[c].phase, why) || (k == Decider(why) && Holds(why, s, c))
  {
    if k.Choose? || k.TestDead? || k.Send? || k.Resolve? || k.Retest? {
      DecidingStep(s, c, k, why);
    } else {
      OtherStep(s, c, k, why);
    }
  }

  lemma DecidingStep(s: State, c: nat, k: CallStep, why: Reason)
    requires CanCall(s, c, k) && (k.Choose? || k.TestDead? || k.Send? || k.Resolve? || k.Retest?)
    ensures GivenUp(CallDoes(s, c, k).calls[c].phase, why) <==> k == Decider(why) && Holds(why, s, c)
    ensures !GivenUp(s.calls[c].phase, why)
  {
    if k.Choose? {
      ChooseDecides(s, c);
    } else if k.Resolve? {
      ResolveDecides(s, c);
    } else {
      TestDecides(s, c, k);
    }
    hide CallDoes;
  }

  lemma ChooseDecides(s: State, c: nat)
    requires CanCall(s, c, Choose)
    ensures var p := CallDoes(s, c, Choose).calls[c].phase;
            && (p == Fallback(NoLane) <==> Holds(NoLane, s, c))
            && (p == Fallback(NoLane) || p.Watching? || p.Entering?)
  {
  }

  lemma ResolveDecides(s: State, c: nat)
    requires CanCall(s, c, Resolve)
    ensures var p := CallDoes(s, c, Resolve).calls[c].phase;
            && (p == Fallback(Dropped) <==> Holds(Dropped, s, c))
            && (p == Fallback(WatchRefused) <==> Holds(WatchRefused, s, c))
            && (p == Fallback(Dropped) || p == Fallback(WatchRefused) || p.Answered? || p.Acknowledged?)
  {
  }

  lemma TestDecides(s: State, c: nat, k: CallStep)
    requires CanCall(s, c, k) && (k.TestDead? || k.Send? || k.Retest?)
    ensures var p := CallDoes(s, c, k).calls[c].phase;
            && (k.TestDead? ==> p == if s.mem.dead then Fallback(DeadAtEntry) else Tested)
            && (k.Send? ==> p == if s.writer.Exited? then Unsent else Awaiting)
            && (k.Retest? ==> p == if s.mem.dead then Fallback(DeadAtRetest) else Streaming)
  {
  }

  lemma OtherStep(s: State, c: nat, k: CallStep, why: Reason)
    requires CanCall(s, c, k) && !k.Choose? && !k.TestDead? && !k.Send? && !k.Resolve? && !k.Retest?
    ensures GivenUp(CallDoes(s, c, k).calls[c].phase, why) <==> GivenUp(s.calls[c].phase, why)
  {
    var was, p := s.calls[c].phase, CallDoes(s, c, k).calls[c].phase;
    assert k.Unregister? ==> was.Unsent? && p == Fallback(SendFailed);
    assert k.RunHttp? ==> was.Fallback? && p == ByHttp(was.why);
    assert !k.Unregister? && !k.RunHttp? ==>
             !was.Fallback? && !was.ByHttp? && !was.Unsent? && !p.Fallback? && !p.ByHttp? && !p.Unsent?;
    hide CallDoes, CanCall;
  }

  lemma StepGivesUp(s: State, l: Step, c: nat, why: Reason)
    requires Enabled(s, l)
    ensures (c < |Apply(s, l).calls| && GivenUp(Apply(s, l).calls[c].phase, why))
       <==> || (c < |s.calls| && GivenUp(s.calls[c].phase, why))
            || (l == OfCall(c, Decider(why)) && c < |s.calls| && Holds(why, s, c))
  {
    if l.OfCall? && l.call == c {
      OwnStepGivesUp(s, c, l.step, why);
      OnlyCallMoves(s, c, l.step);
    } else if c < |s.calls| {
      OthersUnmoved(s, l, c);
    } else {
      NewCall(s, l, c);
    }
    hide CallDoes, ReaderDoes, WriterDoes, NodeDoes, GivenUp, Holds;
  }

  lemma NewCall(s: State, l: Step, c: nat)
    requires Enabled(s, l) && c >= |s.calls|
    ensures c < |Apply(s, l).calls| ==> Apply(s, l).calls[c].phase.Begun?
  {
    match l
    case OfCall(d, k) => OnlyCallMoves(s, d, k);
    case _ =>
  }

  lemma OneMoreStep(s: State, steps: seq<Step>, c: nat, why: Reason)
    requires steps != [] && IsRun(s, steps) && IsRun(s, steps[..|steps| - 1])
    ensures var n := |steps| - 1;
            Decided(s, steps, c, why) <==> Decided(s, steps[..n], c, why) || DecidedAt(s, steps, c, why, n)
  {
    var n := |steps| - 1;
    hide IsRun, After, Holds;
    forall j | 0 <= j < n ensures DecidedAt(s, steps, c, why, j) <==> DecidedAt(s, steps[..n], c, why, j) {
      assert steps[..n][..j] == steps[..j];
    }
  }

  /** A call gives up the lane for a reason if and only if it took the step at which it would find out when
      the reason held. In particular it is made over HTTP from the start exactly when it chose while no lane was
      bound, or the lane was dead, or the lane could not carry it. */
  lemma {:induction false} GivenUpIff(bound: bool, steps: seq<Step>, c: nat, why: Reason)
    requires IsRun(Start(bound), steps)
    ensures var t := After(Start(bound), steps);
            (c < |t.calls| && GivenUp(t.calls[c].phase, why)) <==> Decided(Start(bound), steps, c, why)
    decreases |steps|
  {
    if steps == [] {
    } else {
      var n := |steps| - 1;
      LastStep(Start(bound), steps);
      GivenUpIff(bound, steps[..n], c, why);
      OneMoreStep(Start(bound), steps, c, why);
      hide Decided, IsRun, After, Apply, Enabled, Holds, GivenUp;
      StepGivesUp(After(Start(bound), steps[..n]), steps[n], c, why);
    }
  }

  // ---- when the node is asked to send events ----

  lemma StepStarts(s: State, l: Step)
    requires Enabled(s, l)
    ensures Apply(s, l).mem.watchStarted <==> s.mem.watchStarted || (l.OfCall? && l.step == CallStep.MarkStarted)
  {
    hide CallDoes, ReaderDoes, WriterDoes, NodeDoes, CanCall, CanRead, CanWrite, CanServe;
    match l
    case Begin(_, _) =>
    case OfCall(c, k) => CallStarts(s, c, k);
    case OfReader(k) => ReaderStarts(s, k);
    case OfWriter(k) => WriterStarts(s, k);
    case OfNode(k) => NodeStarts(s, k);
  }

  lemma ReaderStarts(s: State, k: ReaderStep)
    requires CanRead(s, k)
    ensures ReaderDoes(s, k).mem.watchStarted == s.mem.watchStarted
  {
  }

  lemma WriterStarts(s: State, k: WriterStep)
    requires CanWrite(s, k)
    ensures WriterDoes(s, k).mem.watchStarted == s.mem.watchStarted
  {
  }

  lemma NodeStarts(s: State, k: NodeStep)
    requires CanServe(s, k)
    ensures NodeDoes(s, k).mem == s.mem
  {
  }

  lemma CallStarts(s: State, c: nat, k: CallStep)
    requires CanCall(s, c, k)
    ensures CallDoes(s, c, k).mem.watchStarted <==> s.mem.watchStarted || k == CallStep.MarkStarted
  {
  }

  /** The flag tells that some stream was acknowledged. */
  lemma {:induction false} StartedIff(bound: bool, steps: seq<Step>)
    requires IsRun(Start(bound), steps)
    ensures After(Start(bound), steps).mem.watchStarted
       <==> exists j :: 0 <= j < |steps| && steps[j].OfCall? && steps[j].step == CallStep.MarkStarted
    decreases |steps|
  {
    if steps == [] {
    } else {
      var n := |steps| - 1;
      LastStep(Start(bound), steps);
      StartedIff(bound, steps[..n]);
      StepStarts(After(Start(bound), steps[..n]), steps[n]);
      hide IsRun, After, Apply, Enabled;
      assert forall j :: 0 <= j < n ==> steps[..n][j] == steps[j];
    }
  }

  /** A stream that has subscribed, or is about to, without an op of its own. */
  predicate Skipped(call: Call) {
    && call.ticket.None?
    && (call.phase.Joining? || call.phase.Listening? || call.phase.Streaming? || call.phase.Left?
        || call.phase == Fallback(DeadAtRetest) || call.phase == ByHttp(DeadAtRetest))
  }

  ghost predicate LookedAt(s: State, steps: seq<Step>, c: nat, j: int) {
    && 0 <= j < |steps| && steps[j] == OfCall(c, CallStep.LookStarted) && IsRun(s, steps[..j])
    && After(s, steps[..j]).mem.watchStarted
  }

  ghost predicate Looked(s: State, steps: seq<Step>, c: nat) {
    exists j :: LookedAt(s, steps, c, j)
  }

  lemma OwnStepSkips(s: State, c: nat, k: CallStep)
    requires CanCall(s, c, k) && LocalOp(ViewOp(s, c))
    ensures Skipped(CallDoes(s, c, k).calls[c])
       <==> Skipped(s.calls[c]) || (k == CallStep.LookStarted && s.mem.watchStarted)
  {
  }

  lemma StepSkips(s: State, l: Step, c: nat)
    requires Inv(s) && Enabled(s, l)
    ensures (c < |Apply(s, l).calls| && Skipped(Apply(s, l).calls[c]))
       <==> (c < |s.calls| && Skipped(s.calls[c])) || (l == OfCall(c, CallStep.LookStarted) && s.mem.watchStarted)
  {
    if l.OfCall? && l.call == c {
      assert LocalOp(ViewOp(s, c));
      OwnStepSkips(s, c, l.step);
      OnlyCallMoves(s, c, l.step);
    } else if c < |s.calls| {
      OthersUnmoved(s, l, c);
    } else {
      NewCall(s, l, c);
    }
    hide CallDoes, ReaderDoes, WriterDoes, NodeDoes, Inv, LocalOp, ViewOp;
  }

  /** A stream goes without an op of its own if and only if an earlier one had been acknowledged when it looked. */
  lemma {:induction false} SkippedIff(bound: bool, steps: seq<Step>, c: nat)
    requires IsRun(Start(bound), steps) && After(Start(bound), steps).issued <= ID_SPACE
    ensures var t := After(Start(bound), steps);
            (c < |t.calls| && Skipped(t.calls[c])) <==> Looked(Start(bound), steps, c)
    decreases |steps|
  {
    if steps == [] {
    } else {
      var n := |steps| - 1;
      LastStep(Start(bound), steps);
      var s := After(Start(bound), steps[..n]);
      IssuedGrows(s, steps[n]);
      SkippedIff(bound, steps[..n], c);
      StartSatisfies(bound);
      RunKeeps(Start(bound), steps[..n]);
      OneMoreLook(Start(bound), steps, c);
      hide Looked, IsRun, After, Apply, Enabled, Inv, Skipped;
      StepSkips(s, steps[n], c);
    }
  }

  lemma OneMoreLook(s: State, steps: seq<Step>, c: nat)
    requires steps != [] && IsRun(s, steps) && IsRun(s, steps[..|steps| - 1])
    ensures var n := |steps| - 1; Looked(s, steps, c) <==> Looked(s, steps[..n], c) || LookedAt(s, steps, c, n)
  {
    var n := |steps| - 1;
    hide IsRun, After;
    forall j | 0 <= j < n ensures LookedAt(s, steps, c, j) <==> LookedAt(s, steps[..n], c, j) {
      assert steps[..n][..j] == steps[..j];
    }
  }

  // ---- why a lane dies ----

  /** The node has closed the lane, or sent what cannot be decoded. */
  predicate NodeEndedIt(steps: seq<Step>) {
    OfNode(NodeClose) in steps || OfNode(NodeGarbage) in steps
  }

  /** Nothing has begun to end the lane. */
  predicate Healthy(s: State) {
    && !s.mem.dead && !s.closed && Garbage !in s.down && s.reader != Got(Garbage)
    && ReaderRank(s.reader) == 0 && WriterRank(s.writer) == 0
  }

  lemma StepStaysHealthy(s: State, l: Step)
    requires Enabled(s, l) && Healthy(s) && l != OfNode(NodeClose) && l != OfNode(NodeGarbage)
    ensures Healthy(Apply(s, l))
  {
    match l
    case OfCall(c, k) =>
      CallStaysHealthy(s, c, k);
    case _ =>
      hide CallDoes;
  }

  lemma CallStaysHealthy(s: State, c: nat, k: CallStep)
    requires CanCall(s, c, k) && Healthy(s)
    ensures Healthy(CallDoes(s, c, k))
  {
  }

  /** A lane dies only by the node: until it closes the lane, or sends what cannot be decoded, the lane is
      alive and open and both threads are at work. */
  lemma {:induction false} DiesOnlyByTheNode(bound: bool, steps: seq<Step>)
    requires IsRun(Start(bound), steps) && !NodeEndedIt(steps)
    ensures Healthy(After(Start(bound), steps))
    decreases |steps|
  {
    if steps == [] {
    } else {
      var n := |steps| - 1;
      LastStep(Start(bound), steps);
      assert steps == steps[..n] + [steps[n]];
      DiesOnlyByTheNode(bound, steps[..n]);
      hide IsRun, After, Apply, Enabled, Healthy;
      StepStaysHealthy(After(Start(bound), steps[..n]), steps[n]);
    }
  }
}
