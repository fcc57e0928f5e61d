/** A lane that is closed comes to its end: the reader finishes, and what waited for it can go on. */
module LaneProgress {
  import opened Lane
  import opened LaneSteps
  import opened LaneTheorems

  /** How many steps of the reader are left once nothing more can arrive. */
  function ReaderDistance(s: State): nat {
    match s.reader
    case Receiving => 3 * |s.down| + 5
    case Got(_) => 3 * |s.down| + 7
    case Delivering(_, _) => 3 * |s.down| + 6
    case Failing => 4
    case Marked => 3
    case Shut => 2
    case PendingCleared => 1
    case Finished => 0
  }

  /** A closed lane leaves the reader a step to take, until it has finished. */
  lemma ReaderCanGoOn(s: State)
    requires s.closed && !s.reader.Finished?
    ensures exists k: ReaderStep :: CanRead(s, k)
  {
    var k := match s.reader
      case Receiving => ReaderClosed
      case Got(Garbage) => ReaderReject
      case Got(Event(_)) => ReaderFanOut
      case Got(Reply(_, _)) => ReaderRoute
      case Delivering(_, _) => ReaderDeliver
      case Failing => ReaderMark
      case Marked => ReaderClose
      case Shut => ReaderClearPending
      case _ => ReaderClearSubscribers;
    assert CanRead(s, k);
  }

  lemma ReaderNears(s: State, k: ReaderStep)
    requires s.closed && CanRead(s, k)
    ensures ReaderDoes(s, k).closed && ReaderDistance(ReaderDoes(s, k)) < ReaderDistance(s)
  {
  }

  lemma CallsDelayNothing(s: State, c: nat, k: CallStep)
    requires CanCall(s, c, k)
    ensures var t := CallDoes(s, c, k); t.closed == s.closed && t.reader == s.reader && t.down == s.down
  {
  }

  lemma OthersDelayNothing(s: State, l: Step)
    requires s.closed && Enabled(s, l) && !l.OfReader?
    ensures Apply(s, l).closed && ReaderDistance(Apply(s, l)) == ReaderDistance(s)
  {
    hide ReaderDoes, CallDoes;
    match l
    case OfCall(c, k) => CallsDelayNothing(s, c, k);
    case _ =>
  }

  function ReaderSteps(steps: seq<Step>): nat {
    if steps == [] then 0 else (if steps[0].OfReader? then 1 else 0) + ReaderSteps(steps[1..])
  }

  /** Once the lane is closed, whoever closed it, the reader takes no more than three steps for each
      response still to come and five to leave, whatever callers, writer and node do in between; and until
      it has finished it always has a step to take. */
  lemma {:induction false} ReaderFinishes(s: State, steps: seq<Step>)
    requires s.closed && IsRun(s, steps)
    ensures ReaderSteps(steps) + ReaderDistance(After(s, steps)) <= ReaderDistance(s) <= 3 * |s.down| + 7
    ensures !After(s, steps).reader.Finished? ==> exists k: ReaderStep :: CanRead(After(s, steps), k)
    decreases |steps|
  {
    hide Apply, Enabled, CanRead;
    if steps == [] {
      if !s.reader.Finished? {
        ReaderCanGoOn(s);
      }
    } else {
      NextDistance(s, steps[0]);
      ReaderFinishes(Apply(s, steps[0]), steps[1..]);
    }
  }

  lemma NextDistance(s: State, l: Step)
    requires s.closed && Enabled(s, l)
    ensures Apply(s, l).closed
    ensures ReaderDistance(Apply(s, l)) + (if l.OfReader? then 1 else 0) <= ReaderDistance(s)
  {
    hide CallDoes, WriterDoes, NodeDoes, ReaderDoes;
    if l.OfReader? {
      ReaderNears(s, l.readerStep);
    } else {
      OthersDelayNothing(s, l);
    }
  }

  /** And when it has, every op that registered in time can be resumed and every stream returned has ended:
      nothing that was there when the lane closed is left waiting but the ops that registered too late. */
  lemma {:induction false} ClosedLaneLetsGo(s: State, steps: seq<Step>, c: nat)
    requires Reachable(s) && s.closed && IsRun(s, steps) && After(s, steps).issued <= ID_SPACE
    requires ReaderSteps(steps) >= ReaderDistance(s) && c < |After(s, steps).calls|
    ensures var t := After(s, steps);
            && t.reader.Finished?
            && (t.calls[c].phase.Awaiting? ==> (CanCall(t, c, Resolve) <==> !t.calls[c].late))
            && (t.calls[c].phase.Streaming? ==> c !in t.mem.subscribers)
  {
    var t := After(s, steps);
    ReaderFinishes(s, steps);
    assert t.reader.Finished? by {
      assert ReaderDistance(t) == 0;
    }
    ReachableOn(s, steps);
    hide Reachable, CanCall;
    if t.calls[c].phase.Awaiting? {
      ResumesUnlessLate(t, c);
    }
    NoStrandedStream(t, c);
  }

  lemma {:induction false} JoinRuns(s: State, a: seq<Step>, b: seq<Step>)
    requires IsRun(s, a) && IsRun(After(s, a), b)
    ensures IsRun(s, a + b) && After(s, a + b) == After(After(s, a), b)
    decreases |a|
  {
    if a == [] {
      assert a + b == b;
    } else {
      assert (a + b)[1..] == a[1..] + b;
      JoinRuns(Apply(s, a[0]), a[1..], b);
    }
  }

  lemma ReachableOn(s: State, steps: seq<Step>)
    requires Reachable(s) && IsRun(s, steps) && After(s, steps).issued <= ID_SPACE
    ensures Reachable(After(s, steps))
  {
    var before: seq<Step> :| IsRun(Start(s.bound), before) && After(Start(s.bound), before) == s;
    BoundStaysInRun(s, steps);
    JoinRuns(Start(s.bound), before, steps);
  }
}
