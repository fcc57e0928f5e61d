/**
 The lane client's own state, changed step by step: each method is one lock section or atomic access
 of `src/lane.rs`, proved against the operation on `Memory` that the transition system uses.
 */
module LaneObject {
  import opened Basics
  import opened Lane
  import opened LaneInvariant

  class LaneClient {
    var dead: bool
    var nextId: nat
    var pending: map<nat, nat>
    var subscribers: seq<nat>
    var watchStarted: bool
    var answers: map<nat, Answer>   // the one-shot channels that were sent to
    var streams: map<nat, Stream>   // the subscribers' channels
    var fanned: nat                 // how many events were fanned out

    function Mem(): Memory
      reads this
    {
      Memory(dead, nextId, pending, subscribers, watchStarted, answers, streams)
    }

    constructor ()
      ensures Mem() == START_MEMORY && fanned == 0
    {
      dead, nextId, pending, subscribers, watchStarted, answers, streams := false, 1, map[], [], false, map[], map[];
      fanned := 0;
    }

    method MarkDead()
      modifies this`dead
      ensures Mem() == old(Mem()).(dead := true)
    {
      dead := true;
    }

    method MarkStarted()
      modifies this`watchStarted
      ensures Mem() == old(Mem()).(watchStarted := true)
    {
      watchStarted := true;
    }

    /** The id counter's fetch-and-add, which wraps. */
    method TakeId() returns (id: nat)
      modifies this`nextId
      ensures id == old(nextId) && Mem() == old(Mem()).Allocate()
    {
      id := nextId;
      nextId := if nextId + 1 == ID_SPACE then 0 else (nextId + 1) % ID_SPACE;
    }

    method InsertPending(id: nat, call: nat)
      modifies this`pending
      ensures Mem() == old(Mem()).Register(id, call)
    {
      pending := pending[id := call];
    }

    /** Takes the sender under an id out of the map, if there is one. */
    method RemovePending(id: nat) returns (waiter: Option<nat>)
      modifies this`pending
      ensures Mem() == old(Mem()).Unregister(id)
      ensures waiter == if id in old(pending) then Some(old(pending)[id]) else None
    {
      if id in pending {
        waiter := Some(pending[id]);
        pending := pending - {id};
      } else {
        waiter := None;
      }
    }

    method Deliver(call: nat, answer: Answer)
      modifies this`answers
      ensures Mem() == old(Mem()).Deliver(call, answer)
    {
      answers := answers[call := answer];
    }

    /** What came on a call's one-shot channel, if anything did. */
    method Receive(call: nat) returns (answer: Option<Answer>)
      ensures answer == if call in answers then Some(answers[call]) else None
    {
      answer := if call in answers then Some(answers[call]) else None;
    }

    /** A new subscriber is sent the events from here on. */
    method Subscribe(call: nat) returns (start: nat)
      modifies this`subscribers, this`streams
      ensures start == fanned && Mem() == old(Mem()).Subscribe(call, start)
    {
      start := fanned;
      subscribers := subscribers + [call];
      streams := streams[call := Stream(start, [], true)];
    }

    method DropReceiver(call: nat)
      modifies this`streams
      ensures Mem() == old(Mem()).DropReceiver(call)
    {
      if call in streams {
        streams := streams[call := streams[call].(live := false)];
      }
    }

    /** A send on one subscriber's channel fails when its receiver is gone. */
    method SendEvent(call: nat, msg: nat) returns (ok: bool)
      modifies this`streams
      ensures ok <==> call in old(streams) && old(streams)[call].live
      ensures streams == if ok then old(streams)[call := old(streams)[call].(got := old(streams)[call].got + [msg])]
                         else old(streams)
    {
      ok := call in streams && streams[call].live;
      if ok {
        streams := streams[call := streams[call].(got := streams[call].got + [msg])];
      }
    }

    /** Sends an event to every subscriber, keeping those whose receiver exists. */
    method FanOut(msg: nat)
      requires Distinct(subscribers)
      modifies this`subscribers, this`streams, this`fanned
      ensures Mem() == old(Mem()).FanOut(msg) && fanned == old(fanned) + 1
    {
      ghost var before := Mem();
      var kept: seq<nat> := [];
      var i := 0;
      while i < |subscribers|
        invariant i <= |subscribers| && subscribers == before.subscribers
        invariant Sent(before, msg, i, kept, streams) && fanned == old(fanned)
      {
        SendNext(before, msg, i, kept, streams);
        hide Sent;
        var ok := SendEvent(subscribers[i], msg);
        if ok {
          kept := kept + [subscribers[i]];
        }
        i := i + 1;
      }
      assert before.subscribers[..i] == before.subscribers;
      subscribers := kept;
      fanned := fanned + 1;
    }

    /** Dropping the senders fails the ops that wait for them. */
    method ClearPending()
      modifies this`pending
      ensures Mem() == old(Mem()).(pending := map[])
    {
      pending := map[];
    }

    /** Dropping the senders ends the streams. */
    method ClearSubscribers()
      modifies this`subscribers
      ensures Mem() == old(Mem()).(subscribers := [])
    {
      subscribers := [];
    }

    /** What others have done to the shared fields meanwhile. */
    method Follow(m: Memory, fanned: nat)
      modifies this
      ensures Mem() == m && this.fanned == fanned
    {
      dead, nextId, pending, subscribers := m.dead, m.nextId, m.pending, m.subscribers;
      watchStarted, answers, streams := m.watchStarted, m.answers, m.streams;
      this.fanned := fanned;
    }
  }

  /** The channels once `msg` was sent to the live ones among `subs`. */
  function SentTo(m: Memory, subs: seq<nat>, msg: nat): map<nat, Stream> {
    map c | c in m.streams ::
      if c in subs && m.streams[c].live then m.streams[c].(got := m.streams[c].got + [msg]) else m.streams[c]
  }

  /** A fan-out that has come to the `i`-th subscriber. */
  predicate Sent(m: Memory, msg: nat, i: nat, kept: seq<nat>, streams: map<nat, Stream>) {
    i <= |m.subscribers| && kept == m.Retain(m.subscribers[..i]) && streams == SentTo(m, m.subscribers[..i], msg)
  }

  lemma SentToOneMore(m: Memory, subs: seq<nat>, c: nat, msg: nat)
    requires c !in subs
    ensures var sent := SentTo(m, subs, msg);
            && (c in sent <==> c in m.streams) && (c in sent ==> sent[c] == m.streams[c])
            && SentTo(m, subs + [c], msg)
               == if m.Receives(c) then sent[c := sent[c].(got := sent[c].got + [msg])] else sent
  {
  }

  /** Sending to one more subscriber. */
  lemma SendNext(m: Memory, msg: nat, i: nat, kept: seq<nat>, streams: map<nat, Stream>)
    requires Sent(m, msg, i, kept, streams) && i < |m.subscribers| && Distinct(m.subscribers)
    ensures var c := m.subscribers[i];
            if c in streams && streams[c].live
            then Sent(m, msg, i + 1, kept + [c], streams[c := streams[c].(got := streams[c].got + [msg])])
            else Sent(m, msg, i + 1, kept, streams)
  {
    var subs, c := m.subscribers, m.subscribers[i];
    assert subs[..i + 1] == subs[..i] + [c];
    RetainAppend(m, subs[..i], c);
    SentToOneMore(m, subs[..i], c, msg);
    hide SentTo, Memory.Retain;
  }

  lemma {:induction false} RetainAppend(m: Memory, subs: seq<nat>, c: nat)
    ensures m.Retain(subs + [c]) == m.Retain(subs) + if m.Receives(c) then [c] else []
  {
    if subs == [] {
      assert [c][1..] == [];
    } else {
      assert (subs + [c])[1..] == subs[1..] + [c];
      RetainAppend(m, subs[1..], c);
    }
  }
}
