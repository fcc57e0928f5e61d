/** The typed stream of `decode_stream`: what a reader that polls it to its end is given. */
module SseStream {
  import opened Basics
  import opened Sse
  import opened SseObject
  import opened SseChunking

  /** What the connection delivers; the end of the list is the end of the body. */
  datatype TransportItem = Chunk(text: string) | Failed(reason: string)

  datatype Item<+T> = Decoded(value: T) | Malformed(data: string) | TransportError(reason: string)

  /** A frame as an item: `parse` stands for the JSON decoder. */
  function ItemOf<T>(parse: string -> Option<T>, ev: SseEvent): Item<T> {
    match parse(ev.data)
    case Some(v) => Decoded(v)
    case None => Malformed(ev.data)
  }

  function ItemsOf<T>(parse: string -> Option<T>, evs: seq<SseEvent>): seq<Item<T>> {
    Map(ev => ItemOf(parse, ev), evs)
  }

  /** Every item still to come from a connection read with the decoder in state `d`. */
  function Trace<T>(parse: string -> Option<T>, d: Decoder, arriving: seq<TransportItem>): seq<Item<T>>
    decreases |arriving|
  {
    if arriving == [] then ItemsOf(parse, Finish(d).events) else
      match arriving[0]
      case Failed(reason) => [TransportError(reason)]
      case Chunk(text) =>
        var fed := Push(d, text);
        ItemsOf(parse, fed.events) + Trace(parse, fed.decoder, arriving[1..])
  }

  lemma FirstItem<T>(parse: string -> Option<T>, pending: seq<SseEvent>, later: seq<Item<T>>)
    requires pending != []
    ensures ItemsOf(parse, pending) + later
         == [ItemOf(parse, pending[0])] + (ItemsOf(parse, pending[1..]) + later)
  {
    assert pending == [pending[0]] + pending[1..];
  }

  lemma NoItems<T>(parse: string -> Option<T>)
    ensures ItemsOf(parse, []) == []
  {
  }

  class EventStream<T> {
    const parse: string -> Option<T>
    const decoder: SseDecoder
    var bytes: seq<TransportItem>
    var pending: seq<SseEvent>
    var done: bool

    constructor (parse: string -> Option<T>, bytes: seq<TransportItem>)
      ensures Remaining() == Trace(parse, FRESH, bytes) && this.parse == parse && fresh(decoder)
    {
      this.parse := parse;
      this.bytes := bytes;
      pending, done := [], false;
      decoder := new SseDecoder();
    }

    /** The items a reader has not yet been given. */
    function Remaining(): seq<Item<T>>
      reads this, decoder
    {
      ItemsOf(parse, pending) + if done then [] else Trace(parse, decoder.State(), bytes)
    }

    /** Waits for the next transport item and takes it in; a transport error is handed back. */
    method Receive() returns (failure: Option<string>)
      requires pending == [] && !done
      modifies this, decoder
      ensures failure.None? ==> Remaining() == old(Remaining())
      ensures failure.None? ==> |bytes| < |old(bytes)| || (bytes == old(bytes) && done)
      ensures failure.Some? ==> old(Remaining()) == [TransportError(failure.value)] && Remaining() == []
    {
      hide Sse.Push, Sse.Finish;
      failure := None;
      if bytes == [] {
        done := true;
        var last := decoder.Finish();
        if last.Some? {
          pending := [last.value];
        }
      } else {
        var arrived := bytes[0];
        bytes := bytes[1..];
        match arrived {
          case Chunk(text) =>
            pending := decoder.Push(text);
          case Failed(reason) =>
            done := true;
            failure := Some(reason);
        }
      }
    }

    /** One poll: the next remaining item, or the end when none remains. */
    method Next() returns (item: Option<Item<T>>)
      modifies this, decoder
      ensures item.None? ==> old(Remaining()) == [] == Remaining()
      ensures item.Some? ==> old(Remaining()) == [item.value] + Remaining()
    {
      hide ItemsOf, Trace, ItemOf, SseDecoder.State;
      while true
        invariant Remaining() == old(Remaining())
        decreases |bytes| + if done then 0 else 1
      {
        if pending != [] {
          var ev := pending[0];
          FirstItem(parse, pending, if done then [] else Trace(parse, decoder.State(), bytes));
          pending := pending[1..];
          return Some(ItemOf(parse, ev));
        }
        if done {
          NoItems(parse);
          return None;
        }
        var failure := Receive();
        if failure.Some? {
          return Some(TransportError(failure.value));
        }
      }
    }
  }

  function Chunks(texts: seq<string>): seq<TransportItem> {
    Map(text => Chunk(text), texts)
  }

  lemma ItemsAppend<T>(parse: string -> Option<T>, a: seq<SseEvent>, b: seq<SseEvent>)
    ensures ItemsOf(parse, a + b) == ItemsOf(parse, a) + ItemsOf(parse, b)
  {
  }

  /** Chunks that arrive first give the frames they decode to first. */
  lemma {:induction false} TraceOfChunks<T>(
    parse: string -> Option<T>, d: Decoder, texts: seq<string>, later: seq<TransportItem>)
    ensures Trace(parse, d, Chunks(texts) + later)
         == ItemsOf(parse, PushAll(d, texts).events) + Trace(parse, PushAll(d, texts).decoder, later)
    decreases |texts|
  {
    if texts == [] {
      assert Chunks(texts) + later == later;
    } else {
      var fed := Push(d, texts[0]);
      var arriving := Chunks(texts) + later;
      assert arriving[0] == Chunk(texts[0]) && arriving[1..] == Chunks(texts[1..]) + later;
      assert texts == [texts[0]] + texts[1..];
      PushAllFirst(d, texts[0], texts[1..]);
      TraceOfChunks(parse, fed.decoder, texts[1..], later);
      var others := PushAll(fed.decoder, texts[1..]);
      hide Push, PushAll;
      ItemsAppend(parse, fed.events, others.events);
      AppendAssociates(ItemsOf(parse, fed.events), ItemsOf(parse, others.events),
                       Trace(parse, others.decoder, later));
    }
  }

  /** One item for each frame, in order: the value that its data parses to, if it does, and otherwise the data. A
      frame that does not parse changes no other item. */
  ghost predicate Reads<T>(parse: string -> Option<T>, frames: seq<SseEvent>, items: seq<Item<T>>) {
    && |items| == |frames|
    && (forall i :: 0 <= i < |items| && items[i].Decoded? ==> parse(frames[i].data) == Some(items[i].value))
    && (forall i :: 0 <= i < |items| && items[i].Malformed? ==>
          parse(frames[i].data) == None && items[i].data == frames[i].data)
    && (forall i :: 0 <= i < |items| ==> !items[i].TransportError?)
  }

  lemma ItemsRead<T>(parse: string -> Option<T>, frames: seq<SseEvent>)
    ensures Reads(parse, frames, ItemsOf(parse, frames))
  {
  }

  /** A body that ends: one item for each frame in order, the frame of `finish` last, and no transport
      error. */
  lemma CleanEnd<T>(parse: string -> Option<T>, texts: seq<string>)
    ensures var fed := PushAll(FRESH, texts);
            && Trace(parse, FRESH, Chunks(texts)) == ItemsOf(parse, fed.events + Finish(fed.decoder).events)
            && Reads(parse, fed.events + Finish(fed.decoder).events, Trace(parse, FRESH, Chunks(texts)))
  {
    var fed := PushAll(FRESH, texts);
    ItemsRead(parse, fed.events + Finish(fed.decoder).events);
    assert Chunks(texts) + [] == Chunks(texts);
    TraceOfChunks(parse, FRESH, texts, []);
    ItemsAppend(parse, fed.events, Finish(fed.decoder).events);
  }

  /** How a body was cut into chunks cannot be told from the items, as long as no cut parts a carriage
      return from its line feed. */
  lemma {:induction false} SameTrace<T>(parse: string -> Option<T>, one: seq<string>, other: seq<string>)
    requires NoCutCrLf(one) && NoCutCrLf(other) && Concat(one) == Concat(other)
    ensures Trace(parse, FRESH, Chunks(one)) == Trace(parse, FRESH, Chunks(other))
  {
    CleanEnd(parse, one);
    CleanEnd(parse, other);
    ChunkBoundaryIndependence(FRESH, one);
    ChunkBoundaryIndependence(FRESH, other);
  }

  /** A transport error: every earlier frame, the error once, and nothing of what was still unfinished
      or arrived later. */
  lemma TornEnd<T>(parse: string -> Option<T>, texts: seq<string>, reason: string, later: seq<TransportItem>)
    ensures var items := Trace(parse, FRESH, Chunks(texts) + [Failed(reason)] + later);
            && items == ItemsOf(parse, PushAll(FRESH, texts).events) + [TransportError(reason)]
            && Reads(parse, PushAll(FRESH, texts).events, items[..|items| - 1])
  {
    ItemsRead(parse, PushAll(FRESH, texts).events);
    AppendAssociates(Chunks(texts), [Failed(reason)], later);
    TraceOfChunks(parse, FRESH, texts, [Failed(reason)] + later);
  }

  /** A transport error can only be the last item. */
  lemma {:induction false} ErrorIsLast<T>(
    parse: string -> Option<T>, d: Decoder, arriving: seq<TransportItem>, i: nat)
    requires i < |Trace(parse, d, arriving)| && Trace(parse, d, arriving)[i].TransportError?
    ensures i == |Trace(parse, d, arriving)| - 1
    decreases |arriving|
  {
    if arriving != [] && arriving[0].Chunk? {
      var fed := Push(d, arriving[0].text);
      ErrorIsLast(parse, fed.decoder, arriving[1..], i - |fed.events|);
    }
  }

  /** What is polled of a new stream: the items handed out so far, and those still to come. Each poll moves the
      first of these to the others. */
  lemma {:induction false} PolledInOrder<T>(
    parse: string -> Option<T>, texts: seq<string>, polled: seq<Item<T>>, remaining: seq<Item<T>>, i: nat)
    requires polled + remaining == Trace(parse, FRESH, Chunks(texts)) && i < |polled|
    ensures var frames := PushAll(FRESH, texts).events + Finish(PushAll(FRESH, texts).decoder).events;
            && i < |frames|
            && (forall v :: polled[i] == Decoded(v) <==> parse(frames[i].data) == Some(v))
            && (forall d :: polled[i] == Malformed(d) <==> parse(frames[i].data) == None && d == frames[i].data)
  {
    CleanEnd(parse, texts);
    var items := Trace(parse, FRESH, Chunks(texts));
    assert polled[i] == (polled + remaining)[i] == items[i];
    hide Trace, PushAll, Finish, ItemsOf;
  }
}
