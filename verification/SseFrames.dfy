/** The frames of a stream as its blocks: what is dispatched depends on nothing but the lines. */
module SseFrames {
  import opened Basics
  import opened Sse
  import opened SseBlocks

  /** The blocks of lines that a blank line ends. */
  function Blocks(lines: seq<string>): (blocks: seq<seq<string>>)
    ensures forall block :: block in blocks ==> "" !in block
    decreases |lines|
  {
    var k := IndexOf(lines, "");
    if k == |lines| then [] else [lines[..k]] + Blocks(lines[k + 1..])
  }

  /** One frame for every block that has data: its last type, its data, and the id then in force. */
  function Frames(blocks: seq<seq<string>>, id: Option<string>): seq<SseEvent>
    decreases |blocks|
  {
    if blocks == [] then []
    else
      var later := IdAfter(blocks[0], id);
      FrameOf(blocks[0], later) + Frames(blocks[1..], later)
  }

  function FrameOf(block: seq<string>, id: Option<string>): seq<SseEvent> {
    if DataOf(block) == [] then []
    else [SseEvent(TypeAfter(block, None).GetOr("message"), Join(DataOf(block), '\n'), id)]
  }

  predicate Rested(d: Decoder) {
    d.dataLines == [] && d.eventType.None? && !d.sawData
  }

  lemma FlushIsFrame(d: Decoder, block: seq<string>)
    requires Rested(d)
    ensures Flush(AfterBlock(d, block)).events == FrameOf(block, IdAfter(block, d.lastEventId))
    ensures Rested(Flush(AfterBlock(d, block)).decoder)
    ensures Flush(AfterBlock(d, block)).decoder.lastEventId == IdAfter(block, d.lastEventId)
  {
    assert [] + DataOf(block) == DataOf(block);
    hide DataOf, TypeAfter, IdAfter, Join;
  }

  /** What is dispatched is one frame for every ended block with data, in order. */
  lemma {:induction false} FramesAreBlocks(d: Decoder, lines: seq<string>)
    requires Rested(d)
    ensures FeedLines(d, lines).events == Frames(Blocks(lines), d.lastEventId)
    decreases |lines|
  {
    var k := IndexOf(lines, "");
    if k == |lines| {
      FeedBlock(d, lines);
    } else {
      var block, others := lines[..k], lines[k + 1..];
      AtFirstBlank(lines);
      FeedEndedBlock(d, block, others);
      FlushIsFrame(d, block);
      FramesAreBlocks(Flush(AfterBlock(d, block)).decoder, others);
      assert Blocks(lines) == [block] + Blocks(others);
      hide FeedLines, AfterBlock, Flush, FrameOf, IdAfter, Rested, Blocks;
      FramesFirst(block, Blocks(others), d.lastEventId);
    }
  }

  lemma FramesFirst(block: seq<string>, others: seq<seq<string>>, id: Option<string>)
    ensures Frames([block] + others, id) == FrameOf(block, IdAfter(block, id)) + Frames(others, IdAfter(block, id))
  {
    var all := [block] + others;
    assert all[0] == block && all[1..] == others;
  }

  // ---- empty types ----

  /** A block whose frame has an empty type: it has data, and the value of its last event line is empty. */
  predicate Typeless(block: seq<string>) {
    DataOf(block) != [] && TypeAfter(block, None) == Some("")
  }

  predicate SomeTypeless(blocks: seq<seq<string>>) {
    exists block :: block in blocks && Typeless(block)
  }

  predicate SomeEmptyType(events: seq<SseEvent>) {
    exists ev :: ev in events && ev.event == ""
  }

  /** Some frame has an empty type exactly when some block is such. */
  lemma {:induction false} EmptyTypeIff(blocks: seq<seq<string>>, id: Option<string>)
    ensures SomeEmptyType(Frames(blocks, id)) <==> SomeTypeless(blocks)
    decreases |blocks|
  {
    if blocks == [] {
    } else {
      var later := IdAfter(blocks[0], id);
      var first, rest := FrameOf(blocks[0], later), Frames(blocks[1..], later);
      EmptyTypeIff(blocks[1..], later);
      assert Frames(blocks, id) == first + rest;
      assert blocks == [blocks[0]] + blocks[1..];
      assert SomeEmptyType(first) <==> Typeless(blocks[0]);
      hide Frames, FrameOf, Typeless, IdAfter;
      InEither(first, rest);
      InFirstOrRest(blocks[0], blocks[1..]);
    }
  }

  lemma InEither(first: seq<SseEvent>, rest: seq<SseEvent>)
    ensures SomeEmptyType(first + rest) <==> SomeEmptyType(first) || SomeEmptyType(rest)
  {
    if SomeEmptyType(first) {
      var ev :| ev in first && ev.event == "";
      assert ev in first + rest;
    }
    if SomeEmptyType(rest) {
      var ev :| ev in rest && ev.event == "";
      assert ev in first + rest;
    }
  }

  lemma InFirstOrRest(first: seq<string>, rest: seq<seq<string>>)
    ensures SomeTypeless([first] + rest) <==> Typeless(first) || SomeTypeless(rest)
  {
    if Typeless(first) {
      assert first in [first] + rest;
    }
    if SomeTypeless(rest) {
      var block :| block in rest && Typeless(block);
      assert block in [first] + rest;
    }
  }

  /** An event line with an empty value. */
  predicate IsEmptyEvent(line: string) {
    IsEvent(line) && ParseField(line).1 == ""
  }

  lemma {:induction false} EmptyTypeHasLine(block: seq<string>, before: Option<string>)
    requires TypeAfter(block, before) == Some("") && before != Some("")
    ensures exists line :: line in block && IsEmptyEvent(line)
  {
    if block == [] {
    } else if IsEmptyEvent(block[0]) {
      assert block[0] in block;
    } else {
      EmptyTypeHasLine(block[1..], if IsEvent(block[0]) then Some(ParseField(block[0]).1) else before);
      var line :| line in block[1..] && IsEmptyEvent(line);
      assert line in block;
    }
  }

  lemma {:induction false} BlocksAreLines(lines: seq<string>, block: seq<string>, line: string)
    requires block in Blocks(lines) && line in block
    ensures line in lines
    decreases |lines|
  {
    var k := IndexOf(lines, "");
    if block != lines[..k] {
      BlocksAreLines(lines[k + 1..], block, line);
    }
  }
}
