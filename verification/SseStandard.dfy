/**
 Sections 9.2.5 and 9.2.6 of the WHATWG HTML Living Standard as an independent reference: newlines are
 normalised and the stream is cut at line feeds, and frames are collected in one string data buffer.
 The decoder is related to it on every stream.
 */
module SseStandard {
  import opened Basics
  import opened Sse
  import opened SseBlocks
  import opened SseChunking
  import opened SseFrames
  import opened SseRoundTrip

  const BOM: char := '\U{FEFF}'

  /** The standard's three buffers. */
  datatype Buffers = Buffers(data: string, eventType: string, lastEventId: string)

  /** A message event as the standard dispatches it. */
  datatype Message = Message(kind: string, data: string, lastEventId: string)

  datatype Processed = Processed(buffers: Buffers, messages: seq<Message>)

  const EMPTY := Buffers("", "", "")

  /** One leading byte-order mark is ignored. */
  function StripBom(s: string): string {
    if s != "" && s[0] == BOM then s[1..] else s
  }

  /** Every terminator as a single line feed. */
  function Normalize(s: string): string
    decreases |s|
  {
    if s == "" then ""
    else if s[0] != '\r' then [s[0]] + Normalize(s[1..])
    else if |s| > 1 && s[1] == '\n' then "\n" + Normalize(s[2..])
    else "\n" + Normalize(s[1..])
  }

  /** The lines that a line feed ends; an incomplete last one is discarded. */
  function Lines(s: string): seq<string>
    decreases |s|
  {
    var n := IndexOf(s, '\n');
    if n == |s| then [] else [s[..n]] + Lines(s[n + 1..])
  }

  /** Dispatches the message event, unless the data buffer is empty. */
  function Dispatch(b: Buffers): Processed {
    var reset := b.(data := "", eventType := "");
    if b.data == "" then Processed(reset, []) else
      var data := if b.data[|b.data| - 1] == '\n' then b.data[..|b.data| - 1] else b.data;
      Processed(reset, [Message(if b.eventType == "" then "message" else b.eventType, data, b.lastEventId)])
  }

  /** The characters before the first colon. */
  function BeforeColon(line: string): (name: string)
    ensures |name| <= |line| && (':' in line ==> |name| < |line|)
  {
    if line == "" || line[0] == ':' then "" else [line[0]] + BeforeColon(line[1..])
  }

  /** The field's name and its value; one leading space of the value is removed. */
  function Field(line: string): (string, string) {
    var name := BeforeColon(line);
    if ':' !in line then (line, "")
    else
      var value := line[|name|..][1..];
      (name, if value != "" && value[0] == ' ' then value[1..] else value)
  }

  function ProcessLine(b: Buffers, line: string): Processed {
    if line == "" then Dispatch(b)
    else if line[0] == ':' then Processed(b, [])
    else
      var (field, value) := Field(line);
      if field == "event" then Processed(b.(eventType := value), [])
      else if field == "data" then Processed(b.(data := b.data + value + "\n"), [])
      else if field == "id" && '\0' !in value then Processed(b.(lastEventId := value), [])
      else Processed(b, [])
  }

  function ProcessLines(b: Buffers, lines: seq<string>): Processed
    decreases |lines|
  {
    if lines == [] then Processed(b, []) else
      var first := ProcessLine(b, lines[0]);
      var others := ProcessLines(first.buffers, lines[1..]);
      Processed(others.buffers, first.messages + others.messages)
  }

  /** What the standard dispatches for a stream, up to its end. */
  function Interpret(stream: string): seq<Message> {
    ProcessLines(EMPTY, Lines(Normalize(StripBom(stream)))).messages
  }

  /** A frame in the standard's terms: an empty type and an absent id are its defaults. */
  function AsMessage(ev: SseEvent): Message {
    Message(if ev.event == "" then "message" else ev.event, ev.data, ev.id.GetOr(""))
  }

  /** The list of data lines and its flag hold what the string buffer holds. */
  predicate Represents(d: Decoder, b: Buffers) {
    && b.data == Unlines(d.dataLines)
    && (d.sawData <==> d.dataLines != [])
    && b.eventType == d.eventType.GetOr("")
    && b.lastEventId == d.lastEventId.GetOr("")
  }

  lemma {:induction false} UnlinesAppend(lines: seq<string>, line: string)
    ensures Unlines(lines + [line]) == Unlines(lines) + line + "\n"
  {
    if lines == [] {
      assert [line][1..] == [];
    } else {
      assert (lines + [line])[1..] == lines[1..] + [line];
      UnlinesAppend(lines[1..], line);
    }
  }

  /** Dropping the last line feed of the data buffer is joining the data lines. */
  lemma {:induction false} JoinIsUnlinesCut(lines: seq<string>)
    requires lines != []
    ensures Unlines(lines) == Join(lines, '\n') + "\n"
  {
    if |lines| == 1 {
      assert lines[1..] == [];
    } else {
      JoinIsUnlinesCut(lines[1..]);
    }
  }

  lemma FlushRefinesDispatch(d: Decoder, b: Buffers)
    requires Represents(d, b)
    ensures Represents(Flush(d).decoder, Dispatch(b).buffers)
    ensures Dispatch(b).messages == Map(AsMessage, Flush(d).events)
  {
    if d.sawData {
      var joined := Join(d.dataLines, '\n');
      JoinIsUnlinesCut(d.dataLines);
      assert (joined + "\n")[..|joined|] == joined;
    }
  }

  lemma {:induction false} BeforeColonIs(line: string)
    ensures BeforeColon(line) == line[..IndexOf(line, ':')]
  {
    if line == "" || line[0] == ':' {
    } else {
      BeforeColonIs(line[1..]);
      var n := IndexOf(line[1..], ':');
      assert IndexOf(line, ':') == n + 1;
      assert line[..n + 1] == [line[0]] + line[1..][..n];
    }
  }

  /** The two readings of a line are the same. */
  lemma FieldsAgree(line: string)
    ensures Field(line) == ParseField(line)
  {
    BeforeColonIs(line);
    var n := IndexOf(line, ':');
    if n < |line| {
      assert line[n] == ':';
      assert line[n..][1..] == line[n + 1..];
      if n + 1 < |line| {
        assert line[n + 1..][1..] == line[n + 2..];
      }
    } else {
      assert line[..n] == line;
    }
  }

  lemma FeedRefinesProcess(d: Decoder, b: Buffers, line: string)
    requires Represents(d, b)
    ensures Represents(FeedLine(d, line).decoder, ProcessLine(b, line).buffers)
    ensures ProcessLine(b, line).messages == Map(AsMessage, FeedLine(d, line).events)
  {
    if line == "" {
      FlushRefinesDispatch(d, b);
    } else if line[0] != ':' {
      FieldsAgree(line);
      hide Field, ParseField;
      UnlinesAppend(d.dataLines, ParseField(line).1);
    }
  }

  lemma MapAppend<A, B>(f: A -> B, a: seq<A>, b: seq<A>)
    ensures Map(f, a + b) == Map(f, a) + Map(f, b)
  {
  }

  lemma {:induction false} FeedLinesRefine(d: Decoder, b: Buffers, lines: seq<string>)
    requires Represents(d, b)
    ensures Represents(FeedLines(d, lines).decoder, ProcessLines(b, lines).buffers)
    ensures ProcessLines(b, lines).messages == Map(AsMessage, FeedLines(d, lines).events)
    decreases |lines|
  {
    if lines == [] {
    } else {
      FeedRefinesProcess(d, b, lines[0]);
      var first := FeedLine(d, lines[0]);
      FeedLinesRefine(first.decoder, ProcessLine(b, lines[0]).buffers, lines[1..]);
      hide FeedLine, ProcessLine;
      MapAppend(AsMessage, first.events, FeedLines(first.decoder, lines[1..]).events);
    }
  }

  lemma {:induction false} NormalizeKeeps(a: string, b: string)
    requires Unterminated(a)
    ensures Normalize(a + b) == a + Normalize(b)
  {
    if a == "" {
      assert a + b == b;
    } else {
      assert (a + b)[1..] == a[1..] + b;
      NormalizeKeeps(a[1..], b);
    }
  }

  /** A scanned line is a line of the normalised text. */
  lemma FirstLineAgrees(s: string)
    ensures match TakeLine(s)
            case None => Normalize(s) == s
            case Some((line, rest)) => Normalize(s) == line + "\n" + Normalize(rest)
  {
    var n := LineLength(s);
    var tail := s[n..];
    assert s == s[..n] + tail;
    NormalizeKeeps(s[..n], tail);
    if n < |s| {
      NormalizeTerminator(tail);
      LineLengthIs(tail, 0);
      assert tail[NextLine(tail)..] == s[NextLine(s)..];
      hide *;
      AppendAssociates(s[..n], "\n", Normalize(tail[NextLine(tail)..]));
    }
  }

  lemma NormalizeTerminator(s: string)
    requires s != "" && IsTerminator(s[0])
    ensures LineLength(s) == 0 && Normalize(s) == "\n" + Normalize(s[NextLine(s)..])
  {
    LineLengthIs(s, 0);
  }

  lemma NoLfInUnterminated(s: string)
    requires Unterminated(s)
    ensures '\n' !in s
  {
  }

  /** Scanning for either terminator and normalising first give the same lines. */
  lemma {:induction false} LinesAgree(s: string)
    ensures LinesOf(s) == Lines(Normalize(s))
    decreases |s|
  {
    FirstLineAgrees(s);
    match TakeLine(s)
    case None =>
      TakeLineSplits(s);
      NoLfInUnterminated(s);
      IndexOfIs(s, '\n', |s|);
    case Some((line, rest)) =>
      LinesAgree(rest);
      LinesUnfold(s, line, rest);
      FirstOfLines(line, Normalize(rest));
  }

  lemma FirstOfLines(line: string, tail: string)
    requires Unterminated(line)
    ensures Lines(line + "\n" + tail) == [line] + Lines(tail)
  {
    var text := line + "\n" + tail;
    NoLfInUnterminated(line);
    assert text[..|line|] == line && text[|line| + 1..] == tail;
    IndexOfIs(text, '\n', |line|);
  }

  /** The frames of a whole text, and what the standard makes of its lines. */
  lemma FramesOfText(text: string)
    ensures Push(FRESH, text).events == Frames(Blocks(LinesOf(text)), None)
    ensures ProcessLines(EMPTY, Lines(Normalize(text))).messages == Map(AsMessage, Frames(Blocks(LinesOf(text)), None))
  {
    assert "" + text == text;
    var d := FRESH.(buffer := Rest(text));
    assert Push(FRESH, text) == FeedLines(d, LinesOf(text));
    LinesAgree(text);
    FeedLinesRefine(d, EMPTY, LinesOf(text));
    FramesAreBlocks(d, LinesOf(text));
  }

  // ---- byte-order marks ----

  predicate HasBom(stream: string) {
    stream != "" && stream[0] == BOM
  }

  /** Some frame is dispatched before an id line is met. */
  predicate FrameBeforeId(blocks: seq<seq<string>>)
    decreases |blocks|
  {
    && blocks != []
    && IdAfter(blocks[0], None).None?
    && (DataOf(blocks[0]) != [] || FrameBeforeId(blocks[1..]))
  }

  /** The first line, which the mark keeps the decoder from recognising, would have made no difference: it
      sets nothing; or it is data of a frame that is never dispatched; or a type that the frame does not
      show; or an id that no frame shows. */
  predicate FirstLineIsIdle(line: string, others: seq<string>) {
    var value, blocks := ParseField(line).1, Blocks(others);
    && (IsData(line) ==> blocks == [])
    && (IsEvent(line) ==>
          blocks == [] || value == "" || value == "message" || DataOf(blocks[0]) == [] || HasEvent(blocks[0]))
    && (IsId(line) ==> value == "" || !FrameBeforeId(blocks))
  }

  predicate BomIsHarmless(lines: seq<string>) {
    lines == [] || FirstLineIsIdle(lines[0], lines[1..])
  }

  function Messages(blocks: seq<seq<string>>, id: Option<string>): seq<Message> {
    Map(AsMessage, Frames(blocks, id))
  }

  lemma MessagesFirst(block: seq<string>, others: seq<seq<string>>, id: Option<string>)
    ensures Messages([block] + others, id)
            == Map(AsMessage, FrameOf(block, IdAfter(block, id))) + Messages(others, IdAfter(block, id))
  {
    FramesFirst(block, others, id);
    hide Frames, FrameOf, IdAfter;
    MapAppend(AsMessage, FrameOf(block, IdAfter(block, id)), Frames(others, IdAfter(block, id)));
  }

  lemma {:induction false} IdAfterIs(lines: seq<string>, before: Option<string>)
    ensures IdAfter(lines, before) == if IdAfter(lines, None).Some? then IdAfter(lines, None) else before
  {
    if lines == [] {
    } else {
      var value := Some(ParseField(lines[0]).1);
      IdAfterIs(lines[1..], value);
      IdAfterIs(lines[1..], before);
    }
  }

  /** Starting from an id shows exactly when it is not empty and some frame comes before the next. */
  lemma {:induction false} IdShowsIff(blocks: seq<seq<string>>, value: string)
    ensures Messages(blocks, Some(value)) == Messages(blocks, None) <==> value == "" || !FrameBeforeId(blocks)
    decreases |blocks|
  {
    if blocks == [] {
    } else {
      var block, others := blocks[0], blocks[1..];
      assert blocks == [block] + others;
      IdAfterIs(block, Some(value));
      MessagesFirst(block, others, Some(value));
      MessagesFirst(block, others, None);
      if IdAfter(block, None).None? {
        IdShowsIff(others, value);
        FirstShows(block, value, Messages(others, Some(value)), Messages(others, None));
      }
    }
  }

  /** The first block of `IdShowsIff`. */
  lemma FirstShows(block: seq<string>, value: string, a: seq<Message>, b: seq<Message>)
    ensures var with, without := Map(AsMessage, FrameOf(block, Some(value))), Map(AsMessage, FrameOf(block, None));
            with + a == without + b <==> (DataOf(block) == [] || value == "") && a == b
  {
    var with, without := Map(AsMessage, FrameOf(block, Some(value))), Map(AsMessage, FrameOf(block, None));
    assert |with| == |without|;
    assert with == without <==> DataOf(block) == [] || value == "" by {
      if DataOf(block) != [] {
        assert with[0].lastEventId == value && without[0].lastEventId == "";
      }
    }
    hide FrameOf, DataOf;
    SplitEqual(with, a, without, b);
  }

  lemma SplitEqual<T>(a: seq<T>, b: seq<T>, c: seq<T>, d: seq<T>)
    requires |a| == |c|
    ensures a + b == c + d <==> a == c && b == d
  {
    if a + b == c + d {
      assert a == (a + b)[..|a|] && c == (c + d)[..|a|];
      assert b == (a + b)[|a|..] && d == (c + d)[|a|..];
    }
  }

  lemma BlocksOfOneMore(line: string, others: seq<string>)
    requires line != ""
    ensures Blocks([line] + others) ==
            if Blocks(others) == [] then [] else [[line] + Blocks(others)[0]] + Blocks(others)[1..]
  {
    var lines, k := [line] + others, IndexOf(others, "");
    assert lines[..k + 1] == [line] + others[..k];
    assert lines[k + 1..] == others[k..];
    if k < |others| {
      assert lines[k + 1] == "";
      assert lines[k + 2..] == others[k + 1..];
    }
    NotBlankFirst(line, others[..k]);
    hide Blocks;
    IndexOfIs(lines, "", k + 1);
  }

  lemma NotBlankFirst(line: string, block: seq<string>)
    requires line != "" && "" !in block
    ensures "" !in [line] + block
  {
  }

  lemma BlankFirst(others: seq<string>)
    ensures Blocks([""] + others) == [[]] + Blocks(others)
  {
    var lines := [""] + others;
    IndexOfIs(lines, "", 0);
    assert lines[..0] == [] && lines[1..] == others;
  }

  lemma FirstOfBlock(line: string, block: seq<string>, id: Option<string>)
    ensures DataOf([line] + block) == (if IsData(line) then [ParseField(line).1] else []) + DataOf(block)
    ensures TypeAfter([line] + block, None)
            == TypeAfter(block, if IsEvent(line) then Some(ParseField(line).1) else None)
    ensures IdAfter([line] + block, id) == IdAfter(block, if IsId(line) then Some(ParseField(line).1) else id)
  {
    var lines := [line] + block;
    assert lines[0] == line && lines[1..] == block;
  }

  /** A further data line at the front always shows. */
  lemma DataShows(line: string, block: seq<string>, others: seq<seq<string>>)
    requires IsData(line)
    ensures Messages([[line] + block] + others, None) != Messages([block] + others, None)
  {
    var id := IdAfter(block, None);
    FirstOfBlock(line, block, None);
    MessagesFirst([line] + block, others, None);
    MessagesFirst(block, others, None);
    var more, less := Map(AsMessage, FrameOf([line] + block, id)), Map(AsMessage, FrameOf(block, id));
    if DataOf(block) != [] {
      var value := ParseField(line).1;
      assert ([value] + DataOf(block))[1..] == DataOf(block);
      assert Join([value] + DataOf(block), '\n') == value + "\n" + Join(DataOf(block), '\n');
      assert |more[0].data| > |less[0].data|;
      hide FrameOf, DataOf, Messages, IdAfter;
      SplitEqual(more, Messages(others, id), less, Messages(others, id));
    } else {
      assert |more| == 1 && |less| == 0;
    }
  }

  /** A type at the front shows when the frame has no other and it is not the default. */
  lemma TypeShowsIff(line: string, block: seq<string>, others: seq<seq<string>>)
    requires IsEvent(line)
    ensures var value := ParseField(line).1;
            Messages([[line] + block] + others, None) == Messages([block] + others, None)
            <==> value == "" || value == "message" || DataOf(block) == [] || HasEvent(block)
  {
    var id, value := IdAfter(block, None), ParseField(line).1;
    assert "event" != "data" && "event" != "id";
    FirstOfBlock(line, block, None);
    TypeAfterIs(block, Some(value));
    MessagesFirst([line] + block, others, None);
    MessagesFirst(block, others, None);
    assert [] + DataOf(block) == DataOf(block);
    var more, less := Map(AsMessage, FrameOf([line] + block, id)), Map(AsMessage, FrameOf(block, id));
    assert |more| == |less|;
    assert more == less <==> value == "" || value == "message" || DataOf(block) == [] || HasEvent(block) by {
      if DataOf(block) != [] {
        assert more == less <==> more[0] == less[0];
      }
    }
    hide FrameOf, DataOf, Messages, IdAfter, TypeAfter, ParseField;
    SplitEqual(more, Messages(others, id), less, Messages(others, id));
  }

  /** An id at the front is an id before it. */
  lemma IdFirst(line: string, block: seq<string>, others: seq<seq<string>>)
    requires IsId(line)
    ensures Messages([[line] + block] + others, None) == Messages([block] + others, Some(ParseField(line).1))
  {
    assert "id" != "data" && "id" != "event";
    FirstOfBlock(line, block, None);
    MessagesFirst([line] + block, others, None);
    MessagesFirst(block, others, Some(ParseField(line).1));
    assert [] + DataOf(block) == DataOf(block);
  }

  /** A line that sets nothing. */
  lemma NothingShows(line: string, block: seq<string>, others: seq<seq<string>>)
    requires !IsData(line) && !IsEvent(line) && !IsId(line)
    ensures Messages([[line] + block] + others, None) == Messages([block] + others, None)
  {
    FirstOfBlock(line, block, None);
    MessagesFirst([line] + block, others, None);
    MessagesFirst(block, others, None);
    assert [] + DataOf(block) == DataOf(block);
  }

  lemma FirstLineIffIdle(line: string, others: seq<string>)
    ensures Messages(Blocks([line] + others), None) == Messages(Blocks(others), None) <==> FirstLineIsIdle(line, others)
  {
    assert "data" != "event" && "data" != "id" && "event" != "id";
    if line == "" {
      BlankFirst(others);
      MessagesFirst([], Blocks(others), None);
      assert Map(AsMessage, []) + Messages(Blocks(others), None) == Messages(Blocks(others), None);
    } else {
      BlocksOfOneMore(line, others);
      var blocks := Blocks(others);
      if blocks != [] {
        var block, later := blocks[0], blocks[1..];
        assert blocks == [block] + later;
        hide Blocks, Messages, DataOf, FrameBeforeId, HasEvent, ParseField;
        if IsData(line) {
          DataShows(line, block, later);
        } else if IsEvent(line) {
          TypeShowsIff(line, block, later);
        } else if IsId(line) {
          IdFirst(line, block, later);
          IdShowsIff(blocks, ParseField(line).1);
        } else {
          NothingShows(line, block, later);
        }
      }
    }
  }

  /** The mark becomes part of the first line. */
  lemma LinesWithBom(text: string)
    ensures LinesOf([BOM] + text) == if LinesOf(text) == [] then [] else [[BOM] + LinesOf(text)[0]] + LinesOf(text)[1..]
  {
    var stream, n := [BOM] + text, LineLength(text);
    assert stream[..n + 1] == [BOM] + text[..n];
    LineLengthIs(stream, n + 1);
    if n < |text| {
      assert NextLine(stream) == NextLine(text) + 1;
      assert stream[NextLine(stream)..] == text[NextLine(text)..];
    }
  }

  /** And with the mark it is a field that nobody knows. */
  lemma BomLineSetsNothing(line: string)
    ensures !IsData([BOM] + line) && !IsEvent([BOM] + line) && !IsId([BOM] + line) && [BOM] + line != ""
  {
    var marked := [BOM] + line;
    assert marked[0] == BOM;
    assert IndexOf(marked, ':') > 0;
    assert ParseField(marked).0[0] == BOM;
    assert "data"[0] == 'd' && "event"[0] == 'e' && "id"[0] == 'i';
  }

  lemma MarkedFrames(text: string)
    ensures Messages(Blocks(LinesOf([BOM] + text)), None)
         == if LinesOf(text) == [] then [] else Messages(Blocks(LinesOf(text)[1..]), None)
  {
    LinesWithBom(text);
    if LinesOf(text) != [] {
      var marked, others := [BOM] + LinesOf(text)[0], LinesOf(text)[1..];
      BomLineSetsNothing(LinesOf(text)[0]);
      hide LinesOf, Blocks, Messages, ParseField;
      FirstLineIffIdle(marked, others);
    }
  }

  /** On every stream, and however it is cut outside a two-character terminator, the decoder returns before
      `finish` what the standard dispatches, with an empty type read as `message`, if and only if the
      stream has no byte-order mark or the line behind the mark makes no difference. */
  lemma {:induction false} RefinesStandard(stream: string, chunks: seq<string>)
    requires Concat(chunks) == stream && NoCutCrLf(chunks)
    ensures Interpret(stream) == Map(AsMessage, PushAll(FRESH, chunks).events)
       <==> !HasBom(stream) || BomIsHarmless(LinesOf(StripBom(stream)))
  {
    InterpretIs(stream);
    ReturnedAre(stream, chunks);
    WithoutMark(stream);
    hide *;
    if HasBom(stream) {
      MarkIffHarmless(StripBom(stream));
    }
  }

  lemma WithoutMark(stream: string)
    ensures stream == (if HasBom(stream) then [BOM] else []) + StripBom(stream)
  {
  }

  lemma InterpretIs(stream: string)
    ensures Interpret(stream) == Messages(Blocks(LinesOf(StripBom(stream))), None)
  {
    FramesOfText(StripBom(stream));
    hide Frames, Blocks, LinesOf, Normalize, Lines, ProcessLines;
  }

  lemma ReturnedAre(stream: string, chunks: seq<string>)
    requires Concat(chunks) == stream && NoCutCrLf(chunks)
    ensures PushAll(FRESH, chunks).events == Frames(Blocks(LinesOf(stream)), None)
    ensures Map(AsMessage, PushAll(FRESH, chunks).events) == Messages(Blocks(LinesOf(stream)), None)
  {
    ChunkBoundaryIndependence(FRESH, chunks);
    FramesOfText(stream);
    hide Push, PushAll, Frames, Blocks, LinesOf, Normalize, Lines, ProcessLines;
  }

  lemma MarkIffHarmless(text: string)
    ensures Messages(Blocks(LinesOf(text)), None) == Messages(Blocks(LinesOf([BOM] + text)), None)
       <==> BomIsHarmless(LinesOf(text))
  {
    MarkedFrames(text);
    var lines := LinesOf(text);
    if lines != [] {
      assert lines == [lines[0]] + lines[1..];
      hide LinesOf, Blocks, Messages;
      FirstLineIffIdle(lines[0], lines[1..]);
    }
  }

  // ---- empty types ----

  /** Without a byte-order mark data and ids always agree, and types agree if and only if no ended block of
      the stream has data and an empty value in its last event line. */
  lemma {:induction false} TypesAgreeExactly(stream: string, chunks: seq<string>)
    requires Concat(chunks) == stream && NoCutCrLf(chunks) && !HasBom(stream)
    ensures var events, messages := PushAll(FRESH, chunks).events, Interpret(stream);
            && |events| == |messages|
            && (forall i :: 0 <= i < |events| ==>
                  messages[i].data == events[i].data && messages[i].lastEventId == events[i].id.GetOr(""))
            && ((forall i :: 0 <= i < |events| ==> messages[i].kind == events[i].event)
                <==> !SomeTypeless(Blocks(LinesOf(stream))))
  {
    hide Interpret, Frames, PushAll, Push, SomeTypeless, Blocks, LinesOf;
    RefinesStandard(stream, chunks);
    EmptyTypeShows(stream, chunks);
    EmptyTypeAt(PushAll(FRESH, chunks).events);
  }

  lemma EmptyTypeAt(events: seq<SseEvent>)
    ensures SomeEmptyType(events) <==> exists i :: 0 <= i < |events| && events[i].event == ""
  {
    if i :| 0 <= i < |events| && events[i].event == "" {
      assert events[i] in events;
    }
  }

  /** A frame with its type as it stands: an empty one stays empty. */
  function SameType(ev: SseEvent): Message {
    Message(ev.event, ev.data, ev.id.GetOr(""))
  }

  /** In the standard's terms types are never empty. */
  lemma SameTypeIff(events: seq<SseEvent>, messages: seq<Message>)
    requires forall m :: m in messages ==> m.kind != ""
    ensures messages == Map(SameType, events) <==> messages == Map(AsMessage, events) && !SomeEmptyType(events)
  {
    if messages == Map(SameType, events) {
      forall ev | ev in events ensures ev.event != "" {
        var i :| 0 <= i < |events| && events[i] == ev;
        assert messages[i] in messages;
      }
    }
  }

  lemma TypesAreNamed(stream: string)
    ensures forall m :: m in Interpret(stream) ==> m.kind != ""
  {
    InterpretIs(stream);
    hide Interpret, Frames, Blocks, LinesOf;
  }

  lemma EmptyTypeShows(stream: string, chunks: seq<string>)
    requires Concat(chunks) == stream && NoCutCrLf(chunks)
    ensures SomeEmptyType(PushAll(FRESH, chunks).events) <==> SomeTypeless(Blocks(LinesOf(stream)))
  {
    ReturnedAre(stream, chunks);
    hide *;
    EmptyTypeIff(Blocks(LinesOf(stream)), None);
  }

  /** On every stream, with a mark or without, data, ids and types are all those of the standard if and only if
      there is no byte-order mark or the line behind it makes no difference, and no ended block has data and an
      empty value in its last event line. */
  lemma {:induction false} AgreesIff(stream: string, chunks: seq<string>)
    requires Concat(chunks) == stream && NoCutCrLf(chunks)
    ensures Interpret(stream) == Map(SameType, PushAll(FRESH, chunks).events)
       <==> && (!HasBom(stream) || BomIsHarmless(LinesOf(StripBom(stream))))
            && !SomeTypeless(Blocks(LinesOf(stream)))
  {
    hide *;
    RefinesStandard(stream, chunks);
    EmptyTypeShows(stream, chunks);
    TypesAreNamed(stream);
    SameTypeIff(PushAll(FRESH, chunks).events, Interpret(stream));
  }

  /** So a stream without an empty `event` value is read as the standard reads it. */
  lemma {:induction false} AgreesWithoutEmptyEvents(stream: string, chunks: seq<string>)
    requires Concat(chunks) == stream && NoCutCrLf(chunks) && !HasBom(stream)
    requires forall line :: line in LinesOf(stream) ==> !IsEmptyEvent(line)
    ensures Interpret(stream) == Map(SameType, PushAll(FRESH, chunks).events)
  {
    var blocks := Blocks(LinesOf(stream));
    AgreesIff(stream, chunks);
    if SomeTypeless(blocks) {
      var block :| block in blocks && Typeless(block);
      EmptyTypeHasLine(block, None);
      var line :| line in block && IsEmptyEvent(line);
      BlocksAreLines(LinesOf(stream), block, line);
      assert false;
    }
  }

  // ---- streams that are read differently ----

  /** What both make of a text that is one block of lines with the blank line that ends it. */
  lemma OfOneBlock(text: string, block: seq<string>)
    requires LinesOf(text) == block + [""] && "" !in block
    ensures Push(FRESH, text).events == FrameOf(block, IdAfter(block, None))
    ensures ProcessLines(EMPTY, Lines(Normalize(text))).messages == Map(AsMessage, FrameOf(block, IdAfter(block, None)))
  {
    FramesOfText(text);
    var lines := block + [""];
    IndexOfIs(lines, "", |block|);
    assert lines[..|block|] == block && lines[|block| + 1..] == [];
    assert Blocks([]) == [];
    assert Blocks(lines) == [block] + Blocks([]);
    hide Blocks, FrameOf, IdAfter, LinesOf, Normalize;
    FramesFirst(block, [], None);
  }

  lemma TextOfTwo(a: string, text: string)
    requires Unterminated(a) && text == a + "\n" + "\n"
    ensures LinesOf(text) == [a] + [""]
  {
    assert text == a + "\n" + "" + "\n";
    TwoLines(a, "");
  }

  lemma TextOfThree(a: string, b: string, text: string)
    requires Unterminated(a) && Unterminated(b) && text == a + "\n" + (b + "\n" + "\n")
    ensures LinesOf(text) == [a, b] + [""]
  {
    TextOfTwo(b, b + "\n" + "\n");
    LineLengthIs(text, |a|);
    assert text[..|a|] == a && text[|a| + 1..] == b + "\n" + "\n";
    LinesUnfold(text, a, b + "\n" + "\n");
  }

  lemma TypelessFrame(c: char)
    requires c != ' '
    ensures var block := ["event:", "data: " + [c]]; FrameOf(block, IdAfter(block, None)) == [SseEvent("", [c], None)]
  {
    var line, data := "event:", "data: " + [c];
    IndexOfIs(line, ':', 5);
    assert line[..5] == "event" && line[6..] == "";
    assert ParseField(line) == ("event", "");
    assert "event" != "data" && "event" != "id";
    DataAlone(c, Some(""), None);
    assert [line, data][1..] == [data];
    assert Join([[c]], '\n') == [c];
    hide ParseField, Join;
    FirstOfBlock(line, [data], None);
  }

  /** A stream on which the types differ. */
  lemma EmptyTypeDiffers()
    ensures Push(FRESH, "event:\ndata: x\n\n").events == [SseEvent("", "x", None)]
    ensures Interpret("event:\ndata: x\n\n") == [Message("message", "x", "")]
  {
    hide Push, LinesOf, FrameOf, IdAfter, Lines, Normalize, ProcessLines;
    var stream, line, data := "event:\ndata: x\n\n", "event:", "data: " + ['x'];
    assert stream == line + "\n" + (data + "\n" + "\n");
    TextOfThree(line, data, stream);
    TypelessFrame('x');
    OfOneBlock(stream, [line, data]);
  }

  /** The frame of a data line alone, with and without a mark before it. */
  lemma MarkedFrame(c: char)
    requires c != ' '
    ensures var block := ["data: " + [c]]; FrameOf(block, IdAfter(block, None)) == [SseEvent("message", [c], None)]
    ensures var block := [[BOM] + ("data: " + [c])]; FrameOf(block, IdAfter(block, None)) == [] && "" !in block
  {
    var line := "data: " + [c];
    DataAlone(c, None, None);
    BomLineSetsNothing(line);
    OneLine([BOM] + line, None, None);
    assert Join([[c]], '\n') == [c];
    hide DataOf, TypeAfter, IdAfter, Join, IsData, IsEvent, IsId;
  }

  /** A stream whose mark hides a frame that the standard dispatches. */
  lemma BomHidesFrame()
    ensures Push(FRESH, [BOM] + "data: x\n\n").events == []
    ensures Interpret([BOM] + "data: x\n\n") == [Message("message", "x", "")]
  {
    hide Push, LinesOf, FrameOf, IdAfter, Lines, Normalize, ProcessLines;
    var text, line := "data: x\n\n", "data: " + ['x'];
    var marked := [BOM] + line;
    assert text == line + "\n" + "\n" && [BOM] + text == marked + "\n" + "\n";
    TextOfTwo(line, text);
    TextOfTwo(marked, [BOM] + text);
    assert StripBom([BOM] + text) == text;
    MarkedFrame('x');
    OfOneBlock(text, [line]);
    OfOneBlock([BOM] + text, [marked]);
  }
}
