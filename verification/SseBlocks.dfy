/**
 What a run of lines without a blank one does to the decoder, read off the lines themselves. It decides
 what an unterminated last line changes, and when a cut inside a two-character terminator shows.
 */
module SseBlocks {
  import opened Basics
  import opened Sse
  import opened SseChunking

  /** The line sets a field, and to what. */
  predicate Sets(line: string, field: string) {
    line != "" && line[0] != ':' && ParseField(line).0 == field
  }

  predicate IsData(line: string) {
    Sets(line, "data")
  }

  predicate IsEvent(line: string) {
    Sets(line, "event")
  }

  /** An id with a NUL in it is ignored. */
  predicate IsId(line: string) {
    Sets(line, "id") && '\0' !in ParseField(line).1
  }

  /** The values of the data lines. */
  function DataOf(lines: seq<string>): seq<string> {
    if lines == [] then []
    else (if IsData(lines[0]) then [ParseField(lines[0]).1] else []) + DataOf(lines[1..])
  }

  /** The type after some lines: that of the last event line, or else the type before them. */
  function TypeAfter(lines: seq<string>, before: Option<string>): Option<string> {
    if lines == [] then before
    else TypeAfter(lines[1..], if IsEvent(lines[0]) then Some(ParseField(lines[0]).1) else before)
  }

  /** The id after some lines. */
  function IdAfter(lines: seq<string>, before: Option<string>): Option<string> {
    if lines == [] then before
    else IdAfter(lines[1..], if IsId(lines[0]) then Some(ParseField(lines[0]).1) else before)
  }

  /** The decoder after lines none of which is blank. */
  function AfterBlock(d: Decoder, lines: seq<string>): Decoder {
    d.(dataLines := d.dataLines + DataOf(lines),
       eventType := TypeAfter(lines, d.eventType),
       lastEventId := IdAfter(lines, d.lastEventId),
       sawData := d.sawData || DataOf(lines) != [])
  }

  lemma OneLine(line: string, eventType: Option<string>, id: Option<string>)
    ensures DataOf([line]) == if IsData(line) then [ParseField(line).1] else []
    ensures TypeAfter([line], eventType) == if IsEvent(line) then Some(ParseField(line).1) else eventType
    ensures IdAfter([line], id) == if IsId(line) then Some(ParseField(line).1) else id
  {
    assert [line][1..] == [];
  }

  lemma FeedOneOfBlock(d: Decoder, line: string)
    requires line != ""
    ensures FeedLine(d, line) == Fed(AfterBlock(d, [line]), [])
  {
    OneLine(line, d.eventType, d.lastEventId);
    assert d.dataLines + [] == d.dataLines;
    assert "data" != "event" && "data" != "id" && "event" != "id";
    hide DataOf, TypeAfter, IdAfter;
  }

  lemma AfterBlockFirst(d: Decoder, line: string, others: seq<string>)
    ensures AfterBlock(AfterBlock(d, [line]), others) == AfterBlock(d, [line] + others)
  {
    OneLine(line, d.eventType, d.lastEventId);
    var all := [line] + others;
    assert all[0] == line && all[1..] == others;
    AppendAssociates(d.dataLines, DataOf([line]), DataOf(others));
    assert DataOf(all) == DataOf([line]) + DataOf(others);
  }

  /** Lines without a blank one among them dispatch nothing, and do to the fields what can be read off
      them. */
  lemma {:induction false} FeedBlock(d: Decoder, lines: seq<string>)
    requires "" !in lines
    ensures FeedLines(d, lines) == Fed(AfterBlock(d, lines), [])
    decreases |lines|
  {
    if lines == [] {
      assert d.dataLines + [] == d.dataLines;
    } else {
      assert lines == [lines[0]] + lines[1..];
      FeedOneOfBlock(d, lines[0]);
      AfterBlockFirst(d, lines[0], lines[1..]);
      FeedBlock(AfterBlock(d, [lines[0]]), lines[1..]);
      hide AfterBlock, FeedLine;
    }
  }

  /** A block and the blank line that ends it. */
  lemma FeedEndedBlock(d: Decoder, block: seq<string>, others: seq<string>)
    requires "" !in block
    ensures var ended := Flush(AfterBlock(d, block));
            var later := FeedLines(ended.decoder, others);
            FeedLines(d, block + [""] + others) == Fed(later.decoder, ended.events + later.events)
  {
    FeedBlock(d, block);
    var mid := AfterBlock(d, block);
    FeedLinesAppend(d, block, [""] + others);
    AppendAssociates(block, [""], others);
    assert ([""] + others)[1..] == others && ([""] + others)[0] == "";
    assert FeedLine(mid, "") == Flush(mid);
    hide AfterBlock, Flush, FeedLine;
    var ended := Flush(mid);
    var later := FeedLines(ended.decoder, others);
    assert FeedLines(mid, [""] + others) == Fed(later.decoder, ended.events + later.events);
    assert [] + (ended.events + later.events) == ended.events + later.events;
  }

  // ---- the last, unterminated line ----

  /** A pending line that changes nothing of what `finish` returns and leaves. */
  predicate Immaterial(d: Decoder, line: string) {
    || line == ""
    || line[0] == ':'
    || (var (field, value) := ParseField(line);
        match field
        case "data" => false
        case "event" => !d.sawData || value == d.eventType.GetOr("message")
        case "id" => '\0' in value || d.lastEventId == Some(value)
        case _ => true)
  }

  lemma {:induction false} JoinOfOneMore(pieces: seq<string>, piece: string)
    requires pieces != []
    ensures |Join(pieces + [piece], '\n')| == |Join(pieces, '\n')| + 1 + |piece|
  {
    assert (pieces + [piece])[1..] == pieces[1..] + [piece];
    if |pieces| == 1 {
      assert [piece][1..] == [];
    } else {
      JoinOfOneMore(pieces[1..], piece);
    }
  }

  /** The comment on `finish` promises that an unterminated last line is discarded. It holds exactly when
      that line is immaterial. */
  lemma FinishDiscardsIff(d: Decoder)
    requires WellFormed(d)
    ensures Finish(d) == Flush(d.(buffer := "")) <==> Immaterial(d, d.buffer)
  {
    var rested := d.(buffer := "");
    if d.buffer == "" {
      assert rested == d;
    } else if IsData(d.buffer) {
      var value := ParseField(d.buffer).1;
      if d.sawData {
        JoinOfOneMore(d.dataLines, value);
      }
      hide Join, ParseField;
    } else {
      hide Join, ParseField;
    }
  }

  /** A data line of one letter. */
  lemma ParseData(c: char)
    requires c != ' '
    ensures IsData("data: " + [c]) && ParseField("data: " + [c]) == ("data", [c])
  {
    var line := "data: " + [c];
    IndexOfIs(line, ':', 4);
    assert line[..4] == "data" && line[6..] == [c];
  }

  lemma FeedData(d: Decoder, c: char)
    requires c != ' '
    ensures FeedLine(d, "data: " + [c]) == Fed(d.(dataLines := d.dataLines + [[c]], sawData := true), [])
  {
    ParseData(c);
    hide ParseField;
  }

  /** An input on which the line is not discarded but dispatched. */
  lemma FinishDispatchesTheLastLine()
    ensures var d := Push(FRESH, "data: x").decoder;
            Finish(d).events == [SseEvent("message", "x", None)] && Flush(d.(buffer := "")).events == []
  {
    var text := "data: " + ['x'];
    assert "data: x" == text && Unterminated(text);
    TakeLineSplits(text);
    assert "" + text == text;
    assert Push(FRESH, text).decoder == FRESH.(buffer := text);
    FeedData(FRESH, 'x');
    assert [] + ["x"] == ["x"];
    hide FeedLine, Push;
  }

  // ---- a cut inside a two-character terminator ----

  predicate HasEvent(lines: seq<string>) {
    TypeAfter(lines, None).Some?
  }

  lemma {:induction false} TypeAfterIs(lines: seq<string>, before: Option<string>)
    ensures TypeAfter(lines, before) == if HasEvent(lines) then TypeAfter(lines, None) else before
  {
    if lines == [] {
    } else {
      var value := Some(ParseField(lines[0]).1);
      TypeAfterIs(lines[1..], value);
      TypeAfterIs(lines[1..], before);
    }
  }

  /** With data seen, the frame can be ended early only if nothing of it was still to come: no data, and
      the same type and id when its blank line comes. */
  predicate EndsUnchanged(d: Decoder, lines: seq<string>) {
    var k := IndexOf(lines, "");
    && k < |lines|
    && DataOf(lines[..k]) == []
    && TypeAfter(lines[..k], d.eventType).GetOr("message") == d.eventType.GetOr("message")
    && IdAfter(lines[..k], d.lastEventId) == d.lastEventId
  }

  /** With only a type set, it can be dropped only if the lines set another before the frame ends, or the
      frame ends and dispatches nothing, or dispatches what would be the type anyway. */
  predicate TypeIsIdle(eventType: string, lines: seq<string>) {
    var k := IndexOf(lines, "");
    || HasEvent(lines[..k])
    || (k < |lines| && (DataOf(lines[..k]) == [] || eventType == "message"))
  }

  /** Ending the frame that is under way goes unnoticed, given the lines that follow. */
  predicate EndsUnnoticed(d: Decoder, lines: seq<string>) {
    if d.sawData then EndsUnchanged(d, lines) else d.eventType.None? || TypeIsIdle(d.eventType.value, lines)
  }

  /** Feeding lines after ending the frame under way. */
  function FeedAfterEnd(d: Decoder, lines: seq<string>): Fed {
    var ended := Flush(d);
    var later := FeedLines(ended.decoder, lines);
    Fed(later.decoder, ended.events + later.events)
  }

  lemma NoDataSame(d: Decoder, block: seq<string>)
    requires DataOf(block) == []
    ensures AfterBlock(d, block).dataLines == d.dataLines
  {
    assert d.dataLines + [] == d.dataLines;
  }

  /** The lines end before a blank one comes. */
  lemma EndInOpenBlock(d: Decoder, lines: seq<string>)
    requires (d.sawData <==> d.dataLines != []) && "" !in lines
    ensures FeedLines(d, lines) == FeedAfterEnd(d, lines) <==> !d.sawData && (d.eventType.None? || HasEvent(lines))
  {
    FeedBlock(d, lines);
    FeedBlock(Flush(d).decoder, lines);
    TypeAfterIs(lines, d.eventType);
    hide FeedLines, DataOf, TypeAfter, IdAfter, Join;
  }

  /** What the frame's blank line dispatches, if the frame goes on, and if it was ended and began anew. */
  predicate SameDispatch(d: Decoder, block: seq<string>) {
    Flush(AfterBlock(d, block)).events == Flush(d).events + Flush(AfterBlock(Flush(d).decoder, block)).events
  }

  lemma SameAfterBlank(d: Decoder, block: seq<string>)
    ensures Flush(AfterBlock(d, block)).decoder == Flush(AfterBlock(Flush(d).decoder, block)).decoder
  {
  }

  lemma DispatchWithData(d: Decoder, block: seq<string>)
    requires d.sawData && d.dataLines != []
    ensures SameDispatch(d, block)
       <==> && DataOf(block) == []
            && TypeAfter(block, d.eventType).GetOr("message") == d.eventType.GetOr("message")
            && IdAfter(block, d.lastEventId) == d.lastEventId
  {
    var idle := Flush(d).decoder;
    var going, ended := Flush(AfterBlock(d, block)).events, Flush(d).events;
    var anew := Flush(AfterBlock(idle, block)).events;
    assert |going| == 1 && |ended| == 1;
    if DataOf(block) == [] {
      NoDataSame(d, block);
      NoDataSame(idle, block);
      assert anew == [] && ended + [] == ended;
      hide DataOf, TypeAfter, IdAfter, Join;
      assert going == ended <==> going[0] == ended[0];
    } else {
      assert |anew| == 1;
    }
  }

  lemma DispatchWithoutData(d: Decoder, block: seq<string>)
    requires !d.sawData && d.dataLines == []
    ensures SameDispatch(d, block)
       <==> || DataOf(block) == []
            || TypeAfter(block, d.eventType).GetOr("message") == TypeAfter(block, None).GetOr("message")
  {
    var idle := Flush(d).decoder;
    var going, anew := Flush(AfterBlock(d, block)).events, Flush(AfterBlock(idle, block)).events;
    assert Flush(d).events == [] && [] + anew == anew;
    if DataOf(block) != [] {
      hide DataOf, TypeAfter, IdAfter, Join;
      assert |going| == 1 && |anew| == 1;
      assert going == anew <==> going[0] == anew[0];
    }
  }

  lemma SameTail<T>(a: seq<T>, b: seq<T>, tail: seq<T>)
    ensures a + tail == b + tail <==> a == b
  {
    if a + tail == b + tail {
      assert |a| == |b|;
      assert a == (a + tail)[..|a|] && b == (b + tail)[..|b|];
    }
  }

  lemma EndInClosedBlock(d: Decoder, block: seq<string>, others: seq<string>)
    requires (d.sawData <==> d.dataLines != []) && "" !in block
    ensures FeedLines(d, block + [""] + others) == FeedAfterEnd(d, block + [""] + others)
       <==> SameDispatch(d, block)
  {
    var idle := Flush(d);
    FeedEndedBlock(d, block, others);
    FeedEndedBlock(idle.decoder, block, others);
    SameAfterBlank(d, block);
    var one, two := Flush(AfterBlock(d, block)), Flush(AfterBlock(idle.decoder, block));
    hide AfterBlock, Flush, FeedLines;
    var tail := FeedLines(one.decoder, others).events;
    AppendAssociates(idle.events, two.events, tail);
    SameTail(one.events, idle.events + two.events, tail);
  }

  lemma Around<T>(s: seq<T>, k: nat)
    requires k < |s|
    ensures s == s[..k] + [s[k]] + s[k + 1..]
  {
  }

  lemma AtFirstBlank(lines: seq<string>)
    requires IndexOf(lines, "") < |lines|
    ensures var k := IndexOf(lines, ""); "" !in lines[..k] && lines == lines[..k] + [""] + lines[k + 1..]
  {
    var k := IndexOf(lines, "");
    assert lines[k] == "";
    hide *;
    Around(lines, k);
  }

  /** When ending the frame under way goes unnoticed. */
  lemma EndIffUnnoticed(d: Decoder, lines: seq<string>)
    requires d.sawData <==> d.dataLines != []
    ensures FeedLines(d, lines) == FeedAfterEnd(d, lines) <==> EndsUnnoticed(d, lines)
  {
    var k := IndexOf(lines, "");
    if k == |lines| {
      assert lines[..k] == lines;
      EndInOpenBlock(d, lines);
      hide FeedLines, FeedAfterEnd, DataOf, TypeAfter, IdAfter;
    } else {
      AtFirstBlank(lines);
      EndInClosedBlock(d, lines[..k], lines[k + 1..]);
      TypeAfterIs(lines[..k], d.eventType);
      if d.sawData {
        DispatchWithData(d, lines[..k]);
      } else {
        DispatchWithoutData(d, lines[..k]);
      }
      hide FeedLines, FeedAfterEnd, SameDispatch, DataOf, TypeAfter, IdAfter;
    }
  }

  /** What a push gives with the cut, and without it. */
  lemma BothWays(d: Decoder, a: string, rest: string)
    requires WellFormed(d) && a != "" && a[|a| - 1] == '\r'
    ensures var mid := Push(d, a);
            var joined, ended := Push(mid.decoder, rest), Flush(mid.decoder);
            var parted := Push(ended.decoder, rest);
            && mid.decoder.buffer == ""
            && Push(d, a + ("\n" + rest)) == Fed(joined.decoder, mid.events + joined.events)
            && PushAll(d, [a, "\n" + rest]) == Fed(parted.decoder, mid.events + (ended.events + parted.events))
  {
    var mid, lf := Push(d, a), "\n";
    assert Glue2(lf, rest) == lf + rest && Glue2(a + lf, rest) == (a + lf) + rest;
    AppendAssociates(a, lf, rest);
    PushLfAfterCr(d, a);
    PushKeepsUnterminated(d, a);
    PushPair(d, a, lf + rest);
    TwoPushes(d, a, lf + rest);
    TwoPushes(mid.decoder, lf, rest);
    PushLf(mid.decoder);
    TwoPushes(d, a + lf, rest);
    hide *;
  }

  lemma PushOnEmptyBuffer(d: Decoder, text: string)
    requires d.buffer == ""
    ensures Push(d, text) == FeedLines(d.(buffer := Rest(text)), LinesOf(text))
  {
    assert "" + text == text;
  }

  lemma SameFront<T>(front: seq<T>, a: seq<T>, b: seq<T>)
    ensures front + a == front + b <==> a == b
  {
    if front + a == front + b {
      assert a == (front + a)[|front|..] && b == (front + b)[|front|..];
    }
  }

  /** For the text that follows: a cut between a carriage return and its line feed changes nothing exactly
      when the frame it ends could as well have ended there. */
  lemma {:induction false} CutIsHarmlessIff(d: Decoder, a: string, rest: string)
    requires WellFormed(d) && a != "" && a[|a| - 1] == '\r'
    ensures PushAll(d, [a, "\n" + rest]) == Push(d, a + ("\n" + rest))
       <==> EndsUnnoticed(Push(d, a).decoder, LinesOf(rest))
  {
    var mid := Push(d, a);
    PushKeepsWellFormed(d, a);
    BothWays(d, a, rest);
    var m := mid.decoder.(buffer := Rest(rest));
    var ended := Flush(mid.decoder);
    assert Flush(m) == Fed(ended.decoder.(buffer := Rest(rest)), ended.events);
    PushOnEmptyBuffer(mid.decoder, rest);
    PushOnEmptyBuffer(ended.decoder, rest);
    assert EndsUnnoticed(m, LinesOf(rest)) == EndsUnnoticed(mid.decoder, LinesOf(rest));
    hide Push, PushAll, FeedLines, LinesOf, Rest, Flush, EndsUnnoticed;
    EndIffUnnoticed(m, LinesOf(rest));
    SameFront(mid.events, FeedLines(m, LinesOf(rest)).events, FeedAfterEnd(m, LinesOf(rest)).events);
  }

  lemma TwoLines(first: string, second: string)
    requires Unterminated(first) && Unterminated(second)
    ensures LinesOf(first + "\n" + second + "\n") == [first, second] && Rest(first + "\n" + second + "\n") == ""
  {
    var text, tail := first + "\n" + second + "\n", second + "\n";
    LineLengthIs(text, |first|);
    assert text[..|first|] == first && text[|first| + 1..] == tail;
    LineLengthIs(tail, |second|);
    assert tail[..|second|] == second && tail[|second| + 1..] == "";
    LinesUnfold(text, first, tail);
    LinesUnfold(tail, second, "");
  }

  lemma AfterDataCr()
    ensures Push(FRESH, "data: x\r") == Fed(FRESH.(dataLines := ["x"], sawData := true), [])
  {
    var line, a := "data: " + ['x'], "data: x\r";
    LineLengthIs(a, 7);
    assert a[..7] == line && a[8..] == "" && "" + a == a;
    LinesUnfold(a, line, "");
    FeedOne(FRESH, line);
    FeedData(FRESH, 'x');
    assert [] + ["x"] == ["x"];
  }

  /** A data line of one letter, alone. */
  lemma DataAlone(c: char, eventType: Option<string>, id: Option<string>)
    requires c != ' '
    ensures var lines := ["data: " + [c]];
            DataOf(lines) == [[c]] && TypeAfter(lines, eventType) == eventType && IdAfter(lines, id) == id
  {
    var line := "data: " + [c];
    ParseData(c);
    OneLine(line, eventType, id);
    assert "data" != "event" && "data" != "id";
    hide DataOf, TypeAfter, IdAfter, ParseField;
  }

  lemma FeedDataAndBlank(d: Decoder, c: char)
    requires c != ' '
    ensures FeedLines(d, ["data: " + [c], ""]) == Flush(d.(dataLines := d.dataLines + [[c]], sawData := true))
  {
    var line := "data: " + [c];
    assert [line] + [""] + [] == [line, ""];
    FeedEndedBlock(d, [line], []);
    DataAlone(c, d.eventType, d.lastEventId);
    hide DataOf, TypeAfter, IdAfter, Flush;
    var r := Flush(AfterBlock(d, [line]));
    assert r.events + [] == r.events;
  }

  lemma DataThenBlank(d: Decoder, c: char, text: string)
    requires d.buffer == "" && c != ' ' && !IsTerminator(c) && text == "data: " + [c] + "\n" + "\n"
    ensures Push(d, text) == Flush(d.(dataLines := d.dataLines + [[c]], sawData := true))
  {
    var line := "data: " + [c];
    assert text == line + "\n" + "" + "\n";
    TwoLines(line, "");
    assert "" + text == text;
    hide Flush, LinesOf;
    FeedDataAndBlank(d, c);
  }

  lemma OneText()
    ensures "data: x\r" + ("\n" + "data: y\n\n") == "data: x\r\ndata: y\n\n"
    ensures "\n" + "data: y\n\n" == "\ndata: y\n\n"
    ensures "data: x\r"[|"data: x\r"| - 1] == '\r'
    ensures Join(["x"], '\n') == "x" && Join(["y"], '\n') == "y" && Join(["x", "y"], '\n') == "x\ny"
  {
    assert ["x"][1..] == [] && ["y"][1..] == [] && ["x", "y"][1..] == ["y"];
  }

  /** A cut that shows: one frame of two data lines becomes two frames. */
  lemma CutSplitsFrame()
    ensures Push(FRESH, "data: x\r\ndata: y\n\n").events == [SseEvent("message", "x\ny", None)]
    ensures PushAll(FRESH, ["data: x\r", "\ndata: y\n\n"]).events
         == [SseEvent("message", "x", None), SseEvent("message", "y", None)]
  {
    hide PushAll, Push, Join;
    AfterDataCr();
    OneText();
    var mid := FRESH.(dataLines := ["x"], sawData := true);
    assert "data: y\n\n" == "data: " + ['y'] + "\n" + "\n";
    DataThenBlank(mid, 'y', "data: y\n\n");
    DataThenBlank(FRESH, 'y', "data: y\n\n");
    BothWays(FRESH, "data: x\r", "data: y\n\n");
    assert ["x"] + ["y"] == ["x", "y"] && [] + ["y"] == ["y"];
  }
}
