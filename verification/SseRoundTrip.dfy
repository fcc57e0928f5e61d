/** Frames written in the wire format come back from the decoder, however the stream is cut. */
module SseRoundTrip {
  import opened Basics
  import opened Sse
  import opened SseChunking

  /** Every line with its terminator. */
  function Unlines(lines: seq<string>): string {
    if lines == [] then "" else lines[0] + "\n" + Unlines(lines[1..])
  }

  function FieldLine(name: string, value: string): string {
    name + ": " + value
  }

  function DataLines(parts: seq<string>): seq<string> {
    if parts == [] then [] else [FieldLine("data", parts[0])] + DataLines(parts[1..])
  }

  /** A frame on the wire: its type, its id if it has one, one line for each line of its data, and a
      blank line. */
  function FrameLines(ev: SseEvent): seq<string> {
    [FieldLine("event", ev.event)]
    + (if ev.id.Some? then [FieldLine("id", ev.id.value)] else [])
    + DataLines(Split(ev.data, '\n'))
    + [""]
  }

  function StreamLines(evs: seq<SseEvent>): seq<string> {
    if evs == [] then [] else FrameLines(evs[0]) + StreamLines(evs[1..])
  }

  function Encode(evs: seq<SseEvent>): string {
    Unlines(StreamLines(evs))
  }

  /** Frames the format can carry. */
  predicate Writable(ev: SseEvent) {
    && Unterminated(ev.event)
    && (ev.id.Some? ==> Unterminated(ev.id.value) && '\0' !in ev.id.value)
    && '\r' !in ev.data
  }

  /** The id in force after a frame. */
  function CarriedId(last: Option<string>, ev: SseEvent): Option<string> {
    if ev.id.Some? then ev.id else last
  }

  /** Frames without an id of their own take the last one seen. */
  function CarryIds(last: Option<string>, evs: seq<SseEvent>): seq<SseEvent>
    decreases |evs|
  {
    if evs == [] then [] else
      var id := CarriedId(last, evs[0]);
      [evs[0].(id := id)] + CarryIds(id, evs[1..])
  }

  function LastId(last: Option<string>, evs: seq<SseEvent>): Option<string>
    decreases |evs|
  {
    if evs == [] then last else LastId(CarriedId(last, evs[0]), evs[1..])
  }

  predicate AllUnterminated(lines: seq<string>) {
    forall i :: 0 <= i < |lines| ==> Unterminated(lines[i])
  }

  lemma FirstOfUnlines(line: string, tail: string)
    requires Unterminated(line)
    ensures TakeLine(line + "\n" + tail) == Some((line, tail))
  {
    var text := line + "\n" + tail;
    assert text[..|line|] == line && text[|line| + 1..] == tail;
    LineLengthIs(text, |line|);
  }

  lemma {:induction false} LinesOfUnlines(lines: seq<string>)
    requires AllUnterminated(lines)
    ensures LinesOf(Unlines(lines)) == lines && Rest(Unlines(lines)) == ""
  {
    if lines == [] {
    } else {
      FirstOfUnlines(lines[0], Unlines(lines[1..]));
      LinesUnfold(Unlines(lines), lines[0], Unlines(lines[1..]));
      LinesOfUnlines(lines[1..]);
    }
  }

  /** A written field is read back as it was. */
  lemma ParseWritten(name: string, value: string)
    requires name != "" && ':' !in name
    ensures ParseField(FieldLine(name, value)) == (name, value)
    ensures FieldLine(name, value) != "" && FieldLine(name, value)[0] != ':'
  {
    var line := FieldLine(name, value);
    assert line[..|name|] == name && line[|name| + 2..] == value;
    IndexOfIs(line, ':', |name|);
  }

  lemma {:induction false} FeedDataLines(d: Decoder, parts: seq<string>)
    ensures FeedLines(d, DataLines(parts))
         == Fed(d.(dataLines := d.dataLines + parts, sawData := d.sawData || parts != []), [])
    decreases |parts|
  {
    if parts == [] {
      assert d.dataLines + [] == d.dataLines;
    } else {
      ParseWritten("data", parts[0]);
      var next := FeedLine(d, FieldLine("data", parts[0])).decoder;
      FeedDataLines(next, parts[1..]);
      assert d.dataLines + [parts[0]] + parts[1..] == d.dataLines + parts;
    }
  }

  predicate AtFrameStart(d: Decoder) {
    d.dataLines == [] && d.eventType == None && !d.sawData
  }

  /** The lines before the data of a frame. */
  lemma FeedHeader(d: Decoder, ev: SseEvent)
    requires AtFrameStart(d) && Writable(ev)
    ensures var head := [FieldLine("event", ev.event)]
                        + (if ev.id.Some? then [FieldLine("id", ev.id.value)] else []);
            FeedLines(d, head)
            == Fed(d.(eventType := Some(ev.event), lastEventId := CarriedId(d.lastEventId, ev)), [])
  {
    var typed := d.(eventType := Some(ev.event));
    ParseWritten("event", ev.event);
    FeedOne(d, FieldLine("event", ev.event));
    if ev.id.Some? {
      ParseWritten("id", ev.id.value);
      FeedOne(typed, FieldLine("id", ev.id.value));
      FeedLinesAppend(d, [FieldLine("event", ev.event)], [FieldLine("id", ev.id.value)]);
    } else {
      assert [FieldLine("event", ev.event)] + [] == [FieldLine("event", ev.event)];
    }
  }

  /** One frame's lines yield that frame. */
  lemma FeedFrame(d: Decoder, ev: SseEvent)
    requires AtFrameStart(d) && Writable(ev)
    ensures var id := CarriedId(d.lastEventId, ev);
            FeedLines(d, FrameLines(ev)) == Fed(d.(lastEventId := id), [ev.(id := id)])
  {
    var head := [FieldLine("event", ev.event)]
                + (if ev.id.Some? then [FieldLine("id", ev.id.value)] else []);
    var parts := Split(ev.data, '\n');
    FeedHeader(d, ev);
    JoinOfSplit(ev.data, '\n');
    var begun := d.(eventType := Some(ev.event), lastEventId := CarriedId(d.lastEventId, ev));
    assert [] + parts == parts;
    FeedDataLines(begun, parts);
    var full := begun.(dataLines := parts, sawData := true);
    FeedOne(full, "");
    hide FeedLine, FieldLine, DataLines, Split, Join;
    FeedLinesAppend(d, head, DataLines(parts));
    FeedLinesAppend(d, head + DataLines(parts), [""]);
  }

  lemma {:induction false} FeedStream(d: Decoder, evs: seq<SseEvent>)
    requires AtFrameStart(d) && forall ev :: ev in evs ==> Writable(ev)
    ensures FeedLines(d, StreamLines(evs))
         == Fed(d.(lastEventId := LastId(d.lastEventId, evs)), CarryIds(d.lastEventId, evs))
    decreases |evs|
  {
    if evs == [] {
    } else {
      var next := d.(lastEventId := CarriedId(d.lastEventId, evs[0]));
      FeedFrame(d, evs[0]);
      FeedStream(next, evs[1..]);
      hide FeedLine, FeedLines, FrameLines;
      FeedLinesAppend(d, FrameLines(evs[0]), StreamLines(evs[1..]));
    }
  }

  /** Written lines have no terminator inside them. */
  lemma {:induction false} DataLinesUnterminated(parts: seq<string>)
    requires forall p :: p in parts ==> Unterminated(p)
    ensures AllUnterminated(DataLines(parts))
  {
    if parts == [] {
    } else {
      assert parts[0] in parts;
      DataLinesUnterminated(parts[1..]);
    }
  }

  lemma {:induction false} PartsUnterminated(data: string)
    requires '\r' !in data
    ensures forall p :: p in Split(data, '\n') ==> Unterminated(p)
    decreases |data|
  {
    var n := IndexOf(data, '\n');
    if n == |data| {
    } else {
      PartsUnterminated(data[n + 1..]);
    }
  }

  lemma {:induction false} StreamUnterminated(evs: seq<SseEvent>)
    requires forall ev :: ev in evs ==> Writable(ev)
    ensures AllUnterminated(StreamLines(evs))
  {
    if evs == [] {
    } else {
      var ev := evs[0];
      assert ev in evs;
      PartsUnterminated(ev.data);
      DataLinesUnterminated(Split(ev.data, '\n'));
      assert AllUnterminated(FrameLines(ev));
      StreamUnterminated(evs[1..]);
    }
  }

  /** Unterminated lines bring no carriage return into the stream. */
  lemma {:induction false} UnlinesHasNoCr(lines: seq<string>)
    requires AllUnterminated(lines)
    ensures '\r' !in Unlines(lines)
  {
    if lines == [] {
    } else {
      UnlinesHasNoCr(lines[1..]);
    }
  }

  /** Without carriage returns no cut can matter. */
  lemma NoCrNoCut(chunks: seq<string>)
    requires '\r' !in Concat(chunks)
    ensures NoCutCrLf(chunks)
  {
    forall k | 0 <= k < |chunks| ensures !CutsCrLf(Concat(chunks[..k]), chunks[k]) {
      PrefixOfConcat(chunks, k);
      var before := Concat(chunks[..k]);
      if before != "" {
        assert before[|before| - 1] == Concat(chunks)[|before| - 1];
      }
    }
  }

  lemma {:induction false} PrefixOfConcat(chunks: seq<string>, k: nat)
    requires k <= |chunks|
    ensures Concat(chunks[..k]) <= Concat(chunks)
  {
    if k == |chunks| {
      assert chunks[..k] == chunks;
    } else {
      var shorter := chunks[..|chunks| - 1];
      assert shorter[..k] == chunks[..k];
      PrefixOfConcat(shorter, k);
    }
  }

  /** The round trip: any cutting of the written stream decodes to the written frames, each with the id
      then in force, and leaves nothing behind for `finish`. */
  lemma RoundTrip(evs: seq<SseEvent>, chunks: seq<string>)
    requires forall ev :: ev in evs ==> Writable(ev)
    requires Concat(chunks) == Encode(evs)
    ensures PushAll(FRESH, chunks).events == CarryIds(None, evs)
    ensures PushAll(FRESH, chunks).decoder == FRESH.(lastEventId := LastId(None, evs))
    ensures Finish(PushAll(FRESH, chunks).decoder).events == []
  {
    var stream := Encode(evs);
    StreamUnterminated(evs);
    UnlinesHasNoCr(StreamLines(evs));
    NoCrNoCut(chunks);
    ChunkBoundaryIndependence(FRESH, chunks);
    LinesOfUnlines(StreamLines(evs));
    FeedStream(FRESH, evs);
    hide FeedLines, LinesOf, Rest, StreamLines;
    assert "" + stream == stream;
    assert FRESH.(buffer := "") == FRESH;
  }

  /** Frames that all have an id come back unchanged. */
  lemma {:induction false} CarryIdsIsIdentity(last: Option<string>, evs: seq<SseEvent>)
    requires forall ev :: ev in evs ==> ev.id.Some?
    ensures CarryIds(last, evs) == evs
    decreases |evs|
  {
    if evs == [] {
    } else {
      CarryIdsIsIdentity(evs[0].id, evs[1..]);
    }
  }

  lemma RoundTripWithIds(evs: seq<SseEvent>, chunks: seq<string>)
    requires forall ev :: ev in evs ==> Writable(ev) && ev.id.Some?
    requires Concat(chunks) == Encode(evs)
    ensures PushAll(FRESH, chunks).events == evs
  {
    RoundTrip(evs, chunks);
    CarryIdsIsIdentity(None, evs);
  }
}
