/**
 The incremental decoder of `src/sse.rs`: the meaning of its operations as functions on the five
 decoder fields.
 */
module Sse {
  import opened Basics

  /** One dispatched frame. */
  datatype SseEvent = SseEvent(event: string, data: string, id: Option<string>)

  /** The five fields of the decoder. */
  datatype Decoder = Decoder(
    buffer: string,
    dataLines: seq<string>,
    eventType: Option<string>,
    lastEventId: Option<string>,
    sawData: bool)

  /** What an operation leaves behind: the fields and the frames it returned. */
  datatype Fed = Fed(decoder: Decoder, events: seq<SseEvent>)

  const FRESH := Decoder("", [], None, None, false)

  predicate IsTerminator(c: char) {
    c == '\n' || c == '\r'
  }

  predicate Unterminated(s: string) {
    forall i :: 0 <= i < |s| ==> !IsTerminator(s[i])
  }

  /** What every push leaves true of the fields. */
  predicate WellFormed(d: Decoder) {
    Unterminated(d.buffer) && (d.sawData <==> d.dataLines != [])
  }

  /** The number of characters before the first line terminator. */
  function LineLength(s: string): (n: nat)
    ensures n <= |s| && Unterminated(s[..n]) && (n < |s| ==> IsTerminator(s[n]))
  {
    if s == "" || IsTerminator(s[0]) then 0 else
      var n := LineLength(s[1..]) + 1;
      assert forall i :: 1 <= i < n ==> s[..n][i] == s[1..][..n - 1][i - 1];
      n
  }

  lemma {:induction false} LineLengthIs(s: string, n: nat)
    requires n <= |s| && Unterminated(s[..n]) && (n < |s| ==> IsTerminator(s[n]))
    ensures LineLength(s) == n
  {
    if n == 0 {
    } else {
      assert s[..n][0] == s[0];
      assert s[..n] == [s[0]] + s[1..][..n - 1];
      assert forall i :: 1 <= i < n ==> s[..n][i] == s[1..][..n - 1][i - 1];
      LineLengthIs(s[1..], n - 1);
    }
  }

  /** Where the line after the first one starts: a carriage return and a directly following line feed
      are one terminator. */
  function NextLine(s: string): (next: nat)
    requires LineLength(s) < |s|
    ensures LineLength(s) < next <= |s|
  {
    var n := LineLength(s);
    if s[n] == '\r' && n + 1 < |s| && s[n + 1] == '\n' then n + 2 else n + 1
  }

  /** The first complete line and what follows its terminator. */
  function TakeLine(s: string): Option<(string, string)> {
    var n := LineLength(s);
    if n == |s| then None else Some((s[..n], s[NextLine(s)..]))
  }

  /** The first line has no terminator in it, exactly one terminator follows it, and that terminator is
      the two-character one whenever it can be; there is no first line exactly when nothing in `s` is
      a terminator. */
  lemma TakeLineSplits(s: string)
    ensures TakeLine(s).None? <==> Unterminated(s)
    ensures match TakeLine(s)
            case None => true
            case Some((line, rest)) =>
              && Unterminated(line)
              && (|| s == line + "\n" + rest
                  || s == line + "\r\n" + rest
                  || (s == line + "\r" + rest && (rest == "" || rest[0] != '\n')))
  {
    var n := LineLength(s);
    if n == |s| {
      assert s[..n] == s;
    } else {
      assert s == s[..n] + s[n..NextLine(s)] + s[NextLine(s)..];
    }
  }

  /** Every complete line of `s`, in order. */
  function LinesOf(s: string): seq<string>
    decreases |s|
  {
    match TakeLine(s)
    case None => []
    case Some((line, rest)) => [line] + LinesOf(rest)
  }

  /** The incomplete line at the end of `s`. */
  function Rest(s: string): (rest: string)
    ensures Unterminated(rest) && |rest| <= |s|
    decreases |s|
  {
    match TakeLine(s)
    case None => s
    case Some((_, rest)) => Rest(rest)
  }

  /** A non-empty line read as a field name and a value: split at the first colon, and one leading
      space of the value dropped. */
  function ParseField(line: string): (string, string) {
    var n := IndexOf(line, ':');
    if n == |line| then (line, "")
    else if n + 1 < |line| && line[n + 1] == ' ' then (line[..n], line[n + 2..])
    else (line[..n], line[n + 1..])
  }

  /** The end of a frame: dispatched only if a data line was seen. */
  function Flush(d: Decoder): Fed {
    var idle := d.(dataLines := [], eventType := None, sawData := false);
    if !d.sawData then Fed(idle, [])
    else Fed(idle, [SseEvent(d.eventType.GetOr("message"), Join(d.dataLines, '\n'), d.lastEventId)])
  }

  function FeedLine(d: Decoder, line: string): Fed {
    if line == "" then Flush(d)
    else if line[0] == ':' then Fed(d, [])
    else
      var (field, value) := ParseField(line);
      if field == "data" then Fed(d.(dataLines := d.dataLines + [value], sawData := true), [])
      else if field == "event" then Fed(d.(eventType := Some(value)), [])
      else if field == "id" && '\0' !in value then Fed(d.(lastEventId := Some(value)), [])
      else Fed(d, [])
  }

  function FeedLines(d: Decoder, lines: seq<string>): Fed
    decreases |lines|
  {
    if lines == [] then Fed(d, []) else
      var first := FeedLine(d, lines[0]);
      var others := FeedLines(first.decoder, lines[1..]);
      Fed(others.decoder, first.events + others.events)
  }

  /** Feeds every complete buffered line and keeps the incomplete one. */
  function Drain(d: Decoder): Fed {
    FeedLines(d.(buffer := Rest(d.buffer)), LinesOf(d.buffer))
  }

  function Push(d: Decoder, chunk: string): Fed {
    Drain(d.(buffer := d.buffer + chunk))
  }

  /** The end of the stream: buffered text is fed as a line, and a pending frame is dispatched. */
  function Finish(d: Decoder): Fed {
    Flush(if d.buffer == "" then d else FeedLine(d.(buffer := ""), d.buffer).decoder)
  }

  /** Feeding a line neither reads nor changes the buffer. */
  lemma FeedLineKeepsBuffer(d: Decoder, line: string, text: string)
    ensures FeedLine(d.(buffer := text), line)
         == Fed(FeedLine(d, line).decoder.(buffer := text), FeedLine(d, line).events)
    ensures FeedLine(d, line).decoder.buffer == d.buffer
  {
  }

  /** With `out` already returned, what is left of a push is to feed the first complete line of the
      buffer, and then the others. */
  lemma DrainUnfold(d: Decoder, line: string, rest: string, out: seq<SseEvent>)
    requires TakeLine(d.buffer) == Some((line, rest))
    ensures var first := FeedLine(d.(buffer := rest), line);
            var others := Drain(first.decoder);
            Drain(d).decoder == others.decoder && out + Drain(d).events == (out + first.events) + others.events
  {
    FeedLineKeepsBuffer(d, line, rest);
    FeedLineKeepsBuffer(d, line, Rest(rest));
    var first, tail := FeedLine(d.(buffer := rest), line), LinesOf(rest);
    hide FeedLine, TakeLine;
    assert ([line] + tail)[1..] == tail;
    AppendAssociates(out, first.events, Drain(first.decoder).events);
  }

  /** Feeding lines neither reads nor changes the buffer. */
  lemma {:induction false} FeedLinesKeepBuffer(d: Decoder, lines: seq<string>, text: string)
    ensures FeedLines(d.(buffer := text), lines)
         == Fed(FeedLines(d, lines).decoder.(buffer := text), FeedLines(d, lines).events)
    ensures FeedLines(d, lines).decoder.buffer == d.buffer
    decreases |lines|
  {
    if lines == [] {
    } else {
      FeedLinesKeepBuffer(FeedLine(d, lines[0]).decoder, lines[1..], text);
    }
  }

  lemma {:induction false} FeedLinesAppend(d: Decoder, a: seq<string>, b: seq<string>)
    ensures FeedLines(d, a + b).decoder == FeedLines(FeedLines(d, a).decoder, b).decoder
    ensures FeedLines(d, a + b).events == FeedLines(d, a).events + FeedLines(FeedLines(d, a).decoder, b).events
    decreases |a|
  {
    hide FeedLine;
    if a == [] {
      assert a + b == b;
    } else {
      var first := FeedLine(d, a[0]);
      assert (a + b)[1..] == a[1..] + b;
      FeedLinesAppend(first.decoder, a[1..], b);
      var early := FeedLines(first.decoder, a[1..]);
      AppendAssociates(first.events, early.events, FeedLines(early.decoder, b).events);
    }
  }

  /** Every operation keeps the fields well formed. */
  lemma {:induction false} FeedLinesKeepWellFormed(d: Decoder, lines: seq<string>)
    requires WellFormed(d)
    ensures WellFormed(FeedLines(d, lines).decoder)
    decreases |lines|
  {
    if lines == [] {
    } else {
      FeedLinesKeepWellFormed(FeedLine(d, lines[0]).decoder, lines[1..]);
    }
  }

  lemma PushKeepsWellFormed(d: Decoder, chunk: string)
    requires d.sawData <==> d.dataLines != []
    ensures WellFormed(Push(d, chunk).decoder)
  {
    var text := d.buffer + chunk;
    FeedLinesKeepWellFormed(d.(buffer := Rest(text)), LinesOf(text));
  }
}
