/**
 How the way a stream is cut into pushes affects what is decoded.

 A cut between a carriage return and its line feed makes the line feed a terminator of its own, and
 that is the only effect a cut can have.
 */
module SseChunking {
  import opened Basics
  import opened Sse

  /** One push after another. */
  function PushAll(d: Decoder, chunks: seq<string>): Fed {
    if chunks == [] then Fed(d, []) else
      var before := PushAll(d, chunks[..|chunks| - 1]);
      var last := Push(before.decoder, chunks[|chunks| - 1]);
      Fed(last.decoder, before.events + last.events)
  }

  predicate CutsCrLf(a: string, b: string) {
    a != "" && b != "" && a[|a| - 1] == '\r' && b[0] == '\n'
  }

  /** `b` after `a`, with a carriage return put in where the join would otherwise make a two-character
      terminator of two characters that arrived apart. */
  function Glue2(a: string, b: string): string {
    if CutsCrLf(a, b) then a + "\r" + b else a + b
  }

  function Glue(chunks: seq<string>): string {
    if chunks == [] then "" else Glue2(Glue(chunks[..|chunks| - 1]), chunks[|chunks| - 1])
  }

  /** The first line of `a` is still the first line after something is glued on. */
  lemma FirstLineOfGlue(a: string, b: string)
    requires TakeLine(a).Some?
    ensures var (line, rest) := TakeLine(a).value;
            TakeLine(Glue2(a, b)) == Some((line, if rest == "" && CutsCrLf(a, b) then "\r" + b else Glue2(rest, b)))
  {
    var n, g := LineLength(a), Glue2(a, b);
    assert g[..n] == a[..n];
    LineLengthIs(g, n);
    var next := NextLine(a);
    assert NextLine(g) == next;
    hide LineLength, NextLine;
    TailOfGlue(a, b, next);
  }

  lemma TailOfGlue(a: string, b: string, next: nat)
    requires a != "" && next <= |a|
    ensures Glue2(a, b)[next..] == if next == |a| && CutsCrLf(a, b) then "\r" + b else Glue2(a[next..], b)
  {
    var rest, tail := a[next..], if CutsCrLf(a, b) then "\r" + b else b;
    assert Glue2(a, b) == a + tail;
    assert (a + tail)[next..] == rest + tail;
    if rest == "" {
      assert "" + tail == tail && "" + b == b;
    } else {
      assert rest[|rest| - 1] == a[|a| - 1];
    }
  }

  /** A carriage return before a line feed changes nothing at the start of a line. */
  lemma CrBeforeLf(b: string)
    requires b != "" && b[0] == '\n'
    ensures TakeLine("\r" + b) == TakeLine(b) == Some(("", b[1..]))
  {
    LineLengthIs("\r" + b, 0);
    LineLengthIs(b, 0);
    assert ("\r" + b)[2..] == b[1..];
  }

  /** The lines of a glued text are the lines of its first part, and then those that the second part
      completes. */
  lemma {:induction false} LinesOfGlue(a: string, b: string)
    ensures LinesOf(Glue2(a, b)) == LinesOf(a) + LinesOf(Rest(a) + b)
    ensures Rest(Glue2(a, b)) == Rest(Rest(a) + b)
    decreases |a|
  {
    match TakeLine(a)
    case None =>
      TakeLineSplits(a);
      assert Glue2(a, b) == a + b;
      assert Rest(a) == a && LinesOf(a) == [];
    case Some((line, rest)) =>
      FirstLineOfGlue(a, b);
      if rest == "" && CutsCrLf(a, b) {
        CrBeforeLf(b);
        LinesUnfold("\r" + b, "", b[1..]);
        LinesUnfold(b, "", b[1..]);
        assert "" + b == b;
        LinesUnfold2(a, Glue2(a, b), line, rest, "\r" + b, b);
      } else {
        LinesOfGlue(rest, b);
        LinesUnfold2(a, Glue2(a, b), line, rest, Glue2(rest, b), Rest(rest) + b);
      }
  }

  lemma LinesUnfold2(a: string, g: string, line: string, rest: string, glued: string, tail: string)
    requires TakeLine(a) == Some((line, rest)) && TakeLine(g) == Some((line, glued))
    requires LinesOf(glued) == LinesOf(rest) + LinesOf(tail)
    ensures LinesOf(g) == LinesOf(a) + LinesOf(tail) && Rest(g) == Rest(glued) && Rest(a) == Rest(rest)
  {
    LinesUnfold(a, line, rest);
    LinesUnfold(g, line, glued);
    hide *;
    AppendAssociates([line], LinesOf(rest), LinesOf(tail));
  }

  lemma LinesUnfold(s: string, line: string, rest: string)
    requires TakeLine(s) == Some((line, rest))
    ensures LinesOf(s) == [line] + LinesOf(rest) && Rest(s) == Rest(rest)
  {
  }

  /** Feeding some lines and then others, whatever the buffer is set to in between. */
  lemma FeedTwice(d: Decoder, early: seq<string>, late: seq<string>, mid: string, rest: string)
    ensures var first := FeedLines(d.(buffer := mid), early);
            var second := FeedLines(first.decoder.(buffer := rest), late);
            && first.decoder.buffer == mid
            && FeedLines(d.(buffer := rest), early + late) == Fed(second.decoder, first.events + second.events)
  {
    hide FeedLine;
    FeedLinesKeepBuffer(d, early, mid);
    FeedLinesKeepBuffer(d, early, rest);
    FeedLinesAppend(d.(buffer := rest), early, late);
  }

  lemma GlueBehindBuffer(buffer: string, a: string, b: string)
    requires Unterminated(buffer)
    ensures Glue2(buffer + a, b) == buffer + Glue2(a, b)
  {
    AppendAssociates(buffer, a, b);
    AppendAssociates(buffer, a, "\r" + b);
    AppendAssociates(a, "\r", b);
    AppendAssociates(buffer + a, "\r", b);
  }

  /** Two pushes are one push of the glued text. */
  lemma TwoPushes(d: Decoder, a: string, b: string)
    requires Unterminated(d.buffer)
    ensures var first := Push(d, a);
            var second := Push(first.decoder, b);
            Push(d, Glue2(a, b)) == Fed(second.decoder, first.events + second.events)
  {
    var text := d.buffer + a;
    GlueBehindBuffer(d.buffer, a, b);
    LinesOfGlue(text, b);
    hide FeedLine, FeedLines, LinesOf, Rest, Glue2;
    var mid := Rest(text);
    FeedTwice(d, LinesOf(text), LinesOf(mid + b), mid, Rest(mid + b));
  }

  lemma PushKeepsUnterminated(d: Decoder, chunk: string)
    ensures Unterminated(Push(d, chunk).decoder.buffer)
  {
    var text := d.buffer + chunk;
    FeedLinesKeepBuffer(d.(buffer := Rest(text)), LinesOf(text), "");
  }

  lemma PushOfNothing(d: Decoder)
    requires Unterminated(d.buffer)
    ensures Push(d, "") == Fed(d, [])
  {
    assert d.buffer + "" == d.buffer;
    TakeLineSplits(d.buffer);
  }

  /** Any sequence of pushes whatsoever is a single push of the glued chunks: frames and fields. */
  lemma {:induction false} ChunkingLaw(d: Decoder, chunks: seq<string>)
    requires Unterminated(d.buffer)
    ensures PushAll(d, chunks) == Push(d, Glue(chunks))
  {
    if chunks == [] {
      PushOfNothing(d);
    } else {
      var before, last := chunks[..|chunks| - 1], chunks[|chunks| - 1];
      ChunkingLaw(d, before);
      TwoPushes(d, Glue(before), last);
    }
  }

  /** A push first is a push first. */
  lemma {:induction false} PushAllFirst(d: Decoder, chunk: string, chunks: seq<string>)
    ensures var first := Push(d, chunk);
            var others := PushAll(first.decoder, chunks);
            PushAll(d, [chunk] + chunks) == Fed(others.decoder, first.events + others.events)
  {
    hide Push;
    if chunks == [] {
      assert ([chunk] + chunks)[..0] == [];
    } else {
      var n := |chunks| - 1;
      assert ([chunk] + chunks)[..n + 1] == [chunk] + chunks[..n];
      PushAllFirst(d, chunk, chunks[..n]);
      var mid := PushAll(Push(d, chunk).decoder, chunks[..n]);
      AppendAssociates(Push(d, chunk).events, mid.events, Push(mid.decoder, chunks[n]).events);
    }
  }

  /** No cut of the chunks falls between a carriage return and a line feed. */
  predicate NoCutCrLf(chunks: seq<string>) {
    forall k :: 0 <= k < |chunks| ==> !CutsCrLf(Concat(chunks[..k]), chunks[k])
  }

  lemma {:induction false} GlueIsConcat(chunks: seq<string>)
    requires NoCutCrLf(chunks)
    ensures Glue(chunks) == Concat(chunks)
  {
    if chunks == [] {
    } else {
      var n := |chunks| - 1;
      assert forall k :: 0 <= k < n ==> chunks[..n][..k] == chunks[..k];
      GlueIsConcat(chunks[..n]);
      assert !CutsCrLf(Concat(chunks[..n]), chunks[n]);
    }
  }

  /** Chunk-boundary independence: frames, the frame `finish` returns, and every field. */
  lemma {:induction false} ChunkBoundaryIndependence(d: Decoder, chunks: seq<string>)
    requires Unterminated(d.buffer) && NoCutCrLf(chunks)
    ensures PushAll(d, chunks) == Push(d, Concat(chunks))
    ensures Finish(PushAll(d, chunks).decoder) == Finish(Push(d, Concat(chunks)).decoder)
  {
    ChunkingLaw(d, chunks);
    GlueIsConcat(chunks);
  }

  /** No frame is under way. */
  predicate Idle(d: Decoder) {
    !d.sawData && d.eventType.None?
  }

  /** A line feed after a final carriage return extends its terminator. */
  lemma FirstLineBeforeLf(a: string)
    requires a != "" && a[|a| - 1] == '\r'
    ensures TakeLine(a).Some?
    ensures var (line, rest) := TakeLine(a).value;
            && (rest != "" ==> rest[|rest| - 1] == '\r')
            && TakeLine(a + "\n") == Some((line, if rest == "" then "" else rest + "\n"))
  {
    assert !Unterminated(a) by {
      assert IsTerminator(a[|a| - 1]);
    }
    TakeLineSplits(a);
    var n, text := LineLength(a), a + "\n";
    assert text[..n] == a[..n];
    LineLengthIs(text, n);
    hide LineLength, Unterminated;
    var next := NextLine(a);
    if n == |a| - 1 {
      assert next == |a| && NextLine(text) == |text|;
      hide NextLine;
      assert a[next..] == "" && text[|text|..] == "";
    } else {
      assert next < |a| && NextLine(text) == next;
      hide NextLine;
      assert text[next..] == a[next..] + "\n";
    }
  }

  /** Text that ends in a carriage return is complete, and a line feed joining it adds no line. */
  lemma {:induction false} LfJoinsCr(a: string)
    requires a != "" && a[|a| - 1] == '\r'
    ensures LinesOf(a + "\n") == LinesOf(a) && Rest(a) == "" && Rest(a + "\n") == ""
    decreases |a|
  {
    FirstLineBeforeLf(a);
    var (line, rest) := TakeLine(a).value;
    LinesUnfold(a, line, rest);
    LinesUnfold(a + "\n", line, if rest == "" then "" else rest + "\n");
    if rest == "" {
    } else {
      LfJoinsCr(rest);
    }
  }

  lemma PushLfAfterCr(d: Decoder, a: string)
    requires Unterminated(d.buffer) && a != "" && a[|a| - 1] == '\r'
    ensures Push(d, a + "\n") == Push(d, a) && Push(d, a).decoder.buffer == ""
  {
    var text := d.buffer + a;
    assert d.buffer + (a + "\n") == text + "\n";
    LfJoinsCr(text);
    FeedLinesKeepBuffer(d.(buffer := ""), LinesOf(text), "");
  }

  /** A line feed pushed on its own with nothing buffered ends a frame. */
  lemma PushLf(d: Decoder)
    requires d.buffer == ""
    ensures Push(d, "\n") == Flush(d)
  {
    assert d.buffer + "\n" == "\n";
    LineLengthIs("\n", 0);
    assert "\n"[1..] == "";
    assert LinesOf("\n") == [""] && Rest("\n") == "";
    assert d.(buffer := "") == d;
    FeedOne(d, "");
  }

  /** With no frame under way, ending a frame early is ending none. */
  lemma IdleCut(d: Decoder, a: string, b: string)
    requires WellFormed(d) && CutsCrLf(a, b) && Idle(Push(d, a).decoder)
    ensures Push(d, Glue2(a, b)) == Push(d, a + b)
  {
    var mid, lf, rest := Push(d, a), "\n", b[1..];
    assert b == lf + rest && Glue2(lf, rest) == b;
    AppendAssociates(a, lf, rest);
    assert Glue2(a + lf, rest) == a + b;
    PushLfAfterCr(d, a);
    PushKeepsWellFormed(d, a);
    TwoPushes(d, a, b);
    TwoPushes(mid.decoder, lf, rest);
    PushLf(mid.decoder);
    TwoPushes(d, a + lf, rest);
    hide *;
    assert mid.events + [] == mid.events;
    var tail := Push(mid.decoder, rest).events;
    assert [] + tail == tail;
  }

  /** With a frame under way, the cut ends it early. */
  lemma BusyCut(d: Decoder, a: string)
    requires WellFormed(d) && a != "" && a[|a| - 1] == '\r' && !Idle(Push(d, a).decoder)
    ensures Push(d, Glue2(a, "\n")) != Push(d, a + "\n")
  {
    var mid := Push(d, a);
    PushLfAfterCr(d, a);
    PushKeepsWellFormed(d, a);
    TwoPushes(d, a, "\n");
    PushLf(mid.decoder);
  }

  lemma PushPair(d: Decoder, a: string, b: string)
    requires Unterminated(d.buffer)
    ensures PushAll(d, [a, b]) == Push(d, Glue2(a, b))
  {
    GluePair(a, b);
    ChunkingLaw(d, [a, b]);
  }

  lemma GluePair(a: string, b: string)
    ensures Glue([a, b]) == Glue2(a, b)
  {
    assert [a, b][..1] == [a] && [a][..0] == [];
    assert Glue([a]) == "" + a == a;
  }

  /** Exactly which cuts are harmless whatever follows: those not after a carriage return, and those
      where the carriage return left no frame under way. */
  lemma SafeCuts(d: Decoder, a: string)
    requires WellFormed(d)
    ensures (forall b :: PushAll(d, [a, b]) == Push(d, a + b))
       <==> (a == "" || a[|a| - 1] != '\r' || Idle(Push(d, a).decoder))
  {
    if a == "" || a[|a| - 1] != '\r' || Idle(Push(d, a).decoder) {
      forall b ensures PushAll(d, [a, b]) == Push(d, a + b) {
        PushPair(d, a, b);
        if CutsCrLf(a, b) {
          IdleCut(d, a, b);
        }
      }
    } else {
      PushPair(d, a, "\n");
      BusyCut(d, a);
    }
  }

  /** Feeding what is buffered, as a line feed does. */
  lemma PushLfCompletesLine(d: Decoder)
    requires WellFormed(d)
    ensures Push(d, "\n") == FeedLine(d.(buffer := ""), d.buffer)
    ensures Push(d, "\n").decoder.buffer == ""
  {
    var text := d.buffer + "\n";
    LineLengthIs(text, |d.buffer|);
    assert text[..|d.buffer|] == d.buffer && text[|d.buffer| + 1..] == "";
    assert TakeLine(text) == Some((d.buffer, ""));
    LinesUnfold(text, d.buffer, "");
    FeedOne(d.(buffer := ""), d.buffer);
  }

  lemma FeedOne(d: Decoder, line: string)
    ensures FeedLines(d, [line]) == FeedLine(d, line)
    ensures FeedLines(d, [line]).decoder.buffer == d.buffer
  {
    FeedLineKeepsBuffer(d, line, "");
    var fed := FeedLine(d, line);
    hide FeedLine;
    assert [line][1..] == [] && fed.events + [] == fed.events;
  }

  /** Only a blank line dispatches. */
  lemma FeedLineOfTextIsSilent(d: Decoder, line: string)
    ensures line != "" ==> FeedLine(d, line).events == []
    ensures line == "" ==> FeedLine(d, line) == Flush(d) && !FeedLine(d, line).decoder.sawData
    ensures line == "" ==> Flush(FeedLine(d, line).decoder) == Fed(FeedLine(d, line).decoder, [])
  {
  }

  /** `finish` acts as two line feeds would: an unterminated last line is completed and fed, and a
      pending frame is dispatched. */
  lemma FinishIsTwoLineFeeds(d: Decoder)
    requires WellFormed(d)
    ensures Finish(d) == Push(d, "\n\n")
  {
    var mid := Push(d, "\n");
    PushLfCompletesLine(d);
    TwoPushes(d, "\n", "\n");
    PushLf(mid.decoder);
    FeedLineOfTextIsSilent(d.(buffer := ""), d.buffer);
    assert Glue2("\n", "\n") == "\n\n";
    hide Push, Glue2, FeedLine;
    var rested := d.(buffer := "");
    assert d.buffer == "" ==> rested == d;
  }
}
