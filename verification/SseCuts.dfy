/**
 Any number of cuts at once: each of them that parts a two-character terminator inserts a blank line, and
 the stream is decoded as if uncut if and only if each in turn goes unnoticed.
 */
module SseCuts {
  import opened Basics
  import opened Sse
  import opened SseChunking
  import opened SseBlocks

  /** Every cut inside a two-character terminator, in turn, ends a frame that could as well have ended there:
      with the fields as the cuts before it have left them, and the lines that are still to come. */
  predicate CutsUnnoticed(d: Decoder, chunks: seq<string>)
    decreases |chunks|
  {
    chunks == [] ||
    var next, text := Push(d, chunks[0]).decoder, Concat(chunks[1..]);
    && (CutsCrLf(chunks[0], text) ==> EndsUnnoticed(next, LinesOf(text[1..])))
    && CutsUnnoticed(next, chunks[1..])
  }

  // ---- inserted blank lines ----

  /** `more` is `lines` with blank lines put in. */
  predicate Inserted(lines: seq<string>, more: seq<string>)
    decreases |more|
  {
    if more == [] then lines == []
    else
      || (lines != [] && lines[0] == more[0] && Inserted(lines[1..], more[1..]))
      || (more[0] == "" && Inserted(lines, more[1..]))
  }

  lemma {:induction false} SameInserted(lines: seq<string>)
    ensures Inserted(lines, lines)
  {
    if lines == [] {
    } else {
      SameInserted(lines[1..]);
    }
  }

  lemma {:induction false} InsertedAppend(a: seq<string>, b: seq<string>, c: seq<string>, d: seq<string>)
    requires Inserted(a, b) && Inserted(c, d)
    ensures Inserted(a + c, b + d)
    decreases |b|
  {
    if b == [] {
      assert a + c == c && b + d == d;
    } else {
      assert (b + d)[1..] == b[1..] + d;
      if a != [] && a[0] == b[0] && Inserted(a[1..], b[1..]) {
        assert (a + c)[1..] == a[1..] + c;
        InsertedAppend(a[1..], b[1..], c, d);
      } else {
        InsertedAppend(a, b[1..], c, d);
      }
    }
  }

  /** A blank line that was there counts as put in if it is left out before. */
  lemma {:induction false} BlankLeftOut(lines: seq<string>, more: seq<string>)
    requires Inserted([""] + lines, more)
    ensures more != [] && more[0] == "" && Inserted(lines, more[1..])
    decreases |more|
  {
    var all := [""] + lines;
    assert all[0] == "" && all[1..] == lines;
    if !Inserted(lines, more[1..]) {
      BlankLeftOut(lines, more[1..]);
    }
  }

  /** The first blank line of `block + [""] + others`, in the list with more of them. */
  lemma {:induction false} SplitInserted(block: seq<string>, others: seq<string>, more: seq<string>) returns (m: nat)
    requires "" !in block && Inserted(block + [""] + others, more)
    ensures m < |more| && more[m] == "" && Inserted(block, more[..m]) && Inserted(others, more[m + 1..])
    decreases |more|
  {
    var all := block + [""] + others;
    if all[0] == more[0] && Inserted(all[1..], more[1..]) {
      if block == [] {
        m := 0;
        assert all[1..] == others;
      } else {
        assert all[1..] == block[1..] + [""] + others;
        m := SplitInserted(block[1..], others, more[1..]);
        m := m + 1;
        assert more[..m][1..] == more[1..][..m - 1];
      }
    } else {
      m := SplitInserted(block, others, more[1..]);
      m := m + 1;
      assert more[..m][1..] == more[1..][..m - 1];
    }
  }

  // ---- what they do ----

  lemma FeedFirst(d: Decoder, line: string, lines: seq<string>)
    ensures var first := FeedLine(d, line);
            var later := FeedLines(first.decoder, lines);
            FeedLines(d, [line] + lines) == Fed(later.decoder, first.events + later.events)
  {
    assert ([line] + lines)[0] == line && ([line] + lines)[1..] == lines;
  }

  /** A line that is not blank dispatches nothing, and only a data line starts a frame's data. */
  lemma FeedNotBlank(d: Decoder, line: string)
    requires line != ""
    ensures var r := FeedLine(d, line);
            && r.events == [] && r.decoder.sawData == (d.sawData || IsData(line))
            && r.decoder.eventType == (if IsEvent(line) then Some(ParseField(line).1) else d.eventType)
            && r.decoder.lastEventId == (if IsId(line) then Some(ParseField(line).1) else d.lastEventId)
  {
    FeedOneOfBlock(d, line);
    OneLine(line, d.eventType, d.lastEventId);
    hide DataOf, TypeAfter, IdAfter, FeedLine;
  }

  /** Blank lines never make frames fewer. `due` counts a frame that was dispatched before. */
  lemma {:induction false} NoFewerFrames(c: Decoder, d: Decoder, lines: seq<string>, more: seq<string>, due: nat)
    requires Inserted(lines, more) && (d.sawData && !c.sawData ==> due > 0)
    ensures |FeedLines(c, more).events| + due >= |FeedLines(d, lines).events|
    decreases |more|
  {
    if more == [] {
    } else {
      FeedFirst(c, more[0], more[1..]);
      assert more == [more[0]] + more[1..];
      if lines != [] && lines[0] == more[0] && Inserted(lines[1..], more[1..]) {
        FeedFirst(d, lines[0], lines[1..]);
        assert lines == [lines[0]] + lines[1..];
        if lines[0] == "" {
          hide FeedLines, Inserted, Join;
          NoFewerFrames(Flush(c).decoder, Flush(d).decoder, lines[1..], more[1..], 0);
        } else {
          FeedNotBlank(c, lines[0]);
          FeedNotBlank(d, lines[0]);
          hide FeedLines, Inserted, FeedLine;
          NoFewerFrames(FeedLine(c, more[0]).decoder, FeedLine(d, lines[0]).decoder, lines[1..], more[1..], due);
        }
      } else {
        hide FeedLines, Inserted, Join;
        NoFewerFrames(Flush(c).decoder, d, lines, more[1..], if c.sawData then due + 1 else due);
      }
    }
  }

  /** What is dispatched early has the default type unless a type was set. */
  predicate AllDefault(events: seq<SseEvent>) {
    forall ev :: ev in events ==> ev.event == "message"
  }

  lemma HasEventFirst(line: string, lines: seq<string>)
    ensures HasEvent([line] + lines) <==> IsEvent(line) || HasEvent(lines)
  {
    assert ([line] + lines)[0] == line && ([line] + lines)[1..] == lines;
    TypeAfterIs(lines, Some(ParseField(line).1));
  }

  lemma IdAndDataFirst(line: string, lines: seq<string>, id: Option<string>)
    ensures DataOf([line] + lines) == [] <==> !IsData(line) && DataOf(lines) == []
    ensures IdAfter([line] + lines, id) == IdAfter(lines, if IsId(line) then Some(ParseField(line).1) else id)
  {
    assert ([line] + lines)[0] == line && ([line] + lines)[1..] == lines;
  }

  /** A block with blank lines put in: the id is that of the block, some data makes some frame, and without an
      event line every frame has the default type. */
  ghost predicate CutBlock(d: Decoder, block: seq<string>, r: Fed) {
    && r.decoder.lastEventId == IdAfter(block, d.lastEventId) && r.decoder.buffer == d.buffer
    && (d.sawData || DataOf(block) != [] <==> r.events != [] || r.decoder.sawData)
    && (d.eventType.None? && !HasEvent(block) ==> r.decoder.eventType.None? && AllDefault(r.events))
  }

  lemma {:induction false} FeedCutBlock(d: Decoder, block: seq<string>, more: seq<string>)
    requires "" !in block && Inserted(block, more)
    ensures CutBlock(d, block, FeedLines(d, more))
    decreases |more|
  {
    if more == [] {
    } else {
      FeedFirst(d, more[0], more[1..]);
      assert more == [more[0]] + more[1..];
      FeedLineKeepsBuffer(d, more[0], "");
      if more[0] == "" {
        FeedCutBlock(Flush(d).decoder, block, more[1..]);
        hide FeedLines, Inserted, Join, DataOf, IdAfter, TypeAfter;
      } else {
        assert block == [block[0]] + block[1..];
        HasEventFirst(block[0], block[1..]);
        IdAndDataFirst(block[0], block[1..], d.lastEventId);
        FeedNotBlank(d, block[0]);
        FeedCutBlock(FeedLine(d, block[0]).decoder, block[1..], more[1..]);
        hide FeedLines, Inserted, FeedLine, DataOf, IdAfter, TypeAfter;
      }
    }
  }

  // ---- more cuts repair nothing ----

  lemma OpenBlockNotRepaired(d: Decoder, lines: seq<string>, more: seq<string>)
    requires (d.sawData <==> d.dataLines != []) && "" !in lines && Inserted(lines, more)
    requires FeedAfterEnd(d, more) == FeedLines(d, lines)
    ensures FeedAfterEnd(d, lines) == FeedLines(d, lines)
  {
    FeedBlock(d, lines);
    FeedCutBlock(Flush(d).decoder, lines, more);
    EndInOpenBlock(d, lines);
    TypeAfterIs(lines, d.eventType);
    hide FeedLines, DataOf, TypeAfter, IdAfter, Join;
  }

  /** The frames a cut block makes, against the one it makes uncut. */
  lemma SameAsCut(d: Decoder, block: seq<string>, r: Fed)
    requires d.sawData <==> d.dataLines != []
    requires CutBlock(Flush(d).decoder, block, r)
    requires Flush(AfterBlock(d, block)).events == Flush(d).events + (r.events + Flush(r.decoder).events)
    ensures SameDispatch(d, block)
  {
    var cut := r.events + Flush(r.decoder).events;
    assert Flush(d).events == [] ==> [] + cut == cut;
    TypeAfterIs(block, d.eventType);
    if d.sawData {
      DispatchWithData(d, block);
      assert |cut| == 0;
      hide DataOf, TypeAfter, IdAfter, Join;
      assert Flush(AfterBlock(d, block)).events[0] == Flush(d).events[0];
    } else {
      DispatchWithoutData(d, block);
      if DataOf(block) != [] && !HasEvent(block) {
        hide DataOf, TypeAfter, IdAfter, Join;
        assert |cut| == 1 && cut[0].event == "message";
      }
    }
  }

  lemma ClosedBlockNotRepaired(d: Decoder, block: seq<string>, others: seq<string>, more: seq<string>)
    requires (d.sawData <==> d.dataLines != []) && "" !in block && Inserted(block + [""] + others, more)
    requires FeedAfterEnd(d, more) == FeedLines(d, block + [""] + others)
    ensures SameDispatch(d, block)
  {
    var m := SplitInserted(block, others, more);
    var early, late := more[..m], more[m + 1..];
    assert more == early + ([""] + late);
    var idle := Flush(d);
    var r := FeedLines(idle.decoder, early);
    FeedLinesAppend(idle.decoder, early, [""] + late);
    FeedFirst(r.decoder, "", late);
    FeedCutBlock(idle.decoder, block, early);
    FeedEndedBlock(d, block, others);
    var ended, one := Flush(r.decoder), Flush(AfterBlock(d, block));
    assert ended.decoder == one.decoder;
    assert |one.events| <= |idle.events + (r.events + ended.events)|;
    hide FeedLines, Inserted, Flush, AfterBlock, CutBlock, DataOf, IdAfter, TypeAfter;
    var tail, rest := FeedLines(ended.decoder, late).events, FeedLines(one.decoder, others).events;
    NoFewerFrames(ended.decoder, one.decoder, others, late, 0);
    AppendAssociates(r.events, ended.events, tail);
    AppendAssociates(idle.events, r.events + ended.events, tail);
    SameSplit(idle.events + (r.events + ended.events), tail, one.events, rest);
    SameAsCut(d, block, r);
  }

  lemma SameSplit<T>(a: seq<T>, b: seq<T>, c: seq<T>, d: seq<T>)
    requires a + b == c + d && |c| <= |a| && |d| <= |b|
    ensures a == c
  {
    assert |a + b| == |c + d|;
    assert a == (a + b)[..|a|] && c == (c + d)[..|c|];
  }

  /** If ending the frame is noticed, it still is with more blank lines put in after it. */
  lemma {:induction false} NotRepaired(d: Decoder, lines: seq<string>, more: seq<string>)
    requires (d.sawData <==> d.dataLines != []) && Inserted(lines, more)
    requires FeedAfterEnd(d, more) == FeedLines(d, lines)
    ensures FeedAfterEnd(d, lines) == FeedLines(d, lines)
  {
    var k := IndexOf(lines, "");
    if k == |lines| {
      assert lines[..k] == lines;
      OpenBlockNotRepaired(d, lines, more);
    } else {
      AtFirstBlank(lines);
      hide *;
      ClosedBlockNotRepaired(d, lines[..k], lines[k + 1..], more);
      EndInClosedBlock(d, lines[..k], lines[k + 1..]);
    }
  }

  // ---- the lines of glued chunks ----

  lemma {:induction false} GlueInserts(chunks: seq<string>)
    ensures Inserted(LinesOf(Concat(chunks)), LinesOf(Glue(chunks))) && Rest(Glue(chunks)) == Rest(Concat(chunks))
  {
    if chunks == [] {
    } else {
      var before, last := chunks[..|chunks| - 1], chunks[|chunks| - 1];
      GlueInserts(before);
      LinesOfGlue(Glue(before), last);
      LinesOfJoin(Concat(before), last);
      var tail := LinesOf(Rest(Concat(before)) + last);
      SameInserted(tail);
      hide LinesOf, Rest, Inserted, Glue2;
      if CutsCrLf(Concat(before), last) {
        InsertedAppend(LinesOf(Concat(before)), LinesOf(Glue(before)), tail[1..], tail);
      } else {
        InsertedAppend(LinesOf(Concat(before)), LinesOf(Glue(before)), tail, tail);
      }
    }
  }

  /** The lines of two texts joined: where the join makes a two-character terminator, a blank line fewer than
      if they are read apart. */
  lemma LinesOfJoin(a: string, b: string)
    ensures var apart := LinesOf(Rest(a) + b);
            && Rest(a + b) == Rest(Rest(a) + b)
            && (!CutsCrLf(a, b) ==> LinesOf(a + b) == LinesOf(a) + apart)
            && (CutsCrLf(a, b) ==>
                  && apart != [] && LinesOf(a + b) == LinesOf(a) + apart[1..]
                  && apart[0] == "" && Inserted(apart[1..], apart))
  {
    hide LinesOf, Rest, TakeLine, Inserted;
    LinesOfGlue(a, b);
    if CutsCrLf(a, b) {
      var rest := b[1..];
      assert b == "\n" + rest && "" + b == b && "" + rest == rest;
      AppendAssociates(a, "\n", rest);
      LfJoinsCr(a);
      LinesOfGlue(a + "\n", rest);
      CrBeforeLf(b);
      LinesUnfold(b, "", rest);
      BlankPutIn(LinesOf(rest));
    }
  }

  lemma BlankPutIn(lines: seq<string>)
    ensures ([""] + lines)[1..] == lines && Inserted(lines, [""] + lines)
  {
    SameInserted(lines);
  }

  // ---- the theorem ----

  /** A cut that parts a terminator, with all the others after it. */
  lemma PartedCut(d: Decoder, rest: string, more: seq<string>)
    requires WellFormed(d) && d.buffer == "" && Concat(more) == "\n" + rest
    ensures PushAll(d, more) == Push(d, rest)
       <==> EndsUnnoticed(d, LinesOf(rest)) && PushAll(d, more) == Push(d, Concat(more))
  {
    var lines, parted, b := LinesOf(rest), LinesOf(Glue(more)), Concat(more);
    var m := d.(buffer := Rest(rest));
    ChunkingLaw(d, more);
    GlueInserts(more);
    assert "" + b == b && b[1..] == rest;
    LineLengthIs(b, 0);
    LinesUnfold(b, "", rest);
    PushOnEmptyBuffer(d, rest);
    PushOnEmptyBuffer(d, b);
    PushOnEmptyBuffer(d, Glue(more));
    assert EndsUnnoticed(m, lines) == EndsUnnoticed(d, lines);
    hide Push, PushAll, LinesOf, Rest, Inserted, EndsUnnoticed, Glue, Concat;
    BlankLeftOut(lines, parted);
    FeedFirst(m, "", lines);
    FeedFirst(m, "", parted[1..]);
    assert parted == [""] + parted[1..];
    EndIffUnnoticed(m, lines);
    if FeedAfterEnd(m, parted[1..]) == FeedLines(m, lines) {
      NotRepaired(m, lines, parted[1..]);
    }
  }

  lemma SameRest(out: seq<SseEvent>, a: Fed, b: Fed)
    ensures Fed(a.decoder, out + a.events) == Fed(b.decoder, out + b.events) <==> a == b
  {
    SameFront(out, a.events, b.events);
  }

  /** However often a stream is cut: frames and fields are those of the uncut stream if and only if every cut
      inside a two-character terminator in turn goes unnoticed. No later cut makes up for an earlier one. */
  lemma {:induction false} CutsAreHarmlessIff(d: Decoder, chunks: seq<string>)
    requires WellFormed(d)
    ensures PushAll(d, chunks) == Push(d, Concat(chunks)) <==> CutsUnnoticed(d, chunks)
    decreases |chunks|
  {
    if chunks == [] {
      PushOfNothing(d);
    } else {
      var a, more := chunks[0], chunks[1..];
      var first, b := Push(d, a), Concat(more);
      assert chunks == [a] + more;
      ConcatFront(a, more);
      PushAllFirst(d, a, more);
      PushKeepsWellFormed(d, a);
      CutsAreHarmlessIff(first.decoder, more);
      hide Push, PushAll, Concat, LinesOf, EndsUnnoticed;
      SameRest(first.events, PushAll(first.decoder, more), Push(first.decoder, b));
      if CutsCrLf(a, b) {
        var rest := b[1..];
        assert b == "\n" + rest;
        BothWays(d, a, rest);
        PartedCut(first.decoder, rest, more);
        SameRest(first.events, PushAll(first.decoder, more), Push(first.decoder, rest));
      } else {
        TwoPushes(d, a, b);
      }
    }
  }
}
