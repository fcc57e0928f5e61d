/** The decoder object of `src/sse.rs`, each method proved against its meaning in `Sse`. */
module SseObject {
  import opened Basics
  import opened Sse

  /** Splits off the first line by scanning for its terminator. */
  method ScanLine(s: string) returns (r: Option<(string, string)>)
    ensures r == TakeLine(s)
    ensures r.Some? ==> |r.value.1| < |s|
  {
    var i := 0;
    while i < |s|
      invariant 0 <= i <= |s| && Unterminated(s[..i])
    {
      var c := s[i];
      if c == '\n' || c == '\r' {
        var line := s[..i];
        var next := i + 1;
        if c == '\r' && i + 1 < |s| && s[i + 1] == '\n' {
          next := i + 2;
        }
        LineLengthIs(s, i);
        return Some((line, s[next..]));
      }
      i := i + 1;
    }
    LineLengthIs(s, i);
    return None;
  }

  /** The decoder object. */
  class SseDecoder {
    var buffer: string
    var dataLines: seq<string>
    var eventType: Option<string>
    var lastEventId: Option<string>
    var sawData: bool

    function State(): Decoder
      reads this
    {
      Decoder(buffer, dataLines, eventType, lastEventId, sawData)
    }

    constructor ()
      ensures State() == FRESH
    {
      buffer, dataLines, eventType, lastEventId, sawData := "", [], None, None, false;
    }

    method Push(chunk: string) returns (out: seq<SseEvent>)
      modifies this
      ensures Fed(State(), out) == Sse.Push(old(State()), chunk)
    {
      buffer := buffer + chunk;
      out := [];
      ghost var all := Sse.Push(old(State()), chunk);
      var taken := ScanLine(buffer);
      while taken.Some?
        invariant taken == TakeLine(buffer)
        invariant all.decoder == Drain(State()).decoder && all.events == out + Drain(State()).events
        decreases |buffer|
      {
        var (line, rest) := taken.value;
        out := FeedNext(line, rest, out);
        taken := ScanLine(buffer);
      }
    }

    /** The buffer was advanced and nothing else. */
    lemma BufferOnly(before: Decoder, rest: string)
      requires buffer == rest && dataLines == before.dataLines && eventType == before.eventType
      requires lastEventId == before.lastEventId && sawData == before.sawData
      ensures State() == before.(buffer := rest)
    {
    }

    /** One round of the push loop: the buffer is advanced past `line`, which is then fed. */
    method FeedNext(line: string, rest: string, sofar: seq<SseEvent>) returns (out: seq<SseEvent>)
      requires TakeLine(buffer) == Some((line, rest))
      modifies this
      ensures buffer == rest && |rest| < |old(buffer)|
      ensures Drain(State()).decoder == old(Drain(State()).decoder)
      ensures out + Drain(State()).events == sofar + old(Drain(State()).events)
    {
      assert |rest| < |buffer|;
      hide *;
      ghost var before := State();
      DrainUnfold(before, line, rest, sofar);
      buffer := rest;
      BufferOnly(before, rest);
      out := sofar;
      var ev := FeedLine(line);
      if ev.Some? {
        out := out + [ev.value];
      }
    }

    method Finish() returns (ev: Option<SseEvent>)
      modifies this
      ensures Fed(State(), if ev.None? then [] else [ev.value]) == Sse.Finish(old(State()))
    {
      if buffer != "" {
        var line := buffer;
        buffer := "";
        var _ := FeedLine(line);
      }
      ev := Flush();
    }

    method FeedLine(line: string) returns (ev: Option<SseEvent>)
      modifies this
      ensures Fed(State(), if ev.None? then [] else [ev.value]) == Sse.FeedLine(old(State()), line)
      ensures buffer == old(buffer)
    {
      if line == "" {
        ev := Flush();
        return;
      }
      if line[0] == ':' {
        return None;
      }
      var (field, value) := ParseField(line);
      if field == "data" {
        dataLines := dataLines + [value];
        sawData := true;
      } else if field == "event" {
        eventType := Some(value);
      } else if field == "id" {
        if '\0' !in value {
          lastEventId := Some(value);
        }
      }
      return None;
    }

    method Flush() returns (ev: Option<SseEvent>)
      modifies this
      ensures Fed(State(), if ev.None? then [] else [ev.value]) == Sse.Flush(old(State()))
      ensures buffer == old(buffer)
    {
      if !sawData {
        dataLines := [];
        eventType := None;
        return None;
      }
      ev := Some(SseEvent(eventType.GetOr("message"), Join(dataLines, '\n'), lastEventId));
      eventType := None;
      dataLines := [];
      sawData := false;
    }
  }
}
