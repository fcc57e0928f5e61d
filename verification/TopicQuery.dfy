/**
 How lists of topics and single names are written into a request path by `src/lib.rs`, and why they can
 be read back. Strings are taken as the bytes of their encoding.
 */
module TopicQuery {
  import opened Basics

  newtype byte = x: int | 0 <= x < 256

  type Bytes = seq<byte>

  const COMMA: byte := 44

  /** Section 2.3 of RFC 3986: letters, digits, hyphen, period, underscore and tilde. */
  predicate Unreserved(b: byte) {
    65 <= b <= 90 || 97 <= b <= 122 || 48 <= b <= 57 || b == 45 || b == 46 || b == 95 || b == 126
  }

  /** Written as it is; commas are in lists of topics. */
  predicate Kept(b: byte, commas: bool) {
    Unreserved(b) || (commas && b == COMMA)
  }

  function HexDigit(n: int): char
    requires 0 <= n < 16
  {
    "0123456789ABCDEF"[n]
  }

  /** One byte as it is written. */
  function Written(b: byte, commas: bool): string {
    if Kept(b, commas) then [b as int as char] else ['%', HexDigit(b as int / 16), HexDigit(b as int % 16)]
  }

  function Encode(s: Bytes, commas: bool): string {
    if s == [] then "" else Written(s[0], commas) + Encode(s[1..], commas)
  }

  method EncodeBytes(s: Bytes, commas: bool) returns (out: string)
    ensures out == Encode(s, commas)
  {
    out := "";
    for i := 0 to |s|
      invariant out + Encode(s[i..], commas) == Encode(s, commas)
    {
      var b := s[i];
      assert s[i..][1..] == s[i + 1..];
      AppendAssociates(out, Written(b, commas), Encode(s[i + 1..], commas));
      if Kept(b, commas) {
        out := out + [b as int as char];
      } else {
        out := out + ['%', HexDigit(b as int / 16), HexDigit(b as int % 16)];
      }
    }
  }

  /** A query value. */
  method UrlEncode(s: Bytes) returns (out: string)
    ensures out == Encode(s, true)
  {
    out := EncodeBytes(s, true);
  }

  /** One path segment. */
  method EncodePathSegment(s: Bytes) returns (out: string)
    ensures out == Encode(s, false)
  {
    out := EncodeBytes(s, false);
  }

  // ---- reading ----

  function HexValue(c: char): Option<int> {
    if '0' <= c <= '9' then Some(c as int - '0' as int)
    else if 'A' <= c <= 'F' then Some(c as int - 'A' as int + 10)
    else if 'a' <= c <= 'f' then Some(c as int - 'a' as int + 10)
    else None
  }

  /** Percent-decoding, section 2.1 of RFC 3986. */
  function Decode(t: string): Option<Bytes>
    decreases |t|
  {
    if t == "" then Some([])
    else if t[0] == '%' then
      if |t| < 3 || HexValue(t[1]).None? || HexValue(t[2]).None? then None
      else
        (match Decode(t[3..])
         case None => None
         case Some(rest) =>
           var n := HexValue(t[1]).value * 16 + HexValue(t[2]).value;
           if 0 <= n < 256 then Some([n as byte] + rest) else None)
    else if t[0] as int >= 256 then None
    else
      match Decode(t[1..])
      case None => None
      case Some(rest) => Some([t[0] as int as byte] + rest)
  }

  lemma HexRoundTrip(n: int)
    requires 0 <= n < 16
    ensures HexValue(HexDigit(n)) == Some(n)
  {
  }

  lemma DecodeWritten(b: byte, commas: bool, rest: string)
    ensures Decode(Written(b, commas) + rest) == match Decode(rest) case None => None case Some(d) => Some([b] + d)
  {
    var t := Written(b, commas) + rest;
    if Kept(b, commas) {
      assert t[1..] == rest;
    } else {
      HexRoundTrip(b as int / 16);
      HexRoundTrip(b as int % 16);
      assert t[3..] == rest;
    }
  }

  /** Whatever was written can be read back. */
  lemma {:induction false} DecodeOfEncode(s: Bytes, commas: bool)
    ensures Decode(Encode(s, commas)) == Some(s)
  {
    if s == [] {
    } else {
      DecodeOfEncode(s[1..], commas);
      DecodeWritten(s[0], commas, Encode(s[1..], commas));
      assert s == [s[0]] + s[1..];
    }
  }

  // ---- the characters written ----

  predicate UpperHex(c: char) {
    '0' <= c <= '9' || 'A' <= c <= 'F'
  }

  /** The text is a sequence of unreserved characters, commas if allowed, and `%XX` triples. */
  predicate Clean(t: string, commas: bool)
    decreases |t|
  {
    t == ""
    || (t[0] == '%' && |t| >= 3 && UpperHex(t[1]) && UpperHex(t[2]) && Clean(t[3..], commas))
    || (t[0] as int < 256 && Kept(t[0] as int as byte, commas) && Clean(t[1..], commas))
  }

  lemma {:induction false} EncodeIsClean(s: Bytes, commas: bool)
    ensures Clean(Encode(s, commas), commas)
  {
    if s == [] {
    } else {
      EncodeIsClean(s[1..], commas);
      var t := Encode(s, commas);
      if Kept(s[0], commas) {
        assert t[1..] == Encode(s[1..], commas);
      } else {
        assert t[3..] == Encode(s[1..], commas);
      }
    }
  }

  lemma {:induction false} CleanHasNo(t: string, commas: bool, c: char)
    requires Clean(t, commas) && c != '%' && !UpperHex(c)
    requires c as int < 256 ==> !Kept(c as int as byte, commas)
    ensures c !in t
    decreases |t|
  {
    if t == "" {
    } else {
      if t[0] == '%' && |t| >= 3 && UpperHex(t[1]) && UpperHex(t[2]) && Clean(t[3..], commas) {
        CleanHasNo(t[3..], commas, c);
        assert t == [t[0], t[1], t[2]] + t[3..];
      } else {
        CleanHasNo(t[1..], commas, c);
        assert t == [t[0]] + t[1..];
      }
    }
  }

  /** Letters, digits and `-._~` stand for themselves. */
  predicate Plain(c: char) {
    || 'A' <= c <= 'Z' || 'a' <= c <= 'z' || '0' <= c <= '9'
    || c == '-' || c == '.' || c == '_' || c == '~'
  }

  /** Exactly those are written as they are, and commas in lists of topics; every other byte is written as a percent
      sign and two digits, which are its value in hexadecimal. */
  lemma WrittenAs(b: byte, commas: bool)
    ensures var c := b as int as char;
            if Plain(c) || (commas && c == ',') then Encode([b], commas) == [c]
            else
              exists hi, lo ::
                0 <= hi < 16 && 0 <= lo < 16 && b as int == 16 * hi + lo
                && Encode([b], commas) == ['%', "0123456789ABCDEF"[hi], "0123456789ABCDEF"[lo]]
  {
    assert Encode([b], commas) == Written(b, commas) + Encode([], commas);
    var hi, lo := b as int / 16, b as int % 16;
    assert b as int == 16 * hi + lo;
    hide Encode;
  }

  /** What is written is made of these characters alone. */
  lemma {:induction false} OnlyPlain(s: Bytes, commas: bool)
    ensures forall c :: c in Encode(s, commas) ==> Plain(c) || c == '%' || (commas && c == ',')
  {
    if s == [] {
    } else {
      OnlyPlain(s[1..], commas);
      assert Encode(s, commas) == Written(s[0], commas) + Encode(s[1..], commas);
      hide Encode;
    }
  }

  /** A name stays one path segment, whatever characters are in it. */
  lemma SegmentIsWhole(s: Bytes)
    ensures var t := Encode(s, false); '/' !in t && '?' !in t && '#' !in t && ',' !in t
  {
    EncodeIsClean(s, false);
    var t := Encode(s, false);
    CleanHasNo(t, false, '/');
    CleanHasNo(t, false, '?');
    CleanHasNo(t, false, '#');
    CleanHasNo(t, false, ',');
  }

  // ---- lists of topics ----

  /** The list as one query value. */
  function TopicList(topics: seq<Bytes>): string {
    Encode(Join(topics, COMMA), true)
  }

  /** What the node reads from it: the value decoded and cut at its commas. */
  function ReadTopics(value: string): Option<seq<Bytes>> {
    match Decode(value)
    case None => None
    case Some(s) => Some(Split(s, COMMA))
  }

  /** The node reads back exactly the list that was written if and only if no topic has a comma in it. */
  lemma TopicsRecovered(topics: seq<Bytes>)
    requires topics != []
    ensures ReadTopics(TopicList(topics)) == Some(topics) <==> forall t :: t in topics ==> COMMA !in t
  {
    DecodeOfEncode(Join(topics, COMMA), true);
    if forall t :: t in topics ==> COMMA !in t {
      SplitOfJoin(topics, COMMA);
    }
  }

  /** The path of a stream limited to some topics; an empty list asks for everything. */
  function StreamPath(topics: seq<Bytes>): string {
    if topics == [] then "/mesh/messages/stream" else "/mesh/messages/stream?topics=" + TopicList(topics)
  }

  /** A reader of queries, who cuts at ampersands and then at equals signs, finds the one parameter `topics` with the
      whole list as its value. */
  lemma QueryIsOne(topics: seq<Bytes>)
    requires topics != []
    ensures var query := "topics=" + TopicList(topics);
            && StreamPath(topics) == "/mesh/messages/stream?" + query
            && Split(query, '&') == [query] && Split(query, '=') == ["topics", TopicList(topics)]
  {
    var value := TopicList(topics);
    OnlyPlain(Join(topics, COMMA), true);
    var query := "topics=" + value;
    NoCut(query, '&');
    NoCut(value, '=');
    CutOnce("topics", '=', value);
    assert "topics" + "=" == "topics=";
    hide Encode, Split;
  }

  lemma NoCut(s: string, c: char)
    requires c !in s
    ensures Split(s, c) == [s]
  {
    IndexOfIs(s, c, |s|);
  }

  lemma CutOnce(a: string, c: char, b: string)
    requires c !in a && c !in b
    ensures Split(a + [c] + b, c) == [a, b]
  {
    var s := a + [c] + b;
    IndexOfIs(s, c, |a|);
    assert s[..|a|] == a && s[|a| + 1..] == b;
    NoCut(b, c);
  }

  /** Different lists of comma-free topics, the empty list and the list of one empty topic included, give
      different paths. */
  lemma StreamPathIsInjective(a: seq<Bytes>, b: seq<Bytes>)
    requires forall t :: t in a || t in b ==> COMMA !in t
    requires StreamPath(a) == StreamPath(b)
    ensures a == b
  {
    var start := "/mesh/messages/stream?topics=";
    if a != [] && b != [] {
      assert TopicList(a) == StreamPath(a)[|start|..] && TopicList(b) == StreamPath(b)[|start|..];
      TopicsRecovered(a);
      TopicsRecovered(b);
    }
  }
}
