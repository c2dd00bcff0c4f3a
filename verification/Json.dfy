/** The daemon's JSON strings: the escaper and the parser. */
module Json {
  import opened Bytes
  import opened Wrappers
  import opened Utf8

  /** What a parser finds at the front of a text, and how many bytes it takes. */
  datatype Read<T> = Got(value: T, used: nat) | Failed

  const MAX_NESTING := 256
  const QUOTE: byte := 0x22
  const BACKSLASH: byte := 0x5c

  // ----- printing strings -----

  function HexDigit(n: nat): byte
    requires n < 16
  {
    if n < 10 then 0x30 + n else 0x61 + n - 10
  }

  /** One byte, escaped. */
  function EscapeByte(c: byte): seq<byte> {
    if c == QUOTE then [BACKSLASH, QUOTE]
    else if c == BACKSLASH then [BACKSLASH, BACKSLASH]
    else if c == 0x08 then [BACKSLASH, 'b' as int]
    else if c == 0x0c then [BACKSLASH, 'f' as int]
    else if c == 0x0a then [BACKSLASH, 'n' as int]
    else if c == 0x0d then [BACKSLASH, 'r' as int]
    else if c == 0x09 then [BACKSLASH, 't' as int]
    else if c < 0x20 then [BACKSLASH, 'u' as int, 0x30, 0x30, HexDigit(c / 16), HexDigit(c % 16)]
    else [c]
  }

  function Escape(s: seq<byte>): seq<byte> {
    if s == [] then [] else Escape(s[..|s|-1]) + EscapeByte(s[|s|-1])
  }

  /** json_escape_to_buf: what it appends for a C string. */
  method EscapeToBuf(s: seq<byte>) returns (out: seq<byte>)
    ensures out == Escape(s)
  {
    out := [];
    for i := 0 to |s|
      invariant out == Escape(s[..i])
    {
      assert s[..i+1][..i] == s[..i];
      out := out + EscapeByte(s[i]);
    }
    assert s[..|s|] == s;
  }

  lemma {:induction false} EscapeFront(c: byte, s: seq<byte>)
    ensures Escape([c] + s) == EscapeByte(c) + Escape(s)
  {
    hide EscapeByte;
    if s == [] {
      assert [c] + s == [c] && [c][..0] == [];
    } else {
      var front := s[..|s|-1];
      EscapeFront(c, front);
      assert ([c] + s)[..|s|] == [c] + front;
    }
  }

  // ----- parsing strings -----

  predicate IsSpace(c: byte) {
    c == 0x20 || 0x09 <= c <= 0x0d
  }

  /** The byte at i of a C string, zero at its end. */
  function ByteAt(s: seq<byte>, i: nat): byte {
    if i < |s| then s[i] else 0
  }

  function HexValue(c: byte): (h: int)
    ensures -1 <= h < 16 && (h >= 0 ==> c != 0)
  {
    if '0' as int <= c <= '9' as int then c - 0x30
    else if 'a' as int <= c <= 'f' as int then c - 0x61 + 10
    else if 'A' as int <= c <= 'F' as int then c - 0x41 + 10
    else -1
  }

  /** json_u16: a `\uXXXX` escape at the front of r. */
  function ReadU16(r: seq<byte>): (u: Option<nat>)
    ensures u.Some? ==> u.value < 0x1_0000 && |r| >= 6
  {
    if ByteAt(r, 0) != BACKSLASH || ByteAt(r, 1) != 'u' as int then None
    else if ByteAt(r, 5) == 0 then None
    else Word(HexValue(ByteAt(r, 2)), HexValue(ByteAt(r, 3)), HexValue(ByteAt(r, 4)), HexValue(ByteAt(r, 5)))
  }

  function Word(a: int, b: int, c: int, d: int): (w: Option<nat>)
    requires a < 16 && b < 16 && c < 16 && d < 16
    ensures w.Some? ==> w.value < 0x1_0000
  {
    if a < 0 || b < 0 || c < 0 || d < 0 then None else Some(((a * 16 + b) * 16 + c) * 16 + d)
  }

  /** A codepoint written out, surrogates and values beyond Unicode replaced (utf8_put). */
  function PutChecked(cp: nat): seq<byte> {
    if cp > 0x10_ffff || 0xd800 <= cp <= 0xdfff then Put(0xfffd) else Put(cp)
  }

  /** A `\u` escape, with its low surrogate if one follows: the codepoint, and its length. */
  function ReadUnicode(r: seq<byte>): (u: Read<nat>)
    ensures u.Got? ==> 6 <= u.used <= |r|
  {
    match ReadU16(r)
    case None => Failed
    case Some(cp) =>
      if 0xd800 <= cp <= 0xdbff then
        match ReadU16(r[6..])
        case Some(lo) =>
          if 0xdc00 <= lo <= 0xdfff then Got(0x1_0000 + (cp - 0xd800) * 0x400 + (lo - 0xdc00), 12) else Got(0xfffd, 6)
        case None => Got(0xfffd, 6)
      else Got(cp, 6)
  }

  /** The byte a two-character escape stands for. */
  function Unescape(c: byte): Option<byte> {
    if c == QUOTE then Some(QUOTE)
    else if c == BACKSLASH then Some(BACKSLASH)
    else if c == '/' as int then Some('/' as int)
    else if c == 'b' as int then Some(0x08)
    else if c == 'f' as int then Some(0x0c)
    else if c == 'n' as int then Some(0x0a)
    else if c == 'r' as int then Some(0x0d)
    else if c == 't' as int then Some(0x09)
    else None
  }

  /** One step of json_string's loop on a byte that is no quote: what it appends. */
  function ReadChar(r: seq<byte>): (x: Read<seq<byte>>)
    requires r != []
    ensures x.Got? ==> 0 < x.used <= |r|
  {
    if r[0] != BACKSLASH then Got([r[0]], 1)
    else if ByteAt(r, 1) == 'u' as int then
      var u := ReadUnicode(r);
      if u.Got? then Got(PutChecked(u.value), u.used) else Failed
    else if |r| > 1 && Unescape(r[1]).Some? then Got([Unescape(r[1]).value], 2)
    else Failed
  }

  /** The text up to the closing quote, past it. */
  function ReadBody(r: seq<byte>): (x: Read<seq<byte>>)
    ensures x.Got? ==> 0 < x.used <= |r|
    decreases |r|
  {
    if ByteAt(r, 0) == 0 then Failed
    else if r[0] == QUOTE then Got([], 1)
    else
      var c := ReadChar(r);
      if c.Failed? then Failed
      else
        var rest := ReadBody(r[c.used..]);
        if rest.Failed? then Failed else Got(c.value + rest.value, c.used + rest.used)
  }

  function Spaces(r: seq<byte>): (n: nat)
    ensures n <= |r|
  {
    if r == [] || !IsSpace(r[0]) then 0 else 1 + Spaces(r[1..])
  }

  /** json_string on the front of r. */
  function ReadString(r: seq<byte>): (x: Read<seq<byte>>)
    ensures x.Got? ==> 0 < x.used <= |r|
  {
    var n := Spaces(r);
    if ByteAt(r, n) != QUOTE then Failed
    else
      var x := ReadBody(r[n+1..]);
      if x.Failed? then Failed else Got(x.value, n + 1 + x.used)
  }

  lemma Suffix(text: seq<byte>, p: nat, k: nat)
    requires p + k <= |text|
    ensures text[p..][k..] == text[p+k..]
    ensures ByteAt(text[p..], k) == ByteAt(text, p + k)
  {
  }

  /** json_ws. */
  method SkipSpaces(text: seq<byte>, p0: nat) returns (p: nat)
    requires p0 <= |text|
    ensures p == p0 + Spaces(text[p0..])
  {
    p := p0;
    while ByteAt(text, p) != 0 && IsSpace(ByteAt(text, p))
      invariant p0 <= p <= |text|
      invariant p0 + Spaces(text[p0..]) == p + Spaces(text[p..])
      decreases |text| - p
    {
      Suffix(text, p, 1);
      p := p + 1;
    }
  }

  /** The loop of json_string, up to the closing quote. */
  method JsonBody(text: seq<byte>, start: nat) returns (out: Read<seq<byte>>)
    requires start <= |text|
    ensures out == ReadBody(text[start..])
  {
    hide ReadChar;
    var p := start;
    var b: seq<byte> := [];
    PrefixedNone(ReadBody(text[p..]));
    while ByteAt(text, p) != 0 && ByteAt(text, p) != QUOTE
      invariant start <= p <= |text|
      invariant ReadBody(text[start..]) == Prefixed(b, p - start, ReadBody(text[p..]))
      decreases |text| - p
    {
      var c := ReadChar(text[p..]);
      if c.Failed? {
        return Failed;
      }
      Suffix(text, p, c.used);
      PrefixedTwice(b, p - start, c.value, c.used, ReadBody(text[p+c.used..]));
      b := b + c.value;
      p := p + c.used;
    }
    Suffix(text, p, 0);
    if ByteAt(text, p) != QUOTE {
      return Failed;
    }
    assert b + [] == b;
    out := Got(b, p + 1 - start);
  }

  /** json_string. */
  method JsonString(text: seq<byte>, p0: nat) returns (out: Read<seq<byte>>)
    requires p0 <= |text|
    ensures out == ReadString(text[p0..])
  {
    hide ReadBody;
    var p := SkipSpaces(text, p0);
    Suffix(text, p0, p - p0);
    if ByteAt(text, p) != QUOTE {
      return Failed;
    }
    Suffix(text, p0, p + 1 - p0);
    out := JsonBody(text, p + 1);
    if out.Got? {
      out := Got(out.value, p + 1 - p0 + out.used);
    }
  }

  /** What a read gives when n bytes, standing for b, have been taken before it. */
  function Prefixed(b: seq<byte>, n: nat, x: Read<seq<byte>>): Read<seq<byte>> {
    if x.Failed? then Failed else Got(b + x.value, n + x.used)
  }

  lemma PrefixedNone(x: Read<seq<byte>>)
    ensures Prefixed([], 0, x) == x
  {
    if x.Got? {
      assert [] + x.value == x.value;
    }
  }

  lemma PrefixedTwice(b: seq<byte>, n: nat, c: seq<byte>, k: nat, x: Read<seq<byte>>)
    ensures Prefixed(b, n, Prefixed(c, k, x)) == Prefixed(b + c, n + k, x)
  {
    if x.Got? {
      assert b + (c + x.value) == b + c + x.value;
    }
  }

  // ----- round trip -----

  lemma CharRoundTrip(c: byte, rest: seq<byte>)
    requires c != 0
    ensures ReadChar(EscapeByte(c) + rest) == Got([c], |EscapeByte(c)|)
    ensures ByteAt(EscapeByte(c) + rest, 0) != 0 && (EscapeByte(c) + rest)[0] != QUOTE
  {
    var r := EscapeByte(c) + rest;
    if c < 0x20 && c != 0x08 && c != 0x0c && c != 0x0a && c != 0x0d && c != 0x09 {
      assert r[..6] == EscapeByte(c);
      assert HexValue(r[4]) == c / 16 && HexValue(r[5]) == c % 16;
      assert ReadU16(r) == Some(c);
    } else if |EscapeByte(c)| == 2 {
      assert r[1] == EscapeByte(c)[1];
    }
  }

  /** The parser undoes the escaper, and stops right behind the closing quote. */
  lemma {:induction false} BodyRoundTrip(s: seq<byte>, rest: seq<byte>)
    requires 0 !in s
    ensures ReadBody(Escape(s) + [QUOTE] + rest) == Got(s, |Escape(s)| + 1)
  {
    if s == [] {
      assert Escape(s) + [QUOTE] + rest == [QUOTE] + rest;
    } else {
      hide EscapeByte, ReadChar, Escape;
      var tail := s[1..];
      assert s == [s[0]] + tail;
      EscapeFront(s[0], tail);
      var r := Escape(tail) + [QUOTE] + rest;
      assert Escape(s) + [QUOTE] + rest == EscapeByte(s[0]) + r;
      CharRoundTrip(s[0], r);
      BodyRoundTrip(tail, rest);
      assert (EscapeByte(s[0]) + r)[|EscapeByte(s[0])|..] == r;
    }
  }

  /** A string printed between quotes is read back whole, and nothing behind it is touched. */
  lemma StringRoundTrip(s: seq<byte>, rest: seq<byte>)
    requires 0 !in s
    ensures ReadString(Quoted(s) + rest) == Got(s, |Quoted(s)|)
  {
    var r := Quoted(s) + rest;
    assert r == [QUOTE] + (Escape(s) + [QUOTE] + rest);
    assert r[1..] == Escape(s) + [QUOTE] + rest;
    BodyRoundTrip(s, rest);
  }

  function Quoted(s: seq<byte>): seq<byte> {
    [QUOTE] + Escape(s) + [QUOTE]
  }
}
