/** The 32-bit varint decoder: what it accepts of the encodings of 64-bit values. */
module Varints32 {
  import opened Bytes
  import opened Ints
  import opened Varints

  const TWO35: nat := 0x8_0000_0000

  datatype Read = Got(value: nat, used: nat) | Failed(error: Error)

  /** Bytes past the 32nd bit may only extend the number: zero groups, or, when bit 31 is set,
      the bytes of a sign extension. */
  predicate Extends(b: byte, n: nat, result: nat) {
    b % 128 == 0 || (result >= TWO31 && b == if 7 * n < 63 then 0xff else 0x01)
  }

  /** The masks 0x70 and 0x78 of the fifth byte: its high bits are all clear or all set. */
  predicate FifthFits(b: byte) {
    b / 16 % 8 == 0 || b / 8 % 16 == 15
  }

  /** pb_decode_varint32_eof from its (n+1)-th byte on. */
  function ReadFrom(s: seq<byte>, n: nat, result: nat): Read
    decreases |s| - n
  {
    if n >= |s| then Failed(EndOfStream)
    else
      var b: byte := s[n];
      if n >= 5 && (n >= 10 || !Extends(b, n, result)) then Failed(Overflow)
      else if n == 4 && !FifthFits(b) then Failed(Overflow)
      else
        var result' := if n >= 5 then result else if n == 4 then result + b % 16 * 0x1000_0000
                       else result + b % 128 * Pow128(n);
        if b >= 128 then ReadFrom(s, n + 1, result') else Got(result', n + 1)
  }

  /** pb_decode_varint32: the first byte is its own quick case. */
  method DecodeVarint32(stream: IStream) returns (r: Result<nat>)
    requires stream.Valid()
    modifies stream
    ensures stream.Valid()
    ensures var read := ReadFrom(old(stream.Rest()), 0, 0);
            if read.Got? then r == Ok(read.value) && stream.pos == old(stream.pos) + read.used else r == Err(read.error)
  {
    ghost var s := stream.Rest();
    var b := stream.ReadByte();
    if b.Err? {
      return Err(b.error);
    }
    if b.value < 128 {
      assert s[0] % 128 * Pow128(0) == s[0];
      return Ok(b.value);
    }
    var n: nat, weight: nat := 1, 128;
    var result: nat := b.value % 128;
    assert s[0] % 128 * Pow128(0) == s[0] % 128 && Pow128(1) == 128;
    var going := true;
    while going
      invariant stream.Valid() && n == stream.pos - old(stream.pos) <= |s| && stream.Rest() == s[n..]
      invariant n <= 4 ==> weight == Pow128(n)
      invariant going ==> ReadFrom(s, 0, 0) == ReadFrom(s, n, result)
      invariant !going ==> ReadFrom(s, 0, 0) == Got(result, n)
      decreases |s| - n, going
    {
      b := stream.ReadByte();
      if b.Err? {
        return Err(b.error);
      }
      if n >= 5 {
        if n >= 10 || !Extends(b.value, n, result) {
          return Err(Overflow);
        }
      } else if n == 4 {
        if !FifthFits(b.value) {
          return Err(Overflow);
        }
        result := result + b.value % 16 * 0x1000_0000;
      } else {
        result := result + b.value % 128 * weight;
        weight := weight * 128;
      }
      n := n + 1;
      going := b.value >= 128;
    }
    r := Ok(result);
  }

  // ----- on encodings -----

  /** Group i of w. */
  function Group(w: nat, i: nat): (g: nat)
    ensures g < 128
  {
    w / Pow128(i) % 128
  }

  /** The encodings the decoder accepts: of all 32-bit values; of values whose fifth byte is the
      last and sets bits 31 to 34; and of values with bits 31 and 63 set in which each group
      between is all clear or all set. */
  predicate Fits32(w: nat) {
    || w < TWO32
    || TWO35 - TWO31 <= w < TWO35
    || (w >= TWO63 && w / TWO31 % 2 == 1 && (w / TWO32 % 8 == 0 || w / TWO32 % 8 == 7)
        && forall i :: 5 <= i < 9 ==> Group(w, i) == 0 || Group(w, i) == 127)
  }

  /** Byte n of an encoding with more behind it. */
  lemma ByteOfEncoding(w: nat, rest: seq<byte>, n: nat)
    requires n < |Varint(w)|
    ensures var b := (Varint(w) + rest)[n];
            b % 128 == Group(w, n) && (b >= 128 <==> n < |Varint(w)| - 1)
    ensures n == |Varint(w)| - 1 && n > 0 ==> Group(w, n) > 0
  {
    DigitAt(w, n);
    LastGroup(w);
  }

  /** The last group of an encoding is not zero. */
  lemma {:induction false} LastGroup(w: nat)
    ensures w > 0 ==> Varint(w)[|Varint(w)|-1] > 0
  {
    if w >= 128 {
      LastGroup(w / 128);
    }
  }

  /** Sizes of encodings. */
  lemma {:induction false} LengthIs(w: nat, k: nat)
    requires k > 0
    ensures |Varint(w)| > k <==> w >= Pow128(k)
    decreases k
  {
    if w < 128 {
      PowMono(1, k);
    } else if k > 1 {
      LengthIs(w / 128, k - 1);
      DivDivBound(w, Pow128(k - 1));
    }
  }

  lemma DivDivBound(w: nat, p: nat)
    ensures w >= 128 * p <==> w / 128 >= p
  {
  }

  /** The extension bytes: all must be zero groups or sign bytes, which only a tenth byte can end. */
  lemma {:induction false} ExtensionRead(w: nat, rest: seq<byte>, n: nat, result: nat)
    requires w < TWO64 && 5 <= n < |Varint(w)| <= 10
    ensures var read := ReadFrom(Varint(w) + rest, n, result);
            if |Varint(w)| == 10 && result >= TWO31 && forall i :: n <= i < 9 ==> Group(w, i) == 0 || Group(w, i) == 127
            then read == Got(result, 10) else read == Failed(Overflow)
    decreases 10 - n
  {
    var s := Varint(w) + rest;
    ByteOfEncoding(w, rest, n);
    if n == 9 {
      TenthByte(w);
    } else if n + 1 < |Varint(w)| && Extends(s[n], n, result) {
      ExtensionRead(w, rest, n + 1, result);
    }
  }

  lemma Regroup(w: nat, p: nat, q: nat, r: nat, a: nat, b: nat)
    requires w == p * q + r && q == 128 * a + b
    ensures w == 128 * p * a + (b * p + r)
  {
    assert p * (128 * a + b) == 128 * p * a + b * p;
  }

  lemma ModStep(w: nat, p: nat)
    requires p > 0
    ensures w % (128 * p) == w % p + w / p % 128 * p
  {
    var q, r := w / p, w % p;
    var a, b := q / 128, q % 128;
    Regroup(w, p, q, r, a, b);
    TimesMono(p, b, 127);
    QuotientIs(w, 128 * p, a, b * p + r);
  }

  /** Where the five lowest groups and the rest put the words of a number. */
  lemma Words(w: nat, h: nat, g: nat, l: nat)
    requires g < 128 && l < 0x1000_0000 && w == h * TWO35 + g * 0x1000_0000 + l
    ensures w / 0x1000_0000 == h * 128 + g && w % 0x1000_0000 == l
    ensures w / TWO31 == h * 16 + g / 8
    ensures w / TWO32 == h * 8 + g / 16 && w % TWO32 == g % 16 * 0x1000_0000 + l
  {
    QuotientIs(w, 0x1000_0000, h * 128 + g, l);
    QuotientIs(w, TWO31, h * 16 + g / 8, g % 8 * 0x1000_0000 + l);
    QuotientIs(w, TWO32, h * 8 + g / 16, g % 16 * 0x1000_0000 + l);
  }

  /** The masks of the fifth byte, in terms of the number. */
  lemma FifthByte(w: nat, b: byte)
    requires b % 128 == Group(w, 4)
    ensures FifthFits(b) <==> w / TWO32 % 8 == 0 || (w / TWO32 % 8 == 7 && w / TWO31 % 2 == 1)
    ensures w % 0x1000_0000 + b % 16 * 0x1000_0000 == w % TWO32
    ensures w % TWO32 >= TWO31 <==> w / TWO31 % 2 == 1
  {
    PowValues();
    var q, l := w / 0x1000_0000, w % 0x1000_0000;
    var h, g := q / 128, q % 128;
    assert g == b % 128;
    Words(w, h, g, l);
    FifthBits(b, g, h, l);
  }

  lemma FifthBits(b: byte, g: nat, h: nat, l: nat)
    requires g == b % 128 && l < 0x1000_0000
    ensures b % 16 == g % 16
    ensures (h * 8 + g / 16) % 8 == g / 16 && (h * 16 + g / 8) % 2 == g / 8 % 2
    ensures FifthFits(b) <==> g / 16 == 0 || (g / 16 == 7 && g / 8 % 2 == 1)
    ensures g % 16 * 0x1000_0000 + l >= TWO31 <==> g / 8 % 2 == 1
  {
    var c, t, v, x := b / 128, g / 16, g / 8 % 2, g % 8;
    Halves(g, t, v, x);
    Shifted(b, c, t, v, x);
    Above(h, t, v);
  }

  lemma Halves(g: nat, t: nat, v: nat, x: nat)
    requires g < 128 && t == g / 16 && v == g / 8 % 2 && x == g % 8
    ensures g == 16 * t + 8 * v + x && g / 8 == 2 * t + v && g % 16 == 8 * v + x && t < 8 && v < 2 && x < 8
  {
  }

  lemma Shifted(b: byte, c: nat, t: nat, v: nat, x: nat)
    requires b == 128 * c + 16 * t + 8 * v + x && t < 8 && v < 2 && x < 8
    ensures b / 16 == 8 * c + t && b / 8 == 16 * c + 2 * t + v && b % 16 == 8 * v + x
    ensures b / 16 % 8 == t && b / 8 % 16 == 2 * t + v
  {
    QuotientIs(b, 16, 8 * c + t, 8 * v + x);
    QuotientIs(b, 8, 16 * c + 2 * t + v, x);
  }

  lemma Above(h: nat, t: nat, v: nat)
    requires t < 8 && v < 2
    ensures (h * 8 + t) % 8 == t && (h * 16 + (2 * t + v)) % 2 == v
  {
  }

  /** From the fifth byte on. */
  lemma FifthRead(w: nat, rest: seq<byte>)
    requires w < TWO64 && 4 < |Varint(w)|
    ensures ReadFrom(Varint(w) + rest, 4, w % 0x1000_0000) ==
            if Fits32(w) then Got(w % TWO32, |Varint(w)|) else Failed(Overflow)
  {
    var s := Varint(w) + rest;
    ByteOfEncoding(w, rest, 4);
    FifthByte(w, s[4]);
    VarintFits(w);
    PowValues();
    LengthIs(w, 5);
    LengthIs(w, 9);
    LengthIs(w, 4);
    hide Group, Varint, FifthFits, Pow128;
    Between(w);
    if |Varint(w)| > 5 && FifthFits(s[4]) {
      ExtensionRead(w, rest, 5, w % TWO32);
    }
  }

  /** Five-byte values: where the masks of the fifth byte put them. */
  lemma Between(w: nat)
    ensures w < TWO35 ==>
              ((w / TWO32 % 8 == 0 || (w / TWO32 % 8 == 7 && w / TWO31 % 2 == 1)) <==>
               (w < TWO32 || TWO35 - TWO31 <= w))
    ensures w < TWO35 && w < TWO32 ==> w % TWO32 == w
  {
  }

  lemma {:induction false} LowRead(w: nat, rest: seq<byte>, n: nat)
    requires w < TWO64 && n <= 4 && n < |Varint(w)|
    ensures ReadFrom(Varint(w) + rest, n, w % Pow128(n)) ==
            if Fits32(w) then Got(w % TWO32, |Varint(w)|) else Failed(Overflow)
    decreases 4 - n
  {
    PowValues();
    hide Varint;
    if n == 4 {
      FifthRead(w, rest);
    } else {
      ByteOfEncoding(w, rest, n);
      ModStep(w, Pow128(n));
      if n + 1 < |Varint(w)| {
        LowRead(w, rest, n + 1);
      } else {
        LengthIs(w, n + 1);
        PowMono(n + 1, 4);
        SmallIsItself(w, Pow128(n + 1));
      }
    }
  }

  lemma SmallIsItself(w: nat, p: nat)
    requires w < p
    ensures w % p == w
  {
    QuotientIs(w, p, 0, w);
  }

  /** The 32-bit decoder on the encoding of a 64-bit value: it accepts exactly the values of
      Fits32, yields their low 32 bits, and consumes the encoding. */
  lemma ReadsEncoding(w: nat, rest: seq<byte>)
    requires w < TWO64
    ensures ReadFrom(Varint(w) + rest, 0, 0) ==
            if Fits32(w) then Got(w % TWO32, |Varint(w)|) else Failed(Overflow)
  {
    assert w % Pow128(0) == 0;
    LowRead(w, rest, 0);
  }

  /** Every 32-bit value is accepted, and so is every negative one, sign-extended to 64 bits. */
  lemma AcceptsBothSigns(x: int)
    requires -0x8000_0000 <= x < TWO32
    ensures var w := if x < 0 then TWO64 + x else x;
            Fits32(w) && (w % TWO32) as int == if x < 0 then x + TWO32 else x
  {
    if x < 0 {
      PowValues();
      var w := TWO64 + x;
      assert w / TWO32 == 0xffff_ffff && w / TWO31 == 0x1_ffff_ffff;
      assert w / Pow128(5) == 0x1fff_ffff && w / Pow128(6) == 0x3f_ffff;
      assert w / Pow128(7) == 0x7fff && w / Pow128(8) == 0xff;
      forall i | 5 <= i < 9
        ensures Group(w, i) == 127
      {
      }
    }
  }

  /** Other values are accepted too: this one is no 32-bit number of either sign, yet it reads
      as the most negative one. */
  lemma AcceptsMore()
    ensures var w := TWO35 - TWO31;
            && TWO32 <= w < TWO64 - TWO31 && Fits32(w)
            && ReadFrom(Varint(w), 0, 0) == Got(TWO31, 5)
  {
    var w := TWO35 - TWO31;
    ReadsEncoding(w, []);
    assert Varint(w) + [] == Varint(w);
    PowValues();
    LengthIs(w, 4);
    LengthIs(w, 5);
  }
}
