/** Base-128 varints: the two-word encoder, the 64-bit decoder and zig-zag. */
module Varints {
  import opened Bytes
  import opened Ints

  // ----- the encoding -----

  /** The base-128 form of v, as the Protocol Buffers encoding defines it: seven bits a byte, low
      group first, the top bit set on all bytes but the last. */
  function Varint(v: nat): (s: seq<byte>)
    ensures s != []
  {
    if v < 128 then [v] else [128 + v % 128] + Varint(v / 128)
  }

  /** The value of a byte string read as groups of seven bits. */
  function Base128(s: seq<byte>): nat {
    if s == [] then 0 else s[0] % 128 + 128 * Base128(s[1..])
  }

  /** s has its first byte without the top bit at place k. */
  predicate Ends(s: seq<byte>, k: nat) {
    k < |s| && s[k] < 128 && forall i :: 0 <= i < k ==> s[i] >= 128
  }

  function Pow128(k: nat): (p: nat)
    ensures p > 0
  {
    if k == 0 then 1 else 128 * Pow128(k - 1)
  }

  lemma PowValues()
    ensures Pow128(1) == 0x80 && Pow128(2) == 0x4000 && Pow128(3) == 0x20_0000 && Pow128(4) == 0x1000_0000
    ensures Pow128(5) == 0x8_0000_0000 && Pow128(6) == 0x400_0000_0000 && Pow128(7) == 0x2_0000_0000_0000
    ensures Pow128(8) == 0x100_0000_0000_0000 && Pow128(9) == 0x8000_0000_0000_0000
    ensures Pow128(10) == 64 * TWO64
  {
    assert Pow128(0) == 1;
    assert Pow128(2) == 128 * Pow128(1) && Pow128(3) == 128 * Pow128(2);
    assert Pow128(4) == 128 * Pow128(3) && Pow128(5) == 128 * Pow128(4) && Pow128(6) == 128 * Pow128(5);
    assert Pow128(7) == 128 * Pow128(6) && Pow128(8) == 128 * Pow128(7) && Pow128(9) == 128 * Pow128(8);
  }

  /** The encoding ends at its last byte, and its groups give the value back. */
  lemma {:induction false} VarintIsBase128(v: nat)
    ensures Ends(Varint(v), |Varint(v)| - 1)
    ensures Base128(Varint(v)) == v
  {
    if v < 128 {
      assert [v][1..] == [];
    } else {
      VarintIsBase128(v / 128);
      assert Varint(v)[1..] == Varint(v / 128);
    }
  }

  /** Values of k groups take at most k bytes. */
  lemma {:induction false} VarintLength(v: nat, k: nat)
    requires 0 < k && v < Pow128(k)
    ensures |Varint(v)| <= k
  {
    if v >= 128 {
      assert v / 128 < Pow128(k - 1);
      VarintLength(v / 128, k - 1);
    }
  }

  /** Every 64-bit value takes at most ten bytes. */
  lemma VarintFits(v: nat)
    requires v < TWO64
    ensures |Varint(v)| <= 10
  {
    PowValues();
    VarintLength(v, 10);
  }

  // ----- pb_encode_varint_32 -----

  /** 2 to the 32 - 7 * i: where the high word begins once i groups of the low word are out. */
  function HighAt(i: nat): (p: nat)
    requires i <= 4
  {
    if i == 0 then 0x1_0000_0000 else if i == 1 then 0x200_0000 else if i == 2 then 0x4_0000
    else if i == 3 then 0x800 else 0x10
  }

  lemma VarintStep(v: nat)
    requires v >= 128
    ensures Varint(v) == [128 + v % 128] + Varint(v / 128)
  {
  }

  /** One group of the low word. */
  lemma LowGroup(low: nat, high: nat, i: nat)
    requires i < 4 && low < HighAt(i)
    ensures (low + high * HighAt(i)) % 128 == low % 128
    ensures (low + high * HighAt(i)) / 128 == low / 128 + high * HighAt(i + 1)
    ensures low / 128 < HighAt(i + 1)
    ensures low / 128 != 0 || high != 0 <==> low + high * HighAt(i) >= 128
  {
    assert high * HighAt(i) == 128 * (high * HighAt(i + 1));
  }

  /** One turn of the low loop: a group moves from what is left to the buffer. */
  lemma LowStep(buffer: seq<byte>, rest: nat, high: nat, i: nat)
    requires i < 4 && rest < HighAt(i) && (rest / 128 != 0 || high != 0)
    ensures buffer + Varint(rest + high * HighAt(i)) ==
            buffer + [rest % 128 + 128] + Varint(rest / 128 + high * HighAt(i + 1))
    ensures rest / 128 < HighAt(i + 1)
  {
    hide HighAt, Varint;
    LowGroup(rest, high, i);
    GroupOut(buffer, rest + high * HighAt(i));
  }

  lemma GroupOut(buffer: seq<byte>, v: nat)
    requires v >= 128
    ensures buffer + Varint(v) == buffer + [v % 128 + 128] + Varint(v / 128)
  {
    hide Varint;
    VarintStep(v);
    assert buffer + ([v % 128 + 128] + Varint(v / 128)) == buffer + [v % 128 + 128] + Varint(v / 128);
  }

  lemma LowStart(low: nat, high: nat)
    ensures HighAt(0) == TWO32
    ensures [] + Varint(low + high * HighAt(0)) == Varint(low + high * TWO32)
  {
  }

  /** What is left when the low loop ends. */
  lemma LowEnd(rest: nat, high: nat, i: nat)
    requires i <= 4 && rest < HighAt(i) && (i == 4 || (rest / 128 == 0 && high == 0))
    ensures high == 0 ==> Varint(rest + high * HighAt(i)) == [rest % 128] && rest < 128
    ensures high != 0 ==> i == 4 && rest < 16 && rest + high * HighAt(i) == rest + high * 16
  {
  }

  /** The two-word encoder. */
  method EncodeVarint32(low0: nat, high0: nat) returns (out: seq<byte>)
    requires low0 < TWO32 && high0 < TWO32
    ensures out == Varint(low0 + high0 * TWO32)
  {
    hide Varint, HighAt;
    LowStart(low0, high0);
    var low: nat, high: nat := low0, high0;
    var buffer: seq<byte> := [];
    var i := 0;
    ghost var rest := low;
    var b: byte := low % 128;
    low := low / 128;
    while i < 4 && (low != 0 || high != 0)
      invariant i <= 4 && i == |buffer|
      invariant rest < HighAt(i) && b == rest % 128 && low == rest / 128
      invariant Varint(low0 + high0 * TWO32) == buffer + Varint(rest + high * HighAt(i))
    {
      LowStep(buffer, rest, high, i);
      buffer := buffer + [b + 128];
      i := i + 1;
      rest := low;
      b := low % 128;
      low := low / 128;
    }
    LowEnd(rest, high, i);
    if high != 0 {
      out := EncodeHigh(buffer, b, high);
    } else {
      out := buffer + [b];
    }
  }

  /** The high word, three bits of which go into the byte at hand. */
  method EncodeHigh(front: seq<byte>, b0: byte, high0: nat) returns (out: seq<byte>)
    requires b0 < 16 && 0 < high0
    ensures out == front + Varint(b0 + high0 * 16)
  {
    ghost var v: nat := b0 + high0 * 16;
    var b: byte, high: nat := b0 + high0 % 8 * 16, high0 / 8;
    var buffer: seq<byte> := front;
    assert b == v % 128 && high == v / 128;
    while high != 0
      invariant b == v % 128 && high == v / 128
      invariant front + Varint(b0 + high0 * 16) == buffer + Varint(v)
    {
      GroupOut(buffer, v);
      buffer := buffer + [b + 128];
      v := high;
      b := high % 128;
      high := high / 128;
    }
    out := buffer + [b];
  }

  /** pb_encode_varint. */
  method EncodeVarint(value: nat) returns (out: seq<byte>)
    requires value < TWO64
    ensures out == Varint(value) && |out| <= 10
  {
    VarintFits(value);
    if value <= 0x7f {
      return [value];
    }
    out := EncodeVarint32(value % TWO32, value / TWO32);
  }

  // ----- pb_decode_varint -----

  datatype Error = EndOfStream | Overflow | WrongType | ZeroTag | StreamFull | SizeChanged

  datatype Result<T> = Ok(value: T) | Err(error: Error)

  /** An input stream over a buffer. */
  class IStream {
    const bytes: seq<byte>
    var pos: nat

    ghost predicate Valid()
      reads this
    {
      pos <= |bytes|
    }

    constructor (bytes: seq<byte>)
      ensures Valid() && this.bytes == bytes && pos == 0
    {
      this.bytes := bytes;
      pos := 0;
    }

    /** The bytes still to be read. */
    function Rest(): seq<byte>
      requires Valid()
      reads this
    {
      bytes[pos..]
    }

    /** pb_readbyte. */
    method ReadByte() returns (r: Result<byte>)
      requires Valid()
      modifies this
      ensures Valid()
      ensures if old(Rest()) == [] then r == Err(EndOfStream) && pos == old(pos)
              else r == Ok(old(Rest())[0]) && pos == old(pos) + 1
    {
      if pos == |bytes| {
        return Err(EndOfStream);
      }
      r := Ok(bytes[pos]);
      pos := pos + 1;
    }

    /** pb_decode_varint: accepts exactly a byte string that ends within ten bytes, the tenth
        adding at most the top bit of 64; it consumes that string and no more. */
    method DecodeVarint() returns (r: Result<nat>)
      requires Valid()
      modifies this
      ensures Valid() && old(pos) <= pos
      ensures r.Ok? <==> exists k: nat :: Accepts(old(Rest()), k)
      ensures r.Ok? ==>
                && old(pos) < pos && Accepts(old(Rest()), pos - old(pos) - 1)
                && r.value == Base128(old(Rest())[..pos-old(pos)]) && r.value < TWO64
    {
      hide Accepts, Ends, Base128, Pow128;
      ghost var s := Rest();
      var n: nat := 0;
      var result, weight: nat := 0, 1;
      var going := true;
      NothingRead(s);
      while going
        invariant Valid() && n == pos - old(pos) <= |s| && Rest() == s[n..]
        invariant Part(s, n, going) && result == Base128(s[..n]) && weight == Pow128(n)
        decreases 10 - n
      {
        var b := ReadByte();
        if b.Err? {
          NotYet(s, n);
          return Err(b.error);
        }
        OneMoreByte(s, n);
        if n >= 9 && b.value > 1 {
          TooLong(s);
          return Err(Overflow);
        }
        result := result + b.value % 128 * weight;
        weight := weight * 128;
        n := n + 1;
        going := b.value >= 128;
      }
      AllRead(s, n);
      r := Ok(result);
    }
  }

  /** n bytes are read, and the last of them decides whether to go on. */
  ghost predicate Part(s: seq<byte>, n: nat, going: bool)
    requires n <= |s|
  {
    && (forall i :: 0 <= i < n - 1 ==> s[i] >= 128)
    && (if n == 0 then going else going == (s[n-1] >= 128))
    && n <= 10 && (n == 10 ==> s[9] <= 1)
  }

  lemma NothingRead(s: seq<byte>)
    ensures Part(s, 0, true) && Base128(s[..0]) == 0 && Pow128(0) == 1 && s[0..] == s
  {
  }

  lemma OneMoreByte(s: seq<byte>, n: nat)
    requires n < |s| && Part(s, n, true)
    ensures n <= 9 && s[n..][0] == s[n] && s[n..][1..] == s[n+1..]
    ensures !(n >= 9 && s[n] > 1) ==> Part(s, n + 1, s[n] >= 128)
    ensures Base128(s[..n+1]) == Base128(s[..n]) + s[n] % 128 * Pow128(n) && Pow128(n + 1) == Pow128(n) * 128
    ensures n == 9 ==> forall i :: 0 <= i < 9 ==> s[i] >= 128
  {
    assert s[..n+1] == s[..n] + [s[n]];
    BaseSnoc(s[..n], s[n]);
  }

  lemma AllRead(s: seq<byte>, n: nat)
    requires n <= |s| && Part(s, n, false)
    ensures n > 0 && Accepts(s, n - 1) && Base128(s[..n]) < TWO64
  {
    PowValues();
    BaseBound(s[..n]);
    if n == 10 {
      assert s[..10] == s[..9] + [s[9]];
      BaseSnoc(s[..9], s[9]);
      BaseBound(s[..9]);
    } else {
      PowMono(n, 9);
    }
  }

  lemma {:induction false} PowMono(a: nat, b: nat)
    requires a <= b
    ensures Pow128(a) <= Pow128(b)
  {
    if a < b {
      PowMono(a, b - 1);
    }
  }

  lemma {:induction false} BaseBound(s: seq<byte>)
    ensures Base128(s) < Pow128(|s|)
  {
    if s != [] {
      BaseBound(s[1..]);
    }
  }

  /** What the decoder accepts from the front of s: it ends at place k, the tenth byte at most,
      which may hold only the last of 64 bits. */
  predicate Accepts(s: seq<byte>, k: nat) {
    Ends(s, k) && k <= 9 && (k == 9 ==> s[9] <= 1)
  }

  lemma NotYet(s: seq<byte>, n: nat)
    requires n == |s| && Part(s, n, true)
    ensures forall k: nat :: !Accepts(s, k)
  {
  }

  lemma TooLong(s: seq<byte>)
    requires |s| > 9 && s[9] > 1 && forall i :: 0 <= i < 9 ==> s[i] >= 128
    ensures forall k: nat :: !Accepts(s, k)
  {
  }

  lemma {:induction false} BaseSnoc(s: seq<byte>, b: byte)
    ensures Base128(s + [b]) == Base128(s) + b % 128 * Pow128(|s|)
  {
    if s != [] {
      BaseSnoc(s[1..], b);
      assert (s + [b])[1..] == s[1..] + [b];
      assert 128 * (b % 128 * Pow128(|s| - 1)) == b % 128 * Pow128(|s|);
    } else {
      assert [b][1..] == [] && [] + [b] == [b];
    }
  }

  /** The decoder takes exactly the encoding off the front of whatever follows it. */
  lemma DecodeUndoesEncode(v: nat, rest: seq<byte>)
    requires v < TWO64
    ensures var s := Varint(v) + rest;
            Accepts(s, |Varint(v)| - 1) && Base128(s[..|Varint(v)|]) == v
    ensures forall k: nat :: Accepts(Varint(v) + rest, k) ==> k == |Varint(v)| - 1
  {
    var e := Varint(v);
    var s := e + rest;
    VarintIsBase128(v);
    VarintFits(v);
    assert s[..|e|] == e;
    if |e| == 10 {
      TenthByte(v);
    }
  }

  /** A tenth byte holds the top bit of 64. */
  lemma TenthByte(v: nat)
    requires v < TWO64 && |Varint(v)| == 10
    ensures Varint(v)[9] <= 1
  {
    DigitAt(v, 9);
    PowValues();
  }

  /** Byte i of the encoding holds group i. */
  lemma {:induction false} DigitAt(v: nat, i: nat)
    requires i < |Varint(v)|
    ensures Varint(v)[i] == v / Pow128(i) % 128 + (if i == |Varint(v)| - 1 then 0 else 128)
  {
    if i > 0 {
      DigitAt(v / 128, i - 1);
      DivDiv(v, Pow128(i - 1));
    } else {
      assert v / Pow128(0) == v;
    }
  }

  lemma DivDiv(v: nat, p: nat)
    requires p > 0
    ensures v / (128 * p) == v / 128 / p
  {
    var q, r := v / 128, v % 128;
    var a, b := q / p, q % p;
    assert v == 128 * (a * p + b) + r;
    assert v == (128 * p) * a + (128 * b + r);
    assert 128 * b + r < 128 * p;
    QuotientIs(v, 128 * p, a, 128 * b + r);
  }

  lemma TimesMono(d: nat, a: nat, b: nat)
    requires a <= b
    ensures d * a <= d * b
  {
  }

  lemma QuotientIs(v: nat, d: nat, q: nat, r: nat)
    requires d > 0 && v == d * q + r && r < d
    ensures v / d == q
  {
    var q' := v / d;
    assert v == d * q' + v % d;
    assert d * (q' + 1) == d * q' + d && d * (q + 1) == d * q + d;
    if q' < q {
      TimesMono(d, q' + 1, q);
    } else if q < q' {
      TimesMono(d, q + 1, q');
    }
  }

  // ----- zig-zag -----

  predicate IsInt64(x: int) {
    -0x8000_0000_0000_0000 <= x < 0x8000_0000_0000_0000
  }

  /** The zig-zag numbering of the integers: 0, -1, 1, -2, ... */
  function ZigZag(x: int): nat {
    if x < 0 then -2 * x - 1 else 2 * x
  }

  /** pb_encode_svarint's value, in 64-bit words: for a negative x, the complement of its low 63
      bits doubled. */
  function Zigzagged(x: int): (w: nat)
    requires IsInt64(x)
    ensures w == ZigZag(x) && w < TWO64
  {
    if x < 0 then TWO64 - 1 - (x + TWO64) % 0x8000_0000_0000_0000 * 2 else x * 2
  }

  /** pb_decode_svarint's value: for an odd word, the complement of its half, read as signed. */
  function Unzigzagged(w: nat): (x: int)
    requires w < TWO64
    ensures IsInt64(x) && ZigZag(x) == w
  {
    if w % 2 == 1 then TWO64 - 1 - w / 2 - TWO64 else w / 2
  }

  /** Zig-zag is undone, and keeps small magnitudes small. */
  lemma ZigZagRoundTrip(x: int)
    requires IsInt64(x)
    ensures Unzigzagged(Zigzagged(x)) == x
    ensures -64 <= x < 64 <==> |Varint(Zigzagged(x))| == 1
  {
  }
}
