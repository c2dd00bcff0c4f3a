/** The UTF-8 helpers of the tokenizer and the byte/codepoint table of byte-level BPE. */
module Utf8 {
  import opened Bytes
  import opened Seqs

  /** utf8_len_from_first_byte; the masks 0xe0, 0xf0 and 0xf8 cut these ranges. */
  function LenOf(c: byte): (n: nat)
    ensures 1 <= n <= 4
  {
    if c < 0x80 then 1
    else if 0xc0 <= c < 0xe0 then 2
    else if 0xe0 <= c < 0xf0 then 3
    else if 0xf0 <= c < 0xf8 then 4
    else 1
  }

  /** next_utf8_char: how far the first character of s reaches, cut to one byte at the end. */
  function CharLen(s: seq<byte>): (n: nat)
    requires s != []
    ensures 1 <= n <= |s|
  {
    if LenOf(s[0]) > |s| then 1 else LenOf(s[0])
  }

  /** The first codepoint of s, as utf8_decode_one reads it. */
  function Codepoint(s: seq<byte>): (cp: nat)
    requires s != []
    ensures cp < 0x20_0000
  {
    var n, c0: int := CharLen(s), s[0];
    if n == 1 then c0
    else if n == 2 then c0 % 32 * 64 + Tail(s, 1)
    else if n == 3 then c0 % 16 * 4096 + Tail(s, 1) * 64 + Tail(s, 2)
    else c0 % 8 * 0x4_0000 + Tail(s, 1) * 4096 + Tail(s, 2) * 64 + Tail(s, 3)
  }

  /** The six payload bits of byte i. */
  function Tail(s: seq<byte>, i: nat): (bits: nat)
    requires i < |s|
    ensures bits < 64
  {
    s[i] % 64
  }

  /** utf8_put; in 21 bits each masked part fits under its marker, so `|` is `+`. */
  function Put(cp: nat): (s: seq<byte>)
    requires cp < 0x20_0000
    ensures 1 <= |s| <= 4
  {
    if cp < 0x80 then [cp]
    else if cp < 0x800 then [0xc0 + cp / 64, 0x80 + cp % 64]
    else if cp < 0x1_0000 then [0xe0 + cp / 4096, 0x80 + cp / 64 % 64, 0x80 + cp % 64]
    else [0xf0 + cp / 0x4_0000, 0x80 + cp / 4096 % 64, 0x80 + cp / 64 % 64, 0x80 + cp % 64]
  }

  lemma Sextets(cp: nat)
    requires cp < 0x20_0000
    ensures cp / 64 / 64 == cp / 4096 && cp / 4096 / 64 == cp / 0x4_0000
    ensures cp == cp / 64 * 64 + cp % 64
    ensures cp / 64 == cp / 4096 * 64 + cp / 64 % 64
    ensures cp / 4096 == cp / 0x4_0000 * 64 + cp / 4096 % 64
  {
  }

  lemma PutThenRead2(cp: nat, s: seq<byte>)
    requires 0x80 <= cp < 0x800 && |s| >= 2
    requires s[0] == 0xc0 + cp / 64 && s[1] == 0x80 + cp % 64
    ensures CharLen(s) == 2 && Codepoint(s) == cp
  {
  }

  lemma PutThenRead3(cp: nat, s: seq<byte>)
    requires 0x800 <= cp < 0x1_0000 && |s| >= 3
    requires s[0] == 0xe0 + cp / 4096 && s[1] == 0x80 + cp / 64 % 64 && s[2] == 0x80 + cp % 64
    ensures CharLen(s) == 3 && Codepoint(s) == cp
  {
    assert Tail(s, 1) == cp / 64 % 64 && Tail(s, 2) == cp % 64;
    hide Tail;
    Sextets(cp);
  }

  lemma PutThenRead4(cp: nat, s: seq<byte>)
    requires 0x1_0000 <= cp < 0x20_0000 && |s| >= 4
    requires s[0] == 0xf0 + cp / 0x4_0000 && s[1] == 0x80 + cp / 4096 % 64
    requires s[2] == 0x80 + cp / 64 % 64 && s[3] == 0x80 + cp % 64
    ensures CharLen(s) == 4 && Codepoint(s) == cp
  {
    assert Tail(s, 1) == cp / 4096 % 64 && Tail(s, 2) == cp / 64 % 64 && Tail(s, 3) == cp % 64;
    hide Tail;
    Sextets(cp);
  }

  /** Reading undoes writing, whatever follows, and takes exactly the bytes written. */
  lemma PutThenRead(cp: nat, rest: seq<byte>)
    requires cp < 0x20_0000
    ensures CharLen(Put(cp) + rest) == |Put(cp)|
    ensures Codepoint(Put(cp) + rest) == cp
  {
    hide Codepoint, CharLen;
    var s := Put(cp) + rest;
    if cp < 0x80 {
      ReadAscii(s);
    } else if cp < 0x800 {
      PutThenRead2(cp, s);
    } else if cp < 0x1_0000 {
      PutThenRead3(cp, s);
    } else {
      PutThenRead4(cp, s);
    }
  }

  lemma ReadAscii(s: seq<byte>)
    requires s != [] && s[0] < 0x80
    ensures CharLen(s) == 1 && Codepoint(s) == s[0]
  {
  }

  // ----- the byte/codepoint table -----

  predicate SelfMapped(b: byte) {
    33 <= b <= 126 || 161 <= b <= 172 || 174 <= b
  }

  /** The codepoint standing for byte b: itself if printable, else the next one from 256 on. */
  function CpOf(b: byte): (cp: nat)
    ensures cp < 324
  {
    if SelfMapped(b) then b
    else if b <= 32 then 256 + b
    else if b <= 160 then 256 + 33 + (b - 127)
    else 256 + 67
  }

  /** The byte a codepoint stands for; zero, as in a cleared table, if it stands for none. */
  function ByteOf(cp: nat): (b: byte)
    requires cp < 512
  {
    if cp < 256 then (if SelfMapped(cp) then cp else 0)
    else if cp <= 288 then cp - 256
    else if cp <= 322 then cp - 289 + 127
    else if cp == 323 then 173
    else 0
  }

  lemma ByteOfCpOf(b: byte)
    ensures ByteOf(CpOf(b)) == b
  {
  }

  /** How many bytes below b the table moves to 256 and up. */
  ghost function Moved(b: nat): nat
    requires b <= 256
  {
    if b == 0 then 0 else Moved(b - 1) + (if SelfMapped(b - 1) then 0 else 1)
  }

  lemma {:induction false} MovedIs(b: nat)
    requires b <= 256
    ensures Moved(b) == if b <= 33 then b else if b <= 127 then 33 else if b <= 161 then b - 94
                        else if b <= 173 then 67 else 68
  {
    if b > 0 {
      MovedIs(b - 1);
    }
  }

  /** The running count yields the table's next entry, and no other codepoint maps back to b. */
  lemma NextCp(b: byte)
    ensures CpOf(b) == if SelfMapped(b) then b else 256 + Moved(b)
    ensures Moved(b + 1) == Moved(b) + (if SelfMapped(b) then 0 else 1)
    ensures forall cp :: 0 <= cp < 512 && cp != CpOf(b) && ByteOf(cp) == b ==> b == 0
    ensures ByteOf(CpOf(b)) == b
  {
    MovedIs(b);
    hide Moved;
  }

  ghost predicate CpTable(byteToCp: array<nat>)
    reads byteToCp
  {
    byteToCp.Length == 256 && forall b: byte :: byteToCp[b] == CpOf(b)
  }

  ghost predicate ByteTable(cpToByte: array<byte>)
    reads cpToByte
  {
    cpToByte.Length == 512 && forall cp :: 0 <= cp < 512 ==> cpToByte[cp] == ByteOf(cp)
  }

  /** init_byte_tables fills both directions of the table. */
  method InitByteTables(byteToCp: array<nat>, cpToByte: array<byte>)
    requires byteToCp.Length == 256 && cpToByte.Length == 512
    requires forall i :: 0 <= i < 512 ==> cpToByte[i] == 0
    requires byteToCp as object != cpToByte
    modifies byteToCp, cpToByte
    ensures CpTable(byteToCp) && ByteTable(cpToByte)
  {
    var n := 0;
    for b := 0 to 256
      invariant n == Moved(b) <= b
      invariant forall i :: 0 <= i < b ==> byteToCp[i] == CpOf(i)
      invariant forall cp :: 0 <= cp < 512 ==> cpToByte[cp] == if ByteOf(cp) < b then ByteOf(cp) else 0
    {
      NextCp(b);
      hide CpOf, ByteOf, Moved;
      if 33 <= b <= 126 || 161 <= b <= 172 || b >= 174 {
        byteToCp[b] := b;
        cpToByte[b] := b;
      } else {
        var cp := 256 + n;
        byteToCp[b] := cp;
        if cp < 512 {
          cpToByte[cp] := b;
        }
        n := n + 1;
      }
    }
  }

  // ----- byte-level encoding -----

  /** The UTF-8 symbol standing for one raw byte. */
  function Sym(b: byte): seq<byte> {
    Put(CpOf(b))
  }

  function Enc(raw: seq<byte>): seq<byte> {
    if raw == [] then [] else Sym(raw[0]) + Enc(raw[1..])
  }

  /** byte_decode: each codepoint below 512 gives one byte, others give none. */
  function Dec(s: seq<byte>): seq<byte>
    decreases |s|
  {
    if s == [] then []
    else (if Codepoint(s) < 512 then [ByteOf(Codepoint(s))] else []) + Dec(s[CharLen(s)..])
  }

  lemma {:induction false} EncJoins(a: seq<byte>, b: seq<byte>)
    ensures Enc(a + b) == Enc(a) + Enc(b)
  {
    hide Sym;
    if a == [] {
      assert a + b == b;
    } else {
      EncJoins(a[1..], b);
      assert (a + b)[1..] == a[1..] + b;
      assert Sym(a[0]) + Enc(a[1..]) + Enc(b) == Sym(a[0]) + (Enc(a[1..]) + Enc(b));
    }
  }

  lemma DecSymThen(b: byte, rest: seq<byte>)
    ensures Dec(Sym(b) + rest) == [b] + Dec(rest)
  {
    hide Put, Codepoint, CharLen, CpOf, ByteOf;
    PutThenRead(CpOf(b), rest);
    ByteOfCpOf(b);
    assert (Sym(b) + rest)[|Sym(b)|..] == rest;
  }

  /** Decoding undoes encoding, whatever follows. */
  lemma {:induction false} DecEncThen(raw: seq<byte>, rest: seq<byte>)
    ensures Dec(Enc(raw) + rest) == raw + Dec(rest)
  {
    hide Sym, Dec;
    if raw == [] {
      assert Enc(raw) + rest == rest;
    } else {
      var tail := Enc(raw[1..]) + rest;
      DecSymThen(raw[0], tail);
      DecEncThen(raw[1..], rest);
      assert Enc(raw) + rest == Sym(raw[0]) + tail;
      assert raw == [raw[0]] + raw[1..];
    }
  }

  lemma DecEnc(raw: seq<byte>)
    ensures Dec(Enc(raw)) == raw
  {
    DecEncThen(raw, []);
    assert Enc(raw) + [] == Enc(raw) && raw + [] == raw;
  }

  /** Text made of printable ASCII stands for itself. */
  lemma {:induction false} DecPrintable(s: seq<byte>)
    requires forall i :: 0 <= i < |s| ==> 33 <= s[i] <= 126
    ensures Dec(s) == s
  {
    if s != [] {
      DecPrintable(s[1..]);
    }
  }

  /** No encoded byte is a space: a merge key splits at its only space. */
  lemma {:induction false} EncHasNoSpace(raw: seq<byte>)
    ensures forall i :: 0 <= i < |Enc(raw)| ==> Enc(raw)[i] > 0x20
  {
    if raw != [] {
      EncHasNoSpace(raw[1..]);
    }
  }

  lemma {:induction false} EncLength(raw: seq<byte>)
    ensures |raw| <= |Enc(raw)| <= 2 * |raw|
  {
    if raw != [] {
      EncLength(raw[1..]);
    }
  }

  /** byte_encode. */
  method ByteEncode(byteToCp: array<nat>, raw: seq<byte>) returns (out: seq<byte>)
    requires CpTable(byteToCp)
    ensures out == Enc(raw)
  {
    out := [];
    for i := 0 to |raw|
      invariant out == Enc(raw[..i])
    {
      EncJoins(raw[..i], [raw[i]]);
      assert Enc([raw[i]]) == Sym(raw[i]);
      assert raw[..i+1] == raw[..i] + [raw[i]];
      out := out + Put(byteToCp[raw[i]]);
    }
    assert raw[..|raw|] == raw;
  }

  /** byte_decode's loop. */
  method ByteDecode(cpToByte: array<byte>, s: seq<byte>) returns (out: seq<byte>)
    requires ByteTable(cpToByte)
    ensures out == Dec(s)
  {
    hide Codepoint, CharLen, ByteOf, Dec;
    DecEnds();
    out := [];
    var pos := 0;
    assert s[0..] == s;
    while pos < |s|
      invariant 0 <= pos <= |s|
      invariant Dec(s) == out + Dec(s[pos..])
    {
      var left := s[pos..];
      var cp := Codepoint(left);
      DecStep(s, pos);
      pos := pos + CharLen(left);
      if cp < 512 {
        Assoc(out, [cpToByte[cp]], Dec(s[pos..]));
        out := out + [cpToByte[cp]];
      }
    }
    assert s[pos..] == [];
  }

  lemma DecEnds()
    ensures Dec([]) == []
  {
  }

  lemma DecStep(s: seq<byte>, pos: nat)
    requires pos < |s|
    ensures var left := s[pos..];
            Dec(left) ==
              (if Codepoint(left) < 512 then [ByteOf(Codepoint(left))] else []) + Dec(s[pos + CharLen(left)..])
  {
    hide Codepoint, CharLen, ByteOf;
    var left := s[pos..];
    assert left[CharLen(left)..] == s[pos + CharLen(left)..];
  }
}
