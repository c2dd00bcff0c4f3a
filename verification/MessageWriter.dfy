/** The message encoder: one set of methods for the sizing pass and the writing pass. */
module MessageWriter {
  import opened Bytes
  import opened Ints
  import opened Varints
  import opened Messages

  /** An output stream: to a buffer of maxSize bytes, or one that only counts. */
  class OStream {
    const sizing: bool
    const maxSize: nat
    var written: nat
    var out: seq<byte>

    ghost predicate Valid()
      reads this
    {
      if sizing then out == [] else |out| == written <= maxSize
    }

    constructor (sizing: bool, maxSize: nat)
      ensures Valid() && this.sizing == sizing && this.maxSize == maxSize && written == 0 && out == []
    {
      this.sizing, this.maxSize, written, out := sizing, maxSize, 0, [];
    }

    ghost predicate Room(n: nat)
      reads this
    {
      sizing || written + n <= maxSize
    }

    /** From n0 bytes, the contents s0, the stream went on by bs; when ok is false it was full, or
        the value was not fit. */
    ghost predicate Wrote(ok: bool, fit: bool, n0: nat, s0: seq<byte>, bs: seq<byte>)
      reads this
    {
      && Valid()
      && ok == (fit && (sizing || n0 + |bs| <= maxSize))
      && (ok ==> written == n0 + |bs| && out == if sizing then [] else s0 + bs)
    }

    /** pb_write. */
    method Write(bs: seq<byte>) returns (ok: bool)
      requires Valid()
      modifies this
      ensures Wrote(ok, true, old(written), old(out), bs)
    {
      if |bs| > 0 && !sizing {
        if written + |bs| > maxSize {
          return false;
        }
        out := out + bs;
      }
      written := written + |bs|;
      ok := true;
    }

    /** pb_write of bytes that need not be there, on a stream that only counts. */
    method Count(ghost bs: seq<byte>, n: nat) returns (ok: bool)
      requires Valid() && sizing && n == |bs|
      modifies this
      ensures Wrote(ok, true, old(written), old(out), bs)
    {
      written := written + n;
      ok := true;
    }
  }

  lemma Twice(stream: OStream, ok: bool, fit: bool, n0: nat, s0: seq<byte>, a: seq<byte>,
              n1: nat, s1: seq<byte>, b: seq<byte>)
    requires n1 == n0 + |a| && s1 == (if stream.sizing then [] else s0 + a)
    requires stream.Wrote(ok, fit, n1, s1, b)
    ensures stream.Wrote(ok, fit, n0, s0, a + b)
  {
    assert s0 + a + b == s0 + (a + b);
  }

  lemma WroteNothing(stream: OStream)
    requires stream.Valid()
    ensures stream.Wrote(true, true, stream.written, stream.out, [])
  {
    assert stream.out + [] == stream.out;
  }

  lemma WroteSo(stream: OStream, n0: nat, s0: seq<byte>, a: seq<byte>)
    requires stream.Wrote(true, true, n0, s0, a)
    ensures stream.Valid() && stream.written == n0 + |a| && stream.out == if stream.sizing then [] else s0 + a
  {
  }

  /** One part more of a whole: written behind the parts before it, or, if it failed, the whole
      fails. */
  lemma OnePart(stream: OStream, ok: bool, fit: bool, n0: nat, s0: seq<byte>, a: seq<byte>, n1: nat, s1: seq<byte>,
                b: seq<byte>, whole: seq<byte>, allFit: bool)
    requires n1 == n0 + |a| && s1 == (if stream.sizing then [] else s0 + a)
    requires stream.Wrote(ok, fit, n1, s1, b)
    requires |a| + |b| <= |whole| && (allFit ==> fit)
    ensures ok ==> fit && stream.Wrote(true, true, n0, s0, a + b)
    ensures !ok ==> stream.Wrote(false, allFit, n0, s0, whole)
  {
    assert s0 + a + b == s0 + (a + b);
  }

  method WriteVarint(stream: OStream, v: nat) returns (ok: bool)
    requires stream.Valid() && v < TWO64
    modifies stream
    ensures stream.Wrote(ok, true, old(stream.written), old(stream.out), Varint(v))
  {
    var bs := EncodeVarint(v);
    ok := stream.Write(bs);
  }

  /** pb_encode_tag. */
  method WriteKey(stream: OStream, tag: nat, wire: nat) returns (ok: bool)
    requires stream.Valid() && tag * 8 + wire < TWO64
    modifies stream
    ensures stream.Wrote(ok, true, old(stream.written), old(stream.out), Key(tag, wire))
  {
    ok := WriteVarint(stream, tag * 8 + wire);
  }

  /** pb_encode_string. */
  method WriteString(stream: OStream, s: seq<byte>) returns (ok: bool)
    requires stream.Valid() && |s| < TWO64
    modifies stream
    ensures stream.Wrote(ok, true, old(stream.written), old(stream.out), Varint(|s|) + s)
  {
    var n0, s0 := stream.written, stream.out;
    ok := WriteVarint(stream, |s|);
    if ok {
      var n1, s1 := stream.written, stream.out;
      ok := stream.Write(s);
      Twice(stream, ok, true, n0, s0, Varint(|s|), n1, s1, s);
    }
  }

  method FixedBytes(v: nat, n: nat) returns (bs: seq<byte>)
    requires n <= 8
    ensures bs == LittleEndian(v, n)
  {
    bs := [];
    var rest := v;
    for i := 0 to n
      invariant LittleEndian(v, n) == bs + LittleEndian(rest, n - i)
    {
      bs := bs + [rest % 256];
      rest := rest / 256;
    }
  }

  // ----- values -----

  /** The value part of encode_basic_field. */
  method WriteValue(stream: OStream, k: Kind, v: Val) returns (ok: bool)
    requires stream.Valid() && InRange(k, v) && |EncVal(k, v)| < TWO64
    modifies stream
    ensures stream.Wrote(ok, Fits(k, v), old(stream.written), old(stream.out), EncVal(k, v))
    decreases k, 1
  {
    hide EncMsg, MessageFits, MessageInRange;
    match k
    case Bool => ok := WriteVarint(stream, v.n);
    case UInt(_) => ok := WriteVarint(stream, v.n);
    case Int32 => ok := WriteVarint(stream, Unsigned(v.n));
    case Int64 => ok := WriteVarint(stream, Unsigned(v.n));
    case SInt64 => ok := WriteVarint(stream, Zigzagged(v.n));
    case Fixed32 =>
      var bs := FixedBytes(v.n, 4);
      ok := stream.Write(bs);
    case Fixed64 =>
      var bs := FixedBytes(v.n, 8);
      ok := stream.Write(bs);
    case Blob(max) =>
      if |v.s| > max {
        return false;
      }
      ok := WriteString(stream, v.s);
    case Sub(fields) => ok := WriteSubmessage(stream, fields, v.slots);
  }

  /** pb_encode_submessage: a sizing pass, the size, and a writing pass into a stream of just
      that size. */
  method WriteSubmessage(stream: OStream, fields: seq<Field>, slots: seq<Slot>) returns (ok: bool)
    requires stream.Valid() && MessageInRange(fields, slots)
    requires |EncMsg(fields, slots, |fields|)| < TWO64
    modifies stream
    ensures var body := EncMsg(fields, slots, |fields|);
            stream.Wrote(ok, MessageFits(fields, slots), old(stream.written), old(stream.out), Varint(|body|) + body)
    decreases fields, 4
  {
    hide EncMsg, MessageFits, MessageInRange;
    ghost var body := EncMsg(fields, slots, |fields|);
    ghost var n0, s0 := stream.written, stream.out;
    var sizer := new OStream(true, 0);
    ok := WriteMessage(sizer, fields, slots);
    if !ok {
      return false;
    }
    var size := sizer.written;
    ok := WriteVarint(stream, size);
    if !ok {
      return false;
    }
    ghost var n1, s1 := stream.written, stream.out;
    if stream.sizing {
      ok := stream.Count(body, size);
      Twice(stream, ok, true, n0, s0, Varint(size), n1, s1, body);
      return;
    }
    if stream.written + size > stream.maxSize {
      return false;
    }
    var sub := new OStream(false, size);
    ok := WriteMessage(sub, fields, slots);
    stream.written := stream.written + sub.written;
    stream.out := stream.out + sub.out;
    if sub.written != size {
      return false;
    }
    assert [] + body == body;
    Twice(stream, ok, true, n0, s0, Varint(size), n1, s1, body);
  }

  /** pb_encode: all fields, in descriptor order. */
  method WriteMessage(stream: OStream, fields: seq<Field>, slots: seq<Slot>) returns (ok: bool)
    requires stream.Valid() && MessageInRange(fields, slots)
    requires |EncMsg(fields, slots, |fields|)| < TWO64
    modifies stream
    ensures stream.Wrote(ok, MessageFits(fields, slots), old(stream.written), old(stream.out),
                         EncMsg(fields, slots, |fields|))
    decreases fields, 3
  {
    hide EncSlot, SlotFits, SlotInRange, EncMsg, MessageFits, MessageInRange, OStream.Wrote;
    Slots(fields, slots);
    ghost var n0, s0, whole := stream.written, stream.out, EncMsg(fields, slots, |fields|);
    WroteNothing(stream);
    NoFields(fields, slots);
    for i := 0 to |fields|
      invariant stream.Wrote(true, true, n0, s0, EncMsg(fields, slots, i))
      invariant MessageFits(fields[..i], slots[..i])
    {
      PartOfMessage(fields, slots, i);
      WroteSo(stream, n0, s0, EncMsg(fields, slots, i));
      ghost var n1, s1 := stream.written, stream.out;
      SlotOf(fields, slots, i);
      ok := WriteSlot(stream, fields[i], slots[i]);
      FitsOneMore(fields, slots, i);
      OnePart(stream, ok, SlotFits(fields[i], slots[i]), n0, s0, EncMsg(fields, slots, i), n1, s1,
              EncSlot(fields[i], slots[i]), whole, MessageFits(fields, slots));
      if !ok {
        return;
      }
    }
    assert fields[..|fields|] == fields && slots[..|fields|] == slots;
    ok := true;
  }

  lemma Slots(fields: seq<Field>, slots: seq<Slot>)
    requires MessageInRange(fields, slots)
    ensures |slots| == |fields| && MessageFits(fields[..0], slots[..0])
  {
  }

  lemma SlotOf(fields: seq<Field>, slots: seq<Slot>, i: nat)
    requires MessageInRange(fields, slots) && i < |fields|
    ensures i < |slots| && SlotInRange(fields[i], slots[i])
  {
    hide SlotInRange;
  }

  lemma FitsOneMore(fields: seq<Field>, slots: seq<Slot>, i: nat)
    requires i < |fields| == |slots| && MessageFits(fields[..i], slots[..i])
    ensures MessageFits(fields, slots) ==> SlotFits(fields[i], slots[i])
    ensures SlotFits(fields[i], slots[i]) ==> MessageFits(fields[..i+1], slots[..i+1])
  {
    hide SlotFits;
  }

  lemma NoFields(fields: seq<Field>, slots: seq<Slot>)
    requires MessageInRange(fields, slots)
    ensures EncMsg(fields, slots, 0) == []
  {
  }

  /** The parts of a message are no longer than the message. */
  lemma {:induction false} PartOfMessage(fields: seq<Field>, slots: seq<Slot>, i: nat)
    requires MessageInRange(fields, slots) && i < |fields|
    ensures |EncMsg(fields, slots, i)| + |EncSlot(fields[i], slots[i])| <= |EncMsg(fields, slots, |fields|)|
    ensures EncMsg(fields, slots, i + 1) == EncMsg(fields, slots, i) + EncSlot(fields[i], slots[i])
  {
    MessageGrows(fields, slots, i + 1, |fields|);
  }

  lemma {:induction false} MessageGrows(fields: seq<Field>, slots: seq<Slot>, i: nat, n: nat)
    requires MessageInRange(fields, slots) && i <= n <= |fields|
    ensures |EncMsg(fields, slots, i)| <= |EncMsg(fields, slots, n)|
    decreases n
  {
    if i < n {
      MessageGrows(fields, slots, i, n - 1);
    }
  }

  /** encode_basic_field: the key, then the value. */
  method WriteTagged(stream: OStream, tag: Tag, k: Kind, v: Val) returns (ok: bool)
    requires stream.Valid() && InRange(k, v) && |EncVal(k, v)| < TWO64
    modifies stream
    ensures stream.Wrote(ok, Fits(k, v), old(stream.written), old(stream.out), Key(tag, WireType(k)) + EncVal(k, v))
    decreases k, 2
  {
    hide EncVal, Fits, InRange, Key;
    ghost var n0, s0 := stream.written, stream.out;
    ok := WriteKey(stream, tag, WireType(k));
    if !ok {
      return false;
    }
    ghost var n1, s1 := stream.written, stream.out;
    ok := WriteValue(stream, k, v);
    Twice(stream, ok, Fits(k, v), n0, s0, Key(tag, WireType(k)), n1, s1, EncVal(k, v));
  }

  ghost predicate AllFit(k: Kind, vs: seq<Val>) {
    forall i :: 0 <= i < |vs| ==> Fits(k, vs[i])
  }

  lemma FitsNext(k: Kind, vs: seq<Val>, i: nat)
    requires i < |vs| && AllFit(k, vs[..i])
    ensures AllFit(k, vs) ==> Fits(k, vs[i])
    ensures Fits(k, vs[i]) ==> AllFit(k, vs[..i+1])
  {
  }

  lemma NoneToFit(k: Kind, vs: seq<Val>)
    ensures AllFit(k, vs[..0])
  {
  }

  lemma {:induction false} ValsGrow(k: Kind, vs: seq<Val>, i: nat, n: nat)
    requires i <= n <= |vs| && forall j :: 0 <= j < |vs| ==> InRange(k, vs[j])
    ensures |EncVals(k, vs, i)| <= |EncVals(k, vs, n)|
    decreases n
  {
    if i < n {
      ValsGrow(k, vs, i, n - 1);
    }
  }

  lemma {:induction false} KeyedGrow(tag: Tag, k: Kind, vs: seq<Val>, i: nat, n: nat)
    requires i <= n <= |vs| && forall j :: 0 <= j < |vs| ==> InRange(k, vs[j])
    ensures |EncKeyed(tag, k, vs, i)| <= |EncKeyed(tag, k, vs, n)|
    decreases n
  {
    if i < n {
      KeyedGrow(tag, k, vs, i, n - 1);
    }
  }

  lemma NoVals(k: Kind, vs: seq<Val>)
    requires forall j :: 0 <= j < |vs| ==> InRange(k, vs[j])
    ensures EncVals(k, vs, 0) == []
  {
  }

  /** The parts of a packed array are no longer than the array. */
  lemma PartOfVals(k: Kind, vs: seq<Val>, i: nat)
    requires i < |vs| && forall j :: 0 <= j < |vs| ==> InRange(k, vs[j])
    ensures |EncVals(k, vs, i)| + |EncVal(k, vs[i])| <= |EncVals(k, vs, |vs|)|
    ensures EncVals(k, vs, i + 1) == EncVals(k, vs, i) + EncVal(k, vs[i])
  {
    hide EncVal, InRange;
    ValsGrow(k, vs, i + 1, |vs|);
  }

  lemma NoKeyed(tag: Tag, k: Kind, vs: seq<Val>)
    requires forall j :: 0 <= j < |vs| ==> InRange(k, vs[j])
    ensures EncKeyed(tag, k, vs, 0) == []
  {
  }

  lemma PartOfKeyed(tag: Tag, k: Kind, vs: seq<Val>, i: nat)
    requires i < |vs| && forall j :: 0 <= j < |vs| ==> InRange(k, vs[j])
    ensures |EncKeyed(tag, k, vs, i)| + |Key(tag, WireType(k)) + EncVal(k, vs[i])| <= |EncKeyed(tag, k, vs, |vs|)|
    ensures EncKeyed(tag, k, vs, i + 1) == EncKeyed(tag, k, vs, i) + (Key(tag, WireType(k)) + EncVal(k, vs[i]))
  {
    hide EncVal, InRange, Key;
    KeyedGrow(tag, k, vs, i + 1, |vs|);
  }

  /** The value loop of a packed array. */
  method WriteVals(stream: OStream, k: Kind, vs: seq<Val>) returns (ok: bool)
    requires stream.Valid() && Packable(k) && (forall i :: 0 <= i < |vs| ==> InRange(k, vs[i]))
    requires |EncVals(k, vs, |vs|)| < TWO64
    modifies stream
    ensures stream.Wrote(ok, true, old(stream.written), old(stream.out), EncVals(k, vs, |vs|))
    decreases k, 2
  {
    hide EncVal, InRange, Fits, Packable, EncVals, OStream.Wrote;
    PackableFits(k, vs);
    ghost var n0, s0, whole := stream.written, stream.out, EncVals(k, vs, |vs|);
    WroteNothing(stream);
    NoVals(k, vs);
    for i := 0 to |vs|
      invariant stream.Wrote(true, true, n0, s0, EncVals(k, vs, i))
    {
      PartOfVals(k, vs, i);
      WroteSo(stream, n0, s0, EncVals(k, vs, i));
      ghost var n1, s1 := stream.written, stream.out;
      ok := WriteValue(stream, k, vs[i]);
      OnePart(stream, ok, Fits(k, vs[i]), n0, s0, EncVals(k, vs, i), n1, s1, EncVal(k, vs[i]), whole, true);
      if !ok {
        return;
      }
    }
    ok := true;
  }

  /** The loop over an array that is not packed. */
  method WriteKeyed(stream: OStream, tag: Tag, k: Kind, vs: seq<Val>) returns (ok: bool)
    requires stream.Valid() && (forall i :: 0 <= i < |vs| ==> InRange(k, vs[i]))
    requires |EncKeyed(tag, k, vs, |vs|)| < TWO64
    modifies stream
    ensures stream.Wrote(ok, AllFit(k, vs), old(stream.written), old(stream.out), EncKeyed(tag, k, vs, |vs|))
    decreases k, 3
  {
    hide EncVal, InRange, Key, Fits, AllFit, EncKeyed, OStream.Wrote;
    ghost var n0, s0, whole := stream.written, stream.out, EncKeyed(tag, k, vs, |vs|);
    WroteNothing(stream);
    NoKeyed(tag, k, vs);
    NoneToFit(k, vs);
    for i := 0 to |vs|
      invariant stream.Wrote(true, true, n0, s0, EncKeyed(tag, k, vs, i))
      invariant AllFit(k, vs[..i])
    {
      PartOfKeyed(tag, k, vs, i);
      WroteSo(stream, n0, s0, EncKeyed(tag, k, vs, i));
      ghost var n1, s1 := stream.written, stream.out;
      ok := WriteTagged(stream, tag, k, vs[i]);
      FitsNext(k, vs, i);
      OnePart(stream, ok, Fits(k, vs[i]), n0, s0, EncKeyed(tag, k, vs, i), n1, s1,
              Key(tag, WireType(k)) + EncVal(k, vs[i]), whole, AllFit(k, vs));
      if !ok {
        return;
      }
    }
    assert vs[..|vs|] == vs;
    ok := true;
  }

  lemma {:induction false} FixedSizes(k: Kind, vs: seq<Val>, n: nat)
    requires n <= |vs| && forall j :: 0 <= j < |vs| ==> InRange(k, vs[j])
    ensures k.Fixed32? ==> |EncVals(k, vs, n)| == 4 * n
    ensures k.Fixed64? ==> |EncVals(k, vs, n)| == 8 * n
  {
    if n > 0 {
      FixedSizes(k, vs, n - 1);
    }
  }

  /** The size of a packed array: known for fixed widths, else from a sizing pass. */
  method PackedSize(k: Kind, vs: seq<Val>) returns (size: nat)
    requires Packable(k) && (forall i :: 0 <= i < |vs| ==> InRange(k, vs[i])) && |EncVals(k, vs, |vs|)| < TWO64
    ensures size == |EncVals(k, vs, |vs|)|
    decreases k, 3
  {
    FixedSizes(k, vs, |vs|);
    if k.Fixed32? {
      return 4 * |vs|;
    }
    if k.Fixed64? {
      return 8 * |vs|;
    }
    var sizer := new OStream(true, 0);
    var ok := WriteVals(sizer, k, vs);
    size := sizer.written;
  }

  /** encode_array, packed. */
  method WritePacked(stream: OStream, tag: Tag, k: Kind, vs: seq<Val>) returns (ok: bool)
    requires stream.Valid() && Packable(k) && (forall i :: 0 <= i < |vs| ==> InRange(k, vs[i]))
    requires |EncVals(k, vs, |vs|)| < TWO64
    modifies stream
    ensures var body := EncVals(k, vs, |vs|);
            stream.Wrote(ok, true, old(stream.written), old(stream.out), Key(tag, 2) + (Varint(|body|) + body))
    decreases k, 4
  {
    hide EncVals, InRange, Key, Packable;
    ghost var body := EncVals(k, vs, |vs|);
    ghost var n0, s0 := stream.written, stream.out;
    ok := WriteKey(stream, tag, 2);
    if !ok {
      return false;
    }
    var size := PackedSize(k, vs);
    ghost var n1, s1 := stream.written, stream.out;
    ok := WriteVarint(stream, size);
    if !ok {
      return false;
    }
    ghost var n2, s2 := stream.written, stream.out;
    if stream.sizing {
      ok := stream.Count(body, size);
    } else {
      ok := WriteVals(stream, k, vs);
    }
    Twice(stream, ok, true, n1, s1, Varint(size), n2, s2, body);
    Twice(stream, ok, true, n0, s0, Key(tag, 2), n1, s1, Varint(size) + body);
  }

  /** encode_field. */
  method WriteSlot(stream: OStream, f: Field, slot: Slot) returns (ok: bool)
    requires stream.Valid() && SlotInRange(f, slot) && |EncSlot(f, slot)| < TWO64
    modifies stream
    ensures stream.Wrote(ok, SlotFits(f, slot), old(stream.written), old(stream.out), EncSlot(f, slot))
    decreases f, 2
  {
    hide EncVal, EncVals, EncKeyed, InRange, Key, Fits, IsZero;
    assert stream.out + [] == stream.out;
    match slot
    case One(v) =>
      if IsZero(f.kind, v) {
        return true;
      }
      ok := WriteTagged(stream, f.tag, f.kind, v);
    case Maybe(has, v) =>
      if !has {
        return true;
      }
      ok := WriteTagged(stream, f.tag, f.kind, v);
    case Many(vs) =>
      if vs == [] {
        return true;
      }
      if |vs| > f.rule.max {
        return false;
      }
      if Packable(f.kind) {
        PackableFits(f.kind, vs);
        ok := WritePacked(stream, f.tag, f.kind, vs);
      } else {
        ok := WriteKeyed(stream, f.tag, f.kind, vs);
      }
  }

  lemma PackableFits(k: Kind, vs: seq<Val>)
    requires Packable(k)
    ensures forall i :: 0 <= i < |vs| ==> Fits(k, vs[i])
  {
  }

  /** The two passes agree: what a message is counted at is what it takes in a buffer, and a
      buffer of just that size takes it. */
  method SizeThenWrite(fields: seq<Field>, slots: seq<Slot>) returns (ok: bool, bytes: seq<byte>)
    requires MessageInRange(fields, slots) && |EncMsg(fields, slots, |fields|)| < TWO64
    ensures ok == MessageFits(fields, slots)
    ensures ok ==> bytes == EncMsg(fields, slots, |fields|)
  {
    hide EncMsg, MessageFits, MessageInRange;
    bytes := [];
    var sizer := new OStream(true, 0);
    ok := WriteMessage(sizer, fields, slots);
    if ok {
      var writer := new OStream(false, sizer.written);
      ok := WriteMessage(writer, fields, slots);
      bytes := writer.out;
    }
  }
}
