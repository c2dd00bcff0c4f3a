/** Messages: field descriptors, values, and their encoding as a byte string. */
module Messages {
  import opened Bytes
  import opened Ints
  import opened Varints

  // ----- descriptors and values -----

  /** How a field's value is stored; a bound is what its C type or array holds. */
  datatype Kind =
    | Bool
    | UInt(max: nat)
    | Int32
    | Int64
    | SInt64
    | Fixed32
    | Fixed64
    | Blob(max: nat)
    | Sub(fields: seq<Field>)

  /** Singular fields are proto3's, without a presence flag. */
  datatype Rule = Singular | Optional | Repeated(max: nat)

  /** Tags are kept in 16 bits; zero is none. */
  type Tag = t: nat | 0 < t < 0x1_0000 witness 1

  datatype Field = Field(tag: Tag, kind: Kind, rule: Rule)

  datatype Val = Num(n: int) | Bin(s: seq<byte>) | Msg(slots: seq<Slot>)

  datatype Slot = One(v: Val) | Maybe(has: bool, v: Val) | Many(vs: seq<Val>)

  /** v is a value its C type can hold. */
  ghost predicate InRange(k: Kind, v: Val)
    decreases k, 1
  {
    match k
    case Bool => v == Num(0) || v == Num(1)
    case UInt(max) => v.Num? && 0 <= v.n <= max < TWO64
    case Int32 => v.Num? && -TWO31 <= v.n < TWO31
    case Int64 => v.Num? && -TWO63 <= v.n < TWO63
    case SInt64 => v.Num? && -TWO63 <= v.n < TWO63
    case Fixed32 => v.Num? && 0 <= v.n < TWO32
    case Fixed64 => v.Num? && 0 <= v.n < TWO64
    case Blob(_) => v.Bin? && |v.s| < TWO32
    case Sub(fields) => v.Msg? && MessageInRange(fields, v.slots)
  }

  ghost predicate MessageInRange(fields: seq<Field>, slots: seq<Slot>)
    decreases fields, 0
  {
    |slots| == |fields| && forall i :: 0 <= i < |fields| ==> SlotInRange(fields[i], slots[i])
  }

  ghost predicate SlotInRange(f: Field, slot: Slot)
    decreases f, 2
  {
    match f.rule
    case Singular => slot.One? && InRange(f.kind, slot.v)
    case Optional => slot.Maybe? && InRange(f.kind, slot.v)
    case Repeated(_) => slot.Many? && forall i :: 0 <= i < |slot.vs| ==> InRange(f.kind, slot.vs[i])
  }

  /** pb_check_proto3_default_value: the value is not worth encoding. */
  predicate IsZero(k: Kind, v: Val)
    decreases k, 1
  {
    match k
    case Blob(_) => v.Bin? && v.s == []
    case Sub(fields) =>
      v.Msg? && |v.slots| == |fields| && forall i :: 0 <= i < |fields| ==> IsZeroSlot(fields[i], v.slots[i])
    case _ => v == Num(0)
  }

  predicate IsZeroSlot(f: Field, slot: Slot)
    decreases f, 2
  {
    match slot
    case One(v) => IsZero(f.kind, v)
    case Maybe(has, _) => !has
    case Many(vs) => vs == []
  }

  // ----- the encoding -----

  function WireType(k: Kind): (w: nat)
    ensures w <= 5
  {
    match k
    case Fixed32 => 5
    case Fixed64 => 1
    case Blob(_) => 2
    case Sub(_) => 2
    case _ => 0
  }

  /** Numbers of a repeated field are packed into one string. */
  predicate Packable(k: Kind) {
    !k.Blob? && !k.Sub?
  }

  /** The n low bytes of v, the lowest first. */
  function LittleEndian(v: nat, n: nat): (s: seq<byte>)
    ensures |s| == n
  {
    if n == 0 then [] else [v % 256] + LittleEndian(v / 256, n - 1)
  }

  /** A 64-bit word holding x, in two's complement. */
  function Unsigned(x: int): nat
    requires -TWO63 <= x < TWO64
  {
    if x < 0 then x + TWO64 else x
  }

  function Key(tag: nat, wire: nat): seq<byte> {
    Varint(tag * 8 + wire)
  }

  /** A value without its key. */
  ghost function EncVal(k: Kind, v: Val): seq<byte>
    requires InRange(k, v)
    decreases k, 1
  {
    match k
    case Bool => Varint(v.n)
    case UInt(_) => Varint(v.n)
    case Int32 => Varint(Unsigned(v.n))
    case Int64 => Varint(Unsigned(v.n))
    case SInt64 => Varint(ZigZag(v.n))
    case Fixed32 => LittleEndian(v.n, 4)
    case Fixed64 => LittleEndian(v.n, 8)
    case Blob(_) => Varint(|v.s|) + v.s
    case Sub(fields) => var body := EncMsg(fields, v.slots, |fields|); Varint(|body|) + body
  }

  /** The first n values, without keys. */
  ghost function EncVals(k: Kind, vs: seq<Val>, n: nat): seq<byte>
    requires n <= |vs| && forall i :: 0 <= i < |vs| ==> InRange(k, vs[i])
    decreases k, 2, n
  {
    if n == 0 then [] else EncVals(k, vs, n - 1) + EncVal(k, vs[n-1])
  }

  /** The first n values, each with its key. */
  ghost function EncKeyed(tag: Tag, k: Kind, vs: seq<Val>, n: nat): seq<byte>
    requires n <= |vs| && forall i :: 0 <= i < |vs| ==> InRange(k, vs[i])
    decreases k, 2, n
  {
    if n == 0 then [] else EncKeyed(tag, k, vs, n - 1) + (Key(tag, WireType(k)) + EncVal(k, vs[n-1]))
  }

  ghost function EncSlot(f: Field, slot: Slot): seq<byte>
    requires SlotInRange(f, slot)
    decreases f, 2
  {
    match slot
    case One(v) => if IsZero(f.kind, v) then [] else Key(f.tag, WireType(f.kind)) + EncVal(f.kind, v)
    case Maybe(has, v) => if !has then [] else Key(f.tag, WireType(f.kind)) + EncVal(f.kind, v)
    case Many(vs) =>
      if vs == [] then []
      else if Packable(f.kind) then
        var body := EncVals(f.kind, vs, |vs|);
        Key(f.tag, 2) + (Varint(|body|) + body)
      else EncKeyed(f.tag, f.kind, vs, |vs|)
  }

  /** The first n fields of a message. */
  ghost function EncMsg(fields: seq<Field>, slots: seq<Slot>, n: nat): seq<byte>
    requires MessageInRange(fields, slots) && n <= |fields|
    decreases fields, 0, n
  {
    if n == 0 then [] else EncMsg(fields, slots, n - 1) + EncSlot(fields[n-1], slots[n-1])
  }

  /** What the encoder checks of the values it writes: byte strings and arrays that fit. */
  ghost predicate Fits(k: Kind, v: Val)
    decreases k, 1
  {
    match k
    case Blob(max) => v.Bin? && |v.s| <= max
    case Sub(fields) => v.Msg? && MessageFits(fields, v.slots)
    case _ => true
  }

  ghost predicate MessageFits(fields: seq<Field>, slots: seq<Slot>)
    decreases fields, 0
  {
    |slots| == |fields| && forall i :: 0 <= i < |fields| ==> SlotFits(fields[i], slots[i])
  }

  ghost predicate SlotFits(f: Field, slot: Slot)
    decreases f, 2
  {
    match slot
    case One(v) => IsZero(f.kind, v) || Fits(f.kind, v)
    case Maybe(has, v) => !has || Fits(f.kind, v)
    case Many(vs) =>
      && (f.rule.Repeated? ==> |vs| <= f.rule.max)
      && forall i :: 0 <= i < |vs| ==> Fits(f.kind, vs[i])
  }
}
