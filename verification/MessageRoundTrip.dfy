/** Decoding what was encoded. */
module MessageRoundTrip {
  import opened Bytes
  import opened Ints
  import opened Seqs
  import opened Varints
  import opened Varints32
  import opened Messages
  import opened MessageReader

  // ----- scalars -----

  lemma U32Back(v: nat, rest: seq<byte>)
    requires v < TWO32
    ensures TakeU32(Varint(v) + rest) == Took(v, |Varint(v)|)
  {
    ReadsEncoding(v, rest);
  }

  lemma U64Back(v: nat, rest: seq<byte>)
    requires v < TWO64
    ensures TakeU64(Varint(v) + rest) == Took(v, |Varint(v)|)
  {
    DecodeUndoesEncode(v, rest);
    TakeU64Is(Varint(v) + rest, |Varint(v)| - 1);
  }

  lemma StringBack(body: seq<byte>, rest: seq<byte>)
    requires |body| < TWO32
    ensures TakeString(Varint(|body|) + body + rest) == Took(body, |Varint(|body|)| + |body|)
  {
    var n := Varint(|body|);
    Assoc(n, body, rest);
    U32Back(|body|, body + rest);
    var s := n + (body + rest);
    assert s[|n|..|n|+|body|] == body;
  }

  lemma LittleEndianBack(v: nat, n: nat)
    requires (n == 4 && v < TWO32) || (n == 8 && v < TWO64)
    ensures FromLittleEndian(LittleEndian(v, n)) == v
  {
    LittleEndianMod(v, n);
  }

  function Pow256(n: nat): (p: nat)
    ensures p > 0
  {
    if n == 0 then 1 else 256 * Pow256(n - 1)
  }

  lemma {:induction false} LittleEndianMod(v: nat, n: nat)
    ensures v < Pow256(n) ==> FromLittleEndian(LittleEndian(v, n)) == v
    ensures Pow256(4) == TWO32 && Pow256(8) == TWO64
  {
    assert Pow256(0) == 1 && Pow256(1) == 256 && Pow256(2) == 0x1_0000 && Pow256(3) == 0x100_0000;
    assert Pow256(5) == 256 * Pow256(4) && Pow256(6) == 256 * Pow256(5) && Pow256(7) == 256 * Pow256(6);
    if n > 0 && v < Pow256(n) {
      assert v / 256 < Pow256(n - 1);
      LittleEndianMod(v / 256, n - 1);
      assert LittleEndian(v, n)[1..] == LittleEndian(v / 256, n - 1);
    }
  }

  // ----- what decoding restores -----

  /** The value decoding gives back: submessages with absent fields at their defaults. */
  function Canon(k: Kind, v: Val): Val
    decreases k, 1
  {
    match k
    case Sub(fields) => if v.Msg? && |v.slots| == |fields| then Msg(CanonSlots(fields, v.slots)) else v
    case _ => v
  }

  function CanonSlot(f: Field, slot: Slot): Slot
    decreases f, 2
  {
    match slot
    case One(v) => One(if IsZero(f.kind, v) then Default(f.kind) else Canon(f.kind, v))
    case Maybe(has, v) => Maybe(has, if has then Canon(f.kind, v) else Default(f.kind))
    case Many(vs) => Many(CanonVals(f.kind, vs))
  }

  function CanonVals(k: Kind, vs: seq<Val>): (r: seq<Val>)
    ensures |r| == |vs|
    decreases k, 2
  {
    seq(|vs|, i requires 0 <= i < |vs| => Canon(k, vs[i]))
  }

  function CanonSlots(fields: seq<Field>, slots: seq<Slot>): (r: seq<Slot>)
    requires |slots| == |fields|
    ensures |r| == |fields|
    decreases fields, 0
  {
    seq(|fields|, i requires 0 <= i < |fields| => CanonSlot(fields[i], slots[i]))
  }

  /** No two fields of a message, at any depth, share a tag. */
  ghost predicate Tagged(k: Kind)
    decreases k, 1
  {
    k.Sub? ==> AllTagged(k.fields)
  }

  ghost predicate AllTagged(fields: seq<Field>)
    decreases fields, 0
  {
    && (forall i, j :: 0 <= i < j < |fields| ==> fields[i].tag != fields[j].tag)
    && forall i :: 0 <= i < |fields| ==> FieldTagged(fields[i])
  }

  ghost predicate FieldTagged(f: Field)
    decreases f, 2
  {
    Tagged(f.kind)
  }

  // ----- one value -----

  lemma NumberBack(k: Kind, v: Val, rest: seq<byte>)
    requires Packable(k) && InRange(k, v)
    ensures DecVal(k, EncVal(k, v) + rest, Default(k)) == Took(v, |EncVal(k, v)|)
  {
    hide TakeU32, TakeU64, Varint, LittleEndian, FromLittleEndian;
    match k
    case Bool => U32Back(v.n, rest);
    case UInt(_) => U64Back(v.n, rest);
    case Int32 => U64Back(Unsigned(v.n), rest); SignedBack(v.n);
    case Int64 => U64Back(Unsigned(v.n), rest);
    case SInt64 => U64Back(ZigZag(v.n), rest); ZigZagRoundTrip(v.n);
    case Fixed32 => LittleEndianBack(v.n, 4); Joined(LittleEndian(v.n, 4), rest);
    case Fixed64 => LittleEndianBack(v.n, 8); Joined(LittleEndian(v.n, 8), rest);
    case _ =>
  }

  lemma SignedBack(x: int)
    requires -0x8000_0000 <= x < 0x8000_0000
    ensures Signed32(Unsigned(x)) == x
  {
    if x < 0 {
      assert (x + TWO64) % TWO32 == x + TWO32;
    }
  }

  /** A value is decoded to what it was, onto a default, with exactly its bytes. */
  lemma {:induction false} ValBack(k: Kind, v: Val, rest: seq<byte>)
    requires InRange(k, v) && Fits(k, v) && Tagged(k) && |EncVal(k, v)| < TWO32
    ensures DecVal(k, EncVal(k, v) + rest, Default(k)) == Took(Canon(k, v), |EncVal(k, v)|)
    decreases k, 1
  {
    if k.Blob? {
      StringBack(v.s, rest);
    } else if k.Sub? {
      var body := EncMsg(k.fields, v.slots, |k.fields|);
      StringBack(body, rest);
      MessageBack(k.fields, v.slots);
    } else {
      NumberBack(k, v, rest);
    }
  }

  // ----- one field -----

  lemma {:induction false} FindsTag(fields: seq<Field>, i: nat)
    requires i < |fields| && forall a, b :: 0 <= a < b < |fields| ==> fields[a].tag != fields[b].tag
    ensures FindTag(fields, fields[i].tag) == i
  {
  }

  /** A key of field i hands what follows to its decoder. */
  lemma KeyStep(fields: seq<Field>, i: nat, now: seq<Slot>, wire: nat, tail: seq<byte>)
    requires AllTagged(fields) && i < |fields| == |now| && wire < 8
    ensures DecMsg(fields, Key(fields[i].tag, wire) + tail, now) ==
            var x := DecSlot(fields[i], wire, tail, now[i]);
            if x.Bad? then Broken else DecMsg(fields, tail[x.used..], now[i := x.value])
  {
    hide DecSlot, Varint, TakeU32;
    var key := Key(fields[i].tag, wire);
    U32Back(fields[i].tag * 8 + wire, tail);
    FindsTag(fields, i);
    Joined(key, tail);
    assert (fields[i].tag * 8 + wire) / 8 == fields[i].tag && (fields[i].tag * 8 + wire) % 8 == wire;
  }

  /** A value behind its key sets its field, if the field's rule takes it. */
  lemma TaggedBack(fields: seq<Field>, i: nat, now: seq<Slot>, v: Val, after: Slot, rest: seq<byte>)
    requires AllTagged(fields) && i < |fields| == |now|
    requires InRange(fields[i].kind, v) && Fits(fields[i].kind, v) && |EncVal(fields[i].kind, v)| < TWO32
    requires var f := fields[i];
             || (f.rule.Singular? && now[i] == One(Default(f.kind)) && after == One(Canon(f.kind, v)))
             || (f.rule.Optional? && now[i] == Maybe(false, Default(f.kind)) && after == Maybe(true, Canon(f.kind, v)))
             || (f.rule.Repeated? && !Packable(f.kind) && now[i].Many? && |now[i].vs| < f.rule.max
                 && after == Many(now[i].vs + [Canon(f.kind, v)]))
    ensures DecMsg(fields, Key(fields[i].tag, WireType(fields[i].kind)) + EncVal(fields[i].kind, v) + rest, now) ==
            DecMsg(fields, rest, now[i := after])
    decreases fields[i], 3
  {
    hide DecMsg, DecVal, EncVal, Key, Canon, Default;
    var k := fields[i].kind;
    assert FieldTagged(fields[i]);
    Assoc(Key(fields[i].tag, WireType(k)), EncVal(k, v), rest);
    KeyStep(fields, i, now, WireType(k), EncVal(k, v) + rest);
    ValBack(k, v, rest);
    Joined(EncVal(k, v), rest);
  }

  /** An array that is not packed: its values join those decoded so far. */
  lemma {:induction false} KeyedBack(fields: seq<Field>, i: nat, now: seq<Slot>, vs: seq<Val>, n: nat, rest: seq<byte>)
    requires AllTagged(fields) && i < |fields| == |now| && n <= |vs|
    requires var f := fields[i];
             && f.rule.Repeated? && !Packable(f.kind) && |vs| <= f.rule.max && now[i] == Many([])
             && (forall j :: 0 <= j < |vs| ==> InRange(f.kind, vs[j]) && Fits(f.kind, vs[j]))
    requires |EncKeyed(fields[i].tag, fields[i].kind, vs, n)| < TWO32
    ensures DecMsg(fields, EncKeyed(fields[i].tag, fields[i].kind, vs, n) + rest, now) ==
            DecMsg(fields, rest, now[i := Many(CanonVals(fields[i].kind, vs)[..n])])
    decreases fields[i], 4, n
  {
    hide DecMsg, EncVal, Key, Canon, Fits, InRange, Packable, AllTagged;
    var k, tag := fields[i].kind, fields[i].tag;
    if n == 0 {
      assert [] + rest == rest && now[i := Many([])] == now && CanonVals(k, vs)[..0] == [];
    } else {
      var last := Key(tag, WireType(k)) + EncVal(k, vs[n-1]);
      Assoc(EncKeyed(tag, k, vs, n - 1), last, rest);
      KeyedBack(fields, i, now, vs, n - 1, last + rest);
      var mid := now[i := Many(CanonVals(k, vs)[..n-1])];
      assert CanonVals(k, vs)[..n] == CanonVals(k, vs)[..n-1] + [Canon(k, vs[n-1])];
      var after := Many(CanonVals(k, vs)[..n]);
      TaggedBack(fields, i, mid, vs[n-1], after, rest);
      assert mid[i := after] == now[i := after];
    }
  }

  /** A packed array: its values join those decoded so far. */
  lemma {:induction false} PackedBack(k: Kind, vs: seq<Val>, n: nat, max: nat, tail: seq<byte>)
    requires Packable(k) && n <= |vs| <= max && forall j :: 0 <= j < |vs| ==> InRange(k, vs[j])
    ensures DecPacked(k, EncVals(k, vs, n) + tail, [], max) == DecPacked(k, tail, vs[..n], max)
  {
    hide DecVal, EncVal, Default, InRange;
    if n == 0 {
      assert [] + tail == tail;
    } else {
      var last := EncVal(k, vs[n-1]);
      Assoc(EncVals(k, vs, n - 1), last, tail);
      PackedBack(k, vs, n - 1, max, last + tail);
      NumberBack(k, vs[n-1], tail);
      Joined(last, tail);
      NotEmpty(k, vs[n-1]);
      assert vs[..n] == vs[..n-1] + [vs[n-1]];
    }
  }

  lemma NotEmpty(k: Kind, v: Val)
    requires InRange(k, v)
    ensures EncVal(k, v) != []
  {
  }

  lemma PackedSlotBack(f: Field, vs: seq<Val>, rest: seq<byte>)
    requires f.rule.Repeated? && Packable(f.kind) && |vs| <= f.rule.max
    requires (forall j :: 0 <= j < |vs| ==> InRange(f.kind, vs[j])) && |EncVals(f.kind, vs, |vs|)| < TWO32
    ensures var body := EncVals(f.kind, vs, |vs|);
            DecSlot(f, 2, Varint(|body|) + body + rest, Many([])) == Took(Many(vs), |Varint(|body|)| + |body|)
  {
    hide DecVal, EncVals, TakeString, Packable;
    var body := EncVals(f.kind, vs, |vs|);
    StringBack(body, rest);
    PackedBack(f.kind, vs, |vs|, f.rule.max, []);
    assert body + [] == body && vs[..|vs|] == vs;
  }

  lemma CanonNumbers(k: Kind, vs: seq<Val>)
    requires Packable(k)
    ensures CanonVals(k, vs) == vs
  {
  }

  /** A field's bytes set its slot to the value they came from. */
  lemma {:induction false} SlotBack(fields: seq<Field>, i: nat, now: seq<Slot>, slot: Slot, rest: seq<byte>)
    requires AllTagged(fields) && i < |fields| == |now| && now[i] == DefaultSlot(fields[i])
    requires SlotInRange(fields[i], slot) && SlotFits(fields[i], slot) && |EncSlot(fields[i], slot)| < TWO32
    ensures DecMsg(fields, EncSlot(fields[i], slot) + rest, now) ==
            DecMsg(fields, rest, now[i := CanonSlot(fields[i], slot)])
    decreases fields, 2
  {
    hide DecMsg, EncVal, EncVals, EncKeyed, Key, Canon, Fits, InRange, IsZero, Default, CanonVals, Packable, AllTagged;
    var f := fields[i];
    if EncSlot(f, slot) == [] {
      EmptySlot(f, slot);
      assert [] + rest == rest && now[i := DefaultSlot(f)] == now;
    } else if slot.Many? {
      if Packable(f.kind) {
        var body := EncVals(f.kind, slot.vs, |slot.vs|);
        var s := Varint(|body|) + body;
        Assoc(Key(f.tag, 2), s, rest);
        KeyStep(fields, i, now, 2, s + rest);
        PackedSlotBack(f, slot.vs, rest);
        Joined(s, rest);
        CanonNumbers(f.kind, slot.vs);
      } else {
        KeyedBack(fields, i, now, slot.vs, |slot.vs|, rest);
        WholeCanon(f.kind, slot.vs);
      }
    } else {
      TaggedBack(fields, i, now, slot.v, CanonSlot(f, slot), rest);
    }
  }

  lemma WholeCanon(k: Kind, vs: seq<Val>)
    ensures CanonVals(k, vs)[..|vs|] == CanonVals(k, vs)
  {
  }

  lemma EmptySlot(f: Field, slot: Slot)
    requires SlotInRange(f, slot) && EncSlot(f, slot) == []
    ensures CanonSlot(f, slot) == DefaultSlot(f)
  {
    if slot.Many? && !Packable(f.kind) {
      KeyedNotEmpty(f.tag, f.kind, slot.vs);
    }
  }

  lemma KeyedNotEmpty(tag: Tag, k: Kind, vs: seq<Val>)
    requires forall j :: 0 <= j < |vs| ==> InRange(k, vs[j])
    ensures EncKeyed(tag, k, vs, |vs|) == [] <==> vs == []
  {
  }

  // ----- a whole message -----

  /** The slots when the first n fields have been decoded. */
  ghost function Halfway(fields: seq<Field>, slots: seq<Slot>, n: nat): (now: seq<Slot>)
    requires |slots| == |fields| && n <= |fields|
    ensures |now| == |fields|
  {
    CanonSlots(fields, slots)[..n] + Defaults(fields)[n..]
  }

  lemma HalfwayStep(fields: seq<Field>, slots: seq<Slot>, n: nat)
    requires |slots| == |fields| && n < |fields|
    ensures Halfway(fields, slots, n)[n] == DefaultSlot(fields[n])
    ensures Halfway(fields, slots, n)[n := CanonSlot(fields[n], slots[n])] == Halfway(fields, slots, n + 1)
  {
    hide CanonSlot, DefaultSlot;
  }

  lemma {:induction false} FieldsBack(fields: seq<Field>, slots: seq<Slot>, n: nat, rest: seq<byte>)
    requires MessageInRange(fields, slots) && MessageFits(fields, slots) && AllTagged(fields) && n <= |fields|
    requires |EncMsg(fields, slots, n)| < TWO32
    ensures DecMsg(fields, EncMsg(fields, slots, n) + rest, Defaults(fields)) ==
            DecMsg(fields, rest, Halfway(fields, slots, n))
    decreases fields, 3, n
  {
    hide DecMsg, EncSlot, SlotFits, SlotInRange, AllTagged, CanonSlot, DefaultSlot;
    if n == 0 {
      assert EncMsg(fields, slots, 0) + rest == rest;
      assert Halfway(fields, slots, 0) == Defaults(fields);
    } else {
      var last := EncSlot(fields[n-1], slots[n-1]);
      Assoc(EncMsg(fields, slots, n - 1), last, rest);
      FieldsBack(fields, slots, n - 1, last + rest);
      HalfwayStep(fields, slots, n - 1);
      SlotBack(fields, n - 1, Halfway(fields, slots, n - 1), slots[n-1], rest);
    }
  }

  /** Decoding an encoded message restores every field, absent ones at their defaults. */
  lemma {:induction false} MessageBack(fields: seq<Field>, slots: seq<Slot>)
    requires MessageInRange(fields, slots) && MessageFits(fields, slots) && AllTagged(fields)
    requires |EncMsg(fields, slots, |fields|)| < TWO32
    ensures DecMsg(fields, EncMsg(fields, slots, |fields|), Defaults(fields)) == Decoded(CanonSlots(fields, slots))
    decreases fields, 4
  {
    FieldsBack(fields, slots, |fields|, []);
    hide EncMsg, CanonSlots, MessageInRange, MessageFits, AllTagged;
    var s := EncMsg(fields, slots, |fields|);
    assert s + [] == s;
    assert Halfway(fields, slots, |fields|) == CanonSlots(fields, slots);
  }

  // ----- when nothing is lost -----

  /** No absent optional field, at any depth, has a value left in it. */
  ghost predicate Clean(k: Kind, v: Val)
    decreases k, 1
  {
    k.Sub? && v.Msg? ==> CleanMessage(k.fields, v.slots)
  }

  ghost predicate CleanMessage(fields: seq<Field>, slots: seq<Slot>)
    decreases fields, 0
  {
    |slots| == |fields| && forall i :: 0 <= i < |fields| ==> CleanSlot(fields[i], slots[i])
  }

  ghost predicate CleanSlot(f: Field, slot: Slot)
    decreases f, 2
  {
    match slot
    case One(v) => Clean(f.kind, v)
    case Maybe(has, v) => if has then Clean(f.kind, v) else v == Default(f.kind)
    case Many(vs) => forall i :: 0 <= i < |vs| ==> Clean(f.kind, vs[i])
  }

  lemma {:induction false} DefaultClean(k: Kind)
    ensures Clean(k, Default(k))
    decreases k
  {
    if k.Sub? {
      var slots := Defaults(k.fields);
      forall i | 0 <= i < |slots| ensures CleanSlot(k.fields[i], slots[i]) {
        var f := k.fields[i];
        DefaultClean(f.kind);
        assert slots[i] == DefaultSlot(f);
      }
    }
  }

  /** A clean value not worth encoding is the default. */
  lemma {:induction false} ZeroIsDefault(k: Kind, v: Val)
    requires InRange(k, v) && IsZero(k, v) && Clean(k, v)
    ensures v == Default(k)
    decreases k
  {
    if k.Sub? {
      forall i | 0 <= i < |v.slots| ensures v.slots[i] == Defaults(k.fields)[i] {
        var f, slot := k.fields[i], v.slots[i];
        assert SlotInRange(f, slot) && IsZeroSlot(f, slot) && CleanSlot(f, slot);
        if slot.One? {
          ZeroIsDefault(f.kind, slot.v);
        }
      }
      assert v.slots == Defaults(k.fields);
    }
  }

  /** A value comes back unchanged exactly if it is clean. */
  lemma {:induction false} CanonKeepsClean(k: Kind, v: Val)
    requires InRange(k, v)
    ensures Canon(k, v) == v <==> Clean(k, v)
    decreases k, 1
  {
    if k.Sub? {
      CanonKeepsMessage(k.fields, v.slots);
    }
  }

  lemma {:induction false} CanonKeepsMessage(fields: seq<Field>, slots: seq<Slot>)
    requires MessageInRange(fields, slots)
    ensures CanonSlots(fields, slots) == slots <==> CleanMessage(fields, slots)
    decreases fields, 0
  {
    forall i | 0 <= i < |fields| ensures CanonSlots(fields, slots)[i] == slots[i] <==> CleanSlot(fields[i], slots[i]) {
      CanonKeepsSlot(fields[i], slots[i]);
    }
    if CleanMessage(fields, slots) {
      assert forall i :: 0 <= i < |fields| ==> CanonSlots(fields, slots)[i] == slots[i];
    }
  }

  lemma {:induction false} CanonKeepsSlot(f: Field, slot: Slot)
    requires SlotInRange(f, slot)
    ensures CanonSlot(f, slot) == slot <==> CleanSlot(f, slot)
    decreases f, 2
  {
    match slot
    case One(v) =>
      CanonKeepsClean(f.kind, v);
      DefaultClean(f.kind);
      if IsZero(f.kind, v) && Clean(f.kind, v) {
        ZeroIsDefault(f.kind, v);
      }
    case Maybe(has, v) =>
      CanonKeepsClean(f.kind, v);
    case Many(vs) =>
      forall i | 0 <= i < |vs| ensures CanonVals(f.kind, vs)[i] == vs[i] <==> Clean(f.kind, vs[i]) {
        CanonKeepsClean(f.kind, vs[i]);
      }
  }

  /** Encoding and decoding is the identity exactly on the messages whose absent optional
      fields hold defaults; of the others it drops what the absent fields held. */
  lemma RoundTripIsIdentity(fields: seq<Field>, slots: seq<Slot>)
    requires MessageInRange(fields, slots) && MessageFits(fields, slots) && AllTagged(fields)
    requires |EncMsg(fields, slots, |fields|)| < TWO32
    ensures DecMsg(fields, EncMsg(fields, slots, |fields|), Defaults(fields)) == Decoded(slots)
            <==> CleanMessage(fields, slots)
  {
    MessageBack(fields, slots);
    CanonKeepsMessage(fields, slots);
  }

  /** A message that does not come back: its one field is absent and holds a five. */
  lemma DropsAbsent()
    ensures var fields := [Field(1, UInt(10), Optional)];
            var slots := [Maybe(false, Num(5))];
            && MessageInRange(fields, slots) && MessageFits(fields, slots) && AllTagged(fields)
            && EncMsg(fields, slots, 1) == []
            && DecMsg(fields, EncMsg(fields, slots, 1), Defaults(fields)) == Decoded([Maybe(false, Num(0))])
  {
    var fields := [Field(1, UInt(10), Optional)];
    var slots := [Maybe(false, Num(5))];
    assert EncMsg(fields, slots, 0) == [] && EncSlot(fields[0], slots[0]) == [];
    assert Defaults(fields) == [Maybe(false, Num(0))];
  }

  // ----- more bytes behind, and unknown fields between -----

  /** What is taken off the front does not depend on what follows. */
  lemma {:induction false} FromStable(s: seq<byte>, b: seq<byte>, n: nat, result: nat)
    requires ReadFrom(s, n, result).Got?
    ensures ReadFrom(s + b, n, result) == ReadFrom(s, n, result)
    decreases |s| - n
  {
    assert (s + b)[n] == s[n];
    if s[n] >= 128 {
      var c: int := s[n];
      FromStable(s, b, n + 1, if n >= 5 then result else if n == 4 then result + c % 16 * 0x1000_0000
                              else result + c % 128 * Pow128(n));
    }
  }

  lemma U32Stable(s: seq<byte>, b: seq<byte>)
    requires TakeU32(s).Took?
    ensures TakeU32(s + b) == TakeU32(s)
  {
    FromStable(s, b, 0, 0);
  }

  lemma U64Stable(s: seq<byte>, b: seq<byte>)
    requires TakeU64(s).Took?
    ensures TakeU64(s + b) == TakeU64(s)
  {
    var k: nat :| Accepts(s, k);
    TakeU64Is(s, k);
    assert (s + b)[..k+1] == s[..k+1];
    assert forall i :: 0 <= i <= k ==> (s + b)[i] == s[i];
    TakeU64Is(s + b, k);
  }

  lemma StringStable(s: seq<byte>, b: seq<byte>)
    requires TakeString(s).Took?
    ensures TakeString(s + b) == TakeString(s)
  {
    U32Stable(s, b);
    var n := TakeU32(s);
    hide TakeU32;
    assert (s + b)[n.used..n.used+n.value] == s[n.used..n.used+n.value];
  }

  lemma BytesStable(s: seq<byte>, b: seq<byte>, n: nat)
    requires TakeBytes(s, n).Took?
    ensures TakeBytes(s + b, n) == TakeBytes(s, n)
  {
    assert (s + b)[..n] == s[..n];
  }

  lemma {:induction false} VarintStable(s: seq<byte>, b: seq<byte>)
    requires SkippedVarint(s) > 0
    ensures SkippedVarint(s + b) == SkippedVarint(s)
  {
    assert (s + b)[0] == s[0];
    if s[0] >= 128 {
      VarintStable(s[1..], b);
      assert (s + b)[1..] == s[1..] + b;
    }
  }

  lemma SkippedStable(s: seq<byte>, wire: nat, b: seq<byte>)
    requires Skipped(s, wire).Took?
    ensures Skipped(s + b, wire) == Skipped(s, wire)
  {
    if wire == 0 {
      VarintStable(s, b);
    } else if wire == 2 {
      StringStable(s, b);
    }
  }

  lemma ValStable(k: Kind, s: seq<byte>, cur: Val, b: seq<byte>)
    requires DecVal(k, s, cur).Took?
    ensures DecVal(k, s + b, cur) == DecVal(k, s, cur)
  {
    hide TakeU32, TakeU64, TakeString, TakeBytes, DecMsg;
    match k
    case Bool => U32Stable(s, b);
    case Fixed32 => BytesStable(s, b, 4);
    case Fixed64 => BytesStable(s, b, 8);
    case Blob(_) => StringStable(s, b);
    case Sub(_) => StringStable(s, b);
    case _ => U64Stable(s, b);
  }

  lemma SlotStable(f: Field, wire: nat, s: seq<byte>, slot: Slot, b: seq<byte>)
    requires DecSlot(f, wire, s, slot).Took?
    ensures DecSlot(f, wire, s + b, slot) == DecSlot(f, wire, s, slot)
  {
    hide DecVal, TakeString, DecPacked, Packable;
    if f.rule.Repeated? && wire == 2 && Packable(f.kind) {
      StringStable(s, b);
    } else {
      ValStable(f.kind, s, if f.rule.Repeated? then Default(f.kind) else slot.v, b);
    }
  }

  /** Bytes that decode on their own can be decoded first: the rest goes on from there. */
  lemma {:induction false} DecodeSplits(fields: seq<Field>, a: seq<byte>, b: seq<byte>, now: seq<Slot>)
    requires |now| == |fields| && DecMsg(fields, a, now).Decoded?
    ensures DecMsg(fields, a + b, now) == DecMsg(fields, b, DecMsg(fields, a, now).slots)
    decreases |a|
  {
    hide TakeU32, Skipped, DecSlot;
    if a == [] {
      assert a + b == b;
    } else {
      U32Stable(a, b);
      var key := TakeU32(a);
      var rest := a[key.used..];
      Behind(a, b, key.used);
      var i := FindTag(fields, key.value / 8);
      if i == |fields| {
        SkippedStable(rest, key.value % 8, b);
        var x := Skipped(rest, key.value % 8);
        Behind(rest, b, x.used);
        DecodeSplits(fields, rest[x.used..], b, now);
      } else {
        SlotStable(fields[i], key.value % 8, rest, now[i], b);
        var x := DecSlot(fields[i], key.value % 8, rest, now[i]);
        Behind(rest, b, x.used);
        DecodeSplits(fields, rest[x.used..], b, now[i := x.value]);
      }
    }
  }

  /** A field of unknown tag, well formed for its wire type. */
  ghost predicate Unknown(fields: seq<Field>, tag: nat, wire: nat, payload: seq<byte>) {
    && 0 < tag < 0x2000_0000 && wire < 8 && FindTag(fields, tag) == |fields|
    && Skipped(payload, wire) == Took((), |payload|)
  }

  lemma KeyParts(tag: nat, wire: nat)
    requires wire < 8
    ensures (tag * 8 + wire) / 8 == tag && (tag * 8 + wire) % 8 == wire
  {
  }

  lemma KeyBack(tag: nat, wire: nat, rest: seq<byte>)
    requires tag < 0x2000_0000 && wire < 8
    ensures Key(tag, wire) != [] && TakeU32(Key(tag, wire) + rest) == Took(tag * 8 + wire, |Key(tag, wire)|)
  {
    hide TakeU32;
    U32Back(tag * 8 + wire, rest);
  }

  lemma UnknownStep(fields: seq<Field>, tag: nat, wire: nat, payload: seq<byte>, b: seq<byte>, now: seq<Slot>)
    requires |now| == |fields| && Unknown(fields, tag, wire, payload)
    ensures DecMsg(fields, Key(tag, wire) + (payload + b), now) == DecMsg(fields, b, now)
  {
    hide Skipped, TakeU32, Varint, DecMsg, Key, FindTag;
    KeyBack(tag, wire, payload + b);
    Joined(Key(tag, wire), payload + b);
    Joined(payload, b);
    SkippedStable(payload, wire, b);
    KeyParts(tag, wire);
    UnknownField(fields, Key(tag, wire) + (payload + b), now, tag * 8 + wire, |Key(tag, wire)|);
  }

  /** Fields nobody knows, put between others, do not change what is decoded. */
  lemma UnknownIgnored(fields: seq<Field>, a: seq<byte>, tag: nat, wire: nat, payload: seq<byte>, b: seq<byte>,
                       now: seq<Slot>)
    requires |now| == |fields| && DecMsg(fields, a, now).Decoded? && Unknown(fields, tag, wire, payload)
    ensures DecMsg(fields, a + (Key(tag, wire) + (payload + b)), now) == DecMsg(fields, a + b, now)
  {
    hide DecMsg, Unknown, Key;
    DecodeSplits(fields, a, b, now);
    DecodeSplits(fields, a, Key(tag, wire) + (payload + b), now);
    UnknownStep(fields, tag, wire, payload, b, DecMsg(fields, a, now).slots);
  }
}
