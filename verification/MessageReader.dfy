/** The message decoder. */
module MessageReader {
  import opened Bytes
  import opened Ints
  import opened Varints
  import opened Varints32
  import opened Messages
  import FieldIter

  /** A value taken off the front of a byte string, with its length there. */
  datatype Take<T> = Took(value: T, used: nat) | Bad

  datatype Outcome = Decoded(slots: seq<Slot>) | Broken

  // ----- scalars -----

  ghost function TakeU32(s: seq<byte>): (x: Take<nat>)
    ensures x.Took? ==> 0 < x.used <= |s|
  {
    FromUsed(s, 0, 0);
    var r := ReadFrom(s, 0, 0);
    if r.Got? then Took(r.value, r.used) else Bad
  }

  lemma {:induction false} FromUsed(s: seq<byte>, n: nat, result: nat)
    ensures var r := ReadFrom(s, n, result); r.Got? ==> n < r.used <= |s|
    decreases |s| - n
  {
    if n < |s| && s[n] >= 128 && !(n >= 5 && (n >= 10 || !Extends(s[n], n, result))) && !(n == 4 && !FifthFits(s[n])) {
      var b: int := s[n];
      FromUsed(s, n + 1, if n >= 5 then result else if n == 4 then result + b % 16 * 0x1000_0000
                         else result + b % 128 * Pow128(n));
    }
  }

  ghost function TakeU64(s: seq<byte>): (x: Take<nat>)
    ensures x.Took? ==> 0 < x.used <= |s| && x.value < TWO64
  {
    if exists k: nat :: Accepts(s, k) then
      var k: nat :| Accepts(s, k);
      AcceptedBound(s, k);
      Took(Base128(s[..k+1]), k + 1)
    else Bad
  }

  lemma AcceptedBound(s: seq<byte>, k: nat)
    requires Accepts(s, k)
    ensures k < |s| && Base128(s[..k+1]) < TWO64
  {
    assert Part(s, k + 1, false);
    AllRead(s, k + 1);
  }

  lemma AcceptsOnce(s: seq<byte>, k: nat, m: nat)
    requires Accepts(s, k) && Accepts(s, m)
    ensures k == m
  {
  }

  lemma TakeU64Is(s: seq<byte>, k: nat)
    requires Accepts(s, k)
    ensures TakeU64(s) == Took(Base128(s[..k+1]), k + 1)
  {
    var m: nat :| Accepts(s, m) && TakeU64(s) == Took(Base128(s[..m+1]), m + 1);
    AcceptsOnce(s, k, m);
  }

  /** A 32-bit word read as signed. */
  function Signed32(w: nat): int {
    var low := w % TWO32;
    if low < TWO31 then low else low - TWO32
  }

  function Signed64(w: nat): int
    requires w < TWO64
  {
    if w < TWO63 then w else w - TWO64
  }

  function FromLittleEndian(s: seq<byte>): nat {
    if s == [] then 0 else s[0] + 256 * FromLittleEndian(s[1..])
  }

  ghost function TakeBytes(s: seq<byte>, n: nat): Take<seq<byte>> {
    if |s| < n then Bad else Took(s[..n], n)
  }

  /** A length, and that many bytes. */
  ghost function TakeString(s: seq<byte>): (x: Take<seq<byte>>)
    ensures x.Took? ==> 0 < x.used <= |s| && |x.value| < x.used
  {
    var n := TakeU32(s);
    if n.Bad? then Bad
    else if |s| - n.used < n.value then Bad
    else Took(s[n.used..n.used+n.value], n.used + n.value)
  }

  // ----- fields nobody knows -----

  /** pb_skip_varint: bytes up to the first without the top bit, however many. */
  function SkippedVarint(s: seq<byte>): (n: nat)
    ensures n <= |s|
  {
    if s == [] then 0 else if s[0] < 128 then 1 else
      var n := SkippedVarint(s[1..]);
      if n == 0 then 0 else n + 1
  }

  /** pb_skip_field: how long the value is; none if it is cut short or of no known type. */
  ghost function Skipped(s: seq<byte>, wire: nat): (x: Take<()>)
    ensures x.Took? ==> x.used <= |s|
  {
    if wire == 0 then (if SkippedVarint(s) > 0 then Took((), SkippedVarint(s)) else Bad)
    else if wire == 1 then (if |s| < 8 then Bad else Took((), 8))
    else if wire == 2 then (var x := TakeString(s); if x.Took? then Took((), x.used) else Bad)
    else if wire == 5 then (if |s| < 4 then Bad else Took((), 4))
    else Bad
  }

  // ----- messages -----

  /** What a field is set to before decoding. */
  function Default(k: Kind): Val
    decreases k, 1
  {
    match k
    case Blob(_) => Bin([])
    case Sub(fields) => Msg(Defaults(fields))
    case _ => Num(0)
  }

  function DefaultSlot(f: Field): Slot
    decreases f, 2
  {
    match f.rule
    case Singular => One(Default(f.kind))
    case Optional => Maybe(false, Default(f.kind))
    case Repeated(_) => Many([])
  }

  function Defaults(fields: seq<Field>): (slots: seq<Slot>)
    ensures |slots| == |fields|
    decreases fields, 0
  {
    seq(|fields|, i requires 0 <= i < |fields| => DefaultSlot(fields[i]))
  }

  /** The place of the field with this tag; past the end if there is none. */
  function FindTag(fields: seq<Field>, tag: nat): (i: nat)
    ensures i <= |fields| && (i < |fields| ==> fields[i].tag == tag)
    ensures forall j :: 0 <= j < i ==> fields[j].tag != tag
  {
    if fields == [] then 0
    else
      var i := FindTag(fields[..|fields|-1], tag);
      if i < |fields| - 1 then i else if fields[i].tag == tag then i else |fields|
  }

  /** The descriptor lists these fields, none of them an extension range. */
  ghost predicate Describes(d: FieldIter.Desc, fields: seq<Field>) {
    && d.Valid() && d.count == |fields|
    && forall i :: 0 <= i < |fields| ==> d.Tag(i) == fields[i].tag && !FieldIter.IsExtension(d.Type(i))
  }

  /** The lookup of pb_decode_inner: the cyclic search, from wherever the iterator stands, ends
      on the field a scan from the front would find. */
  method LookUp(iter: FieldIter.Iter, fields: seq<Field>, tag: nat) returns (i: nat)
    requires iter.Loaded() && Describes(iter.d, fields)
    modifies iter
    ensures iter.Loaded()
    ensures i == FindTag(fields, tag)
    ensures i < |fields| ==> iter.index == i
  {
    ghost var place := FindTag(fields, tag);
    assert place < |fields| ==> iter.d.Matches(place, tag);
    assert iter.d.Tag(iter.index) == fields[iter.index].tag;
    var found := iter.Find(tag);
    assert iter.d.Tag(iter.index) == fields[iter.index].tag;
    i := if found then iter.index else |fields|;
    assert place < |fields| && found ==> iter.d.Tag(place) == iter.d.Tag(iter.index);
  }

  ghost function DecVal(k: Kind, s: seq<byte>, cur: Val): (x: Take<Val>)
    ensures x.Took? ==> 0 < x.used <= |s|
    decreases k, 1, |s|
  {
    match k
    case Bool => var x := TakeU32(s); if x.Took? then Took(Num(if x.value != 0 then 1 else 0), x.used) else Bad
    case UInt(max) => var x := TakeU64(s); if x.Took? && x.value <= max then Took(Num(x.value), x.used) else Bad
    case Int32 => var x := TakeU64(s); if x.Took? then Took(Num(Signed32(x.value)), x.used) else Bad
    case Int64 => var x := TakeU64(s); if x.Took? then Took(Num(Signed64(x.value)), x.used) else Bad
    case SInt64 => var x := TakeU64(s); if x.Took? then Took(Num(Unzigzagged(x.value)), x.used) else Bad
    case Fixed32 => var x := TakeBytes(s, 4); if x.Took? then Took(Num(FromLittleEndian(x.value)), 4) else Bad
    case Fixed64 => var x := TakeBytes(s, 8); if x.Took? then Took(Num(FromLittleEndian(x.value)), 8) else Bad
    case Blob(max) =>
      var x := TakeString(s);
      if x.Took? && |x.value| <= max then Took(Bin(x.value), x.used) else Bad
    case Sub(fields) =>
      var x := TakeString(s);
      if x.Bad? || !cur.Msg? || |cur.slots| != |fields| then Bad
      else
        var body := DecMsg(fields, x.value, cur.slots);
        if body.Decoded? then Took(Msg(body.slots), x.used) else Bad
  }

  /** The values of a packed array, behind those there are. */
  ghost function DecPacked(k: Kind, s: seq<byte>, vs: seq<Val>, max: nat): (x: Outcome)
    ensures x.Decoded? ==> |x.slots| == 1 && x.slots[0].Many?
    decreases k, 2, |s|
  {
    if s == [] then Decoded([Many(vs)])
    else if |vs| >= max then Broken
    else
      var x := DecVal(k, s, Default(k));
      if x.Bad? then Broken else DecPacked(k, s[x.used..], vs + [x.value], max)
  }

  ghost function DecSlot(f: Field, wire: nat, s: seq<byte>, slot: Slot): (x: Take<Slot>)
    ensures x.Took? ==> 0 < x.used <= |s|
    decreases f, 2, |s|
  {
    match f.rule
    case Singular =>
      if wire != WireType(f.kind) || !slot.One? then Bad
      else var x := DecVal(f.kind, s, slot.v); if x.Took? then Took(One(x.value), x.used) else Bad
    case Optional =>
      if wire != WireType(f.kind) || !slot.Maybe? then Bad
      else var x := DecVal(f.kind, s, slot.v); if x.Took? then Took(Maybe(true, x.value), x.used) else Bad
    case Repeated(max) =>
      if !slot.Many? then Bad
      else if wire == 2 && Packable(f.kind) then
        var w := TakeString(s);
        if w.Bad? then Bad
        else
          var x := DecPacked(f.kind, w.value, slot.vs, max);
          if x.Decoded? then Took(x.slots[0], w.used) else Bad
      else if |slot.vs| >= max || wire != WireType(f.kind) then Bad
      else
        var x := DecVal(f.kind, s, Default(f.kind));
        if x.Took? then Took(Many(slot.vs + [x.value]), x.used) else Bad
  }

  /** pb_decode_inner's loop: all fields of s, onto the slots there are. */
  ghost function DecMsg(fields: seq<Field>, s: seq<byte>, slots: seq<Slot>): (x: Outcome)
    requires |slots| == |fields|
    ensures x.Decoded? ==> |x.slots| == |fields|
    decreases fields, 0, |s|
  {
    if s == [] then Decoded(slots)
    else
      var key := TakeU32(s);
      if key.Bad? || key.value / 8 == 0 then Broken
      else
        var rest := s[key.used..];
        var i := FindTag(fields, key.value / 8);
        if i == |fields| then
          var x := Skipped(rest, key.value % 8);
          if x.Bad? then Broken else DecMsg(fields, rest[x.used..], slots)
        else
          var x := DecSlot(fields[i], key.value % 8, rest, slots[i]);
          if x.Bad? then Broken else DecMsg(fields, rest[x.used..], slots[i := x.value])
  }

  /** pb_decode: onto the defaults. */
  ghost function DecodeAll(fields: seq<Field>, s: seq<byte>): Outcome {
    DecMsg(fields, s, Defaults(fields))
  }

  // ----- the decoder -----

  /** A read succeeds exactly when the value can be taken off the front, and takes just that. */
  ghost predicate Takes<T>(stream: IStream, r: Result<T>, x: Take<T>, pos0: nat)
    reads stream
  {
    && stream.Valid()
    && (r.Ok? <==> x.Took?)
    && (r.Ok? ==> r.value == x.value && stream.pos == pos0 + x.used)
  }

  method ReadU32(stream: IStream) returns (r: Result<nat>)
    requires stream.Valid()
    modifies stream
    ensures Takes(stream, r, TakeU32(old(stream.Rest())), old(stream.pos))
  {
    r := DecodeVarint32(stream);
  }

  method ReadU64(stream: IStream) returns (r: Result<nat>)
    requires stream.Valid()
    modifies stream
    ensures Takes(stream, r, TakeU64(old(stream.Rest())), old(stream.pos))
  {
    ghost var s := stream.Rest();
    r := stream.DecodeVarint();
    if r.Ok? {
      TakeU64Is(s, stream.pos - old(stream.pos) - 1);
    }
  }

  /** pb_read. */
  method ReadBytes(stream: IStream, n: nat) returns (r: Result<seq<byte>>)
    requires stream.Valid()
    modifies stream
    ensures Takes(stream, r, TakeBytes(old(stream.Rest()), n), old(stream.pos))
  {
    if |stream.bytes| - stream.pos < n {
      return Err(EndOfStream);
    }
    assert stream.Rest()[..n] == stream.bytes[stream.pos..stream.pos+n];
    r := Ok(stream.bytes[stream.pos..stream.pos+n]);
    stream.pos := stream.pos + n;
  }

  /** pb_make_string_substream: the window the substream is limited to. */
  method ReadWindow(stream: IStream) returns (r: Result<seq<byte>>)
    requires stream.Valid()
    modifies stream
    ensures Takes(stream, r, TakeString(old(stream.Rest())), old(stream.pos))
  {
    hide TakeU32;
    ghost var s := stream.Rest();
    var size := ReadU32(stream);
    if size.Err? {
      return Err(size.error);
    }
    RestMoved(stream.bytes, old(stream.pos), stream.pos - old(stream.pos));
    r := ReadBytes(stream, size.value);
    WindowIs(s, TakeU32(s).used, size.value);
  }

  lemma RestMoved(bytes: seq<byte>, pos: nat, n: nat)
    requires pos + n <= |bytes|
    ensures bytes[pos..][n..] == bytes[pos+n..]
  {
  }

  lemma WindowIs(s: seq<byte>, a: nat, n: nat)
    requires a <= |s|
    ensures |s[a..]| < n <==> |s| - a < n
    ensures |s| - a >= n ==> s[a..][..n] == s[a..a+n]
  {
  }

  method SkipVarint(stream: IStream) returns (ok: bool)
    requires stream.Valid()
    modifies stream
    ensures stream.Valid()
    ensures var n := SkippedVarint(old(stream.Rest())); ok == (n > 0) && (ok ==> stream.pos == old(stream.pos) + n)
  {
    ghost var s := stream.Rest();
    ghost var n := 0;
    var going := true;
    while going
      invariant stream.Valid() && stream.pos == old(stream.pos) + n && n <= |s| && stream.Rest() == s[n..]
      invariant going ==> SkippedVarint(s) == if SkippedVarint(s[n..]) == 0 then 0 else n + SkippedVarint(s[n..])
      invariant !going ==> SkippedVarint(s) == n > 0
      decreases |s| - n, going
    {
      var b := stream.ReadByte();
      if b.Err? {
        return false;
      }
      RestMoved(s, n, 1);
      going := b.value >= 128;
      n := n + 1;
    }
    ok := true;
  }

  /** pb_skip_field. */
  method SkipField(stream: IStream, wire: nat) returns (r: Result<()>)
    requires stream.Valid()
    modifies stream
    ensures Takes(stream, r, Skipped(old(stream.Rest()), wire), old(stream.pos))
  {
    hide TakeString, SkippedVarint;
    if wire == 0 {
      var ok := SkipVarint(stream);
      return if ok then Ok(()) else Err(EndOfStream);
    } else if wire == 2 {
      var w := ReadWindow(stream);
      return if w.Ok? then Ok(()) else Err(w.error);
    } else if wire == 1 || wire == 5 {
      var b := ReadBytes(stream, if wire == 1 then 8 else 4);
      return if b.Ok? then Ok(()) else Err(b.error);
    }
    r := Err(WrongType);
  }

  /** decode_basic_field, without its check of the wire type. */
  method ReadValue(stream: IStream, k: Kind, cur: Val) returns (r: Result<Val>)
    requires stream.Valid()
    modifies stream
    ensures Takes(stream, r, DecVal(k, old(stream.Rest()), cur), old(stream.pos))
    decreases k, 1
  {
    hide TakeU32, TakeU64, TakeString, DecMsg, FromLittleEndian;
    match k
    case Bool =>
      var x := ReadU32(stream);
      r := if x.Ok? then Ok(Num(if x.value != 0 then 1 else 0)) else Err(x.error);
    case UInt(max) =>
      var x := ReadU64(stream);
      if x.Ok? && x.value > max {
        return Err(Overflow);
      }
      r := if x.Ok? then Ok(Num(x.value)) else Err(x.error);
    case Int32 =>
      var x := ReadU64(stream);
      r := if x.Ok? then Ok(Num(Signed32(x.value))) else Err(x.error);
    case Int64 =>
      var x := ReadU64(stream);
      if x.Err? {
        return Err(x.error);
      }
      TakenBound(old(stream.Rest()));
      r := Ok(Num(Signed64(x.value)));
    case SInt64 =>
      var x := ReadU64(stream);
      if x.Err? {
        return Err(x.error);
      }
      TakenBound(old(stream.Rest()));
      r := Ok(Num(Unzigzagged(x.value)));
    case Fixed32 =>
      var x := ReadBytes(stream, 4);
      r := if x.Ok? then Ok(Num(FromLittleEndian(x.value))) else Err(x.error);
    case Fixed64 =>
      var x := ReadBytes(stream, 8);
      r := if x.Ok? then Ok(Num(FromLittleEndian(x.value))) else Err(x.error);
    case Blob(max) =>
      var x := ReadWindow(stream);
      if x.Ok? && |x.value| > max {
        return Err(Overflow);
      }
      r := if x.Ok? then Ok(Bin(x.value)) else Err(x.error);
    case Sub(fields) =>
      var x := ReadWindow(stream);
      if x.Err? {
        return Err(x.error);
      }
      if !cur.Msg? || |cur.slots| != |fields| {
        return Err(WrongType);
      }
      var sub := new IStream(x.value);
      var body := ReadMessage(sub, fields, cur.slots);
      r := if body.Ok? then Ok(Msg(body.value)) else Err(body.error);
  }

  lemma TakenBound(s: seq<byte>)
    ensures TakeU64(s).Took? ==> TakeU64(s).value < TWO64
  {
  }

  /** The loop over a packed array. */
  method ReadPacked(window: seq<byte>, k: Kind, vs0: seq<Val>, max: nat) returns (r: Result<seq<Val>>)
    ensures r.Ok? <==> DecPacked(k, window, vs0, max).Decoded?
    ensures r.Ok? ==> DecPacked(k, window, vs0, max) == Decoded([Many(r.value)])
    decreases k, 2
  {
    hide DecVal;
    var sub := new IStream(window);
    var vs := vs0;
    assert window[0..] == window;
    while sub.pos < |window| && |vs| < max
      invariant sub.Valid() && fresh(sub) && sub.bytes == window
      invariant DecPacked(k, window, vs0, max) == DecPacked(k, window[sub.pos..], vs, max)
      decreases |window| - sub.pos
    {
      ghost var p := sub.pos;
      var x := ReadValue(sub, k, Default(k));
      if x.Err? {
        return Err(x.error);
      }
      RestMoved(window, p, sub.pos - p);
      vs := vs + [x.value];
    }
    if sub.pos != |window| {
      return Err(Overflow);
    }
    r := Ok(vs);
  }

  /** decode_static_field. */
  method ReadSlot(stream: IStream, f: Field, wire: nat, slot: Slot) returns (r: Result<Slot>)
    requires stream.Valid()
    modifies stream
    ensures Takes(stream, r, DecSlot(f, wire, old(stream.Rest()), slot), old(stream.pos))
    decreases f, 2
  {
    hide DecVal, DecPacked, TakeString, Packable, Default;
    match f.rule
    case Singular =>
      if wire != WireType(f.kind) || !slot.One? {
        return Err(WrongType);
      }
      var x := ReadValue(stream, f.kind, slot.v);
      r := if x.Ok? then Ok(One(x.value)) else Err(x.error);
    case Optional =>
      if wire != WireType(f.kind) || !slot.Maybe? {
        return Err(WrongType);
      }
      var x := ReadValue(stream, f.kind, slot.v);
      r := if x.Ok? then Ok(Maybe(true, x.value)) else Err(x.error);
    case Repeated(max) =>
      if !slot.Many? {
        return Err(WrongType);
      }
      if wire == 2 && Packable(f.kind) {
        var w := ReadWindow(stream);
        if w.Err? {
          return Err(w.error);
        }
        var vs := ReadPacked(w.value, f.kind, slot.vs, max);
        return if vs.Ok? then Ok(Many(vs.value)) else Err(vs.error);
      }
      if |slot.vs| >= max {
        return Err(Overflow);
      }
      if wire != WireType(f.kind) {
        return Err(WrongType);
      }
      var x := ReadValue(stream, f.kind, Default(f.kind));
      r := if x.Ok? then Ok(Many(slot.vs + [x.value])) else Err(x.error);
  }

  lemma NoKey(fields: seq<Field>, s: seq<byte>, slots: seq<Slot>)
    requires |slots| == |fields| && s != [] && (TakeU32(s).Bad? || TakeU32(s).value / 8 == 0)
    ensures DecMsg(fields, s, slots) == Broken
  {
  }

  lemma UnknownField(fields: seq<Field>, s: seq<byte>, slots: seq<Slot>, key: nat, used: nat)
    requires |slots| == |fields| && s != [] && used <= |s| && TakeU32(s) == Took(key, used)
    requires key / 8 != 0 && FindTag(fields, key / 8) == |fields|
    ensures var x := Skipped(s[used..], key % 8);
            DecMsg(fields, s, slots) == if x.Bad? then Broken else DecMsg(fields, s[used..][x.used..], slots)
  {
    hide TakeU32, FindTag, Skipped;
  }

  lemma KnownField(fields: seq<Field>, s: seq<byte>, slots: seq<Slot>, key: nat, used: nat)
    requires |slots| == |fields| && s != [] && used <= |s| && TakeU32(s) == Took(key, used)
    requires key / 8 != 0 && FindTag(fields, key / 8) < |fields|
    ensures var i := FindTag(fields, key / 8);
            var x := DecSlot(fields[i], key % 8, s[used..], slots[i]);
            DecMsg(fields, s, slots) ==
            if x.Bad? then Broken else DecMsg(fields, s[used..][x.used..], slots[i := x.value])
  {
    hide TakeU32, FindTag, DecSlot;
  }

  /** One turn of pb_decode_inner's loop: a key, and the field it announces. */
  method ReadField(stream: IStream, fields: seq<Field>, slots: seq<Slot>) returns (r: Result<seq<Slot>>)
    requires stream.Valid() && stream.Rest() != [] && |slots| == |fields|
    modifies stream
    ensures stream.Valid()
    ensures r.Err? ==> DecMsg(fields, old(stream.Rest()), slots) == Broken
    ensures r.Ok? ==> |r.value| == |fields| && old(stream.pos) < stream.pos
    ensures r.Ok? ==> DecMsg(fields, old(stream.Rest()), slots) == DecMsg(fields, stream.Rest(), r.value)
    decreases fields, 0
  {
    hide DecMsg, DecSlot, Skipped, TakeU32, FindTag;
    ghost var s, p := stream.Rest(), stream.pos;
    var key := ReadU32(stream);
    if key.Err? || key.value / 8 == 0 {
      NoKey(fields, s, slots);
      return Err(if key.Err? then key.error else ZeroTag);
    }
    RestMoved(stream.bytes, p, stream.pos - p);
    ghost var q := stream.pos;
    var i := FindTag(fields, key.value / 8);
    if i == |fields| {
      UnknownField(fields, s, slots, key.value, q - p);
      var skip := SkipField(stream, key.value % 8);
      r := if skip.Err? then Err(skip.error) else Ok(slots);
    } else {
      KnownField(fields, s, slots, key.value, q - p);
      var slot := ReadSlot(stream, fields[i], key.value % 8, slots[i]);
      r := if slot.Err? then Err(slot.error) else Ok(slots[i := slot.value]);
    }
    if r.Ok? {
      RestMoved(stream.bytes, q, stream.pos - q);
    }
  }

  lemma NoBytesLeft(fields: seq<Field>, slots: seq<Slot>)
    requires |slots| == |fields|
    ensures DecMsg(fields, [], slots) == Decoded(slots)
  {
  }

  /** pb_decode_inner's loop. */
  method ReadMessage(stream: IStream, fields: seq<Field>, slots0: seq<Slot>) returns (r: Result<seq<Slot>>)
    requires stream.Valid() && |slots0| == |fields|
    modifies stream
    ensures stream.Valid()
    ensures var x := DecMsg(fields, old(stream.Rest()), slots0);
            (r.Ok? <==> x.Decoded?) && (r.Ok? ==> x == Decoded(r.value))
    decreases fields, 1
  {
    hide DecMsg;
    var slots := slots0;
    while stream.pos < |stream.bytes|
      invariant stream.Valid() && |slots| == |fields|
      invariant DecMsg(fields, old(stream.Rest()), slots0) == DecMsg(fields, stream.Rest(), slots)
      decreases |stream.bytes| - stream.pos
    {
      r := ReadField(stream, fields, slots);
      if r.Err? {
        return;
      }
      slots := r.value;
    }
    assert stream.Rest() == [];
    NoBytesLeft(fields, slots);
    r := Ok(slots);
  }

  /** pb_decode. */
  method Decode(bytes: seq<byte>, fields: seq<Field>) returns (r: Result<seq<Slot>>)
    ensures var x := DecodeAll(fields, bytes);
            (r.Ok? <==> x.Decoded?) && (r.Ok? ==> x == Decoded(r.value))
  {
    hide DecMsg;
    var stream := new IStream(bytes);
    assert stream.Rest() == bytes;
    r := ReadMessage(stream, fields, Defaults(fields));
  }
}
