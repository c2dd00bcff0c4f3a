/** The field iterator of the message codec: a cursor over a packed descriptor. */
module FieldIter {

  const EXTENSION := 0x0a
  const SUBMESSAGE := 0x08
  const SUBMSG_W_CB := 0x09
  const REQUIRED := 0x00

  /** A message descriptor: 32-bit words, one to eight a field, fields in tag order. */
  datatype Desc = Desc(info: seq<nat>, count: nat, largest: nat) {
    function Word(at: nat): nat {
      if at < |info| then info[at] else 0
    }

    /** The two lowest bits of a field's first word give its length. */
    function WordsAt(at: nat): (n: nat)
      ensures 1 <= n <= 8
    {
      if Word(at) % 4 == 0 then 1 else if Word(at) % 4 == 1 then 2 else if Word(at) % 4 == 2 then 4 else 8
    }

    /** The tag: six bits in the first word, the rest in the second, in a 16-bit size type. */
    function TagAt(at: nat): nat {
      var low := Word(at) / 4 % 64;
      if Word(at) % 4 == 0 then low
      else if Word(at) % 4 == 1 then low + Word(at + 1) / 0x1000_0000 * 64
      else (low + Word(at + 1) / 0x100 * 64) % 0x1_0000
    }

    function TypeAt(at: nat): nat {
      Word(at) / 0x100 % 0x100
    }

    /** Where field i's words begin. */
    function Start(i: nat): nat {
      if i == 0 then 0 else Start(i - 1) + WordsAt(Start(i - 1))
    }

    function Tag(i: nat): nat {
      TagAt(Start(i))
    }

    function Type(i: nat): nat {
      TypeAt(Start(i))
    }

    /** How many of the first i fields are required. */
    function Required(i: nat): nat {
      if i == 0 then 0 else Required(i - 1) + (if IsRequired(Type(i - 1)) then 1 else 0)
    }

    /** How many of the first i fields are submessages. */
    function Submessages(i: nat): nat {
      if i == 0 then 0 else Submessages(i - 1) + (if IsSubmessage(Type(i - 1)) then 1 else 0)
    }

    /** As the generator writes it: all words are there, tags rise, and none exceeds largest. */
    ghost predicate Valid() {
      && (forall i :: 0 <= i < count ==> Start(i) + WordsAt(Start(i)) <= |info|)
      && (forall i, j :: 0 <= i < j < count ==> Tag(i) < Tag(j))
      && (forall i :: 0 <= i < count ==> Tag(i) <= largest)
    }

    /** Field i carries this tag and is no extension range. */
    predicate Matches(i: nat, tag: nat) {
      i < count && Tag(i) == tag && !IsExtension(Type(i))
    }
  }

  predicate IsRequired(type_: nat) {
    type_ / 16 % 4 == REQUIRED
  }

  predicate IsSubmessage(type_: nat) {
    type_ % 16 == SUBMESSAGE || type_ % 16 == SUBMSG_W_CB
  }

  predicate IsExtension(type_: nat) {
    type_ % 16 == EXTENSION
  }

  /** The quick check of the search: the six low bits of the tag. */
  lemma LowTagBits(d: Desc, at: nat, tag: nat)
    ensures d.TagAt(at) == tag ==> d.Word(at) / 4 % 64 == tag % 64
  {
    var low := d.Word(at) / 4 % 64;
    var high := d.Word(at + 1) / 0x100;
    assert (low + high * 64) % 0x1_0000 % 64 == low by {
      SixBits(low, high);
    }
  }

  lemma SixBits(low: nat, high: nat)
    requires low < 64
    ensures (low + high * 64) % 0x1_0000 % 64 == low
  {
    var v := low + high * 64;
    assert v == 0x1_0000 * (v / 0x1_0000) + v % 0x1_0000;
    assert v % 0x1_0000 == low + 64 * (high - 0x400 * (v / 0x1_0000));
  }

  class Iter {
    const d: Desc
    var index: nat
    var fieldInfoIndex: nat
    var requiredFieldIndex: nat
    var submessageIndex: nat
    var tag: nat
    var type_: nat

    /** The cursor stands on a field, and its counters are what a walk from the start gives. */
    ghost predicate Consistent()
      reads this
    {
      && d.Valid() && index < d.count
      && fieldInfoIndex == d.Start(index)
      && requiredFieldIndex == d.Required(index)
      && submessageIndex == d.Submessages(index)
    }

    /** The field's own values are loaded. */
    ghost predicate Loaded()
      reads this
    {
      Consistent() && tag == d.Tag(index) && type_ == d.Type(index)
    }

    /** pb_field_iter_begin, on a message with fields. */
    constructor (d: Desc)
      requires d.Valid() && d.count > 0
      ensures Loaded() && index == 0 && this.d == d
    {
      this.d := d;
      index, fieldInfoIndex, requiredFieldIndex, submessageIndex := 0, 0, 0, 0;
      tag, type_ := d.TagAt(0), d.TypeAt(0);
    }

    /** The tag and type part of load_descriptor_values. */
    method Load()
      requires Consistent()
      modifies `tag, `type_
      ensures Loaded()
    {
      tag, type_ := d.TagAt(fieldInfoIndex), d.TypeAt(fieldInfoIndex);
    }

    /** advance_iterator: to the next field, or from the last (or past it) to the first. */
    method Advance()
      requires d.Valid() && d.count > 0
      requires index >= d.count || Consistent()
      modifies `index, `fieldInfoIndex, `requiredFieldIndex, `submessageIndex
      ensures Consistent() && index == if old(index) + 1 >= d.count then 0 else old(index) + 1
    {
      index := index + 1;
      if index >= d.count {
        index, fieldInfoIndex, requiredFieldIndex, submessageIndex := 0, 0, 0, 0;
      } else {
        var prev := d.TypeAt(fieldInfoIndex);
        fieldInfoIndex := fieldInfoIndex + d.WordsAt(fieldInfoIndex);
        requiredFieldIndex := requiredFieldIndex + (if IsRequired(prev) then 1 else 0);
        submessageIndex := submessageIndex + (if IsSubmessage(prev) then 1 else 0);
      }
    }

    /** pb_field_iter_next: false when the walk is back at the first field. */
    method Next() returns (more: bool)
      requires Consistent()
      modifies this
      ensures Loaded() && more == (index != 0)
      ensures index == if old(index) + 1 == d.count then 0 else old(index) + 1
    {
      Advance();
      Load();
      more := index != 0;
    }

    /** pb_field_iter_find, from any loaded state: it ends on a field with the tag if there is
        one that is no extension range, or if it already stands on one of either kind; otherwise
        it comes back to where it began. */
    method Find(want: nat) returns (found: bool)
      requires Loaded()
      modifies this
      ensures Loaded()
      ensures found <==> old(tag) == want || exists i :: d.Matches(i, want)
      ensures found ==> tag == want
      ensures !found ==> index == old(index)
      ensures (found <==> exists i :: d.Matches(i, want)) <==> !(old(tag) == want && IsExtension(old(type_)))
    {
      if tag == want {
        assert forall i :: d.Matches(i, want) ==> i == index;
        assert !IsExtension(type_) ==> d.Matches(index, want);
        return true;
      }
      if want > d.largest {
        assert forall i :: !d.Matches(i, want);
        return false;
      }
      var start := index;
      var back := want < tag;
      if back {
        index := d.count;
      }
      var first := true;
      while first || index != start
        invariant if first then (if back then index == d.count else Consistent() && index == start) else Consistent()
        invariant !first ==> forall i :: d.Matches(i, want) ==> !Seen(d.count, start, index, back, i)
        invariant !first && back ==> index <= start
        invariant start == old(index) < d.count && back == (want < d.Tag(start)) && want != d.Tag(start)
        decreases if first then 2 * d.count + 1 else Left(d.count, start, index)
      {
        ghost var was, initial := index, first;
        Advance();
        first := false;
        SeenMore(d.count, start, was, index, back, initial);
        if d.Word(fieldInfoIndex) / 4 % 64 == want % 64 {
          Load();
          if tag == want && !IsExtension(type_) {
            assert d.Matches(index, want);
            return true;
          }
        }
        LowTagBits(d, fieldInfoIndex, want);
      }
      AllSeen(d, start, back, want);
      Load();
      found := false;
    }
  }

  /** The search, begun at start, has looked at field i by the time it is at index. */
  predicate Seen(count: nat, start: nat, index: nat, back: bool, i: nat) {
    if back then i <= index
    else if index > start then start < i <= index
    else i > start || i <= index
  }

  /** How many fields the search may still have to pass. */
  function Left(count: nat, start: nat, index: nat): nat
    requires start < count && index < count
  {
    if index > start then count - index + start else start - index
  }

  lemma SeenMore(count: nat, start: nat, was: nat, index: nat, back: bool, initial: bool)
    requires start < count && index == if was + 1 >= count then 0 else was + 1
    requires if initial then (if back then was == count else was == start) else was < count && was != start
    requires !initial && back ==> was <= start
    ensures index < count && (back ==> index <= start)
    ensures !initial ==> Left(count, start, index) < Left(count, start, was)
    ensures Left(count, start, index) < 2 * count + 1
    ensures forall i: nat :: i < count && Seen(count, start, index, back, i) ==>
              i == index || (!initial && Seen(count, start, was, back, i))
  {
  }

  /** Back where it began, the search has looked at every field that could match. */
  lemma AllSeen(d: Desc, start: nat, back: bool, want: nat)
    requires d.Valid() && start < d.count && back == (want < d.Tag(start)) && want != d.Tag(start)
    ensures forall i :: d.Matches(i, want) ==> Seen(d.count, start, start, back, i)
  {
  }

  /** A descriptor whose one field is an extension range from tag 5. */
  const RANGE_ONLY := Desc([0x0a14], 1, 5)

  /** Standing on it, the search for its tag succeeds although no field matches. */
  method FindsRange() returns (found: bool)
    ensures found && RANGE_ONLY.Valid() && !exists i :: RANGE_ONLY.Matches(i, 5)
  {
    assert RANGE_ONLY.Start(0) == 0 && RANGE_ONLY.Tag(0) == 5 && IsExtension(RANGE_ONLY.Type(0));
    var iter := new Iter(RANGE_ONLY);
    found := iter.Find(5);
  }

  /** A walk from the beginning visits the fields in order and then starts again. */
  method Walk(d: Desc) returns (tags: seq<nat>)
    requires d.Valid() && d.count > 0
    ensures |tags| == d.count && forall i :: 0 <= i < d.count ==> tags[i] == d.Tag(i)
  {
    var iter := new Iter(d);
    tags := [];
    var more := true;
    while more
      invariant iter.Loaded() && iter.d == d && fresh(iter)
      invariant |tags| == if more then iter.index else d.count
      invariant forall i :: 0 <= i < |tags| ==> tags[i] == d.Tag(i)
      invariant !more ==> iter.index == 0
      decreases d.count - |tags|, more
    {
      tags := tags + [iter.tag];
      more := iter.Next();
    }
  }
}
