/** The open-addressing string table with linear probing. */
module Tables {
  import opened Bytes
  import opened Ints

  type Key = seq<byte>

  datatype Slot = Free | Used(key: Key, value: int)

  datatype Lookup = Found(value: int) | Missing

  predicate IsPow2(n: nat) {
    n == 1 || (n > 1 && n % 2 == 0 && IsPow2(n / 2))
  }

  /** Doubling in a 32-bit word. */
  function Doubled(p: nat): nat {
    p * 2 % TWO32
  }

  /** next_pow2: the least power of two reaching n.  A larger n is never reached at all (see
      NeverReached). */
  method NextPow2(n: nat) returns (p: nat)
    requires n <= TWO31
    ensures IsPow2(p) && n <= p && (p == 1 || p < 2 * n)
  {
    hide IsPow2, Doubled;
    p := 1;
    OneIsPow2();
    while p < n
      invariant IsPow2(p) && 0 < p && (p == 1 || p < 2 * n)
      decreases n - p
    {
      WithinWord(p);
      Twice(p);
      p := Doubled(p);
    }
  }

  /** The word after k doublings. */
  function DoubledTimes(k: nat): nat {
    if k == 0 then 1 else Doubled(DoubledTimes(k - 1))
  }

  /** However often it is doubled, the word stays at 2^31 or below: for a larger n the loop of
      next_pow2 does not end. */
  lemma {:induction false} NeverReached(k: nat)
    ensures DoubledTimes(k) == 0 || IsPow2(DoubledTimes(k))
    ensures DoubledTimes(k) <= TWO31
  {
    hide Doubled, IsPow2;
    if k == 0 {
      assert IsPow2(1) by { OneIsPow2(); }
    } else {
      NeverReached(k - 1);
      StaysBelow(DoubledTimes(k - 1));
    }
  }

  lemma OneIsPow2()
    ensures IsPow2(1)
  {
  }

  lemma StaysBelow(p: nat)
    requires p <= TWO31 && (p == 0 || IsPow2(p))
    ensures Doubled(p) <= TWO31 && (Doubled(p) == 0 || IsPow2(Doubled(p)))
  {
    if 0 < p < TWO31 {
      TopBit();
      NextPow2IsTwice(p, TWO31);
      WithinWord(p);
      Twice(p);
    }
  }

  lemma WithinWord(p: nat)
    requires 2 * p < TWO32
    ensures Doubled(p) == 2 * p
  {
  }

  lemma TopBit()
    ensures IsPow2(TWO31)
  {
    hide IsPow2;
    OneIsPow2();
    Twice(1);
    Twice(2);
    Twice(4);
    TimesSixteen(8);
    TimesSixteen(0x80);
    TimesSixteen(0x800);
    TimesSixteen(0x8000);
    TimesSixteen(0x8_0000);
    TimesSixteen(0x80_0000);
    TimesSixteen(0x800_0000);
  }

  lemma TimesSixteen(p: nat)
    requires IsPow2(p)
    ensures IsPow2(16 * p)
  {
    hide IsPow2;
    Twice(p);
    Twice(2 * p);
    Twice(4 * p);
    Twice(8 * p);
  }

  lemma Twice(p: nat)
    requires IsPow2(p)
    ensures IsPow2(2 * p)
  {
    assert 2 * p / 2 == p;
  }

  /** Between a power of two and its double there is none. */
  lemma {:induction false} NextPow2IsTwice(p: nat, q: nat)
    requires IsPow2(p) && IsPow2(q) && p < q
    ensures 2 * p <= q
  {
    if p > 1 {
      NextPow2IsTwice(p / 2, q / 2);
    }
  }

  /** The d-th slot probed from home in a table of cap slots. */
  function Probe(home: nat, d: nat, cap: nat): (i: nat)
    requires home < cap && d < cap
    ensures i < cap
  {
    if home + d < cap then home + d else home + d - cap
  }

  /** One step of `(i + 1) & mask`. */
  lemma ProbeStep(home: nat, d: nat, cap: nat)
    requires home < cap && d + 1 < cap
    ensures Probe(home, d + 1, cap) == (Probe(home, d, cap) + 1) % cap
  {
  }

  /** How far slot i lies behind home. */
  function Distance(home: nat, i: nat, cap: nat): (d: nat)
    requires home < cap && i < cap
    ensures d < cap && Probe(home, d, cap) == i
  {
    if home <= i then i - home else i + cap - home
  }

  function Filled(slots: seq<Slot>): set<nat> {
    set i | 0 <= i < |slots| && slots[i].Used?
  }

  lemma {:induction false} FullCount(slots: seq<Slot>)
    requires forall i :: 0 <= i < |slots| ==> slots[i].Used?
    ensures |Filled(slots)| == |slots|
  {
    if slots != [] {
      FullCount(slots[..|slots|-1]);
      assert Filled(slots) == Filled(slots[..|slots|-1]) + {|slots| - 1};
    }
  }

  /** A table that is not full has a free slot, where every probe stops. */
  lemma FreeSlot(slots: seq<Slot>) returns (f: nat)
    requires |Filled(slots)| < |slots|
    ensures f < |slots| && slots[f].Free?
  {
    if forall i :: 0 <= i < |slots| ==> slots[i].Used? {
      FullCount(slots);
      assert false;
    }
    f :| 0 <= f < |slots| && slots[f].Free?;
  }

  lemma FillOne(slots: seq<Slot>, i: nat, s: Slot)
    requires i < |slots| && s.Used?
    ensures |Filled(slots[i := s])| == |Filled(slots)| + (if slots[i].Free? then 1 else 0)
  {
    assert Filled(slots[i := s]) == Filled(slots) + {i};
  }

  /** The first n slots probed from home are used, and none holds key. */
  ghost predicate Passed(slots: seq<Slot>, home: nat, n: nat, key: Key)
    requires home < |slots| && n <= |slots|
  {
    forall d :: 0 <= d < n ==> Other(slots[Probe(home, d, |slots|)], key)
  }

  lemma PassedAt(slots: seq<Slot>, home: nat, n: nat, key: Key, d: nat)
    requires home < |slots| && n <= |slots| && Passed(slots, home, n, key) && d < |slots|
    ensures d < n ==> Other(slots[Probe(home, d, |slots|)], key)
  {
  }

  predicate Other(s: Slot, key: Key) {
    s.Used? && s.key != key
  }

  /** Slot i can be found: every slot probed on the way there is used by another key. */
  ghost predicate Reached(slots: seq<Slot>, hash: Key -> nat, i: nat)
    requires i < |slots| && slots[i].Used?
  {
    var home := hash(slots[i].key) % |slots|;
    Passed(slots, home, Distance(home, i, |slots|), slots[i].key)
  }

  /** The slots hold exactly the entries of m, each where probing finds it. */
  ghost predicate Holds(slots: seq<Slot>, hash: Key -> nat, m: map<Key, int>) {
    && (forall i :: 0 <= i < |slots| && slots[i].Used? ==>
          Reached(slots, hash, i) && slots[i].key in m && m[slots[i].key] == slots[i].value)
    && (forall key :: key in m ==> exists i :: 0 <= i < |slots| && slots[i].Used? && slots[i].key == key)
  }

  /** Two slots never hold one key: each lies before the other's end of probing. */
  lemma OneSlot(slots: seq<Slot>, hash: Key -> nat, i: nat, j: nat)
    requires i < |slots| && j < |slots| && slots[i].Used? && slots[j].Used? && slots[i].key == slots[j].key
    requires Reached(slots, hash, i) && Reached(slots, hash, j)
    ensures i == j
  {
    var home := hash(slots[i].key) % |slots|;
    var di, dj := Distance(home, i, |slots|), Distance(home, j, |slots|);
    PassedAt(slots, home, dj, slots[i].key, di);
    PassedAt(slots, home, di, slots[i].key, dj);
  }

  /** A probe that stopped after d slots has found key, or shown that it is not there. */
  lemma ProbeEnds(slots: seq<Slot>, hash: Key -> nat, m: map<Key, int>, key: Key, d: nat)
    requires d < |slots| && Holds(slots, hash, m)
    requires var home := hash(key) % |slots|;
             Passed(slots, home, d, key) && !Other(slots[Probe(home, d, |slots|)], key)
    ensures slots[Probe(hash(key) % |slots|, d, |slots|)].Used? <==> key in m
  {
    var home := hash(key) % |slots|;
    if key in m {
      var j :| 0 <= j < |slots| && slots[j].Used? && slots[j].key == key;
      assert Reached(slots, hash, j);
      var dj := Distance(home, j, |slots|);
      PassedAt(slots, home, dj, key, d);
      PassedAt(slots, home, d, key, dj);
    }
  }

  /** Writing key where its probe stopped adds it to the map or renews its value. */
  lemma Written(slots: seq<Slot>, hash: Key -> nat, m: map<Key, int>, key: Key, value: int, d: nat)
    requires d < |slots| && Holds(slots, hash, m)
    requires var home := hash(key) % |slots|;
             Passed(slots, home, d, key) && !Other(slots[Probe(home, d, |slots|)], key)
    ensures Holds(slots[Probe(hash(key) % |slots|, d, |slots|) := Used(key, value)], hash, m[key := value])
  {
    var home := hash(key) % |slots|;
    var at := Probe(home, d, |slots|);
    var slots', m' := slots[at := Used(key, value)], m[key := value];
    assert Distance(home, at, |slots|) == d;
    assert slots[at].Used? ==> Reached(slots, hash, at);
    forall i | 0 <= i < |slots| && slots'[i].Used?
      ensures Reached(slots', hash, i) && slots'[i].key in m' && m'[slots'[i].key] == slots'[i].value
    {
      if i == at {
        assert Passed(slots', home, d, key);
      } else {
        WrittenElsewhere(slots, hash, m, key, value, d, i);
      }
    }
    forall k | k in m'
      ensures exists i :: 0 <= i < |slots| && slots'[i].Used? && slots'[i].key == k
    {
      if k == key {
        assert slots'[at].key == key;
      } else {
        var i :| 0 <= i < |slots| && slots[i].Used? && slots[i].key == k;
        assert slots'[i] == slots[i];
      }
    }
  }

  lemma WrittenElsewhere(slots: seq<Slot>, hash: Key -> nat, m: map<Key, int>, key: Key, value: int, d: nat, i: nat)
    requires d < |slots| && Holds(slots, hash, m) && i < |slots| && slots[i].Used?
    requires var home := hash(key) % |slots|;
             Passed(slots, home, d, key) && !Other(slots[Probe(home, d, |slots|)], key) && i != Probe(home, d, |slots|)
    ensures Reached(slots[Probe(hash(key) % |slots|, d, |slots|) := Used(key, value)], hash, i)
    ensures slots[i].key != key
  {
    var home := hash(key) % |slots|;
    var at := Probe(home, d, |slots|);
    assert Reached(slots, hash, i);
    if slots[i].key == key {
      var di := Distance(home, i, |slots|);
      PassedAt(slots, home, di, key, d);
      PassedAt(slots, home, d, key, di);
    }
  }

  class Table {
    const cap: nat
    const hash: Key -> nat
    var used: nat
    const entry: array<Slot>
    ghost var contents: map<Key, int>

    ghost predicate Valid()
      reads this, entry
    {
      && 0 < cap == entry.Length && IsPow2(cap)
      && used == |Filled(entry[..])| == |contents| < cap
      && Holds(entry[..], hash, contents)
    }

    /** table_init for an expected number of keys. */
    constructor (expected: nat, hash: Key -> nat)
      requires expected * 2 + 16 <= TWO31
      ensures Valid() && contents == map[] && this.hash == hash && fresh(entry)
      ensures expected * 2 + 16 <= cap < 2 * (expected * 2 + 16)
    {
      var n := NextPow2(expected * 2 + 16);
      cap := n;
      used := 0;
      this.hash := hash;
      entry := new Slot[n](_ => Free);
      contents := map[];
      new;
      assert Filled(entry[..]) == {};
    }

    /** The probe loop: the slot holding key, or the free slot where it would go. */
    method Find(key: Key) returns (i: nat, ghost d: nat)
      requires Valid()
      ensures d < cap && i == Probe(hash(key) % cap, d, cap)
      ensures Passed(entry[..], hash(key) % cap, d, key) && !Other(entry[i], key)
      ensures entry[i].Used? <==> key in contents
    {
      hide Holds;
      ghost var slots := entry[..];
      ghost var f := FreeSlot(slots);
      i, d := hash(key) % cap, 0;
      ghost var stop := Distance(i, f, cap);
      while entry[i].Used? && entry[i].key != key
        invariant d <= stop && i == Probe(hash(key) % cap, d, cap)
        invariant Passed(slots, hash(key) % cap, d, key)
        decreases cap - d
      {
        ProbeStep(hash(key) % cap, d, cap);
        i := (i + 1) % cap;
        d := d + 1;
      }
      ProbeEnds(slots, hash, contents, key, d);
    }

    /** table_put. */
    method Put(key: Key, value: int)
      requires Valid() && |contents| + 1 < cap
      modifies this, entry
      ensures Valid() && contents == old(contents)[key := value]
    {
      hide Holds, Passed;
      var i, d := Find(key);
      Written(entry[..], hash, contents, key, value, d);
      FillOne(entry[..], i, Used(key, value));
      ghost var slots := entry[..][i := Used(key, value)];
      if entry[i].Used? {
        entry[i] := Used(key, value);
      } else {
        entry[i] := Used(key, value);
        used := used + 1;
      }
      assert entry[..] == slots;
      contents := contents[key := value];
    }

    /** table_get. */
    method Get(key: Key) returns (r: Lookup)
      requires Valid()
      ensures r == if key in contents then Found(contents[key]) else Missing
    {
      var i, d := Find(key);
      r := if entry[i].Used? then Found(entry[i].value) else Missing;
    }
  }

  /** The map a run of puts leaves, each key with its position, as the loaders number them. */
  function Numbered(keys: seq<Key>): (m: map<Key, int>)
  {
    if keys == [] then map[] else Numbered(keys[..|keys|-1])[keys[|keys|-1] := |keys| - 1]
  }

  /** Later entries win. */
  lemma {:induction false} NumberedIsLast(keys: seq<Key>, key: Key)
    ensures key in Numbered(keys) <==> key in keys
    ensures key in Numbered(keys) ==>
              && 0 <= Numbered(keys)[key] < |keys| && keys[Numbered(keys)[key]] == key
              && forall i :: Numbered(keys)[key] < i < |keys| ==> keys[i] != key
  {
    if keys != [] {
      NumberedIsLast(keys[..|keys|-1], key);
      assert keys == keys[..|keys|-1] + [keys[|keys|-1]];
    }
  }

  /** The vocabulary loader's loops: put each string with its index. */
  method Load(keys: seq<Key>, hash: Key -> nat) returns (t: Table)
    requires |keys| * 2 + 16 <= TWO31
    ensures fresh(t) && fresh(t.entry) && t.Valid() && t.hash == hash
    ensures t.contents == Numbered(keys)
  {
    t := new Table(|keys|, hash);
    for i := 0 to |keys|
      invariant t.Valid() && fresh(t) && fresh(t.entry) && t.cap >= |keys| * 2 + 16
      invariant t.contents == Numbered(keys[..i]) && |t.contents| <= i
      invariant t.hash == hash
    {
      assert keys[..i+1][..i] == keys[..i];
      t.Put(keys[i], i);
    }
    assert keys[..|keys|] == keys;
  }
}
