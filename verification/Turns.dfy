/** The providers meet the engine's contract: what one call wrote comes back, for a later
    prompt, as the rows the engine asks for. */
module Turns {
  import opened Bytes
  import opened Ints
  import opened Kernels
  import opened Schedule
  import opened HostLayout
  import opened E = Engine
  import opened Generate
  import opened KvLayout
  import opened KvService
  import L = KvLocal

  // ----- the service: bytes and rows -----

  /** Every row of the cache is ptl bytes. */
  ghost predicate RowsAre(cache: Cache, ptl: nat) {
    forall l, t :: 0 <= l < |cache| ==>
      && (0 <= t < |cache[l].k| ==> |cache[l].k[t]| == ptl)
      && (0 <= t < |cache[l].v| ==> |cache[l].v[t]| == ptl)
  }

  /** Half-layer j of token t. */
  function HalfRow(cache: Cache, j: nat, t: nat): Row {
    if j / 2 >= |cache| then []
    else
      var rows := if j % 2 == 0 then cache[j / 2].k else cache[j / 2].v;
      if t < |rows| then rows[t] else []
  }

  /** The cache token by token, as the arena stores it. */
  function TokenMajor(cache: Cache, len: nat): seq<TokenKv> {
    seq(len, t requires 0 <= t => seq(2 * |cache|, j requires 0 <= j => HalfRow(cache, j, t)))
  }

  /** A byte buffer cut into rows of ptl bytes. */
  function SplitRows(host: seq<byte>, ptl: nat, count: nat): seq<Row>
    requires |host| == count * ptl
  {
    seq(count, i requires 0 <= i < count => (Runs(i, count, ptl); host[i * ptl..i * ptl + ptl]))
  }

  /** Row i of the buffer is row i of the image. */
  lemma RowMatches(cache: Cache, len: nat, ptl: nat, host: seq<byte>, i: nat)
    requires CacheOf(cache, |cache|, len) && i < 2 * |cache| * len
    requires HostHolds(host, TokenMajor(cache, len), 2 * |cache|, ptl)
    ensures i * ptl + ptl <= |host| && i < |LayerMajor(cache)|
    ensures host[i * ptl..i * ptl + ptl] == LayerMajor(cache)[i]
  {
    var halves := 2 * |cache|;
    var j, t := Split(i, len, halves);
    var kvs := TokenMajor(cache, len);
    assert CellIs(host, len, ptl, j, t, kvs[t][j]);
    HostAtIsCell(len, ptl, j, t);
    hide LayerMajor, HostHolds, TokenMajor;
    var l, half := j / 2, j % 2;
    assert j == 2 * l + half;
    LayerMajorCell(cache, len, l, t);
    assert HostIndex(len, l, half, t) == j * len + t == i;
  }

  lemma HostSize(cache: Cache, len: nat, ptl: nat, host: seq<byte>)
    requires HostHolds(host, TokenMajor(cache, len), 2 * |cache|, ptl)
    ensures |host| == 2 * |cache| * len * ptl
  {
  }

  /** What service_read leaves for the tokens of a cache is the cache's layer-major image. */
  lemma ReadIsLayerMajor(cache: Cache, len: nat, ptl: nat, host: seq<byte>)
    requires CacheOf(cache, |cache|, len) && |cache| > 0
    requires HostHolds(host, TokenMajor(cache, len), 2 * |cache|, ptl)
    ensures |host| == 2 * |cache| * len * ptl
    ensures SplitRows(host, ptl, 2 * |cache| * len) == LayerMajor(cache)
  {
    hide LayerMajor, TokenMajor, HostHolds;
    var count := 2 * |cache| * len;
    LayerMajorLength(cache, len);
    HostSize(cache, len, ptl, host);
    forall i | 0 <= i < count ensures SplitRows(host, ptl, count)[i] == LayerMajor(cache)[i] {
      RowMatches(cache, len, ptl, host, i);
    }
  }

  /** A service read of the first c tokens of a stored sequence answers a later prompt that
      shares them as the engine's contract asks. */
  lemma ServiceAnswersFaithful(e: Engine, stored: seq<int>, prompt: seq<int>, c: nat, ptl: nat,
                               host: seq<byte>, writes: nat, backOk: bool)
    requires e.net.Valid() && c <= |stored| && c <= |prompt| && stored[..c] == prompt[..c] && e.AllInVocab(stored)
    requires var cache := Cold(e.block, e.net.nLayer, stored);
             HostHolds(host, TokenMajor(cache, |stored|)[..c], 2 * e.net.nLayer, ptl)
    requires |host| == 2 * e.net.nLayer * c * ptl
    ensures var rows := SplitRows(host, ptl, 2 * e.net.nLayer * c);
            Faithful(e, prompt, Provider(Answers(0, c, true, rows, writes, backOk)))
  {
    WrittenServes(e, stored, prompt, c);
    var full := Cold(e.block, e.net.nLayer, stored);
    TokenMajorPrefix(full, |stored|, c);
    ColdShape(e, prompt[..c]);
    ReadIsLayerMajor(PrefixOf(full, c), c, ptl, host);
    InPrefix(e, stored, prompt, c);
  }

  lemma InPrefix(e: Engine, stored: seq<int>, prompt: seq<int>, c: nat)
    requires c <= |stored| && c <= |prompt| && stored[..c] == prompt[..c] && e.AllInVocab(stored)
    ensures e.AllInVocab(prompt[..c])
  {
    forall i | 0 <= i < c ensures e.InVocab(prompt[..c][i]) {
      assert stored[i] == stored[..c][i];
    }
  }

  /** The first c tokens of a cache, token by token, are those of its prefix. */
  lemma TokenMajorPrefix(cache: Cache, n: nat, c: nat)
    requires CacheOf(cache, |cache|, n) && c <= n
    ensures TokenMajor(cache, n)[..c] == TokenMajor(PrefixOf(cache, c), c)
  {
    var a, b := TokenMajor(cache, n), TokenMajor(PrefixOf(cache, c), c);
    forall t | 0 <= t < c ensures a[t] == b[t] {
      forall j | 0 <= j < 2 * |cache| ensures a[t][j] == b[t][j] {
        assert j / 2 < |cache|;
      }
    }
  }

  // ----- rows and bytes, on the way out -----

  /** The bytes of the rows, one row after another. */
  function Flatten(rows: seq<Row>): seq<byte> {
    if rows == [] then [] else Flatten(rows[..|rows|-1]) + rows[|rows|-1]
  }

  lemma {:induction false} FlattenRow(rows: seq<Row>, ptl: nat, i: nat)
    requires forall k :: 0 <= k < |rows| ==> |rows[k]| == ptl
    ensures |Flatten(rows)| == |rows| * ptl
    ensures i < |rows| ==> i * ptl + ptl <= |Flatten(rows)| && Flatten(rows)[i * ptl..i * ptl + ptl] == rows[i]
  {
    if rows != [] {
      var front, last := rows[..|rows|-1], rows[|rows|-1];
      FlattenRow(front, ptl, i);
      OneMore(|front|, ptl);
      if i < |front| {
        InFront(Flatten(front), last, i * ptl, ptl);
      } else if i == |front| {
        AtEnd(Flatten(front), last);
      }
    }
  }

  lemma OneMore(n: nat, m: nat)
    ensures (n + 1) * m == n * m + m
  {
  }

  lemma InFront(front: seq<byte>, last: seq<byte>, at: nat, n: nat)
    requires at + n <= |front|
    ensures (front + last)[at..at+n] == front[at..at+n]
  {
  }

  lemma AtEnd(front: seq<byte>, last: seq<byte>)
    ensures (front + last)[|front|..|front|+|last|] == last
  {
  }

  /** The engine's image of a cache, as bytes, is a host buffer holding its tokens. */
  lemma ImageHolds(cache: Cache, len: nat, ptl: nat)
    requires CacheOf(cache, |cache|, len) && RowsAre(cache, ptl)
    ensures HostHolds(Flatten(LayerMajor(cache)), TokenMajor(cache, len), 2 * |cache|, ptl)
  {
    hide LayerMajor, Flatten, RowsAre, CellIs;
    var rows, kvs, halves := LayerMajor(cache), TokenMajor(cache, len), 2 * |cache|;
    LayerMajorLength(cache, len);
    ImageRows(cache, len, ptl);
    FlattenRow(rows, ptl, 0);
    forall j, t | 0 <= j < halves && 0 <= t < len ensures CellIs(Flatten(rows), len, ptl, j, t, kvs[t][j]) {
      CellHolds(cache, len, ptl, j, t);
    }
    forall t | 0 <= t < len ensures TokenShape(kvs[t], halves, ptl) {
      forall j | 0 <= j < halves ensures |kvs[t][j]| == ptl {
        HalfSize(cache, len, ptl, j, t);
      }
    }
  }

  lemma HalfSize(cache: Cache, len: nat, ptl: nat, j: nat, t: nat)
    requires CacheOf(cache, |cache|, len) && RowsAre(cache, ptl) && j < 2 * |cache| && t < len
    ensures |HalfRow(cache, j, t)| == ptl
  {
    assert j / 2 < |cache|;
  }

  /** All rows of the image are ptl bytes. */
  lemma ImageRows(cache: Cache, len: nat, ptl: nat)
    requires CacheOf(cache, |cache|, len) && RowsAre(cache, ptl)
    ensures forall i :: 0 <= i < |LayerMajor(cache)| ==> |LayerMajor(cache)[i]| == ptl
  {
    hide LayerMajor;
    forall i | 0 <= i < |LayerMajor(cache)| ensures |LayerMajor(cache)[i]| == ptl {
      var j, t := CellOfRow(cache, len, i);
      HalfSize(cache, len, ptl, j, t);
    }
  }

  lemma CellHolds(cache: Cache, len: nat, ptl: nat, j: nat, t: nat)
    requires CacheOf(cache, |cache|, len) && RowsAre(cache, ptl) && j < 2 * |cache| && t < len
    ensures CellIs(Flatten(LayerMajor(cache)), len, ptl, j, t, HalfRow(cache, j, t))
  {
    hide LayerMajor, Flatten, RowsAre, HalfRow, HostAt;
    ImageRows(cache, len, ptl);
    var i := RowAt(cache, len, ptl, j, t);
    FlattenRow(LayerMajor(cache), ptl, i);
  }

  /** Half-layer j of token t is row j * len + t of the image. */
  lemma RowOfCell(cache: Cache, len: nat, j: nat, t: nat) returns (i: nat)
    requires CacheOf(cache, |cache|, len) && j < 2 * |cache| && t < len
    ensures i == j * len + t < |LayerMajor(cache)| && LayerMajor(cache)[i] == HalfRow(cache, j, t)
  {
    hide LayerMajor;
    var l, half := j / 2, j % 2;
    assert j == 2 * l + half;
    LayerMajorCell(cache, len, l, t);
    i := HostIndex(len, l, half, t);
  }

  lemma RowAt(cache: Cache, len: nat, ptl: nat, j: nat, t: nat) returns (i: nat)
    requires CacheOf(cache, |cache|, len) && j < 2 * |cache| && t < len
    ensures i < |LayerMajor(cache)| && LayerMajor(cache)[i] == HalfRow(cache, j, t)
    ensures HostAt(len, ptl, j, t) == i * ptl
  {
    hide LayerMajor, HalfRow, HostAt;
    i := RowOfCell(cache, len, j, t);
    HostAtIsCell(len, ptl, j, t);
  }

  lemma CellOfRow(cache: Cache, len: nat, i: nat) returns (j: nat, t: nat)
    requires CacheOf(cache, |cache|, len) && i < |LayerMajor(cache)|
    ensures j < 2 * |cache| && t < len && LayerMajor(cache)[i] == HalfRow(cache, j, t)
  {
    LayerMajorLength(cache, len);
    j, t := Split(i, len, 2 * |cache|);
    var i' := RowOfCell(cache, len, j, t);
  }

  // ----- the size of a row -----

  /** Every K and V row the block stores is ptl bytes. */
  ghost predicate StoresRows(b: Schedule.Block<Vec, Mid>, ptl: nat) {
    && (forall l, pos, h :: |b.kRow(l, pos, h)| == ptl)
    && (forall l, h :: |b.vRow(l, h)| == ptl)
  }

  lemma {:induction false} LayersSized(b: Schedule.Block<Vec, Mid>, l: nat, pos: nat, cache: Cache, h: Vec, ptl: nat)
    requires StoresRows(b, ptl) && RowsAre(cache, ptl)
    ensures RowsAre(TokenLayers(b, l, pos, cache, h).0, ptl)
    decreases |cache|
  {
    if |cache| > 0 {
      var kv := b.Grow(l, pos, h, cache[0]);
      LayersSized(b, l + 1, pos, cache[1..], b.post(l, b.mid(l, pos, h, kv)), ptl);
    }
  }

  lemma {:induction false} ColdSized(b: Schedule.Block<Vec, Mid>, layers: nat, toks: seq<int>, ptl: nat)
    requires StoresRows(b, ptl)
    ensures RowsAre(Cold(b, layers, toks), ptl)
  {
    var n := |toks|;
    if n > 0 {
      ColdSized(b, layers, toks[..n-1], ptl);
      LayersSized(b, 0, n - 1, Cold(b, layers, toks[..n-1]), b.embed(toks[n-1]), ptl);
    }
  }

  // ----- calls against the service -----

  /** The remote service over a run: its answers may depend on the time and on its record, in
      any way its contract allows. */
  datatype Remote = Remote(
    lookup: (nat, seq<KvLayout.Block>, seq<int>, seq<int>) -> LookupReply,
    alloc: (nat, seq<KvLayout.Block>, nat) -> AllocReply,
    store: nat -> bool)

  /** The contract: lookups are truthful, hashes tell, named blocks that fit in the prompt end
      within the named prefix, and slots handed out are free. */
  ghost predicate Honest(s: Session, remote: Remote) {
    && (forall time, held, tokens, toks :: HonestLookup(s, held, tokens, toks, remote.lookup(time, held, tokens, toks)))
    && (forall time, held :: SlotsFree(s, remote, time, held))
  }

  ghost predicate HonestLookup(s: Session, held: seq<KvLayout.Block>, tokens: seq<int>, toks: seq<int>,
                               r: LookupReply) {
    && Truthful(held, s.blockSize, toks, r)
    && HashTells(r, toks, tokens, s.hash)
    && (r.Found? ==> UsableLen(held, toks, r, s.hash) <= r.prefixLen)
  }

  /** The slots handed out at a time are free. */
  ghost predicate SlotsFree(s: Session, remote: Remote, time: nat, held: seq<KvLayout.Block>) {
    forall n :: remote.alloc(time, held, n).Slots? ==> s.FreshSlots(remote.alloc(time, held, n).offsets, held)
  }

  /** The service holds, for the first sound tokens of its recorded sequence, the rows a cold
      run of engine e leaves.  A last row beyond them may be that of a failed pass. */
  ghost predicate Backs(s: Session, e: Engine, sound: nat)
    reads s, s.arena
  {
    && s.Valid() && s.nLayer == e.net.nLayer && e.AllInVocab(s.tokens)
    && sound <= |s.tokens| == |s.kvs|
    && s.kvs[..sound] == TokenMajor(Cold(e.block, e.net.nLayer, s.tokens[..sound]), sound)
  }

  /** A new session backs any engine of its size. */
  lemma EmptyBacks(s: Session, e: Engine)
    requires s.Valid() && s.nLayer == e.net.nLayer && s.tokens == [] && s.kvs == []
    ensures Backs(s, e, 0)
  {
    hide Session.Valid, Cold;
    assert TokenMajor(Cold(e.block, e.net.nLayer, []), 0) == [];
  }

  /** The lookup and read of one call that settles within the sound tokens: what the engine gets
      is as its contract asks. */
  method Serve(e: Engine, s: Session, ghost sound: nat, prompt: seq<int>, r: LookupReply,
               hostOk: bool, goodWrites: nat, backOk: bool)
    returns (a: Answers)
    requires e.Laid() && Backs(s, e, sound) && HonestLookup(s, s.held, s.tokens, prompt, r)
    requires UsableLen(s.held, prompt, r, s.hash) <= sound
    modifies s`slot, s`cachedLen, s`blocks
    ensures Backs(s, e, sound) && Faithful(e, prompt, Provider(a))
    ensures s.cachedLen <= |prompt| && s.cachedLen <= sound && prompt[..s.cachedLen] == s.tokens[..s.cachedLen]
    ensures a.lookupRc == 0 && a.cachedLen == s.cachedLen == UsableLen(s.held, prompt, r, s.hash)
    ensures (a.readOk <==> hostOk || s.cachedLen == 0) && a.goodWrites == goodWrites && a.backOk == backOk
  {
    hide Session.Valid, Truthful, UsableLen, TokenMajor, Faithful, Cold, HostHolds, SplitRows, HashTells, Engine.Layout;
    var len := s.Lookup(prompt, r);
    s.InRecord();
    LaidNet(e);
    AgreedPrefix(s, prompt, r, len);
    var dst := new byte[2 * s.nLayer * len * s.ptl];
    var rc, _ := s.Read(0, len, dst);
    assert s.kvs[0..len] == s.kvs[..sound][..len];
    assert s.tokens[..sound][..len] == s.tokens[..len];
    var rows := SplitRows(dst[..], s.ptl, 2 * s.nLayer * len);
    ServiceAnswersFaithful(e, s.tokens[..sound], prompt, len, s.ptl, dst[..], goodWrites, backOk);
    a := Answers(0, len, hostOk || len == 0, rows, goodWrites, backOk);
    FaithfulOrFailed(e, prompt, a);
  }

  lemma LaidNet(e: Engine)
    requires e.Laid()
    ensures e.net.Valid()
  {
  }

  /** What an honest lookup settles on is shared. */
  lemma AgreedPrefix(s: Session, toks: seq<int>, r: LookupReply, len: nat)
    requires HonestLookup(s, s.held, s.tokens, toks, r) && len == UsableLen(s.held, toks, r, s.hash)
    requires len > 0 && HashTells(r, toks, s.tokens, s.hash) ==> SamePrefix(toks, s.tokens, Min(len, r.prefixLen))
    ensures SamePrefix(toks, s.tokens, len)
  {
  }

  /** Nothing is asked of a call that fails. */
  lemma FaithfulOrFailed(e: Engine, prompt: seq<int>, a: Answers)
    requires Faithful(e, prompt, Provider(a.(readOk := true)))
    ensures Faithful(e, prompt, Provider(a))
  {
  }

  lemma {:induction false} GeneratedInVocab(e: Engine, hist: seq<int>, steps: nat, room: nat)
    requires e.Laid() && |hist| > 0
    ensures e.AllInVocab(Generated(e, hist, steps, room))
    decreases steps
  {
    hide Engine.Layout, ColdLogits;
    if Generated(e, hist, steps, room) != [] {
      NextInVocab(e, hist);
      GeneratedInVocab(e, hist + [Next(e, hist)], steps - 1, room - 1);
    }
  }

  lemma JoinedInVocab(e: Engine, a: seq<int>, b: seq<int>)
    requires e.AllInVocab(a) && e.AllInVocab(b)
    ensures e.AllInVocab(a + b)
  {
  }

  /** The first c tokens of a cold cache, token by token, are those of c tokens run cold. */
  lemma FrontRows(e: Engine, toks: seq<int>, good: nat, c: nat)
    requires c <= good <= |toks|
    ensures TokenMajor(Cold(e.block, e.net.nLayer, toks[..good]), good)[..c]
         == TokenMajor(Cold(e.block, e.net.nLayer, toks[..c]), c)
  {
    hide TokenMajor, PrefixOf;
    var front := toks[..good];
    assert front[..c] == toks[..c];
    WrittenServes(e, front, front, c);
    TokenMajorPrefix(Cold(e.block, e.net.nLayer, front), good, c);
  }

  /** What one call writes: an image of toks whose first good tokens are those of a cold run. */
  ghost predicate Image(e: Engine, toks: seq<int>, cache: Cache, good: nat, ptl: nat) {
    && good <= |toks| && CacheOf(cache, e.net.nLayer, |toks|) && RowsAre(cache, ptl)
    && PrefixOf(cache, good) == Cold(e.block, e.net.nLayer, toks[..good])
  }

  lemma ImageFront(e: Engine, toks: seq<int>, cache: Cache, good: nat, ptl: nat, c: nat)
    requires Image(e, toks, cache, good, ptl) && c <= good
    ensures TokenMajor(cache, |toks|)[..c] == TokenMajor(Cold(e.block, e.net.nLayer, toks[..c]), c)
  {
    hide TokenMajor, PrefixOf, Cold, RowsAre;
    var kvs := TokenMajor(cache, |toks|);
    TokenMajorPrefix(cache, |toks|, good);
    TokenMajorSize(cache, |toks|);
    FrontRows(e, toks, good, c);
    assert kvs[..good][..c] == kvs[..c];
  }

  /** The service's side of a run between calls: the recorded tokens and their blocks, and how
      many of the tokens are sound. */
  datatype Ledger = Ledger(tokens: seq<int>, held: seq<KvLayout.Block>, sound: nat) {
    /** The last row is one a failing pass left. */
    predicate Tainted() { sound < |tokens| }
  }

  ghost function LedgerOf(s: Session, sound: nat): Ledger
    reads s
  {
    Ledger(s.tokens, s.held, sound)
  }

  /** The store of toks, of which the first len are cached, gets into the record. */
  ghost predicate IsStored(s: Session, remote: Remote, time: nat, lg: Ledger, toks: seq<int>, len: nat)
    requires s.blockSize > 0
  {
    && len < |toks|
    && var slots := remote.alloc(time, lg.held, NumBlocks(|toks|, len, s.blockSize));
       Stores(len, |toks|, s.blockSize, slots, remote.store(time))
  }

  /** The ledger after the write of toks, of which the first len are cached and good are sound. */
  ghost function Kept(s: Session, remote: Remote, time: nat, lg: Ledger, toks: seq<int>, len: nat, good: nat): Ledger
    requires s.blockSize > 0
  {
    if !IsStored(s, remote, time, lg, toks, len) then lg
    else
      var slots := remote.alloc(time, lg.held, NumBlocks(|toks|, len, s.blockSize)).offsets;
      Ledger(toks, lg.held[..Cut(lg.held, len)] + NewBlocks(len, |toks|, slots, s.blockSize), good)
  }

  /** The write of one call: stored or not, the service goes on backing the engine. */
  method StoreBack(e: Engine, s: Session, ghost sound: nat, remote: Remote, time: nat, toks: seq<int>, data: seq<Row>,
                   ghost cache: Cache, ghost good: nat)
    returns (ghost sound': nat)
    requires e.Laid() && Backs(s, e, sound) && SlotsFree(s, remote, time, s.held)
    requires e.AllInVocab(toks) && data == LayerMajor(cache) && Image(e, toks, cache, good, s.ptl)
    requires s.cachedLen <= good && s.cachedLen <= sound && toks[..s.cachedLen] == s.tokens[..s.cachedLen]
    modifies s, s.arena
    ensures Backs(s, e, sound')
    ensures LedgerOf(s, sound') == Kept(s, remote, time, old(LedgerOf(s, sound)), toks, old(s.cachedLen), good)
  {
    hide Session.Valid, HostHolds, Cold, TokenMajor, LayerMajor, Flatten, RowsAre, Engine.Layout, NumBlocks, Stores,
         PrefixOf, Splice, Cut, NewBlocks;
    ghost var kvs, was, c := TokenMajor(cache, |toks|), s.kvs, s.cachedLen;
    SessionSizes(s);
    ImageHolds(cache, |toks|, s.ptl);
    TokenMajorSize(cache, |toks|);
    ImageFront(e, toks, cache, good, s.ptl, c);
    ImageFront(e, toks, cache, good, s.ptl, good);
    FrontRows(e, s.tokens, sound, c);
    assert was[..c] == was[..sound][..c];
    SpliceSame(was, kvs, c);
    var n := NumBlocks(|toks|, s.cachedLen, s.blockSize);
    ghost var stored := Stores(c, |toks|, s.blockSize, remote.alloc(time, s.held, n), remote.store(time));
    if stored {
      StoresMore(c, |toks|, s.blockSize, remote.alloc(time, s.held, n), remote.store(time));
    }
    var _ := s.Write(toks, Flatten(data), kvs, remote.alloc(time, s.held, n), remote.store(time));
    sound' := if stored then good else sound;
  }

  lemma StoresMore(cached: nat, len: nat, blockSize: nat, alloc: AllocReply, storeOk: bool)
    requires blockSize > 0 && Stores(cached, len, blockSize, alloc, storeOk)
    ensures cached < len
  {
  }

  lemma SessionSizes(s: Session)
    requires s.Valid()
    ensures s.blockSize > 0 && s.nLayer > 0 && s.cachedLen <= |s.tokens| == |s.kvs|
  {
    s.InRecord();
  }

  lemma TokenMajorSize(cache: Cache, len: nat)
    ensures |TokenMajor(cache, len)| == len
  {
  }

  /** One call: its arguments, what fails in it, and when its deadline passes. */
  datatype Ask = Ask(
    prompt: seq<int>, nPredict: int, capacity: int,
    hostOk: bool, goodWrites: nat, backOk: bool, f: Faults, o: Options)

  /** The schedule is a valid one, and what failing passes leave are rows of the buffers' size. */
  ghost predicate AskOk(a: Ask, ptl: nat) {
    ValidOptions(a.o) && forall l, pos :: |a.f.junk(l, pos).k| == ptl && |a.f.junk(l, pos).v| == ptl
  }

  ghost predicate Rejected(e: Engine, a: Ask) {
    |a.prompt| == 0 || a.capacity <= 0 || |a.prompt| > e.nCtx || !e.AllInVocab(a.prompt)
  }

  /** What a cold run answers. */
  ghost function ColdAnswer(e: Engine, a: Ask): seq<int>
    requires e.Laid()
  {
    if |a.prompt| == 0 || a.capacity <= 0 then [] else Generated(e, a.prompt, Steps(a.nPredict), a.capacity)
  }

  /** The cold run's answer, or its front if a decode pass fails. */
  ghost function Answer(e: Engine, a: Ask): seq<int>
    requires e.Laid()
  {
    var cold := ColdAnswer(e, a);
    if 0 <= a.f.step < |cold| then cold[..a.f.step+1] else cold
  }

  /** How many of the tokens a call writes back are sound. */
  ghost function SoundIn(e: Engine, a: Ask): nat
    requires e.Laid()
  {
    var cold := ColdAnswer(e, a);
    |a.prompt| + if 0 <= a.f.step < |cold| then a.f.step else |cold|
  }

  /** The outcome of a call: rejected or stopped by a failing prefill pass, or stopped by the
      deadline with a front of the cold answer, or the cold answer. */
  ghost predicate Answered(e: Engine, a: Ask, rc: int, out: seq<int>)
    requires e.Laid()
  {
    && rc >= -2 && (Rejected(e, a) ==> rc < 0)
    && (rc == -1 ==> out == [] && (Rejected(e, a) || a.f.prefill >= 0))
    && (rc == -2 ==> a.f.late >= 0 && out <= ColdAnswer(e, a))
    && (rc >= 0 ==> rc == |out| && out == Answer(e, a))
  }

  /** What a call returns, as the engine states it, is an answer. */
  lemma CallAnswered(e: Engine, a: Ask, cached: nat, rc: int, out: seq<int>)
    requires e.Laid() && 0 < |a.prompt| <= e.nCtx && a.capacity > 0 && ValidOptions(a.o) && cached <= |a.prompt|
    requires rc < 0
    requires rc == -1 ==> out == [] && !PrefillWorks(e, a.prompt, cached, a.f, a.o)
    requires rc == -1 ==> !PrefillLate(e, a.prompt, cached, a.f, a.o)
    requires rc >= -2
    requires rc == -2 ==>
               || (PrefillLate(e, a.prompt, cached, a.f, a.o) && out == [])
               || (var late := LateStep(a.f, |a.prompt|, cached, a.o);
                   && DecodeLate(e, a.prompt, Steps(a.nPredict), a.capacity, a.f.step, late)
                   && out == Generated(e, a.prompt, Steps(a.nPredict), a.capacity)[..late])
    ensures Answered(e, a, rc, out)
  {
    hide Generated;
  }

  lemma WorksInVocab(e: Engine, a: Ask, cached: nat)
    requires cached <= |a.prompt| && a.o.chunkSize > 0 && PrefillWorks(e, a.prompt, cached, a.f, a.o)
    ensures e.AllInVocab(a.prompt)
  {
  }

  /** Rows of the size the kernels store, and at the last position what a failing pass left. */
  lemma TaintedImage(e: Engine, hist: seq<int>, tok: int, a: Ask, ptl: nat)
    requires e.Laid() && Stands(e, hist) && |hist| < e.nCtx && StoresRows(e.block, ptl) && AskOk(a, ptl)
    requires JunkAt(e, |hist|, a.f.junk)
    ensures Image(e, hist + [tok], e.Snapshot(|hist| + 1), |hist|, ptl)
  {
    var n := |hist| + 1;
    TaintedWrite(e, hist, n);
    ColdSized(e.block, e.net.nLayer, hist, ptl);
    assert (hist + [tok])[..|hist|] == hist;
    hide Cold, StoresRows;
    var cache, cold := e.Snapshot(n), e.Snapshot(|hist|);
    forall l, t | 0 <= l < |cache| && 0 <= t < n ensures |cache[l].k[t]| == ptl && |cache[l].v[t]| == ptl {
      assert cache[l] == e.Kv(l, n) && cold[l] == e.Kv(l, |hist|);
      if t < |hist| {
        assert cache[l].k[t] == cold[l].k[t] && cache[l].v[t] == cold[l].v[t];
      }
    }
  }

  lemma ColdImage(e: Engine, toks: seq<int>, ptl: nat)
    requires StoresRows(e.block, ptl)
    ensures Image(e, toks, Cold(e.block, e.net.nLayer, toks), |toks|, ptl)
  {
    ColdShape(e, toks);
    ColdSized(e.block, e.net.nLayer, toks, ptl);
    WrittenServes(e, toks, toks, |toks|);
    assert toks[..|toks|] == toks;
  }

  /** The image a call hands to the service: right, or right but for its last row. */
  lemma WrittenImage(e: Engine, a: Ask, out: seq<int>, ptl: nat) returns (good: nat)
    requires e.Laid() && StoresRows(e.block, ptl) && AskOk(a, ptl) && |a.prompt| > 0 && a.capacity > 0
    requires |a.prompt| + |out| <= e.nCtx && Decoded(e, a.prompt, ColdAnswer(e, a), a.f.step, out)
    requires 0 <= a.f.step < |ColdAnswer(e, a)| ==> JunkAt(e, |a.prompt| + a.f.step, a.f.junk)
    ensures Image(e, a.prompt + out, e.Snapshot(|a.prompt| + |out|), good, ptl)
    ensures |a.prompt| <= good && |a.prompt| + |out| <= good + 1
    ensures good == SoundIn(e, a)
    ensures out == Answer(e, a)
  {
    hide ColdAnswer, StoresRows, AskOk, Image, Cold, Engine.Snapshot, ColdLogits, Engine.Layout;
    var full := ColdAnswer(e, a);
    if 0 <= a.f.step < |full| {
      var hist := a.prompt + full[..a.f.step];
      assert a.prompt + out == hist + [full[a.f.step]];
      TaintedImage(e, hist, full[a.f.step], a, ptl);
      good := |hist|;
    } else {
      ColdImage(e, a.prompt + out, ptl);
      good := |a.prompt| + |out|;
    }
  }

  lemma AnswerInVocab(e: Engine, a: Ask)
    requires e.Laid() && |a.prompt| > 0 && a.capacity > 0 && e.AllInVocab(a.prompt)
    ensures e.AllInVocab(a.prompt + Answer(e, a))
  {
    GeneratedInVocab(e, a.prompt, Steps(a.nPredict), a.capacity);
    JoinedInVocab(e, a.prompt, Answer(e, a));
  }

  /** The call ends before anything is looked up. */
  ghost predicate Barred(e: Engine, a: Ask) {
    |a.prompt| == 0 || a.capacity <= 0 || |a.prompt| > e.nCtx
  }

  /** The length the lookup of a call settles on. */
  ghost function Settled(s: Session, remote: Remote, time: nat, lg: Ledger, a: Ask): nat {
    UsableLen(lg.held, a.prompt, remote.lookup(time, lg.held, lg.tokens, a.prompt), s.hash)
  }

  /** What a call makes use of when its lookup settles on len tokens. */
  ghost function ReusedIn(e: Engine, a: Ask, len: nat): nat {
    Reused(Provider(Answers(0, len, a.hostOk || len == 0, [], a.goodWrites, a.backOk)), |a.prompt|, e.net.nLayer)
  }

  /** The call gets to its write-back. */
  ghost predicate Completes(e: Engine, a: Ask, cached: nat)
    requires e.Laid() && !Barred(e, a) && a.o.chunkSize > 0 && cached <= |a.prompt|
  {
    && PrefillWorks(e, a.prompt, cached, a.f, a.o)
    && !DecodeLate(e, a.prompt, Steps(a.nPredict), a.capacity, a.f.step, LateStep(a.f, |a.prompt|, cached, a.o))
  }

  /** The ledger after a call. */
  ghost function Noted(e: Engine, s: Session, remote: Remote, time: nat, lg: Ledger, a: Ask): Ledger
    requires e.Laid() && s.blockSize > 0 && ValidOptions(a.o)
  {
    if Barred(e, a) then lg
    else
      var len := Settled(s, remote, time, lg, a);
      if Completes(e, a, ReusedIn(e, a, len)) && a.backOk
      then Kept(s, remote, time, lg, a.prompt + Answer(e, a), len, SoundIn(e, a)) else lg
  }

  /** What is asked of the remote at a call, if it is called: the lookup is answered within the
      contract, slots handed out are free, and a lookup on a tainted record settles before the
      last row. */
  ghost predicate CallOk(e: Engine, s: Session, remote: Remote, time: nat, lg: Ledger, a: Ask) {
    Barred(e, a) ||
    (&& HonestLookup(s, lg.held, lg.tokens, a.prompt, remote.lookup(time, lg.held, lg.tokens, a.prompt))
     && SlotsFree(s, remote, time, lg.held)
     && (lg.Tainted() ==> Settled(s, remote, time, lg, a) <= lg.sound))
  }

  /** One call of the engine against the service: lookup, read, generation, write.  The call
      answers as a cold run, and the service goes on holding what a cold run would have left, but
      for a last row if a decode pass failed. */
  method ServedCall(e: Engine, s: Session, ghost sound: nat, remote: Remote, time: nat, a: Ask)
    returns (rc: int, out: seq<int>, ghost sound': nat)
    requires e.Laid() && Backs(s, e, sound) && StoresRows(e.block, s.ptl) && AskOk(a, s.ptl)
    requires CallOk(e, s, remote, time, LedgerOf(s, sound), a)
    modifies e, e.Buffers(), e.kvK, e.kvV, s, s.arena
    ensures Backs(s, e, sound') && Answered(e, a, rc, out)
    ensures s.blockSize > 0 && LedgerOf(s, sound') == Noted(e, s, remote, time, old(LedgerOf(s, sound)), a)
  {
    hide Session.Valid, HonestLookup, UsableLen, Cold, TokenMajor, LayerMajor, Faithful, Engine.Layout, StoresRows,
         Generated, ColdLogits, Engine.Snapshot, Decoded, JunkAt, Image, PrefillWorks, PrefillLate,
         DecodeLate, LateStep, Kept, SoundIn, SlotsFree;
    sound' := sound;
    SessionSizes(s);
    if |a.prompt| == 0 || a.capacity <= 0 || |a.prompt| > e.nCtx {
      NoneFaithful(e, a.prompt);
      var _, _, _ := GenerateEx(e, a.prompt, a.nPredict, a.capacity, NoProvider, a.f, a.o);
      rc, out := -1, [];
      return;
    }
    SettlesWithin(s, remote, time, a, sound);
    var reply := remote.lookup(time, s.held, s.tokens, a.prompt);
    var answers := Serve(e, s, sound, a.prompt, reply, a.hostOk, a.goodWrites, a.backOk);
    var written;
    rc, out, written := GenerateEx(e, a.prompt, a.nPredict, a.capacity, Provider(answers), a.f, a.o);
    ghost var cached := Reused(Provider(answers), |a.prompt|, e.net.nLayer);
    assert cached == ReusedIn(e, a, s.cachedLen);
    PrefillEnds(e, a.prompt, cached, a.f, a.o);
    if rc < 0 {
      CallAnswered(e, a, cached, rc, out);
    } else {
      WorksInVocab(e, a, cached);
      ghost var good := WrittenImage(e, a, out, s.ptl);
      if written.Write? {
        AnswerInVocab(e, a);
        sound' := StoreBack(e, s, sound, remote, time, written.tokens, written.data,
                            e.Snapshot(|a.prompt| + |out|), good);
      }
    }
  }

  /** The lookup of a call settles within the sound tokens. */
  lemma SettlesWithin(s: Session, remote: Remote, time: nat, a: Ask, sound: nat)
    requires s.Valid() && sound <= |s.tokens|
    requires HonestLookup(s, s.held, s.tokens, a.prompt, remote.lookup(time, s.held, s.tokens, a.prompt))
    requires LedgerOf(s, sound).Tainted() ==> Settled(s, remote, time, LedgerOf(s, sound), a) <= sound
    ensures Settled(s, remote, time, LedgerOf(s, sound), a) <= sound
  {
    var r := remote.lookup(time, s.held, s.tokens, a.prompt);
    if r.Found? {
      UsableBounds(s.held, 0, |r.offsets|, |a.prompt|);
      EndsBelow(s.held, Usable(s.held, |r.offsets|, |a.prompt|));
    }
  }

  lemma NoneFaithful(e: Engine, prompt: seq<int>)
    ensures Faithful(e, prompt, NoProvider)
  {
  }

  // ----- runs of calls -----

  /** The ledger after the first i calls of a run; call number i is made at time i. */
  ghost function LedgerAt(e: Engine, s: Session, remote: Remote, lg: Ledger, asks: seq<Ask>, i: nat): Ledger
    requires e.Laid() && s.blockSize > 0 && i <= |asks|
    requires forall j :: 0 <= j < |asks| ==> AskOk(asks[j], s.ptl)
  {
    if i == 0 then lg else Noted(e, s, remote, i - 1, LedgerAt(e, s, remote, lg, asks, i - 1), asks[i-1])
  }

  /** Any number of calls on one engine and one service session, with prompts as they come,
      whichever provider calls, passes, allocations and stores fail and whenever deadlines pass:
      every answer is that of a cold run, or its front up to a failing decode pass or the deadline.
      What is asked of the remote is asked of each call as it comes. */
  method Conversation(e: Engine, s: Session, ghost sound: nat, remote: Remote, asks: seq<Ask>)
    returns (rcs: seq<int>, outs: seq<seq<int>>)
    requires e.Laid() && Backs(s, e, sound) && StoresRows(e.block, s.ptl) && s.blockSize > 0
    requires forall i :: 0 <= i < |asks| ==> AskOk(asks[i], s.ptl)
    requires forall i :: 0 <= i < |asks| ==>
               CallOk(e, s, remote, i, LedgerAt(e, s, remote, LedgerOf(s, sound), asks, i), asks[i])
    modifies e, e.Buffers(), e.kvK, e.kvV, s, s.arena
    ensures |rcs| == |outs| == |asks|
    ensures forall i :: 0 <= i < |asks| ==> Answered(e, asks[i], rcs[i], outs[i])
    ensures var lg := LedgerAt(e, s, remote, old(LedgerOf(s, sound)), asks, |asks|);
            Backs(s, e, lg.sound) && LedgerOf(s, lg.sound) == lg
  {
    hide Backs, StoresRows, Engine.Layout, Answered, AskOk, CallOk, Noted;
    rcs, outs := [], [];
    ghost var start, now := LedgerOf(s, sound), sound;
    for i := 0 to |asks|
      invariant Backs(s, e, now) && |rcs| == |outs| == i
      invariant LedgerOf(s, now) == LedgerAt(e, s, remote, start, asks, i)
      invariant forall j :: 0 <= j < i ==> Answered(e, asks[j], rcs[j], outs[j])
    {
      var rc, out;
      rc, out, now := ServedCall(e, s, now, remote, i, asks[i]);
      rcs, outs := rcs + [rc], outs + [out];
    }
  }

  // ----- remotes that meet what is asked -----

  /** What the call writes back gets into the record. */
  ghost predicate Writes(e: Engine, s: Session, remote: Remote, time: nat, lg: Ledger, a: Ask)
    requires e.Laid() && s.blockSize > 0 && ValidOptions(a.o)
  {
    && !Barred(e, a) && a.backOk
    && var len := Settled(s, remote, time, lg, a);
       Completes(e, a, ReusedIn(e, a, len)) && IsStored(s, remote, time, lg, a.prompt + Answer(e, a), len)
  }

  /** A call taints the record exactly if its write gets there after a failing decode pass; a write
      of any other call clears it. */
  lemma TaintComes(e: Engine, s: Session, remote: Remote, time: nat, lg: Ledger, a: Ask)
    requires e.Laid() && s.blockSize > 0 && ValidOptions(a.o)
    ensures Noted(e, s, remote, time, lg, a).Tainted() <==>
            if Writes(e, s, remote, time, lg, a) then 0 <= a.f.step < |ColdAnswer(e, a)| else lg.Tainted()
    ensures !Writes(e, s, remote, time, lg, a) ==> Noted(e, s, remote, time, lg, a) == lg
  {
    hide ColdAnswer, IsStored, Completes, Cut, NewBlocks;
  }

  /** At this time no lookup settles on the whole of a record that holds tokens. */
  ghost predicate Cautious(s: Session, remote: Remote, time: nat) {
    forall held, tokens, toks :: Ends(held) > 0 ==>
      UsableLen(held, toks, remote.lookup(time, held, tokens, toks), s.hash) < Ends(held)
  }

  /** A ledger as calls leave it: its blocks end where its tokens do, and at most the last row is
      not sound. */
  predicate Kempt(lg: Ledger) {
    Ends(lg.held) == |lg.tokens| <= lg.sound + 1
  }

  lemma NotedKempt(e: Engine, s: Session, remote: Remote, time: nat, lg: Ledger, a: Ask)
    requires e.Laid() && s.blockSize > 0 && ValidOptions(a.o) && Kempt(lg)
    ensures Kempt(Noted(e, s, remote, time, lg, a))
  {
    hide ColdAnswer, Completes;
    if !Barred(e, a) {
      var len, toks := Settled(s, remote, time, lg, a), a.prompt + Answer(e, a);
      if IsStored(s, remote, time, lg, toks, len) {
        LastNewBlock(len, |toks|, remote.alloc(time, lg.held, NumBlocks(|toks|, len, s.blockSize)).offsets, s.blockSize,
                     lg.held[..Cut(lg.held, len)]);
      }
    }
  }

  lemma LastNewBlock(c: nat, n: nat, offsets: seq<nat>, blockSize: nat, front: seq<KvLayout.Block>)
    requires blockSize > 0 && c < n && |offsets| == NumBlocks(n, c, blockSize)
    ensures Ends(front + NewBlocks(c, n, offsets, blockSize)) == n
  {
    NumBlocksFit(n - c, blockSize);
    var m := |offsets|;
    assert m * blockSize == (m - 1) * blockSize + blockSize;
    NewBlockIs(c, n, offsets, blockSize, m - 1);
    var all := front + NewBlocks(c, n, offsets, blockSize);
    assert all[|all|-1] == NewBlocks(c, n, offsets, blockSize)[m-1];
  }

  /** An honest remote meets what is asked of each call of a run, if it is cautious whenever the
      record is tainted; so it does with no caution at all when no decode pass fails. */
  lemma {:induction false} HonestRun(e: Engine, s: Session, remote: Remote, lg: Ledger, asks: seq<Ask>, i: nat)
    requires e.Laid() && s.blockSize > 0 && Honest(s, remote) && Kempt(lg) && i < |asks|
    requires forall j :: 0 <= j < |asks| ==> AskOk(asks[j], s.ptl)
    requires LedgerAt(e, s, remote, lg, asks, i).Tainted() ==> Cautious(s, remote, i)
    ensures CallOk(e, s, remote, i, LedgerAt(e, s, remote, lg, asks, i), asks[i])
  {
    hide AskOk, HonestLookup, SlotsFree;
    KemptAt(e, s, remote, lg, asks, i);
    var now := LedgerAt(e, s, remote, lg, asks, i);
    var prompt := asks[i].prompt;
    assert HonestLookup(s, now.held, now.tokens, prompt, remote.lookup(i, now.held, now.tokens, prompt));
  }

  lemma {:induction false} KemptAt(e: Engine, s: Session, remote: Remote, lg: Ledger, asks: seq<Ask>, i: nat)
    requires e.Laid() && s.blockSize > 0 && Kempt(lg) && i <= |asks|
    requires forall j :: 0 <= j < |asks| ==> AskOk(asks[j], s.ptl)
    ensures Kempt(LedgerAt(e, s, remote, lg, asks, i))
  {
    hide Kempt, Noted;
    if i > 0 {
      KemptAt(e, s, remote, lg, asks, i - 1);
      NotedKempt(e, s, remote, i - 1, LedgerAt(e, s, remote, lg, asks, i - 1), asks[i-1]);
    }
  }

  lemma {:induction false} NeverTainted(e: Engine, s: Session, remote: Remote, lg: Ledger, asks: seq<Ask>, i: nat)
    requires e.Laid() && s.blockSize > 0 && !lg.Tainted() && i <= |asks|
    requires forall j :: 0 <= j < |asks| ==> AskOk(asks[j], s.ptl) && asks[j].f.step < 0
    ensures !LedgerAt(e, s, remote, lg, asks, i).Tainted()
  {
    hide Noted, Writes, ColdAnswer, Engine.Layout;
    if i > 0 {
      NeverTainted(e, s, remote, lg, asks, i - 1);
      TaintComes(e, s, remote, i - 1, LedgerAt(e, s, remote, lg, asks, i - 1), asks[i-1]);
    }
  }

  /** The first k blocks hold tokens that toks begins with, and do not end the record. */
  ghost predicate Shares(held: seq<KvLayout.Block>, tokens: seq<int>, toks: seq<int>, k: nat) {
    && k <= |held|
    && Ends(held[..k]) < Ends(held) && SamePrefix(toks, tokens, Ends(held[..k]))
  }

  /** The most of the first k blocks that do, or 0. */
  ghost function MostShared(held: seq<KvLayout.Block>, tokens: seq<int>, toks: seq<int>, k: nat): (j: nat)
    ensures j <= k && (j > 0 ==> Shares(held, tokens, toks, j))
    ensures forall i :: j < i <= k ==> !Shares(held, tokens, toks, i)
  {
    if k == 0 || Shares(held, tokens, toks, k) then k else MostShared(held, tokens, toks, k - 1)
  }

  /** A lookup that names all blocks it may. */
  ghost function NameShared(held: seq<KvLayout.Block>, tokens: seq<int>, toks: seq<int>, hash: seq<int> -> int)
    : LookupReply
  {
    var k := MostShared(held, tokens, toks, |held|);
    if !Chained(held) || k == 0 then LookupReply.Refused
    else
      var len := Ends(held[..k]);
      Found(len, hash(toks[..len]), seq(k, i requires 0 <= i < k => held[i].offset),
            seq(k, i requires 0 <= i < k => Header(true, held[i].n)))
  }

  ghost function SomeSlots(s: Session, held: seq<KvLayout.Block>, n: nat): AllocReply {
    if exists offsets :: |offsets| == n && s.FreshSlots(offsets, held)
    then var offsets :| |offsets| == n && s.FreshSlots(offsets, held); Slots(offsets) else NoSlots
  }

  /** A remote that names all shared blocks but the record's end, hands out slots whenever enough
      are free, and stores all it is given. */
  ghost function Careful(s: Session): Remote {
    Remote((time, held, tokens, toks) => NameShared(held, tokens, toks, s.hash),
           (time, held, n: nat) => SomeSlots(s, held, n),
           time => true)
  }

  /** What an honest and cautious remote can do at most: it settles on every shared block boundary
      but the record's end, and allocates and stores whatever there is room for. */
  lemma CarefulServes(s: Session)
    ensures Honest(s, Careful(s)) && forall time :: Cautious(s, Careful(s), time)
    ensures forall time, held, tokens, toks, k: nat :: Chained(held) && Shares(held, tokens, toks, k) ==>
              UsableLen(held, toks, Careful(s).lookup(time, held, tokens, toks), s.hash) >= Ends(held[..k])
    ensures forall time, held, n :: (exists offsets :: |offsets| == n && s.FreshSlots(offsets, held)) ==>
              Careful(s).alloc(time, held, n).Slots? && |Careful(s).alloc(time, held, n).offsets| == n
    ensures forall time :: Careful(s).store(time)
  {
    hide Session.FreshSlots, NameShared, HonestLookup, UsableLen, SamePrefix, Chained;
    forall held, tokens, toks
      ensures HonestLookup(s, held, tokens, toks, NameShared(held, tokens, toks, s.hash))
      ensures var len := UsableLen(held, toks, NameShared(held, tokens, toks, s.hash), s.hash);
              && (Ends(held) > 0 ==> len < Ends(held))
              && forall k: nat :: Chained(held) && Shares(held, tokens, toks, k) ==> len >= Ends(held[..k])
    {
      NamesShared(s, held, tokens, toks);
    }
  }

  lemma NamesShared(s: Session, held: seq<KvLayout.Block>, tokens: seq<int>, toks: seq<int>)
    ensures HonestLookup(s, held, tokens, toks, NameShared(held, tokens, toks, s.hash))
    ensures var len := UsableLen(held, toks, NameShared(held, tokens, toks, s.hash), s.hash);
            && (Ends(held) > 0 ==> len < Ends(held))
            && forall k: nat :: Chained(held) && Shares(held, tokens, toks, k) ==> len >= Ends(held[..k])
  {
    var k := MostShared(held, tokens, toks, |held|);
    if Chained(held) {
      if k > 0 {
        UsableIs(held, 0, k, |toks|, k);
      }
      forall j: nat | Shares(held, tokens, toks, j) ensures Ends(held[..j]) <= Ends(held[..k]) {
        FrontChained(held, k);
        EndsBelow(held[..k], j);
        assert held[..k][..j] == held[..j];
      }
    }
  }

  /** With it every run of calls gets what it asks for, whatever fails in it: a session that backs
      the engine, but perhaps for a last row, and any calls. */
  lemma CarefulRun(e: Engine, s: Session, sound: nat, asks: seq<Ask>, i: nat)
    requires e.Laid() && Backs(s, e, sound) && |s.tokens| <= sound + 1 && s.blockSize > 0 && i < |asks|
    requires forall j :: 0 <= j < |asks| ==> AskOk(asks[j], s.ptl)
    ensures CallOk(e, s, Careful(s), i, LedgerAt(e, s, Careful(s), LedgerOf(s, sound), asks, i), asks[i])
  {
    hide AskOk, Honest, Cautious, Careful, LedgerAt, CallOk, Engine.Layout;
    CarefulServes(s);
    HonestRun(e, s, Careful(s), LedgerOf(s, sound), asks, i);
  }

  // ----- the local provider -----

  /** The local provider, holding what a call wrote: its answer to a prompt is faithful when
      the whole stored sequence is a prefix of the prompt (and when nothing is shared). */
  lemma LocalAnswersFaithful(e: Engine, stored: seq<int>, prompt: seq<int>, c: nat, writes: nat)
    requires e.net.Valid() && c <= |stored| && c <= |prompt| && stored[..c] == prompt[..c] && e.AllInVocab(stored)
    requires c == 0 || c == |stored|
    ensures var image := LayerMajor(Cold(e.block, e.net.nLayer, stored));
            && L.RowsOf(e.net.nLayer, 0) <= L.RowsOf(e.net.nLayer, c) <= |image|
            && Faithful(e, prompt, Provider(Answers(0, c, true, L.Slice(image, e.net.nLayer, 0, c), writes, true)))
  {
    WrittenServes(e, stored, prompt, c);
    L.ServesEnds(Cold(e.block, e.net.nLayer, stored), e.net.nLayer, |stored|, c);
    InPrefix(e, stored, prompt, c);
  }
}
