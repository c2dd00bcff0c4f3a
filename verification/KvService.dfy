/** The service provider: lookup, read and write of one session, and runs of them, against a
    remote service.  The remote is an environment: it hands out slots, records which blocks
    hold the session's tokens and answers lookups, within the contract stated here. */
module KvService {
  import opened Bytes
  import opened Ints
  import opened KvLayout
  import opened Wrappers

  /** Most blocks one write allocates (DS3_KVC_SERVICE_MAX_BLOCKS). */
  const MAX_BLOCKS: nat := 4096

  /** What a block's header says: whether magic and state are right, and its token count. */
  datatype Header = Header(valid: bool, n: nat)

  /** The remote's answer to a lookup: transport failure, refusal, or a prefix length, the
      hash of that prefix, and the data offsets and headers of the session's first blocks. */
  datatype LookupReply = RpcFailed | Refused | Found(prefixLen: nat, prefixHash: int,
                                                     offsets: seq<nat>, headers: seq<Header>)

  /** The remote's answer to an allocation: failure, or the offsets of fresh slots. */
  datatype AllocReply = NoSlots | Slots(offsets: seq<nat>)

  /** Slots of slotLen bytes at x and at y do not overlap. */
  predicate Apart(x: nat, y: nat, slotLen: nat) {
    x + slotLen <= y || y + slotLen <= x
  }

  /** How much of the range start .. start + n lies before pos. */
  function Covered(pos: nat, start: nat, n: nat): nat {
    if pos <= start then 0 else Min(pos - start, n)
  }

  lemma BlockInRange(arena: seq<byte>, b: Block, kvs: seq<TokenKv>, perTok: nat, ptl: nat)
    requires BlockAt(arena, b, kvs, perTok, ptl)
    ensures b.start + b.n <= |kvs|
  {
  }

  lemma CoveredEnds(start: nat, n: nat)
    ensures Covered(0, start, n) == 0
  {
  }

  lemma CoveredAll(pos: nat, start: nat, n: nat)
    requires start + n <= pos
    ensures Covered(pos, start, n) == n
  {
  }

  lemma SliceOfSlice<T>(s: seq<T>, start: nat, n: nat, from: nat, len: nat)
    requires start + n <= |s| && from + len <= n
    ensures s[start..start+n][from..from+len] == s[start+from..start+from+len]
  {
    var part := s[start..start+n][from..from+len];
    forall i | 0 <= i < len
      ensures part[i] == s[start+from..start+from+len][i]
    {
    }
  }

  lemma ChainedStart(blocks: seq<Block>, i: nat)
    requires Chained(blocks) && i < |blocks|
    ensures blocks[i].start == Ends(blocks[..i])
    ensures Ends(blocks[..i+1]) == blocks[i].start + blocks[i].n
  {
  }

  /** A front part of the blocks ends within them. */
  lemma {:induction false} EndsBelow(bs: seq<Block>, k: nat)
    requires Chained(bs) && k <= |bs|
    ensures Ends(bs[..k]) <= Ends(bs)
    decreases |bs| - k
  {
    if k < |bs| {
      ChainedStart(bs, k);
      EndsBelow(bs, k + 1);
    } else {
      assert bs[..k] == bs;
    }
  }

  /** A block inside its slot, holding its tokens' bytes. */
  ghost predicate GoodAt(arena: seq<byte>, b: Block, kvs: seq<TokenKv>, blockSize: nat, perTok: nat, ptl: nat) {
    && 0 < b.n <= blockSize
    && b.offset + blockSize * perTok <= |arena|
    && BlockAt(arena, b, kvs, perTok, ptl)
  }

  ghost predicate AllGood(arena: seq<byte>, bs: seq<Block>, kvs: seq<TokenKv>, blockSize: nat, perTok: nat, ptl: nat) {
    forall i :: 0 <= i < |bs| ==> GoodAt(arena, bs[i], kvs, blockSize, perTok, ptl)
  }

  /** Blocks survive a write to a slot apart from theirs. */
  lemma AllGoodKept(was: seq<byte>, now: seq<byte>, bs: seq<Block>, kvs: seq<TokenKv>, blockSize: nat,
                    halves: nat, perTok: nat, ptl: nat, offset: nat)
    requires Shape(kvs, halves, ptl) && perTok == halves * ptl
    requires AllGood(was, bs, kvs, blockSize, perTok, ptl)
    requires SameOutside(was, now, offset, offset + blockSize * perTok)
    requires forall i :: 0 <= i < |bs| ==> Apart(offset, bs[i].offset, blockSize * perTok)
    ensures AllGood(now, bs, kvs, blockSize, perTok, ptl)
  {
    hide BlockAt, SameOutside, GoodAt, Shape;
    forall i | 0 <= i < |bs| ensures GoodAt(now, bs[i], kvs, blockSize, perTok, ptl) {
      GoodKept(was, now, bs[i], kvs, blockSize, halves, perTok, ptl, offset);
    }
  }

  lemma GoodKept(was: seq<byte>, now: seq<byte>, b: Block, kvs: seq<TokenKv>, blockSize: nat,
                 halves: nat, perTok: nat, ptl: nat, offset: nat)
    requires Shape(kvs, halves, ptl) && perTok == halves * ptl
    requires GoodAt(was, b, kvs, blockSize, perTok, ptl)
    requires SameOutside(was, now, offset, offset + blockSize * perTok)
    requires Apart(offset, b.offset, blockSize * perTok)
    ensures GoodAt(now, b, kvs, blockSize, perTok, ptl)
  {
    hide BlockAt, Shape;
    InSlot(b.n, blockSize, perTok);
    BlockKept(was, now, b, kvs, halves, perTok, ptl, offset, offset + blockSize * perTok);
  }

  lemma WiderOutside(was: seq<byte>, now: seq<byte>, lo: nat, hi: nat, hi': nat)
    requires SameOutside(was, now, lo, hi) && hi <= hi'
    ensures SameOutside(was, now, lo, hi')
  {
  }

  /** Tokens of a block take no more than its slot. */
  lemma InSlot(n: nat, blockSize: nat, perTok: nat)
    requires n <= blockSize
    ensures n * perTok <= blockSize * perTok
  {
  }

  /** Where the next block of a sequence that starts at position c would start. */
  function EndsFrom(bs: seq<Block>, c: nat): nat {
    if |bs| == 0 then c else Ends(bs)
  }

  /** The blocks follow one another from position c on. */
  ghost predicate ChainedFrom(bs: seq<Block>, c: nat) {
    forall k :: 0 <= k < |bs| ==> bs[k].start == EndsFrom(bs[..k], c)
  }

  lemma ChainNone(c: nat)
    ensures ChainedFrom([], c) && EndsFrom([], c) == c
  {
  }

  lemma ChainGrows(bs: seq<Block>, b: Block, c: nat)
    requires ChainedFrom(bs, c) && b.start == EndsFrom(bs, c)
    ensures ChainedFrom(bs + [b], c) && EndsFrom(bs + [b], c) == b.start + b.n
  {
    var all := bs + [b];
    assert all[..|bs|] == bs;
    assert forall k :: 0 <= k < |bs| ==> all[..k] == bs[..k];
  }

  lemma ChainEnds(bs: seq<Block>, c: nat)
    ensures |bs| > 0 ==> Ends(bs) == EndsFrom(bs, c)
  {
  }

  lemma GoodNone(arena: seq<byte>, kvs: seq<TokenKv>, blockSize: nat, perTok: nat, ptl: nat)
    ensures AllGood(arena, [], kvs, blockSize, perTok, ptl)
  {
  }

  lemma GoodGrows(arena: seq<byte>, bs: seq<Block>, b: Block, kvs: seq<TokenKv>, blockSize: nat, perTok: nat, ptl: nat)
    requires AllGood(arena, bs, kvs, blockSize, perTok, ptl) && GoodAt(arena, b, kvs, blockSize, perTok, ptl)
    ensures AllGood(arena, bs + [b], kvs, blockSize, perTok, ptl)
  {
  }

  /** Position len is where some front part of the blocks ends. */
  ghost predicate OnBoundary(bs: seq<Block>, len: nat) {
    exists k :: 0 <= k <= |bs| && Ends(bs[..k]) == len
  }

  lemma IsBoundary(bs: seq<Block>, k: nat)
    requires k <= |bs|
    ensures OnBoundary(bs, Ends(bs[..k]))
  {
  }

  // ----- the record, and what a call does to it -----

  /** How many of the first named blocks fit in limit tokens, counted on from i. */
  function UsableFrom(held: seq<Block>, i: nat, named: nat, limit: nat): nat
    decreases named - i
  {
    if i < named && i < |held| && Ends(held[..i+1]) <= limit then UsableFrom(held, i + 1, named, limit) else i
  }

  function Usable(held: seq<Block>, named: nat, limit: nat): nat {
    UsableFrom(held, 0, named, limit)
  }

  /** The length service_lookup settles on: that of the named blocks that fit in toks. */
  function UsableLen(held: seq<Block>, toks: seq<int>, r: LookupReply, hash: seq<int> -> int): nat {
    var k := if r.Found? then Usable(held, |r.offsets|, |toks|) else 0;
    if Accepted(r, toks, hash) && k <= |held| then Ends(held[..k]) else 0
  }

  /** A count that fits where the next block does not is the count of usable blocks. */
  lemma {:induction false} UsableIs(held: seq<Block>, i: nat, named: nat, limit: nat, k: nat)
    requires Chained(held) && i <= k <= named <= |held| && Ends(held[..k]) <= limit
    requires k < named ==> Ends(held[..k+1]) > limit
    ensures UsableFrom(held, i, named, limit) == k
    decreases k - i
  {
    if i < k {
      assert held[..k][..i+1] == held[..i+1];
      FrontChained(held, k);
      EndsBelow(held[..k], i + 1);
      UsableIs(held, i + 1, named, limit, k);
    }
  }

  /** How many front blocks reach no further than position len. */
  function Cut(held: seq<Block>, len: nat): (k: nat)
    ensures k <= |held|
  {
    if |held| == 0 || Ends(held) <= len then |held| else Cut(held[..|held|-1], len)
  }

  /** Blocks that hold tokens: a front part that ends at len is the one cut there. */
  lemma {:induction false} CutIs(held: seq<Block>, k: nat)
    requires Chained(held) && k <= |held| && forall i :: 0 <= i < |held| ==> held[i].n > 0
    ensures Cut(held, Ends(held[..k])) == k
  {
    if k == |held| {
      assert held[..k] == held;
    } else {
      var front := held[..|held|-1];
      ChainedStart(held, k);
      EndsBelow(held, k + 1);
      FrontChained(held, |held| - 1);
      assert front[..k] == held[..k];
      CutIs(front, k);
    }
  }

  /** The tokens from position c to n in blocks of at most blockSize, one per slot. */
  function NewBlocks(c: nat, n: nat, offsets: seq<nat>, blockSize: nat): (bs: seq<Block>)
    ensures |bs| == |offsets| && forall i :: 0 <= i < |bs| ==> bs[i].offset == offsets[i]
  {
    seq(|offsets|, i requires 0 <= i < |offsets| =>
      var start := Min(n, c + i * blockSize); Block(offsets[i], start, Min(n, start + blockSize) - start))
  }

  lemma NewBlockIs(c: nat, n: nat, offsets: seq<nat>, blockSize: nat, i: nat)
    requires i < |offsets|
    ensures var start := Min(n, c + i * blockSize);
            NewBlocks(c, n, offsets, blockSize)[i] == Block(offsets[i], start, Min(n, start + blockSize) - start)
  {
  }

  function NumBlocks(len: nat, cached: nat, blockSize: nat): nat
    requires blockSize > 0 && cached <= len
  {
    (len - cached + blockSize - 1) / blockSize
  }

  /** A session as the remote has it, with the client's cached length, and whether the client has
      a slot to keep that in. */
  datatype Record = Record(tokens: seq<int>, kvs: seq<TokenKv>, held: seq<Block>, cached: nat, slot: bool)

  /** Whether a write of len tokens gets as far as the remote's record. */
  function Stores(cached: nat, len: nat, blockSize: nat, alloc: AllocReply, storeOk: bool): bool
    requires blockSize > 0
  {
    storeOk && cached < len && alloc.Slots? && |alloc.offsets| == NumBlocks(len, cached, blockSize) <= MAX_BLOCKS
  }

  /** The bytes of was up to position len, of now from there on. */
  function Splice(was: seq<TokenKv>, now: seq<TokenKv>, len: nat): (kvs: seq<TokenKv>)
    ensures len <= |now| ==> |kvs| == |now|
  {
    if len <= |was| && len <= |now| then was[..len] + now[len..] else now
  }

  lemma SpliceSame(was: seq<TokenKv>, now: seq<TokenKv>, len: nat)
    requires SamePrefixKv(now, was, len)
    ensures Splice(was, now, len) == now
  {
  }

  /** The record after a write: the cached prefix keeps its blocks and what they hold, whatever
      the caller's buffer has there; the rest gets new blocks. */
  function Stored(rec: Record, toks: seq<int>, kvs: seq<TokenKv>, blockSize: nat,
                  alloc: AllocReply, storeOk: bool): Record
    requires blockSize > 0
  {
    if !Stores(rec.cached, |toks|, blockSize, alloc, storeOk) then rec
    else Record(toks, Splice(rec.kvs, kvs, rec.cached),
                rec.held[..Cut(rec.held, rec.cached)] + NewBlocks(rec.cached, |toks|, alloc.offsets, blockSize),
                if rec.slot then |toks| else rec.cached, rec.slot)
  }

  class Session {
    const arena: array<byte>
    const nLayer: nat
    const ptl: nat
    const perTok: nat
    const blockSize: nat
    const hash: seq<int> -> int
    // the client's copy of the last lookup, kept in a slot that the first lookup takes
    var slot: bool
    var cachedLen: nat
    var blocks: seq<Block>
    // the remote's record of the session, and the bytes its tokens were given
    var tokens: seq<int>
    var held: seq<Block>
    ghost var kvs: seq<TokenKv>

    ghost function Rec(): Record
      reads this
    {
      Record(tokens, kvs, held, cachedLen, slot)
    }

    ghost predicate Geometry() {
      && nLayer > 0 && ptl > 0 && blockSize > 0
      && perTok == 2 * nLayer * ptl
    }

    /** The blocks hold their tokens' bytes, in slots that are apart. */
    ghost predicate GoodBlocks(bs: seq<Block>, kvs: seq<TokenKv>)
      reads arena
    {
      && AllGood(arena[..], bs, kvs, blockSize, perTok, ptl)
      && (forall i, k :: 0 <= i < k < |bs| ==> Apart(bs[i].offset, bs[k].offset, blockSize * perTok))
    }

    /** What every call keeps: the recorded blocks cover the recorded tokens, their slots are
        separate, each holds the bytes last written for its tokens, and the client's copy is a
        front part of the record that ends on a block boundary. */
    ghost predicate Valid()
      reads this, arena
    {
      && Geometry()
      && |kvs| == |tokens| && Shape(kvs, 2 * nLayer, ptl)
      && Chained(held) && Ends(held) == |tokens|
      && GoodBlocks(held, kvs)
      && (blocks == [] || (blocks <= held && Ends(blocks) == cachedLen))
      && OnBoundary(held, cachedLen)
      && (slot || (cachedLen == 0 && blocks == []))
    }

    /** An empty session over an arena. */
    constructor (arena: array<byte>, nLayer: nat, ptl: nat, blockSize: nat, hash: seq<int> -> int)
      requires nLayer > 0 && ptl > 0 && blockSize > 0
      ensures Valid() && tokens == [] && kvs == [] && !slot && this.arena == arena
    {
      this.arena, this.nLayer, this.ptl, this.blockSize, this.hash := arena, nLayer, ptl, blockSize, hash;
      this.perTok := 2 * nLayer * ptl;
      slot, cachedLen, blocks, tokens, held, kvs := false, 0, [], [], [], [];
      new;
      IsBoundary(held, 0);
    }

    // ----- read -----

    /** The log of copying tokens x to y of the host buffer: every cell of theirs, in order. */
    ghost predicate Copies(log: CopyLog, x: nat, y: nat) {
      x <= y && |log| == (y - x) * (2 * nLayer) && InOrder(log, 2 * nLayer, x * (2 * nLayer))
    }

    lemma NoCopies(x: nat)
      ensures Copies([], x, x)
    {
    }

    lemma OneToken(log: CopyLog, c: nat)
      requires |log| == 2 * nLayer && forall k :: 0 <= k < |log| ==> log[k] == (k, c)
      ensures Copies(log, c, c + 1)
    {
      var one := c + 1 - c;
      assert one == 1 && one * (2 * nLayer) == 2 * nLayer;
    }

    lemma CopiesJoin(a: CopyLog, b: CopyLog, x: nat, y: nat, z: nat)
      requires Copies(a, x, y) && Copies(b, y, z)
      ensures Copies(a + b, x, z)
    {
      LogJoins(a, b, 2 * nLayer, x, y);
      assert (y - x) * (2 * nLayer) + (z - y) * (2 * nLayer) == (z - x) * (2 * nLayer);
    }

    /** The part of service_read for one block: its tokens from tokOffset on, cnt of them. */
    method ReadBlock(b: Block, tokOffset: nat, cnt: nat, dst: array<byte>, n: nat, copied: nat,
                     ghost part: seq<TokenKv>)
      returns (ghost log: CopyLog)
      requires Geometry() && dst != arena
      requires BlockAt(arena[..], b, kvs, perTok, ptl) && tokOffset + cnt <= b.n
      requires |part| == n && copied + cnt <= n && ReadUpTo(dst[..], part, 2 * nLayer, ptl, copied, 0)
      requires part[copied..copied+cnt] == kvs[b.start+tokOffset..b.start+tokOffset+cnt]
      modifies dst
      ensures ReadUpTo(dst[..], part, 2 * nLayer, ptl, copied + cnt, 0)
      ensures Copies(log, copied, copied + cnt)
    {
      hide TokenAt, ReadUpTo, Copies;
      log := [];
      NoCopies(copied);
      for t := 0 to cnt
        invariant ReadUpTo(dst[..], part, 2 * nLayer, ptl, copied + t, 0)
        invariant Copies(log, copied, copied + t)
      {
        assert TokenAt(arena[..], b.offset + (tokOffset + t) * perTok, kvs[b.start + (tokOffset + t)], ptl);
        assert part[copied + t] == part[copied..copied+cnt][t];
        ghost var more := TokenIn(dst, arena[..], b.offset + (tokOffset + t) * perTok, n, copied + t, nLayer, ptl,
                                  part);
        OneToken(more, copied + t);
        CopiesJoin(log, more, copied, copied + t, copied + t + 1);
        log := log + more;
      }
    }

    /** One iteration of service_read's block loop. */
    method ReadStep(b: Block, start: nat, n: nat, dst: array<byte>, copied: nat, ghost part: seq<TokenKv>)
      returns (copied': nat, ghost log: CopyLog)
      requires Geometry() && dst != arena
      requires BlockAt(arena[..], b, kvs, perTok, ptl)
      requires start + n <= |kvs| && part == kvs[start..start+n]
      requires copied == Covered(b.start, start, n) < n && ReadUpTo(dst[..], part, 2 * nLayer, ptl, copied, 0)
      modifies dst
      ensures copied' == Covered(b.start + b.n, start, n) <= n
      ensures ReadUpTo(dst[..], part, 2 * nLayer, ptl, copied', 0) && Copies(log, copied, copied')
    {
      hide ReadUpTo, BlockAt, Copies;
      log := [];
      NoCopies(copied);
      var readStart := Max(start, b.start);
      var readEnd := Min(start + n, b.start + b.n);
      copied' := copied;
      if readStart < readEnd {
        assert copied == readStart - start;
        BlockInRange(arena[..], b, kvs, perTok, ptl);
        SliceOfSlice(kvs, start, n, copied, readEnd - readStart);
        log := ReadBlock(b, readStart - b.start, readEnd - readStart, dst, n, copied, part);
        copied' := copied + (readEnd - readStart);
      }
    }

    /** The block loop of service_read. */
    method ReadBlocks(bs: seq<Block>, start: nat, n: nat, dst: array<byte>) returns (copied: nat, ghost log: CopyLog)
      requires Geometry() && dst != arena && dst.Length == 2 * nLayer * n * ptl
      requires Chained(bs) && start + n <= Ends(bs) && start + n <= |kvs| && Shape(kvs, 2 * nLayer, ptl)
      requires forall i :: 0 <= i < |bs| ==> BlockAt(arena[..], bs[i], kvs, perTok, ptl)
      modifies dst
      ensures copied == n && HostHolds(dst[..], kvs[start..start+n], 2 * nLayer, ptl)
      ensures Copies(log, 0, n)
    {
      hide ReadUpTo, BlockAt, HostHolds, Covered, Copies;
      log := [];
      NoCopies(0);
      ghost var part := kvs[start..start+n];
      ReadNothing(dst[..], part, 2 * nLayer, ptl);
      copied := 0;
      var i := 0;
      CoveredEnds(start, n);
      while i < |bs| && copied < n
        invariant 0 <= i <= |bs| && copied <= n
        invariant copied == Covered(Ends(bs[..i]), start, n)
        invariant ReadUpTo(dst[..], part, 2 * nLayer, ptl, copied, 0) && Copies(log, 0, copied)
      {
        ChainedStart(bs, i);
        ghost var done := copied;
        ghost var more;
        copied, more := ReadStep(bs[i], start, n, dst, copied, part);
        CopiesJoin(log, more, 0, done, copied);
        log := log + more;
        i := i + 1;
      }
      if copied < n {
        assert bs[..i] == bs;
        CoveredAll(Ends(bs), start, n);
      }
      ReadAll(dst[..], part, 2 * nLayer, ptl);
    }

    /** The client's cached length is one of the record. */
    lemma InRecord()
      requires Valid()
      ensures cachedLen <= |tokens| == |kvs|
    {
      var k :| 0 <= k <= |held| && Ends(held[..k]) == cachedLen;
      EndsBelow(held, k);
    }

    /** The blocks kept by the last lookup are blocks of the record, up to the cached length. */
    lemma Kept()
      requires Valid()
      ensures Geometry() && Shape(kvs, 2 * nLayer, ptl) && Chained(blocks)
      ensures blocks != [] ==> Ends(blocks) == cachedLen
      ensures forall i :: 0 <= i < |blocks| ==> BlockAt(arena[..], blocks[i], kvs, perTok, ptl)
    {
      hide Shape, BlockAt, OnBoundary;
      if blocks != [] {
        assert blocks == held[..|blocks|];
        forall i | 0 <= i < |blocks|
          ensures blocks[i].start == Ends(blocks[..i]) && BlockAt(arena[..], blocks[i], kvs, perTok, ptl)
        {
          assert blocks[..i] == held[..i] && GoodAt(arena[..], held[i], kvs, blockSize, perTok, ptl);
        }
      }
    }

    lemma NothingHeld(host: seq<byte>)
      requires |host| == 0
      ensures HostHolds(host, [], 2 * nLayer, ptl)
    {
    }

    /** service_read: tokens start .. start + n into a layer-major host buffer, one copy for each
        cell of it. */
    method Read(start: nat, n: nat, dst: array<byte>) returns (rc: int, ghost log: CopyLog)
      requires Valid() && dst != arena && dst.Length == 2 * nLayer * n * ptl
      modifies dst
      ensures rc == 0 || rc == -1
      ensures rc == 0 <==> slot && start + n <= cachedLen && (n == 0 || blocks != [])
      ensures rc == 0 ==> start + n <= |kvs| && HostHolds(dst[..], kvs[start..start+n], 2 * nLayer, ptl)
      ensures rc == 0 ==> |log| == n * (2 * nLayer) && InOrder(log, 2 * nLayer, 0)
      ensures rc != 0 ==> log == [] && dst[..] == old(dst[..])
    {
      if !slot || cachedLen < start + n {
        return -1, [];
      }
      InRecord();
      Kept();
      hide Valid, Shape, HostHolds, BlockAt, Chained, InOrder;
      NoCopies(0);
      if |blocks| == 0 {
        if n == 0 {
          NothingHeld(dst[..]);
          assert kvs[start..start] == [];
        }
        return if n == 0 then 0 else -1, [];
      }
      var copied;
      copied, log := ReadBlocks(blocks, start, n, dst);
      rc := if copied == n then 0 else -1;
    }

    // ----- lookup -----

    /** service_lookup: how many leading tokens of toks are taken as cached.  The hash vouches
        for the named prefix; the length is that of whole blocks, and may be longer. */
    method Lookup(toks: seq<int>, r: LookupReply) returns (len: nat)
      requires Valid() && Truthful(held, blockSize, toks, r)
      modifies this`slot, this`cachedLen, this`blocks
      ensures Valid() && slot
      ensures len == cachedLen == UsableLen(held, toks, r, hash) && len <= |toks| && len == Ends(blocks)
      ensures Accepted(r, toks, hash) ==> blocks == held[..|blocks|] && |blocks| == Usable(held, |r.offsets|, |toks|)
      ensures len > 0 && HashTells(r, toks, tokens, hash) ==> SamePrefix(toks, tokens, Min(len, r.prefixLen))
    {
      hide GoodBlocks, Shape, Truthful, SamePrefix, Usable, OnBoundary, Chained;
      IsBoundary(held, 0);
      slot := true;
      blocks := [];
      cachedLen := 0;
      len := 0;
      if !r.Found? || (r.prefixLen > 0 && !HashMatches(toks, r)) {
        return;
      }
      blocks, len := UsableBlocks(held, blockSize, toks, r);
      cachedLen := len;
      IsBoundary(held, |blocks|);
      if HashTells(r, toks, tokens, hash) {
        ShorterSame(toks, tokens, r.prefixLen, Min(len, r.prefixLen));
      }
    }

    /** The token hash of the reply's prefix is the reply's (a prefix longer than toks is not
        a match; the contract excludes it). */
    predicate HashMatches(toks: seq<int>, r: LookupReply)
      requires r.Found?
    {
      r.prefixLen <= |toks| && hash(toks[..r.prefixLen]) == r.prefixHash
    }

    // ----- write -----

    /** The remote's contract for an allocation: slots inside the arena, apart from each other
        and from every recorded block. */
    ghost predicate FreshSlots(offsets: seq<nat>, held: seq<Block>) {
      && (forall i :: 0 <= i < |offsets| ==> offsets[i] + blockSize * perTok <= arena.Length)
      && (forall i, k :: 0 <= i < k < |offsets| ==> Apart(offsets[i], offsets[k], blockSize * perTok))
      && (forall i, k :: 0 <= i < |offsets| && 0 <= k < |held| ==>
          Apart(offsets[i], held[k].offset, blockSize * perTok))
    }

    /** One new block: the tokens from b.start on into its slot. */
    method WriteBlock(b: Block, host: seq<byte>, n: nat, ghost newKvs: seq<TokenKv>)
      requires Geometry() && b.offset + blockSize * perTok <= arena.Length
      requires |newKvs| == n && b.start + b.n <= n && 0 < b.n <= blockSize && HostHolds(host, newKvs, 2 * nLayer, ptl)
      modifies arena
      ensures GoodAt(arena[..], b, newKvs, blockSize, perTok, ptl)
      ensures SameOutside(old(arena[..]), arena[..], b.offset, b.offset + blockSize * perTok)
    {
      hide BlockAt, HostHolds, SameOutside;
      ghost var was := arena[..];
      InSlot(b.n, blockSize, perTok);
      BlockOut(arena, b, host, n, nLayer, ptl, newKvs);
      WiderOutside(was, arena[..], b.offset, b.offset + b.n * perTok, b.offset + blockSize * perTok);
    }

    /** The copy loop of service_write: the tokens of host from position c on, cut into blocks
        that fill the given slots one after another.  The recorded blocks stay as they were. */
    method WriteBlocks(c: nat, n: nat, offsets: seq<nat>, host: seq<byte>, ghost newKvs: seq<TokenKv>)
      returns (added: seq<Block>)
      requires Geometry() && FreshSlots(offsets, held)
      requires |newKvs| == n && c < n && HostHolds(host, newKvs, 2 * nLayer, ptl)
      requires (|offsets| - 1) * blockSize < n - c <= |offsets| * blockSize
      requires Shape(kvs, 2 * nLayer, ptl) && GoodBlocks(held, kvs)
      modifies arena
      ensures added == NewBlocks(c, n, offsets, blockSize) && ChainedFrom(added, c) && Ends(added) == n
      ensures AllGood(arena[..], added, newKvs, blockSize, perTok, ptl)
      ensures GoodBlocks(held, kvs)
    {
      hide BlockAt, SameOutside, GoodAt, NewBlocks, ChainedFrom, AllGood, Ends, EndsFrom, FreshSlots, Apart;
      ChainNone(c);
      GoodNone(arena[..], newKvs, blockSize, perTok, ptl);
      ghost var all := NewBlocks(c, n, offsets, blockSize);
      added := [];
      var pos := c;
      for i := 0 to |offsets|
        invariant |added| == i && ChainedFrom(added, c) && pos == EndsFrom(added, c)
        invariant pos == Min(n, c + i * blockSize)
        invariant forall k :: 0 <= k < i ==> added[k] == all[k]
        invariant AllGood(arena[..], added, newKvs, blockSize, perTok, ptl)
        invariant AllGood(arena[..], held, kvs, blockSize, perTok, ptl)
      {
        var end := Min(n, pos + blockSize);
        var b := Block(offsets[i], pos, end - pos);
        ghost var was := arena[..];
        StartOfBlock(c, n, i, |offsets|, blockSize);
        NewBlockIs(c, n, offsets, blockSize, i);
        SlotFree(offsets, held, i);
        WriteBlock(b, host, n, newKvs);
        AllGoodKept(was, arena[..], held, kvs, blockSize, 2 * nLayer, perTok, ptl, b.offset);
        AllGoodKept(was, arena[..], added, newKvs, blockSize, 2 * nLayer, perTok, ptl, b.offset);
        ChainGrows(added, b, c);
        GoodGrows(arena[..], added, b, newKvs, blockSize, perTok, ptl);
        added := added + [b];
        pos := end;
      }
      ChainEnds(added, c);
    }

    /** Slot i lies in the arena, apart from the recorded blocks and from the slots before it. */
    lemma SlotFree(offsets: seq<nat>, held: seq<Block>, i: nat)
      requires FreshSlots(offsets, held) && i < |offsets|
      ensures offsets[i] + blockSize * perTok <= arena.Length
      ensures forall k :: 0 <= k < |held| ==> Apart(offsets[i], held[k].offset, blockSize * perTok)
      ensures forall k :: 0 <= k < i ==> Apart(offsets[i], offsets[k], blockSize * perTok)
    {
      forall k | 0 <= k < i ensures Apart(offsets[i], offsets[k], blockSize * perTok) {
        assert Apart(offsets[k], offsets[i], blockSize * perTok);
      }
    }

    lemma ShapeOfHost(host: seq<byte>, ks: seq<TokenKv>)
      requires HostHolds(host, ks, 2 * nLayer, ptl)
      ensures Shape(ks, 2 * nLayer, ptl)
    {
    }

    lemma NumBlocksEnough(len: nat, cached: nat)
      requires Geometry() && cached < len
      ensures var m := NumBlocks(len, cached, blockSize); m > 0 && (m - 1) * blockSize < len - cached <= m * blockSize
    {
      NumBlocksFit(len - cached, blockSize);
    }

    /** service_write of a whole sequence: the cached prefix is skipped, the rest goes into
        fresh blocks, and the remote records the new sequence.  Nothing compares the cached
        prefix with the one recorded: its bytes are the recorded ones.  A failure at any point
        leaves the record, and what it holds, as before. */
    method Write(toks: seq<int>, host: seq<byte>, ghost newKvs: seq<TokenKv>, alloc: AllocReply, storeOk: bool)
      returns (rc: int)
      requires Valid() && |newKvs| == |toks| && HostHolds(host, newKvs, 2 * nLayer, ptl)
      requires alloc.Slots? ==> FreshSlots(alloc.offsets, held)
      modifies this, arena
      ensures Valid()
      ensures rc == 0 || rc == -1
      ensures rc == 0 <==>
                |host| > 0 && (|toks| <= old(cachedLen) || Stores(old(cachedLen), |toks|, blockSize, alloc, storeOk))
      ensures Rec() == Stored(old(Rec()), toks, newKvs, blockSize, alloc, storeOk)
      ensures blocks == if Stores(old(cachedLen), |toks|, blockSize, alloc, storeOk) then [] else old(blocks)
    {
      hide HostHolds, Shape, SamePrefix, SamePrefixKv, NumBlocks, OnBoundary, Chained, FreshSlots, GoodBlocks,
           NewBlocks;
      HostEmpty(host, newKvs, 2 * nLayer, ptl);
      if |host| == 0 {
        return -1;
      }
      if |toks| <= cachedLen {
        return 0;
      }
      var n := NumBlocks(|toks|, cachedLen, blockSize);
      if n > MAX_BLOCKS || alloc.NoSlots? || |alloc.offsets| != n {
        return -1;
      }
      rc := WriteFresh(toks, host, newKvs, alloc.offsets, storeOk);
    }

    /** The copying and the store of service_write. */
    method WriteFresh(toks: seq<int>, host: seq<byte>, ghost newKvs: seq<TokenKv>, offsets: seq<nat>, storeOk: bool)
      returns (rc: int)
      requires Valid() && |newKvs| == |toks| > cachedLen && HostHolds(host, newKvs, 2 * nLayer, ptl)
      requires FreshSlots(offsets, held) && |offsets| == NumBlocks(|toks|, cachedLen, blockSize)
      modifies this, arena
      ensures Valid()
      ensures rc == if storeOk then 0 else -1
      ensures storeOk ==> tokens == toks && cachedLen == (if slot then |toks| else 0) && blocks == []
      ensures slot == old(slot)
      ensures storeOk ==> kvs == Splice(old(kvs), newKvs, old(cachedLen))
      ensures storeOk ==>
              held == old(held[..Cut(held, cachedLen)]) + NewBlocks(old(cachedLen), |toks|, offsets, blockSize)
      ensures !storeOk ==> unchanged(this)
    {
      ShapeOfHost(host, newKvs);
      NumBlocksEnough(|toks|, cachedLen);
      hide HostHolds, Shape, SamePrefix, SamePrefixKv, Splice, NumBlocks, Chained, ChainedFrom, FreshSlots, Apart,
           AllGood, GoodBlocks, OnBoundary, NewBlocks;
      Boundary();
      var k := Cut(held, cachedLen);
      var added := WriteBlocks(cachedLen, |toks|, offsets, host, newKvs);
      if !storeOk {
        return -1;
      }
      SpliceKeeps(newKvs, cachedLen);
      SpliceGood(added, newKvs, cachedLen, |toks|, offsets);
      Store(toks, added, k, Splice(kvs, newKvs, cachedLen), offsets);
      return 0;
    }

    lemma SpliceKeeps(newKvs: seq<TokenKv>, c: nat)
      requires c <= |kvs| && c <= |newKvs| && Shape(kvs, 2 * nLayer, ptl) && Shape(newKvs, 2 * nLayer, ptl)
      ensures SamePrefixKv(Splice(kvs, newKvs, c), kvs, c) && Shape(Splice(kvs, newKvs, c), 2 * nLayer, ptl)
    {
    }

    /** The new blocks lie behind the cached prefix. */
    lemma SpliceGood(added: seq<Block>, newKvs: seq<TokenKv>, c: nat, n: nat, offsets: seq<nat>)
      requires c <= |kvs| && c < n && n == |newKvs| && added == NewBlocks(c, n, offsets, blockSize)
      requires AllGood(arena[..], added, newKvs, blockSize, perTok, ptl)
      ensures AllGood(arena[..], added, Splice(kvs, newKvs, c), blockSize, perTok, ptl)
    {
      hide BlockAt, NewBlocks, Splice;
      forall i | 0 <= i < |added| ensures GoodAt(arena[..], added[i], Splice(kvs, newKvs, c), blockSize, perTok, ptl) {
        NewBlockIs(c, n, offsets, blockSize, i);
        assert GoodAt(arena[..], added[i], newKvs, blockSize, perTok, ptl);
        BehindSplice(added[i], newKvs, c);
      }
    }

    lemma BehindSplice(b: Block, newKvs: seq<TokenKv>, c: nat)
      requires c <= |kvs| && c <= |newKvs| && c <= b.start && BlockAt(arena[..], b, newKvs, perTok, ptl)
      ensures BlockAt(arena[..], b, Splice(kvs, newKvs, c), perTok, ptl)
    {
      hide TokenAt;
      forall t | 0 <= t < b.n
        ensures TokenAt(arena[..], b.offset + t * perTok, Splice(kvs, newKvs, c)[b.start + t], ptl) {
        assert Splice(kvs, newKvs, c)[b.start + t] == newKvs[b.start + t];
      }
    }

    /** The store: the remote records the sequence; the client, if it has a slot, notes the length
        and forgets its block list. */
    method Store(toks: seq<int>, added: seq<Block>, k: nat, ghost newKvs: seq<TokenKv>, ghost offsets: seq<nat>)
      requires Geometry() && Chained(held) && GoodBlocks(held, kvs) && k <= |held|
      requires slot || (cachedLen == 0 && blocks == [])
      requires |newKvs| == |toks| == Ends(added) && Shape(newKvs, 2 * nLayer, ptl)
      requires SamePrefixKv(newKvs, kvs, Ends(held[..k]))
      requires FreshSlots(offsets, held) && |added| == |offsets| > 0 && ChainedFrom(added, Ends(held[..k]))
      requires forall i :: 0 <= i < |added| ==> added[i].offset == offsets[i]
      requires AllGood(arena[..], added, newKvs, blockSize, perTok, ptl)
      modifies this
      ensures Valid()
      ensures tokens == toks && kvs == newKvs && slot == old(slot)
      ensures cachedLen == (if slot then |toks| else 0) && blocks == []
      ensures held == old(held)[..k] + added
    {
      hide Shape, Chained, ChainedFrom, FreshSlots, Apart, AllGood, GoodBlocks, OnBoundary;
      Recorded(added, k, newKvs, offsets);
      held := held[..k] + added;
      tokens := toks;
      kvs := newKvs;
      if slot {
        cachedLen := |toks|;
        blocks := [];
      }
      IsBoundary(held, 0);
      IsBoundary(held, |held|);
      assert held[..|held|] == held;
    }

    /** The blocks of the cached prefix hold the new sequence's tokens as well. */
    lemma FrontGood(k: nat, newKvs: seq<TokenKv>)
      requires Chained(held) && AllGood(arena[..], held, kvs, blockSize, perTok, ptl) && k <= |held|
      requires SamePrefixKv(newKvs, kvs, Ends(held[..k]))
      ensures Chained(held[..k]) && AllGood(arena[..], held[..k], newKvs, blockSize, perTok, ptl)
    {
      hide BlockAt;
      var front := held[..k];
      assert forall i :: 0 <= i < k ==> front[..i] == held[..i];
      forall i | 0 <= i < k ensures GoodAt(arena[..], front[i], newKvs, blockSize, perTok, ptl) {
        assert GoodAt(arena[..], held[i], kvs, blockSize, perTok, ptl);
        EndsBelow(front, i + 1);
        assert front[..i+1] == held[..i+1];
        ChainedStart(held, i);
        SameTokens(arena[..], held[i], kvs, newKvs, Ends(front));
      }
    }

    /** Slots stay apart when fresh ones join. */
    lemma JoinApart(added: seq<Block>, k: nat, offsets: seq<nat>)
      requires k <= |held| && FreshSlots(offsets, held) && |added| == |offsets|
      requires forall i, m :: 0 <= i < m < |held| ==> Apart(held[i].offset, held[m].offset, blockSize * perTok)
      requires forall i :: 0 <= i < |added| ==> added[i].offset == offsets[i]
      ensures var all := held[..k] + added;
              forall i, m :: 0 <= i < m < |all| ==> Apart(all[i].offset, all[m].offset, blockSize * perTok)
    {
      var slot := blockSize * perTok;
      var all := held[..k] + added;
      forall i, m | 0 <= i < m < |all| ensures Apart(all[i].offset, all[m].offset, slot) {
        if i < k <= m {
          assert Apart(offsets[m-k], held[i].offset, slot);
        }
      }
    }

    /** The record the remote keeps after a store: the blocks of the cached prefix, then the
        added ones. */
    lemma Recorded(added: seq<Block>, k: nat, newKvs: seq<TokenKv>, offsets: seq<nat>)
      requires Chained(held) && GoodBlocks(held, kvs) && k <= |held|
      requires SamePrefixKv(newKvs, kvs, Ends(held[..k]))
      requires FreshSlots(offsets, held) && |added| == |offsets| > 0 && ChainedFrom(added, Ends(held[..k]))
      requires forall i :: 0 <= i < |added| ==> added[i].offset == offsets[i]
      requires AllGood(arena[..], added, newKvs, blockSize, perTok, ptl)
      ensures var all := held[..k] + added;
              Chained(all) && Ends(all) == Ends(added) && GoodBlocks(all, newKvs)
    {
      hide GoodAt, Apart, FreshSlots;
      FrontGood(k, newKvs);
      ChainJoin(held[..k], added);
      JoinApart(added, k, offsets);
    }

    /** Cut at the client's cached length, the record ends there. */
    lemma Boundary()
      requires Valid()
      ensures Ends(held[..Cut(held, cachedLen)]) == cachedLen <= |tokens|
    {
      hide GoodBlocks;
      var k :| 0 <= k <= |held| && Ends(held[..k]) == cachedLen;
      EndsBelow(held, k);
      Positive();
      CutIs(held, k);
    }

    lemma Positive()
      requires Valid()
      ensures forall i :: 0 <= i < |held| ==> held[i].n > 0
    {
      forall i | 0 <= i < |held| ensures held[i].n > 0 {
        assert GoodAt(arena[..], held[i], kvs, blockSize, perTok, ptl);
      }
    }

    lemma SameTokens(bytes: seq<byte>, b: Block, was: seq<TokenKv>, now: seq<TokenKv>, c: nat)
      requires GoodAt(bytes, b, was, blockSize, perTok, ptl) && b.start + b.n <= c <= |was| && c <= |now|
      requires was[..c] == now[..c]
      ensures GoodAt(bytes, b, now, blockSize, perTok, ptl)
    {
      hide TokenAt;
      forall t | 0 <= t < b.n ensures TokenAt(bytes, b.offset + t * perTok, now[b.start + t], ptl) {
        assert was[b.start + t] == was[..c][b.start + t];
        assert now[b.start + t] == now[..c][b.start + t];
      }
    }
  }

  ghost predicate SamePrefixKv(a: seq<TokenKv>, b: seq<TokenKv>, len: nat) {
    len <= |a| && len <= |b| && a[..len] == b[..len]
  }

  lemma ChainJoin(front: seq<Block>, added: seq<Block>)
    requires Chained(front) && |added| > 0 && ChainedFrom(added, Ends(front))
    ensures Chained(front + added) && Ends(front + added) == Ends(added)
  {
    var all := front + added;
    var k := |front|;
    forall i | 0 <= i < |all| ensures all[i].start == Ends(all[..i]) {
      if i < k {
        assert all[..i] == front[..i] && all[i] == front[i];
      } else {
        assert all[i] == added[i-k] && all[..i] == front + added[..i-k];
      }
    }
  }

  lemma NumBlocksFit(len: nat, size: nat)
    requires len > 0 && size > 0
    ensures var m := (len + size - 1) / size; m > 0 && (m - 1) * size < len <= m * size
  {
    var m := (len + size - 1) / size;
    assert m * size <= len + size - 1 < m * size + size;
    assert (m - 1) * size == m * size - size;
  }

  /** Every slot of a write but the last is filled. */
  lemma StartOfBlock(c: nat, n: nat, i: nat, slots: nat, blockSize: nat)
    requires i < slots && (slots - 1) * blockSize < n - c
    ensures c + i * blockSize < n
    ensures c + (i + 1) * blockSize == c + i * blockSize + blockSize
  {
    assert i * blockSize <= (slots - 1) * blockSize;
  }

  /** The two loops of service_lookup over the named blocks. */
  method UsableBlocks(ghost held: seq<Block>, blockSize: nat, toks: seq<int>, r: LookupReply)
    returns (blocks: seq<Block>, len: nat)
    requires r.Found? && Chained(held) && Truthful(held, blockSize, toks, r)
    ensures |blocks| == Usable(held, |r.offsets|, |toks|) <= |r.offsets| <= |held|
    ensures blocks == held[..|blocks|] && len == Ends(blocks) <= |toks|
  {
    hide Ends, Chained;
    var named := FromHeaders(held, blockSize, toks, r);
    FrontChained(held, |named|);
    var included;
    included, len := WholeBlocks(named, |toks|);
    blocks := named[..included];
    FrontOfFront(held, |named|, included);
    UsableIs(held, 0, |named|, |toks|, included);
  }

  lemma FrontChained(held: seq<Block>, n: nat)
    requires Chained(held) && n <= |held|
    ensures Chained(held[..n])
  {
  }

  lemma FrontOfFront(held: seq<Block>, n: nat, k: nat)
    requires k <= n <= |held|
    ensures held[..n][..k] == held[..k]
    ensures k < n ==> held[..n][..k+1] == held[..k+1]
  {
  }

  ghost predicate SamePrefix(toks: seq<int>, tokens: seq<int>, len: nat) {
    len <= |toks| && len <= |tokens| && toks[..len] == tokens[..len]
  }

  /** The reply is usable: the hash of the named prefix is the hash of the caller's tokens. */
  predicate Accepted(r: LookupReply, toks: seq<int>, hash: seq<int> -> int) {
    r.Found? && r.prefixLen <= |toks| && (r.prefixLen > 0 ==> hash(toks[..r.prefixLen]) == r.prefixHash)
  }

  /** No collision at the named prefix: a matching hash means that toks and the record share it. */
  ghost predicate HashTells(r: LookupReply, toks: seq<int>, tokens: seq<int>, hash: seq<int> -> int) {
    Accepted(r, toks, hash) ==> SamePrefix(toks, tokens, r.prefixLen)
  }

  lemma ShorterSame(toks: seq<int>, tokens: seq<int>, len: nat, shorter: nat)
    requires shorter <= len
    ensures SamePrefix(toks, tokens, len) ==> SamePrefix(toks, tokens, shorter)
  {
    if SamePrefix(toks, tokens, len) {
      assert toks[..shorter] == toks[..len][..shorter] == tokens[..len][..shorter] == tokens[..shorter];
    }
  }

  /** A header gives the block's true length; an unusable one stands for a full block, or for
      the last one, which reaches the prefix's end. */
  ghost predicate TrueHeader(h: Header, b: Block, blockSize: nat, prefixLen: nat) {
    if h.valid then h.n == b.n
    else b.start <= prefixLen && b.n == Min(blockSize, prefixLen - b.start)
  }

  /** The remote's contract for a lookup of toks: the prefix is one of toks, and the blocks
      named are the first of the record, in order and with true headers. */
  ghost predicate Truthful(held: seq<Block>, blockSize: nat, toks: seq<int>, r: LookupReply) {
    r.Found? ==>
      && r.prefixLen <= |toks|
      && |r.headers| == |r.offsets| <= |held|
      && forall i :: 0 <= i < |r.offsets| ==>
           && r.offsets[i] == held[i].offset
           && TrueHeader(r.headers[i], held[i], blockSize, r.prefixLen)
  }

  /** The header loop of service_lookup: positions and token counts of the named blocks. */
  method FromHeaders(ghost held: seq<Block>, blockSize: nat, toks: seq<int>, r: LookupReply)
    returns (named: seq<Block>)
    requires r.Found? && Chained(held) && Truthful(held, blockSize, toks, r)
    ensures named == held[..|r.offsets|]
  {
    named := [];
    var pos: nat := 0;
    for i := 0 to |r.offsets|
      invariant named == held[..i] && pos == Ends(held[..i])
    {
      ChainedStart(held, i);
      var h := r.headers[i];
      var remaining := r.prefixLen - pos;
      var n := if h.valid then h.n else if blockSize < remaining then blockSize else remaining;
      named := named + [Block(r.offsets[i], pos, n)];
      pos := pos + n;
    }
  }

  /** The last loop of service_lookup: as many whole blocks as fit in limit tokens. */
  method WholeBlocks(named: seq<Block>, limit: nat) returns (included: nat, len: nat)
    requires Chained(named)
    ensures included <= |named| && len == Ends(named[..included]) <= limit
    ensures included < |named| ==> Ends(named[..included+1]) > limit
  {
    included, len := 0, 0;
    while included < |named| && len + named[included].n <= limit
      invariant 0 <= included <= |named| && len == Ends(named[..included]) <= limit
    {
      ChainedStart(named, included);
      len := len + named[included].n;
      included := included + 1;
    }
    if included < |named| {
      ChainedStart(named, included);
    }
  }

  // ----- what the lookup vouches for -----

  /** The hash vouches for prefixLen tokens, but the last loop of service_lookup measures its
      blocks against the prompt only.  Of all records with these blocks that share the named
      prefix, every one agrees with toks up to the length kept exactly when that length is
      within the named prefix: the guard the code leaves out. */
  lemma KeptIsShared(held: seq<Block>, toks: seq<int>, r: LookupReply, hash: seq<int> -> int)
    requires Chained(held) && Accepted(r, toks, hash) && |r.offsets| <= |held|
    ensures var len := UsableLen(held, toks, r, hash);
            (forall tokens :: |tokens| == Ends(held) && HashTells(r, toks, tokens, hash) ==>
              SamePrefix(toks, tokens, len))
            <==> len <= r.prefixLen
  {
    var len := UsableLen(held, toks, r, hash);
    UsableBounds(held, 0, |r.offsets|, |toks|);
    EndsBelow(held, Usable(held, |r.offsets|, |toks|));
    if len <= r.prefixLen {
      forall tokens | |tokens| == Ends(held) && HashTells(r, toks, tokens, hash)
        ensures SamePrefix(toks, tokens, len)
      {
        ShorterSame(toks, tokens, r.prefixLen, len);
      }
    } else {
      var tokens := Diverging(toks, r.prefixLen, Ends(held));
      assert toks[..r.prefixLen] == tokens[..r.prefixLen];
      assert toks[..len][r.prefixLen] != tokens[..len][r.prefixLen];
      assert HashTells(r, toks, tokens, hash) && !SamePrefix(toks, tokens, len);
    }
  }

  lemma {:induction false} UsableBounds(held: seq<Block>, i: nat, named: nat, limit: nat)
    requires Chained(held) && i <= named <= |held| && Ends(held[..i]) <= limit
    ensures i <= UsableFrom(held, i, named, limit) <= named
    ensures Ends(held[..UsableFrom(held, i, named, limit)]) <= limit
    decreases named - i
  {
    if i < named && Ends(held[..i+1]) <= limit {
      UsableBounds(held, i + 1, named, limit);
    }
  }

  /** n tokens that agree with toks on the first len and differ on the next. */
  function Diverging(toks: seq<int>, len: nat, n: nat): (tokens: seq<int>)
    ensures |tokens| == n
    ensures forall i :: 0 <= i < n && i < |toks| ==> (tokens[i] == toks[i] <==> i < len)
  {
    seq(n, i requires 0 <= i < n => if i >= |toks| then 0 else if i < len then toks[i] else toks[i] + 1)
  }

  /** A reply within the contract that makes the code keep six wrong tokens: one block of 16,
      a shared prefix of 10, and a prompt of 20 that goes its own way from there. */
  lemma KeepsTooMuch(hash: seq<int> -> int)
    ensures var held := [Block(0, 0, 16)];
            var toks := seq(20, i => i);
            var tokens := Diverging(toks, 10, 16);
            var r := Found(10, hash(toks[..10]), [0], [Header(true, 16)]);
            && Chained(held) && Ends(held) == |tokens| && Truthful(held, 16, toks, r)
            && Accepted(r, toks, hash) && HashTells(r, toks, tokens, hash)
            && UsableLen(held, toks, r, hash) == 16
            && SamePrefix(toks, tokens, 10) && !SamePrefix(toks, tokens, 11)
  {
    var held := [Block(0, 0, 16)];
    var toks := seq(20, i => i);
    var tokens := Diverging(toks, 10, 16);
    assert held[..0] == [] && held[..1] == held;
    UsableIs(held, 0, 1, 20, 1);
    assert toks[..10] == tokens[..10];
    assert toks[..11][10] != tokens[..11][10];
  }

  // ----- runs -----

  /** One turn of a conversation: perhaps a lookup, of any tokens; then the whole token sequence
      so far and its host image, and what the remote answers. */
  datatype Turn = Turn(
    asked: Option<seq<int>>, reply: LookupReply,
    toks: seq<int>, host: seq<byte>, kvs: seq<TokenKv>,
    alloc: AllocReply, storeOk: bool)

  /** The turn's host buffer is the image of its bytes, and both continue what was stored. */
  ghost predicate Continues(t: Turn, tokens: seq<int>, kvs: seq<TokenKv>, halves: nat, ptl: nat) {
    && |t.kvs| == |t.toks| > |tokens|
    && HostHolds(t.host, t.kvs, halves, ptl)
    && SamePrefix(t.toks, tokens, |tokens|)
    && SamePrefixKv(t.kvs, kvs, |kvs|)
  }

  /** The record when the turn's lookup, if any, is over. */
  function Looked(rec: Record, t: Turn, hash: seq<int> -> int): Record {
    if t.asked.Some? then rec.(cached := UsableLen(rec.held, t.asked.value, t.reply, hash), slot := true)
    else rec
  }

  function Turned(rec: Record, t: Turn, blockSize: nat, hash: seq<int> -> int): Record
    requires blockSize > 0
  {
    Stored(Looked(rec, t, hash), t.toks, t.kvs, blockSize, t.alloc, t.storeOk)
  }

  /** Whether the turn's sequence gets into the record. */
  function Lands(rec: Record, t: Turn, blockSize: nat, hash: seq<int> -> int): bool
    requires blockSize > 0
  {
    Stores(Looked(rec, t, hash).cached, |t.toks|, blockSize, t.alloc, t.storeOk)
  }

  /** The record after the first i turns. */
  function After(rec: Record, turns: seq<Turn>, blockSize: nat, hash: seq<int> -> int, i: nat): Record
    requires i <= |turns| && blockSize > 0
  {
    if i == 0 then rec else Turned(After(rec, turns, blockSize, hash, i - 1), turns[i-1], blockSize, hash)
  }

  /** The last of the first i turns that was stored, or what was there before. */
  function LastStored(tokens: seq<int>, kvs: seq<TokenKv>, turns: seq<Turn>, rcs: seq<int>, i: nat)
    : (seq<int>, seq<TokenKv>)
    requires i <= |turns| && i <= |rcs|
  {
    if i == 0 then (tokens, kvs)
    else if rcs[i-1] == 0 then (turns[i-1].toks, turns[i-1].kvs)
    else LastStored(tokens, kvs, turns, rcs, i - 1)
  }

  /** What is asked of a turn and of the remote when the record is rec: the turn extends the
      sequence last stored, a lookup is answered truthfully, and slots handed out are free. */
  ghost predicate TurnOk(s: Session, rec: Record, t: Turn) {
    && Continues(t, rec.tokens, rec.kvs, 2 * s.nLayer, s.ptl)
    && (t.asked.Some? ==> Truthful(rec.held, s.blockSize, t.asked.value, t.reply))
    && (t.alloc.Slots? ==> s.FreshSlots(t.alloc.offsets, rec.held))
  }

  /** One turn against the remote. */
  method RunTurn(s: Session, t: Turn) returns (rc: int)
    requires s.Valid() && TurnOk(s, s.Rec(), t)
    modifies s, s.arena
    ensures s.Valid() && s.Rec() == Turned(old(s.Rec()), t, s.blockSize, s.hash)
    ensures rc == if Lands(old(s.Rec()), t, s.blockSize, s.hash) then 0 else -1
    ensures (s.tokens, s.kvs) == if rc == 0 then (t.toks, t.kvs) else old((s.tokens, s.kvs))
  {
    hide UsableLen, NumBlocks, Truthful, HostHolds, Session.GoodBlocks, Shape, NewBlocks, SamePrefix, SamePrefixKv,
         Cut, Splice;
    if t.asked.Some? {
      var _ := s.Lookup(t.asked.value, t.reply);
    }
    s.Boundary();
    ShorterSameKv(t.kvs, s.kvs, |s.kvs|, s.cachedLen);
    HostNonEmpty(t.host, t.kvs, 2 * s.nLayer, s.ptl);
    SpliceSame(s.kvs, t.kvs, s.cachedLen);
    rc := s.Write(t.toks, t.host, t.kvs, t.alloc, t.storeOk);
  }

  lemma ShorterSameKv(a: seq<TokenKv>, b: seq<TokenKv>, len: nat, shorter: nat)
    requires shorter <= len
    ensures SamePrefixKv(a, b, len) ==> SamePrefixKv(a, b, shorter)
  {
    if SamePrefixKv(a, b, len) {
      assert a[..shorter] == a[..len][..shorter] == b[..len][..shorter] == b[..shorter];
    }
  }

  lemma HostNonEmpty(host: seq<byte>, kvs: seq<TokenKv>, halves: nat, ptl: nat)
    requires HostHolds(host, kvs, halves, ptl) && |kvs| > 0 && halves > 0 && ptl > 0
    ensures |host| > 0
  {
    assert halves * |kvs| > 0;
  }

  lemma HostEmpty(host: seq<byte>, kvs: seq<TokenKv>, halves: nat, ptl: nat)
    requires HostHolds(host, kvs, halves, ptl) && halves > 0 && ptl > 0
    ensures |host| == 0 ==> |kvs| == 0
  {
    if |kvs| > 0 {
      HostNonEmpty(host, kvs, halves, ptl);
    }
  }

  /** A run of turns, each extending the sequence last stored, with lookups of anything in
      between, slots in any order, and any of the allocations and stores refused: the record
      goes through the states of the abstract run and ends with the last turn stored. */
  method RunTurns(s: Session, turns: seq<Turn>) returns (rcs: seq<int>)
    requires s.Valid()
    requires forall i :: 0 <= i < |turns| ==> TurnOk(s, After(s.Rec(), turns, s.blockSize, s.hash, i), turns[i])
    modifies s, s.arena
    ensures s.Valid() && s.Rec() == After(old(s.Rec()), turns, s.blockSize, s.hash, |turns|)
    ensures |rcs| == |turns|
    ensures forall i :: 0 <= i < |turns| ==>
              rcs[i] == if Lands(After(old(s.Rec()), turns, s.blockSize, s.hash, i), turns[i], s.blockSize, s.hash)
                         then 0 else -1
    ensures (s.tokens, s.kvs) == LastStored(old(s.tokens), old(s.kvs), turns, rcs, |turns|)
  {
    hide TurnOk, Turned, Lands, After, LastStored, Session.Valid;
    rcs := [];
    s.Kept();
    ghost var rec, tokens, kvs := s.Rec(), s.tokens, s.kvs;
    NoTurns(rec, tokens, kvs, turns, s.blockSize, s.hash);
    for i := 0 to |turns|
      invariant s.Valid() && s.Rec() == After(rec, turns, s.blockSize, s.hash, i)
      invariant |rcs| == i && (s.tokens, s.kvs) == LastStored(tokens, kvs, turns, rcs, i)
      invariant forall j :: 0 <= j < i ==>
                  rcs[j] == if Lands(After(rec, turns, s.blockSize, s.hash, j), turns[j], s.blockSize, s.hash)
                           then 0 else -1
    {
      var rc := RunTurn(s, turns[i]);
      OneTurn(rec, tokens, kvs, turns, s.blockSize, s.hash, rcs, rc, i);
      rcs := rcs + [rc];
    }
  }

  lemma NoTurns(rec: Record, tokens: seq<int>, kvs: seq<TokenKv>, turns: seq<Turn>,
                blockSize: nat, hash: seq<int> -> int)
    requires blockSize > 0
    ensures After(rec, turns, blockSize, hash, 0) == rec && LastStored(tokens, kvs, turns, [], 0) == (tokens, kvs)
  {
  }

  lemma OneTurn(rec: Record, tokens: seq<int>, kvs: seq<TokenKv>, turns: seq<Turn>,
                blockSize: nat, hash: seq<int> -> int, rcs: seq<int>, rc: int, i: nat)
    requires blockSize > 0 && i < |turns| && |rcs| == i
    ensures After(rec, turns, blockSize, hash, i + 1) ==
            Turned(After(rec, turns, blockSize, hash, i), turns[i], blockSize, hash)
    ensures LastStored(tokens, kvs, turns, rcs + [rc], i + 1) ==
            if rc == 0 then (turns[i].toks, turns[i].kvs) else LastStored(tokens, kvs, turns, rcs, i)
  {
    hide Turned;
    SameLast(tokens, kvs, turns, rcs, rcs + [rc], i);
  }

  lemma {:induction false} SameLast(tokens: seq<int>, kvs: seq<TokenKv>, turns: seq<Turn>,
                                    a: seq<int>, b: seq<int>, i: nat)
    requires i <= |turns| && i <= |a| && a <= b
    ensures LastStored(tokens, kvs, turns, a, i) == LastStored(tokens, kvs, turns, b, i)
  {
    if i > 0 {
      SameLast(tokens, kvs, turns, a, b, i - 1);
    }
  }

  /** No slot is handed out twice: each is apart from the blocks at the start and from the
      slots of the other turns. */
  ghost predicate NeverReused(s: Session, held: seq<Block>, turns: seq<Turn>) {
    && (forall i :: 0 <= i < |turns| && turns[i].alloc.Slots? ==> s.FreshSlots(turns[i].alloc.offsets, held))
    && (forall i, j :: 0 <= i < j < |turns| && turns[i].alloc.Slots? && turns[j].alloc.Slots? ==>
          AllApart(turns[i].alloc.offsets, turns[j].alloc.offsets, s.blockSize * s.perTok))
  }

  ghost predicate AllApart(xs: seq<nat>, ys: seq<nat>, slotLen: nat) {
    forall a, b :: 0 <= a < |xs| && 0 <= b < |ys| ==> Apart(xs[a], ys[b], slotLen)
  }

  /** Block b was there at the start or came with one of the first i turns. */
  ghost predicate Known(held: seq<Block>, turns: seq<Turn>, i: nat, b: Block) {
    || (exists m :: 0 <= m < |held| && held[m].offset == b.offset)
    || (exists j, a :: 0 <= j < i && j < |turns| && turns[j].alloc.Slots? && 0 <= a < |turns[j].alloc.offsets|
                       && turns[j].alloc.offsets[a] == b.offset)
  }

  lemma {:induction false} AllKnown(rec: Record, turns: seq<Turn>, blockSize: nat, hash: seq<int> -> int,
                                    i: nat, k: nat)
    requires i <= |turns| && blockSize > 0
    requires k < |After(rec, turns, blockSize, hash, i).held|
    ensures Known(rec.held, turns, i, After(rec, turns, blockSize, hash, i).held[k])
  {
    hide UsableLen, NumBlocks, Cut;
    if i > 0 {
      var was, t := After(rec, turns, blockSize, hash, i - 1), turns[i-1];
      var looked := Looked(was, t, hash);
      if Lands(was, t, blockSize, hash) && k >= Cut(was.held, looked.cached) {
        var a := k - Cut(was.held, looked.cached);
        assert turns[i-1].alloc.offsets[a] == NewBlocks(looked.cached, |t.toks|, t.alloc.offsets, blockSize)[a].offset;
      } else {
        AllKnown(rec, turns, blockSize, hash, i - 1, k);
      }
    }
  }

  /** If no slot is handed out twice, those of every turn are free when it comes. */
  lemma SlotsAreFree(s: Session, rec: Record, turns: seq<Turn>, i: nat)
    requires s.blockSize > 0 && i < |turns| && turns[i].alloc.Slots? && NeverReused(s, rec.held, turns)
    ensures s.FreshSlots(turns[i].alloc.offsets, After(rec, turns, s.blockSize, s.hash, i).held)
  {
    hide After, Apart;
    var offsets, held := turns[i].alloc.offsets, After(rec, turns, s.blockSize, s.hash, i).held;
    forall a, k | 0 <= a < |offsets| && 0 <= k < |held|
      ensures Apart(offsets[a], held[k].offset, s.blockSize * s.perTok) {
      AllKnown(rec, turns, s.blockSize, s.hash, i, k);
      if !(exists m :: 0 <= m < |rec.held| && rec.held[m].offset == held[k].offset) {
        var j, b :| 0 <= j < i && turns[j].alloc.Slots? && 0 <= b < |turns[j].alloc.offsets|
                    && turns[j].alloc.offsets[b] == held[k].offset;
        assert AllApart(turns[j].alloc.offsets, offsets, s.blockSize * s.perTok);
        ApartBack(held[k].offset, offsets[a], s.blockSize * s.perTok);
      }
    }
  }

  lemma ApartBack(x: nat, y: nat, slotLen: nat)
    ensures Apart(x, y, slotLen) ==> Apart(y, x, slotLen)
  {
  }

  /** Lookup, then read: for every truthful reply and every range within the length looked up,
      what the record holds comes back byte for byte, laid out for the engine; other ranges
      are refused. */
  method ReadBack(s: Session, toks: seq<int>, r: LookupReply, start: nat, n: nat, dst: array<byte>)
    returns (rc: int, ghost log: CopyLog)
    requires s.Valid() && Truthful(s.held, s.blockSize, toks, r)
    requires dst != s.arena && dst.Length == 2 * s.nLayer * n * s.ptl
    modifies s`slot, s`cachedLen, s`blocks, dst
    ensures s.Valid()
    ensures rc == if start + n <= UsableLen(s.held, toks, r, s.hash) then 0 else -1
    ensures rc == 0 ==> start + n <= |s.kvs| && HostHolds(dst[..], s.kvs[start..start+n], 2 * s.nLayer, s.ptl)
    ensures rc == 0 ==> |log| == n * (2 * s.nLayer) && InOrder(log, 2 * s.nLayer, 0)
  {
    hide Session.GoodBlocks, Shape, Chained, Truthful, UsableLen;
    var len := s.Lookup(toks, r);
    rc, log := s.Read(start, n, dst);
  }
}
