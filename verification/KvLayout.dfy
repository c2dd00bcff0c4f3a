/** The two layouts of cached bytes: the host buffer is layer-major, the blocks in the shared
    arena are token-major, and the copy loops of service_write and service_read go from one to
    the other. */
module KvLayout {
  import opened Bytes

  /** The cached bytes of one token: for each half-layer j (2l is K of layer l, 2l + 1 is V)
      one run of ptl bytes. */
  type TokenKv = seq<seq<byte>>

  ghost predicate TokenShape(kv: TokenKv, halves: nat, ptl: nat) {
    |kv| == halves && forall j :: 0 <= j < halves ==> |kv[j]| == ptl
  }

  ghost predicate Shape(kvs: seq<TokenKv>, halves: nat, ptl: nat) {
    forall t :: 0 <= t < |kvs| ==> TokenShape(kvs[t], halves, ptl)
  }

  // ----- addresses -----

  /** Where half-layer j of token t stands in a host buffer for n tokens. */
  function HostAt(n: nat, ptl: nat, j: nat, t: nat): nat {
    j * n * ptl + t * ptl
  }

  /** Runs of length m at different multiples of m do not overlap. */
  lemma Runs(a: nat, b: nat, m: nat)
    requires a < b
    ensures a * m + m <= b * m
  {
    assert (a + 1) * m <= b * m;
  }

  lemma IndexBelow(n: nat, rows: nat, j: nat, t: nat)
    requires j < rows && t < n
    ensures j * n + t < rows * n
  {
    Runs(j, rows, n);
  }

  lemma IndexUnique(n: nat, j: nat, t: nat, j': nat, t': nat)
    requires t < n && t' < n && j * n + t == j' * n + t'
    ensures j == j' && t == t'
  {
    if j < j' {
      Runs(j, j', n);
    } else if j' < j {
      Runs(j', j, n);
    }
  }

  lemma HostAtIsCell(n: nat, ptl: nat, j: nat, t: nat)
    ensures HostAt(n, ptl, j, t) == (j * n + t) * ptl
  {
  }

  /** Host cells lie inside the buffer. */
  lemma HostInside(n: nat, ptl: nat, halves: nat, j: nat, t: nat)
    requires j < halves && t < n
    ensures HostAt(n, ptl, j, t) + ptl <= halves * n * ptl
  {
    HostAtIsCell(n, ptl, j, t);
    IndexBelow(n, halves, j, t);
    Runs(j * n + t, halves * n, ptl);
  }

  /** Different host cells do not overlap. */
  lemma HostApart(n: nat, ptl: nat, j: nat, t: nat, j': nat, t': nat)
    requires t < n && t' < n && (j != j' || t != t')
    ensures || HostAt(n, ptl, j, t) + ptl <= HostAt(n, ptl, j', t')
            || HostAt(n, ptl, j', t') + ptl <= HostAt(n, ptl, j, t)
  {
    HostAtIsCell(n, ptl, j, t);
    HostAtIsCell(n, ptl, j', t');
    var c, c' := j * n + t, j' * n + t';
    if c == c' {
      IndexUnique(n, j, t, j', t');
    } else if c < c' {
      Runs(c, c', ptl);
    } else {
      Runs(c', c, ptl);
    }
  }

  ghost predicate InCell(n: nat, ptl: nat, j: nat, t: nat, x: nat) {
    HostAt(n, ptl, j, t) <= x < HostAt(n, ptl, j, t) + ptl
  }

  /** Division with remainder, and a bound on the quotient. */
  lemma Split(x: nat, m: nat, bound: nat) returns (q: nat, r: nat)
    requires x < bound * m
    ensures x == q * m + r && r < m && q < bound
  {
    assert m != 0;
    q, r := x / m, x % m;
    if q > bound {
      Runs(bound, q, m);
    }
  }

  /** The cells tile the host buffer: every byte lies in exactly one of them. */
  lemma HostTiled(n: nat, ptl: nat, halves: nat, x: nat) returns (j: nat, t: nat)
    requires x < halves * n * ptl
    ensures j < halves && t < n && InCell(n, ptl, j, t, x)
    ensures forall j', t' :: 0 <= t' < n && InCell(n, ptl, j', t', x) ==> j' == j && t' == t
  {
    var c, r := Split(x, ptl, halves * n);
    j, t := Split(c, n, halves);
    HostAtIsCell(n, ptl, j, t);
    forall j', t' | 0 <= t' < n && InCell(n, ptl, j', t', x)
      ensures j' == j && t' == t
    {
      if j' != j || t' != t {
        HostApart(n, ptl, j, t, j', t');
      }
    }
  }

  /** host is the layer-major image of kvs. */
  ghost predicate HostHolds(host: seq<byte>, kvs: seq<TokenKv>, halves: nat, ptl: nat) {
    && |host| == halves * |kvs| * ptl
    && Shape(kvs, halves, ptl)
    && forall j, t :: 0 <= j < halves && 0 <= t < |kvs| ==> CellIs(host, |kvs|, ptl, j, t, kvs[t][j])
  }

  ghost predicate CellIs(host: seq<byte>, n: nat, ptl: nat, j: nat, t: nat, bytes: seq<byte>) {
    HostAt(n, ptl, j, t) + ptl <= |host| && host[HostAt(n, ptl, j, t)..HostAt(n, ptl, j, t) + ptl] == bytes
  }

  /** The arena holds token kv at base: its half-layers one after another. */
  ghost predicate TokenAt(arena: seq<byte>, base: nat, kv: TokenKv, ptl: nat) {
    && base + |kv| * ptl <= |arena|
    && forall j :: 0 <= j < |kv| ==> HalfAt(arena, base, j, ptl, kv[j])
  }

  ghost predicate HalfAt(arena: seq<byte>, base: nat, j: nat, ptl: nat, bytes: seq<byte>) {
    base + j * ptl + ptl <= |arena| && arena[base + j * ptl..base + j * ptl + ptl] == bytes
  }

  // ----- the copies -----

  /** memcpy of n bytes. */
  method MemCpy(dst: array<byte>, to: nat, src: seq<byte>, from: nat, n: nat)
    requires to + n <= dst.Length && from + n <= |src|
    modifies dst
    ensures dst[..] == old(dst[..to]) + src[from..from+n] + old(dst[to+n..])
  {
    for i := 0 to n
      invariant dst[..] == old(dst[..to]) + src[from..from+i] + old(dst[to+i..])
    {
      dst[to + i] := src[from + i];
    }
  }

  /** Everything outside lo .. hi is as it was. */
  ghost predicate SameOutside(was: seq<byte>, now: seq<byte>, lo: nat, hi: nat) {
    |now| == |was| && forall x :: 0 <= x < |was| && (x < lo || hi <= x) ==> now[x] == was[x]
  }

  /** A half-layer run survives a write elsewhere. */
  lemma HalfKept(was: seq<byte>, now: seq<byte>, base: nat, i: nat, ptl: nat, bytes: seq<byte>, lo: nat, hi: nat)
    requires HalfAt(was, base, i, ptl, bytes) && SameOutside(was, now, lo, hi)
    requires base + i * ptl + ptl <= lo || hi <= base + i * ptl
    ensures HalfAt(now, base, i, ptl, bytes)
  {
    var a := base + i * ptl;
    assert now[a..a+ptl] == was[a..a+ptl];
  }

  /** The memcpy of one half-layer run, K or V. */
  method HalfOut(arena: array<byte>, base: nat, host: seq<byte>, n: nat, g: nat, j: nat, halves: nat, ptl: nat,
                 ghost kvs: seq<TokenKv>)
    requires |kvs| == n && g < n && HostHolds(host, kvs, halves, ptl) && j < halves
    requires base + halves * ptl <= arena.Length
    modifies arena
    ensures HalfAt(arena[..], base, j, ptl, kvs[g][j])
    ensures SameOutside(old(arena[..]), arena[..], base + j * ptl, base + j * ptl + ptl)
  {
    Runs(j, halves, ptl);
    HostInside(n, ptl, halves, j, g);
    assert CellIs(host, n, ptl, j, g, kvs[g][j]);
    MemCpy(arena, base + j * ptl, host, HostAt(n, ptl, j, g), ptl);
  }

  /** The inner loop of service_write for one token: from the host buffer, where the runs of
      token g are n * ptl apart, to the arena, where they are adjacent. */
  method TokenOut(arena: array<byte>, base: nat, host: seq<byte>, n: nat, g: nat, nLayer: nat, ptl: nat,
                  ghost kvs: seq<TokenKv>)
    requires |kvs| == n && g < n && HostHolds(host, kvs, 2 * nLayer, ptl)
    requires base + 2 * nLayer * ptl <= arena.Length
    modifies arena
    ensures TokenAt(arena[..], base, kvs[g], ptl)
    ensures SameOutside(old(arena[..]), arena[..], base, base + 2 * nLayer * ptl)
  {
    for l := 0 to nLayer
      invariant HalvesAt(arena[..], base, 2 * l, ptl, kvs[g])
      invariant SameOutside(old(arena[..]), arena[..], base, base + 2 * nLayer * ptl)
    {
      label k:
      HalfOut(arena, base, host, n, g, 2 * l, 2 * nLayer, ptl, kvs);
      HalvesGrow(old@k(arena[..]), arena[..], base, 2 * l, 2 * nLayer, ptl, kvs[g]);
      label v:
      HalfOut(arena, base, host, n, g, 2 * l + 1, 2 * nLayer, ptl, kvs);
      HalvesGrow(old@v(arena[..]), arena[..], base, 2 * l + 1, 2 * nLayer, ptl, kvs[g]);
    }
  }

  /** The first m half-layer runs of kv are in place. */
  ghost predicate HalvesAt(arena: seq<byte>, base: nat, m: nat, ptl: nat, kv: TokenKv) {
    m <= |kv| && forall j :: 0 <= j < m ==> HalfAt(arena, base, j, ptl, kv[j])
  }

  lemma HalvesGrow(was: seq<byte>, now: seq<byte>, base: nat, m: nat, halves: nat, ptl: nat, kv: TokenKv)
    requires m < |kv| == halves && HalvesAt(was, base, m, ptl, kv)
    requires SameOutside(was, now, base + m * ptl, base + m * ptl + ptl) && HalfAt(now, base, m, ptl, kv[m])
    ensures HalvesAt(now, base, m + 1, ptl, kv)
    ensures SameOutside(was, now, base, base + halves * ptl)
  {
    forall j | 0 <= j < m ensures HalfAt(now, base, j, ptl, kv[j]) {
      Runs(j, m, ptl);
      HalfKept(was, now, base, j, ptl, kv[j], base + m * ptl, base + m * ptl + ptl);
    }
    Runs(m, halves, ptl);
  }

  // ----- reading one token back -----

  /** Host tokens before c are complete, and so are the first m half-layers of token c. */
  ghost predicate ReadUpTo(host: seq<byte>, kvs: seq<TokenKv>, halves: nat, ptl: nat, c: nat, m: nat) {
    && c <= |kvs| && m <= halves && Shape(kvs, halves, ptl)
    && |host| == halves * |kvs| * ptl
    && forall j, t :: 0 <= j < halves && 0 <= t < |kvs| && (t < c || (t == c && j < m)) ==>
         CellIs(host, |kvs|, ptl, j, t, kvs[t][j])
  }

  lemma ReadNothing(host: seq<byte>, kvs: seq<TokenKv>, halves: nat, ptl: nat)
    requires Shape(kvs, halves, ptl) && |host| == halves * |kvs| * ptl
    ensures ReadUpTo(host, kvs, halves, ptl, 0, 0)
  {
  }

  lemma ReadAll(host: seq<byte>, kvs: seq<TokenKv>, halves: nat, ptl: nat)
    requires ReadUpTo(host, kvs, halves, ptl, |kvs|, 0)
    ensures HostHolds(host, kvs, halves, ptl)
  {
  }

  lemma CellKept(was: seq<byte>, now: seq<byte>, n: nat, ptl: nat, j: nat, t: nat, bytes: seq<byte>, lo: nat, hi: nat)
    requires CellIs(was, n, ptl, j, t, bytes) && SameOutside(was, now, lo, hi)
    requires HostAt(n, ptl, j, t) + ptl <= lo || hi <= HostAt(n, ptl, j, t)
    ensures CellIs(now, n, ptl, j, t, bytes)
  {
    var a := HostAt(n, ptl, j, t);
    assert now[a..a+ptl] == was[a..a+ptl];
  }

  lemma ReadGrow(was: seq<byte>, now: seq<byte>, kvs: seq<TokenKv>, halves: nat, ptl: nat, c: nat, m: nat)
    requires ReadUpTo(was, kvs, halves, ptl, c, m) && c < |kvs| && m < halves
    requires SameOutside(was, now, HostAt(|kvs|, ptl, m, c), HostAt(|kvs|, ptl, m, c) + ptl)
    requires CellIs(now, |kvs|, ptl, m, c, kvs[c][m])
    ensures ReadUpTo(now, kvs, halves, ptl, c, m + 1)
  {
    var n := |kvs|;
    forall j, t | 0 <= j < halves && 0 <= t < n && (t < c || (t == c && j < m + 1))
      ensures CellIs(now, n, ptl, j, t, kvs[t][j])
    {
      if j != m || t != c {
        HostApart(n, ptl, j, t, m, c);
        CellKept(was, now, n, ptl, j, t, kvs[t][j], HostAt(n, ptl, m, c), HostAt(n, ptl, m, c) + ptl);
      }
    }
  }

  /** The cells a run of copies wrote, as half-layer and token: one entry for each memcpy. */
  type CopyLog = seq<(nat, nat)>

  /** The copies went to the cells in order, token by token, starting with cell number first. */
  ghost predicate InOrder(log: CopyLog, halves: nat, first: nat) {
    forall k :: 0 <= k < |log| ==> log[k].0 < halves && log[k].1 * halves + log[k].0 == first + k
  }

  /** Copies of tokens x to y, then of tokens y on, are copies of tokens x on. */
  lemma LogJoins(a: CopyLog, b: CopyLog, halves: nat, x: nat, y: nat)
    requires x <= y && |a| == (y - x) * halves && InOrder(a, halves, x * halves) && InOrder(b, halves, y * halves)
    ensures InOrder(a + b, halves, x * halves)
  {
    assert (y - x) * halves == y * halves - x * halves;
  }

  /** The copies of n tokens in order: each cell is written by exactly one of them. */
  lemma EachCellOnce(log: CopyLog, halves: nat, n: nat, j: nat, t: nat) returns (k: nat)
    requires |log| == n * halves && InOrder(log, halves, 0) && j < halves && t < n
    ensures k < |log| && log[k] == (j, t)
    ensures forall i :: 0 <= i < |log| && log[i] == (j, t) ==> i == k
  {
    IndexBelow(halves, n, t, j);
    k := t * halves + j;
    IndexUnique(halves, log[k].1, log[k].0, t, j);
  }

  /** The inner loop of service_read for one token: from the arena to token c of the host. */
  method TokenIn(dst: array<byte>, arena: seq<byte>, base: nat, n: nat, c: nat, nLayer: nat, ptl: nat,
                 ghost kvs: seq<TokenKv>)
    returns (ghost log: CopyLog)
    requires |kvs| == n && c < n && ReadUpTo(dst[..], kvs, 2 * nLayer, ptl, c, 0)
    requires TokenAt(arena, base, kvs[c], ptl)
    modifies dst
    ensures ReadUpTo(dst[..], kvs, 2 * nLayer, ptl, c + 1, 0)
    ensures |log| == 2 * nLayer && forall k :: 0 <= k < |log| ==> log[k] == (k, c)
  {
    log := [];
    for l := 0 to nLayer
      invariant ReadUpTo(dst[..], kvs, 2 * nLayer, ptl, c, 2 * l)
      invariant |log| == 2 * l && forall k :: 0 <= k < |log| ==> log[k] == (k, c)
    {
      ghost var k := HalfIn(dst, arena, base, n, c, 2 * l, 2 * nLayer, ptl, kvs);
      ghost var v := HalfIn(dst, arena, base, n, c, 2 * l + 1, 2 * nLayer, ptl, kvs);
      log := log + k + v;
    }
  }

  /** The memcpy of one half-layer run into its cell, and nowhere else. */
  method HalfIn(dst: array<byte>, arena: seq<byte>, base: nat, n: nat, c: nat, j: nat, halves: nat, ptl: nat,
                ghost kvs: seq<TokenKv>)
    returns (ghost log: CopyLog)
    requires |kvs| == n && c < n && j < halves && ReadUpTo(dst[..], kvs, halves, ptl, c, j)
    requires TokenAt(arena, base, kvs[c], ptl)
    modifies dst
    ensures ReadUpTo(dst[..], kvs, halves, ptl, c, j + 1)
    ensures SameOutside(old(dst[..]), dst[..], HostAt(n, ptl, j, c), HostAt(n, ptl, j, c) + ptl)
    ensures log == [(j, c)]
  {
    log := [(j, c)];
    HostInside(n, ptl, halves, j, c);
    ghost var was := dst[..];
    assert HalfAt(arena, base, j, ptl, kvs[c][j]);
    MemCpy(dst, HostAt(n, ptl, j, c), arena, base + j * ptl, ptl);
    ReadGrow(was, dst[..], kvs, halves, ptl, c, j);
  }

  // ----- blocks -----

  /** A block of the session: where its data starts in the arena, the position of its first
      token, and how many tokens it holds. */
  datatype Block = Block(offset: nat, start: nat, n: nat)

  /** The position after the last block. */
  function Ends(blocks: seq<Block>): nat {
    if |blocks| == 0 then 0 else blocks[|blocks|-1].start + blocks[|blocks|-1].n
  }

  /** Each block starts where the one before it ends. */
  ghost predicate Chained(blocks: seq<Block>) {
    forall i :: 0 <= i < |blocks| ==> blocks[i].start == Ends(blocks[..i])
  }

  /** Block b holds its tokens of kvs, one after another, perTok bytes each. */
  ghost predicate BlockAt(arena: seq<byte>, b: Block, kvs: seq<TokenKv>, perTok: nat, ptl: nat) {
    && b.start + b.n <= |kvs|
    && forall t :: 0 <= t < b.n ==> TokenAt(arena, b.offset + t * perTok, kvs[b.start + t], ptl)
  }

  lemma TokenKept(was: seq<byte>, now: seq<byte>, base: nat, kv: TokenKv, ptl: nat, lo: nat, hi: nat)
    requires TokenAt(was, base, kv, ptl) && SameOutside(was, now, lo, hi)
    requires base + |kv| * ptl <= lo || hi <= base
    ensures TokenAt(now, base, kv, ptl)
  {
    forall j | 0 <= j < |kv| ensures HalfAt(now, base, j, ptl, kv[j]) {
      Runs(j, |kv|, ptl);
      assert HalfAt(was, base, j, ptl, kv[j]);
      HalfKept(was, now, base, j, ptl, kv[j], lo, hi);
    }
  }

  lemma BlockKept(was: seq<byte>, now: seq<byte>, b: Block, kvs: seq<TokenKv>, halves: nat, perTok: nat, ptl: nat,
                  lo: nat, hi: nat)
    requires Shape(kvs, halves, ptl) && perTok == halves * ptl
    requires BlockAt(was, b, kvs, perTok, ptl) && SameOutside(was, now, lo, hi)
    requires b.offset + b.n * perTok <= lo || hi <= b.offset
    ensures BlockAt(now, b, kvs, perTok, ptl)
  {
    forall t | 0 <= t < b.n ensures TokenAt(now, b.offset + t * perTok, kvs[b.start + t], ptl) {
      BlockTokenKept(was, now, b, kvs, halves, perTok, ptl, lo, hi, t);
    }
  }

  lemma BlockTokenKept(was: seq<byte>, now: seq<byte>, b: Block, kvs: seq<TokenKv>, halves: nat, perTok: nat, ptl: nat,
                       lo: nat, hi: nat, t: nat)
    requires Shape(kvs, halves, ptl) && perTok == halves * ptl
    requires BlockAt(was, b, kvs, perTok, ptl) && SameOutside(was, now, lo, hi)
    requires b.offset + b.n * perTok <= lo || hi <= b.offset
    requires t < b.n
    ensures TokenAt(now, b.offset + t * perTok, kvs[b.start + t], ptl)
  {
    hide TokenAt;
    var kv := kvs[b.start + t];
    assert |kv| == halves;
    Runs(t, b.n, perTok);
    TokenKept(was, now, b.offset + t * perTok, kv, ptl, lo, hi);
  }

  /** The token loop of service_write for one new block. */
  method BlockOut(arena: array<byte>, b: Block, host: seq<byte>, n: nat, nLayer: nat, ptl: nat, ghost kvs: seq<TokenKv>)
    requires |kvs| == n && b.start + b.n <= n && HostHolds(host, kvs, 2 * nLayer, ptl)
    requires b.offset + b.n * (2 * nLayer * ptl) <= arena.Length
    modifies arena
    ensures BlockAt(arena[..], b, kvs, 2 * nLayer * ptl, ptl)
    ensures SameOutside(old(arena[..]), arena[..], b.offset, b.offset + b.n * (2 * nLayer * ptl))
  {
    hide TokenAt;
    var perTok := 2 * nLayer * ptl;
    for t := 0 to b.n
      invariant BlockAt(arena[..], b.(n := t), kvs, perTok, ptl)
      invariant SameOutside(old(arena[..]), arena[..], b.offset, b.offset + b.n * perTok)
    {
      Runs(t, b.n, perTok);
      ghost var was := arena[..];
      TokenOut(arena, b.offset + t * perTok, host, n, b.start + t, nLayer, ptl, kvs);
      BlockKept(was, arena[..], b.(n := t), kvs, 2 * nLayer, perTok, ptl,
                b.offset + t * perTok, b.offset + t * perTok + perTok);
    }
  }
}
