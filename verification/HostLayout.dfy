/** The layout of the host copy of the cache: [L0 K][L0 V][L1 K][L1 V]..., each part the
    rows of consecutive tokens. */
module HostLayout {
  import opened Schedule

  function LayerMajor(cache: Cache): seq<Row> {
    var n := |cache|;
    if n == 0 then []
    else LayerMajor(cache[..n-1]) + cache[n-1].k + cache[n-1].v
  }

  /** Where K (half 0) or V (half 1) of layer l for token t stands, for len tokens. */
  function HostIndex(len: nat, l: nat, half: nat, t: nat): nat {
    (2 * l + half) * len + t
  }

  /** Where layer l's part of the copy begins. */
  function LayerStart(len: nat, l: nat): nat {
    2 * l * len
  }

  lemma LayerStartStep(len: nat, l: nat)
    ensures LayerStart(len, 0) == 0 && LayerStart(len, l + 1) == LayerStart(len, l) + 2 * len
  {
  }

  lemma LayersApart(len: nat, l: nat, n: nat)
    requires l < n
    ensures LayerStart(len, l) + 2 * len <= LayerStart(len, n)
  {
    assert (n - l - 1) * len >= 0;
  }

  lemma {:induction false} LayerMajorLength(cache: Cache, len: nat)
    requires CacheOf(cache, |cache|, len)
    ensures |LayerMajor(cache)| == LayerStart(len, |cache|)
  {
    hide LayerStart;
    LayerStartStep(len, |cache|);
    if cache != [] {
      LayerMajorLength(cache[..|cache|-1], len);
      LayerStartStep(len, |cache| - 1);
    }
  }

  lemma {:induction false} LayerMajorSlices(cache: Cache, len: nat, l: nat)
    requires CacheOf(cache, |cache|, len) && l < |cache|
    ensures LayerStart(len, l) + 2 * len <= |LayerMajor(cache)|
    ensures LayerMajor(cache)[LayerStart(len, l)..LayerStart(len, l) + len] == cache[l].k
    ensures LayerMajor(cache)[LayerStart(len, l) + len..LayerStart(len, l) + 2 * len] == cache[l].v
  {
    hide LayerStart;
    var n, at := |cache|, LayerStart(len, l);
    LayerMajorLength(cache, len);
    LayersApart(len, l, n);
    LayerMajorLength(cache[..n-1], len);
    if l < n - 1 {
      LayerMajorSlices(cache[..n-1], len, l);
      LayersApart(len, l, n - 1);
      FrontSlices(LayerMajor(cache[..n-1]), cache[n-1].k, cache[n-1].v, at, len);
    } else {
      LayerStartStep(len, l);
    }
  }

  lemma FrontSlices(front: seq<Row>, k: seq<Row>, v: seq<Row>, at: nat, len: nat)
    requires at + 2 * len <= |front|
    ensures (front + k + v)[at..at + len] == front[at..at + len]
    ensures (front + k + v)[at + len..at + 2 * len] == front[at + len..at + 2 * len]
  {
  }

  /** The layout, cell by cell: this is the contract a provider's read has to meet. */
  lemma LayerMajorCell(cache: Cache, len: nat, l: nat, t: nat)
    requires CacheOf(cache, |cache|, len) && l < |cache| && t < len
    ensures |LayerMajor(cache)| == LayerStart(len, |cache|)
    ensures HostIndex(len, l, 0, t) < |LayerMajor(cache)| && HostIndex(len, l, 1, t) < |LayerMajor(cache)|
    ensures LayerMajor(cache)[HostIndex(len, l, 0, t)] == cache[l].k[t]
    ensures LayerMajor(cache)[HostIndex(len, l, 1, t)] == cache[l].v[t]
  {
    hide LayerMajor;
    LayerMajorSlices(cache, len, l);
    LayerMajorLength(cache, len);
    CellStart(len, l, t);
    hide LayerStart, HostIndex;
    var m := LayerMajor(cache);
    var at := LayerStart(len, l);
    assert m[at..at + len][t] == m[at + t];
    assert m[at + len..at + 2 * len][t] == m[at + len + t];
  }

  lemma CellStart(len: nat, l: nat, t: nat)
    ensures HostIndex(len, l, 0, t) == LayerStart(len, l) + t
    ensures HostIndex(len, l, 1, t) == LayerStart(len, l) + len + t
  {
    assert (2 * l + 1) * len == 2 * l * len + len;
  }

  function Take(rows: seq<Row>, c: nat): seq<Row> {
    if c <= |rows| then rows[..c] else rows
  }

  /** The first c rows of every layer. */
  function PrefixOf(cache: Cache, c: nat): Cache {
    seq(|cache|, l requires 0 <= l < |cache| => LayerKv(Take(cache[l].k, c), Take(cache[l].v, c)))
  }

  lemma WholePrefix(cache: Cache, layers: nat, n: nat)
    requires CacheOf(cache, layers, n)
    ensures PrefixOf(cache, n) == cache
  {
    var part := PrefixOf(cache, n);
    forall l | 0 <= l < layers ensures part[l] == cache[l] {
      assert cache[l].k[..n] == cache[l].k && cache[l].v[..n] == cache[l].v;
    }
  }

  lemma PrefixOfPrefix(cache: Cache, layers: nat, n: nat, m: nat, c: nat)
    requires CacheOf(cache, layers, n) && c <= m <= n
    ensures PrefixOf(PrefixOf(cache, m), c) == PrefixOf(cache, c)
  {
    var a, b := PrefixOf(PrefixOf(cache, m), c), PrefixOf(cache, c);
    forall l | 0 <= l < layers ensures a[l] == b[l] {
      assert cache[l].k[..m][..c] == cache[l].k[..c] && cache[l].v[..m][..c] == cache[l].v[..c];
    }
  }
}
