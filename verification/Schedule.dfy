/** The two orders of walking the (layer, token) grid.  The token-major order, all layers
    of one token and then the next token, is the definition; the layer-major order, all
    tokens of a chunk for one layer and then the next layer, is what chunk prefill does.

    A transformer block enters only as four functions: the K and V row a token adds to
    its layer, the attention half (which sees the rows up to the token's own), and the
    expert half. */
module Schedule {
  import opened Bytes

  type Row = seq<byte>

  /** The K and V rows one layer has cached for positions 0, 1, 2, ... */
  datatype LayerKv = LayerKv(k: seq<Row>, v: seq<Row>)

  /** H is a hidden vector; M the state between the two halves of a block. */
  datatype Block<!H, !M> = Block(
    embed: int -> H,
    kRow: (nat, nat, H) -> Row,
    vRow: (nat, H) -> Row,
    mid: (nat, nat, H, LayerKv) -> M,
    post: (nat, M) -> H)
  {
    function Grow(l: nat, pos: nat, h: H, kv: LayerKv): LayerKv {
      LayerKv(kv.k + [kRow(l, pos, h)], kv.v + [vRow(l, h)])
    }
  }

  type Cache = seq<LayerKv>

  ghost predicate CacheOf(cache: Cache, layers: nat, len: nat) {
    && |cache| == layers
    && forall l :: 0 <= l < layers ==> |cache[l].k| == len && |cache[l].v| == len
  }

  // ----- token-major -----

  /** Layers l, l+1, ... of one token; cache holds those layers only. */
  ghost function TokenLayers<H, M>(b: Block<H, M>, l: nat, pos: nat, cache: Cache, h: H): (Cache, H)
    decreases |cache|
  {
    if |cache| == 0 then ([], h)
    else
      var kv := b.Grow(l, pos, h, cache[0]);
      var rest := TokenLayers(b, l + 1, pos, cache[1..], b.post(l, b.mid(l, pos, h, kv)));
      ([kv] + rest.0, rest.1)
  }

  /** The tokens one after another from position pos, each through all layers. */
  ghost function Tokens<H, M>(b: Block<H, M>, pos: nat, cache: Cache, toks: seq<int>): Cache {
    var n := |toks|;
    if n == 0 then cache
    else TokenLayers(b, 0, pos + n - 1, Tokens(b, pos, cache, toks[..n-1]), b.embed(toks[n-1])).0
  }

  /** The final hidden vector of the last of toks. */
  ghost function LastHidden<H, M>(b: Block<H, M>, pos: nat, cache: Cache, toks: seq<int>): H
    requires |toks| > 0
  {
    var n := |toks|;
    TokenLayers(b, 0, pos + n - 1, Tokens(b, pos, cache, toks[..n-1]), b.embed(toks[n-1])).1
  }

  // ----- layer-major -----

  /** The attention half of layer l over the rows hs, in order. */
  ghost function RowsPre<H, M>(b: Block<H, M>, l: nat, pos: nat, kv: LayerKv, hs: seq<H>): (LayerKv, seq<M>) {
    var n := |hs|;
    if n == 0 then (kv, [])
    else
      var prev := RowsPre(b, l, pos, kv, hs[..n-1]);
      var kv' := b.Grow(l, pos + n - 1, hs[n-1], prev.0);
      (kv', prev.1 + [b.mid(l, pos + n - 1, hs[n-1], kv')])
  }

  /** The expert half of layer l over the rows of a chunk. */
  ghost function RowsPost<H, M>(b: Block<H, M>, l: nat, mids: seq<M>): seq<H> {
    seq(|mids|, t requires 0 <= t < |mids| => b.post(l, mids[t]))
  }

  ghost function ChunkLayers<H, M>(b: Block<H, M>, l: nat, pos: nat, cache: Cache, hs: seq<H>): (Cache, seq<H>)
    decreases |cache|
  {
    if |cache| == 0 then ([], hs)
    else
      var pre := RowsPre(b, l, pos, cache[0], hs);
      var rest := ChunkLayers(b, l + 1, pos, cache[1..], RowsPost(b, l, pre.1));
      ([pre.0] + rest.0, rest.1)
  }

  ghost function Embeds<H, M>(b: Block<H, M>, toks: seq<int>): seq<H> {
    seq(|toks|, i requires 0 <= i < |toks| => b.embed(toks[i]))
  }

  // ----- shapes -----

  lemma {:induction false} RowsPreShape<H, M>(b: Block<H, M>, l: nat, pos: nat, kv: LayerKv, hs: seq<H>)
    ensures var r := RowsPre(b, l, pos, kv, hs);
            && |r.1| == |hs|
            && |r.0.k| == |kv.k| + |hs| && |r.0.v| == |kv.v| + |hs|
  {
    if |hs| > 0 {
      RowsPreShape(b, l, pos, kv, hs[..|hs|-1]);
    }
  }

  lemma {:induction false} TokenLayersShape<H, M>(b: Block<H, M>, l: nat, pos: nat, cache: Cache, h: H, len: nat)
    requires CacheOf(cache, |cache|, len)
    ensures var r := TokenLayers(b, l, pos, cache, h).0;
            && CacheOf(r, |cache|, len + 1)
            && forall i :: 0 <= i < |cache| ==> r[i].k[..len] == cache[i].k && r[i].v[..len] == cache[i].v
    decreases |cache|
  {
    if |cache| > 0 {
      var kv := b.Grow(l, pos, h, cache[0]);
      TokenLayersShape(b, l + 1, pos, cache[1..], b.post(l, b.mid(l, pos, h, kv)), len);
    }
  }

  /** Running tokens only appends to the cache: one row per token in every layer. */
  lemma {:induction false} TokensShape<H, M>(b: Block<H, M>, pos: nat, cache: Cache, toks: seq<int>, len: nat)
    requires CacheOf(cache, |cache|, len)
    ensures var r := Tokens(b, pos, cache, toks);
            && CacheOf(r, |cache|, len + |toks|)
            && forall l :: 0 <= l < |cache| ==> r[l].k[..len] == cache[l].k && r[l].v[..len] == cache[l].v
  {
    var n := |toks|;
    if n > 0 {
      TokensShape(b, pos, cache, toks[..n-1], len);
      var prev := Tokens(b, pos, cache, toks[..n-1]);
      TokenLayersShape(b, 0, pos + n - 1, prev, b.embed(toks[n-1]), len + n - 1);
      var now := Tokens(b, pos, cache, toks);
      forall l | 0 <= l < |cache|
        ensures now[l].k[..len] == cache[l].k && now[l].v[..len] == cache[l].v
      {
        assert now[l].k[..len] == now[l].k[..len + n - 1][..len];
        assert now[l].v[..len] == now[l].v[..len + n - 1][..len];
      }
    }
  }

  // ----- the interchange -----

  lemma RowsPreSnoc<H, M>(b: Block<H, M>, l: nat, pos: nat, kv: LayerKv, hs: seq<H>, h: H)
    ensures var pre := RowsPre(b, l, pos, kv, hs);
            var kv' := b.Grow(l, pos + |hs|, h, pre.0);
            RowsPre(b, l, pos, kv, hs + [h]) == (kv', pre.1 + [b.mid(l, pos + |hs|, h, kv')])
  {
    assert (hs + [h])[..|hs|] == hs;
  }

  lemma RowsPostSnoc<H, M>(b: Block<H, M>, l: nat, mids: seq<M>, m: M)
    ensures RowsPost(b, l, mids + [m]) == RowsPost(b, l, mids) + [b.post(l, m)]
  {
  }

  /** One more token at the end of a chunk is that token alone, after the chunk. */
  lemma {:induction false} ChunkSnoc<H, M>(b: Block<H, M>, l: nat, pos: nat, cache: Cache, hs: seq<H>, h: H)
    ensures var chunk := ChunkLayers(b, l, pos, cache, hs);
            var tok := TokenLayers(b, l, pos + |hs|, chunk.0, h);
            ChunkLayers(b, l, pos, cache, hs + [h]) == (tok.0, chunk.1 + [tok.1])
    decreases |cache|
  {
    if |cache| > 0 {
      var pre := RowsPre(b, l, pos, cache[0], hs);
      RowsPreSnoc(b, l, pos, cache[0], hs, h);
      var kv' := b.Grow(l, pos + |hs|, h, pre.0);
      var m := b.mid(l, pos + |hs|, h, kv');
      RowsPostSnoc(b, l, pre.1, m);
      RowsPreShape(b, l, pos, cache[0], hs);
      ChunkSnoc(b, l + 1, pos, cache[1..], RowsPost(b, l, pre.1), b.post(l, m));
      var chunk := ChunkLayers(b, l, pos, cache, hs);
      assert chunk.0[1..] == ChunkLayers(b, l + 1, pos, cache[1..], RowsPost(b, l, pre.1)).0;
    }
  }

  lemma {:induction false} ChunkNone<H, M>(b: Block<H, M>, l: nat, pos: nat, cache: Cache)
    ensures ChunkLayers(b, l, pos, cache, []) == (cache, [])
    decreases |cache|
  {
    if |cache| > 0 {
      ChunkNone(b, l + 1, pos, cache[1..]);
      assert RowsPost(b, l, RowsPre(b, l, pos, cache[0], []).1) == [];
      assert [cache[0]] + cache[1..] == cache;
    }
  }

  /** Layer-major prefill of a chunk leaves the cache, and the last hidden vector, of
      token-major prefill. */
  lemma {:induction false} ChunkIsTokens<H, M>(b: Block<H, M>, pos: nat, cache: Cache, toks: seq<int>)
    ensures var chunk := ChunkLayers(b, 0, pos, cache, Embeds(b, toks));
            && chunk.0 == Tokens(b, pos, cache, toks)
            && |chunk.1| == |toks|
            && (|toks| > 0 ==> chunk.1[|toks|-1] == LastHidden(b, pos, cache, toks))
  {
    hide ChunkLayers, TokenLayers;
    var n := |toks|;
    if n == 0 {
      ChunkNone(b, 0, pos, cache);
      assert Embeds(b, toks) == [];
    } else {
      ChunkIsTokens(b, pos, cache, toks[..n-1]);
      EmbedsSnoc(b, toks);
      ChunkSnoc(b, 0, pos, cache, Embeds(b, toks[..n-1]), b.embed(toks[n-1]));
    }
  }

  lemma EmbedsSnoc<H, M>(b: Block<H, M>, toks: seq<int>)
    requires toks != []
    ensures Embeds(b, toks) == Embeds(b, toks[..|toks|-1]) + [b.embed(toks[|toks|-1])]
  {
  }

  /** A prompt may be cut anywhere: the parts in turn leave what the whole leaves. */
  lemma {:induction false} TokensSplit<H, M>(b: Block<H, M>, pos: nat, cache: Cache, p: seq<int>, q: seq<int>)
    ensures Tokens(b, pos, cache, p + q) == Tokens(b, pos + |p|, Tokens(b, pos, cache, p), q)
    ensures |q| > 0 ==> LastHidden(b, pos, cache, p + q) == LastHidden(b, pos + |p|, Tokens(b, pos, cache, p), q)
    decreases |q|
  {
    if |q| == 0 {
      assert p + q == p;
    } else {
      var q' := q[..|q|-1];
      assert (p + q)[..|p + q| - 1] == p + q';
      TokensSplit(b, pos, cache, p, q');
    }
  }

  function EmptyCache(layers: nat): Cache {
    seq(layers, _ => LayerKv([], []))
  }

  /** The cache of a prompt from a cold start. */
  ghost function Cold<H, M>(b: Block<H, M>, layers: nat, toks: seq<int>): Cache {
    Tokens(b, 0, EmptyCache(layers), toks)
  }

  /** The final hidden vector of a prompt from a cold start. */
  ghost function ColdHidden<H, M>(b: Block<H, M>, layers: nat, toks: seq<int>): H
    requires |toks| > 0
  {
    LastHidden(b, 0, EmptyCache(layers), toks)
  }

  /** Causality: the cached rows of a prefix are the first rows of the whole prompt's cache. */
  lemma RowsOfPrefix<H, M>(b: Block<H, M>, layers: nat, prompt: seq<int>, c: nat)
    requires c <= |prompt|
    ensures var full := Cold(b, layers, prompt);
            var part := Cold(b, layers, prompt[..c]);
            && CacheOf(full, layers, |prompt|) && CacheOf(part, layers, c)
            && forall l :: 0 <= l < layers ==> full[l].k[..c] == part[l].k && full[l].v[..c] == part[l].v
  {
    var e := EmptyCache(layers);
    TokensShape(b, 0, e, prompt[..c], 0);
    TokensSplit(b, 0, e, prompt[..c], prompt[c..]);
    assert prompt[..c] + prompt[c..] == prompt;
    TokensShape(b, c, Tokens(b, 0, e, prompt[..c]), prompt[c..], c);
  }

  /** Going on from a prefix's cache is the same as starting cold on the whole. */
  lemma ColdSplit<H, M>(b: Block<H, M>, layers: nat, p: seq<int>, q: seq<int>)
    ensures Cold(b, layers, p + q) == Tokens(b, |p|, Cold(b, layers, p), q)
    ensures |q| > 0 ==> ColdHidden(b, layers, p + q) == LastHidden(b, |p|, Cold(b, layers, p), q)
  {
    TokensSplit(b, 0, EmptyCache(layers), p, q);
  }
}
