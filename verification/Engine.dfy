/** The engine: its buffers, and the two ways of a forward pass through them, one token
    through all layers and a chunk of tokens layer by layer. */
module Engine {
  import opened Kernels
  import opened Schedule
  import Moe

  /** The state between the two halves of a block: the hidden vector after attention
      (saved as the residual of the expert branch) and its FFN norm. */
  datatype Mid = Mid(residual: Vec, norm: Vec)

  function KRow(net: Net, l: nat, pos: nat, h: Vec): Row {
    net.storeK(pos, net.kNorm(l, net.wk(l, net.attnNorm(l, h))))
  }

  function VRow(net: Net, l: nat, h: Vec): Row {
    net.storeV(net.wv(l, net.attnNorm(l, h)))
  }

  function Query(net: Net, l: nat, h: Vec): Proj {
    net.qNorm(l, net.wq(l, net.attnNorm(l, h)))
  }

  /** The attention half of layer l for hidden h, its own row already in kv. */
  function Attended(net: Net, l: nat, pos: nat, h: Vec, kv: LayerKv): Mid {
    Closed(net, l, net.attend(pos, Query(net, l, h), kv.k, kv.v), h)
  }

  /** What follows the attention kernel: projection, residual and the norm of the expert half. */
  function Closed(net: Net, l: nat, attended: Proj, h: Vec): Mid {
    var r := Add(net.wo(l, attended), h);
    Mid(r, net.ffnNorm(l, r))
  }

  function ChoiceOf(net: Net, l: nat, x: Vec): Choice {
    net.topk(net.router(l, x))
  }

  /** The expert half. */
  function Finished(net: Net, l: nat, m: Mid): Vec {
    Add(Moe.Routed(net, l, m.norm, ChoiceOf(net, l, m.norm)), m.residual)
  }

  function BlockOf(net: Net): Block<Vec, Mid> {
    Block(net.embed,
          (l, pos, h) => KRow(net, l, pos, h),
          (l, h) => VRow(net, l, h),
          (l, pos, h, kv) => Attended(net, l, pos, h, kv),
          (l, m) => Finished(net, l, m))
  }

  /** Rows of the scratch buffers (DS3_PREFILL_CHUNK_SIZE). */
  const CHUNK: nat := 512

  /** The first index of the largest logit. */
  ghost predicate IsGreedy(logits: seq<real>, best: int) {
    && 0 <= best < |logits|
    && (forall i :: 0 <= i < |logits| ==> logits[i] <= logits[best])
    && (forall i :: 0 <= i < best ==> logits[i] < logits[best])
  }

  /** sample_token at temperature 0. */
  method SampleToken(logits: seq<real>) returns (best: int)
    requires |logits| > 0
    ensures IsGreedy(logits, best)
  {
    best := 0;
    for i := 1 to |logits|
      invariant 0 <= best < i
      invariant forall j :: 0 <= j < i ==> logits[j] <= logits[best]
      invariant forall j :: 0 <= j < best ==> logits[j] < logits[best]
    {
      if logits[i] > logits[best] {
        best := i;
      }
    }
  }

  /** A row-wise kernel over the first m rows; src and dst may be one buffer. */
  method MapRows<A, B>(f: A -> B, src: array<A>, dst: array<B>, m: nat)
    requires m <= src.Length && m <= dst.Length
    modifies dst
    ensures forall t :: 0 <= t < m ==> dst[t] == f(old(src[t]))
  {
    for t := 0 to m
      invariant forall i :: 0 <= i < t ==> dst[i] == f(old(src[i]))
      invariant forall i :: t <= i < src.Length ==> src[i] == old(src[i])
    {
      dst[t] := f(src[t]);
    }
  }

  /** dst[t] += src[t] on the first m rows. */
  method AddRows(src: array<Vec>, dst: array<Vec>, m: nat)
    requires m <= src.Length && m <= dst.Length && src != dst
    modifies dst
    ensures forall t :: 0 <= t < m ==> dst[t] == Add(old(dst[t]), src[t])
  {
    for t := 0 to m
      invariant forall i :: 0 <= i < t ==> dst[i] == Add(old(dst[i]), src[i])
      invariant forall i :: t <= i < dst.Length ==> dst[i] == old(dst[i])
    {
      dst[t] := Add(dst[t], src[t]);
    }
  }

  class Engine {
    const net: Net
    ghost const block: Block<Vec, Mid>
    const nCtx: nat
    const hidden: array<Vec>
    const residual: array<Vec>
    const norm: array<Vec>
    const ffnOut: array<Vec>
    const scratch: array<Vec>
    const q: array<Proj>
    const k: array<Proj>
    const v: array<Proj>
    const attnOut: array<Proj>
    const kvK: array2<Row>
    const kvV: array2<Row>
    var logits: seq<real>
    var seqLen: nat
    var lastCachedPrefixLen: nat
    var lastNewCachedPrefixLen: nat

    /** The buffers are as laid out when the engine was opened.  Stated as an equation so
        that the verifier checks it as one fact at each call. */
    ghost predicate Laid() {
      Layout() == true
    }

    /** Sizes and separateness of the buffers. */
    ghost predicate Layout() {
      && net.Valid()
      && block == BlockOf(net)
      && hidden.Length == residual.Length == norm.Length == ffnOut.Length == scratch.Length == CHUNK
      && q.Length == k.Length == v.Length == attnOut.Length == CHUNK
      && hidden != residual && hidden != norm && hidden != ffnOut && hidden != scratch
      && residual != norm && residual != ffnOut && residual != scratch
      && norm != ffnOut && norm != scratch && ffnOut != scratch
      && q != k && q != v && q != attnOut && k != v && k != attnOut && v != attnOut
      && kvK != kvV
      && kvK.Length0 == kvV.Length0 == net.nLayer
      && kvK.Length1 == kvV.Length1 == nCtx
    }

    ghost function Buffers(): set<object> {
      {hidden as object, residual, norm, ffnOut, scratch, q, k, v, attnOut}
    }

    constructor (net: Net, nCtx: nat)
      requires net.Valid()
      ensures Laid() && this.net == net && this.nCtx == nCtx && seqLen == 0
      ensures fresh(Buffers()) && fresh(kvK) && fresh(kvV)
    {
      this.net := net;
      this.block := BlockOf(net);
      this.nCtx := nCtx;
      hidden := new Vec[CHUNK](_ => Zero());
      residual := new Vec[CHUNK](_ => Zero());
      norm := new Vec[CHUNK](_ => Zero());
      ffnOut := new Vec[CHUNK](_ => Zero());
      scratch := new Vec[CHUNK](_ => Zero());
      q := new Proj[CHUNK](_ => Proj([]));
      k := new Proj[CHUNK](_ => Proj([]));
      v := new Proj[CHUNK](_ => Proj([]));
      attnOut := new Proj[CHUNK](_ => Proj([]));
      kvK := new Row[net.nLayer, nCtx]((_, _) => []);
      kvV := new Row[net.nLayer, nCtx]((_, _) => []);
      logits := [];
      seqLen := 0;
      lastCachedPrefixLen := 0;
      lastNewCachedPrefixLen := 0;
    }

    /** The first len rows of layer l. */
    ghost function Kv(l: nat, len: nat): LayerKv
      requires Laid() && l < net.nLayer && len <= nCtx
      reads kvK, kvV
    {
      LayerKv(seq(len, p requires 0 <= p < len && l < kvK.Length0 && len <= kvK.Length1 reads kvK => kvK[l, p]),
              seq(len, p requires 0 <= p < len && l < kvV.Length0 && len <= kvV.Length1 reads kvV => kvV[l, p]))
    }

    /** Of the cache, only rows lo .. hi of layer l were written. */
    twostate predicate OnlyRows(l: nat, lo: nat, hi: nat)
      requires Laid()
      reads kvK, kvV
    {
      forall i, p :: 0 <= i < net.nLayer && 0 <= p < nCtx && (i != l || p < lo || hi <= p) ==>
        kvK[i, p] == old(kvK[i, p]) && kvV[i, p] == old(kvV[i, p])
    }

    /** The attention kernel for row t at position pos of layer l: store the row's K and V,
        then attend over the rows up to and including it. */
    method AttendRow(l: nat, t: nat, pos: nat)
      requires Laid() && l < net.nLayer && t < CHUNK && pos < nCtx
      modifies attnOut, kvK, kvV
      ensures Kv(l, pos + 1) == LayerKv(old(Kv(l, pos)).k + [net.storeK(pos, k[t])],
                                        old(Kv(l, pos)).v + [net.storeV(v[t])])
      ensures attnOut[t] == net.attend(pos, q[t], Kv(l, pos + 1).k, Kv(l, pos + 1).v)
      ensures forall i :: 0 <= i < CHUNK && i != t ==> attnOut[i] == old(attnOut[i])
      ensures OnlyRows(l, pos, pos + 1)
    {
      kvK[l, pos] := net.storeK(pos, k[t]);
      kvV[l, pos] := net.storeV(v[t]);
      var ks := seq(pos + 1, p requires 0 <= p <= pos && pos < kvK.Length1 && l < kvK.Length0 reads kvK => kvK[l, p]);
      var vs := seq(pos + 1, p requires 0 <= p <= pos && pos < kvV.Length1 && l < kvV.Length0 reads kvV => kvV[l, p]);
      attnOut[t] := net.attend(pos, q[t], ks, vs);
      assert ks == Kv(l, pos + 1).k && vs == Kv(l, pos + 1).v;
    }

    /** Layer l's rows once the first t rows of the chunk hs have stored theirs. */
    ghost function After(l: nat, pos: nat, kv: LayerKv, hs: seq<Vec>, t: nat): LayerKv
      requires t <= |hs|
    {
      if t == 0 then kv
      else
        var a := After(l, pos, kv, hs, t - 1);
        LayerKv(a.k + [KRow(net, l, pos + t - 1, hs[t-1])], a.v + [VRow(net, l, hs[t-1])])
    }

    lemma {:induction false} AfterIsRowsPre(l: nat, pos: nat, kv: LayerKv, hs: seq<Vec>, t: nat)
      requires Laid() && t <= |hs|
      ensures After(l, pos, kv, hs, t) == RowsPre(block, l, pos, kv, hs[..t]).0
    {
      if t > 0 {
        AfterIsRowsPre(l, pos, kv, hs, t - 1);
        assert hs[..t][..t-1] == hs[..t-1];
      }
    }

    /** What the attention kernel computes for row t of the chunk. */
    ghost function AttnRow(l: nat, pos: nat, kv: LayerKv, hs: seq<Vec>, t: nat): Proj
      requires t < |hs|
    {
      var kv' := After(l, pos, kv, hs, t + 1);
      net.attend(pos + t, Query(net, l, hs[t]), kv'.k, kv'.v)
    }

    lemma AfterNone(l: nat, pos: nat, kv: LayerKv, hs: seq<Vec>)
      ensures After(l, pos, kv, hs, 0) == kv
    {
    }

    lemma AfterOneMore(l: nat, pos: nat, kv: LayerKv, hs: seq<Vec>, t: nat)
      requires t < |hs|
      ensures var a, b := After(l, pos, kv, hs, t), After(l, pos, kv, hs, t + 1);
              && b == LayerKv(a.k + [KRow(net, l, pos + t, hs[t])], a.v + [VRow(net, l, hs[t])])
              && AttnRow(l, pos, kv, hs, t) == net.attend(pos + t, Query(net, l, hs[t]), b.k, b.v)
    {
    }

    /** The per-token attention loop of forward_chunk_pre. */
    method AttendRows(l: nat, m: nat, pos: nat, ghost hs: seq<Vec>)
      requires Laid() && l < net.nLayer && m == |hs| <= CHUNK && pos + m <= nCtx
      requires forall t :: 0 <= t < m ==>
                 && q[t] == Query(net, l, hs[t])
                 && net.storeK(pos + t, k[t]) == KRow(net, l, pos + t, hs[t])
                 && net.storeV(v[t]) == VRow(net, l, hs[t])
      modifies attnOut, kvK, kvV
      ensures Kv(l, pos + m) == After(l, pos, old(Kv(l, pos)), hs, m)
      ensures forall t :: 0 <= t < m ==>
                attnOut[t] == AttnRow(l, pos, old(Kv(l, pos)), hs, t)
      ensures OnlyRows(l, pos, pos + m)
    {
      hide BlockOf, Query, KRow, VRow, After, AttnRow;
      ghost var kv0 := Kv(l, pos);
      AfterNone(l, pos, kv0, hs);
      for t := 0 to m
        invariant Kv(l, pos + t) == After(l, pos, kv0, hs, t)
        invariant forall i :: 0 <= i < t ==>
                    attnOut[i] == AttnRow(l, pos, kv0, hs, i)
        invariant OnlyRows(l, pos, pos + t)
      {
        AfterOneMore(l, pos, kv0, hs, t);
        AttendRow(l, t, pos + t);
      }
    }

    /** Row t after forward_chunk_pre. */
    ghost function MidRow(l: nat, pos: nat, kv: LayerKv, hs: seq<Vec>, t: nat): Mid
      requires t < |hs|
    {
      Attended(net, l, pos + t, hs[t], After(l, pos, kv, hs, t + 1))
    }

    lemma {:induction false} MidRowIsRowsPre(l: nat, pos: nat, kv: LayerKv, hs: seq<Vec>, t: nat, n: nat)
      requires Laid() && t < n <= |hs|
      ensures |RowsPre(block, l, pos, kv, hs[..n]).1| == n
      ensures RowsPre(block, l, pos, kv, hs[..n]).1[t] == MidRow(l, pos, kv, hs, t)
    {
      RowsPreShape(block, l, pos, kv, hs[..n]);
      RowsPreShape(block, l, pos, kv, hs[..n-1]);
      assert hs[..n][..n-1] == hs[..n-1];
      if t == n - 1 {
        AfterIsRowsPre(l, pos, kv, hs, n);
      } else {
        MidRowIsRowsPre(l, pos, kv, hs, t, n - 1);
      }
    }

    /** The projections of forward_chunk_pre: residual, norm, q, k and v of every row. */
    method ProjectRows(l: nat, m: nat, pos: nat)
      requires Laid() && l < net.nLayer && m <= CHUNK
      modifies residual, norm, q, k, v
      ensures forall t :: 0 <= t < m ==>
                && residual[t] == hidden[t]
                && q[t] == Query(net, l, hidden[t])
                && net.storeK(pos + t, k[t]) == KRow(net, l, pos + t, hidden[t])
                && net.storeV(v[t]) == VRow(net, l, hidden[t])
    {
      MapRows((h: Vec) => h, hidden, residual, m);
      MapRows((h: Vec) => net.attnNorm(l, h), hidden, norm, m);
      MapRows((x: Vec) => net.wq(l, x), norm, q, m);
      MapRows((x: Vec) => net.wk(l, x), norm, k, m);
      MapRows((x: Vec) => net.wv(l, x), norm, v, m);
      MapRows((x: Proj) => net.qNorm(l, x), q, q, m);
      MapRows((x: Proj) => net.kNorm(l, x), k, k, m);
    }

    /** The rest of forward_chunk_pre: output projection, residual add, FFN norm. */
    method CloseAttention(l: nat, m: nat)
      requires Laid() && l < net.nLayer && m <= CHUNK
      modifies hidden, residual, norm
      ensures forall t :: 0 <= t < m ==> Mid(residual[t], norm[t]) == Closed(net, l, attnOut[t], old(residual[t]))
    {
      hide Add;
      MapRows((x: Proj) => net.wo(l, x), attnOut, hidden, m);
      AddRows(residual, hidden, m);
      MapRows((h: Vec) => h, hidden, residual, m);
      MapRows((h: Vec) => net.ffnNorm(l, h), hidden, norm, m);
    }

    /** forward_chunk_pre: the attention half of layer l for the m rows of hidden, which
        stand at positions pos, pos + 1, ... */
    method ForwardChunkPre(l: nat, m: nat, pos: nat, ghost hs: seq<Vec>, ghost kv: LayerKv)
      requires Laid() && l < net.nLayer && m <= CHUNK && pos + m <= nCtx
      requires hs == hidden[..m] && kv == Kv(l, pos)
      modifies Buffers(), kvK, kvV
      ensures OnlyRows(l, pos, pos + m)
      ensures HalfDone(l, m, pos, RowsPre(block, l, pos, kv, hs))
    {
      hide BlockOf, Query, KRow, VRow, Closed, After, AttnRow, MidRow, RowsPre, HalfDone;
      ProjectRows(l, m, pos);
      AttendRows(l, m, pos, hs);
      CloseAttention(l, m);
      forall t | 0 <= t < m ensures Mid(residual[t], norm[t]) == MidRow(l, pos, kv, hs, t) {
        ClosedRow(l, pos, kv, hs, t);
      }
      HalfDoneByRows(l, m, pos, kv, hs);
    }

    lemma ClosedRow(l: nat, pos: nat, kv: LayerKv, hs: seq<Vec>, t: nat)
      requires t < |hs|
      ensures MidRow(l, pos, kv, hs, t) == Closed(net, l, AttnRow(l, pos, kv, hs, t), hs[t])
    {
    }

    lemma HalfDoneByRows(l: nat, m: nat, pos: nat, kv: LayerKv, hs: seq<Vec>)
      requires Laid() && l < net.nLayer && m == |hs| <= CHUNK && pos + m <= nCtx
      requires Kv(l, pos + m) == After(l, pos, kv, hs, m)
      requires forall t :: 0 <= t < m ==> Mid(residual[t], norm[t]) == MidRow(l, pos, kv, hs, t)
      ensures HalfDone(l, m, pos, RowsPre(block, l, pos, kv, hs))
    {
      assert hs[..m] == hs;
      RowsPreShape(block, l, pos, kv, hs);
      AfterIsRowsPre(l, pos, kv, hs, m);
      forall t | 0 <= t < m
        ensures Mid(residual[t], norm[t]) == RowsPre(block, l, pos, kv, hs).1[t]
      {
        MidRowIsRowsPre(l, pos, kv, hs, t, m);
      }
    }

    /** Router logits and top-k for the rows of a chunk, read back to the host. */
    method RouterTopK(l: nat, m: nat) returns (cs: seq<Choice>)
      requires Laid() && m <= CHUNK
      ensures ChoicesOf(l, m, cs)
    {
      cs := [];
      for t := 0 to m
        invariant |cs| == t
        invariant forall i :: 0 <= i < t ==> cs[i] == ChoiceOf(net, l, norm[i])
      {
        cs := cs + [net.topk(net.router(l, norm[t]))];
      }
    }

    ghost predicate ChoicesOf(l: nat, m: nat, cs: seq<Choice>)
      requires Laid() && m <= CHUNK
      reads norm
    {
      |cs| == m && forall t :: 0 <= t < m ==> cs[t] == ChoiceOf(net, l, norm[t])
    }

    /** forward_chunk_post (gathered false) and forward_chunk_post_gathered (true): the
        expert half of layer l.  The two agree row by row. */
    method ForwardChunkPost(l: nat, m: nat, cs: seq<Choice>, gathered: bool)
      requires Laid() && l < net.nLayer && m <= CHUNK && ChoicesOf(l, m, cs)
      modifies scratch, ffnOut, hidden
      ensures forall t :: 0 <= t < m ==> hidden[t] == Finished(net, l, Mid(residual[t], norm[t]))
    {
      hide Add, Moe.Routed;
      if gathered {
        Moe.GatheredExperts(net, l, cs, norm, scratch, ffnOut);
      } else {
        for t := 0 to m
          invariant forall i :: 0 <= i < t ==> ffnOut[i] == Moe.Routed(net, l, norm[i], cs[i])
        {
          ffnOut[t] := Moe.TokenExperts(net, l, cs[t], norm[t]);
        }
      }
      for t := 0 to m
        invariant forall i :: 0 <= i < m ==> ffnOut[i] == Moe.Routed(net, l, norm[i], ChoiceOf(net, l, norm[i]))
        invariant forall i :: 0 <= i < t ==> hidden[i] == Finished(net, l, Mid(residual[i], norm[i]))
      {
        hidden[t] := Add(ffnOut[t], residual[t]);
      }
    }

    /** The cache as a value: the first len rows of every layer. */
    ghost function Snapshot(len: nat): Cache
      requires Laid() && len <= nCtx
      reads kvK, kvV
    {
      seq(net.nLayer, l requires 0 <= l < net.nLayer && Laid() && len <= nCtx reads kvK, kvV => Kv(l, len))
    }

    /** The first len rows of layers lo .. hi are those of cache. */
    ghost predicate Agrees(lo: nat, hi: nat, len: nat, cache: Cache)
      requires Laid() && hi <= net.nLayer && hi <= |cache| && len <= nCtx
      reads kvK, kvV
    {
      forall i :: lo <= i < hi ==> Kv(i, len) == cache[i]
    }

    /** Layer l's attention half is done for the chunk whose rows entered it as ins; layers
        before it are finished (done), layers after it not started (c0). */
    ghost predicate Pending(l: nat, m: nat, pos: nat, c0: Cache, ins: seq<Vec>, done: Cache, cs: seq<Choice>)
      requires Laid() && l < net.nLayer && m <= CHUNK && pos + m <= nCtx && |c0| == net.nLayer
      reads kvK, kvV, residual, norm
    {
      && |ins| == m && |done| == l
      && Agrees(0, l, pos + m, done) && Agrees(l + 1, net.nLayer, pos, c0)
      && ChoicesOf(l, m, cs)
      && HalfDone(l, m, pos, RowsPre(block, l, pos, c0[l], ins))
    }

    /** Layer l's buffers hold r, the outcome of its attention half over m rows. */
    ghost predicate HalfDone(l: nat, m: nat, pos: nat, r: (LayerKv, seq<Mid>))
      requires Laid() && l < net.nLayer && m <= CHUNK && pos + m <= nCtx
      reads kvK, kvV, residual, norm
    {
      && Kv(l, pos + m) == r.0
      && |r.1| == m
      && forall t :: 0 <= t < m ==> Mid(residual[t], norm[t]) == r.1[t]
    }

    /** pre(l) and the router top-k of one layer (run_chunk_layer_pre_topk). */
    method ChunkLayerPre(l: nat, m: nat, pos: nat, ghost c0: Cache, ghost ins: seq<Vec>, ghost done: Cache)
      returns (cs: seq<Choice>)
      requires Laid() && l < net.nLayer && m <= CHUNK && pos + m <= nCtx && |c0| == net.nLayer
      requires |done| == l && ins == hidden[..m]
      requires Agrees(0, l, pos + m, done) && Agrees(l, net.nLayer, pos, c0)
      modifies Buffers(), kvK, kvV
      ensures Pending(l, m, pos, c0, ins, done, cs)
    {
      ForwardChunkPre(l, m, pos, ins, c0[l]);
      cs := RouterTopK(l, m);
    }

    predicate InVocab(t: int) {
      0 <= t < net.nVocab
    }

    predicate AllInVocab(toks: seq<int>) {
      forall i :: 0 <= i < |toks| ==> InVocab(toks[i])
    }

    /** upload_token_embeddings: fails on a row outside the table. */
    method UploadEmbeddings(toks: seq<int>) returns (ok: bool)
      requires Laid() && |toks| <= CHUNK
      modifies hidden
      ensures ok <==> AllInVocab(toks)
      ensures ok ==> hidden[..|toks|] == Embeds(block, toks)
    {
      for i := 0 to |toks|
        invariant forall j :: 0 <= j < i ==> InVocab(toks[j]) && hidden[j] == net.embed(toks[j])
      {
        if toks[i] < 0 || toks[i] >= net.nVocab {
          assert !InVocab(toks[i]);
          return false;
        }
        hidden[i] := net.embed(toks[i]);
      }
      return true;
    }

    /** The layer loop of forward_chunk, skewed as in the source: the expert half of layer
        l - 1, then the attention half of layer l. */
    method ChunkAllLayers(m: nat, pos: nat, gathered: bool, ghost c0: Cache, ghost ins0: seq<Vec>)
      requires Laid() && m <= CHUNK && pos + m <= nCtx
      requires c0 == Snapshot(pos) && ins0 == hidden[..m]
      modifies Buffers(), kvK, kvV
      ensures var total := ChunkLayers(block, 0, pos, c0, ins0);
              Snapshot(pos + m) == total.0 && hidden[..m] == total.1
    {
      hide BlockOf, RowsPre, RowsPost, Add, ChunkLayers, ChunkLeft;
      ghost var ins := ins0;
      ghost var done: Cache := [];
      ghost var total := ChunkLayers(block, 0, pos, c0, ins);
      ChunkStart(block, pos, c0, ins);
      var cs := ChunkLayerPre(0, m, pos, c0, ins, done);
      for l := 1 to net.nLayer
        invariant Pending(l - 1, m, pos, c0, ins, done, cs)
        invariant ChunkLeft(block, l - 1, pos, c0, ins, total, done)
      {
        ChunkUnroll(block, l - 1, pos, c0, ins, total, done);
        ins, done := FinishLayer(l - 1, m, pos, gathered, c0, ins, done, cs);
        cs := ChunkLayerPre(l, m, pos, c0, ins, done);
      }
      ChunkUnroll(block, net.nLayer - 1, pos, c0, ins, total, done);
      ins, done := FinishLayer(net.nLayer - 1, m, pos, gathered, c0, ins, done, cs);
      ChunkEnd(block, net.nLayer, pos, c0, ins, total, done);
      assert Snapshot(pos + m) == done;
    }

    /** The expert half of a pending layer. */
    method FinishLayer(l: nat, m: nat, pos: nat, gathered: bool,
                       ghost c0: Cache, ghost ins: seq<Vec>, ghost done: Cache, cs: seq<Choice>)
      returns (ghost ins': seq<Vec>, ghost done': Cache)
      requires Laid() && l < net.nLayer && m <= CHUNK && pos + m <= nCtx && |c0| == net.nLayer
      requires Pending(l, m, pos, c0, ins, done, cs)
      modifies scratch, ffnOut, hidden
      ensures var r := RowsPre(block, l, pos, c0[l], ins);
              ins' == RowsPost(block, l, r.1) && done' == done + [r.0]
      ensures |ins'| == m && ins' == hidden[..m]
      ensures Agrees(0, l + 1, pos + m, done') && Agrees(l + 1, net.nLayer, pos, c0)
    {
      ForwardChunkPost(l, m, cs, gathered);
      ghost var r := RowsPre(block, l, pos, c0[l], ins);
      done' := done + [r.0];
      ins' := RowsPost(block, l, r.1);
      assert forall t :: 0 <= t < m ==> hidden[t] == ins'[t];
    }

    /** What a forward pass over toks leaves: the token-major cache and last hidden vector. */
    ghost predicate Ran(was: Cache, toks: seq<int>, h: Vec)
      requires Laid() && seqLen + |toks| <= nCtx && |toks| > 0
      reads this`seqLen, kvK, kvV
    {
      && Snapshot(seqLen + |toks|) == Tokens(block, seqLen, was, toks)
      && h == LastHidden(block, seqLen, was, toks)
    }

    /** forward_chunk up to the output projection: layer-major prefill of toks at position
        seqLen leaves what the token-major run leaves. */
    method ChunkHidden(toks: seq<int>, gathered: bool) returns (ok: bool)
      requires Laid() && |toks| <= CHUNK && seqLen + |toks| <= nCtx && |toks| > 0
      modifies Buffers(), kvK, kvV
      ensures ok <==> AllInVocab(toks)
      ensures ok ==> Ran(old(Snapshot(seqLen)), toks, hidden[|toks|-1])
    {
      hide BlockOf, Tokens, LastHidden, TokenLayers, ChunkLayers;
      ok := UploadEmbeddings(toks);
      if !ok {
        return;
      }
      ghost var c0 := Snapshot(seqLen);
      ghost var hs := hidden[..|toks|];
      ChunkAllLayers(|toks|, seqLen, gathered, c0, hs);
      ChunkIsTokens(block, seqLen, c0, toks);
      assert hidden[|toks|-1] == hidden[..|toks|][|toks|-1];
    }

    /** forward_chunk: the greedy token after the last of toks, or -1. */
    method ForwardChunk(toks: seq<int>, gathered: bool) returns (next: int)
      requires Laid() && seqLen <= nCtx && |toks| <= CHUNK
      modifies this`logits, Buffers(), kvK, kvV
      ensures next >= 0 <==> seqLen + |toks| <= nCtx && |toks| > 0 && AllInVocab(toks)
      ensures next >= 0 ==>
                && Snapshot(seqLen + |toks|) == Tokens(block, seqLen, old(Snapshot(seqLen)), toks)
                && logits == LogitsOf(LastHidden(block, seqLen, old(Snapshot(seqLen)), toks))
                && IsGreedy(logits, next)
    {
      hide BlockOf, Tokens, LastHidden, TokenLayers;
      if seqLen + |toks| > nCtx || |toks| == 0 {
        return -1;
      }
      var ok := ChunkHidden(toks, gathered);
      if !ok {
        return -1;
      }
      norm[0] := net.outNorm(hidden[|toks|-1]);
      logits := net.outProj(norm[0]);
      next := SampleToken(logits);
    }

    // ----- the token path -----

    /** The projections of forward_layer_pre. */
    method ProjectRow(l: nat, pos: nat)
      requires Laid() && l < net.nLayer
      modifies residual, norm, q, k, v
      ensures residual[0] == hidden[0]
      ensures q[0] == Query(net, l, hidden[0])
      ensures net.storeK(pos, k[0]) == KRow(net, l, pos, hidden[0]) && net.storeV(v[0]) == VRow(net, l, hidden[0])
    {
      residual[0] := hidden[0];
      norm[0] := net.attnNorm(l, hidden[0]);
      q[0] := net.wq(l, norm[0]);
      k[0] := net.wk(l, norm[0]);
      v[0] := net.wv(l, norm[0]);
      q[0] := net.qNorm(l, q[0]);
      k[0] := net.kNorm(l, k[0]);
    }

    /** forward_layer_pre: the attention half of layer l for the one row hidden[0]. */
    method ForwardLayerPre(l: nat, pos: nat)
      requires Laid() && l < net.nLayer && pos < nCtx
      modifies Buffers(), kvK, kvV
      ensures OnlyRows(l, pos, pos + 1)
      ensures Kv(l, pos + 1) == LayerKv(old(Kv(l, pos)).k + [KRow(net, l, pos, old(hidden[0]))],
                                        old(Kv(l, pos)).v + [VRow(net, l, old(hidden[0]))])
      ensures Mid(residual[0], norm[0]) == Attended(net, l, pos, old(hidden[0]), Kv(l, pos + 1))
    {
      hide Add, Query, KRow, VRow, Closed;
      ProjectRow(l, pos);
      AttendRow(l, 0, pos);
      CloseRow(l);
    }

    /** What follows the attention kernel for one row. */
    method CloseRow(l: nat)
      requires Laid() && l < net.nLayer
      modifies hidden, residual, norm
      ensures Mid(residual[0], norm[0]) == Closed(net, l, attnOut[0], old(residual[0]))
    {
      hide Add;
      hidden[0] := net.wo(l, attnOut[0]);
      hidden[0] := Add(hidden[0], residual[0]);
      residual[0] := hidden[0];
      norm[0] := net.ffnNorm(l, hidden[0]);
    }

    /** forward_layer_post: the expert half of layer l for the one row. */
    method ForwardLayerPost(l: nat, c: Choice)
      requires Laid() && l < net.nLayer && c == ChoiceOf(net, l, norm[0])
      modifies ffnOut, hidden
      ensures hidden[0] == Finished(net, l, Mid(residual[0], norm[0]))
    {
      ffnOut[0] := Moe.TokenExperts(net, l, c, norm[0]);
      hidden[0] := Add(ffnOut[0], residual[0]);
    }

    /** Layers before l are finished for the token at pos, layers from l on not started;
        total is what the whole pass will leave. */
    ghost predicate TokenAt(l: nat, pos: nat, c0: Cache, h: Vec, total: (Cache, Vec), done: Cache)
      requires Laid() && l <= net.nLayer && pos < nCtx && |c0| == net.nLayer
      reads kvK, kvV
    {
      && |done| == l
      && Agrees(0, l, pos + 1, done) && Agrees(l, net.nLayer, pos, c0)
      && TokenLeft(block, l, pos, c0, h, total, done)
    }

    /** Layer l's attention half is done for the token that entered it as h. */
    ghost predicate TokenMid(l: nat, pos: nat, c0: Cache, h: Vec, total: (Cache, Vec), done: Cache, c: Choice)
      requires Laid() && l < net.nLayer && pos < nCtx && |c0| == net.nLayer
      reads kvK, kvV, residual, norm
    {
      && |done| == l
      && Agrees(0, l, pos + 1, done) && Agrees(l + 1, net.nLayer, pos, c0)
      && Kv(l, pos + 1) == block.Grow(l, pos, h, c0[l])
      && Mid(residual[0], norm[0]) == block.mid(l, pos, h, Kv(l, pos + 1))
      && c == ChoiceOf(net, l, norm[0])
      && TokenLeft(block, l, pos, c0, h, total, done)
    }

    /** The attention half and router of one layer (run_layer_pre_topk). */
    method TokenLayerPre(l: nat, pos: nat, ghost c0: Cache, ghost total: (Cache, Vec), ghost done: Cache)
      returns (c: Choice)
      requires Laid() && l < net.nLayer && pos < nCtx && |c0| == net.nLayer
      requires TokenAt(l, pos, c0, hidden[0], total, done)
      modifies Buffers(), kvK, kvV
      ensures TokenMid(l, pos, c0, old(hidden[0]), total, done, c)
    {
      hide TokenLeft;
      ForwardLayerPre(l, pos);
      c := net.topk(net.router(l, norm[0]));
    }

    method TokenLayerPost(l: nat, pos: nat, ghost c0: Cache, ghost h: Vec, ghost total: (Cache, Vec),
                          ghost done: Cache, c: Choice)
      returns (ghost done': Cache)
      requires Laid() && l < net.nLayer && pos < nCtx && |c0| == net.nLayer
      requires TokenMid(l, pos, c0, h, total, done, c)
      modifies ffnOut, hidden
      ensures TokenAt(l + 1, pos, c0, hidden[0], total, done')
    {
      hide TokenLeft;
      ForwardLayerPost(l, c);
      ghost var kv := Kv(l, pos + 1);
      done' := done + [kv];
      TokenUnroll(block, l, pos, c0, h, total, done);
      assert hidden[0] == block.post(l, block.mid(l, pos, h, kv));
    }

    /** The overlapped layer loop of forward_token: the expert half of layer l - 1 and the
        attention half of layer l share a command buffer. */
    method OverlappedLayers(pos: nat, ghost c0: Cache)
      requires Laid() && pos < nCtx && c0 == Snapshot(pos)
      modifies Buffers(), kvK, kvV
      ensures TokenDone(pos, c0, old(hidden[0]))
    {
      hide BlockOf, TokenLeft, TokenLayers, Add, Attended, Finished, ChoiceOf;
      ghost var h := hidden[0];
      ghost var done: Cache := [];
      ghost var total := TokenLayers(block, 0, pos, c0, h);
      TokenStart(block, pos, c0, h);
      var c := TokenLayerPre(0, pos, c0, total, done);
      for l := 1 to net.nLayer
        invariant TokenMid(l - 1, pos, c0, h, total, done, c)
      {
        done := TokenLayerPost(l - 1, pos, c0, h, total, done, c);
        h := hidden[0];
        c := TokenLayerPre(l, pos, c0, total, done);
      }
      done := TokenLayerPost(net.nLayer - 1, pos, c0, h, total, done, c);
      TokenAtEnd(pos, c0, hidden[0], total, done);
    }

    /** The fallback layer loop of forward_token: each layer finished before the next. */
    method LayerByLayer(pos: nat, ghost c0: Cache)
      requires Laid() && pos < nCtx && c0 == Snapshot(pos)
      modifies Buffers(), kvK, kvV
      ensures TokenDone(pos, c0, old(hidden[0]))
    {
      hide BlockOf, TokenLeft, TokenLayers, Add, Attended, Finished, ChoiceOf;
      ghost var h := hidden[0];
      ghost var done: Cache := [];
      ghost var total := TokenLayers(block, 0, pos, c0, h);
      TokenStart(block, pos, c0, h);
      for l := 0 to net.nLayer
        invariant TokenAt(l, pos, c0, hidden[0], total, done)
      {
        h := hidden[0];
        var c := TokenLayerPre(l, pos, c0, total, done);
        done := TokenLayerPost(l, pos, c0, h, total, done, c);
      }
      TokenAtEnd(pos, c0, hidden[0], total, done);
    }

    /** forward_layer_gpu_only: one layer with no break for the router; its experts are picked
        and added up in the same command buffer. */
    method ForwardLayerGpuOnly(l: nat, pos: nat)
      requires Laid() && l < net.nLayer && pos < nCtx
      modifies Buffers(), kvK, kvV
      ensures OnlyRows(l, pos, pos + 1)
      ensures Kv(l, pos + 1) == LayerKv(old(Kv(l, pos)).k + [KRow(net, l, pos, old(hidden[0]))],
                                        old(Kv(l, pos)).v + [VRow(net, l, old(hidden[0]))])
      ensures hidden[0] == Finished(net, l, Attended(net, l, pos, old(hidden[0]), Kv(l, pos + 1)))
    {
      hide Add, Query, KRow, VRow, Closed, Finished;
      ProjectRow(l, pos);
      AttendRow(l, 0, pos);
      CloseRow(l);
      FusedExperts(l);
    }

    /** The fused router and experts for one row, and the residual. */
    method FusedExperts(l: nat)
      requires Laid() && l < net.nLayer
      modifies ffnOut, hidden
      ensures hidden[0] == Finished(net, l, Mid(residual[0], norm[0]))
    {
      ffnOut[0] := Moe.TokenExperts(net, l, net.topk(net.router(l, norm[0])), norm[0]);
      hidden[0] := Add(ffnOut[0], residual[0]);
    }

    method TokenLayerGpuOnly(l: nat, pos: nat, ghost c0: Cache, ghost total: (Cache, Vec), ghost done: Cache)
      returns (ghost done': Cache)
      requires Laid() && l < net.nLayer && pos < nCtx && |c0| == net.nLayer
      requires TokenAt(l, pos, c0, hidden[0], total, done)
      modifies Buffers(), kvK, kvV
      ensures TokenAt(l + 1, pos, c0, hidden[0], total, done')
    {
      hide TokenLeft;
      ghost var h := hidden[0];
      ForwardLayerGpuOnly(l, pos);
      ghost var kv := Kv(l, pos + 1);
      done' := done + [kv];
      TokenUnroll(block, l, pos, c0, h, total, done);
      assert hidden[0] == block.post(l, block.mid(l, pos, h, kv));
    }

    /** The layer loop of forward_token with one command buffer per layer. */
    method GpuOnlyLayers(pos: nat, ghost c0: Cache)
      requires Laid() && pos < nCtx && c0 == Snapshot(pos)
      modifies Buffers(), kvK, kvV
      ensures TokenDone(pos, c0, old(hidden[0]))
    {
      hide BlockOf, TokenLeft, TokenLayers, Add, Attended, Finished, ChoiceOf;
      ghost var done: Cache := [];
      ghost var total := TokenLayers(block, 0, pos, c0, hidden[0]);
      TokenStart(block, pos, c0, hidden[0]);
      for l := 0 to net.nLayer
        invariant TokenAt(l, pos, c0, hidden[0], total, done)
      {
        done := TokenLayerGpuOnly(l, pos, c0, total, done);
      }
      TokenAtEnd(pos, c0, hidden[0], total, done);
    }

    /** All layers are finished for the token that entered them as h. */
    ghost predicate TokenDone(pos: nat, c0: Cache, h: Vec)
      requires Laid() && pos < nCtx
      reads kvK, kvV, hidden
    {
      var total := TokenLayers(block, 0, pos, c0, h);
      Snapshot(pos + 1) == total.0 && hidden[0] == total.1
    }

    lemma TokenAtEnd(pos: nat, c0: Cache, h: Vec, total: (Cache, Vec), done: Cache)
      requires Laid() && pos < nCtx && |c0| == net.nLayer
      requires TokenAt(net.nLayer, pos, c0, h, total, done)
      ensures Snapshot(pos + 1) == total.0 && h == total.1
    {
      TokenEnd(block, net.nLayer, pos, c0, h, total, done);
      assert Snapshot(pos + 1) == done;
    }

    /** Embedding and layers of forward_token. */
    method TokenHidden(tok: int, gpuOnly: bool, overlap: bool)
      requires Laid() && seqLen < nCtx && InVocab(tok)
      modifies Buffers(), kvK, kvV
      ensures Snapshot(seqLen + 1) == Tokens(block, seqLen, old(Snapshot(seqLen)), [tok])
      ensures hidden[0] == LastHidden(block, seqLen, old(Snapshot(seqLen)), [tok])
    {
      hide Tokens, LastHidden, TokenLayers, BlockOf, Add;
      EmbedIs(tok);
      ghost var c0 := Snapshot(seqLen);
      hidden[0] := net.embed(tok);
      assert Snapshot(seqLen) == c0;
      if gpuOnly {
        GpuOnlyLayers(seqLen, c0);
      } else if overlap {
        OverlappedLayers(seqLen, c0);
      } else {
        LayerByLayer(seqLen, c0);
      }
      OneToken(block, seqLen, c0, tok);
    }

    /** forward_token: the greedy token after tok, or -1. */
    method ForwardToken(tok: int, gpuOnly: bool, overlap: bool) returns (next: int)
      requires Laid() && seqLen <= nCtx
      modifies this`logits, Buffers(), kvK, kvV
      ensures next >= 0 <==> seqLen < nCtx && InVocab(tok)
      ensures next >= 0 ==>
                && Snapshot(seqLen + 1) == Tokens(block, seqLen, old(Snapshot(seqLen)), [tok])
                && logits == LogitsOf(LastHidden(block, seqLen, old(Snapshot(seqLen)), [tok]))
                && IsGreedy(logits, next)
    {
      hide BlockOf, Tokens, LastHidden, TokenLayers;
      if seqLen >= nCtx || tok < 0 || tok >= net.nVocab {
        return -1;
      }
      TokenHidden(tok, gpuOnly, overlap);
      hidden[0] := net.outNorm(hidden[0]);
      logits := net.outProj(hidden[0]);
      next := SampleToken(logits);
    }

    lemma EmbedIs(tok: int)
      requires Laid()
      ensures block.embed(tok) == net.embed(tok)
    {
    }

    function LogitsOf(h: Vec): seq<real> {
      net.outProj(net.outNorm(h))
    }
  }

  /** total is what is done plus what the layers from l on will add for the chunk. */
  ghost predicate ChunkLeft<H, M>(b: Block<H, M>, l: nat, pos: nat, c0: Cache, ins: seq<H>,
                                  total: (Cache, seq<H>), done: Cache)
    requires l <= |c0|
  {
    var rest := ChunkLayers(b, l, pos, c0[l..], ins);
    total == (done + rest.0, rest.1)
  }

  lemma ChunkStart<H, M>(b: Block<H, M>, pos: nat, c0: Cache, ins: seq<H>)
    ensures ChunkLeft(b, 0, pos, c0, ins, ChunkLayers(b, 0, pos, c0, ins), [])
  {
    assert c0[0..] == c0;
    assert [] + ChunkLayers(b, 0, pos, c0, ins).0 == ChunkLayers(b, 0, pos, c0, ins).0;
  }

  /** Unrolling one layer of a chunk that already finished the layers in done. */
  lemma ChunkUnroll<H, M>(b: Block<H, M>, l: nat, pos: nat, c0: Cache, ins: seq<H>,
                          total: (Cache, seq<H>), done: Cache)
    requires l < |c0| && ChunkLeft(b, l, pos, c0, ins, total, done)
    ensures var pre := RowsPre(b, l, pos, c0[l], ins);
            ChunkLeft(b, l + 1, pos, c0, RowsPost(b, l, pre.1), total, done + [pre.0])
  {
    assert c0[l..][0] == c0[l] && c0[l..][1..] == c0[l+1..];
    var pre := RowsPre(b, l, pos, c0[l], ins);
    var rest := ChunkLayers(b, l + 1, pos, c0[l+1..], RowsPost(b, l, pre.1));
    assert done + ([pre.0] + rest.0) == done + [pre.0] + rest.0;
  }

  lemma ChunkEnd<H, M>(b: Block<H, M>, l: nat, pos: nat, c0: Cache, ins: seq<H>, total: (Cache, seq<H>), done: Cache)
    requires l == |c0| && ChunkLeft(b, l, pos, c0, ins, total, done)
    ensures total == (done, ins)
  {
    assert done + [] == done;
  }

  /** total is what is done plus what the layers from l on will add. */
  ghost predicate TokenLeft<H, M>(b: Block<H, M>, l: nat, pos: nat, c0: Cache, h: H, total: (Cache, H), done: Cache)
    requires l <= |c0|
  {
    var rest := TokenLayers(b, l, pos, c0[l..], h);
    total == (done + rest.0, rest.1)
  }

  lemma TokenStart<H, M>(b: Block<H, M>, pos: nat, c0: Cache, h: H)
    ensures TokenLeft(b, 0, pos, c0, h, TokenLayers(b, 0, pos, c0, h), [])
  {
    assert c0[0..] == c0;
    assert [] + TokenLayers(b, 0, pos, c0, h).0 == TokenLayers(b, 0, pos, c0, h).0;
  }

  lemma TokenUnroll<H, M>(b: Block<H, M>, l: nat, pos: nat, c0: Cache, h: H, total: (Cache, H), done: Cache)
    requires l < |c0| && TokenLeft(b, l, pos, c0, h, total, done)
    ensures var kv := b.Grow(l, pos, h, c0[l]);
            TokenLeft(b, l + 1, pos, c0, b.post(l, b.mid(l, pos, h, kv)), total, done + [kv])
  {
    assert c0[l..][0] == c0[l] && c0[l..][1..] == c0[l+1..];
    var kv := b.Grow(l, pos, h, c0[l]);
    var rest := TokenLayers(b, l + 1, pos, c0[l+1..], b.post(l, b.mid(l, pos, h, kv)));
    assert done + ([kv] + rest.0) == done + [kv] + rest.0;
  }

  lemma TokenEnd<H, M>(b: Block<H, M>, l: nat, pos: nat, c0: Cache, h: H, total: (Cache, H), done: Cache)
    requires l == |c0| && TokenLeft(b, l, pos, c0, h, total, done)
    ensures total == (done, h)
  {
    assert done + [] == done;
  }

  lemma OneToken<H, M>(b: Block<H, M>, pos: nat, c0: Cache, tok: int)
    ensures Tokens(b, pos, c0, [tok]) == TokenLayers(b, 0, pos, c0, b.embed(tok)).0
    ensures LastHidden(b, pos, c0, [tok]) == TokenLayers(b, 0, pos, c0, b.embed(tok)).1
  {
    assert [tok][..0] == [];
  }
}
