/** Generation with a prefix-cache provider (ds3_engine_generate_ex).  The provider's
    answers are inputs: whatever it answers within its contract, and whichever of its calls
    fail, the run ends as a cold run would. */
module Generate {
  import opened Schedule
  import opened HostLayout
  import opened E = Engine

  /** What the provider answers during one call: the lookup's return code and length, whether
      the host buffer could be allocated and the read succeeded, the rows it returned, how many
      of the upload's buffer writes succeed, and whether host buffer, download and token array
      were to be had for the write-back. */
  datatype Answers =
    Answers(lookupRc: int, cachedLen: int, readOk: bool, data: seq<Row>, goodWrites: nat, backOk: bool)

  datatype Provider = NoProvider | Provider(answers: Answers)

  function Clamp(x: int, hi: nat): nat {
    if x < 0 then 0 else if x > hi then hi else x
  }

  /** The provider's contract: rows handed out for a prefix are that prefix's rows, laid out
      layer by layer.  Nothing is asked of a failed call. */
  ghost predicate Faithful(e: Engine, prompt: seq<int>, p: Provider) {
    p.Provider? ==>
      var c := Clamp(p.answers.cachedLen, |prompt|);
      p.answers.lookupRc == 0 && c > 0 && p.answers.readOk ==>
        && p.answers.data == LayerMajor(Cold(e.block, e.net.nLayer, prompt[..c]))
        && e.AllInVocab(prompt[..c])
  }

  // ----- the cold run -----

  ghost function ColdLogits(e: Engine, hist: seq<int>): seq<real>
    requires |hist| > 0
  {
    e.LogitsOf(ColdHidden(e.block, e.net.nLayer, hist))
  }

  lemma GreedyUnique(logits: seq<real>, a: int, b: int)
    requires IsGreedy(logits, a) && IsGreedy(logits, b)
    ensures a == b
  {
    assert logits[a] <= logits[b] <= logits[a];
  }

  lemma {:induction false} GreedyExists(logits: seq<real>, n: nat) returns (best: int)
    requires 0 < n <= |logits|
    ensures IsGreedy(logits[..n], best)
  {
    if n == 1 {
      best := 0;
    } else {
      best := GreedyExists(logits, n - 1);
      var a, b := logits[..n-1], logits[..n];
      assert forall i :: 0 <= i < n - 1 ==> a[i] == b[i];
      if logits[n-1] > logits[best] {
        best := n - 1;
      }
    }
  }

  /** The token a cold run over hist continues with. */
  ghost function Next(e: Engine, hist: seq<int>): int
    requires e.Laid() && |hist| > 0
    ensures IsGreedy(ColdLogits(e, hist), Next(e, hist))
  {
    var logits := ColdLogits(e, hist);
    assert exists i :: IsGreedy(logits, i) by {
      assert |logits| == e.net.nVocab;
      var i := GreedyExists(logits, |logits|);
      assert logits[..|logits|] == logits;
    }
    var i :| IsGreedy(logits, i);
    i
  }

  lemma NextInVocab(e: Engine, hist: seq<int>)
    requires e.Laid() && |hist| > 0
    ensures e.InVocab(Next(e, hist))
  {
  }

  /** The tokens a cold run generates after hist: at most steps, at most room, none beyond
      the context, stopping before a stop token. */
  ghost function Generated(e: Engine, hist: seq<int>, steps: nat, room: nat): seq<int>
    requires e.Laid() && |hist| > 0
    decreases steps
  {
    if steps == 0 || room == 0 || |hist| >= e.nCtx || e.net.stop(Next(e, hist)) then []
    else [Next(e, hist)] + Generated(e, hist + [Next(e, hist)], steps - 1, room - 1)
  }

  /** The engine stands where a cold run over hist stands, up to the logits. */
  ghost predicate Stands(e: Engine, hist: seq<int>)
    requires e.Laid()
    reads e`seqLen, e.kvK, e.kvV
  {
    && e.seqLen == |hist| <= e.nCtx
    && e.Snapshot(|hist|) == Cold(e.block, e.net.nLayer, hist)
  }

  ghost predicate StandsReady(e: Engine, hist: seq<int>, next: int)
    requires e.Laid()
    reads e`seqLen, e`logits, e.kvK, e.kvV
  {
    && Stands(e, hist) && |hist| > 0
    && e.logits == ColdLogits(e, hist)
    && next == Next(e, hist)
  }

  // ----- one forward pass from a standing engine -----

  /** forward_token and the seq_len increment after it. */
  method StepToken(e: Engine, ghost hist: seq<int>, tok: int, o: Options) returns (next: int)
    requires e.Laid() && Stands(e, hist)
    modifies e`logits, e`seqLen, e.Buffers(), e.kvK, e.kvV
    ensures next >= 0 <==> |hist| < e.nCtx && e.InVocab(tok)
    ensures next >= 0 ==> StandsReady(e, hist + [tok], next)
  {
    hide Cold, Engine.Snapshot, Engine.LogitsOf, Tokens, LastHidden;
    next := e.ForwardToken(tok, o.gpuOnly, o.overlap);
    if next >= 0 {
      e.seqLen := e.seqLen + 1;
      ColdSplit(e.block, e.net.nLayer, hist, [tok]);
      GreedyUnique(e.logits, next, Next(e, hist + [tok]));
    }
  }

  /** forward_chunk and the seq_len increment after it. */
  method StepChunk(e: Engine, ghost hist: seq<int>, toks: seq<int>, gathered: bool) returns (next: int)
    requires e.Laid() && Stands(e, hist) && |toks| <= CHUNK
    modifies e`logits, e`seqLen, e.Buffers(), e.kvK, e.kvV
    ensures next >= 0 <==> |hist| + |toks| <= e.nCtx && |toks| > 0 && e.AllInVocab(toks)
    ensures next >= 0 ==> StandsReady(e, hist + toks, next)
  {
    hide Cold, Engine.Snapshot, Engine.LogitsOf, Tokens, LastHidden;
    next := e.ForwardChunk(toks, gathered);
    if next >= 0 {
      e.seqLen := e.seqLen + |toks|;
      ColdSplit(e.block, e.net.nLayer, hist, toks);
      GreedyUnique(e.logits, next, Next(e, hist + toks));
    }
  }

  // ----- the host copy -----

  /** kv_cache_download of n rows per layer. */
  method Download(e: Engine, n: nat) returns (host: seq<Row>)
    requires e.Laid() && n <= e.nCtx
    ensures host == LayerMajor(e.Snapshot(n))
  {
    host := [];
    for l := 0 to e.net.nLayer
      invariant host == LayerMajor(e.Snapshot(n)[..l])
    {
      var ks := seq(n, p requires 0 <= p < n && e.Laid() && n <= e.nCtx && l < e.net.nLayer reads e.kvK => e.kvK[l, p]);
      var vs := seq(n, p requires 0 <= p < n && e.Laid() && n <= e.nCtx && l < e.net.nLayer reads e.kvV => e.kvV[l, p]);
      assert e.Snapshot(n)[..l+1][..l] == e.Snapshot(n)[..l];
      assert ks == e.Kv(l, n).k && vs == e.Kv(l, n).v;
      host := host + ks + vs;
    }
    assert e.Snapshot(n)[..e.net.nLayer] == e.Snapshot(n);
  }

  /** One ds3_metal_buffer_write of n rows into the K (or V) buffer of layer l. */
  method WriteRows(buf: array2<Row>, l: nat, rows: seq<Row>)
    requires l < buf.Length0 && |rows| <= buf.Length1
    modifies buf
    ensures forall p :: 0 <= p < |rows| ==> buf[l, p] == rows[p]
    ensures forall i, p :: 0 <= i < buf.Length0 && 0 <= p < buf.Length1 && (i != l || p >= |rows|) ==>
              buf[i, p] == old(buf[i, p])
  {
    for t := 0 to |rows|
      invariant forall p :: 0 <= p < t ==> buf[l, p] == rows[p]
      invariant forall i, p :: 0 <= i < buf.Length0 && 0 <= p < buf.Length1 && (i != l || p >= t) ==>
                  buf[i, p] == old(buf[i, p])
    {
      buf[l, t] := rows[t];
    }
  }

  /** The two buffer writes of one layer. */
  method UploadLayer(e: Engine, l: nat, n: nat, ks: seq<Row>, vs: seq<Row>, writes: nat) returns (ok: bool)
    requires e.Laid() && n <= e.nCtx && l < e.net.nLayer && |ks| == |vs| == n
    modifies e.kvK, e.kvV
    ensures ok <==> writes >= 2
    ensures ok ==> e.Kv(l, n) == LayerKv(ks, vs)
    ensures forall i :: 0 <= i < e.net.nLayer && i != l ==> e.Kv(i, n) == old(e.Kv(i, n))
  {
    if writes == 0 {
      return false;
    }
    WriteRows(e.kvK, l, ks);
    if writes == 1 {
      assert forall i :: 0 <= i < e.net.nLayer && i != l ==> e.Kv(i, n).k == old(e.Kv(i, n)).k;
      return false;
    }
    WriteRows(e.kvV, l, vs);
    assert forall i :: 0 <= i < e.net.nLayer && i != l ==>
        e.Kv(i, n).k == old(e.Kv(i, n)).k && e.Kv(i, n).v == old(e.Kv(i, n)).v;
    return true;
  }

  /** kv_cache_upload of n rows per layer; the writes after the first goodWrites fail, and a
      failed upload has overwritten some rows. */
  method Upload(e: Engine, n: nat, host: seq<Row>, goodWrites: nat, ghost cache: Cache) returns (ok: bool)
    requires e.Laid() && n <= e.nCtx
    requires CacheOf(cache, e.net.nLayer, n) && host == LayerMajor(cache)
    modifies e.kvK, e.kvV
    ensures ok ==> e.Snapshot(n) == cache
    ensures ok <==> goodWrites >= 2 * e.net.nLayer
  {
    hide LayerMajor;
    var p := 0;
    for l := 0 to e.net.nLayer
      invariant p == 2 * l * n
      invariant 2 * l <= goodWrites
      invariant forall i :: 0 <= i < l ==> e.Kv(i, n) == cache[i]
    {
      LayerMajorSlices(cache, n, l);
      var good := UploadLayer(e, l, n, host[p..p+n], host[p+n..p+2*n], goodWrites - 2 * l);
      if !good {
        return false;
      }
      p := p + 2 * n;
      assert p == 2 * (l + 1) * n;
    }
    assert e.Snapshot(n) == cache;
    return true;
  }

  // ----- the prefix lookup -----

  lemma ColdShape(e: Engine, hist: seq<int>)
    ensures CacheOf(Cold(e.block, e.net.nLayer, hist), e.net.nLayer, |hist|)
  {
    TokensShape(e.block, 0, EmptyCache(e.net.nLayer), hist, 0);
  }

  /** At position 0 any engine stands for the empty history: stale rows do not matter. */
  lemma AtStart(e: Engine, none: seq<int>)
    requires e.Laid() && |none| == 0
    ensures e.Snapshot(0) == Cold(e.block, e.net.nLayer, none)
  {
    var a, b := e.Snapshot(0), EmptyCache(e.net.nLayer);
    forall l | 0 <= l < e.net.nLayer ensures a[l] == b[l] {
      assert e.Kv(l, 0) == LayerKv([], []);
    }
  }

  predicate LookedUp(p: Provider) {
    p.Provider? && p.answers.lookupRc == 0
  }

  /** The prefix length a call reports as cached: the looked-up one. */
  function Reported(p: Provider, n: nat): nat {
    if LookedUp(p) then Clamp(p.answers.cachedLen, n) else 0
  }

  /** The prefix length a call makes use of: none unless read and upload succeed as well. */
  function Reused(p: Provider, n: nat, nLayer: nat): (c: nat)
    ensures c <= n && (c == Reported(p, n) || c == 0)
  {
    if LookedUp(p) && p.answers.readOk && p.answers.goodWrites >= 2 * nLayer then Reported(p, n) else 0
  }

  /** The lookup, read and upload at the start of a call.  A failure anywhere leaves the
      engine at position 0, whatever the upload had already overwritten; the reported length
      stays the looked-up one even so. */
  method TryCache(e: Engine, prompt: seq<int>, p: Provider) returns (cached: nat)
    requires e.Laid() && |prompt| <= e.nCtx && e.seqLen == 0
    requires Faithful(e, prompt, p)
    modifies e`seqLen, e`lastCachedPrefixLen, e.kvK, e.kvV
    ensures cached <= |prompt| && Stands(e, prompt[..cached]) && e.AllInVocab(prompt[..cached])
    ensures cached == Reused(p, |prompt|, e.net.nLayer)
    ensures e.lastCachedPrefixLen == if LookedUp(p) then Reported(p, |prompt|) else old(e.lastCachedPrefixLen)
  {
    cached := 0;
    if p.Provider? {
      var a := p.answers;
      if a.lookupRc == 0 {
        cached := Clamp(a.cachedLen, |prompt|);
        e.lastCachedPrefixLen := cached;
        if cached > 0 {
          var ok := a.readOk;
          if ok {
            ColdShape(e, prompt[..cached]);
            ok := Upload(e, cached, a.data, a.goodWrites, Cold(e.block, e.net.nLayer, prompt[..cached]));
          }
          if ok {
            e.seqLen := cached;
          } else {
            cached := 0;
            e.seqLen := 0;
          }
        }
      }
    }
    if cached == 0 {
      AtStart(e, prompt[..0]);
    }
  }

  // ----- failing passes and the deadline -----

  /** What goes wrong during a call: pass number prefill of the prefill and the pass of decode
      step step fail in the backend, if they are reached, and the deadline is found passed from
      check number late on (never if negative).  The K and V rows a failing pass leaves for a
      layer and position may be anything. */
  datatype Faults = Faults(prefill: int, step: int, late: int, junk: (nat, nat) -> LayerRow)

  datatype LayerRow = LayerRow(k: Row, v: Row)

  /** Position pos holds what a failing pass left. */
  ghost predicate JunkAt(e: Engine, pos: nat, junk: (nat, nat) -> LayerRow)
    requires e.Laid() && pos < e.nCtx
    reads e.kvK, e.kvV
  {
    forall l :: 0 <= l < e.net.nLayer ==> e.kvK[l, pos] == junk(l, pos).k && e.kvV[l, pos] == junk(l, pos).v
  }

  /** A forward pass over n tokens that fails part way. */
  method FailedPass(e: Engine, n: nat, junk: (nat, nat) -> LayerRow)
    requires e.Laid() && e.seqLen + n <= e.nCtx
    modifies e.kvK, e.kvV
    ensures e.Snapshot(e.seqLen) == old(e.Snapshot(e.seqLen))
    ensures forall i :: e.seqLen <= i < e.seqLen + n ==> JunkAt(e, i, junk)
  {
    ghost var was := e.Snapshot(e.seqLen);
    var lo, hi := e.seqLen, e.seqLen + n;
    for l := 0 to e.net.nLayer
      invariant e.Snapshot(lo) == was
      invariant forall m, i :: 0 <= m < l && lo <= i < hi ==> e.kvK[m, i] == junk(m, i).k && e.kvV[m, i] == junk(m, i).v
    {
      for i := lo to hi
        invariant e.Snapshot(lo) == was
        invariant forall m, k :: 0 <= m < l && lo <= k < hi ==>
                  e.kvK[m, k] == junk(m, k).k && e.kvV[m, k] == junk(m, k).v
        invariant forall k :: lo <= k < i ==> e.kvK[l, k] == junk(l, k).k && e.kvV[l, k] == junk(l, k).v
      {
        e.kvK[l, i] := junk(l, i).k;
        e.kvV[l, i] := junk(l, i).v;
        assert forall j :: 0 <= j < e.net.nLayer ==> e.Kv(j, lo) == was[j];
      }
    }
  }

  // ----- prefill -----

  /** How the prompt is fed in: chunked or not, the chunk size, and the schedule switches. */
  datatype Options = Options(chunked: bool, chunkSize: nat, gathered: bool, gpuOnly: bool, overlap: bool)

  ghost predicate ValidOptions(o: Options) {
    1 <= o.chunkSize <= CHUNK
  }

  /** Prompts with fewer uncached tokens than this go token by token. */
  const FALLBACK_TOKENS: nat := 8

  /** Rewinding to a shorter history keeps the engine standing: later rows are ignored. */
  lemma Rewound(e: Engine, hist: seq<int>, n: nat)
    requires e.Laid() && n <= |hist| <= e.nCtx
    requires e.Snapshot(|hist|) == Cold(e.block, e.net.nLayer, hist)
    ensures e.Snapshot(n) == Cold(e.block, e.net.nLayer, hist[..n])
  {
    RowsOfPrefix(e.block, e.net.nLayer, hist, n);
    var full, part := e.Snapshot(|hist|), e.Snapshot(n);
    forall l | 0 <= l < e.net.nLayer
      ensures part[l] == Cold(e.block, e.net.nLayer, hist[..n])[l]
    {
      assert full[l] == e.Kv(l, |hist|) && part[l] == e.Kv(l, n);
      assert part[l].k == full[l].k[..n] && part[l].v == full[l].v[..n];
    }
  }

  /** How many chunks of at most size tokens take up left tokens. */
  function Chunks(left: nat, size: nat): nat
    requires size > 0
  {
    if left == 0 then 0 else if left <= size then 1 else 1 + Chunks(left - size, size)
  }

  lemma ChunksStep(left: nat, size: nat)
    requires size > 0
    ensures Chunks(left, size) == if left == 0 then 0 else 1 + Chunks(if left < size then 0 else left - size, size)
  {
  }

  /** The tokens of one prefill pass, at most. */
  function Size(n: nat, cached: nat, o: Options): nat
    requires cached <= n
  {
    if o.chunked && n - cached >= FALLBACK_TOKENS then o.chunkSize else 1
  }

  /** How many forward passes prefill takes for n tokens of which cached are cached. */
  function Passes(n: nat, cached: nat, o: Options): nat
    requires o.chunkSize > 0 && cached <= n
  {
    if cached == n then 1 else Chunks(n - cached, Size(n, cached, o))
  }

  /** How many passes come before a deadline check: one check is before all passes and one more
      before each of them, or, if all is cached, behind the only one. */
  function PassesBefore(n: nat, cached: nat, check: nat): nat {
    if check == 0 then 0 else if cached == n then check else check - 1
  }

  /** How far the first passes get into a prompt of n tokens. */
  function Fed(n: nat, cached: nat, o: Options, passes: nat): (fed: nat)
    requires cached <= n
    ensures fed <= n
  {
    var far := cached + passes * Size(n, cached, o);
    if far <= n then far else n
  }

  /** The first passes of prefill do their work. */
  ghost predicate Works(e: Engine, prompt: seq<int>, cached: nat, f: Faults, o: Options, passes: nat)
    requires cached <= |prompt|
  {
    !(0 <= f.prefill < passes) && e.AllInVocab(prompt[..Fed(|prompt|, cached, o, passes)])
  }

  /** Prefill gets to the check that finds the deadline passed. */
  ghost predicate PrefillLate(e: Engine, prompt: seq<int>, cached: nat, f: Faults, o: Options)
    requires cached <= |prompt| && o.chunkSize > 0
  {
    && 0 <= f.late <= Passes(|prompt|, cached, o)
    && Works(e, prompt, cached, f, o, PassesBefore(|prompt|, cached, f.late))
  }

  /** All of prefill does its work, in time. */
  ghost predicate PrefillWorks(e: Engine, prompt: seq<int>, cached: nat, f: Faults, o: Options)
    requires cached <= |prompt| && o.chunkSize > 0
  {
    var passes := Passes(|prompt|, cached, o);
    e.AllInVocab(prompt) && !(0 <= f.prefill < passes) && !(0 <= f.late <= passes)
  }

  /** What prefill returns: the next token, -1, or -2 when the deadline has passed. */
  ghost predicate PrefillReturns(e: Engine, prompt: seq<int>, cached: nat, f: Faults, o: Options, next: int)
    requires cached <= |prompt| && o.chunkSize > 0
  {
    && next >= -2
    && (next >= 0 <==> PrefillWorks(e, prompt, cached, f, o))
    && (next == -2 <==> PrefillLate(e, prompt, cached, f, o))
  }

  /** A number of passes did their work in time, and brought prefill to pos. */
  ghost predicate Midway(e: Engine, prompt: seq<int>, cached: nat, f: Faults, o: Options, passes: nat, pos: nat)
    requires cached <= |prompt| && o.chunkSize > 0
  {
    && cached < |prompt| && cached <= pos <= |prompt| && pos == Fed(|prompt|, cached, o, passes)
    && passes + Chunks(|prompt| - pos, Size(|prompt|, cached, o)) == Passes(|prompt|, cached, o)
    && e.AllInVocab(prompt[..pos])
    && !(0 <= f.prefill < passes) && !(0 <= f.late <= passes)
  }

  lemma MidwayStart(e: Engine, prompt: seq<int>, cached: nat, f: Faults, o: Options)
    requires cached < |prompt| && o.chunkSize > 0 && f.late != 0 && e.AllInVocab(prompt[..cached])
    ensures Midway(e, prompt, cached, f, o, 0, cached)
  {
  }

  /** The next pass: how many tokens it takes, and where it leads. */
  lemma NextPass(n: nat, cached: nat, o: Options, passes: nat, pos: nat) returns (chunk: nat)
    requires cached <= pos < n && o.chunkSize > 0 && pos == Fed(n, cached, o, passes)
    ensures var size := Size(n, cached, o); chunk == if n - pos < size then n - pos else size
    ensures 0 < chunk && pos + chunk <= n && pos + chunk == Fed(n, cached, o, passes + 1)
    ensures Chunks(n - pos, Size(n, cached, o)) == 1 + Chunks(n - (pos + chunk), Size(n, cached, o))
  {
    var size := Size(n, cached, o);
    chunk := if n - pos < size then n - pos else size;
    OneMore(passes, size);
    ChunksStep(n - pos, size);
  }

  lemma OneMore(passes: nat, size: nat)
    ensures (passes + 1) * size == passes * size + size
  {
  }

  lemma FedGrows(n: nat, cached: nat, o: Options, a: nat, b: nat)
    requires cached <= n && a <= b
    ensures Fed(n, cached, o, a) <= Fed(n, cached, o, b)
  {
    TimesGrows(a, b, Size(n, cached, o));
  }

  lemma {:induction false} TimesGrows(a: nat, b: nat, size: nat)
    requires a <= b
    ensures a * size <= b * size
  {
    assert b * size == a * size + (b - a) * size;
  }

  lemma FrontInVocab(e: Engine, toks: seq<int>, a: nat, b: nat)
    requires a <= b <= |toks| && e.AllInVocab(toks[..b])
    ensures e.AllInVocab(toks[..a])
  {
    forall i | 0 <= i < a ensures e.InVocab(toks[..a][i]) {
      assert toks[..a][i] == toks[..b][i];
    }
  }

  /** The check before the next pass finds the deadline passed. */
  lemma PassIsLate(e: Engine, prompt: seq<int>, cached: nat, f: Faults, o: Options, passes: nat, pos: nat)
    requires cached <= |prompt| && o.chunkSize > 0 && Midway(e, prompt, cached, f, o, passes, pos)
    requires pos < |prompt| && f.late == passes + 1
    ensures PrefillReturns(e, prompt, cached, f, o, -2)
  {
    hide Fed, Chunks, Engine.AllInVocab;
    var _ := NextPass(|prompt|, cached, o, passes, pos);
  }

  /** The next pass fails. */
  lemma PassFails(e: Engine, prompt: seq<int>, cached: nat, f: Faults, o: Options, passes: nat, pos: nat, to: nat)
    requires cached <= |prompt| && o.chunkSize > 0 && Midway(e, prompt, cached, f, o, passes, pos)
    requires pos < |prompt| && f.late != passes + 1 && to == Fed(|prompt|, cached, o, passes + 1)
    requires f.prefill == passes || !e.AllInVocab(prompt[..to])
    ensures PrefillReturns(e, prompt, cached, f, o, -1)
  {
    hide Fed, Chunks, Engine.AllInVocab;
    var _ := NextPass(|prompt|, cached, o, passes, pos);
    if f.prefill != passes {
      if e.AllInVocab(prompt) {
        assert prompt[..|prompt|] == prompt;
        FrontInVocab(e, prompt, to, |prompt|);
      }
      if PrefillLate(e, prompt, cached, f, o) {
        FedGrows(|prompt|, cached, o, passes + 1, f.late - 1);
        FrontInVocab(e, prompt, to, Fed(|prompt|, cached, o, f.late - 1));
      }
    }
  }

  /** The next pass does its work. */
  lemma PassWorks(e: Engine, prompt: seq<int>, cached: nat, f: Faults, o: Options, passes: nat, pos: nat, to: nat)
    requires cached <= |prompt| && o.chunkSize > 0 && Midway(e, prompt, cached, f, o, passes, pos)
    requires pos < |prompt| && f.late != passes + 1 && to == Fed(|prompt|, cached, o, passes + 1)
    requires f.prefill != passes && e.AllInVocab(prompt[..to])
    ensures Midway(e, prompt, cached, f, o, passes + 1, to)
  {
    hide Fed, Chunks, Engine.AllInVocab;
    var _ := NextPass(|prompt|, cached, o, passes, pos);
  }

  lemma MidwayEnd(e: Engine, prompt: seq<int>, cached: nat, f: Faults, o: Options, passes: nat, next: nat)
    requires cached <= |prompt| && o.chunkSize > 0 && Midway(e, prompt, cached, f, o, passes, |prompt|)
    ensures PrefillReturns(e, prompt, cached, f, o, next)
  {
    hide Fed, Engine.AllInVocab;
    assert prompt[..|prompt|] == prompt;
  }

  /** All is cached: there is one pass, and a check behind it. */
  lemma AllCached(e: Engine, prompt: seq<int>, f: Faults, o: Options, next: int)
    requires o.chunkSize > 0 && e.AllInVocab(prompt) && f.late != 0 && next >= -2
    requires next == -1 <==> f.prefill == 0
    requires next == -2 <==> f.prefill != 0 && f.late == 1
    ensures PrefillReturns(e, prompt, |prompt|, f, o, next)
  {
    assert prompt[..|prompt|] == prompt;
  }

  /** The check before everything finds the deadline passed. */
  lemma LateAtOnce(e: Engine, prompt: seq<int>, cached: nat, f: Faults, o: Options)
    requires cached <= |prompt| && o.chunkSize > 0 && f.late == 0 && e.AllInVocab(prompt[..cached])
    ensures PrefillReturns(e, prompt, cached, f, o, -2)
  {
  }

  /** The prompt beyond its cached prefix.  A fully cached prompt re-runs its last token. */
  method Prefill(e: Engine, prompt: seq<int>, cached: nat, f: Faults, o: Options) returns (next: int)
    requires e.Laid() && 0 < |prompt| <= e.nCtx && ValidOptions(o)
    requires cached <= |prompt| && Stands(e, prompt[..cached]) && e.AllInVocab(prompt[..cached])
    modifies e`logits, e`seqLen, e.Buffers(), e.kvK, e.kvV
    ensures PrefillReturns(e, prompt, cached, f, o, next)
    ensures next >= 0 ==> StandsReady(e, prompt, next)
  {
    hide Cold, Engine.Snapshot, Engine.LogitsOf, PrefillReturns;
    next := -1;
    var n := |prompt|;
    if f.late == 0 {
      LateAtOnce(e, prompt, cached, f, o);
      return -2;
    }
    if cached == n {
      assert prompt[..n] == prompt;
      Rewound(e, prompt, n - 1);
      e.seqLen := n - 1;
      if f.prefill == 0 {
        FailedPass(e, 1, f.junk);
        AllCached(e, prompt, f, o, -1);
        return -1;
      }
      next := StepToken(e, prompt[..n-1], prompt[n-1], o);
      assert prompt[..n-1] + [prompt[n-1]] == prompt;
      if f.late == 1 {
        e.seqLen := n - 1;
        next := -2;
      }
      AllCached(e, prompt, f, o, next);
    } else if o.chunked && n - cached >= FALLBACK_TOKENS {
      next := PrefillChunks(e, prompt, cached, f, o);
    } else {
      next := PrefillTokens(e, prompt, cached, f, o);
    }
  }

  lemma VocabOfParts(e: Engine, prompt: seq<int>, pos: nat, n: nat)
    requires pos + n <= |prompt|
    ensures prompt[..pos] + prompt[pos..pos+n] == prompt[..pos+n]
    ensures e.AllInVocab(prompt[..pos]) && e.AllInVocab(prompt[pos..pos+n]) ==> e.AllInVocab(prompt[..pos+n])
    ensures e.AllInVocab(prompt[..pos+n]) ==> e.AllInVocab(prompt[pos..pos+n])
  {
    var a, b, c := prompt[..pos], prompt[pos..pos+n], prompt[..pos+n];
    assert a + b == c;
    if e.AllInVocab(a) && e.AllInVocab(b) {
      forall i | 0 <= i < |c| ensures e.InVocab(c[i]) {
        assert c[i] == if i < pos then a[i] else b[i - pos];
      }
    }
    if e.AllInVocab(c) {
      forall i | 0 <= i < |b| ensures e.InVocab(b[i]) {
        assert b[i] == c[pos + i];
      }
    }
  }

  method PrefillChunks(e: Engine, prompt: seq<int>, cached: nat, f: Faults, o: Options) returns (next: int)
    requires e.Laid() && |prompt| <= e.nCtx && ValidOptions(o)
    requires cached < |prompt| && Stands(e, prompt[..cached]) && e.AllInVocab(prompt[..cached])
    requires f.late != 0 && o.chunked && |prompt| - cached >= FALLBACK_TOKENS
    modifies e`logits, e`seqLen, e.Buffers(), e.kvK, e.kvV
    ensures PrefillReturns(e, prompt, cached, f, o, next)
    ensures next >= 0 ==> StandsReady(e, prompt, next)
  {
    hide Cold, Engine.Snapshot, Engine.LogitsOf, Engine.AllInVocab, ColdLogits, Chunks, Fed, PrefillReturns;
    next := -1;
    var pos := cached;
    var passes := 0;
    MidwayStart(e, prompt, cached, f, o);
    while pos < |prompt|
      invariant cached <= pos <= |prompt| && Midway(e, prompt, cached, f, o, passes, pos)
      invariant Stands(e, prompt[..pos]) && e.AllInVocab(prompt[..pos])
      invariant pos > cached ==> next >= 0 && StandsReady(e, prompt[..pos], next)
    {
      if f.late == passes + 1 {
        PassIsLate(e, prompt, cached, f, o, passes, pos);
        return -2;
      }
      var remaining := |prompt| - pos;
      var chunk := if remaining < o.chunkSize then remaining else o.chunkSize;
      var toks := prompt[pos..pos+chunk];
      ghost var _ := NextPass(|prompt|, cached, o, passes, pos);
      if passes == f.prefill {
        FailedPass(e, chunk, f.junk);
        PassFails(e, prompt, cached, f, o, passes, pos, pos + chunk);
        return -1;
      }
      VocabOfParts(e, prompt, pos, chunk);
      next := StepChunk(e, prompt[..pos], toks, o.gathered);
      if next < 0 {
        PassFails(e, prompt, cached, f, o, passes, pos, pos + chunk);
        return -1;
      }
      PassWorks(e, prompt, cached, f, o, passes, pos, pos + chunk);
      pos := pos + chunk;
      passes := passes + 1;
    }
    MidwayEnd(e, prompt, cached, f, o, passes, next);
    assert prompt[..|prompt|] == prompt;
  }

  method PrefillTokens(e: Engine, prompt: seq<int>, cached: nat, f: Faults, o: Options) returns (next: int)
    requires e.Laid() && |prompt| <= e.nCtx && ValidOptions(o)
    requires cached < |prompt| && Stands(e, prompt[..cached]) && e.AllInVocab(prompt[..cached])
    requires f.late != 0 && !(o.chunked && |prompt| - cached >= FALLBACK_TOKENS)
    modifies e`logits, e`seqLen, e.Buffers(), e.kvK, e.kvV
    ensures PrefillReturns(e, prompt, cached, f, o, next)
    ensures next >= 0 ==> StandsReady(e, prompt, next)
  {
    hide Cold, Engine.Snapshot, Engine.LogitsOf, Engine.AllInVocab, ColdLogits, Chunks, Fed, PrefillReturns;
    next := -1;
    MidwayStart(e, prompt, cached, f, o);
    for i := cached to |prompt|
      invariant Midway(e, prompt, cached, f, o, i - cached, i)
      invariant Stands(e, prompt[..i]) && e.AllInVocab(prompt[..i])
      invariant i > cached ==> next >= 0 && StandsReady(e, prompt[..i], next)
    {
      if f.late == i - cached + 1 {
        PassIsLate(e, prompt, cached, f, o, i - cached, i);
        return -2;
      }
      ghost var _ := NextPass(|prompt|, cached, o, i - cached, i);
      if i - cached == f.prefill {
        FailedPass(e, 1, f.junk);
        PassFails(e, prompt, cached, f, o, i - cached, i, i + 1);
        return -1;
      }
      VocabOfParts(e, prompt, i, 1);
      assert prompt[i..i+1] == [prompt[i]];
      OneInVocab(e, prompt[i]);
      next := StepToken(e, prompt[..i], prompt[i], o);
      if next < 0 {
        PassFails(e, prompt, cached, f, o, i - cached, i, i + 1);
        return -1;
      }
      PassWorks(e, prompt, cached, f, o, i - cached, i, i + 1);
    }
    MidwayEnd(e, prompt, cached, f, o, |prompt| - cached, next);
    assert prompt[..|prompt|] == prompt;
  }

  lemma OneInVocab(e: Engine, tok: int)
    ensures e.AllInVocab([tok]) <==> e.InVocab(tok)
  {
    assert [tok][0] == tok;
  }

  // ----- decode -----

  /** full is what has been generated and what a cold run would still generate. */
  ghost predicate Left(e: Engine, prompt: seq<int>, full: seq<int>, out: seq<int>, steps: nat, room: nat)
    requires e.Laid() && |prompt| > 0
  {
    full == out + Generated(e, prompt + out, steps, room)
  }

  lemma LeftStep(e: Engine, prompt: seq<int>, full: seq<int>, out: seq<int>, steps: nat, room: nat)
    requires e.Laid() && |prompt| > 0 && Left(e, prompt, full, out, steps, room)
    ensures steps == 0 || room == 0 || |prompt + out| >= e.nCtx || e.net.stop(Next(e, prompt + out)) ==> full == out
    ensures var now := out + [Next(e, prompt + out)];
            steps > 0 && room > 0 && |prompt + out| < e.nCtx && !e.net.stop(Next(e, prompt + out)) ==>
              && prompt + now == prompt + out + [Next(e, prompt + out)]
              && Left(e, prompt, full, now, steps - 1, room - 1)
              && now == full[..|now|] && out == full[..|out|] && |out| < |full|
  {
    var next := Next(e, prompt + out);
    assert prompt + (out + [next]) == prompt + out + [next];
    assert out + [] == out;
    if steps > 0 && room > 0 && |prompt + out| < e.nCtx && !e.net.stop(next) {
      var rest := Generated(e, prompt + out + [next], steps - 1, room - 1);
      assert out + ([next] + rest) == out + [next] + rest;
    }
  }

  /** How a decode ends when full is what the cold run generates: as the cold run, or, if the
      pass of step faultStep failed, one emitted token ahead of the cache. */
  ghost predicate Decoded(e: Engine, prompt: seq<int>, full: seq<int>, faultStep: int, out: seq<int>)
    requires e.Laid() && |prompt| > 0
    reads e`seqLen, e`logits, e.kvK, e.kvV
  {
    if 0 <= faultStep < |full|
    then
      && out == full[..faultStep+1]
      && Stands(e, prompt + full[..faultStep])
      && e.seqLen == |prompt| + |out| - 1 && |prompt| + |out| <= e.nCtx
    else
      && out == full
      && Stands(e, prompt + out)
      && e.seqLen == |prompt| + |out|
      && e.logits == ColdLogits(e, prompt + out)
  }

  /** The decode loop gets to the check that finds the deadline passed: that of step late.  A check
      comes before every emitted token, and one behind the last if only a stop token ended it. */
  ghost predicate DecodeLate(e: Engine, prompt: seq<int>, nPredict: nat, capacity: int, faultStep: int, late: int)
    requires e.Laid() && |prompt| > 0 && capacity >= 0
  {
    var n := |Generated(e, prompt, nPredict, capacity)|;
    && 0 <= late <= n && !(0 <= faultStep < late)
    && (late == n ==> n < nPredict && n < capacity && |prompt| + n < e.nCtx)
  }

  /** The decode loop.  The pass of step f.step (if the loop gets there) fails in the
      backend; the loop then ends with that step's token already emitted.  At step late the
      deadline has passed. */
  method Decode(e: Engine, prompt: seq<int>, next0: int, nPredict: nat, capacity: nat, f: Faults, late: int, o: Options)
    returns (inTime: bool, out: seq<int>)
    requires e.Laid() && |prompt| > 0 && StandsReady(e, prompt, next0)
    modifies e`logits, e`seqLen, e.Buffers(), e.kvK, e.kvV
    ensures !inTime <==> DecodeLate(e, prompt, nPredict, capacity, f.step, late)
    ensures var full := Generated(e, prompt, nPredict, capacity);
            if !inTime then out == full[..late] else
              && Decoded(e, prompt, full, f.step, out)
              && (0 <= f.step < |full| ==> JunkAt(e, |prompt| + f.step, f.junk))
  {
    hide Cold, Engine.Snapshot, Engine.LogitsOf, Generated, ColdLogits, Left;
    inTime, out := true, [];
    var next := next0;
    var i := 0;
    ghost var full := Generated(e, prompt, nPredict, capacity);
    LeftStart(e, prompt, nPredict, capacity);
    while i < nPredict && i < capacity && e.seqLen < e.nCtx
      invariant 0 <= i <= nPredict && |out| == i <= capacity
      invariant (f.step < 0 || i <= f.step) && (late < 0 || i <= late)
      invariant Left(e, prompt, full, out, nPredict - i, capacity - i)
      invariant StandsReady(e, prompt + out, next)
      decreases nPredict - i
    {
      LeftStep(e, prompt, full, out, nPredict - i, capacity - i);
      if i == late {
        return false, out;
      }
      if e.net.stop(next) {
        return;
      }
      NextInVocab(e, prompt + out);
      if i == f.step {
        out := out + [next];
        FailedPass(e, 1, f.junk);
        return;
      }
      var emitted := next;
      next := StepToken(e, prompt + out, emitted, o);
      out := out + [emitted];
      i := i + 1;
    }
    LeftStep(e, prompt, full, out, nPredict - i, capacity - i);
  }

  lemma LeftStart(e: Engine, prompt: seq<int>, steps: nat, room: nat)
    requires e.Laid() && |prompt| > 0
    ensures prompt + [] == prompt
    ensures Left(e, prompt, Generated(e, prompt, steps, room), [], steps, room)
  {
    assert prompt + [] == prompt;
    assert [] + Generated(e, prompt, steps, room) == Generated(e, prompt, steps, room);
  }

  // ----- the whole call -----

  /** What the call hands back to the provider for later turns. */
  datatype Written = NoWrite | Write(tokens: seq<int>, data: seq<Row>)

  function Steps(nPredict: int): nat {
    if nPredict < 0 then 0 else nPredict
  }

  /** Lookup and prefill: the engine ends as after a cold prefill, whatever was cached. */
  method RunPrompt(e: Engine, prompt: seq<int>, p: Provider, f: Faults, o: Options) returns (next: int)
    requires e.Laid() && ValidOptions(o) && Faithful(e, prompt, p)
    requires 0 < |prompt| <= e.nCtx
    modifies e, e.Buffers(), e.kvK, e.kvV
    ensures PrefillReturns(e, prompt, Reused(p, |prompt|, e.net.nLayer), f, o, next)
    ensures next >= 0 ==> StandsReady(e, prompt, next)
    ensures e.lastCachedPrefixLen == Reported(p, |prompt|) && e.lastNewCachedPrefixLen == 0
  {
    hide PrefillReturns;
    e.seqLen := 0;
    e.lastCachedPrefixLen := 0;
    e.lastNewCachedPrefixLen := 0;
    var cached := TryCache(e, prompt, p);
    next := Prefill(e, prompt, cached, f, o);
  }

  /** The write-back at the end of a call: prompt and output, with that many rows, unless the
      host side fails. */
  method WriteBack(e: Engine, prompt: seq<int>, out: seq<int>, p: Provider) returns (written: Written)
    requires e.Laid() && |prompt| + |out| <= e.nCtx
    modifies e`lastNewCachedPrefixLen
    ensures e.lastNewCachedPrefixLen == |prompt| + |out|
    ensures written == if p.Provider? && p.answers.backOk
                       then Write(prompt + out, LayerMajor(e.Snapshot(|prompt| + |out|))) else NoWrite
  {
    var total := |prompt| + |out|;
    e.lastNewCachedPrefixLen := total;
    written := NoWrite;
    if p.Provider? && p.answers.backOk {
      var host := Download(e, total);
      written := Write(prompt + out, host);
    }
  }

  /** The step of decode at which the deadline has passed: prefill has a check more than passes. */
  function LateStep(f: Faults, n: nat, cached: nat, o: Options): int
    requires o.chunkSize > 0 && cached <= n
  {
    f.late - 1 - Passes(n, cached, o)
  }

  /** ds3_engine_generate_ex.  Its outcome is that of the cold run Generated, and does not
      depend on p: neither on how much was cached nor on which provider calls failed.  f says
      which passes fail in the backend and when the deadline passes; how many passes and checks
      prefill has is all that depends on p.  The reported length is seqLen exactly when no decode
      pass failed; after a failed one it, and what is written back, is one row too long.  After a
      passed deadline nothing is written back, and the tokens so far are the cold run's. */
  method GenerateEx(e: Engine, prompt: seq<int>, nPredict: int, capacity: int, p: Provider,
                    f: Faults, o: Options)
    returns (rc: int, out: seq<int>, written: Written)
    requires e.Laid() && ValidOptions(o) && Faithful(e, prompt, p)
    modifies e, e.Buffers(), e.kvK, e.kvV
    ensures rc >= -2
    ensures rc == -1 <==>
              || |prompt| == 0 || capacity <= 0 || |prompt| > e.nCtx
              || var cached := Reused(p, |prompt|, e.net.nLayer);
                 !PrefillWorks(e, prompt, cached, f, o) && !PrefillLate(e, prompt, cached, f, o)
    ensures rc == -2 <==>
              && 0 < |prompt| <= e.nCtx && capacity > 0
              && var cached := Reused(p, |prompt|, e.net.nLayer);
                 || PrefillLate(e, prompt, cached, f, o)
                 || (PrefillWorks(e, prompt, cached, f, o)
                     && DecodeLate(e, prompt, Steps(nPredict), capacity, f.step, LateStep(f, |prompt|, cached, o)))
    ensures rc == -1 ==> out == []
    ensures rc == -2 ==>
              var cached := Reused(p, |prompt|, e.net.nLayer);
              out == if PrefillLate(e, prompt, cached, f, o) then []
                     else Generated(e, prompt, Steps(nPredict), capacity)[..LateStep(f, |prompt|, cached, o)]
    ensures rc < 0 ==> written == NoWrite
    ensures 0 < |prompt| <= e.nCtx && capacity > 0 ==>
              && e.lastCachedPrefixLen == Reported(p, |prompt|)
              && (rc < 0 ==> e.lastNewCachedPrefixLen == 0)
    ensures rc >= 0 ==>
              var full := Generated(e, prompt, Steps(nPredict), capacity);
              && rc == |out|
              && e.lastNewCachedPrefixLen == |prompt| + |out| <= e.nCtx
              && Decoded(e, prompt, full, f.step, out)
              && (0 <= f.step < |full| ==> JunkAt(e, |prompt| + f.step, f.junk))
              && written == (if p.Provider? && p.answers.backOk
                             then Write(prompt + out, LayerMajor(e.Snapshot(|prompt| + |out|))) else NoWrite)
              && (written.Write? && !(0 <= f.step < |full|) ==>
                    written == Write(prompt + out, LayerMajor(Cold(e.block, e.net.nLayer, prompt + out))))
  {
    hide Cold, ColdLogits, LayerMajor, Generated, PrefillWorks, PrefillLate, DecodeLate;
    rc, out, written := -1, [], NoWrite;
    if |prompt| == 0 || capacity <= 0 || |prompt| > e.nCtx {
      return;
    }
    var next := RunPrompt(e, prompt, p, f, o);
    if next < 0 {
      return next, [], NoWrite;
    }
    PrefillEnds(e, prompt, Reused(p, |prompt|, e.net.nLayer), f, o);
    var late := LateStep(f, |prompt|, Reused(p, |prompt|, e.net.nLayer), o);
    var inTime;
    inTime, out := Decode(e, prompt, next, Steps(nPredict), capacity, f, late, o);
    if !inTime {
      return -2, out, NoWrite;
    }
    written := WriteBack(e, prompt, out, p);
    rc := |out|;
  }

  lemma PrefillEnds(e: Engine, prompt: seq<int>, cached: nat, f: Faults, o: Options)
    requires cached <= |prompt| && o.chunkSize > 0
    ensures PrefillWorks(e, prompt, cached, f, o) ==> !PrefillLate(e, prompt, cached, f, o)
  {
  }

  /** What one call writes serves any later prompt: the rows of a shared prefix, cut out of
      the written cache, are the rows the contract asks for. */
  lemma WrittenServes(e: Engine, stored: seq<int>, prompt: seq<int>, c: nat)
    requires c <= |stored| && c <= |prompt| && stored[..c] == prompt[..c]
    ensures var full := Cold(e.block, e.net.nLayer, stored);
            && CacheOf(full, e.net.nLayer, |stored|)
            && PrefixOf(full, c) == Cold(e.block, e.net.nLayer, prompt[..c])
  {
    RowsOfPrefix(e.block, e.net.nLayer, stored, c);
  }

  /** A cache as a call writes it back after a failed decode pass: right but for its last row,
      which may hold anything. */
  ghost predicate Tainted(e: Engine, stored: seq<int>, cache: Cache) {
    && |stored| > 0 && CacheOf(cache, e.net.nLayer, |stored|)
    && PrefixOf(cache, |stored| - 1) == Cold(e.block, e.net.nLayer, stored[..|stored|-1])
  }

  /** Of all such caches, every one serves a shared prefix of c tokens rightly exactly when that
      prefix leaves the last token out. */
  lemma TaintedServes(e: Engine, stored: seq<int>, prompt: seq<int>, c: nat)
    requires e.net.nLayer > 0 && |stored| > 0
    requires c <= |stored| && c <= |prompt| && stored[..c] == prompt[..c]
    ensures (forall cache :: Tainted(e, stored, cache) ==>
               PrefixOf(cache, c) == Cold(e.block, e.net.nLayer, prompt[..c]))
            <==> c < |stored|
  {
    hide PrefixOf, Cold, Tainted;
    if c < |stored| {
      forall cache | Tainted(e, stored, cache) ensures PrefixOf(cache, c) == Cold(e.block, e.net.nLayer, prompt[..c]) {
        TaintedFront(e, stored, cache, prompt, c);
      }
    } else {
      var cache := WrongRow(e, stored);
      TaintedWhole(e, stored, cache);
      assert stored[..c] == stored;
    }
  }

  lemma TaintedFront(e: Engine, stored: seq<int>, cache: Cache, prompt: seq<int>, c: nat)
    requires Tainted(e, stored, cache) && c < |stored| && c <= |prompt| && stored[..c] == prompt[..c]
    ensures PrefixOf(cache, c) == Cold(e.block, e.net.nLayer, prompt[..c])
  {
    hide PrefixOf, Cold;
    var n := |stored|;
    PrefixOfPrefix(cache, e.net.nLayer, n, n - 1, c);
    assert stored[..n-1][..c] == stored[..c];
    WrittenServes(e, stored[..n-1], prompt, c);
  }

  lemma TaintedWhole(e: Engine, stored: seq<int>, cache: Cache)
    requires Tainted(e, stored, cache)
    ensures PrefixOf(cache, |stored|) == cache
  {
    WholePrefix(cache, e.net.nLayer, |stored|);
  }

  /** A written-back cache that is wrong: the last K row of layer 0 is not the computed one. */
  lemma WrongRow(e: Engine, stored: seq<int>) returns (cache: Cache)
    requires e.net.nLayer > 0 && |stored| > 0
    ensures Tainted(e, stored, cache) && cache != Cold(e.block, e.net.nLayer, stored)
    ensures var right, wrong := Cold(e.block, e.net.nLayer, stored)[0].k[|stored|-1], cache[0].k[|stored|-1];
            right != wrong && (|right| > 0 ==> |wrong| == |right|)
  {
    var n := |stored|;
    ColdShape(e, stored);
    WrittenServes(e, stored, stored, n - 1);
    hide Cold;
    var cold := Cold(e.block, e.net.nLayer, stored);
    var ks := cold[0].k;
    var row: Row := if ks[n-1] == [] then [0] else ks[n-1][0 := (ks[n-1][0] as int + 1) % 256];
    cache := cold[0 := LayerKv(ks[n-1 := row], cold[0].v)];
    var a, b := PrefixOf(cache, n - 1), PrefixOf(cold, n - 1);
    assert cache[0].k[..n-1] == ks[..n-1];
    assert forall l :: 0 <= l < e.net.nLayer ==> a[l] == b[l];
    assert a == b;
    assert row != ks[n-1];
  }

  /** The rows below the cached length are right after a failed decode pass, too. */
  lemma TaintedWrite(e: Engine, hist: seq<int>, n: nat)
    requires e.Laid() && Stands(e, hist) && n <= e.nCtx && n == |hist| + 1
    ensures CacheOf(e.Snapshot(n), e.net.nLayer, n)
    ensures PrefixOf(e.Snapshot(n), |hist|) == Cold(e.block, e.net.nLayer, hist)
  {
    var a, b := PrefixOf(e.Snapshot(n), |hist|), e.Snapshot(|hist|);
    forall l | 0 <= l < e.net.nLayer ensures a[l] == b[l] {
      assert e.Snapshot(n)[l] == e.Kv(l, n) && b[l] == e.Kv(l, |hist|);
      assert a[l].k == b[l].k && a[l].v == b[l].v;
    }
    assert a == b;
  }
}
