/** The mixture-of-experts FFN: the per-token sum, and the gathered form that buckets the
    tokens of a chunk by expert, runs each expert once over its bucket and scatters the
    weighted results back. */
module Moe {
  import opened Kernels

  /** sum over k of weights[k] * f(experts[k]), accumulated in that order. */
  function WeightedSum(f: nat -> Vec, experts: seq<nat>, weights: seq<real>): Vec
    requires |experts| == |weights|
  {
    var n := |experts|;
    if n == 0 then Zero()
    else Add(WeightedSum(f, experts[..n-1], weights[..n-1]), Scale(weights[n-1], f(experts[n-1])))
  }

  /** The same sum over the chosen experts with a number below ex. */
  ghost function SumBelow(f: nat -> Vec, experts: seq<nat>, weights: seq<real>, ex: nat): Vec
    requires |experts| == |weights|
  {
    var n := |experts|;
    if n == 0 then Zero()
    else
      var rest := SumBelow(f, experts[..n-1], weights[..n-1], ex);
      if experts[n-1] < ex then Add(rest, Scale(weights[n-1], f(experts[n-1]))) else rest
  }

  lemma {:induction false} SumBelowNone(f: nat -> Vec, experts: seq<nat>, weights: seq<real>)
    requires |experts| == |weights|
    ensures SumBelow(f, experts, weights, 0) == Zero()
  {
    var n := |experts|;
    if n > 0 {
      SumBelowNone(f, experts[..n-1], weights[..n-1]);
    }
  }

  lemma {:induction false} SumBelowAll(f: nat -> Vec, experts: seq<nat>, weights: seq<real>, ex: nat)
    requires |experts| == |weights|
    requires forall k :: 0 <= k < |experts| ==> experts[k] < ex
    ensures SumBelow(f, experts, weights, ex) == WeightedSum(f, experts, weights)
  {
    var n := |experts|;
    if n > 0 {
      SumBelowAll(f, experts[..n-1], weights[..n-1], ex);
    }
  }

  lemma {:induction false} SumBelowSkip(f: nat -> Vec, experts: seq<nat>, weights: seq<real>, ex: nat)
    requires |experts| == |weights|
    requires ex !in experts
    ensures SumBelow(f, experts, weights, ex + 1) == SumBelow(f, experts, weights, ex)
  {
    var n := |experts|;
    if n > 0 {
      assert experts[n-1] != ex;
      assert ex !in experts[..n-1];
      SumBelowSkip(f, experts[..n-1], weights[..n-1], ex);
    }
  }

  /** Admitting one more expert adds its one term, wherever in the token's list it stands. */
  lemma {:induction false} SumBelowStep(f: nat -> Vec, experts: seq<nat>, weights: seq<real>, ex: nat, k: nat)
    requires |experts| == |weights|
    requires Distinct(experts)
    requires k < |experts| && experts[k] == ex
    ensures SumBelow(f, experts, weights, ex + 1)
         == Add(SumBelow(f, experts, weights, ex), Scale(weights[k], f(ex)))
  {
    var n := |experts|;
    var e', w' := experts[..n-1], weights[..n-1];
    if k == n - 1 {
      forall i | 0 <= i < n - 1 ensures e'[i] != ex {
        assert experts[i] != experts[n-1];
      }
      SumBelowSkip(f, e', w', ex);
    } else {
      assert experts[n-1] != experts[k];
      SumBelowStep(f, e', w', ex, k);
      if experts[n-1] < ex {
        AddSwap(SumBelow(f, e', w', ex), Scale(weights[k], f(ex)), Scale(weights[n-1], f(experts[n-1])));
      }
    }
  }

  // ----- the buckets -----

  /** An entry of an expert's bucket: the token, and its weight for that expert. */
  datatype Entry = Entry(token: nat, weight: real)

  /** The entries for expert ex among the first k choices of one token. */
  ghost function Picks(c: Choice, t: nat, ex: nat, k: nat): seq<Entry>
    requires k <= |c.experts|
  {
    if k == 0 then []
    else Picks(c, t, ex, k - 1) + (if c.experts[k-1] == ex then [Entry(t, c.weights[k-1])] else [])
  }

  ghost predicate ValidChoices(cs: seq<Choice>, nExpert: nat) {
    forall t :: 0 <= t < |cs| ==> ValidChoice(cs[t], nExpert)
  }

  /** The bucket of expert ex after the tokens before t: in token order. */
  ghost function Bucket(cs: seq<Choice>, ex: nat, t: nat): seq<Entry>
    requires t <= |cs|
  {
    if t == 0 then []
    else Bucket(cs, ex, t - 1) + Picks(cs[t-1], t - 1, ex, |cs[t-1].experts|)
  }

  lemma {:induction false} PicksAtMostOne(c: Choice, t: nat, ex: nat, k: nat)
    requires Distinct(c.experts)
    requires k <= |c.experts|
    ensures ex !in c.experts[..k] ==> Picks(c, t, ex, k) == []
    ensures forall i :: 0 <= i < k && c.experts[i] == ex ==> Picks(c, t, ex, k) == [Entry(t, c.weights[i])]
  {
    if k > 0 {
      PicksAtMostOne(c, t, ex, k - 1);
      if c.experts[k-1] == ex {
        forall i | 0 <= i < k - 1 ensures c.experts[i] != ex {
          assert c.experts[i] != c.experts[k-1];
        }
        assert ex !in c.experts[..k-1];
      } else if ex !in c.experts[..k] {
        assert ex !in c.experts[..k-1] by {
          assert c.experts[..k-1] == c.experts[..k][..k-1];
        }
      }
    }
  }

  /** The token with choice c gave expert ex the weight w. */
  ghost predicate Chose(c: Choice, ex: nat, w: real)
  {
    exists k :: 0 <= k < |c.experts| && c.experts[k] == ex && c.weights[k] == w
  }

  /** One token adds the entry it chose, or nothing. */
  lemma PicksAll(c: Choice, t: nat, ex: nat)
    requires Distinct(c.experts)
    ensures var p := Picks(c, t, ex, |c.experts|);
            && |p| <= 1
            && (|p| == 0 <==> ex !in c.experts)
            && (|p| == 1 ==> p[0].token == t && Chose(c, ex, p[0].weight))
            && (forall w :: Chose(c, ex, w) ==> p == [Entry(t, w)])
  {
    PicksAtMostOne(c, t, ex, |c.experts|);
    assert c.experts[..|c.experts|] == c.experts;
  }

  /** A bucket has at most one entry per token, and its tokens increase. */
  lemma {:induction false} BucketOrdered(cs: seq<Choice>, nExpert: nat, ex: nat, t: nat)
    requires t <= |cs| && ValidChoices(cs, nExpert)
    ensures |Bucket(cs, ex, t)| <= t
    ensures forall i :: 0 <= i < |Bucket(cs, ex, t)| ==> Bucket(cs, ex, t)[i].token < t
    ensures forall i, j :: 0 <= i < j < |Bucket(cs, ex, t)| ==>
              Bucket(cs, ex, t)[i].token < Bucket(cs, ex, t)[j].token
  {
    hide Bucket, Picks, Chose;
    BucketStep(cs, ex, t);
    if t > 0 {
      BucketOrdered(cs, nExpert, ex, t - 1);
      PicksAll(cs[t-1], t - 1, ex);
    }
  }

  /** Bucket ex holds exactly the tokens that chose ex, with the weight each gave it. */
  lemma {:induction false} BucketHolds(cs: seq<Choice>, nExpert: nat, ex: nat, t: nat, e: Entry)
    requires t <= |cs| && ValidChoices(cs, nExpert)
    ensures e in Bucket(cs, ex, t) <==> e.token < t && Chose(cs[e.token], ex, e.weight)
  {
    hide Bucket, Picks, Chose;
    BucketStep(cs, ex, t);
    if t > 0 {
      BucketHolds(cs, nExpert, ex, t - 1, e);
      var c := cs[t-1];
      PicksAll(c, t - 1, ex);
      var p := Picks(c, t - 1, ex, |c.experts|);
      if e.token == t - 1 && e in p {
        assert p == [p[0]];
      }
    }
  }

  lemma BucketStep(cs: seq<Choice>, ex: nat, t: nat)
    requires t <= |cs|
    ensures t == 0 ==> Bucket(cs, ex, t) == []
    ensures t > 0 ==> Bucket(cs, ex, t) == Bucket(cs, ex, t - 1) + Picks(cs[t-1], t - 1, ex, |cs[t-1].experts|)
  {
  }

  // ----- the buckets in memory: one region of m slots per expert -----

  function Slot(m: nat, ex: nat, i: nat): nat {
    ex * m + i
  }

  /** A slot lies inside the allocation, and slots of different experts never coincide. */
  lemma SlotsApart(m: nat, n: nat, a: nat, i: nat, b: nat, j: nat)
    requires i < m && j < m && a < n && b < n
    ensures Slot(m, a, i) < n * m
    ensures Slot(m, a, i) == Slot(m, b, j) ==> a == b && i == j
  {
    assert (a + 1) * m <= n * m;
    if a < b {
      assert (a + 1) * m <= b * m;
    } else if b < a {
      assert (b + 1) * m <= a * m;
    }
  }

  /** The first |b| slots of region ex hold b. */
  ghost predicate Holds(ids: array<nat>, wts: array<real>, n: nat, m: nat, ex: nat, b: seq<Entry>)
    requires ids.Length == wts.Length == n * m && ex < n
    reads ids, wts
  {
    && |b| <= m
    && forall i :: 0 <= i < |b| ==>
         && Slot(m, ex, i) < n * m
         && ids[Slot(m, ex, i)] == b[i].token && wts[Slot(m, ex, i)] == b[i].weight
  }

  ghost predicate AllHold(counts: array<nat>, ids: array<nat>, wts: array<real>, m: nat, parts: seq<seq<Entry>>)
    requires ids.Length == wts.Length == |parts| * m && counts.Length == |parts|
    reads counts, ids, wts
  {
    forall ex :: 0 <= ex < |parts| ==>
      counts[ex] == |parts[ex]| && Holds(ids, wts, |parts|, m, ex, parts[ex])
  }

  /** Append one entry to bucket ex; every other bucket is untouched. */
  method Put(counts: array<nat>, ids: array<nat>, wts: array<real>, m: nat,
             ex: nat, t: nat, sc: real, ghost parts: seq<seq<Entry>>)
    requires ids.Length == wts.Length == |parts| * m && counts.Length == |parts|
    requires counts != ids
    requires AllHold(counts, ids, wts, m, parts)
    requires ex < |parts| && |parts[ex]| < m
    modifies counts, ids, wts
    ensures AllHold(counts, ids, wts, m, parts[ex := parts[ex] + [Entry(t, sc)]])
  {
    ghost var n := |parts|;
    SlotsApart(m, n, ex, counts[ex], ex, counts[ex]);
    var idx := Slot(m, ex, counts[ex]);
    ids[idx] := t;
    wts[idx] := sc;
    counts[ex] := counts[ex] + 1;
    ghost var parts' := parts[ex := parts[ex] + [Entry(t, sc)]];
    forall x | 0 <= x < n
      ensures Holds(ids, wts, n, m, x, parts'[x])
    {
      assert old(Holds(ids, wts, n, m, x, parts[x]));
      forall i | 0 <= i < |parts[x]|
        ensures Slot(m, x, i) != idx
      {
        SlotsApart(m, n, x, i, ex, |parts[ex]|);
      }
    }
  }

  /** What the buckets hold after the tokens before t and the first k choices of token t. */
  ghost function Partial(cs: seq<Choice>, nExpert: nat, t: nat, k: nat): seq<seq<Entry>>
    requires t < |cs| && k <= |cs[t].experts|
  {
    seq(nExpert, ex requires 0 <= ex < nExpert => Bucket(cs, ex, t) + Picks(cs[t], t, ex, k))
  }

  ghost function Buckets(cs: seq<Choice>, nExpert: nat, t: nat): seq<seq<Entry>>
    requires t <= |cs|
  {
    seq(nExpert, ex requires 0 <= ex < nExpert => Bucket(cs, ex, t))
  }

  /** The next write stays inside its own region, because a token's experts are distinct. */
  lemma PartialFits(cs: seq<Choice>, nExpert: nat, t: nat, k: nat)
    requires t < |cs| && ValidChoices(cs, nExpert) && k < |cs[t].experts|
    ensures |Partial(cs, nExpert, t, k)[cs[t].experts[k]]| <= t
  {
    var ex := cs[t].experts[k];
    BucketOrdered(cs, nExpert, ex, t);
    PicksAtMostOne(cs[t], t, ex, k);
    assert ex !in cs[t].experts[..k];
  }

  lemma PartialStart(cs: seq<Choice>, nExpert: nat, t: nat)
    requires t < |cs| && ValidChoices(cs, nExpert)
    ensures Partial(cs, nExpert, t, 0) == Buckets(cs, nExpert, t)
  {
    var p, b := Partial(cs, nExpert, t, 0), Buckets(cs, nExpert, t);
    forall x | 0 <= x < nExpert ensures p[x] == b[x] {
      assert p[x] == Bucket(cs, x, t) + [];
    }
  }

  lemma BucketsStart(cs: seq<Choice>, nExpert: nat)
    ensures Buckets(cs, nExpert, 0) == seq(nExpert, _ => [])
  {
  }

  lemma PartialEnd(cs: seq<Choice>, nExpert: nat, t: nat)
    requires t < |cs|
    ensures Partial(cs, nExpert, t, |cs[t].experts|) == Buckets(cs, nExpert, t + 1)
  {
  }

  lemma PartialStep(cs: seq<Choice>, nExpert: nat, t: nat, k: nat)
    requires t < |cs| && ValidChoices(cs, nExpert) && k < |cs[t].experts|
    ensures var p := Partial(cs, nExpert, t, k);
            var ex := cs[t].experts[k];
            Partial(cs, nExpert, t, k + 1) == p[ex := p[ex] + [Entry(t, cs[t].weights[k])]]
  {
    var p, p' := Partial(cs, nExpert, t, k), Partial(cs, nExpert, t, k + 1);
    var ex := cs[t].experts[k];
    forall x | 0 <= x < nExpert
      ensures p'[x] == if x == ex then p[x] + [Entry(t, cs[t].weights[k])] else p[x]
    {
    }
  }

  /** The counting pass of forward_chunk_post_gathered: one region of |cs| slots per expert. */
  method BuildBuckets(cs: seq<Choice>, nExpert: nat)
    returns (counts: array<nat>, ids: array<nat>, wts: array<real>)
    requires ValidChoices(cs, nExpert)
    ensures fresh(counts) && fresh(ids) && fresh(wts)
    ensures counts.Length == nExpert && ids.Length == wts.Length == nExpert * |cs|
    ensures AllHold(counts, ids, wts, |cs|, Buckets(cs, nExpert, |cs|))
  {
    hide Bucket, Picks, Partial, Buckets;
    var m := |cs|;
    counts := new nat[nExpert](_ => 0);
    ids := new nat[nExpert * m](_ => 0);
    wts := new real[nExpert * m](_ => 0.0);
    BucketsStart(cs, nExpert);
    for t := 0 to m
      invariant |Buckets(cs, nExpert, t)| == nExpert
      invariant AllHold(counts, ids, wts, m, Buckets(cs, nExpert, t))
    {
      var c := cs[t];
      PartialStart(cs, nExpert, t);
      for k := 0 to |c.experts|
        invariant |Partial(cs, nExpert, t, k)| == nExpert
        invariant AllHold(counts, ids, wts, m, Partial(cs, nExpert, t, k))
      {
        PartialFits(cs, nExpert, t, k);
        PartialStep(cs, nExpert, t, k);
        Put(counts, ids, wts, m, c.experts[k], t, c.weights[k], Partial(cs, nExpert, t, k));
      }
      PartialEnd(cs, nExpert, t);
    }
  }

  // ----- gather, expert, scatter -----

  /** ds3_metal_gather_rows_f32: row i of dst becomes row ids[first + i] of src. */
  method GatherRows(src: array<Vec>, ids: array<nat>, dst: array<Vec>, count: nat, first: nat)
    requires src != dst && count <= dst.Length && first + count <= ids.Length
    requires forall i :: first <= i < first + count ==> ids[i] < src.Length
    modifies dst
    ensures forall i :: 0 <= i < count ==> dst[i] == src[ids[first + i]]
  {
    for i := 0 to count
      invariant forall j :: 0 <= j < i ==> dst[j] == src[ids[first + j]]
    {
      dst[i] := src[ids[first + i]];
    }
  }

  /** The gate, up and down matmuls of one expert over the gathered rows. */
  method ApplyExpert(net: Net, l: nat, ex: nat, buf: array<Vec>, count: nat)
    requires count <= buf.Length
    modifies buf
    ensures forall i :: 0 <= i < count ==> buf[i] == net.expert(l, ex, old(buf[i]))
  {
    for i := 0 to count
      invariant forall j :: 0 <= j < i ==> buf[j] == net.expert(l, ex, old(buf[j]))
      invariant forall j :: i <= j < buf.Length ==> buf[j] == old(buf[j])
    {
      buf[i] := net.expert(l, ex, buf[i]);
    }
  }

  /** ds3_metal_scatter_add_weighted_f32.  The rows of a bucket go to distinct tokens, so no
      row of dst is added to twice. */
  method ScatterAdd(src: array<Vec>, wts: array<real>, ids: array<nat>, dst: array<Vec>,
                    count: nat, first: nat)
    requires src != dst && count <= src.Length
    requires first + count <= ids.Length && first + count <= wts.Length
    requires forall i :: first <= i < first + count ==> ids[i] < dst.Length
    requires forall i, j :: first <= i < j < first + count ==> ids[i] != ids[j]
    modifies dst
    ensures forall i :: first <= i < first + count ==>
              dst[ids[i]] == Add(old(dst[ids[i]]), Scale(wts[i], src[i - first]))
    ensures forall t :: 0 <= t < dst.Length && (forall i :: first <= i < first + count ==> ids[i] != t) ==>
              dst[t] == old(dst[t])
  {
    for n := first to first + count
      invariant forall i :: first <= i < n ==>
                  dst[ids[i]] == Add(old(dst[ids[i]]), Scale(wts[i], src[i - first]))
      invariant forall t :: 0 <= t < dst.Length && (forall i :: first <= i < n ==> ids[i] != t) ==>
                  dst[t] == old(dst[t])
    {
      ghost var was := dst[..];
      dst[ids[n]] := Add(dst[ids[n]], Scale(wts[n], src[n - first]));
      assert forall t :: 0 <= t < dst.Length && t != ids[n] ==> dst[t] == was[t];
    }
  }

  /** Row t of the routed FFN output while experts below ex are done. */
  ghost function Done(net: Net, l: nat, x: Vec, c: Choice, ex: nat): Vec
  {
    SumBelow(net.ExpertsOf(l, x), c.experts, c.weights, ex)
  }

  /** The routed FFN of one token: the specification both schedules meet. */
  function Routed(net: Net, l: nat, x: Vec, c: Choice): Vec
  {
    WeightedSum(net.ExpertsOf(l, x), c.experts, c.weights)
  }

  /** The row of token t after expert ex contributed with weight w. */
  function Plus(net: Net, l: nat, ex: nat, was: Vec, w: real, x: Vec): Vec {
    Add(was, Scale(w, net.expert(l, ex, x)))
  }

  /** How one expert's bucket b moves row t from Done(ex) to Done(ex + 1). */
  lemma DoneStep(net: Net, l: nat, x: Vec, cs: seq<Choice>, t: nat, ex: nat, was: Vec, now: Vec)
    requires t < |cs| && ValidChoices(cs, net.nExpert)
    requires was == Done(net, l, x, cs[t], ex)
    requires var b := Bucket(cs, ex, |cs|);
             && (forall i :: 0 <= i < |b| && b[i].token == t ==>
                   now == Plus(net, l, ex, was, b[i].weight, x))
             && ((forall i :: 0 <= i < |b| ==> b[i].token != t) ==> now == was)
    ensures now == Done(net, l, x, cs[t], ex + 1)
  {
    var c := cs[t];
    var b := Bucket(cs, ex, |cs|);
    if ex in c.experts {
      var k :| 0 <= k < |c.experts| && c.experts[k] == ex;
      SumBelowStep(net.ExpertsOf(l, x), c.experts, c.weights, ex, k);
      BucketHolds(cs, net.nExpert, ex, |cs|, Entry(t, c.weights[k]));
      assert Chose(c, ex, c.weights[k]);
      var i :| 0 <= i < |b| && b[i] == Entry(t, c.weights[k]);
    } else {
      forall i | 0 <= i < |b| ensures b[i].token != t {
        BucketHolds(cs, net.nExpert, ex, |cs|, b[i]);
      }
      SumBelowSkip(net.ExpertsOf(l, x), c.experts, c.weights, ex);
    }
  }

  /** The slots from `first` on hold b, read the way the kernels read them. */
  ghost predicate HoldsFrom(ids: array<nat>, wts: array<real>, first: nat, b: seq<Entry>)
    reads ids, wts
  {
    && first + |b| <= ids.Length && first + |b| <= wts.Length
    && forall i :: first <= i < first + |b| ==> ids[i] == b[i - first].token && wts[i] == b[i - first].weight
  }

  lemma HoldsAsRange(ids: array<nat>, wts: array<real>, n: nat, m: nat, ex: nat, b: seq<Entry>)
    requires ids.Length == wts.Length == n * m && ex < n
    requires Holds(ids, wts, n, m, ex, b)
    ensures HoldsFrom(ids, wts, ex * m, b)
  {
    if |b| > 0 {
      SlotsApart(m, n, ex, |b| - 1, ex, |b| - 1);
    } else {
      assert ex * m <= n * m;
    }
    forall i | ex * m <= i < ex * m + |b|
      ensures ids[i] == b[i - ex * m].token && wts[i] == b[i - ex * m].weight
    {
      assert i == Slot(m, ex, i - ex * m);
    }
  }

  /** One round of the expert loop over its bucket b: gather, run the expert, scatter-add. */
  method RunBucket(net: Net, l: nat, ex: nat, ghost b: seq<Entry>, count: nat, first: nat, m: nat,
                   ids: array<nat>, wts: array<real>,
                   norm: array<Vec>, scratch: array<Vec>, ffnOut: array<Vec>)
    requires norm != scratch && norm != ffnOut && scratch != ffnOut
    requires m <= norm.Length && m <= scratch.Length && m <= ffnOut.Length
    requires count == |b| <= m && HoldsFrom(ids, wts, first, b)
    requires forall i :: 0 <= i < |b| ==> b[i].token < m
    requires forall i, j :: 0 <= i < j < |b| ==> b[i].token < b[j].token
    modifies scratch, ffnOut
    ensures forall i :: 0 <= i < |b| ==>
              ffnOut[b[i].token] == Plus(net, l, ex, old(ffnOut[b[i].token]), b[i].weight, norm[b[i].token])
    ensures forall t :: 0 <= t < m && (forall i :: 0 <= i < |b| ==> b[i].token != t) ==>
              ffnOut[t] == old(ffnOut[t])
  {
    if count == 0 {
      return;
    }
    GatherRows(norm, ids, scratch, count, first);
    ApplyExpert(net, l, ex, scratch, count);
    assert forall i :: 0 <= i < count ==> scratch[i] == net.expert(l, ex, norm[b[i].token]);
    ScatterAdd(scratch, wts, ids, ffnOut, count, first);
    forall i | 0 <= i < |b|
      ensures ffnOut[b[i].token] == Plus(net, l, ex, old(ffnOut[b[i].token]), b[i].weight, norm[b[i].token])
    {
      assert ids[first + i] == b[i].token;
    }
    forall t | 0 <= t < m && (forall i :: 0 <= i < |b| ==> b[i].token != t)
      ensures ffnOut[t] == old(ffnOut[t])
    {
      assert forall i :: first <= i < first + count ==> ids[i] != t;
    }
  }

  /** A round takes every row from Done(ex) to Done(ex + 1). */
  method ExpertRound(net: Net, l: nat, ex: nat, cs: seq<Choice>, count: nat,
                     ids: array<nat>, wts: array<real>,
                     norm: array<Vec>, scratch: array<Vec>, ffnOut: array<Vec>)
    requires ValidChoices(cs, net.nExpert) && ex < net.nExpert
    requires norm != scratch && norm != ffnOut && scratch != ffnOut
    requires |cs| <= norm.Length && |cs| <= scratch.Length && |cs| <= ffnOut.Length
    requires ids.Length == wts.Length == net.nExpert * |cs|
    requires count == |Bucket(cs, ex, |cs|)| && Holds(ids, wts, net.nExpert, |cs|, ex, Bucket(cs, ex, |cs|))
    requires forall t :: 0 <= t < |cs| ==> ffnOut[t] == Done(net, l, norm[t], cs[t], ex)
    modifies scratch, ffnOut
    ensures forall t :: 0 <= t < |cs| ==> ffnOut[t] == Done(net, l, norm[t], cs[t], ex + 1)
  {
    BucketOrdered(cs, net.nExpert, ex, |cs|);
    HoldsAsRange(ids, wts, net.nExpert, |cs|, ex, Bucket(cs, ex, |cs|));
    RunBucket(net, l, ex, Bucket(cs, ex, |cs|), count, ex * |cs|, |cs|, ids, wts, norm, scratch, ffnOut);
    forall t | 0 <= t < |cs|
      ensures ffnOut[t] == Done(net, l, norm[t], cs[t], ex + 1)
    {
      DoneStep(net, l, norm[t], cs, t, ex, old(ffnOut[t]), ffnOut[t]);
    }
  }

  /** The routed part of forward_chunk_post_gathered: every row of ffnOut ends as the
      per-token sum over that token's own experts. */
  method GatheredExperts(net: Net, l: nat, cs: seq<Choice>,
                         norm: array<Vec>, scratch: array<Vec>, ffnOut: array<Vec>)
    requires ValidChoices(cs, net.nExpert)
    requires norm != scratch && norm != ffnOut && scratch != ffnOut
    requires |cs| <= norm.Length && |cs| <= scratch.Length && |cs| <= ffnOut.Length
    modifies scratch, ffnOut
    ensures forall t :: 0 <= t < |cs| ==> ffnOut[t] == Routed(net, l, norm[t], cs[t])
  {
    for t := 0 to |cs|
      invariant forall i :: 0 <= i < t ==> ffnOut[i] == Zero()
    {
      ffnOut[t] := Zero();
    }
    var counts, ids, wts := BuildBuckets(cs, net.nExpert);
    forall t | 0 <= t < |cs| ensures ffnOut[t] == Done(net, l, norm[t], cs[t], 0) {
      SumBelowNone(net.ExpertsOf(l, norm[t]), cs[t].experts, cs[t].weights);
    }
    for ex := 0 to net.nExpert
      invariant AllHold(counts, ids, wts, |cs|, Buckets(cs, net.nExpert, |cs|))
      invariant forall t :: 0 <= t < |cs| ==> ffnOut[t] == Done(net, l, norm[t], cs[t], ex)
    {
      assert Buckets(cs, net.nExpert, |cs|)[ex] == Bucket(cs, ex, |cs|);
      ExpertRound(net, l, ex, cs, counts[ex], ids, wts, norm, scratch, ffnOut);
    }
    forall t | 0 <= t < |cs| ensures ffnOut[t] == Routed(net, l, norm[t], cs[t]) {
      SumBelowAll(net.ExpertsOf(l, norm[t]), cs[t].experts, cs[t].weights, net.nExpert);
    }
  }

  /** ds3_metal_moe_ffn_experts for one token: the reference accumulation loop. */
  method TokenExperts(net: Net, l: nat, c: Choice, x: Vec) returns (y: Vec)
    ensures y == Routed(net, l, x, c)
  {
    y := Zero();
    for k := 0 to |c.experts|
      invariant y == WeightedSum(net.ExpertsOf(l, x), c.experts[..k], c.weights[..k])
    {
      y := Add(y, Scale(c.weights[k], net.expert(l, c.experts[k], x)));
      assert c.experts[..k+1][..k] == c.experts[..k] && c.weights[..k+1][..k] == c.weights[..k];
    }
    assert c.experts[..|c.experts|] == c.experts && c.weights[..|c.weights|] == c.weights;
  }
}
