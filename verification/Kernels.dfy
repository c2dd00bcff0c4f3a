/** The arithmetic the engine schedules, as values: hidden vectors, the kernels of one
    transformer layer, and the record of kernels that stands for a loaded model.

    The kernels themselves are not interpreted.  What the scheduling proofs need from
    them is only that each row of a batch is computed from that row alone, and that
    attention at a position reads the cache rows up to that position; both are visible
    in the signatures below. */
module Kernels {
  import opened Schedule

  /** Hidden size of the 30B model (DS3_N_EMBD). */
  const N_EMBD: nat := 2048

  type Vec = v: seq<real> | |v| == N_EMBD witness seq(N_EMBD, _ => 0.0)

  /** A projected vector (query, key, value or attention output). */
  datatype Proj = Proj(elems: seq<real>)

  function Zero(): Vec {
    seq(N_EMBD, _ => 0.0)
  }

  function Add(a: Vec, b: Vec): Vec {
    seq(N_EMBD, i requires 0 <= i < N_EMBD => a[i] + b[i])
  }

  function Scale(s: real, a: Vec): Vec {
    seq(N_EMBD, i requires 0 <= i < N_EMBD => s * a[i])
  }

  lemma AddSwap(a: Vec, b: Vec, c: Vec)
    ensures Add(Add(a, b), c) == Add(Add(a, c), b)
  {
    assert forall i | 0 <= i < N_EMBD :: Add(Add(a, b), c)[i] == Add(Add(a, c), b)[i];
  }

  /** The experts chosen for one token, with their normalised weights. */
  datatype RawChoice = Choice(experts: seq<nat>, weights: seq<real>)

  type Choice = c: RawChoice | |c.experts| == |c.weights| witness Choice([], [])

  predicate Distinct(s: seq<nat>) {
    forall i, j :: 0 <= i < j < |s| ==> s[i] != s[j]
  }

  predicate ValidChoice(c: Choice, nExpert: nat) {
    && Distinct(c.experts)
    && forall k :: 0 <= k < |c.experts| ==> c.experts[k] < nExpert
  }

  /** A loaded model: its sizes and the kernels applied to its weights.
      The first argument of a per-layer kernel is the layer. */
  datatype Net = Net(
    nLayer: nat,
    nExpert: nat,
    nVocab: nat,
    stop: int -> bool,                             // is_stop_token
    embed: int -> Vec,                             // dequantised embedding row
    attnNorm: (nat, Vec) -> Vec,
    wq: (nat, Vec) -> Proj,
    wk: (nat, Vec) -> Proj,
    wv: (nat, Vec) -> Proj,
    qNorm: (nat, Proj) -> Proj,
    kNorm: (nat, Proj) -> Proj,
    storeK: (nat, Proj) -> Row,                    // position: RoPE, then FP16
    storeV: Proj -> Row,
    attend: (nat, Proj, seq<Row>, seq<Row>) -> Proj, // position, query, rows 0..position
    wo: (nat, Proj) -> Vec,
    ffnNorm: (nat, Vec) -> Vec,
    router: (nat, Vec) -> seq<real>,
    topk: seq<real> -> Choice,                     // softmax, top-k, normalisation
    expert: (nat, nat, Vec) -> Vec,                // layer, expert: the SwiGLU block
    outNorm: Vec -> Vec,
    outProj: Vec -> seq<real>)
  {
    /** What the code takes for granted of its kernels. */
    ghost predicate Valid() {
      && nLayer > 0
      && nVocab > 0
      && (forall logits :: ValidChoice(topk(logits), nExpert))
      && (forall x :: |outProj(x)| == nVocab)
    }

    /** The experts of layer l applied to x, as a function of the expert number. */
    function ExpertsOf(l: nat, x: Vec): nat -> Vec {
      ex => expert(l, ex, x)
    }
  }
}
