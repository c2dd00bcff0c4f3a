/** The in-memory provider: one session's tokens and the host image last written for them.
    It keeps the layer-major image as it came and serves a prefix as a slice of raw bytes
    from the front, counting a fixed number of bytes per token. */
module KvLocal {
  import opened Schedule
  import opened HostLayout

  /** How many rows c tokens take: per_token_kv_bytes, counted in rows. */
  function RowsOf(layers: nat, c: nat): nat {
    c * 2 * layers
  }

  lemma RowsFacts(layers: nat, a: nat, b: nat)
    requires a <= b
    ensures RowsOf(layers, a) <= RowsOf(layers, b) && RowsOf(layers, 0) == 0
    ensures layers > 0 && a > 0 ==> a < RowsOf(layers, a)
    ensures RowsOf(layers, a) == 2 * layers * a
  {
    var m := 2 * layers;
    assert Times(a, m) <= Times(b, m);
    if layers > 0 && a > 0 {
      assert Times(a, m) >= a + a;
    }
  }

  function Times(a: nat, m: nat): nat {
    a * m
  }

  /** The slice local_read copies: rows from the front of the stored image. */
  function Slice(stored: seq<Row>, layers: nat, start: nat, c: nat): seq<Row>
    requires RowsOf(layers, start) <= RowsOf(layers, start + c) <= |stored|
  {
    stored[RowsOf(layers, start)..RowsOf(layers, start + c)]
  }

  class LocalSession {
    var tokens: seq<int>
    var data: seq<Row>
    const layers: nat
    const capacityTokens: nat
    const capacityRows: nat

    ghost predicate Valid()
      reads this
    {
      |tokens| <= capacityTokens && |data| == RowsOf(layers, |tokens|)
    }

    constructor (layers: nat, capacityTokens: nat, capacityRows: nat)
      ensures Valid() && tokens == [] && this.layers == layers
      ensures this.capacityTokens == capacityTokens && this.capacityRows == capacityRows
    {
      this.layers, this.capacityTokens, this.capacityRows := layers, capacityTokens, capacityRows;
      tokens, data := [], [];
    }

    /** local_lookup: the length of the longest common prefix. */
    method Lookup(toks: seq<int>) returns (len: nat)
      ensures len <= |toks| && len <= |tokens| && toks[..len] == tokens[..len]
      ensures len < |toks| && len < |tokens| ==> toks[len] != tokens[len]
    {
      len := 0;
      while len < |toks| && len < |tokens| && toks[len] == tokens[len]
        invariant 0 <= len <= |toks| && len <= |tokens| && toks[..len] == tokens[..len]
      {
        len := len + 1;
      }
    }

    /** local_read. */
    method Read(start: nat, n: nat) returns (rc: int, rows: seq<Row>)
      requires Valid()
      ensures rc == 0 || rc == -1
      ensures rc == 0 <==> start + n <= |tokens|
      ensures rc == 0 ==>
                RowsOf(layers, start) <= RowsOf(layers, start + n) <= |data| && rows == Slice(data, layers, start, n)
    {
      if start + n > |tokens| {
        return -1, [];
      }
      RowsFacts(layers, start, start + n);
      RowsFacts(layers, start + n, |tokens|);
      rows := data[RowsOf(layers, start)..RowsOf(layers, start + n)];
      rc := 0;
    }

    /** local_write: the whole sequence replaces the last one. */
    method Write(toks: seq<int>, image: seq<Row>) returns (rc: int)
      requires Valid() && |image| == RowsOf(layers, |toks|)
      modifies this
      ensures Valid()
      ensures rc == 0 <==> |toks| <= capacityTokens && |image| <= capacityRows
      ensures if rc == 0 then tokens == toks && data == image else unchanged(this)
    {
      if |toks| > capacityTokens || |image| > capacityRows {
        return -1;
      }
      tokens, data := toks, image;
      rc := 0;
    }
  }

  ghost predicate Serves(cache: Cache, layers: nat, c: nat) {
    && RowsOf(layers, 0) <= RowsOf(layers, c) <= |LayerMajor(cache)|
    && Slice(LayerMajor(cache), layers, 0, c) == LayerMajor(PrefixOf(cache, c))
  }

  lemma ImageSize(cache: Cache, layers: nat, n: nat)
    requires CacheOf(cache, layers, n) && layers > 0
    ensures |LayerMajor(cache)| == RowsOf(layers, n)
  {
    LayerMajorLength(cache, n);
  }

  lemma ServesEnds(cache: Cache, layers: nat, n: nat, c: nat)
    requires CacheOf(cache, layers, n) && layers > 0 && (c == 0 || c == n)
    ensures Serves(cache, layers, c)
  {
    hide RowsOf, LayerMajor;
    ImageSize(cache, layers, n);
    ImageSize(PrefixOf(cache, c), layers, c);
    RowsFacts(layers, c, n);
    WholePrefix(cache, layers, n);
  }

  /** A cache of n tokens in which K rows and V rows differ. */
  function Telling(layers: nat, n: nat): Cache {
    seq(layers, _ => LayerKv(seq(n, _ => [0]), seq(n, _ => [1])))
  }

  /** At place c the image of the whole has a K row, that of the prefix a V row. */
  lemma TellingRows(layers: nat, n: nat, c: nat)
    requires layers > 0 && 0 < c < n
    ensures var cache := Telling(layers, n);
            && CacheOf(cache, layers, n) && CacheOf(PrefixOf(cache, c), layers, c)
            && |LayerMajor(cache)| > c && LayerMajor(cache)[c] == [0]
            && |LayerMajor(PrefixOf(cache, c))| > c && LayerMajor(PrefixOf(cache, c))[c] == [1]
  {
    var cache := Telling(layers, n);
    hide LayerMajor;
    LayerMajorCell(cache, n, 0, c);
    LayerMajorCell(PrefixOf(cache, c), c, 0, 0);
    assert HostIndex(n, 0, 0, c) == c == HostIndex(c, 0, 1, 0);
  }

  lemma CutFails(layers: nat, n: nat, c: nat)
    requires layers > 0 && 0 < c < n
    ensures CacheOf(Telling(layers, n), layers, n) && !Serves(Telling(layers, n), layers, c)
  {
    var cache := Telling(layers, n);
    TellingRows(layers, n, c);
    hide RowsOf, LayerMajor, Telling, PrefixOf;
    ImageSize(cache, layers, n);
    RowsFacts(layers, c, n);
    assert Slice(LayerMajor(cache), layers, 0, c)[c] == [0];
  }

  /** The slice served for c of n stored tokens is the prefix's own layer-major image for
      every cache exactly when nothing or everything is read. */
  lemma SliceServesPrefix(layers: nat, n: nat, c: nat)
    requires layers > 0 && c <= n
    ensures (forall cache :: CacheOf(cache, layers, n) ==> Serves(cache, layers, c)) <==> c == 0 || c == n
  {
    if c == 0 || c == n {
      forall cache | CacheOf(cache, layers, n) ensures Serves(cache, layers, c) {
        ServesEnds(cache, layers, n, c);
      }
    } else {
      CutFails(layers, n, c);
    }
  }
}
