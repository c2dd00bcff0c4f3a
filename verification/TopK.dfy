/** The reference top-k selection. */
module TopK {
  const SENTINEL: real := -1000000000000000000000000000000.0

  /** j goes before i in a stable descending sort. */
  predicate Before(scores: seq<real>, j: nat, i: nat)
    requires i < |scores| && j < |scores|
  {
    scores[j] > scores[i] || (scores[j] == scores[i] && j < i)
  }

  /** sorted is the stable descending sort of the indices. */
  ghost predicate IsSort(scores: seq<real>, sorted: seq<nat>) {
    && |sorted| == |scores|
    && (forall i :: 0 <= i < |sorted| ==> sorted[i] < |scores|)
    && forall i, j :: 0 <= i < j < |sorted| ==> Before(scores, sorted[i], sorted[j])
  }

  /** The selection: each place holds the first index, in sort order, that no earlier one has. */
  ghost predicate Selected(scores: seq<real>, picked: seq<nat>) {
    && (forall i :: 0 <= i < |picked| ==> picked[i] < |scores|)
    && (forall i, j :: 0 <= i < j < |picked| ==> Before(scores, picked[i], picked[j]))
    && forall i, j :: 0 <= i < |picked| && 0 <= j < |scores| && j !in picked ==> Before(scores, picked[i], j)
  }

  /** The indices of the scores the search can find. */
  function Above(scores: seq<real>): set<nat> {
    set j: nat | j < |scores| && scores[j] > SENTINEL
  }

  /** ds3_ref_topk, for as many picks as there are scores above the sentinel: after that the
      inner loop finds nothing, and the code marks place -1 (see NothingLeft). */
  method TopK(scores: array<real>, k: nat, indices: array<nat>, values: array<real>)
    requires k <= |Above(scores[..])| && k <= indices.Length && k <= values.Length
    requires values != scores
    modifies indices, values
    ensures Selected(scores[..], indices[..k])
    ensures forall i :: 0 <= i < k ==> indices[i] < scores.Length && values[i] == scores[indices[i]]
    ensures indices[k..] == old(indices[..])[k..] && values[k..] == old(values[..])[k..]
  {
    var n := scores.Length;
    ghost var s := scores[..];
    var used := new bool[n](_ => false);
    for i := 0 to k
      invariant scores[..] == s && fresh(used)
      invariant Selected(s, indices[..i])
      invariant forall j :: 0 <= j < n ==> (used[j] <==> j in indices[..i])
      invariant forall m :: 0 <= m < i ==> indices[m] < n && values[m] == s[indices[m]]
      invariant forall m :: i <= m < indices.Length ==> indices[m] == old(indices[m])
      invariant forall m :: i <= m < values.Length ==> values[m] == old(values[m])
    {
      SomeLeft(indices[..i], Above(s));
      ghost var spare :| spare in Above(s) && spare !in indices[..i];
      assert !used[spare];
      var best, bestIdx := Best(scores, used);
      ghost var was := indices[..i];
      used[bestIdx] := true;
      indices[i] := bestIdx;
      values[i] := best;
      assert indices[..i+1] == was + [bestIdx];
      SelectedOneMore(s, was, bestIdx);
    }
  }

  /** The inner loop: of the unused scores above the sentinel, the index that comes first in sort
      order, and its score; -1 if there is none. */
  method Best(scores: array<real>, used: array<bool>) returns (best: real, bestIdx: int)
    requires used.Length == scores.Length
    ensures -1 <= bestIdx < scores.Length
    ensures bestIdx >= 0 <==> exists j :: 0 <= j < scores.Length && !used[j] && scores[j] > SENTINEL
    ensures bestIdx >= 0 ==> !used[bestIdx] && best == scores[bestIdx]
    ensures bestIdx >= 0 ==>
              forall j :: 0 <= j < scores.Length && !used[j] && j != bestIdx ==> Before(scores[..], bestIdx, j)
  {
    best := SENTINEL;
    bestIdx := -1;
    for j := 0 to scores.Length
      invariant -1 <= bestIdx < j
      invariant bestIdx == -1 ==> best == SENTINEL && forall m :: 0 <= m < j ==> used[m] || scores[m] <= SENTINEL
      invariant bestIdx >= 0 ==> !used[bestIdx] && best == scores[bestIdx] > SENTINEL
      invariant bestIdx >= 0 ==>
                  forall m :: 0 <= m < j && !used[m] && m != bestIdx ==> Before(scores[..], bestIdx, m)
    {
      if !used[j] && scores[j] > best {
        best := scores[j];
        bestIdx := j;
      }
    }
  }

  function SetOf(s: seq<nat>): set<nat> {
    set j | j in s
  }

  function Range(n: nat): set<nat> {
    if n == 0 then {} else Range(n - 1) + {n - 1}
  }

  lemma {:induction false} RangeIs(n: nat)
    ensures |Range(n)| == n && forall j: nat :: j in Range(n) <==> j < n
  {
    if n > 0 {
      RangeIs(n - 1);
    }
  }

  lemma {:induction false} CardAtMost(s: seq<nat>)
    ensures |SetOf(s)| <= |s|
    ensures (forall i, j :: 0 <= i < j < |s| ==> s[i] != s[j]) ==> |SetOf(s)| == |s|
  {
    if s != [] {
      var front, last := s[..|s|-1], s[|s|-1];
      CardAtMost(front);
      assert SetOf(s) == SetOf(front) + {last};
    }
  }

  lemma {:induction false} SubsetCard(a: set<nat>, b: set<nat>)
    requires a <= b
    ensures |a| <= |b|
  {
    if a != {} {
      var x :| x in a;
      SubsetCard(a - {x}, b - {x});
    }
  }

  /** Fewer picks than there are candidates leave a candidate unpicked. */
  lemma SomeLeft(picked: seq<nat>, above: set<nat>)
    requires |picked| < |above|
    ensures exists j :: j in above && j !in picked
  {
    if forall j :: j in above ==> j in picked {
      CardAtMost(picked);
      SubsetCard(above, SetOf(picked));
      assert false;
    }
  }

  /** As many picks as there are scores above the sentinel have taken all of them. */
  lemma NothingLeft(scores: seq<real>, picked: seq<nat>)
    requires Selected(scores, picked) && |picked| >= |Above(scores)|
    ensures forall j :: j in Above(scores) ==> j in picked
  {
    if j :| j in Above(scores) && j !in picked {
      CardAtMost(picked);
      forall p | p in SetOf(picked) ensures p in Above(scores) - {j} {
        var i :| 0 <= i < |picked| && picked[i] == p;
        assert Before(scores, picked[i], j);
      }
      SubsetCard(SetOf(picked), Above(scores) - {j});
      assert false;
    }
  }

  lemma SelectedOneMore(scores: seq<real>, picked: seq<nat>, p: nat)
    requires Selected(scores, picked) && p < |scores| && p !in picked
    requires forall j :: 0 <= j < |scores| && j !in picked && j != p ==> Before(scores, p, j)
    ensures Selected(scores, picked + [p])
  {
  }

  /** A sort of the indices holds every index. */
  lemma SortHasAll(scores: seq<real>, sorted: seq<nat>, p: nat)
    requires IsSort(scores, sorted) && p < |scores|
    ensures p in sorted
  {
    if p !in sorted {
      RangeIs(|scores|);
      CardAtMost(sorted);
      SubsetCard(SetOf(sorted), Range(|scores|) - {p});
      assert false;
    }
  }

  lemma PickedFirst(scores: seq<real>, picked: seq<nat>, i: nat, q: nat)
    requires Selected(scores, picked) && i < |picked| && q < |scores|
    requires q != picked[i] && forall m :: 0 <= m < i ==> picked[m] != q
    ensures Before(scores, picked[i], q)
  {
    if q in picked {
      var m :| 0 <= m < |picked| && picked[m] == q;
    }
  }

  lemma SortedFirst(scores: seq<real>, sorted: seq<nat>, i: nat, p: nat)
    requires IsSort(scores, sorted) && i < |sorted| && p < |scores|
    requires p != sorted[i] && forall m :: 0 <= m < i ==> sorted[m] != p
    ensures Before(scores, sorted[i], p)
  {
    SortHasAll(scores, sorted, p);
    var m :| 0 <= m < |sorted| && sorted[m] == p;
  }

  /** The selection is the front of the stable descending sort: its first k indices. */
  lemma {:induction false} SelectedIsFront(scores: seq<real>, picked: seq<nat>, sorted: seq<nat>, i: nat)
    requires Selected(scores, picked) && IsSort(scores, sorted) && i < |picked| <= |sorted|
    ensures picked[i] == sorted[i]
  {
    forall m | 0 <= m < i
      ensures picked[m] == sorted[m]
    {
      SelectedIsFront(scores, picked, sorted, m);
    }
    if picked[i] != sorted[i] {
      assert forall m :: 0 <= m < i ==> Before(scores, sorted[m], sorted[i]) && Before(scores, picked[m], picked[i]);
      PickedFirst(scores, picked, i, sorted[i]);
      SortedFirst(scores, sorted, i, picked[i]);
    }
  }
}
