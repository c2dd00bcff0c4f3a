/** Encoding a text around its added tokens, and decoding it back. */
module Tokenizer {
  import opened Bytes
  import opened Ints
  import opened Seqs
  import opened Utf8
  import opened Tables
  import opened Bpe
  import opened Scanner
  import opened Vocabulary

  // ----- segments -----

  /** The tokens of a text segment: those of its pieces. */
  ghost function SegmentTokens(w: Words, r: seq<byte>): seq<int>
    decreases |r|
  {
    if r == [] then []
    else PieceTokens(w.Ids(), w.Ranks(), r[..PieceLen(r)]) + SegmentTokens(w, r[PieceLen(r)..])
  }

  lemma {:induction false} SegmentRoundTrip(w: Words, r: seq<byte>)
    requires w.Complete()
    ensures Text(w.strings, SegmentTokens(w, r)) == r && |SegmentTokens(w, r)| <= |r|
    decreases |r|
  {
    if r == [] {
    } else {
      hide PieceLen, PieceTokens, Closed, Text;
      var n := PieceLen(r);
      PieceRoundTrip(w.strings, w.merges, r[..n]);
      SegmentRoundTrip(w, r[n..]);
      TextJoins(w.strings, PieceTokens(w.Ids(), w.Ranks(), r[..n]), SegmentTokens(w, r[n..]));
      Halves(r, n);
    }
  }

  lemma ContentsOf(v: Vocab)
    requires v.Valid()
    ensures var w := v.Contents();
            w.Loaded() && w.added == v.added && w.strings == v.strings && w.Ids() == v.Ids() && w.Ranks() == v.Ranks()
  {
  }

  /** bpe_tokenize_segment: the tokens it appends for text[start..len]. */
  method TokenizeSegment(v: Vocab, text: seq<byte>, start: nat, len: nat) returns (out: seq<int>)
    requires v.Valid() && start <= len <= |text|
    ensures out == SegmentTokens(v.Contents(), text[start..len])
  {
    hide *;
    ghost var w := v.Contents();
    ContentsOf(v);
    SegmentEmpty(w, text, len);
    out := [];
    var pos := start;
    while pos < len
      invariant start <= pos <= len
      invariant SegmentTokens(w, text[start..len]) == out + SegmentTokens(w, text[pos..len])
    {
      var end := NextPiece(text, len, pos);
      SegmentStep(w, text, pos, len);
      var piece := v.EncodePiece(text[pos..end]);
      Assoc(out, piece, SegmentTokens(w, text[end..len]));
      out := out + piece;
      pos := end;
    }
  }

  lemma SegmentEmpty(w: Words, text: seq<byte>, len: nat)
    requires len <= |text|
    ensures SegmentTokens(w, text[len..len]) == []
  {
  }

  lemma SegmentStep(w: Words, text: seq<byte>, pos: nat, len: nat)
    requires pos < len <= |text|
    ensures var end := pos + PieceLen(text[pos..len]);
            SegmentTokens(w, text[pos..len]) ==
            PieceTokens(w.Ids(), w.Ranks(), text[pos..end]) + SegmentTokens(w, text[end..len])
  {
    hide PieceLen, PieceTokens;
    var n := PieceLen(text[pos..len]);
    Rest(text, len, pos, n);
    assert text[pos..len][..n] == text[pos..pos+n];
  }

  // ----- added tokens in the text -----

  predicate Matches(t: Key, r: seq<byte>) {
    |t| > 0 && t <= r
  }

  ghost predicate AnyAdded(added: seq<Added>, r: seq<byte>) {
    exists i :: 0 <= i < |added| && Matches(added[i].text, r)
  }

  /** Added token i matches here; none that matches is longer, and none before i as long. */
  ghost predicate IsLongest(added: seq<Added>, r: seq<byte>, i: int) {
    && 0 <= i < |added| && Matches(added[i].text, r)
    && (forall j :: 0 <= j < |added| && Matches(added[j].text, r) ==> |added[j].text| <= |added[i].text|)
    && (forall j :: 0 <= j < i && Matches(added[j].text, r) ==> |added[j].text| < |added[i].text|)
  }

  lemma {:induction false} LongestExists(added: seq<Added>, r: seq<byte>) returns (i: int)
    requires AnyAdded(added, r)
    ensures IsLongest(added, r, i)
  {
    var front, last := added[..|added|-1], added[|added|-1];
    if AnyAdded(front, r) {
      i := LongestExists(front, r);
      if Matches(last.text, r) && |last.text| > |added[i].text| {
        i := |added| - 1;
      }
    } else {
      i := |added| - 1;
      forall j | 0 <= j < i
        ensures !Matches(added[j].text, r)
      {
        assert front[j] == added[j];
      }
    }
  }

  ghost function Longest(added: seq<Added>, r: seq<byte>): (i: nat)
    requires AnyAdded(added, r)
    ensures IsLongest(added, r, i)
  {
    assert exists i :: IsLongest(added, r, i) by {
      var i := LongestExists(added, r);
    }
    var i :| IsLongest(added, r, i);
    i
  }

  /** The nearest place at which an added token starts, or the end. */
  ghost function NextAdded(added: seq<Added>, r: seq<byte>): (n: nat)
    ensures n <= |r| && (n == 0 <==> r == [] || AnyAdded(added, r))
  {
    if r == [] || AnyAdded(added, r) then 0 else 1 + NextAdded(added, r[1..])
  }

  /** n is where an added token starts first, or the end if none does. */
  ghost predicate IsNext(added: seq<Added>, r: seq<byte>, n: nat) {
    && n <= |r|
    && (forall k :: 0 <= k < n ==> !AnyAdded(added, r[k..]))
    && (n < |r| ==> AnyAdded(added, r[n..]))
  }

  lemma {:induction false} NextAddedIs(added: seq<Added>, r: seq<byte>, n: nat)
    ensures IsNext(added, r, n) <==> NextAdded(added, r) == n
  {
    assert r[0..] == r;
    if r != [] && !AnyAdded(added, r) {
      assert forall k :: 0 < k <= |r| ==> r[k..] == r[1..][k-1..];
      if n > 0 {
        NextAddedIs(added, r[1..], n - 1);
        assert IsNext(added, r, n) <==> IsNext(added, r[1..], n - 1);
      }
    }
  }

  /** The tokens of a text. */
  ghost function Encode(w: Words, r: seq<byte>): seq<int>
    decreases |r|
  {
    if r == [] then []
    else if AnyAdded(w.added, r) then
      var a := w.added[Longest(w.added, r)];
      [a.id] + Encode(w, r[|a.text|..])
    else
      var n := NextAdded(w.added, r);
      SegmentTokens(w, r[..n]) + Encode(w, r[n..])
  }

  // ----- added tokens are tags -----

  /** The loader's added tokens are tags with their ids. */
  lemma AddedAreTags(w: Words)
    requires w.Loaded()
    ensures w.Tagged()
  {
    AddedTextsAreTags();
    hide ADDED_TEXTS, IsTag, Ascii, AddedOf, Numbered;
    forall i | 0 <= i < |w.added|
      ensures IsTag(w.added[i].text) && w.added[i].text in w.Ids() && w.added[i].id == w.Ids()[w.added[i].text]
    {
      var k := AddedOfSound(w.Ids(), ADDED_TEXTS, i);
    }
  }

  /** No tag is a proper prefix of another: the first closing bracket is at its end. */
  lemma TagsPrefixFree(s: Key, t: Key)
    requires IsTag(s) && IsTag(t) && s <= t
    ensures s == t
  {
    assert t[|s|-1] == s[|s|-1];
  }

  lemma TagText(w: Words, t: Key)
    requires IsTag(t) && t in w.Ids()
    ensures TokenText(w.strings, w.Ids()[t]) == t
  {
    NumberedIsLast(w.strings, t);
    CutWhole(t);
    DecPrintable(t);
  }

  // ----- round trip -----

  lemma EncodeAtAdded(w: Words, r: seq<byte>)
    requires AnyAdded(w.added, r)
    ensures var a := w.added[Longest(w.added, r)];
            0 < |a.text| <= |r| && r == a.text + r[|a.text|..] && Encode(w, r) == [a.id] + Encode(w, r[|a.text|..])
  {
    var a := w.added[Longest(w.added, r)];
    assert r[..|a.text|] == a.text;
  }

  lemma EncodeAtText(w: Words, r: seq<byte>)
    requires r != [] && !AnyAdded(w.added, r)
    ensures var n := NextAdded(w.added, r);
            0 < n <= |r| && Encode(w, r) == SegmentTokens(w, r[..n]) + Encode(w, r[n..])
  {
    hide SegmentTokens, AnyAdded, NextAdded, Numbered;
  }

  /** Decoding the tokens of a text gives the text back, and it has no more tokens than bytes. */
  lemma {:induction false} EncodeRoundTrip(w: Words, r: seq<byte>)
    requires w.Tagged() && w.Complete()
    ensures Text(w.strings, Encode(w, r)) == r && |Encode(w, r)| <= |r|
    decreases |r|
  {
    if r == [] {
    } else if AnyAdded(w.added, r) {
      hide *;
      EncodeAtAdded(w, r);
      var a := w.added[Longest(w.added, r)];
      TagAt(w, Longest(w.added, r));
      EncodeRoundTrip(w, r[|a.text|..]);
      TextJoins(w.strings, [a.id], Encode(w, r[|a.text|..]));
    } else {
      hide *;
      EncodeAtText(w, r);
      var n := NextAdded(w.added, r);
      SegmentRoundTrip(w, r[..n]);
      EncodeRoundTrip(w, r[n..]);
      TextJoins(w.strings, SegmentTokens(w, r[..n]), Encode(w, r[n..]));
      Halves(r, n);
    }
  }

  lemma TagAt(w: Words, i: nat)
    requires w.Tagged() && i < |w.added|
    ensures Text(w.strings, [w.added[i].id]) == w.added[i].text
  {
    TagText(w, w.added[i].text);
    OneTokenText(w, w.added[i].id);
  }

  lemma OneTokenText(w: Words, id: int)
    ensures Text(w.strings, [id]) == TokenText(w.strings, id)
  {
    assert [id][..0] == [];
  }

  // ----- distribution over added tokens -----

  /** What follows a tag cannot change which added tokens match before it. */
  lemma MatchesBefore(t: Key, a: seq<byte>, s: Key, b: seq<byte>)
    requires IsTag(t) && IsTag(s) && a != []
    ensures Matches(t, a + s + b) == Matches(t, a)
  {
    var r := a + s + b;
    assert r[|a|] == s[0];
    assert Matches(t, r) ==> forall k :: 0 <= k < |t| ==> t[k] == r[k];
    assert r[..|a|] == a;
    assert |t| <= |a| ==> a[..|t|] == r[..|t|];
  }

  lemma SameMatches(added: seq<Added>, r: seq<byte>, r': seq<byte>)
    requires forall i :: 0 <= i < |added| ==> Matches(added[i].text, r) == Matches(added[i].text, r')
    ensures AnyAdded(added, r) == AnyAdded(added, r')
    ensures AnyAdded(added, r) ==> Longest(added, r) == Longest(added, r')
  {
    hide Matches;
    if AnyAdded(added, r) {
      assert AnyAdded(added, r');
      var i, i' := Longest(added, r), Longest(added, r');
      assert Matches(added[i].text, r') && Matches(added[i'].text, r);
    }
  }

  lemma AddedBefore(added: seq<Added>, a: seq<byte>, s: Key, b: seq<byte>)
    requires AllTags(added) && IsTag(s) && a != []
    ensures AnyAdded(added, a + s + b) == AnyAdded(added, a)
    ensures AnyAdded(added, a) ==> Longest(added, a + s + b) == Longest(added, a)
  {
    hide Matches, IsTag;
    forall i | 0 <= i < |added|
      ensures Matches(added[i].text, a + s + b) == Matches(added[i].text, a)
    {
      MatchesBefore(added[i].text, a, s, b);
    }
    SameMatches(added, a + s + b, a);
  }

  /** Where an added token starts, that token is the match, whatever follows. */
  lemma LongestIsIt(added: seq<Added>, i: nat, b: seq<byte>)
    requires AllTags(added) && i < |added|
    ensures AnyAdded(added, added[i].text + b)
    ensures added[Longest(added, added[i].text + b)].text == added[i].text
  {
    var s := added[i].text;
    assert Matches(s, s + b);
    var t := added[Longest(added, s + b)].text;
    assert s == (s + b)[..|s|] && t == (s + b)[..|t|];
    assert s <= t;
    TagsPrefixFree(s, t);
  }

  /** The next added token of a + s + b is that of a, or s itself if a has none. */
  lemma {:induction false} NextBefore(added: seq<Added>, a: seq<byte>, i: nat, b: seq<byte>)
    requires AllTags(added) && i < |added|
    ensures NextAdded(added, a + added[i].text + b) == NextAdded(added, a)
  {
    var s := added[i].text;
    if a == [] {
      LongestIsIt(added, i, b);
      assert [] + s + b == s + b;
    } else {
      AddedBefore(added, a, s, b);
      NextBefore(added, a[1..], i, b);
      hide AnyAdded;
      CutInside(a, s, b, 1);
    }
  }

  /** The text encode(a + s + b) is to be split over. */
  ghost predicate Distributes(w: Words, a: seq<byte>, i: nat, b: seq<byte>)
    requires i < |w.added|
  {
    Encode(w, a + w.added[i].text + b) == Encode(w, a) + [w.added[i].id] + Encode(w, b)
  }

  lemma DistributesAtOnce(w: Words, i: nat, b: seq<byte>)
    requires w.Tagged() && i < |w.added|
    ensures Distributes(w, [], i, b)
  {
    hide Encode, AnyAdded, Longest, IsTag, Matches, Numbered;
    EncodeEmpty(w);
    var added, s := w.added, w.added[i].text;
    LongestIsIt(added, i, b);
    EncodeAtAdded(w, s + b);
    SameAdded(w, i, Longest(added, s + b));
    assert (s + b)[|s|..] == b && [] + s + b == s + b;
  }

  lemma SameAdded(w: Words, i: nat, j: nat)
    requires w.Tagged() && i < |w.added| && j < |w.added| && w.added[i].text == w.added[j].text
    ensures w.added[i].id == w.added[j].id
  {
  }

  lemma CutInside(a: seq<byte>, s: Key, b: seq<byte>, n: nat)
    requires n <= |a|
    ensures (a + s + b)[..n] == a[..n] && (a + s + b)[n..] == a[n..] + s + b
  {
  }

  lemma DistributesPastAdded(w: Words, a: seq<byte>, i: nat, b: seq<byte>)
    requires w.Tagged() && i < |w.added| && a != [] && AnyAdded(w.added, a)
    requires |w.added[Longest(w.added, a)].text| <= |a|
    requires Distributes(w, a[|w.added[Longest(w.added, a)].text|..], i, b)
    ensures Distributes(w, a, i, b)
  {
    var s, t := w.added[i].text, w.added[Longest(w.added, a)];
    hide Encode, AnyAdded, Longest, IsTag, Matches, Numbered;
    var r := a + s + b;
    AddedBefore(w.added, a, s, b);
    EncodeAtAdded(w, a);
    EncodeAtAdded(w, r);
    CutInside(a, s, b, |t.text|);
    Assoc3([t.id], Encode(w, a[|t.text|..]), [w.added[i].id], Encode(w, b));
  }

  lemma DistributesPastText(w: Words, a: seq<byte>, i: nat, b: seq<byte>)
    requires w.Tagged() && i < |w.added| && a != [] && !AnyAdded(w.added, a)
    requires Distributes(w, a[NextAdded(w.added, a)..], i, b)
    ensures Distributes(w, a, i, b)
  {
    var s, n := w.added[i].text, NextAdded(w.added, a);
    hide Encode, AnyAdded, NextAdded, IsTag, Matches, SegmentTokens, Numbered;
    var r := a + s + b;
    AddedBefore(w.added, a, s, b);
    NextBefore(w.added, a, i, b);
    EncodeAtText(w, a);
    EncodeAtText(w, r);
    CutInside(a, s, b, n);
    Assoc3(SegmentTokens(w, a[..n]), Encode(w, a[n..]), [w.added[i].id], Encode(w, b));
  }

  /** Encoding distributes over added tokens: encode(a + s + b) is encode(a), the id of s,
      and encode(b). */
  lemma {:induction false} EncodeDistributes(w: Words, a: seq<byte>, i: nat, b: seq<byte>)
    requires w.Tagged() && i < |w.added|
    ensures Encode(w, a + w.added[i].text + b) == Encode(w, a) + [w.added[i].id] + Encode(w, b)
    decreases |a|
  {
    hide Encode, Longest, NextAdded;
    if a == [] {
      DistributesAtOnce(w, i, b);
    } else if AnyAdded(w.added, a) {
      EncodeAtAdded(w, a);
      EncodeDistributes(w, a[|w.added[Longest(w.added, a)].text|..], i, b);
      DistributesPastAdded(w, a, i, b);
    } else {
      EncodeAtText(w, a);
      EncodeDistributes(w, a[NextAdded(w.added, a)..], i, b);
      DistributesPastText(w, a, i, b);
    }
  }

  lemma Assoc3<T>(a: seq<T>, b: seq<T>, c: seq<T>, d: seq<T>)
    ensures a + (b + c + d) == (a + b) + c + d
  {
  }

  // ----- the public calls -----

  /** The longest added token at pos (the first loop of ds3_vocab_encode); -1 if none. */
  method FindLongest(added: seq<Added>, text: seq<byte>, pos: nat) returns (best: int)
    requires pos <= |text|
    ensures best == if AnyAdded(added, text[pos..]) then Longest(added, text[pos..]) else -1
    ensures best < |added|
  {
    ghost var r := text[pos..];
    best := -1;
    var bestLen := 0;
    for i := 0 to |added|
      invariant best < 0 ==> bestLen == 0 && forall j :: 0 <= j < i ==> !Matches(added[j].text, r)
      invariant best >= 0 ==>
                  && best < i && Matches(added[best].text, r) && bestLen == |added[best].text|
                  && (forall j :: 0 <= j < i && Matches(added[j].text, r) ==> |added[j].text| <= bestLen)
                  && (forall j :: 0 <= j < best && Matches(added[j].text, r) ==> |added[j].text| < bestLen)
    {
      var len := |added[i].text|;
      assert pos + len <= |text| ==> text[pos..pos+len] == r[..len];
      if len > 0 && pos + len <= |text| && text[pos..pos+len] == added[i].text {
        if len > bestLen {
          bestLen := len;
          best := i;
        }
      }
    }
    if best >= 0 {
      LongestIsUnique(added, r, best);
    }
  }

  lemma LongestIsUnique(added: seq<Added>, r: seq<byte>, i: int)
    requires IsLongest(added, r, i)
    ensures AnyAdded(added, r) && Longest(added, r) == i
  {
  }

  /** strstr: the first place in r at which t starts. */
  function FirstPlace(t: Key, r: seq<byte>): (k: int)
    ensures -1 <= k <= |r|
    ensures k >= 0 ==> t <= r[k..] && forall i :: 0 <= i < k ==> !(t <= r[i..])
    ensures k < 0 ==> forall i :: 0 <= i <= |r| ==> !(t <= r[i..])
  {
    if t <= r then (assert r[0..] == r; 0)
    else if r == [] then -1
    else
      assert forall i :: 0 < i <= |r| ==> r[i..] == r[1..][i-1..];
      assert r[0..] == r;
      var k := FirstPlace(t, r[1..]);
      if k < 0 then -1 else k + 1
  }

  /** Token t starts nowhere in the first n places of r. */
  ghost predicate ClearUntil(t: Key, r: seq<byte>, n: nat)
    requires n <= |r|
  {
    forall k :: 0 <= k < n ==> !Matches(t, r[k..])
  }

  lemma FirstPlaceClears(t: Key, r: seq<byte>)
    requires t != []
    ensures var k := FirstPlace(t, r);
            && ClearUntil(t, r, if k < 0 then |r| else k)
            && (k >= 0 ==> k < |r| && Matches(t, r[k..]))
  {
  }

  lemma NextAddedFound(added: seq<Added>, r: seq<byte>, n: nat)
    requires n <= |r| && forall j :: 0 <= j < |added| ==> ClearUntil(added[j].text, r, n)
    requires n < |r| ==> AnyAdded(added, r[n..])
    ensures NextAdded(added, r) == n
  {
    hide Matches;
    NextAddedIs(added, r, n);
  }

  /** The nearest added token from pos on (the second loop); the end if there is none. */
  method FindNext(added: seq<Added>, text: seq<byte>, pos: nat) returns (next: nat)
    requires pos <= |text| && forall i :: 0 <= i < |added| ==> added[i].text != []
    ensures next == pos + NextAdded(added, text[pos..])
  {
    hide FirstPlace, Matches;
    ghost var r := text[pos..];
    next := |text|;
    for i := 0 to |added|
      invariant pos <= next <= |text|
      invariant forall j :: 0 <= j < i ==> ClearUntil(added[j].text, r, next - pos)
      invariant next < |text| ==> AnyAdded(added, r[next-pos..])
    {
      var found := FirstPlace(added[i].text, text[pos..]);
      FirstPlaceClears(added[i].text, r);
      if found >= 0 {
        if pos + found < next {
          next := pos + found;
        }
      }
    }
    NextAddedFound(added, r, next - pos);
  }

  lemma EncodeStepAdded(w: Words, text: seq<byte>, pos: nat)
    requires pos < |text| && AnyAdded(w.added, text[pos..])
    ensures var a := w.added[Longest(w.added, text[pos..])];
            && 0 < |a.text| && pos + |a.text| <= |text|
            && Encode(w, text[pos..]) == [a.id] + Encode(w, text[pos+|a.text|..])
  {
    hide *;
    EncodeAtAdded(w, text[pos..]);
    var i := LongestAt(w.added, text[pos..]);
    var a := w.added[i];
    Suffix(text, pos, |a.text|);
  }

  /** The longest match, named so that its range is known. */
  lemma LongestAt(added: seq<Added>, r: seq<byte>) returns (i: nat)
    requires AnyAdded(added, r)
    ensures i < |added| && i == Longest(added, r)
  {
    i := Longest(added, r);
  }

  lemma EncodeStepText(w: Words, text: seq<byte>, pos: nat, next: nat)
    requires pos < |text| && !AnyAdded(w.added, text[pos..])
    requires next == pos + NextAdded(w.added, text[pos..])
    ensures pos < next <= |text|
    ensures Encode(w, text[pos..]) == SegmentTokens(w, text[pos..next]) + Encode(w, text[next..])
  {
    hide *;
    var r := text[pos..];
    EncodeAtText(w, r);
    Suffix(text, pos, next - pos);
  }

  /** One turn of the encoding loop: the tokens appended, and where it goes on. */
  method EncodeNext(v: Vocab, text: seq<byte>, pos: nat) returns (out: seq<int>, next: nat)
    requires v.Valid() && pos < |text|
    ensures pos < next <= |text|
    ensures var w := v.Contents();
            Encode(w, text[pos..]) == out + Encode(w, text[next..])
  {
    hide *;
    ghost var w := v.Contents();
    ContentsOf(v);
    LoadedNonempty(w);
    var best := FindLongest(v.added, text, pos);
    if best >= 0 {
      EncodeStepAdded(w, text, pos);
      return [v.added[best].id], pos + |v.added[best].text|;
    }
    next := FindNext(v.added, text, pos);
    EncodeStepText(w, text, pos, next);
    out := TokenizeSegment(v, text, pos, next);
  }

  /** The encoding loop of ds3_vocab_encode. */
  method EncodeAll(v: Vocab, text: seq<byte>) returns (out: seq<int>)
    requires v.Valid()
    ensures out == Encode(v.Contents(), text)
  {
    hide *;
    ghost var w := v.Contents();
    EncodeEmpty(w);
    out := [];
    var pos := 0;
    assert text[0..] == text;
    while pos < |text|
      invariant pos <= |text|
      invariant Encode(w, text) == out + Encode(w, text[pos..])
    {
      var some, next := EncodeNext(v, text, pos);
      Assoc(out, some, Encode(w, text[next..]));
      out := out + some;
      pos := next;
    }
    assert text[pos..] == [];
  }

  lemma EncodeEmpty(w: Words)
    ensures Encode(w, []) == []
  {
  }

  lemma LoadedNonempty(w: Words)
    requires w.Loaded()
    ensures forall i :: 0 <= i < |w.added| ==> w.added[i].text != []
  {
    AddedAreTags(w);
  }

  /** ds3_vocab_encode: at most maxTokens tokens of a C string, and how many. */
  method VocabEncode(v: Vocab, text: seq<byte>, tokens: array<int>, maxTokens: int) returns (n: int)
    requires v.Valid() && 0 !in text && maxTokens <= tokens.Length
    modifies tokens
    ensures var all := Encode(v.Contents(), text);
            && n == (if maxTokens <= 0 then -1 else if |all| < maxTokens then |all| else maxTokens)
            && (n >= 0 ==> tokens[..n] == all[..n] && tokens[n..] == old(tokens[..])[n..])
            && (n < 0 ==> tokens[..] == old(tokens[..]))
  {
    if maxTokens <= 0 {
      return -1;
    }
    var out := EncodeAll(v, text);
    hide *;
    n := if |out| < maxTokens then |out| else maxTokens;
    CopyTokens(tokens, out, n);
  }

  method CopyTokens(tokens: array<int>, out: seq<int>, n: nat)
    requires n <= |out| && n <= tokens.Length
    modifies tokens
    ensures tokens[..n] == out[..n] && tokens[n..] == old(tokens[..])[n..]
  {
    for i := 0 to n
      invariant forall j :: 0 <= j < i ==> tokens[j] == out[j]
      invariant forall j :: i <= j < tokens.Length ==> tokens[j] == old(tokens[j])
    {
      tokens[i] := out[i];
    }
  }

  /** ds3_vocab_decode_sequence: as much of the text as fits before the closing zero. */
  method DecodeSequence(v: Vocab, tokens: seq<int>, buf: array<byte>, bufSize: nat) returns (n: int)
    requires v.Valid() && bufSize <= buf.Length && buf != v.cpToByte
    modifies buf
    ensures n < 0 <==> tokens == [] || bufSize == 0
    ensures n < 0 ==> n == -1 && buf[..] == old(buf[..])
    ensures n >= 0 ==> var all := Text(v.strings, tokens);
              && n == Min(|all|, bufSize - 1) && buf[..n] == all[..n] && buf[n] == 0
  {
    hide Text, TokenText, Vocab.Valid;
    if tokens == [] || bufSize == 0 {
      return -1;
    }
    var written: nat := 0;
    buf[0] := 0;
    TextNone(v.strings, tokens);
    for i := 0 to |tokens|
      invariant v.Valid() && written < bufSize
      invariant Filled(buf, written, Text(v.strings, tokens[..i]))
    {
      TextNext(v.strings, tokens, i);
      var decoded := DecodeToken(v, tokens[i]);
      var remain := bufSize - written;
      if |decoded| >= remain {
        if remain > 1 {
          CopyIn(buf, written, decoded[..remain-1], Text(v.strings, tokens[..i]));
          written := written + (remain - 1);
        }
        buf[written] := 0;
        TextCut(v.strings, tokens, i, decoded, bufSize - 1);
        return written;
      }
      CopyIn(buf, written, decoded, Text(v.strings, tokens[..i]));
      written := written + |decoded|;
    }
    return written;
  }

  /** buf holds s and a closing zero. */
  ghost predicate Filled(buf: array<byte>, written: nat, s: seq<byte>)
    reads buf
  {
    written < buf.Length && buf[..written] == s && buf[written] == 0
  }

  /** The bytes of one token; none if there is no such token. */
  method DecodeToken(v: Vocab, id: int) returns (bytes: seq<byte>)
    requires v.Valid()
    ensures bytes == TokenText(v.strings, id)
  {
    if 0 <= id < |v.token| {
      bytes := ByteDecode(v.cpToByte, v.token[id]);
    } else {
      bytes := [];
    }
  }

  /** Copy bytes behind what buf holds, and close it. */
  method CopyIn(buf: array<byte>, at: nat, bytes: seq<byte>, ghost s: seq<byte>)
    requires at + |bytes| < buf.Length && buf[..at] == s
    modifies buf
    ensures Filled(buf, at + |bytes|, s + bytes)
  {
    for i := 0 to |bytes|
      invariant forall j :: 0 <= j < at ==> buf[j] == s[j]
      invariant forall j :: 0 <= j < i ==> buf[at+j] == bytes[j]
    {
      buf[at+i] := bytes[i];
    }
    buf[at+|bytes|] := 0;
    assert buf[..at+|bytes|] == s + bytes;
  }

  lemma TextNone(strings: seq<Key>, tokens: seq<int>)
    ensures tokens[..|tokens|] == tokens && Text(strings, tokens[..0]) == []
  {
  }

  /** When token i no longer fits, what is written is the front of the whole text. */
  lemma TextCut(strings: seq<Key>, tokens: seq<int>, i: nat, more: seq<byte>, n: nat)
    requires i < |tokens| && more == TokenText(strings, tokens[i])
    requires |Text(strings, tokens[..i])| <= n < |Text(strings, tokens[..i])| + |more|
    ensures n < |Text(strings, tokens)|
    ensures Text(strings, tokens[..i]) + more[..n-|Text(strings, tokens[..i])|] == Text(strings, tokens)[..n]
  {
    hide Text, TokenText;
    TextNext(strings, tokens, i);
    TextGrows(strings, tokens, i + 1);
    var front, all := Text(strings, tokens[..i]), Text(strings, tokens);
    assert forall k :: 0 <= k < n ==> all[k] == (front + more)[k];
  }

  lemma TextNext(strings: seq<Key>, tokens: seq<int>, i: nat)
    requires i < |tokens|
    ensures Text(strings, tokens[..i+1]) == Text(strings, tokens[..i]) + TokenText(strings, tokens[i])
  {
    assert tokens[..i+1][..i] == tokens[..i];
  }

  lemma TextGrows(strings: seq<Key>, tokens: seq<int>, i: nat)
    requires i <= |tokens|
    ensures Text(strings, tokens[..i]) <= Text(strings, tokens)
  {
    assert tokens == tokens[..i] + tokens[i..];
    TextJoins(strings, tokens[..i], tokens[i..]);
  }

  /** Encoding a C string and decoding the tokens gives it back, given room for one token a
      byte and for the closing zero.  The empty text is the exception: it has no tokens, and
      decoding none is an error. */
  method EncodeThenDecode(v: Vocab, text: seq<byte>, tokens: array<int>, buf: array<byte>) returns (n: int)
    requires v.Valid() && v.Contents().Complete() && 0 !in text
    requires |text| <= tokens.Length && 0 < tokens.Length && |text| < buf.Length
    requires buf != v.cpToByte && tokens as object != v.byteToCp && tokens as object != v.cpToByte
    modifies tokens, buf
    ensures n < 0 <==> text == []
    ensures text != [] ==> n == |text| && buf[..n] == text && buf[n] == 0
  {
    hide *;
    ghost var w := v.Contents();
    ContentsOf(v);
    AddedAreTags(w);
    EncodeRoundTrip(w, text);
    var count := VocabEncode(v, text, tokens, tokens.Length);
    TokensOfText(w, text);
    n := DecodeSequence(v, tokens[..count], buf, buf.Length);
  }

  lemma TokensOfText(w: Words, text: seq<byte>)
    requires w.Tagged() && w.Complete()
    ensures Encode(w, text)[..|Encode(w, text)|] == Encode(w, text)
    ensures Encode(w, text) == [] <==> text == []
    ensures forall room: nat :: |text| <= room ==> Min(|text|, room) == |text|
  {
    EncodeRoundTrip(w, text);
  }
}
