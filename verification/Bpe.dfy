/** Byte-pair encoding of one piece of text. */
module Bpe {
  import opened Bytes
  import opened Seqs
  import opened Utf8
  import opened Tables

  const SPACE: byte := 0x20
  const INT32_MAX := 0x7fff_ffff

  // ----- merge ranks -----

  /** The key a merge is stored under. */
  function Joint(a: Key, b: Key): Key {
    a + [SPACE] + b
  }

  predicate Spaceless(s: Key) {
    SPACE !in s
  }

  /** Two different pairs of space-free symbols never share a key. */
  lemma JointIsUnambiguous(a: Key, b: Key, c: Key, d: Key)
    requires Spaceless(a) && Spaceless(c)
    requires Joint(a, b) == Joint(c, d)
    ensures a == c && b == d
  {
    var s := Joint(a, b);
    assert s[|a|] == SPACE && s[|c|] == SPACE;
    assert forall i :: 0 <= i < |a| ==> s[i] == a[i];
    assert forall i :: 0 <= i < |c| ==> s[i] == c[i];
    assert a == s[..|a|] && c == s[..|c|];
    assert b == s[|a|+1..] && d == s[|c|+1..];
  }

  function Rank(ranks: map<Key, int>, a: Key, b: Key): int {
    if Joint(a, b) in ranks then ranks[Joint(a, b)] else -1
  }

  /** The pair at i and i + 1 can be merged. */
  predicate Mergeable(ranks: map<Key, int>, syms: seq<Key>, i: int) {
    0 <= i && i + 1 < |syms| && Rank(ranks, syms[i], syms[i+1]) >= 0
  }

  /** The pair at i goes before the pair at j: lower rank, or further left on equal rank. */
  predicate Before(ranks: map<Key, int>, syms: seq<Key>, i: int, j: int)
    requires Mergeable(ranks, syms, i) && Mergeable(ranks, syms, j)
  {
    var ri, rj := Rank(ranks, syms[i], syms[i+1]), Rank(ranks, syms[j], syms[j+1]);
    ri < rj || (ri == rj && i <= j)
  }

  /** Of the pairs starting before n, the one at i is merged next. */
  ghost predicate IsBest(ranks: map<Key, int>, syms: seq<Key>, n: int, i: int) {
    && i < n && Mergeable(ranks, syms, i)
    && forall j :: j < n && Mergeable(ranks, syms, j) ==> Before(ranks, syms, i, j)
  }

  lemma {:induction false} BestExists(ranks: map<Key, int>, syms: seq<Key>, n: nat) returns (i: int)
    requires exists j :: j < n && Mergeable(ranks, syms, j)
    ensures IsBest(ranks, syms, n, i)
    decreases n
  {
    hide Rank;
    if exists j :: j < n - 1 && Mergeable(ranks, syms, j) {
      i := BestExists(ranks, syms, n - 1);
      if Mergeable(ranks, syms, n - 1) && !Before(ranks, syms, i, n - 1) {
        i := n - 1;
      }
    } else {
      i := n - 1;
    }
  }

  function Merge(syms: seq<Key>, i: nat): (r: seq<Key>)
    requires i + 1 < |syms|
    ensures |r| == |syms| - 1
  {
    syms[..i] + [syms[i] + syms[i+1]] + syms[i+2..]
  }

  ghost predicate Stuck(ranks: map<Key, int>, syms: seq<Key>) {
    forall i :: !Mergeable(ranks, syms, i)
  }

  ghost function BestOf(ranks: map<Key, int>, syms: seq<Key>): (i: nat)
    requires !Stuck(ranks, syms)
    ensures IsBest(ranks, syms, |syms|, i)
  {
    assert exists i :: IsBest(ranks, syms, |syms|, i) by {
      var i := BestExists(ranks, syms, |syms|);
    }
    var i :| IsBest(ranks, syms, |syms|, i);
    i
  }

  lemma BestIsUnique(ranks: map<Key, int>, syms: seq<Key>, i: int)
    requires IsBest(ranks, syms, |syms|, i)
    ensures !Stuck(ranks, syms) && BestOf(ranks, syms) == i
  {
    assert Mergeable(ranks, syms, i);
    assert Mergeable(ranks, syms, BestOf(ranks, syms));
  }

  /** Merge the best pair until no pair can be merged. */
  ghost function MergeAll(ranks: map<Key, int>, syms: seq<Key>): seq<Key>
    decreases |syms|
  {
    if Stuck(ranks, syms) then syms else MergeAll(ranks, Merge(syms, BestOf(ranks, syms)))
  }

  lemma MergeAllStep(ranks: map<Key, int>, syms: seq<Key>, i: int)
    requires IsBest(ranks, syms, |syms|, i)
    ensures 0 <= i && i + 1 < |syms| && MergeAll(ranks, syms) == MergeAll(ranks, Merge(syms, i))
  {
    BestIsUnique(ranks, syms, i);
  }

  lemma MergeAllStuck(ranks: map<Key, int>, syms: seq<Key>)
    requires Stuck(ranks, syms)
    ensures MergeAll(ranks, syms) == syms
  {
  }

  /** Merging stops only when no adjacent pair can be merged. */
  lemma {:induction false} MergeAllEnds(ranks: map<Key, int>, syms: seq<Key>)
    ensures Stuck(ranks, MergeAll(ranks, syms))
    ensures |MergeAll(ranks, syms)| <= |syms|
    decreases |syms|
  {
    if !Stuck(ranks, syms) {
      MergeAllEnds(ranks, Merge(syms, BestOf(ranks, syms)));
    }
  }

  // ----- what merging keeps -----

  function Concat(syms: seq<Key>): Key {
    if syms == [] then [] else syms[0] + Concat(syms[1..])
  }

  lemma {:induction false} ConcatJoins(a: seq<Key>, b: seq<Key>)
    ensures Concat(a + b) == Concat(a) + Concat(b)
  {
    if a == [] {
      assert a + b == b;
    } else {
      ConcatJoins(a[1..], b);
      assert (a + b)[1..] == a[1..] + b;
      Assoc(a[0], Concat(a[1..]), Concat(b));
    }
  }

  lemma MergeKeepsConcat(syms: seq<Key>, i: nat)
    requires i + 1 < |syms|
    ensures Concat(Merge(syms, i)) == Concat(syms)
  {
    hide Concat;
    ConcatPair(syms[i], syms[i+1]);
    var front, back := syms[..i], syms[i+2..];
    SplitAtPair(syms, i);
    Assoc(front, [syms[i] + syms[i+1]], back);
    hide Merge;
    ConcatThree(front, [syms[i], syms[i+1]], back);
    ConcatThree(front, [syms[i] + syms[i+1]], back);
  }

  lemma SplitAtPair(syms: seq<Key>, i: nat)
    requires i + 1 < |syms|
    ensures syms == syms[..i] + ([syms[i], syms[i+1]] + syms[i+2..])
  {
  }

  lemma ConcatThree(a: seq<Key>, b: seq<Key>, c: seq<Key>)
    ensures Concat(a + (b + c)) == Concat(a) + (Concat(b) + Concat(c))
  {
    ConcatJoins(a, b + c);
    ConcatJoins(b, c);
  }

  lemma ConcatPair(a: Key, b: Key)
    ensures Concat([a, b]) == Concat([a + b]) == a + b
  {
    ConcatOne(b);
    ConcatOne(a + b);
    assert [a, b][1..] == [b];
  }

  lemma ConcatOne(a: Key)
    ensures Concat([a]) == a
  {
    assert a + Concat([]) == a;
  }

  /** Merging never changes the text the symbols spell. */
  lemma {:induction false} MergeAllKeepsConcat(ranks: map<Key, int>, syms: seq<Key>)
    ensures Concat(MergeAll(ranks, syms)) == Concat(syms)
    decreases |syms|
  {
    if !Stuck(ranks, syms) {
      MergeKeepsConcat(syms, BestOf(ranks, syms));
      MergeAllKeepsConcat(ranks, Merge(syms, BestOf(ranks, syms)));
    }
  }

  /** s is the encoding of at least one raw byte. */
  ghost predicate Encoded(s: Key) {
    s != [] && Enc(Dec(s)) == s
  }

  lemma EncodedJoins(a: Key, b: Key)
    requires Encoded(a) && Encoded(b)
    ensures Encoded(a + b) && Dec(a + b) == Dec(a) + Dec(b)
  {
    EncJoins(Dec(a), Dec(b));
    DecEnc(Dec(a) + Dec(b));
  }

  lemma EncodedSpaceless(s: Key)
    requires Encoded(s)
    ensures Spaceless(s)
  {
    EncHasNoSpace(Dec(s));
  }

  lemma SymEncoded(b: byte)
    ensures Encoded(Sym(b)) && Dec(Sym(b)) == [b]
  {
    DecEnc([b]);
    assert Enc([b]) == Sym(b);
  }

  /** The vocabulary has every byte symbol, and every symbol its merges can build. */
  ghost predicate Closed(ids: map<Key, int>, ranks: map<Key, int>) {
    && (forall b: byte :: Sym(b) in ids)
    && forall a, b :: a in ids && b in ids && Spaceless(a) && Spaceless(b) && Rank(ranks, a, b) >= 0 ==> a + b in ids
  }

  lemma ClosedAt(ids: map<Key, int>, ranks: map<Key, int>, a: Key, b: Key)
    requires Spaceless(a) && Spaceless(b) && Rank(ranks, a, b) >= 0
    ensures Closed(ids, ranks) && a in ids && b in ids ==> a + b in ids
  {
  }

  ghost predicate AllEncoded(syms: seq<Key>) {
    forall i :: 0 <= i < |syms| ==> Encoded(syms[i])
  }

  ghost predicate AllKnown(ids: map<Key, int>, syms: seq<Key>) {
    forall i :: 0 <= i < |syms| ==> syms[i] in ids
  }

  /** Merging encoded symbols gives encoded symbols; in a closed vocabulary, known ones. */
  lemma {:induction false} MergeAllKeepsSymbols(ids: map<Key, int>, ranks: map<Key, int>, syms: seq<Key>)
    requires AllEncoded(syms)
    ensures AllEncoded(MergeAll(ranks, syms))
    ensures Closed(ids, ranks) && AllKnown(ids, syms) ==> AllKnown(ids, MergeAll(ranks, syms))
    decreases |syms|
  {
    hide Encoded, Spaceless, Rank, Closed;
    if !Stuck(ranks, syms) {
      var i := BestOf(ranks, syms);
      EncodedJoins(syms[i], syms[i+1]);
      EncodedSpaceless(syms[i]);
      EncodedSpaceless(syms[i+1]);
      assert Rank(ranks, syms[i], syms[i+1]) >= 0;
      ClosedAt(ids, ranks, syms[i], syms[i+1]);
      MergeAllKeepsSymbols(ids, ranks, Merge(syms, i));
    }
  }

  // ----- one piece -----

  function Symbols(raw: seq<byte>): (syms: seq<Key>)
    ensures |syms| == |raw|
  {
    seq(|raw|, i requires 0 <= i < |raw| => Sym(raw[i]))
  }

  /** The tokens of one symbol: its own, or those of its single bytes if it has none. */
  function SymbolTokens(ids: map<Key, int>, s: Key): seq<int> {
    if s in ids then [ids[s]] else ByteTokens(ids, s)
  }

  function ByteTokens(ids: map<Key, int>, s: Key): seq<int> {
    if s == [] then []
    else ByteTokens(ids, s[..|s|-1]) + (if [s[|s|-1]] in ids then [ids[[s[|s|-1]]]] else [])
  }

  function TokensOf(ids: map<Key, int>, syms: seq<Key>): seq<int> {
    if syms == [] then [] else TokensOf(ids, syms[..|syms|-1]) + SymbolTokens(ids, syms[|syms|-1])
  }

  ghost function PieceTokens(ids: map<Key, int>, ranks: map<Key, int>, raw: seq<byte>): seq<int> {
    TokensOf(ids, MergeAll(ranks, Symbols(raw)))
  }

  lemma PieceTokensIs(ids: map<Key, int>, ranks: map<Key, int>, raw: seq<byte>)
    ensures PieceTokens(ids, ranks, raw) == TokensOf(ids, MergeAll(ranks, Symbols(raw)))
  {
  }

  /** The string a token stands for; strings are stored cut at their first zero byte. */
  function Cut(s: Key): Key {
    if s == [] || s[0] == 0 then [] else [s[0]] + Cut(s[1..])
  }

  lemma {:induction false} CutWhole(s: Key)
    requires 0 !in s
    ensures Cut(s) == s
  {
    if s != [] {
      CutWhole(s[1..]);
    }
  }

  function CutAll(strings: seq<Key>): (cut: seq<Key>)
    ensures |cut| == |strings|
  {
    seq(|strings|, i requires 0 <= i < |strings| => Cut(strings[i]))
  }

  function TokenText(strings: seq<Key>, id: int): seq<byte> {
    if 0 <= id < |strings| then Dec(Cut(strings[id])) else []
  }

  function Text(strings: seq<Key>, tokens: seq<int>): seq<byte> {
    if tokens == [] then [] else Text(strings, tokens[..|tokens|-1]) + TokenText(strings, tokens[|tokens|-1])
  }

  lemma {:induction false} TextJoins(strings: seq<Key>, a: seq<int>, b: seq<int>)
    ensures Text(strings, a + b) == Text(strings, a) + Text(strings, b)
  {
    if b == [] {
      assert a + b == a;
    } else {
      hide TokenText;
      TextJoins(strings, a, b[..|b|-1]);
      assert (a + b)[..|a + b|-1] == a + b[..|b|-1];
      Assoc(Text(strings, a), Text(strings, b[..|b|-1]), TokenText(strings, b[|b|-1]));
    }
  }

  /** A known encoded symbol has one token, which spells it. */
  lemma SymbolRoundTrip(strings: seq<Key>, s: Key)
    requires Encoded(s) && s in Numbered(strings)
    ensures |SymbolTokens(Numbered(strings), s)| == 1
    ensures TokenText(strings, SymbolTokens(Numbered(strings), s)[0]) == Dec(s)
  {
    NumberedIsLast(strings, s);
    EncHasNoSpace(Dec(s));
    CutWhole(s);
  }

  lemma {:induction false} TokensCount(strings: seq<Key>, syms: seq<Key>)
    requires AllKnown(Numbered(strings), syms)
    ensures |TokensOf(Numbered(strings), syms)| == |syms|
  {
    if syms != [] {
      TokensCount(strings, syms[..|syms|-1]);
    }
  }

  lemma {:induction false} TokensRoundTrip(strings: seq<Key>, syms: seq<Key>)
    requires AllEncoded(syms) && AllKnown(Numbered(strings), syms)
    ensures Text(strings, TokensOf(Numbered(strings), syms)) == Dec(Concat(syms))
  {
    if syms == [] {
    } else {
      hide Text, TokensOf, Dec, Concat, SymbolTokens, TokenText, Encoded, Numbered;
      TokensRoundTrip(strings, syms[..|syms|-1]);
      SymbolRoundTrip(strings, syms[|syms|-1]);
      OneMoreSymbol(strings, syms);
    }
  }

  lemma OneMoreSymbol(strings: seq<Key>, syms: seq<Key>)
    requires AllEncoded(syms) && syms != []
    requires |SymbolTokens(Numbered(strings), syms[|syms|-1])| == 1
    requires TokenText(strings, SymbolTokens(Numbered(strings), syms[|syms|-1])[0]) == Dec(syms[|syms|-1])
    requires Text(strings, TokensOf(Numbered(strings), syms[..|syms|-1])) == Dec(Concat(syms[..|syms|-1]))
    ensures Text(strings, TokensOf(Numbered(strings), syms)) == Dec(Concat(syms))
  {
    TokensLast(Numbered(strings), syms);
    ConcatLast(syms);
    hide *;
    TextSnoc(strings, TokensOf(Numbered(strings), syms[..|syms|-1]), SymbolTokens(Numbered(strings), syms[|syms|-1]));
  }

  lemma TokensLast(ids: map<Key, int>, syms: seq<Key>)
    requires syms != []
    ensures TokensOf(ids, syms) == TokensOf(ids, syms[..|syms|-1]) + SymbolTokens(ids, syms[|syms|-1])
  {
  }

  lemma FrontEncoded(syms: seq<Key>)
    requires AllEncoded(syms) && syms != []
    ensures AllEncoded(syms[..|syms|-1]) && Encoded(syms[|syms|-1])
  {
    hide Encoded;
  }

  lemma ConcatLast(syms: seq<Key>)
    requires AllEncoded(syms) && syms != []
    ensures Dec(Concat(syms)) == Dec(Concat(syms[..|syms|-1])) + Dec(syms[|syms|-1])
  {
    var front, last := syms[..|syms|-1], syms[|syms|-1];
    FrontEncoded(syms);
    hide Concat, Dec, Encoded, AllEncoded;
    Snoc(syms);
    ConcatSnoc(front, last);
  }

  lemma TextSnoc(strings: seq<Key>, ts: seq<int>, t: seq<int>)
    requires |t| == 1
    ensures Text(strings, ts + t) == Text(strings, ts) + TokenText(strings, t[0])
  {
    assert (ts + t)[..|ts|] == ts;
  }

  lemma ConcatSnoc(front: seq<Key>, last: Key)
    requires AllEncoded(front) && Encoded(last)
    ensures Dec(Concat(front + [last])) == Dec(Concat(front)) + Dec(last)
  {
    ConcatEncoded(front);
    DecEncThen(Dec(Concat(front)), last);
    ConcatJoins(front, [last]);
    ConcatOne(last);
  }

  lemma {:induction false} ConcatEncoded(syms: seq<Key>)
    requires AllEncoded(syms)
    ensures Enc(Dec(Concat(syms))) == Concat(syms)
  {
    if syms != [] {
      ConcatEncoded(syms[1..]);
      if syms[1..] != [] {
        EncodedJoins(syms[0], Concat(syms[1..]));
      } else {
        assert syms[0] + Concat(syms[1..]) == syms[0];
      }
    }
  }

  lemma {:induction false} ConcatSymbols(raw: seq<byte>)
    ensures Concat(Symbols(raw)) == Enc(raw)
    ensures AllEncoded(Symbols(raw))
  {
    forall i | 0 <= i < |raw|
      ensures Encoded(Symbols(raw)[i])
    {
      SymEncoded(raw[i]);
    }
    if raw == [] {
    } else {
      hide Encoded, Sym;
      ConcatSymbols(raw[1..]);
      assert Symbols(raw)[1..] == Symbols(raw[1..]);
    }
  }

  /** Decoding the tokens of a piece gives the piece back; it has no more tokens than bytes. */
  lemma PieceRoundTrip(strings: seq<Key>, merges: seq<Key>, raw: seq<byte>)
    requires Closed(Numbered(strings), Numbered(merges))
    ensures Text(strings, PieceTokens(Numbered(strings), Numbered(merges), raw)) == raw
    ensures |PieceTokens(Numbered(strings), Numbered(merges), raw)| <= |raw|
  {
    var ids, ranks := Numbered(strings), Numbered(merges);
    assert AllKnown(ids, Symbols(raw));
    hide *;
    ConcatSymbols(raw);
    MergeAllKeepsSymbols(ids, ranks, Symbols(raw));
    MergeAllKeepsConcat(ranks, Symbols(raw));
    MergeAllEnds(ranks, Symbols(raw));
    TokensCount(strings, MergeAll(ranks, Symbols(raw)));
    TokensRoundTrip(strings, MergeAll(ranks, Symbols(raw)));
    DecEnc(raw);
    PieceTokensIs(ids, ranks, raw);
  }
}
