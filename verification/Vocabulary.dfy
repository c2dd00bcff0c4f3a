/** The loaded vocabulary and the loops that encode one piece with it. */
module Vocabulary {
  import opened Bytes
  import opened Ints
  import opened Utf8
  import opened Tables
  import opened Bpe

  /** An added token: its text, and its id in the vocabulary. */
  datatype Added = Added(text: Key, id: int)

  /** What the model file holds, token strings and merges in order, and the added tokens. */
  datatype Words = Words(strings: seq<Key>, merges: seq<Key>, added: seq<Added>) {
    ghost function Ids(): map<Key, int> { Numbered(strings) }

    ghost function Ranks(): map<Key, int> { Numbered(merges) }

    /** The added tokens are those the loader finds. */
    ghost predicate Loaded() { added == AddedOf(Ids(), ADDED_TEXTS) }

    /** Added tokens are tags, with their ids. */
    ghost predicate Tagged() {
      && AllTags(added)
      && forall i :: 0 <= i < |added| ==> added[i].text in Ids() && added[i].id == Ids()[added[i].text]
    }

    /** Every byte symbol is a token, and so is all that merging can build. */
    ghost predicate Complete() { Closed(Ids(), Ranks()) }
  }

  class Vocab {
    ghost const strings: seq<Key>
    ghost const merges: seq<Key>
    const token: seq<Key>
    const added: seq<Added>
    const tokenToId: Table
    const mergeRank: Table
    const byteToCp: array<nat>
    const cpToByte: array<byte>

    ghost predicate Valid()
      reads tokenToId, tokenToId.entry, mergeRank, mergeRank.entry, byteToCp, cpToByte
    {
      && tokenToId.Valid() && tokenToId.contents == Numbered(strings)
      && mergeRank.Valid() && mergeRank.contents == Numbered(merges) && |merges| < INT32_MAX
      && token == CutAll(strings)
      && CpTable(byteToCp) && ByteTable(cpToByte)
      && Contents().Loaded()
    }

    ghost function Contents(): Words {
      Words(strings, merges, added)
    }

    ghost function Ids(): map<Key, int> {
      Numbered(strings)
    }

    ghost function Ranks(): map<Key, int> {
      Numbered(merges)
    }

    /** ds3_vocab_load, from the token and merge strings of the model file. */
    constructor (tokens: seq<Key>, merges: seq<Key>, hash: Key -> nat)
      requires |tokens| * 2 + 16 <= TWO31 && |merges| * 2 + 16 <= TWO31
      ensures Valid() && strings == tokens && this.merges == merges
    {
      hide CpTable, ByteTable, CutAll, Numbered, AddedOf, Table.Valid, ADDED_TEXTS;
      var ids := Load(tokens, hash);
      var ranks := Load(merges, hash);
      var toCp := new nat[256](_ => 0);
      var toByte := new byte[512](_ => 0);
      InitByteTables(toCp, toByte);
      var known := FindAdded(ids);
      strings := tokens;
      this.merges := merges;
      token := CutAll(tokens);
      added := known;
      tokenToId := ids;
      mergeRank := ranks;
      byteToCp := toCp;
      cpToByte := toByte;
    }

    /** bpe_rank: look the pair up under its space-joined key. */
    method BpeRank(a: Key, b: Key) returns (rank: int)
      requires Valid()
      ensures rank == Rank(Ranks(), a, b) && -1 <= rank < INT32_MAX
    {
      var r := mergeRank.Get(a + [SPACE] + b);
      NumberedIsLast(merges, Joint(a, b));
      rank := if r.Found? then r.value else -1;
    }

    /** The scan for the pair to merge next among the first n symbols; -1 if there is none. */
    method BestPair(sym: array<Key>, n: nat) returns (best: int)
      requires Valid() && n <= sym.Length
      ensures best < 0 <==> Stuck(Ranks(), sym[..n])
      ensures best >= 0 ==> IsBest(Ranks(), sym[..n], n, best)
    {
      hide Valid, Rank;
      ghost var syms := sym[..n];
      best := -1;
      var bestRank := INT32_MAX;
      var i := 0;
      while i + 1 < n
        invariant 0 <= i
        invariant best < 0 ==> bestRank == INT32_MAX && forall j :: j < i ==> !Mergeable(Ranks(), syms, j)
        invariant best >= 0 ==> IsBest(Ranks(), syms, i, best) && bestRank == Rank(Ranks(), syms[best], syms[best+1])
      {
        var rank := BpeRank(sym[i], sym[i+1]);
        if rank >= 0 && rank < bestRank {
          bestRank := rank;
          best := i;
        }
        i := i + 1;
      }
    }

    /** Merge the pair at best in place: join it, and move the symbols behind it one down. */
    method MergeAt(sym: array<Key>, n: nat, best: nat)
      requires best + 1 < n <= sym.Length
      modifies sym
      ensures sym[..n-1] == Merge(old(sym[..n]), best)
    {
      sym[best] := sym[best] + sym[best+1];
      var j := best + 1;
      while j + 1 < n
        invariant best + 1 <= j < n
        invariant forall k :: 0 <= k < best ==> sym[k] == old(sym[k])
        invariant sym[best] == old(sym[best] + sym[best+1])
        invariant forall k :: best < k < j ==> sym[k] == old(sym[k+1])
        invariant forall k :: j <= k < n ==> sym[k] == old(sym[k])
      {
        sym[j] := sym[j+1];
        j := j + 1;
      }
      ShiftedIsMerge(old(sym[..n]), sym[..n-1], best);
    }

    /** The merge loop. */
    method MergeLoop(sym: array<Key>, n: nat) returns (left: nat)
      requires Valid() && n <= sym.Length
      modifies sym
      ensures Valid() && left <= n && sym[..left] == MergeAll(Ranks(), old(sym[..n]))
    {
      hide *;
      left := n;
      while true
        invariant Valid() && left <= n
        invariant MergeAll(Ranks(), sym[..left]) == MergeAll(Ranks(), old(sym[..n]))
        decreases left
      {
        var best := BestPair(sym, left);
        if best < 0 {
          MergeAllStuck(Ranks(), sym[..left]);
          break;
        }
        MergeAllStep(Ranks(), sym[..left], best);
        MergeAt(sym, left, best);
        left := left - 1;
      }
    }

    /** The tokens of one symbol, falling back to its bytes. */
    method Emit(s: Key) returns (out: seq<int>)
      requires Valid()
      ensures out == SymbolTokens(Ids(), s)
    {
      var r := tokenToId.Get(s);
      if r.Found? {
        return [r.value];
      }
      out := [];
      for j := 0 to |s|
        invariant out == ByteTokens(Ids(), s[..j])
      {
        var b := tokenToId.Get([s[j]]);
        assert s[..j+1][..j] == s[..j];
        if b.Found? {
          out := out + [b.value];
        }
      }
      assert s[..|s|] == s;
    }

    /** Split encoded text into its characters. */
    method Split(raw: seq<byte>, encoded: Key) returns (sym: array<Key>, n: nat)
      requires encoded == Enc(raw)
      ensures fresh(sym) && n <= sym.Length && sym[..n] == Symbols(raw)
    {
      sym := new Key[|encoded|](_ => []);
      n := 0;
      EncLength(raw);
      var off := 0;
      assert raw[0..] == raw;
      hide *;
      while off < |encoded|
        invariant off <= |encoded| && n <= |raw| && encoded[off..] == Enc(raw[n..])
        invariant |raw| <= |encoded| == sym.Length
        invariant forall i :: 0 <= i < n ==> sym[i] == Sym(raw[i])
      {
        SplitStep(raw, encoded, off, n);
        var len := CharLen(encoded[off..]);
        sym[n] := encoded[off..off+len];
        n := n + 1;
        off := off + len;
      }
      SplitEnd(raw, n, sym[..n]);
    }

    /** bpe_encode_piece: the tokens it appends. */
    method EncodePiece(raw: seq<byte>) returns (out: seq<int>)
      requires Valid()
      ensures out == PieceTokens(Ids(), Ranks(), raw)
    {
      var encoded := ByteEncode(byteToCp, raw);
      hide Symbols, MergeAll, TokensOf, Enc, Valid;
      var sym, n := Split(raw, encoded);
      n := MergeLoop(sym, n);
      out := EmitAll(sym, n);
    }

    /** The lookup loop behind the merge loop. */
    method EmitAll(sym: array<Key>, n: nat) returns (out: seq<int>)
      requires Valid() && n <= sym.Length
      ensures out == TokensOf(Ids(), sym[..n])
    {
      hide Valid, SymbolTokens;
      ghost var syms := sym[..n];
      out := [];
      for i := 0 to n
        invariant out == TokensOf(Ids(), syms[..i])
      {
        var t := Emit(sym[i]);
        assert syms[..i+1][..i] == syms[..i];
        out := out + t;
      }
      assert syms[..n] == syms;
    }
  }

  lemma ShiftedIsMerge(before: seq<Key>, after: seq<Key>, best: nat)
    requires best + 1 < |before| && |after| == |before| - 1
    requires forall k :: 0 <= k < best ==> after[k] == before[k]
    requires after[best] == before[best] + before[best+1]
    requires forall k :: best < k < |after| ==> after[k] == before[k+1]
    ensures after == Merge(before, best)
  {
  }

  /** Encoded text starts with the symbol of its first byte. */
  lemma SplitStep(raw: seq<byte>, encoded: Key, off: nat, n: nat)
    requires off < |encoded| && n <= |raw| && encoded[off..] == Enc(raw[n..])
    ensures n < |raw|
    ensures var len := CharLen(encoded[off..]);
            && encoded[off..off+len] == Sym(raw[n])
            && encoded[off+len..] == Enc(raw[n+1..])
  {
    hide CharLen, Sym;
    var rest := encoded[off..];
    assert raw[n..][1..] == raw[n+1..];
    SymLen(raw[n], Enc(raw[n+1..]));
    var len := CharLen(rest);
    assert rest == Sym(raw[n]) + Enc(raw[n+1..]);
    assert encoded[off..off+len] == rest[..len] && encoded[off+len..] == rest[len..];
  }

  lemma SymLen(b: byte, rest: Key)
    ensures CharLen(Sym(b) + rest) == |Sym(b)|
  {
    PutThenRead(CpOf(b), rest);
  }

  lemma SplitEnd(raw: seq<byte>, n: nat, syms: seq<Key>)
    requires n <= |raw| && Enc(raw[n..]) == [] && |syms| == n
    requires forall i :: 0 <= i < n ==> syms[i] == Sym(raw[i])
    ensures syms == Symbols(raw)
  {
    EncLength(raw[n..]);
  }

  // ----- added tokens -----

  const END_TEXTS: seq<string> := ["<|endoftext|>"]
  const CHAT_TEXTS: seq<string> := ["<|im_start|>", "<|im_end|>"]
  const OBJECT_TEXTS: seq<string> := ["<|object_ref_start|>", "<|object_ref_end|>"]
  const BOX_TEXTS: seq<string> := ["<|box_start|>", "<|box_end|>"]
  const QUAD_TEXTS: seq<string> := ["<|quad_start|>", "<|quad_end|>"]
  const VISION_TEXTS: seq<string> := ["<|vision_start|>", "<|vision_end|>"]
  const PAD_TEXTS: seq<string> := ["<|vision_pad|>", "<|image_pad|>", "<|video_pad|>"]
  const CALL_TEXTS: seq<string> := ["<tool_call>", "</tool_call>"]
  const FIM_TEXTS: seq<string> := ["<|fim_prefix|>", "<|fim_middle|>"]
  const FIM_END_TEXTS: seq<string> := ["<|fim_suffix|>", "<|fim_pad|>"]
  const FILE_TEXTS: seq<string> := ["<|repo_name|>", "<|file_sep|>"]
  const REPLY_TEXTS: seq<string> := ["<tool_response>", "</tool_response>"]
  const THINK_TEXTS: seq<string> := ["<think>", "</think>"]

  /** The texts the loader looks for, in its order (ds3_vocab_load). */
  const ADDED_TEXTS: seq<string> :=
    END_TEXTS + CHAT_TEXTS + OBJECT_TEXTS + BOX_TEXTS + QUAD_TEXTS + VISION_TEXTS + PAD_TEXTS
    + CALL_TEXTS + FIM_TEXTS + FIM_END_TEXTS + FILE_TEXTS + REPLY_TEXTS + THINK_TEXTS

  function Ascii(s: string): (bytes: Key)
    ensures |bytes| == |s|
  {
    seq(|s|, i requires 0 <= i < |s| => s[i] as int % 256)
  }

  /** The added tokens a vocabulary knows, in the loader's order. */
  function AddedOf(ids: map<Key, int>, texts: seq<string>): seq<Added> {
    if texts == [] then []
    else
      var text := Ascii(texts[|texts|-1]);
      AddedOf(ids, texts[..|texts|-1]) + (if text in ids then [Added(text, ids[text])] else [])
  }

  method FindAdded(ids: Table) returns (added: seq<Added>)
    requires ids.Valid()
    ensures added == AddedOf(ids.contents, ADDED_TEXTS)
  {
    hide ADDED_TEXTS;
    added := [];
    for i := 0 to |ADDED_TEXTS|
      invariant added == AddedOf(ids.contents, ADDED_TEXTS[..i])
    {
      var text := Ascii(ADDED_TEXTS[i]);
      var r := ids.Get(text);
      assert ADDED_TEXTS[..i+1][..i] == ADDED_TEXTS[..i];
      if r.Found? {
        added := added + [Added(text, r.value)];
      }
    }
    assert ADDED_TEXTS[..|ADDED_TEXTS|] == ADDED_TEXTS;
  }

  /** A tag: an angle bracket at each end and printable text without brackets between. */
  predicate IsTag(s: Key) {
    && |s| >= 2 && s[0] == 0x3c && s[|s|-1] == 0x3e
    && forall i :: 0 < i < |s| - 1 ==> 33 <= s[i] <= 126 && s[i] != 0x3c && s[i] != 0x3e
  }

  ghost predicate AllTags(added: seq<Added>) {
    forall i :: 0 <= i < |added| ==> IsTag(added[i].text)
  }

  /** A tag, as the loader's text writes it. */
  predicate Bracketed(s: string) {
    && |s| >= 2 && s[0] == '<' && s[|s|-1] == '>'
    && forall i :: 0 < i < |s| - 1 ==> '!' <= s[i] <= '~' && s[i] != '<' && s[i] != '>'
  }

  ghost predicate AllBracketed(texts: seq<string>) {
    forall s :: s in texts ==> Bracketed(s)
  }

  lemma BracketedIsTag(s: string)
    requires Bracketed(s)
    ensures IsTag(Ascii(s))
  {
  }

  lemma EndBracketed()
    ensures |END_TEXTS| == 1 && AllBracketed(END_TEXTS)
  {
  }

  lemma ChatBracketed()
    ensures |CHAT_TEXTS| == 2 && AllBracketed(CHAT_TEXTS)
  {
  }

  lemma ObjectBracketed()
    ensures |OBJECT_TEXTS| == 2 && AllBracketed(OBJECT_TEXTS)
  {
  }

  lemma BoxBracketed()
    ensures |BOX_TEXTS| == 2 && AllBracketed(BOX_TEXTS)
  {
  }

  lemma QuadBracketed()
    ensures |QUAD_TEXTS| == 2 && AllBracketed(QUAD_TEXTS)
  {
  }

  lemma VisionBracketed()
    ensures |VISION_TEXTS| == 2 && AllBracketed(VISION_TEXTS)
  {
  }

  lemma PadBracketed()
    ensures |PAD_TEXTS| == 3 && AllBracketed(PAD_TEXTS)
  {
  }

  lemma CallBracketed()
    ensures |CALL_TEXTS| == 2 && AllBracketed(CALL_TEXTS)
  {
  }

  lemma FimBracketed()
    ensures |FIM_TEXTS| == 2 && AllBracketed(FIM_TEXTS)
  {
  }

  lemma FimEndBracketed()
    ensures |FIM_END_TEXTS| == 2 && AllBracketed(FIM_END_TEXTS)
  {
  }

  lemma FileBracketed()
    ensures |FILE_TEXTS| == 2 && AllBracketed(FILE_TEXTS)
  {
  }

  lemma ReplyBracketed()
    ensures |REPLY_TEXTS| == 2 && AllBracketed(REPLY_TEXTS)
  {
  }

  lemma ThinkBracketed()
    ensures |THINK_TEXTS| == 2 && AllBracketed(THINK_TEXTS)
  {
  }

  /** Every text the loader looks for is a tag. */
  lemma AddedTextsAreTags()
    ensures |ADDED_TEXTS| == 26 && forall i :: 0 <= i < |ADDED_TEXTS| ==> IsTag(Ascii(ADDED_TEXTS[i]))
  {
    hide IsTag, Ascii, Bracketed, END_TEXTS, CHAT_TEXTS, OBJECT_TEXTS, BOX_TEXTS, QUAD_TEXTS, VISION_TEXTS, PAD_TEXTS,
         CALL_TEXTS, FIM_TEXTS, FIM_END_TEXTS, FILE_TEXTS, REPLY_TEXTS, THINK_TEXTS;
    EndBracketed();
    ChatBracketed();
    ObjectBracketed();
    BoxBracketed();
    QuadBracketed();
    VisionBracketed();
    PadBracketed();
    CallBracketed();
    FimBracketed();
    FimEndBracketed();
    FileBracketed();
    ReplyBracketed();
    ThinkBracketed();
    forall i | 0 <= i < |ADDED_TEXTS| ensures IsTag(Ascii(ADDED_TEXTS[i])) {
      assert ADDED_TEXTS[i] in ADDED_TEXTS;
      BracketedIsTag(ADDED_TEXTS[i]);
    }
  }

  /** Every entry is one of the texts, with its id. */
  lemma {:induction false} AddedOfSound(ids: map<Key, int>, texts: seq<string>, i: nat) returns (k: nat)
    requires i < |AddedOf(ids, texts)|
    ensures k < |texts| && AddedOf(ids, texts)[i].text == Ascii(texts[k])
    ensures Ascii(texts[k]) in ids && AddedOf(ids, texts)[i].id == ids[Ascii(texts[k])]
  {
    hide Ascii;
    var front := texts[..|texts|-1];
    if i < |AddedOf(ids, front)| {
      k := AddedOfSound(ids, front, i);
    } else {
      k := |texts| - 1;
    }
  }

  /** Every known text has its entry. */
  lemma {:induction false} AddedOfComplete(ids: map<Key, int>, texts: seq<string>, k: nat) returns (i: nat)
    requires k < |texts| && Ascii(texts[k]) in ids
    ensures i < |AddedOf(ids, texts)| && AddedOf(ids, texts)[i].text == Ascii(texts[k])
  {
    hide Ascii;
    var front := texts[..|texts|-1];
    if k < |front| {
      i := AddedOfComplete(ids, front, k);
    } else {
      i := |AddedOf(ids, front)|;
    }
  }
}
