/** The hand-written scanner that cuts a text segment into pieces. */
module Scanner {
  import opened Bytes
  import opened Utf8

  // ----- character classes -----

  predicate LetterCp(cp: nat) {
    || 0x41 <= cp <= 0x5a || 0x61 <= cp <= 0x7a || 0x00c0 <= cp <= 0x024f
    || 0x0370 <= cp <= 0x03ff || 0x0400 <= cp <= 0x04ff || 0x0530 <= cp <= 0x05ff
    || 0x0600 <= cp <= 0x06ff || 0x0900 <= cp <= 0x0d7f || 0x0e00 <= cp <= 0x10ff
    || 0x1100 <= cp <= 0x11ff || 0x1200 <= cp <= 0x137f || 0x4e00 <= cp <= 0x9fff
    || 0x3400 <= cp <= 0x4dbf || 0x3040 <= cp <= 0x312f || 0xac00 <= cp <= 0xd7af
    || 0xf900 <= cp <= 0xfaff || 0xff21 <= cp <= 0xff3a || 0xff41 <= cp <= 0xff5a
    || 0x20000 <= cp <= 0x2ebef
  }

  predicate DigitCp(cp: nat) {
    || 0x30 <= cp <= 0x39 || 0x0660 <= cp <= 0x0669 || 0x06f0 <= cp <= 0x06f9
    || 0x0966 <= cp <= 0x096f || 0x09e6 <= cp <= 0x09ef || 0x0a66 <= cp <= 0x0a6f
    || 0x0ae6 <= cp <= 0x0aef || 0x0b66 <= cp <= 0x0b6f || 0x0be6 <= cp <= 0x0bef
    || 0x0c66 <= cp <= 0x0c6f || 0x0ce6 <= cp <= 0x0cef || 0x0d66 <= cp <= 0x0d6f
    || 0x0e50 <= cp <= 0x0e59 || 0x0ed0 <= cp <= 0x0ed9 || 0x0f20 <= cp <= 0x0f29
    || 0x1040 <= cp <= 0x1049 || 0x17e0 <= cp <= 0x17e9 || 0x1810 <= cp <= 0x1819
    || 0xff10 <= cp <= 0xff19
  }

  /** is_letter_at, on the rest of the segment. */
  predicate Letter(r: seq<byte>)
    requires r != []
  {
    if r[0] < 0x80 then AsciiLetter(r[0]) else LetterCp(Codepoint(r))
  }

  /** is_digit_at. */
  predicate Digit(r: seq<byte>)
    requires r != []
  {
    if r[0] < 0x80 then AsciiDigit(r[0]) else DigitCp(Codepoint(r))
  }

  predicate AsciiLetter(c: byte) {
    'A' as int <= c <= 'Z' as int || 'a' as int <= c <= 'z' as int
  }

  predicate AsciiDigit(c: byte) {
    '0' as int <= c <= '9' as int
  }

  predicate Space(c: byte) {
    c == ' ' as int || c == '\t' as int
  }

  predicate Newline(c: byte) {
    c == '\n' as int || c == '\r' as int
  }

  predicate Blank(c: byte) {
    Space(c) || Newline(c)
  }

  /** c is the letter lower, in either case. */
  predicate Is(c: byte, lower: char)
    requires 'a' <= lower <= 'z'
  {
    c == lower as int || c == lower as int - 32
  }

  /** match_contraction: the length of an English contraction, or zero. */
  function Contraction(r: seq<byte>): (n: nat)
    ensures n <= |r| && n <= 3
  {
    if r == [] || r[0] != '\'' as int then 0
    else if |r| >= 3 && Is(r[1], 'r') && Is(r[2], 'e') then 3
    else if |r| >= 3 && Is(r[1], 'v') && Is(r[2], 'e') then 3
    else if |r| >= 3 && Is(r[1], 'l') && Is(r[2], 'l') then 3
    else if |r| >= 2 && (Is(r[1], 's') || Is(r[1], 't') || Is(r[1], 'm') || Is(r[1], 'd')) then 2
    else 0
  }

  // ----- runs -----

  /** How many bytes the letters at the front of r take. */
  function Letters(r: seq<byte>): (n: nat)
    ensures n <= |r|
    ensures r != [] && Letter(r) && !Newline(r[0]) ==> n > 0
    decreases |r|
  {
    if r == [] || Newline(r[0]) || !Letter(r) then 0 else CharLen(r) + Letters(r[CharLen(r)..])
  }

  /** How many bytes at the front of r are neither blank nor start a letter or digit. */
  function Others(r: seq<byte>): (n: nat)
    ensures n <= |r|
    ensures n > 0 <==> r != [] && !Blank(r[0]) && !Letter(r) && !Digit(r)
    decreases |r|
  {
    if r == [] || Blank(r[0]) || Letter(r) || Digit(r) then 0 else 1 + Others(r[1..])
  }

  function Newlines(r: seq<byte>): (n: nat)
    ensures n <= |r|
  {
    if r == [] || !Newline(r[0]) then 0 else 1 + Newlines(r[1..])
  }

  function Blanks(r: seq<byte>): (n: nat)
    ensures n <= |r| && (n > 0 <==> r != [] && Blank(r[0]))
    ensures forall i :: 0 <= i < n ==> Blank(r[i])
    ensures n < |r| ==> !Blank(r[n])
  {
    if r == [] || !Blank(r[0]) then 0 else 1 + Blanks(r[1..])
  }

  /** One past the last newline among the first n bytes, or zero. */
  function LastNewline(r: seq<byte>, n: nat): (end: nat)
    requires n <= |r|
    ensures end <= n && (end == 0 || Newline(r[end-1]))
    ensures forall i :: end <= i < n ==> !Newline(r[i])
  {
    if n == 0 then 0 else if Newline(r[n-1]) then n else LastNewline(r, n - 1)
  }

  // ----- pieces -----

  /** A character that may open a word, followed by a letter. */
  predicate OpensWord(r: seq<byte>)
    requires r != []
  {
    && CharLen(r) < |r| && !Newline(r[0]) && !Digit(r)
    && !Newline(r[CharLen(r)]) && Letter(r[CharLen(r)..])
  }

  /** One if the rest of the segment starts with a space. */
  function Lead(r: seq<byte>): (n: nat)
    ensures n <= 1 && n <= |r|
  {
    if r != [] && r[0] == ' ' as int then 1 else 0
  }

  /** The length of the piece at the front of the rest of the segment. */
  function PieceLen(r: seq<byte>): (n: nat)
    requires r != []
    ensures 0 < n <= |r|
  {
    if Contraction(r) > 0 then Contraction(r)
    else if !Newline(r[0]) && Letter(r) then Letters(r)
    else if OpensWord(r) then CharLen(r) + Letters(r[CharLen(r)..])
    else if Digit(r) then 1
    else SignPiece(r)
  }

  /** A piece that is no word: signs after at most one space, with the newlines behind them,
      or blanks. */
  function SignPiece(r: seq<byte>): (n: nat)
    requires r != [] && (Newline(r[0]) || !Letter(r)) && !Digit(r)
    ensures 0 < n <= |r|
  {
    if Others(r[Lead(r)..]) > 0 then
      var n := Lead(r) + Others(r[Lead(r)..]);
      n + Newlines(r[n..])
    else BlankPiece(r)
  }

  /** A piece of blanks: up to the run's last newline if it has one. */
  function BlankPiece(r: seq<byte>): (n: nat)
    requires Blanks(r) > 0
    ensures 0 < n <= |r|
  {
    if LastNewline(r, Blanks(r)) > 0 then LastNewline(r, Blanks(r)) else BlankEnd(r)
  }

  /** How much of the blank run a piece takes: all of it at the end of the segment, else all
      but the last blank, which opens the next piece, if that leaves any. */
  function BlankEnd(r: seq<byte>): (n: nat)
    requires Blanks(r) > 0
    ensures 0 < n <= |r|
  {
    if Blanks(r) == |r| || Blanks(r) == 1 then Blanks(r) else Blanks(r) - 1
  }

  /** The pieces of a segment. */
  function Pieces(r: seq<byte>): (ps: seq<seq<byte>>)
    decreases |r|
  {
    if r == [] then [] else [r[..PieceLen(r)]] + Pieces(r[PieceLen(r)..])
  }

  function Joined(ps: seq<seq<byte>>): seq<byte> {
    if ps == [] then [] else ps[0] + Joined(ps[1..])
  }

  /** The pieces tile the segment: none is empty, and in order they are the whole of it. */
  lemma {:induction false} PiecesTile(r: seq<byte>)
    ensures Joined(Pieces(r)) == r
    ensures forall i :: 0 <= i < |Pieces(r)| ==> Pieces(r)[i] != []
    decreases |r|
  {
    if r != [] {
      hide PieceLen;
      PiecesTile(r[PieceLen(r)..]);
      assert r == r[..PieceLen(r)] + r[PieceLen(r)..];
    }
  }

  // ----- the scanner's loops -----

  lemma Rest(text: seq<byte>, len: nat, pos: nat, k: nat)
    requires pos <= len <= |text| && pos + k <= len
    ensures text[pos..len][k..] == text[pos+k..len]
    ensures pos + k < len ==> text[pos..len][k] == text[pos+k]
  {
  }

  method SkipLetters(text: seq<byte>, len: nat, start: nat) returns (pos: nat)
    requires start <= len <= |text|
    ensures pos == start + Letters(text[start..len])
  {
    hide Letter, CharLen;
    pos := start;
    while pos < len && !Newline(text[pos]) && Letter(text[pos..len])
      invariant start <= pos <= len
      invariant start + Letters(text[start..len]) == pos + Letters(text[pos..len])
    {
      Rest(text, len, pos, CharLen(text[pos..len]));
      pos := pos + CharLen(text[pos..len]);
    }
  }

  method SkipOthers(text: seq<byte>, len: nat, start: nat) returns (p: nat)
    requires start <= len <= |text|
    ensures p == start + Others(text[start..len])
  {
    hide Letter, Digit;
    p := start;
    while p < len
      invariant start <= p <= len
      invariant start + Others(text[start..len]) == p + Others(text[p..len])
    {
      if Space(text[p]) || Newline(text[p]) || Letter(text[p..len]) || Digit(text[p..len]) {
        break;
      }
      Rest(text, len, p, 1);
      p := p + 1;
    }
  }

  method SkipNewlines(text: seq<byte>, len: nat, start: nat) returns (p: nat)
    requires start <= len <= |text|
    ensures p == start + Newlines(text[start..len])
  {
    p := start;
    while p < len && Newline(text[p])
      invariant start <= p <= len
      invariant start + Newlines(text[start..len]) == p + Newlines(text[p..len])
    {
      Rest(text, len, p, 1);
      p := p + 1;
    }
  }

  method SkipBlanks(text: seq<byte>, len: nat, start: nat) returns (p: nat)
    requires start <= len <= |text|
    ensures p == start + Blanks(text[start..len])
  {
    p := start;
    while p < len && (Space(text[p]) || Newline(text[p]))
      invariant start <= p <= len
      invariant start + Blanks(text[start..len]) == p + Blanks(text[p..len])
    {
      Rest(text, len, p, 1);
      p := p + 1;
    }
  }

  /** The scan of branch 5 for the last newline of the blank run pos .. p. */
  method FindLastNewline(text: seq<byte>, len: nat, pos: nat, p: nat) returns (end: nat)
    requires pos <= p <= len <= |text|
    ensures var last := LastNewline(text[pos..len], p - pos);
            end == if last > 0 then pos + last else 0
  {
    ghost var r := text[pos..len];
    end := 0;
    for i := pos to p
      invariant end == if LastNewline(r, i - pos) > 0 then pos + LastNewline(r, i - pos) else 0
    {
      if Newline(text[i]) {
        end := i + 1;
      }
    }
  }

  /** Branch 6: how far the blank run pos .. p can be taken with no other text behind it. */
  method BacktrackBlanks(text: seq<byte>, len: nat, pos: nat, p: nat) returns (bestEnd: nat)
    requires pos < len <= |text| && p == pos + Blanks(text[pos..len]) && p > pos
    ensures bestEnd == if p == len then p else p - 1
  {
    bestEnd := pos;
    for end := pos + 1 to p + 1
      invariant bestEnd == end - 1 && (end <= p || p == len)
    {
      ghost var r := text[pos..len];
      assert end < len ==> text[end] == r[end - pos];
      assert end < p ==> Blank(r[end - pos]);
      if end >= len || Space(text[end]) || Newline(text[end]) {
        bestEnd := end;
      } else {
        break;
      }
    }
  }

  /** Branches 5 to 7.  The fallback behind them is never reached. */
  method NextBlanks(text: seq<byte>, len: nat, pos: nat) returns (end: nat)
    requires pos < len <= |text| && Blanks(text[pos..len]) > 0
    ensures end == pos + BlankPiece(text[pos..len])
  {
    hide LastNewline;
    ghost var r := text[pos..len];
    var atBlank := Space(text[pos]) || Newline(text[pos]);
    assert r[0] == text[pos];
    var p := SkipBlanks(text, len, pos);
    var lastNlEnd := FindLastNewline(text, len, pos, p);
    if lastNlEnd > pos {
      return lastNlEnd;
    }
    p := SkipBlanks(text, len, pos);
    if p > pos {
      var bestEnd := BacktrackBlanks(text, len, pos, p);
      if bestEnd > pos {
        return bestEnd;
      }
    }
    if atBlank {
      end := SkipBlanks(text, len, pos);
      return;
    }
    assert false;
  }

  /** Branches 4 to 7. */
  method NextSigns(text: seq<byte>, len: nat, pos: nat) returns (end: nat)
    requires pos < len <= |text|
    requires var r := text[pos..len]; (Newline(r[0]) || !Letter(r)) && !Digit(r)
    ensures end == pos + SignPiece(text[pos..len])
  {
    hide Letter, Digit, Newlines, BlankPiece;
    ghost var r := text[pos..len];
    var content := if text[pos] == ' ' as int then pos + 1 else pos;
    Rest(text, len, pos, Lead(r));
    var p := SkipOthers(text, len, content);
    if p > content {
      Rest(text, len, pos, p - pos);
      end := SkipNewlines(text, len, p);
      return;
    }
    end := NextBlanks(text, len, pos);
  }

  /** One turn of bpe_tokenize_segment: the end of the piece that starts at pos. */
  method NextPiece(text: seq<byte>, len: nat, pos: nat) returns (end: nat)
    requires pos < len <= |text|
    ensures end == pos + PieceLen(text[pos..len])
  {
    hide Letter, Digit, CharLen, Contraction, Letters, SignPiece;
    var r := text[pos..len];
    var clen := Contraction(r);
    if clen > 0 {
      return pos + clen;
    }
    if !Newline(text[pos]) && Letter(r) {
      end := SkipLetters(text, len, pos);
      return;
    }
    var nextPos := pos + CharLen(r);
    Rest(text, len, pos, CharLen(r));
    if nextPos < len && !Newline(text[pos]) && !Digit(r) && !Newline(text[nextPos]) && Letter(text[nextPos..len]) {
      end := SkipLetters(text, len, nextPos);
      return;
    }
    if Digit(r) {
      return pos + 1;
    }
    end := NextSigns(text, len, pos);
  }
}
