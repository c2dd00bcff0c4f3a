/** The pre-tokenization regex the scanner stands in for, with backtracking semantics. */
module Regex {
  import opened Bytes
  import opened Ints
  import opened Seqs
  import opened Utf8
  import opened Scanner

  type Class = byte -> bool

  /** Enough of regular expressions for the pattern: greedy runs of one class, sequence,
      ordered alternatives, and a negative look-ahead for one class. */
  datatype Re =
    | Run(c: Class, lo: nat, hi: nat)
    | Many(c: Class, lo: nat)
    | Then(a: Re, b: Re)
    | Or(a: Re, b: Re)
    | NotNext(c: Class)

  function RunLen(c: Class, s: seq<byte>): (n: nat)
    ensures n <= |s|
    ensures forall i :: 0 <= i < n ==> c(s[i])
    ensures n < |s| ==> !c(s[n])
  {
    if s == [] || !c(s[0]) then 0 else 1 + RunLen(c, s[1..])
  }

  /** lo .. hi, longest first. */
  function Down(hi: int, lo: nat): (ns: seq<nat>)
    decreases hi - lo
  {
    if hi < lo then [] else [hi] + Down(hi - 1, lo)
  }

  /** The lengths at which re can match the front of s, in the order a backtracking matcher
      tries them. */
  function Ends(re: Re, s: seq<byte>): (ns: seq<nat>)
    ensures forall i :: 0 <= i < |ns| ==> ns[i] <= |s|
    decreases re, 0, 0
  {
    match re
    case Run(c, lo, hi) => DownBound(Min(RunLen(c, s), hi), lo); Down(Min(RunLen(c, s), hi), lo)
    case Many(c, lo) => DownBound(RunLen(c, s), lo); Down(RunLen(c, s), lo)
    case Or(a, b) => Ends(a, s) + Ends(b, s)
    case Then(a, b) => After(Ends(a, s), b, s)
    case NotNext(c) => if s != [] && c(s[0]) then [] else [0]
  }

  /** Continue with b from each of the lengths ns. */
  function After(ns: seq<nat>, b: Re, s: seq<byte>): (ms: seq<nat>)
    requires forall i :: 0 <= i < |ns| ==> ns[i] <= |s|
    ensures forall i :: 0 <= i < |ms| ==> ms[i] <= |s|
    decreases b, 1, |ns|
  {
    if ns == [] then [] else Shift(Ends(b, s[ns[0]..]), ns[0]) + After(ns[1..], b, s)
  }

  function Shift(ns: seq<nat>, k: nat): (ms: seq<nat>)
    ensures |ms| == |ns| && forall i :: 0 <= i < |ns| ==> ms[i] == ns[i] + k
  {
    seq(|ns|, i requires 0 <= i < |ns| => ns[i] + k)
  }

  lemma {:induction false} DownBound(hi: int, lo: nat)
    ensures forall i :: 0 <= i < |Down(hi, lo)| ==> lo <= Down(hi, lo)[i] <= hi
    decreases hi - lo
  {
    if lo <= hi {
      DownBound(hi - 1, lo);
    }
  }

  datatype Match = At(n: nat) | NoMatch

  /** What a leftmost-first matcher reports at the front of s. */
  function First(re: Re, s: seq<byte>): Match {
    if Ends(re, s) == [] then NoMatch else At(Ends(re, s)[0])
  }

  // ----- the pattern -----

  /** The class of one byte. */
  function Just(b: byte): Class {
    (c: byte) => c == b
  }

  /** The class of one letter in either case. */
  function EitherCase(lower: char): Class
    requires 'a' <= lower <= 'z'
  {
    (c: byte) => Is(c, lower)
  }

  const QUOTE: byte := 0x27
  const BLANK: byte := 0x20

  function Suffix1(x: char): Re
    requires 'a' <= x <= 'z'
  {
    Then(Run(Just(QUOTE), 1, 1), Run(EitherCase(x), 1, 1))
  }

  function Suffix2(x: char, y: char): Re
    requires 'a' <= x <= 'z' && 'a' <= y <= 'z'
  {
    Then(Run(Just(QUOTE), 1, 1), Then(Run(EitherCase(x), 1, 1), Run(EitherCase(y), 1, 1)))
  }

  /** \s on ASCII. */
  predicate White(c: byte) {
    c == 0x20 || 0x09 <= c <= 0x0d
  }

  /** \S on ASCII. */
  predicate Black(c: byte) {
    !White(c)
  }

  /** [^\r\n\p{L}\p{N}] on ASCII. */
  predicate Opener(c: byte) {
    !Newline(c) && !AsciiLetter(c) && !AsciiDigit(c)
  }

  /** [^\s\p{L}\p{N}] on ASCII. */
  predicate Sign(c: byte) {
    !White(c) && !AsciiLetter(c) && !AsciiDigit(c)
  }

  /** (?i:'s|'t|'re|'ve|'m|'ll|'d) */
  function Contractions(): Re {
    Or(Suffix1('s'), Or(Suffix1('t'), Or(Suffix2('r', 'e'), Or(Suffix2('v', 'e'),
      Or(Suffix1('m'), Or(Suffix2('l', 'l'), Suffix1('d')))))))
  }

  /** [^\r\n\p{L}\p{N}]?\p{L}+ */
  function Words(): Re {
    Then(Run(Opener, 0, 1), Many(AsciiLetter, 1))
  }

  /** \p{N} */
  function Digits(): Re {
    Run(AsciiDigit, 1, 1)
  }

  /** ` ?[^\s\p{L}\p{N}]+[\r\n]*` */
  function Signs(): Re {
    Then(Run(Just(BLANK), 0, 1), Then(Many(Sign, 1), Many(Newline, 0)))
  }

  /** \s*[\r\n]+ */
  function Lines(): Re {
    Then(Many(White, 0), Many(Newline, 1))
  }

  /** \s+(?!\S) */
  function Trailing(): Re {
    Then(Many(White, 1), NotNext(Black))
  }

  /** \s+ */
  function WhiteRun(): Re {
    Many(White, 1)
  }

  function LinesOrBlanks(): Re {
    Or(Lines(), Or(Trailing(), WhiteRun()))
  }

  function Pattern(): Re {
    Or(Contractions(), Or(Words(), Or(Digits(), Or(Signs(), LinesOrBlanks()))))
  }

  /** Cut s by matching repeatedly; a byte that no match covers is dropped. */
  function FindAll(re: Re, s: seq<byte>): seq<seq<byte>>
    decreases |s|
  {
    if s == [] then []
    else if First(re, s).At? && First(re, s).n > 0 && First(re, s).n <= |s|
    then [s[..First(re, s).n]] + FindAll(re, s[First(re, s).n..])
    else FindAll(re, s[1..])
  }

  /** ASCII text without vertical tab and form feed. */
  predicate Plain(s: seq<byte>) {
    forall i :: 0 <= i < |s| ==> s[i] < 0x80 && s[i] != 0x0b && s[i] != 0x0c
  }

  // ----- matching one alternative -----

  lemma {:induction false} DownShape(hi: int, lo: nat)
    requires lo <= hi + 1
    ensures |Down(hi, lo)| == hi - lo + 1
    ensures forall i :: 0 <= i <= hi - lo ==> Down(hi, lo)[i] == hi - i
    decreases hi - lo
  {
    if lo <= hi {
      DownShape(hi - 1, lo);
    }
  }

  lemma FirstRun(c: Class, lo: nat, hi: nat, s: seq<byte>)
    ensures var n := Min(RunLen(c, s), hi);
            First(Run(c, lo, hi), s) == if n >= lo then At(n) else NoMatch
  {
  }

  lemma FirstMany(c: Class, lo: nat, s: seq<byte>)
    ensures First(Many(c, lo), s) == if RunLen(c, s) >= lo then At(RunLen(c, s)) else NoMatch
  {
  }

  lemma FirstOr(a: Re, b: Re, s: seq<byte>)
    ensures First(Or(a, b), s) == if First(a, s).At? then First(a, s) else First(b, s)
  {
  }

  /** The first length from which b can go on decides. */
  lemma {:induction false} AfterFirst(ns: seq<nat>, b: Re, s: seq<byte>, k: nat)
    requires forall i :: 0 <= i < |ns| ==> ns[i] <= |s|
    requires k <= |ns| && forall i :: 0 <= i < k ==> First(b, s[ns[i]..]).NoMatch?
    ensures k == |ns| ==> After(ns, b, s) == []
    ensures k < |ns| && First(b, s[ns[k]..]).At? ==>
              After(ns, b, s) != [] && After(ns, b, s)[0] == ns[k] + First(b, s[ns[k]..]).n
  {
    hide First, After;
    AfterOne(ns, b, s);
    if ns != [] && k > 0 {
      assert First(b, s[ns[0]..]).NoMatch?;
      AfterFirst(ns[1..], b, s, k - 1);
    }
  }

  lemma AfterOne(ns: seq<nat>, b: Re, s: seq<byte>)
    requires forall i :: 0 <= i < |ns| ==> ns[i] <= |s|
    ensures ns == [] ==> After(ns, b, s) == []
    ensures ns != [] && First(b, s[ns[0]..]).NoMatch? ==> After(ns, b, s) == After(ns[1..], b, s)
    ensures ns != [] && First(b, s[ns[0]..]).At? ==>
              After(ns, b, s) != [] && After(ns, b, s)[0] == ns[0] + First(b, s[ns[0]..]).n
  {
    hide Ends;
  }

  /** Sequence after a greedy run, when going on at the full run fails only for want of b. */
  lemma FirstThen(a: Re, b: Re, s: seq<byte>, k: nat)
    requires k <= |Ends(a, s)| && forall i :: 0 <= i < k ==> First(b, s[Ends(a, s)[i]..]).NoMatch?
    ensures k == |Ends(a, s)| ==> First(Then(a, b), s) == NoMatch
    ensures k < |Ends(a, s)| && First(b, s[Ends(a, s)[k]..]).At? ==>
              First(Then(a, b), s) == At(Ends(a, s)[k] + First(b, s[Ends(a, s)[k]..]).n)
  {
    AfterFirst(Ends(a, s), b, s, k);
  }

  /** A single character of class c, then b. */
  lemma FirstCharThen(c: Class, b: Re, s: seq<byte>)
    ensures First(Then(Run(c, 1, 1), b), s) ==
            if s != [] && c(s[0]) && First(b, s[1..]).At? then At(1 + First(b, s[1..]).n) else NoMatch
  {
    var a := Run(c, 1, 1);
    var n := Min(RunLen(c, s), 1);
    assert Ends(a, s) == if n == 1 then [1] else [];
    FirstThen(a, b, s, if n == 1 && First(b, s[1..]).At? then 0 else n);
  }

  /** An optional character of class c, greedily taken, then b. */
  lemma FirstOptThen(c: Class, b: Re, s: seq<byte>)
    ensures First(Then(Run(c, 0, 1), b), s) ==
            if s != [] && c(s[0]) && First(b, s[1..]).At? then At(1 + First(b, s[1..]).n) else First(b, s)
  {
    hide First, Ends;
    var a := Run(c, 0, 1);
    OptEnds(c, s);
    assert s[0..] == s;
    if s != [] && c(s[0]) {
      FirstThen(a, b, s, if First(b, s[1..]).At? then 0 else if First(b, s).At? then 1 else 2);
    } else {
      FirstThen(a, b, s, if First(b, s).At? then 0 else 1);
    }
    FirstShape(b, s);
    FirstShape(Then(a, b), s);
  }

  lemma OptEnds(c: Class, s: seq<byte>)
    ensures Ends(Run(c, 0, 1), s) == if s != [] && c(s[0]) then [1, 0] else [0]
  {
    var n := Min(RunLen(c, s), 1);
    assert n == if s != [] && c(s[0]) then 1 else 0;
    assert Down(0, 0) == [0] && Down(1, 0) == [1] + Down(0, 0);
  }

  lemma FirstShape(re: Re, s: seq<byte>)
    ensures First(re, s) == NoMatch || First(re, s) == At(First(re, s).n)
  {
  }

  /** A greedy run of c, then b, when k is the longest length from which b can go on. */
  lemma FirstManyThen(c: Class, lo: nat, b: Re, s: seq<byte>, k: nat)
    requires lo <= k <= RunLen(c, s) && First(b, s[k..]).At?
    requires forall i :: k < i <= RunLen(c, s) ==> First(b, s[i..]).NoMatch?
    ensures First(Then(Many(c, lo), b), s) == At(k + First(b, s[k..]).n)
  {
    DownShape(RunLen(c, s), lo);
    FirstThen(Many(c, lo), b, s, RunLen(c, s) - k);
  }

  /** A greedy run of c, then b, when b can go on from nowhere. */
  lemma FirstManyThenNone(c: Class, lo: nat, b: Re, s: seq<byte>)
    requires forall i :: lo <= i <= RunLen(c, s) ==> First(b, s[i..]).NoMatch?
    ensures First(Then(Many(c, lo), b), s) == NoMatch
  {
    if lo <= RunLen(c, s) {
      DownShape(RunLen(c, s), lo);
    }
    FirstThen(Many(c, lo), b, s, |Ends(Many(c, lo), s)|);
  }

  // ----- the seven alternatives -----

  lemma FirstOne(c: Class, s: seq<byte>)
    ensures First(Run(c, 1, 1), s) == if s != [] && c(s[0]) then At(1) else NoMatch
  {
    FirstRun(c, 1, 1, s);
  }

  lemma FirstSuffix1(x: char, s: seq<byte>)
    requires 'a' <= x <= 'z'
    ensures First(Suffix1(x), s) == if |s| >= 2 && s[0] == QUOTE && Is(s[1], x) then At(2) else NoMatch
  {
    FirstCharThen(Just(QUOTE), Run(EitherCase(x), 1, 1), s);
    if s != [] {
      FirstOne(EitherCase(x), s[1..]);
    }
  }

  lemma FirstSuffix2(x: char, y: char, s: seq<byte>)
    requires 'a' <= x <= 'z' && 'a' <= y <= 'z'
    ensures First(Suffix2(x, y), s) ==
            if |s| >= 3 && s[0] == QUOTE && Is(s[1], x) && Is(s[2], y) then At(3) else NoMatch
  {
    var b := Run(EitherCase(y), 1, 1);
    FirstCharThen(Just(QUOTE), Then(Run(EitherCase(x), 1, 1), b), s);
    hide First;
    if s != [] {
      FirstCharThen(EitherCase(x), b, s[1..]);
      if |s| > 1 {
        assert s[1..][1..] == s[2..];
        FirstOne(EitherCase(y), s[2..]);
      }
    }
  }

  lemma ContractionsAgree(s: seq<byte>)
    ensures First(Contractions(), s) == if Contraction(s) > 0 then At(Contraction(s)) else NoMatch
  {
    hide First, Suffix1, Suffix2;
    FirstSuffix1('s', s);
    FirstSuffix1('t', s);
    FirstSuffix2('r', 'e', s);
    FirstSuffix2('v', 'e', s);
    FirstSuffix1('m', s);
    FirstSuffix2('l', 'l', s);
    FirstSuffix1('d', s);
    var d6 := Or(Suffix2('l', 'l'), Suffix1('d'));
    var d5 := Or(Suffix1('m'), d6);
    var d4 := Or(Suffix2('v', 'e'), d5);
    var d3 := Or(Suffix2('r', 'e'), d4);
    var d2 := Or(Suffix1('t'), d3);
    FirstOr(Suffix2('l', 'l'), Suffix1('d'), s);
    FirstOr(Suffix1('m'), d6, s);
    FirstOr(Suffix2('v', 'e'), d5, s);
    FirstOr(Suffix2('r', 'e'), d4, s);
    FirstOr(Suffix1('t'), d3, s);
    FirstOr(Suffix1('s'), d2, s);
  }

  /** On ASCII a character is one byte. */
  lemma PlainChar(s: seq<byte>)
    requires Plain(s) && s != []
    ensures CharLen(s) == 1 && Plain(s[1..])
    ensures Letter(s) == AsciiLetter(s[0]) && Digit(s) == AsciiDigit(s[0])
    ensures White(s[0]) == Blank(s[0])
  {
  }

  lemma {:induction false} PlainRuns(s: seq<byte>)
    requires Plain(s)
    ensures Letters(s) == RunLen(AsciiLetter, s)
    ensures Others(s) == RunLen(Sign, s)
    ensures Newlines(s) == RunLen(Newline, s)
    ensures Blanks(s) == RunLen(White, s)
  {
    if s != [] {
      PlainChar(s);
      PlainRuns(s[1..]);
      hide CharLen;
    }
  }

  lemma WordsAgree(s: seq<byte>)
    requires Plain(s) && s != []
    ensures First(Words(), s) == if Letter(s) then At(Letters(s))
                                 else if OpensWord(s) then At(1 + Letters(s[1..])) else NoMatch
  {
    PlainChar(s);
    FirstOptThen(Opener, Many(AsciiLetter, 1), s);
    FirstMany(AsciiLetter, 1, s);
    FirstMany(AsciiLetter, 1, s[1..]);
    PlainRuns(s);
    PlainRuns(s[1..]);
    if s[1..] != [] {
      PlainChar(s[1..]);
    }
  }

  /** The scanner's symbols and the newlines behind them. */
  function SignRun(s: seq<byte>): Match {
    if Others(s) > 0 then At(Others(s) + Newlines(s[Others(s)..])) else NoMatch
  }

  lemma SignsAfter(s: seq<byte>)
    requires Plain(s)
    ensures First(Then(Many(Sign, 1), Many(Newline, 0)), s) == SignRun(s)
  {
    PlainRuns(s);
    var n := Others(s);
    PlainRuns(s[n..]);
    if n > 0 {
      FirstMany(Newline, 0, s[n..]);
      FirstManyThen(Sign, 1, Many(Newline, 0), s, n);
    } else {
      FirstManyThenNone(Sign, 1, Many(Newline, 0), s);
    }
  }

  lemma SignsAgree(s: seq<byte>)
    requires Plain(s) && s != []
    ensures var n := Others(s[Lead(s)..]);
            First(Signs(), s) == if n > 0 then At(Lead(s) + n + Newlines(s[Lead(s)+n..])) else NoMatch
  {
    hide First, Newlines, Others, Plain, SignRun;
    FirstOptThen(Just(BLANK), Then(Many(Sign, 1), Many(Newline, 0)), s);
    SignsAfter(s);
    PlainSuffix(s, 1);
    SignsAfter(s[1..]);
    SignRunBehind(s);
  }

  lemma SignRunBehind(s: seq<byte>)
    requires s != []
    ensures s[0] == BLANK ==> SignRun(s) == NoMatch
    ensures var n := Others(s[Lead(s)..]);
            var run := if s[0] == BLANK then SignRun(s[1..]) else SignRun(s);
            && (n > 0 ==> run == At(n + Newlines(s[Lead(s)+n..])))
            && (n == 0 ==> run == NoMatch)
  {
    hide Newlines;
    Suffix(s, Lead(s), Others(s[Lead(s)..]));
    assert s[0..] == s;
  }

  lemma LinesAgree(s: seq<byte>)
    requires Plain(s)
    ensures var end := LastNewline(s, Blanks(s));
            First(Lines(), s) == if end > 0 then At(end) else NoMatch
  {
    hide First, RunLen, Plain;
    PlainRuns(s);
    var w := Blanks(s);
    var end := LastNewline(s, w);
    forall i | end <= i <= w
      ensures First(Many(Newline, 1), s[i..]).NoMatch?
    {
      NewlinesAt(s, i);
    }
    if end > 0 {
      NewlinesAt(s, end - 1);
      FirstManyThen(White, 0, Many(Newline, 1), s, end - 1);
    } else {
      FirstManyThenNone(White, 0, Many(Newline, 1), s);
    }
  }

  /** Newlines can be matched exactly where one stands; a single one if no other follows. */
  lemma NewlinesAt(s: seq<byte>, i: nat)
    requires i <= |s|
    ensures i == |s| || !Newline(s[i]) ==> First(Many(Newline, 1), s[i..]) == NoMatch
    ensures i < |s| && Newline(s[i]) && (i + 1 == |s| || !Newline(s[i+1])) ==> First(Many(Newline, 1), s[i..]) == At(1)
  {
    FirstMany(Newline, 1, s[i..]);
    if i < |s| {
      assert s[i..][1..] == s[i+1..];
    }
  }

  lemma FirstNotNext(c: Class, s: seq<byte>)
    ensures First(NotNext(c), s) == if s != [] && c(s[0]) then NoMatch else At(0)
  {
  }

  lemma TrailingAgrees(s: seq<byte>)
    requires Plain(s)
    ensures var w := Blanks(s);
            First(Trailing(), s) == if w > 0 && (w == |s| || w > 1) then At(BlankEnd(s)) else NoMatch
  {
    hide First, Plain, RunLen;
    PlainRuns(s);
    var w := Blanks(s);
    var ahead := NotNext(Black);
    BlackAt(s, w);
    if w > 0 && w == |s| {
      FirstManyThen(White, 1, ahead, s, w);
    } else if w > 1 {
      BlackAt(s, w - 1);
      forall i | w - 1 < i <= w ensures First(ahead, s[i..]).NoMatch? {
        assert i == w;
      }
      FirstManyThen(White, 1, ahead, s, w - 1);
    } else {
      FirstManyThenNone(White, 1, ahead, s);
    }
  }

  lemma BlackAt(s: seq<byte>, i: nat)
    requires i <= |s|
    ensures First(NotNext(Black), s[i..]) == if i < |s| && Black(s[i]) then NoMatch else At(0)
  {
    FirstNotNext(Black, s[i..]);
  }

  lemma BlanksAgree(s: seq<byte>)
    requires Plain(s) && Blanks(s) > 0
    ensures First(LinesOrBlanks(), s) == At(BlankPiece(s))
  {
    hide First, Lines, Trailing, LastNewline, RunLen, Plain;
    LinesAgree(s);
    TrailingAgrees(s);
    FirstMany(White, 1, s);
    PlainRuns(s);
    FirstOr(Trailing(), WhiteRun(), s);
    FirstOr(Lines(), Or(Trailing(), WhiteRun()), s);
  }

  lemma SignPiecesAgree(s: seq<byte>)
    requires Plain(s) && s != [] && (Newline(s[0]) || !Letter(s)) && !Digit(s)
    ensures First(Or(Signs(), LinesOrBlanks()), s) == At(SignPiece(s))
  {
    hide First, Signs, LinesOrBlanks, Newlines, BlankPiece, Plain, Letter, Digit;
    SignsAgree(s);
    FirstOr(Signs(), LinesOrBlanks(), s);
    if Others(s[Lead(s)..]) == 0 {
      BlanksAgree(s);
    }
  }

  lemma PieceLenIs(s: seq<byte>)
    requires Plain(s) && s != []
    ensures PieceLen(s) ==
            if Contraction(s) > 0 then Contraction(s)
            else if Letter(s) then Letters(s)
            else if OpensWord(s) then 1 + Letters(s[1..])
            else if Digit(s) then 1
            else SignPiece(s)
  {
    PlainChar(s);
    hide Contraction, Letters, Digit, SignPiece;
  }

  /** On ASCII text without VT and FF, the piece the scanner takes is the regex's match. */
  lemma PieceIsMatch(s: seq<byte>)
    requires Plain(s) && s != []
    ensures First(Pattern(), s) == At(PieceLen(s))
  {
    hide First, Contractions, Words, Signs, LinesOrBlanks, Plain, Contraction, CharLen, Letter, Digit, Letters,
      OpensWord, SignPiece, AsciiLetter, Newline, PieceLen;
    ContractionsAgree(s);
    PlainChar(s);
    WordsAgree(s);
    FirstOne(AsciiDigit, s);
    PieceLenIs(s);
    var r4 := Or(Signs(), LinesOrBlanks());
    var r3 := Or(Digits(), r4);
    var r2 := Or(Words(), r3);
    FirstOr(Digits(), r4, s);
    FirstOr(Words(), r3, s);
    FirstOr(Contractions(), r2, s);
    if !Letter(s) && !Digit(s) {
      SignPiecesAgree(s);
    }
  }

  lemma FindStep(re: Re, s: seq<byte>, n: nat)
    requires First(re, s) == At(n) && 0 < n <= |s|
    ensures FindAll(re, s) == [s[..n]] + FindAll(re, s[n..])
  {
    hide First;
  }

  lemma PiecesStep(s: seq<byte>)
    requires s != []
    ensures Pieces(s) == [s[..PieceLen(s)]] + Pieces(s[PieceLen(s)..])
  {
    hide PieceLen;
  }

  lemma PlainSuffix(s: seq<byte>, n: nat)
    requires Plain(s) && n <= |s|
    ensures Plain(s[n..])
  {
  }

  /** The scanner's pieces are the regex's successive matches. */
  lemma {:induction false} ScannerRefinesRegex(s: seq<byte>)
    requires Plain(s)
    ensures Pieces(s) == FindAll(Pattern(), s)
    decreases |s|
  {
    if s == [] {
    } else {
      hide *;
      PieceIsMatch(s);
      PlainSuffix(s, PieceLen(s));
      PiecesStep(s);
      FindStep(Pattern(), s, PieceLen(s));
      ScannerRefinesRegex(s[PieceLen(s)..]);
    }
  }

  /** Vertical tab and form feed are white space to the regex and signs to the scanner: before
      an exclamation mark, the scanner takes both bytes and the regex the first alone. */
  lemma PartOnVerticalTab(c: byte)
    requires c == 0x0b || c == 0x0c
    ensures PieceLen([c, 0x21]) == 2 && First(Pattern(), [c, 0x21]) == At(1)
    ensures Pieces([c, 0x21]) != FindAll(Pattern(), [c, 0x21])
  {
    var s := [c, 0x21];
    assert s[0..] == s && s[1..] == [0x21];
    ScannerTakesBoth(c);
    RegexTakesOne(c);
    hide First, PieceLen;
    PiecesStep(s);
    FindStep(Pattern(), s, 1);
    assert Pieces(s)[0] == s[..2] && FindAll(Pattern(), s)[0] == s[..1];
  }

  /** s is written in the alphabet a. */
  predicate Over(a: set<byte>, s: seq<byte>) {
    forall i :: 0 <= i < |s| ==> s[i] in a
  }

  /** Over an ASCII alphabet with an exclamation mark, scanner and regex agree on every text
      exactly when vertical tab and form feed are not in it. */
  lemma AgreeWithoutTabs(a: set<byte>)
    requires 0x21 in a && forall b :: b in a ==> b < 0x80
    ensures (forall s :: Over(a, s) ==> Pieces(s) == FindAll(Pattern(), s)) <==> 0x0b !in a && 0x0c !in a
  {
    hide Pieces, FindAll, Pattern;
    if 0x0b !in a && 0x0c !in a {
      forall s | Over(a, s) ensures Pieces(s) == FindAll(Pattern(), s) {
        ScannerRefinesRegex(s);
      }
    } else {
      var c: byte := if 0x0b in a then 0x0b else 0x0c;
      PartOnVerticalTab(c);
      assert Over(a, [c, 0x21]);
    }
  }

  lemma ScannerTakesBoth(c: byte)
    requires c == 0x0b || c == 0x0c
    ensures PieceLen([c, 0x21]) == 2
  {
    var s := [c, 0x21];
    assert s[0..] == s && s[1..] == [0x21] && s[2..] == [];
    ReadAscii(s);
    ReadAscii(s[1..]);
    assert Others(s[2..]) == 0 && Others(s[1..]) == 1 && Others(s) == 2;
  }

  lemma RegexTakesOne(c: byte)
    requires c == 0x0b || c == 0x0c
    ensures First(Pattern(), [c, 0x21]) == At(1)
  {
    hide First, LastNewline;
    var s := [c, 0x21];
    assert s[0..] == s && s[1..] == [0x21];
    NoneButWhite(c);
    FirstMany(White, 1, s);
    assert RunLen(White, s[1..]) == 0 && RunLen(White, s) == 1;
    FirstOr(Trailing(), WhiteRun(), s);
    FirstOr(Lines(), Or(Trailing(), WhiteRun()), s);
    FirstOr(Signs(), LinesOrBlanks(), s);
    FirstOr(Digits(), Or(Signs(), LinesOrBlanks()), s);
    FirstOr(Words(), Or(Digits(), Or(Signs(), LinesOrBlanks())), s);
    FirstOr(Contractions(), Or(Words(), Or(Digits(), Or(Signs(), LinesOrBlanks()))), s);
  }

  /** Of the seven alternatives, the first six fail. */
  lemma NoneButWhite(c: byte)
    requires c == 0x0b || c == 0x0c
    ensures var s := [c, 0x21];
            && First(Contractions(), s).NoMatch? && First(Words(), s).NoMatch? && First(Digits(), s).NoMatch?
            && First(Signs(), s).NoMatch? && First(Lines(), s).NoMatch? && First(Trailing(), s).NoMatch?
  {
    hide First;
    var s := [c, 0x21];
    assert s[0..] == s && s[1..] == [0x21] && s[2..] == [];
    ContractionsAgree(s);
    FirstOptThen(Opener, Many(AsciiLetter, 1), s);
    FirstMany(AsciiLetter, 1, s);
    FirstMany(AsciiLetter, 1, s[1..]);
    FirstOne(AsciiDigit, s);
    FirstOptThen(Just(BLANK), Then(Many(Sign, 1), Many(Newline, 0)), s);
    FirstManyThenNone(Sign, 1, Many(Newline, 0), s);
    assert RunLen(White, s[1..]) == 0 && RunLen(White, s) == 1;
    FirstMany(Newline, 1, s);
    FirstMany(Newline, 1, s[1..]);
    FirstManyThenNone(White, 0, Many(Newline, 1), s);
    FirstNotNext(Black, s[1..]);
    FirstManyThenNone(White, 1, NotNext(Black), s);
  }
}
