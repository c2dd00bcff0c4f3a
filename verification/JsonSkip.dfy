/** Skipping one JSON value, whatever it is. */
module JsonSkip {
  import opened Bytes
  import opened Ints
  import opened Wrappers
  import opened Json

  /** strtod: how many bytes of a numeral stand at the front. */
  type Numeral = seq<byte> -> nat

  const OPEN_ARRAY: byte := 0x5b
  const CLOSE_ARRAY: byte := 0x5d
  const OPEN_OBJECT: byte := 0x7b
  const CLOSE_OBJECT: byte := 0x7d
  const COMMA: byte := 0x2c
  const COLON: byte := 0x3a
  const TRUE: seq<byte> := [0x74, 0x72, 0x75, 0x65]
  const FALSE: seq<byte> := [0x66, 0x61, 0x6c, 0x73, 0x65]
  const NULL: seq<byte> := [0x6e, 0x75, 0x6c, 0x6c]

  /** The place p has come to once json_ws has run. */
  function Ws(text: seq<byte>, p: nat): (q: nat)
    requires p <= |text|
    ensures p <= q <= |text|
  {
    p + Spaces(text[p..])
  }

  /** json_lit for the three literals, else a numeral: how many bytes. */
  function Scalar(num: Numeral, r: seq<byte>): (n: nat)
    ensures n <= |r|
  {
    if TRUE <= r then 4
    else if FALSE <= r then 5
    else if NULL <= r then 4
    else if num(r) <= |r| then num(r) else 0
  }

  /** json_skip_value_depth from place p0 of a text: the place behind the value. */
  function Skip(num: Numeral, text: seq<byte>, p0: nat, depth: nat): (x: Option<nat>)
    requires p0 <= |text|
    ensures x.Some? ==> p0 < x.value <= |text|
    decreases |text| - p0, 1
  {
    var p := Ws(text, p0);
    var c := ByteAt(text, p);
    if c == QUOTE then
      var s := ReadString(text[p..]);
      if s.Got? then Some(p + s.used) else None
    else if c == OPEN_OBJECT || c == OPEN_ARRAY then
      if depth >= MAX_NESTING then None
      else
        var q := Ws(text, p + 1);
        if ByteAt(text, q) == Closing(c) then Some(q + 1)
        else if c == OPEN_OBJECT then SkipMembers(num, text, q, depth)
        else SkipElements(num, text, q, depth)
    else
      var n := Scalar(num, text[p..]);
      if n > 0 then Some(p + n) else None
  }

  function Closing(c: byte): byte {
    if c == OPEN_OBJECT then CLOSE_OBJECT else CLOSE_ARRAY
  }

  /** The loop of json_skip_array_depth: the place behind the closing bracket. */
  function SkipElements(num: Numeral, text: seq<byte>, p: nat, depth: nat): (x: Option<nat>)
    requires p <= |text|
    ensures x.Some? ==> p < x.value <= |text|
    decreases |text| - p, 2
  {
    var v := Skip(num, text, p, depth + 1);
    if v.None? then None
    else
      var n := Ws(text, v.value);
      if ByteAt(text, n) == CLOSE_ARRAY then Some(n + 1)
      else if ByteAt(text, n) != COMMA then None
      else SkipElements(num, text, n + 1, depth)
  }

  /** A key, a colon and a value: the place where a comma or the closing brace is expected. */
  function Member(num: Numeral, text: seq<byte>, p: nat, depth: nat): (x: Option<nat>)
    requires p <= |text|
    ensures x.Some? ==> p < x.value <= |text|
    decreases |text| - p, 2
  {
    var key := ReadString(text[p..]);
    if key.Failed? then None
    else
      var c := Ws(text, p + key.used);
      if ByteAt(text, c) != COLON then None
      else
        var v := Skip(num, text, c + 1, depth + 1);
        if v.None? then None else Some(Ws(text, v.value))
  }

  /** The loop of json_skip_object_depth. */
  function SkipMembers(num: Numeral, text: seq<byte>, p: nat, depth: nat): (x: Option<nat>)
    requires p <= |text|
    ensures x.Some? ==> p < x.value <= |text|
    decreases |text| - p, 3
  {
    var n := Member(num, text, p, depth);
    if n.None? then None
    else if ByteAt(text, n.value) == CLOSE_OBJECT then Some(n.value + 1)
    else if ByteAt(text, n.value) != COMMA then None
    else SkipMembers(num, text, n.value + 1, depth)
  }

  // ----- the skipper -----

  /** json_skip_value_depth, with json_skip_object_depth and json_skip_array_depth up to their
      loops. */
  method SkipValue(num: Numeral, text: seq<byte>, p0: nat, depth: nat) returns (end: Option<nat>)
    requires p0 <= |text|
    ensures end == Skip(num, text, p0, depth)
    decreases |text| - p0, 1
  {
    hide ReadString, Scalar, SkipMembers, SkipElements;
    var p := SkipSpaces(text, p0);
    var c := ByteAt(text, p);
    if c == QUOTE {
      var s := JsonString(text, p);
      return if s.Got? then Some(p + s.used) else None;
    }
    if c == OPEN_OBJECT || c == OPEN_ARRAY {
      if depth >= MAX_NESTING {
        return None;
      }
      var q := SkipSpaces(text, p + 1);
      if ByteAt(text, q) == Closing(c) {
        return Some(q + 1);
      }
      if c == OPEN_OBJECT {
        end := SkipMembersLoop(num, text, q, depth);
      } else {
        end := SkipElementsLoop(num, text, q, depth);
      }
      return;
    }
    var n := Scalar(num, text[p..]);
    end := if n > 0 then Some(p + n) else None;
  }

  method SkipElementsLoop(num: Numeral, text: seq<byte>, start: nat, depth: nat) returns (end: Option<nat>)
    requires start <= |text|
    ensures end == SkipElements(num, text, start, depth)
    decreases |text| - start, 2
  {
    hide Skip;
    var p := start;
    while true
      invariant start <= p <= |text|
      invariant SkipElements(num, text, start, depth) == SkipElements(num, text, p, depth)
      decreases |text| - p
    {
      var v := SkipValue(num, text, p, depth + 1);
      if v.None? {
        return None;
      }
      var n := SkipSpaces(text, v.value);
      if ByteAt(text, n) == CLOSE_ARRAY {
        return Some(n + 1);
      }
      if ByteAt(text, n) != COMMA {
        return None;
      }
      p := n + 1;
    }
  }

  method SkipMember(num: Numeral, text: seq<byte>, p: nat, depth: nat) returns (end: Option<nat>)
    requires p <= |text|
    ensures end == Member(num, text, p, depth)
    decreases |text| - p, 2
  {
    hide Skip, ReadString;
    var key := JsonString(text, p);
    if key.Failed? {
      return None;
    }
    var c := SkipSpaces(text, p + key.used);
    if ByteAt(text, c) != COLON {
      return None;
    }
    var v := SkipValue(num, text, c + 1, depth + 1);
    if v.None? {
      return None;
    }
    var n := SkipSpaces(text, v.value);
    end := Some(n);
  }

  method SkipMembersLoop(num: Numeral, text: seq<byte>, start: nat, depth: nat) returns (end: Option<nat>)
    requires start <= |text|
    ensures end == SkipMembers(num, text, start, depth)
    decreases |text| - start, 3
  {
    hide Member;
    var p := start;
    while true
      invariant start <= p <= |text|
      invariant SkipMembers(num, text, start, depth) == SkipMembers(num, text, p, depth)
      decreases |text| - p
    {
      var n := SkipMember(num, text, p, depth);
      if n.None? {
        return None;
      }
      if ByteAt(text, n.value) == CLOSE_OBJECT {
        return Some(n.value + 1);
      }
      if ByteAt(text, n.value) != COMMA {
        return None;
      }
      p := n.value + 1;
    }
  }

  // ----- printed values -----

  datatype Value =
    | Text(s: seq<byte>)
    | Number(digits: seq<byte>)
    | True | False | Null
    | Array(elements: Values)
    | Object(members: Members)

  datatype Values = NoValues | Values(first: Value, rest: Values)

  datatype Members = NoMembers | Members(key: seq<byte>, value: Value, rest: Members)

  function Print(v: Value): (s: seq<byte>)
    decreases v, 1
  {
    match v
    case Text(s) => Quoted(s)
    case Number(digits) => digits
    case True => TRUE
    case False => FALSE
    case Null => NULL
    case Array(es) => [OPEN_ARRAY] + (if es.NoValues? then [CLOSE_ARRAY] else PrintElements(es))
    case Object(ms) => [OPEN_OBJECT] + (if ms.NoMembers? then [CLOSE_OBJECT] else PrintMembers(ms))
  }

  /** The elements and the closing bracket. */
  function PrintElements(es: Values): (s: seq<byte>)
    requires es.Values?
    decreases es, 0
  {
    Print(es.first) + (if es.rest.NoValues? then [CLOSE_ARRAY] else [COMMA] + PrintElements(es.rest))
  }

  function PrintMembers(ms: Members): (s: seq<byte>)
    requires ms.Members?
    decreases ms, 0
  {
    Quoted(ms.key) + ([COLON] + (Print(ms.value)
                      + (if ms.rest.NoMembers? then [CLOSE_OBJECT] else [COMMA] + PrintMembers(ms.rest))))
  }

  /** How deep arrays and objects nest. */
  function Nesting(v: Value): nat {
    match v
    case Array(es) => 1 + NestingOfElements(es)
    case Object(ms) => 1 + NestingOfMembers(ms)
    case _ => 0
  }

  function NestingOfElements(es: Values): nat {
    match es
    case NoValues => 0
    case Values(v, rest) => Max(Nesting(v), NestingOfElements(rest))
  }

  function NestingOfMembers(ms: Members): nat {
    match ms
    case NoMembers => 0
    case Members(_, v, rest) => Max(Nesting(v), NestingOfMembers(rest))
  }

  /** What ends a number: the end of the text, white space, a comma or a closing bracket. */
  predicate Stops(rest: seq<byte>) {
    rest == [] || IsSpace(rest[0]) || rest[0] == COMMA || rest[0] == CLOSE_ARRAY || rest[0] == CLOSE_OBJECT
  }

  /** A numeral that strtod takes whole, and that looks like one. */
  ghost predicate IsNumber(num: Numeral, digits: seq<byte>) {
    && digits != [] && (digits[0] == 0x2d || 0x30 <= digits[0] <= 0x39)
    && forall rest :: Stops(rest) ==> num(digits + rest) == |digits|
  }

  /** Strings without zero bytes, numerals that strtod takes. */
  ghost predicate Printable(num: Numeral, v: Value) {
    match v
    case Text(s) => 0 !in s
    case Number(digits) => IsNumber(num, digits)
    case Array(es) => PrintableElements(num, es)
    case Object(ms) => PrintableMembers(num, ms)
    case _ => true
  }

  ghost predicate PrintableElements(num: Numeral, es: Values) {
    match es
    case NoValues => true
    case Values(v, rest) => Printable(num, v) && PrintableElements(num, rest)
  }

  ghost predicate PrintableMembers(num: Numeral, ms: Members) {
    match ms
    case NoMembers => true
    case Members(key, v, rest) => 0 !in key && Printable(num, v) && PrintableMembers(num, rest)
  }

  // ----- skipping what was printed -----

  /** s stands at place p of the text. */
  predicate Has(text: seq<byte>, p: nat, s: seq<byte>) {
    p + |s| <= |text| && text[p..p+|s|] == s
  }

  lemma HasParts(text: seq<byte>, p: nat, a: seq<byte>, b: seq<byte>)
    requires Has(text, p, a + b)
    ensures Has(text, p, a) && Has(text, p + |a|, b)
  {
    var s := a + b;
    assert text[p..p+|s|][..|a|] == text[p..p+|a|];
    assert text[p..p+|s|][|a|..] == text[p+|a|..p+|s|];
    assert s[..|a|] == a && s[|a|..] == b;
  }

  lemma HasByte(text: seq<byte>, p: nat, c: byte)
    requires Has(text, p, [c])
    ensures ByteAt(text, p) == c && p < |text|
    ensures !IsSpace(c) ==> Ws(text, p) == p
  {
    assert text[p..p+1][0] == c;
  }

  lemma HasFront(text: seq<byte>, p: nat, s: seq<byte>)
    requires Has(text, p, s)
    ensures text[p..] == s + text[p+|s|..]
  {
  }

  /** A printed string is read whole. */
  lemma StringAt(text: seq<byte>, p: nat, s: seq<byte>)
    requires 0 !in s && Has(text, p, Quoted(s))
    ensures ReadString(text[p..]) == Got(s, |Quoted(s)|)
    ensures ByteAt(text, p) == QUOTE && Ws(text, p) == p
  {
    hide Quoted, ReadString, ByteAt, Ws;
    HasFront(text, p, Quoted(s));
    StringRoundTrip(s, text[p+|Quoted(s)|..]);
    QuotedIs(s);
    HasParts(text, p, [QUOTE], Escape(s) + [QUOTE]);
    HasByte(text, p, QUOTE);
  }

  lemma QuotedIs(s: seq<byte>)
    ensures Quoted(s) == [QUOTE] + (Escape(s) + [QUOTE])
  {
    assert Quoted(s) == [QUOTE] + (Escape(s) + [QUOTE]);
  }

  predicate StopsAt(text: seq<byte>, p: nat) {
    p >= |text| || IsSpace(text[p]) || text[p] == COMMA || text[p] == CLOSE_ARRAY || text[p] == CLOSE_OBJECT
  }

  /** The place behind a printed value, unless it nests too deep. */
  function Behind(p: nat, size: nat, deepest: nat): Option<nat> {
    if deepest <= MAX_NESTING then Some(p + size) else None
  }

  lemma TextAt(num: Numeral, text: seq<byte>, p: nat, depth: nat, s: seq<byte>)
    requires 0 !in s && Has(text, p, Quoted(s))
    ensures Skip(num, text, p, depth) == Some(p + |Quoted(s)|)
  {
    hide ReadString;
    StringAt(text, p, s);
  }

  lemma LiteralAt(num: Numeral, text: seq<byte>, p: nat, depth: nat, lit: seq<byte>)
    requires (lit == TRUE || lit == FALSE || lit == NULL) && Has(text, p, lit)
    ensures Skip(num, text, p, depth) == Some(p + |lit|)
  {
    HasFront(text, p, lit);
    assert lit == [lit[0]] + lit[1..];
    HasParts(text, p, [lit[0]], lit[1..]);
    HasByte(text, p, lit[0]);
    assert lit <= text[p..];
    assert text[p..][0] == lit[0];
  }

  lemma NumberAt(num: Numeral, text: seq<byte>, p: nat, depth: nat, digits: seq<byte>)
    requires IsNumber(num, digits) && Has(text, p, digits) && StopsAt(text, p + |digits|)
    ensures Skip(num, text, p, depth) == Some(p + |digits|)
  {
    HasFront(text, p, digits);
    assert digits == [digits[0]] + digits[1..];
    HasParts(text, p, [digits[0]], digits[1..]);
    HasByte(text, p, digits[0]);
    assert Stops(text[p+|digits|..]);
    assert text[p..][0] == digits[0];
    ScalarOfDigits(num, text[p..]);
    hide Scalar;
  }

  /** No literal starts like a numeral. */
  lemma ScalarOfDigits(num: Numeral, r: seq<byte>)
    requires r != [] && (r[0] == 0x2d || 0x30 <= r[0] <= 0x39)
    ensures Scalar(num, r) == if num(r) <= |r| then num(r) else 0
  {
  }

  /** A printed value starts with a byte that is no space and no bracket that closes. */
  lemma FirstByte(num: Numeral, v: Value)
    requires Printable(num, v)
    ensures Print(v) != []
    ensures var c := Print(v)[0]; !IsSpace(c) && c != CLOSE_ARRAY && c != CLOSE_OBJECT
  {
  }

  lemma FirstAt(num: Numeral, text: seq<byte>, p: nat, v: Value)
    requires Printable(num, v) && Has(text, p, Print(v))
    ensures p < |text| && Ws(text, p) == p && ByteAt(text, p) != CLOSE_ARRAY && ByteAt(text, p) != CLOSE_OBJECT
  {
    FirstByte(num, v);
    hide Printable;
    var s := Print(v);
    hide Print;
    assert s == [s[0]] + s[1..];
    HasParts(text, p, [s[0]], s[1..]);
    HasByte(text, p, s[0]);
  }

  /** A printed value, whatever is behind it, is skipped whole exactly when it nests no deeper
      than the limit; otherwise it is refused.  Only a number needs something that ends it. */
  lemma {:induction false} SkipPrinted(num: Numeral, text: seq<byte>, p: nat, depth: nat, v: Value)
    requires Printable(num, v) && Has(text, p, Print(v)) && depth <= MAX_NESTING
    requires v.Number? ==> StopsAt(text, p + |Print(v)|)
    ensures Skip(num, text, p, depth) == Behind(p, |Print(v)|, depth + Nesting(v))
    decreases v, 1
  {
    hide Skip, SkipElements, SkipMembers, PrintElements, PrintMembers, Quoted, Has, StopsAt, IsNumber;
    match v
    case Text(s) => TextAt(num, text, p, depth, s);
    case Number(digits) => NumberAt(num, text, p, depth, digits);
    case True => LiteralAt(num, text, p, depth, TRUE);
    case False => LiteralAt(num, text, p, depth, FALSE);
    case Null => LiteralAt(num, text, p, depth, NULL);
    case Array(es) =>
      OpenedArray(num, text, p, depth, es);
      if es.Values? && depth < MAX_NESTING {
        ElementsPrinted(num, text, p + 1, depth, es);
      }
    case Object(ms) =>
      OpenedObject(num, text, p, depth, ms);
      if ms.Members? && depth < MAX_NESTING {
        MembersPrinted(num, text, p + 1, depth, ms);
      }
  }

  lemma OpenedArray(num: Numeral, text: seq<byte>, p: nat, depth: nat, es: Values)
    requires PrintableElements(num, es) && Has(text, p, Print(Array(es)))
    ensures depth >= MAX_NESTING ==> Skip(num, text, p, depth) == None
    ensures depth < MAX_NESTING && es.NoValues? ==> Skip(num, text, p, depth) == Some(p + 2)
    ensures depth < MAX_NESTING && es.Values? ==>
              Has(text, p + 1, PrintElements(es)) && Skip(num, text, p, depth) == SkipElements(num, text, p + 1, depth)
    ensures |Print(Array(es))| == if es.NoValues? then 2 else 1 + |PrintElements(es)|
  {
    hide SkipElements, PrintElements;
    var inside := if es.NoValues? then [CLOSE_ARRAY] else PrintElements(es);
    HasParts(text, p, [OPEN_ARRAY], inside);
    HasByte(text, p, OPEN_ARRAY);
    if es.NoValues? {
      HasByte(text, p + 1, CLOSE_ARRAY);
    } else {
      ElementsFirst(num, text, p + 1, es);
    }
  }

  lemma ElementsFirst(num: Numeral, text: seq<byte>, p: nat, es: Values)
    requires es.Values? && Printable(num, es.first) && Has(text, p, PrintElements(es))
    ensures p < |text| && Ws(text, p) == p && ByteAt(text, p) != CLOSE_ARRAY
  {
    HasParts(text, p, Print(es.first), ElementsTail(es));
    FirstAt(num, text, p, es.first);
  }

  function ElementsTail(es: Values): seq<byte>
    requires es.Values?
  {
    if es.rest.NoValues? then [CLOSE_ARRAY] else [COMMA] + PrintElements(es.rest)
  }

  lemma ElementsAre(es: Values)
    requires es.Values?
    ensures PrintElements(es) == Print(es.first) + ElementsTail(es)
  {
  }

  /** After an element: the closing bracket, or a comma and the other elements. */
  lemma ElementsNext(text: seq<byte>, p: nat, es: Values)
    requires es.Values? && Has(text, p, PrintElements(es))
    ensures var n := p + |Print(es.first)|;
            && Has(text, p, Print(es.first)) && n < |text| && StopsAt(text, n) && Ws(text, n) == n
            && |PrintElements(es)| == |Print(es.first)| + |ElementsTail(es)|
            && (es.rest.NoValues? ==> ByteAt(text, n) == CLOSE_ARRAY && |ElementsTail(es)| == 1)
            && (es.rest.Values? ==> ByteAt(text, n) == COMMA && Has(text, n + 1, PrintElements(es.rest))
                                    && |ElementsTail(es)| == 1 + |PrintElements(es.rest)|)
  {
    hide Print, PrintElements;
    ElementsAre(es);
    HasParts(text, p, Print(es.first), ElementsTail(es));
    var n := p + |Print(es.first)|;
    if es.rest.NoValues? {
      HasByte(text, n, CLOSE_ARRAY);
    } else {
      HasParts(text, n, [COMMA], PrintElements(es.rest));
      HasByte(text, n, COMMA);
    }
  }

  lemma {:induction false} ElementsPrinted(num: Numeral, text: seq<byte>, p: nat, depth: nat, es: Values)
    requires es.Values? && PrintableElements(num, es) && Has(text, p, PrintElements(es)) && depth < MAX_NESTING
    ensures SkipElements(num, text, p, depth) == Behind(p, |PrintElements(es)|, depth + 1 + NestingOfElements(es))
    decreases es, 0
  {
    hide Skip, PrintElements, Print, Has, ElementsTail, Nesting, Printable;
    ElementsNext(text, p, es);
    SkipPrinted(num, text, p, depth + 1, es.first);
    if es.rest.Values? {
      ElementsPrinted(num, text, p + |Print(es.first)| + 1, depth, es.rest);
    }
  }

  lemma OpenedObject(num: Numeral, text: seq<byte>, p: nat, depth: nat, ms: Members)
    requires PrintableMembers(num, ms) && Has(text, p, Print(Object(ms)))
    ensures depth >= MAX_NESTING ==> Skip(num, text, p, depth) == None
    ensures depth < MAX_NESTING && ms.NoMembers? ==> Skip(num, text, p, depth) == Some(p + 2)
    ensures depth < MAX_NESTING && ms.Members? ==>
              Has(text, p + 1, PrintMembers(ms)) && Skip(num, text, p, depth) == SkipMembers(num, text, p + 1, depth)
    ensures |Print(Object(ms))| == if ms.NoMembers? then 2 else 1 + |PrintMembers(ms)|
  {
    hide SkipMembers, PrintMembers;
    var inside := if ms.NoMembers? then [CLOSE_OBJECT] else PrintMembers(ms);
    HasParts(text, p, [OPEN_OBJECT], inside);
    HasByte(text, p, OPEN_OBJECT);
    if ms.NoMembers? {
      HasByte(text, p + 1, CLOSE_OBJECT);
    } else {
      MembersFirst(text, p + 1, ms);
    }
  }

  lemma MembersFirst(text: seq<byte>, p: nat, ms: Members)
    requires ms.Members? && 0 !in ms.key && Has(text, p, PrintMembers(ms))
    ensures p < |text| && Ws(text, p) == p && ByteAt(text, p) == QUOTE
  {
    HasParts(text, p, Quoted(ms.key), [COLON] + (Print(ms.value) + MembersTail(ms)));
    StringAt(text, p, ms.key);
  }

  function MembersTail(ms: Members): seq<byte>
    requires ms.Members?
  {
    if ms.rest.NoMembers? then [CLOSE_OBJECT] else [COMMA] + PrintMembers(ms.rest)
  }

  lemma MemberParts(ms: Members)
    requires ms.Members?
    ensures PrintMembers(ms) == Quoted(ms.key) + ([COLON] + (Print(ms.value) + MembersTail(ms)))
  {
    hide Quoted, Print;
  }

  /** A member starts with its key and the colon. */
  lemma MemberKey(text: seq<byte>, p: nat, ms: Members)
    requires ms.Members? && 0 !in ms.key && Has(text, p, PrintMembers(ms))
    ensures var c := p + |Quoted(ms.key)|;
            && ReadString(text[p..]) == Got(ms.key, |Quoted(ms.key)|)
            && c < |text| && Ws(text, c) == c && ByteAt(text, c) == COLON
            && Has(text, c + 1, Print(ms.value) + MembersTail(ms))
            && |PrintMembers(ms)| == |Quoted(ms.key)| + 1 + |Print(ms.value)| + |MembersTail(ms)|
  {
    hide Quoted, ReadString, Print, PrintMembers, MembersTail;
    var rest := Print(ms.value) + MembersTail(ms);
    MemberParts(ms);
    HasParts(text, p, Quoted(ms.key), [COLON] + rest);
    StringAt(text, p, ms.key);
    HasParts(text, p + |Quoted(ms.key)|, [COLON], rest);
    HasByte(text, p + |Quoted(ms.key)|, COLON);
  }

  /** Behind the colon: its value, and the closing brace or a comma and the other members. */
  lemma MemberValue(text: seq<byte>, p: nat, ms: Members)
    requires ms.Members? && Has(text, p, Print(ms.value) + MembersTail(ms))
    ensures var n := p + |Print(ms.value)|;
            && Has(text, p, Print(ms.value)) && n < |text| && StopsAt(text, n) && Ws(text, n) == n
            && (ms.rest.NoMembers? ==> ByteAt(text, n) == CLOSE_OBJECT && |MembersTail(ms)| == 1)
            && (ms.rest.Members? ==> ByteAt(text, n) == COMMA && Has(text, n + 1, PrintMembers(ms.rest))
                                     && |MembersTail(ms)| == 1 + |PrintMembers(ms.rest)|)
  {
    hide Print, PrintMembers;
    HasParts(text, p, Print(ms.value), MembersTail(ms));
    var n := p + |Print(ms.value)|;
    if ms.rest.NoMembers? {
      HasByte(text, n, CLOSE_OBJECT);
    } else {
      HasParts(text, n, [COMMA], PrintMembers(ms.rest));
      HasByte(text, n, COMMA);
    }
  }

  /** Where the value of a member printed at p begins. */
  function ValuePlace(p: nat, ms: Members): nat
    requires ms.Members?
  {
    p + |Quoted(ms.key)| + 1
  }

  lemma MemberReady(text: seq<byte>, p: nat, ms: Members)
    requires ms.Members? && 0 !in ms.key && Has(text, p, PrintMembers(ms))
    ensures var q := ValuePlace(p, ms);
            && q <= |text| && Has(text, q, Print(ms.value)) && StopsAt(text, q + |Print(ms.value)|)
  {
    hide PrintMembers, Print, Has, MembersTail, ReadString, Quoted, Spaces;
    MemberKey(text, p, ms);
    MemberValue(text, p + |Quoted(ms.key)| + 1, ms);
  }

  /** One printed member is skipped if its value is. */
  lemma MemberPrinted(num: Numeral, text: seq<byte>, p: nat, depth: nat, ms: Members, deepest: nat)
    requires ms.Members? && 0 !in ms.key && Has(text, p, PrintMembers(ms))
    requires var q := ValuePlace(p, ms);
             q <= |text| && Skip(num, text, q, depth + 1) == Behind(q, |Print(ms.value)|, deepest)
    ensures var n := ValuePlace(p, ms) + |Print(ms.value)|;
            && Member(num, text, p, depth) == (if deepest <= MAX_NESTING then Some(n) else None)
            && n < |text|
            && (ms.rest.NoMembers? ==> ByteAt(text, n) == CLOSE_OBJECT && p + |PrintMembers(ms)| == n + 1)
            && (ms.rest.Members? ==> ByteAt(text, n) == COMMA && Has(text, n + 1, PrintMembers(ms.rest))
                                     && p + |PrintMembers(ms)| == n + 1 + |PrintMembers(ms.rest)|)
  {
    hide Skip, PrintMembers, Print, Has, MembersTail, ReadString, Quoted, Spaces;
    MemberKey(text, p, ms);
    MemberValue(text, p + |Quoted(ms.key)| + 1, ms);
  }

  lemma {:induction false} MembersPrinted(num: Numeral, text: seq<byte>, p: nat, depth: nat, ms: Members)
    requires ms.Members? && PrintableMembers(num, ms) && Has(text, p, PrintMembers(ms)) && depth < MAX_NESTING
    ensures SkipMembers(num, text, p, depth) == Behind(p, |PrintMembers(ms)|, depth + 1 + NestingOfMembers(ms))
    decreases ms, 0
  {
    hide Skip, PrintMembers, Print, Has, Nesting, Printable, Member, ByteAt, StopsAt, ValuePlace;
    var q := ValuePlace(p, ms);
    MemberReady(text, p, ms);
    SkipPrinted(num, text, q, depth + 1, ms.value);
    MemberPrinted(num, text, p, depth, ms, depth + 1 + Nesting(ms.value));
    if ms.rest.Members? {
      MembersPrinted(num, text, q + |Print(ms.value)| + 1, depth, ms.rest);
    }
  }

  /** json_skip_value on a printed document with anything behind it: the whole of the document,
      if it nests at most 256 deep.  A number has to be told from more digits. */
  lemma SkipDocument(num: Numeral, v: Value, rest: seq<byte>)
    requires Printable(num, v) && (v.Number? ==> Stops(rest))
    ensures Skip(num, Print(v) + rest, 0, 0) == if Nesting(v) <= MAX_NESTING then Some(|Print(v)|) else None
  {
    var text := Print(v) + rest;
    hide Print, Skip, Nesting, Printable;
    assert text[..|Print(v)|] == Print(v);
    if rest != [] {
      assert text[|Print(v)|] == rest[0];
    }
    SkipPrinted(num, text, 0, 0, v);
  }
}
