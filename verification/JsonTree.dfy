/**
 JSON texts as trees (RFC 8259, sections 2 to 7), their printing, and the token array that
 describes a printed tree. White space around the structural characters is part of the tree, so
 every layout of a text is covered; the generator's own output is the one without any.
 */
module JsonTree {
  import opened Jsmn
  import Decimal

  /** `Float` holds the text of a number that is not an integer. */
  datatype Value =
    | Obj(pad: string, members: Members)
    | Arr(pad: string, items: Items)
    | Str(body: string)
    | Int(n: int)
    | Float(lexeme: string)
    | Bool(b: bool)
    | Null

  /** `g0 "name" g1 : g2 value g3`, then a comma if there is another member. */
  datatype Members =
    | NoMember
    | Member(g0: string, name: string, g1: string, g2: string, value: Value, g3: string, rest: Members)

  /** `g0 value g1`, then a comma if there is another item. */
  datatype Items =
    | NoItem
    | Item(g0: string, value: Value, g1: string, rest: Items)

  predicate Container(v: Value) {
    v.Obj? || v.Arr?
  }

  predicate IsPrimitive(v: Value) {
    v.Int? || v.Float? || v.Bool? || v.Null?
  }

  /** The text of a primitive. */
  function Lexeme(v: Value): string
    requires IsPrimitive(v)
  {
    match v
    case Int(n) => Decimal.Show(n)
    case Float(w) => w
    case Bool(b) => if b then "true" else "false"
    case Null => "null"
  }

  function Print(v: Value): (w: string)
    ensures Container(v) ==> |w| >= 2
    decreases v, 0
  {
    match v
    case Obj(pad, ms) => "{" + pad + PrintMembers(ms) + "}"
    case Arr(pad, xs) => "[" + pad + PrintItems(xs) + "]"
    case Str(body) => "\"" + body + "\""
    case _ => Lexeme(v)
  }

  function PrintMembers(ms: Members): string
    decreases ms, 0
  {
    match ms
    case NoMember => ""
    case Member(g0, name, g1, g2, v, g3, rest) =>
      g0 + "\"" + name + "\"" + g1 + ":" + g2 + Print(v) + g3 + MoreMembers(rest)
  }

  function MoreMembers(ms: Members): string
    decreases ms, 1
  {
    if ms.NoMember? then "" else "," + PrintMembers(ms)
  }

  function PrintItems(xs: Items): string
    decreases xs, 0
  {
    match xs
    case NoItem => ""
    case Item(g0, v, g1, rest) => g0 + Print(v) + g1 + MoreItems(rest)
  }

  function MoreItems(xs: Items): string
    decreases xs, 1
  {
    if xs.NoItem? then "" else "," + PrintItems(xs)
  }

  // ---------------------------------------------------------------- legality

  // The character classes below are those of RFC 8259, not of the tokenizer: that the tokenizer has the
  // same ones is part of what `RoundTrip` and `Exactness` prove.

  /** White space: space, tab, line feed and carriage return (section 2). */
  predicate Space(c: char) {
    c in {' ', '\t', '\n', '\r'}
  }

  /** What may follow a backslash on its own (section 7). */
  predicate ShortEscape(c: char) {
    c in {'"', '\\', '/', 'b', 'f', 'n', 'r', 't'}
  }

  /** A hexadecimal digit behind `\u` (section 7). */
  predicate Hex(c: char) {
    Decimal.IsDigit(c) || 'a' <= c <= 'f' || 'A' <= c <= 'F'
  }

  predicate Blanks(w: string) {
    forall i :: 0 <= i < |w| ==> Space(w[i])
  }

  /** A string body the tokenizer reads to its end: no bare quote, no NUL, whole escapes. */
  predicate LegalBody(b: string) {
    if b == "" then true
    else if b[0] == '\0' || b[0] == '"' then false
    else if b[0] == '\\' then
      |b| >= 2 &&
      if ShortEscape(b[1]) then LegalBody(b[2..])
      else b[1] == 'u' && |b| >= 6 && Hex(b[2]) && Hex(b[3]) && Hex(b[4]) && Hex(b[5]) && LegalBody(b[6..])
    else LegalBody(b[1..])
  }

  /** Visible ASCII, but for what ends a value: a comma or a closing bracket. */
  predicate PrimitiveChar(c: char) {
    ' ' < c < 127 as char && c !in {',', ']', '}'}
  }

  /** A number or a literal starts with a sign, a digit, or the first letter of `true`, `false` or `null`. */
  predicate LexemeStart(c: char) {
    Decimal.IsDigit(c) || c in {'-', 't', 'f', 'n'}
  }

  predicate LegalLexeme(w: string) {
    w != "" && LexemeStart(w[0]) && forall i :: 0 <= i < |w| ==> PrimitiveChar(w[i])
  }

  predicate AllDigits(w: string) {
    w != "" && forall i :: 0 <= i < |w| ==> Decimal.IsDigit(w[i])
  }

  /** The parts of a number (section 6): no leading zero, an optional fraction, an optional exponent. */
  predicate IntPart(w: string) {
    AllDigits(w) && (w[0] == '0' ==> |w| == 1)
  }

  predicate FracPart(w: string) {
    w == "" || (w[0] == '.' && AllDigits(w[1..]))
  }

  predicate ExpPart(w: string) {
    w == "" || (w[0] in {'e', 'E'} && |w| > 1 && AllDigits(if w[1] in {'+', '-'} then w[2..] else w[1..]))
  }

  lemma PartChars(f: string, e: string)
    requires FracPart(f) && ExpPart(e)
    ensures forall i :: 0 <= i < |f| ==> PrimitiveChar(f[i])
    ensures forall i :: 0 <= i < |e| ==> PrimitiveChar(e[i])
  {
    assert forall i :: 0 < i < |f| ==> f[i] == f[1..][i - 1];
    assert forall i :: 0 < i < |e| ==> e[i] == e[1..][i - 1];
    assert forall i :: 1 < i < |e| ==> e[i] == e[2..][i - 2];
  }

  /** Every number of RFC 8259 is legal. */
  lemma NumbersAreLegal(minus: bool, n: string, f: string, e: string)
    requires IntPart(n) && FracPart(f) && ExpPart(e)
    ensures LegalLexeme((if minus then "-" else "") + n + f + e)
  {
    PartChars(f, e);
  }

  predicate Legal(v: Value) {
    match v
    case Obj(pad, ms) => Blanks(pad) && LegalMembers(ms)
    case Arr(pad, xs) => Blanks(pad) && LegalItems(xs)
    case Str(body) => LegalBody(body)
    case Int(n) => Decimal.Int32(n)
    case Float(w) => LegalLexeme(w)
    case Bool(_) => true
    case Null => true
  }

  predicate LegalMembers(ms: Members) {
    match ms
    case NoMember => true
    case Member(g0, name, g1, g2, v, g3, rest) =>
      Blanks(g0) && LegalBody(name) && Blanks(g1) && Blanks(g2) && Legal(v) && Blanks(g3) && LegalMembers(rest)
  }

  predicate LegalItems(xs: Items) {
    match xs
    case NoItem => true
    case Item(g0, v, g1, rest) => Blanks(g0) && Legal(v) && Blanks(g1) && LegalItems(rest)
  }

  lemma LegalPrimitives(v: Value)
    requires IsPrimitive(v) && Legal(v)
    ensures LegalLexeme(Lexeme(v))
  {
  }

  // ---------------------------------------------------------------- encoding

  /** The number of tokens of a value. */
  function Size(v: Value): (n: nat)
    ensures n >= 1
  {
    match v
    case Obj(_, ms) => 1 + SizeMembers(ms)
    case Arr(_, xs) => 1 + SizeItems(xs)
    case _ => 1
  }

  function SizeMembers(ms: Members): nat {
    match ms
    case NoMember => 0
    case Member(_, _, _, _, v, _, rest) => 1 + Size(v) + SizeMembers(rest)
  }

  function SizeItems(xs: Items): nat {
    match xs
    case NoItem => 0
    case Item(_, v, _, rest) => Size(v) + SizeItems(rest)
  }

  function CountMembers(ms: Members): nat {
    if ms.NoMember? then 0 else 1 + CountMembers(ms.rest)
  }

  function CountItems(xs: Items): nat {
    if xs.NoItem? then 0 else 1 + CountItems(xs.rest)
  }

  /** Where the value of the first member stands, when the members' text starts at `at`. */
  function ValueAt(ms: Members, at: nat): nat
    requires ms.Member?
  {
    at + |ms.g0| + 1 + |ms.name| + 1 + |ms.g1| + 1 + |ms.g2|
  }

  /** Where the text of the next member starts. */
  function NextMemberAt(ms: Members, at: nat): nat
    requires ms.Member?
  {
    ValueAt(ms, at) + |Print(ms.value)| + |ms.g3| + 1
  }

  function NextItemAt(xs: Items, at: nat): nat
    requires xs.Item?
  {
    at + |xs.g0| + |Print(xs.value)| + |xs.g1| + 1
  }

  /** The tokens of a value whose text starts at `at`, whose token is number `idx`, below `parent`. */
  function Encode(v: Value, at: nat, idx: nat, parent: int): (ts: seq<Token>)
    ensures |ts| == Size(v)
  {
    match v
    case Obj(pad, ms) =>
      [Token(Object, at, at + |Print(v)|, CountMembers(ms), parent)] + EncodeMembers(ms, at + 1 + |pad|, idx + 1, idx)
    case Arr(pad, xs) =>
      [Token(Array, at, at + |Print(v)|, CountItems(xs), parent)] + EncodeItems(xs, at + 1 + |pad|, idx + 1, idx)
    case Str(body) => [Token(String, at + 1, at + 1 + |body|, 0, parent)]
    case _ => [Token(Primitive, at, at + |Lexeme(v)|, 0, parent)]
  }

  function EncodeMembers(ms: Members, at: nat, idx: nat, parent: int): (ts: seq<Token>)
    ensures |ts| == SizeMembers(ms)
  {
    match ms
    case NoMember => []
    case Member(g0, name, _, _, v, _, rest) =>
      [Token(String, at + |g0| + 1, at + |g0| + 1 + |name|, 1, parent)]
      + Encode(v, ValueAt(ms, at), idx + 1, idx)
      + EncodeMembers(rest, NextMemberAt(ms, at), idx + 1 + Size(v), parent)
  }

  function EncodeItems(xs: Items, at: nat, idx: nat, parent: int): (ts: seq<Token>)
    ensures |ts| == SizeItems(xs)
  {
    match xs
    case NoItem => []
    case Item(g0, v, _, rest) =>
      Encode(v, at + |g0|, idx, parent) + EncodeItems(rest, NextItemAt(xs, at), idx + Size(v), parent)
  }

  // ------------------------------------------------------------- relocation

  /** The same token for a text that starts `at` characters further on, numbered from `idx`. */
  function Shift(t: Token, at: int, idx: int): Token {
    t.(start := t.start + at, end := t.end + at, parent := t.parent + idx)
  }

  function ShiftAll(ts: seq<Token>, at: int, idx: int): (r: seq<Token>)
    ensures |r| == |ts| && forall k :: 0 <= k < |ts| ==> r[k] == Shift(ts[k], at, idx)
  {
    seq(|ts|, k requires 0 <= k < |ts| => Shift(ts[k], at, idx))
  }

  lemma ShiftConcat(a: seq<Token>, b: seq<Token>, at: int, idx: int)
    ensures ShiftAll(a + b, at, idx) == ShiftAll(a, at, idx) + ShiftAll(b, at, idx)
  {
  }

  /** Encoding commutes with moving the text and renumbering the tokens. */
  lemma {:induction false} EncodeShift(v: Value, at: nat, idx: nat, parent: int, d: nat, e: nat)
    ensures Encode(v, at + d, idx + e, parent + e) == ShiftAll(Encode(v, at, idx, parent), d, e)
  {
    hide Print, EncodeMembers, EncodeItems;
    match v
    case Obj(pad, ms) =>
      EncodeMembersShift(ms, at + 1 + |pad|, idx + 1, idx, d, e);
      ShiftConcat([Token(Object, at, at + |Print(v)|, CountMembers(ms), parent)],
                  EncodeMembers(ms, at + 1 + |pad|, idx + 1, idx), d, e);
    case Arr(pad, xs) =>
      EncodeItemsShift(xs, at + 1 + |pad|, idx + 1, idx, d, e);
      ShiftConcat([Token(Array, at, at + |Print(v)|, CountItems(xs), parent)],
                  EncodeItems(xs, at + 1 + |pad|, idx + 1, idx), d, e);
    case _ =>
  }

  lemma {:induction false} EncodeMembersShift(ms: Members, at: nat, idx: nat, parent: int, d: nat, e: nat)
    ensures EncodeMembers(ms, at + d, idx + e, parent + e) == ShiftAll(EncodeMembers(ms, at, idx, parent), d, e)
  {
    hide Print, Encode, Size;
    match ms
    case NoMember =>
    case Member(g0, name, _, _, v, _, rest) =>
      var key := [Token(String, at + |g0| + 1, at + |g0| + 1 + |name|, 1, parent)];
      var val := Encode(v, ValueAt(ms, at), idx + 1, idx);
      EncodeShift(v, ValueAt(ms, at), idx + 1, idx, d, e);
      EncodeMembersShift(rest, NextMemberAt(ms, at), idx + 1 + Size(v), parent, d, e);
      ShiftConcat(key, val, d, e);
      ShiftConcat(key + val, EncodeMembers(rest, NextMemberAt(ms, at), idx + 1 + Size(v), parent), d, e);
  }

  lemma {:induction false} EncodeItemsShift(xs: Items, at: nat, idx: nat, parent: int, d: nat, e: nat)
    ensures EncodeItems(xs, at + d, idx + e, parent + e) == ShiftAll(EncodeItems(xs, at, idx, parent), d, e)
  {
    hide Print, Encode, Size;
    match xs
    case NoItem =>
    case Item(g0, v, _, rest) =>
      EncodeShift(v, at + |g0|, idx, parent, d, e);
      EncodeItemsShift(rest, NextItemAt(xs, at), idx + Size(v), parent, d, e);
      ShiftConcat(Encode(v, at + |g0|, idx, parent),
                  EncodeItems(rest, NextItemAt(xs, at), idx + Size(v), parent), d, e);
  }

  /** A token of an encoding numbered from `idx`: closed, and below `parent` or another of its tokens. */
  predicate Inside(t: Token, idx: nat, parent: int) {
    t.end >= 0 && (t.parent == parent || t.parent >= idx)
  }

  lemma {:induction false} EncodeInside(v: Value, at: nat, idx: nat, parent: int)
    ensures forall k :: 0 <= k < Size(v) ==> Inside(Encode(v, at, idx, parent)[k], idx, parent)
  {
    match v
    case Obj(pad, ms) => EncodeMembersInside(ms, at + 1 + |pad|, idx + 1, idx);
    case Arr(pad, xs) => EncodeItemsInside(xs, at + 1 + |pad|, idx + 1, idx);
    case _ =>
  }

  lemma {:induction false} EncodeMembersInside(ms: Members, at: nat, idx: nat, parent: int)
    ensures forall k :: 0 <= k < SizeMembers(ms) ==> Inside(EncodeMembers(ms, at, idx, parent)[k], idx, parent)
  {
    match ms
    case NoMember =>
    case Member(_, _, _, _, v, _, rest) =>
      EncodeInside(v, ValueAt(ms, at), idx + 1, idx);
      EncodeMembersInside(rest, NextMemberAt(ms, at), idx + 1 + Size(v), parent);
  }

  lemma {:induction false} EncodeItemsInside(xs: Items, at: nat, idx: nat, parent: int)
    ensures forall k :: 0 <= k < SizeItems(xs) ==> Inside(EncodeItems(xs, at, idx, parent)[k], idx, parent)
  {
    match xs
    case NoItem =>
    case Item(g0, v, _, rest) =>
      EncodeInside(v, at + |g0|, idx, parent);
      EncodeItemsInside(rest, NextItemAt(xs, at), idx + Size(v), parent);
  }
}
