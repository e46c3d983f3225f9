/**
 The strict, parent-linked build of the jsmn tokenizer, as a machine on values.

 One `Step` is one iteration of the main loop of `jsmn_parse`; `Run` is one call.
 The class that updates the token array in place is `JsmnParser.Parser`; it is proved to
 compute `Run`, so everything proved about `Run` holds of it.
 */
module Jsmn {

  datatype Kind = Undefined | Object | Array | String | Primitive

  datatype Token = Token(kind: Kind, start: int, end: int, size: int, parent: int) {
    /** The test the source writes as `start != -1 && end == -1`. */
    predicate Open() {
      start != -1 && end == -1
    }
  }

  /** `toks` are the cells filled so far, so `toknext` is `|toks|`. */
  datatype State = State(pos: nat, toks: seq<Token>, super: int)

  const NOMEM := -1
  const INVAL := -2
  const PART := -3

  const INIT := State(0, [], -1)

  // ---------------------------------------------------------------- scanning

  datatype Scan = Found(at: nat) | Invalid | Partial

  /** The guard of every scanning loop, negated. */
  predicate AtEnd(js: string, p: nat) {
    p >= |js| || js[p] == '\0'
  }

  predicate Blank(c: char) {
    c == '\t' || c == '\r' || c == '\n' || c == ' '
  }

  predicate Delimiter(c: char) {
    Blank(c) || c == ',' || c == ']' || c == '}'
  }

  predicate PrimitiveStart(c: char) {
    c == '-' || '0' <= c <= '9' || c == 't' || c == 'f' || c == 'n'
  }

  predicate SimpleEscape(c: char) {
    c == '"' || c == '/' || c == '\\' || c == 'b' || c == 'f' || c == 'r' || c == 'n' || c == 't'
  }

  predicate HexDigit(c: char) {
    '0' <= c <= '9' || 'A' <= c <= 'F' || 'a' <= c <= 'f'
  }

  /** Where the primitive whose characters start at `p` is ended by a delimiter. */
  function ScanPrimitive(js: string, p: nat): (r: Scan)
    ensures r.Found? ==> p <= r.at < |js| && js[r.at] != '\0' && Delimiter(js[r.at])
    decreases |js| - p
  {
    if AtEnd(js, p) then Partial
    else if Delimiter(js[p]) then Found(p)
    else if js[p] < ' ' || js[p] >= 127 as char then Invalid
    else ScanPrimitive(js, p + 1)
  }

  /** At most `n` hexadecimal digits from `p`; a shorter run is allowed only at the end of input. */
  function ScanHex(js: string, p: nat, n: nat): (r: Scan)
    requires p <= |js|
    ensures r.Found? ==> p <= r.at <= |js|
    ensures !r.Partial?
    decreases n
  {
    if n == 0 || AtEnd(js, p) then Found(p)
    else if !HexDigit(js[p]) then Invalid
    else ScanHex(js, p + 1, n - 1)
  }

  /** Where the string whose body starts at `p` has its closing quote. */
  function ScanString(js: string, p: nat): (r: Scan)
    ensures r.Found? ==> p <= r.at < |js| && js[r.at] == '"'
    decreases |js| - p
  {
    if AtEnd(js, p) then Partial
    else if js[p] == '"' then Found(p)
    else if js[p] == '\\' && p + 1 < |js| then
      if SimpleEscape(js[p + 1]) then ScanString(js, p + 2)
      else if js[p + 1] == 'u' then
        var h := ScanHex(js, p + 2, 4);
        if h.Found? then ScanString(js, h.at) else Invalid
      else Invalid
    else ScanString(js, p + 1)
  }

  // ------------------------------------------------------------------- steps

  /** Parents point backwards, so every parent chain ends. */
  predicate ParentsOk(toks: seq<Token>) {
    forall k :: 0 <= k < |toks| ==> -1 <= toks[k].parent < k
  }

  predicate Wf(s: State) {
    ParentsOk(s.toks) && -1 <= s.super < |s.toks|
  }

  datatype Outcome = Next(s: State) | Halt(code: int, s: State)

  /** `size++` on the superior token, when there is one. */
  function Bump(toks: seq<Token>, super: int): (r: seq<Token>)
    requires -1 <= super < |toks|
    ensures |r| == |toks|
    ensures forall k :: 0 <= k < |toks| ==>
      r[k] == toks[k].(size := toks[k].size + if k == super then 1 else 0)
  {
    if super == -1 then toks else toks[super := toks[super].(size := toks[super].size + 1)]
  }

  /** The token array after a fresh token has been hung below the superior one. */
  function Attach(s: State, kind: Kind, start: int, end: int): (r: seq<Token>)
    requires Wf(s)
    ensures ParentsOk(r)
  {
    Bump(s.toks, s.super) + [Token(kind, start, end, 0, s.super)]
  }

  function OpenStep(s: State, kind: Kind, cap: nat): (o: Outcome)
    requires Wf(s)
    ensures Wf(o.s)
  {
    if |s.toks| >= cap then Halt(NOMEM, s)
    else if s.super != -1 && s.toks[s.super].kind == Object then Halt(INVAL, s)
    else Next(State(s.pos + 1, Attach(s, kind, s.pos, -1), |s.toks|))
  }

  /** The token at which the climb along parent links from `i` stops. */
  function Climb(toks: seq<Token>, i: nat): (r: nat)
    requires ParentsOk(toks) && i < |toks|
    ensures r <= i
    ensures toks[r].Open() || toks[r].parent == -1
  {
    if toks[i].Open() || toks[i].parent == -1 then i else Climb(toks, toks[i].parent)
  }

  function CloseStep(s: State, kind: Kind): (o: Outcome)
    requires Wf(s)
    ensures Wf(o.s)
  {
    if |s.toks| < 1 then Halt(INVAL, s)
    else
      var t := Climb(s.toks, |s.toks| - 1);
      if s.toks[t].Open() then
        if s.toks[t].kind != kind then Halt(INVAL, s)
        else Next(State(s.pos + 1, s.toks[t := s.toks[t].(end := s.pos + 1)], s.toks[t].parent))
      else if s.toks[t].kind != kind || s.super == -1 then Halt(INVAL, s)
      else Next(s.(pos := s.pos + 1))
  }

  function LeafStep(s: State, kind: Kind, start: int, end: int, next: nat, cap: nat): (o: Outcome)
    requires Wf(s)
    ensures Wf(o.s)
  {
    if |s.toks| >= cap then Halt(NOMEM, s)
    else Next(State(next, Attach(s, kind, start, end), s.super))
  }

  function StringStep(s: State, js: string, cap: nat): (o: Outcome)
    requires Wf(s)
    ensures Wf(o.s)
  {
    match ScanString(js, s.pos + 1)
    case Found(q) => LeafStep(s, String, s.pos + 1, q, q + 1, cap)
    case Invalid => Halt(INVAL, s)
    case Partial => Halt(PART, s)
  }

  /** A primitive may not be an object key, nor a second value of a key. */
  predicate PrimitiveRefused(s: State)
    requires Wf(s)
  {
    s.super != -1 &&
    var t := s.toks[s.super];
    t.kind == Object || (t.kind == String && t.size != 0)
  }

  function PrimitiveStep(s: State, js: string, cap: nat): (o: Outcome)
    requires Wf(s)
    ensures Wf(o.s)
  {
    if PrimitiveRefused(s) then Halt(INVAL, s)
    else
      match ScanPrimitive(js, s.pos)
      case Found(q) => LeafStep(s, Primitive, s.pos, q, q, cap)
      case Invalid => Halt(INVAL, s)
      case Partial => Halt(PART, s)
  }

  /** A comma moves the superior token from a key (or any other leaf) up to its parent. */
  function CommaSuper(s: State): (super: int)
    requires Wf(s)
    ensures -1 <= super < |s.toks|
  {
    if s.super != -1 && s.toks[s.super].kind != Array && s.toks[s.super].kind != Object
    then s.toks[s.super].parent
    else s.super
  }

  function Step(s: State, js: string, cap: nat): (o: Outcome)
    requires Wf(s) && !AtEnd(js, s.pos)
    ensures Wf(o.s)
    ensures o.Next? ==> s.pos < o.s.pos
    ensures o.Halt? ==> o.s == s && o.code < 0
  {
    var c := js[s.pos];
    if c == '{' then OpenStep(s, Object, cap)
    else if c == '[' then OpenStep(s, Array, cap)
    else if c == '}' then CloseStep(s, Object)
    else if c == ']' then CloseStep(s, Array)
    else if c == '"' then StringStep(s, js, cap)
    else if Blank(c) then Next(s.(pos := s.pos + 1))
    else if c == ':' then Next(s.(pos := s.pos + 1, super := |s.toks| - 1))
    else if c == ',' then Next(s.(pos := s.pos + 1, super := CommaSuper(s)))
    else if PrimitiveStart(c) then
      assert !Delimiter(c);
      assert ScanPrimitive(js, s.pos).Found? ==> s.pos < ScanPrimitive(js, s.pos).at;
      PrimitiveStep(s, js, cap)
    else Halt(INVAL, s)
  }

  /** The index of the last open token below `n`, or -1: the backward scan of the source. */
  function LastOpen(toks: seq<Token>, n: nat): (r: int)
    requires n <= |toks|
    ensures -1 <= r < n
    ensures r != -1 ==> toks[r].Open()
    ensures forall k :: r < k < n ==> !toks[k].Open()
  {
    if n == 0 then -1
    else if toks[n - 1].Open() then n - 1
    else LastOpen(toks, n - 1)
  }

  function Finish(toks: seq<Token>): (code: int)
    ensures code == PART <==> exists k :: 0 <= k < |toks| && toks[k].Open()
    ensures code != PART ==> code == |toks|
  {
    if LastOpen(toks, |toks|) != -1 then PART else |toks|
  }

  datatype Result = Result(code: int, s: State)

  /** One call of `jsmn_parse` with a token array of `cap` cells. */
  function Run(s: State, js: string, cap: nat): (r: Result)
    requires Wf(s)
    ensures Wf(r.s)
    decreases |js| - s.pos
  {
    if AtEnd(js, s.pos) then Result(Finish(s.toks), s)
    else
      match Step(s, js, cap)
      case Next(t) => Run(t, js, cap)
      case Halt(code, t) => Result(code, t)
  }

  // ---------------------------------------------------- the counting pass

  /** One call of `jsmn_parse` with null tokens: `pos` and `count` where it stops. */
  datatype Count = Count(code: int, pos: nat)

  datatype CountOutcome = Skip(pos: nat, added: nat) | Stop(code: int)

  /** Brackets are only counted here, whatever they enclose. */
  function CountStep(js: string, pos: nat): (o: CountOutcome)
    requires !AtEnd(js, pos)
    ensures o.Skip? ==> pos < o.pos && o.added <= 1
    ensures o.Stop? ==> o.code < 0
  {
    var c := js[pos];
    if c == '{' || c == '[' then Skip(pos + 1, 1)
    else if c == '"' then
      match ScanString(js, pos + 1)
      case Found(q) => Skip(q + 1, 1)
      case Invalid => Stop(INVAL)
      case Partial => Stop(PART)
    else if PrimitiveStart(c) then
      assert !Delimiter(c);
      match ScanPrimitive(js, pos)
      case Found(q) => Skip(q, 1)
      case Invalid => Stop(INVAL)
      case Partial => Stop(PART)
    else if Blank(c) || c == '}' || c == ']' || c == ':' || c == ',' then Skip(pos + 1, 0)
    else Stop(INVAL)
  }

  function CountRun(js: string, pos: nat, count: nat): (r: Count)
    ensures r.code >= 0 ==> count <= r.code
    decreases |js| - pos
  {
    if AtEnd(js, pos) then Count(count, pos)
    else
      match CountStep(js, pos)
      case Skip(q, n) => CountRun(js, q, count + n)
      case Stop(code) => Count(code, pos)
  }
}
