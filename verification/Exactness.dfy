/**
 When the round trip holds. The generator escapes nothing and the tokenizer looks into strings only to
 find their end, so a text parses to the encoding of its tree exactly when every string body and
 every number in it is one the tokenizer reads to its end.
 */
module Exactness {
  import opened Jsmn
  import opened JsonTree
  import opened RoundTrip
  import opened Resume
  import opened Options
  import opened Zipper

  // ---------------------------------------------------------- what a scan found

  lemma {:induction false} HexFound(js: string, p: nat, n: nat)
    requires p <= |js| && ScanHex(js, p, n).Found?
    ensures var h := ScanHex(js, p, n).at;
            p <= h <= p + n && (forall i :: p <= i < h ==> HexDigit(js[i])) && (h < p + n ==> AtEnd(js, h))
    decreases n
  {
    if n == 0 || AtEnd(js, p) {
    } else {
      HexFound(js, p + 1, n - 1);
    }
  }

  /** The converse of `ScanBody`. */
  lemma {:induction false} BodyFound(js: string, p: nat, b: string)
    requires Occurs(js, p, b) && ScanString(js, p) == Found(p + |b|)
    ensures LegalBody(b)
    decreases |b|
  {
    if b == "" {
    } else {
      OccursAt(js, p, b, 0);
      if b[0] == '\\' && p + 1 < |js| {
        if SimpleEscape(js[p + 1]) {
          OccursAt(js, p, b, 1);
          OccursTail(js, p, b, 2);
          BodyFound(js, p + 2, b[2..]);
        } else {
          HexFound(js, p + 2, 4);
          assert ScanHex(js, p + 2, 4).at == p + 6;
          OccursAt(js, p, b, 1);
          OccursAt(js, p, b, 2);
          OccursAt(js, p, b, 3);
          OccursAt(js, p, b, 4);
          OccursAt(js, p, b, 5);
          OccursTail(js, p, b, 6);
          BodyFound(js, p + 6, b[6..]);
        }
      } else {
        OccursTail(js, p, b, 1);
        BodyFound(js, p + 1, b[1..]);
      }
    }
  }

  lemma {:induction false} LexemeFound(js: string, p: nat, w: string)
    requires Occurs(js, p, w) && ScanPrimitive(js, p) == Found(p + |w|)
    ensures forall i :: 0 <= i < |w| ==> PrimitiveChar(w[i])
    decreases |w|
  {
    if w == "" {
    } else {
      OccursAt(js, p, w, 0);
      OccursTail(js, p, w, 1);
      LexemeFound(js, p + 1, w[1..]);
      forall i | 0 <= i < |w| ensures PrimitiveChar(w[i]) {
        if i > 0 { assert w[i] == w[1..][i - 1]; }
      }
    }
  }

  // ------------------------------------------------------------- every token

  /**
   A token is spelled out by the text: a container starts with its bracket and, once closed, ends with
   the matching one; a string stands between quotes that its scan found; a primitive is one scan long.
   */
  ghost predicate Lexed(js: string, t: Token) {
    && 0 <= t.start < |js|
    && (t.kind == Object || t.kind == Array ==> js[t.start] == OpenBracket(t.kind) && (t.end != -1 ==> Closed(js, t)))
    && (t.kind == String ==>
          t.start > 0 && js[t.start - 1] == '"' && t.end >= 0 && ScanString(js, t.start) == Found(t.end))
    && (t.kind == Primitive ==>
          t.end >= 0 && PrimitiveStart(js[t.start]) && ScanPrimitive(js, t.start) == Found(t.end))
  }

  ghost predicate Closed(js: string, t: Token)
    requires t.kind == Object || t.kind == Array
  {
    0 < t.end <= |js| && js[t.end - 1] == if t.kind == Object then '}' else ']'
  }

  function OpenBracket(kind: Kind): char
    requires kind == Object || kind == Array
  {
    if kind == Object then '{' else '['
  }

  ghost predicate AllLexed(js: string, toks: seq<Token>) {
    forall k :: 0 <= k < |toks| ==> Lexed(js, toks[k])
  }

  lemma AttachLexed(s: State, js: string, kind: Kind, start: int, end: int)
    requires Wf(s) && AllLexed(js, s.toks) && Lexed(js, Token(kind, start, end, 0, s.super))
    ensures AllLexed(js, Attach(s, kind, start, end))
  {
    var r := Attach(s, kind, start, end);
    forall k | 0 <= k < |r| ensures Lexed(js, r[k]) {
      if k < |s.toks| { assert Lexed(js, s.toks[k]); }
    }
  }

  lemma StepLexed(s: State, js: string, cap: nat)
    requires Wf(s) && !AtEnd(js, s.pos) && AllLexed(js, s.toks)
    ensures AllLexed(js, Step(s, js, cap).s.toks)
  {
    hide ScanString, ScanPrimitive, AllLexed, Attach, Climb;
    var c := js[s.pos];
    if c == '{' {
      AttachLexed(s, js, Object, s.pos, -1);
    } else if c == '[' {
      AttachLexed(s, js, Array, s.pos, -1);
    } else if c == '}' {
      CloseLexed(s, js, Object);
    } else if c == ']' {
      CloseLexed(s, js, Array);
    } else if c == '"' {
      var r := ScanString(js, s.pos + 1);
      assert js[s.pos + 1 - 1] == '"';
      if r.Found? { AttachLexed(s, js, String, s.pos + 1, r.at); }
    } else if PrimitiveStart(c) {
      var r := ScanPrimitive(js, s.pos);
      if r.Found? { AttachLexed(s, js, Primitive, s.pos, r.at); }
    }
  }

  lemma CloseLexed(s: State, js: string, kind: Kind)
    requires Wf(s) && AllLexed(js, s.toks) && (kind == Object || kind == Array)
    requires s.pos < |js| && js[s.pos] == if kind == Object then '}' else ']'
    ensures AllLexed(js, CloseStep(s, kind).s.toks)
  {
    var r := CloseStep(s, kind).s.toks;
    forall k | 0 <= k < |r| ensures Lexed(js, r[k]) { assert Lexed(js, s.toks[k]); }
  }

  /** Whatever the text, every token of every state a call leaves is spelled out by it. */
  lemma {:induction false} RunLexed(s: State, js: string, cap: nat)
    requires Wf(s) && AllLexed(js, s.toks)
    ensures AllLexed(js, Run(s, js, cap).s.toks)
    decreases |js| - s.pos
  {
    hide AllLexed, Step;
    if AtEnd(js, s.pos) {
    } else {
      StepLexed(s, js, cap);
      var o := Step(s, js, cap);
      if o.Next? { RunLexed(o.s, js, cap); }
    }
  }

  // --------------------------------------------------------------- the trees

  /** Layout and integers are as they should be; string bodies and other numbers may be anything. */
  predicate Spaced(v: Value) {
    match v
    case Obj(pad, ms) => Blanks(pad) && SpacedMembers(ms)
    case Arr(pad, xs) => Blanks(pad) && SpacedItems(xs)
    case Int(n) => Decimal.Int32(n)
    case _ => true
  }

  predicate SpacedMembers(ms: Members) {
    match ms
    case NoMember => true
    case Member(g0, _, g1, g2, v, g3, rest) =>
      Blanks(g0) && Blanks(g1) && Blanks(g2) && Spaced(v) && Blanks(g3) && SpacedMembers(rest)
  }

  predicate SpacedItems(xs: Items) {
    match xs
    case NoItem => true
    case Item(g0, v, g1, rest) => Blanks(g0) && Spaced(v) && Blanks(g1) && SpacedItems(rest)
  }

  lemma {:induction false} LexedIsLegal(js: string, toks: seq<Token>, v: Value, at: nat, idx: nat, parent: int)
    requires AllLexed(js, toks) && Sits(js, toks, v, at, idx, parent) && Spaced(v)
    ensures Legal(v)
    decreases v, 1
  {
    hide Sits, SitsMembers, SitsItems, Lexed, LegalBody, LegalLexeme, Print, Occurs, Blanks;
    SitsBound(js, toks, v, at, idx, parent);
    SitsHead(js, toks, v, at, idx, parent);
    match v
    case Obj(_, ms) =>
      SitsObject(js, toks, v, at, idx, parent);
      LexedMembersAreLegal(js, toks, ms, at + 1 + |v.pad|, idx + 1, idx);
    case Arr(_, xs) =>
      SitsArray(js, toks, v, at, idx, parent);
      LexedItemsAreLegal(js, toks, xs, at + 1 + |v.pad|, idx + 1, idx);
    case Str(body) => LexedString(js, toks[idx], body);
    case Float(w) =>
      FloatText(v);
      LexedNumber(js, toks[idx], w);
    case _ =>
  }

  lemma FloatText(v: Value)
    requires v.Float?
    ensures Print(v) == v.lexeme
  {
  }

  lemma LexedString(js: string, t: Token, body: string)
    requires Lexed(js, t) && t.kind == String && t.end == t.start + |body| && t.start >= 0 && Occurs(js, t.start, body)
    ensures LegalBody(body)
  {
    BodyFound(js, t.start, body);
  }

  lemma LexedNumber(js: string, t: Token, w: string)
    requires Lexed(js, t) && t.kind == Primitive && t.end == t.start + |w| && t.start >= 0 && Occurs(js, t.start, w)
    ensures LegalLexeme(w)
  {
    LexemeFound(js, t.start, w);
    OccursAt(js, t.start, w, 0);
  }

  lemma {:induction false} LexedMembersAreLegal(js: string, toks: seq<Token>, ms: Members, at: nat, k: nat, o: int)
    requires AllLexed(js, toks) && SitsMembers(js, toks, ms, at, k, o) && SpacedMembers(ms)
    ensures LegalMembers(ms)
    decreases ms, 0
  {
    hide Sits, SitsMembers, Lexed, LegalBody;
    if ms.NoMember? {
    } else {
      SitsMember(js, toks, ms, at, k, o);
      assert k < |toks| by { MemberInside(js, toks, ms, at, k, o); }
      LexedString(js, toks[k], ms.name);
      LexedIsLegal(js, toks, ms.value, ValueAt(ms, at), k + 1, k);
      LexedMembersAreLegal(js, toks, ms.rest, NextMemberAt(ms, at), k + 1 + Size(ms.value), o);
    }
  }

  lemma {:induction false} LexedItemsAreLegal(js: string, toks: seq<Token>, xs: Items, at: nat, k: nat, o: int)
    requires AllLexed(js, toks) && SitsItems(js, toks, xs, at, k, o) && SpacedItems(xs)
    ensures LegalItems(xs)
    decreases xs, 0
  {
    hide Sits, SitsItems, Lexed;
    if xs.NoItem? {
    } else {
      SitsItem(js, toks, xs, at, k, o);
      LexedIsLegal(js, toks, xs.value, at + |xs.g0|, k, o);
      LexedItemsAreLegal(js, toks, xs.rest, NextItemAt(xs, at), k + Size(xs.value), o);
    }
  }

  lemma MemberInside(js: string, toks: seq<Token>, ms: Members, at: nat, k: nat, o: int)
    requires ms.Member? && SitsMembers(js, toks, ms, at, k, o)
    ensures k < |toks|
  {
  }

  /**
   The round trip, exactly: a text laid out with blanks parses to the preorder encoding of its tree if
   and only if all its string bodies, names and numbers are ones the tokenizer accepts.
   */
  lemma RoundTripExactly(w1: string, v: Value, w2: string)
    requires Container(v) && Spaced(v) && Blanks(w1) && Blanks(w2)
    ensures ParseStart(w1 + Print(v) + w2) == Some(Encode(v, |w1|, 0, -1)) <==> Legal(v)
  {
    hide Print, Encode, Legal, Sits, AllLexed, Spaced;
    var js := w1 + Print(v) + w2;
    if Legal(v) { ParseStartPrinted(w1, v, w2); }
    if ParseStart(js) == Some(Encode(v, |w1|, 0, -1)) {
      RootSits(w1, v, w2);
      ParsedLexed(js);
      LexedIsLegal(js, Encode(v, |w1|, 0, -1), v, |w1|, 0, -1);
    }
  }

  lemma ParsedLexed(js: string)
    requires ParseStart(js).Some?
    ensures AllLexed(js, ParseStart(js).value)
  {
    RunLexed(INIT, js, CountRun(js, 0, 0).code);
  }

  lemma UnbalancedCount()
    ensures CountRun("{}:}", 0, 0).code == 1
  {
    var js := "{}:}";
    assert CountRun(js, 4, 1).code == 1;
    assert CountRun(js, 3, 1).code == 1;
    assert CountRun(js, 2, 1).code == 1;
    assert CountRun(js, 1, 1).code == 1;
  }

  lemma UnbalancedOpens()
    ensures Step(INIT, "{}:}", 1) == Next(State(1, [Token(Object, 0, -1, 0, -1)], 0))
  {
    hide StringStep, PrimitiveStep, CloseStep;
  }

  lemma UnbalancedCloses()
    ensures Step(State(1, [Token(Object, 0, -1, 0, -1)], 0), "{}:}", 1)
         == Next(State(2, [Token(Object, 0, 2, 0, -1)], -1))
  {
    hide StringStep, PrimitiveStep, OpenStep;
    var o, c := Token(Object, 0, -1, 0, -1), Token(Object, 0, 2, 0, -1);
    assert Climb([o], 0) == 0 && [o][0 := c] == [c];
  }

  lemma UnbalancedClosesAgain()
    ensures var js, c := "{}:}", Token(Object, 0, 2, 0, -1);
            && Step(State(2, [c], -1), js, 1) == Next(State(3, [c], 0))
            && Step(State(3, [c], 0), js, 1) == Next(State(4, [c], 0))
  {
    hide StringStep, PrimitiveStep, OpenStep;
    assert Climb([Token(Object, 0, 2, 0, -1)], 0) == 0;
  }

  /** Brackets need not balance: a closing one is let through when nothing is open and some token is superior. */
  lemma UnbalancedAccepted()
    ensures ParseStart("{}:}") == Some([Token(Object, 0, 2, 0, -1)])
  {
    var js, o, c := "{}:}", Token(Object, 0, -1, 0, -1), Token(Object, 0, 2, 0, -1);
    UnbalancedCount();
    UnbalancedOpens();
    UnbalancedCloses();
    UnbalancedClosesAgain();
    hide Step, CountRun, Run;
    RunStep(INIT, js, 1, State(1, [o], 0));
    RunStep(State(1, [o], 0), js, 1, State(2, [c], -1));
    RunStep(State(2, [c], -1), js, 1, State(3, [c], 0));
    RunStep(State(3, [c], 0), js, 1, State(4, [c], 0));
    RunAtEnd(State(4, [c], 0), js, 1);
  }

  lemma KeyOnlyText(b: string)
    ensures var js, q := "{\"" + b + "\"}", "\"" + b + "\"";
            |js| == |b| + 4 && Occurs(js, 0, "{") && Occurs(js, 1, q) && Occurs(js, |b| + 3, "}")
  {
    var js, q := "{\"" + b + "\"}", "\"" + b + "\"";
    assert js == "{" + q + "}";
    OccursWhole(js);
    hide Occurs;
    OccursSplit(js, 0, "{" + q, "}");
    OccursSplit(js, 0, "{", q);
  }

  lemma KeyOnlyRun(js: string, b: string)
    requires LegalBody(b) && |js| == |b| + 4
    requires Occurs(js, 0, "{") && Occurs(js, 1, "\"" + b + "\"") && Occurs(js, |b| + 3, "}")
    ensures var toks := [Token(Object, 0, |b| + 4, 1, -1), Token(String, 2, |b| + 2, 0, 0)];
            Run(INIT, js, 2) == Result(2, State(|js|, toks, -1))
  {
    hide Run, Step, Occurs, LegalBody;
    var o, k := Token(Object, 0, -1, 0, -1), Token(String, 2, |b| + 2, 0, 0);
    RunOpen(INIT, js, 2, Object);
    var s1 := State(1, [o], 0);
    assert Attach(INIT, Object, 0, -1) == s1.toks;
    RunString(s1, js, 2, b);
    var s2 := State(|b| + 3, [o.(size := 1), k], 0);
    assert Attach(s1, String, 2, |b| + 2) == s2.toks;
    hide Attach;
    RunClose(s2, js, 2, Object, 0);
    var done := State(|b| + 4, [o.(size := 1, end := |b| + 4), k], -1);
    assert s2.toks[0 := s2.toks[0].(end := |b| + 4)] == done.toks;
    RunAtEnd(done, js, 2);
  }

  /** Any key may be without its value, and then has no child. */
  lemma KeyWithoutValue(b: string)
    requires LegalBody(b)
    ensures ParseStart("{\"" + b + "\"}")
         == Some([Token(Object, 0, |b| + 4, 1, -1), Token(String, 2, |b| + 2, 0, 0)])
  {
    hide Run, Occurs, LegalBody, ParseStart;
    var js := "{\"" + b + "\"}";
    KeyOnlyText(b);
    KeyOnlyRun(js, b);
    TwoPassesSuffice(js, 2);
  }
}
