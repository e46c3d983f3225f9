/**
 Parsing a printed tree gives exactly the tree's encoding.

 The lemmas follow the text: each says that the tokenizer, at the start of some piece, behaves
 as it does after that piece with the piece's tokens added.
 */
module RoundTrip {
  import opened Options
  import opened Jsmn
  import opened JsonTree
  import Resume

  /** `w` stands in `js` at `p`. */
  predicate Occurs(js: string, p: nat, w: string) {
    p + |w| <= |js| && js[p..p + |w|] == w
  }

  lemma OccursSplit(js: string, p: nat, a: string, b: string)
    ensures Occurs(js, p, a + b) <==> Occurs(js, p, a) && Occurs(js, p + |a|, b)
  {
    if p + |a| + |b| <= |js| {
      var w := js[p..p + |a| + |b|];
      assert w[..|a|] == js[p..p + |a|];
      assert w[|a|..] == js[p + |a|..p + |a| + |b|];
      assert w == w[..|a|] + w[|a|..];
      assert (a + b)[..|a|] == a && (a + b)[|a|..] == b;
    }
  }

  lemma OccursWhole(js: string)
    ensures Occurs(js, 0, js)
  {
  }

  lemma OccursAt(js: string, p: nat, w: string, i: nat)
    requires Occurs(js, p, w) && i < |w|
    ensures p + i < |js| && js[p + i] == w[i]
  {
    assert js[p + i] == js[p..p + |w|][i];
  }

  lemma OccursTail(js: string, p: nat, w: string, i: nat)
    requires Occurs(js, p, w) && i <= |w|
    ensures Occurs(js, p + i, w[i..])
  {
    assert w == w[..i] + w[i..];
    OccursSplit(js, p, w[..i], w[i..]);
  }

  // ------------------------------------------------------------------ scans

  lemma {:induction false} ScanBody(js: string, p: nat, b: string)
    requires LegalBody(b) && Occurs(js, p, b + "\"")
    ensures ScanString(js, p) == Found(p + |b|)
    decreases |b|
  {
    var w := b + "\"";
    OccursAt(js, p, w, 0);
    if b == "" {
    } else {
      if b[0] == '\\' {
        OccursAt(js, p, w, 1);
        if SimpleEscape(b[1]) {
          OccursTail(js, p, w, 2);
          assert w[2..] == b[2..] + "\"";
          ScanBody(js, p + 2, b[2..]);
        } else {
          ScanFourHex(js, p, b);
          OccursTail(js, p, w, 6);
          assert w[6..] == b[6..] + "\"";
          ScanBody(js, p + 6, b[6..]);
        }
      } else {
        OccursTail(js, p, w, 1);
        assert w[1..] == b[1..] + "\"";
        ScanBody(js, p + 1, b[1..]);
      }
    }
  }

  lemma ScanFourHex(js: string, p: nat, b: string)
    requires |b| >= 6 && Hex(b[2]) && Hex(b[3]) && Hex(b[4]) && Hex(b[5])
    requires Occurs(js, p, b + "\"")
    ensures ScanHex(js, p + 2, 4) == Found(p + 6)
  {
    var w := b + "\"";
    OccursAt(js, p, w, 2);
    OccursAt(js, p, w, 3);
    OccursAt(js, p, w, 4);
    OccursAt(js, p, w, 5);
    assert ScanHex(js, p + 6, 0) == Found(p + 6);
    assert ScanHex(js, p + 5, 1) == Found(p + 6);
    assert ScanHex(js, p + 4, 2) == Found(p + 6);
  }

  lemma {:induction false} ScanLexeme(js: string, p: nat, e: nat)
    requires p <= e < |js| && Delimiter(js[e])
    requires forall i :: p <= i < e ==> PrimitiveChar(js[i])
    ensures ScanPrimitive(js, p) == Found(e)
    decreases e - p
  {
    if p == e {
    } else {
      ScanLexeme(js, p + 1, e);
    }
  }

  // --------------------------------------------------------- pieces of text

  lemma RunStep(s: State, js: string, cap: nat, t: State)
    requires Wf(s) && !AtEnd(js, s.pos) && Step(s, js, cap) == Next(t)
    ensures Run(s, js, cap) == Run(t, js, cap)
  {
  }

  lemma {:induction false} RunBlanks(s: State, js: string, cap: nat, w: string)
    requires Wf(s) && Blanks(w) && Occurs(js, s.pos, w)
    ensures var t := s.(pos := s.pos + |w|); Run(s, js, cap) == Run(t, js, cap)
    decreases |w|
  {
    if w == "" {
      assert s.(pos := s.pos + |w|) == s;
    } else {
      OccursAt(js, s.pos, w, 0);
      OccursTail(js, s.pos, w, 1);
      var t := s.(pos := s.pos + 1);
      RunStep(s, js, cap, t);
      RunBlanks(t, js, cap, w[1..]);
      assert t.(pos := t.pos + |w[1..]|) == s.(pos := s.pos + |w|);
    }
  }

  lemma RunString(s: State, js: string, cap: nat, b: string)
    requires Wf(s) && LegalBody(b) && Occurs(js, s.pos, "\"" + b + "\"") && |s.toks| < cap
    ensures var t := State(s.pos + |b| + 2, Attach(s, String, s.pos + 1, s.pos + 1 + |b|), s.super);
            Run(s, js, cap) == Run(t, js, cap)
  {
    assert "\"" + b + "\"" == "\"" + (b + "\"");
    OccursSplit(js, s.pos, "\"", b + "\"");
    OccursAt(js, s.pos, "\"", 0);
    ScanBody(js, s.pos + 1, b);
    var t := State(s.pos + |b| + 2, Attach(s, String, s.pos + 1, s.pos + 1 + |b|), s.super);
    assert Step(s, js, cap) == Next(t);
    RunStep(s, js, cap, t);
  }

  lemma RunPrimitive(s: State, js: string, cap: nat, w: string)
    requires Wf(s) && LegalLexeme(w) && Occurs(js, s.pos, w) && |s.toks| < cap
    requires s.pos + |w| < |js| && Delimiter(js[s.pos + |w|]) && !PrimitiveRefused(s)
    ensures var t := State(s.pos + |w|, Attach(s, Primitive, s.pos, s.pos + |w|), s.super);
            Run(s, js, cap) == Run(t, js, cap)
  {
    forall i | s.pos <= i < s.pos + |w| ensures PrimitiveChar(js[i]) { OccursAt(js, s.pos, w, i - s.pos); }
    OccursAt(js, s.pos, w, 0);
    ScanLexeme(js, s.pos, s.pos + |w|);
    var t := State(s.pos + |w|, Attach(s, Primitive, s.pos, s.pos + |w|), s.super);
    assert Step(s, js, cap) == Next(t);
    RunStep(s, js, cap, t);
  }

  lemma RunMark(s: State, js: string, cap: nat, c: char)
    requires Wf(s) && Occurs(js, s.pos, [c]) && (c == ':' || c == ',')
    ensures var t := s.(pos := s.pos + 1, super := if c == ':' then |s.toks| - 1 else CommaSuper(s));
            Run(s, js, cap) == Run(t, js, cap)
  {
    OccursAt(js, s.pos, [c], 0);
    RunStep(s, js, cap, s.(pos := s.pos + 1, super := if c == ':' then |s.toks| - 1 else CommaSuper(s)));
  }

  lemma RunOpen(s: State, js: string, cap: nat, kind: Kind)
    requires Wf(s) && |s.toks| < cap && (kind == Object || kind == Array)
    requires Occurs(js, s.pos, if kind == Object then "{" else "[")
    requires s.super == -1 || s.toks[s.super].kind != Object
    ensures var t := State(s.pos + 1, Attach(s, kind, s.pos, -1), |s.toks|);
            Run(s, js, cap) == Run(t, js, cap)
  {
    OccursAt(js, s.pos, if kind == Object then "{" else "[", 0);
    RunStep(s, js, cap, State(s.pos + 1, Attach(s, kind, s.pos, -1), |s.toks|));
  }

  /** From a closed token whose chain stays above `o` until it reaches it, the climb ends at the open `o`. */
  lemma {:induction false} ClimbTo(toks: seq<Token>, o: nat, i: nat)
    requires ParentsOk(toks) && o <= i < |toks| && toks[o].Open()
    requires forall k :: o < k < |toks| ==> Inside(toks[k], o + 1, o)
    ensures Climb(toks, i) == o
    decreases i
  {
    if i == o {
    } else {
      ClimbTo(toks, o, toks[i].parent);
    }
  }

  /** A closing bracket closes `o` when `o` is open and everything after it is inside it and closed. */
  lemma RunClose(s: State, js: string, cap: nat, kind: Kind, o: nat)
    requires Wf(s) && o < |s.toks| && s.toks[o].kind == kind && s.toks[o].Open()
    requires forall k :: o < k < |s.toks| ==> Inside(s.toks[k], o + 1, o)
    requires kind == Object || kind == Array
    requires Occurs(js, s.pos, if kind == Object then "}" else "]")
    ensures var t := State(s.pos + 1, s.toks[o := s.toks[o].(end := s.pos + 1)], s.toks[o].parent);
            Run(s, js, cap) == Run(t, js, cap)
  {
    OccursAt(js, s.pos, if kind == Object then "}" else "]", 0);
    ClimbTo(s.toks, o, |s.toks| - 1);
    RunStep(s, js, cap, State(s.pos + 1, s.toks[o := s.toks[o].(end := s.pos + 1)], s.toks[o].parent));
  }

  // ------------------------------------------------------- token bookkeeping

  /** `n` more children for token `o`. */
  function Grow(toks: seq<Token>, o: nat, n: int): (r: seq<Token>)
    requires o < |toks|
    ensures |r| == |toks|
  {
    toks[o := toks[o].(size := toks[o].size + n)]
  }

  /** One member and then the rest, seen as all the members at once. */
  lemma MemberGlue(toks: seq<Token>, o: nat, key: Token, val: seq<Token>, rest: seq<Token>, n: nat)
    requires o < |toks|
    ensures Grow(Bump(Bump(toks, o) + [key], |toks|) + val, o, n) + rest
         == Grow(toks, o, n + 1) + ([key.(size := key.size + 1)] + val + rest)
  {
    var k1 := key.(size := key.size + 1);
    var b := Bump(toks, o);
    assert Bump(b + [key], |toks|) == b + [k1];
    assert Grow((b + [k1]) + val, o, n) == Grow(toks, o, n + 1) + [k1] + val;
  }

  lemma ItemGlue(toks: seq<Token>, o: nat, val: seq<Token>, rest: seq<Token>, n: nat)
    requires o < |toks|
    ensures Grow(Bump(toks, o) + val, o, n) + rest == Grow(toks, o, n + 1) + (val + rest)
  {
    assert Grow(Bump(toks, o) + val, o, n) == Grow(toks, o, n + 1) + val;
  }

  /** Opening a container, filling it and closing it, seen at once. */
  lemma ContainerGlue(b: seq<Token>, t: Token, kids: seq<Token>, n: nat, end: int)
    ensures var r := Grow(b + [t], |b|, n) + kids;
            r[|b| := r[|b|].(end := end)] == b + ([t.(end := end, size := t.size + n)] + kids)
  {
    assert Grow(b + [t], |b|, n) == b + [t.(size := t.size + n)];
  }

  // ----------------------------------------------------------------- values

  /** A value may stand here: not directly inside an object, and a key takes its first one. */
  predicate Ready(s: State)
    requires Wf(s)
  {
    s.super == -1 ||
    var t := s.toks[s.super]; t.kind != Object && (t.kind == String ==> t.size == 0)
  }

  /** The state after the value `v`. */
  function After(v: Value, s: State): (t: State)
    requires Wf(s)
  {
    State(s.pos + |Print(v)|, Bump(s.toks, s.super) + Encode(v, s.pos, |s.toks|, s.super), s.super)
  }

  predicate DelimiterAt(js: string, p: nat) {
    p < |js| && Delimiter(js[p])
  }

  lemma {:induction false} RunValue(v: Value, s: State, js: string, cap: nat)
    requires Wf(s) && Legal(v) && Ready(s) && Occurs(js, s.pos, Print(v))
    requires |s.toks| + Size(v) <= cap
    requires IsPrimitive(v) ==> DelimiterAt(js, s.pos + |Print(v)|)
    ensures Wf(After(v, s)) && Run(s, js, cap) == Run(After(v, s), js, cap)
    decreases v, 1
  {
    hide Run, Step;
    match v
    case Obj(pad, ms) => RunObject(v, s, js, cap);
    case Arr(pad, xs) => RunArray(v, s, js, cap);
    case Str(body) => RunString(s, js, cap, body);
    case _ =>
      LegalPrimitives(v);
      RunPrimitive(s, js, cap, Lexeme(v));
  }

  lemma {:induction false} RunObject(v: Value, s: State, js: string, cap: nat)
    requires v.Obj? && Wf(s) && Legal(v) && Ready(s) && Occurs(js, s.pos, Print(v))
    requires |s.toks| + Size(v) <= cap
    ensures Wf(After(v, s)) && Run(s, js, cap) == Run(After(v, s), js, cap)
    decreases v, 0
  {
    hide Run, Step, Occurs, PrintMembers, LegalMembers, Blanks;
    var p, o, w := s.pos, |s.toks|, PrintMembers(v.members);
    var e := p + 1 + |v.pad|;
    OccursSplit(js, p, "{" + v.pad + w, "}");
    OccursSplit(js, p, "{" + v.pad, w);
    OccursSplit(js, p, "{", v.pad);
    RunOpen(s, js, cap, Object);
    var s1 := State(p + 1, Attach(s, Object, p, -1), o);
    RunBlanks(s1, js, cap, v.pad);
    var s2 := s1.(pos := e);
    OccursAt(js, e + |w|, "}", 0);
    var s3 := RunMembers(v.members, s2, js, cap);
    EncodeMembersInside(v.members, e, o + 1, o);
    RunClose(s3, js, cap, Object, o);
    ContainerGlue(Bump(s.toks, s.super), Token(Object, p, -1, 0, s.super),
                  EncodeMembers(v.members, e, o + 1, o), CountMembers(v.members), p + |Print(v)|);
  }

  lemma {:induction false} RunArray(v: Value, s: State, js: string, cap: nat)
    requires v.Arr? && Wf(s) && Legal(v) && Ready(s) && Occurs(js, s.pos, Print(v))
    requires |s.toks| + Size(v) <= cap
    ensures Wf(After(v, s)) && Run(s, js, cap) == Run(After(v, s), js, cap)
    decreases v, 0
  {
    hide Run, Step, Occurs, PrintItems, LegalItems, Blanks;
    var p, o, w := s.pos, |s.toks|, PrintItems(v.items);
    var e := p + 1 + |v.pad|;
    OccursSplit(js, p, "[" + v.pad + w, "]");
    OccursSplit(js, p, "[" + v.pad, w);
    OccursSplit(js, p, "[", v.pad);
    RunOpen(s, js, cap, Array);
    var s1 := State(p + 1, Attach(s, Array, p, -1), o);
    RunBlanks(s1, js, cap, v.pad);
    var s2 := s1.(pos := e);
    OccursAt(js, e + |w|, "]", 0);
    var s3 := RunItems(v.items, s2, js, cap);
    EncodeItemsInside(v.items, e, o + 1, o);
    RunClose(s3, js, cap, Array, o);
    ContainerGlue(Bump(s.toks, s.super), Token(Array, p, -1, 0, s.super),
                  EncodeItems(v.items, e, o + 1, o), CountItems(v.items), p + |Print(v)|);
  }

  /** `t` is the state after the members `ms` of object `s.super`. */
  predicate AfterMembers(ms: Members, s: State, t: State)
    requires Wf(s) && s.super != -1
  {
    && t.pos == s.pos + |PrintMembers(ms)|
    && t.toks == Grow(s.toks, s.super, CountMembers(ms)) + EncodeMembers(ms, s.pos, |s.toks|, s.super)
  }

  /** The tokens after the first of the members `ms`, whose text starts at `at`, of object `o`. */
  function MemberToks(ms: Members, at: nat, toks: seq<Token>, o: nat): (r: seq<Token>)
    requires ms.Member? && o < |toks|
    ensures |r| == |toks| + 1 + Size(ms.value)
  {
    var key := Token(String, at + |ms.g0| + 1, at + |ms.g0| + 1 + |ms.name|, 0, o);
    Bump(Bump(toks, o) + [key], |toks|) + Encode(ms.value, ValueAt(ms, at), |toks| + 1, |toks|)
  }

  lemma MembersGlue(ms: Members, at: nat, toks: seq<Token>, o: nat)
    requires ms.Member? && o < |toks|
    ensures var r := MemberToks(ms, at, toks, o);
            Grow(r, o, CountMembers(ms.rest)) + EncodeMembers(ms.rest, NextMemberAt(ms, at), |r|, o)
            == Grow(toks, o, CountMembers(ms)) + EncodeMembers(ms, at, |toks|, o)
  {
    var key := Token(String, at + |ms.g0| + 1, at + |ms.g0| + 1 + |ms.name|, 0, o);
    var val := Encode(ms.value, ValueAt(ms, at), |toks| + 1, |toks|);
    var k := |toks| + 1 + Size(ms.value);
    MemberGlue(toks, o, key, val, EncodeMembers(ms.rest, NextMemberAt(ms, at), k, o), CountMembers(ms.rest));
  }

  lemma {:induction false} RunMembers(ms: Members, s: State, js: string, cap: nat) returns (t: State)
    requires Wf(s) && LegalMembers(ms) && Occurs(js, s.pos, PrintMembers(ms))
    requires s.super != -1 && s.toks[s.super].kind == Object
    requires |s.toks| + SizeMembers(ms) <= cap && DelimiterAt(js, s.pos + |PrintMembers(ms)|)
    ensures Wf(t) && AfterMembers(ms, s, t) && Run(s, js, cap) == Run(t, js, cap)
    decreases ms
  {
    hide Run, Step, Occurs;
    t := s;
    if ms.Member? {
      MembersGlue(ms, s.pos, s.toks, s.super);
      t := RunMember(ms, s, js, cap);
      if ms.rest.Member? {
        t := RunMoreMembers(ms, s, t, js, cap);
      } else {
        assert Grow(t.toks, s.super, 0) + [] == t.toks;
      }
    }
  }

  /** After one member, the comma and the members after it. */
  lemma {:induction false} RunMoreMembers(ms: Members, s: State, t: State, js: string, cap: nat) returns (u: State)
    requires ms.Member? && ms.rest.Member? && Wf(s) && Wf(t) && LegalMembers(ms)
    requires s.super != -1 && s.toks[s.super].kind == Object
    requires t.toks == MemberToks(ms, s.pos, s.toks, s.super) && t.super == |s.toks|
    requires t.pos + 1 == NextMemberAt(ms, s.pos) && Occurs(js, t.pos, MoreMembers(ms.rest))
    requires |s.toks| + SizeMembers(ms) <= cap && DelimiterAt(js, t.pos + |MoreMembers(ms.rest)|)
    ensures Wf(u) && Run(t, js, cap) == Run(u, js, cap)
    ensures u.pos == t.pos + |MoreMembers(ms.rest)|
    ensures u.toks == Grow(t.toks, s.super, CountMembers(ms.rest))
                      + EncodeMembers(ms.rest, NextMemberAt(ms, s.pos), |t.toks|, s.super)
    decreases ms, 0
  {
    hide Run, Step, Occurs;
    OccursSplit(js, t.pos, ",", PrintMembers(ms.rest));
    RunMark(t, js, cap, ',');
    var c := t.(pos := t.pos + 1, super := s.super);
    u := RunMembers(ms.rest, c, js, cap);
  }

  /** Up to the value of the first member. */
  lemma RunKey(ms: Members, s: State, js: string, cap: nat) returns (t: State)
    requires ms.Member? && Wf(s) && LegalMembers(ms) && Occurs(js, s.pos, PrintMembers(ms))
    requires s.super != -1 && s.toks[s.super].kind == Object && |s.toks| < cap
    requires DelimiterAt(js, s.pos + |PrintMembers(ms)|)
    ensures Wf(t) && Run(s, js, cap) == Run(t, js, cap)
    ensures t.pos == ValueAt(ms, s.pos) && t.super == |s.toks|
    ensures t.toks == Bump(s.toks, s.super) +
                      [Token(String, s.pos + |ms.g0| + 1, s.pos + |ms.g0| + 1 + |ms.name|, 0, s.super)]
  {
    hide Run, Step, Occurs, Print, PrintMembers, LegalBody, Blanks, Delimiter, Legal;
    var p := s.pos;
    MemberPieces(ms, js, p);
    RunBlanks(s, js, cap, ms.g0);
    var s1 := s.(pos := p + |ms.g0|);
    RunString(s1, js, cap, ms.name);
    var s2 := State(s1.pos + |ms.name| + 2, Attach(s1, String, s1.pos + 1, s1.pos + 1 + |ms.name|), s.super);
    RunColon(s2, js, cap, ms.g1, ms.g2);
    t := State(s2.pos + |ms.g1| + 1 + |ms.g2|, s2.toks, |s.toks|);
  }

  lemma RunColon(s: State, js: string, cap: nat, g1: string, g2: string)
    requires Wf(s) && Blanks(g1) && Blanks(g2)
    requires Occurs(js, s.pos, g1) && Occurs(js, s.pos + |g1|, ":") && Occurs(js, s.pos + |g1| + 1, g2)
    ensures var t := State(s.pos + |g1| + 1 + |g2|, s.toks, |s.toks| - 1);
            Run(s, js, cap) == Run(t, js, cap)
  {
    hide Run, Step, Occurs;
    RunBlanks(s, js, cap, g1);
    var s1 := s.(pos := s.pos + |g1|);
    RunMark(s1, js, cap, ':');
    var s2 := s1.(pos := s1.pos + 1, super := |s.toks| - 1);
    RunBlanks(s2, js, cap, g2);
  }

  lemma {:induction false} RunMember(ms: Members, s: State, js: string, cap: nat) returns (t: State)
    requires ms.Member? && Wf(s) && LegalMembers(ms) && Occurs(js, s.pos, PrintMembers(ms))
    requires s.super != -1 && s.toks[s.super].kind == Object
    requires |s.toks| + SizeMembers(ms) <= cap && DelimiterAt(js, s.pos + |PrintMembers(ms)|)
    ensures Wf(t) && Run(s, js, cap) == Run(t, js, cap)
    ensures t.pos + 1 == NextMemberAt(ms, s.pos) && t.super == |s.toks|
    ensures t.toks == MemberToks(ms, s.pos, s.toks, s.super)
    ensures Occurs(js, t.pos, MoreMembers(ms.rest)) && t.pos + |MoreMembers(ms.rest)| == s.pos + |PrintMembers(ms)|
    decreases ms, 0
  {
    hide Run, Step, Occurs, Legal, LegalBody, Blanks, Encode, Print, PrintMembers, Size;
    PrintMembersLength(ms, s.pos);
    MemberPieces(ms, js, s.pos);
    var k := RunKey(ms, s, js, cap);
    RunValue(ms.value, k, js, cap);
    var v := After(ms.value, k);
    RunBlanks(v, js, cap, ms.g3);
    t := v.(pos := v.pos + |ms.g3|);
  }

  lemma PrintMembersLength(ms: Members, at: nat)
    requires ms.Member?
    ensures at + |PrintMembers(ms)| == ValueAt(ms, at) + |Print(ms.value)| + |ms.g3| + |MoreMembers(ms.rest)|
  {
  }

  /** Where the pieces of a member stand, and that a delimiter follows its value. */
  lemma MemberPieces(ms: Members, js: string, p: nat)
    requires ms.Member? && LegalMembers(ms) && Occurs(js, p, PrintMembers(ms))
    requires DelimiterAt(js, p + |PrintMembers(ms)|)
    ensures Occurs(js, p, ms.g0) && Occurs(js, p + |ms.g0|, "\"" + ms.name + "\"")
    ensures var e := p + |ms.g0| + |ms.name| + 2;
            Occurs(js, e, ms.g1) && Occurs(js, e + |ms.g1|, ":") && Occurs(js, e + |ms.g1| + 1, ms.g2)
    ensures var e := ValueAt(ms, p);
            var f := e + |Print(ms.value)|;
            && Occurs(js, e, Print(ms.value)) && DelimiterAt(js, f)
            && Occurs(js, f, ms.g3) && Occurs(js, f + |ms.g3|, MoreMembers(ms.rest))
  {
    hide Occurs;
    var q, v, more := "\"" + ms.name + "\"", Print(ms.value), MoreMembers(ms.rest);
    var w0 := ms.g0 + q;
    var w1 := w0 + ms.g1;
    var w2 := w1 + ":";
    var w3 := w2 + ms.g2;
    var w4 := w3 + v;
    var w5 := w4 + ms.g3;
    assert PrintMembers(ms) == w5 + more by { assert ms.g0 + q == ms.g0 + "\"" + ms.name + "\""; }
    OccursSplit(js, p, w5, more);
    OccursSplit(js, p, w4, ms.g3);
    OccursSplit(js, p, w3, v);
    OccursSplit(js, p, w2, ms.g2);
    OccursSplit(js, p, w1, ":");
    OccursSplit(js, p, w0, ms.g1);
    OccursSplit(js, p, ms.g0, q);
    DelimiterAfter(js, p + |w4|, ms.g3, more);
  }

  /** The character after a value is a delimiter: a blank, a comma, or what follows the last value. */
  lemma DelimiterAfter(js: string, p: nat, gap: string, more: string)
    requires Occurs(js, p, gap) && Occurs(js, p + |gap|, more) && Blanks(gap)
    requires more == "" || more[0] == ','
    requires DelimiterAt(js, p + |gap| + |more|)
    ensures DelimiterAt(js, p)
  {
    if gap != "" { OccursAt(js, p, gap, 0); }
    else if more != "" { OccursAt(js, p, more, 0); }
  }

  predicate AfterItems(xs: Items, s: State, t: State)
    requires Wf(s) && s.super != -1
  {
    && t.pos == s.pos + |PrintItems(xs)|
    && t.toks == Grow(s.toks, s.super, CountItems(xs)) + EncodeItems(xs, s.pos, |s.toks|, s.super)
  }

  lemma {:induction false} RunItems(xs: Items, s: State, js: string, cap: nat) returns (t: State)
    requires Wf(s) && LegalItems(xs) && Occurs(js, s.pos, PrintItems(xs))
    requires s.super != -1 && s.toks[s.super].kind == Array
    requires |s.toks| + SizeItems(xs) <= cap && DelimiterAt(js, s.pos + |PrintItems(xs)|)
    ensures Wf(t) && AfterItems(xs, s, t) && Run(s, js, cap) == Run(t, js, cap)
    decreases xs
  {
    hide Run, Step, Occurs, Legal, LegalBody, Blanks, Encode, Print;
    t := s;
    if xs.NoItem? {
    } else {
      t := RunItem(xs, s, js, cap);
      var rest := xs.rest;
      if rest.Item? {
        OccursSplit(js, t.pos, ",", PrintItems(rest));
        RunMark(t, js, cap, ',');
        var u := t.(pos := t.pos + 1);
        t := RunItems(rest, u, js, cap);
      }
      ItemGlue(s.toks, s.super, Encode(xs.value, s.pos + |xs.g0|, |s.toks|, s.super),
               EncodeItems(rest, NextItemAt(xs, s.pos), |s.toks| + Size(xs.value), s.super), CountItems(rest));
    }
  }

  lemma {:induction false} RunItem(xs: Items, s: State, js: string, cap: nat) returns (t: State)
    requires xs.Item? && Wf(s) && LegalItems(xs) && Occurs(js, s.pos, PrintItems(xs))
    requires s.super != -1 && s.toks[s.super].kind == Array
    requires |s.toks| + SizeItems(xs) <= cap && DelimiterAt(js, s.pos + |PrintItems(xs)|)
    ensures Wf(t) && Run(s, js, cap) == Run(t, js, cap)
    ensures t.pos + 1 == NextItemAt(xs, s.pos) && t.super == s.super
    ensures t.toks == Bump(s.toks, s.super) + Encode(xs.value, s.pos + |xs.g0|, |s.toks|, s.super)
    ensures Occurs(js, t.pos, MoreItems(xs.rest))
    decreases xs, 0
  {
    hide Run, Step, Occurs;
    var p, more := s.pos, MoreItems(xs.rest);
    var w1 := xs.g0 + Print(xs.value);
    var w2 := w1 + xs.g1;
    OccursSplit(js, p, w2, more);
    OccursSplit(js, p, w1, xs.g1);
    OccursSplit(js, p, xs.g0, Print(xs.value));
    DelimiterAfter(js, p + |w1|, xs.g1, more);
    RunBlanks(s, js, cap, xs.g0);
    var s1 := s.(pos := p + |xs.g0|);
    RunValue(xs.value, s1, js, cap);
    var s2 := After(xs.value, s1);
    RunBlanks(s2, js, cap, xs.g1);
    t := s2.(pos := s2.pos + |xs.g1|);
  }

  // ------------------------------------------------------------ whole texts

  lemma RunAtEnd(s: State, js: string, cap: nat)
    requires Wf(s) && AtEnd(js, s.pos) && forall k :: 0 <= k < |s.toks| ==> s.toks[k].end >= 0
    ensures Run(s, js, cap) == Result(|s.toks|, s)
  {
  }

  /**
   Every JSON text with an object or array at its root, in any layout, parses to exactly the
   preorder encoding of its tree: types, spans, child counts and parents.
   */
  lemma ParsePrinted(w1: string, v: Value, w2: string, cap: nat)
    requires Container(v) && Legal(v) && Blanks(w1) && Blanks(w2) && Size(v) <= cap
    ensures var js := w1 + Print(v) + w2;
            Run(INIT, js, cap) == Result(Size(v), State(|js|, Encode(v, |w1|, 0, -1), -1))
  {
    hide Run, Step, Occurs;
    var js := w1 + Print(v) + w2;
    OccursWhole(js);
    OccursSplit(js, 0, w1 + Print(v), w2);
    OccursSplit(js, 0, w1, Print(v));
    RunBlanks(INIT, js, cap, w1);
    var s := INIT.(pos := |w1|);
    RunValue(v, s, js, cap);
    RunBlanks(After(v, s), js, cap, w2);
    EncodeInside(v, |w1|, 0, -1);
    var toks := Encode(v, |w1|, 0, -1);
    assert Bump([], -1) + toks == toks;
    RunAtEnd(State(|js|, toks, -1), js, cap);
  }

  /** The same of `json_parse_start`. */
  lemma ParseStartPrinted(w1: string, v: Value, w2: string)
    requires Container(v) && Legal(v) && Blanks(w1) && Blanks(w2)
    ensures Resume.ParseStart(w1 + Print(v) + w2) == Some(Encode(v, |w1|, 0, -1))
  {
    ParsePrinted(w1, v, w2, Size(v));
    Resume.TwoPassesSuffice(w1 + Print(v) + w2, Size(v));
  }
}
