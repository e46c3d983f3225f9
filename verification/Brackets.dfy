/**
 When the brackets of an accepted text balance. A closing bracket that meets no open container is let
 through in some states, so acceptance alone does not say it; what does is said here exactly.
 */
module Brackets {
  import opened Forest
  import opened Jsmn
  import opened JsmnInvariant
  import opened Resume
  import opened Options

  // ------------------------------------------------------------------ the text

  predicate Mark(c: char) {
    c == '{' || c == '}' || c == '[' || c == ']' || c == ':'
  }

  /** The brackets and colons of a text outside its strings, from `pos` on. */
  function Marks(js: string, pos: nat): (r: string)
    ensures forall c :: c in r ==> Mark(c)
    decreases |js| - pos
  {
    if AtEnd(js, pos) then ""
    else
      match CountStep(js, pos)
      case Stop(_) => ""
      case Skip(q, _) => (if Mark(js[pos]) then [js[pos]] else "") + Marks(js, q)
  }

  function Closes(c: char): Kind
    requires c == '}' || c == ']'
  {
    if c == '}' then Object else Array
  }

  /** One mark read with the containers of `stack` around it, innermost last; none when it closes another kind. */
  function Fold(stack: seq<Kind>, c: char): Option<seq<Kind>>
    requires Mark(c)
  {
    if c == '{' then Some(stack + [Object])
    else if c == '[' then Some(stack + [Array])
    else if c == ':' then Some(stack)
    else if stack != [] && stack[|stack| - 1] == Closes(c) then Some(stack[..|stack| - 1])
    else None
  }

  function Nest(stack: seq<Kind>, marks: string): Option<seq<Kind>>
    requires forall c :: c in marks ==> Mark(c)
    decreases |marks|
  {
    if marks == "" then Some(stack)
    else
      match Fold(stack, marks[0])
      case None => None
      case Some(t) => Nest(t, marks[1..])
  }

  /** Every bracket closes the last one still open, and none stays open. */
  predicate Balanced(js: string) {
    Nest([], Marks(js, 0)) == Some([])
  }

  /** A colon stands outside all brackets, before any bracket that closes none. */
  predicate BareColon(stack: seq<Kind>, marks: string)
    requires forall c :: c in marks ==> Mark(c)
    decreases |marks|
  {
    marks != "" &&
    ((marks[0] == ':' && stack == []) ||
     match Fold(stack, marks[0])
     case None => false
     case Some(t) => BareColon(t, marks[1..]))
  }

  // ------------------------------------------------------------ open containers

  /** The kinds of the open tokens, in order. */
  function OpenKinds(toks: seq<Token>): (ks: seq<Kind>)
    ensures ks == [] <==> LastOpen(toks, |toks|) == -1
  {
    if toks == [] then []
    else
      var n := |toks| - 1;
      OpenKinds(toks[..n]) + if toks[n].Open() then [toks[n].kind] else []
  }

  lemma {:induction false} OpenKindsSame(a: seq<Token>, b: seq<Token>)
    requires |a| == |b| && forall k :: 0 <= k < |a| ==> a[k].Open() == b[k].Open() && a[k].kind == b[k].kind
    ensures OpenKinds(a) == OpenKinds(b)
    decreases |a|
  {
    if a == [] {
    } else {
      OpenKindsSame(a[..|a| - 1], b[..|b| - 1]);
    }
  }

  lemma OpenKindsAttach(s: State, kind: Kind, start: int, end: int)
    requires Wf(s) && start != -1
    ensures OpenKinds(Attach(s, kind, start, end)) == OpenKinds(s.toks) + if end == -1 then [kind] else []
  {
    var b, t := Bump(s.toks, s.super), Token(kind, start, end, 0, s.super);
    assert (b + [t])[..|b|] == b;
    OpenKindsSame(b, s.toks);
  }

  /** Tokens behind the last open one do not count. */
  lemma {:induction false} OpenKindsUpTo(toks: seq<Token>, n: nat)
    requires n <= |toks| && forall k :: n <= k < |toks| ==> !toks[k].Open()
    ensures OpenKinds(toks) == OpenKinds(toks[..n])
    decreases |toks|
  {
    if n == |toks| {
      assert toks[..n] == toks;
    } else {
      var m := |toks| - 1;
      OpenKindsUpTo(toks[..m], n);
      assert toks[..m][..n] == toks[..n];
    }
  }

  /** Closing the last open token takes its kind off the end. */
  lemma OpenKindsClose(toks: seq<Token>, t: nat, end: int)
    requires t == LastOpen(toks, |toks|) && end != -1
    ensures OpenKinds(toks) == OpenKinds(toks[t := toks[t].(end := end)]) + [toks[t].kind]
  {
    var r := toks[t := toks[t].(end := end)];
    OpenKindsUpTo(toks, t + 1);
    assert toks[..t + 1][..t] == toks[..t];
    OpenKindsUpTo(r, t);
    assert r[..t] == toks[..t];
  }

  // ------------------------------------------------------- an unmatched bracket

  /**
   A closing bracket when no container is open, in any state the tokenizer can be in: it is let through,
   and changes nothing, exactly when some token is superior and the root above the last token has the
   kind the bracket closes; otherwise the text is refused.
   */
  lemma UnmatchedClose(s: State, kind: Kind)
    requires Inv(s) && LastOpen(s.toks, |s.toks|) == -1
    ensures CloseStep(s, kind) ==
            if s.toks != [] && s.super != -1 && s.toks[Climb(s.toks, |s.toks| - 1)].kind == kind
            then Next(s.(pos := s.pos + 1)) else Halt(INVAL, s)
  {
    if s.toks != [] { ClimbIsBackwardScan(s); }
  }

  /** The character at `s` is a closing bracket and no container is open. */
  predicate Unmatched(s: State, js: string) {
    !AtEnd(js, s.pos) && (js[s.pos] == '}' || js[s.pos] == ']') && LastOpen(s.toks, |s.toks|) == -1
  }

  /** Somewhere in the call an unmatched closing bracket is let through. */
  predicate LetsThrough(s: State, js: string, cap: nat)
    requires Wf(s)
    decreases |js| - s.pos
  {
    !AtEnd(js, s.pos) &&
    match Step(s, js, cap)
    case Halt(_, _) => false
    case Next(t) => Unmatched(s, js) || LetsThrough(t, js, cap)
  }

  lemma CloseEnds(s: State, kind: Kind, n: nat)
    requires Wf(s) && n < |s.toks| && s.toks[n].Open() && Climb(s.toks, |s.toks| - 1) == n && CloseStep(s, kind).Next?
    ensures s.toks[n].kind == kind && CloseStep(s, kind).s.toks == s.toks[n := s.toks[n].(end := s.pos + 1)]
  {
  }

  lemma BackwardScan(s: State)
    requires Inv(s)
    ensures var n := LastOpen(s.toks, |s.toks|);
            Wf(s) && (n != -1 ==> s.toks[n].Open() && Climb(s.toks, |s.toks| - 1) == n)
  {
    if s.toks != [] { ClimbIsBackwardScan(s); }
  }

  lemma CloseNests(s: State, kind: Kind)
    requires Inv(s) && LastOpen(s.toks, |s.toks|) != -1 && CloseStep(s, kind).Next?
    ensures OpenKinds(s.toks) == OpenKinds(CloseStep(s, kind).s.toks) + [kind]
  {
    hide Inv, OpenKinds, LastOpen, CloseStep, Climb;
    var n := LastOpen(s.toks, |s.toks|);
    BackwardScan(s);
    CloseEnds(s, kind, n);
    OpenKindsClose(s.toks, n, s.pos + 1);
  }

  lemma CloseFolds(s: State, c: char)
    requires Inv(s) && (c == '}' || c == ']') && CloseStep(s, Closes(c)).Next?
    ensures Fold(OpenKinds(s.toks), c)
         == if LastOpen(s.toks, |s.toks|) == -1 then None else Some(OpenKinds(CloseStep(s, Closes(c)).s.toks))
  {
    hide Inv, CloseStep;
    if LastOpen(s.toks, |s.toks|) == -1 {
    } else {
      CloseNests(s, Closes(c));
    }
  }

  /** From `s` to `t` the open containers change as the mark that was read changes the nesting. */
  predicate Nests(s: State, js: string, t: State)
    requires !AtEnd(js, s.pos)
  {
    var ks, c := OpenKinds(s.toks), js[s.pos];
    if !Mark(c) then OpenKinds(t.toks) == ks
    else Fold(ks, c) == if Unmatched(s, js) then None else Some(OpenKinds(t.toks))
  }

  lemma OpenNests(s: State, js: string, kind: Kind, cap: nat)
    requires Wf(s) && !AtEnd(js, s.pos) && OpenStep(s, kind, cap).Next?
    requires if js[s.pos] == '{' then kind == Object else js[s.pos] == '[' && kind == Array
    ensures Nests(s, js, OpenStep(s, kind, cap).s)
  {
    hide Attach, OpenKinds;
    OpenKindsAttach(s, kind, s.pos, -1);
  }

  lemma LeafNests(s: State, js: string, kind: Kind, start: nat, end: nat, next: nat)
    requires Wf(s) && !AtEnd(js, s.pos) && !Mark(js[s.pos])
    ensures Nests(s, js, State(next, Attach(s, kind, start, end), s.super))
  {
    hide Attach, OpenKinds;
    OpenKindsAttach(s, kind, start, end);
    assert OpenKinds(s.toks) + [] == OpenKinds(s.toks);
  }

  lemma CloseStepNests(s: State, js: string)
    requires Inv(s) && !AtEnd(js, s.pos) && (js[s.pos] == '}' || js[s.pos] == ']')
    requires CloseStep(s, Closes(js[s.pos])).Next?
    ensures Nests(s, js, CloseStep(s, Closes(js[s.pos])).s)
  {
    hide Inv, CloseStep, OpenKinds, Fold;
    CloseFolds(s, js[s.pos]);
  }

  lemma SameNests(s: State, js: string, t: State)
    requires !AtEnd(js, s.pos) && t.toks == s.toks && (Mark(js[s.pos]) ==> js[s.pos] == ':')
    ensures Nests(s, js, t)
  {
  }

  lemma StepNests(s: State, js: string, cap: nat)
    requires Inv(s) && !AtEnd(js, s.pos) && Step(s, js, cap).Next?
    ensures Nests(s, js, Step(s, js, cap).s)
  {
    assert Wf(s);
    hide Inv, Nests, Attach, OpenStep, CloseStep, ScanString, ScanPrimitive;
    var c := js[s.pos];
    if c == '{' {
      OpenNests(s, js, Object, cap);
    } else if c == '[' {
      OpenNests(s, js, Array, cap);
    } else if c == '}' || c == ']' {
      CloseStepNests(s, js);
    } else if c == '"' {
      var q := ScanString(js, s.pos + 1).at;
      LeafNests(s, js, String, s.pos + 1, q, q + 1);
    } else if PrimitiveStart(c) {
      var q := ScanPrimitive(js, s.pos).at;
      LeafNests(s, js, Primitive, s.pos, q, q);
    } else {
      SameNests(s, js, Step(s, js, cap).s);
    }
  }

  lemma {:induction false} RunNests(s: State, js: string, cap: nat)
    requires Inv(s) && |s.toks| <= cap && Run(s, js, cap).code >= 0
    ensures Nest(OpenKinds(s.toks), Marks(js, s.pos)) == Some([]) <==> !LetsThrough(s, js, cap)
    decreases |js| - s.pos
  {
    assert Wf(s);
    hide Inv, Step, CountStep, Fold, OpenKinds, Unmatched;
    if AtEnd(js, s.pos) {
      assert LastOpen(s.toks, |s.toks|) == -1;
    } else {
      StepsAgree(s, js, cap);
      StepInv(s, js, cap);
      StepNests(s, js, cap);
      var t := Step(s, js, cap).s;
      RunNests(t, js, cap);
      var c, rest := js[s.pos], Marks(js, t.pos);
      assert Marks(js, s.pos) == (if Mark(c) then [c] else "") + rest;
      assert Mark(c) ==> ([c] + rest)[0] == c && ([c] + rest)[1..] == rest;
      assert "" + rest == rest;
      assert Unmatched(s, js) ==> Mark(c) by { UnmatchedIsMark(s, js); }
    }
  }

  lemma UnmatchedIsMark(s: State, js: string)
    ensures Unmatched(s, js) ==> Mark(js[s.pos])
  {
  }

  // ------------------------------------------------------ what lets one through

  /** `i` is no token, or one with an open token at or above it. */
  predicate BelowOpen(toks: seq<Token>, i: int)
    requires ParentsOk(toks) && -1 <= i < |toks|
  {
    i == -1 || toks[Climb(toks, i)].Open()
  }

  /** The superior token and the parents of the open tokens have an open token at or above them. */
  ghost predicate Rooted(s: State)
    requires Wf(s)
  {
    BelowOpen(s.toks, s.super) &&
    forall k {:trigger s.toks[k].Open()} ::
      0 <= k < |s.toks| && s.toks[k].Open() ==> BelowOpen(s.toks, s.toks[k].parent)
  }

  /** In such a state a closing bracket that meets no open container is refused. */
  lemma RootedRefuses(s: State, kind: Kind)
    requires Inv(s) && Rooted(s) && LastOpen(s.toks, |s.toks|) == -1
    ensures CloseStep(s, kind) == Halt(INVAL, s)
  {
    UnmatchedClose(s, kind);
  }

  lemma {:induction false} ClimbSame(a: seq<Token>, b: seq<Token>, i: nat)
    requires ParentsOk(a) && ParentsOk(b) && i < |a| && i < |b|
    requires forall k :: 0 <= k <= i ==> a[k].Open() == b[k].Open() && a[k].parent == b[k].parent
    ensures Climb(a, i) == Climb(b, i)
  {
    if a[i].Open() || a[i].parent == -1 {
    } else {
      ClimbSame(a, b, a[i].parent);
    }
  }

  lemma AttachRooted(s: State, kind: Kind, start: int, end: int, next: nat, super: int)
    requires Wf(s) && Rooted(s) && start != -1
    requires if end == -1 then super == |s.toks| else super == s.super
    ensures Rooted(State(next, Attach(s, kind, start, end), super))
  {
    var r, n := Attach(s, kind, start, end), |s.toks|;
    forall i: nat | i < n ensures Climb(r, i) == Climb(s.toks, i) { ClimbSame(r, s.toks, i); }
    forall k | 0 <= k < |r| && r[k].Open() ensures BelowOpen(r, r[k].parent) {
      if k < n { assert s.toks[k].Open(); }
    }
  }

  lemma ClosedRooted(s: State, t: nat, end: int)
    requires Wf(s) && Rooted(s) && t == LastOpen(s.toks, |s.toks|) && end != -1
    ensures Rooted(State(s.pos + 1, s.toks[t := s.toks[t].(end := end)], s.toks[t].parent))
  {
    var r := s.toks[t := s.toks[t].(end := end)];
    assert s.toks[t].Open();
    forall i: nat | i < t ensures Climb(r, i) == Climb(s.toks, i) && r[i] == s.toks[i] { ClimbSame(r, s.toks, i); }
    forall k | 0 <= k < |r| && r[k].Open() ensures BelowOpen(r, r[k].parent) {
      assert s.toks[k].Open() && k < t;
    }
  }

  lemma CloseRooted(s: State, kind: Kind)
    requires Inv(s) && Rooted(s) && CloseStep(s, kind).Next?
    ensures Rooted(CloseStep(s, kind).s)
  {
    hide Preorder, Sizes, Spans, Kinds, KeysAreStrings, SuperOnChain, OpensOnChain, Rooted, Climb;
    ClimbIsBackwardScan(s);
    var t := Climb(s.toks, |s.toks| - 1);
    if s.toks[t].Open() {
      ClosedRooted(s, t, s.pos + 1);
    } else {
      RootedMoves(s);
    }
  }

  /** A colon leaves such a state only when tokens exist and none of them is open. */
  lemma ColonRooted(s: State)
    requires Inv(s) && Rooted(s) && (s.toks == [] || LastOpen(s.toks, |s.toks|) != -1)
    ensures Rooted(s.(pos := s.pos + 1, super := |s.toks| - 1))
  {
    if s.toks == [] {
    } else {
      ClimbIsBackwardScan(s);
    }
  }

  lemma CommaRooted(s: State)
    requires Inv(s) && Rooted(s)
    ensures Rooted(s.(pos := s.pos + 1, super := CommaSuper(s)))
  {
    if CommaSuper(s) == s.super {
    } else {
      assert !s.toks[s.super].Open();
    }
  }

  lemma BracketRooted(s: State, js: string, cap: nat)
    requires Inv(s) && Rooted(s) && !AtEnd(js, s.pos) && Step(s, js, cap).Next?
    requires Mark(js[s.pos]) && (js[s.pos] == ':' ==> s.toks == [] || LastOpen(s.toks, |s.toks|) != -1)
    ensures Rooted(Step(s, js, cap).s)
  {
    assert Wf(s) && s.pos != -1;
    hide Inv, Rooted, Attach, CloseStep, CommaSuper, StringStep, PrimitiveStep, LastOpen;
    var c := js[s.pos];
    if c == '{' {
      AttachRooted(s, Object, s.pos, -1, s.pos + 1, |s.toks|);
    } else if c == '[' {
      AttachRooted(s, Array, s.pos, -1, s.pos + 1, |s.toks|);
    } else if c == '}' {
      CloseRooted(s, Object);
    } else if c == ']' {
      CloseRooted(s, Array);
    } else {
      ColonRooted(s);
    }
  }

  lemma LeafRooted(s: State, js: string, cap: nat)
    requires Inv(s) && Rooted(s) && !AtEnd(js, s.pos) && Step(s, js, cap).Next? && !Mark(js[s.pos])
    ensures Rooted(Step(s, js, cap).s)
  {
    assert Wf(s) && s.pos != -1;
    hide Inv, Rooted, Attach, CloseStep, OpenStep, CommaSuper, ScanString, ScanPrimitive, PrimitiveRefused;
    var c := js[s.pos];
    if c == '"' {
      var q := ScanString(js, s.pos + 1).at;
      AttachRooted(s, String, s.pos + 1, q, q + 1, s.super);
    } else if c == ',' {
      CommaRooted(s);
    } else if PrimitiveStart(c) {
      var q := ScanPrimitive(js, s.pos).at;
      AttachRooted(s, Primitive, s.pos, q, q, s.super);
    } else {
      RootedMoves(s);
    }
  }

  lemma StepRooted(s: State, js: string, cap: nat)
    requires Inv(s) && Rooted(s) && !AtEnd(js, s.pos) && Step(s, js, cap).Next?
    requires js[s.pos] == ':' ==> s.toks == [] || LastOpen(s.toks, |s.toks|) != -1
    ensures Rooted(Step(s, js, cap).s)
  {
    assert Wf(s);
    hide Inv, Rooted, Step;
    if Mark(js[s.pos]) {
      BracketRooted(s, js, cap);
    } else {
      LeafRooted(s, js, cap);
    }
  }

  lemma RootedMoves(s: State)
    requires Wf(s) && Rooted(s)
    ensures Rooted(s.(pos := s.pos + 1))
  {
  }

  /** What lets a bracket through is a colon outside all brackets, earlier in the text. */
  lemma {:induction false} LetThroughAfterColon(s: State, js: string, cap: nat)
    requires Inv(s) && Rooted(s) && |s.toks| <= cap && LetsThrough(s, js, cap)
    ensures BareColon(OpenKinds(s.toks), Marks(js, s.pos))
    decreases |js| - s.pos
  {
    assert Wf(s);
    hide Inv, Rooted, CountStep, Fold, OpenKinds, CloseStep, OpenStep, StringStep, PrimitiveStep;
    var t, c := Step(s, js, cap).s, js[s.pos];
    StepsAgree(s, js, cap);
    if Unmatched(s, js) { RootedRefuses(s, Closes(c)); }
    var rest := Marks(js, t.pos);
    assert Marks(js, s.pos) == (if Mark(c) then [c] else "") + rest;
    assert Mark(c) ==> ([c] + rest)[0] == c && ([c] + rest)[1..] == rest;
    assert "" + rest == rest;
    if c == ':' && s.toks != [] && LastOpen(s.toks, |s.toks|) == -1 {
      assert OpenKinds(s.toks) == [];
    } else {
      StepInv(s, js, cap);
      StepRooted(s, js, cap);
      StepNests(s, js, cap);
      LetThroughAfterColon(t, js, cap);
    }
  }

  // ---------------------------------------------------------------- whole texts

  lemma InitInv()
    ensures Inv(INIT) && Rooted(INIT) && OpenKinds(INIT.toks) == []
  {
  }

  /**
   Bracket balance, exactly: the brackets of an accepted text balance if and only if none was let
   through; and none is, unless a colon stands outside all brackets.
   */
  lemma BalanceExactly(js: string)
    requires ParseStart(js).Some?
    ensures Balanced(js) <==> !LetsThrough(INIT, js, CountRun(js, 0, 0).code)
    ensures !Balanced(js) ==> BareColon([], Marks(js, 0))
  {
    var n := CountRun(js, 0, 0).code;
    InitInv();
    hide Inv, Rooted, OpenKinds;
    RunNests(INIT, js, n);
    if LetsThrough(INIT, js, n) { LetThroughAfterColon(INIT, js, n); }
  }
}
