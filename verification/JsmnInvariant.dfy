/**
 The invariant of the tokenizer over every character string: whatever the input, the filled
 tokens are at all times a preorder numbering of an ordered forest whose child counts are right,
 and every container still open lies on the ancestor chain of the superior token.
 */
module JsmnInvariant {
  import opened Jsmn
  import opened Forest

  /** Each `size` is the number of tokens that name this one as their parent. */
  ghost predicate Sizes(toks: seq<Token>) {
    forall k {:trigger Kids(toks, k)} :: 0 <= k < |toks| ==> toks[k].size == |Kids(toks, k)|
  }

  /** Tokens start one after the other, before `pos`, and end before it when closed. */
  ghost predicate Spans(toks: seq<Token>, pos: nat) {
    (forall j, k :: 0 <= j < k < |toks| ==> toks[j].start < toks[k].start) &&
    forall k :: 0 <= k < |toks| ==>
      0 <= toks[k].start < pos && (toks[k].end == -1 || toks[k].start <= toks[k].end <= pos)
  }

  ghost predicate Kinds(toks: seq<Token>) {
    forall k :: 0 <= k < |toks| ==>
      toks[k].kind != Undefined && (toks[k].Open() ==> toks[k].kind == Object || toks[k].kind == Array)
  }

  ghost predicate KeyIsString(toks: seq<Token>, k: nat)
    requires ParentsOk(toks) && k < |toks|
  {
    var p := toks[k].parent;
    p != -1 && toks[p].kind == Object ==> toks[k].kind == String
  }

  /** Every child of an object is a string. */
  ghost predicate KeysAreStrings(toks: seq<Token>) {
    ParentsOk(toks) &&
    forall k {:trigger KeyIsString(toks, k)} :: 0 <= k < |toks| ==> KeyIsString(toks, k)
  }

  /** The superior token is -1 or on the ancestor chain of the last token. */
  ghost predicate SuperOnChain(s: State) {
    Wf(s) && (s.super == -1 || Anc(s.toks, s.super, |s.toks| - 1))
  }

  /** Every open container is the superior token or one of its ancestors. */
  ghost predicate OpensOnChain(s: State) {
    Wf(s) &&
    forall k {:trigger s.toks[k].Open()} :: 0 <= k < |s.toks| && s.toks[k].Open() ==> Anc(s.toks, k, s.super)
  }

  ghost predicate Inv(s: State) {
    && Wf(s)
    && Preorder(s.toks)
    && Sizes(s.toks)
    && Spans(s.toks, s.pos)
    && Kinds(s.toks)
    && KeysAreStrings(s.toks)
    && SuperOnChain(s)
    && OpensOnChain(s)
  }

  // ------------------------------------------------- hanging a new token

  lemma AttachPreorder(s: State, kind: Kind, start: int, end: int)
    requires Preorder(s.toks) && SuperOnChain(s)
    ensures Preorder(Attach(s, kind, start, end))
  {
    var r := Attach(s, kind, start, end);
    forall k | 0 < k < |r| ensures Follows(r, k) {
      if k < |s.toks| { assert Follows(s.toks, k); }
      AncSame(s.toks, r, r[k].parent, k - 1);
    }
  }

  lemma AttachSizes(s: State, kind: Kind, start: int, end: int)
    requires Wf(s) && Sizes(s.toks)
    ensures Sizes(Attach(s, kind, start, end))
  {
    var b := Bump(s.toks, s.super);
    var t := Token(kind, start, end, 0, s.super);
    forall k | 0 <= k < |b + [t]| ensures (b + [t])[k].size == |Kids(b + [t], k)| {
      KidsAppend(b, t, k);
      KidsSame(s.toks, b, k);
      if k == |b| { NoKids(b, k); }
    }
  }

  lemma AttachRest(s: State, kind: Kind, start: int, end: int, next: nat)
    requires Wf(s) && Spans(s.toks, s.pos) && Kinds(s.toks) && KeysAreStrings(s.toks)
    requires s.pos <= start < next && (end == -1 || start <= end <= next)
    requires kind != Undefined && (end == -1 ==> kind == Object || kind == Array)
    requires s.super != -1 && s.toks[s.super].kind == Object ==> kind == String
    ensures var r := Attach(s, kind, start, end); Spans(r, next) && Kinds(r) && KeysAreStrings(r)
  {
    var r := Attach(s, kind, start, end);
    forall k | 0 <= k < |r| ensures KeyIsString(r, k) {
      if k < |s.toks| { assert KeyIsString(s.toks, k); }
    }
  }

  lemma AttachOpens(s: State, kind: Kind, start: int, end: int, next: nat, super: int)
    requires OpensOnChain(s)
    requires super == |s.toks| || (super == s.super && end != -1)
    ensures OpensOnChain(State(next, Attach(s, kind, start, end), super))
  {
    var r := Attach(s, kind, start, end);
    var n := |s.toks|;
    forall k | 0 <= k < |r| && r[k].Open() ensures Anc(r, k, super) {
      if k < n {
        assert s.toks[k].Open();
        AncSame(s.toks, r, k, s.super);
        assert r[n].parent == s.super;
      }
    }
  }

  lemma AttachInv(s: State, kind: Kind, start: int, end: int, next: nat, super: int)
    requires Inv(s)
    requires s.pos <= start < next && (end == -1 || start <= end <= next)
    requires kind != Undefined && (end == -1 ==> kind == Object || kind == Array)
    requires s.super != -1 && s.toks[s.super].kind == Object ==> kind == String
    requires super == |s.toks| || (super == s.super && end != -1)
    ensures Inv(State(next, Attach(s, kind, start, end), super))
  {
    AttachPreorder(s, kind, start, end);
    AttachSizes(s, kind, start, end);
    AttachRest(s, kind, start, end, next);
    AttachOpens(s, kind, start, end, next, super);
    var r := Attach(s, kind, start, end);
    if s.super != -1 && super == s.super { assert r[|s.toks|].parent == s.super && Anc(r, s.super, s.super); }
  }

  // --------------------------------------------------- closing brackets

  /** The climb stops at the first open token on the chain: none lies between. */
  lemma {:induction false} ClimbFinds(toks: seq<Token>, i: nat)
    requires ParentsOk(toks) && i < |toks|
    ensures Anc(toks, Climb(toks, i), i)
    ensures forall k :: Anc(toks, k, i) && Climb(toks, i) < k < |toks| ==> !toks[k].Open()
    ensures !toks[Climb(toks, i)].Open() ==>
      forall k :: Anc(toks, k, i) && 0 <= k < |toks| ==> !toks[k].Open()
  {
    if !(toks[i].Open() || toks[i].parent == -1) {
      ClimbFinds(toks, toks[i].parent);
    } else {
      forall k | Anc(toks, k, i) ensures 0 <= k <= i { AncRange(toks, k, i); }
    }
  }

  /** In a state of the tokenizer every open token is on the chain of the last one. */
  lemma OpensAboveLast(s: State, k: nat)
    requires SuperOnChain(s) && OpensOnChain(s) && k < |s.toks| && s.toks[k].Open()
    ensures Anc(s.toks, k, |s.toks| - 1)
  {
    AncTrans(s.toks, k, s.super, |s.toks| - 1);
  }

  /** When every open token is on the chain of `i`, the climb from `i` and the backward scan agree. */
  lemma ClimbScans(toks: seq<Token>, i: nat)
    requires ParentsOk(toks) && i < |toks|
    requires forall k {:trigger toks[k].Open()} :: 0 <= k < |toks| && toks[k].Open() ==> Anc(toks, k, i)
    ensures var o := LastOpen(toks, |toks|);
            if o == -1 then !toks[Climb(toks, i)].Open() else Climb(toks, i) == o
  {
    ClimbFinds(toks, i);
  }

  /**
   The climb along parent links refines the backward scan: when any container is open, both stop
   at the same token; when none is, the climb ends at a token that is not open.
   */
  lemma ClimbIsBackwardScan(s: State)
    requires SuperOnChain(s) && OpensOnChain(s) && s.toks != []
    ensures var n := |s.toks|;
            if LastOpen(s.toks, n) == -1 then !s.toks[Climb(s.toks, n - 1)].Open()
            else Climb(s.toks, n - 1) == LastOpen(s.toks, n)
  {
    forall k | 0 <= k < |s.toks| && s.toks[k].Open() ensures Anc(s.toks, k, |s.toks| - 1) {
      OpensAboveLast(s, k);
    }
    ClimbScans(s.toks, |s.toks| - 1);
  }

  /**
   The source's second backward scan looks for the next open container to make it the superior
   token; with parent links that container is the nearest open token above the superior one.
   */
  lemma SuperIsBelowNearestOpen(s: State)
    requires OpensOnChain(s)
    ensures var o := LastOpen(s.toks, |s.toks|);
            if s.super == -1 || !s.toks[Climb(s.toks, s.super)].Open() then o == -1
            else Climb(s.toks, s.super) == o
  {
    if s.super != -1 {
      ClimbScans(s.toks, s.super);
    } else {
      assert forall k {:trigger s.toks[k].Open()} :: 0 <= k < |s.toks| && s.toks[k].Open() ==> Anc(s.toks, k, -1);
    }
  }

  /** Closing a token leaves the shape of the forest alone. */
  lemma CloseShape(toks: seq<Token>, t: nat, end: int)
    requires t < |toks| && Preorder(toks) && Sizes(toks) && KeysAreStrings(toks)
    ensures var r := toks[t := toks[t].(end := end)]; Preorder(r) && Sizes(r) && KeysAreStrings(r)
  {
    var r := toks[t := toks[t].(end := end)];
    forall k | 0 < k < |r| ensures Follows(r, k) {
      assert Follows(toks, k);
      AncSame(toks, r, r[k].parent, k - 1);
    }
    forall k | 0 <= k < |r| ensures r[k].size == |Kids(r, k)| { KidsSame(toks, r, k); }
    forall k | 0 <= k < |r| ensures KeyIsString(r, k) { assert KeyIsString(toks, k); }
  }

  lemma CloseSuper(s: State, t: nat, end: int)
    requires SuperOnChain(s) && t < |s.toks| && Anc(s.toks, t, |s.toks| - 1)
    ensures SuperOnChain(State(s.pos + 1, s.toks[t := s.toks[t].(end := end)], s.toks[t].parent))
  {
    var r := s.toks[t := s.toks[t].(end := end)];
    var p, n := s.toks[t].parent, |r| - 1;
    if p != -1 {
      assert Anc(s.toks, p, p) && Anc(s.toks, p, t);
      AncTrans(s.toks, p, t, n);
      AncSame(s.toks, r, p, n);
    }
  }

  lemma CloseOpens(s: State, t: nat, end: int)
    requires SuperOnChain(s) && OpensOnChain(s) && s.toks != [] && end != -1
    requires t == Climb(s.toks, |s.toks| - 1) && s.toks[t].Open()
    ensures OpensOnChain(State(s.pos + 1, s.toks[t := s.toks[t].(end := end)], s.toks[t].parent))
  {
    var r := s.toks[t := s.toks[t].(end := end)];
    ClimbFinds(s.toks, |r| - 1);
    forall k | 0 <= k < |r| && r[k].Open() ensures Anc(r, k, s.toks[t].parent) {
      assert s.toks[k].Open();
      OpensAboveLast(s, k);
      AncChain(s.toks, k, t, |r| - 1);
      AncSame(s.toks, r, k, t);
    }
  }

  lemma CloseInv(s: State, t: nat)
    requires Inv(s) && s.toks != [] && t == Climb(s.toks, |s.toks| - 1) && s.toks[t].Open()
    ensures Inv(State(s.pos + 1, s.toks[t := s.toks[t].(end := s.pos + 1)], s.toks[t].parent))
  {
    ClimbFinds(s.toks, |s.toks| - 1);
    CloseShape(s.toks, t, s.pos + 1);
    CloseSuper(s, t, s.pos + 1);
    CloseOpens(s, t, s.pos + 1);
  }

  // ----------------------------------------------------------- all steps

  lemma CommaInv(s: State)
    requires Inv(s)
    ensures Inv(s.(pos := s.pos + 1, super := CommaSuper(s)))
  {
    var p := CommaSuper(s);
    if p != s.super && p != -1 {
      assert Anc(s.toks, p, p);
      assert Anc(s.toks, p, s.super);
      AncTrans(s.toks, p, s.super, |s.toks| - 1);
    }
  }

  lemma ColonInv(s: State)
    requires Inv(s)
    ensures Inv(s.(pos := s.pos + 1, super := |s.toks| - 1))
  {
    forall k | 0 <= k < |s.toks| && s.toks[k].Open() ensures Anc(s.toks, k, |s.toks| - 1) {
      OpensAboveLast(s, k);
    }
  }

  lemma OpenStepInv(s: State, kind: Kind, cap: nat)
    requires Inv(s) && (kind == Object || kind == Array)
    ensures Inv(OpenStep(s, kind, cap).s)
  {
    if OpenStep(s, kind, cap).Next? { AttachInv(s, kind, s.pos, -1, s.pos + 1, |s.toks|); }
  }

  lemma CloseStepInv(s: State, kind: Kind)
    requires Inv(s)
    ensures Inv(CloseStep(s, kind).s)
  {
    if CloseStep(s, kind).Next? {
      var t := Climb(s.toks, |s.toks| - 1);
      if s.toks[t].Open() { CloseInv(s, t); }
    }
  }

  lemma StringStepInv(s: State, js: string, cap: nat)
    requires Inv(s)
    ensures Inv(StringStep(s, js, cap).s)
  {
    if StringStep(s, js, cap).Next? {
      var q := ScanString(js, s.pos + 1).at;
      AttachInv(s, String, s.pos + 1, q, q + 1, s.super);
    }
  }

  lemma PrimitiveStepInv(s: State, js: string, cap: nat)
    requires Inv(s) && !AtEnd(js, s.pos) && PrimitiveStart(js[s.pos])
    ensures Inv(PrimitiveStep(s, js, cap).s)
  {
    if PrimitiveStep(s, js, cap).Next? {
      var q := ScanPrimitive(js, s.pos).at;
      AttachInv(s, Primitive, s.pos, q, q, s.super);
    }
  }

  /** One iteration of the main loop keeps the invariant. */
  lemma StepInv(s: State, js: string, cap: nat)
    requires Inv(s) && !AtEnd(js, s.pos)
    ensures Inv(Step(s, js, cap).s)
  {
    hide OpenStep, CloseStep, StringStep, PrimitiveStep;
    var c := js[s.pos];
    if c == '{' { OpenStepInv(s, Object, cap); }
    else if c == '[' { OpenStepInv(s, Array, cap); }
    else if c == '}' { CloseStepInv(s, Object); }
    else if c == ']' { CloseStepInv(s, Array); }
    else if c == '"' { StringStepInv(s, js, cap); }
    else if c == ':' { ColonInv(s); }
    else if c == ',' { CommaInv(s); }
    else if PrimitiveStart(c) { PrimitiveStepInv(s, js, cap); }
  }

  /** Whatever the text and wherever the call stops, the invariant holds of the state it leaves. */
  lemma {:induction false} RunInv(s: State, js: string, cap: nat)
    requires Inv(s)
    ensures Inv(Run(s, js, cap).s)
    decreases |js| - s.pos
  {
    if AtEnd(js, s.pos) {
    } else {
      StepInv(s, js, cap);
      var o := Step(s, js, cap);
      if o.Next? { RunInv(o.s, js, cap); }
    }
  }

  /** The same, said of a parse from the start. */
  lemma ForestInvariant(js: string, cap: nat)
    ensures var s := Run(INIT, js, cap).s;
            && Preorder(s.toks) && Sizes(s.toks) && Spans(s.toks, s.pos) && KeysAreStrings(s.toks)
            && SuperOnChain(s) && OpensOnChain(s) && |s.toks| <= cap
  {
    RunInv(INIT, js, cap);
    RunCap(INIT, js, cap);
  }

  lemma {:induction false} RunCap(s: State, js: string, cap: nat)
    requires Wf(s) && |s.toks| <= cap
    ensures |Run(s, js, cap).s.toks| <= cap
    decreases |js| - s.pos
  {
    if AtEnd(js, s.pos) {
    } else {
      var o := Step(s, js, cap);
      if o.Next? { RunCap(o.s, js, cap); }
    }
  }

  // ------------------------------------------------ one primitive for each key

  /** A primitive below a string is its first child. */
  ghost predicate FirstOfKey(toks: seq<Token>, k: nat)
    requires ParentsOk(toks) && k < |toks|
  {
    var p := toks[k].parent;
    p != -1 && toks[p].kind == String && toks[k].kind == Primitive ==> forall j :: 0 <= j < k ==> toks[j].parent != p
  }

  ghost predicate PrimitivesFirst(toks: seq<Token>) {
    ParentsOk(toks) && forall k {:trigger FirstOfKey(toks, k)} :: 0 <= k < |toks| ==> FirstOfKey(toks, k)
  }

  lemma AttachFirst(s: State, kind: Kind, start: int, end: int)
    requires Wf(s) && Sizes(s.toks) && PrimitivesFirst(s.toks)
    requires kind == Primitive ==> !PrimitiveRefused(s)
    ensures PrimitivesFirst(Attach(s, kind, start, end))
  {
    var r, n := Attach(s, kind, start, end), |s.toks|;
    if s.super != -1 && kind == Primitive && s.toks[s.super].kind == String {
      assert Kids(s.toks, s.super) == [];
      KidsFacts(s.toks, s.super);
    }
    forall k | 0 <= k < |r| ensures FirstOfKey(r, k) {
      if k < n { assert FirstOfKey(s.toks, k); }
    }
  }

  lemma CloseFirst(s: State, kind: Kind)
    requires Wf(s) && PrimitivesFirst(s.toks)
    ensures PrimitivesFirst(CloseStep(s, kind).s.toks)
  {
    var r := CloseStep(s, kind).s.toks;
    forall k | 0 <= k < |r| ensures FirstOfKey(r, k) { assert FirstOfKey(s.toks, k); }
  }

  lemma StepFirst(s: State, js: string, cap: nat)
    requires Inv(s) && PrimitivesFirst(s.toks) && !AtEnd(js, s.pos)
    ensures PrimitivesFirst(Step(s, js, cap).s.toks)
  {
    hide PrimitivesFirst, Attach, CloseStep, PrimitiveRefused, Preorder, Spans, Kinds, KeysAreStrings, SuperOnChain,
      OpensOnChain, Sizes;
    var c := js[s.pos];
    if c == '{' {
      AttachFirst(s, Object, s.pos, -1);
    } else if c == '[' {
      AttachFirst(s, Array, s.pos, -1);
    } else if c == '}' {
      CloseFirst(s, Object);
    } else if c == ']' {
      CloseFirst(s, Array);
    } else if c == '"' {
      var r := ScanString(js, s.pos + 1);
      if r.Found? { AttachFirst(s, String, s.pos + 1, r.at); }
    } else if PrimitiveStart(c) && !PrimitiveRefused(s) {
      var r := ScanPrimitive(js, s.pos);
      if r.Found? { AttachFirst(s, Primitive, s.pos, r.at); }
    }
  }

  /** Whatever the text, no primitive follows another child of the same string: a key has one value of that sort. */
  lemma {:induction false} RunPrimitivesFirst(s: State, js: string, cap: nat)
    requires Inv(s) && PrimitivesFirst(s.toks)
    ensures PrimitivesFirst(Run(s, js, cap).s.toks)
    decreases |js| - s.pos
  {
    assert Wf(s);
    hide Inv, PrimitivesFirst;
    if AtEnd(js, s.pos) {
    } else {
      StepInv(s, js, cap);
      StepFirst(s, js, cap);
      var o := Step(s, js, cap);
      if o.Next? { RunPrimitivesFirst(o.s, js, cap); }
    }
  }
}
