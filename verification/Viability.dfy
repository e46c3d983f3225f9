/**
 What the codes of the tokenizer mean: a text is refused exactly when no continuation of it is accepted,
 and asked to be continued only when it can be.
 */
module Viability {
  import opened CStrings
  import opened Jsmn
  import opened JsmnInvariant
  import opened JsonTree
  import opened Options
  import opened Resume
  import opened RoundTrip
  import Brackets

  // ------------------------------------------------------- finishing a scan

  /** `n` zeros and a quote. */
  function Zeros(n: nat): (w: string)
    ensures |w| == n + 1 && w[n] == '"' && forall i :: 0 <= i < n ==> w[i] == '0'
  {
    if n == 0 then "\"" else "0" + Zeros(n - 1)
  }

  lemma {:induction false} ZerosAreHex(js: string, p: nat, n: nat)
    requires p + n <= |js| && forall i :: p <= i < p + n ==> js[i] == '0'
    ensures ScanHex(js, p, n) == Found(p + n)
    decreases n
  {
    if n == 0 {
    } else {
      ZerosAreHex(js, p + 1, n - 1);
    }
  }

  /** Digits cut off by the end of the text can be filled up. */
  lemma {:induction false} HexCompletes(js: string, p: nat, n: nat)
    requires NoNul(js) && p <= |js| && ScanHex(js, p, n).Found? && ScanHex(js, p, n).at < p + n
    ensures ScanHex(js, p, n).at == |js| && |js| < p + n
    ensures ScanHex(js + Zeros(p + n - |js|), p, n) == Found(p + n)
    decreases n
  {
    if p == |js| {
      ZerosAreHex(js + Zeros(n), p, n);
    } else {
      HexCompletes(js, p + 1, n - 1);
      assert (js + Zeros(p + n - |js|))[p] == js[p];
    }
  }

  lemma {:induction false} HexFull(js: string, w: string, p: nat, n: nat)
    requires p <= |js| && ScanHex(js, p, n) == Found(p + n)
    ensures ScanHex(js + w, p, n) == Found(p + n)
    decreases n
  {
    if n == 0 || AtEnd(js, p) {
    } else {
      assert (js + w)[p] == js[p];
      HexFound(js, p + 1, n - 1);
      HexFull(js, w, p + 1, n - 1);
    }
  }

  lemma {:induction false} HexFound(js: string, p: nat, n: nat)
    requires p <= |js| && ScanHex(js, p, n).Found?
    ensures p <= ScanHex(js, p, n).at <= p + n
    decreases n
  {
    if n == 0 || AtEnd(js, p) {
    } else {
      HexFound(js, p + 1, n - 1);
    }
  }

  /** A string cut off anywhere can be finished. */
  lemma {:induction false} StringCompletes(js: string, p: nat) returns (w: string)
    requires NoNul(js) && p <= |js| && ScanString(js, p).Partial?
    ensures w != "" && NoNul(w) && ScanString(js + w, p) == Found(|js| + |w| - 1)
    decreases |js| - p
  {
    if p == |js| {
      w := "\"";
      assert (js + w)[p] == '"';
    } else if js[p] == '\\' && p + 1 == |js| {
      w := "n\"";
      assert (js + w)[p] == '\\' && (js + w)[p + 1] == 'n' && (js + w)[p + 2] == '"';
      assert ScanString(js + w, p + 2) == Found(p + 2);
    } else if js[p] == '\\' {
      w := EscapeCompletes(js, p);
    } else {
      w := StringCompletes(js, p + 1);
      assert (js + w)[p] == js[p];
    }
  }

  lemma {:induction false} EscapeCompletes(js: string, p: nat) returns (w: string)
    requires NoNul(js) && p + 1 < |js| && js[p] == '\\' && ScanString(js, p).Partial?
    ensures w != "" && NoNul(w) && ScanString(js + w, p) == Found(|js| + |w| - 1)
    decreases |js| - p, 0
  {
    if SimpleEscape(js[p + 1]) {
      w := StringCompletes(js, p + 2);
      assert (js + w)[p] == js[p] && (js + w)[p + 1] == js[p + 1];
    } else {
      var h := ScanHex(js, p + 2, 4).at;
      HexFound(js, p + 2, 4);
      if h == p + 6 {
        w := StringCompletes(js, h);
        HexFull(js, w, p + 2, 4);
      } else {
        HexCompletes(js, p + 2, 4);
        w := Zeros(p + 6 - |js|);
        assert (js + w)[p + 6] == '"';
        assert ScanString(js + w, p + 6) == Found(p + 6);
      }
      assert (js + w)[p] == js[p] && (js + w)[p + 1] == js[p + 1];
    }
  }

  lemma {:induction false} PrimitiveCompletes(js: string, p: nat)
    requires NoNul(js) && p <= |js| && ScanPrimitive(js, p).Partial?
    ensures ScanPrimitive(js + " ", p) == Found(|js|)
    decreases |js| - p
  {
    if p == |js| {
    } else {
      assert (js + " ")[p] == js[p];
      PrimitiveCompletes(js, p + 1);
    }
  }

  // -------------------------------------------------- closing what is open

  function Closer(kind: Kind): char {
    if kind == Object then '}' else ']'
  }

  lemma CloserStep(s: State, js: string, cap: nat, kind: Kind)
    requires Wf(s) && (kind == Object || kind == Array) && s.pos < |js| && js[s.pos] == Closer(kind)
    ensures Step(s, js, cap) == CloseStep(s, kind)
  {
    hide CloseStep;
  }

  /** A container that is open can be closed. */
  lemma CloseOne(s: State, js: string, cap: nat) returns (c: char, t: State)
    requires Inv(s) && s.pos == |js| && LastOpen(s.toks, |s.toks|) != -1
    ensures c != '\0' && Inv(t) && t.pos == |js| + 1 && t.toks != [] && |t.toks| == |s.toks|
    ensures |Brackets.OpenKinds(t.toks)| < |Brackets.OpenKinds(s.toks)|
    ensures forall w :: Step(s, js + [c] + w, cap) == Next(t)
  {
    var n := LastOpen(s.toks, |s.toks|);
    var kind := s.toks[n].kind;
    c := Closer(kind);
    Brackets.BackwardScan(s);
    assert Kinds(s.toks) && (kind == Object || kind == Array);
    t := State(s.pos + 1, s.toks[n := s.toks[n].(end := s.pos + 1)], s.toks[n].parent);
    assert CloseStep(s, kind) == Next(t);
    forall w ensures Step(s, js + [c] + w, cap) == Next(t) {
      assert (js + [c] + w)[s.pos] == c;
      CloserStep(s, js + [c] + w, cap, kind);
    }
    assert (js + [c] + "")[s.pos] == c;
    StepInv(s, js + [c] + "", cap);
    Brackets.CloseNests(s, kind);
  }

  lemma InvIsWf(s: State)
    requires Inv(s)
    ensures Wf(s)
  {
  }

  /** Whatever is open at the end of a text can be closed, and then the text is accepted. */
  lemma {:induction false} CloseAll(s: State, js: string, cap: nat) returns (w: string)
    requires Inv(s) && s.pos == |js| && s.toks != []
    ensures NoNul(w) && Run(s, js + w, cap).code > 0
    decreases |Brackets.OpenKinds(s.toks)|
  {
    hide Inv, Step, Brackets.OpenKinds;
    InvIsWf(s);
    if LastOpen(s.toks, |s.toks|) == -1 {
      w := "";
      assert js + w == js;
    } else {
      var c, t := CloseOne(s, js, cap);
      InvIsWf(t);
      var rest := CloseAll(t, js + [c], cap);
      w := [c] + rest;
      assert js + w == js + [c] + rest;
      assert (js + [c] + rest)[s.pos] == c && Step(s, js + [c] + rest, cap) == Next(t);
      RunStep(s, js + w, cap, t);
    }
  }

  // --------------------------------------------------------------- the codes

  /** Where a call stops: at the end, or at a step that cannot be taken. */
  lemma {:induction false} RunStops(s: State, js: string, cap: nat)
    requires Wf(s)
    ensures var r := Run(s, js, cap);
            if AtEnd(js, r.s.pos) then r.code == Finish(r.s.toks) else Step(r.s, js, cap) == Halt(r.code, r.s)
    decreases |js| - s.pos
  {
    hide Step, Finish;
    if AtEnd(js, s.pos) {
    } else {
      var o := Step(s, js, cap);
      if o.Next? { RunStops(o.s, js, cap); }
    }
  }

  /** There are no more tokens than characters. */
  lemma {:induction false} TokensBelow(toks: seq<Token>, pos: nat, n: nat)
    requires Spans(toks, pos) && n < |toks|
    ensures n <= toks[n].start < pos
    decreases n
  {
    if n == 0 {
    } else {
      TokensBelow(toks, pos, n - 1);
    }
  }

  lemma StepHasRoom(s: State, js: string, cap: nat)
    requires Wf(s) && !AtEnd(js, s.pos) && |s.toks| < cap
    ensures Step(s, js, cap).Halt? ==> Step(s, js, cap).code != NOMEM
  {
    hide ScanString, ScanPrimitive, Attach, Climb;
  }

  /** With as many cells as characters a call never runs out. */
  lemma NeverRunsOut(js: string, cap: nat)
    requires |js| <= cap
    ensures Run(INIT, js, cap).code != NOMEM
  {
    var r := Run(INIT, js, cap);
    RunInv(INIT, js, cap);
    RunStops(INIT, js, cap);
    if r.s.toks != [] { TokensBelow(r.s.toks, r.s.pos, |r.s.toks| - 1); }
    hide Run, Inv, Step;
    if !AtEnd(js, r.s.pos) { StepHasRoom(r.s, js, cap); }
  }

  lemma PartIsScan(s: State, js: string, cap: nat)
    requires Wf(s) && !AtEnd(js, s.pos) && Step(s, js, cap) == Halt(PART, s)
    ensures js[s.pos] == '"' || (PrimitiveStart(js[s.pos]) && !PrimitiveRefused(s))
    ensures if js[s.pos] == '"' then ScanString(js, s.pos + 1).Partial? else ScanPrimitive(js, s.pos).Partial?
  {
    hide ScanString, ScanPrimitive, Attach, Climb;
  }

  /** A text cut off inside a string or primitive can be continued to the end of it. */
  lemma ScanCompletes(s: State, js: string, cap: nat, room: nat) returns (w: string, t: State)
    requires Inv(s) && NoNul(js) && s.pos < |js| && Step(s, js, cap) == Halt(PART, s) && |s.toks| < room
    ensures NoNul(w) && Inv(t) && t.pos == |js| + |w| && t.toks != []
    ensures forall more :: Run(s, js + w + more, room) == Run(t, js + w + more, room)
  {
    PartIsScan(s, js, cap);
    hide Inv, ScanString, ScanPrimitive, Attach;
    if js[s.pos] == '"' {
      w := StringCompletes(js, s.pos + 1);
      t := StringEnds(s, js, w, room);
    } else {
      w := " ";
      PrimitiveCompletes(js, s.pos);
      t := PrimitiveEnds(s, js, room);
    }
  }

  lemma StringEnds(s: State, js: string, w: string, room: nat) returns (t: State)
    requires Inv(s) && NoNul(js) && s.pos < |js| && js[s.pos] == '"' && |s.toks| < room
    requires w != "" && ScanString(js + w, s.pos + 1) == Found(|js| + |w| - 1)
    ensures Inv(t) && t.pos == |js| + |w| && t.toks != []
    ensures forall more :: Run(s, js + w + more, room) == Run(t, js + w + more, room)
  {
    t := State(|js| + |w|, Attach(s, String, s.pos + 1, |js| + |w| - 1), s.super);
    hide Run, Attach, Inv, ScanString, StringStep, PrimitiveStep, OpenStep, CloseStep;
    forall more ensures Step(s, js + w + more, room) == Next(t) {
      assert (js + w + more)[s.pos] == '"';
      ScanStringGrow(js + w, js + w + more, s.pos + 1);
      StringIsLeaf(s, js + w + more, room);
    }
    forall more ensures Run(s, js + w + more, room) == Run(t, js + w + more, room) {
      assert Step(s, js + w + more, room) == Next(t);
      assert !AtEnd(js + w + more, s.pos) by { assert (js + w + more)[s.pos] == '"'; }
      RunStep(s, js + w + more, room, t);
    }
    assert Step(s, js + w + "", room) == Next(t);
    assert !AtEnd(js + w + "", s.pos) by { assert (js + w + "")[s.pos] == '"'; }
    StepInv(s, js + w + "", room);
    assert |Attach(s, String, s.pos + 1, |js| + |w| - 1)| > 0 by { AttachGrows(s, String, s.pos + 1, |js| + |w| - 1); }
  }

  lemma AttachGrows(s: State, kind: Kind, start: int, end: int)
    requires Wf(s)
    ensures |Attach(s, kind, start, end)| == |s.toks| + 1
  {
  }

  lemma StringIsLeaf(s: State, js: string, cap: nat)
    requires Wf(s) && s.pos < |js| && js[s.pos] == '"' && ScanString(js, s.pos + 1).Found? && |s.toks| < cap
    ensures var q := ScanString(js, s.pos + 1).at;
            Step(s, js, cap) == Next(State(q + 1, Attach(s, String, s.pos + 1, q), s.super))
  {
    hide ScanString, Attach;
  }

  lemma PrimitiveIsLeaf(s: State, js: string, cap: nat)
    requires Wf(s) && s.pos < |js| && PrimitiveStart(js[s.pos]) && !PrimitiveRefused(s)
    requires ScanPrimitive(js, s.pos).Found? && |s.toks| < cap
    ensures var q := ScanPrimitive(js, s.pos).at;
            Step(s, js, cap) == Next(State(q, Attach(s, Primitive, s.pos, q), s.super))
  {
    hide ScanPrimitive, Attach;
  }

  lemma PrimitiveEnds(s: State, js: string, room: nat) returns (t: State)
    requires Inv(s) && NoNul(js) && s.pos < |js| && PrimitiveStart(js[s.pos]) && !PrimitiveRefused(s)
    requires |s.toks| < room && ScanPrimitive(js + " ", s.pos) == Found(|js|)
    ensures Inv(t) && t.pos == |js| + 1 && t.toks != []
    ensures forall more :: Run(s, js + " " + more, room) == Run(t, js + " " + more, room)
  {
    var u := State(|js|, Attach(s, Primitive, s.pos, |js|), s.super);
    t := u.(pos := |js| + 1);
    AttachGrows(s, Primitive, s.pos, |js|);
    hide Run, Attach, Inv, ScanPrimitive, Step;
    forall more ensures Run(s, js + " " + more, room) == Run(t, js + " " + more, room) {
      PrimitiveThenBlank(s, js, more, room);
    }
    PrimitiveThenBlank(s, js, "", room);
    StepInv(s, js + " " + "", room);
    StepInv(u, js + " " + "", room);
  }

  lemma PrimitiveThenBlank(s: State, js: string, more: string, room: nat)
    requires Wf(s) && NoNul(js) && s.pos < |js| && PrimitiveStart(js[s.pos]) && !PrimitiveRefused(s)
    requires |s.toks| < room && ScanPrimitive(js + " ", s.pos) == Found(|js|)
    ensures var all, u := js + " " + more, State(|js|, Attach(s, Primitive, s.pos, |js|), s.super);
            var t := u.(pos := |js| + 1);
            && !AtEnd(all, s.pos) && Step(s, all, room) == Next(u) && !AtEnd(all, |js|) && Step(u, all, room) == Next(t)
            && Run(s, all, room) == Run(t, all, room)
  {
    var all, u := js + " " + more, State(|js|, Attach(s, Primitive, s.pos, |js|), s.super);
    assert all[s.pos] == js[s.pos] && all[|js|] == ' ' && js + " " <= all;
    assert Step(u, all, room) == Next(u.(pos := |js| + 1)) by { hide Attach; }
    hide Run, Attach, ScanPrimitive, Step;
    ScanPrimitiveGrow(js + " ", all, s.pos);
    PrimitiveIsLeaf(s, all, room);
    RunStep(s, all, room, u);
    RunStep(u, all, room, u.(pos := |js| + 1));
  }

  /** A text that nothing was found in can be continued with an object. */
  lemma Opens(s: State, js: string, room: nat) returns (t: State)
    requires Inv(s) && s.pos == |js| && s.toks == [] && room > 0
    ensures Inv(t) && t.pos == |js| + 1 && t.toks != []
    ensures forall more :: Run(s, js + "{" + more, room) == Run(t, js + "{" + more, room)
  {
    t := State(s.pos + 1, Attach(s, Object, s.pos, -1), 0);
    forall more ensures Step(s, js + "{" + more, room) == Next(t) {
      assert (js + "{" + more)[s.pos] == '{';
    }
    hide Run, Step, Attach, Inv;
    forall more ensures Run(s, js + "{" + more, room) == Run(t, js + "{" + more, room) {
      assert (js + "{" + more)[s.pos] == '{';
      RunStep(s, js + "{" + more, room, t);
    }
    assert (js + "{" + "")[s.pos] == '{';
    StepInv(s, js + "{" + "", room);
    AttachGrows(s, Object, s.pos, -1);
  }

  /** Where a call that did not refuse and did not run out stops. */
  lemma StopsWell(js: string, cap: nat)
    requires Run(INIT, js, cap).code != INVAL && Run(INIT, js, cap).code != NOMEM
    ensures var s := Run(INIT, js, cap).s;
            Inv(s) && s.pos <= |js| && (AtEnd(js, s.pos) || Step(s, js, cap) == Halt(PART, s))
  {
    hide Inv, Step;
    var s := Run(INIT, js, cap).s;
    assert Inv(INIT) by { InitInv(); }
    RunInv(INIT, js, cap);
    RunStaysInside(INIT, js, cap);
    RunStops(INIT, js, cap);
    hide Run;
    if !AtEnd(js, s.pos) { HaltCodes(s, js, cap); }
  }

  lemma InitInv()
    ensures Inv(INIT)
  {
  }

  /** From such a state: first whatever it takes to finish a scan or to have a token, then the closing. */
  lemma CompletesFrom(s: State, js: string, cap: nat, room: nat) returns (w: string)
    requires Inv(s) && NoNul(js) && s.pos <= |js| && (AtEnd(js, s.pos) || Step(s, js, cap) == Halt(PART, s))
    requires |s.toks| < room
    ensures NoNul(w) && Run(s, js + w, room).code > 0
  {
    hide Run, Inv, Step, AtEnd, NoNul;
    var first, t := "", s;
    EmptyNoNul();
    if s.pos < |js| {
      NotAtEnd(js, s.pos);
      first, t := ScanCompletes(s, js, cap, room);
    } else if s.toks == [] {
      first := "{";
      t := Opens(s, js, room);
    }
    var rest := CloseAll(t, js + first, room);
    w := first + rest;
    NoNulConcat(first, rest);
    assert js + w == js + first + rest;
  }

  lemma EmptyNoNul()
    ensures NoNul("") && NoNul("{")
  {
  }

  lemma NotAtEnd(js: string, p: nat)
    requires NoNul(js) && p < |js|
    ensures !AtEnd(js, p)
  {
  }

  lemma NoNulConcat(a: string, b: string)
    requires NoNul(a) && NoNul(b)
    ensures NoNul(a + b)
  {
  }

  /** A call that did not refuse the text and had cells enough leaves a text that can be completed. */
  lemma Completes(js: string, cap: nat) returns (w: string)
    requires NoNul(js) && Run(INIT, js, cap).code != INVAL && Run(INIT, js, cap).code != NOMEM
    ensures NoNul(w) && ParseStart(js + w).Some?
  {
    hide Run, Inv, Step, ParseStart;
    var s := Run(INIT, js, cap).s;
    var room := cap + |s.toks| + 1;
    StopsWell(js, cap);
    w := CompletesFrom(s, js, cap, room);
    RunGrow(INIT, js, js + w, cap, room);
    TwoPassesSuffice(js + w, room);
  }

  lemma HaltCodes(s: State, js: string, cap: nat)
    requires Wf(s) && !AtEnd(js, s.pos) && Step(s, js, cap).Halt?
    ensures Step(s, js, cap).code in {INVAL, NOMEM, PART}
  {
    hide ScanString, ScanPrimitive, Attach, Climb;
  }

  /**
   Refusal, exactly: a text without NULs is refused if and only if no continuation of it is accepted. With at
   least as many cells as characters every other call succeeds or asks for more text.
   */
  lemma RefusedExactly(js: string, cap: nat)
    requires NoNul(js) && |js| <= cap
    ensures Run(INIT, js, cap).code == INVAL <==> forall w :: NoNul(w) ==> ParseStart(js + w).None?
    ensures var code := Run(INIT, js, cap).code; code == INVAL || code == PART || code >= 0
  {
    NeverRunsOut(js, cap);
    RunStops(INIT, js, cap);
    var r := Run(INIT, js, cap);
    if r.code == INVAL {
      forall w ensures ParseStart(js + w).None? { RefusalIsFinal(js, w, cap); }
    } else {
      var w := Completes(js, cap);
      assert ParseStart(js + w).Some?;
    }
    if !AtEnd(js, r.s.pos) { HaltCodes(r.s, js, cap); }
  }

  lemma RunOfEnd(s: State, js: string, cap: nat)
    requires Wf(s) && AtEnd(js, s.pos)
    ensures Run(s, js, cap) == Result(Finish(s.toks), s)
  {
  }

  lemma RefusalIsFinal(js: string, w: string, cap: nat)
    requires Run(INIT, js, cap).code == INVAL
    ensures ParseStart(js + w).None?
  {
    hide Run, CountRun, Step, Finish;
    var all := js + w;
    if ParseStart(all).Some? {
      var n := CountRun(all, 0, 0).code;
      var r := Run(INIT, all, n);
      RunStops(INIT, all, n);
      RunGrow(INIT, js, all, cap, cap + n);
      RunGrow(INIT, all, all, n, cap + n);
      RunOfEnd(r.s, all, cap + n);
    }
  }
}
