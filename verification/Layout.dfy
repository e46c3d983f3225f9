/**
 Between its tokens an accepted text holds punctuation and white space and nothing else. With `Exactness`
 this makes the round trip exact over every layout: whatever characters are put in the gaps of a
 tree, the text parses to the tree's encoding only if they are white space.
 */
module Layout {
  import opened Jsmn
  import opened JsonTree
  import opened RoundTrip
  import opened Resume
  import opened Options
  import Exactness
  import JsmnInvariant

  // --------------------------------------------------------- every character

  predicate Punctuation(c: char) {
    c in {'{', '}', '[', ']', ':', ','}
  }

  /** Position `p` belongs to a primitive, or to a string or its quotes. */
  predicate Covers(t: Token, p: int) {
    (t.kind == Primitive && t.start <= p < t.end) || (t.kind == String && t.start - 1 <= p <= t.end)
  }

  ghost predicate Covered(toks: seq<Token>, p: int) {
    exists k :: 0 <= k < |toks| && Covers(toks[k], p)
  }

  ghost predicate Accounted(js: string, toks: seq<Token>, n: int) {
    forall p :: 0 <= p < n && p < |js| ==> Space(js[p]) || Punctuation(js[p]) || Covered(toks, p)
  }

  /** The first `n` tokens cover what they covered before. */
  lemma StillCovered(a: seq<Token>, b: seq<Token>, p: int)
    requires Covered(a, p) && |a| <= |b|
    requires forall k :: 0 <= k < |a| ==> (Covers(a[k], p) ==> Covers(b[k], p))
    ensures Covered(b, p)
  {
    var k :| 0 <= k < |a| && Covers(a[k], p);
    assert Covers(b[k], p);
  }

  lemma AttachAccounted(s: State, js: string, kind: Kind, start: int, end: int, next: nat)
    requires Wf(s) && Accounted(js, s.toks, s.pos)
    requires forall p :: s.pos <= p < next && p < |js| ==>
      Space(js[p]) || Punctuation(js[p]) || Covers(Token(kind, start, end, 0, s.super), p)
    ensures Accounted(js, Attach(s, kind, start, end), next)
  {
    var r := Attach(s, kind, start, end);
    hide Space, Punctuation;
    forall p | 0 <= p < next && p < |js| ensures Space(js[p]) || Punctuation(js[p]) || Covered(r, p) {
      if p < s.pos {
        if Covered(s.toks, p) { StillCovered(s.toks, r, p); }
      } else if !Space(js[p]) && !Punctuation(js[p]) {
        assert Covers(r[|s.toks|], p);
      }
    }
  }

  lemma CloseAccounted(s: State, js: string, kind: Kind)
    requires Wf(s) && s.pos < |js| && Accounted(js, s.toks, s.pos) && Punctuation(js[s.pos])
    requires kind == Object || kind == Array
    ensures var o := CloseStep(s, kind); o.Next? ==> Accounted(js, o.s.toks, o.s.pos)
  {
    var o := CloseStep(s, kind);
    hide Climb, Space, Punctuation;
    if o.Next? {
      forall p | 0 <= p < o.s.pos && p < |js| ensures Space(js[p]) || Punctuation(js[p]) || Covered(o.s.toks, p) {
        if p < s.pos && Covered(s.toks, p) { StillCovered(s.toks, o.s.toks, p); }
      }
    }
  }

  lemma SameAccounted(js: string, toks: seq<Token>, pos: nat)
    requires pos < |js| && Accounted(js, toks, pos) && (Space(js[pos]) || Punctuation(js[pos]))
    ensures Accounted(js, toks, pos + 1)
  {
  }

  lemma StepAccounted(s: State, js: string, cap: nat)
    requires Wf(s) && !AtEnd(js, s.pos) && Accounted(js, s.toks, s.pos)
    ensures var o := Step(s, js, cap); o.Next? ==> Accounted(js, o.s.toks, o.s.pos)
  {
    hide Accounted, ScanString, ScanPrimitive, Attach, Climb, CloseStep;
    var c := js[s.pos];
    if c == '{' {
      AttachAccounted(s, js, Object, s.pos, -1, s.pos + 1);
    } else if c == '[' {
      AttachAccounted(s, js, Array, s.pos, -1, s.pos + 1);
    } else if c == '}' {
      CloseAccounted(s, js, Object);
    } else if c == ']' {
      CloseAccounted(s, js, Array);
    } else if c == '"' {
      var r := ScanString(js, s.pos + 1);
      if r.Found? { AttachAccounted(s, js, String, s.pos + 1, r.at, r.at + 1); }
    } else if PrimitiveStart(c) {
      var r := ScanPrimitive(js, s.pos);
      if r.Found? { AttachAccounted(s, js, Primitive, s.pos, r.at, r.at); }
    } else if Blank(c) || c == ':' || c == ',' {
      SameAccounted(js, s.toks, s.pos);
    }
  }

  lemma {:induction false} RunAccounted(s: State, js: string, cap: nat)
    requires Wf(s) && Accounted(js, s.toks, s.pos)
    ensures var r := Run(s, js, cap).s; Accounted(js, r.toks, r.pos)
    decreases |js| - s.pos
  {
    hide Accounted, Step;
    if AtEnd(js, s.pos) {
    } else {
      StepAccounted(s, js, cap);
      var o := Step(s, js, cap);
      if o.Next? { RunAccounted(o.s, js, cap); }
    }
  }

  /**
   An accepted text is read to its end or to a NUL, with all tokens ended before; every character read
   is white space, punctuation, or part of a string or primitive that is a token.
   */
  lemma EveryCharacterAccounted(js: string) returns (stop: nat)
    requires ParseStart(js).Some?
    ensures stop <= |js| && AtEnd(js, stop)
    ensures var toks := ParseStart(js).value;
            Accounted(js, toks, stop) && forall k :: 0 <= k < |toks| ==> toks[k].end <= stop
  {
    var n := CountRun(js, 0, 0).code;
    var r := Run(INIT, js, n);
    RunAccounted(INIT, js, n);
    JsmnInvariant.RunInv(INIT, js, n);
    TwoPasses(js);
    PassesAgree(INIT, js, n);
    RunStaysInside(INIT, js, n);
    assert JsmnInvariant.Spans(r.s.toks, r.s.pos);
    hide Run, CountRun;
    stop := r.s.pos;
  }

  // --------------------------------------------------------- gaps in a tree

  /** Position `p` is in a gap of the value whose text starts at `at`. */
  predicate InGap(v: Value, at: nat, p: int) {
    match v
    case Obj(pad, ms) => at + 1 <= p < at + 1 + |pad| || InMemberGap(ms, at + 1 + |pad|, p)
    case Arr(pad, xs) => at + 1 <= p < at + 1 + |pad| || InItemGap(xs, at + 1 + |pad|, p)
    case _ => false
  }

  predicate InMemberGap(ms: Members, at: nat, p: int) {
    match ms
    case NoMember => false
    case Member(g0, name, g1, g2, v, g3, rest) =>
      var e := at + |g0| + |name| + 2;
      || at <= p < at + |g0|
      || e <= p < e + |g1|
      || e + |g1| + 1 <= p < ValueAt(ms, at)
      || InGap(v, ValueAt(ms, at), p)
      || NextMemberAt(ms, at) - 1 - |g3| <= p < NextMemberAt(ms, at) - 1
      || InMemberGap(rest, NextMemberAt(ms, at), p)
  }

  predicate InItemGap(xs: Items, at: nat, p: int) {
    match xs
    case NoItem => false
    case Item(g0, v, g1, rest) =>
      || at <= p < at + |g0|
      || InGap(v, at + |g0|, p)
      || NextItemAt(xs, at) - 1 - |g1| <= p < NextItemAt(xs, at) - 1
      || InItemGap(rest, NextItemAt(xs, at), p)
  }

  lemma {:induction false} GapInside(v: Value, at: nat, p: int)
    requires InGap(v, at, p)
    ensures at < p < at + |Print(v)|
  {
    match v
    case Obj(pad, ms) => if InMemberGap(ms, at + 1 + |pad|, p) { MemberGapInside(ms, at + 1 + |pad|, p); }
    case Arr(pad, xs) => if InItemGap(xs, at + 1 + |pad|, p) { ItemGapInside(xs, at + 1 + |pad|, p); }
    case _ =>
  }

  lemma {:induction false} MemberGapInside(ms: Members, at: nat, p: int)
    requires InMemberGap(ms, at, p)
    ensures at <= p < at + |PrintMembers(ms)|
  {
    PrintMembersLength(ms, at);
    if InGap(ms.value, ValueAt(ms, at), p) {
      GapInside(ms.value, ValueAt(ms, at), p);
    } else if InMemberGap(ms.rest, NextMemberAt(ms, at), p) {
      MemberGapInside(ms.rest, NextMemberAt(ms, at), p);
    }
  }

  lemma PrintItemsLength(xs: Items, at: nat)
    requires xs.Item?
    ensures at + |PrintItems(xs)| == NextItemAt(xs, at) - 1 + |MoreItems(xs.rest)|
  {
  }

  lemma {:induction false} ItemGapInside(xs: Items, at: nat, p: int)
    requires InItemGap(xs, at, p)
    ensures at <= p < at + |PrintItems(xs)|
  {
    PrintItemsLength(xs, at);
    if InGap(xs.value, at + |xs.g0|, p) {
      GapInside(xs.value, at + |xs.g0|, p);
    } else if InItemGap(xs.rest, NextItemAt(xs, at), p) {
      ItemGapInside(xs.rest, NextItemAt(xs, at), p);
    }
  }

  /** The tokens of a value lie in its text and outside its gaps. */
  lemma {:induction false} CoverOutsideGaps(v: Value, at: nat, idx: nat, parent: int, p: int)
    requires Covered(Encode(v, at, idx, parent), p)
    ensures at <= p < at + |Print(v)| && !InGap(v, at, p)
  {
    match v
    case Obj(pad, ms) =>
      CoveredTail(Token(Object, at, at + |Print(v)|, CountMembers(ms), parent),
                  EncodeMembers(ms, at + 1 + |pad|, idx + 1, idx), p);
      CoverOutsideMemberGaps(ms, at + 1 + |pad|, idx + 1, idx, p);
    case Arr(pad, xs) =>
      CoveredTail(Token(Array, at, at + |Print(v)|, CountItems(xs), parent),
                  EncodeItems(xs, at + 1 + |pad|, idx + 1, idx), p);
      CoverOutsideItemGaps(xs, at + 1 + |pad|, idx + 1, idx, p);
    case _ =>
  }

  lemma CoveredTail(t: Token, ts: seq<Token>, p: int)
    requires Covered([t] + ts, p) && !Covers(t, p)
    ensures Covered(ts, p)
  {
    var k :| 0 <= k < |[t] + ts| && Covers(([t] + ts)[k], p);
    assert Covers(ts[k - 1], p);
  }

  lemma CoveredConcat(a: seq<Token>, b: seq<Token>, p: int)
    requires Covered(a + b, p)
    ensures Covered(a, p) || Covered(b, p)
  {
    var k :| 0 <= k < |a + b| && Covers((a + b)[k], p);
    assert Covers(if k < |a| then a[k] else b[k - |a|], p);
  }

  lemma {:induction false} CoverOutsideMemberGaps(ms: Members, at: nat, idx: nat, parent: int, p: int)
    requires Covered(EncodeMembers(ms, at, idx, parent), p)
    ensures at <= p < at + |PrintMembers(ms)| && !InMemberGap(ms, at, p)
  {
    hide Print, Encode, InGap;
    if ms.Member? {
      var key := Token(String, at + |ms.g0| + 1, at + |ms.g0| + 1 + |ms.name|, 1, parent);
      var val := Encode(ms.value, ValueAt(ms, at), idx + 1, idx);
      var rest := EncodeMembers(ms.rest, NextMemberAt(ms, at), idx + 1 + Size(ms.value), parent);
      PrintMembersLength(ms, at);
      MemberOrder(ms, at, p);
      if !Covers(key, p) {
        assert [key] + val + rest == [key] + (val + rest);
        CoveredTail(key, val + rest, p);
        CoveredConcat(val, rest, p);
        if Covered(val, p) {
          CoverOutsideGaps(ms.value, ValueAt(ms, at), idx + 1, idx, p);
        } else {
          CoverOutsideMemberGaps(ms.rest, NextMemberAt(ms, at), idx + 1 + Size(ms.value), parent, p);
        }
      }
    }
  }

  /** A gap of the value or of the members behind it is where its text is. */
  lemma MemberOrder(ms: Members, at: nat, p: int)
    requires ms.Member?
    ensures InGap(ms.value, ValueAt(ms, at), p) ==> ValueAt(ms, at) <= p < ValueAt(ms, at) + |Print(ms.value)|
    ensures InMemberGap(ms.rest, NextMemberAt(ms, at), p) ==> NextMemberAt(ms, at) <= p
  {
    if InGap(ms.value, ValueAt(ms, at), p) { GapInside(ms.value, ValueAt(ms, at), p); }
    if InMemberGap(ms.rest, NextMemberAt(ms, at), p) { MemberGapInside(ms.rest, NextMemberAt(ms, at), p); }
  }

  lemma {:induction false} CoverOutsideItemGaps(xs: Items, at: nat, idx: nat, parent: int, p: int)
    requires Covered(EncodeItems(xs, at, idx, parent), p)
    ensures at <= p < at + |PrintItems(xs)| && !InItemGap(xs, at, p)
  {
    hide Print, Encode, InGap;
    if xs.Item? {
      var val := Encode(xs.value, at + |xs.g0|, idx, parent);
      var rest := EncodeItems(xs.rest, NextItemAt(xs, at), idx + Size(xs.value), parent);
      ItemOrder(xs, at, p);
      CoveredConcat(val, rest, p);
      if Covered(val, p) {
        CoverOutsideGaps(xs.value, at + |xs.g0|, idx, parent, p);
      } else {
        CoverOutsideItemGaps(xs.rest, NextItemAt(xs, at), idx + Size(xs.value), parent, p);
      }
    }
  }

  lemma ItemOrder(xs: Items, at: nat, p: int)
    requires xs.Item?
    ensures InGap(xs.value, at + |xs.g0|, p) ==> at + |xs.g0| <= p < at + |xs.g0| + |Print(xs.value)|
    ensures InItemGap(xs.rest, NextItemAt(xs, at), p) ==> NextItemAt(xs, at) <= p
  {
    if InGap(xs.value, at + |xs.g0|, p) { GapInside(xs.value, at + |xs.g0|, p); }
    if InItemGap(xs.rest, NextItemAt(xs, at), p) { ItemGapInside(xs.rest, NextItemAt(xs, at), p); }
  }

  // ------------------------------------------------------------ every layout

  /** Any characters but punctuation, quotes and NULs. */
  predicate Filler(w: string) {
    forall i :: 0 <= i < |w| ==> !Punctuation(w[i]) && w[i] != '"' && w[i] != '\0'
  }

  /** Integers are in range and gaps hold fillers; string bodies and other numbers may be anything. */
  predicate Filled(v: Value) {
    match v
    case Obj(pad, ms) => Filler(pad) && FilledMembers(ms)
    case Arr(pad, xs) => Filler(pad) && FilledItems(xs)
    case Int(n) => Decimal.Int32(n)
    case _ => true
  }

  predicate FilledMembers(ms: Members) {
    match ms
    case NoMember => true
    case Member(g0, _, g1, g2, v, g3, rest) =>
      Filler(g0) && Filler(g1) && Filler(g2) && Filled(v) && Filler(g3) && FilledMembers(rest)
  }

  predicate FilledItems(xs: Items) {
    match xs
    case NoItem => true
    case Item(g0, v, g1, rest) => Filler(g0) && Filled(v) && Filler(g1) && FilledItems(rest)
  }

  lemma BlankIsFiller(w: string)
    requires Blanks(w)
    ensures Filler(w)
  {
  }

  /** A filler that no token covers is white space. */
  lemma FillerIsBlank(js: string, toks: seq<Token>, n: int, q: nat, w: string)
    requires Accounted(js, toks, n) && Occurs(js, q, w) && Filler(w) && q + |w| <= n
    requires forall p :: q <= p < q + |w| ==> !Covered(toks, p)
    ensures Blanks(w)
  {
    hide Punctuation, Space, Covered;
    forall i | 0 <= i < |w| ensures Space(w[i]) {
      OccursAt(js, q, w, i);
      assert !Covered(toks, q + i);
    }
  }

  /** No token of `toks` covers a gap of the value. */
  ghost predicate GapsFree(toks: seq<Token>, v: Value, at: nat) {
    forall p :: InGap(v, at, p) ==> !Covered(toks, p)
  }

  ghost predicate MemberGapsFree(toks: seq<Token>, ms: Members, at: nat) {
    forall p :: InMemberGap(ms, at, p) ==> !Covered(toks, p)
  }

  ghost predicate ItemGapsFree(toks: seq<Token>, xs: Items, at: nat) {
    forall p :: InItemGap(xs, at, p) ==> !Covered(toks, p)
  }

  lemma {:induction false} GapsAreBlank(js: string, toks: seq<Token>, n: int, v: Value, at: nat)
    requires Accounted(js, toks, n) && Occurs(js, at, Print(v)) && at + |Print(v)| <= n
    requires Filled(v) && GapsFree(toks, v, at)
    ensures Exactness.Spaced(v)
    decreases v, 1
  {
    hide Accounted, Covered, Occurs, Filler, Blanks;
    match v
    case Obj(pad, ms) =>
      OccursSplit(js, at, "{" + pad + PrintMembers(ms), "}");
      OccursSplit(js, at, "{" + pad, PrintMembers(ms));
      OccursSplit(js, at, "{", pad);
      assert forall p :: at + 1 <= p < at + 1 + |pad| ==> InGap(v, at, p);
      FillerIsBlank(js, toks, n, at + 1, pad);
      assert forall p :: InMemberGap(ms, at + 1 + |pad|, p) ==> InGap(v, at, p);
      MemberGapsAreBlank(js, toks, n, ms, at + 1 + |pad|);
    case Arr(pad, xs) =>
      OccursSplit(js, at, "[" + pad + PrintItems(xs), "]");
      OccursSplit(js, at, "[" + pad, PrintItems(xs));
      OccursSplit(js, at, "[", pad);
      assert forall p :: at + 1 <= p < at + 1 + |pad| ==> InGap(v, at, p);
      FillerIsBlank(js, toks, n, at + 1, pad);
      assert forall p :: InItemGap(xs, at + 1 + |pad|, p) ==> InGap(v, at, p);
      ItemGapsAreBlank(js, toks, n, xs, at + 1 + |pad|);
    case _ =>
  }

  lemma {:induction false} MemberGapsAreBlank(js: string, toks: seq<Token>, n: int, ms: Members, at: nat)
    requires Accounted(js, toks, n) && Occurs(js, at, PrintMembers(ms)) && at + |PrintMembers(ms)| <= n
    requires FilledMembers(ms) && MemberGapsFree(toks, ms, at)
    ensures Exactness.SpacedMembers(ms)
    decreases ms, 0
  {
    hide Accounted, Covered, Occurs, Filler, Blanks, Print;
    if ms.Member? {
      var v, f := ValueAt(ms, at), NextMemberAt(ms, at);
      var e := at + |ms.g0| + |ms.name| + 2;
      MemberGapPieces(js, ms, at);
      PrintMembersLength(ms, at);
      assert forall p :: at <= p < at + |ms.g0| ==> InMemberGap(ms, at, p);
      assert forall p :: e <= p < e + |ms.g1| ==> InMemberGap(ms, at, p);
      assert forall p :: e + |ms.g1| + 1 <= p < v ==> InMemberGap(ms, at, p);
      assert forall p :: f - 1 - |ms.g3| <= p < f - 1 ==> InMemberGap(ms, at, p);
      assert forall p :: InGap(ms.value, v, p) ==> InMemberGap(ms, at, p);
      assert forall p :: InMemberGap(ms.rest, f, p) ==> InMemberGap(ms, at, p);
      FillerIsBlank(js, toks, n, at, ms.g0);
      FillerIsBlank(js, toks, n, e, ms.g1);
      FillerIsBlank(js, toks, n, e + |ms.g1| + 1, ms.g2);
      FillerIsBlank(js, toks, n, f - 1 - |ms.g3|, ms.g3);
      GapsAreBlank(js, toks, n, ms.value, v);
      if ms.rest.Member? { MemberGapsAreBlank(js, toks, n, ms.rest, f); }
    }
  }

  /** Where the gaps, the value and the rest of a member stand. */
  lemma MemberGapPieces(js: string, ms: Members, at: nat)
    requires ms.Member? && Occurs(js, at, PrintMembers(ms))
    ensures var e := at + |ms.g0| + |ms.name| + 2;
            && Occurs(js, at, ms.g0) && Occurs(js, e, ms.g1) && Occurs(js, e + |ms.g1| + 1, ms.g2)
            && Occurs(js, ValueAt(ms, at), Print(ms.value))
            && Occurs(js, NextMemberAt(ms, at) - 1 - |ms.g3|, ms.g3)
            && (ms.rest.Member? ==> Occurs(js, NextMemberAt(ms, at), PrintMembers(ms.rest)))
  {
    hide Occurs, Print;
    var q, more := "\"" + ms.name + "\"", MoreMembers(ms.rest);
    assert ms.rest.Member? ==> more == "," + PrintMembers(ms.rest);
    var w0 := ms.g0 + q;
    var w1 := w0 + ms.g1;
    var w2 := w1 + ":";
    var w3 := w2 + ms.g2;
    var w4 := w3 + Print(ms.value);
    var w5 := w4 + ms.g3;
    assert PrintMembers(ms) == w5 + more by { assert ms.g0 + q == ms.g0 + "\"" + ms.name + "\""; }
    hide PrintMembers, MoreMembers;
    OccursSplit(js, at, w5, more);
    OccursSplit(js, at, w4, ms.g3);
    OccursSplit(js, at, w3, Print(ms.value));
    OccursSplit(js, at, w2, ms.g2);
    OccursSplit(js, at, w1, ":");
    OccursSplit(js, at, w0, ms.g1);
    OccursSplit(js, at, ms.g0, q);
    if ms.rest.Member? { OccursSplit(js, at + |w5|, ",", PrintMembers(ms.rest)); }
  }

  lemma {:induction false} ItemGapsAreBlank(js: string, toks: seq<Token>, n: int, xs: Items, at: nat)
    requires Accounted(js, toks, n) && Occurs(js, at, PrintItems(xs)) && at + |PrintItems(xs)| <= n
    requires FilledItems(xs) && ItemGapsFree(toks, xs, at)
    ensures Exactness.SpacedItems(xs)
    decreases xs, 0
  {
    hide Accounted, Covered, Occurs, Filler, Blanks, Print;
    if xs.Item? {
      var v, f := at + |xs.g0|, NextItemAt(xs, at);
      ItemGapPieces(js, xs, at);
      PrintItemsLength(xs, at);
      assert forall p :: at <= p < v ==> InItemGap(xs, at, p);
      assert forall p :: f - 1 - |xs.g1| <= p < f - 1 ==> InItemGap(xs, at, p);
      assert forall p :: InGap(xs.value, v, p) ==> InItemGap(xs, at, p);
      assert forall p :: InItemGap(xs.rest, f, p) ==> InItemGap(xs, at, p);
      FillerIsBlank(js, toks, n, at, xs.g0);
      FillerIsBlank(js, toks, n, f - 1 - |xs.g1|, xs.g1);
      GapsAreBlank(js, toks, n, xs.value, v);
      if xs.rest.Item? { ItemGapsAreBlank(js, toks, n, xs.rest, f); }
    }
  }

  lemma ItemGapPieces(js: string, xs: Items, at: nat)
    requires xs.Item? && Occurs(js, at, PrintItems(xs))
    ensures Occurs(js, at, xs.g0) && Occurs(js, at + |xs.g0|, Print(xs.value))
    ensures Occurs(js, NextItemAt(xs, at) - 1 - |xs.g1|, xs.g1)
    ensures xs.rest.Item? ==> Occurs(js, NextItemAt(xs, at), PrintItems(xs.rest))
  {
    hide Occurs, Print;
    var w1 := xs.g0 + Print(xs.value);
    var w2 := w1 + xs.g1;
    var more := MoreItems(xs.rest);
    assert xs.rest.Item? ==> more == "," + PrintItems(xs.rest);
    assert PrintItems(xs) == w2 + more;
    hide PrintItems, MoreItems;
    OccursSplit(js, at, w2, more);
    OccursSplit(js, at, w1, xs.g1);
    OccursSplit(js, at, xs.g0, Print(xs.value));
    if xs.rest.Item? { OccursSplit(js, at + |w2|, ",", PrintItems(xs.rest)); }
  }

  /** An encoding leaves the gaps of its value free, and all that is before and behind its text. */
  lemma EncodingLeavesGaps(v: Value, at: nat, idx: nat, parent: int)
    ensures GapsFree(Encode(v, at, idx, parent), v, at)
    ensures forall p :: p < at || p >= at + |Print(v)| ==> !Covered(Encode(v, at, idx, parent), p)
  {
    hide Encode, InGap, Print, Covered;
    var toks := Encode(v, at, idx, parent);
    forall p | Covered(toks, p) ensures at <= p < at + |Print(v)| && !InGap(v, at, p) {
      CoverOutsideGaps(v, at, idx, parent, p);
    }
  }

  /**
   The round trip over every layout: whatever stands in the gaps of a text, punctuation and quotes apart,
   it parses to the encoding of its tree if and only if the gaps hold white space only and every
   string body, name and number is one the tokenizer reads to its end.
   */
  lemma LayoutExactly(w1: string, v: Value, w2: string)
    requires Container(v) && Filled(v) && Filler(w1) && Filler(w2)
    ensures ParseStart(w1 + Print(v) + w2) == Some(Encode(v, |w1|, 0, -1))
       <==> Legal(v) && Blanks(w1) && Blanks(w2)
  {
    hide Print, Encode, Legal, Filled, Filler, Blanks, ParseStart, Accounted, Occurs, Exactness.Spaced, Covered, InGap;
    var js, toks := w1 + Print(v) + w2, Encode(v, |w1|, 0, -1);
    if Legal(v) && Blanks(w1) && Blanks(w2) { ParseStartPrinted(w1, v, w2); }
    if ParseStart(js) == Some(toks) {
      AcceptedIsBlank(w1, v, w2);
      Exactness.RoundTripExactly(w1, v, w2);
    }
  }

  lemma AcceptedIsBlank(w1: string, v: Value, w2: string)
    requires Container(v) && Filled(v) && Filler(w1) && Filler(w2)
    requires ParseStart(w1 + Print(v) + w2) == Some(Encode(v, |w1|, 0, -1))
    ensures Exactness.Spaced(v) && Blanks(w1) && Blanks(w2)
  {
    hide Print, Encode, Legal, Filled, Filler, Blanks, ParseStart, Accounted, Occurs, Exactness.Spaced, Covered, InGap;
    var js, toks := w1 + Print(v) + w2, Encode(v, |w1|, 0, -1);
    var end := |w1| + |Print(v)|;
    OccursWhole(js);
    OccursSplit(js, 0, w1 + Print(v), w2);
    OccursSplit(js, 0, w1, Print(v));
    EncodingLeavesGaps(v, |w1|, 0, -1);
    RootEnd(v, |w1|);
    var stop := EveryCharacterAccounted(js);
    assert toks[0].end <= stop;
    FillerEndsText(js, end, w2, stop);
    FillerIsBlank(js, toks, stop, 0, w1);
    GapsAreBlank(js, toks, stop, v, |w1|);
    FillerIsBlank(js, toks, stop, end, w2);
  }

  lemma FillerEndsText(js: string, end: nat, w: string, stop: nat)
    requires Occurs(js, end, w) && end + |w| == |js| && Filler(w) && end <= stop <= |js| && AtEnd(js, stop)
    ensures stop == |js|
  {
    if stop < |js| { OccursAt(js, end, w, stop - end); }
  }

  lemma RootEnd(v: Value, at: nat)
    requires Container(v)
    ensures var toks := Encode(v, at, 0, -1); toks != [] && toks[0].end == at + |Print(v)|
  {
  }
}