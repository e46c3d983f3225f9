/**
 Call sequences of the generator: what they append altogether, which sequences write a given tree,
 and how large a buffer they need.
 */
module GeneratorTree {
  import opened CStrings
  import opened Generator
  import opened JsonTree
  import Decimal

  // -------------------------------------------------------- call sequences

  function AppendsAll(calls: seq<Call>, comma: bool): string {
    if calls == [] then ""
    else Appends(calls[0], comma) + AppendsAll(calls[1..], Pending(calls[0], comma))
  }

  function PendingAll(calls: seq<Call>, comma: bool): bool {
    if calls == [] then comma else PendingAll(calls[1..], Pending(calls[0], comma))
  }

  predicate CleanAll(calls: seq<Call>) {
    forall i :: 0 <= i < |calls| ==> CleanCall(calls[i])
  }

  lemma AllUnfold(calls: seq<Call>, comma: bool)
    requires calls != []
    ensures var p := Pending(calls[0], comma);
            && AppendsAll(calls, comma) == Appends(calls[0], comma) + AppendsAll(calls[1..], p)
            && PendingAll(calls, comma) == PendingAll(calls[1..], p)
  {
    hide Appends, Pending;
  }

  lemma {:induction false} AllConcat(a: seq<Call>, b: seq<Call>, comma: bool)
    ensures AppendsAll(a + b, comma) == AppendsAll(a, comma) + AppendsAll(b, PendingAll(a, comma))
    ensures PendingAll(a + b, comma) == PendingAll(b, PendingAll(a, comma))
  {
    if a == [] {
      assert a + b == b;
    } else {
      hide *;
      assert (a + b)[1..] == a[1..] + b && (a + b)[0] == a[0];
      AllUnfold(a, comma);
      AllUnfold(a + b, comma);
      AllConcat(a[1..], b, Pending(a[0], comma));
    }
  }

  lemma AllOne(c: Call, comma: bool)
    ensures AppendsAll([c], comma) == Appends(c, comma) && PendingAll([c], comma) == Pending(c, comma)
  {
  }

  /** How much text a generator takes before it reports failure. */
  datatype Room = Endless | Room(limit: nat)

  predicate Fits(n: nat, room: Room) {
    room.Endless? || n <= room.limit
  }

  ghost function RoomOf(g: JsonGen): Room
    requires g.Valid()
    reads g, g.buf
  {
    if g.buf == null || g.flushCb then Endless else Room(g.bufSize - 1)
  }

  /** The return codes of the calls when `before` characters were appended earlier. */
  function Codes(calls: seq<Call>, comma: bool, before: nat, room: Room): (r: seq<int>)
    ensures |r| == |calls|
    decreases calls
  {
    if calls == [] then []
    else
      var after := before + |Appends(calls[0], comma)|;
      [if Silent(calls[0]) || Fits(after, room) then 0 else -1]
      + Codes(calls[1..], Pending(calls[0], comma), after, room)
  }

  lemma AllCons(calls: seq<Call>, comma: bool, before: string, room: Room)
    requires calls != []
    ensures var p := Pending(calls[0], comma);
            var after := before + Appends(calls[0], comma);
            && before + AppendsAll(calls, comma) == after + AppendsAll(calls[1..], p)
            && PendingAll(calls, comma) == PendingAll(calls[1..], p)
            && Codes(calls, comma, |before|, room)
               == [if Silent(calls[0]) || Fits(|after|, room) then 0 else -1] + Codes(calls[1..], p, |after|, room)
  {
    hide Appends, Pending, Silent;
  }

  /** Issuing calls one after the other. */
  method IssueAll(g: JsonGen, calls: seq<Call>) returns (codes: seq<int>)
    requires g.Valid() && g.Roomy() && CleanAll(calls)
    modifies g`freePtr, g`totalLen, g`flushed, g`all, g`commaReq, g.buf
    ensures g.Did(AppendsAll(calls, old(g.commaReq)), PendingAll(calls, old(g.commaReq)))
    ensures RoomOf(g) == old(RoomOf(g))
    ensures codes == Codes(calls, old(g.commaReq), |old(g.all)|, old(RoomOf(g)))
    decreases |calls|
  {
    ghost var room := RoomOf(g);
    assert room.Endless? || room.limit == g.bufSize - 1;
    hide JsonGen.Valid, Appends, Pending, Silent, CleanCall;
    if calls == [] { return []; }
    AllCons(calls, g.commaReq, g.all, room);
    assert CleanCall(calls[0]) && CleanAll(calls[1..]);
    hide AppendsAll, PendingAll, Codes, CleanAll;
    var r := g.Issue(calls[0]);
    assert r == if Silent(calls[0]) || Fits(|g.all|, room) then 0 else -1;
    hide JsonGen.Code, Fits;
    var rest := IssueAll(g, calls[1..]);
    codes := [r] + rest;
  }

  // ----------------------------------------------------------------- sizing

  /** When everything fits, every call reports success. */
  lemma {:induction false} FitsNeverFails(calls: seq<Call>, comma: bool, before: nat, room: Room)
    requires Fits(before + |AppendsAll(calls, comma)|, room)
    ensures forall i :: 0 <= i < |calls| ==> Codes(calls, comma, before, room)[i] == 0
    decreases calls
  {
    if calls == [] {
    } else {
      FitsNeverFails(calls[1..], Pending(calls[0], comma), before + |Appends(calls[0], comma)|, room);
    }
  }

  /** A call whose last piece is not empty reports success exactly when the text up to it fits. */
  lemma {:induction false} CodeTellsFit(calls: seq<Call>, comma: bool, before: nat, room: Room, i: nat)
    requires i < |calls| && !Silent(calls[i])
    ensures Codes(calls, comma, before, room)[i] == 0
       <==> Fits(before + |AppendsAll(calls[..i + 1], comma)|, room)
    decreases calls
  {
    hide Appends, Pending, Silent;
    assert calls[..i + 1][0] == calls[0];
    if i == 0 {
      assert calls[..1] == [calls[0]];
    } else {
      assert calls[..i + 1][1..] == calls[1..][..i];
      CodeTellsFit(calls[1..], Pending(calls[0], comma), before + |Appends(calls[0], comma)|, room, i - 1);
    }
  }

  /**
   Dry-run sizing: with a buffer of any size from the length that a run without a buffer reports, the
   same calls never fail and the buffer then holds the whole text.
   */
  method SizeThenWrite(calls: seq<Call>, spare: nat) returns (size: nat, buf: array<char>, codes: seq<int>)
    requires CleanAll(calls)
    ensures size == |AppendsAll(calls, false)| + 1 && buf.Length == size + spare
    ensures |codes| == |calls| && forall i :: 0 <= i < |codes| ==> codes[i] == 0
    ensures CString(buf[..]) == AppendsAll(calls, false)
  {
    var dry := new JsonGen(null, 0, false);
    var _ := IssueAll(dry, calls);
    size := dry.End();
    buf := new char[size + spare](_ => '\0');
    var g := new JsonGen(buf, size + spare, false);
    FitsNeverFails(calls, false, 0, RoomOf(g));
    codes := IssueAll(g, calls);
    var _ := g.End();
    var text := AppendsAll(calls, false);
    assert text[..|text|] == text;
  }

  // ------------------------------------------------------------------ trees

  /**
   How a tree is issued. Strings may be given whole or in pieces, and an object or array below a
   name as text that is already printed.
   */
  datatype Script =
    | GObj(ms: GMembers)
    | GArr(xs: GItems)
    | GSet(val: Scalar)
    | GLong(first: CStr, more: seq<CStr>)

  datatype GMembers =
    | GNoMember
    | GMember(name: CStr, value: Script, rest: GMembers)
    | GRaw(name: CStr, printed: Value, rest: GMembers)

  datatype GItems =
    | GNoItem
    | GItem(value: Script, rest: GItems)

  function Pieces(more: seq<CStr>): string {
    if more == [] then "" else Txt(more[0]) + Pieces(more[1..])
  }

  function Meaning(g: Script): Value {
    match g
    case GObj(ms) => Obj("", MeaningMembers(ms))
    case GArr(xs) => Arr("", MeaningItems(xs))
    case GLong(first, more) => Str(Txt(first) + Pieces(more))
    case GSet(v) =>
      match v
      case SBool(b) => Bool(b)
      case SInt(n) => Int(n)
      case SFloat(w) => Float(w)
      case SString(c) => Str(Txt(c))
      case SNull => Null
  }

  function MeaningMembers(ms: GMembers): (r: Members)
    ensures r.NoMember? <==> ms.GNoMember?
  {
    match ms
    case GNoMember => NoMember
    case GMember(n, g, rest) => Member("", Txt(n), "", "", Meaning(g), "", MeaningMembers(rest))
    case GRaw(n, v, rest) => Member("", Txt(n), "", "", v, "", MeaningMembers(rest))
  }

  function MeaningItems(xs: GItems): (r: Items)
    ensures r.NoItem? <==> xs.GNoItem?
  {
    match xs
    case GNoItem => NoItem
    case GItem(g, rest) => Item("", Meaning(g), "", MeaningItems(rest))
  }

  function AddCalls(more: seq<CStr>): seq<Call> {
    if more == [] then [] else [AddToLong(more[0])] + AddCalls(more[1..])
  }

  /** The calls for a value on its own: the root, or an item of an array. */
  function ItemCalls(g: Script): seq<Call>
    decreases g
  {
    match g
    case GObj(ms) => [Open('{')] + MembersCalls(ms) + [Close('}')]
    case GArr(xs) => [Open('[')] + ItemsCalls(xs) + [Close(']')]
    case GSet(v) => [ArrSet(v)]
    case GLong(first, more) => [ArrStartLong(first)] + AddCalls(more) + [EndLong]
  }

  /** The calls for a value below a name. */
  function MemberCalls(n: CStr, g: Script): seq<Call>
    decreases g
  {
    match g
    case GObj(ms) => [PushOpen(n, '{')] + MembersCalls(ms) + [Close('}')]
    case GArr(xs) => [PushOpen(n, '[')] + ItemsCalls(xs) + [Close(']')]
    case GSet(v) => [ObjSet(n, v)]
    case GLong(first, more) => [ObjStartLong(n, first)] + AddCalls(more) + [EndLong]
  }

  function MembersCalls(ms: GMembers): seq<Call>
    decreases ms
  {
    match ms
    case GNoMember => []
    case GMember(n, g, rest) => MemberCalls(n, g) + MembersCalls(rest)
    case GRaw(n, v, rest) => [PushRaw(n, Chars(Print(v)))] + MembersCalls(rest)
  }

  function ItemsCalls(xs: GItems): seq<Call>
    decreases xs
  {
    match xs
    case GNoItem => []
    case GItem(g, rest) => ItemCalls(g) + ItemsCalls(rest)
  }

  // -------------------------------------------------------- comma discipline

  lemma {:induction false} AddsPieces(more: seq<CStr>, comma: bool)
    ensures AppendsAll(AddCalls(more), comma) == Pieces(more) && PendingAll(AddCalls(more), comma) == comma
  {
    if more == [] {
    } else {
      assert AddCalls(more)[1..] == AddCalls(more[1..]);
      AddsPieces(more[1..], comma);
    }
  }

  /** A first call, a body and a last call. */
  lemma Framed(a: Call, body: seq<Call>, z: Call, comma: bool)
    ensures var p := Pending(a, comma);
            var q := PendingAll(body, p);
            && AppendsAll([a] + body + [z], comma) == Appends(a, comma) + AppendsAll(body, p) + Appends(z, q)
            && PendingAll([a] + body + [z], comma) == Pending(z, q)
  {
    AllConcat([a] + body, [z], comma);
    AllConcat([a], body, comma);
    AllOne(a, comma);
    AllOne(z, PendingAll(body, Pending(a, comma)));
  }

  /**
   Comma discipline: the calls for a tree append its printing, after a comma when one is pending, and
   leave one pending. Inside, the single flag puts a comma between every two siblings and nowhere else.
   */
  lemma {:induction false} ItemPrints(g: Script, comma: bool)
    ensures AppendsAll(ItemCalls(g), comma) == Comma(comma) + Print(Meaning(g))
    ensures PendingAll(ItemCalls(g), comma)
    decreases g, 0
  {
    hide AppendsAll, PendingAll, Comma, PrintMembers, PrintItems, MembersCalls, ItemsCalls, AddCalls, Pieces;
    hide MeaningMembers, MeaningItems;
    match g
    case GObj(ms) =>
      Framed(Open('{'), MembersCalls(ms), Close('}'), comma);
      MembersPrint(ms, false);
      PrintObject(Comma(comma), ms);
    case GArr(xs) =>
      Framed(Open('['), ItemsCalls(xs), Close(']'), comma);
      ItemsPrint(xs, false);
      PrintArray(Comma(comma), xs);
    case GSet(v) =>
      assert ItemCalls(g) == [ArrSet(v)];
      AllOne(ArrSet(v), comma);
      ScalarPrints(v);
    case GLong(first, more) =>
      Framed(ArrStartLong(first), AddCalls(more), EndLong, comma);
      AddsPieces(more, true);
      PrintPieces(Comma(comma), Txt(first), Pieces(more));
  }

  lemma {:induction false} MemberPrints(n: CStr, g: Script, comma: bool)
    ensures AppendsAll(MemberCalls(n, g), comma) == Comma(comma) + Name(n) + Print(Meaning(g))
    ensures PendingAll(MemberCalls(n, g), comma)
    decreases g, 0
  {
    hide AppendsAll, PendingAll, Comma, PrintMembers, PrintItems, MembersCalls, ItemsCalls, AddCalls, Pieces, Name;
    hide MeaningMembers, MeaningItems;
    match g
    case GObj(ms) =>
      Framed(PushOpen(n, '{'), MembersCalls(ms), Close('}'), comma);
      MembersPrint(ms, false);
      PrintObject(Comma(comma) + Name(n), ms);
    case GArr(xs) =>
      Framed(PushOpen(n, '['), ItemsCalls(xs), Close(']'), comma);
      ItemsPrint(xs, false);
      PrintArray(Comma(comma) + Name(n), xs);
    case GSet(v) =>
      assert MemberCalls(n, g) == [ObjSet(n, v)];
      AllOne(ObjSet(n, v), comma);
      ScalarPrints(v);
    case GLong(first, more) =>
      Framed(ObjStartLong(n, first), AddCalls(more), EndLong, comma);
      AddsPieces(more, true);
      PrintPieces(Comma(comma) + Name(n), Txt(first), Pieces(more));
  }

  lemma ScalarPrints(v: Scalar)
    ensures ScalarText(v) == Print(Meaning(GSet(v)))
  {
  }

  /** `head` followed by an object, an array, or a string given in pieces. */
  lemma PrintObject(head: string, ms: GMembers)
    ensures head + "{" + (if ms.GNoMember? then "" else Comma(false) + PrintMembers(MeaningMembers(ms))) + "}"
         == head + Print(Meaning(GObj(ms)))
  {
    var inner := PrintMembers(MeaningMembers(ms));
    assert (if ms.GNoMember? then "" else Comma(false) + inner) == inner;
    assert Print(Meaning(GObj(ms))) == "{" + "" + inner + "}";
    hide *;
    Bracketed(head, "{", inner, "}");
  }

  lemma PrintArray(head: string, xs: GItems)
    ensures head + "[" + (if xs.GNoItem? then "" else Comma(false) + PrintItems(MeaningItems(xs))) + "]"
         == head + Print(Meaning(GArr(xs)))
  {
    var inner := PrintItems(MeaningItems(xs));
    assert (if xs.GNoItem? then "" else Comma(false) + inner) == inner;
    assert Print(Meaning(GArr(xs))) == "[" + "" + inner + "]";
    hide *;
    Bracketed(head, "[", inner, "]");
  }

  lemma Bracketed(head: string, open: string, inner: string, close: string)
    ensures head + open + inner + close == head + (open + "" + inner + close)
  {
  }

  lemma PrintPieces(head: string, first: string, rest: string)
    ensures head + "\"" + first + rest + "\"" == head + Print(Str(first + rest))
  {
  }

  lemma {:induction false} MembersPrint(ms: GMembers, comma: bool)
    ensures AppendsAll(MembersCalls(ms), comma)
         == (if ms.GNoMember? then "" else Comma(comma) + PrintMembers(MeaningMembers(ms)))
    ensures PendingAll(MembersCalls(ms), comma) == (comma || !ms.GNoMember?)
    decreases ms, 0
  {
    match ms
    case GNoMember =>
    case GMember(n, g, rest) =>
      AllConcat(MemberCalls(n, g), MembersCalls(rest), comma);
      MemberPrints(n, g, comma);
      MembersPrint(rest, true);
      CommaThenMember(Comma(comma), MeaningMembers(ms));
    case GRaw(n, v, rest) =>
      AllConcat([PushRaw(n, Chars(Print(v)))], MembersCalls(rest), comma);
      AllOne(PushRaw(n, Chars(Print(v))), comma);
      MembersPrint(rest, true);
      CommaThenMember(Comma(comma), MeaningMembers(ms));
  }

  lemma CommaThenMember(c: string, ms: Members)
    requires ms.Member? && ms.g0 == ms.g1 == ms.g2 == ms.g3 == ""
    ensures c + PrintMembers(ms) == c + ("\"" + ms.name + "\":") + Print(ms.value) + MoreMembers(ms.rest)
  {
  }

  lemma CommaThenItem(c: string, xs: Items)
    requires xs.Item? && xs.g0 == xs.g1 == ""
    ensures c + PrintItems(xs) == c + Print(xs.value) + MoreItems(xs.rest)
  {
  }

  lemma {:induction false} ItemsPrint(xs: GItems, comma: bool)
    ensures AppendsAll(ItemsCalls(xs), comma)
         == (if xs.GNoItem? then "" else Comma(comma) + PrintItems(MeaningItems(xs)))
    ensures PendingAll(ItemsCalls(xs), comma) == (comma || !xs.GNoItem?)
    decreases xs, 0
  {
    match xs
    case GNoItem =>
    case GItem(g, rest) =>
      AllConcat(ItemCalls(g), ItemsCalls(rest), comma);
      hide AppendsAll, PendingAll, ItemCalls, Meaning, Print, PrintItems;
      ItemPrints(g, comma);
      ItemsPrint(rest, true);
      CommaThenItem(Comma(comma), MeaningItems(xs));
  }
}
