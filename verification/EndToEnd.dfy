/** What the generator writes, the tokenizer reads back as the same tree. */
module EndToEnd {
  import opened CStrings
  import opened Jsmn
  import opened JsonTree
  import opened Options
  import opened Generator
  import opened GeneratorTree
  import Decimal
  import Exactness
  import JsmnParser
  import Resume
  import RoundTrip
  import Navigation
  import Zipper

  // ------------------------------------------------ legal trees are C strings

  lemma {:induction false} LegalBodyNoNul(b: string)
    requires LegalBody(b)
    ensures '\0' !in b
    decreases |b|
  {
    if b == "" {
    } else {
      var n := if b[0] != '\\' then 1 else if ShortEscape(b[1]) then 2 else 6;
      LegalBodyNoNul(b[n..]);
      assert '\0' !in b[..n];
      assert b == b[..n] + b[n..];
    }
  }

  lemma {:induction false} PrintNoNul(v: Value)
    requires Legal(v)
    ensures '\0' !in Print(v)
    decreases v, 0
  {
    match v
    case Obj(_, ms) => PrintMembersNoNul(ms);
    case Arr(_, xs) => PrintItemsNoNul(xs);
    case Str(body) => LegalBodyNoNul(body);
    case _ => LegalPrimitives(v);
  }

  lemma {:induction false} PrintMembersNoNul(ms: Members)
    requires LegalMembers(ms)
    ensures '\0' !in PrintMembers(ms)
    decreases ms, 0
  {
    match ms
    case NoMember =>
    case Member(g0, name, g1, g2, v, g3, rest) =>
      LegalBodyNoNul(name);
      PrintNoNul(v);
      PrintMembersNoNul(rest);
      assert '\0' !in MoreMembers(rest);
      assert '\0' !in g0 && '\0' !in g1 && '\0' !in g2 && '\0' !in g3;
  }

  lemma {:induction false} PrintItemsNoNul(xs: Items)
    requires LegalItems(xs)
    ensures '\0' !in PrintItems(xs)
    decreases xs, 0
  {
    match xs
    case NoItem =>
    case Item(g0, v, g1, rest) =>
      PrintNoNul(v);
      PrintItemsNoNul(rest);
      assert '\0' !in MoreItems(rest);
  }

  /** Issuing a legal tree hands only proper C strings to the generator. */
  lemma {:induction false} ItemCallsClean(g: Script)
    requires Legal(Meaning(g))
    ensures CleanAll(ItemCalls(g))
    decreases g, 0
  {
    match g
    case GObj(ms) => MembersCallsClean(ms);
    case GArr(xs) => ItemsCallsClean(xs);
    case GSet(v) => ScalarClean(v);
    case GLong(first, more) => LongClean(first, more);
  }

  lemma ScalarClean(v: Scalar)
    requires Legal(Meaning(GSet(v)))
    ensures CleanScalar(v)
  {
    if v.SString? { LegalBodyNoNul(Txt(v.val)); }
  }

  lemma {:induction false} PiecesClean(more: seq<CStr>)
    requires '\0' !in Pieces(more)
    ensures CleanAll(AddCalls(more))
  {
    if more == [] {
    } else {
      assert Pieces(more) == Txt(more[0]) + Pieces(more[1..]);
      PiecesClean(more[1..]);
    }
  }

  lemma LongClean(first: CStr, more: seq<CStr>)
    requires LegalBody(Txt(first) + Pieces(more))
    ensures IsCStr(first) && CleanAll(AddCalls(more))
  {
    hide LegalBody, Pieces, AddCalls;
    LegalBodyNoNul(Txt(first) + Pieces(more));
    PiecesClean(more);
  }

  lemma {:induction false} MemberCallsClean(n: CStr, g: Script)
    requires LegalBody(Txt(n)) && Legal(Meaning(g))
    ensures CleanAll(MemberCalls(n, g))
    decreases g, 0
  {
    hide LegalBody, MembersCalls, ItemsCalls, AddCalls, Pieces;
    LegalBodyNoNul(Txt(n));
    match g
    case GObj(ms) => MembersCallsClean(ms);
    case GArr(xs) => ItemsCallsClean(xs);
    case GSet(v) => ScalarClean(v);
    case GLong(first, more) => LongClean(first, more);
  }

  lemma {:induction false} MembersCallsClean(ms: GMembers)
    requires LegalMembers(MeaningMembers(ms))
    ensures CleanAll(MembersCalls(ms))
    decreases ms, 0
  {
    match ms
    case GNoMember =>
    case GMember(n, g, rest) =>
      MemberCallsClean(n, g);
      MembersCallsClean(rest);
    case GRaw(n, v, rest) =>
      LegalBodyNoNul(Txt(n));
      PrintNoNul(v);
      MembersCallsClean(rest);
  }

  lemma {:induction false} ItemsCallsClean(xs: GItems)
    requires LegalItems(MeaningItems(xs))
    ensures CleanAll(ItemsCalls(xs))
    decreases xs, 0
  {
    match xs
    case GNoItem =>
    case GItem(g, rest) =>
      ItemCallsClean(g);
      ItemsCallsClean(rest);
  }

  // --------------------------------------------------------------- round trip

  /** The text a tree's calls append is accepted, with exactly the preorder encoding of the tree. */
  lemma GeneratedTextParses(g: Script)
    requires (g.GObj? || g.GArr?) && Legal(Meaning(g))
    ensures CleanAll(ItemCalls(g)) && AppendsAll(ItemCalls(g), false) == Print(Meaning(g))
    ensures Resume.ParseStart(AppendsAll(ItemCalls(g), false)) == Some(Encode(Meaning(g), 0, 0, -1))
  {
    hide Print, Legal, Encode, AppendsAll, Resume.ParseStart;
    ItemCallsClean(g);
    ItemPrints(g, false);
    var w := Print(Meaning(g));
    assert Comma(false) + w == w == "" + w + "";
    RoundTrip.ParseStartPrinted("", Meaning(g), "");
  }

  /**
   The same without assuming legal bodies: whatever strings are handed in, the text parses to the
   encoding of the tree exactly when they are legal. The generator does not escape them.
   */
  lemma GeneratedTextExactly(g: Script)
    requires (g.GObj? || g.GArr?) && Exactness.Spaced(Meaning(g))
    ensures Resume.ParseStart(AppendsAll(ItemCalls(g), false)) == Some(Encode(Meaning(g), 0, 0, -1))
       <==> Legal(Meaning(g))
  {
    hide Print, Legal, Encode, AppendsAll, Resume.ParseStart, Exactness.Spaced;
    ItemPrints(g, false);
    var w := Print(Meaning(g));
    assert Comma(false) + w == w == "" + w + "";
    Exactness.RoundTripExactly("", Meaning(g), "");
  }

  /**
   Generator to parser, on the objects themselves: through a buffer of any size from two, the chunks
   handed to the callback join to the printed tree, all but the last fill the buffer, the reported
   length counts the terminator, and parsing the joined chunks yields the encoding of the tree.
   */
  method GenerateThenParse(g: Script, buf: array<char>, size: nat)
      returns (chunks: seq<string>, total: nat, ok: bool, tokens: array<Token>)
    requires (g.GObj? || g.GArr?) && Legal(Meaning(g)) && 2 <= size <= buf.Length
    modifies buf
    ensures Concat(chunks) == Print(Meaning(g)) && total == |Print(Meaning(g))| + 1
    ensures chunks != [] && forall i :: 0 <= i < |chunks| - 1 ==> |chunks[i]| == size - 1
    ensures ok && tokens[..] == Encode(Meaning(g), 0, 0, -1)
  {
    hide Print, Legal, Encode, AppendsAll, PendingAll, Codes, ItemCalls, Resume.ParseStart, CleanAll, Meaning, CString,
      NoNul;
    GeneratedTextParses(g);
    var gen := new JsonGen(buf, size, true);
    var _ := IssueAll(gen, ItemCalls(g));
    total := gen.End();
    chunks := gen.flushed;
    ok, tokens := JsmnParser.JsonParseStart(Concat(chunks), true);
  }

  /** An object generated through any buffer and parsed again, with the cursor on its root. */
  method GenerateObject(g: Script, buf: array<char>, size: nat) returns (jctx: Navigation.JParseCtx)
    requires g.GObj? && Legal(Meaning(g)) && 2 <= size <= buf.Length
    modifies buf
    ensures fresh(jctx) && jctx.Valid() && jctx.cur == 0
    ensures Zipper.InPlace(jctx.js, jctx.tokens[..], Zipper.Focus(Meaning(g), 0, 0))
  {
    hide Print, Legal, Encode, AppendsAll, Resume.ParseStart, Resume.Accepted, Meaning, Zipper.Sits;
    ghost var v := Meaning(g);
    assert Container(v) by { ObjMeansObj(g); }
    var chunks, _, _, tokens := GenerateThenParse(g, buf, size);
    var js := Concat(chunks);
    assert "" + Print(v) + "" == Print(v);
    RoundTrip.ParseStartPrinted("", v, "");
    Resume.ParseStartAccepted(js);
    Zipper.RootSits("", v, "");
    assert Encode(v, 0, 0, -1)[0].parent == -1 by { Zipper.RootParent(v, 0); }
    jctx := new Navigation.JParseCtx(js, tokens);
  }

  /**
   A value's whole journey: given to the generator under a name, somewhere in an object, and asked for by
   that name after parsing, it comes back; the first member of the name counts. First an integer.
   */
  method GenerateThenReadInt(g: Script, buf: array<char>, size: nat, name: string) returns (ok: bool, val: int)
    requires g.GObj? && Legal(Meaning(g)) && 2 <= size <= buf.Length
    requires var d := Zipper.MemberValue(Zipper.Focus(Meaning(g), 0, 0), name);
             d.Some? && d.value.value.Int?
    modifies buf
    ensures ok && val == Zipper.MemberValue(Zipper.Focus(Meaning(g), 0, 0), name).value.value.n
  {
    hide Legal, Resume.Accepted, Meaning, Zipper.Sits, Zipper.MemberValue, Navigation.IntOf, Navigation.SoughtKey;
    var jctx := GenerateObject(g, buf, size);
    Zipper.IntMemberReads(jctx.js, jctx.tokens[..], Zipper.Focus(Meaning(g), 0, 0), name);
    var found;
    found, ok, val := jctx.ObjGetInt(name);
  }

  /** A boolean. */
  method GenerateThenReadBool(g: Script, buf: array<char>, size: nat, name: string) returns (ok: bool, val: bool)
    requires g.GObj? && Legal(Meaning(g)) && 2 <= size <= buf.Length
    requires var d := Zipper.MemberValue(Zipper.Focus(Meaning(g), 0, 0), name);
             d.Some? && d.value.value.Bool?
    modifies buf
    ensures ok && val == Zipper.MemberValue(Zipper.Focus(Meaning(g), 0, 0), name).value.value.b
  {
    hide Legal, Resume.Accepted, Meaning, Zipper.Sits, Zipper.MemberValue, Navigation.Text, Navigation.SoughtKey;
    var jctx := GenerateObject(g, buf, size);
    Zipper.BoolMemberReads(jctx.js, jctx.tokens[..], Zipper.Focus(Meaning(g), 0, 0), name);
    var found;
    found, ok, val := jctx.ObjGetBool(name);
    assert "true" != "false" && "false" != "1";
  }

  /** A string, with its terminator, exactly when it fits. */
  method GenerateThenReadString(g: Script, buf: array<char>, size: nat, name: string, val: array<char>)
      returns (ok: bool)
    requires g.GObj? && Legal(Meaning(g)) && 2 <= size <= buf.Length && buf != val
    requires var d := Zipper.MemberValue(Zipper.Focus(Meaning(g), 0, 0), name);
             d.Some? && d.value.value.Str?
    modifies buf, val
    ensures var w := Zipper.MemberValue(Zipper.Focus(Meaning(g), 0, 0), name).value.value.body;
            if |w| + 1 <= val.Length
            then ok && val[..] == w + ['\0'] + old(val[..])[|w| + 1..]
            else !ok && val[..] == old(val[..])
  {
    hide Legal, Resume.Accepted, Meaning, Zipper.Sits, Zipper.MemberValue, Navigation.Text, Navigation.SoughtKey;
    var jctx := GenerateObject(g, buf, size);
    Zipper.StringMemberReads(jctx.js, jctx.tokens[..], Zipper.Focus(Meaning(g), 0, 0), name);
    var found;
    found, ok := jctx.ObjGetText(name, String, val, val.Length);
  }

  lemma ObjMeansObj(g: Script)
    requires g.GObj?
    ensures Container(Meaning(g))
  {
  }

  /**
   Look-up, copy and parse again: the text `json_obj_get_object_str` or `json_obj_get_array_str` copies
   out of a printed tree is, as a C string, accepted on its own, with the tokens of the subtree moved to
   the front.
   */
  method GetTextThenParse(jctx: Navigation.JParseCtx, name: string, kind: Kind, ghost f: Zipper.Focus)
      returns (ok: bool, tokens: array<Token>)
    requires jctx.Valid() && f.idx == jctx.cur && Zipper.InPlace(jctx.js, jctx.tokens[..], f)
    requires var d := Zipper.MemberValue(f, name);
             d.Some? && Container(d.value.value) && Zipper.KindOf(d.value.value) == kind && Legal(d.value.value)
    ensures var d := Zipper.MemberValue(f, name).value;
            ok && Zipper.Moved(jctx.tokens[..], tokens[..], d.at, d.idx)
  {
    hide Print, Legal, Encode, Resume.ParseStart, Resume.Accepted, Zipper.Sits, Zipper.MemberValue, Zipper.Moved,
      Navigation.SoughtKey;
    ghost var d := Zipper.MemberValue(f, name).value;
    Zipper.LookUpFinds(jctx.js, jctx.tokens[..], f, name, kind);
    Zipper.TextOfValue(jctx.js, jctx.tokens[..], d);
    Zipper.SubtextParses(jctx.js, jctx.tokens[..], d);
    PrintNoNul(d.value);
    var r := jctx.ObjGetValTok(name, kind);
    var len: nat := jctx.tokens[r.t].end - jctx.tokens[r.t].start;
    var val := new char[len + 1](_ => '\0');
    ghost var w := Navigation.Text(jctx.js, jctx.tokens[r.t]);
    var _, _ := jctx.ObjGetText(name, kind, val, len + 1);
    assert val[..][..len] == w;
    CStringStops(val[..], len);
    ok, tokens := JsmnParser.JsonParseStart(CString(val[..]), true);
  }
}
