/**
 `handle_self_claim_init_response`: from the service's first answer to the second request, which
 carries the claim's id, the answer to the challenge in hexadecimal and the escaped signing request.
 */
module ClaimRequest {
  import opened CStrings
  import opened Claim
  import opened ClaimResponse
  import opened Generator
  import opened GeneratorTree
  import opened Jsmn
  import opened JsonTree
  import opened Navigation
  import opened Options
  import opened Resume
  import EndToEnd
  import Exactness
  import JsmnParser
  import RoundTrip
  import Zipper

  const AUTH_SIZE := 64
  const CHALLENGE_SIZE := 130
  const RESPONSE_SIZE := 64

  type Byte = n: int | 0 <= n < 256

  function HexChar(n: int): (c: char)
    requires 0 <= n < 16
    ensures Hex(c)
  {
    if n < 10 then ('0' as int + n) as char else ('A' as int + n - 10) as char
  }

  /** `%02X`, byte by byte. */
  function HexPieces(bs: seq<Byte>): (r: seq<CStr>)
    ensures |r| == |bs|
  {
    if bs == [] then [] else [Chars([HexChar(bs[0] / 16), HexChar(bs[0] % 16)])] + HexPieces(bs[1..])
  }

  /** The request as it is issued to the generator. */
  function Request(auth: string, response: seq<Byte>, csr: string): Script {
    GObj(GMember(Chars("auth_id"), GSet(SString(Chars(auth))),
         GMember(Chars("challenge_response"), GLong(NullStr, HexPieces(response)),
         GMember(Chars("csr"), GSet(SString(Chars(csr))), GNoMember))))
  }

  const DIGITS := "0123456789ABCDEF"

  /** Every byte as two digits, the high one first, in upper case. */
  predicate HexOf(w: string, bs: seq<Byte>) {
    && |w| == 2 * |bs|
    && forall i :: 0 <= i < |bs| ==> ByteAt(w, 2 * i, bs[i])
  }

  predicate ByteAt(w: string, k: nat, b: Byte)
    requires k + 1 < |w|
  {
    w[k] == DIGITS[b / 16] && w[k + 1] == DIGITS[b % 16]
  }

  lemma HexCharIsDigit(n: int)
    requires 0 <= n < 16
    ensures HexChar(n) == DIGITS[n]
  {
  }

  lemma {:induction false} HexText(bs: seq<Byte>)
    ensures var w := Pieces(HexPieces(bs)); HexOf(w, bs) && LegalBody(w) && '\0' !in w
    decreases |bs|
  {
    if bs == [] {
    } else {
      HexText(bs[1..]);
      HexCharIsDigit(bs[0] / 16);
      HexCharIsDigit(bs[0] % 16);
      var a, b, rest := HexChar(bs[0] / 16), HexChar(bs[0] % 16), Pieces(HexPieces(bs[1..]));
      assert Pieces(HexPieces(bs)) == [a, b] + rest by { assert HexPieces(bs)[1..] == HexPieces(bs[1..]); }
      hide HexOf, HexChar, LegalBody, Pieces, HexPieces;
      HexCons(a, b, rest, bs);
      HexIsLegal(a, b, rest);
    }
  }

  lemma HexIsLegal(a: char, b: char, rest: string)
    requires Hex(a) && Hex(b) && LegalBody(rest) && '\0' !in rest
    ensures LegalBody([a, b] + rest) && '\0' !in [a, b] + rest
  {
    var w := [a, b] + rest;
    assert w[0] == a && w[1..] == [b] + rest && w[1..][0] == b && w[1..][1..] == rest;
  }

  lemma HexCons(a: char, b: char, rest: string, bs: seq<Byte>)
    requires bs != [] && HexOf(rest, bs[1..]) && a == DIGITS[bs[0] / 16] && b == DIGITS[bs[0] % 16]
    ensures HexOf([a, b] + rest, bs)
  {
    var w := [a, b] + rest;
    forall i | 0 <= i < |bs| ensures ByteAt(w, 2 * i, bs[i]) {
      if i > 0 {
        assert ByteAt(rest, 2 * (i - 1), bs[1..][i - 1]);
        assert w[2 * i] == rest[2 * (i - 1)] && w[2 * i + 1] == rest[2 * (i - 1) + 1];
      }
    }
  }

  /** The tree of the request. */
  function RequestMembers(auth: string, hex: string, csr: string): Members {
    Member("", "auth_id", "", "", Str(auth), "",
      Member("", "challenge_response", "", "", Str(hex), "",
        Member("", "csr", "", "", Str(csr), "", NoMember)))
  }

  lemma RequestMeans(auth: string, response: seq<Byte>, csr: string)
    ensures Meaning(Request(auth, response, csr)) == Obj("", RequestMembers(auth, Pieces(HexPieces(response)), csr))
  {
    var hex := Pieces(HexPieces(response));
    assert "" + hex == hex;
    var m3 := GMember(Chars("csr"), GSet(SString(Chars(csr))), GNoMember);
    var m2 := GMember(Chars("challenge_response"), GLong(NullStr, HexPieces(response)), m3);
    hide Pieces, HexPieces;
    assert MeaningMembers(m3) == Member("", "csr", "", "", Str(csr), "", NoMember);
    assert MeaningMembers(m2) == Member("", "challenge_response", "", "", Str(hex), "", MeaningMembers(m3));
    var m1 := GMember(Chars("auth_id"), GSet(SString(Chars(auth))), m2);
    assert MeaningMembers(m1) == Member("", "auth_id", "", "", Str(auth), "", MeaningMembers(m2));
    assert Request(auth, response, csr) == GObj(m1);
  }

  lemma StringMemberLength(name: string, body: string, rest: Members)
    ensures |PrintMembers(Member("", name, "", "", Str(body), "", rest))|
         == |name| + |body| + 5 + if rest.NoMember? then 0 else 1 + |PrintMembers(rest)|
  {
  }

  lemma RequestLength(auth: string, hex: string, csr: string)
    ensures |Print(Obj("", RequestMembers(auth, hex, csr)))| == |auth| + |hex| + |csr| + 47
  {
    hide PrintMembers;
    var last := Member("", "csr", "", "", Str(csr), "", NoMember);
    var more := Member("", "challenge_response", "", "", Str(hex), "", last);
    StringMemberLength("csr", csr, NoMember);
    StringMemberLength("challenge_response", hex, last);
    StringMemberLength("auth_id", auth, more);
  }

  function Quoted(name: string, body: string): string {
    "\"" + name + "\":\"" + body + "\""
  }

  /** The text of the request. */
  function RequestText(auth: string, hex: string, csr: string): string {
    "{" + Quoted("auth_id", auth) + "," + Quoted("challenge_response", hex) + "," + Quoted("csr", csr) + "}"
  }

  lemma StringMemberText(name: string, body: string, rest: Members)
    ensures PrintMembers(Member("", name, "", "", Str(body), "", rest)) == Quoted(name, body) + MoreMembers(rest)
  {
  }

  lemma RequestIsText(auth: string, hex: string, csr: string)
    ensures Print(Obj("", RequestMembers(auth, hex, csr))) == RequestText(auth, hex, csr)
  {
    hide PrintMembers, Quoted;
    var last := Member("", "csr", "", "", Str(csr), "", NoMember);
    var more := Member("", "challenge_response", "", "", Str(hex), "", last);
    StringMemberText("csr", csr, NoMember);
    StringMemberText("challenge_response", hex, last);
    StringMemberText("auth_id", auth, more);
  }

  lemma MemberClean(n: CStr, g: Script, rest: GMembers)
    requires CleanAll(MemberCalls(n, g)) && CleanAll(MembersCalls(rest))
    ensures CleanAll(MembersCalls(GMember(n, g, rest)))
  {
    hide MemberCalls;
  }

  lemma StringMemberClean(name: CStr, s: string, rest: GMembers)
    requires IsCStr(name) && NoNul(s) && CleanAll(MembersCalls(rest))
    ensures CleanAll(MembersCalls(GMember(name, GSet(SString(Chars(s))), rest)))
  {
    assert MemberCalls(name, GSet(SString(Chars(s)))) == [ObjSet(name, SString(Chars(s)))];
    hide MembersCalls;
    MemberClean(name, GSet(SString(Chars(s))), rest);
  }

  lemma HexMemberClean(name: CStr, bs: seq<Byte>, rest: GMembers)
    requires IsCStr(name) && CleanAll(MembersCalls(rest))
    ensures CleanAll(MembersCalls(GMember(name, GLong(NullStr, HexPieces(bs)), rest)))
  {
    HexText(bs);
    EndToEnd.PiecesClean(HexPieces(bs));
    hide MembersCalls, HexPieces, AddCalls;
    assert MemberCalls(name, GLong(NullStr, HexPieces(bs)))
        == [ObjStartLong(name, NullStr)] + AddCalls(HexPieces(bs)) + [EndLong];
    MemberClean(name, GLong(NullStr, HexPieces(bs)), rest);
  }

  /** Only C strings are handed to the generator, whatever they hold. */
  lemma RequestClean(auth: string, response: seq<Byte>, csr: string)
    requires NoNul(auth) && NoNul(csr)
    ensures CleanAll(ItemCalls(Request(auth, response, csr)))
  {
    assert CleanAll(MembersCalls(GNoMember));
    hide MembersCalls, HexPieces;
    var m3 := GMember(Chars("csr"), GSet(SString(Chars(csr))), GNoMember);
    var m2 := GMember(Chars("challenge_response"), GLong(NullStr, HexPieces(response)), m3);
    StringMemberClean(Chars("csr"), csr, GNoMember);
    HexMemberClean(Chars("challenge_response"), response, m3);
    StringMemberClean(Chars("auth_id"), auth, m2);
  }

  /** A string of an accepted text is one the tokenizer reads to its end. */
  lemma StringsAreLegal(js: string, name: string)
    requires StringAt(js, name).Here?
    ensures LegalBody(StringText(js, name).value)
  {
    var toks, t := ParseStart(js).value, StringAt(js, name).t;
    ParseStartAccepted(js);
    Exactness.ParsedLexed(js);
    hide ParseStart, Accepted, SoughtKey, ScanString;
    assert Exactness.Lexed(js, toks[t]);
    Exactness.LexedString(js, toks[t], Text(js, toks[t]));
  }

  method WriteRequest(payload: array<char>, authId: array<char>, ghost auth: string, csr: array<char>,
                      ghost e: string, response: seq<Byte>)
    requires payload.Length == MAX_PAYLOAD_SIZE && payload != csr && payload != authId
    requires Holds(authId, auth) && |auth| < AUTH_SIZE && Holds(csr, e) && |e| < MAX_CSR_SIZE
    requires |response| == RESPONSE_SIZE
    modifies payload
    ensures Holds(payload, Print(Meaning(Request(auth, response, e))))
    ensures exists hex :: HexOf(hex, response) && Holds(payload, RequestText(auth, hex, e))
  {
    HoldsIsRead(authId, auth);
    HoldsIsRead(csr, e);
    RequestClean(auth, response, e);
    RequestMeans(auth, response, e);
    HexText(response);
    RequestLength(auth, Pieces(HexPieces(response)), e);
    RequestIsText(auth, Pieces(HexPieces(response)), e);
    hide Print, Meaning, Request, ItemCalls, AppendsAll, RequestMembers, RequestText, Pieces, HexPieces, HexOf,
      CleanAll, CString;
    var gen := new JsonGen(payload, MAX_PAYLOAD_SIZE, false);
    var _ := IssueAll(gen, ItemCalls(Request(CString(authId[..]), response, CString(csr[..]))));
    ghost var w := Print(Meaning(Request(auth, response, e)));
    assert gen.all == w by { RequestPrints(auth, response, e); }
    var _ := gen.End();
    assert w[..|w|] == w;
    ReadIsHeld(payload, w);
  }

  lemma RequestPrints(auth: string, response: seq<Byte>, e: string)
    ensures "" + AppendsAll(ItemCalls(Request(auth, response, e)), false) == Print(Meaning(Request(auth, response, e)))
  {
    hide Request, Print, AppendsAll, ItemCalls;
    ItemPrints(Request(auth, response, e), false);
  }

  /** The text of a string in the answer, when it and its terminator fit in `size` cells. */
  ghost function Taken(js: string, name: string, size: nat): Option<string> {
    var w := StringText(js, name);
    if w.Some? && |w.value| + 1 <= size then w else None
  }

  /** A string under a name, in a buffer of `size` cells of its own. */
  method TakeString(jctx: JParseCtx, name: string, size: nat) returns (found: Sought, ok: bool, val: array<char>)
    requires jctx.Valid() && jctx.cur == 0 && NoNul(jctx.js) && ParseStart(jctx.js) == Some(jctx.tokens[..])
    ensures fresh(val) && found == StringAt(jctx.js, name) && ok == Taken(jctx.js, name, size).Some?
    ensures ok ==> Holds(val, Taken(jctx.js, name, size).value)
  {
    hide ParseStart, Accepted, SoughtKey;
    val := new char[size](_ => '\0');
    found, ok := jctx.ObjGetText(name, String, val, size);
    if ok {
      ghost var w := Text(jctx.js, jctx.tokens[found.t]);
      assert val[..|w|] == val[..][..|w|] && val[|w|] == val[..][|w|];
    }
  }

  /**
   `handle_self_claim_init_response`. Both strings are looked up whatever the first look-up gives;
   `response` is what the HMAC of the challenge comes to, if it could be computed. The request is never
   cut short: it fits the payload buffer whenever it is written.
   */
  method HandleClaimInitResponse(payload: array<char>, ghost js: string, csr: array<char>, ghost e: string,
                                 tokenMemory: bool, response: Option<seq<Byte>>) returns (status: Status)
    requires payload.Length == MAX_PAYLOAD_SIZE && csr.Length == MAX_CSR_SIZE && payload != csr
    requires Holds(payload, js) && Holds(csr, e)
    requires response.Some? ==> |response.value| == RESPONSE_SIZE
    modifies payload
    ensures var a, c := Taken(js, "auth_id", AUTH_SIZE), Taken(js, "challenge", CHALLENGE_SIZE);
            status == if !tokenMemory then EspFail
                      else if StringAt(js, "auth_id").Outside? || StringAt(js, "challenge").Outside? then Stray
                      else if a.None? || c.None? || response.None? then EspFail else EspOk
    ensures status == EspOk ==>
      var auth := StringText(js, "auth_id").value;
      && Holds(payload, Print(Meaning(Request(auth, response.value, e))))
      && exists hex :: HexOf(hex, response.value) && Holds(payload, RequestText(auth, hex, e))
    ensures status != EspOk ==> Holds(payload, js)
  {
    hide ParseStart, Accepted, SoughtKey, Print, Meaning, Request, ItemCalls, AppendsAll, CString;
    HoldsIsRead(payload, js);
    var text := CString(payload[..]);
    var parsed, tokens := JsmnParser.JsonParseStart(text, tokenMemory);
    if !parsed { return EspFail; }
    ParseStartAccepted(text);
    var jctx := new JParseCtx(text, tokens);
    var found1, ok1, authId := TakeString(jctx, "auth_id", AUTH_SIZE);
    var found2, ok2, challenge := TakeString(jctx, "challenge", CHALLENGE_SIZE);
    if found1.Outside? || found2.Outside? { return Stray; }
    if !ok1 || !ok2 { return EspFail; }
    if response.None? { return EspFail; }
    WriteRequest(payload, authId, StringText(js, "auth_id").value, csr, e, response.value);
    return EspOk;
  }

  // ---------------------------------------------------------- what it carries

  lemma {:induction false} EscapedIsLegal(u: string)
    requires '"' !in u && '\\' !in u && '\0' !in u
    ensures LegalBody(Escape(u))
    decreases |u|
  {
    if u == "" {
    } else {
      EscapedIsLegal(u[1..]);
      var e := Escape(u);
      if u[0] == '\n' {
        assert e[0] == '\\' && e[1] == 'n' && e[2..] == Escape(u[1..]);
      } else {
        assert e[0] == u[0] && e[1..] == Escape(u[1..]);
      }
    }
  }

  lemma {:induction false} PlainIsLegal(w: string)
    requires forall i :: 0 <= i < |w| ==> w[i] != '\0' && w[i] != '"' && w[i] != '\\'
    ensures LegalBody(w)
    decreases |w|
  {
    if w == "" {
    } else {
      PlainIsLegal(w[1..]);
    }
  }

  lemma NamesAreLegal()
    ensures LegalBody("auth_id") && LegalBody("challenge_response") && LegalBody("csr")
  {
    hide LegalBody;
    PlainIsLegal("auth_id");
    PlainIsLegal("challenge_response");
    PlainIsLegal("csr");
  }

  lemma StringMemberLegal(name: string, body: string, rest: Members)
    requires LegalBody(name)
    ensures var ms := Member("", name, "", "", Str(body), "", rest);
            && (LegalMembers(ms) <==> LegalBody(body) && LegalMembers(rest))
            && (Exactness.SpacedMembers(ms) <==> Exactness.SpacedMembers(rest))
  {
    hide LegalBody;
  }

  lemma RequestTree(auth: string, hex: string, e: string)
    requires LegalBody(auth) && LegalBody(hex)
    ensures var v := Obj("", RequestMembers(auth, hex, e));
            Exactness.Spaced(v) && (Legal(v) <==> LegalBody(e))
  {
    var m3 := Member("", "csr", "", "", Str(e), "", NoMember);
    var m2 := Member("", "challenge_response", "", "", Str(hex), "", m3);
    assert LegalMembers(NoMember) && Exactness.SpacedMembers(NoMember);
    hide LegalBody, LegalMembers, Exactness.SpacedMembers;
    NamesAreLegal();
    StringMemberLegal("csr", e, NoMember);
    StringMemberLegal("challenge_response", hex, m3);
    StringMemberLegal("auth_id", auth, m2);
  }

  /** Whatever signing request it carries, the request parses to its tree exactly when that is a legal body. */
  lemma RequestParsesExactly(js: string, response: seq<Byte>, e: string)
    requires StringAt(js, "auth_id").Here?
    ensures var v := Meaning(Request(StringText(js, "auth_id").value, response, e));
            ParseStart(Print(v)) == Some(Encode(v, 0, 0, -1)) <==> LegalBody(e)
  {
    var auth, hex := StringText(js, "auth_id").value, Pieces(HexPieces(response));
    var v := Obj("", RequestMembers(auth, hex, e));
    assert "" + Print(v) + "" == Print(v);
    hide ParseStart, Print, Encode, Legal, LegalBody, RequestMembers, Exactness.Spaced, Pieces, HexPieces, Meaning,
      Request, StringAt, StringText;
    StringsAreLegal(js, "auth_id");
    HexText(response);
    RequestMeans(auth, response, e);
    RequestTree(auth, hex, e);
    Exactness.RoundTripExactly("", v, "");
  }

  /** Looking up a string by its name in a printed text. */
  lemma StringOfPrinted(v: Value, name: string)
    requires Container(v) && Legal(v)
    ensures var d := Zipper.MemberValue(Zipper.Focus(v, 0, 0), name);
            d.Some? && d.value.value.Str? ==> StringText(Print(v), name) == Some(d.value.value.body)
  {
    hide ParseStart, Accepted, SoughtKey, Encode, Print, Zipper.Sits, Zipper.MemberValue, KeysHaveValues;
    var js, toks, f := Print(v), Encode(v, 0, 0, -1), Zipper.Focus(v, 0, 0);
    assert "" + Print(v) + "" == Print(v);
    RoundTrip.ParseStartPrinted("", v, "");
    ParseStartAccepted(js);
    Zipper.RootSits("", v, "");
    assert toks[0].parent == -1 by { Zipper.RootParent(v, 0); }
    Zipper.LookUpFinds(js, toks, f, name, String);
    var d := Zipper.MemberValue(f, name);
    if d.Some? && d.value.value.Str? { Zipper.TextOfValue(js, toks, d.value); }
  }

  lemma RequestLookUps(auth: string, hex: string, e: string)
    ensures var f := Zipper.Focus(Obj("", RequestMembers(auth, hex, e)), 0, 0);
            var a, c, r := Zipper.MemberValue(f, "auth_id"), Zipper.MemberValue(f, "challenge_response"),
                           Zipper.MemberValue(f, "csr");
            && a.Some? && a.value.value == Str(auth)
            && c.Some? && c.value.value == Str(hex)
            && r.Some? && r.value.value == Str(e)
  {
    var m3 := Member("", "csr", "", "", Str(e), "", NoMember);
    var m2 := Member("", "challenge_response", "", "", Str(hex), "", m3);
    var m1 := RequestMembers(auth, hex, e);
    assert "challenge_response"[0] == 'c' && "auth_id"[0] == 'a' && |"csr"| == 3 && |"challenge_response"| == 18;
    var s1 := Zipper.Spot(m1, 1, 1);
    var s2 := Zipper.Spot(m2, NextMemberAt(m1, 1), 1 + 1 + Size(Str(auth)));
    var s3 := Zipper.Spot(m3, NextMemberAt(m2, s2.at), s2.idx + 1 + Size(Str(hex)));
    assert Zipper.FindMember(s1, "auth_id") == s1;
    assert Zipper.FindMember(s1, "challenge_response") == Zipper.FindMember(s2, "challenge_response") == s2;
    assert Zipper.FindMember(s1, "csr") == Zipper.FindMember(s2, "csr") == Zipper.FindMember(s3, "csr") == s3;
  }

  /**
   The verify request, read back: for every PEM text without quotes, backslashes and NULs it is accepted
   and carries the id of the answer, the response in hexadecimal and the escaped text; decoding that
   text gives the PEM, less one newline at its end, exactly when it has single breaks only.
   */
  lemma RequestCarriesCsr(js: string, response: seq<Byte>, pem: string)
    requires StringAt(js, "auth_id").Here? && '"' !in pem && '\\' !in pem && '\0' !in pem
    ensures var auth, e := StringText(js, "auth_id").value, Escape(Strip(pem));
            var w := Print(Meaning(Request(auth, response, e)));
            && ParseStart(w).Some?
            && StringText(w, "auth_id") == Some(auth)
            && (var hex := StringText(w, "challenge_response"); hex.Some? && HexOf(hex.value, response))
            && StringText(w, "csr") == Some(e)
            && (Unescape(e) == Strip(pem) <==> SingleBreaks(Strip(pem)))
  {
    var u := Strip(pem);
    var auth, hex, e := StringText(js, "auth_id").value, Pieces(HexPieces(response)), Escape(u);
    var v := Obj("", RequestMembers(auth, hex, e));
    hide ParseStart, Print, Encode, Legal, LegalBody, RequestMembers, Exactness.Spaced, Pieces, HexPieces, HexOf,
      Meaning, Request, StringAt, StringText, Escape, Unescape, SingleBreaks, Zipper.MemberValue;
    EscapedIsLegal(u);
    RoundTripExactly(u);
    RequestParsesExactly(js, response, e);
    StringsAreLegal(js, "auth_id");
    HexText(response);
    RequestMeans(auth, response, e);
    RequestTree(auth, hex, e);
    RequestLookUps(auth, hex, e);
    StringOfPrinted(v, "auth_id");
    StringOfPrinted(v, "challenge_response");
    StringOfPrinted(v, "csr");
  }
}
