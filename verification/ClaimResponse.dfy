/** `handle_claim_verify_response`: the certificate out of the claim service's JSON answer. */
module ClaimResponse {
  import opened CStrings
  import opened Claim
  import opened Jsmn
  import opened JsonTree
  import opened Navigation
  import opened Options
  import opened Resume
  import JsmnParser
  import Zipper
  import RoundTrip

  /** `Stray`: a look-up left the token array. */
  datatype Status = EspOk | EspFail | NoMem | Stray

  /** What looking up the string `name` in the root of an answer comes to. */
  ghost function StringAt(js: string, name: string): (r: Sought)
    ensures r.Here? ==> ParseStart(js).Some? && r.t < |ParseStart(js).value| && SpansInside(js, ParseStart(js).value)
  {
    var p := ParseStart(js);
    if p.None? then Missing
    else
      ParseStartAccepted(js);
      SoughtKey(js, p.value, 0, name, String)
  }

  /** The string under a name in an answer, as it stands in the text. */
  ghost function StringText(js: string, name: string): Option<string> {
    var r := StringAt(js, name);
    if r.Here? then Some(Text(js, ParseStart(js).value[r.t])) else None
  }

  /**
   The answer is parsed, a zeroed buffer two cells longer than the string is filled with it, and
   decoded in place; the second zero cell is what lets decoding overrun the terminator.
   */
  method HandleClaimVerifyResponse(js: string, tokenMemory: bool, memory: bool)
      returns (status: Status, cert: array<char>)
    requires NoNul(js)
    ensures var r := StringAt(js, "certificate");
            status == if !tokenMemory || r.Missing? then EspFail
                      else if r.Outside? then Stray
                      else if memory then EspOk else NoMem
    ensures status == EspOk ==>
      fresh(cert) && StringAt(js, "certificate").Here? &&
      var w := StringText(js, "certificate").value;
      Holds(cert, Unescape(w)) && Unescape(w) == Kept(w, |w|)
  {
    hide ParseStart, Accepted, Unescape, Kept, Overruns, SoughtKey;
    cert := new char[0];
    var parsed, tokens := JsmnParser.JsonParseStart(js, tokenMemory);
    if !parsed { return EspFail, cert; }
    ParseStartAccepted(js);
    var jctx := new JParseCtx(js, tokens);
    var r := jctx.ObjGetValTok("certificate", String);
    if r.Outside? { return Stray, cert; }
    if r.Missing? { return EspFail, cert; }
    var len: nat := tokens[r.t].end - tokens[r.t].start;
    if !memory { return NoMem, cert; }
    cert := new char[len + 1 + 1](_ => '\0');
    ghost var body := Text(js, tokens[r.t]);
    var _, _ := jctx.ObjGetText("certificate", String, cert, len + 1);
    assert cert[..] == body + "\0" + "\0";
    assert cert[..|body|] == cert[..][..|body|];
    assert cert[|body|] == cert[..][|body|] && cert[|body| + 1] == cert[..][|body| + 1];
    UnescapeNewLine(cert, body);
    DecodingMeans(body);
    return EspOk, cert;
  }

  /**
   On any printed answer: the certificate comes from the first member of that name, when it is a
   string. If the service encoded a text as `Escape` does, that very text is delivered exactly when it
   has single breaks only. Whatever it sent is decoded character by character, and a text written in any
   of the ways of `DecodesWritten` is delivered as it was.
   */
  lemma AnswerCarriesCertificate(w1: string, v: Value, w2: string)
    requires Container(v) && Legal(v) && Blanks(w1) && Blanks(w2)
    ensures var js := w1 + Print(v) + w2;
            var d := Zipper.MemberValue(Zipper.Focus(v, |w1|, 0), "certificate");
            && !StringAt(js, "certificate").Outside?
            && (if d.Some? && d.value.value.Str?
                then StringText(js, "certificate") == Some(d.value.value.body)
                else StringText(js, "certificate") == None)
            && forall pem :: StringText(js, "certificate") == Some(Escape(pem)) ==>
                 (Unescape(StringText(js, "certificate").value) == pem <==> SingleBreaks(pem))
    ensures var w := StringText(w1 + Print(v) + w2, "certificate");
            && (w.Some? ==> Unescape(w.value) == Kept(w.value, |w.value|))
            && forall pem, ways :: |ways| == |pem| && WaysOk(pem, ways) && w == Some(Written(pem, ways)) ==>
                 Unescape(w.value) == pem
  {
    hide ParseStart, Accepted, Unescape, Kept, Escape, Written, WaysOk, SingleBreaks, SoughtKey, KeysHaveValues,
      Zipper.MemberValue, Zipper.Sits, Encode, Print;
    var js := w1 + Print(v) + w2;
    var toks := Encode(v, |w1|, 0, -1);
    var f := Zipper.Focus(v, |w1|, 0);
    var d := Zipper.MemberValue(f, "certificate");
    RoundTrip.ParseStartPrinted(w1, v, w2);
    ParseStartAccepted(js);
    Zipper.RootSits(w1, v, w2);
    assert toks[0].parent == -1 by { Zipper.RootParent(v, |w1|); }
    Zipper.PrintedKeysHaveValues(js, toks, f);
    KeysHaveValuesSuffice(js, toks, 0, "certificate", String);
    Zipper.LookUpFinds(js, toks, f, "certificate", String);
    if d.Some? && d.value.value.Str? { Zipper.TextOfValue(js, toks, d.value); }
    forall pem | StringText(js, "certificate") == Some(Escape(pem))
      ensures Unescape(StringText(js, "certificate").value) == pem <==> SingleBreaks(pem)
    {
      RoundTripExactly(pem);
    }
    var w := StringText(js, "certificate");
    if w.Some? { DecodingMeans(w.value); }
    forall pem, ways | |ways| == |pem| && WaysOk(pem, ways) && w == Some(Written(pem, ways))
      ensures Unescape(w.value) == pem
    {
      DecodesWritten(pem, ways);
    }
  }
}
