/**
 json_parser.c: walking the flat token array. The functions only trust that the array is a preorder
 numbering with right child counts; that every accepted text gives one is `Resume.ParseStartAccepted`.
 */
module Navigation {
  import opened Jsmn
  import opened Forest
  import opened JsmnInvariant
  import opened Resume
  import opened Options
  import Decimal
  import JsmnParser

  /** The text a token spans. */
  function Text(js: string, t: Token): string
    requires 0 <= t.start <= t.end <= |js|
  {
    js[t.start..t.end]
  }

  /** `strncmp` over the length of `str`, and the lengths compared. */
  predicate TokenMatches(js: string, t: Token, str: string)
    requires 0 <= t.start <= t.end <= |js|
  {
    t.start + |str| <= |js| && js[t.start..t.start + |str|] == str && |str| == t.end - t.start
  }

  lemma MatchIsEquality(js: string, t: Token, str: string)
    requires 0 <= t.start <= t.end <= |js|
    ensures TokenMatches(js, t, str) <==> Text(js, t) == str
  {
  }

  ghost predicate SpansInside(js: string, toks: seq<Token>) {
    forall k :: 0 <= k < |toks| ==> 0 <= toks[k].start <= toks[k].end <= |js|
  }

  /** The first of `ks` whose text is `key`, or -1. */
  ghost function FirstMatch(js: string, toks: seq<Token>, ks: seq<nat>, key: string): (t: int)
    requires SpansInside(js, toks) && forall n :: 0 <= n < |ks| ==> ks[n] < |toks|
    ensures -1 <= t < |toks|
  {
    if ks == [] then -1
    else if Text(js, toks[ks[0]]) == key then ks[0]
    else FirstMatch(js, toks, ks[1..], key)
  }

  /** What it returns, outright: a match with none before it, or -1 and no match at all. */
  lemma {:induction false} FirstMatchMeans(js: string, toks: seq<Token>, ks: seq<nat>, key: string)
    requires SpansInside(js, toks) && forall n :: 0 <= n < |ks| ==> ks[n] < |toks|
    ensures var t := FirstMatch(js, toks, ks, key);
            if t == -1 then forall n :: 0 <= n < |ks| ==> Text(js, toks[ks[n]]) != key
            else exists n :: 0 <= n < |ks| && ks[n] == t && Text(js, toks[t]) == key &&
                             forall m :: 0 <= m < n ==> Text(js, toks[ks[m]]) != key
  {
    if ks == [] || Text(js, toks[ks[0]]) == key {
    } else {
      FirstMatchMeans(js, toks, ks[1..], key);
      var t := FirstMatch(js, toks, ks[1..], key);
      if t != -1 {
        var n :| 0 <= n < |ks| - 1 && ks[1..][n] == t &&
                 forall m :: 0 <= m < n ==> Text(js, toks[ks[1..][m]]) != key;
        assert forall m :: 0 < m < n + 1 ==> ks[m] == ks[1..][m - 1];
        assert ks[n + 1] == t;
      } else {
        assert forall m :: 0 < m < |ks| ==> ks[m] == ks[1..][m - 1];
      }
    }
  }

  lemma FirstMatchNone(js: string, toks: seq<Token>, key: string)
    requires SpansInside(js, toks)
    ensures FirstMatch(js, toks, [], key) == -1
  {
  }

  lemma FirstMatchFrom(js: string, toks: seq<Token>, ks: seq<nat>, n: nat, key: string)
    requires SpansInside(js, toks) && (forall m :: 0 <= m < |ks| ==> ks[m] < |toks|) && n < |ks|
    ensures FirstMatch(js, toks, ks[n..], key)
         == if TokenMatches(js, toks[ks[n]], key) then ks[n] else FirstMatch(js, toks, ks[n + 1..], key)
  {
    MatchIsEquality(js, toks[ks[n]], key);
    assert ks[n..][1..] == ks[n + 1..];
  }

  /** The child of object `p` that has the text `key`, or -1. */
  ghost function KeyOf(js: string, toks: seq<Token>, p: nat, key: string): (t: int)
    requires SpansInside(js, toks) && p < |toks|
    ensures -1 <= t < |toks|
  {
    if toks[p].kind != Object then -1 else FirstMatch(js, toks, Kids(toks, p), key)
  }

  /** `json_obj_search` finds the first key with the text asked for, and fails only when there is none. */
  lemma KeyOfMeans(js: string, toks: seq<Token>, p: nat, key: string)
    requires Accepted(js, toks) && p < |toks| && toks[p].kind == Object
    ensures SpansInside(js, toks)
    ensures var t := KeyOf(js, toks, p, key);
            if t == -1 then forall k :: 0 <= k < |toks| && toks[k].parent == p ==> Text(js, toks[k]) != key
            else toks[t].parent == p && toks[t].kind == String && Text(js, toks[t]) == key &&
                 forall k :: 0 <= k < t && toks[k].parent == p ==> Text(js, toks[k]) != key
  {
    KidsFacts(toks, p);
    FirstMatchMeans(js, toks, Kids(toks, p), key);
    var t := KeyOf(js, toks, p, key);
    if t != -1 { assert KeyIsString(toks, t); }
  }

  /** Child number `i` of array `p`, or -1. */
  ghost function ItemOf(toks: seq<Token>, p: nat, i: nat): int
    requires p < |toks|
  {
    if toks[p].kind == Array && i < |Kids(toks, p)| then Kids(toks, p)[i] else -1
  }

  /**
   What a look-up by name comes to. `Outside`: the key is the last token, and the source reads the cell
   behind the array; what it does from there on is not defined, and the model stops.
   */
  datatype Sought = Missing | Here(t: nat) | Outside

  ghost function SoughtKey(js: string, toks: seq<Token>, p: nat, name: string, kind: Kind): (r: Sought)
    requires SpansInside(js, toks) && p < |toks|
    ensures r.Here? ==> r.t < |toks|
  {
    var k := KeyOf(js, toks, p, name);
    if k == -1 then Missing
    else if k + 1 == |toks| then Outside
    else if toks[k + 1].kind != kind then Missing
    else Here(k + 1)
  }

  /** Every key of object `p` has exactly one value. */
  ghost predicate KeysHaveValues(toks: seq<Token>, p: nat) {
    p < |toks| && (toks[p].kind == Object ==> forall k :: 0 <= k < |toks| && toks[k].parent == p ==> toks[k].size == 1)
  }

  class JParseCtx {
    const js: string
    const tokens: array<Token>
    var cur: nat

    ghost predicate Valid()
      reads this, tokens
    {
      Accepted(js, tokens[..]) && cur < tokens.Length
    }

    constructor (js: string, tokens: array<Token>)
      requires Accepted(js, tokens[..])
      ensures Valid() && this.js == js && this.tokens == tokens && cur == 0
    {
      this.js, this.tokens, this.cur := js, tokens, 0;
    }

    /** The last token of an element: its children are skipped one after the other. */
    method SkipElem(i: nat) returns (j: nat)
      requires Valid() && i < tokens.Length
      ensures j == Last(tokens[..], i)
      decreases tokens.Length - i
    {
      hide Accepted, Kids, Last;
      ghost var toks := tokens[..];
      ghost var ks := Kids(toks, i);
      SizeIsKids(js, toks, i);
      j := i;
      var cnt := tokens[i].size;
      while cnt > 0
        invariant 0 <= cnt <= |ks|
        invariant j == if cnt == |ks| then i else Last(toks, ks[|ks| - cnt - 1])
        decreases cnt
      {
        AdvanceToKid(js, toks, i, |ks| - cnt, j);
        j := SkipElem(j + 1);
        cnt := cnt - 1;
      }
      EndOfKids(js, toks, i);
    }

    method ObjSearch(key: string) returns (t: int)
      requires Valid()
      ensures SpansInside(js, tokens[..]) && t == KeyOf(js, tokens[..], cur, key)
    {
      hide Accepted, Kids, Last, FirstMatch;
      ghost var toks := tokens[..];
      ghost var ks := Kids(toks, cur);
      SpansOk(js, toks);
      SizeIsKids(js, toks, cur);
      var size := tokens[cur].size;
      assert ks[0..] == ks;
      FirstMatchNone(js, toks, key);
      if size <= 0 { return -1; }
      if tokens[cur].kind != Object { return -1; }
      var tok := cur;
      ghost var n := 0;
      while size > 0
        invariant 0 <= n <= |ks| && size == |ks| - n
        invariant tok == if n == 0 then cur else Last(toks, ks[n - 1])
        invariant FirstMatch(js, toks, ks[n..], key) == FirstMatch(js, toks, ks, key)
        decreases size
      {
        AdvanceToKid(js, toks, cur, n, tok);
        tok := tok + 1;
        FirstMatchFrom(js, toks, ks, n, key);
        if TokenMatches(js, tokens[tok], key) { return tok; }
        tok := SkipElem(tok);
        size, n := size - 1, n + 1;
      }
      assert ks[|ks|..] == [];
      return -1;
    }

    method ArrSearch(index: nat) returns (t: int)
      requires Valid()
      ensures t == ItemOf(tokens[..], cur, index)
    {
      hide Accepted, Kids, Last;
      ghost var toks := tokens[..];
      ghost var ks := Kids(toks, cur);
      SizeIsKids(js, toks, cur);
      if tokens[cur].kind != Array || tokens[cur].size <= 0 { return -1; }
      if index > tokens[cur].size - 1 { return -1; }
      AdvanceToKid(js, toks, cur, 0, cur);
      var tok := cur + 1;
      var i := index;
      while i > 0
        invariant 0 <= i <= index < |ks| && tok == ks[index - i]
        decreases i
      {
        tok := SkipElem(tok);
        AdvanceToKid(js, toks, cur, index - i + 1, tok);
        tok := tok + 1;
        i := i - 1;
      }
      return tok;
    }

    /** The token behind the first key `name`, if it has the kind asked for. */
    method ObjGetValTok(name: string, kind: Kind) returns (r: Sought)
      requires Valid()
      ensures SpansInside(js, tokens[..]) && r == SoughtKey(js, tokens[..], cur, name, kind)
    {
      hide Accepted;
      SpansOk(js, tokens[..]);
      var k := ObjSearch(name);
      if k == -1 { return Missing; }
      if k + 1 == tokens.Length { return Outside; }
      if tokens[k + 1].kind != kind { return Missing; }
      return Here(k + 1);
    }

    method ArrGetValTok(index: nat, kind: Kind) returns (t: int)
      requires Valid()
      ensures t == ItemOfKind(tokens[..], cur, index, kind)
    {
      hide Accepted;
      t := ArrSearch(index);
      if t == -1 { return -1; }
      if tokens[t].kind != kind { return -1; }
    }

    // ------------------------------------------------------------ the cursor

    /** `json_obj_get_object` and `json_obj_get_array`: into the value of a key. */
    method ObjGet(name: string, kind: Kind) returns (r: Sought, size: int)
      requires Valid()
      modifies this`cur
      ensures Valid() && SpansInside(js, tokens[..])
      ensures r == SoughtKey(js, tokens[..], old(cur), name, kind)
      ensures cur == (if r.Here? then r.t else old(cur)) && size == if r.Here? then tokens[cur].size else 0
      ensures Cursor(r.Here?, cur) == MoveCursor(js, tokens[..], old(cur), IntoMember(name, kind))
    {
      hide Accepted, KeyOf;
      size := 0;
      r := ObjGetValTok(name, kind);
      if r.Here? { cur, size := r.t, tokens[r.t].size; }
    }

    /** `json_obj_leave_object` and `json_obj_leave_array`: out of a value, then out of its key. */
    method ObjLeave() returns (ok: bool)
      requires Valid()
      modifies this`cur
      ensures Valid() && SpansInside(js, tokens[..])
      ensures var p := tokens[old(cur)].parent;
              if p < 0 then !ok && cur == old(cur)
              else p < tokens.Length &&
                   if tokens[p].parent < 0 then !ok && cur == p else ok && cur == tokens[p].parent
      ensures Cursor(ok, cur) == MoveCursor(js, tokens[..], old(cur), Leave(true))
    {
      hide Accepted;
      SpansOk(js, tokens[..]);
      if tokens[cur].parent < 0 { return false; }
      ParentBelow(js, tokens[..], cur);
      cur := tokens[cur].parent;
      if tokens[cur].parent < 0 { return false; }
      ParentBelow(js, tokens[..], cur);
      cur := tokens[cur].parent;
      return true;
    }

    /** `json_arr_get_object` and `json_arr_get_array`: into an item. */
    method ArrGet(index: nat, kind: Kind) returns (ok: bool)
      requires Valid()
      modifies this`cur
      ensures Valid() && SpansInside(js, tokens[..])
      ensures var t := ItemOfKind(tokens[..], old(cur), index, kind);
              ok == (t != -1) && cur == if t != -1 then t else old(cur)
      ensures Cursor(ok, cur) == MoveCursor(js, tokens[..], old(cur), IntoItem(index, kind))
    {
      hide Accepted;
      SpansOk(js, tokens[..]);
      var t := ArrGetValTok(index, kind);
      if t == -1 { return false; }
      cur := t;
      return true;
    }

    /** `json_arr_leave_object` and `json_arr_leave_array`: out of an item. */
    method ArrLeave() returns (ok: bool)
      requires Valid()
      modifies this`cur
      ensures Valid() && SpansInside(js, tokens[..])
      ensures var p := tokens[old(cur)].parent;
              ok == (p >= 0) && cur == if p >= 0 then p else old(cur)
      ensures Cursor(ok, cur) == MoveCursor(js, tokens[..], old(cur), Leave(false))
    {
      hide Accepted;
      SpansOk(js, tokens[..]);
      if tokens[cur].parent < 0 { return false; }
      ParentBelow(js, tokens[..], cur);
      cur := tokens[cur].parent;
      return true;
    }

    // ------------------------------------------------------------- the values

    method TokToInt(t: nat) returns (ok: bool, val: int)
      requires Valid() && t < tokens.Length
      ensures SpansInside(js, tokens[..]) && ok == IntOf(js, tokens[t]).Some?
      ensures ok ==> val == IntOf(js, tokens[t]).value
    {
      hide Accepted;
      SpansOk(js, tokens[..]);
      var r := Decimal.Strtoul(js, tokens[t].start);
      return r.endptr == tokens[t].end, Decimal.ToInt32(r.value);
    }

    /** `json_obj_get_int`. */
    method ObjGetInt(name: string) returns (r: Sought, ok: bool, val: int)
      requires Valid()
      ensures SpansInside(js, tokens[..]) && r == SoughtKey(js, tokens[..], cur, name, Primitive)
      ensures ok == (r.Here? && IntOf(js, tokens[r.t]).Some?) && (ok ==> val == IntOf(js, tokens[r.t]).value)
    {
      hide Accepted, SoughtKey, IntOf;
      r := ObjGetValTok(name, Primitive);
      if !r.Here? { return r, false, 0; }
      ok, val := TokToInt(r.t);
    }

    method TokToBool(t: nat) returns (ok: bool, val: bool)
      requires Valid() && t < tokens.Length
      ensures SpansInside(js, tokens[..])
      ensures var w := Text(js, tokens[t]);
              ok == (w in {"true", "1", "false", "0"}) && (ok ==> val == (w == "true" || w == "1"))
    {
      hide Accepted;
      SpansOk(js, tokens[..]);
      var tok := tokens[t];
      MatchIsEquality(js, tok, "true");
      MatchIsEquality(js, tok, "1");
      MatchIsEquality(js, tok, "false");
      MatchIsEquality(js, tok, "0");
      if TokenMatches(js, tok, "true") || TokenMatches(js, tok, "1") { return true, true; }
      if TokenMatches(js, tok, "false") || TokenMatches(js, tok, "0") { return true, false; }
      return false, false;
    }

    /** `json_obj_get_bool`. */
    method ObjGetBool(name: string) returns (r: Sought, ok: bool, val: bool)
      requires Valid()
      ensures SpansInside(js, tokens[..]) && r == SoughtKey(js, tokens[..], cur, name, Primitive)
      ensures !r.Here? ==> !ok
      ensures r.Here? ==>
        var w := Text(js, tokens[r.t]);
        ok == (w in {"true", "1", "false", "0"}) && (ok ==> val == (w == "true" || w == "1"))
    {
      hide Accepted, SoughtKey, Text;
      r := ObjGetValTok(name, Primitive);
      if !r.Here? { return r, false, false; }
      ok, val := TokToBool(r.t);
    }

    /** The text and a terminator into `val`, when they fit in `size` characters. */
    method TokToString(t: nat, val: array<char>, size: nat) returns (ok: bool)
      requires Valid() && t < tokens.Length && size <= val.Length
      modifies val
      ensures SpansInside(js, tokens[..])
      ensures var w := Text(js, tokens[t]);
              if |w| + 1 <= size
              then ok && val[..] == w + ['\0'] + old(val[..])[|w| + 1..]
              else !ok && val[..] == old(val[..])
    {
      hide Accepted;
      SpansOk(js, tokens[..]);
      var tok := tokens[t];
      var n := tok.end - tok.start;
      if n > size - 1 { return false; }
      forall i | 0 <= i < n { val[i] := js[tok.start + i]; }
      val[n] := '\0';
      return true;
    }

    /**
     `json_obj_get_string`, `json_obj_get_object_str` and `json_obj_get_array_str`: look up a value of
     the kind and copy its text.
     */
    method ObjGetText(name: string, kind: Kind, val: array<char>, size: nat) returns (r: Sought, ok: bool)
      requires Valid() && size <= val.Length
      modifies val
      ensures SpansInside(js, tokens[..]) && r == SoughtKey(js, tokens[..], cur, name, kind)
      ensures !r.Here? ==> !ok && val[..] == old(val[..])
      ensures r.Here? ==>
        var w := Text(js, tokens[r.t]);
        if |w| + 1 <= size
        then ok && val[..] == w + ['\0'] + old(val[..])[|w| + 1..]
        else !ok && val[..] == old(val[..])
    {
      hide Accepted, SoughtKey;
      r := ObjGetValTok(name, kind);
      if !r.Here? { return r, false; }
      ok := TokToString(r.t, val, size);
    }
  }

  // ------------------------------------------------- the cursor, on values

  datatype Move = IntoMember(name: string, kind: Kind) | IntoItem(index: nat, kind: Kind) | Leave(member: bool)

  datatype Cursor = Cursor(ok: bool, cur: nat)

  ghost function ValueOfKey(js: string, toks: seq<Token>, p: nat, name: string, kind: Kind): (t: int)
    requires SpansInside(js, toks) && p < |toks|
    ensures -1 <= t < |toks|
  {
    var r := SoughtKey(js, toks, p, name, kind);
    if r.Here? then r.t else -1
  }

  ghost function ItemOfKind(toks: seq<Token>, p: nat, i: nat, kind: Kind): (t: int)
    requires p < |toks|
    ensures -1 <= t < |toks|
  {
    var t := ItemOf(toks, p, i);
    if t == -1 || toks[t].kind != kind then -1 else t
  }

  /** One get or leave. Leaving a member is two parent hops, and keeps the first when the second fails. */
  ghost function MoveCursor(js: string, toks: seq<Token>, cur: nat, m: Move): (c: Cursor)
    requires SpansInside(js, toks) && ParentsOk(toks) && cur < |toks|
    ensures c.cur < |toks|
  {
    match m
    case IntoMember(name, kind) =>
      var t := ValueOfKey(js, toks, cur, name, kind);
      if t == -1 then Cursor(false, cur) else Cursor(true, t)
    case IntoItem(i, kind) =>
      var t := ItemOfKind(toks, cur, i, kind);
      if t == -1 then Cursor(false, cur) else Cursor(true, t)
    case Leave(member) =>
      var p := toks[cur].parent;
      if p < 0 then Cursor(false, cur)
      else if !member then Cursor(true, p)
      else if toks[p].parent < 0 then Cursor(false, p)
      else Cursor(true, toks[p].parent)
  }

  /** `json_tok_to_int`: the number, when reading stops exactly at the token's end. */
  function IntOf(js: string, t: Token): Option<int>
    requires 0 <= t.start <= t.end <= |js|
  {
    var r := Decimal.Strtoul(js, t.start);
    if r.endptr == t.end then Some(Decimal.ToInt32(r.value)) else None
  }

  // ---------------------------------------------------------------- lemmas

  lemma SpansOk(js: string, toks: seq<Token>)
    requires Accepted(js, toks)
    ensures SpansInside(js, toks)
  {
  }

  /** Standing on `p` before its first child, or at the end of child `n - 1`, child `n` is the next token. */
  lemma AdvanceToKid(js: string, toks: seq<Token>, p: nat, n: nat, at: nat)
    requires Accepted(js, toks) && p < |toks| && n < |Kids(toks, p)|
    requires at == if n == 0 then p else Last(toks, Kids(toks, p)[n - 1])
    ensures p < at + 1 == Kids(toks, p)[n] && toks[at + 1].parent == p
  {
    assert Preorder(toks);
    hide Accepted, Kids;
    KidsFacts(toks, p);
    if n == 0 { FirstKid(toks, p); } else { NextKid(toks, p, n - 1); }
  }

  lemma SizeIsKids(js: string, toks: seq<Token>, i: nat)
    requires Accepted(js, toks) && i < |toks|
    ensures ParentsOk(toks) && toks[i].size == |Kids(toks, i)|
  {
  }

  lemma EndOfKids(js: string, toks: seq<Token>, i: nat)
    requires Accepted(js, toks) && i < |toks|
    ensures var ks := Kids(toks, i);
            Last(toks, i) == if ks == [] then i else Last(toks, ks[|ks| - 1])
  {
    if Kids(toks, i) == [] { LastOfLeaf(toks, i); } else { LastOfKids(toks, i); }
  }

  lemma ParentBelow(js: string, toks: seq<Token>, i: nat)
    requires Accepted(js, toks) && i < |toks|
    ensures ParentsOk(toks) && -1 <= toks[i].parent < i
  {
  }

  /** The token after a key, which a look-up takes for its value, is one exactly when the key has a value. */
  lemma KeyHasValue(js: string, toks: seq<Token>, k: nat)
    requires Accepted(js, toks) && k < |toks|
    ensures k + 1 < |toks| && toks[k + 1].parent == k <==> toks[k].size >= 1
  {
    assert toks[k].size == |Kids(toks, k)|;
    KidsFacts(toks, k);
    if Kids(toks, k) != [] { FirstKid(toks, k); }
  }

  /** When every key has its value, no look-up leaves the array. */
  lemma KeysHaveValuesSuffice(js: string, toks: seq<Token>, p: nat, name: string, kind: Kind)
    requires Accepted(js, toks) && KeysHaveValues(toks, p)
    ensures SpansInside(js, toks) && !SoughtKey(js, toks, p, name, kind).Outside?
  {
    SpansOk(js, toks);
    if toks[p].kind == Object {
      KeyOfMeans(js, toks, p, name);
      var k := KeyOf(js, toks, p, name);
      if k != -1 { KeyHasValue(js, toks, k); }
    }
  }
}
