/**
 json_generator.c: JSON text is appended to a fixed buffer that is handed to a callback whenever it
 is full. `JsonGen` works in place as the source does; `all` is the text appended so far, and
 `flushed` what the callback was given.
 */
module Generator {
  import opened CStrings
  import Decimal

  // ------------------------------------------------------------- C strings

  /** A `char *` argument: null, or a string without NUL. */
  datatype CStr = NullStr | Chars(s: string)

  predicate IsCStr(c: CStr) {
    c.Chars? ==> NoNul(c.s)
  }

  function Txt(c: CStr): string {
    if c.NullStr? then "" else c.s
  }

  function Concat(cs: seq<string>): string {
    if cs == [] then "" else Concat(cs[..|cs| - 1]) + cs[|cs| - 1]
  }

  function Min(a: int, b: int): int {
    if a < b then a else b
  }

  // ------------------------------------------------------------ one call

  datatype Scalar = SBool(b: bool) | SInt(n: int) | SFloat(text: string) | SString(val: CStr) | SNull

  /** The calls of the interface. `Open` and `Close` take the bracket of an object or array. */
  datatype Call =
    | Open(bracket: char)
    | Close(bracket: char)
    | PushOpen(name: CStr, bracket: char)
    | PushRaw(name: CStr, text: CStr)
    | ObjSet(name: CStr, val: Scalar)
    | ArrSet(val: Scalar)
    | ObjStartLong(name: CStr, first: CStr)
    | ArrStartLong(first: CStr)
    | AddToLong(more: CStr)
    | EndLong

  function ScalarText(v: Scalar): string {
    match v
    case SBool(b) => if b then "true" else "false"
    case SInt(n) => Decimal.Show(n)
    case SFloat(w) => w
    case SString(c) => "\"" + Txt(c) + "\""
    case SNull => "null"
  }

  predicate CleanScalar(v: Scalar) {
    match v
    case SFloat(w) => w != "" && NoNul(w)
    case SString(c) => IsCStr(c)
    case _ => true
  }

  predicate CleanCall(c: Call) {
    match c
    case Open(b) => b != '\0'
    case Close(b) => b != '\0'
    case PushOpen(n, b) => IsCStr(n) && b != '\0'
    case PushRaw(n, t) => IsCStr(n) && IsCStr(t)
    case ObjSet(n, v) => IsCStr(n) && CleanScalar(v)
    case ArrSet(v) => CleanScalar(v)
    case ObjStartLong(n, t) => IsCStr(n) && IsCStr(t)
    case ArrStartLong(t) => IsCStr(t)
    case AddToLong(t) => IsCStr(t)
    case EndLong => true
  }

  function Comma(comma: bool): string {
    if comma then "," else ""
  }

  function Name(n: CStr): string {
    "\"" + Txt(n) + "\":"
  }

  /** What a call appends when a comma is or is not pending. */
  function Appends(c: Call, comma: bool): string {
    match c
    case Open(b) => Comma(comma) + [b]
    case Close(b) => [b]
    case PushOpen(n, b) => Comma(comma) + Name(n) + [b]
    case PushRaw(n, t) => Comma(comma) + Name(n) + Txt(t)
    case ObjSet(n, v) => Comma(comma) + Name(n) + ScalarText(v)
    case ArrSet(v) => Comma(comma) + ScalarText(v)
    case ObjStartLong(n, t) => Comma(comma) + Name(n) + "\"" + Txt(t)
    case ArrStartLong(t) => Comma(comma) + "\"" + Txt(t)
    case AddToLong(t) => Txt(t)
    case EndLong => "\""
  }

  /** Whether a comma is pending after a call. */
  function Pending(c: Call, comma: bool): bool {
    match c
    case Open(_) => false
    case PushOpen(_, _) => false
    case AddToLong(_) => comma
    case EndLong => comma
    case _ => true
  }

  /** The last piece a call appends is empty: its return code then says nothing about the buffer. */
  predicate Silent(c: Call) {
    match c
    case PushRaw(_, t) => Txt(t) == ""
    case ObjStartLong(_, t) => Txt(t) == ""
    case ArrStartLong(t) => Txt(t) == ""
    case AddToLong(t) => Txt(t) == ""
    case _ => false
  }

  // ---------------------------------------------------------- the copy loop

  /** Where the copy loop stands: `used` characters in the buffer, `len` still to be added. */
  datatype Copying = Copying(used: nat, len: nat, done: bool)

  /** One round with a callback: what fits is copied, and a full buffer is flushed if something is left. */
  function CopyRound(size: nat, used: nat, len: nat): (c: Copying)
    requires used < size
    ensures c.used < size
  {
    var n := Min(size - used - 1, len);
    if len - n == 0 then Copying(used + n, 0, true) else Copying(0, len - n, false)
  }

  /** At most `n` rounds. */
  function CopyRounds(size: nat, used: nat, len: nat, n: nat): (c: Copying)
    requires used < size
    ensures c.used < size
    decreases n
  {
    if n == 0 then Copying(used, len, false)
    else
      var c := CopyRound(size, used, len);
      if c.done then c else CopyRounds(size, c.used, c.len, n - 1)
  }

  lemma {:induction false} OneMoreRound(size: nat, used: nat, len: nat, n: nat)
    requires used < size
    ensures var c := CopyRounds(size, used, len, n);
            CopyRounds(size, used, len, n + 1) == if c.done then c else CopyRound(size, c.used, c.len)
    decreases n
  {
    var c := CopyRound(size, used, len);
    if n == 0 || c.done {
    } else {
      OneMoreRound(size, c.used, c.len, n - 1);
    }
  }

  lemma {:induction false} CopyEnds(size: nat, used: nat, len: nat) returns (n: nat)
    requires used < size && (size >= 2 || len == 0)
    ensures CopyRounds(size, used, len, n).done
    decreases len, used
  {
    var c := CopyRound(size, used, len);
    if c.done {
      n := 1;
    } else {
      n := CopyEnds(size, c.used, c.len);
      n := n + 1;
    }
  }

  lemma {:induction false} CopyStalls(len: nat, n: nat)
    requires len > 0
    ensures CopyRounds(1, 0, len, n) == Copying(0, len, false)
    decreases n
  {
    if n == 0 {
    } else {
      assert CopyRound(1, 0, len) == Copying(0, len, false);
      CopyStalls(len, n - 1);
    }
  }

  /**
   The copy loop ends, after some number of rounds, exactly when the buffer has room for a character
   besides the terminator or there is nothing to add.
   */
  lemma CopyLoopTerminates(size: nat, used: nat, len: nat)
    requires used < size
    ensures (exists n: nat :: CopyRounds(size, used, len, n).done) <==> size >= 2 || len == 0
  {
    if size >= 2 || len == 0 {
      var n := CopyEnds(size, used, len);
    } else {
      forall n: nat ensures !CopyRounds(size, used, len, n).done { CopyStalls(len, n); }
    }
  }

  // ------------------------------------------------------------- the object

  class JsonGen {
    var buf: array?<char>
    var bufSize: nat
    var flushCb: bool
    var commaReq: bool
    var freePtr: nat
    var totalLen: nat
    var flushed: seq<string>
    ghost var all: string

    ghost predicate Valid()
      reads `buf, `bufSize, `flushCb, `freePtr, `totalLen, `flushed, `all, buf
    {
      && totalLen == |all| && NoNul(all)
      && (buf == null ==> flushed == [])
      && (buf != null ==>
            && freePtr < bufSize <= buf.Length
            && if flushCb then Flushing() else Truncating())
    }

    /** Nothing is lost or reordered, and every chunk handed over so far filled the buffer. */
    ghost predicate Flushing()
      requires buf != null && freePtr <= buf.Length
      reads `buf, `bufSize, `flushCb, `freePtr, `totalLen, `flushed, `all, buf
    {
      && Concat(flushed) + buf[..freePtr] == all
      && forall i :: 0 <= i < |flushed| ==> |flushed[i]| == bufSize - 1
    }

    /** The buffer holds as much of the text as fits. */
    ghost predicate Truncating()
      requires buf != null && freePtr <= buf.Length && bufSize >= 1
      reads `buf, `bufSize, `flushCb, `freePtr, `totalLen, `flushed, `all, buf
    {
      flushed == [] && buf[..freePtr] == all[..Min(|all|, bufSize - 1)]
    }

    /** `json_gen_str_start`. */
    constructor (buf: array?<char>, bufSize: nat, flushCb: bool)
      requires buf != null ==> 1 <= bufSize <= buf.Length
      ensures Valid() && all == "" && !commaReq && flushed == []
      ensures this.buf == buf && this.bufSize == bufSize && this.flushCb == flushCb
    {
      this.buf, this.bufSize, this.flushCb := buf, bufSize, flushCb;
      commaReq, freePtr, totalLen := false, 0, 0;
      flushed, all := [], "";
    }

    /** The copy loop ends on every text; with a callback and a single cell it ends on none but the empty one. */
    predicate Roomy()
      reads `buf, `bufSize, `flushCb
    {
      buf != null && flushCb ==> bufSize >= 2
    }

    /** What every appending method leaves alone. */
    twostate predicate Kept()
      reads this
    {
      buf == old(buf) && bufSize == old(bufSize) && flushCb == old(flushCb)
    }

    /** The code a call whose last piece is not empty returns. */
    ghost function Code(): int
      reads `buf, `bufSize, `flushCb, `all
    {
      if buf == null || flushCb || |all| <= bufSize - 1 then 0 else -1
    }

    method Flush()
      requires buf != null && flushCb && freePtr < bufSize <= buf.Length && NoNul(buf[..freePtr])
      modifies this`flushed, buf
      ensures flushed == old(flushed) + [old(buf[..freePtr])]
      ensures buf[..freePtr] == old(buf[..freePtr])
    {
      buf[freePtr] := '\0';
      CStringStops(buf[..], freePtr);
      assert buf[..][..freePtr] == buf[..freePtr];
      flushed := flushed + [CString(buf[..])];
    }

    /** `memmove` of `n` characters to the end of what is in the buffer. */
    method Copy(s: string, at: nat, n: nat)
      requires buf != null && freePtr + n < bufSize <= buf.Length && at + n <= |s|
      modifies this`freePtr, buf
      ensures freePtr == old(freePtr) + n && buf[..freePtr] == old(buf[..freePtr]) + s[at..at + n]
    {
      forall i | 0 <= i < n { buf[freePtr + i] := s[at + i]; }
      freePtr := freePtr + n;
    }

    /** `json_gen_add_to_str`. */
    method AddToStr(str: CStr) returns (r: int)
      requires Valid() && IsCStr(str) && (Roomy() || Txt(str) == "")
      modifies this`freePtr, this`totalLen, this`flushed, this`all, buf
      ensures Valid() && Kept() && all == old(all) + Txt(str)
      ensures r == if Txt(str) == "" then 0 else Code()
    {
      if str.NullStr? { return 0; }
      var s := str.s;
      var len := |s|;
      totalLen := totalLen + len;
      if buf == null {
        all := all + s;
        return 0;
      }
      if flushCb { AddFlushing(s); r := 0; } else { r := AddTruncating(s); }
    }

    /** A full buffer goes to the callback, and filling starts again. */
    method Drain()
      requires buf != null && flushCb && freePtr < bufSize <= buf.Length && freePtr == bufSize - 1
      requires Flushing() && NoNul(all)
      modifies this`freePtr, this`flushed, buf
      ensures freePtr == 0 && Flushing()
    {
      hide Concat, NoNul;
      ghost var before, chunk := flushed, buf[..freePtr];
      NoNulTail(Concat(before), chunk);
      ConcatSnoc(before, chunk);
      Flush();
      freePtr := 0;
      assert buf[..freePtr] == "" && all + "" == all;
    }

    method Put(s: string, at: nat, n: nat)
      requires buf != null && flushCb && freePtr + n < bufSize <= buf.Length && at + n <= |s|
      requires Flushing() && NoNul(all) && NoNul(s)
      modifies this`freePtr, this`all, buf
      ensures freePtr == old(freePtr) + n && Flushing() && NoNul(all) && all == old(all) + s[at..at + n]
    {
      Copy(s, at, n);
      all := all + s[at..at + n];
    }

    /** One round: a full buffer is handed over when something is left. */
    method CopySome(s: string, at: nat, len: nat) returns (n: nat)
      requires buf != null && flushCb && freePtr < bufSize <= buf.Length && at + len == |s|
      requires Flushing() && NoNul(all) && NoNul(s)
      modifies this`freePtr, this`flushed, this`all, buf
      ensures n <= len && freePtr < bufSize && Flushing() && NoNul(all) && all == old(all) + s[at..at + n]
      ensures Copying(freePtr, len - n, n == len) == CopyRound(bufSize, old(freePtr), len)
    {
      hide Flushing, NoNul;
      n := if bufSize - freePtr - 1 > len then len else bufSize - freePtr - 1;
      Put(s, at, n);
      if len - n != 0 { Drain(); }
    }

    /** The copy loop; its end is the one the rounds above lead to. */
    method AddFlushing(s: string)
      requires buf != null && flushCb && freePtr < bufSize <= buf.Length && Flushing() && NoNul(all) && NoNul(s)
      requires bufSize >= 2 || s == ""
      modifies this`freePtr, this`flushed, this`all, buf
      ensures freePtr < bufSize && Flushing() && NoNul(all) && all == old(all) + s
      ensures exists n: nat :: CopyRounds(bufSize, old(freePtr), |s|, n) == Copying(freePtr, 0, true)
    {
      hide Flushing, NoNul, CopyRounds;
      var at, len := 0, |s|;
      ghost var rounds: nat := 0;
      NoRound(bufSize, freePtr, len);
      while true
        invariant 0 <= at && 0 <= len && at + len == |s| && freePtr < bufSize
        invariant all == old(all) + s[..at] && NoNul(all) && Flushing()
        invariant CopyRounds(bufSize, old(freePtr), |s|, rounds) == Copying(freePtr, len, false)
        decreases len, freePtr
      {
        OneMoreRound(bufSize, old(freePtr), |s|, rounds);
        var n := CopySome(s, at, len);
        rounds := rounds + 1;
        assert s[..at] + s[at..at + n] == s[..at + n];
        at, len := at + n, len - n;
        if len == 0 { break; }
      }
      assert s[..at] == s;
    }

    /** One round is all there is without a callback: what does not fit is dropped. */
    method AddTruncating(s: string) returns (r: int)
      requires buf != null && !flushCb && freePtr < bufSize <= buf.Length && Truncating() && NoNul(all) && NoNul(s)
      modifies this`freePtr, this`all, buf
      ensures freePtr < bufSize && Truncating() && NoNul(all) && all == old(all) + s
      ensures r == if s == "" || |all| <= bufSize - 1 then 0 else -1
    {
      var len := |s|;
      var n: nat := if bufSize - freePtr - 1 > len then len else bufSize - freePtr - 1;
      Copy(s, 0, n);
      assert all + s[0..n] == (all + s)[..|all| + n];
      all := all + s;
      len := len - n;
      if len == 0 { return 0; }
      buf[freePtr] := '\0';
      return -1;
    }

    /** `json_gen_str_end`: the last chunk, however long, and the length with its terminator. */
    method End() returns (total: nat)
      requires Valid()
      modifies this, buf
      ensures total == |old(all)| + 1
      ensures old(buf) != null && old(flushCb) ==>
        |flushed| == |old(flushed)| + 1 && flushed[..|flushed| - 1] == old(flushed) && Concat(flushed) == old(all)
      ensures old(buf) != null && !old(flushCb) ==>
        flushed == [] && CString(old(buf)[..]) == old(all)[..Min(|old(all)|, old(bufSize) - 1)]
      ensures buf == null && bufSize == 0 && !flushCb && !commaReq && freePtr == 0 && totalLen == 0 && all == ""
    {
      total := totalLen + 1;
      if buf != null {
        if flushCb {
          NoNulTail(Concat(flushed), buf[..freePtr]);
          ConcatSnoc(flushed, buf[..freePtr]);
          Flush();
        } else {
          buf[freePtr] := '\0';
          assert buf[..][..freePtr] == buf[..freePtr];
          CStringStops(buf[..], freePtr);
        }
      }
      buf, bufSize, flushCb, commaReq, freePtr, totalLen := null, 0, false, false, 0, 0;
      all := "";
    }

    // ------------------------------------------------- commas, names, values

    /** The state after a call that appended `text` and leaves a comma pending or not. */
    twostate predicate Did(text: string, pending: bool)
      reads this, buf
    {
      Valid() && Kept() && all == old(all) + text && commaReq == pending
    }

    method HandleComma()
      requires Valid() && Roomy()
      modifies this`freePtr, this`totalLen, this`flushed, this`all, buf
      ensures Did(Comma(commaReq), commaReq) && commaReq == old(commaReq)
    {
      if commaReq { var _ := AddToStr(Chars(",")); }
    }

    method HandleName(name: CStr)
      requires Valid() && Roomy() && IsCStr(name)
      modifies this`freePtr, this`totalLen, this`flushed, this`all, buf
      ensures Did(Name(name), commaReq)
    {
      hide Valid;
      var r := AddToStr(Chars("\""));
      r := AddToStr(name);
      r := AddToStr(Chars("\":"));
      assert old(all) + "\"" + Txt(name) + "\":" == old(all) + Name(name);
    }

    method SetScalar(v: Scalar) returns (r: int)
      requires Valid() && Roomy() && CleanScalar(v)
      modifies this`freePtr, this`totalLen, this`flushed, this`all, this`commaReq, buf
      ensures Did(ScalarText(v), true) && r == Code()
    {
      hide Valid;
      if v.SString? {
        r := SetString(v.val);
        return;
      }
      commaReq := true;
      assert ScalarText(v) != "";
      r := AddToStr(Chars(match v
                          case SBool(b) => if b then "true" else "false"
                          case SInt(n) => Decimal.Show(n)
                          case SFloat(w) => w
                          case _ => "null"));
    }

    method SetString(c: CStr) returns (r: int)
      requires Valid() && Roomy() && IsCStr(c)
      modifies this`freePtr, this`totalLen, this`flushed, this`all, this`commaReq, buf
      ensures Did("\"" + Txt(c) + "\"", true) && r == Code()
    {
      hide Valid;
      commaReq := true;
      r := AddToStr(Chars("\""));
      r := AddToStr(c);
      r := AddToStr(Chars("\""));
      assert old(all) + "\"" + Txt(c) + "\"" == old(all) + ("\"" + Txt(c) + "\"");
    }

    // -------------------------------------------------------------- the calls

    method StartOpen(bracket: char) returns (r: int)
      requires Valid() && Roomy() && CleanCall(Open(bracket))
      modifies this`freePtr, this`totalLen, this`flushed, this`all, this`commaReq, buf
      ensures Did(Appends(Open(bracket), old(commaReq)), false) && r == Code()
    {
      hide Valid, Name, Comma, ScalarText;
      HandleComma();
      commaReq := false;
      r := AddToStr(Chars([bracket]));
    }

    method EndClose(bracket: char) returns (r: int)
      requires Valid() && Roomy() && CleanCall(Close(bracket))
      modifies this`freePtr, this`totalLen, this`flushed, this`all, this`commaReq, buf
      ensures Did(Appends(Close(bracket), old(commaReq)), true) && r == Code()
    {
      hide Valid, Name, Comma, ScalarText;
      commaReq := true;
      r := AddToStr(Chars([bracket]));
    }

    method PushNamed(name: CStr, bracket: char) returns (r: int)
      requires Valid() && Roomy() && CleanCall(PushOpen(name, bracket))
      modifies this`freePtr, this`totalLen, this`flushed, this`all, this`commaReq, buf
      ensures Did(Appends(PushOpen(name, bracket), old(commaReq)), false) && r == Code()
    {
      hide Valid, Name, Comma, ScalarText;
      HandleComma();
      HandleName(name);
      commaReq := false;
      r := AddToStr(Chars([bracket]));
    }

    method PushText(name: CStr, text: CStr) returns (r: int)
      requires Valid() && Roomy() && CleanCall(PushRaw(name, text))
      modifies this`freePtr, this`totalLen, this`flushed, this`all, this`commaReq, buf
      ensures Did(Appends(PushRaw(name, text), old(commaReq)), true)
      ensures r == if Txt(text) == "" then 0 else Code()
    {
      hide Valid, Name, Comma, ScalarText;
      HandleComma();
      HandleName(name);
      commaReq := true;
      r := AddToStr(text);
    }

    method ObjSetScalar(name: CStr, v: Scalar) returns (r: int)
      requires Valid() && Roomy() && CleanCall(ObjSet(name, v))
      modifies this`freePtr, this`totalLen, this`flushed, this`all, this`commaReq, buf
      ensures Did(Appends(ObjSet(name, v), old(commaReq)), true) && r == Code()
    {
      hide Valid, Name, Comma, ScalarText;
      HandleComma();
      HandleName(name);
      r := SetScalar(v);
    }

    method ArrSetScalar(v: Scalar) returns (r: int)
      requires Valid() && Roomy() && CleanCall(ArrSet(v))
      modifies this`freePtr, this`totalLen, this`flushed, this`all, this`commaReq, buf
      ensures Did(Appends(ArrSet(v), old(commaReq)), true) && r == Code()
    {
      hide Valid, Name, Comma, ScalarText;
      HandleComma();
      r := SetScalar(v);
    }

    method SetLongString(first: CStr) returns (r: int)
      requires Valid() && Roomy() && IsCStr(first)
      modifies this`freePtr, this`totalLen, this`flushed, this`all, this`commaReq, buf
      ensures Did("\"" + Txt(first), true) && r == if Txt(first) == "" then 0 else Code()
    {
      hide Valid, Name, Comma, ScalarText;
      commaReq := true;
      r := AddToStr(Chars("\""));
      r := AddToStr(first);
    }

    method ObjStartLongString(name: CStr, first: CStr) returns (r: int)
      requires Valid() && Roomy() && CleanCall(ObjStartLong(name, first))
      modifies this`freePtr, this`totalLen, this`flushed, this`all, this`commaReq, buf
      ensures Did(Appends(ObjStartLong(name, first), old(commaReq)), true)
      ensures r == if Txt(first) == "" then 0 else Code()
    {
      hide Valid, Name, Comma, ScalarText;
      HandleComma();
      HandleName(name);
      r := SetLongString(first);
      assert old(all) + (Comma(old(commaReq)) + Name(name) + "\"" + Txt(first))
          == old(all) + Comma(old(commaReq)) + Name(name) + ("\"" + Txt(first));
    }

    method ArrStartLongString(first: CStr) returns (r: int)
      requires Valid() && Roomy() && CleanCall(ArrStartLong(first))
      modifies this`freePtr, this`totalLen, this`flushed, this`all, this`commaReq, buf
      ensures Did(Appends(ArrStartLong(first), old(commaReq)), true)
      ensures r == if Txt(first) == "" then 0 else Code()
    {
      hide Valid, Name, Comma, ScalarText;
      HandleComma();
      r := SetLongString(first);
      assert old(all) + (Comma(old(commaReq)) + "\"" + Txt(first))
          == old(all) + Comma(old(commaReq)) + ("\"" + Txt(first));
    }

    method EndLongString() returns (r: int)
      requires Valid() && Roomy()
      modifies this`freePtr, this`totalLen, this`flushed, this`all, buf
      ensures Did("\"", commaReq) && commaReq == old(commaReq) && r == Code()
    {
      r := AddToStr(Chars("\""));
    }

    /** Any one call of the interface. */
    method Issue(c: Call) returns (r: int)
      requires Valid() && (Roomy() || Appends(c, commaReq) == "") && CleanCall(c)
      modifies this`freePtr, this`totalLen, this`flushed, this`all, this`commaReq, buf
      ensures Did(Appends(c, old(commaReq)), Pending(c, old(commaReq)))
      ensures r == if Silent(c) then 0 else Code()
    {
      CallsAppend(c, commaReq);
      hide Valid, Name, Comma, ScalarText;
      match c
      case Open(b) => r := StartOpen(b);
      case Close(b) => r := EndClose(b);
      case PushOpen(n, b) => r := PushNamed(n, b);
      case PushRaw(n, t) => r := PushText(n, t);
      case ObjSet(n, v) => r := ObjSetScalar(n, v);
      case ArrSet(v) => r := ArrSetScalar(v);
      case ObjStartLong(n, t) => r := ObjStartLongString(n, t);
      case ArrStartLong(t) => r := ArrStartLongString(t);
      case AddToLong(t) => r := AddToStr(t);
      case EndLong => r := EndLongString();
    }
  }

  lemma CallsAppend(c: Call, comma: bool)
    requires CleanCall(c)
    ensures c.AddToLong? || Appends(c, comma) != ""
  {
  }

  lemma NoRound(size: nat, used: nat, len: nat)
    requires used < size
    ensures CopyRounds(size, used, len, 0) == Copying(used, len, false)
  {
  }

  lemma ConcatSnoc(a: seq<string>, c: string)
    ensures Concat(a + [c]) == Concat(a) + c
  {
    assert (a + [c])[..|a|] == a;
  }

  lemma NoNulTail(a: string, tail: string)
    requires NoNul(a + tail)
    ensures NoNul(tail)
  {
    assert forall i :: 0 <= i < |tail| ==> tail[i] == (a + tail)[|a| + i];
  }
}
