/**
 The tokenizer as the source runs it: a parser object of three fields that fills and patches a
 token array in place. Every method is proved against the machine of module `Jsmn`.
 */
module JsmnParser {
  import opened Jsmn
  import opened JsmnInvariant
  import opened Resume

  /** The cells behind the first `n`; the one behind them may have been taken and reset, its type kept. */
  function Rest(before: seq<Token>, n: nat, taken: bool): seq<Token>
    requires if taken then n < |before| else n <= |before|
  {
    if taken then [Token(before[n].kind, -1, -1, 0, -1)] + before[n + 1..] else before[n..]
  }

  lemma RestSame(a: seq<Token>, b: seq<Token>, n: nat, taken: bool)
    requires |a| == |b| && (if taken then n < |a| else n <= |a|) && a[n..] == b[n..]
    ensures Rest(a, n, taken) == Rest(b, n, taken)
  {
    if taken {
      assert a[n] == a[n..][0] && a[n + 1..] == a[n..][1..];
      assert b[n] == b[n..][0] && b[n + 1..] == b[n..][1..];
    }
  }

  lemma RestNone(a: seq<Token>, n: nat)
    requires n <= |a|
    ensures Rest(a, n, false) == a[n..]
  {
  }

  predicate Opening(js: string, p: nat) {
    !AtEnd(js, p) && (js[p] == '{' || js[p] == '[')
  }

  class Parser {
    var pos: nat
    var toknext: nat
    var toksuper: int

    /** The state the fields and the filled cells stand for. */
    ghost function Abs(tokens: array<Token>): State
      requires toknext <= tokens.Length
      reads this, tokens
    {
      State(pos, tokens[..toknext], toksuper)
    }

    ghost predicate Valid(tokens: array?<Token>, num: nat)
      reads this, tokens
    {
      tokens != null ==> toknext <= tokens.Length && num <= tokens.Length && Wf(Abs(tokens))
    }

    constructor ()
      ensures pos == 0 && toknext == 0 && toksuper == -1
    {
      pos, toknext, toksuper := 0, 0, -1;
    }

    method Init()
      modifies this
      ensures pos == 0 && toknext == 0 && toksuper == -1
    {
      pos, toknext, toksuper := 0, 0, -1;
    }

    /** The index of a fresh cell, or -1 when there is none; the kind of the cell is left as it was. */
    method AllocToken(tokens: array<Token>, num: nat) returns (t: int)
      requires num <= tokens.Length
      modifies this`toknext, tokens
      ensures t == if old(toknext) >= num then -1 else old(toknext)
      ensures t == -1 ==> toknext == old(toknext) && tokens[..] == old(tokens[..])
      ensures t != -1 ==> toknext == t + 1 &&
                          tokens[..] == old(tokens[..])[t := Token(old(tokens[t]).kind, -1, -1, 0, -1)]
    {
      if toknext >= num { return -1; }
      t := toknext;
      toknext := toknext + 1;
      tokens[t] := tokens[t].(start := -1, end := -1, size := 0, parent := -1);
    }

    /** A new closed token below the superior one; its parent's count is not yet raised. */
    method FillLeaf(tokens: array<Token>, num: nat, kind: Kind, start: int, end: int) returns (ok: bool)
      requires num <= tokens.Length
      modifies this`toknext, tokens
      ensures ok == (old(toknext) < num)
      ensures !ok ==> toknext == old(toknext) && tokens[..] == old(tokens[..])
      ensures ok ==> toknext == old(toknext) + 1 &&
                     tokens[..] == old(tokens[..])[old(toknext) := Token(kind, start, end, 0, toksuper)]
    {
      var t := AllocToken(tokens, num);
      if t == -1 { return false; }
      tokens[t] := tokens[t].(kind := kind, start := start, end := end, size := 0);
      tokens[t] := tokens[t].(parent := toksuper);
      return true;
    }

    /** What a token-scanning method leaves: nothing on failure, else a new cell and `pos` at `at`. */
    twostate predicate Scanned(tokens: array?<Token>, num: nat, r: int, scan: Scan, t: Token, at: int)
      reads this, tokens
    {
      && r == (match scan
               case Partial => PART
               case Invalid => INVAL
               case Found(_) => if tokens != null && old(toknext) >= num then NOMEM else 0)
      && (r != 0 || tokens == null ==> toknext == old(toknext) && (tokens != null ==> tokens[..] == old(tokens[..])))
      && (r != 0 ==> pos == old(pos))
      && (r == 0 ==> pos == at)
      && (r == 0 && tokens != null ==>
            0 <= old(toknext) < tokens.Length && toknext == old(toknext) + 1 &&
            tokens[..] == old(tokens[..])[old(toknext) := t])
    }

    method ParsePrimitive(js: string, tokens: array?<Token>, num: nat) returns (r: int)
      requires !AtEnd(js, pos) && PrimitiveStart(js[pos])
      requires tokens != null ==> num <= tokens.Length
      modifies this`pos, this`toknext, tokens
      ensures var scan := ScanPrimitive(js, old(pos));
              var q := if scan.Found? then scan.at else 0;
              Scanned(tokens, num, r, scan, Token(Primitive, old(pos), q, 0, toksuper), q - 1)
    {
      var start := pos;
      while pos < |js| && js[pos] != '\0' && !Delimiter(js[pos])
        invariant start <= pos <= |js|
        invariant ScanPrimitive(js, pos) == ScanPrimitive(js, start)
        invariant pos == start ==> !AtEnd(js, pos) && !Delimiter(js[pos])
        invariant toknext == old(toknext) && (tokens != null ==> tokens[..] == old(tokens[..]))
        decreases |js| - pos
      {
        if js[pos] < ' ' || js[pos] >= 127 as char {
          pos := start;
          return INVAL;
        }
        pos := pos + 1;
      }
      if pos >= |js| || js[pos] == '\0' {
        pos := start;
        return PART;
      }
      if tokens != null {
        var ok := FillLeaf(tokens, num, Primitive, start, pos);
        if !ok {
          pos := start;
          return NOMEM;
        }
      }
      pos := pos - 1;
      return 0;
    }

    /** The hex digits of `\uXXXX`; false at a character that is none. */
    method SkipHex(js: string) returns (ok: bool)
      requires pos <= |js|
      modifies this`pos
      ensures var h := ScanHex(js, old(pos), 4); ok == h.Found? && (ok ==> pos == h.at)
    {
      var i := 0;
      while i < 4 && pos < |js| && js[pos] != '\0'
        invariant 0 <= i <= 4 && pos <= |js|
        invariant ScanHex(js, pos, 4 - i) == ScanHex(js, old(pos), 4)
      {
        if !HexDigit(js[pos]) { return false; }
        pos := pos + 1;
        i := i + 1;
      }
      return true;
    }

    method ParseString(js: string, tokens: array?<Token>, num: nat) returns (r: int)
      requires tokens != null ==> num <= tokens.Length
      modifies this`pos, this`toknext, tokens
      ensures var scan := ScanString(js, old(pos) + 1);
              var q := if scan.Found? then scan.at else 0;
              Scanned(tokens, num, r, scan, Token(String, old(pos) + 1, q, 0, toksuper), q)
    {
      var start := pos;
      pos := pos + 1;
      while pos < |js| && js[pos] != '\0'
        invariant start < pos
        invariant ScanString(js, pos) == ScanString(js, start + 1)
        invariant toknext == old(toknext) && (tokens != null ==> tokens[..] == old(tokens[..]))
        decreases |js| - pos
      {
        var c := js[pos];
        if c == '"' {
          if tokens != null {
            var ok := FillLeaf(tokens, num, String, start + 1, pos);
            if !ok {
              pos := start;
              return NOMEM;
            }
          }
          return 0;
        }
        if c == '\\' && pos + 1 < |js| {
          pos := pos + 1;
          if js[pos] == 'u' {
            pos := pos + 1;
            var ok := SkipHex(js);
            if !ok {
              pos := start;
              return INVAL;
            }
            pos := pos - 1;
          } else if !SimpleEscape(js[pos]) {
            pos := start;
            return INVAL;
          }
        }
        pos := pos + 1;
      }
      pos := start;
      return PART;
    }

    /** The climb of a closing bracket along parent links. */
    method FindOpen(tokens: array<Token>) returns (t: nat)
      requires 0 < toknext <= tokens.Length && ParentsOk(tokens[..toknext])
      ensures t < toknext && t == Climb(tokens[..toknext], toknext - 1)
    {
      t := toknext - 1;
      while !tokens[t].Open() && tokens[t].parent != -1
        invariant t < toknext && Climb(tokens[..toknext], t) == Climb(tokens[..toknext], toknext - 1)
        decreases t
      {
        assert tokens[..toknext][t] == tokens[t];
        t := tokens[t].parent;
      }
      assert tokens[..toknext][t] == tokens[t];
    }

    method OpenBracket(tokens: array<Token>, num: nat, kind: Kind) returns (r: int)
      requires Valid(tokens, num) && (kind == Object || kind == Array)
      modifies this`toknext, this`toksuper, tokens
      ensures Stepped(tokens, num, OpenStep(old(Abs(tokens)), kind, num), r == INVAL, r, pos + 1)
    {
      ghost var before, s := tokens[..], Abs(tokens);
      var t := AllocToken(tokens, num);
      if t == -1 { return NOMEM; }
      if toksuper != -1 {
        if tokens[toksuper].kind == Object { return INVAL; }
        tokens[toksuper] := tokens[toksuper].(size := tokens[toksuper].size + 1);
        tokens[t] := tokens[t].(parent := toksuper);
      }
      tokens[t] := tokens[t].(kind := kind, start := pos);
      toksuper := toknext - 1;
      assert tokens[..] == Attach(s, kind, s.pos, -1) + before[t + 1..];
      return 0;
    }

    method CloseBracket(tokens: array<Token>, num: nat, kind: Kind) returns (r: int)
      requires Valid(tokens, num)
      modifies this`toksuper, tokens
      ensures Stepped(tokens, num, CloseStep(old(Abs(tokens)), kind), false, r, pos + 1)
    {
      hide Climb;
      if toknext < 1 { return INVAL; }
      var t := FindOpen(tokens);
      assert tokens[..toknext][t] == tokens[t];
      if tokens[t].Open() {
        if tokens[t].kind != kind { return INVAL; }
        toksuper := tokens[t].parent;
        tokens[t] := tokens[t].(end := pos + 1);
      } else if tokens[t].kind != kind || toksuper == -1 {
        return INVAL;
      }
      return 0;
    }

    /** `size++` on the superior token, which lies below the newest one. */
    method RaiseCount(tokens: array<Token>)
      requires toknext <= tokens.Length && -1 <= toksuper < toknext
      modifies tokens
      ensures tokens[..] == Bump(old(tokens[..toknext]), toksuper) + old(tokens[toknext..])
    {
      if toksuper != -1 {
        tokens[toksuper] := tokens[toksuper].(size := tokens[toksuper].size + 1);
      }
    }

    /**
     This object did what the machine's step `o` says, and left the cells behind the filled ones alone;
     `next` is where it goes on. On a refusal one more cell may have been `taken`.
     */
    twostate predicate Stepped(tokens: array<Token>, num: nat, o: Outcome, taken: bool, r: int, next: int)
      reads this, tokens
    {
      match o
      case Next(s) =>
        && r == 0 && Valid(tokens, num) && next == s.pos && toksuper == s.super && toknext == |s.toks|
        && |s.toks| <= tokens.Length && tokens[..] == s.toks + old(tokens[..])[|s.toks|..]
      case Halt(code, s) =>
        && r == code && pos == s.pos && toksuper == s.super && toknext == |s.toks| + (if taken then 1 else 0)
        && toknext <= tokens.Length && tokens[..] == s.toks + Rest(old(tokens[..]), |s.toks|, taken)
    }

    method Comma(tokens: array?<Token>, num: nat)
      requires Valid(tokens, num)
      modifies this`toksuper
      ensures tokens != null ==> toksuper == CommaSuper(old(Abs(tokens)))
    {
      if tokens != null && toksuper != -1 {
        assert tokens[..toknext][toksuper] == tokens[toksuper];
        if tokens[toksuper].kind != Array && tokens[toksuper].kind != Object {
          toksuper := tokens[toksuper].parent;
        }
      }
    }

    /** A string, its token hung below the superior one. */
    method StringCase(js: string, tokens: array?<Token>, num: nat) returns (r: int)
      requires Valid(tokens, num) && !AtEnd(js, pos) && js[pos] == '"'
      modifies this, tokens
      ensures tokens == null ==> toknext == old(toknext)
      ensures tokens == null ==>
        match ScanString(js, old(pos) + 1)
        case Found(q) => r == 0 && pos == q
        case Invalid => r == INVAL && pos == old(pos)
        case Partial => r == PART && pos == old(pos)
      ensures tokens != null ==>
        Stepped(tokens, num, StringStep(old(Abs(tokens)), js, num), false, r, pos + if r == 0 then 1 else 0)
    {
      hide ScanString, Bump;
      r := ParseString(js, tokens, num);
      if r < 0 { return; }
      if tokens != null { RaiseCount(tokens); }
    }

    /** A primitive, likewise; it may not be a key, nor a second value of one. */
    method PrimitiveCase(js: string, tokens: array?<Token>, num: nat) returns (r: int)
      requires Valid(tokens, num) && !AtEnd(js, pos) && PrimitiveStart(js[pos])
      modifies this, tokens
      ensures tokens == null ==> toknext == old(toknext)
      ensures tokens == null ==>
        match ScanPrimitive(js, old(pos))
        case Found(q) => r == 0 && pos == q - 1
        case Invalid => r == INVAL && pos == old(pos)
        case Partial => r == PART && pos == old(pos)
      ensures tokens != null ==>
        Stepped(tokens, num, PrimitiveStep(old(Abs(tokens)), js, num), false, r, pos + if r == 0 then 1 else 0)
    {
      if tokens != null && toksuper != -1 {
        assert tokens[..toknext][toksuper] == tokens[toksuper];
        if tokens[toksuper].kind == Object || (tokens[toksuper].kind == String && tokens[toksuper].size != 0) {
          return INVAL;
        }
      }
      r := ParsePrimitive(js, tokens, num);
      if r < 0 { return; }
      if tokens != null { RaiseCount(tokens); }
    }

    /** One iteration of the main loop, but for the step to the next character. */
    method Character(js: string, tokens: array?<Token>, num: nat) returns (r: int, added: nat)
      requires Valid(tokens, num) && !AtEnd(js, pos)
      modifies this, tokens
      ensures tokens == null ==> toknext == old(toknext)
      ensures tokens == null ==>
        match CountStep(js, old(pos))
        case Skip(q, n) => r == 0 && pos + 1 == q && added == n
        case Stop(code) => r == code && pos == old(pos)
      ensures tokens != null ==>
        Stepped(tokens, num, Step(old(Abs(tokens)), js, num), r == INVAL && Opening(js, pos), r,
                pos + if r == 0 then 1 else 0) &&
        (r == 0 ==> toknext == old(toknext) + added)
    {
      r, added := 0, 0;
      var c := js[pos];
      if c == '{' || c == '[' {
        added := 1;
        if tokens != null { r := OpenBracket(tokens, num, if c == '{' then Object else Array); }
      } else if c == '}' || c == ']' {
        if tokens != null { r := CloseBracket(tokens, num, if c == '}' then Object else Array); }
      } else if c == '"' {
        r := StringCase(js, tokens, num);
        added := 1;
      } else if Blank(c) {
      } else if c == ':' {
        toksuper := toknext - 1;
      } else if c == ',' {
        Comma(tokens, num);
      } else if PrimitiveStart(c) {
        r := PrimitiveCase(js, tokens, num);
        added := 1;
      } else {
        r := INVAL;
      }
    }

    /** `jsmn_parse`, counting only when `tokens` is null. */
    method Parse(js: string, tokens: array?<Token>, num: nat) returns (r: int)
      requires Valid(tokens, num)
      modifies this, tokens
      ensures tokens == null ==> Count(r, pos) == CountRun(js, old(pos), old(toknext))
      ensures tokens != null ==> Parsed(js, tokens, r, Run(old(Abs(tokens)), js, num))
    {
      hide Step, CountStep, Rest, LastOpen, ParentsOk;
      var count := toknext;
      while pos < |js| && js[pos] != '\0'
        invariant Valid(tokens, num)
        invariant tokens == null ==> CountRun(js, pos, count) == CountRun(js, old(pos), old(toknext))
        invariant tokens != null ==> count == toknext && Run(Abs(tokens), js, num) == Run(old(Abs(tokens)), js, num)
        invariant tokens != null ==> tokens[toknext..] == old(tokens[..])[toknext..]
        decreases |js| - pos
      {
        ghost var here := if tokens == null then [] else tokens[..];
        var added;
        r, added := Character(js, tokens, num);
        if r < 0 {
          if tokens != null {
            RestSame(here, old(tokens[..]), toknext - if r == INVAL && Opening(js, pos) then 1 else 0,
                     r == INVAL && Opening(js, pos));
          }
          return;
        }
        count := count + added;
        pos := pos + 1;
      }
      if tokens != null {
        RestNone(old(tokens[..]), toknext);
        assert tokens[..] == Abs(tokens).toks + tokens[toknext..];
        var open := AnyOpen(tokens);
        if open { return PART; }
      }
      return count;
    }

    /** The scan for containers left open. */
    method AnyOpen(tokens: array<Token>) returns (open: bool)
      requires toknext <= tokens.Length
      ensures open == (Finish(tokens[..toknext]) == PART)
    {
      var i := toknext - 1;
      while i >= 0
        invariant -1 <= i < toknext && LastOpen(tokens[..toknext], i + 1) == LastOpen(tokens[..toknext], toknext)
      {
        assert tokens[..toknext][i] == tokens[i];
        if tokens[i].Open() { return true; }
        i := i - 1;
      }
      return false;
    }

    /** What a call leaves; when it refused an opening bracket, one more cell is taken but not filled. */
    twostate predicate Parsed(js: string, tokens: array<Token>, r: int, run: Result)
      reads this, tokens
    {
      var n, taken := |run.s.toks|, r == INVAL && Opening(js, run.s.pos);
      && r == run.code && pos == run.s.pos && toksuper == run.s.super
      && toknext == n + (if taken then 1 else 0) && toknext <= tokens.Length
      && tokens[..] == run.s.toks + Rest(old(tokens[..]), n, taken)
    }
  }

  /** `json_parse_start`: count, allocate if there is `memory`, fill. The second result is meaningful when `ok`. */
  method JsonParseStart(js: string, memory: bool) returns (ok: bool, tokens: array<Token>)
    ensures fresh(tokens)
    ensures ok == (memory && ParseStart(js).Some?)
    ensures ok ==> tokens[..] == ParseStart(js).value
  {
    tokens := new Token[0];
    var parser := new Parser();
    var n := parser.Parse(js, null, 0);
    if n <= 0 { return false, tokens; }
    if !memory { return false, tokens; }
    tokens := new Token[n](_ => Token(Undefined, 0, 0, 0, 0));
    parser.Init();
    assert parser.Abs(tokens) == INIT;
    var r := parser.Parse(js, tokens, n);
    if r <= 0 { return false, tokens; }
    TwoPasses(js);
    return true, tokens;
  }
}
