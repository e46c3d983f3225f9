/**
 Integers as text: the printing of `json_gen_set_int` (`%d`) and the reading of
 `json_tok_to_int` (`strtoul` in base 10, its 32-bit result stored in an `int`).
 `unsigned long` has 32 bits on the ESP32-C3, the target of the repository.
 */
module Decimal {

  const WORD: int := 0x1_0000_0000
  const HALF: int := 0x8000_0000

  /** The range of a 32-bit `int`. */
  predicate Int32(n: int) {
    -HALF <= n < HALF
  }

  predicate IsDigit(c: char) {
    '0' <= c <= '9'
  }

  function DigitChar(d: nat): (c: char)
    requires d < 10
    ensures IsDigit(c) && c as int - '0' as int == d
  {
    (d + '0' as int) as char
  }

  function Digits(n: nat): (s: string)
    ensures s != "" && forall i :: 0 <= i < |s| ==> IsDigit(s[i])
  {
    if n < 10 then [DigitChar(n)] else Digits(n / 10) + [DigitChar(n % 10)]
  }

  /** What `%d` prints. */
  function Show(n: int): (s: string)
    ensures s != "" && (s[0] == '-' || IsDigit(s[0]))
    ensures forall i :: 0 < i < |s| ==> IsDigit(s[i])
  {
    if n < 0 then "-" + Digits(-n) else Digits(n)
  }

  // --------------------------------------------------------------- reading

  /** The value of a digit string, and its end: digits are taken as long as there are any. */
  function DigitsEnd(js: string, p: nat): (q: nat)
    requires p <= |js|
    ensures p <= q <= |js|
    ensures forall i :: p <= i < q ==> IsDigit(js[i])
    ensures q == |js| || !IsDigit(js[q])
    decreases |js| - p
  {
    if p < |js| && IsDigit(js[p]) then DigitsEnd(js, p + 1) else p
  }

  function ValueOf(s: string): (n: nat)
    requires forall i :: 0 <= i < |s| ==> IsDigit(s[i])
  {
    if s == "" then 0
    else
      var c := s[|s| - 1];
      assert IsDigit(c);
      10 * ValueOf(s[..|s| - 1]) + (c as int - '0' as int)
  }

  predicate IsSpace(c: char) {
    c == ' ' || c == '\t' || c == '\n' || c == 0x0b as char || c == 0x0c as char || c == '\r'
  }

  function SkipSpace(js: string, p: nat): (q: nat)
    requires p <= |js|
    ensures p <= q <= |js|
    decreases |js| - p
  {
    if p < |js| && IsSpace(js[p]) then SkipSpace(js, p + 1) else p
  }

  datatype Number = Number(value: int, endptr: nat)

  /** `strtoul(js + p, &endptr, 10)`: saturating, and negated modulo 2^32 after a minus sign. */
  function Strtoul(js: string, p: nat): (r: Number)
    requires p <= |js|
    ensures 0 <= r.value < WORD && p <= r.endptr <= |js|
  {
    var q := SkipSpace(js, p);
    var minus := q < |js| && js[q] == '-';
    var d := if q < |js| && (js[q] == '-' || js[q] == '+') then q + 1 else q;
    var e := DigitsEnd(js, d);
    if e == d then Number(0, p)
    else
      var v := ValueOf(js[d..e]);
      Number(if v >= WORD then WORD - 1 else if minus then (WORD - v) % WORD else v, e)
  }

  /** An `unsigned long` stored in an `int`. */
  function ToInt32(u: int): (n: int)
    requires 0 <= u < WORD
    ensures Int32(n) && (n == u || n == u - WORD)
  {
    if u < HALF then u else u - WORD
  }

  // ------------------------------------------------------------ round trip

  /** The printed digits have the value printed, and no leading zero. */
  lemma {:induction false} DigitsValue(n: nat)
    ensures ValueOf(Digits(n)) == n && (Digits(n)[0] == '0' ==> n == 0 && Digits(n) == "0")
  {
    if n < 10 {
      assert [DigitChar(n)][..0] == "";
    } else {
      DigitsValue(n / 10);
      assert Digits(n)[..|Digits(n)| - 1] == Digits(n / 10);
    }
  }

  /** The digits end where the first character that is none stands. */
  lemma {:induction false} DigitsStop(js: string, p: nat, q: nat)
    requires p <= q <= |js| && (q == |js| || !IsDigit(js[q]))
    requires forall i :: p <= i < q ==> IsDigit(js[i])
    ensures DigitsEnd(js, p) == q
    decreases q - p
  {
    if p == q {
    } else {
      DigitsStop(js, p + 1, q);
    }
  }

  lemma ReadDigits(js: string, d: nat, e: nat, m: nat)
    requires d <= e <= |js| && js[d..e] == Digits(m) && (e < |js| ==> !IsDigit(js[e]))
    ensures d < e && IsDigit(js[d]) && DigitsEnd(js, d) == e && ValueOf(js[d..e]) == m
  {
    forall i | d <= i < e ensures IsDigit(js[i]) { assert js[i] == js[d..e][i - d]; }
    DigitsStop(js, d, e);
    DigitsValue(m);
  }

  lemma StrtoulMinus(js: string, p: nat, e: nat)
    requires p + 1 < e <= |js| && js[p] == '-' && DigitsEnd(js, p + 1) == e && ValueOf(js[p + 1..e]) <= HALF
    ensures ToInt32(Strtoul(js, p).value) + ValueOf(js[p + 1..e]) == 0 && Strtoul(js, p).endptr == e
  {
    hide DigitsEnd, ValueOf;
    var v := ValueOf(js[p + 1..e]);
    assert v > 0 ==> (WORD - v) % WORD == WORD - v;
  }

  lemma StrtoulPlain(js: string, p: nat, e: nat)
    requires p < e <= |js| && IsDigit(js[p]) && DigitsEnd(js, p) == e && ValueOf(js[p..e]) < HALF
    ensures ToInt32(Strtoul(js, p).value) == ValueOf(js[p..e]) && Strtoul(js, p).endptr == e
  {
  }

  /**
   Integer round trip: a printed 32-bit integer, followed by anything but a digit, is read back as
   itself, negative ones too, and reading stops exactly at its end.
   */
  lemma ReadShown(js: string, p: nat, n: int)
    requires Int32(n) && p + |Show(n)| <= |js| && js[p..p + |Show(n)|] == Show(n)
    requires p + |Show(n)| < |js| ==> !IsDigit(js[p + |Show(n)|])
    ensures ToInt32(Strtoul(js, p).value) == n && Strtoul(js, p).endptr == p + |Show(n)|
  {
    var s := Show(n);
    var e := p + |s|;
    if n < 0 {
      assert js[p] == js[p..e][0] == '-';
      assert js[p + 1..e] == js[p..e][1..] == Digits(-n);
      ReadDigits(js, p + 1, e, -n);
      StrtoulMinus(js, p, e);
    } else {
      ReadDigits(js, p, e, n);
      StrtoulPlain(js, p, e);
    }
  }

  /** What `json_tok_to_int` accepts, for text without leading blanks: an optional sign and digits. */
  lemma ReadExactly(js: string, p: nat, e: nat)
    requires p < e <= |js| && (e == |js| || !IsDigit(js[e])) && !IsSpace(js[p])
    ensures Strtoul(js, p).endptr == e <==>
            var d := if js[p] == '-' || js[p] == '+' then p + 1 else p;
            d < e && forall i :: d <= i < e ==> IsDigit(js[i])
  {
    var d := if js[p] == '-' || js[p] == '+' then p + 1 else p;
    if d < e && forall i :: d <= i < e ==> IsDigit(js[i]) { DigitsStop(js, d, e); }
  }

  /**
   The value that is read then: the number modulo 2^32 as an `int`, or -1 when its digits do not fit in
   32 bits.
   */
  lemma ReadValue(js: string, p: nat, e: nat)
    requires p < e <= |js| && !IsSpace(js[p]) && Strtoul(js, p).endptr == e
    ensures var d := if js[p] == '-' || js[p] == '+' then p + 1 else p;
            && d < e && (forall i :: 0 <= i < e - d ==> IsDigit(js[d..e][i]))
            && var v, n := ValueOf(js[d..e]), ToInt32(Strtoul(js, p).value);
               if v >= WORD then n == -1 else (if js[p] == '-' then n + v else n - v) % WORD == 0
  {
  }
}
