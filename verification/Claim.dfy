/**
 esp_rmaker_claim.c: the newlines of a PEM text travel inside JSON strings as a backslash and an n.
 `EscapeNewLine` and `UnescapeNewLine` rewrite character buffers in place, as the source does;
 `Escape` and `Unescape` say what they compute.
 */
module Claim {
  import opened CStrings

  const MAX_CSR_SIZE := 1024
  const MAX_PAYLOAD_SIZE := 3072

  // ------------------------------------------------------------ on strings

  /** One newline at the end is dropped. */
  function Strip(t: string): string {
    if t != "" && t[|t| - 1] == '\n' then t[..|t| - 1] else t
  }

  function Escape(t: string): (e: string)
    ensures |t| <= |e| <= 2 * |t|
  {
    if t == "" then "" else (if t[0] == '\n' then "\\n" else [t[0]]) + Escape(t[1..])
  }

  /** A backslash goes, a newline replaces an n behind it, and then one character is copied unseen. */
  function Unescape(t: string): (u: string)
    ensures |u| <= |t|
  {
    if t == "" then ""
    else if t[0] != '\\' then [t[0]] + Unescape(t[1..])
    else if |t| == 1 then ""
    else if t[1] != 'n' then [t[1]] + Unescape(t[2..])
    else if |t| == 2 then "\n"
    else "\n" + [t[2]] + Unescape(t[3..])
  }

  /** The character copied unseen is the terminator: the walk ends one cell behind it. */
  predicate Overruns(t: string) {
    if t == "" then false
    else if t[0] != '\\' then Overruns(t[1..])
    else if |t| == 1 then true
    else if t[1] != 'n' then Overruns(t[2..])
    else if |t| == 2 then true
    else Overruns(t[3..])
  }

  /** No newline directly behind a newline, and no backslash except directly behind a newline. */
  predicate SingleBreaks(u: string) {
    forall i :: 0 <= i < |u| ==> BreakOk(u, i)
  }

  predicate BreakOk(u: string, i: nat)
    requires i < |u|
  {
    && (u[i] == '\n' ==> i == 0 || u[i - 1] != '\n')
    && (u[i] == '\\' ==> i > 0 && u[i - 1] == '\n')
  }

  lemma SingleBreaksSplit(u: string, n: nat)
    requires 0 < n <= |u| && u[n - 1] != '\n'
    ensures SingleBreaks(u) <==> SingleBreaks(u[..n]) && SingleBreaks(u[n..])
  {
    assert forall i :: 0 <= i < n ==> BreakOk(u[..n], i) == BreakOk(u, i);
    forall i | 0 <= i < |u| - n
      ensures BreakOk(u[n..], i) == BreakOk(u, n + i)
    {
      assert u[n..][i] == u[n + i];
      assert i > 0 ==> u[n..][i - 1] == u[n + i - 1];
    }
    if SingleBreaks(u[n..]) {
      forall i | n <= i < |u| ensures BreakOk(u, i) { assert BreakOk(u[n..], i - n); }
    }
  }

  function Backslashes(k: nat): (s: string)
    ensures |s| == k && forall i :: 0 <= i < k ==> s[i] == '\\'
  {
    seq(k, i => '\\')
  }

  lemma TwoBackslashes(w: string)
    requires |w| > 1 && w[0] == '\\' && w[1] == '\\'
    ensures Unescape(Escape(w)) == "\\" + Unescape(Escape(w[2..]))
  {
    var e := Escape(w);
    assert e == "\\" + Escape(w[1..]) && e[1..] == Escape(w[1..]);
    assert w[1..][1..] == w[2..] && Escape(w[1..])[1..] == Escape(w[2..]);
    assert e[1] == '\\' && e[2..] == Escape(w[2..]);
  }

  /** What a backslash in front of another character comes back as. */
  lemma LoneBackslash(w: string)
    requires w != "" && w[0] == '\\' && (|w| > 1 ==> w[1] != '\\')
    ensures var r := Unescape(Escape(w));
            r == "" || r[0] != '\\' || (|w| > 1 && w[1] == '\n' && |r| > 1 && r[1] == 'n')
  {
    var e := Escape(w);
    if |w| > 1 {
      assert e == "\\" + Escape(w[1..]) && e[1..] == Escape(w[1..]);
      if w[1] == '\n' {
        assert e[1] == '\\' && e[2] == 'n';
        assert Unescape(e)[0] == '\\' && Unescape(e)[1] == 'n';
      } else {
        assert e[1] == w[1];
      }
    }
  }

  lemma OtherHead(w: string)
    requires w == "" || w[0] != '\\'
    ensures var r := Unescape(Escape(w)); r == "" || r[0] != '\\'
  {
    if w != "" && w[0] == '\n' { assert Escape(w)[0] == '\\' && Escape(w)[1] == 'n'; }
  }

  /** Once a backslash was lost, nothing later makes up for it. */
  lemma {:induction false} NeverCatchesUp(k: nat, w: string)
    requires k >= 1 || (w != "" && w[0] == '\\')
    ensures Unescape(Escape(w)) != Backslashes(k) + w
    decreases |w|
  {
    hide Escape, Unescape;
    var all := Backslashes(k) + w;
    assert all != "" && all[0] == '\\';
    if w == "" || w[0] != '\\' {
      OtherHead(w);
    } else if |w| == 1 || w[1] != '\\' {
      LoneBackslash(w);
      assert |w| > 1 && w[1] == '\n' ==> all[1] != 'n';
    } else {
      TwoBackslashes(w);
      NeverCatchesUp(k + 1, w[2..]);
      var got, wanted := Unescape(Escape(w[2..])), Backslashes(k + 1) + w[2..];
      assert all == "\\" + wanted;
      assert ("\\" + got)[1..] == got && ("\\" + wanted)[1..] == wanted;
    }
  }

  lemma PlainHead(u: string)
    requires u != "" && u[0] != '\n' && u[0] != '\\'
    ensures Unescape(Escape(u)) == u <==> Unescape(Escape(u[1..])) == u[1..]
  {
    var e := Escape(u);
    assert e[0] == u[0] && e[1..] == Escape(u[1..]);
    assert Unescape(e)[0] == u[0] && Unescape(e)[1..] == Unescape(e[1..]);
    assert u == [u[0]] + u[1..];
  }

  lemma NewlineHead(u: string)
    requires |u| > 1 && u[0] == '\n'
    ensures Unescape(Escape(u)) == u <==> u[1] != '\n' && Unescape(Escape(u[2..])) == u[2..]
  {
    var e := Escape(u);
    assert e == "\\n" + Escape(u[1..]);
    assert e[0] == '\\' && e[1] == 'n' && e[2..] == Escape(u[1..]);
    if u[1] == '\n' {
      assert e[2] == '\\';
      assert Unescape(e)[1] == '\\';
    } else {
      assert e[2] == u[1] && u[1..][1..] == u[2..] && e[3..] == Escape(u[2..]);
      assert Unescape(e) == "\n" + [u[1]] + Unescape(e[3..]);
      assert Unescape(e)[2..] == Unescape(e[3..]);
      assert u == "\n" + [u[1]] + u[2..];
    }
  }

  /**
   The round trip, exactly: decoding an encoded text gives it back if and only if the text has no two
   newlines in a row and no backslash other than directly behind a newline.
   */
  lemma {:induction false} RoundTripExactly(u: string)
    ensures Unescape(Escape(u)) == u <==> SingleBreaks(u)
    decreases |u|
  {
    if u == "" {
    } else if u[0] == '\\' {
      hide Escape, Unescape;
      assert !BreakOk(u, 0);
      NeverCatchesUp(0, u);
      assert Backslashes(0) + u == u;
    } else if u[0] != '\n' {
      hide Escape, Unescape;
      PlainHead(u);
      RoundTripExactly(u[1..]);
      SingleBreaksSplit(u, 1);
      assert BreakOk(u[..1], 0);
    } else if |u| > 1 {
      hide Escape, Unescape;
      NewlineHead(u);
      if u[1] == '\n' {
        assert !BreakOk(u, 1);
      } else {
        RoundTripExactly(u[2..]);
        SingleBreaksSplit(u, 2);
        assert BreakOk(u[..2], 0) && BreakOk(u[..2], 1);
      }
    }
  }

  /** A text without backslashes survives exactly when no two newlines stand together. */
  lemma PlainTextRoundTrip(t: string)
    requires '\\' !in t
    ensures var u := Strip(t);
            Unescape(Escape(u)) == u <==> forall i :: 0 < i < |u| ==> !(u[i - 1] == '\n' && u[i] == '\n')
  {
    var u := Strip(t);
    RoundTripExactly(u);
    assert forall i :: 0 <= i < |u| ==> u[i] in t;
    assert forall i :: 0 <= i < |u| ==> BreakOk(u, i) == (u[i] == '\n' ==> i == 0 || u[i - 1] != '\n');
  }

  /** Two newlines in a row come back as a newline, a backslash and an n; and no decoder could do better. */
  lemma AdjacentNewlines()
    ensures Unescape(Escape("a\n\nb")) == "a\n\\nb"
    ensures Escape("\n\n") == Escape("\n\\n")
  {
    assert Escape("a\n\nb") == "a\\n\\nb" by {
      assert "a\n\nb"[1..] == "\n\nb";
      assert "\n\nb"[1..] == "\nb";
      assert "\nb"[1..] == "b";
    }
    assert "a\\n\\nb"[1..] == "\\n\\nb";
    assert "\\n\\nb"[3..] == "nb";
    assert "nb"[1..] == "b";
  }

  lemma EscapePlain(a: string)
    requires '\n' !in a
    ensures Escape(a) == a
  {
    if a == "" {
    } else {
      assert '\n' !in a[1..] && a == [a[0]] + a[1..];
      EscapePlain(a[1..]);
    }
  }

  lemma EscapeConcat(a: string, b: string)
    ensures Escape(a + b) == Escape(a) + Escape(b)
  {
    if a == "" {
      assert a + b == b;
    } else {
      assert (a + b)[0] == a[0] && (a + b)[1..] == a[1..] + b;
      EscapeConcat(a[1..], b);
    }
  }

  /** What encoding does to a text, line by line: a backslash and an n for each newline, and nothing else. */
  lemma EscapeMeans(line: string, rest: string)
    requires '\n' !in line
    ensures Escape(line) == line && Escape(line + "\n" + rest) == line + "\\n" + Escape(rest)
    ensures Strip(line + "\n") == Strip(line) == line
  {
    EscapePlain(line);
    EscapeConcat(line + "\n", rest);
    EscapeConcat(line, "\n");
    assert Escape("\n") == "\\n" by { assert "\n"[1..] == ""; }
    assert (line + "\n")[..|line|] == line;
  }

  // ------------------------------------------------------------- on buffers

  lemma EscapeSnoc(a: string, c: char)
    ensures Escape(a + [c]) == Escape(a) + if c == '\n' then "\\n" else [c]
  {
    if a == "" {
      assert [c][1..] == "";
    } else {
      var w := a + [c];
      assert w[0] == a[0] && w[1..] == a[1..] + [c];
      var head := if a[0] == '\n' then "\\n" else [a[0]];
      assert Escape(w) == head + Escape(w[1..]) && Escape(a) == head + Escape(a[1..]);
      hide Escape;
      EscapeSnoc(a[1..], c);
    }
  }

  lemma EscapeNoNul(a: string)
    requires NoNul(a)
    ensures NoNul(Escape(a))
  {
    if a == "" {
    } else {
      assert forall i :: 0 <= i < |a| - 1 ==> a[1..][i] == a[i + 1];
      EscapeNoNul(a[1..]);
    }
  }

  method StrLen(a: array<char>, ghost t: string) returns (n: nat)
    requires Holds(a, t)
    ensures n == |t|
  {
    n := 0;
    assert forall i :: 0 <= i < |t| ==> a[i] == t[i];
    while a[n] != '\0'
      invariant n <= |t|
      decreases |t| - n
    {
      n := n + 1;
    }
  }

  /** `strcpy`. */
  method StrCpy(dst: array<char>, src: array<char>, ghost t: string)
    requires dst != src && Holds(src, t) && |t| < dst.Length
    modifies dst
    ensures Holds(dst, t) && forall i :: |t| < i < dst.Length ==> dst[i] == old(dst[i])
  {
    var n := StrLen(src, t);
    forall i | 0 <= i <= n { dst[i] := src[i]; }
  }

  /** The expanding loop, from one buffer into another that is zero. */
  method Expand(src: array<char>, dst: array<char>, ghost u: string)
    requires src != dst && Holds(src, u) && 2 * |u| < dst.Length
    requires forall i :: 0 <= i < dst.Length ==> dst[i] == '\0'
    modifies dst
    ensures Holds(dst, Escape(u)) && forall i :: |Escape(u)| <= i < dst.Length ==> dst[i] == '\0'
  {
    var str, target := 0, 0;
    assert forall i :: 0 <= i < |u| ==> src[i] == u[i];
    while src[str] != '\0'
      invariant str <= |u| && target == |Escape(u[..str])|
      invariant dst[..target] == Escape(u[..str])
      invariant forall i :: target <= i < dst.Length ==> dst[i] == '\0'
      decreases |u| - str
    {
      assert u[..str + 1] == u[..str] + [u[str]];
      EscapeSnoc(u[..str], u[str]);
      hide Escape;
      if src[str] == '\n' {
        dst[target] := '\\';
        dst[target + 1] := 'n';
        target, str := target + 2, str + 1;
        continue;
      }
      dst[target] := src[str];
      target, str := target + 1, str + 1;
    }
    assert u[..str] == u;
    dst[target] := '\0';
    EscapeNoNul(u);
  }

  /**
   `escape_new_line`. The payload buffer is always large enough. It goes on only while the source stays
   inside its buffers: `inside` is false for an empty text, where the source reads the cell before it,
   and for an encoding that does not fit the CSR buffer, where the source copies it back all the same.
   */
  method EscapeNewLine(csr: array<char>, payload: array<char>, ghost t: string) returns (inside: bool)
    requires csr.Length == MAX_CSR_SIZE && payload.Length == MAX_PAYLOAD_SIZE && csr != payload
    requires Holds(csr, t)
    modifies csr, payload
    ensures inside == (t != "" && |Escape(Strip(t))| < MAX_CSR_SIZE)
    ensures Holds(payload, Escape(Strip(t)))
    ensures forall i :: |Escape(Strip(t))| <= i < payload.Length ==> payload[i] == '\0'
    ensures Holds(csr, if inside then Escape(Strip(t)) else Strip(t))
    ensures forall i :: (if inside then |Escape(Strip(t))| else |t|) < i < csr.Length ==> csr[i] == old(csr[i])
  {
    ghost var u := Strip(t);
    assert u == "" ==> Escape(u) == "";
    hide Escape, CString;
    forall i | 0 <= i < payload.Length { payload[i] := '\0'; }
    var n := StrLen(csr, t);
    if n == 0 { return false; }
    assert csr[n - 1] == t[n - 1];
    if csr[n - 1] == '\n' { csr[n - 1] := '\0'; }
    Expand(csr, payload, u);
    var size := StrLen(payload, Escape(u));
    if size >= csr.Length { return false; }
    EscapeLonger(u);
    StrCpy(csr, payload, Escape(u));
    return true;
  }

  lemma EscapeLonger(u: string)
    ensures |u| <= |Escape(u)|
  {
  }

  lemma UnescapeNoNul(t: string)
    requires NoNul(t)
    ensures NoNul(Unescape(t))
  {
    if t == "" {
    } else {
      var n := if t[0] != '\\' || |t| == 1 then 1 else if t[1] != 'n' || |t| == 2 then 2 else 3;
      assert forall i :: 0 <= i < |t| - n ==> t[n..][i] == t[n + i];
      UnescapeNoNul(t[n..]);
    }
  }

  datatype Decoded = Decoded(put: string, next: nat)

  /** One round of the decoding loop at `r`: what it writes and where it goes on. */
  function RoundAt(t: string, r: nat): Decoded
    requires r < |t|
  {
    if t[r] != '\\' then Decoded([t[r]], r + 1)
    else if r + 1 == |t| then Decoded("\0", r + 2)
    else if t[r + 1] != 'n' then Decoded([t[r + 1]], r + 2)
    else if r + 2 == |t| then Decoded("\n\0", r + 3)
    else Decoded("\n" + [t[r + 2]], r + 3)
  }

  lemma UnescapeFrom(t: string, r: nat)
    requires r < |t|
    ensures var d := RoundAt(t, r);
            if d.next <= |t|
            then Unescape(t[r..]) == d.put + Unescape(t[d.next..]) && Overruns(t[r..]) == Overruns(t[d.next..])
            else d.next == |t| + 1 && d.put == Unescape(t[r..]) + "\0" && Overruns(t[r..])
  {
    assert t[r..][0] == t[r] && t[r..][1..] == t[r + 1..];
    if r + 1 < |t| { assert t[r..][1] == t[r + 1] && t[r..][2..] == t[r + 2..]; }
    if r + 2 < |t| { assert t[r..][2] == t[r + 2] && t[r..][3..] == t[r + 3..]; }
  }

  // ------------------------------------------------ what decoding comes to

  /**
   The character at `i` is a backslash that goes: one that is neither behind such a backslash nor behind
   the n of one.
   */
  predicate Marks(t: string, i: nat)
    requires i < |t|
    decreases i
  {
    && t[i] == '\\'
    && !(i >= 1 && Marks(t, i - 1))
    && !(i >= 2 && t[i - 1] == 'n' && Marks(t, i - 2))
  }

  /** What the character at `i` comes to. */
  function Comes(t: string, i: nat): string
    requires i < |t|
  {
    if Marks(t, i) then "" else if i >= 1 && Marks(t, i - 1) && t[i] == 'n' then "\n" else [t[i]]
  }

  function Kept(t: string, n: nat): string
    requires n <= |t|
  {
    if n == 0 then "" else Kept(t, n - 1) + Comes(t, n - 1)
  }

  /** A round of decoding can start at `r`. */
  predicate Unmarked(t: string, r: nat)
    requires r <= |t|
  {
    !(r >= 1 && Marks(t, r - 1)) && !(r >= 2 && t[r - 1] == 'n' && Marks(t, r - 2))
  }

  // One character at a time, from where a round can start: a plain one, a mark, and what is behind it.

  lemma PlainAt(t: string, r: nat)
    requires r < |t| && Unmarked(t, r) && t[r] != '\\'
    ensures Unmarked(t, r + 1) && Kept(t, r + 1) == Kept(t, r) + [t[r]]
  {
    assert !Marks(t, r);
  }

  lemma MarkAt(t: string, r: nat)
    requires r < |t| && Unmarked(t, r) && t[r] == '\\'
    ensures Marks(t, r) && !Unmarked(t, r + 1) && Kept(t, r + 1) == Kept(t, r)
  {
  }

  lemma BehindMark(t: string, r: nat)
    requires r + 1 < |t| && Marks(t, r)
    ensures Kept(t, r + 2) == Kept(t, r + 1) + if t[r + 1] == 'n' then "\n" else [t[r + 1]]
    ensures Unmarked(t, r + 2) <==> t[r + 1] != 'n'
  {
    assert !Marks(t, r + 1);
  }

  lemma BehindName(t: string, r: nat)
    requires r + 2 < |t| && Marks(t, r) && t[r + 1] == 'n'
    ensures Unmarked(t, r + 3) && Kept(t, r + 3) == Kept(t, r + 2) + [t[r + 2]]
  {
    assert !Marks(t, r + 1) && !Marks(t, r + 2);
  }

  lemma RoundKeeps(t: string, r: nat)
    requires r < |t| && Unmarked(t, r)
    ensures var d := RoundAt(t, r);
            r < d.next &&
            if d.next <= |t| then Unmarked(t, d.next) && Kept(t, d.next) == Kept(t, r) + d.put
            else Kept(t, r) + d.put == Kept(t, |t|) + "\0" && !Unmarked(t, |t|)
  {
    hide Marks, Kept, Unmarked, Comes;
    if t[r] != '\\' {
      PlainAt(t, r);
    } else {
      MarkAt(t, r);
      if r + 1 < |t| {
        BehindMark(t, r);
        if t[r + 1] == 'n' && r + 2 < |t| { BehindName(t, r); }
      }
    }
  }

  lemma {:induction false} DecodingFrom(t: string, r: nat)
    requires r <= |t| && Unmarked(t, r)
    ensures Kept(t, r) + Unescape(t[r..]) == Kept(t, |t|) && (Overruns(t[r..]) <==> !Unmarked(t, |t|))
    decreases |t| - r
  {
    hide Unescape, Overruns, Kept, RoundAt, Unmarked;
    if r == |t| {
      assert t[r..] == "";
      UnescapeEmpty();
    } else {
      UnescapeFrom(t, r);
      RoundKeeps(t, r);
      var d := RoundAt(t, r);
      if d.next <= |t| {
        DecodingFrom(t, d.next);
        assert Kept(t, r) + (d.put + Unescape(t[d.next..])) == Kept(t, r) + d.put + Unescape(t[d.next..]);
      } else {
        assert Kept(t, r) + (Unescape(t[r..]) + "\0") == Kept(t, r) + Unescape(t[r..]) + "\0";
        assert (Kept(t, r) + Unescape(t[r..]) + "\0")[..|Kept(t, |t|)|] == Kept(t, |t|);
      }
    }
  }

  lemma UnescapeEmpty()
    ensures Unescape("") == "" && !Overruns("")
  {
  }

  /**
   What decoding does, character by character and for every text: the marking backslashes go, an n behind
   one becomes a newline, and all other characters are kept, in their order.
   */
  lemma DecodingMeans(t: string)
    ensures Unescape(t) == Kept(t, |t|)
  {
    hide Unescape;
    DecodingFrom(t, 0);
    assert t[0..] == t && Kept(t, 0) == "";
    assert "" + Unescape(t) == Unescape(t);
  }

  /** How an encoder may write a character: as it is, with a backslash before it, or as backslash and n. */
  datatype Way = Bare | Marked | Named

  predicate WayOk(u: string, ways: seq<Way>, i: nat)
    requires |ways| == |u| && i < |u|
  {
    var behind := i > 0 && ways[i - 1].Named?;
    match ways[i]
    case Bare => u[i] != '\\' || behind
    case Marked => u[i] != 'n' && !behind
    case Named => u[i] == '\n' && !behind
  }

  predicate WaysOk(u: string, ways: seq<Way>) {
    |ways| == |u| && forall i :: 0 <= i < |u| ==> WayOk(u, ways, i)
  }

  function Written(u: string, ways: seq<Way>): string
    requires |ways| == |u|
  {
    if u == "" then ""
    else (match ways[0] case Bare => [u[0]] case Marked => ['\\', u[0]] case Named => "\\n")
         + Written(u[1..], ways[1..])
  }

  lemma WaysTail(u: string, ways: seq<Way>, n: nat)
    requires WaysOk(u, ways) && 0 < n <= |u| && !ways[n - 1].Named?
    ensures WaysOk(u[n..], ways[n..])
  {
    forall i | 0 <= i < |u| - n ensures WayOk(u[n..], ways[n..], i) {
      assert WayOk(u, ways, n + i);
    }
  }

  /**
   Decoding undoes every encoder of this kind: each character bare unless it is a backslash, marked unless
   it is an n, a newline by name if it likes, and the character behind a newline so named always bare. JSON's
   own `\/` is one.
   */
  lemma {:induction false} DecodesWritten(u: string, ways: seq<Way>)
    requires WaysOk(u, ways)
    ensures Unescape(Written(u, ways)) == u
    decreases |u|
  {
    if u == "" {
    } else {
      assert WayOk(u, ways, 0);
      var w, rest := Written(u, ways), Written(u[1..], ways[1..]);
      match ways[0]
      case Bare =>
        assert w[0] == u[0] && w[1..] == rest;
        WaysTail(u, ways, 1);
        DecodesWritten(u[1..], ways[1..]);
      case Marked =>
        assert w[0] == '\\' && w[1] == u[0] && w[2..] == rest;
        WaysTail(u, ways, 1);
        DecodesWritten(u[1..], ways[1..]);
      case Named =>
        assert w[0] == '\\' && w[1] == 'n' && w[2..] == rest;
        if |u| == 1 {
          assert rest == "";
        } else {
          assert WayOk(u, ways, 1);
          var more := Written(u[1..][1..], ways[1..][1..]);
          assert u[1..][1..] == u[2..] && ways[1..][1..] == ways[2..];
          assert rest == [u[1]] + more && w[2] == u[1] && w[3..] == more;
          WaysTail(u, ways, 2);
          DecodesWritten(u[2..], ways[2..]);
          assert u == "\n" + [u[1]] + u[2..];
        }
    }
  }

  /** The state of the decoding loop; `over` once the walk has stepped past the terminator. */
  ghost predicate Decoding(done: string, str: nat, t: string, over: bool) {
    if over then str == |t| + 1 && done == Unescape(t) + "\0"
    else str <= |t| && done + Unescape(t[str..]) == Unescape(t) && Overruns(t[str..]) == Overruns(t)
  }

  lemma Regroup(a: string, b: string, c: string)
    ensures a + (b + c) == a + b + c
  {
  }

  lemma DecodingRound(done: string, str: nat, t: string)
    requires Decoding(done, str, t, false) && str < |t|
    ensures var d := RoundAt(t, str);
            Decoding(done + d.put, d.next, t, d.next > |t|) && (d.next > |t| ==> Overruns(t) && d.next == |t| + 1)
  {
    hide Overruns, Unescape, RoundAt;
    UnescapeFrom(t, str);
    var d := RoundAt(t, str);
    var here := Unescape(t[str..]);
    if d.next <= |t| {
      Regroup(done, d.put, Unescape(t[d.next..]));
      assert Decoding(done + d.put, d.next, t, false);
    } else {
      Regroup(done, here, "\0");
      assert Decoding(done + d.put, d.next, t, true);
    }
  }

  /** The body of the loop. */
  method DecodeOne(a: array<char>, at: nat, to: nat, ghost t: string) returns (str: nat, target: nat)
    requires to <= at < |t| < a.Length && a[|t|] == '\0' && forall i :: at <= i < |t| ==> a[i] == t[i]
    modifies a
    ensures str == RoundAt(t, at).next && target == to + |RoundAt(t, at).put|
    ensures target <= str && (str > |t| ==> target < str)
    ensures a[..target] == old(a[..to]) + RoundAt(t, at).put
    ensures forall i :: str <= i < a.Length ==> a[i] == old(a[i])
  {
    str, target := at, to;
    if a[str] == '\\' {
      str := str + 1;
      if a[str] == 'n' {
        a[target] := '\n';
        target, str := target + 1, str + 1;
      }
    }
    a[target] := a[str];
    target, str := target + 1, str + 1;
  }

  /**
   `unescape_new_line`, in place: the cell written never lies beyond the one read, nothing changes
   behind the text, and one more zero cell is needed just when the walk overruns the terminator.
   */
  method UnescapeNewLine(a: array<char>, ghost t: string)
    requires Holds(a, t)
    requires Overruns(t) ==> |t| + 1 < a.Length && a[|t| + 1] == '\0'
    modifies a
    ensures Holds(a, Unescape(t))
    ensures forall i :: |t| < i < a.Length ==> a[i] == old(a[i])
  {
    var str: nat, target: nat := 0, 0;
    ghost var over := false;
    ghost var was := a[..];
    assert forall i :: 0 <= i < |t| ==> was[i] == t[i];
    hide Unescape, Overruns, RoundAt;
    assert t[0..] == t && "" + Unescape(t) == Unescape(t);
    while a[str] != '\0'
      invariant target <= str < a.Length
      invariant if over then target < str && a[str] == '\0' else str <= |t|
      invariant Decoding(a[..target], str, t, over)
      invariant forall i :: str <= i < a.Length ==> a[i] == was[i]
      decreases a.Length - str
    {
      DecodingRound(a[..target], str, t);
      hide Decoding;
      str, target := DecodeOne(a, str, target, t);
      over := str > |t|;
    }
    DecodingEnds(a[..target], str, t, over);
    a[target] := '\0';
    UnescapeNoNul(t);
    hide Decoding;
  }

  lemma DecodingEnds(done: string, str: nat, t: string, over: bool)
    requires Decoding(done, str, t, over) && (over || str == |t|)
    ensures done == Unescape(t) + if over then "\0" else ""
  {
    assert t[|t|..] == "";
  }
}
