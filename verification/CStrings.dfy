/** NUL-terminated strings. */
module CStrings {
  predicate NoNul(s: string) {
    forall i :: 0 <= i < |s| ==> s[i] != '\0'
  }

  /** What a reader of a buffer sees: the characters before the first NUL. */
  function CString(s: string): string {
    if s == "" || s[0] == '\0' then "" else [s[0]] + CString(s[1..])
  }

  lemma {:induction false} CStringStops(s: string, n: nat)
    requires n < |s| && s[n] == '\0' && NoNul(s[..n])
    ensures CString(s) == s[..n]
  {
    if n == 0 {
    } else {
      assert s[0] == s[..n][0];
      assert s[1..][..n - 1] == s[..n][1..];
      CStringStops(s[1..], n - 1);
    }
  }

  /** The buffer holds the string `t`. */
  ghost predicate Holds(a: array<char>, t: string)
    reads a
  {
    |t| < a.Length && a[..|t|] == t && a[|t|] == '\0' && NoNul(t)
  }

  lemma HoldsIsRead(a: array<char>, t: string)
    requires Holds(a, t)
    ensures CString(a[..]) == t
  {
    assert a[..][..|t|] == t;
    CStringStops(a[..], |t|);
  }

  lemma {:induction false} CStringEnds(s: string)
    ensures var t := CString(s); |t| <= |s| && t == s[..|t|] && NoNul(t) && (|t| < |s| ==> s[|t|] == '\0')
    decreases |s|
  {
    if s == "" || s[0] == '\0' {
    } else {
      CStringEnds(s[1..]);
    }
  }

  lemma ReadIsHeld(a: array<char>, t: string)
    requires CString(a[..]) == t && |t| < a.Length
    ensures Holds(a, t)
  {
    CStringEnds(a[..]);
    assert a[..|t|] == a[..][..|t|];
  }
}
