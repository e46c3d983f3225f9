/**
 What it means for a token array to be a preorder numbering of an ordered forest, and the
 facts about such arrays that the tree-walking functions of json_parser.c rely on.
 Only the parent links matter here.
 */
module Forest {
  import opened Jsmn

  /** `a` is `i` or one of its ancestors; nothing is an ancestor of -1. */
  ghost predicate Anc(toks: seq<Token>, a: int, i: int)
    requires ParentsOk(toks) && -1 <= i < |toks|
    decreases i
  {
    i != -1 && (a == i || Anc(toks, a, toks[i].parent))
  }

  /** Token `k` starts a new tree or hangs below a token on the ancestor chain of the one before it. */
  ghost predicate Follows(toks: seq<Token>, k: nat)
    requires ParentsOk(toks) && 0 < k < |toks|
  {
    toks[k].parent == -1 || Anc(toks, toks[k].parent, k - 1)
  }

  ghost predicate Preorder(toks: seq<Token>) {
    ParentsOk(toks) && forall k {:trigger Follows(toks, k)} :: 0 < k < |toks| ==> Follows(toks, k)
  }

  /** The children of `p`, in order. */
  ghost function Kids(toks: seq<Token>, p: int): (ks: seq<nat>)
    ensures forall n :: 0 <= n < |ks| ==> ks[n] < |toks|
  {
    if toks == [] then []
    else
      var n := |toks| - 1;
      Kids(toks[..n], p) + if toks[n].parent == p then [n] else []
  }

  /** The last token at or below `hi` in the subtree of `i`. */
  ghost function LastUpTo(toks: seq<Token>, i: nat, hi: nat): (r: nat)
    requires ParentsOk(toks) && i <= hi < |toks|
    ensures i <= r <= hi && Anc(toks, i, r)
    ensures forall k :: r < k <= hi ==> !Anc(toks, i, k)
  {
    if Anc(toks, i, hi) then hi else LastUpTo(toks, i, hi - 1)
  }

  /** The last token of the subtree of `i`. */
  ghost function Last(toks: seq<Token>, i: nat): (r: nat)
    requires ParentsOk(toks) && i < |toks|
    ensures i <= r < |toks| && Anc(toks, i, r)
    ensures forall k :: r < k < |toks| ==> !Anc(toks, i, k)
  {
    LastUpTo(toks, i, |toks| - 1)
  }

  // ------------------------------------------------------------ ancestors

  lemma {:induction false} AncRange(toks: seq<Token>, a: int, i: int)
    requires ParentsOk(toks) && -1 <= i < |toks| && Anc(toks, a, i)
    ensures 0 <= a <= i
    decreases i
  {
    if a == i {
    } else {
      AncRange(toks, a, toks[i].parent);
    }
  }

  lemma {:induction false} AncTrans(toks: seq<Token>, a: int, b: int, c: int)
    requires ParentsOk(toks) && -1 <= b < |toks| && -1 <= c < |toks|
    requires Anc(toks, a, b) && Anc(toks, b, c)
    ensures Anc(toks, a, c)
    decreases c
  {
    if b == c {
    } else {
      AncTrans(toks, a, b, toks[c].parent);
    }
  }

  /** The ancestors of one token form a chain. */
  lemma {:induction false} AncChain(toks: seq<Token>, a: int, b: int, i: int)
    requires ParentsOk(toks) && -1 <= i < |toks| && -1 <= b < |toks|
    requires Anc(toks, a, i) && Anc(toks, b, i) && a <= b
    ensures Anc(toks, a, b)
    decreases i
  {
    if b == i {
    } else {
      AncRange(toks, b, i);
      AncChain(toks, a, b, toks[i].parent);
    }
  }

  /** Ancestry below `i` depends on the parent links up to `i` alone. */
  lemma {:induction false} AncSame(t1: seq<Token>, t2: seq<Token>, a: int, i: int)
    requires ParentsOk(t1) && ParentsOk(t2) && -1 <= i < |t1| && i < |t2|
    requires forall k :: 0 <= k <= i ==> t1[k].parent == t2[k].parent
    ensures Anc(t1, a, i) == Anc(t2, a, i)
    decreases i
  {
    if i == -1 {
    } else {
      AncSame(t1, t2, a, t1[i].parent);
    }
  }

  /** In a preorder numbering, a subtree is an interval. */
  lemma {:induction false} Interval(toks: seq<Token>, a: int, k: int, i: int)
    requires Preorder(toks) && -1 <= i < |toks| && Anc(toks, a, i) && 0 <= a <= k <= i
    ensures Anc(toks, a, k)
    decreases i
  {
    if k == i {
    } else {
      assert Follows(toks, i);
      AncTrans(toks, a, toks[i].parent, i - 1);
      Interval(toks, a, k, i - 1);
    }
  }

  // ------------------------------------------------------------- children

  lemma {:induction false} KidsSame(t1: seq<Token>, t2: seq<Token>, p: int)
    requires |t1| == |t2|
    requires forall k :: 0 <= k < |t1| ==> t1[k].parent == t2[k].parent
    ensures Kids(t1, p) == Kids(t2, p)
  {
    if t1 == [] {
    } else {
      KidsSame(t1[..|t1| - 1], t2[..|t2| - 1], p);
    }
  }

  lemma KidsAppend(toks: seq<Token>, t: Token, p: int)
    ensures Kids(toks + [t], p) == Kids(toks, p) + if t.parent == p then [|toks|] else []
  {
    assert (toks + [t])[..|toks|] == toks;
  }

  /** They are exactly the tokens whose parent is `p`, each once. */
  lemma {:induction false} KidsFacts(toks: seq<Token>, p: int)
    ensures var ks := Kids(toks, p);
            && (forall n :: 0 <= n < |ks| ==> ks[n] < |toks| && toks[ks[n]].parent == p)
            && (forall m, n :: 0 <= m < n < |ks| ==> ks[m] < ks[n])
            && (forall k :: 0 <= k < |toks| && toks[k].parent == p ==> k in ks)
  {
    if toks == [] {
    } else {
      var n := |toks| - 1;
      var older: seq<nat>, last: seq<nat> := Kids(toks[..n], p), if toks[n].parent == p then [n] else [];
      assert Kids(toks, p) == older + last;
      hide Kids;
      KidsFacts(toks[..n], p);
      assert forall k :: 0 <= k < n ==> toks[k] == toks[..n][k];
      forall m | 0 <= m < |older + last|
        ensures (older + last)[m] < |toks| && toks[(older + last)[m]].parent == p
        ensures m < |older| ==> (older + last)[m] == older[m] < n
      {
        if m < |older| { assert older[m] < n; } else { assert last == [n]; }
      }
      forall k | 0 <= k < |toks| && toks[k].parent == p ensures k in older + last {
        if k == n { assert n in last; } else { assert k in older; }
      }
    }
  }

  lemma NoKids(toks: seq<Token>, p: int)
    requires forall k :: 0 <= k < |toks| ==> toks[k].parent != p
    ensures Kids(toks, p) == []
  {
    KidsFacts(toks, p);
  }

  /** The token right after a subtree, when it is still below `p`, is a child of `p`. */
  lemma AfterSubtree(toks: seq<Token>, p: nat, c: nat)
    requires Preorder(toks) && p < c < |toks| && toks[c].parent == p
    requires Last(toks, c) + 1 < |toks| && Anc(toks, p, Last(toks, c) + 1)
    ensures toks[Last(toks, c) + 1].parent == p
  {
    var j := Last(toks, c);
    var q := toks[j + 1].parent;
    AncRange(toks, p, q);
    assert Follows(toks, j + 1);
    if q >= c {
      AncChain(toks, c, q, j);
      assert Anc(toks, c, j + 1);
      assert false;
    } else {
      AncChain(toks, q, c, j);
      assert Anc(toks, q, p);
      AncRange(toks, q, p);
    }
  }

  /** The first child comes right after its parent. */
  lemma FirstKid(toks: seq<Token>, p: nat)
    requires Preorder(toks) && p < |toks| && Kids(toks, p) != []
    ensures Kids(toks, p)[0] == p + 1
  {
    KidsFacts(toks, p);
    var ks := Kids(toks, p);
    Interval(toks, p, p + 1, ks[0]);
    AncRange(toks, p, toks[p + 1].parent);
  }

  /** A later sibling lies beyond the whole subtree of an earlier one. */
  lemma SiblingBeyond(toks: seq<Token>, p: nat, c: nat, d: nat)
    requires Preorder(toks) && p < c < d < |toks|
    requires toks[c].parent == p && toks[d].parent == p
    ensures Last(toks, c) < d
  {
    if d <= Last(toks, c) {
      Interval(toks, c, d, Last(toks, c));
      AncRange(toks, c, p);
      assert false;
    }
  }

  /** The token after the subtree of `c` is the next child of `p`, when there is one. */
  lemma NextSibling(toks: seq<Token>, p: nat, c: nat, d: nat)
    requires Preorder(toks) && p < c < d < |toks|
    requires toks[c].parent == p && Anc(toks, p, d) && Last(toks, c) < d
    ensures toks[Last(toks, c) + 1].parent == p
  {
    Interval(toks, p, Last(toks, c) + 1, d);
    AfterSubtree(toks, p, c);
  }

  /** Each later child comes right after the subtree of the one before it. */
  lemma NextKid(toks: seq<Token>, p: nat, n: nat)
    requires Preorder(toks) && p < |toks| && n + 1 < |Kids(toks, p)|
    ensures Kids(toks, p)[n + 1] == Last(toks, Kids(toks, p)[n]) + 1
  {
    KidsFacts(toks, p);
    var ks := Kids(toks, p);
    var c, d := ks[n], ks[n + 1];
    assert Anc(toks, p, p);
    assert Anc(toks, p, d);
    SiblingBeyond(toks, p, c, d);
    NextSibling(toks, p, c, d);
    BetweenKids(ks, n, Last(toks, c) + 1);
  }

  lemma BetweenKids(ks: seq<nat>, n: nat, e: nat)
    requires n + 1 < |ks| && e in ks && ks[n] < e <= ks[n + 1]
    requires forall i, j :: 0 <= i < j < |ks| ==> ks[i] < ks[j]
    ensures e == ks[n + 1]
  {
    var m :| 0 <= m < |ks| && ks[m] == e;
  }

  lemma LastOfLeaf(toks: seq<Token>, p: nat)
    requires Preorder(toks) && p < |toks| && Kids(toks, p) == []
    ensures Last(toks, p) == p
  {
    KidsFacts(toks, p);
    if p < Last(toks, p) {
      Interval(toks, p, p + 1, Last(toks, p));
      AncRange(toks, p, toks[p + 1].parent);
      assert false;
    }
  }

  /** A subtree ends where the subtree of its last child ends. */
  lemma LastOfKids(toks: seq<Token>, p: nat)
    requires Preorder(toks) && p < |toks| && Kids(toks, p) != []
    ensures var ks := Kids(toks, p); Last(toks, p) == Last(toks, ks[|ks| - 1])
  {
    KidsFacts(toks, p);
    var ks := Kids(toks, p);
    var c := ks[|ks| - 1];
    assert Anc(toks, p, p);
    assert Anc(toks, p, c);
    var j, e := Last(toks, c), Last(toks, p);
    AncTrans(toks, p, c, j);
    if j < e {
      var f: nat := j + 1;
      NextSibling(toks, p, c, e);
      BeyondLast(ks, f);
    }
  }

  lemma BeyondLast(ks: seq<nat>, e: nat)
    requires ks != [] && e in ks
    requires forall i, j :: 0 <= i < j < |ks| ==> ks[i] < ks[j]
    ensures e <= ks[|ks| - 1]
  {
    var m :| 0 <= m < |ks| && ks[m] == e;
  }
}
