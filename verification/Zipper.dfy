/**
 Navigation of a parsed text refines a zipper over its tree: searching finds the first member with a
 name or the item with a number, entering descends, and leaving undoes it.
 */
module Zipper {
  import opened Jsmn
  import opened Forest
  import opened Resume
  import opened Options
  import opened JsonTree
  import opened RoundTrip
  import opened Navigation
  import JsmnInvariant
  import Decimal

  // --------------------------------------------------- values inside the array

  /** The value `v` stands in the text at `at` and in the array at `idx`. */
  ghost predicate Sits(js: string, toks: seq<Token>, v: Value, at: nat, idx: nat, parent: int) {
    && Occurs(js, at, Print(v))
    && idx + Size(v) <= |toks| && toks[idx..idx + Size(v)] == Encode(v, at, idx, parent)
  }

  ghost predicate SitsMembers(js: string, toks: seq<Token>, ms: Members, at: nat, k: nat, o: int) {
    && (ms.Member? ==> Occurs(js, at, PrintMembers(ms)))
    && k + SizeMembers(ms) <= |toks| && toks[k..k + SizeMembers(ms)] == EncodeMembers(ms, at, k, o)
  }

  ghost predicate SitsItems(js: string, toks: seq<Token>, xs: Items, at: nat, k: nat, o: int) {
    && (xs.Item? ==> Occurs(js, at, PrintItems(xs)))
    && k + SizeItems(xs) <= |toks| && toks[k..k + SizeItems(xs)] == EncodeItems(xs, at, k, o)
  }

  /** Cutting a stretch of the array in three. */
  lemma Stretch(toks: seq<Token>, k: nat, a: seq<Token>, b: seq<Token>, c: seq<Token>)
    requires k + |a| + |b| + |c| <= |toks| && toks[k..k + |a| + |b| + |c|] == a + b + c
    ensures toks[k..k + |a|] == a && toks[k + |a|..k + |a| + |b|] == b
    ensures toks[k + |a| + |b|..k + |a| + |b| + |c|] == c
  {
    var w := toks[k..k + |a| + |b| + |c|];
    assert w[..|a|] == a && w[|a|..|a| + |b|] == b && w[|a| + |b|..] == c;
    SliceOfSlice(toks, k, |w|, 0, |a|);
    SliceOfSlice(toks, k, |w|, |a|, |a| + |b|);
    SliceOfSlice(toks, k, |w|, |a| + |b|, |w|);
  }

  lemma SliceOfSlice<T>(s: seq<T>, k: nat, n: nat, i: nat, j: nat)
    requires i <= j <= n && k + n <= |s|
    ensures s[k..k + n][i..j] == s[k + i..k + j]
  {
    var a, b := s[k..k + n][i..j], s[k + i..k + j];
    forall m | 0 <= m < |a| ensures a[m] == b[m] {
      assert a[m] == s[k..k + n][i + m] == s[k + (i + m)];
    }
  }

  lemma SitsObject(js: string, toks: seq<Token>, v: Value, at: nat, idx: nat, parent: int)
    requires v.Obj? && Sits(js, toks, v, at, idx, parent)
    ensures toks[idx] == Token(Object, at, at + |Print(v)|, CountMembers(v.members), parent)
    ensures SitsMembers(js, toks, v.members, at + 1 + |v.pad|, idx + 1, idx)
  {
    hide Occurs, PrintMembers, EncodeMembers, SizeMembers, CountMembers;
    var head := Token(Object, at, at + |Print(v)|, CountMembers(v.members), parent);
    var body := EncodeMembers(v.members, at + 1 + |v.pad|, idx + 1, idx);
    assert [head] + body + [] == [head] + body;
    Stretch(toks, idx, [head], body, []);
    assert toks[idx..idx + 1][0] == toks[idx];
    OccursSplit(js, at, "{" + v.pad + PrintMembers(v.members), "}");
    OccursSplit(js, at, "{" + v.pad, PrintMembers(v.members));
  }

  lemma SitsArray(js: string, toks: seq<Token>, v: Value, at: nat, idx: nat, parent: int)
    requires v.Arr? && Sits(js, toks, v, at, idx, parent)
    ensures toks[idx] == Token(Array, at, at + |Print(v)|, CountItems(v.items), parent)
    ensures SitsItems(js, toks, v.items, at + 1 + |v.pad|, idx + 1, idx)
  {
    hide Occurs, PrintItems, EncodeItems, SizeItems, CountItems;
    var head := Token(Array, at, at + |Print(v)|, CountItems(v.items), parent);
    var body := EncodeItems(v.items, at + 1 + |v.pad|, idx + 1, idx);
    assert [head] + body + [] == [head] + body;
    Stretch(toks, idx, [head], body, []);
    assert toks[idx..idx + 1][0] == toks[idx];
    OccursSplit(js, at, "[" + v.pad + PrintItems(v.items), "]");
    OccursSplit(js, at, "[" + v.pad, PrintItems(v.items));
  }

  lemma SitsMember(js: string, toks: seq<Token>, ms: Members, at: nat, k: nat, o: int)
    requires ms.Member? && SitsMembers(js, toks, ms, at, k, o)
    ensures toks[k] == Token(String, at + |ms.g0| + 1, at + |ms.g0| + 1 + |ms.name|, 1, o)
    ensures Occurs(js, at + |ms.g0| + 1, ms.name)
    ensures Sits(js, toks, ms.value, ValueAt(ms, at), k + 1, k)
    ensures SitsMembers(js, toks, ms.rest, NextMemberAt(ms, at), k + 1 + Size(ms.value), o)
  {
    var key := Token(String, at + |ms.g0| + 1, at + |ms.g0| + 1 + |ms.name|, 1, o);
    hide Occurs, Print, Encode;
    Stretch(toks, k, [key], Encode(ms.value, ValueAt(ms, at), k + 1, k),
            EncodeMembers(ms.rest, NextMemberAt(ms, at), k + 1 + Size(ms.value), o));
    assert toks[k..k + 1][0] == toks[k];
    MemberText(js, ms, at);
  }

  lemma MemberText(js: string, ms: Members, at: nat)
    requires ms.Member? && Occurs(js, at, PrintMembers(ms))
    ensures Occurs(js, at + |ms.g0| + 1, ms.name) && Occurs(js, ValueAt(ms, at), Print(ms.value))
    ensures ms.rest.Member? ==> Occurs(js, NextMemberAt(ms, at), PrintMembers(ms.rest))
  {
    hide Occurs, Print;
    var more := MoreMembers(ms.rest);
    assert ms.rest.Member? ==> more == "," + PrintMembers(ms.rest);
    var w1 := ms.g0 + "\"";
    var w2 := w1 + ms.name;
    var w3 := w2 + "\"" + ms.g1 + ":" + ms.g2;
    var w4 := w3 + Print(ms.value);
    var w5 := w4 + ms.g3;
    assert PrintMembers(ms) == w5 + more;
    hide PrintMembers, MoreMembers;
    OccursSplit(js, at, w5, more);
    OccursSplit(js, at, w4, ms.g3);
    OccursSplit(js, at, w3, Print(ms.value));
    assert w3 == w2 + ("\"" + ms.g1 + ":" + ms.g2);
    OccursSplit(js, at, w2, "\"" + ms.g1 + ":" + ms.g2);
    OccursSplit(js, at, w1, ms.name);
    if ms.rest.Member? { OccursSplit(js, at + |w5|, ",", PrintMembers(ms.rest)); }
  }

  lemma SitsItem(js: string, toks: seq<Token>, xs: Items, at: nat, k: nat, o: int)
    requires xs.Item? && SitsItems(js, toks, xs, at, k, o)
    ensures Sits(js, toks, xs.value, at + |xs.g0|, k, o)
    ensures SitsItems(js, toks, xs.rest, NextItemAt(xs, at), k + Size(xs.value), o)
  {
    hide Occurs, Print, Encode;
    var a, b := Encode(xs.value, at + |xs.g0|, k, o), EncodeItems(xs.rest, NextItemAt(xs, at), k + Size(xs.value), o);
    assert a + b + [] == a + b;
    Stretch(toks, k, a, b, []);
    var w1 := xs.g0 + Print(xs.value);
    var w2 := w1 + xs.g1;
    OccursSplit(js, at, w2, MoreItems(xs.rest));
    OccursSplit(js, at, w1, xs.g1);
    OccursSplit(js, at, xs.g0, Print(xs.value));
    if xs.rest.Item? { OccursSplit(js, at + |w2|, ",", PrintItems(xs.rest)); }
  }

  function KindOf(v: Value): Kind {
    match v
    case Obj(_, _) => Object
    case Arr(_, _) => Array
    case Str(_) => String
    case _ => Primitive
  }

  lemma SitsHead(js: string, toks: seq<Token>, v: Value, at: nat, idx: nat, parent: int)
    requires Sits(js, toks, v, at, idx, parent)
    ensures toks[idx].kind == KindOf(v) && toks[idx].parent == parent
    ensures !Container(v) ==> toks[idx].size == 0
    ensures var start := if v.Str? then at + 1 else at;
            var text := if v.Str? then v.body else Print(v);
            toks[idx].start == start && toks[idx].end == start + |text| && Occurs(js, start, text)
  {
    assert toks[idx] == toks[idx..idx + Size(v)][0] == Encode(v, at, idx, parent)[0];
    if v.Str? {
      OccursSplit(js, at, "\"" + v.body, "\"");
      OccursSplit(js, at, "\"", v.body);
    }
  }

  lemma SitsBound(js: string, toks: seq<Token>, v: Value, at: nat, idx: nat, parent: int)
    requires Sits(js, toks, v, at, idx, parent)
    ensures idx < |toks|
  {
  }

  // ------------------------------------------------------- ends of subtrees

  /** The subtree of an encoded value is exactly its stretch of the array. */
  lemma {:induction false} LastOfValue(js: string, toks: seq<Token>, v: Value, at: nat, idx: nat, parent: int)
    requires Accepted(js, toks) && Sits(js, toks, v, at, idx, parent)
    ensures ParentsOk(toks) && Last(toks, idx) == idx + Size(v) - 1
    decreases v, 1
  {
    hide Accepted, Kids, Last, Sits, SitsMembers, SitsItems, Occurs, Encode, Print;
    SitsBound(js, toks, v, at, idx, parent);
    SizeIsKids(js, toks, idx);
    SitsHead(js, toks, v, at, idx, parent);
    EndOfKids(js, toks, idx);
    if v.Obj? {
      SitsObject(js, toks, v, at, idx, parent);
      if v.members.Member? {
        AdvanceToKid(js, toks, idx, 0, idx);
        LastOfMembers(js, toks, v.members, at + 1 + |v.pad|, idx + 1, idx, 0);
      }
    } else if v.Arr? {
      SitsArray(js, toks, v, at, idx, parent);
      if v.items.Item? {
        AdvanceToKid(js, toks, idx, 0, idx);
        LastOfItems(js, toks, v.items, at + 1 + |v.pad|, idx + 1, idx, 0);
      }
    }
  }

  /** A key's subtree is the key and its value. */
  lemma {:induction false} LastOfKey(js: string, toks: seq<Token>, v: Value, at: nat, k: nat)
    requires Accepted(js, toks) && k < |toks| && toks[k].size == 1 && Sits(js, toks, v, at, k + 1, k)
    ensures ParentsOk(toks) && Last(toks, k) == k + Size(v)
    decreases v, 2
  {
    hide Accepted, Kids, Last, Sits, Occurs, Encode, Print;
    SizeIsKids(js, toks, k);
    AdvanceToKid(js, toks, k, 0, k);
    EndOfKids(js, toks, k);
    LastOfValue(js, toks, v, at, k + 1, k);
  }

  lemma {:induction false} LastOfMembers(js: string, toks: seq<Token>, ms: Members, at: nat, k: nat, o: nat, n: nat)
    requires Accepted(js, toks) && ms.Member? && SitsMembers(js, toks, ms, at, k, o) && o < |toks|
    requires |Kids(toks, o)| == n + CountMembers(ms) && Kids(toks, o)[n] == k
    ensures ParentsOk(toks) && Last(toks, o) == k + SizeMembers(ms) - 1
    decreases ms, 0
  {
    hide Accepted, Kids, Last, Sits, Occurs, Encode, Print;
    SitsMember(js, toks, ms, at, k, o);
    LastOfKey(js, toks, ms.value, ValueAt(ms, at), k);
    if ms.rest.Member? {
      AdvanceToKid(js, toks, o, n + 1, k + Size(ms.value));
      LastOfMembers(js, toks, ms.rest, NextMemberAt(ms, at), k + 1 + Size(ms.value), o, n + 1);
    } else {
      EndOfKids(js, toks, o);
    }
  }

  lemma {:induction false} LastOfItems(js: string, toks: seq<Token>, xs: Items, at: nat, k: nat, o: nat, n: nat)
    requires Accepted(js, toks) && xs.Item? && SitsItems(js, toks, xs, at, k, o) && o < |toks|
    requires |Kids(toks, o)| == n + CountItems(xs) && Kids(toks, o)[n] == k
    ensures ParentsOk(toks) && Last(toks, o) == k + SizeItems(xs) - 1
    decreases xs, 0
  {
    hide Accepted, Kids, Last, Sits, Occurs, Encode, Print;
    SitsItem(js, toks, xs, at, k, o);
    LastOfValue(js, toks, xs.value, at + |xs.g0|, k, o);
    if xs.rest.Item? {
      AdvanceToKid(js, toks, o, n + 1, k + Size(xs.value) - 1);
      LastOfItems(js, toks, xs.rest, NextItemAt(xs, at), k + Size(xs.value), o, n + 1);
    } else {
      EndOfKids(js, toks, o);
    }
  }

  // --------------------------------------------------------------- searching

  /** A stretch of members: what is left of them, where their text starts, which token comes first. */
  datatype Spot = Spot(ms: Members, at: nat, idx: nat)

  /** The first member called `name`, and those after it; no members when there is none. */
  function FindMember(s: Spot, name: string): (r: Spot)
    ensures r.ms.Member? ==> r.ms.name == name
    decreases s.ms
  {
    if s.ms.NoMember? || s.ms.name == name then s
    else FindMember(Spot(s.ms.rest, NextMemberAt(s.ms, s.at), s.idx + 1 + Size(s.ms.value)), name)
  }

  datatype ItemSpot = ItemSpot(xs: Items, at: nat, idx: nat)

  function FindItem(s: ItemSpot, i: nat): ItemSpot
    decreases s.xs
  {
    if s.xs.NoItem? || i == 0 then s
    else FindItem(ItemSpot(s.xs.rest, NextItemAt(s.xs, s.at), s.idx + Size(s.xs.value)), i - 1)
  }

  /** Searching the children from number `n` on finds what the tree has. */
  lemma {:induction false} SearchFinds(js: string, toks: seq<Token>, s: Spot, o: nat, n: nat, name: string)
    requires Accepted(js, toks) && SitsMembers(js, toks, s.ms, s.at, s.idx, o) && o < |toks|
    requires |Kids(toks, o)| == n + CountMembers(s.ms) && (s.ms.Member? ==> Kids(toks, o)[n] == s.idx)
    ensures SpansInside(js, toks)
    ensures var f := FindMember(s, name);
            && SitsMembers(js, toks, f.ms, f.at, f.idx, o)
            && FirstMatch(js, toks, Kids(toks, o)[n..], name) == if f.ms.Member? then f.idx else -1
    decreases s.ms
  {
    hide Accepted, Kids, Last, SitsMembers;
    SpansOk(js, toks);
    var ks := Kids(toks, o);
    if s.ms.NoMember? {
      assert ks[n..] == [];
    } else {
      SitsMember(js, toks, s.ms, s.at, s.idx, o);
      FirstMatchFrom(js, toks, ks, n, name);
      MatchIsEquality(js, toks[s.idx], name);
      if s.ms.name != name {
        LastOfKey(js, toks, s.ms.value, ValueAt(s.ms, s.at), s.idx);
        if s.ms.rest.Member? { AdvanceToKid(js, toks, o, n + 1, s.idx + Size(s.ms.value)); }
        SearchFinds(js, toks, Spot(s.ms.rest, NextMemberAt(s.ms, s.at), s.idx + 1 + Size(s.ms.value)), o, n + 1, name);
      }
    }
  }

  lemma {:induction false} ItemFinds(js: string, toks: seq<Token>, s: ItemSpot, o: nat, n: nat, i: nat)
    requires Accepted(js, toks) && SitsItems(js, toks, s.xs, s.at, s.idx, o) && o < |toks|
    requires |Kids(toks, o)| == n + CountItems(s.xs) && (s.xs.Item? ==> Kids(toks, o)[n] == s.idx)
    ensures var f := FindItem(s, i);
            && SitsItems(js, toks, f.xs, f.at, f.idx, o)
            && (f.xs.Item? <==> n + i < |Kids(toks, o)|)
            && (f.xs.Item? ==> Kids(toks, o)[n + i] == f.idx)
    decreases s.xs
  {
    hide Accepted, Kids, Last, SitsItems;
    if s.xs.NoItem? || i == 0 {
    } else {
      SitsItem(js, toks, s.xs, s.at, s.idx, o);
      LastOfValue(js, toks, s.xs.value, s.at + |s.xs.g0|, s.idx, o);
      if s.xs.rest.Item? { AdvanceToKid(js, toks, o, n + 1, s.idx + Size(s.xs.value) - 1); }
      ItemFinds(js, toks, ItemSpot(s.xs.rest, NextItemAt(s.xs, s.at), s.idx + Size(s.xs.value)), o, n + 1, i - 1);
    }
  }

  // ------------------------------------------------------------------- moves

  /** A container in the tree: its value, where its text starts, which token it has. */
  datatype Focus = Focus(value: Value, at: nat, idx: nat)

  /** The value of the first member called `name`. */
  function MemberValue(f: Focus, name: string): (r: Option<Focus>)
  {
    if !f.value.Obj? then None
    else
      var s := FindMember(Spot(f.value.members, f.at + 1 + |f.value.pad|, f.idx + 1), name);
      if s.ms.NoMember? then None else Some(Focus(s.ms.value, ValueAt(s.ms, s.at), s.idx + 1))
  }

  /** The value of item number `i`. */
  function ItemValue(f: Focus, i: nat): (r: Option<Focus>)
  {
    if !f.value.Arr? then None
    else
      var s := FindItem(ItemSpot(f.value.items, f.at + 1 + |f.value.pad|, f.idx + 1), i);
      if s.xs.NoItem? then None else Some(Focus(s.xs.value, s.at + |s.xs.g0|, s.idx))
  }

  function OfKind(d: Option<Focus>, kind: Kind): Option<Focus> {
    if d.Some? && KindOf(d.value.value) != kind then None else d
  }

  /** Where a get leads from `f`, by the tree alone. */
  function Down(f: Focus, m: Move): Option<Focus>
    requires !m.Leave?
  {
    match m
    case IntoMember(name, kind) => OfKind(MemberValue(f, name), kind)
    case IntoItem(i, kind) => OfKind(ItemValue(f, i), kind)
  }

  /** The zipper: the containers on the way from the root to the one in focus. */
  type Trail = z: seq<Focus> | z != [] witness [Focus(Null, 0, 0)]

  function Top(z: Trail): Focus {
    z[|z| - 1]
  }

  /** A move is properly nested when a leave matches the container that was entered. */
  predicate Nested(z: Trail, m: Move) {
    match m
    case IntoMember(_, kind) => kind == Object || kind == Array
    case IntoItem(_, kind) => kind == Object || kind == Array
    case Leave(member) => |z| >= 2 && member == z[|z| - 2].value.Obj?
  }

  function Shifted(z: Trail, m: Move): (r: (bool, Trail))
    requires Nested(z, m)
  {
    if m.Leave? then
      (true, z[..|z| - 1])
    else
      match Down(Top(z), m)
      case None => (false, z)
      case Some(f) => (true, z + [f])
  }

  /** How the parent links lead from `c` up to the container `p` it was entered from. */
  ghost predicate Linked(toks: seq<Token>, p: Focus, c: Focus)
    requires c.idx < |toks|
  {
    if p.value.Obj? then
      0 < c.idx && toks[c.idx].parent == c.idx - 1 && toks[c.idx - 1].parent == p.idx
    else toks[c.idx].parent == p.idx
  }

  ghost predicate InPlace(js: string, toks: seq<Token>, f: Focus) {
    f.idx < |toks| && Sits(js, toks, f.value, f.at, f.idx, toks[f.idx].parent)
  }

  ghost predicate Tracks(js: string, toks: seq<Token>, z: Trail) {
    && (forall i :: 0 <= i < |z| ==> InPlace(js, toks, z[i]))
    && (forall i :: 0 < i < |z| ==> Linked(toks, z[i - 1], z[i]))
  }

  lemma KeysOfPrinted(js: string, toks: seq<Token>, ms: Members, at: nat, k: nat, o: nat, n: nat)
    requires Accepted(js, toks) && SitsMembers(js, toks, ms, at, k, o) && o < |toks|
    requires |Kids(toks, o)| == n + CountMembers(ms) && (ms.Member? ==> Kids(toks, o)[n] == k)
    ensures forall m :: n <= m < |Kids(toks, o)| ==> toks[Kids(toks, o)[m]].size == 1
    decreases ms
  {
    hide Accepted, Kids, Last, SitsMembers;
    if ms.NoMember? {
    } else {
      SitsMember(js, toks, ms, at, k, o);
      LastOfKey(js, toks, ms.value, ValueAt(ms, at), k);
      if ms.rest.Member? { AdvanceToKid(js, toks, o, n + 1, k + Size(ms.value)); }
      KeysOfPrinted(js, toks, ms.rest, NextMemberAt(ms, at), k + 1 + Size(ms.value), o, n + 1);
    }
  }

  /** In a printed tree every key of every object has its value, so look-ups are safe. */
  lemma PrintedKeysHaveValues(js: string, toks: seq<Token>, f: Focus)
    requires Accepted(js, toks) && InPlace(js, toks, f)
    ensures KeysHaveValues(toks, f.idx)
  {
    hide Accepted, Kids, Last, SitsMembers;
    var parent := toks[f.idx].parent;
    SitsHead(js, toks, f.value, f.at, f.idx, parent);
    if f.value.Obj? {
      SitsObject(js, toks, f.value, f.at, f.idx, parent);
      SizeIsKids(js, toks, f.idx);
      if f.value.members.Member? { AdvanceToKid(js, toks, f.idx, 0, f.idx); }
      KeysOfPrinted(js, toks, f.value.members, f.at + 1 + |f.value.pad|, f.idx + 1, f.idx, 0);
      KidsFacts(toks, f.idx);
      forall k | 0 <= k < |toks| && toks[k].parent == f.idx ensures toks[k].size == 1 {
        var m :| 0 <= m < |Kids(toks, f.idx)| && Kids(toks, f.idx)[m] == k;
      }
    }
  }

  /** Looking up a key in a printed object finds the first member of that name. */
  lemma KeyOfPrinted(js: string, toks: seq<Token>, f: Focus, name: string)
    requires Accepted(js, toks) && InPlace(js, toks, f) && f.value.Obj?
    ensures SpansInside(js, toks)
    ensures var r := FindMember(Spot(f.value.members, f.at + 1 + |f.value.pad|, f.idx + 1), name);
            && KeyOf(js, toks, f.idx, name) == (if r.ms.Member? then r.idx else -1)
            && SitsMembers(js, toks, r.ms, r.at, r.idx, f.idx)
  {
    hide Accepted, Kids, Last, SitsMembers, FirstMatch, Sits;
    SpansOk(js, toks);
    SizeIsKids(js, toks, f.idx);
    SitsObject(js, toks, f.value, f.at, f.idx, toks[f.idx].parent);
    if f.value.members.Member? { AdvanceToKid(js, toks, f.idx, 0, f.idx); }
    SearchFinds(js, toks, Spot(f.value.members, f.at + 1 + |f.value.pad|, f.idx + 1), f.idx, 0, name);
    assert Kids(toks, f.idx)[0..] == Kids(toks, f.idx);
  }

  lemma NoMemberOfNonObject(js: string, toks: seq<Token>, f: Focus, name: string)
    requires SpansInside(js, toks) && InPlace(js, toks, f) && !f.value.Obj?
    ensures KeyOf(js, toks, f.idx, name) == -1 && MemberValue(f, name) == None
  {
    hide Sits;
    SitsHead(js, toks, f.value, f.at, f.idx, toks[f.idx].parent);
  }

  /** A typed look-up returns the token of that value exactly when the kinds agree. */
  lemma LookUpFinds(js: string, toks: seq<Token>, f: Focus, name: string, kind: Kind)
    requires Accepted(js, toks) && InPlace(js, toks, f)
    ensures SpansInside(js, toks)
    ensures var d := MemberValue(f, name);
            && ValueOfKey(js, toks, f.idx, name, kind)
               == (if d.Some? && KindOf(d.value.value) == kind then d.value.idx else -1)
            && (d.Some? ==> InPlace(js, toks, d.value) && Linked(toks, f, d.value))
  {
    hide Accepted, Sits, MemberValue, Occurs, SpansInside, KeyOf;
    SpansOk(js, toks);
    if f.value.Obj? {
      MemberLookUp(js, toks, f, name);
    } else {
      NoMemberOfNonObject(js, toks, f, name);
    }
  }

  lemma MemberLookUp(js: string, toks: seq<Token>, f: Focus, name: string)
    requires Accepted(js, toks) && InPlace(js, toks, f) && f.value.Obj? && SpansInside(js, toks)
    ensures var d, k := MemberValue(f, name), KeyOf(js, toks, f.idx, name);
            if d.Some? then
              && k >= 0 && k + 1 == d.value.idx < |toks| && toks[k + 1].kind == KindOf(d.value.value)
              && InPlace(js, toks, d.value) && Linked(toks, f, d.value)
            else k == -1
  {
    hide Accepted, Sits, SitsMembers, FindMember, Occurs, SpansInside, KeyOf;
    KeyOfPrinted(js, toks, f, name);
    var r := FindMember(Spot(f.value.members, f.at + 1 + |f.value.pad|, f.idx + 1), name);
    if r.ms.Member? {
      SitsMember(js, toks, r.ms, r.at, r.idx, f.idx);
      SitsHead(js, toks, r.ms.value, ValueAt(r.ms, r.at), r.idx + 1, r.idx);
      SitsBound(js, toks, r.ms.value, ValueAt(r.ms, r.at), r.idx + 1, r.idx);
    }
  }

  /** Item number `i` of a printed array is where the tree has it. */
  lemma ItemOfPrinted(js: string, toks: seq<Token>, f: Focus, i: nat)
    requires Accepted(js, toks) && InPlace(js, toks, f) && f.value.Arr?
    ensures var r := FindItem(ItemSpot(f.value.items, f.at + 1 + |f.value.pad|, f.idx + 1), i);
            && ItemOf(toks, f.idx, i) == (if r.xs.Item? then r.idx else -1)
            && SitsItems(js, toks, r.xs, r.at, r.idx, f.idx)
  {
    hide Accepted, Kids, Last, SitsItems, Sits;
    SizeIsKids(js, toks, f.idx);
    SitsArray(js, toks, f.value, f.at, f.idx, toks[f.idx].parent);
    if f.value.items.Item? { AdvanceToKid(js, toks, f.idx, 0, f.idx); }
    ItemFinds(js, toks, ItemSpot(f.value.items, f.at + 1 + |f.value.pad|, f.idx + 1), f.idx, 0, i);
  }

  lemma ItemLookUp(js: string, toks: seq<Token>, f: Focus, i: nat)
    requires Accepted(js, toks) && InPlace(js, toks, f) && f.value.Arr?
    ensures var d := ItemValue(f, i);
            && ItemOf(toks, f.idx, i) == (if d.Some? then d.value.idx else -1)
            && (d.Some? ==> InPlace(js, toks, d.value) && Linked(toks, f, d.value)
                            && toks[d.value.idx].kind == KindOf(d.value.value))
  {
    hide Accepted, SitsItems, Sits, FindItem, ItemOf, KindOf, Container, Print;
    SitsHead(js, toks, f.value, f.at, f.idx, toks[f.idx].parent);
    ItemOfPrinted(js, toks, f, i);
    var r := FindItem(ItemSpot(f.value.items, f.at + 1 + |f.value.pad|, f.idx + 1), i);
    if r.xs.Item? {
      SitsItem(js, toks, r.xs, r.at, r.idx, f.idx);
      SitsHead(js, toks, r.xs.value, r.at + |r.xs.g0|, r.idx, f.idx);
      SitsBound(js, toks, r.xs.value, r.at + |r.xs.g0|, r.idx, f.idx);
    }
  }

  lemma NoItemOfNonArray(js: string, toks: seq<Token>, f: Focus, i: nat)
    requires InPlace(js, toks, f) && !f.value.Arr?
    ensures ItemOf(toks, f.idx, i) == -1 && ItemValue(f, i) == None
  {
    hide Sits, Print;
    SitsHead(js, toks, f.value, f.at, f.idx, toks[f.idx].parent);
  }

  lemma ItemLookUpFinds(js: string, toks: seq<Token>, f: Focus, i: nat, kind: Kind)
    requires Accepted(js, toks) && InPlace(js, toks, f)
    ensures var d := ItemValue(f, i);
            && ItemOfKind(toks, f.idx, i, kind)
               == (if d.Some? && KindOf(d.value.value) == kind then d.value.idx else -1)
            && (d.Some? ==> InPlace(js, toks, d.value) && Linked(toks, f, d.value))
  {
    hide Accepted, Sits, ItemValue, ItemOf, KindOf, Linked;
    if f.value.Arr? { ItemLookUp(js, toks, f, i); } else { NoItemOfNonArray(js, toks, f, i); }
  }

  /** One properly nested get or leave moves the cursor exactly as it moves the zipper. */
  lemma MoveRefines(js: string, toks: seq<Token>, z: Trail, m: Move)
    requires Accepted(js, toks) && Tracks(js, toks, z) && Nested(z, m)
    ensures SpansInside(js, toks) && ParentsOk(toks)
    ensures var (ok, y) := Shifted(z, m);
            Tracks(js, toks, y) && MoveCursor(js, toks, Top(z).idx, m) == Cursor(ok, Top(y).idx)
  {
    hide Accepted, Sits, ValueOfKey, ItemOfKind, MemberValue, ItemValue;
    SpansOk(js, toks);
    ParentBelow(js, toks, Top(z).idx);
    assert InPlace(js, toks, Top(z));
    match m
    case IntoMember(name, kind) => LookUpFinds(js, toks, Top(z), name, kind);
    case IntoItem(i, kind) => ItemLookUpFinds(js, toks, Top(z), i, kind);
    case Leave(_) =>
      assert Linked(toks, z[|z| - 2], z[|z| - 1]);
      assert InPlace(js, toks, z[|z| - 2]);
  }

  /** A whole walk: the cursor after the moves in turn, with the result of each. */
  ghost function Walk(js: string, toks: seq<Token>, cur: nat, moves: seq<Move>): (seq<bool>, nat)
    requires SpansInside(js, toks) && ParentsOk(toks) && cur < |toks|
    decreases moves
  {
    if moves == [] then ([], cur)
    else
      var c := MoveCursor(js, toks, cur, moves[0]);
      var (oks, last) := Walk(js, toks, c.cur, moves[1..]);
      ([c.ok] + oks, last)
  }

  predicate AllNested(z: Trail, moves: seq<Move>)
    decreases moves
  {
    moves == [] || (Nested(z, moves[0]) && AllNested(Shifted(z, moves[0]).1, moves[1..]))
  }

  function WalkTrail(z: Trail, moves: seq<Move>): (seq<bool>, Trail)
    requires AllNested(z, moves)
    decreases moves
  {
    if moves == [] then ([], z)
    else
      var (ok, y) := Shifted(z, moves[0]);
      var (oks, last) := WalkTrail(y, moves[1..]);
      ([ok] + oks, last)
  }

  lemma {:induction false} WalkRefines(js: string, toks: seq<Token>, z: Trail, moves: seq<Move>)
    requires Accepted(js, toks) && Tracks(js, toks, z) && AllNested(z, moves)
    ensures SpansInside(js, toks) && ParentsOk(toks) && Top(z).idx < |toks|
    ensures var (oks, y) := WalkTrail(z, moves);
            Tracks(js, toks, y) && Walk(js, toks, Top(z).idx, moves) == (oks, Top(y).idx)
    decreases moves
  {
    hide Accepted, MoveCursor, Shifted, Nested;
    SpansOk(js, toks);
    ParentBelow(js, toks, Top(z).idx);
    if moves == [] {
    } else {
      MoveRefines(js, toks, z, moves[0]);
      WalkRefines(js, toks, Shifted(z, moves[0]).1, moves[1..]);
    }
  }

  /**
   Cursor navigation refines a tree zipper: after parsing any legal text, every properly nested
   sequence of gets and leaves succeeds and fails where the zipper does and ends on its focus.
   */
  lemma NavigationRefinesZipper(w1: string, v: Value, w2: string, moves: seq<Move>)
    requires Container(v) && Legal(v) && Blanks(w1) && Blanks(w2)
    requires AllNested([Focus(v, |w1|, 0)], moves)
    ensures var js := w1 + Print(v) + w2;
            var toks := Encode(v, |w1|, 0, -1);
            && ParseStart(js) == Some(toks) && Accepted(js, toks)
            && SpansInside(js, toks) && ParentsOk(toks)
            && (var (oks, y) := WalkTrail([Focus(v, |w1|, 0)], moves);
                Tracks(js, toks, y) && Walk(js, toks, 0, moves) == (oks, Top(y).idx))
  {
    hide Accepted, Walk, WalkTrail, AllNested, ParseStart;
    var js := w1 + Print(v) + w2;
    var toks := Encode(v, |w1|, 0, -1);
    ParseStartPrinted(w1, v, w2);
    ParseStartAccepted(js);
    RootSits(w1, v, w2);
    WalkRefines(js, toks, [Focus(v, |w1|, 0)], moves);
  }

  lemma RootSits(w1: string, v: Value, w2: string)
    ensures Sits(w1 + Print(v) + w2, Encode(v, |w1|, 0, -1), v, |w1|, 0, -1)
  {
    var toks := Encode(v, |w1|, 0, -1);
    assert toks[0..0 + Size(v)] == toks;
    assert (w1 + Print(v) + w2)[|w1|..|w1| + |Print(v)|] == Print(v);
  }

  lemma RootParent(v: Value, at: nat)
    requires Container(v)
    ensures Encode(v, at, 0, -1) != [] && Encode(v, at, 0, -1)[0].parent == -1
  {
  }

  // -------------------------------------------------------- reading values

  /** A string token spans the body between the quotes, any other the whole text of its value. */
  lemma TextOfValue(js: string, toks: seq<Token>, f: Focus)
    requires SpansInside(js, toks) && InPlace(js, toks, f)
    ensures Text(js, toks[f.idx]) == if f.value.Str? then f.value.body else Print(f.value)
  {
    hide Sits, Print;
    SitsHead(js, toks, f.value, f.at, f.idx, toks[f.idx].parent);
  }

  /** Reading an integer of a printed text gives the integer of the tree. */
  lemma IntOfValue(js: string, toks: seq<Token>, f: Focus)
    requires SpansInside(js, toks) && InPlace(js, toks, f) && f.value.Int? && Legal(f.value)
    requires DelimiterAt(js, f.at + |Print(f.value)|)
    ensures IntOf(js, toks[f.idx]) == Some(f.value.n)
  {
    SitsHead(js, toks, f.value, f.at, f.idx, toks[f.idx].parent);
    Decimal.ReadShown(js, f.at, f.value.n);
  }

  /** The value of a found member is followed by a delimiter. */
  lemma {:induction false} FoundDelimited(js: string, s: Spot, name: string)
    requires LegalMembers(s.ms)
    requires s.ms.Member? ==> Occurs(js, s.at, PrintMembers(s.ms)) && DelimiterAt(js, s.at + |PrintMembers(s.ms)|)
    ensures var r := FindMember(s, name);
            r.ms.Member? ==> Legal(r.ms.value) && DelimiterAt(js, ValueAt(r.ms, r.at) + |Print(r.ms.value)|)
    decreases s.ms
  {
    hide Occurs, PrintMembers, Print, LegalBody, Blanks, Legal, Size;
    if s.ms.NoMember? {
    } else {
      MemberPieces(s.ms, js, s.at);
      if s.ms.name != name {
        var end := ValueAt(s.ms, s.at) + |Print(s.ms.value)| + |s.ms.g3|;
        PrintMembersLength(s.ms, s.at);
        if s.ms.rest.Member? { OccursSplit(js, end, ",", PrintMembers(s.ms.rest)); }
        FoundDelimited(js, Spot(s.ms.rest, NextMemberAt(s.ms, s.at), s.idx + 1 + Size(s.ms.value)), name);
      }
    }
  }

  /** The integer under a name in a printed object is read back as the tree has it. */
  lemma IntMemberReads(js: string, toks: seq<Token>, f: Focus, name: string)
    requires Accepted(js, toks) && InPlace(js, toks, f) && Legal(f.value)
    requires MemberValue(f, name).Some? && MemberValue(f, name).value.value.Int?
    ensures SpansInside(js, toks)
    ensures var d := MemberValue(f, name).value;
            ValueOfKey(js, toks, f.idx, name, Primitive) == d.idx && IntOf(js, toks[d.idx]) == Some(d.value.n)
  {
    hide Accepted, ValueOfKey, FindMember, PrintMembers, EncodeMembers, IntOf;
    var ms, at := f.value.members, f.at + 1 + |f.value.pad|;
    LookUpFinds(js, toks, f, name, Primitive);
    SitsObject(js, toks, f.value, f.at, f.idx, toks[f.idx].parent);
    OccursAt(js, f.at, Print(f.value), |Print(f.value)| - 1);
    FoundDelimited(js, Spot(ms, at, f.idx + 1), name);
    IntOfValue(js, toks, MemberValue(f, name).value);
  }

  /** A boolean under a name is found with its text, which is one of those that are read. */
  lemma BoolMemberReads(js: string, toks: seq<Token>, f: Focus, name: string)
    requires Accepted(js, toks) && InPlace(js, toks, f)
    requires MemberValue(f, name).Some? && MemberValue(f, name).value.value.Bool?
    ensures SpansInside(js, toks)
    ensures var d := MemberValue(f, name).value;
            && ValueOfKey(js, toks, f.idx, name, Primitive) == d.idx
            && Text(js, toks[d.idx]) == if d.value.b then "true" else "false"
  {
    hide Accepted, ValueOfKey, MemberValue, Sits;
    SpansOk(js, toks);
    LookUpFinds(js, toks, f, name, Primitive);
    TextOfValue(js, toks, MemberValue(f, name).value);
  }

  /** A string under a name is found with its body. */
  lemma StringMemberReads(js: string, toks: seq<Token>, f: Focus, name: string)
    requires Accepted(js, toks) && InPlace(js, toks, f)
    requires MemberValue(f, name).Some? && MemberValue(f, name).value.value.Str?
    ensures SpansInside(js, toks)
    ensures var d := MemberValue(f, name).value;
            ValueOfKey(js, toks, f.idx, name, String) == d.idx && Text(js, toks[d.idx]) == d.value.body
  {
    hide Accepted, ValueOfKey, MemberValue, Sits;
    SpansOk(js, toks);
    LookUpFinds(js, toks, f, name, String);
    TextOfValue(js, toks, MemberValue(f, name).value);
  }

  /** A token below another tree, in a text that starts `at` further on and an array from `idx`. */
  ghost predicate Moved(toks: seq<Token>, sub: seq<Token>, at: nat, idx: nat) {
    && sub != [] && idx + |sub| <= |toks| && sub[0].parent == -1
    && toks[idx] == Shift(sub[0], at, idx).(parent := toks[idx].parent)
    && forall k :: 0 < k < |sub| ==> toks[idx + k] == Shift(sub[k], at, idx)
  }

  /**
   Relocation: the text of an object or array inside a printed tree, which is what
   `json_obj_get_object_str` and `json_obj_get_array_str` return, parses to that subtree's tokens,
   spans shifted by its start and parents by its token's number, its root on its own.
   */
  lemma SubtextParses(js: string, toks: seq<Token>, f: Focus)
    requires SpansInside(js, toks) && InPlace(js, toks, f) && Container(f.value) && Legal(f.value)
    ensures var sub := ParseStart(Text(js, toks[f.idx]));
            sub.Some? && Moved(toks, sub.value, f.at, f.idx)
  {
    hide Sits, ParseStart, Encode, Moved;
    TextOfValue(js, toks, f);
    ParseStartPrinted("", f.value, "");
    assert "" + Print(f.value) + "" == Print(f.value);
    SitsMoved(js, toks, f.value, f.at, f.idx, toks[f.idx].parent);
  }

  lemma SitsMoved(js: string, toks: seq<Token>, v: Value, at: nat, idx: nat, parent: int)
    requires Sits(js, toks, v, at, idx, parent) && Container(v)
    ensures Moved(toks, Encode(v, 0, 0, -1), at, idx)
  {
    var sub := Encode(v, 0, 0, -1);
    EncodeRoot(v, at, idx, parent);
    EncodeShift(v, 0, 0, -1, at, idx);
    hide Encode;
    var here := toks[idx..idx + Size(v)];
    var there := Encode(v, at, idx, idx - 1);
    assert there == ShiftAll(sub, at, idx);
    forall k | 0 < k < |sub| ensures toks[idx + k] == Shift(sub[k], at, idx) {
      assert toks[idx + k] == here[k] == here[1..][k - 1] == there[1..][k - 1];
    }
  }

  /** The parent of an encoded container shows in its first token only. */
  lemma EncodeRoot(v: Value, at: nat, idx: nat, parent: int)
    requires Container(v)
    ensures var a, b := Encode(v, at, idx, parent), Encode(v, at, idx, idx - 1);
            a[0] == b[0].(parent := parent) && a[1..] == b[1..]
  {
    if v.Obj? {
      var kids := EncodeMembers(v.members, at + 1 + |v.pad|, idx + 1, idx);
      assert Encode(v, at, idx, parent)[1..] == kids;
      assert Encode(v, at, idx, idx - 1)[1..] == kids;
    } else {
      var kids := EncodeItems(v.items, at + 1 + |v.pad|, idx + 1, idx);
      assert Encode(v, at, idx, parent)[1..] == kids;
      assert Encode(v, at, idx, idx - 1)[1..] == kids;
    }
  }
}
