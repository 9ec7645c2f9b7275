/**
 * The node arena of a tree: one map per node field, keyed by handle.
 * This module states when the maps describe a given shape (the pointer
 * fields agree with it, the cached heights, balance factors and subtree
 * sizes are right, the keys are in order) and proves the framing facts
 * the tree's methods need when they rewrite a few entries.
 */
module AvlArena {
  import opened Common
  import opened AvlShape

  /** The three pointer fields of every node. */
  datatype Links = Links(left: map<Handle, Ptr>, right: map<Handle, Ptr>, parent: map<Handle, Ptr>)

  /**
   * The child pointers of every node of `t` follow the shape, and every
   * child points back to its parent. The parent pointer of `t`'s own root
   * is the business of whoever holds `t`.
   */
  ghost predicate Linked(g: Links, t: Shape)
  {
    match t
    case Nil => true
    case Br(l, h, r) =>
      h in g.left && h in g.right && g.left[h] == PtrOf(l) && g.right[h] == PtrOf(r)
      && (l.Br? ==> l.h in g.parent && g.parent[l.h] == At(h))
      && (r.Br? ==> r.h in g.parent && g.parent[r.h] == At(h))
      && Linked(g, l) && Linked(g, r)
  }

  /** The frames of the path hold the pointers to the hole (`fp`) and to the siblings. */
  ghost predicate CtxLinked(g: Links, c: Ctx, fp: Ptr)
  {
    match c
    case Top => true
    case InL(up, p, s) =>
      p in g.left && p in g.right && g.left[p] == fp && g.right[p] == PtrOf(s)
      && (fp.At? ==> fp.h in g.parent && g.parent[fp.h] == At(p))
      && (s.Br? ==> s.h in g.parent && g.parent[s.h] == At(p))
      && Linked(g, s) && CtxLinked(g, up, At(p))
    case InR(s, p, up) =>
      p in g.left && p in g.right && g.left[p] == PtrOf(s) && g.right[p] == fp
      && (fp.At? ==> fp.h in g.parent && g.parent[fp.h] == At(p))
      && (s.Br? ==> s.h in g.parent && g.parent[s.h] == At(p))
      && Linked(g, s) && CtxLinked(g, up, At(p))
  }

  /** The handles of `t` below its root. */
  function Below(t: Shape): set<Handle>
  {
    if t.Nil? then {} else Handles(t.l) + Handles(t.r)
  }

  ghost predicate SameLinks(g1: Links, g2: Links, s: set<Handle>)
  {
    Same(g1.left, g2.left, s) && Same(g1.right, g2.right, s) && Same(g1.parent, g2.parent, s)
  }

  lemma {:induction false} LinkedFrame(g1: Links, g2: Links, t: Shape)
    requires Linked(g1, t)
    requires Same(g1.left, g2.left, Handles(t)) && Same(g1.right, g2.right, Handles(t))
    requires Same(g1.parent, g2.parent, Below(t))
    ensures Linked(g2, t)
  {
    match t
    case Nil =>
    case Br(l, h, r) =>
      LinkedFrame(g1, g2, l);
      LinkedFrame(g1, g2, r);
  }

  lemma {:induction false} CtxLinkedFrame(g1: Links, g2: Links, c: Ctx, fp: Ptr)
    requires CtxLinked(g1, c, fp)
    requires SameLinks(g1, g2, CtxHandles(c))
    requires fp.At? ==> Same(g1.parent, g2.parent, {fp.h})
    ensures CtxLinked(g2, c, fp)
  {
    match c
    case Top =>
    case InL(up, p, s) =>
      LinkedFrame(g1, g2, s);
      CtxLinkedFrame(g1, g2, up, At(p));
    case InR(s, p, up) =>
      LinkedFrame(g1, g2, s);
      CtxLinkedFrame(g1, g2, up, At(p));
  }

  /** A tree is linked exactly when the subtree in the hole and the path around it are. */
  lemma {:induction false} LinkedPlug(g: Links, c: Ctx, f: Shape)
    ensures Linked(g, Plug(c, f)) <==> Linked(g, f) && CtxLinked(g, c, PtrOf(f))
    decreases c
  {
    match c
    case Top =>
    case InL(up, p, s) =>
      LinkedPlug(g, up, Br(f, p, s));
    case InR(s, p, up) =>
      LinkedPlug(g, up, Br(s, p, f));
  }

  /**
   * Pointing the innermost frame at a new child `y` (and `y` back at the
   * frame) keeps the path linked when nothing else on the path changed.
   */
  lemma {:induction false} CtxRetarget(g1: Links, g2: Links, c: Ctx, x: Ptr, y: Ptr)
    requires c != Top && CtxDistinct(c)
    requires CtxLinked(g1, c, x)
    requires Same(g1.left, g2.left, CtxHandles(c) - {c.p}) && Same(g1.right, g2.right, CtxHandles(c) - {c.p})
    requires Same(g1.parent, g2.parent, CtxHandles(c))
    requires c.InL? ==> c.p in g2.left && g2.left[c.p] == y && c.p in g2.right && g2.right[c.p] == g1.right[c.p]
    requires c.InR? ==> c.p in g2.right && g2.right[c.p] == y && c.p in g2.left && g2.left[c.p] == g1.left[c.p]
    requires y.At? ==> y.h in g2.parent && g2.parent[y.h] == At(c.p)
    ensures CtxLinked(g2, c, y)
  {
    LinkedFrame(g1, g2, c.sib);
    CtxLinkedFrame(g1, g2, c.up, At(c.p));
  }

  // ------------------------------------------------ heights and balance

  /** Every node of `t` caches its true height and balance factor. */
  ghost predicate Cached(hs: map<Handle, int>, bs: map<Handle, int>, t: Shape)
  {
    match t
    case Nil => true
    case Br(l, h, r) =>
      h in hs && h in bs && hs[h] == Height(t) && bs[h] == Bf(t) && Cached(hs, bs, l) && Cached(hs, bs, r)
  }

  /**
   * The siblings along the path are cached AVL trees that fit a hole of
   * height `ho`: each frame was balanced when its child had height `ho`.
   */
  ghost predicate CtxOk(hs: map<Handle, int>, bs: map<Handle, int>, c: Ctx, ho: int)
  {
    match c
    case Top => true
    case InL(up, _, s) =>
      Balanced(s) && Cached(hs, bs, s) && -1 <= ho - Height(s) <= 1
      && CtxOk(hs, bs, up, 1 + Max(ho, Height(s)))
    case InR(s, _, up) =>
      Balanced(s) && Cached(hs, bs, s) && -1 <= ho - Height(s) <= 1
      && CtxOk(hs, bs, up, 1 + Max(ho, Height(s)))
  }

  /** The height a hole of height `ho` gives the top of the path `c`. */
  function Lift(c: Ctx, ho: int): int
  {
    match c
    case Top => ho
    case InL(up, _, s) => Lift(up, 1 + Max(ho, Height(s)))
    case InR(s, _, up) => Lift(up, 1 + Max(ho, Height(s)))
  }

  lemma {:induction false} CachedFrame(hs1: map<Handle, int>, bs1: map<Handle, int>, hs2: map<Handle, int>, bs2: map<Handle, int>, t: Shape)
    requires Cached(hs1, bs1, t)
    requires Same(hs1, hs2, Handles(t)) && Same(bs1, bs2, Handles(t))
    ensures Cached(hs2, bs2, t)
  {
    match t
    case Nil =>
    case Br(l, _, r) =>
      CachedFrame(hs1, bs1, hs2, bs2, l);
      CachedFrame(hs1, bs1, hs2, bs2, r);
  }

  lemma {:induction false} CtxOkFrame(hs1: map<Handle, int>, bs1: map<Handle, int>, hs2: map<Handle, int>, bs2: map<Handle, int>, c: Ctx, ho: int)
    requires CtxOk(hs1, bs1, c, ho)
    requires Same(hs1, hs2, CtxHandles(c)) && Same(bs1, bs2, CtxHandles(c))
    ensures CtxOk(hs2, bs2, c, ho)
  {
    match c
    case Top =>
    case InL(up, _, s) =>
      CachedFrame(hs1, bs1, hs2, bs2, s);
      CtxOkFrame(hs1, bs1, hs2, bs2, up, 1 + Max(ho, Height(s)));
    case InR(s, _, up) =>
      CachedFrame(hs1, bs1, hs2, bs2, s);
      CtxOkFrame(hs1, bs1, hs2, bs2, up, 1 + Max(ho, Height(s)));
  }

  /** Caching a node outside `t` leaves `t` cached. */
  lemma {:induction false} CachedFresh(hs: map<Handle, int>, bs: map<Handle, int>, t: Shape, x: Handle, vh: int, vb: int)
    requires Cached(hs, bs, t) && x !in Handles(t)
    ensures Cached(hs[x := vh], bs[x := vb], t)
  {
    match t
    case Nil =>
    case Br(l, _, r) =>
      CachedFresh(hs, bs, l, x, vh, vb);
      CachedFresh(hs, bs, r, x, vh, vb);
  }

  /** Caching a node off the path leaves the path fitting its hole. */
  lemma {:induction false} CtxOkFresh(hs: map<Handle, int>, bs: map<Handle, int>, c: Ctx, ho: int, x: Handle, vh: int, vb: int)
    requires CtxOk(hs, bs, c, ho) && x !in CtxHandles(c)
    ensures CtxOk(hs[x := vh], bs[x := vb], c, ho)
  {
    match c
    case Top =>
    case InL(up, _, s) =>
      CachedFresh(hs, bs, s, x, vh, vb);
      CtxOkFresh(hs, bs, up, 1 + Max(ho, Height(s)), x, vh, vb);
    case InR(s, _, up) =>
      CachedFresh(hs, bs, s, x, vh, vb);
      CtxOkFresh(hs, bs, up, 1 + Max(ho, Height(s)), x, vh, vb);
  }

  /** In a cached AVL tree, every subtree is one and its path fits its height. */
  lemma {:induction false} CtxOkPlug(hs: map<Handle, int>, bs: map<Handle, int>, c: Ctx, f: Shape)
    requires Balanced(Plug(c, f)) && Cached(hs, bs, Plug(c, f))
    ensures Balanced(f) && Cached(hs, bs, f) && CtxOk(hs, bs, c, Height(f))
    decreases c
  {
    match c
    case Top =>
    case InL(up, p, s) =>
      CtxOkPlug(hs, bs, up, Br(f, p, s));
    case InR(s, p, up) =>
      CtxOkPlug(hs, bs, up, Br(s, p, f));
  }

  /** A path continued by another fits a hole when both parts do. */
  lemma {:induction false} CtxOkAppend(hs: map<Handle, int>, bs: map<Handle, int>, i: Ctx, o: Ctx, ho: int)
    ensures CtxOk(hs, bs, Append(i, o), ho) <==> CtxOk(hs, bs, i, ho) && CtxOk(hs, bs, o, Lift(i, ho))
    decreases i
  {
    match i
    case Top =>
    case InL(up, p, s) =>
      var h := 1 + Max(ho, Height(s));
      CtxOkAppend(hs, bs, up, o, h);
      assert Append(i, o) == InL(Append(up, o), p, s) && Lift(i, ho) == Lift(up, h);
    case InR(s, p, up) =>
      var h := 1 + Max(ho, Height(s));
      CtxOkAppend(hs, bs, up, o, h);
      assert Append(i, o) == InR(s, p, Append(up, o)) && Lift(i, ho) == Lift(up, h);
  }

  /** The height update_height and update_bf read through a child pointer: 0 for none. */
  function ChildHeight(hs: map<Handle, int>, p: Ptr): int
    requires p.At? ==> p.h in hs
  {
    if p.Null? then 0 else hs[p.h] + 1
  }

  /**
   * Recomputing a node's height and balance factor from cached children
   * makes the node's subtree cached.
   */
  lemma {:induction false} UpdateCached(hs: map<Handle, int>, bs: map<Handle, int>, l: Shape, x: Handle, r: Shape)
    requires Cached(hs, bs, l) && Cached(hs, bs, r) && x !in Handles(l) && x !in Handles(r)
    ensures PtrOf(l).At? ==> PtrOf(l).h in hs
    ensures PtrOf(r).At? ==> PtrOf(r).h in hs
    ensures ChildHeight(hs, PtrOf(l)) == Height(l) + 1 && ChildHeight(hs, PtrOf(r)) == Height(r) + 1
    ensures Cached(hs[x := Max(ChildHeight(hs, PtrOf(l)), ChildHeight(hs, PtrOf(r)))],
                   bs[x := ChildHeight(hs, PtrOf(l)) - ChildHeight(hs, PtrOf(r))], Br(l, x, r))
  {
    var hs2 := hs[x := Max(ChildHeight(hs, PtrOf(l)), ChildHeight(hs, PtrOf(r)))];
    var bs2 := bs[x := ChildHeight(hs, PtrOf(l)) - ChildHeight(hs, PtrOf(r))];
    CachedFrame(hs, bs, hs2, bs2, l);
    CachedFrame(hs, bs, hs2, bs2, r);
  }

  // ------------------------------------------------------- subtree sizes

  /** Every node of `t` holds the number of nodes of its subtree (m_numChildren). */
  ghost predicate Counted(cs: map<Handle, int>, t: Shape)
  {
    match t
    case Nil => true
    case Br(l, h, r) => h in cs && cs[h] == Size(t) && Counted(cs, l) && Counted(cs, r)
  }

  /** The frames along the path count a hole holding `n` nodes. */
  ghost predicate CtxCounted(cs: map<Handle, int>, c: Ctx, n: int)
  {
    match c
    case Top => true
    case InL(up, p, s) =>
      p in cs && cs[p] == n + 1 + Size(s) && Counted(cs, s) && CtxCounted(cs, up, n + 1 + Size(s))
    case InR(s, p, up) =>
      p in cs && cs[p] == n + 1 + Size(s) && Counted(cs, s) && CtxCounted(cs, up, n + 1 + Size(s))
  }

  /** The siblings along the path are counted; the frames themselves may be stale. */
  ghost predicate SibCounted(cs: map<Handle, int>, c: Ctx)
  {
    match c
    case Top => true
    case InL(up, _, s) => Counted(cs, s) && SibCounted(cs, up)
    case InR(s, _, up) => Counted(cs, s) && SibCounted(cs, up)
  }

  /** The count update_children reads through a child pointer: 0 for none. */
  function ChildCount(cs: map<Handle, int>, p: Ptr): int
    requires p.At? ==> p.h in cs
  {
    if p.Null? then 0 else cs[p.h]
  }

  /** update_children on `x` with children `l` and `r`: its size becomes theirs plus one. */
  function Recount(cs: map<Handle, int>, x: Handle, l: Ptr, r: Ptr): map<Handle, int>
    requires (l.At? ==> l.h in cs) && (r.At? ==> r.h in cs)
  {
    cs[x := ChildCount(cs, l) + ChildCount(cs, r) + 1]
  }

  lemma {:induction false} CountedFrame(cs1: map<Handle, int>, cs2: map<Handle, int>, t: Shape)
    requires Counted(cs1, t) && Same(cs1, cs2, Handles(t))
    ensures Counted(cs2, t)
  {
    match t
    case Nil =>
    case Br(l, _, r) =>
      CountedFrame(cs1, cs2, l);
      CountedFrame(cs1, cs2, r);
  }

  /** Writing the size of a node outside `t` leaves `t` counted. */
  lemma {:induction false} CountedFresh(cs: map<Handle, int>, t: Shape, x: Handle, v: int)
    requires Counted(cs, t) && x !in Handles(t)
    ensures Counted(cs[x := v], t)
  {
    match t
    case Nil =>
    case Br(l, _, r) =>
      CountedFresh(cs, l, x, v);
      CountedFresh(cs, r, x, v);
  }

  /** The size a counted subtree's parent reads through its pointer is the subtree's size. */
  lemma {:induction false} CountOf(cs: map<Handle, int>, t: Shape)
    requires Counted(cs, t)
    ensures PtrOf(t).At? ==> PtrOf(t).h in cs
    ensures ChildCount(cs, PtrOf(t)) == Size(t)
  {
  }

  /** Recounting a node from counted children makes its subtree counted. */
  lemma {:induction false} UpdateCounted(cs: map<Handle, int>, l: Shape, x: Handle, r: Shape)
    requires Counted(cs, l) && Counted(cs, r) && x !in Handles(l) && x !in Handles(r)
    ensures PtrOf(l).At? ==> PtrOf(l).h in cs
    ensures PtrOf(r).At? ==> PtrOf(r).h in cs
    ensures ChildCount(cs, PtrOf(l)) == Size(l) && ChildCount(cs, PtrOf(r)) == Size(r)
    ensures Counted(Recount(cs, x, PtrOf(l), PtrOf(r)), Br(l, x, r))
  {
    CountOf(cs, l);
    CountOf(cs, r);
    var v := ChildCount(cs, PtrOf(l)) + ChildCount(cs, PtrOf(r)) + 1;
    assert v == Size(Br(l, x, r));
    var cs1 := cs[x := v];
    assert Recount(cs, x, PtrOf(l), PtrOf(r)) == cs1;
    CountedFresh(cs, l, x, v);
    CountedFresh(cs, r, x, v);
  }

  lemma {:induction false} CtxCountedFrame(cs1: map<Handle, int>, cs2: map<Handle, int>, c: Ctx, n: int)
    requires CtxCounted(cs1, c, n) && Same(cs1, cs2, CtxHandles(c))
    ensures CtxCounted(cs2, c, n)
  {
    match c
    case Top =>
    case InL(up, _, s) =>
      CountedFrame(cs1, cs2, s);
      CtxCountedFrame(cs1, cs2, up, n + 1 + Size(s));
    case InR(s, _, up) =>
      CountedFrame(cs1, cs2, s);
      CtxCountedFrame(cs1, cs2, up, n + 1 + Size(s));
  }

  lemma {:induction false} SibCountedFrame(cs1: map<Handle, int>, cs2: map<Handle, int>, c: Ctx)
    requires SibCounted(cs1, c) && Same(cs1, cs2, CtxHandles(c))
    ensures SibCounted(cs2, c)
  {
    match c
    case Top =>
    case InL(up, _, s) =>
      CountedFrame(cs1, cs2, s);
      SibCountedFrame(cs1, cs2, up);
    case InR(s, _, up) =>
      CountedFrame(cs1, cs2, s);
      SibCountedFrame(cs1, cs2, up);
  }

  /** A tree is counted exactly when the hole's subtree and the path around it are. */
  lemma {:induction false} CountedPlug(cs: map<Handle, int>, c: Ctx, f: Shape)
    ensures Counted(cs, Plug(c, f)) <==> Counted(cs, f) && CtxCounted(cs, c, Size(f))
    decreases c
  {
    match c
    case Top =>
    case InL(up, p, s) =>
      CountedPlug(cs, up, Br(f, p, s));
    case InR(s, p, up) =>
      CountedPlug(cs, up, Br(s, p, f));
  }

  lemma {:induction false} CtxCountedSib(cs: map<Handle, int>, c: Ctx, n: int)
    requires CtxCounted(cs, c, n)
    ensures SibCounted(cs, c)
  {
    match c
    case Top =>
    case InL(up, _, s) =>
      CtxCountedSib(cs, up, n + 1 + Size(s));
    case InR(s, _, up) =>
      CtxCountedSib(cs, up, n + 1 + Size(s));
  }

  lemma {:induction false} SibCountedAppend(cs: map<Handle, int>, i: Ctx, o: Ctx)
    ensures SibCounted(cs, Append(i, o)) <==> SibCounted(cs, i) && SibCounted(cs, o)
  {
    match i
    case Top =>
    case InL(up, _, _) =>
      SibCountedAppend(cs, up, o);
    case InR(_, _, up) =>
      SibCountedAppend(cs, up, o);
  }

  // ------------------------------------------------------------- keys

  /** The order the trees keep: by ability first, then by id. */
  type Key = (int, int)

  predicate Less(a: Key, b: Key)
  {
    a.0 < b.0 || (a.0 == b.0 && a.1 < b.1)
  }

  /** The handles of `s` carry strictly increasing keys. */
  ghost predicate SortedBy(ks: map<Handle, Key>, s: seq<Handle>)
  {
    (forall i | 0 <= i < |s| :: s[i] in ks)
    && forall i, j | 0 <= i < j < |s| :: Less(ks[s[i]], ks[s[j]])
  }

  /** The search-tree property in its recursive form. */
  ghost predicate Bst(ks: map<Handle, Key>, t: Shape)
  {
    match t
    case Nil => true
    case Br(l, h, r) =>
      h in ks && Bst(ks, l) && Bst(ks, r)
      && (forall x | x in Handles(l) :: x in ks && Less(ks[x], ks[h]))
      && (forall x | x in Handles(r) :: x in ks && Less(ks[h], ks[x]))
  }

  lemma {:induction false} InHandles(t: Shape)
    ensures forall x :: x in In(t) <==> x in Handles(t)
  {
    match t
    case Nil =>
    case Br(l, _, r) =>
      InHandles(l);
      InHandles(r);
  }

  lemma {:induction false} SortedSplit(ks: map<Handle, Key>, a: seq<Handle>, b: seq<Handle>)
    requires SortedBy(ks, a + b)
    ensures SortedBy(ks, a) && SortedBy(ks, b)
    ensures forall x, y | x in a && y in b :: x in ks && y in ks && Less(ks[x], ks[y])
  {
    var s := a + b;
    forall i | 0 <= i < |a|
      ensures a[i] == s[i] && a[i] in ks
    {
    }
    forall i | 0 <= i < |b|
      ensures b[i] == s[|a| + i] && b[i] in ks
    {
    }
    forall i, j | 0 <= i < j < |a|
      ensures Less(ks[a[i]], ks[a[j]])
    {
      assert a[i] == s[i] && a[j] == s[j];
    }
    forall i, j | 0 <= i < j < |b|
      ensures Less(ks[b[i]], ks[b[j]])
    {
      assert b[i] == s[|a| + i] && b[j] == s[|a| + j];
    }
    forall x, y | x in a && y in b
      ensures x in ks && y in ks && Less(ks[x], ks[y])
    {
      var i :| 0 <= i < |a| && a[i] == x;
      var j :| 0 <= j < |b| && b[j] == y;
      assert x == s[i] && y == s[|a| + j];
    }
  }

  /** An in-order sorted tree is a search tree, subtree by subtree. */
  lemma {:induction false} SortedBst(ks: map<Handle, Key>, t: Shape)
    requires SortedBy(ks, In(t))
    ensures Bst(ks, t)
  {
    match t
    case Nil =>
    case Br(l, h, r) =>
      assert In(t)[|In(l)|] == h;
      SortedSplit(ks, In(l) + [h], In(r));
      SortedSplit(ks, In(l), [h]);
      InHandles(l);
      InHandles(r);
      SortedBst(ks, l);
      SortedBst(ks, r);
  }

  lemma {:induction false} BstPlug(ks: map<Handle, Key>, c: Ctx, f: Shape)
    requires Bst(ks, Plug(c, f))
    ensures Bst(ks, f)
    decreases c
  {
    match c
    case Top =>
    case InL(up, p, s) =>
      BstPlug(ks, up, Br(f, p, s));
    case InR(s, p, up) =>
      BstPlug(ks, up, Br(s, p, f));
  }

  lemma {:induction false} SortedFrame(ks1: map<Handle, Key>, ks2: map<Handle, Key>, s: seq<Handle>)
    requires SortedBy(ks1, s)
    requires forall x | x in s :: x in ks2 && ks2[x] == ks1[x]
    ensures SortedBy(ks2, s)
  {
  }

  /** A key that fits between two sorted runs can be placed between them. */
  lemma {:induction false} SortedInsert(ks: map<Handle, Key>, a: seq<Handle>, b: seq<Handle>, x: Handle, k: Key)
    requires SortedBy(ks, a + b) && x !in a && x !in b
    requires forall y | y in a :: y in ks && Less(ks[y], k)
    requires forall y | y in b :: y in ks && Less(k, ks[y])
    ensures SortedBy(ks[x := k], a + [x] + b)
  {
    var ks2 := ks[x := k];
    var s := a + [x] + b;
    SortedSplit(ks, a, b);
    forall i, j | 0 <= i < j < |s|
      ensures Less(ks2[s[i]], ks2[s[j]])
    {
      if j < |a| {
        assert s[i] == (a + b)[i] && s[j] == (a + b)[j];
      } else if j == |a| {
        assert s[i] in a;
      } else if i < |a| {
        assert s[i] in a && s[j] in b;
        assert s[j] == b[j - |a| - 1];
      } else if i == |a| {
        assert s[j] in b;
        assert s[j] == b[j - |a| - 1];
      } else {
        assert s[i] == (a + b)[i - 1] && s[j] == (a + b)[j - 1];
      }
    }
  }

  /** Dropping one handle from a sorted run keeps it sorted. */
  lemma {:induction false} SortedRemove(ks: map<Handle, Key>, s: seq<Handle>, i: nat)
    requires SortedBy(ks, s) && i < |s|
    ensures SortedBy(ks, s[..i] + s[i + 1..])
  {
    var u := s[..i] + s[i + 1..];
    forall a, b | 0 <= a < b < |u|
      ensures Less(ks[u[a]], ks[u[b]])
    {
      var a' := if a < i then a else a + 1;
      var b' := if b < i then b else b + 1;
      assert u[a] == s[a'] && u[b] == s[b'];
    }
  }

  // ----------------------------------------------------------- contents

  /** The (key, payload) pairs of the handles of `s`, in order. */
  ghost function EntriesOf<D>(ks: map<Handle, Key>, ds: map<Handle, D>, s: seq<Handle>): (e: seq<(Key, D)>)
    requires forall h | h in s :: h in ks && h in ds
    ensures |e| == |s|
  {
    seq(|s|, i requires 0 <= i < |s| => (ks[s[i]], ds[s[i]]))
  }

  lemma {:induction false} EntriesSplit<D>(ks: map<Handle, Key>, ds: map<Handle, D>, a: seq<Handle>, b: seq<Handle>)
    requires forall h | h in a + b :: h in ks && h in ds
    ensures EntriesOf(ks, ds, a + b) == EntriesOf(ks, ds, a) + EntriesOf(ks, ds, b)
  {
    assert forall i | 0 <= i < |a| :: (a + b)[i] == a[i];
    assert forall i | |a| <= i < |a + b| :: (a + b)[i] == b[i - |a|];
  }

  lemma {:induction false} EntriesFrame<D>(ks1: map<Handle, Key>, ds1: map<Handle, D>, ks2: map<Handle, Key>, ds2: map<Handle, D>, s: seq<Handle>)
    requires forall h | h in s :: h in ks1 && h in ds1 && h in ks2 && h in ds2 && ks2[h] == ks1[h] && ds2[h] == ds1[h]
    ensures EntriesOf(ks1, ds1, s) == EntriesOf(ks2, ds2, s)
  {
  }
}
