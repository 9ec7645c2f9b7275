/**
 * The climb of rebalance_tree as a property of heights: what holds each
 * time it visits a node on the way from a changed position up to the
 * root, and why every node is an AVL node once it has passed.
 */
module AvlClimb {
  import opened Common
  import opened AvlShape
  import opened AvlArena

  /** The subtree one level above the hole of `c`, holding `f`. */
  function Up(c: Ctx, f: Shape): Shape
    requires c != Top
  {
    match c
    case InL(_, p, s) => Br(f, p, s)
    case InR(s, p, _) => Br(s, p, f)
  }

  /**
   * rebalance_tree is about to visit the root of `f`, at path `c`, in a
   * slot whose height was `ho` before the insertion or removal: the
   * children are cached AVL trees at most two apart, the rebalanced node
   * lands within one of `ho`, and the path around it fits `ho`.
   */
  ghost predicate Climbing(hs: map<Handle, int>, bs: map<Handle, int>, c: Ctx, f: Shape, ho: int)
  {
    f.Br? && Balanced(f.l) && Balanced(f.r) && Cached(hs, bs, f.l) && Cached(hs, bs, f.r)
    && -2 <= Height(f.l) - Height(f.r) <= 2 && -1 <= Height(Rebal(f)) - ho <= 1
    && CtxOk(hs, bs, c, ho)
  }

  /**
   * How much of the climb is left when rebalance_tree is about to visit
   * `f` at path `c`: two steps per level above it, and one more if the
   * node still needs a rotation, after which the same slot is visited
   * again.
   */
  ghost function Remaining(c: Ctx, f: Shape): nat
  {
    2 * Depth(c) + (if Rebal(f) == f then 1 else 2)
  }

  /** A rotation leaves the slot settled: the measure drops by one. */
  lemma {:induction false} RotationProgress(c: Ctx, f: Shape)
    requires Rebal(f) != f && Rebal(Rebal(f)) == Rebal(f)
    ensures Remaining(c, Rebal(f)) < Remaining(c, f)
  {
  }

  /** Moving up to the parent drops the measure by at least one. */
  lemma {:induction false} ClimbProgress(c: Ctx, f: Shape)
    requires c != Top
    ensures Remaining(c.up, Up(c, f)) < Remaining(c, f)
  {
  }

  /**
   * The visit caches the node's height and balance factor; nothing else
   * changes, and the balance factor tells whether a rotation is due.
   */
  lemma {:induction false} ClimbVisit(hs: map<Handle, int>, bs: map<Handle, int>, c: Ctx, f: Shape, ho: int)
    requires Climbing(hs, bs, c, f, ho) && Distinct(Plug(c, f))
    ensures var hs1, bs1 := hs[f.h := Height(f)], bs[f.h := Bf(f)];
            Climbing(hs1, bs1, c, f, ho) && Cached(hs1, bs1, f)
    ensures Rebal(f) == f <==> -1 <= Bf(f) <= 1
    ensures Rebal(f) == f ==> Balanced(f) && -1 <= Height(f) - ho <= 1
    ensures Bf(f) == 2 ==> f.l.Br? && (Bf(f.l) == -1 ==> f.l.r.Br?)
    ensures Bf(f) == -2 ==> f.r.Br? && (Bf(f.r) == 1 ==> f.r.l.Br?)
  {
    PlugDistinct(c, f);
    var x := f.h;
    assert x !in CtxHandles(c);
    CachedFresh(hs, bs, f.l, x, Height(f), Bf(f));
    CachedFresh(hs, bs, f.r, x, Height(f), Bf(f));
    CtxOkFresh(hs, bs, c, ho, x, Height(f), Bf(f));
    RebalBalanced(f);
    HeightBounds(f.l);
    HeightBounds(f.r);
    if f.l.Br? {
      HeightBounds(f.l.l);
      HeightBounds(f.l.r);
    }
    if f.r.Br? {
      HeightBounds(f.r.l);
      HeightBounds(f.r.r);
    }
  }

  /**
   * A balanced, cached node ends the visit: its parent is next, with the
   * slot height the parent had before.
   */
  lemma {:induction false} ClimbUp(hs: map<Handle, int>, bs: map<Handle, int>, c: Ctx, f: Shape, ho: int)
    requires c != Top && Balanced(f) && Cached(hs, bs, f) && CtxOk(hs, bs, c, ho)
    requires -1 <= Height(f) - ho <= 1
    ensures Climbing(hs, bs, c.up, Up(c, f), 1 + Max(ho, Height(c.sib)))
    ensures Plug(c.up, Up(c, f)) == Plug(c, f) && Depth(c.up) < Depth(c)
  {
    match c
    case InL(up, p, s) =>
      RebalNear(f, p, s, ho, Height(s));
    case InR(s, p, up) =>
      RebalNear(s, p, f, Height(s), ho);
  }

  /**
   * What a rotation leaves for rebalance_tree to fix: a balanced subtree
   * with two children whose own children are still cached.
   */
  ghost predicate Fixable(hs: map<Handle, int>, bs: map<Handle, int>, u: Shape)
  {
    u.Br? && u.l.Br? && u.r.Br? && Balanced(u) && Distinct(u)
    && Cached(hs, bs, u.l.l) && Cached(hs, bs, u.l.r) && Cached(hs, bs, u.r.l) && Cached(hs, bs, u.r.r)
  }

  /** Each of the four rotations leaves its subtree fixable. */
  lemma {:induction false} RebalFixable(hs: map<Handle, int>, bs: map<Handle, int>, f: Shape)
    requires f.Br? && Balanced(f.l) && Balanced(f.r) && Cached(hs, bs, f.l) && Cached(hs, bs, f.r)
    requires Distinct(f) && (Bf(f) == 2 || Bf(f) == -2)
    ensures Fixable(hs, bs, Rebal(f))
    ensures Bf(f) == 2 ==> Rebal(f).r.h == f.h
    ensures Bf(f) == -2 ==> Rebal(f).l.h == f.h
  {
    RebalBalanced(f);
    RebalKeeps(f);
    HeightBounds(f.l);
    HeightBounds(f.r);
    if Bf(f) == 2 {
      HeightBounds(f.l.l);
      HeightBounds(f.l.r);
      if Bf(f.l) == -1 {
        assert Rebal(f) == Br(Br(f.l.l, f.l.h, f.l.r.l), f.l.r.h, Br(f.l.r.r, f.h, f.r));
      } else {
        assert Rebal(f) == Br(f.l.l, f.l.h, Br(f.l.r, f.h, f.r));
      }
    } else {
      HeightBounds(f.r.l);
      HeightBounds(f.r.r);
      if Bf(f.r) == 1 {
        assert Rebal(f) == Br(Br(f.l, f.h, f.r.l.l), f.r.l.h, Br(f.r.l.r, f.r.h, f.r.r));
      } else {
        assert Rebal(f) == Br(Br(f.l, f.h, f.r.l), f.r.h, f.r.r);
      }
    }
  }

  /**
   * What a rotation at a node due for one leaves for the rest of the
   * visit: the rotated subtree is fixable, the path around it still fits
   * the slot height, and the node sits just below the new subtree root.
   */
  lemma {:induction false} RotationLeaves(hs: map<Handle, int>, bs: map<Handle, int>, c: Ctx, f: Shape, ho: int)
    requires Climbing(hs, bs, c, f, ho) && Distinct(Plug(c, f)) && (Bf(f) == 2 || Bf(f) == -2)
    ensures Fixable(hs, bs, Rebal(f)) && CtxOk(hs, bs, c, ho) && -1 <= Height(Rebal(f)) - ho <= 1
    ensures f.h == Rebal(f).l.h || f.h == Rebal(f).r.h
  {
    PlugDistinct(c, f);
    RebalFixable(hs, bs, f);
  }

  /** rebalance_tree recomputes the left child of the new subtree root first. */
  lemma {:induction false} FixLeft(hs: map<Handle, int>, bs: map<Handle, int>, c: Ctx, u: Shape, ho: int)
    requires Fixable(hs, bs, u) && CtxOk(hs, bs, c, ho) && Handles(u) !! CtxHandles(c)
    ensures var hs1, bs1 := hs[u.l.h := Height(u.l)], bs[u.l.h := Bf(u.l)];
            Cached(hs1, bs1, u.l) && Cached(hs1, bs1, u.r.l) && Cached(hs1, bs1, u.r.r) && CtxOk(hs1, bs1, c, ho)
  {
    var a := u.l.h;
    assert a in Handles(u.l) && Distinct(u.l);
    assert a !in Handles(u.l.l) + Handles(u.l.r) + Handles(u.r) + CtxHandles(c);
    CachedFresh(hs, bs, u.l.l, a, Height(u.l), Bf(u.l));
    CachedFresh(hs, bs, u.l.r, a, Height(u.l), Bf(u.l));
    CachedFresh(hs, bs, u.r.l, a, Height(u.l), Bf(u.l));
    CachedFresh(hs, bs, u.r.r, a, Height(u.l), Bf(u.l));
    CtxOkFresh(hs, bs, c, ho, a, Height(u.l), Bf(u.l));
  }

  /**
   * Then the right child; afterwards the subtree root is the next to
   * visit, in the same slot, and it needs no rotation.
   */
  lemma {:induction false} FixRight(hs: map<Handle, int>, bs: map<Handle, int>, c: Ctx, u: Shape, ho: int)
    requires u.Br? && u.l.Br? && u.r.Br? && Balanced(u) && Distinct(u) && Handles(u) !! CtxHandles(c)
    requires Cached(hs, bs, u.l) && Cached(hs, bs, u.r.l) && Cached(hs, bs, u.r.r) && CtxOk(hs, bs, c, ho)
    requires -1 <= Height(u) - ho <= 1
    ensures var hs2, bs2 := hs[u.r.h := Height(u.r)], bs[u.r.h := Bf(u.r)];
            Climbing(hs2, bs2, c, u, ho) && Rebal(u) == u
  {
    var b := u.r.h;
    assert b in Handles(u.r) && Distinct(u.r);
    assert b !in Handles(u.r.l) + Handles(u.r.r) + Handles(u.l) + CtxHandles(c);
    CachedFresh(hs, bs, u.l, b, Height(u.r), Bf(u.r));
    CachedFresh(hs, bs, u.r.l, b, Height(u.r), Bf(u.r));
    CachedFresh(hs, bs, u.r.r, b, Height(u.r), Bf(u.r));
    CtxOkFresh(hs, bs, c, ho, b, Height(u.r), Bf(u.r));
    RebalBalanced(u);
  }
}
