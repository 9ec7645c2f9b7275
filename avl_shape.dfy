/**
 * The shape of an AVL tree as a value: which node handle sits where.
 * The arena of node fields (module AvlArena) is tied to a shape there;
 * this module holds the facts about shapes alone: heights, the in-order
 * sequence, paths from a subtree up to the root, the four rotations of
 * GenericNode.h / ComplexNode.h and the balancing step of rebalance_tree.
 */
module AvlShape {
  import opened Common

  datatype Shape = Nil | Br(l: Shape, h: Handle, r: Shape)

  /**
   * The way from a subtree up to the root (a zipper): each frame holds
   * the parent's handle and the sibling subtree, innermost frame first.
   */
  datatype Ctx = Top | InL(up: Ctx, p: Handle, sib: Shape) | InR(sib: Shape, p: Handle, up: Ctx)

  function Max(a: int, b: int): int { if a < b then b else a }

  /** Height as the nodes cache it: -1 for no subtree, 0 for a leaf. */
  function Height(t: Shape): int
  {
    match t
    case Nil => -1
    case Br(l, _, r) => 1 + Max(Height(l), Height(r))
  }

  function Size(t: Shape): nat
  {
    match t
    case Nil => 0
    case Br(l, _, r) => Size(l) + 1 + Size(r)
  }

  /** The handles in in-order (left subtree, node, right subtree). */
  function In(t: Shape): seq<Handle>
  {
    match t
    case Nil => []
    case Br(l, h, r) => In(l) + [h] + In(r)
  }

  function Handles(t: Shape): set<Handle>
  {
    match t
    case Nil => {}
    case Br(l, h, r) => Handles(l) + {h} + Handles(r)
  }

  /** The pointer a parent holds to this subtree. */
  function PtrOf(t: Shape): Ptr
  {
    if t.Nil? then Null else At(t.h)
  }

  /** Balance factor: height of the left subtree minus that of the right. */
  function Bf(t: Shape): int
  {
    match t
    case Nil => 0
    case Br(l, _, r) => Height(l) - Height(r)
  }

  /** No handle occurs twice. */
  predicate Distinct(t: Shape)
  {
    match t
    case Nil => true
    case Br(l, h, r) =>
      Distinct(l) && Distinct(r) && h !in Handles(l) && h !in Handles(r) && Handles(l) !! Handles(r)
  }

  /** The AVL property: every balance factor is -1, 0 or 1. */
  predicate Balanced(t: Shape)
  {
    match t
    case Nil => true
    case Br(l, _, r) => -1 <= Height(l) - Height(r) <= 1 && Balanced(l) && Balanced(r)
  }

  /** A tree holding `x` that is not `x` alone has at least two nodes in order. */
  lemma NotSingle(t: Shape, x: Handle)
    requires x in Handles(t) && t != Br(Nil, x, Nil)
    ensures |In(t)| >= 2
  {
    var l, h, r := t.l, t.h, t.r;
    if l.Br? {
      assert |In(l)| >= 1;
    } else if r.Br? {
      assert |In(r)| >= 1;
    }
  }

  lemma HeightBounds(t: Shape)
    ensures Height(t) >= -1
    ensures t.Br? ==> Height(t) >= 0
    ensures |In(t)| == Size(t)
  {
  }

  // ---------------------------------------------------------------- paths

  /** The whole tree obtained by putting `f` into the hole of `c`. */
  function Plug(c: Ctx, f: Shape): Shape
    decreases c
  {
    match c
    case Top => f
    case InL(up, p, s) => Plug(up, Br(f, p, s))
    case InR(s, p, up) => Plug(up, Br(s, p, f))
  }

  function Depth(c: Ctx): nat
  {
    match c
    case Top => 0
    case InL(up, _, _) => Depth(up) + 1
    case InR(_, _, up) => Depth(up) + 1
  }

  /** Handles of the frames and of the siblings along the path. */
  function CtxHandles(c: Ctx): set<Handle>
  {
    match c
    case Top => {}
    case InL(up, p, s) => {p} + Handles(s) + CtxHandles(up)
    case InR(s, p, up) => {p} + Handles(s) + CtxHandles(up)
  }

  predicate CtxDistinct(c: Ctx)
  {
    match c
    case Top => true
    case InL(up, p, s) =>
      Distinct(s) && p !in Handles(s) && CtxDistinct(up) && ({p} + Handles(s)) !! CtxHandles(up)
    case InR(s, p, up) =>
      Distinct(s) && p !in Handles(s) && CtxDistinct(up) && ({p} + Handles(s)) !! CtxHandles(up)
  }

  /** The handles that come before the hole in in-order. */
  function Pre(c: Ctx): seq<Handle>
  {
    match c
    case Top => []
    case InL(up, _, _) => Pre(up)
    case InR(s, p, up) => Pre(up) + In(s) + [p]
  }

  /** The handles that come after the hole in in-order. */
  function Suf(c: Ctx): seq<Handle>
  {
    match c
    case Top => []
    case InL(up, p, s) => [p] + In(s) + Suf(up)
    case InR(_, _, up) => Suf(up)
  }

  /** The path `i` continued by the path `o` (the top of `i` is the hole of `o`). */
  function Append(i: Ctx, o: Ctx): Ctx
  {
    match i
    case Top => o
    case InL(up, p, s) => InL(Append(up, o), p, s)
    case InR(s, p, up) => InR(s, p, Append(up, o))
  }

  /** Every frame goes left: the path the successor search takes. */
  predicate AllLeft(c: Ctx)
  {
    match c
    case Top => true
    case InL(up, _, _) => AllLeft(up)
    case InR(_, _, _) => false
  }

  lemma {:induction false} PlugIn(c: Ctx, f: Shape)
    ensures In(Plug(c, f)) == Pre(c) + In(f) + Suf(c)
    decreases c
  {
    match c
    case Top =>
    case InL(up, p, s) =>
      PlugIn(up, Br(f, p, s));
      GroupLeft(Pre(up), In(f), [p], In(s), Suf(up));
    case InR(s, p, up) =>
      PlugIn(up, Br(s, p, f));
      GroupRight(Pre(up), In(s), [p], In(f), Suf(up));
  }

  lemma GroupLeft<X>(a: seq<X>, b: seq<X>, x: seq<X>, y: seq<X>, e: seq<X>)
    ensures a + (b + x + y) + e == a + b + (x + y + e)
  {
  }

  lemma GroupRight<X>(a: seq<X>, x: seq<X>, y: seq<X>, b: seq<X>, e: seq<X>)
    ensures a + (x + y + b) + e == a + x + y + b + e
  {
  }

  lemma {:induction false} PlugHandles(c: Ctx, f: Shape)
    ensures Handles(Plug(c, f)) == Handles(f) + CtxHandles(c)
    decreases c
  {
    match c
    case Top =>
    case InL(up, p, s) =>
      PlugHandles(up, Br(f, p, s));
    case InR(s, p, up) =>
      PlugHandles(up, Br(s, p, f));
  }

  lemma {:induction false} PlugDistinct(c: Ctx, f: Shape)
    ensures Distinct(Plug(c, f)) <==> Distinct(f) && CtxDistinct(c) && Handles(f) !! CtxHandles(c)
    decreases c
  {
    match c
    case Top =>
    case InL(up, p, s) =>
      PlugDistinct(up, Br(f, p, s));
    case InR(s, p, up) =>
      PlugDistinct(up, Br(s, p, f));
  }

  lemma {:induction false} PlugAppend(i: Ctx, o: Ctx, f: Shape)
    ensures Plug(Append(i, o), f) == Plug(o, Plug(i, f))
    ensures CtxHandles(Append(i, o)) == CtxHandles(i) + CtxHandles(o)
    ensures Depth(Append(i, o)) == Depth(i) + Depth(o)
    decreases i
  {
    match i
    case Top =>
    case InL(up, p, s) =>
      PlugAppend(up, o, Br(f, p, s));
    case InR(s, p, up) =>
      PlugAppend(up, o, Br(s, p, f));
  }

  /** Below a non-empty path the root of the whole tree is the outermost frame. */
  lemma {:induction false} PlugRoot(c: Ctx, f: Shape, g: Shape)
    requires c != Top
    ensures Plug(c, f).Br? && Plug(c, g).Br? && Plug(c, f).h == Plug(c, g).h && Plug(c, f).h in CtxHandles(c)
    decreases c
  {
    match c
    case InL(up, p, s) =>
      if up != Top {
        PlugRoot(up, Br(f, p, s), Br(g, p, s));
      }
    case InR(s, p, up) =>
      if up != Top {
        PlugRoot(up, Br(s, p, f), Br(s, p, g));
      }
  }

  /** The roots of a tree and of its two subtrees are among its handles. */
  lemma {:induction false} SubtreeRoots(t: Shape)
    requires t.Br?
    ensures t.h in Handles(t) && Handles(t.l) <= Handles(t) && Handles(t.r) <= Handles(t)
    ensures t.l.Br? ==> t.l.h in Handles(t)
    ensures t.r.Br? ==> t.r.h in Handles(t)
  {
  }

  /** On a path that only goes left nothing comes before the hole. */
  lemma {:induction false} AllLeftPre(c: Ctx)
    requires AllLeft(c)
    ensures Pre(c) == []
  {
    match c
    case Top =>
    case InL(up, _, _) =>
      AllLeftPre(up);
  }

  // ------------------------------------------------------------ rotations

  /** ll_rotation: the left child moves up and the node becomes its right child. */
  function LL(t: Shape): Shape
  {
    match t
    case Br(Br(bl, b, br), a, ar) => Br(bl, b, Br(br, a, ar))
    case _ => t
  }

  /** rr_rotation: the right child moves up and the node becomes its left child. */
  function RR(t: Shape): Shape
  {
    match t
    case Br(al, a, Br(bl, b, br)) => Br(Br(al, a, bl), b, br)
    case _ => t
  }

  /** lr_rotation: rr_rotation at the left child, then ll_rotation at the node. */
  function LR(t: Shape): Shape
  {
    match t
    case Nil => Nil
    case Br(l, a, r) => LL(Br(RR(l), a, r))
  }

  /** rl_rotation: ll_rotation at the right child, then rr_rotation at the node. */
  function RL(t: Shape): Shape
  {
    match t
    case Nil => Nil
    case Br(l, a, r) => RR(Br(l, a, LL(r)))
  }

  /**
   * What rebalance_tree does to the subtree of the node it visits: a
   * balance factor of 2 calls for lr_rotation when the left child leans
   * right and ll_rotation otherwise; -2 mirrors this; anything else leaves
   * the shape alone.
   */
  function Rebal(t: Shape): Shape
  {
    match t
    case Nil => Nil
    case Br(l, _, r) =>
      if Bf(t) == 2 then (if Bf(l) == -1 then LR(t) else LL(t))
      else if Bf(t) == -2 then (if Bf(r) == 1 then RL(t) else RR(t))
      else t
  }

  /** A rotation keeps the in-order sequence, the nodes and their number. */
  predicate KeepsOrder(t: Shape, u: Shape)
  {
    In(u) == In(t) && Handles(u) == Handles(t) && Size(u) == Size(t)
    && (Distinct(t) ==> Distinct(u)) && (t.Br? <==> u.Br?)
  }

  lemma {:induction false} LLKeeps(t: Shape)
    ensures KeepsOrder(t, LL(t))
  {
    match t
    case Br(Br(bl, b, br), a, ar) =>
      assert In(LL(t)) == In(bl) + [b] + (In(br) + [a] + In(ar));
      if Distinct(t) {
        assert Distinct(Br(bl, b, br));
        assert Distinct(Br(br, a, ar));
      }
    case _ =>
  }

  lemma {:induction false} RRKeeps(t: Shape)
    ensures KeepsOrder(t, RR(t))
  {
    match t
    case Br(al, a, Br(bl, b, br)) =>
      assert In(RR(t)) == (In(al) + [a] + In(bl)) + [b] + In(br);
      if Distinct(t) {
        assert Distinct(Br(bl, b, br));
        assert Distinct(Br(al, a, bl));
      }
    case _ =>
  }

  lemma {:induction false} RebalKeeps(t: Shape)
    ensures KeepsOrder(t, Rebal(t))
  {
    match t
    case Nil =>
    case Br(l, a, r) =>
      if Bf(t) == 2 {
        if Bf(l) == -1 {
          RRKeeps(l);
          LLKeeps(Br(RR(l), a, r));
        } else {
          LLKeeps(t);
        }
      } else if Bf(t) == -2 {
        if Bf(r) == 1 {
          LLKeeps(r);
          RRKeeps(Br(l, a, LL(r)));
        } else {
          RRKeeps(t);
        }
      }
  }

  lemma {:induction false} LLBalanced(bl: Shape, b: Handle, br: Shape, a: Handle, ar: Shape)
    requires Balanced(bl) && Balanced(br) && Balanced(ar)
    requires 0 <= Height(bl) - Height(br) <= 1
    requires Height(ar) == Max(Height(bl), Height(br)) - 1
    ensures Balanced(Br(bl, b, Br(br, a, ar)))
    ensures Height(Br(bl, b, Br(br, a, ar))) == Height(Br(bl, b, br)) + 1 - (Height(bl) - Height(br))
  {
  }

  lemma {:induction false} RRBalanced(al: Shape, a: Handle, bl: Shape, b: Handle, br: Shape)
    requires Balanced(al) && Balanced(bl) && Balanced(br)
    requires 0 <= Height(br) - Height(bl) <= 1
    requires Height(al) == Max(Height(bl), Height(br)) - 1
    ensures Balanced(Br(Br(al, a, bl), b, br))
    ensures Height(Br(Br(al, a, bl), b, br)) == Height(Br(bl, b, br)) + 1 - (Height(br) - Height(bl))
  {
  }

  lemma {:induction false} LRBalanced(bl: Shape, b: Handle, cl: Shape, c: Handle, cr: Shape, a: Handle, ar: Shape)
    requires Balanced(bl) && Balanced(cl) && Balanced(cr) && Balanced(ar)
    requires -1 <= Height(cl) - Height(cr) <= 1
    requires Height(bl) == Max(Height(cl), Height(cr)) && Height(ar) == Height(bl)
    ensures Balanced(Br(Br(bl, b, cl), c, Br(cr, a, ar)))
    ensures Height(Br(Br(bl, b, cl), c, Br(cr, a, ar))) == Height(bl) + 2
  {
  }

  lemma {:induction false} RLBalanced(al: Shape, a: Handle, cl: Shape, c: Handle, cr: Shape, b: Handle, br: Shape)
    requires Balanced(al) && Balanced(cl) && Balanced(cr) && Balanced(br)
    requires -1 <= Height(cl) - Height(cr) <= 1
    requires Height(br) == Max(Height(cl), Height(cr)) && Height(al) == Height(br)
    ensures Balanced(Br(Br(al, a, cl), c, Br(cr, b, br)))
    ensures Height(Br(Br(al, a, cl), c, Br(cr, b, br))) == Height(br) + 2
  {
  }

  /** The rotation at a node two levels heavier on the left yields an AVL tree at most one level taller than the left subtree. */
  lemma {:induction false} LeftHeavyBalanced(t: Shape)
    requires t.Br? && Balanced(t.l) && Balanced(t.r) && Bf(t) == 2
    ensures Balanced(Rebal(t)) && Height(t.l) <= Height(Rebal(t)) <= Height(t.l) + 1
  {
    var Br(l, a, r) := t;
    HeightBounds(l);
    HeightBounds(r);
    var Br(bl, b, lr) := l;
    if Bf(l) == -1 {
      HeightBounds(lr);
      var Br(cl, c, cr) := lr;
      assert Rebal(t) == Br(Br(bl, b, cl), c, Br(cr, a, r));
      LRBalanced(bl, b, cl, c, cr, a, r);
    } else {
      assert Rebal(t) == Br(bl, b, Br(lr, a, r));
      LLBalanced(bl, b, lr, a, r);
    }
  }

  /** The mirror image of LeftHeavyBalanced. */
  lemma {:induction false} RightHeavyBalanced(t: Shape)
    requires t.Br? && Balanced(t.l) && Balanced(t.r) && Bf(t) == -2
    ensures Balanced(Rebal(t)) && Height(t.r) <= Height(Rebal(t)) <= Height(t.r) + 1
  {
    var Br(l, a, r) := t;
    HeightBounds(l);
    HeightBounds(r);
    var Br(rl, b, br) := r;
    if Bf(r) == 1 {
      HeightBounds(rl);
      var Br(cl, c, cr) := rl;
      assert Rebal(t) == Br(Br(l, a, cl), c, Br(cr, b, br));
      RLBalanced(l, a, cl, c, cr, b, br);
    } else {
      assert Rebal(t) == Br(Br(l, a, rl), b, br);
      RRBalanced(l, a, rl, b, br);
    }
  }

  /**
   * A node whose subtrees are AVL trees differing in height by at most 2
   * becomes an AVL tree after the step; a rotation costs at most one
   * level of the taller side, and no rotation happens when the node is
   * already balanced.
   */
  lemma {:induction false} RebalBalanced(t: Shape)
    requires t.Br? && Balanced(t.l) && Balanced(t.r) && -2 <= Bf(t) <= 2
    ensures Balanced(Rebal(t))
    ensures -1 <= Bf(t) <= 1 ==> Rebal(t) == t
    ensures Bf(t) == 2 ==> Height(t.l) <= Height(Rebal(t)) <= Height(t.l) + 1
    ensures Bf(t) == -2 ==> Height(t.r) <= Height(Rebal(t)) <= Height(t.r) + 1
  {
    if Bf(t) == 2 {
      LeftHeavyBalanced(t);
    } else if Bf(t) == -2 {
      RightHeavyBalanced(t);
    }
  }

  /**
   * The height bound rebalance_tree relies on while it climbs: if a node
   * was balanced with subtree heights hl0 and hr0 and then one subtree
   * kept its height while the other changed by at most one, the balanced
   * result differs by at most one from the node's original height.
   */
  lemma {:induction false} RebalNear(l: Shape, h: Handle, r: Shape, hl0: int, hr0: int)
    requires Balanced(l) && Balanced(r)
    requires -1 <= hl0 - hr0 <= 1
    requires (Height(l) == hl0 && -1 <= Height(r) - hr0 <= 1) || (-1 <= Height(l) - hl0 <= 1 && Height(r) == hr0)
    ensures -2 <= Height(l) - Height(r) <= 2
    ensures -1 <= Height(Rebal(Br(l, h, r))) - (1 + Max(hl0, hr0)) <= 1
  {
    RebalBalanced(Br(l, h, r));
  }
}
