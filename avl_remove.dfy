/**
 * The pointer work of remove: make_node_leaf's three cases (the node is
 * a leaf, has one child, or has two and is replaced by its in-order
 * successor) as functions of the links, and why afterwards the links
 * describe the tree without the node, in the same order, and leave
 * rebalance_tree a climb it can finish.
 */
module AvlRemove {
  import opened Common
  import opened AvlShape
  import opened AvlArena
  import opened AvlState
  import opened AvlClimb
  import opened AvlRelink

  // ------------------------------------------------------------ paths to a node

  /** The path from the root of `t` down to its node `x`, and the subtree there. */
  ghost function Locate(t: Shape, x: Handle): (r: (Ctx, Shape))
    requires x in Handles(t)
    ensures Plug(r.0, r.1) == t && r.1.Br? && r.1.h == x
    decreases t
  {
    if t.h == x then (Top, t)
    else if x in Handles(t.l) then
      var r := Locate(t.l, x);
      PlugAppend(r.0, InL(Top, t.h, t.r), r.1);
      (Append(r.0, InL(Top, t.h, t.r)), r.1)
    else
      var r := Locate(t.r, x);
      PlugAppend(r.0, InR(t.l, t.h, Top), r.1);
      (Append(r.0, InR(t.l, t.h, Top)), r.1)
  }

  // ------------------------------------------------------------ the writes

  /** The parent `par` of `x` points at `y` instead: its right pointer if that held `x`, else its left one. */
  function Hook(g: Links, par: Ptr, x: Handle, y: Ptr): (r: Links)
    requires par.At? ==> par.h in g.right
    ensures r.parent == g.parent
    ensures par.Null? ==> r == g
    ensures par.At? ==> (r.left == g.left && r.right == g.right[par.h := y]) || (r.right == g.right && r.left == g.left[par.h := y])
  {
    if par.Null? then g
    else if g.right[par.h] == At(x) then g.(right := g.right[par.h := y])
    else g.(left := g.left[par.h := y])
  }

  /** The same, testing the left pointer first, as the one-child case does. */
  function HookLeft(g: Links, par: Ptr, x: Handle, y: Ptr): Links
    requires par.At? ==> par.h in g.left
  {
    if par.Null? then g
    else if g.left[par.h] == At(x) then g.(left := g.left[par.h := y])
    else g.(right := g.right[par.h := y])
  }

  /** The node `n`, when there is one, points back at `p`. */
  function SetParent(g: Links, n: Ptr, p: Ptr): Links
  {
    if n.Null? then g else g.(parent := g.parent[n.h := p])
  }

  /** The three pointers of `h` are there to read. */
  predicate Has(g: Links, h: Handle)
  {
    h in g.left && h in g.right && h in g.parent
  }

  /** make_node_leaf on a leaf: its parent lets go of it. */
  function CutLeaf(g: Links, x: Handle): Links
    requires Has(g, x) && (g.parent[x].At? ==> g.parent[x].h in g.right)
  {
    Hook(g, g.parent[x], x, Null)
  }

  /** make_node_leaf on a node with one child: the child takes its place under its parent. */
  function Splice(g: Links, x: Handle): Links
    requires Has(g, x) && (g.parent[x].At? ==> g.parent[x].h in g.left)
  {
    var child := if g.left[x].At? then g.left[x] else g.right[x];
    HookLeft(SetParent(g, child, g.parent[x]), g.parent[x], x, child)
  }

  /**
   * The first half of make_node_leaf on a node `x` with two children and
   * in-order successor `y`: `y` leaves its place, to its right child
   * unless `y` is the right child of `x` itself.
   */
  function Vacate(g: Links, x: Handle, y: Handle): (r: Links)
    requires Has(g, x) && Has(g, y) && g.parent[y].At? && g.parent[y].h in g.right && g.right[y] != At(x)
    ensures Has(r, x) && Has(r, y) && r.parent[x] == g.parent[x] && g.right.Keys <= r.right.Keys
  {
    var sp := g.parent[y];
    if g.right[y].Null? then Hook(g, sp, y, Null)
    else if g.right[x] != At(y) then Hook(SetParent(g, g.right[y], sp), sp, y, g.right[y])
    else g
  }

  /** The second half: `y` takes over the parent of `x` and both its children. */
  function Replace(g: Links, x: Handle, y: Handle): Links
    requires Has(g, x) && Has(g, y) && (g.parent[x].At? ==> g.parent[x].h in g.right)
  {
    var g2 := Hook(g.(parent := g.parent[y := g.parent[x]]), g.parent[x], x, At(y));
    var g3 := SetParent(g2.(left := g2.left[y := g2.left[x]]), g2.left[x], At(y));
    if At(y) != g3.right[x] then SetParent(g3.(right := g3.right[y := g3.right[x]]), g3.right[x], At(y))
    else g3
  }

  /** make_node_leaf on a node `x` with two children, `y` the left-most node of its right subtree. */
  function Promote(g: Links, x: Handle, y: Handle): Links
    requires Has(g, x) && Has(g, y) && g.parent[y].At? && g.parent[y].h in g.right && g.right[y] != At(x)
    requires g.parent[x].At? ==> g.parent[x].h in g.right
  {
    Replace(Vacate(g, x, y), x, y)
  }

  /** The pointer maps after Replace, written out, when the parent of `x` is neither `x` nor `y`. */
  lemma {:induction false} ReplaceMaps(g: Links, x: Handle, y: Handle)
    requires Has(g, x) && Has(g, y) && (g.parent[x].At? ==> g.parent[x].h in g.right && g.parent[x].h != x)
    ensures var hooked, lx, rx := Hook(g, g.parent[x], x, At(y)), g.left[x], g.right[x];
            var p := g.parent[y := g.parent[x]];
            var p' := if lx.At? then p[lx.h := At(y)] else p;
            && Replace(g, x, y).left == hooked.left[y := lx]
            && Replace(g, x, y).right == (if rx != At(y) then hooked.right[y := rx] else hooked.right)
            && Replace(g, x, y).parent == (if rx != At(y) && rx.At? then p'[rx.h := At(y)] else p')
  {
    var px, lx, rx := g.parent[x], g.left[x], g.right[x];
    var hooked := Hook(g, px, x, At(y));
    var p := g.parent[y := px];
    var g2 := Hook(g.(parent := p), px, x, At(y));
    assert g2 == hooked.(parent := p);
    assert hooked.left[x] == lx && hooked.right[x] == rx;
    var g3 := SetParent(g2.(left := g2.left[y := lx]), lx, At(y));
    assert g3.left == hooked.left[y := lx] && g3.right == hooked.right;
    assert g3.parent == if lx.At? then p[lx.h := At(y)] else p;
  }

  // ------------------------------------------------------------ framing paths

  /** The outermost frame of a path: the root of any tree it is part of. */
  function Outer(c: Ctx): Handle
    requires c != Top
  {
    if c.up == Top then c.p else Outer(c.up)
  }

  lemma {:induction false} OuterPlug(c: Ctx, f: Shape)
    requires c != Top
    ensures Plug(c, f).Br? && Plug(c, f).h == Outer(c) && Outer(c) in CtxHandles(c)
    decreases c
  {
    if c.up != Top {
      OuterPlug(c.up, Up(c, f));
    }
  }

  /**
   * A linked path stays linked when nothing on it changes but the parent
   * pointer of its outermost frame, which the path does not constrain.
   */
  lemma {:induction false} CtxLinkedFrameTop(g1: Links, g2: Links, c: Ctx, fp: Ptr)
    requires CtxLinked(g1, c, fp) && CtxDistinct(c) && c != Top
    requires Same(g1.left, g2.left, CtxHandles(c)) && Same(g1.right, g2.right, CtxHandles(c))
    requires Same(g1.parent, g2.parent, CtxHandles(c) - {Outer(c)})
    requires fp.At? ==> Same(g1.parent, g2.parent, {fp.h})
    ensures CtxLinked(g2, c, fp)
    decreases c
  {
    var s := c.sib;
    if c.up != Top {
      OuterPlug(c.up, Nil);
      assert Outer(c) in CtxHandles(c.up) && Outer(c) != c.p && Outer(c) !in Handles(s);
      CtxLinkedFrameTop(g1, g2, c.up, At(c.p));
    }
    LinkedFrame(g1, g2, s);
    if s.Br? {
      SubtreeRoots(s);
    }
  }

  /** CtxRetarget for a path whose outermost frame may get a new parent. */
  lemma {:induction false} CtxRetargetTop(g1: Links, g2: Links, c: Ctx, x: Ptr, y: Ptr)
    requires c != Top && CtxDistinct(c)
    requires CtxLinked(g1, c, x)
    requires Same(g1.left, g2.left, CtxHandles(c) - {c.p}) && Same(g1.right, g2.right, CtxHandles(c) - {c.p})
    requires Same(g1.parent, g2.parent, CtxHandles(c) - {Outer(c)})
    requires c.InL? ==> c.p in g2.left && g2.left[c.p] == y && c.p in g2.right && g2.right[c.p] == g1.right[c.p]
    requires c.InR? ==> c.p in g2.right && g2.right[c.p] == y && c.p in g2.left && g2.left[c.p] == g1.left[c.p]
    requires y.At? ==> y.h in g2.parent && g2.parent[y.h] == At(c.p)
    ensures CtxLinked(g2, c, y)
  {
    var s := c.sib;
    if c.up != Top {
      OuterPlug(c.up, Nil);
      assert Outer(c) in CtxHandles(c.up) && Outer(c) != c.p;
    }
    assert Outer(c) !in Handles(s);
    LinkedFrame(g1, g2, s);
    if s.Br? {
      SubtreeRoots(s);
    }
    if c.up != Top {
      CtxLinkedFrameTop(g1, g2, c.up, At(c.p));
    }
  }

  // ------------------------------------------------------------ a leaf

  /** Cutting a leaf off its parent leaves the rest of the tree linked, with the same root. */
  lemma {:induction false} CutLeafLinked(g: Links, cx: Ctx, x: Handle)
    requires cx != Top && Linked(g, Plug(cx, Br(Nil, x, Nil))) && Rooted(g, Plug(cx, Br(Nil, x, Nil)))
    requires Distinct(Plug(cx, Br(Nil, x, Nil)))
    ensures Has(g, x) && g.parent[x] == At(cx.p) && cx.p in g.right
    ensures Linked(CutLeaf(g, x), Plug(cx, Nil)) && Rooted(CutLeaf(g, x), Plug(cx, Nil))
  {
    var X := Br(Nil, x, Nil);
    LinkedPlug(g, cx, X);
    PlugDistinct(cx, X);
    assert x !in Handles(cx.sib);
    var g' := CutLeaf(g, x);
    CtxRetarget(g, g', cx, At(x), Null);
    LinkedPlug(g', cx, Nil);
    PlugRoot(cx, X, Nil);
  }

  // ------------------------------------------------------------ one child

  /** The only child of a node that has exactly one. */
  function Child(X: Shape): Shape
    requires X.Br?
  {
    if X.l.Br? then X.l else X.r
  }

  /** Splicing out a node with one child leaves the child in its place, linked, with the right root. */
  lemma {:induction false} SpliceLinked(g: Links, cx: Ctx, X: Shape)
    requires X.Br? && (X.l.Nil? || X.r.Nil?) && Child(X).Br?
    requires Linked(g, Plug(cx, X)) && Rooted(g, Plug(cx, X)) && Distinct(Plug(cx, X))
    ensures Has(g, X.h) && g.parent[X.h] == (if cx == Top then Null else At(cx.p))
    ensures g.parent[X.h].At? ==> g.parent[X.h].h in g.left
    ensures (if g.left[X.h].At? then g.left[X.h] else g.right[X.h]) == At(Child(X).h)
    ensures Linked(Splice(g, X.h), Plug(cx, Child(X))) && Rooted(Splice(g, X.h), Plug(cx, Child(X)))
  {
    var x, K := X.h, Child(X);
    LinkedPlug(g, cx, X);
    PlugDistinct(cx, X);
    SubtreeRoots(X);
    var g' := Splice(g, x);
    if cx == Top {
      LinkedFrame(g, g', K);
    } else {
      if cx.sib.Br? {
        SubtreeRoots(cx.sib);
      }
      assert x !in Handles(cx.sib) && K.h !in CtxHandles(cx) && cx.p !in Handles(K);
      CtxRetarget(g, g', cx, At(x), At(K.h));
      LinkedFrame(g, g', K);
      LinkedPlug(g', cx, K);
      PlugRoot(cx, X, K);
    }
  }

  // ------------------------------------------------------------ two children

  /**
   * What Promote writes when the successor `y` is the right child of `x`:
   * `y` takes the parent and the left child of `x` and keeps its right
   * child, the parent of `x` points at `y`, and the left child of `x`
   * points back at `y`.
   */
  lemma {:induction false} PromoteNearMaps(g: Links, x: Handle, y: Handle)
    requires Has(g, x) && Has(g, y) && x != y && g.parent[y] == At(x) && g.right[x] == At(y) && g.right[y] != At(x)
    requires g.left[x].At? && g.left[x].h in g.parent && g.left[x].h != y
    requires g.parent[x].At? ==> g.parent[x].h in g.left && g.parent[x].h in g.right && g.parent[x].h != x && g.parent[x].h != y
    ensures Promote(g, x, y).parent == g.parent[y := g.parent[x]][g.left[x].h := At(y)]
    ensures Promote(g, x, y).left == Hook(g, g.parent[x], x, At(y)).left[y := g.left[x]]
    ensures Promote(g, x, y).right == Hook(g, g.parent[x], x, At(y)).right[x := if g.right[y].Null? then Null else At(y)]
  {
    var g1 := Vacate(g, x, y);
    assert g1 == if g.right[y].Null? then g.(right := g.right[x := Null]) else g;
    ReplaceMaps(g1, x, y);
  }

  /**
   * A linked subtree stays linked when only the child pointers of the
   * nodes `n1`, `n2`, `n3` outside it are written, and only the parent
   * pointers of those nodes, of `q` and of its own root.
   */
  lemma {:induction false} LinkedAway(g: Links, g': Links, t: Shape, n1: Handle, n2: Handle, n3: Ptr, q: Handle)
    requires Linked(g, t) && Distinct(t)
    requires n1 !in Handles(t) && n2 !in Handles(t) && (n3.At? ==> n3.h !in Handles(t))
    requires q !in Handles(t) || At(q) == PtrOf(t)
    requires forall h | h in g.left && h != n1 && h != n2 && At(h) != n3 :: h in g'.left && g'.left[h] == g.left[h]
    requires forall h | h in g.right && h != n1 && h != n2 && At(h) != n3 :: h in g'.right && g'.right[h] == g.right[h]
    requires forall h | h in g.parent && h != n1 && h != n2 && h != q && At(h) != PtrOf(t) :: h in g'.parent && g'.parent[h] == g.parent[h]
    ensures Linked(g', t)
  {
    if t.Br? {
      SubtreeRoots(t);
    }
    LinkedFrame(g, g', t);
  }

  /** The writes of a near promotion touch child pointers only at `x`, `y` and the parent of `x`. */
  lemma {:induction false} NearFrames(g: Links, g': Links, x: Handle, y: Handle, px: Ptr, q: Handle, ry: Ptr)
    requires Has(g, x) && (px.At? ==> px.h in g.right)
    requires g'.parent == g.parent[y := px][q := At(y)]
    requires g'.left == Hook(g, px, x, At(y)).left[y := At(q)]
    requires g'.right == Hook(g, px, x, At(y)).right[x := ry]
    ensures forall h | h in g.left && h != x && h != y && At(h) != px :: h in g'.left && g'.left[h] == g.left[h]
    ensures forall h | h in g.right && h != x && h != y && At(h) != px :: h in g'.right && g'.right[h] == g.right[h]
    ensures forall h | h in g.parent && h != x && h != y && h != q :: h in g'.parent && g'.parent[h] == g.parent[h]
  {
  }

  /** Below the new position of `y` those writes leave the subtree `Br(L, y, Rr)` linked. */
  lemma {:induction false} NearLocal(g: Links, g': Links, L: Shape, x: Handle, y: Handle, Rr: Shape, px: Ptr)
    requires L.Br? && Linked(g, L) && Linked(g, Rr) && Distinct(L) && Distinct(Rr)
    requires L.h !in Handles(Rr) && x != y && Has(g, x)
    requires x !in Handles(L) && y !in Handles(L) && x !in Handles(Rr) && y !in Handles(Rr)
    requires px.At? ==> px.h !in Handles(L) && px.h !in Handles(Rr) && px.h != x && px.h != y && px.h in g.right
    requires y in g.right && g.right[y] == PtrOf(Rr) && (Rr.Br? ==> Rr.h in g.parent && g.parent[Rr.h] == At(y))
    requires g'.parent == g.parent[y := px][L.h := At(y)]
    requires g'.left == Hook(g, px, x, At(y)).left[y := At(L.h)]
    requires g'.right == Hook(g, px, x, At(y)).right[x := if Rr.Nil? then Null else At(y)]
    ensures Linked(g', Br(L, y, Rr))
  {
    NearFrames(g, g', x, y, px, L.h, if Rr.Nil? then Null else At(y));
    LinkedAway(g, g', L, x, y, px, L.h);
    LinkedAway(g, g', Rr, x, y, px, L.h);
  }

  /**
   * The frames above a replaced node stay linked when the frame over it
   * is hooked to the new node `y`, `y` points back at it, and no other
   * pointer on the path changes.
   */
  lemma {:induction false} HookCtx(g: Links, g': Links, cx: Ctx, x: Handle, y: Ptr)
    requires cx != Top && CtxDistinct(cx) && CtxLinked(g, cx, At(x)) && x !in CtxHandles(cx)
    requires y.At? ==> y.h !in CtxHandles(cx) && y.h in g'.parent && g'.parent[y.h] == At(cx.p)
    requires var hk := Hook(g, At(cx.p), x, y);
             Same(hk.left, g'.left, CtxHandles(cx)) && Same(hk.right, g'.right, CtxHandles(cx))
             && Same(g.parent, g'.parent, CtxHandles(cx))
    ensures CtxLinked(g', cx, y)
  {
    if cx.sib.Br? {
      SubtreeRoots(cx.sib);
    }
    assert x !in Handles(cx.sib);
    CtxRetarget(g, g', cx, At(x), y);
  }

  /** Links that make those writes describe the tree with `y` in the place of `x`. */
  lemma {:induction false} NearLinked(g: Links, g': Links, cx: Ctx, L: Shape, x: Handle, y: Handle, Rr: Shape)
    requires L.Br?
    requires var T := Plug(cx, Br(L, x, Br(Nil, y, Rr)));
             Linked(g, T) && Rooted(g, T) && Distinct(T)
    requires Has(g, x) && (g.parent[x].At? ==> g.parent[x].h in g.right)
    requires g'.parent == g.parent[y := g.parent[x]][L.h := At(y)]
    requires g'.left == Hook(g, g.parent[x], x, At(y)).left[y := At(L.h)]
    requires g'.right == Hook(g, g.parent[x], x, At(y)).right[x := if Rr.Nil? then Null else At(y)]
    ensures Linked(g', Plug(cx, Br(L, y, Rr))) && Rooted(g', Plug(cx, Br(L, y, Rr)))
  {
    var X, X' := Br(L, x, Br(Nil, y, Rr)), Br(L, y, Rr);
    LinkedPlug(g, cx, X);
    PlugDistinct(cx, X);
    SubtreeRoots(L);
    var px := g.parent[x];
    if cx != Top {
      assert px == At(cx.p) && cx.p !in Handles(X);
    }
    assert Linked(g, L) && Linked(g, Rr) && Distinct(L) && Distinct(Rr);
    NearLocal(g, g', L, x, y, Rr, px);
    if cx != Top {
      assert y !in CtxHandles(cx) && L.h !in CtxHandles(cx) && x !in CtxHandles(cx);
      HookCtx(g, g', cx, x, At(y));
      PlugRoot(cx, X, X');
    }
    LinkedPlug(g', cx, X');
  }

  /** The successor `y` is the right child of `x`: Promote leaves the tree with `y` in the place of `x`. */
  lemma {:induction false} PromoteNearLinked(g: Links, cx: Ctx, L: Shape, x: Handle, y: Handle, Rr: Shape)
    requires L.Br?
    requires var T := Plug(cx, Br(L, x, Br(Nil, y, Rr)));
             Linked(g, T) && Rooted(g, T) && Distinct(T)
    ensures Has(g, x) && Has(g, y) && g.parent[y] == At(x) && x in g.right && g.right[x] == At(y) && g.right[y] == PtrOf(Rr)
    ensures g.right[y] != At(x) && g.parent[x] == (if cx == Top then Null else At(cx.p))
    ensures g.parent[x].At? ==> g.parent[x].h in g.right
    ensures Linked(Promote(g, x, y), Plug(cx, Br(L, y, Rr))) && Rooted(Promote(g, x, y), Plug(cx, Br(L, y, Rr)))
  {
    var X := Br(L, x, Br(Nil, y, Rr));
    LinkedPlug(g, cx, X);
    PlugDistinct(cx, X);
    SubtreeRoots(L);
    if cx != Top {
      assert cx.p !in Handles(X);
    }
    PromoteNearMaps(g, x, y);
    NearLinked(g, Promote(g, x, y), cx, L, x, y, Rr);
  }

  /**
   * What Promote writes when the successor `y` is deeper, the left child
   * of `p`: `p` takes the right child of `y` as its left one, and `y`
   * takes the parent and both children of `x`.
   */
  lemma {:induction false} PromoteDeepMaps(g: Links, x: Handle, y: Handle, p: Handle)
    requires Has(g, x) && Has(g, y) && p in g.left && p in g.right && x != y && p != x && p != y
    requires g.parent[y] == At(p) && g.left[p] == At(y) && g.right[p] != At(y) && g.right[y] != At(x)
    requires g.right[x] != At(y) && g.right[x].At? && g.right[x].h in g.parent
    requires g.left[x].At? && g.left[x].h in g.parent
    requires g.right[y].At? ==> g.right[y].h in g.parent
    requires g.parent[x].At? ==> g.parent[x].h in g.left && g.parent[x].h in g.right && g.parent[x].h != x && g.parent[x].h != y && g.parent[x].h != p
    ensures var px, yr := g.parent[x], g.right[y];
            var vp := if yr.At? then g.parent[yr.h := At(p)] else g.parent;
            && Promote(g, x, y).parent == vp[y := px][g.left[x].h := At(y)][g.right[x].h := At(y)]
            && Promote(g, x, y).left == Hook(g, px, x, At(y)).left[p := yr][y := g.left[x]]
            && Promote(g, x, y).right == Hook(g, px, x, At(y)).right[y := g.right[x]]
  {
    var px, yr := g.parent[x], g.right[y];
    var vp := if yr.At? then g.parent[yr.h := At(p)] else g.parent;
    var g1 := Vacate(g, x, y);
    assert g1 == Links(g.left[p := yr], g.right, vp);
    ReplaceMaps(g1, x, y);
    var h0, h1 := Hook(g, px, x, At(y)), Hook(g1, px, x, At(y));
    assert h1.right == h0.right;
    assert h1.left == h0.left[p := yr];
  }

  /**
   * A linked subtree stays linked when the child pointers written are
   * those of the nodes `x`, `y`, `p` and `px` outside it, and the parent
   * pointers written are those of `y`, `yr`, `lh` and `rh`, none of them
   * below its root.
   */
  lemma {:induction false} LinkedOff(g: Links, g': Links, t: Shape, x: Handle, y: Handle, p: Handle, px: Ptr, yr: Ptr, lh: Handle, rh: Handle)
    requires Linked(g, t) && x !in Handles(t) && y !in Handles(t) && p !in Handles(t) && (px.At? ==> px.h !in Handles(t))
    requires y !in Below(t) && (yr.At? ==> yr.h !in Below(t)) && lh !in Below(t) && rh !in Below(t)
    requires forall h | h in g.left && h != x && h != y && h != p && At(h) != px :: h in g'.left && g'.left[h] == g.left[h]
    requires forall h | h in g.right && h != x && h != y && h != p && At(h) != px :: h in g'.right && g'.right[h] == g.right[h]
    requires forall h | h in g.parent && h != y && At(h) != yr && h != lh && h != rh :: h in g'.parent && g'.parent[h] == g.parent[h]
    ensures Linked(g', t)
  {
    LinkedFrame(g, g', t);
  }

  /** The writes of a deep promotion touch child pointers only at `x`, `y`, `p` and the parent of `x`. */
  lemma {:induction false} DeepFrames(g: Links, g': Links, x: Handle, y: Handle, p: Handle, px: Ptr, yr: Ptr, lh: Handle, rh: Handle)
    requires Has(g, x) && (px.At? ==> px.h in g.right)
    requires g'.parent == (if yr.At? then g.parent[yr.h := At(p)] else g.parent)[y := px][lh := At(y)][rh := At(y)]
    requires g'.left == Hook(g, px, x, At(y)).left[p := yr][y := At(lh)]
    requires g'.right == Hook(g, px, x, At(y)).right[y := At(rh)]
    ensures forall h | h in g.left && h != x && h != y && h != p && At(h) != px :: h in g'.left && g'.left[h] == g.left[h]
    ensures forall h | h in g.right && h != x && h != y && h != p && At(h) != px :: h in g'.right && g'.right[h] == g.right[h]
    ensures forall h | h in g.parent && h != y && At(h) != yr && h != lh && h != rh :: h in g'.parent && g'.parent[h] == g.parent[h]
  {
  }

  /** The deep promotion's writes leave a subtree linked that holds none of the nodes written and none of their new children below its root. */
  lemma {:induction false} DeepSubtree(g: Links, g': Links, t: Shape, x: Handle, y: Handle, p: Handle, px: Ptr, yr: Ptr, lh: Handle, rh: Handle)
    requires Distinct(t) && Linked(g, t) && Has(g, x) && (px.At? ==> px.h in g.right && px.h !in Handles(t))
    requires x !in Handles(t) && y !in Handles(t) && p !in Handles(t)
    requires (yr.At? ==> yr.h !in Below(t)) && lh !in Below(t) && rh !in Below(t)
    requires g'.parent == (if yr.At? then g.parent[yr.h := At(p)] else g.parent)[y := px][lh := At(y)][rh := At(y)]
    requires g'.left == Hook(g, px, x, At(y)).left[p := yr][y := At(lh)]
    requires g'.right == Hook(g, px, x, At(y)).right[y := At(rh)]
    ensures Linked(g', t)
  {
    DeepFrames(g, g', x, y, p, px, yr, lh, rh);
    if t.Br? {
      SubtreeRoots(t);
    }
    LinkedOff(g, g', t, x, y, p, px, yr, lh, rh);
  }

  /** The deep promotion's writes leave the path from the old right child of `x` down to `p` linked, now ending in `Yr`. */
  lemma {:induction false} DeepPath(g: Links, g': Links, lh: Handle, x: Handle, y: Handle, cr: Ctx, Yr: Shape, px: Ptr)
    requires cr.InL? && CtxDistinct(cr) && CtxLinked(g, cr, At(y)) && Has(g, x)
    requires x !in CtxHandles(cr) && y !in CtxHandles(cr) && lh !in CtxHandles(cr)
    requires px.At? ==> px.h in g.right && px.h !in CtxHandles(cr)
    requires Yr.Br? ==> Yr.h !in CtxHandles(cr) && Yr.h != y && Yr.h != lh && Yr.h != Outer(cr)
    requires var yr := PtrOf(Yr);
             && g'.parent == (if yr.At? then g.parent[yr.h := At(cr.p)] else g.parent)[y := px][lh := At(y)][Outer(cr) := At(y)]
             && g'.left == Hook(g, px, x, At(y)).left[cr.p := yr][y := At(lh)]
             && g'.right == Hook(g, px, x, At(y)).right[y := At(Outer(cr))]
    ensures CtxLinked(g', cr, PtrOf(Yr))
  {
    OuterPlug(cr, Nil);
    CtxRetargetTop(g, g', cr, At(y), PtrOf(Yr));
  }

  /** Below the new position of `y` a deep promotion leaves `Br(L, y, Plug(cr, Yr))` linked. */
  lemma {:induction false} DeepLocal(g: Links, g': Links, L: Shape, x: Handle, y: Handle, cr: Ctx, Yr: Shape, px: Ptr)
    requires L.Br? && cr.InL? && CtxDistinct(cr) && Distinct(L) && Distinct(Yr)
    requires Linked(g, L) && Linked(g, Yr) && CtxLinked(g, cr, At(y)) && Has(g, x)
    requires x !in Handles(L) && y !in Handles(L) && cr.p !in Handles(L) && (px.At? ==> px.h !in Handles(L))
    requires x !in Handles(Yr) && y !in Handles(Yr) && cr.p !in Handles(Yr) && (px.At? ==> px.h !in Handles(Yr))
    requires x !in CtxHandles(cr) && y !in CtxHandles(cr) && (px.At? ==> px.h in g.right && px.h !in CtxHandles(cr))
    requires L.h !in Handles(Yr) && L.h !in CtxHandles(cr) && Outer(cr) !in Handles(L) && Outer(cr) !in Handles(Yr)
    requires Yr.Br? ==> Yr.h !in CtxHandles(cr) && Yr.h !in Handles(L) && Yr.h != y
    requires var yr := PtrOf(Yr);
             && g'.parent == (if yr.At? then g.parent[yr.h := At(cr.p)] else g.parent)[y := px][L.h := At(y)][Outer(cr) := At(y)]
             && g'.left == Hook(g, px, x, At(y)).left[cr.p := yr][y := At(L.h)]
             && g'.right == Hook(g, px, x, At(y)).right[y := At(Outer(cr))]
    ensures Linked(g', Br(L, y, Plug(cr, Yr)))
  {
    var yr := PtrOf(Yr);
    OuterPlug(cr, Yr);
    SubtreeRoots(L);
    if Yr.Br? {
      SubtreeRoots(Yr);
    }
    DeepSubtree(g, g', L, x, y, cr.p, px, yr, L.h, Outer(cr));
    DeepSubtree(g, g', Yr, x, y, cr.p, px, yr, L.h, Outer(cr));
    DeepPath(g, g', L.h, x, y, cr, Yr, px);
    LinkedPlug(g', cr, Yr);
  }

  /** The pieces of the old right subtree `Plug(cr, Br(Nil, y, Yr))` of `x` that DeepLocal works with. */
  lemma {:induction false} DeepParts(g: Links, cr: Ctx, y: Handle, Yr: Shape)
    requires cr.InL? && Linked(g, Plug(cr, Br(Nil, y, Yr))) && Distinct(Plug(cr, Br(Nil, y, Yr)))
    ensures Linked(g, Yr) && CtxLinked(g, cr, At(y)) && Distinct(Yr) && CtxDistinct(cr)
    ensures y in g.left && y in g.right && g.left[y] == Null && g.right[y] == PtrOf(Yr) && y in g.parent && g.parent[y] == At(cr.p)
    ensures cr.p in g.left && cr.p in g.right && g.left[cr.p] == At(y) && g.right[cr.p] != At(y)
    ensures y !in CtxHandles(cr) && y !in Handles(Yr) && Handles(Yr) !! CtxHandles(cr)
    ensures Yr.Br? ==> Yr.h != y && Yr.h != Outer(cr) && Yr.h in g.parent
    ensures Handles(Plug(cr, Br(Nil, y, Yr))) == {y} + Handles(Yr) + CtxHandles(cr)
    ensures Plug(cr, Br(Nil, y, Yr)).h == Outer(cr) && Outer(cr) != y
    ensures Plug(cr, Yr).Br? && Plug(cr, Yr).h == Outer(cr) && Outer(cr) in CtxHandles(cr) && Outer(cr) !in Handles(Yr)
  {
    var Y := Br(Nil, y, Yr);
    LinkedPlug(g, cr, Y);
    PlugDistinct(cr, Y);
    PlugHandles(cr, Y);
    OuterPlug(cr, Y);
    OuterPlug(cr, Yr);
    if Yr.Br? {
      SubtreeRoots(Yr);
    }
    if cr.sib.Br? {
      SubtreeRoots(cr.sib);
    }
    if cr.up != Top {
      OuterPlug(cr.up, Nil);
    }
  }

  /** Links that make the deep promotion's writes describe the tree with `y` in the place of `x`. */
  lemma {:induction false} DeepLinked(g: Links, g': Links, cx: Ctx, L: Shape, x: Handle, cr: Ctx, y: Handle, Yr: Shape)
    requires L.Br? && cr.InL?
    requires var T := Plug(cx, Br(L, x, Plug(cr, Br(Nil, y, Yr))));
             Linked(g, T) && Rooted(g, T) && Distinct(T)
    requires Has(g, x) && (g.parent[x].At? ==> g.parent[x].h in g.right)
    requires var px, yr := g.parent[x], PtrOf(Yr);
             && g'.parent == (if yr.At? then g.parent[yr.h := At(cr.p)] else g.parent)[y := px][L.h := At(y)][Outer(cr) := At(y)]
             && g'.left == Hook(g, px, x, At(y)).left[cr.p := yr][y := At(L.h)]
             && g'.right == Hook(g, px, x, At(y)).right[y := At(Outer(cr))]
    ensures Linked(g', Plug(cx, Br(L, y, Plug(cr, Yr)))) && Rooted(g', Plug(cx, Br(L, y, Plug(cr, Yr))))
  {
    var R := Plug(cr, Br(Nil, y, Yr));
    var X, X' := Br(L, x, R), Br(L, y, Plug(cr, Yr));
    LinkedPlug(g, cx, X);
    PlugDistinct(cx, X);
    SubtreeRoots(L);
    DeepParts(g, cr, y, Yr);
    var px := g.parent[x];
    if cx != Top {
      assert px == At(cx.p) && cx.p !in Handles(X);
    }
    assert cr.p in CtxHandles(cr);
    DeepLocal(g, g', L, x, y, cr, Yr, px);
    if cx != Top {
      assert y !in CtxHandles(cx) && L.h !in CtxHandles(cx) && x !in CtxHandles(cx);
      HookCtx(g, g', cx, x, At(y));
      PlugRoot(cx, X, X');
    }
    LinkedPlug(g', cx, X');
  }

  /** The successor `y` is deeper, on the left spine `cr` of the right subtree: Promote leaves the tree with `y` in the place of `x`. */
  lemma {:induction false} PromoteDeepLinked(g: Links, cx: Ctx, L: Shape, x: Handle, cr: Ctx, y: Handle, Yr: Shape)
    requires L.Br? && cr.InL?
    requires var T := Plug(cx, Br(L, x, Plug(cr, Br(Nil, y, Yr))));
             Linked(g, T) && Rooted(g, T) && Distinct(T)
    ensures Has(g, x) && Has(g, y) && g.parent[y] == At(cr.p) && cr.p in g.right && g.right[y] == PtrOf(Yr)
    ensures g.right[y] != At(x) && g.parent[x] == (if cx == Top then Null else At(cx.p))
    ensures g.parent[x].At? ==> g.parent[x].h in g.right
    ensures Linked(Promote(g, x, y), Plug(cx, Br(L, y, Plug(cr, Yr)))) && Rooted(Promote(g, x, y), Plug(cx, Br(L, y, Plug(cr, Yr))))
  {
    var R := Plug(cr, Br(Nil, y, Yr));
    var X := Br(L, x, R);
    LinkedPlug(g, cx, X);
    PlugDistinct(cx, X);
    SubtreeRoots(L);
    DeepParts(g, cr, y, Yr);
    assert cr.p in CtxHandles(cr);
    if cx != Top {
      assert cx.p !in Handles(X);
    }
    PromoteDeepMaps(g, x, y, cr.p);
    DeepLinked(g, Promote(g, x, y), cx, L, x, cr, y, Yr);
  }
}
