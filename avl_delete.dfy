/**
 * remove on the arena as a value: for each case of make_node_leaf, the
 * arena after its pointer writes (and, in a MultiTree, after the removed
 * node's size is cleared) holds the tree without the node, wired, in key
 * order, with what upwardUpdate and rebalance_tree need to finish.
 */
module AvlDelete {
  import opened Common
  import opened AvlShape
  import opened AvlArena
  import opened AvlState
  import opened AvlClimb
  import opened AvlRelink
  import opened AvlRemove
  import opened AvlInsert

  // ------------------------------------------------------------ the tree without the node

  /**
   * Replacing the subtree `X` at path `c` by `X2`, which holds the same
   * nodes in the same order but for `x`, leaves a tree that holds the
   * nodes of the old one in the same order but for `x`.
   */
  lemma {:induction false} PlugRemove(c: Ctx, X: Shape, X2: Shape, a: seq<Handle>, b: seq<Handle>, x: Handle)
    requires Distinct(Plug(c, X)) && Distinct(X2) && Handles(X2) <= Handles(X)
    requires In(X) == a + [x] + b && In(X2) == a + b
    ensures Distinct(Plug(c, X2)) && Handles(Plug(c, X2)) <= Handles(Plug(c, X))
    ensures In(Plug(c, X)) == (Pre(c) + a) + [x] + (b + Suf(c))
    ensures In(Plug(c, X2)) == (Pre(c) + a) + (b + Suf(c))
  {
    PlugRemoveHandles(c, X, X2);
    PlugIn(c, X);
    PlugIn(c, X2);
    Regroup(Pre(c), a, x, b, Suf(c));
  }

  lemma {:induction false} Regroup(p: seq<Handle>, a: seq<Handle>, x: Handle, b: seq<Handle>, s: seq<Handle>)
    ensures p + (a + [x] + b) + s == (p + a) + [x] + (b + s)
    ensures p + (a + b) + s == (p + a) + (b + s)
  {
  }

  lemma {:induction false} PlugRemoveHandles(c: Ctx, X: Shape, X2: Shape)
    requires Distinct(Plug(c, X)) && Distinct(X2) && Handles(X2) <= Handles(X)
    ensures Distinct(Plug(c, X2)) && Handles(Plug(c, X2)) <= Handles(Plug(c, X))
  {
    PlugDistinct(c, X);
    PlugDistinct(c, X2);
    PlugHandles(c, X);
    PlugHandles(c, X2);
  }

  /** Dropping the entry at position `|p|` from a sorted sequence keeps it sorted. */
  lemma {:induction false} SortedDrop(ks: map<Handle, Key>, p: seq<Handle>, x: Handle, s: seq<Handle>)
    requires SortedBy(ks, p + [x] + s)
    ensures SortedBy(ks, p + s)
  {
    var u := p + [x] + s;
    SortedRemove(ks, u, |p|);
    assert u[..|p|] + u[|p| + 1..] == p + s;
  }

  /** Every node of a linked tree has its child pointers, and every node below the root its parent pointer. */
  lemma {:induction false} LinkedKeys(g: Links, t: Shape)
    requires Linked(g, t)
    ensures Handles(t) <= g.left.Keys && Handles(t) <= g.right.Keys && Below(t) <= g.parent.Keys
  {
    match t
    case Nil =>
    case Br(l, _, r) =>
      LinkedKeys(g, l);
      LinkedKeys(g, r);
  }

  /**
   * An arena whose links `g` describe `t1`, a tree holding the nodes of
   * `t0` in the same order but for `x`, and that keeps the keys and
   * payloads of `t0`'s arena, holds `t1` wired and in key order.
   */
  lemma {:induction false} RemovedSound<T>(A: Arena<T>, ranked: bool, g: Links, x: Handle, t0: Shape, t1: Shape, p: seq<Handle>, s: seq<Handle>)
    requires Wired(A, t0) && Ordered(A, ranked, t0)
    requires t1.Br? && Linked(g, t1) && Rooted(g, t1) && Distinct(t1) && Handles(t1) <= Handles(t0)
    requires In(t0) == p + [x] + s && In(t1) == p + s
    ensures Wired(Unlinked(A, g), t1) && Ordered(Unlinked(A, g), ranked, t1)
    ensures Keys(Unlinked(A, g), ranked) == Keys(A, ranked)
  {
    var A2 := Unlinked(A, g);
    assert Ptrs(A2) == g;
    LinkedKeys(g, t1);
    assert Handles(t1) == {t1.h} + Below(t1);
    assert Keys(A2, ranked) == Keys(A, ranked);
    SortedDrop(Keys(A, ranked), p, x, s);
  }

  /** The entries of the smaller tree are those of the bigger one without the one at position `|p|`. */
  lemma {:induction false} EntriesDrop<D>(ks: map<Handle, Key>, ds: map<Handle, D>, p: seq<Handle>, x: Handle, s: seq<Handle>)
    requires forall h | h in p + [x] + s :: h in ks && h in ds
    ensures forall h | h in p + s :: h in ks && h in ds
    ensures var e := EntriesOf(ks, ds, p + [x] + s);
            EntriesOf(ks, ds, p + s) == e[..|p|] + e[|p| + 1..]
  {
    var u := p + [x] + s;
    assert forall h | h in p + s :: h in u;
    var e := EntriesOf(ks, ds, u);
    var e2 := EntriesOf(ks, ds, p + s);
    assert |e2| == |e[..|p|] + e[|p| + 1..]|;
    forall i | 0 <= i < |e2|
      ensures e2[i] == (e[..|p|] + e[|p| + 1..])[i]
    {
      if i < |p| {
        assert (p + s)[i] == u[i];
      } else {
        assert (p + s)[i] == u[i + 1];
      }
    }
  }

  /** The arena after make_node_leaf's pointer writes `g`. */
  ghost function Unlinked<T>(A: Arena<T>, g: Links): Arena<T>
  {
    A.(left := g.left, right := g.right, parent := g.parent)
  }

  /**
   * What rebalance_tree needs to start at `fix`: the arena holds the tree
   * `s`, whose slot `f` at path `c` has `fix` at its root, and the climb
   * can start there for a slot that was `ho` high.
   */
  ghost predicate Resumable<T>(A: Arena<T>, ranked: bool, s: Shape, fix: Ptr, c: Ctx, f: Shape, ho: int)
  {
    Sound(A, ranked, s) && fix.At? && s == Plug(c, f) && f.Br? && fix.h == f.h && Climbing(A.height, A.bf, c, f, ho)
  }

  /** The sizes the old tree kept along a path stay right when the removed node's size is zeroed. */
  lemma {:induction false} SibCountedZero(cs: map<Handle, int>, c: Ctx, f: Shape, x: Handle)
    requires Counted(cs, Plug(c, f)) && x !in CtxHandles(c)
    ensures Counted(cs, f) && SibCounted(cs[x := 0], c)
  {
    CountedPlug(cs, c, f);
    CtxCountedSib(cs, c, Size(f));
    SibCountedFrame(cs, cs[x := 0], c);
  }

  // ------------------------------------------------------------ a leaf

  /** Cutting the leaf `x` at path `cx` leaves the tree without it, linked, under the same root. */
  lemma {:induction false} LeafShape(g: Links, cx: Ctx, x: Handle)
    requires cx != Top && Linked(g, Plug(cx, Br(Nil, x, Nil))) && Rooted(g, Plug(cx, Br(Nil, x, Nil)))
    requires Distinct(Plug(cx, Br(Nil, x, Nil)))
    ensures Has(g, x) && g.parent[x] == At(cx.p) && cx.p in g.right
    ensures var t0, t1 := Plug(cx, Br(Nil, x, Nil)), Plug(cx, Nil);
            && t1.Br? && Linked(CutLeaf(g, x), t1) && Rooted(CutLeaf(g, x), t1) && Distinct(t1)
            && Handles(t1) <= Handles(t0) && t1.h == t0.h
  {
    var X := Br(Nil, x, Nil);
    CutLeafLinked(g, cx, x);
    PlugRemoveHandles(cx, X, Nil);
    PlugRoot(cx, X, Nil);
  }

  /** The in-order sequence loses the leaf `x` at its place. */
  lemma {:induction false} LeafIn(cx: Ctx, x: Handle)
    ensures In(Plug(cx, Br(Nil, x, Nil))) == Pre(cx) + [x] + Suf(cx) && In(Plug(cx, Nil)) == Pre(cx) + Suf(cx)
  {
    PlugIn(cx, Br(Nil, x, Nil));
    PlugIn(cx, Nil);
    assert In(Br(Nil, x, Nil)) == [x];
  }

  /** After CutLeaf the arena holds the tree without the leaf `x`, wired and in key order. */
  lemma {:induction false} LeafWired<T>(A: Arena<T>, ranked: bool, cx: Ctx, x: Handle)
    requires cx != Top && Wired(A, Plug(cx, Br(Nil, x, Nil))) && Ordered(A, ranked, Plug(cx, Br(Nil, x, Nil)))
    ensures Has(Ptrs(A), x) && A.parent[x] == At(cx.p) && cx.p in A.right && x in A.count
    ensures var A2, t0, t1 := Unlinked(A, CutLeaf(Ptrs(A), x)), Plug(cx, Br(Nil, x, Nil)), Plug(cx, Nil);
            && Wired(A2, t1) && Ordered(A2, ranked, t1) && Keys(A2, ranked) == Keys(A, ranked)
            && t1.h == t0.h && In(t0) == Pre(cx) + [x] + Suf(cx) && In(t1) == Pre(cx) + Suf(cx)
  {
    LeafShape(Ptrs(A), cx, x);
    LeafIn(cx, x);
    PlugHandles(cx, Br(Nil, x, Nil));
    RemovedSound(A, ranked, CutLeaf(Ptrs(A), x), x, Plug(cx, Br(Nil, x, Nil)), Plug(cx, Nil), Pre(cx), Suf(cx));
  }

  /** rebalance_tree can climb from the parent of a cut leaf. */
  lemma {:induction false} LeafClimb(H: map<Handle, int>, B: map<Handle, int>, cx: Ctx, x: Handle)
    requires cx != Top && Balanced(Plug(cx, Br(Nil, x, Nil))) && Cached(H, B, Plug(cx, Br(Nil, x, Nil)))
    ensures Climbing(H, B, cx.up, Up(cx, Nil), Height(Up(cx, Br(Nil, x, Nil))))
  {
    CtxOkPlug(H, B, cx, Br(Nil, x, Nil));
    ClimbUp(H, B, cx, Nil, Height(Br(Nil, x, Nil)));
  }

  /** After make_node_leaf on a leaf (and the MultiTree's recount), rebalance_tree can start at its parent. */
  lemma {:induction false} LeafResumable<T>(A: Arena<T>, ranked: bool, H: map<Handle, int>, B: map<Handle, int>, cx: Ctx, x: Handle)
    requires cx != Top && Balanced(Plug(cx, Br(Nil, x, Nil))) && Cached(H, B, Plug(cx, Br(Nil, x, Nil)))
    requires Sound(A, ranked, Plug(cx, Nil)) && A.height == H && A.bf == B
    ensures Resumable(A, ranked, Plug(cx, Nil), At(cx.p), cx.up, Up(cx, Nil), Height(Up(cx, Br(Nil, x, Nil))))
  {
    LeafClimb(H, B, cx, x);
  }

  /** The sizes along the path of a cut leaf are ready for upwardUpdate from its parent. */
  lemma {:induction false} LeafCounts(cs: map<Handle, int>, cx: Ctx, x: Handle)
    requires Counted(cs, Plug(cx, Br(Nil, x, Nil))) && Distinct(Plug(cx, Br(Nil, x, Nil)))
    ensures SibCounted(cs[x := 0], cx)
  {
    PlugDistinct(cx, Br(Nil, x, Nil));
    SibCountedZero(cs, cx, Br(Nil, x, Nil), x);
  }

  // ------------------------------------------------------------ one child

  /** Splicing out `X`, whose only child is `Child(X)`, leaves the tree without `X.h`, linked. */
  lemma {:induction false} OneShape(g: Links, cx: Ctx, X: Shape)
    requires X.Br? && (X.l.Nil? || X.r.Nil?) && Child(X).Br?
    requires Linked(g, Plug(cx, X)) && Rooted(g, Plug(cx, X)) && Distinct(Plug(cx, X))
    ensures Has(g, X.h) && g.parent[X.h] == (if cx == Top then Null else At(cx.p))
    ensures g.parent[X.h].At? ==> g.parent[X.h].h in g.left
    ensures (if g.left[X.h].At? then g.left[X.h] else g.right[X.h]) == At(Child(X).h)
    ensures var t0, t1 := Plug(cx, X), Plug(cx, Child(X));
            && t1.Br? && Linked(Splice(g, X.h), t1) && Rooted(Splice(g, X.h), t1) && Distinct(t1)
            && Handles(t1) <= Handles(t0) && t1.h == (if cx == Top then Child(X).h else t0.h)
  {
    SpliceLinked(g, cx, X);
    PlugDistinct(cx, X);
    assert Handles(Child(X)) <= Handles(X) && Distinct(Child(X));
    PlugRemoveHandles(cx, X, Child(X));
    if cx != Top {
      PlugRoot(cx, X, Child(X));
    }
  }

  /** The in-order sequence loses `X.h` at its place. */
  lemma {:induction false} OneIn(cx: Ctx, X: Shape)
    requires X.Br? && (X.l.Nil? || X.r.Nil?)
    ensures In(Plug(cx, X)) == (Pre(cx) + In(X.l)) + [X.h] + (In(X.r) + Suf(cx))
    ensures In(Plug(cx, Child(X))) == (Pre(cx) + In(X.l)) + (In(X.r) + Suf(cx))
  {
    PlugIn(cx, X);
    PlugIn(cx, Child(X));
    assert In(Child(X)) == In(X.l) + In(X.r);
    Regroup(Pre(cx), In(X.l), X.h, In(X.r), Suf(cx));
  }

  /** After Splice the arena holds the tree without `X.h`, wired and in key order. */
  lemma {:induction false} OneWired<T>(A: Arena<T>, ranked: bool, cx: Ctx, X: Shape)
    requires X.Br? && (X.l.Nil? || X.r.Nil?) && Child(X).Br?
    requires Wired(A, Plug(cx, X)) && Ordered(A, ranked, Plug(cx, X))
    ensures Has(Ptrs(A), X.h) && A.parent[X.h] == (if cx == Top then Null else At(cx.p)) && X.h in A.count
    ensures A.parent[X.h].At? ==> A.parent[X.h].h in A.left
    ensures (if A.left[X.h].At? then A.left[X.h] else A.right[X.h]) == At(Child(X).h)
    ensures var A2, t0, t1 := Unlinked(A, Splice(Ptrs(A), X.h)), Plug(cx, X), Plug(cx, Child(X));
            && Wired(A2, t1) && Ordered(A2, ranked, t1) && Keys(A2, ranked) == Keys(A, ranked)
            && t1.h == (if cx == Top then Child(X).h else t0.h)
            && In(t0) == (Pre(cx) + In(X.l)) + [X.h] + (In(X.r) + Suf(cx))
            && In(t1) == (Pre(cx) + In(X.l)) + (In(X.r) + Suf(cx))
  {
    OneShape(Ptrs(A), cx, X);
    OneIn(cx, X);
    PlugHandles(cx, X);
    RemovedSound(A, ranked, Splice(Ptrs(A), X.h), X.h, Plug(cx, X), Plug(cx, Child(X)),
                 Pre(cx) + In(X.l), In(X.r) + Suf(cx));
  }

  /** upwardUpdate can start at the child: the sizes below it and beside the path are right. */
  lemma {:induction false} OneCounts(cs: map<Handle, int>, cx: Ctx, X: Shape)
    requires X.Br? && (X.l.Nil? || X.r.Nil?) && Child(X).Br?
    requires Counted(cs, Plug(cx, X)) && Distinct(Plug(cx, X))
    ensures var K, cs2 := Child(X), cs[X.h := 0];
            Counted(cs2, K.l) && SibCounted(cs2, InL(cx, K.h, K.r))
  {
    var K := Child(X);
    PlugDistinct(cx, X);
    CountedPlug(cs, cx, X);
    CtxCountedSib(cs, cx, Size(X));
    assert Counted(cs, K) && X.h !in Handles(K);
    CountedFresh(cs, K.l, X.h, 0);
    CountedFresh(cs, K.r, X.h, 0);
    SibCountedZero(cs, cx, X, X.h);
  }

  /** rebalance_tree can climb from the parent of the spliced node, or from the child when it becomes the root. */
  /** A balanced, cached whole tree is where a climb ends. */
  lemma {:induction false} ClimbTop(H: map<Handle, int>, B: map<Handle, int>, f: Shape)
    requires f.Br? && Balanced(f) && Cached(H, B, f)
    ensures Climbing(H, B, Top, f, Height(f))
  {
    RebalBalanced(f);
  }

  /** The child of a balanced node with one child is balanced and one lower. */
  lemma {:induction false} OneChildBalanced(H: map<Handle, int>, B: map<Handle, int>, X: Shape)
    requires X.Br? && (X.l.Nil? || X.r.Nil?) && Child(X).Br?
    requires Balanced(X) && Cached(H, B, X)
    ensures Balanced(Child(X)) && Cached(H, B, Child(X)) && Height(X) == 1 + Height(Child(X))
  {
    HeightBounds(Child(X));
  }

  /** rebalance_tree can climb from the spliced node's parent, or from the child at the root. */
  lemma {:induction false} OneClimb(H: map<Handle, int>, B: map<Handle, int>, cx: Ctx, X: Shape)
    requires X.Br? && (X.l.Nil? || X.r.Nil?) && Child(X).Br?
    requires Balanced(Plug(cx, X)) && Cached(H, B, Plug(cx, X))
    ensures cx == Top ==> Climbing(H, B, Top, Child(X), Height(Child(X)))
    ensures cx != Top ==> Climbing(H, B, cx.up, Up(cx, Child(X)), Height(Up(cx, X))) && Plug(cx.up, Up(cx, Child(X))) == Plug(cx, Child(X))
  {
    CtxOkPlug(H, B, cx, X);
    OneChildBalanced(H, B, X);
    if cx == Top {
      ClimbTop(H, B, Child(X));
    } else {
      ClimbUp(H, B, cx, Child(X), Height(X));
    }
  }

  /**
   * After make_node_leaf on a node with one child (and the MultiTree's
   * recount), rebalance_tree can start at the spliced node's parent, or at
   * the child when it became the root.
   */
  lemma {:induction false} OneResumable<T>(A: Arena<T>, ranked: bool, H: map<Handle, int>, B: map<Handle, int>, cx: Ctx, X: Shape)
    requires X.Br? && (X.l.Nil? || X.r.Nil?) && Child(X).Br?
    requires Balanced(Plug(cx, X)) && Cached(H, B, Plug(cx, X))
    requires Sound(A, ranked, Plug(cx, Child(X))) && A.height == H && A.bf == B
    ensures cx == Top ==> Resumable(A, ranked, Plug(cx, Child(X)), At(Child(X).h), Top, Child(X), Height(Child(X)))
    ensures cx != Top ==> Resumable(A, ranked, Plug(cx, Child(X)), At(cx.p), cx.up, Up(cx, Child(X)), Height(Up(cx, X)))
  {
    OneClimb(H, B, cx, X);
  }

  // ------------------------------------------------------------ two children

  /** The node at the hole of a linked tree points at its subtrees, which are linked. */
  lemma {:induction false} SubtreeLinked(g: Links, cx: Ctx, X: Shape)
    requires X.Br? && Linked(g, Plug(cx, X))
    ensures X.h in g.left && X.h in g.right && g.left[X.h] == PtrOf(X.l) && g.right[X.h] == PtrOf(X.r)
    ensures Linked(g, X.l) && Linked(g, X.r)
  {
    LinkedPlug(g, cx, X);
  }

  /**
   * Promoting the successor `y`, the left-most node of the right subtree
   * `Plug(cr, Br(Nil, y, Yr))` of `x`, drops `x` and keeps the other nodes
   * distinct.
   */
  lemma {:induction false} TwoHandles(L: Shape, x: Handle, cr: Ctx, y: Handle, Yr: Shape)
    requires Distinct(Br(L, x, Plug(cr, Br(Nil, y, Yr))))
    ensures Distinct(Br(L, y, Plug(cr, Yr)))
    ensures Handles(Br(L, y, Plug(cr, Yr))) <= Handles(Br(L, x, Plug(cr, Br(Nil, y, Yr))))
  {
    PlugDistinct(cr, Br(Nil, y, Yr));
    PlugDistinct(cr, Yr);
    PlugHandles(cr, Br(Nil, y, Yr));
    PlugHandles(cr, Yr);
  }

  /** The successor `y` comes first in the in-order sequence of the right subtree. */
  lemma {:induction false} SuccessorIn(cr: Ctx, y: Handle, Yr: Shape)
    requires AllLeft(cr)
    ensures In(Plug(cr, Br(Nil, y, Yr))) == [y] + In(Plug(cr, Yr))
  {
    AllLeftPre(cr);
    PlugIn(cr, Br(Nil, y, Yr));
    PlugIn(cr, Yr);
  }

  /** The in-order sequence loses `x` at its place: `y` came right after it. */
  lemma {:induction false} TwoIn(cx: Ctx, L: Shape, x: Handle, cr: Ctx, y: Handle, Yr: Shape)
    requires AllLeft(cr)
    ensures var q := [y] + In(Plug(cr, Yr));
            && In(Plug(cx, Br(L, x, Plug(cr, Br(Nil, y, Yr))))) == (Pre(cx) + In(L)) + [x] + (q + Suf(cx))
            && In(Plug(cx, Br(L, y, Plug(cr, Yr)))) == (Pre(cx) + In(L)) + (q + Suf(cx))
  {
    var q := [y] + In(Plug(cr, Yr));
    var X, X' := Br(L, x, Plug(cr, Br(Nil, y, Yr))), Br(L, y, Plug(cr, Yr));
    SuccessorIn(cr, y, Yr);
    assert In(X) == In(L) + [x] + q;
    assert In(X') == In(L) + q;
    PlugIn(cx, X);
    PlugIn(cx, X');
    Regroup(Pre(cx), In(L), x, q, Suf(cx));
  }

  /** Promote leaves the tree without `x`, with `y` in its place, linked. */
  lemma {:induction false} TwoShape(g: Links, cx: Ctx, L: Shape, x: Handle, cr: Ctx, y: Handle, Yr: Shape)
    requires L.Br? && AllLeft(cr)
    requires var t0 := Plug(cx, Br(L, x, Plug(cr, Br(Nil, y, Yr))));
             Linked(g, t0) && Rooted(g, t0) && Distinct(t0)
    ensures Has(g, x) && Has(g, y) && g.parent[y].At? && g.parent[y].h in g.right && g.right[y] != At(x)
    ensures g.parent[x] == (if cx == Top then Null else At(cx.p)) && (g.parent[x].At? ==> g.parent[x].h in g.right)
    ensures (g.right[x] == At(y) <==> cr == Top) && g.parent[y] == At(if cr == Top then x else cr.p)
    ensures var t0, t1 := Plug(cx, Br(L, x, Plug(cr, Br(Nil, y, Yr)))), Plug(cx, Br(L, y, Plug(cr, Yr)));
            && t1.Br? && Linked(Promote(g, x, y), t1) && Rooted(Promote(g, x, y), t1) && Distinct(t1)
            && Handles(t1) <= Handles(t0) && t1.h == (if cx == Top then y else t0.h)
  {
    var R := Plug(cr, Br(Nil, y, Yr));
    var X, X' := Br(L, x, R), Br(L, y, Plug(cr, Yr));
    if cr == Top {
      PromoteNearLinked(g, cx, L, x, y, Yr);
    } else {
      PromoteDeepLinked(g, cx, L, x, cr, y, Yr);
      LinkedPlug(g, cx, X);
      PlugDistinct(cx, X);
      DeepParts(g, cr, y, Yr);
    }
    PlugDistinct(cx, X);
    TwoHandles(L, x, cr, y, Yr);
    PlugRemoveHandles(cx, X, X');
    if cx != Top {
      PlugRoot(cx, X, X');
    }
  }

  /** After Promote the arena holds the tree without `x`, wired and in key order. */
  lemma {:induction false} TwoWired<T>(A: Arena<T>, ranked: bool, cx: Ctx, L: Shape, x: Handle, cr: Ctx, y: Handle, Yr: Shape)
    requires L.Br? && AllLeft(cr)
    requires var t0 := Plug(cx, Br(L, x, Plug(cr, Br(Nil, y, Yr))));
             Wired(A, t0) && Ordered(A, ranked, t0)
    ensures Has(Ptrs(A), x) && Has(Ptrs(A), y) && A.parent[y].At? && A.parent[y].h in A.right && A.right[y] != At(x)
    ensures A.parent[x] == (if cx == Top then Null else At(cx.p)) && (A.parent[x].At? ==> A.parent[x].h in A.right)
    ensures (A.right[x] == At(y) <==> cr == Top) && A.parent[y] == At(if cr == Top then x else cr.p) && x in A.count
    ensures var A2, t0, t1 := Unlinked(A, Promote(Ptrs(A), x, y)), Plug(cx, Br(L, x, Plug(cr, Br(Nil, y, Yr)))),
                              Plug(cx, Br(L, y, Plug(cr, Yr)));
            var q := [y] + In(Plug(cr, Yr));
            && Wired(A2, t1) && Ordered(A2, ranked, t1) && Keys(A2, ranked) == Keys(A, ranked)
            && t1.h == (if cx == Top then y else t0.h)
            && In(t0) == (Pre(cx) + In(L)) + [x] + (q + Suf(cx))
            && In(t1) == (Pre(cx) + In(L)) + (q + Suf(cx))
  {
    var X := Br(L, x, Plug(cr, Br(Nil, y, Yr)));
    TwoShape(Ptrs(A), cx, L, x, cr, y, Yr);
    TwoIn(cx, L, x, cr, y, Yr);
    PlugHandles(cx, X);
    RemovedSound(A, ranked, Promote(Ptrs(A), x, y), x, Plug(cx, X), Plug(cx, Br(L, y, Plug(cr, Yr))),
                 Pre(cx) + In(L), [y] + In(Plug(cr, Yr)) + Suf(cx));
  }

  /**
   * upwardUpdate can start at the successor's old parent, or at the
   * successor itself when it was the right child of `x`: the sizes below
   * that path and beside it are right.
   */
  lemma {:induction false} TwoCounts(cs: map<Handle, int>, cx: Ctx, L: Shape, x: Handle, cr: Ctx, y: Handle, Yr: Shape)
    requires var t0 := Plug(cx, Br(L, x, Plug(cr, Br(Nil, y, Yr))));
             Counted(cs, t0) && Distinct(t0)
    ensures Counted(cs[x := 0], Yr) && SibCounted(cs[x := 0], Append(cr, InR(L, y, cx)))
  {
    var Y, X := Br(Nil, y, Yr), Br(L, x, Plug(cr, Br(Nil, y, Yr)));
    var c0, c1 := Append(cr, InR(L, x, cx)), Append(cr, InR(L, y, cx));
    PlugAppend(cr, InR(L, x, cx), Y);
    PlugAppend(cr, InR(L, y, cx), Y);
    PlugDistinct(cx, X);
    PlugDistinct(cr, Y);
    PlugHandles(cr, Y);
    CountedPlug(cs, c0, Y);
    CtxCountedSib(cs, c0, Size(Y));
    SibCountedAppend(cs, cr, InR(L, x, cx));
    SibCountedAppend(cs, cr, InR(L, y, cx));
    assert x !in CtxHandles(c1);
    SibCountedFrame(cs, cs[x := 0], c1);
    CountedFresh(cs, Yr, x, 0);
  }

  /** The heights beside the path down to the successor's slot stay as they were. */
  lemma {:induction false} TwoCtxOk(H: map<Handle, int>, B: map<Handle, int>, cx: Ctx, L: Shape, x: Handle, cr: Ctx, y: Handle, Yr: Shape)
    requires var t0 := Plug(cx, Br(L, x, Plug(cr, Br(Nil, y, Yr))));
             Balanced(t0) && Cached(H, B, t0)
    ensures Balanced(Yr) && Cached(H, B, Yr) && Height(Br(Nil, y, Yr)) == 1 + Height(Yr)
    ensures CtxOk(H, B, Append(cr, InR(L, y, cx)), Height(Br(Nil, y, Yr)))
  {
    var Y := Br(Nil, y, Yr);
    PlugAppend(cr, InR(L, x, cx), Y);
    CtxOkPlug(H, B, Append(cr, InR(L, x, cx)), Y);
    CtxOkAppend(H, B, cr, InR(L, x, cx), Height(Y));
    CtxOkAppend(H, B, cr, InR(L, y, cx), Height(Y));
    HeightBounds(Yr);
  }

  /** Appending a non-empty path below another gives a non-empty one, with the same first frame. */
  lemma {:induction false} AppendFrame(i: Ctx, o: Ctx)
    requires o != Top
    ensures Append(i, o) != Top && Append(i, o).p == (if i == Top then o.p else i.p)
  {
    if i != Top {
      assert Append(i, o).up == Append(i.up, o);
    }
  }

  /** rebalance_tree can climb from the parent of `Yr`'s slot `c1` when `Yr` sits one level lower than before. */
  lemma {:induction false} ClimbFromSlot<T>(A: Arena<T>, ranked: bool, t1: Shape, c1: Ctx, y: Handle, Yr: Shape)
    requires Balanced(Yr) && Cached(A.height, A.bf, Yr) && Height(Br(Nil, y, Yr)) == 1 + Height(Yr)
    requires CtxOk(A.height, A.bf, c1, Height(Br(Nil, y, Yr))) && c1 != Top
    requires Sound(A, ranked, t1) && t1 == Plug(c1, Yr)
    ensures Resumable(A, ranked, t1, At(c1.p), c1.up, Up(c1, Yr), 1 + Max(Height(Br(Nil, y, Yr)), Height(c1.sib)))
  {
    ClimbUp(A.height, A.bf, c1, Yr, Height(Br(Nil, y, Yr)));
  }

  /**
   * After make_node_leaf on a node with two children (and the MultiTree's
   * recount), rebalance_tree can start at the parent of the successor's
   * old slot: the successor's right subtree `Yr` moved up into that slot,
   * one level lower than the successor's old subtree.
   */
  lemma {:induction false} TwoResumable<T>(A: Arena<T>, ranked: bool, H: map<Handle, int>, B: map<Handle, int>,
                                           cx: Ctx, L: Shape, x: Handle, cr: Ctx, y: Handle, Yr: Shape, c1: Ctx)
    requires var t0 := Plug(cx, Br(L, x, Plug(cr, Br(Nil, y, Yr))));
             Balanced(t0) && Cached(H, B, t0)
    requires Sound(A, ranked, Plug(cx, Br(L, y, Plug(cr, Yr)))) && A.height == H && A.bf == B
    requires c1 == Append(cr, InR(L, y, cx))
    ensures c1 != Top && c1.p == if cr == Top then y else cr.p
    ensures Resumable(A, ranked, Plug(cx, Br(L, y, Plug(cr, Yr))), At(c1.p), c1.up, Up(c1, Yr),
                      1 + Max(Height(Br(Nil, y, Yr)), Height(c1.sib)))
  {
    TwoCtxOk(H, B, cx, L, x, cr, y, Yr);
    AppendFrame(cr, InR(L, y, cx));
    PlugAppend(cr, InR(L, y, cx), Yr);
    ClimbFromSlot(A, ranked, Plug(cx, Br(L, y, Plug(cr, Yr))), c1, y, Yr);
  }

  /**
   * The two-children case after the pointer writes and the recount, all
   * at once: the arena is sound again on the new shape, with the same
   * keys and payloads, and rebalance_tree can start at the successor's
   * old parent.
   */
  lemma {:induction false} TwoRecounted<T>(A0: Arena<T>, A: Arena<T>, ranked: bool, cx: Ctx, L: Shape, x: Handle,
                                           cr: Ctx, y: Handle, Yr: Shape, c1: Ctx)
    requires Has(Ptrs(A0), x) && Has(Ptrs(A0), y) && A0.parent[y].At? && A0.parent[y].h in A0.right && A0.right[y] != At(x)
    requires A0.parent[x].At? ==> A0.parent[x].h in A0.right
    requires var U, t1 := Unlinked(A0, Promote(Ptrs(A0), x, y)), Plug(cx, Br(L, y, Plug(cr, Yr)));
             Wired(U, t1) && Ordered(U, ranked, t1) && Keys(U, ranked) == Keys(A0, ranked)
             && A == U.(count := A.count) && A.count.Keys == U.count.Keys && (ranked ==> Counted(A.count, t1))
    requires var t0 := Plug(cx, Br(L, x, Plug(cr, Br(Nil, y, Yr))));
             Balanced(t0) && Cached(A0.height, A0.bf, t0)
    requires c1 == Append(cr, InR(L, y, cx))
    ensures c1 != Top && c1.p == if cr == Top then y else cr.p
    ensures Resumable(A, ranked, Plug(cx, Br(L, y, Plug(cr, Yr))), At(c1.p), c1.up, Up(c1, Yr),
                      1 + Max(Height(Br(Nil, y, Yr)), Height(c1.sib)))
    ensures Keys(A, ranked) == Keys(A0, ranked) && A.data == A0.data
  {
    var t1 := Plug(cx, Br(L, y, Plug(cr, Yr)));
    Recounted(Unlinked(A0, Promote(Ptrs(A0), x, y)), ranked, t1, A.count);
    TwoResumable(A, ranked, A0.height, A0.bf, cx, L, x, cr, y, Yr, c1);
  }
}
