/**
 * The AVL trees of the system: `Tree<GenericNode>` (keyed by id) and
 * `MultiTree` over `ComplexNode` (keyed by ability, then id, and keeping
 * the size of every subtree). Both share the same node code, so one class
 * models both; `ranked` says which of the two a tree is.
 *
 * The nodes live in an arena: one map per node field, keyed by a handle
 * standing for the node's address. The ghost `shape` is the tree the
 * pointers describe; `Valid` ties the arena to it.
 */
module AvlTree {
  import opened Common
  import opened AvlShape
  import opened AvlArena
  import opened AvlRelink
  import opened AvlState
  import opened AvlClimb
  import opened AvlQuery
  import opened AvlInsert
  import opened AvlRemove
  import opened AvlDelete

  class Tree<T> {
    /** True for a MultiTree (ComplexNode), false for a Tree of GenericNode. */
    const ranked: bool

    /** m_node: the root; the placeholder node when the tree is empty. */
    var root: Handle
    /** The nodes of the tree. */
    var arena: Arena<T>

    ghost var shape: Shape

    ghost predicate Valid()
      reads this
    {
      Wired(arena, shape) && root == shape.h && Live(arena, root)
      && if arena.height[root] == -1 then
           shape == Br(Nil, root, Nil) && arena.data[root] == None && arena.id[root] == 0 && arena.bf[root] == 0
           && (ranked ==> arena.ability[root] == 0 && arena.count[root] == 0)
         else
           Sound(arena, ranked, shape) && Balanced(shape) && Cached(arena.height, arena.bf, shape)
    }

    /** The tree's contents in key order: (key, data) of each node; none for the placeholder. */
    ghost function Entries(): seq<(Key, Option<T>)>
      reads this
      requires Valid()
    {
      InHandles(shape);
      if arena.height[root] == -1 then [] else EntriesOf(Keys(arena, ranked), arena.data, In(shape))
    }

    /** The entries come in strictly increasing key order: (id) in a Tree, (ability, id) in a MultiTree. */
    lemma EntriesSorted()
      requires Valid()
      ensures SortedEntries(Entries())
    {
      assert SortedBy(Keys(arena, ranked), In(shape));
      InHandles(shape);
    }

    /** Tree(): a tree holding only the placeholder node. */
    constructor(ranked: bool)
      ensures Valid() && Entries() == [] && this.ranked == ranked
    {
      this.ranked := ranked;
      root := 0;
      arena := Arena(map[0 := None], map[0 := 0], map[0 := 0], map[0 := -1], map[0 := 0], map[0 := 0],
                     map[0 := Null], map[0 := Null], map[0 := Null], 1);
      shape := Br(Nil, 0, Nil);
      new;
      assert Handles(shape) == {0};
    }

    // ------------------------------------------------------------ node stats

    /** update_height: one more than the taller child's height, 0 for a leaf. */
    method UpdateHeight(x: Handle)
      requires x in arena.left && x in arena.right && x in arena.height
      requires arena.left[x].At? ==> arena.left[x].h in arena.height
      requires arena.right[x].At? ==> arena.right[x].h in arena.height
      modifies this`arena
      ensures var A := old(arena);
              arena == A.(height := A.height[x := Max(ChildHeight(A.height, A.left[x]), ChildHeight(A.height, A.right[x]))])
    {
      var heightLeft, heightRight := 0, 0;
      if arena.left[x].At? {
        heightLeft := arena.height[arena.left[x].h] + 1;
      }
      if arena.right[x].At? {
        heightRight := arena.height[arena.right[x].h] + 1;
      }
      if heightLeft >= heightRight {
        arena := arena.(height := arena.height[x := heightLeft]);
      } else {
        arena := arena.(height := arena.height[x := heightRight]);
      }
    }

    /** update_bf: the left child's height minus the right child's. */
    method UpdateBf(x: Handle)
      requires x in arena.left && x in arena.right && x in arena.bf
      requires arena.left[x].At? ==> arena.left[x].h in arena.height
      requires arena.right[x].At? ==> arena.right[x].h in arena.height
      modifies this`arena
      ensures var A := old(arena);
              arena == A.(bf := A.bf[x := ChildHeight(A.height, A.left[x]) - ChildHeight(A.height, A.right[x])])
    {
      var heightLeft, heightRight := 0, 0;
      if arena.left[x].At? {
        heightLeft := arena.height[arena.left[x].h] + 1;
      }
      if arena.right[x].At? {
        heightRight := arena.height[arena.right[x].h] + 1;
      }
      arena := arena.(bf := arena.bf[x := heightLeft - heightRight]);
    }

    /** update_children: the children's subtree sizes plus one. */
    method UpdateChildren(x: Handle)
      requires x in arena.left && x in arena.right && x in arena.count
      requires arena.left[x].At? ==> arena.left[x].h in arena.count
      requires arena.right[x].At? ==> arena.right[x].h in arena.count
      modifies this`arena
      ensures var A := old(arena);
              arena == A.(count := Recount(A.count, x, A.left[x], A.right[x]))
    {
      var l, r := 0, 0;
      if arena.left[x].At? {
        l := arena.count[arena.left[x].h];
      }
      if arena.right[x].At? {
        r := arena.count[arena.right[x].h];
      }
      arena := arena.(count := arena.count[x := l + r + 1]);
    }

    /**
     * Both updates of rebalance_tree on a node whose children are cached:
     * the node then caches its true height and balance factor, and
     * nothing else changes.
     */
    method UpdateNode(x: Handle, ghost l: Shape, ghost r: Shape)
      requires x in arena.left && x in arena.right && x in arena.height && x in arena.bf
      requires arena.left[x] == PtrOf(l) && arena.right[x] == PtrOf(r)
      requires Cached(arena.height, arena.bf, l) && Cached(arena.height, arena.bf, r)
      requires x !in Handles(l) && x !in Handles(r)
      modifies this`arena
      ensures Cached(arena.height, arena.bf, Br(l, x, r))
      ensures arena == old(arena).(height := old(arena).height[x := Height(Br(l, x, r))],
                                   bf := old(arena).bf[x := Bf(Br(l, x, r))])
      ensures arena.height.Keys == old(arena).height.Keys && arena.bf.Keys == old(arena).bf.Keys
    {
      UpdateCached(arena.height, arena.bf, l, x, r);
      UpdateHeight(x);
      assert ChildHeight(arena.height, arena.left[x]) == ChildHeight(old(arena).height, arena.left[x]);
      assert ChildHeight(arena.height, arena.right[x]) == ChildHeight(old(arena).height, arena.right[x]);
      UpdateBf(x);
    }

    // ------------------------------------------------------------ rotations

    /** The pointer writes of ll_rotation: `a`'s left child takes its place. */
    method LLRelink(a: Handle, node: Handle) returns (r: Handle)
      requires a in arena.left && a in arena.parent && arena.left[a].At? && arena.left[a].h in arena.right
      requires arena.parent[a].At? ==> arena.parent[a].h in arena.left
      modifies this`arena
      ensures arena == LLArena(old(arena), a)
      ensures r == if old(arena).parent[a].At? then node else old(arena).left[a].h
    {
      var b := arena.left[a].h;
      var pa := arena.parent[a];
      var lt, rt := arena.left, arena.right;
      r := node;
      if pa.At? {
        // the parent now points at the left child, on the side `a` was on
        if lt[pa.h] == At(a) {
          lt := lt[pa.h := At(b)];
        } else {
          rt := rt[pa.h := At(b)];
        }
      } else {
        r := b;
      }
      var pt := arena.parent[b := pa][a := At(b)];
      if rt[b].At? {
        pt := pt[rt[b].h := At(a)];
      }
      ghost var g := LLLinks(Ptrs(arena), a);
      assert g.left == lt[a := rt[b]] && g.right == rt[b := At(a)] && g.parent == pt;
      arena := arena.(left := lt[a := rt[b]], right := rt[b := At(a)], parent := pt);
    }

    /** The pointer writes of rr_rotation: `a`'s right child takes its place. */
    method RRRelink(a: Handle, node: Handle) returns (r: Handle)
      requires a in arena.right && a in arena.parent && arena.right[a].At? && arena.right[a].h in arena.left
      requires arena.parent[a].At? ==> arena.parent[a].h in arena.right
      modifies this`arena
      ensures arena == RRArena(old(arena), a)
      ensures r == if old(arena).parent[a].At? then node else old(arena).right[a].h
    {
      var b := arena.right[a].h;
      var pa := arena.parent[a];
      var lt, rt := arena.left, arena.right;
      r := node;
      if pa.At? {
        // the parent now points at the right child, on the side `a` was on
        if rt[pa.h] == At(a) {
          rt := rt[pa.h := At(b)];
        } else {
          lt := lt[pa.h := At(b)];
        }
      } else {
        r := b;
      }
      var pt := arena.parent[b := pa][a := At(b)];
      if lt[b].At? {
        pt := pt[lt[b].h := At(a)];
      }
      ghost var g := RRLinks(Ptrs(arena), a);
      assert g.left == lt[b := At(a)] && g.right == rt[a := lt[b]] && g.parent == pt;
      arena := arena.(left := lt[b := At(a)], right := rt[a := lt[b]], parent := pt);
    }

    /** The closing update_children calls of ll_rotation, on `a` and then on its new parent `b`. */
    method LLRecountNodes(a: Handle, b: Handle, ghost f: Shape)
      requires LLSized(arena.count, f) && f.h == a && f.l.h == b
      requires a in arena.left && a in arena.right && b in arena.left && b in arena.right
      requires arena.left[b] == PtrOf(f.l.l) && arena.right[b] == At(a)
      requires arena.left[a] == PtrOf(f.l.r) && arena.right[a] == PtrOf(f.r)
      modifies this`arena
      ensures arena == old(arena).(count := LLCounts(old(arena).count, f))
    {
      UpdateChildren(a);
      UpdateChildren(b);
    }

    /** The closing update_children calls of rr_rotation, on `a` and then on its new parent `b`. */
    method RRRecountNodes(a: Handle, b: Handle, ghost f: Shape)
      requires RRSized(arena.count, f) && f.h == a && f.r.h == b
      requires a in arena.left && a in arena.right && b in arena.left && b in arena.right
      requires arena.left[b] == At(a) && arena.right[b] == PtrOf(f.r.r)
      requires arena.left[a] == PtrOf(f.l) && arena.right[a] == PtrOf(f.r.l)
      modifies this`arena
      ensures arena == old(arena).(count := RRCounts(old(arena).count, f))
    {
      UpdateChildren(a);
      UpdateChildren(b);
    }

    /**
     * ll_rotation on node `a`, whose subtree is `f`; `node` is the current
     * root and the result the root afterwards: unchanged unless `a` was the
     * root, in which case its left child. The arena becomes `LLAfter`.
     */
    method LLRotation(a: Handle, node: Handle, ghost f: Shape) returns (r: Handle)
      requires LLFits(arena, ranked, f) && f.h == a
      modifies this`arena
      ensures arena == LLAfter(old(arena), ranked, f)
      ensures arena == old(arena).(left := arena.left, right := arena.right, parent := arena.parent, count := arena.count)
      ensures !ranked ==> arena.count == old(arena).count
      ensures r == if old(arena).parent[a].At? then node else f.l.h
    {
      var b := arena.left[a].h;
      r := LLRelink(a, node);
      if ranked {
        LLRecountNodes(a, b, f);
      }
    }

    /** rr_rotation: the mirror image of ll_rotation. */
    method RRRotation(a: Handle, node: Handle, ghost f: Shape) returns (r: Handle)
      requires RRFits(arena, ranked, f) && f.h == a
      modifies this`arena
      ensures arena == RRAfter(old(arena), ranked, f)
      ensures arena == old(arena).(left := arena.left, right := arena.right, parent := arena.parent, count := arena.count)
      ensures !ranked ==> arena.count == old(arena).count
      ensures r == if old(arena).parent[a].At? then node else f.r.h
    {
      var b := arena.right[a].h;
      r := RRRelink(a, node);
      if ranked {
        RRRecountNodes(a, b, f);
      }
    }

    /** lr_rotation: rr_rotation at the left child, then ll_rotation at the node. */
    method LRRotation(a: Handle, node: Handle, ghost f: Shape) returns (r: Handle)
      requires LRFits(arena, ranked, f) && f.h == a
      modifies this`arena
      ensures arena == LRAfter(old(arena), ranked, f)
      ensures arena == old(arena).(left := arena.left, right := arena.right, parent := arena.parent, count := arena.count)
      ensures !ranked ==> arena.count == old(arena).count
      ensures r == if old(arena).parent[a].At? then node else f.l.r.h
    {
      var tmp := RRRotation(arena.left[a].h, node, f.l);
      r := LLRotation(a, tmp, Br(RR(f.l), a, f.r));
    }

    /** rl_rotation: ll_rotation at the right child, then rr_rotation at the node. */
    method RLRotation(a: Handle, node: Handle, ghost f: Shape) returns (r: Handle)
      requires RLFits(arena, ranked, f) && f.h == a
      modifies this`arena
      ensures arena == RLAfter(old(arena), ranked, f)
      ensures arena == old(arena).(left := arena.left, right := arena.right, parent := arena.parent, count := arena.count)
      ensures !ranked ==> arena.count == old(arena).count
      ensures r == if old(arena).parent[a].At? then node else f.r.l.h
    {
      var tmp := LLRotation(arena.right[a].h, node, f.r);
      r := RRRotation(a, tmp, Br(f.l, a, LL(f.r)));
    }

    // ------------------------------------------------------------ rebalancing

    /**
     * The rotation rebalance_tree makes at `x`, whose subtree is `f`, when
     * its cached balance factor is 2: lr_rotation when the left child's
     * cached balance factor is -1, ll_rotation otherwise. `root` follows
     * the rotation.
     */
    method RotateLeftHeavy(x: Handle, ghost f: Shape)
      requires RebalFits(arena, ranked, f) && f.h == x && Bf(f) == 2 && f.l.Br?
      requires x in arena.left && arena.left[x] == At(f.l.h) && f.l.h in arena.bf && arena.bf[f.l.h] == Bf(f.l)
      modifies this`arena, this`root
      ensures arena == RebalAfter(old(arena), ranked, f)
      ensures arena == old(arena).(left := arena.left, right := arena.right, parent := arena.parent, count := arena.count)
      ensures !ranked ==> arena.count == old(arena).count
      ensures old(arena).parent[x].At? ==> root == old(root)
      ensures old(arena).parent[x].Null? ==> root == Rebal(f).h
    {
      if arena.bf[arena.left[x].h] == -1 {
        root := LRRotation(x, root, f);
      } else {
        root := LLRotation(x, root, f);
      }
    }

    /** The mirror image of RotateLeftHeavy, for a cached balance factor of -2. */
    method RotateRightHeavy(x: Handle, ghost f: Shape)
      requires RebalFits(arena, ranked, f) && f.h == x && Bf(f) == -2 && f.r.Br?
      requires x in arena.right && arena.right[x] == At(f.r.h) && f.r.h in arena.bf && arena.bf[f.r.h] == Bf(f.r)
      modifies this`arena, this`root
      ensures arena == RebalAfter(old(arena), ranked, f)
      ensures arena == old(arena).(left := arena.left, right := arena.right, parent := arena.parent, count := arena.count)
      ensures !ranked ==> arena.count == old(arena).count
      ensures old(arena).parent[x].At? ==> root == old(root)
      ensures old(arena).parent[x].Null? ==> root == Rebal(f).h
    {
      if arena.bf[arena.right[x].h] == 1 {
        root := RLRotation(x, root, f);
      } else {
        root := RRRotation(x, root, f);
      }
    }

    /**
     * After a rotation at `x`, rebalance_tree recomputes both children of
     * `x`'s new parent, the root `u.h` of the rotated subtree; the node
     * itself is left for the next visit.
     */
    method RefreshChildren(x: Handle, ghost c: Ctx, ghost u: Shape, ghost ho: int)
      requires Fixable(arena.height, arena.bf, u) && Handles(u) !! CtxHandles(c)
      requires CtxOk(arena.height, arena.bf, c, ho) && -1 <= Height(u) - ho <= 1
      requires Moved(Ptrs(arena), u) && (x == u.l.h || x == u.r.h) && x in arena.parent && arena.parent[x] == At(u.h)
      requires u.l.h in arena.height && u.l.h in arena.bf && u.r.h in arena.height && u.r.h in arena.bf
      modifies this`arena
      ensures Climbing(arena.height, arena.bf, c, u, ho) && Rebal(u) == u
      ensures arena == old(arena).(height := arena.height, bf := arena.bf)
      ensures arena.height.Keys == old(arena).height.Keys && arena.bf.Keys == old(arena).bf.Keys
    {
      assert Distinct(u.l) && Distinct(u.r);
      FixLeft(arena.height, arena.bf, c, u, ho);
      if arena.parent[x].At? {
        var p := arena.parent[x].h;
        if arena.left[p].At? {
          UpdateNode(arena.left[p].h, u.l.l, u.l.r);
        }
        FixRight(arena.height, arena.bf, c, u, ho);
        if arena.right[p].At? {
          UpdateNode(arena.right[p].h, u.r.l, u.r.r);
        }
      } else {
        assert false;
      }
    }
 
    /**
     * The rotation rebalance_tree makes at `x`, the root of `f` at path
     * `c`, whose balance factor of 2 or -2 is cached: the arena then holds
     * `Plug(c, Rebal(f))`, with the same nodes in the same key order.
     */
    method Rotate(x: Handle, ghost c: Ctx, ghost f: Shape)
      requires Sound(arena, ranked, Plug(c, f)) && root == Plug(c, f).h && f.Br? && f.h == x
      requires Balanced(f.l) && Balanced(f.r) && Cached(arena.height, arena.bf, f) && (Bf(f) == 2 || Bf(f) == -2)
      modifies this`arena, this`root
      ensures Sound(arena, ranked, Plug(c, Rebal(f))) && root == Plug(c, Rebal(f)).h
      ensures In(Plug(c, Rebal(f))) == In(Plug(c, f)) && Handles(Plug(c, Rebal(f))) == Handles(Plug(c, f))
      ensures arena == old(arena).(left := arena.left, right := arena.right, parent := arena.parent, count := arena.count)
      ensures !ranked ==> arena.count == old(arena).count
    {
      Focus(arena, c, f);
      if arena.bf[x] == 2 {
        LeftHeavySound(arena, ranked, c, f);
        RotateLeftHeavy(x, f);
      } else {
        RightHeavySound(arena, ranked, c, f);
        RotateRightHeavy(x, f);
      }
    }

    /**
     * What rebalance_tree does after a rotation that left `u` at path `c`:
     * `x`, now a child of `u`'s root, has its new parent's two children
     * recomputed, after which `u` is a balanced subtree with all but its
     * root cached. Only heights and balance factors change.
     */
    method Settle(x: Handle, ghost c: Ctx, ghost u: Shape, ghost ho: int)
      requires Sound(arena, ranked, Plug(c, u)) && Fixable(arena.height, arena.bf, u)
      requires CtxOk(arena.height, arena.bf, c, ho) && -1 <= Height(u) - ho <= 1
      requires x == u.l.h || x == u.r.h
      modifies this`arena
      ensures Sound(arena, ranked, Plug(c, u))
      ensures arena == old(arena).(height := arena.height, bf := arena.bf)
      ensures Climbing(arena.height, arena.bf, c, u, ho) && Rebal(u) == u
      ensures x in arena.parent && arena.parent[x] == At(u.h) && root == old(root)
    {
      ghost var A0 := arena;
      Focus(arena, c, u);
      RefreshChildren(x, c, u, ho);
      SoundHeights(A0, ranked, Plug(c, u), arena.height, arena.bf);
    }

    /**
     * The rotating part of a visit of rebalance_tree to `x`, the root of
     * `f` at path `c`, whose own height and balance factor of 2 or -2 are
     * cached: Rotate, then Settle. The arena then holds the tree `t`,
     * `Plug(c, Rebal(f))`, with the same nodes in the same order, and the
     * balanced subtree's root is the node visited next.
     */
    method Restore(x: Handle, ghost c: Ctx, ghost f: Shape, ghost ho: int) returns (ghost t: Shape)
      requires Sound(arena, ranked, Plug(c, f)) && root == Plug(c, f).h && f.Br? && f.h == x
      requires Climbing(arena.height, arena.bf, c, f, ho) && Cached(arena.height, arena.bf, f)
      requires Bf(f) == 2 || Bf(f) == -2
      modifies this`arena, this`root
      ensures t == Plug(c, Rebal(f)) && Sound(arena, ranked, t) && root == t.h
      ensures In(t) == In(Plug(c, f)) && Handles(t) == Handles(Plug(c, f))
      ensures arena == old(arena).(left := arena.left, right := arena.right, parent := arena.parent,
                                   height := arena.height, bf := arena.bf, count := arena.count)
      ensures !ranked ==> arena.count == old(arena).count
      ensures Climbing(arena.height, arena.bf, c, Rebal(f), ho) && Rebal(Rebal(f)) == Rebal(f)
      ensures x in arena.parent && arena.parent[x] == At(Rebal(f).h)
    {
      RotationLeaves(arena.height, arena.bf, c, f, ho);
      Rotate(x, c, f);
      t := Plug(c, Rebal(f));
      Settle(x, c, Rebal(f), ho);
    }

    /**
     * The first part of a visit of rebalance_tree to `x`, the root of `f`
     * at path `c`: update_height and update_bf. The node then caches its
     * true height and balance factor, which tells whether it needs a
     * rotation.
     */
    method Refresh(x: Handle, ghost c: Ctx, ghost f: Shape, ghost ho: int)
      requires Sound(arena, ranked, Plug(c, f)) && f.Br? && f.h == x
      requires Climbing(arena.height, arena.bf, c, f, ho)
      modifies this`arena
      ensures Sound(arena, ranked, Plug(c, f))
      ensures arena == old(arena).(height := arena.height, bf := arena.bf)
      ensures Climbing(arena.height, arena.bf, c, f, ho) && Cached(arena.height, arena.bf, f)
      ensures Rebal(f) == f <==> -1 <= Bf(f) <= 1
      ensures Rebal(f) == f ==> Balanced(f) && -1 <= Height(f) - ho <= 1
      ensures x in arena.parent && arena.parent[x] == if c == Top then Null else At(c.p)
    {
      ghost var A0 := arena;
      Focus(arena, c, f);
      ClimbVisit(arena.height, arena.bf, c, f, ho);
      UpdateNode(x, f.l, f.r);
      SoundHeights(A0, ranked, Plug(c, f), arena.height, arena.bf);
    }

    /**
     * One visit of rebalance_tree to `x`, the root of `f` at path `c`:
     * Refresh, then Restore for a balance factor beyond 1. `next` is the
     * node visited next, `x`'s parent; `t` is the tree afterwards, with
     * the same nodes in the same order, and the ghost results place `next`
     * in it. The climb comes closer to its end.
     */
    method Visit(x: Handle, ghost c: Ctx, ghost f: Shape, ghost ho: int)
      returns (next: Ptr, ghost t: Shape, ghost c1: Ctx, ghost f1: Shape, ghost ho1: int)
      requires Sound(arena, ranked, Plug(c, f)) && root == Plug(c, f).h && f.Br? && f.h == x
      requires Climbing(arena.height, arena.bf, c, f, ho)
      modifies this`arena, this`root
      ensures Sound(arena, ranked, t) && root == t.h
      ensures In(t) == In(Plug(c, f)) && Handles(t) == Handles(Plug(c, f))
      ensures arena == old(arena).(left := arena.left, right := arena.right, parent := arena.parent,
                                   height := arena.height, bf := arena.bf, count := arena.count)
      ensures !ranked ==> arena.count == old(arena).count
      ensures next.Null? ==> Balanced(t) && Cached(arena.height, arena.bf, t)
      ensures next.At? ==> t == Plug(c1, f1) && f1.Br? && next.h == f1.h && Climbing(arena.height, arena.bf, c1, f1, ho1)
                           && Remaining(c1, f1) < Remaining(c, f)
    {
      Refresh(x, c, f, ho);
      t, c1, f1, ho1 := Plug(c, f), c, f, ho;
      if arena.bf[x] > 1 || arena.bf[x] < -1 {
        t := Restore(x, c, f, ho);
        f1 := Rebal(f);
        RotationProgress(c, f);
      } else if c != Top {
        ClimbUp(arena.height, arena.bf, c, f, ho);
        ClimbProgress(c, f);
        c1, f1, ho1 := c.up, Up(c, f), 1 + Max(ho, Height(c.sib));
      }
      next := arena.parent[x];
    }

    /**
     * rebalance_tree: visits `cur` and then every node above it up to the
     * root. Afterwards the arena holds an AVL tree `t`, every node caching
     * its true height and balance factor, with the same nodes in the same
     * key order and the same data.
     */
    method RebalanceTree(cur: Ptr, ghost c: Ctx, ghost f: Shape, ghost ho: int, ghost s: Shape) returns (ghost t: Shape)
      requires Sound(arena, ranked, s) && root == s.h
      requires cur.Null? ==> Balanced(s) && Cached(arena.height, arena.bf, s)
      requires cur.At? ==> s == Plug(c, f) && f.Br? && cur.h == f.h && Climbing(arena.height, arena.bf, c, f, ho)
      modifies this`arena, this`root
      ensures Sound(arena, ranked, t) && root == t.h
      ensures Balanced(t) && Cached(arena.height, arena.bf, t)
      ensures In(t) == In(s) && Handles(t) == Handles(s)
      ensures arena == old(arena).(left := arena.left, right := arena.right, parent := arena.parent,
                                   height := arena.height, bf := arena.bf, count := arena.count)
      ensures !ranked ==> arena.count == old(arena).count
      decreases if cur.Null? then 0 else Remaining(c, f) + 1
    {
      if cur.Null? {
        return s;
      }
      var next, s1, c1, f1, ho1 := Visit(cur.h, c, f, ho);
      t := RebalanceTree(next, c1, f1, ho1, s1);
    }

    // ------------------------------------------------------------ insert

    /**
     * insert: the first payload goes into the placeholder root, which
     * becomes a leaf; no node is allocated. Otherwise the descent from the
     * root throws InvalidID at a node with the same id, or ends below the
     * node `y` the new leaf is hung from; a MultiTree recounts the path
     * (upwardUpdate), rebalance_tree climbs from `y`, and a MultiTree
     * recounts the root once more. A Tree of GenericNode orders by id and
     * has no ability; its `ability` argument plays no part.
     */
    method Insert(data: T, id: int, ability: int) returns (thrown: Option<Failure>)
      requires Valid()
      modifies this`arena, this`root, this`shape
      ensures Valid()
      ensures thrown.Some? ==> thrown == Some(InvalidID) && arena == old(arena) && root == old(root) && shape == old(shape)
      ensures thrown.Some? ==> exists i | 0 <= i < |old(Entries())| :: old(Entries())[i].0.1 == id
      ensures (exists i | 0 <= i < |old(Entries())| :: old(Entries())[i].0 == NewKey(ranked, id, ability)) ==> thrown.Some?
      ensures !ranked && (exists i | 0 <= i < |old(Entries())| :: old(Entries())[i].0.1 == id) ==> thrown.Some?
      ensures thrown.None? ==> Entries() == InsertSorted(old(Entries()), (NewKey(ranked, id, ability), Some(data)))
      ensures old(Entries()) == [] ==> thrown.None? && root == old(root) && arena.next == old(arena.next)
    {
      if arena.height[root] == -1 {
        FirstNode(data, id, ability);
        return None;
      }
      var hit, y, c := Descend(id, ability);
      if hit {
        return Some(InvalidID);
      }
      InHandles(shape);
      Grow(data, id, ability, y, c, Entries());
      Focus(arena, Top, shape);
      HeightBounds(shape);
      thrown := None;
    }

    /** The first insert: the placeholder root takes the payload, the id (and ability) and height 0. */
    method FirstNode(data: T, id: int, ability: int)
      requires Valid() && arena.height[root] == -1
      modifies this`arena
      ensures Valid() && root == old(root) && arena.next == old(arena.next)
      ensures Entries() == [(NewKey(ranked, id, ability), Some(data))]
    {
      var A := arena;
      arena := arena.(data := arena.data[root := Some(data)], id := arena.id[root := id],
                      ability := if ranked then arena.ability[root := ability] else arena.ability,
                      height := arena.height[root := 0],
                      count := if ranked then arena.count[root := arena.count[root] + 1] else arena.count);
      assert Ptrs(arena) == Ptrs(A);
      assert Wired(arena, shape);
      SingleSound(arena, ranked, root);
      assert Keys(arena, ranked)[root] == NewKey(ranked, id, ability);
    }

    /**
     * The descent of insert: from the root, left below a larger key and
     * right below a smaller one ((ability, id) in a MultiTree, the id
     * alone in a Tree), until a node with the id (`hit`) or a missing
     * child of `y`. When it misses, `c` is the path to that empty slot and
     * the new key lies between the keys before and after it.
     */
    method Descend(id: int, ability: int) returns (hit: bool, y: Handle, ghost c: Ctx)
      requires Valid() && arena.height[root] != -1
      ensures hit ==> exists i | 0 <= i < |Entries()| :: Entries()[i].0.1 == id
      ensures !hit ==> Plug(c, Nil) == shape && c != Top && y == c.p && Fits(Keys(arena, ranked), c, NewKey(ranked, id, ability))
      ensures !hit ==> forall i | 0 <= i < |Entries()| :: Entries()[i].0 != NewKey(ranked, id, ability)
      ensures !hit && !ranked ==> forall i | 0 <= i < |Entries()| :: Entries()[i].0.1 != id
    {
      var k := NewKey(ranked, id, ability);
      ghost var ks := Keys(arena, ranked);
      ghost var u := shape;
      c := Top;
      WiredWalkable(arena, shape);
      SortedBst(ks, shape);
      var x := At(root);
      y := root;
      while x.At?
        invariant Plug(c, u) == shape && x == PtrOf(u) && Walkable(arena, u) && Bst(ks, u)
        invariant Fits(ks, c, k) && (c != Top ==> y == c.p) && (x.Null? ==> c != Top)
        decreases u
      {
        y := x.h;
        if arena.id[y] == id {
          EntryWithId(c, u);
          return true, y, c;
        }
        if Less(k, KeyOf(ranked, arena.id, arena.ability, y)) {
          FitsLeft(ks, c, u, k);
          c, u := InL(c, y, u.r), u.l;
          x := arena.left[y];
        } else {
          FitsRight(ks, c, u, k);
          c, u := InR(u.l, y, c), u.r;
          x := arena.right[y];
        }
      }
      hit := false;
      EntriesAbsent(c, id, ability);
    }

    /** Where the descent misses, no entry has the new key, nor, in a Tree, the id. */
    lemma {:induction false} EntriesAbsent(c: Ctx, id: int, ability: int)
      requires Valid() && arena.height[root] != -1 && Plug(c, Nil) == shape
      requires Fits(Keys(arena, ranked), c, NewKey(ranked, id, ability))
      ensures forall i | 0 <= i < |Entries()| :: Entries()[i].0 != NewKey(ranked, id, ability)
      ensures !ranked ==> forall i | 0 <= i < |Entries()| :: Entries()[i].0.1 != id
    {
      FitsAbsent(arena, ranked, c, id, ability);
      InHandles(shape);
    }

    /** A node met on the descent is one of the tree's entries. */
    lemma {:induction false} EntryWithId(c: Ctx, u: Shape)
      requires Valid() && arena.height[root] != -1 && Plug(c, u) == shape && u.Br? && u.h in arena.id
      ensures exists i | 0 <= i < |Entries()| :: Entries()[i].0.1 == arena.id[u.h]
    {
      PlugHandles(c, u);
      InHandles(shape);
      var s := In(shape);
      var i :| 0 <= i < |s| && s[i] == u.h;
      assert Entries()[i].0.1 == arena.id[u.h];
    }

    /**
     * The rest of insert once the descent has missed below `y`, at the
     * slot `c` of the tree the arena holds: the new leaf, the MultiTree's
     * recount of the path, rebalance_tree from `y` and the MultiTree's
     * recount of the root. `es` are the entries before.
     */
    method Grow(data: T, id: int, ability: int, y: Handle, ghost c: Ctx, ghost es: seq<(Key, Option<T>)>)
      requires Sound(arena, ranked, Plug(c, Nil)) && Balanced(Plug(c, Nil)) && Cached(arena.height, arena.bf, Plug(c, Nil))
      requires root == Plug(c, Nil).h && c != Top && y == c.p && Fits(Keys(arena, ranked), c, NewKey(ranked, id, ability))
      requires (forall h | h in In(Plug(c, Nil)) :: h in Keys(arena, ranked) && h in arena.data)
      requires es == EntriesOf(Keys(arena, ranked), arena.data, In(Plug(c, Nil)))
      modifies this`arena, this`root, this`shape
      ensures Sound(arena, ranked, shape) && Balanced(shape) && Cached(arena.height, arena.bf, shape) && root == shape.h
      ensures (forall h | h in In(shape) :: h in Keys(arena, ranked) && h in arena.data)
      ensures EntriesOf(Keys(arena, ranked), arena.data, In(shape)) == InsertSorted(es, (NewKey(ranked, id, ability), Some(data)))
    {
      ghost var leaf := Br(Nil, arena.next, Nil);
      ghost var s := Plug(c, leaf);
      GrowLeaf(data, id, ability, y, c, es);
      ghost var A1 := arena;
      GrowRebalance(y, c.up, Up(c, leaf), Height(Up(c, Nil)), s);
      assert Keys(arena, ranked) == Keys(A1, ranked);
    }

    /**
     * The second half of Grow: rebalance_tree from the new leaf's parent
     * and, in the MultiTree, the recount of the root. Only the links, the
     * cached heights and the counts change.
     */
    method GrowRebalance(y: Handle, ghost c: Ctx, ghost f: Shape, ghost ho: int, ghost s: Shape)
      requires Sound(arena, ranked, s) && root == s.h
      requires s == Plug(c, f) && f.Br? && y == f.h && Climbing(arena.height, arena.bf, c, f, ho)
      modifies this`arena, this`root, this`shape
      ensures Sound(arena, ranked, shape) && Balanced(shape) && Cached(arena.height, arena.bf, shape) && root == shape.h
      ensures In(shape) == In(s)
      ensures arena.id == old(arena.id) && arena.ability == old(arena.ability) && arena.data == old(arena.data)
    {
      ghost var t := RebalanceTree(At(y), c, f, ho, s);
      if ranked {
        RecountRoot(t);
      }
      shape := t;
    }

    /**
     * The first half of Grow: the new leaf hangs under `y` and, in the
     * MultiTree, the counts above it are brought up to date; the heights
     * above it are left for rebalance_tree.
     */
    method GrowLeaf(data: T, id: int, ability: int, y: Handle, ghost c: Ctx, ghost es: seq<(Key, Option<T>)>)
      requires Sound(arena, ranked, Plug(c, Nil)) && Balanced(Plug(c, Nil)) && Cached(arena.height, arena.bf, Plug(c, Nil))
      requires root == Plug(c, Nil).h && c != Top && y == c.p && Fits(Keys(arena, ranked), c, NewKey(ranked, id, ability))
      requires (forall h | h in In(Plug(c, Nil)) :: h in Keys(arena, ranked) && h in arena.data)
      requires es == EntriesOf(Keys(arena, ranked), arena.data, In(Plug(c, Nil)))
      modifies this`arena
      ensures var leaf := Br(Nil, old(arena.next), Nil);
              Sound(arena, ranked, Plug(c, leaf)) && root == Plug(c, leaf).h
              && Climbing(arena.height, arena.bf, c.up, Up(c, leaf), Height(Up(c, Nil)))
              && (forall h | h in In(Plug(c, leaf)) :: h in Keys(arena, ranked) && h in arena.data)
              && EntriesOf(Keys(arena, ranked), arena.data, In(Plug(c, leaf))) == InsertSorted(es, (NewKey(ranked, id, ability), Some(data)))
    {
      ghost var leaf := Br(Nil, arena.next, Nil);
      ghost var s := Plug(c, leaf);
      AttachAll(arena, ranked, c, data, id, ability);
      var goLeft := Less(NewKey(ranked, id, ability), KeyOf(ranked, arena.id, arena.ability, y));
      arena := Attach(arena, y, goLeft, data, id, if ranked then ability else 0);
      ghost var A1 := arena;
      if ranked {
        UpwardUpdate(At(y), c, leaf);
        WiredCounts(A1, ranked, s, arena.count);
        assert Keys(arena, ranked) == Keys(A1, ranked);
      }
    }

    /** The MultiTree's last update_children, on the root of the counted tree `t`: it changes nothing. */
    method RecountRoot(ghost t: Shape)
      requires Wired(arena, t) && Counted(arena.count, t) && root == t.h
      modifies this`arena
      ensures arena == old(arena)
    {
      Focus(arena, Top, t);
      UpdateCounted(arena.count, t.l, t.h, t.r);
      UpdateChildren(root);
    }

    /**
     * upwardUpdate: from `starting`, the parent of the slot `f` fills at
     * path `c`, recounts every node up to the root. The counts below the
     * path and of its siblings are already right; afterwards the whole
     * tree is counted, and nothing but the counts has changed.
     */
    method UpwardUpdate(starting: Ptr, ghost c: Ctx, ghost f: Shape)
      requires Wired(arena, Plug(c, f)) && Counted(arena.count, f) && SibCounted(arena.count, c)
      requires starting == if c == Top then Null else At(c.p)
      modifies this`arena
      ensures Counted(arena.count, Plug(c, f))
      ensures arena == old(arena).(count := arena.count) && arena.count.Keys == old(arena).count.Keys
    {
      var cur := starting;
      ghost var cc, u := c, f;
      while cur.At?
        invariant Plug(cc, u) == Plug(c, f) && Counted(arena.count, u) && SibCounted(arena.count, cc)
        invariant cur == if cc == Top then Null else At(cc.p)
        invariant arena == old(arena).(count := arena.count) && arena.count.Keys == old(arena).count.Keys
        invariant Wired(arena, Plug(c, f))
        decreases Depth(cc)
      {
        var x := cur.h;
        CountStep(arena, cc, u);
        WiredRecount(arena, Plug(c, f), Recount(arena.count, x, arena.left[x], arena.right[x]));
        UpdateChildren(x);
        cc, u := cc.up, Up(cc, u);
        cur := arena.parent[x];
      }
    }

    // ------------------------------------------------------------ remove: pointer writes

    /** The pointer writes of make_node_leaf on a leaf `x`: its parent lets go of it. */
    method CutLeafNode(x: Handle)
      requires Has(Ptrs(arena), x) && (arena.parent[x].At? ==> arena.parent[x].h in arena.right)
      modifies this`arena
      ensures var g := CutLeaf(Ptrs(old(arena)), x);
              arena == old(arena).(left := g.left, right := g.right, parent := g.parent)
    {
      var px := arena.parent[x];
      var lt, rt := arena.left, arena.right;
      if px.At? {
        if rt[px.h] == At(x) {
          rt := rt[px.h := Null];
        } else {
          lt := lt[px.h := Null];
        }
      }
      arena := arena.(left := lt, right := rt);
    }

    /**
     * The pointer writes of make_node_leaf on a node `x` with one child:
     * the child takes its place under its parent, or becomes the root.
     */
    method SpliceNode(x: Handle) returns (child: Handle)
      requires Has(Ptrs(arena), x) && (arena.parent[x].At? ==> arena.parent[x].h in arena.left)
      requires arena.left[x].At? || arena.right[x].At?
      modifies this`arena, this`root
      ensures var g := Splice(Ptrs(old(arena)), x);
              arena == old(arena).(left := g.left, right := g.right, parent := g.parent)
      ensures At(child) == if old(arena).left[x].At? then old(arena).left[x] else old(arena).right[x]
      ensures root == if old(arena).parent[x].Null? then child else old(root)
    {
      var px := arena.parent[x];
      var lt, rt, pt := arena.left, arena.right, arena.parent;
      child := if lt[x].At? then lt[x].h else rt[x].h;
      pt := pt[child := px];
      if px.At? {
        if lt[px.h] == At(x) {
          lt := lt[px.h := At(child)];
        } else {
          rt := rt[px.h := At(child)];
        }
      } else {
        root := child;
      }
      arena := arena.(left := lt, right := rt, parent := pt);
    }

    /**
     * The first pointer writes of make_node_leaf on a node `x` with two
     * children: the successor `y` leaves its place to its right child.
     */
    method VacateSuccessor(x: Handle, y: Handle)
      requires Has(Ptrs(arena), x) && Has(Ptrs(arena), y) && arena.parent[y].At? && arena.parent[y].h in arena.right
      requires arena.right[y] != At(x)
      modifies this`arena
      ensures var g := Vacate(Ptrs(old(arena)), x, y);
              arena == old(arena).(left := g.left, right := g.right, parent := g.parent)
    {
      var sp := arena.parent[y];
      var lt, rt, pt := arena.left, arena.right, arena.parent;
      var ry := rt[y];
      if ry.Null? {
        if rt[sp.h] == At(y) {
          rt := rt[sp.h := Null];
        } else {
          lt := lt[sp.h := Null];
        }
      } else if rt[x] != At(y) {
        pt := pt[ry.h := sp];
        if rt[sp.h] == At(y) {
          rt := rt[sp.h := ry];
        } else {
          lt := lt[sp.h := ry];
        }
      }
      arena := arena.(left := lt, right := rt, parent := pt);
    }

    /**
     * The last pointer writes of make_node_leaf on a node `x` with two
     * children: the successor `y` takes its place, with its children, under
     * its parent or as the root.
     */
    method ReplaceNode(x: Handle, y: Handle)
      requires Has(Ptrs(arena), x) && Has(Ptrs(arena), y) && (arena.parent[x].At? ==> arena.parent[x].h in arena.right)
      modifies this`arena, this`root
      ensures var g := Replace(Ptrs(old(arena)), x, y);
              arena == old(arena).(left := g.left, right := g.right, parent := g.parent)
      ensures root == if old(arena).parent[x].Null? then y else old(root)
    {
      var px := arena.parent[x];
      var lt, rt, pt := arena.left, arena.right, arena.parent;
      pt := pt[y := px];
      if px.At? {
        if rt[px.h] == At(x) {
          rt := rt[px.h := At(y)];
        } else {
          lt := lt[px.h := At(y)];
        }
      } else {
        root := y;
      }
      var lx := lt[x];
      lt := lt[y := lx];
      if lx.At? {
        pt := pt[lx.h := At(y)];
      }
      var rx := rt[x];
      if At(y) != rx {
        rt := rt[y := rx];
        if rx.At? {
          pt := pt[rx.h := At(y)];
        }
      }
      arena := arena.(left := lt, right := rt, parent := pt);
    }

    /** VacateSuccessor then ReplaceNode: the pointer writes of make_node_leaf on a node with two children. */
    method PromoteNode(x: Handle, y: Handle)
      requires Has(Ptrs(arena), x) && Has(Ptrs(arena), y) && arena.parent[y].At? && arena.parent[y].h in arena.right
      requires arena.right[y] != At(x) && (arena.parent[x].At? ==> arena.parent[x].h in arena.right)
      modifies this`arena, this`root
      ensures var g := Promote(Ptrs(old(arena)), x, y);
              arena == old(arena).(left := g.left, right := g.right, parent := g.parent)
      ensures root == if old(arena).parent[x].Null? then y else old(root)
    {
      VacateSuccessor(x, y);
      ReplaceNode(x, y);
    }

    // ------------------------------------------------------------ remove: the cases of make_node_leaf
    /**
     * The end of the MultiTree's make_node_leaf: the removed node `x`'s
     * size is cleared and upwardUpdate recounts from `starting`, the
     * parent of the slot `f` at path `c`. A Tree of GenericNode does
     * neither.
     */
    method ClearAndRecount(x: Handle, starting: Ptr, ghost c: Ctx, ghost f: Shape)
      requires Wired(arena, Plug(c, f)) && x in arena.count
      requires ranked ==> Counted(arena.count[x := 0], f) && SibCounted(arena.count[x := 0], c)
      requires ranked ==> starting == if c == Top then Null else At(c.p)
      modifies this`arena
      ensures ranked ==> Counted(arena.count, Plug(c, f))
      ensures arena == old(arena).(count := arena.count) && arena.count.Keys == old(arena).count.Keys
      ensures !ranked ==> arena == old(arena)
    {
      if ranked {
        WiredRecount(arena, Plug(c, f), arena.count[x := 0]);
        arena := arena.(count := arena.count[x := 0]);
        UpwardUpdate(starting, c, f);
      }
    }


    /**
     * make_node_leaf on the leaf `x` below `cx.p`, followed in a MultiTree
     * by the cleared size of `x` and upwardUpdate from `cx.p`: the arena
     * holds the tree `s` without `x`, and rebalance_tree can start at the
     * node `fix` it returns, the slot `f` at path `c`.
     */
    method RemoveLeaf(x: Handle, ghost cx: Ctx) returns (fix: Ptr, ghost c: Ctx, ghost f: Shape, ghost ho: int, ghost s: Shape,
                                                        ghost p: seq<Handle>, ghost q: seq<Handle>)
      requires cx != Top
      requires var t0 := Plug(cx, Br(Nil, x, Nil));
               Sound(arena, ranked, t0) && Balanced(t0) && Cached(arena.height, arena.bf, t0) && root == t0.h
      modifies this`arena
      ensures Resumable(arena, ranked, s, fix, c, f, ho) && root == s.h
      ensures In(Plug(cx, Br(Nil, x, Nil))) == p + [x] + q && In(s) == p + q
      ensures Keys(arena, ranked) == Keys(old(arena), ranked) && arena.data == old(arena).data
    {
      ghost var A0, H, B := arena, arena.height, arena.bf;
      LeafWired(arena, ranked, cx, x);
      var toUpdate := arena.parent[x];
      if ranked {
        LeafCounts(arena.count, cx, x);
      }
      CutLeafNode(x);
      assert arena == Unlinked(A0, CutLeaf(Ptrs(A0), x));
      ClearAndRecount(x, toUpdate, cx, Nil);
      Recounted(Unlinked(A0, CutLeaf(Ptrs(A0), x)), ranked, Plug(cx, Nil), arena.count);
      LeafResumable(arena, ranked, H, B, cx, x);
      fix := toUpdate;
      c, f, ho, s := cx.up, Up(cx, Nil), Height(Up(cx, Br(Nil, x, Nil))), Plug(cx, Nil);
      p, q := Pre(cx), Suf(cx);
    }

    /**
     * make_node_leaf on the node `X.h` with the one child `Child(X)`,
     * followed in a MultiTree by its cleared size and upwardUpdate from
     * the child: the child takes its place, and make_node_leaf returns the
     * node's parent, or the child when it became the root.
     */
    method SpliceOut(x: Handle, ghost cx: Ctx, ghost X: Shape) returns (fix: Ptr)
      requires X.Br? && X.h == x && (X.l.Nil? || X.r.Nil?) && Child(X).Br?
      requires Has(Ptrs(arena), x) && x in arena.count && arena.parent[x] == (if cx == Top then Null else At(cx.p))
      requires arena.parent[x].At? ==> arena.parent[x].h in arena.left
      requires (if arena.left[x].At? then arena.left[x] else arena.right[x]) == At(Child(X).h)
      requires Wired(Unlinked(arena, Splice(Ptrs(arena), x)), Plug(cx, Child(X)))
      requires ranked ==> var K := Child(X);
                          Counted(arena.count[x := 0], K.l) && SibCounted(arena.count[x := 0], InL(cx, K.h, K.r))
      modifies this`arena, this`root
      ensures var g := Splice(Ptrs(old(arena)), x);
              arena == old(arena).(left := g.left, right := g.right, parent := g.parent, count := arena.count)
      ensures arena.count.Keys == old(arena).count.Keys
      ensures ranked ==> Counted(arena.count, Plug(cx, Child(X)))
      ensures !ranked ==> arena.count == old(arena).count
      ensures root == if cx == Top then Child(X).h else old(root)
      ensures fix == if cx == Top then At(Child(X).h) else At(cx.p)
    {
      ghost var A0, K := arena, Child(X);
      var px := arena.parent[x];
      var child := SpliceNode(x);
      assert arena == Unlinked(A0, Splice(Ptrs(A0), x));
      assert Plug(InL(cx, K.h, K.r), K.l) == Plug(cx, K);
      ClearAndRecount(x, At(child), InL(cx, K.h, K.r), K.l);
      fix := if px.At? then px else At(child);
    }

    /** SpliceOut, with where rebalance_tree starts its climb. */
    method RemoveOne(x: Handle, ghost cx: Ctx, ghost X: Shape) returns (fix: Ptr, ghost c: Ctx, ghost f: Shape, ghost ho: int,
                                                                        ghost s: Shape, ghost p: seq<Handle>, ghost q: seq<Handle>)
      requires X.Br? && X.h == x && (X.l.Nil? || X.r.Nil?) && Child(X).Br?
      requires Sound(arena, ranked, Plug(cx, X)) && Balanced(Plug(cx, X)) && Cached(arena.height, arena.bf, Plug(cx, X))
      requires root == Plug(cx, X).h
      modifies this`arena, this`root
      ensures Resumable(arena, ranked, s, fix, c, f, ho) && root == s.h
      ensures In(Plug(cx, X)) == p + [x] + q && In(s) == p + q
      ensures Keys(arena, ranked) == Keys(old(arena), ranked) && arena.data == old(arena).data
    {
      ghost var A0, H, B, K := arena, arena.height, arena.bf, Child(X);
      OneWired(arena, ranked, cx, X);
      if ranked {
        OneCounts(arena.count, cx, X);
      }
      fix := SpliceOut(x, cx, X);
      Recounted(Unlinked(A0, Splice(Ptrs(A0), x)), ranked, Plug(cx, K), arena.count);
      OneResumable(arena, ranked, H, B, cx, X);
      if cx != Top {
        c, f, ho := cx.up, Up(cx, K), Height(Up(cx, X));
      } else {
        c, f, ho := Top, K, Height(K);
      }
      s := Plug(cx, K);
      p, q := Pre(cx) + In(X.l), In(X.r) + Suf(cx);
    }

    /**
     * The successor search of make_node_leaf: from the right child `R.h`
     * of `x`, follow left pointers as far as they go.
     */
    method Successor(x: Handle, ghost R: Shape) returns (y: Handle, ghost cr: Ctx, ghost Yr: Shape)
      requires R.Br? && x in arena.right && arena.right[x] == At(R.h) && Linked(Ptrs(arena), R)
      ensures AllLeft(cr) && R == Plug(cr, Br(Nil, y, Yr))
    {
      y := arena.right[x].h;
      cr := Top;
      ghost var u := R;
      while arena.left[y].At?
        invariant u.Br? && u.h == y && Plug(cr, u) == R && AllLeft(cr) && Linked(Ptrs(arena), u)
        decreases u
      {
        cr, u := InL(cr, y, u.r), u.l;
        y := arena.left[y].h;
      }
      Yr := u.r;
    }

    /**
     * The pointer writes of make_node_leaf on `x` with two children and
     * successor `y`, followed in a MultiTree by the cleared size of `x`
     * and upwardUpdate from the node it returns: the successor's old
     * parent, or the successor itself when it was the right child of `x`.
     */
    method PromoteOut(x: Handle, y: Handle, ghost cx: Ctx, ghost L: Shape, ghost cr: Ctx, ghost Yr: Shape) returns (fix: Ptr)
      requires Has(Ptrs(arena), x) && Has(Ptrs(arena), y) && arena.parent[y].At? && arena.parent[y].h in arena.right
      requires arena.right[y] != At(x) && (arena.parent[x].At? ==> arena.parent[x].h in arena.right)
      requires (arena.right[x] == At(y) <==> cr == Top) && arena.parent[y] == At(if cr == Top then x else cr.p)
      requires x in arena.count && Wired(Unlinked(arena, Promote(Ptrs(arena), x, y)), Plug(cx, Br(L, y, Plug(cr, Yr))))
      requires ranked ==> Counted(arena.count[x := 0], Yr) && SibCounted(arena.count[x := 0], Append(cr, InR(L, y, cx)))
      modifies this`arena, this`root
      ensures var g := Promote(Ptrs(old(arena)), x, y);
              arena == old(arena).(left := g.left, right := g.right, parent := g.parent, count := arena.count)
      ensures arena.count.Keys == old(arena).count.Keys
      ensures ranked ==> Counted(arena.count, Plug(cx, Br(L, y, Plug(cr, Yr))))
      ensures !ranked ==> arena.count == old(arena).count
      ensures root == if old(arena).parent[x].Null? then y else old(root)
      ensures fix == At(if cr == Top then y else cr.p)
    {
      ghost var c1, t1 := Append(cr, InR(L, y, cx)), Plug(cx, Br(L, y, Plug(cr, Yr)));
      var parentToReturn;
      if arena.right[x] != At(y) {
        parentToReturn := arena.parent[y];
      } else {
        parentToReturn := At(y);
      }
      PromoteNode(x, y);
      assert Wired(arena, t1);
      AppendFrame(cr, InR(L, y, cx));
      PlugAppend(cr, InR(L, y, cx), Yr);
      ClearAndRecount(x, parentToReturn, c1, Yr);
      fix := parentToReturn;
    }

    /** PromoteOut after the successor search, with where rebalance_tree starts its climb. */
    method RemoveTwo(x: Handle, ghost cx: Ctx, ghost X: Shape) returns (fix: Ptr, ghost c: Ctx, ghost f: Shape, ghost ho: int,
                                                                        ghost s: Shape, ghost p: seq<Handle>, ghost q: seq<Handle>)
      requires X.Br? && X.h == x && X.l.Br? && X.r.Br?
      requires Sound(arena, ranked, Plug(cx, X)) && Balanced(Plug(cx, X)) && Cached(arena.height, arena.bf, Plug(cx, X))
      requires root == Plug(cx, X).h
      modifies this`arena, this`root
      ensures Resumable(arena, ranked, s, fix, c, f, ho) && root == s.h
      ensures In(Plug(cx, X)) == p + [x] + q && In(s) == p + q
      ensures Keys(arena, ranked) == Keys(old(arena), ranked) && arena.data == old(arena).data
    {
      ghost var A0, H, B, L := arena, arena.height, arena.bf, X.l;
      SubtreeLinked(Ptrs(arena), cx, X);
      var y, cr, Yr := Successor(x, X.r);
      TwoWired(arena, ranked, cx, L, x, cr, y, Yr);
      if ranked {
        TwoCounts(arena.count, cx, L, x, cr, y, Yr);
      }
      fix := PromoteOut(x, y, cx, L, cr, Yr);
      ghost var c1, t1 := Append(cr, InR(L, y, cx)), Plug(cx, Br(L, y, Plug(cr, Yr)));
      TwoRecounted(A0, arena, ranked, cx, L, x, cr, y, Yr, c1);
      c, f, ho, s := c1.up, Up(c1, Yr), 1 + Max(Height(Br(Nil, y, Yr)), Height(c1.sib)), t1;
      p, q := Pre(cx) + In(L), [y] + In(Plug(cr, Yr)) + Suf(cx);
    }

    /**
     * make_node_leaf on the node `x` at path `cx`, by its number of
     * children. A leaf that is also the root never gets here: remove
     * clears such a node in place.
     */
    method MakeNodeLeaf(x: Handle, ghost cx: Ctx, ghost X: Shape) returns (fix: Ptr, ghost c: Ctx, ghost f: Shape, ghost ho: int,
                                                                           ghost s: Shape, ghost p: seq<Handle>, ghost q: seq<Handle>)
      requires X.Br? && X.h == x && (cx == Top ==> X.l.Br? || X.r.Br?)
      requires Sound(arena, ranked, Plug(cx, X)) && Balanced(Plug(cx, X)) && Cached(arena.height, arena.bf, Plug(cx, X))
      requires root == Plug(cx, X).h
      modifies this`arena, this`root
      ensures Resumable(arena, ranked, s, fix, c, f, ho) && root == s.h
      ensures In(Plug(cx, X)) == p + [x] + q && In(s) == p + q
      ensures Keys(arena, ranked) == Keys(old(arena), ranked) && arena.data == old(arena).data
    {
      SubtreeLinked(Ptrs(arena), cx, X);
      if arena.left[x].Null? && arena.right[x].Null? {
        fix, c, f, ho, s, p, q := RemoveLeaf(x, cx);
      } else if arena.left[x].Null? || arena.right[x].Null? {
        fix, c, f, ho, s, p, q := RemoveOne(x, cx, X);
      } else {
        fix, c, f, ho, s, p, q := RemoveTwo(x, cx, X);
      }
    }

    /**
     * The first branch of remove: the root is a leaf and the only node,
     * and it is cleared in place (no payload, height -1, balance factor 0,
     * id 0 and, in a MultiTree, ability 0 and size 0), leaving the empty
     * tree.
     */
    method ResetRoot()
      requires Valid() && shape == Br(Nil, root, Nil)
      modifies this`arena
      ensures Valid() && Entries() == [] && root == old(root)
      ensures old(Entries()) == [] || old(Entries()) == [(old(Keys(arena, ranked))[root], old(arena).data[root])]
    {
      assert In(shape) == [root];
      arena := arena.(data := arena.data[root := None], height := arena.height[root := -1], bf := arena.bf[root := 0],
                      id := arena.id[root := 0],
                      ability := if ranked then arena.ability[root := 0] else arena.ability,
                      count := if ranked then arena.count[root := 0] else arena.count);
      assert Ptrs(arena) == Ptrs(old(arena));
    }

    /**
     * make_node_leaf on the node `x` at path `cx`, then rebalance_tree from
     * the node it returns: the arena holds an AVL tree again, whose
     * in-order sequence is the old one without `x`, with the same keys
     * and payloads.
     */
    method Shrink(x: Handle, ghost cx: Ctx, ghost X: Shape) returns (ghost p: seq<Handle>, ghost q: seq<Handle>)
      requires X.Br? && X.h == x && (cx == Top ==> X.l.Br? || X.r.Br?)
      requires Sound(arena, ranked, Plug(cx, X)) && Balanced(Plug(cx, X)) && Cached(arena.height, arena.bf, Plug(cx, X))
      requires root == Plug(cx, X).h
      modifies this`arena, this`root, this`shape
      ensures Sound(arena, ranked, shape) && Balanced(shape) && Cached(arena.height, arena.bf, shape) && root == shape.h
      ensures In(Plug(cx, X)) == p + [x] + q && In(shape) == p + q
      ensures Keys(arena, ranked) == old(Keys(arena, ranked)) && arena.data == old(arena).data
    {
      var fix; ghost var c, f, ho, s;
      fix, c, f, ho, s, p, q := MakeNodeLeaf(x, cx, X);
      ghost var A1 := arena;
      ghost var t := RebalanceTree(fix, c, f, ho, s);
      shape := t;
      assert Keys(arena, ranked) == Keys(A1, ranked);
    }

    /**
     * The rest of remove once the search found `x` in a tree with more
     * than one node. The node itself is deleted, which the arena models
     * by leaving it unreachable.
     */
    method RemoveNode(x: Handle) returns (ghost i: int)
      requires Valid() && arena.height[root] != -1 && x in Handles(shape) && shape != Br(Nil, x, Nil)
      modifies this`arena, this`root, this`shape
      ensures Valid()
      ensures 0 <= i < |old(Entries())| && old(Entries())[i].0.1 == old(arena).id[x]
      ensures Entries() == old(Entries())[..i] + old(Entries())[i + 1..]
    {
      ghost var cx, X := Locate(shape, x).0, Locate(shape, x).1;
      ghost var ks, ds := Keys(arena, ranked), arena.data;
      InHandles(shape);
      ghost var p, q := Shrink(x, cx, X);
      EntriesDrop(ks, ds, p, x, q);
      i := |p|;
      assert (p + [x] + q)[i] == x;
      Focus(arena, Top, shape);
      HeightBounds(shape);
    }

    /**
     * remove: throws NodeNotFound when the search does not reach a node
     * with `id`. Otherwise exactly one entry carrying `id` leaves the
     * tree. A Tree of GenericNode searches by id alone; a MultiTree
     * searches by (ability, id) and takes the first node with the id on
     * its way, and in both the root is cleared in place when it is the
     * only node and carries the id.
     */
    method Remove(id: int, ability: int) returns (thrown: Option<Failure>)
      requires Valid()
      modifies this`arena, this`root, this`shape
      ensures Valid()
      ensures thrown.Some? ==> thrown == Some(NodeNotFound) && arena == old(arena) && root == old(root) && shape == old(shape)
      ensures thrown.None? && old(Entries()) != [] ==>
                exists i | 0 <= i < |old(Entries())| :: old(Entries())[i].0.1 == id
                                                       && Entries() == old(Entries())[..i] + old(Entries())[i + 1..]
      ensures old(Entries()) == [] ==> Entries() == [] && (thrown.None? <==> id == 0)
      ensures !ranked && old(Entries()) != [] ==> (thrown.None? <==> old(HasId(id)))
      ensures ranked && (exists i | 0 <= i < |old(Entries())| :: old(Entries())[i].0 == (ability, id)) ==> thrown.None?
      ensures Entries() == [] ==> root == old(root)
    {
      if arena.id[root] == id && arena.right[root].Null? && arena.left[root].Null? && arena.parent[root].Null? {
        assert shape == Br(Nil, root, Nil);
        ghost var k := Keys(arena, ranked);
        assert root in k ==> k[root].1 == id;
        ResetRoot();
        assert old(Entries()) != [] ==> old(Entries())[0].0.1 == id;
        return None;
      }
      var r := if ranked then MultiSearchSpecificId(id, ability) else SearchSpecificId(id);
      if r.Fail? {
        return Some(NodeNotFound);
      }
      NotSingle(shape, r.value);
      ghost var i := RemoveNode(r.value);
      thrown := None;
    }

    // ------------------------------------------------------------ search

    /** Some entry of the tree carries `id`. */
    ghost predicate HasId(id: int)
      reads this
      requires Valid()
    {
      exists i | 0 <= i < |Entries()| :: Entries()[i].0.1 == id
    }

    /** Every node of a non-empty tree is one of its entries, at its in-order position. */
    lemma {:induction false} EntryAt(h: Handle)
      requires Valid() && arena.height[root] != -1 && h in Handles(shape)
      ensures h in Keys(arena, ranked) && h in arena.data
      ensures exists i | 0 <= i < |Entries()| :: Entries()[i] == (Keys(arena, ranked)[h], arena.data[h])
    {
      InHandles(shape);
      var s := In(shape);
      var i :| 0 <= i < |s| && s[i] == h;
      assert Entries()[i] == (Keys(arena, ranked)[h], arena.data[h]);
    }

    /** An entry of a non-empty tree carries `id` exactly when one of its nodes does. */
    lemma {:induction false} HasIdHandles(id: int)
      requires Valid() && arena.height[root] != -1
      ensures HasId(id) <==> exists h :: h in Handles(shape) && arena.id[h] == id
    {
      InHandles(shape);
      if HasId(id) {
        var i :| 0 <= i < |Entries()| && Entries()[i].0.1 == id;
        assert In(shape)[i] in Handles(shape);
      }
      if exists h :: h in Handles(shape) && arena.id[h] == id {
        var h :| h in Handles(shape) && arena.id[h] == id;
        EntryAt(h);
      }
    }

    /** What the search from the root finds, by id alone, in either kind of tree. */
    lemma {:induction false} SearchSpec(id: int)
      requires Valid() && !ranked
      ensures Walkable(arena, shape)
      ensures var r := SearchRecursively(arena, id, At(root), shape);
              (Entries() != [] ==> (r.Ok? <==> HasId(id)))
              && (Entries() == [] ==> (r.Ok? <==> id == 0) && (r.Ok? ==> r.value == root))
    {
      WiredWalkable(arena, shape);
      if arena.height[root] != -1 {
        SortedBst(Keys(arena, false), shape);
        SearchFinds(arena, id, shape);
        HasIdHandles(id);
      }
    }

    /**
     * Tree::search_specific_id (search_recursively from the root): the
     * node with `id`, or NodeNotFound. In an empty tree the placeholder,
     * whose id is 0, is what a search for 0 finds.
     */
    function SearchSpecificId(id: int): (r: Result<Handle>)
      reads this
      requires Valid() && !ranked
      ensures r.Ok? ==> r.value in Handles(shape) && r.value in arena.id && arena.id[r.value] == id
      ensures r.Fail? ==> r.error == NodeNotFound
      ensures Entries() != [] ==> (r.Ok? <==> HasId(id))
      ensures Entries() == [] ==> (r.Ok? <==> id == 0) && (r.Ok? ==> r.value == root)
    {
      SearchSpec(id);
      SearchRecursively(arena, id, At(root), shape)
    }

    /** Tree::search_and_return_data: the payload stored with `id`, or NodeNotFound. */
    function SearchAndReturnData(id: int): (r: Result<Option<T>>)
      reads this
      requires Valid() && !ranked
      ensures r.Fail? ==> r.error == NodeNotFound
      ensures Entries() != [] ==> (r.Ok? <==> HasId(id))
      ensures Entries() != [] && r.Ok? ==> exists i | 0 <= i < |Entries()| :: Entries()[i] == ((0, id), r.value)
      ensures Entries() == [] ==> r == if id == 0 then Ok(None) else Fail(NodeNotFound)
    {
      match SearchSpecificId(id)
      case Ok(h) => DataAt(h); Ok(arena.data[h])
      case Fail(e) => Fail(e)
    }

    /** A node of the tree holds its payload at its entry; the placeholder holds none. */
    lemma {:induction false} DataAt(h: Handle)
      requires Valid() && h in Handles(shape)
      ensures h in arena.data && h in Keys(arena, ranked)
      ensures Entries() != [] ==> exists i | 0 <= i < |Entries()| :: Entries()[i] == (Keys(arena, ranked)[h], arena.data[h])
      ensures Entries() == [] ==> h == root && arena.data[h] == None
    {
      if arena.height[root] != -1 {
        EntryAt(h);
      }
    }

    /** What the MultiTree's search from the root finds. */
    lemma {:induction false} MultiSearchSpec(id: int, ability: int)
      requires Valid() && ranked
      ensures Walkable(arena, shape)
      ensures var r := MultiSearch(arena, id, ability, At(root), shape);
              (Entries() != [] ==> (r.Ok? ==> HasId(id))
                                   && ((exists i | 0 <= i < |Entries()| :: Entries()[i].0 == (ability, id)) ==> r.Ok?))
              && (Entries() == [] ==> (r.Ok? <==> id == 0) && (r.Ok? ==> r.value == root))
    {
      WiredWalkable(arena, shape);
      if arena.height[root] != -1 {
        HasIdHandles(id);
        if exists i | 0 <= i < |Entries()| :: Entries()[i].0 == (ability, id) {
          var i :| 0 <= i < |Entries()| && Entries()[i].0 == (ability, id);
          InHandles(shape);
          var h := In(shape)[i];
          assert arena.ability[h] == ability && arena.id[h] == id;
          SortedBst(Keys(arena, true), shape);
          MultiSearchFinds(arena, id, ability, shape);
        }
      }
    }

    /**
     * MultiTree::search_specific_id: the first node with `id` on the
     * descent by (ability, id), or NodeNotFound. A node with both the
     * ability and the id is always found; a node the search returns
     * carries the id, though not necessarily the ability.
     */
    function MultiSearchSpecificId(id: int, ability: int): (r: Result<Handle>)
      reads this
      requires Valid() && ranked
      ensures r.Ok? ==> r.value in Handles(shape) && r.value in arena.id && arena.id[r.value] == id
      ensures r.Fail? ==> r.error == NodeNotFound
      ensures Entries() != [] ==> (r.Ok? ==> HasId(id))
      ensures (exists i | 0 <= i < |Entries()| :: Entries()[i].0 == (ability, id)) ==> r.Ok?
      ensures Entries() == [] ==> (r.Ok? <==> id == 0) && (r.Ok? ==> r.value == root)
    {
      MultiSearchSpec(id, ability);
      MultiSearch(arena, id, ability, At(root), shape)
    }

    /** MultiTree::search_and_return_data: the payload of the node the search finds. */
    function MultiSearchAndReturnData(id: int, ability: int): (r: Result<Option<T>>)
      reads this
      requires Valid() && ranked
      ensures r.Fail? ==> r.error == NodeNotFound
      ensures Entries() != [] && r.Ok? ==> exists i | 0 <= i < |Entries()| :: Entries()[i].0.1 == id && Entries()[i].1 == r.value
      ensures (exists i | 0 <= i < |Entries()| :: Entries()[i].0 == (ability, id)) ==> r.Ok?
      ensures Entries() == [] ==> r == if id == 0 then Ok(None) else Fail(NodeNotFound)
    {
      match MultiSearchSpecificId(id, ability)
      case Ok(h) => DataAt(h); Ok(arena.data[h])
      case Fail(e) => Fail(e)
    }

    // ------------------------------------------------------------ rank and contents

    /**
     * MultiTree::find_index from the root: the node at in-order position
     * `index`, or the last one for an index past the end. In an empty
     * tree the walk stops at once on the placeholder.
     */
    function FindIndexAt(index: int): (r: Handle)
      reads this
      requires Valid() && ranked && index >= 0
      ensures r in arena.data && r in Keys(arena, ranked)
      ensures index < |Entries()| ==> Entries()[index] == (Keys(arena, ranked)[r], arena.data[r])
      ensures Entries() != [] && index >= |Entries()| ==> Entries()[|Entries()| - 1] == (Keys(arena, ranked)[r], arena.data[r])
      ensures Entries() == [] ==> r == root
    {
      if arena.height[root] == -1 then root
      else
        FindIndexEntry(index);
        FindIndex(arena, At(root), index, shape)
    }

    /** In a non-empty MultiTree, find_index lands on the entry at `index`, or on the last one past the end. */
    lemma FindIndexEntry(index: int)
      requires Valid() && ranked && index >= 0 && arena.height[root] != -1
      ensures Walkable(arena, shape) && Counted(arena.count, shape) && shape.Br? && At(root) == PtrOf(shape)
      ensures var r := FindIndex(arena, At(root), index, shape);
              r in arena.data && r in Keys(arena, ranked) && Entries() != []
              && (index < |Entries()| ==> Entries()[index] == (Keys(arena, ranked)[r], arena.data[r]))
              && (index >= |Entries()| ==> Entries()[|Entries()| - 1] == (Keys(arena, ranked)[r], arena.data[r]))
    {
      WiredWalkable(arena, shape);
      FindIndexRank(arena, index, shape);
      InHandles(shape);
    }

    /**
     * get_all_data: the payloads of the tree in key order, written from
     * the start of `arr`; the placeholder's empty payload when the tree
     * is empty. The rest of the array is left alone.
     */
    method GetAllData(arr: array<Option<T>>)
      requires Valid() && Size(shape) <= arr.Length
      modifies arr
      ensures |Entries()| <= Size(shape)
      ensures forall i | 0 <= i < |Entries()| :: arr[i] == Entries()[i].1
      ensures Entries() == [] ==> arr[0] == None
      ensures forall i | Size(shape) <= i < arr.Length :: arr[i] == old(arr[i])
    {
      ghost var a0 := arr[..];
      WiredWalkable(arena, shape);
      EntriesData();
      var n := DataInorder(arena, At(root), shape, arr, 0);
      Overwritten(a0, DataIn(arena, shape), arr[..]);
    }

    /** The payloads get_data_inorder writes are those of the entries, and the placeholder's None when there are none. */
    lemma EntriesData()
      requires Valid() && Walkable(arena, shape)
      ensures Size(shape) >= 1 && |Entries()| <= Size(shape)
      ensures forall i | 0 <= i < |Entries()| :: Entries()[i].1 == DataIn(arena, shape)[i]
      ensures Entries() == [] ==> DataIn(arena, shape)[0] == None
    {
      DataInOrder(arena, shape);
      InHandles(shape);
    }
  }
}
