/**
 * The state of one AVL tree as a value: the arena of its nodes, one map
 * per node field, and the predicates that say the arena holds a sound
 * tree of a given shape. The rotations are proved here on values; the
 * class in AvlTree performs the same writes and appeals to these lemmas.
 */
module AvlState {
  import opened Common
  import opened AvlShape
  import opened AvlArena
  import opened AvlRelink

  /**
   * Every node of a tree, field by field. `count` is m_numChildren and
   * `ability` m_ability, which only a ComplexNode has; `next` is the next
   * handle that allocating a node hands out.
   */
  datatype Arena<T> = Arena(
    data: map<Handle, Option<T>>,
    id: map<Handle, int>,
    ability: map<Handle, int>,
    height: map<Handle, int>,
    bf: map<Handle, int>,
    count: map<Handle, int>,
    left: map<Handle, Ptr>,
    right: map<Handle, Ptr>,
    parent: map<Handle, Ptr>,
    next: Handle)

  function Ptrs<T>(A: Arena<T>): Links
  {
    Links(A.left, A.right, A.parent)
  }

  /** The handle is an allocated node: every field map holds it. */
  predicate Live<T>(A: Arena<T>, h: Handle)
  {
    h in A.data && h in A.id && h in A.ability && h in A.height && h in A.bf && h in A.count
    && h in A.left && h in A.right && h in A.parent && h < A.next
  }

  /** Every handle of `s` is an allocated node. */
  ghost predicate Owns<T>(A: Arena<T>, s: set<Handle>)
  {
    s <= A.data.Keys && s <= A.id.Keys && s <= A.ability.Keys && s <= A.height.Keys && s <= A.bf.Keys
    && s <= A.count.Keys && s <= A.left.Keys && s <= A.right.Keys && s <= A.parent.Keys
    && forall h | h in s :: h < A.next
  }

  /**
   * The key a tree is ordered by: (ability, id) in a MultiTree, and
   * (0, id) in a tree of GenericNode, which compares ids only.
   */
  function KeyOf(ranked: bool, ids: map<Handle, int>, abilities: map<Handle, int>, h: Handle): Key
    requires h in ids && h in abilities
  {
    (if ranked then abilities[h] else 0, ids[h])
  }

  ghost function KeyMap(ranked: bool, ids: map<Handle, int>, abilities: map<Handle, int>): map<Handle, Key>
  {
    map h | h in ids && h in abilities :: KeyOf(ranked, ids, abilities, h)
  }

  ghost function Keys<T>(A: Arena<T>, ranked: bool): map<Handle, Key>
  {
    KeyMap(ranked, A.id, A.ability)
  }

  /** The pointers describe `t`, whose nodes are allocated and distinct, and its root has no parent. */
  ghost predicate Wired<T>(A: Arena<T>, t: Shape)
  {
    t.Br? && Distinct(t) && Linked(Ptrs(A), t) && Rooted(Ptrs(A), t) && Owns(A, Handles(t))
  }

  /** The in-order sequence of the nodes has strictly increasing keys. */
  ghost predicate Ordered<T>(A: Arena<T>, ranked: bool, t: Shape)
  {
    SortedBy(Keys(A, ranked), In(t))
  }

  /** What every operation keeps: the wiring, the key order and, in a MultiTree, the subtree sizes. */
  ghost predicate Sound<T>(A: Arena<T>, ranked: bool, t: Shape)
  {
    Wired(A, t) && Ordered(A, ranked, t) && (ranked ==> Counted(A.count, t))
  }

  /** The arena after the pointer writes of ll_rotation on `a`. */
  ghost function LLArena<T>(A: Arena<T>, a: Handle): Arena<T>
    requires a in A.left && a in A.parent && A.left[a].At? && A.left[a].h in A.right
    requires A.parent[a].At? ==> A.parent[a].h in A.left
  {
    var g := LLLinks(Ptrs(A), a);
    A.(left := g.left, right := g.right, parent := g.parent)
  }

  /** The arena after the pointer writes of rr_rotation on `a`. */
  ghost function RRArena<T>(A: Arena<T>, a: Handle): Arena<T>
    requires a in A.right && a in A.parent && A.right[a].At? && A.right[a].h in A.left
    requires A.parent[a].At? ==> A.parent[a].h in A.right
  {
    var g := RRLinks(Ptrs(A), a);
    A.(left := g.left, right := g.right, parent := g.parent)
  }

  /** Heights and balance factors play no part in soundness: rewriting them keeps a sound tree sound. */
  lemma {:induction false} SoundHeights<T>(A: Arena<T>, ranked: bool, t: Shape, hs: map<Handle, int>, bs: map<Handle, int>)
    requires Sound(A, ranked, t) && hs.Keys == A.height.Keys && bs.Keys == A.bf.Keys
    ensures Sound(A.(height := hs, bf := bs), ranked, t)
  {
    var A1 := A.(height := hs, bf := bs);
    assert Ptrs(A1) == Ptrs(A);
    assert Keys(A1, ranked) == Keys(A, ranked);
  }

  /** What ll_rotation reads at the node of `f` is there: the node, its left child and the parent link. */
  lemma {:induction false} LLReady<T>(A: Arena<T>, c: Ctx, f: Shape)
    requires Wired(A, Plug(c, f)) && f.Br? && f.l.Br?
    ensures f.h in A.left && f.h in A.parent && A.left[f.h] == At(f.l.h) && f.l.h in A.right
    ensures A.parent[f.h].At? ==> A.parent[f.h].h in A.left
    ensures A.parent[f.h].Null? <==> c == Top
    ensures Live(A, f.h) && Live(A, f.l.h)
  {
    LLRotated(Ptrs(A), c, f);
  }

  /** What rr_rotation reads at the node of `f` is there: the node, its right child and the parent link. */
  lemma {:induction false} RRReady<T>(A: Arena<T>, c: Ctx, f: Shape)
    requires Wired(A, Plug(c, f)) && f.Br? && f.r.Br?
    ensures f.h in A.right && f.h in A.parent && A.right[f.h] == At(f.r.h) && f.r.h in A.left
    ensures A.parent[f.h].At? ==> A.parent[f.h].h in A.right
    ensures A.parent[f.h].Null? <==> c == Top
    ensures Live(A, f.h) && Live(A, f.r.h)
  {
    RRRotated(Ptrs(A), c, f);
  }

  /**
   * ll_rotation's pointer writes at the node of `f`, at path `c`, leave an
   * arena wired as `Plug(c, LL(f))`: the same nodes, the left child in the
   * node's place.
   */
  lemma {:induction false} LLWired<T>(A: Arena<T>, c: Ctx, f: Shape)
    requires Wired(A, Plug(c, f)) && f.Br? && f.l.Br?
    requires f.h in A.left && f.h in A.parent && A.left[f.h] == At(f.l.h) && f.l.h in A.right
    requires A.parent[f.h].At? ==> A.parent[f.h].h in A.left
    ensures var A1, t1 := LLArena(A, f.h), Plug(c, LL(f));
            Wired(A1, t1) && In(t1) == In(Plug(c, f)) && Handles(t1) == Handles(Plug(c, f))
            && t1.h == (if c == Top then f.l.h else Plug(c, f).h)
  {
    LLRotated(Ptrs(A), c, f);
  }

  /** After ll_rotation the two moved nodes point as `LL(f)` says. */
  lemma {:induction false} LLMoved<T>(A: Arena<T>, c: Ctx, f: Shape)
    requires Wired(A, Plug(c, f)) && f.Br? && f.l.Br?
    requires f.h in A.left && f.h in A.parent && A.left[f.h] == At(f.l.h) && f.l.h in A.right
    requires A.parent[f.h].At? ==> A.parent[f.h].h in A.left
    ensures var A1 := LLArena(A, f.h);
            f.h in A1.left && f.h in A1.right && f.l.h in A1.left && f.l.h in A1.right
            && A1.left[f.l.h] == PtrOf(f.l.l) && A1.right[f.l.h] == At(f.h)
            && A1.left[f.h] == PtrOf(f.l.r) && A1.right[f.h] == PtrOf(f.r)
  {
    LLRotated(Ptrs(A), c, f);
    assert Moved(Ptrs(LLArena(A, f.h)), LL(f));
    assert LL(f) == Br(f.l.l, f.l.h, Br(f.l.r, f.h, f.r));
  }

  /**
   * rr_rotation's pointer writes at the node of `f`, at path `c`, leave an
   * arena wired as `Plug(c, RR(f))`: the same nodes, the right child in
   * the node's place.
   */
  lemma {:induction false} RRWired<T>(A: Arena<T>, c: Ctx, f: Shape)
    requires Wired(A, Plug(c, f)) && f.Br? && f.r.Br?
    requires f.h in A.right && f.h in A.parent && A.right[f.h] == At(f.r.h) && f.r.h in A.left
    requires A.parent[f.h].At? ==> A.parent[f.h].h in A.right
    ensures var A1, t1 := RRArena(A, f.h), Plug(c, RR(f));
            Wired(A1, t1) && In(t1) == In(Plug(c, f)) && Handles(t1) == Handles(Plug(c, f))
            && t1.h == (if c == Top then f.r.h else Plug(c, f).h)
  {
    RRRotated(Ptrs(A), c, f);
  }

  /** After rr_rotation the two moved nodes point as `RR(f)` says. */
  lemma {:induction false} RRMoved<T>(A: Arena<T>, c: Ctx, f: Shape)
    requires Wired(A, Plug(c, f)) && f.Br? && f.r.Br?
    requires f.h in A.right && f.h in A.parent && A.right[f.h] == At(f.r.h) && f.r.h in A.left
    requires A.parent[f.h].At? ==> A.parent[f.h].h in A.right
    ensures var A1 := RRArena(A, f.h);
            f.h in A1.left && f.h in A1.right && f.r.h in A1.left && f.r.h in A1.right
            && A1.left[f.r.h] == At(f.h) && A1.right[f.r.h] == PtrOf(f.r.r)
            && A1.left[f.h] == PtrOf(f.l) && A1.right[f.h] == PtrOf(f.r.l)
  {
    RRRotated(Ptrs(A), c, f);
    assert Moved(Ptrs(RRArena(A, f.h)), RR(f));
    assert RR(f) == Br(Br(f.l, f.h, f.r.l), f.r.h, f.r.r);
  }

  /**
   * What the arena holds around the subtree `f` at path `c` of a wired
   * tree: the pointers of its top three nodes, the link to its parent,
   * and that its nodes are allocated and appear nowhere else.
   */
  lemma {:induction false} Focus<T>(A: Arena<T>, c: Ctx, f: Shape)
    requires Wired(A, Plug(c, f)) && f.Br?
    ensures Moved(Ptrs(A), f) && Live(A, f.h) && f.h in A.parent
    ensures f.l.Br? ==> Live(A, f.l.h) && A.parent[f.l.h] == At(f.h)
    ensures f.r.Br? ==> Live(A, f.r.h) && A.parent[f.r.h] == At(f.h)
    ensures A.parent[f.h] == if c == Top then Null else At(c.p)
    ensures Distinct(f) && Handles(f) !! CtxHandles(c) && Handles(f) <= Handles(Plug(c, f))
  {
    LinkedPlug(Ptrs(A), c, f);
    PlugDistinct(c, f);
    PlugHandles(c, f);
    SubtreeRoots(f);
    if f.l.Br? {
      SubtreeRoots(f.l);
    }
    if f.r.Br? {
      SubtreeRoots(f.r);
    }
  }

  /**
   * What ll_rotation at the node of `f` reads is there, and afterwards the
   * two nodes it moves point as `LL(f)` says; in a MultiTree their subtree
   * sizes can be recounted.
   */
  ghost predicate LLFits<T>(A: Arena<T>, ranked: bool, f: Shape)
  {
    f.Br? && f.l.Br?
    && f.h in A.left && f.h in A.parent && A.left[f.h] == At(f.l.h) && f.l.h in A.right
    && (A.parent[f.h].At? ==> A.parent[f.h].h in A.left)
    && (ranked ==> LLSized(A.count, f))
    && var A1 := LLArena(A, f.h);
       f.h in A1.left && f.h in A1.right && f.l.h in A1.left && f.l.h in A1.right
       && A1.left[f.l.h] == PtrOf(f.l.l) && A1.right[f.l.h] == At(f.h)
       && A1.left[f.h] == PtrOf(f.l.r) && A1.right[f.h] == PtrOf(f.r)
  }

  /** The mirror image of LLFits for rr_rotation. */
  ghost predicate RRFits<T>(A: Arena<T>, ranked: bool, f: Shape)
  {
    f.Br? && f.r.Br?
    && f.h in A.right && f.h in A.parent && A.right[f.h] == At(f.r.h) && f.r.h in A.left
    && (A.parent[f.h].At? ==> A.parent[f.h].h in A.right)
    && (ranked ==> RRSized(A.count, f))
    && var A1 := RRArena(A, f.h);
       f.h in A1.left && f.h in A1.right && f.r.h in A1.left && f.r.h in A1.right
       && A1.left[f.r.h] == At(f.h) && A1.right[f.r.h] == PtrOf(f.r.r)
       && A1.left[f.h] == PtrOf(f.l) && A1.right[f.h] == PtrOf(f.r.l)
  }

  /** The arena after ll_rotation at the node of `f`: its pointer writes and, in a MultiTree, its two recounts. */
  ghost function LLAfter<T>(A: Arena<T>, ranked: bool, f: Shape): Arena<T>
    requires LLFits(A, ranked, f)
  {
    var A1 := LLArena(A, f.h);
    if ranked then A1.(count := LLCounts(A.count, f)) else A1
  }

  /** The arena after rr_rotation at the node of `f`. */
  ghost function RRAfter<T>(A: Arena<T>, ranked: bool, f: Shape): Arena<T>
    requires RRFits(A, ranked, f)
  {
    var A1 := RRArena(A, f.h);
    if ranked then A1.(count := RRCounts(A.count, f)) else A1
  }

  /**
   * ll_rotation keeps a sound tree sound: afterwards the arena holds
   * `Plug(c, LL(f))`, with the same nodes in the same key order and, in a
   * MultiTree, every subtree size right; the root changes exactly when the
   * node had no parent.
   */
  lemma {:induction false} LLAfterSound<T>(A: Arena<T>, ranked: bool, c: Ctx, f: Shape)
    requires Sound(A, ranked, Plug(c, f)) && f.Br? && f.l.Br?
    ensures LLFits(A, ranked, f) && (A.parent[f.h].Null? <==> c == Top)
    ensures Sound(LLAfter(A, ranked, f), ranked, Plug(c, LL(f)))
    ensures In(Plug(c, LL(f))) == In(Plug(c, f)) && Handles(Plug(c, LL(f))) == Handles(Plug(c, f))
    ensures Plug(c, LL(f)).h == if c == Top then f.l.h else Plug(c, f).h
  {
    LLReady(A, c, f);
    LLWired(A, c, f);
    LLMoved(A, c, f);
    var A1 := LLArena(A, f.h);
    assert Keys(A1, ranked) == Keys(A, ranked);
    if ranked {
      LLRecount(A.count, c, f);
      var A2 := A1.(count := LLCounts(A.count, f));
      assert Keys(A2, ranked) == Keys(A, ranked);
      assert Ptrs(A2) == Ptrs(A1);
    }
  }

  /** rr_rotation keeps a sound tree sound; the mirror image of LLAfterSound. */
  lemma {:induction false} RRAfterSound<T>(A: Arena<T>, ranked: bool, c: Ctx, f: Shape)
    requires Sound(A, ranked, Plug(c, f)) && f.Br? && f.r.Br?
    ensures RRFits(A, ranked, f) && (A.parent[f.h].Null? <==> c == Top)
    ensures Sound(RRAfter(A, ranked, f), ranked, Plug(c, RR(f)))
    ensures In(Plug(c, RR(f))) == In(Plug(c, f)) && Handles(Plug(c, RR(f))) == Handles(Plug(c, f))
    ensures Plug(c, RR(f)).h == if c == Top then f.r.h else Plug(c, f).h
  {
    RRReady(A, c, f);
    RRWired(A, c, f);
    RRMoved(A, c, f);
    var A1 := RRArena(A, f.h);
    assert Keys(A1, ranked) == Keys(A, ranked);
    if ranked {
      RRRecount(A.count, c, f);
      var A2 := A1.(count := RRCounts(A.count, f));
      assert Keys(A2, ranked) == Keys(A, ranked);
      assert Ptrs(A2) == Ptrs(A1);
    }
  }

  /** lr_rotation: rr_rotation fits at the left child, then ll_rotation at the node; the node keeps its parent in between. */
  ghost predicate LRFits<T>(A: Arena<T>, ranked: bool, f: Shape)
  {
    f.Br? && f.l.Br? && RRFits(A, ranked, f.l) && f.h in A.parent && f.h in A.left && A.left[f.h] == At(f.l.h)
    && A.parent[f.l.h] == At(f.h)
    && var A1 := RRAfter(A, ranked, f.l);
       LLFits(A1, ranked, Br(RR(f.l), f.h, f.r)) && A1.parent[f.h] == A.parent[f.h]
  }

  /** rl_rotation: the mirror image of LRFits. */
  ghost predicate RLFits<T>(A: Arena<T>, ranked: bool, f: Shape)
  {
    f.Br? && f.r.Br? && LLFits(A, ranked, f.r) && f.h in A.parent && f.h in A.right && A.right[f.h] == At(f.r.h)
    && A.parent[f.r.h] == At(f.h)
    && var A1 := LLAfter(A, ranked, f.r);
       RRFits(A1, ranked, Br(f.l, f.h, LL(f.r))) && A1.parent[f.h] == A.parent[f.h]
  }

  /** The arena after lr_rotation at the node of `f`. */
  ghost function LRAfter<T>(A: Arena<T>, ranked: bool, f: Shape): Arena<T>
    requires LRFits(A, ranked, f)
  {
    LLAfter(RRAfter(A, ranked, f.l), ranked, Br(RR(f.l), f.h, f.r))
  }

  /** The arena after rl_rotation at the node of `f`. */
  ghost function RLAfter<T>(A: Arena<T>, ranked: bool, f: Shape): Arena<T>
    requires RLFits(A, ranked, f)
  {
    RRAfter(LLAfter(A, ranked, f.r), ranked, Br(f.l, f.h, LL(f.r)))
  }

  /** rr_rotation at the left child of `f` leaves the link from the node of `f` to its parent alone. */
  lemma {:induction false} LRParent<T>(A: Arena<T>, ranked: bool, c: Ctx, f: Shape)
    requires Sound(A, ranked, Plug(c, f)) && f.Br? && f.l.Br? && f.l.r.Br?
    ensures f.h in A.left && A.left[f.h] == At(f.l.h) && f.l.h in A.parent && A.parent[f.l.h] == At(f.h)
    ensures RRFits(A, ranked, f.l) && f.h in A.parent && RRAfter(A, ranked, f.l).parent[f.h] == A.parent[f.h]
  {
    var c1 := InL(c, f.h, f.r);
    assert Plug(c1, f.l) == Plug(c, f);
    RRAfterSound(A, ranked, c1, f.l);
    Focus(A, c, f);
    Focus(A, c1, f.l);
    assert f.h !in Handles(f.l) && f.l.r.h in Handles(f.l) && Handles(f.l.r.l) <= Handles(f.l);
    RRParentFrame(Ptrs(A), f.l.h, f.h);
  }

  /** ll_rotation at the right child of `f` leaves the link from the node of `f` to its parent alone. */
  lemma {:induction false} RLParent<T>(A: Arena<T>, ranked: bool, c: Ctx, f: Shape)
    requires Sound(A, ranked, Plug(c, f)) && f.Br? && f.r.Br? && f.r.l.Br?
    ensures f.h in A.right && A.right[f.h] == At(f.r.h) && f.r.h in A.parent && A.parent[f.r.h] == At(f.h)
    ensures LLFits(A, ranked, f.r) && f.h in A.parent && LLAfter(A, ranked, f.r).parent[f.h] == A.parent[f.h]
  {
    var c1 := InR(f.l, f.h, c);
    assert Plug(c1, f.r) == Plug(c, f);
    LLAfterSound(A, ranked, c1, f.r);
    Focus(A, c, f);
    Focus(A, c1, f.r);
    assert f.h !in Handles(f.r) && f.r.l.h in Handles(f.r) && Handles(f.r.l.r) <= Handles(f.r);
    LLParentFrame(Ptrs(A), f.r.h, f.h);
  }

  /** lr_rotation keeps a sound tree sound, as its two single rotations do. */
  lemma {:induction false} LRAfterSound<T>(A: Arena<T>, ranked: bool, c: Ctx, f: Shape)
    requires Sound(A, ranked, Plug(c, f)) && f.Br? && f.l.Br? && f.l.r.Br?
    ensures LRFits(A, ranked, f) && (A.parent[f.h].Null? <==> c == Top)
    ensures Sound(LRAfter(A, ranked, f), ranked, Plug(c, LR(f)))
    ensures In(Plug(c, LR(f))) == In(Plug(c, f)) && Handles(Plug(c, LR(f))) == Handles(Plug(c, f))
    ensures Plug(c, LR(f)).h == if c == Top then f.l.r.h else Plug(c, f).h
  {
    var c1, f1 := InL(c, f.h, f.r), Br(RR(f.l), f.h, f.r);
    assert Plug(c1, f.l) == Plug(c, f);
    RRAfterSound(A, ranked, c1, f.l);
    var A1 := RRAfter(A, ranked, f.l);
    assert Plug(c1, RR(f.l)) == Plug(c, f1);
    LLAfterSound(A1, ranked, c, f1);
    LRParent(A, ranked, c, f);
  }

  /** rl_rotation keeps a sound tree sound; the mirror image of LRAfterSound. */
  lemma {:induction false} RLAfterSound<T>(A: Arena<T>, ranked: bool, c: Ctx, f: Shape)
    requires Sound(A, ranked, Plug(c, f)) && f.Br? && f.r.Br? && f.r.l.Br?
    ensures RLFits(A, ranked, f) && (A.parent[f.h].Null? <==> c == Top)
    ensures Sound(RLAfter(A, ranked, f), ranked, Plug(c, RL(f)))
    ensures In(Plug(c, RL(f))) == In(Plug(c, f)) && Handles(Plug(c, RL(f))) == Handles(Plug(c, f))
    ensures Plug(c, RL(f)).h == if c == Top then f.r.l.h else Plug(c, f).h
  {
    var c1, f1 := InR(f.l, f.h, c), Br(f.l, f.h, LL(f.r));
    assert Plug(c1, f.r) == Plug(c, f);
    LLAfterSound(A, ranked, c1, f.r);
    var A1 := LLAfter(A, ranked, f.r);
    assert Plug(c1, LL(f.r)) == Plug(c, f1);
    RRAfterSound(A1, ranked, c, f1);
    RLParent(A, ranked, c, f);
  }

  /** The rotation rebalance_tree picks for the node of `f` fits the arena. */
  ghost predicate RebalFits<T>(A: Arena<T>, ranked: bool, f: Shape)
  {
    f.Br? &&
    if Bf(f) == 2 then (if Bf(f.l) == -1 then LRFits(A, ranked, f) else LLFits(A, ranked, f))
    else if Bf(f) == -2 then (if Bf(f.r) == 1 then RLFits(A, ranked, f) else RRFits(A, ranked, f))
    else true
  }

  /** The arena after rebalance_tree's rotation at the node of `f`, if it makes one. */
  ghost function RebalAfter<T>(A: Arena<T>, ranked: bool, f: Shape): Arena<T>
    requires RebalFits(A, ranked, f)
  {
    if Bf(f) == 2 then (if Bf(f.l) == -1 then LRAfter(A, ranked, f) else LLAfter(A, ranked, f))
    else if Bf(f) == -2 then (if Bf(f.r) == 1 then RLAfter(A, ranked, f) else RRAfter(A, ranked, f))
    else A
  }

  /** The rotation at a node two levels heavier on the left keeps the tree sound. */
  lemma {:induction false} LeftHeavySound<T>(A: Arena<T>, ranked: bool, c: Ctx, f: Shape)
    requires Sound(A, ranked, Plug(c, f)) && f.Br? && Balanced(f.l) && Bf(f) == 2
    ensures RebalFits(A, ranked, f)
    ensures Sound(RebalAfter(A, ranked, f), ranked, Plug(c, Rebal(f)))
    ensures In(Plug(c, Rebal(f))) == In(Plug(c, f)) && Handles(Plug(c, Rebal(f))) == Handles(Plug(c, f))
    ensures Plug(c, Rebal(f)).h == if c == Top then Rebal(f).h else Plug(c, f).h
  {
    HeightBounds(f.l);
    HeightBounds(f.r);
    HeightBounds(f.l.l);
    HeightBounds(f.l.r);
    if Bf(f.l) == -1 {
      LRAfterSound(A, ranked, c, f);
    } else {
      LLAfterSound(A, ranked, c, f);
    }
  }

  /** The rotation at a node two levels heavier on the right keeps the tree sound. */
  lemma {:induction false} RightHeavySound<T>(A: Arena<T>, ranked: bool, c: Ctx, f: Shape)
    requires Sound(A, ranked, Plug(c, f)) && f.Br? && Balanced(f.r) && Bf(f) == -2
    ensures RebalFits(A, ranked, f)
    ensures Sound(RebalAfter(A, ranked, f), ranked, Plug(c, Rebal(f)))
    ensures In(Plug(c, Rebal(f))) == In(Plug(c, f)) && Handles(Plug(c, Rebal(f))) == Handles(Plug(c, f))
    ensures Plug(c, Rebal(f)).h == if c == Top then Rebal(f).h else Plug(c, f).h
  {
    HeightBounds(f.l);
    HeightBounds(f.r);
    HeightBounds(f.r.l);
    HeightBounds(f.r.r);
    if Bf(f.r) == 1 {
      RLAfterSound(A, ranked, c, f);
    } else {
      RRAfterSound(A, ranked, c, f);
    }
  }
}
