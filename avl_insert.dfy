/**
 * Insertion into a tree, as values: where the descent of insert leaves
 * the new key (between the keys before and after the hole it reaches),
 * the writes that hang the new leaf there, and why the arena afterwards
 * holds a sound tree that rebalance_tree can start climbing from the
 * leaf's parent. The contents grow by exactly the new entry, at its
 * place in key order.
 */
module AvlInsert {
  import opened Common
  import opened AvlShape
  import opened AvlArena
  import opened AvlRelink
  import opened AvlState
  import opened AvlClimb

  /** The key a new node with this id and ability is ordered by. */
  function NewKey(ranked: bool, id: int, ability: int): Key
  {
    (if ranked then ability else 0, id)
  }

  /** Every key before the hole of `c` is below `k`, and every key after it above. */
  ghost predicate Fits(ks: map<Handle, Key>, c: Ctx, k: Key)
  {
    (forall h | h in Pre(c) :: h in ks && Less(ks[h], k))
    && (forall h | h in Suf(c) :: h in ks && Less(k, ks[h]))
  }

  /** Going left below a node with a larger key keeps the key between its neighbours. */
  lemma {:induction false} FitsLeft(ks: map<Handle, Key>, c: Ctx, u: Shape, k: Key)
    requires Fits(ks, c, k) && Bst(ks, u) && u.Br? && Less(k, ks[u.h])
    ensures Fits(ks, InL(c, u.h, u.r), k)
  {
    InHandles(u.r);
  }

  /** Going right below a node with a smaller key keeps the key between its neighbours. */
  lemma {:induction false} FitsRight(ks: map<Handle, Key>, c: Ctx, u: Shape, k: Key)
    requires Fits(ks, c, k) && Bst(ks, u) && u.Br? && Less(ks[u.h], k)
    ensures Fits(ks, InR(u.l, u.h, c), k)
  {
    InHandles(u.l);
  }

  /** The side the descent last took at the frame `c.p`: left exactly when the key is below the frame's. */
  lemma {:induction false} FitsSide(ks: map<Handle, Key>, c: Ctx, k: Key)
    requires Fits(ks, c, k) && c != Top
    ensures c.p in ks && (c.InL? <==> Less(k, ks[c.p]))
  {
    assert c.InL? ==> Suf(c)[0] == c.p;
    assert c.InR? ==> Pre(c)[|Pre(c)| - 1] == c.p;
  }

  /**
   * The writes of insert once the descent stops below `y`: a fresh node
   * with the payload, id and ability, height 0, balance factor 0, a
   * subtree size of 1 and no children, hung as `y`'s left or right child.
   */
  function Attach<T>(A: Arena<T>, y: Handle, left: bool, data: T, id: int, ability: int): Arena<T>
  {
    var n := A.next;
    A.(data := A.data[n := Some(data)], id := A.id[n := id], ability := A.ability[n := ability],
       height := A.height[n := 0], bf := A.bf[n := 0], count := A.count[n := 1],
       left := (if left then A.left[y := At(n)] else A.left)[n := Null],
       right := (if left then A.right else A.right[y := At(n)])[n := Null],
       parent := A.parent[n := At(y)], next := n + 1)
  }

  /** A wired tree of one node with height 0 and balance factor 0 (and size 1) is a sound, cached AVL tree. */
  lemma {:induction false} SingleSound<T>(A: Arena<T>, ranked: bool, r: Handle)
    requires Wired(A, Br(Nil, r, Nil)) && r in A.height && r in A.bf && A.height[r] == 0 && A.bf[r] == 0
    requires ranked ==> r in A.count && A.count[r] == 1
    ensures Sound(A, ranked, Br(Nil, r, Nil)) && Balanced(Br(Nil, r, Nil)) && Cached(A.height, A.bf, Br(Nil, r, Nil))
    ensures In(Br(Nil, r, Nil)) == [r]
  {
    var t := Br(Nil, r, Nil);
    assert In(t) == [] + [r] + [];
    assert Height(t) == 0 && Bf(t) == 0 && Size(t) == 1;
    assert r in Keys(A, ranked);
  }

  /** The new leaf is allocated fresh: it is none of the tree's nodes. */
  lemma {:induction false} AttachFresh<T>(A: Arena<T>, c: Ctx)
    requires Wired(A, Plug(c, Nil))
    ensures A.next !in CtxHandles(c) && Handles(Plug(c, Nil)) == CtxHandles(c)
    ensures Handles(Plug(c, Br(Nil, A.next, Nil))) == CtxHandles(c) + {A.next}
    ensures Distinct(Plug(c, Br(Nil, A.next, Nil))) && CtxDistinct(c)
  {
    PlugHandles(c, Nil);
    PlugHandles(c, Br(Nil, A.next, Nil));
    PlugDistinct(c, Nil);
    PlugDistinct(c, Br(Nil, A.next, Nil));
  }

  /** After the writes the pointers describe the tree with the new leaf in the hole. */
  lemma {:induction false} AttachWired<T>(A: Arena<T>, c: Ctx, data: T, id: int, ability: int)
    requires Wired(A, Plug(c, Nil)) && c != Top
    ensures Wired(Attach(A, c.p, c.InL?, data, id, ability), Plug(c, Br(Nil, A.next, Nil)))
  {
    var A' := Attach(A, c.p, c.InL?, data, id, ability);
    AttachFresh(A, c);
    AttachLinked(A, c, data, id, ability);
    AttachOwns(A, c, data, id, ability);
  }

  lemma {:induction false} AttachLinked<T>(A: Arena<T>, c: Ctx, data: T, id: int, ability: int)
    requires Wired(A, Plug(c, Nil)) && c != Top && A.next !in CtxHandles(c) && CtxDistinct(c)
    ensures var g := Ptrs(Attach(A, c.p, c.InL?, data, id, ability));
            Linked(g, Plug(c, Br(Nil, A.next, Nil))) && Rooted(g, Plug(c, Br(Nil, A.next, Nil)))
  {
    var n := A.next;
    var leaf := Br(Nil, n, Nil);
    var g, g' := Ptrs(A), Ptrs(Attach(A, c.p, c.InL?, data, id, ability));
    LinkedPlug(g, c, Nil);
    assert n in g'.left && n in g'.right && g'.left[n] == Null && g'.right[n] == Null;
    assert Linked(g', leaf) && n in g'.parent && g'.parent[n] == At(c.p);
    CtxRetarget(g, g', c, Null, At(n));
    LinkedPlug(g', c, leaf);
    PlugRoot(c, Nil, leaf);
    var r := Plug(c, Nil).h;
    assert r != n && g'.parent[r] == g.parent[r] == Null;
  }

  lemma {:induction false} AttachOwns<T>(A: Arena<T>, c: Ctx, data: T, id: int, ability: int)
    requires Owns(A, CtxHandles(c)) && c != Top && c.p in CtxHandles(c)
    ensures Owns(Attach(A, c.p, c.InL?, data, id, ability), CtxHandles(c) + {A.next})
  {
  }

  /** The new node's key is the only one the writes add. */
  lemma {:induction false} AttachKeys<T>(A: Arena<T>, ranked: bool, y: Handle, left: bool, data: T, id: int, ability: int)
    ensures Keys(Attach(A, y, left, data, id, ability), ranked) == Keys(A, ranked)[A.next := NewKey(ranked, id, ability)]
  {
  }

  /** After the writes the in-order keys are still increasing, with the new node between Pre and Suf. */
  lemma {:induction false} AttachOrdered<T>(A: Arena<T>, ranked: bool, c: Ctx, data: T, id: int, ability: int)
    requires Ordered(A, ranked, Plug(c, Nil)) && A.next !in Handles(Plug(c, Nil)) && c != Top
    requires Fits(Keys(A, ranked), c, NewKey(ranked, id, ability))
    ensures In(Plug(c, Br(Nil, A.next, Nil))) == Pre(c) + [A.next] + Suf(c)
    ensures In(Plug(c, Nil)) == Pre(c) + Suf(c)
    ensures Ordered(Attach(A, c.p, c.InL?, data, id, ability), ranked, Plug(c, Br(Nil, A.next, Nil)))
  {
    var n := A.next;
    var ks := Keys(A, ranked);
    PlugIn(c, Nil);
    PlugIn(c, Br(Nil, n, Nil));
    InHandles(Plug(c, Nil));
    assert Pre(c) + [] + Suf(c) == Pre(c) + Suf(c);
    assert In(Br(Nil, n, Nil)) == [n];
    SortedInsert(ks, Pre(c), Suf(c), n, NewKey(ranked, id, ability));
    AttachKeys(A, ranked, c.p, c.InL?, data, id, ability);
  }

  /** In a MultiTree the siblings along the path keep their sizes; only the path above the leaf is stale. */
  lemma {:induction false} AttachSibCounted<T>(A: Arena<T>, c: Ctx, data: T, id: int, ability: int)
    requires Wired(A, Plug(c, Nil)) && Counted(A.count, Plug(c, Nil)) && c != Top
    ensures SibCounted(Attach(A, c.p, c.InL?, data, id, ability).count, c)
  {
    AttachFresh(A, c);
    CountedPlug(A.count, c, Nil);
    CtxCountedSib(A.count, c, 0);
    SibCountedFrame(A.count, A.count[A.next := 1], c);
  }

  /**
   * Right after the leaf is hung, rebalance_tree may start at its parent:
   * the parent's subtree has at most one more level than before and the
   * path above it is as it was.
   */
  lemma {:induction false} AttachClimbing(hs: map<Handle, int>, bs: map<Handle, int>, c: Ctx, n: Handle)
    requires c != Top && Balanced(Plug(c, Nil)) && Cached(hs, bs, Plug(c, Nil)) && n !in CtxHandles(c)
    ensures Climbing(hs[n := 0], bs[n := 0], c.up, Up(c, Br(Nil, n, Nil)), Height(Up(c, Nil)))
  {
    assert Plug(c.up, Up(c, Nil)) == Plug(c, Nil);
    CtxOkPlug(hs, bs, c.up, Up(c, Nil));
    CachedFresh(hs, bs, c.sib, n, 0, 0);
    CtxOkFresh(hs, bs, c.up, Height(Up(c, Nil)), n, 0, 0);
    HeightBounds(c.sib);
    var f := Up(c, Br(Nil, n, Nil));
    assert -1 <= Height(c.sib) <= 0;
    assert Height(f) == 1 && Rebal(f) == f;
  }

  /** Writing sizes keeps a tree wired and ordered. */
  lemma {:induction false} WiredCounts<T>(A: Arena<T>, ranked: bool, t: Shape, cs: map<Handle, int>)
    requires Wired(A, t) && Ordered(A, ranked, t) && cs.Keys == A.count.Keys
    ensures Wired(A.(count := cs), t) && Ordered(A.(count := cs), ranked, t)
  {
    assert Ptrs(A.(count := cs)) == Ptrs(A);
    assert Keys(A.(count := cs), ranked) == Keys(A, ranked);
  }

  /**
   * One step of upwardUpdate at the parent `cc.p` of the counted slot
   * `u`: update_children there counts the subtree one level up, and the
   * arena still holds the tree.
   */
  lemma {:induction false} CountStep<T>(A: Arena<T>, cc: Ctx, u: Shape)
    requires cc != Top && Wired(A, Plug(cc, u)) && Counted(A.count, u) && SibCounted(A.count, cc)
    ensures var x := cc.p;
            && x in A.left && x in A.right && x in A.count && x in A.parent
            && (A.left[x].At? ==> A.left[x].h in A.count) && (A.right[x].At? ==> A.right[x].h in A.count)
            && A.parent[x] == (if cc.up == Top then Null else At(cc.up.p))
            && var cs := Recount(A.count, x, A.left[x], A.right[x]);
               && Counted(cs, Up(cc, u)) && SibCounted(cs, cc.up) && cs.Keys == A.count.Keys
    ensures Plug(cc.up, Up(cc, u)) == Plug(cc, u) && Depth(cc.up) < Depth(cc)
  {
    var x, v := cc.p, Up(cc, u);
    assert Plug(cc.up, v) == Plug(cc, u);
    Focus(A, cc.up, v);
    PlugDistinct(cc.up, v);
    UpdateCounted(A.count, v.l, x, v.r);
    var cs := Recount(A.count, x, A.left[x], A.right[x]);
    SibCountedFrame(A.count, cs, cc.up);
  }

  /** New sizes on the same nodes leave the tree wired. */
  lemma {:induction false} WiredRecount<T>(A: Arena<T>, t: Shape, cs: map<Handle, int>)
    requires Wired(A, t) && cs.Keys == A.count.Keys
    ensures Wired(A.(count := cs), t)
  {
    assert Ptrs(A.(count := cs)) == Ptrs(A);
  }

  /** New sizes that count `t` leave a wired, ordered arena sound. */
  lemma {:induction false} Recounted<T>(A: Arena<T>, ranked: bool, t: Shape, cs: map<Handle, int>)
    requires Wired(A, t) && Ordered(A, ranked, t) && cs.Keys == A.count.Keys && (ranked ==> Counted(cs, t))
    ensures Sound(A.(count := cs), ranked, t) && Keys(A.(count := cs), ranked) == Keys(A, ranked)
  {
    WiredRecount(A, t, cs);
  }

  // ---------------------------------------------------------- contents

  /** The entries of a tree with one more entry, placed before the first larger key. */
  function InsertSorted<D>(es: seq<(Key, D)>, e: (Key, D)): (r: seq<(Key, D)>)
    ensures |r| == |es| + 1
  {
    if es == [] then [e]
    else if Less(e.0, es[0].0) then [e] + es
    else [es[0]] + InsertSorted(es[1..], e)
  }

  /** Entries ordered by strictly increasing key. */
  ghost predicate SortedEntries<D>(es: seq<(Key, D)>)
  {
    forall i, j | 0 <= i < j < |es| :: Less(es[i].0, es[j].0)
  }

  /** An entry whose key lies between two runs is inserted between them. */
  lemma {:induction false} InsertSortedAt<D>(a: seq<(Key, D)>, b: seq<(Key, D)>, e: (Key, D))
    requires forall i | 0 <= i < |a| :: Less(a[i].0, e.0)
    requires forall i | 0 <= i < |b| :: Less(e.0, b[i].0)
    ensures InsertSorted(a + b, e) == a + [e] + b
    decreases |a|
  {
    if a == [] {
      assert a + b == b;
      if b != [] {
        assert Less(e.0, b[0].0);
      }
    } else {
      assert (a + b)[0] == a[0] && (a + b)[1..] == a[1..] + b;
      assert !Less(e.0, a[0].0);
      InsertSortedAt(a[1..], b, e);
      assert a + [e] + b == [a[0]] + (a[1..] + [e] + b);
    }
  }

  /** Insertion adds exactly the new entry. */
  lemma {:induction false} InsertSortedPerm<D>(es: seq<(Key, D)>, e: (Key, D))
    ensures multiset(InsertSorted(es, e)) == multiset(es) + multiset{e}
    decreases |es|
  {
    if es != [] && !Less(e.0, es[0].0) {
      InsertSortedPerm(es[1..], e);
      assert es == [es[0]] + es[1..];
    }
  }

  /**
   * Insertion into sorted entries keeps them sorted and adds exactly the
   * new entry, when its key is new.
   */
  lemma {:induction false} InsertSortedSorted<D>(es: seq<(Key, D)>, e: (Key, D))
    requires SortedEntries(es) && forall i | 0 <= i < |es| :: es[i].0 != e.0
    ensures SortedEntries(InsertSorted(es, e))
    ensures multiset(InsertSorted(es, e)) == multiset(es) + multiset{e}
    decreases |es|
  {
    InsertSortedPerm(es, e);
    if es == [] {
    } else if Less(e.0, es[0].0) {
      SortedTail(es);
      SortedCons(e, es);
    } else {
      var t := es[1..];
      SortedTail(es);
      InsertSortedSorted(t, e);
      assert Less(es[0].0, e.0);
      var r := InsertSorted(t, e);
      forall j | 0 <= j < |r|
        ensures Less(es[0].0, r[j].0)
      {
        assert r[j] in multiset(r);
        if r[j] != e {
          assert r[j] in multiset(t);
          var k :| 0 <= k < |t| && t[k] == r[j];
        }
      }
      SortedCons(es[0], r);
    }
  }

  /** The tail of sorted entries is sorted, above the head, and keeps every key distinct from `e`'s. */
  lemma SortedTail<D>(es: seq<(Key, D)>)
    requires SortedEntries(es) && es != []
    ensures SortedEntries(es[1..]) && forall j | 0 <= j < |es[1..]| :: Less(es[0].0, es[1..][j].0)
  {
    var t := es[1..];
    forall i, j | 0 <= i < j < |t|
      ensures Less(t[i].0, t[j].0)
    {
      assert t[i] == es[i + 1] && t[j] == es[j + 1];
    }
    forall j | 0 <= j < |t|
      ensures Less(es[0].0, t[j].0)
    {
      assert t[j] == es[j + 1];
    }
  }

  /** An entry below every entry of a sorted run can go in front of it. */
  lemma SortedCons<D>(k: (Key, D), r: seq<(Key, D)>)
    requires SortedEntries(r) && ((r != [] && Less(k.0, r[0].0)) || forall j | 0 <= j < |r| :: Less(k.0, r[j].0))
    ensures SortedEntries([k] + r)
  {
    var r' := [k] + r;
    forall i, j | 0 <= i < j < |r'|
      ensures Less(r'[i].0, r'[j].0)
    {
      if i == 0 {
        assert r'[j] == r[j - 1];
        if j > 1 {
          assert Less(r[0].0, r[j - 1].0);
        }
      } else {
        assert r'[i] == r[i - 1] && r'[j] == r[j - 1];
      }
    }
  }

  /** The nodes of a wired tree carry keys and payloads, and the next handle is none of them. */
  lemma {:induction false} WiredIn<T>(A: Arena<T>, ranked: bool, t: Shape)
    requires Wired(A, t)
    ensures forall h | h in In(t) :: h in Keys(A, ranked) && h in A.data && h != A.next
  {
    InHandles(t);
  }

  /**
   * What insert does to the contents: the entries of the tree with the
   * new leaf are the old entries with the new one put in its place.
   */
  lemma {:induction false} AttachEntries<T>(A: Arena<T>, ranked: bool, c: Ctx, data: T, id: int, ability: int)
    requires forall h | h in In(Plug(c, Nil)) :: h in Keys(A, ranked) && h in A.data && h != A.next
    requires Fits(Keys(A, ranked), c, NewKey(ranked, id, ability)) && c != Top
    ensures var A' := Attach(A, c.p, c.InL?, data, id, ability);
            (forall h | h in In(Plug(c, Br(Nil, A.next, Nil))) :: h in Keys(A', ranked) && h in A'.data)
            && EntriesOf(Keys(A', ranked), A'.data, In(Plug(c, Br(Nil, A.next, Nil))))
               == InsertSorted(EntriesOf(Keys(A, ranked), A.data, In(Plug(c, Nil))), (NewKey(ranked, id, ability), Some(data)))
  {
    var n := A.next;
    var k := NewKey(ranked, id, ability);
    var A' := Attach(A, c.p, c.InL?, data, id, ability);
    var ks, ks' := Keys(A, ranked), Keys(A', ranked);
    AttachKeys(A, ranked, c.p, c.InL?, data, id, ability);
    PlugIn(c, Nil);
    PlugIn(c, Br(Nil, n, Nil));
    var pre, suf := Pre(c), Suf(c);
    assert pre + [] + suf == pre + suf;
    assert In(Br(Nil, n, Nil)) == [n];
    EntriesSplit(ks', A'.data, pre + [n], suf);
    EntriesSplit(ks', A'.data, pre, [n]);
    EntriesSplit(ks, A.data, pre, suf);
    EntriesFrame(ks, A.data, ks', A'.data, pre);
    EntriesFrame(ks, A.data, ks', A'.data, suf);
    assert EntriesOf(ks', A'.data, [n]) == [(k, Some(data))];
    InsertSortedAt(EntriesOf(ks, A.data, pre), EntriesOf(ks, A.data, suf), (k, Some(data)));
  }

  /**
   * Where the descent stops, no node has the new key: the keys before
   * the hole are smaller and those after it larger. In a tree of ids the
   * key is the id, so no node has the id either.
   */
  lemma {:induction false} FitsAbsent<T>(A: Arena<T>, ranked: bool, c: Ctx, id: int, ability: int)
    requires Sound(A, ranked, Plug(c, Nil)) && Fits(Keys(A, ranked), c, NewKey(ranked, id, ability))
    ensures forall h | h in In(Plug(c, Nil)) :: h in Keys(A, ranked) && Keys(A, ranked)[h] != NewKey(ranked, id, ability)
    ensures !ranked ==> forall h | h in In(Plug(c, Nil)) :: h in A.id && A.id[h] != id
  {
    PlugIn(c, Nil);
    InHandles(Plug(c, Nil));
  }

  /**
   * Everything insert needs of its writes, for a descent that missed at
   * the slot `c` of a sound, balanced, cached tree. A Tree of GenericNode
   * stores ability 0 in the node, which its keys ignore.
   */
  lemma {:induction false} AttachAll<T>(A: Arena<T>, ranked: bool, c: Ctx, data: T, id: int, ability: int)
    requires Sound(A, ranked, Plug(c, Nil)) && Balanced(Plug(c, Nil)) && Cached(A.height, A.bf, Plug(c, Nil))
    requires c != Top && Fits(Keys(A, ranked), c, NewKey(ranked, id, ability))
    ensures c.p in A.id && c.p in A.ability
    ensures c.InL? <==> Less(NewKey(ranked, id, ability), KeyOf(ranked, A.id, A.ability, c.p))
    ensures var leaf := Br(Nil, A.next, Nil);
            var A' := Attach(A, c.p, c.InL?, data, id, if ranked then ability else 0);
            Wired(A', Plug(c, leaf)) && Ordered(A', ranked, Plug(c, leaf)) && Plug(c, leaf).h == Plug(c, Nil).h
            && (ranked ==> Counted(A'.count, leaf) && SibCounted(A'.count, c))
            && Climbing(A'.height, A'.bf, c.up, Up(c, leaf), Height(Up(c, Nil)))
            && (forall h | h in In(Plug(c, Nil)) :: h in Keys(A, ranked) && h in A.data)
            && (forall h | h in In(Plug(c, leaf)) :: h in Keys(A', ranked) && h in A'.data)
            && EntriesOf(Keys(A', ranked), A'.data, In(Plug(c, leaf)))
               == InsertSorted(EntriesOf(Keys(A, ranked), A.data, In(Plug(c, Nil))), (NewKey(ranked, id, ability), Some(data)))
  {
    var n := A.next;
    var ab := if ranked then ability else 0;
    assert NewKey(ranked, id, ab) == NewKey(ranked, id, ability);
    FitsSide(Keys(A, ranked), c, NewKey(ranked, id, ability));
    AttachFresh(A, c);
    AttachWired(A, c, data, id, ab);
    AttachOrdered(A, ranked, c, data, id, ab);
    WiredIn(A, ranked, Plug(c, Nil));
    AttachEntries(A, ranked, c, data, id, ab);
    AttachClimbing(A.height, A.bf, c, n);
    if ranked {
      AttachSibCounted(A, c, data, id, ab);
    }
    PlugRoot(c, Nil, Br(Nil, n, Nil));
  }
}
