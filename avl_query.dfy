/**
 * The read-only walks over a tree's nodes: the two searches (by id in a
 * Tree, by ability and id in a MultiTree), select-by-rank in a MultiTree
 * and the in-order copy of the payloads into an array. Each follows the
 * child pointers of the arena; the ghost shape only says where they lead.
 */
module AvlQuery {
  import opened Common
  import opened AvlShape
  import opened AvlArena
  import opened AvlState

  /** The child pointers of `t` are there to follow, and its nodes hold the fields the walks read. */
  ghost predicate Walkable<T>(A: Arena<T>, t: Shape)
  {
    match t
    case Nil => true
    case Br(l, h, r) =>
      h in A.left && h in A.right && A.left[h] == PtrOf(l) && A.right[h] == PtrOf(r)
      && h in A.id && h in A.ability && h in A.data && h in A.count
      && Walkable(A, l) && Walkable(A, r)
  }

  /** A wired tree can be walked. */
  lemma {:induction false} WiredWalkable<T>(A: Arena<T>, t: Shape)
    requires Linked(Ptrs(A), t) && Owns(A, Handles(t))
    ensures Walkable(A, t)
  {
    match t
    case Nil =>
    case Br(l, _, r) =>
      WiredWalkable(A, l);
      WiredWalkable(A, r);
  }

  /** The walks only read nodes of `t`. */
  lemma {:induction false} WalkableHandles<T>(A: Arena<T>, t: Shape)
    requires Walkable(A, t)
    ensures forall h | h in Handles(t) :: h in A.id && h in A.ability && h in A.data && h in A.count
  {
    match t
    case Nil =>
    case Br(l, _, r) =>
      WalkableHandles(A, l);
      WalkableHandles(A, r);
  }

  /** Tree::search_recursively: descends by id from `p`, throwing NodeNotFound at a null pointer. */
  function SearchRecursively<T>(A: Arena<T>, id: int, p: Ptr, ghost t: Shape): (r: Result<Handle>)
    requires Walkable(A, t) && p == PtrOf(t)
    ensures r.Ok? ==> r.value in Handles(t) && r.value in A.id && A.id[r.value] == id
    ensures r.Fail? ==> r.error == NodeNotFound
    decreases t
  {
    if p.Null? then Fail(NodeNotFound)
    else if A.id[p.h] == id then Ok(p.h)
    else if A.id[p.h] < id then SearchRecursively(A, id, A.right[p.h], t.r)
    else SearchRecursively(A, id, A.left[p.h], t.l)
  }

  /** In a search tree over ids, the search fails exactly when no node carries the id. */
  lemma {:induction false} SearchFinds<T>(A: Arena<T>, id: int, t: Shape)
    requires Walkable(A, t) && Bst(Keys(A, false), t)
    ensures SearchRecursively(A, id, PtrOf(t), t).Ok? <==> exists h :: h in Handles(t) && A.id[h] == id
  {
    match t
    case Nil =>
    case Br(l, x, r) =>
      var ks := Keys(A, false);
      if A.id[x] != id {
        SearchFinds(A, id, l);
        SearchFinds(A, id, r);
        if A.id[x] < id {
          forall h | h in Handles(l) ensures A.id[h] != id
          {
            assert Less(ks[h], ks[x]);
          }
        } else {
          forall h | h in Handles(r) ensures A.id[h] != id
          {
            assert Less(ks[x], ks[h]);
          }
        }
      }
  }

  /**
   * MultiTree::search_recursively: a node with the id ends the search;
   * otherwise it goes right below a smaller ability, or an equal ability
   * with a smaller id, and left in every other case.
   */
  function MultiSearch<T>(A: Arena<T>, id: int, ability: int, p: Ptr, ghost t: Shape): (r: Result<Handle>)
    requires Walkable(A, t) && p == PtrOf(t)
    ensures r.Ok? ==> r.value in Handles(t) && r.value in A.id && A.id[r.value] == id
    ensures r.Fail? ==> r.error == NodeNotFound
    decreases t
  {
    if p.Null? then Fail(NodeNotFound)
    else if A.id[p.h] == id then Ok(p.h)
    else if A.ability[p.h] < ability then MultiSearch(A, id, ability, A.right[p.h], t.r)
    else if A.id[p.h] < id && A.ability[p.h] == ability then MultiSearch(A, id, ability, A.right[p.h], t.r)
    else MultiSearch(A, id, ability, A.left[p.h], t.l)
  }

  /** In a tree ordered by (ability, id), a node with both the ability and the id is always found. */
  lemma {:induction false} MultiSearchFinds<T>(A: Arena<T>, id: int, ability: int, t: Shape)
    requires Walkable(A, t) && Bst(Keys(A, true), t)
    requires exists h :: h in Handles(t) && A.ability[h] == ability && A.id[h] == id
    ensures MultiSearch(A, id, ability, PtrOf(t), t).Ok?
  {
    var ks := Keys(A, true);
    var x := t.h;
    var h :| h in Handles(t) && A.ability[h] == ability && A.id[h] == id;
    if A.id[x] != id {
      assert h != x;
      if h in Handles(t.l) {
        assert Less(ks[h], ks[x]);
        MultiSearchFinds(A, id, ability, t.l);
      } else {
        assert Less(ks[x], ks[h]);
        MultiSearchFinds(A, id, ability, t.r);
      }
    }
  }

  /**
   * MultiTree::find_index: select by rank from `p`, reading the subtree
   * sizes of the left children. An index past the last node lands on
   * the right-most one.
   */
  function FindIndex<T>(A: Arena<T>, p: Ptr, index: int, ghost t: Shape): (r: Handle)
    requires Walkable(A, t) && Counted(A.count, t) && t.Br? && p == PtrOf(t) && index >= 0
    ensures r in Handles(t)
    decreases t
  {
    var left := if A.left[p.h].At? then (assert A.left[p.h].h == t.l.h && Walkable(A, t.l); A.count[A.left[p.h].h]) else 0;
    if left > index then FindIndex(A, A.left[p.h], index, t.l)
    else if index == left then p.h
    else if A.right[p.h].At? then FindIndex(A, A.right[p.h], index - left - 1, t.r)
    else p.h
  }

  /** find_index returns the node at in-order position `index`, or the last node past the end. */
  lemma {:induction false} FindIndexRank<T>(A: Arena<T>, index: int, t: Shape)
    requires Walkable(A, t) && Counted(A.count, t) && t.Br? && index >= 0
    ensures index < |In(t)| ==> FindIndex(A, PtrOf(t), index, t) == In(t)[index]
    ensures index >= |In(t)| ==> FindIndex(A, PtrOf(t), index, t) == In(t)[|In(t)| - 1]
  {
    InSize(t);
    InSize(t.l);
    InSize(t.r);
    var left := Size(t.l);
    if left > index {
      FindIndexRank(A, index, t.l);
    } else if index > left && t.r.Br? {
      FindIndexRank(A, index - left - 1, t.r);
    }
  }

  lemma {:induction false} InSize(t: Shape)
    ensures |In(t)| == Size(t)
  {
    match t
    case Nil =>
    case Br(l, _, r) =>
      InSize(l);
      InSize(r);
  }

  /** The payloads of the nodes of `t`, in in-order. */
  ghost function DataIn<T>(A: Arena<T>, t: Shape): (d: seq<Option<T>>)
    requires Walkable(A, t)
    ensures |d| == Size(t)
  {
    match t
    case Nil => []
    case Br(l, h, r) => DataIn(A, l) + [A.data[h]] + DataIn(A, r)
  }

  /** DataIn holds the payload of each node at that node's in-order position. */
  lemma {:induction false} DataInOrder<T>(A: Arena<T>, t: Shape)
    requires Walkable(A, t)
    ensures |DataIn(A, t)| == |In(t)| == Size(t)
    ensures forall i | 0 <= i < |In(t)| :: In(t)[i] in A.data && DataIn(A, t)[i] == A.data[In(t)[i]]
  {
    match t
    case Nil =>
    case Br(l, h, r) =>
      DataInOrder(A, l);
      DataInOrder(A, r);
      var n := |In(l)|;
      forall i | 0 <= i < |In(t)|
        ensures In(t)[i] in A.data && DataIn(A, t)[i] == A.data[In(t)[i]]
      {
        if i < n {
          assert In(t)[i] == In(l)[i] && DataIn(A, t)[i] == DataIn(A, l)[i];
        } else if i == n {
          assert In(t)[i] == h;
        } else {
          assert In(t)[i] == In(r)[i - n - 1] && DataIn(A, t)[i] == DataIn(A, r)[i - n - 1];
        }
      }
  }

  /**
   * Three writes side by side: a run `l` at `i`, one value `d` after it
   * and a run `r` after that, each over what the previous left.
   */
  lemma Assemble<X>(a0: seq<X>, a1: seq<X>, a2: seq<X>, a3: seq<X>, i: int, m: int, n: int, l: seq<X>, d: X, r: seq<X>)
    requires 0 <= i && m == i + |l| && n == m + 1 + |r| && n <= |a0|
    requires a1 == a0[..i] + l + a0[m..]
    requires a2 == a1[m := d]
    requires a3 == a2[..m + 1] + r + a2[n..]
    ensures a3 == a0[..i] + (l + [d] + r) + a0[n..]
  {
    assert |a3| == |a0|;
    forall k | 0 <= k < |a0|
      ensures a3[k] == (a0[..i] + (l + [d] + r) + a0[n..])[k]
    {
      if k < i {
        assert a3[k] == a2[k] == a1[k];
      } else if k < m {
        assert a3[k] == a2[k] == a1[k] == l[k - i];
      } else if k == m {
        assert a3[k] == a2[k];
      } else if k < n {
        assert a3[k] == r[k - m - 1];
      } else {
        assert a3[k] == a2[k] == a1[k];
      }
    }
  }

  /** An array whose prefix was overwritten by `d`: the prefix is `d`, the rest as it was. */
  lemma Overwritten<X>(a0: seq<X>, d: seq<X>, a: seq<X>)
    requires |d| <= |a0| && a == a0[..0] + d + a0[|d|..]
    ensures |a| == |a0|
    ensures forall i | 0 <= i < |d| :: a[i] == d[i]
    ensures forall i | |d| <= i < |a| :: a[i] == a0[i]
  {
  }

  /**
   * get_data_inorder: writes the payloads of the subtree at `p` into
   * `arr` in in-order, starting at `index`, and returns the index after
   * the last one written. Nothing else in the array changes.
   */
  method DataInorder<T>(A: Arena<T>, p: Ptr, ghost t: Shape, arr: array<Option<T>>, index: nat) returns (next: nat)
    requires Walkable(A, t) && p == PtrOf(t) && index + Size(t) <= arr.Length
    modifies arr
    ensures next == index + Size(t)
    ensures arr[..] == old(arr[..])[..index] + DataIn(A, t) + old(arr[..])[next..]
    decreases t
  {
    next := index;
    if p.At? {
      ghost var a0 := arr[..];
      var mid := DataInorder(A, A.left[p.h], t.l, arr, index);
      ghost var a1 := arr[..];
      arr[mid] := A.data[p.h];
      ghost var a2 := arr[..];
      next := DataInorder(A, A.right[p.h], t.r, arr, mid + 1);
      Assemble(a0, a1, a2, arr[..], index, mid, next, DataIn(A, t.l), A.data[p.h], DataIn(A, t.r));
      assert DataIn(A, t) == DataIn(A, t.l) + [A.data[p.h]] + DataIn(A, t.r);
    } else {
      assert arr[..] == old(arr[..])[..index] + [] + old(arr[..])[index..];
    }
  }
}
