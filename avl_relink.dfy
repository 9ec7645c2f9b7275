/**
 * The pointer writes of the two single rotations, as functions of the
 * links before them, and the proofs that they rewire the arena to the
 * rotated shape and that recounting the two moved nodes keeps every
 * subtree size right.
 */
module AvlRelink {
  import opened Common
  import opened AvlShape
  import opened AvlArena

  /** The writes of ll_rotation on node `a`, in the order the source makes them. */
  ghost function LLLinks(g: Links, a: Handle): Links
    requires a in g.left && a in g.parent && g.left[a].At? && g.left[a].h in g.right
    requires g.parent[a].At? ==> g.parent[a].h in g.left
  {
    var b := g.left[a].h;
    var pa := g.parent[a];
    var l1 := if pa.At? && g.left[pa.h] == At(a) then g.left[pa.h := At(b)] else g.left;
    var r1 := if pa.At? && g.left[pa.h] != At(a) then g.right[pa.h := At(b)] else g.right;
    var p1 := g.parent[b := pa][a := At(b)];
    var p2 := if r1[b].At? then p1[r1[b].h := At(a)] else p1;
    Links(l1[a := r1[b]], r1[b := At(a)], p2)
  }

  /** ll_rotation on `a` changes no parent link but those of `a`, its left child and that child's right child. */
  lemma {:induction false} LLParentFrame(g: Links, a: Handle, x: Handle)
    requires a in g.left && a in g.parent && g.left[a].At? && g.left[a].h in g.right
    requires g.parent[a].At? ==> g.parent[a].h in g.left
    requires x in g.parent && x != a && x != g.left[a].h
    requires g.right[g.left[a].h].At? ==> x != g.right[g.left[a].h].h
    requires g.parent[a].At? ==> g.parent[a].h != g.left[a].h
    ensures x in LLLinks(g, a).parent && LLLinks(g, a).parent[x] == g.parent[x]
  {
  }

  /** The writes of rr_rotation on node `a`, in the order the source makes them. */
  ghost function RRLinks(g: Links, a: Handle): Links
    requires a in g.right && a in g.parent && g.right[a].At? && g.right[a].h in g.left
    requires g.parent[a].At? ==> g.parent[a].h in g.right
  {
    var b := g.right[a].h;
    var pa := g.parent[a];
    var r1 := if pa.At? && g.right[pa.h] == At(a) then g.right[pa.h := At(b)] else g.right;
    var l1 := if pa.At? && g.right[pa.h] != At(a) then g.left[pa.h := At(b)] else g.left;
    var p1 := g.parent[b := pa][a := At(b)];
    var p2 := if l1[b].At? then p1[l1[b].h := At(a)] else p1;
    Links(l1[b := At(a)], r1[a := l1[b]], p2)
  }

  /** rr_rotation on `a` changes no parent link but those of `a`, its right child and that child's left child. */
  lemma {:induction false} RRParentFrame(g: Links, a: Handle, x: Handle)
    requires a in g.right && a in g.parent && g.right[a].At? && g.right[a].h in g.left
    requires g.parent[a].At? ==> g.parent[a].h in g.right
    requires x in g.parent && x != a && x != g.right[a].h
    requires g.left[g.right[a].h].At? ==> x != g.left[g.right[a].h].h
    requires g.parent[a].At? ==> g.parent[a].h != g.right[a].h
    ensures x in RRLinks(g, a).parent && RRLinks(g, a).parent[x] == g.parent[x]
  {
  }

  /** ll_rotation only rewrites pointers of nodes that already have them. */
  lemma {:induction false} LLKeys(g: Links, a: Handle)
    requires a in g.left && a in g.parent && g.left[a].At? && g.left[a].h in g.right
    requires g.parent[a].At? ==> g.parent[a].h in g.left && g.parent[a].h in g.right
    requires g.left[a].h in g.parent && a in g.right
    requires g.right[g.left[a].h].At? ==> g.right[g.left[a].h].h in g.parent
    ensures var g1 := LLLinks(g, a);
            g1.left.Keys == g.left.Keys && g1.right.Keys == g.right.Keys && g1.parent.Keys == g.parent.Keys
  { }

  /** rr_rotation only rewrites pointers of nodes that already have them. */
  lemma {:induction false} RRKeys(g: Links, a: Handle)
    requires a in g.right && a in g.parent && g.right[a].At? && g.right[a].h in g.left
    requires g.parent[a].At? ==> g.parent[a].h in g.right && g.parent[a].h in g.left
    requires g.right[a].h in g.parent && a in g.left
    requires g.left[g.right[a].h].At? ==> g.left[g.right[a].h].h in g.parent
    ensures var g1 := RRLinks(g, a);
            g1.left.Keys == g.left.Keys && g1.right.Keys == g.right.Keys && g1.parent.Keys == g.parent.Keys
  { }

  /** The root of the whole tree has no parent. */
  ghost predicate Rooted(g: Links, t: Shape)
  {
    t.Br? && t.h in g.parent && g.parent[t.h] == Null
  }

  /** The child pointers of the two nodes a rotation moves, read off the rotated subtree `u`. */
  ghost predicate Moved(g: Links, u: Shape)
  {
    u.Br? && u.h in g.left && u.h in g.right && g.left[u.h] == PtrOf(u.l) && g.right[u.h] == PtrOf(u.r)
    && (u.l.Br? ==> u.l.h in g.left && u.l.h in g.right && g.left[u.l.h] == PtrOf(u.l.l) && g.right[u.l.h] == PtrOf(u.l.r))
    && (u.r.Br? ==> u.r.h in g.left && u.r.h in g.right && g.left[u.r.h] == PtrOf(u.r.l) && g.right[u.r.h] == PtrOf(u.r.r))
  }

  /** Below the two nodes it moves, ll_rotation changes no pointer. */
  lemma {:induction false} LLInnerFrame(g: Links, f: Shape)
    requires f.Br? && f.l.Br? && Linked(g, f) && Distinct(f)
    requires f.h in g.parent && (g.parent[f.h].At? ==> g.parent[f.h].h in g.left && g.parent[f.h].h !in Handles(f))
    ensures f.l.h in g.right
    ensures var g1, s := LLLinks(g, f.h), Handles(f.l.l) + Handles(f.l.r) + Handles(f.r);
            Same(g.left, g1.left, s) && Same(g.right, g1.right, s)
            && Same(g.parent, g1.parent, Below(f.l.l) + Below(f.l.r) + Below(f.r))
  {
    var Br(Br(bl, b, br), a, ar) := f;
    assert Linked(g, Br(bl, b, br));
    assert Distinct(Br(bl, b, br));
    var g1 := LLLinks(g, a);
    assert a !in Handles(bl) + Handles(br) + Handles(ar) && b !in Handles(bl) + Handles(br) + Handles(ar);
    assert Below(bl) <= Handles(bl) && Below(br) <= Handles(br) && Below(ar) <= Handles(ar);
    if br.Br? {
      assert Distinct(br) && br.h in Handles(br) && Handles(br) <= Handles(Br(bl, b, br));
      assert br.h !in Below(bl) + Below(br) + Below(ar);
    }
  }

  /** Inside the rotated subtree, the writes of ll_rotation link up `LL(f)`. */
  lemma {:induction false} LLInner(g: Links, f: Shape)
    requires f.Br? && f.l.Br? && Linked(g, f) && Distinct(f)
    requires f.h in g.parent && (g.parent[f.h].At? ==> g.parent[f.h].h in g.left && g.parent[f.h].h !in Handles(f))
    ensures f.l.h in g.right
    ensures Linked(LLLinks(g, f.h), LL(f))
    ensures Linked(LLLinks(g, f.h), LL(f)) ==> Moved(LLLinks(g, f.h), LL(f))
  {
    var Br(Br(bl, b, br), a, ar) := f;
    assert Linked(g, Br(bl, b, br));
    LLInnerFrame(g, f);
    var g1 := LLLinks(g, a);
    assert g1.left[a] == PtrOf(br) && g1.right[b] == At(a);
    LinkedFrame(g, g1, bl);
    LinkedFrame(g, g1, br);
    LinkedFrame(g, g1, ar);
    assert Linked(g1, Br(br, a, ar));
  }

  /** Below the two nodes it moves, rr_rotation changes no pointer. */
  lemma {:induction false} RRInnerFrame(g: Links, f: Shape)
    requires f.Br? && f.r.Br? && Linked(g, f) && Distinct(f)
    requires f.h in g.parent && (g.parent[f.h].At? ==> g.parent[f.h].h in g.right && g.parent[f.h].h !in Handles(f))
    ensures f.r.h in g.left
    ensures var g1, s := RRLinks(g, f.h), Handles(f.l) + Handles(f.r.l) + Handles(f.r.r);
            Same(g.left, g1.left, s) && Same(g.right, g1.right, s)
            && Same(g.parent, g1.parent, Below(f.l) + Below(f.r.l) + Below(f.r.r))
  {
    var Br(al, a, Br(bl, b, br)) := f;
    assert Linked(g, Br(bl, b, br));
    assert Distinct(Br(bl, b, br));
    var g1 := RRLinks(g, a);
    assert a !in Handles(al) + Handles(bl) + Handles(br) && b !in Handles(al) + Handles(bl) + Handles(br);
    assert Below(al) <= Handles(al) && Below(bl) <= Handles(bl) && Below(br) <= Handles(br);
    if bl.Br? {
      assert Distinct(bl) && bl.h in Handles(bl) && Handles(bl) <= Handles(Br(bl, b, br));
      assert bl.h !in Below(al) + Below(bl) + Below(br);
    }
  }

  /** Inside the rotated subtree, the writes of rr_rotation link up `RR(f)`. */
  lemma {:induction false} RRInner(g: Links, f: Shape)
    requires f.Br? && f.r.Br? && Linked(g, f) && Distinct(f)
    requires f.h in g.parent && (g.parent[f.h].At? ==> g.parent[f.h].h in g.right && g.parent[f.h].h !in Handles(f))
    ensures f.r.h in g.left
    ensures Linked(RRLinks(g, f.h), RR(f))
    ensures Linked(RRLinks(g, f.h), RR(f)) ==> Moved(RRLinks(g, f.h), RR(f))
  {
    var Br(al, a, Br(bl, b, br)) := f;
    assert Linked(g, Br(bl, b, br));
    RRInnerFrame(g, f);
    var g1 := RRLinks(g, a);
    assert g1.right[a] == PtrOf(bl) && g1.left[b] == At(a);
    LinkedFrame(g, g1, al);
    LinkedFrame(g, g1, bl);
    LinkedFrame(g, g1, br);
    assert Linked(g1, Br(al, a, bl));
  }

  /** Above the rotated subtree, the writes of ll_rotation hang `LL(f)` where `f` was. */
  lemma {:induction false} LLOuter(g: Links, c: Ctx, f: Shape)
    requires f.Br? && f.l.Br? && Linked(g, f) && Distinct(f)
    requires CtxLinked(g, c, At(f.h)) && CtxDistinct(c) && Handles(f) !! CtxHandles(c)
    requires f.h in g.parent && (c == Top <==> g.parent[f.h] == Null)
    requires Rooted(g, Plug(c, f))
    ensures g.parent[f.h].At? ==> g.parent[f.h].h in g.left && g.parent[f.h].h !in Handles(f)
    ensures f.l.h in g.right
    ensures CtxLinked(LLLinks(g, f.h), c, At(f.l.h)) && Rooted(LLLinks(g, f.h), Plug(c, LL(f)))
  {
    var Br(Br(bl, b, br), a, ar) := f;
    assert Linked(g, Br(bl, b, br));
    var g1 := LLLinks(g, a);
    if c != Top {
      assert b !in CtxHandles(c) && a !in CtxHandles(c);
      assert br.Br? ==> br.h in Handles(f);
      CtxRetarget(g, g1, c, At(a), At(b));
      PlugRoot(c, f, LL(f));
    }
  }

  /** Above the rotated subtree, the writes of rr_rotation hang `RR(f)` where `f` was. */
  lemma {:induction false} RROuter(g: Links, c: Ctx, f: Shape)
    requires f.Br? && f.r.Br? && Linked(g, f) && Distinct(f)
    requires CtxLinked(g, c, At(f.h)) && CtxDistinct(c) && Handles(f) !! CtxHandles(c)
    requires f.h in g.parent && (c == Top <==> g.parent[f.h] == Null)
    requires Rooted(g, Plug(c, f))
    ensures g.parent[f.h].At? ==> g.parent[f.h].h in g.right && g.parent[f.h].h !in Handles(f)
    ensures f.r.h in g.left
    ensures CtxLinked(RRLinks(g, f.h), c, At(f.r.h)) && Rooted(RRLinks(g, f.h), Plug(c, RR(f)))
  {
    var Br(al, a, Br(bl, b, br)) := f;
    assert Linked(g, Br(bl, b, br));
    var g1 := RRLinks(g, a);
    if c != Top {
      assert b !in CtxHandles(c) && a !in CtxHandles(c);
      assert bl.Br? ==> bl.h in Handles(f);
      CtxRetarget(g, g1, c, At(a), At(b));
      PlugRoot(c, f, RR(f));
    }
  }

  /** A node's parent pointer is null exactly at the root of the whole tree. */
  lemma {:induction false} ParentOfFocus(g: Links, c: Ctx, f: Shape)
    requires f.Br? && Linked(g, Plug(c, f)) && Distinct(Plug(c, f)) && Rooted(g, Plug(c, f))
    ensures Linked(g, f) && Distinct(f) && CtxLinked(g, c, At(f.h)) && CtxDistinct(c) && Handles(f) !! CtxHandles(c)
    ensures f.h in g.parent && (c == Top <==> g.parent[f.h] == Null)
  {
    LinkedPlug(g, c, f);
    PlugDistinct(c, f);
    PlugHandles(c, f);
  }

  /** ll_rotation at the node of `f`, at path `c`, turns the arena into one for `Plug(c, LL(f))`. */
  lemma {:induction false} LLRelinked(g: Links, c: Ctx, f: Shape)
    requires f.Br? && f.l.Br? && Linked(g, Plug(c, f)) && Distinct(Plug(c, f)) && Rooted(g, Plug(c, f))
    ensures f.h in g.left && f.h in g.parent && g.left[f.h] == At(f.l.h) && f.l.h in g.right
    ensures f.l.h in g.left && g.left[f.l.h] == PtrOf(f.l.l) && g.right[f.l.h] == PtrOf(f.l.r)
    ensures f.h in g.right && g.right[f.h] == PtrOf(f.r)
    ensures g.parent[f.h].At? ==> g.parent[f.h].h in g.left
    ensures g.parent[f.h].At? <==> c != Top
    ensures Linked(LLLinks(g, f.h), Plug(c, LL(f))) && Rooted(LLLinks(g, f.h), Plug(c, LL(f)))
    ensures Moved(LLLinks(g, f.h), LL(f))
  {
    ParentOfFocus(g, c, f);
    assert Linked(g, f.l);
    LLOuter(g, c, f);
    LLInner(g, f);
    LinkedPlug(LLLinks(g, f.h), c, LL(f));
  }

  /** rr_rotation at the node of `f`, at path `c`, turns the arena into one for `Plug(c, RR(f))`. */
  lemma {:induction false} RRRelinked(g: Links, c: Ctx, f: Shape)
    requires f.Br? && f.r.Br? && Linked(g, Plug(c, f)) && Distinct(Plug(c, f)) && Rooted(g, Plug(c, f))
    ensures f.h in g.right && f.h in g.parent && g.right[f.h] == At(f.r.h) && f.r.h in g.left
    ensures f.r.h in g.right && g.left[f.r.h] == PtrOf(f.r.l) && g.right[f.r.h] == PtrOf(f.r.r)
    ensures f.h in g.left && g.left[f.h] == PtrOf(f.l)
    ensures g.parent[f.h].At? ==> g.parent[f.h].h in g.right
    ensures g.parent[f.h].At? <==> c != Top
    ensures Linked(RRLinks(g, f.h), Plug(c, RR(f))) && Rooted(RRLinks(g, f.h), Plug(c, RR(f)))
    ensures Moved(RRLinks(g, f.h), RR(f))
  {
    ParentOfFocus(g, c, f);
    assert Linked(g, f.r);
    RROuter(g, c, f);
    RRInner(g, f);
    LinkedPlug(RRLinks(g, f.h), c, RR(f));
  }

  /**
   * Everything a rotation method needs about ll_rotation at the node of
   * `f`, at path `c`: the pointers it reads are there, and its writes turn
   * the arena into one for `Plug(c, LL(f))`, a tree with the same nodes in
   * the same order, without touching the set of nodes that have pointers.
   */
  lemma {:induction false} LLRotated(g: Links, c: Ctx, f: Shape)
    requires f.Br? && f.l.Br? && Linked(g, Plug(c, f)) && Distinct(Plug(c, f)) && Rooted(g, Plug(c, f))
    requires Handles(Plug(c, f)) <= g.left.Keys && Handles(Plug(c, f)) <= g.right.Keys && Handles(Plug(c, f)) <= g.parent.Keys
    ensures f.h in g.left && f.h in g.parent && g.left[f.h] == At(f.l.h) && f.l.h in g.right
    ensures g.parent[f.h].At? ==> g.parent[f.h].h in g.left && g.parent[f.h].h in Handles(Plug(c, f))
    ensures g.parent[f.h].Null? <==> c == Top
    ensures f.h in Handles(Plug(c, f)) && f.l.h in Handles(Plug(c, f))
    ensures var g1, t1 := LLLinks(g, f.h), Plug(c, LL(f));
            Linked(g1, t1) && Rooted(g1, t1) && Moved(g1, LL(f)) && Distinct(t1)
            && Handles(t1) == Handles(Plug(c, f)) && In(t1) == In(Plug(c, f))
            && t1.h == (if c == Top then f.l.h else Plug(c, f).h)
            && g1.left.Keys == g.left.Keys && g1.right.Keys == g.right.Keys && g1.parent.Keys == g.parent.Keys
  {
    LLRelinked(g, c, f);
    ParentOfFocus(g, c, f);
    PlugHandles(c, f);
    PlugHandles(c, LL(f));
    SubtreeRoots(f);
    SubtreeRoots(f.l);
    LLKeeps(f);
    PlugDistinct(c, LL(f));
    PlugIn(c, f);
    PlugIn(c, LL(f));
    if c != Top {
      PlugRoot(c, f, LL(f));
      assert g.parent[f.h] == At(c.p);
    }
    LLKeys(g, f.h);
  }

  /** The mirror image of LLRotated for rr_rotation. */
  lemma {:induction false} RRRotated(g: Links, c: Ctx, f: Shape)
    requires f.Br? && f.r.Br? && Linked(g, Plug(c, f)) && Distinct(Plug(c, f)) && Rooted(g, Plug(c, f))
    requires Handles(Plug(c, f)) <= g.left.Keys && Handles(Plug(c, f)) <= g.right.Keys && Handles(Plug(c, f)) <= g.parent.Keys
    ensures f.h in g.right && f.h in g.parent && g.right[f.h] == At(f.r.h) && f.r.h in g.left
    ensures g.parent[f.h].At? ==> g.parent[f.h].h in g.right && g.parent[f.h].h in Handles(Plug(c, f))
    ensures g.parent[f.h].Null? <==> c == Top
    ensures f.h in Handles(Plug(c, f)) && f.r.h in Handles(Plug(c, f))
    ensures var g1, t1 := RRLinks(g, f.h), Plug(c, RR(f));
            Linked(g1, t1) && Rooted(g1, t1) && Moved(g1, RR(f)) && Distinct(t1)
            && Handles(t1) == Handles(Plug(c, f)) && In(t1) == In(Plug(c, f))
            && t1.h == (if c == Top then f.r.h else Plug(c, f).h)
            && g1.left.Keys == g.left.Keys && g1.right.Keys == g.right.Keys && g1.parent.Keys == g.parent.Keys
  {
    RRRelinked(g, c, f);
    ParentOfFocus(g, c, f);
    PlugHandles(c, f);
    PlugHandles(c, RR(f));
    SubtreeRoots(f);
    SubtreeRoots(f.r);
    RRKeeps(f);
    PlugDistinct(c, RR(f));
    PlugIn(c, f);
    PlugIn(c, RR(f));
    if c != Top {
      PlugRoot(c, f, RR(f));
      assert g.parent[f.h] == At(c.p);
    }
    RRKeys(g, f.h);
  }

  /** ll_rotation's two recounted nodes and their new children have a subtree size. */
  ghost predicate LLSized(cs: map<Handle, int>, f: Shape)
  {
    f.Br? && f.l.Br? && f.h in cs && f.l.h in cs
    && (f.l.l.Br? ==> f.l.l.h in cs) && (f.l.r.Br? ==> f.l.r.h in cs) && (f.r.Br? ==> f.r.h in cs)
  }

  /** rr_rotation's two recounted nodes and their new children have a subtree size. */
  ghost predicate RRSized(cs: map<Handle, int>, f: Shape)
  {
    f.Br? && f.r.Br? && f.h in cs && f.r.h in cs
    && (f.r.l.Br? ==> f.r.l.h in cs) && (f.r.r.Br? ==> f.r.r.h in cs) && (f.l.Br? ==> f.l.h in cs)
  }

  /**
   * The subtree sizes after ll_rotation's two update_children calls: on
   * the node of `f`, then on its former left child, once each has its
   * children of `LL(f)`.
   */
  ghost function LLCounts(cs: map<Handle, int>, f: Shape): map<Handle, int>
    requires LLSized(cs, f)
  {
    var cs1 := Recount(cs, f.h, PtrOf(f.l.r), PtrOf(f.r));
    Recount(cs1, f.l.h, PtrOf(f.l.l), At(f.h))
  }

  /** The subtree sizes after rr_rotation's two update_children calls. */
  ghost function RRCounts(cs: map<Handle, int>, f: Shape): map<Handle, int>
    requires RRSized(cs, f)
  {
    var cs1 := Recount(cs, f.h, PtrOf(f.l), PtrOf(f.r.l));
    Recount(cs1, f.r.h, At(f.h), PtrOf(f.r.r))
  }

  /** Within the rotated subtree: the two recounts make `LL(f)` counted. */
  lemma {:induction false} LLSubRecount(cs: map<Handle, int>, f: Shape)
    requires f.Br? && f.l.Br? && Counted(cs, f) && Distinct(f)
    ensures LLSized(cs, f)
    ensures Counted(LLCounts(cs, f), LL(f)) && LLCounts(cs, f).Keys == cs.Keys
  {
    var Br(Br(bl, b, br), a, ar) := f;
    assert a !in Handles(bl) && a !in Handles(br) && a !in Handles(ar);
    assert b !in Handles(bl) && b !in Handles(br) && b !in Handles(ar) && b != a;
    assert Counted(cs, bl) && Counted(cs, br) && Counted(cs, ar);
    LLSubCounts(cs, bl, b, br, a, ar);
  }

  /** LLSubRecount on the five parts of the subtree. */
  lemma {:induction false} LLSubCounts(cs: map<Handle, int>, bl: Shape, b: Handle, br: Shape, a: Handle, ar: Shape)
    requires Counted(cs, bl) && Counted(cs, br) && Counted(cs, ar) && a in cs && b in cs
    requires a !in Handles(bl) && a !in Handles(br) && a !in Handles(ar)
    requires b !in Handles(bl) && b !in Handles(br) && b !in Handles(ar) && b != a
    ensures var f := Br(Br(bl, b, br), a, ar);
            (bl.Br? ==> bl.h in cs) && (br.Br? ==> br.h in cs) && (ar.Br? ==> ar.h in cs)
            && Counted(LLCounts(cs, f), Br(bl, b, Br(br, a, ar))) && LLCounts(cs, f).Keys == cs.Keys
  {
    UpdateCounted(cs, br, a, ar);
    var cs1 := Recount(cs, a, PtrOf(br), PtrOf(ar));
    CountedFresh(cs, bl, a, cs1[a]);
    UpdateCounted(cs1, bl, b, Br(br, a, ar));
    assert PtrOf(Br(br, a, ar)) == At(a);
  }

  /** Within the rotated subtree: the two recounts make `RR(f)` counted. */
  lemma {:induction false} RRSubRecount(cs: map<Handle, int>, f: Shape)
    requires f.Br? && f.r.Br? && Counted(cs, f) && Distinct(f)
    ensures RRSized(cs, f)
    ensures Counted(RRCounts(cs, f), RR(f)) && RRCounts(cs, f).Keys == cs.Keys
  {
    var Br(al, a, Br(bl, b, br)) := f;
    assert a !in Handles(al) && a !in Handles(bl) && a !in Handles(br);
    assert b !in Handles(al) && b !in Handles(bl) && b !in Handles(br) && b != a;
    assert Counted(cs, al) && Counted(cs, bl) && Counted(cs, br);
    RRSubCounts(cs, al, a, bl, b, br);
  }

  /** RRSubRecount on the five parts of the subtree. */
  lemma {:induction false} RRSubCounts(cs: map<Handle, int>, al: Shape, a: Handle, bl: Shape, b: Handle, br: Shape)
    requires Counted(cs, al) && Counted(cs, bl) && Counted(cs, br) && a in cs && b in cs
    requires a !in Handles(al) && a !in Handles(bl) && a !in Handles(br)
    requires b !in Handles(al) && b !in Handles(bl) && b !in Handles(br) && b != a
    ensures var f := Br(al, a, Br(bl, b, br));
            (al.Br? ==> al.h in cs) && (bl.Br? ==> bl.h in cs) && (br.Br? ==> br.h in cs)
            && Counted(RRCounts(cs, f), Br(Br(al, a, bl), b, br)) && RRCounts(cs, f).Keys == cs.Keys
  {
    UpdateCounted(cs, al, a, bl);
    var cs1 := Recount(cs, a, PtrOf(al), PtrOf(bl));
    CountedFresh(cs, br, a, cs1[a]);
    UpdateCounted(cs1, Br(al, a, bl), b, br);
    assert PtrOf(Br(al, a, bl)) == At(a);
  }

  /**
   * After ll_rotation, update_children on the old node and then on its
   * former left child leaves every subtree size right.
   */
  lemma {:induction false} LLRecount(cs: map<Handle, int>, c: Ctx, f: Shape)
    requires f.Br? && f.l.Br? && Counted(cs, Plug(c, f)) && Distinct(Plug(c, f))
    ensures LLSized(cs, f)
    ensures Counted(LLCounts(cs, f), Plug(c, LL(f))) && LLCounts(cs, f).Keys == cs.Keys
  {
    CountedPlug(cs, c, f);
    PlugDistinct(c, f);
    LLSubRecount(cs, f);
    CtxCountedFrame(cs, LLCounts(cs, f), c, Size(f));
    CountedPlug(LLCounts(cs, f), c, LL(f));
  }

  /** The mirror image of LLRecount for rr_rotation. */
  lemma {:induction false} RRRecount(cs: map<Handle, int>, c: Ctx, f: Shape)
    requires f.Br? && f.r.Br? && Counted(cs, Plug(c, f)) && Distinct(Plug(c, f))
    ensures RRSized(cs, f)
    ensures Counted(RRCounts(cs, f), Plug(c, RR(f))) && RRCounts(cs, f).Keys == cs.Keys
  {
    CountedPlug(cs, c, f);
    PlugDistinct(c, f);
    RRSubRecount(cs, f);
    CtxCountedFrame(cs, RRCounts(cs, f), c, Size(f));
    CountedPlug(RRCounts(cs, f), c, RR(f));
  }
}
