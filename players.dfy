/**
 * The upside-down trees of players (Player.cpp). Every player points to
 * its parent, and a team's players hang below one root. Two values are
 * kept relative to the chain above a player: the games counter, whose sum
 * from the player up to the root (root included) is what the player has
 * played so far, and the partial spirit, whose product from the root down
 * to the player (ancestors on the left) is the spirit of the team members
 * who joined before it, itself included. Path compression and the union of
 * two teams rewrite those local values so that both folds are kept.
 *
 * The players live in an arena of maps keyed by a handle. The ghost `lvl` only serves termination: a parent always has a
 * smaller level than its child.
 */
module UnionFind {
  import opened Common
  import opened Spirit

  /** The fields of a `Player` that no fold reads. */
  datatype Info<G> = Info(id: int, ability: int, cards: int, goalkeeper: bool, spirit: G)

  /**
   * The players: one map per field the union-find reads or rewrites, the
   * remaining fields together, and the next free handle.
   */
  datatype Forest<G> = Forest(
    parent: map<Handle, Ptr>, games: map<Handle, int>, partial: map<Handle, G>, team: map<Handle, Ptr>,
    info: map<Handle, Info<G>>, next: Handle)

  /** Parent links stay inside the arena and lead to a strictly smaller level, so every chain ends at a root. */
  ghost predicate Ranked(par: map<Handle, Ptr>, lvl: map<Handle, nat>)
  {
    forall h {:trigger par[h]} | h in par :: h in lvl && (par[h].At? ==> par[h].h in par && par[h].h in lvl && lvl[par[h].h] < lvl[h])
  }

  /** The root of the tree holding `x`. */
  ghost function Root(par: map<Handle, Ptr>, lvl: map<Handle, nat>, x: Handle): (r: Handle)
    requires Ranked(par, lvl) && x in par
    ensures r in par && par[r].Null?
    decreases lvl[x]
  {
    if par[x].Null? then x else Root(par, lvl, par[x].h)
  }

  /** `h` lies on the chain from `x` up to its root, both ends included. */
  ghost predicate OnPath(par: map<Handle, Ptr>, lvl: map<Handle, nat>, x: Handle, h: Handle)
    requires Ranked(par, lvl) && x in par
    decreases lvl[x]
  {
    x == h || (par[x].At? && OnPath(par, lvl, par[x].h, h))
  }

  /** The games a player has played: the counters from it up to the root, root included. */
  ghost function Sum(par: map<Handle, Ptr>, games: map<Handle, int>, lvl: map<Handle, nat>, x: Handle): int
    requires Ranked(par, lvl) && x in par && par.Keys <= games.Keys
    decreases lvl[x]
  {
    games[x] + if par[x].Null? then 0 else Sum(par, games, lvl, par[x].h)
  }

  /** The counters from `x` up to the root, root excluded: what find_update_games returns. */
  ghost function Above(par: map<Handle, Ptr>, games: map<Handle, int>, lvl: map<Handle, nat>, x: Handle): int
    requires Ranked(par, lvl) && x in par && par.Keys <= games.Keys
    decreases lvl[x]
  {
    if par[x].Null? then 0 else games[x] + Above(par, games, lvl, par[x].h)
  }

  /** A player's spirit so far: the partial spirits from the root down to it, the root's on the left. */
  ghost function Prod<G>(ops: Perm<G>, par: map<Handle, Ptr>, ps: map<Handle, G>, lvl: map<Handle, nat>, x: Handle): G
    requires Ranked(par, lvl) && x in par && par.Keys <= ps.Keys
    decreases lvl[x]
  {
    if par[x].Null? then ps[x] else ops.mul(Prod(ops, par, ps, lvl, par[x].h), ps[x])
  }

  /**
   * The partial spirits from the root's child down to `x` (just `x`'s own
   * at a root or a root's child): what find_update_partial_spirit returns.
   */
  ghost function Low<G>(ops: Perm<G>, par: map<Handle, Ptr>, ps: map<Handle, G>, lvl: map<Handle, nat>, x: Handle): G
    requires Ranked(par, lvl) && x in par && par.Keys <= ps.Keys
    decreases lvl[x]
  {
    if par[x].Null? || par[par[x].h].Null? then ps[x] else ops.mul(Low(ops, par, ps, lvl, par[x].h), ps[x])
  }

  /** The counters after find_update_games(x): each non-root node of the path holds its sum below the root. */
  ghost function GamesAfter(par: map<Handle, Ptr>, games: map<Handle, int>, lvl: map<Handle, nat>, x: Handle): map<Handle, int>
    requires Ranked(par, lvl) && x in par && par.Keys <= games.Keys
  {
    map h | h in games :: if h in par && par[h].At? && OnPath(par, lvl, x, h) then Above(par, games, lvl, h) else games[h]
  }

  /** The partial spirits after find_update_partial_spirit(x): each node of the path holds its product below the root. */
  ghost function PartialAfter<G>(ops: Perm<G>, par: map<Handle, Ptr>, ps: map<Handle, G>, lvl: map<Handle, nat>, x: Handle): map<Handle, G>
    requires Ranked(par, lvl) && x in par && par.Keys <= ps.Keys
  {
    map h | h in ps :: if h in par && OnPath(par, lvl, x, h) then Low(ops, par, ps, lvl, h) else ps[h]
  }

  /** The parent links after path compression from `x`: every non-root node of the path points to the root. */
  ghost function ParentsAfter(par: map<Handle, Ptr>, lvl: map<Handle, nat>, x: Handle): map<Handle, Ptr>
    requires Ranked(par, lvl) && x in par
  {
    map h | h in par :: if par[h].At? && OnPath(par, lvl, x, h) then At(Root(par, lvl, x)) else par[h]
  }

  /**
   * The parent links after find_update_parents(x) as Player.cpp:134-141
   * writes it: the base case returns `this`, the player find started
   * from, so every non-root node of the path is made to point to `x`.
   */
  ghost function ParentsAsWritten(par: map<Handle, Ptr>, lvl: map<Handle, nat>, x: Handle): map<Handle, Ptr>
    requires Ranked(par, lvl) && x in par
  {
    map h | h in par :: if par[h].At? && OnPath(par, lvl, x, h) then At(x) else par[h]
  }

  // ---------------------------------------------------------------------------
  // Facts about the folds
  // ---------------------------------------------------------------------------

  /** Every node of the path from `x` sits at a level no higher than `x`'s. */
  lemma {:induction false} OnPathLevel(par: map<Handle, Ptr>, lvl: map<Handle, nat>, x: Handle, h: Handle)
    requires Ranked(par, lvl) && x in par && OnPath(par, lvl, x, h)
    ensures h in par && lvl[h] <= lvl[x] && Root(par, lvl, h) == Root(par, lvl, x)
    decreases lvl[x]
  {
    if x != h {
      OnPathLevel(par, lvl, par[x].h, h);
    }
  }

  /** A root sits at a lower level than every other node of its tree. */
  lemma {:induction false} RootLevel(par: map<Handle, Ptr>, lvl: map<Handle, nat>, x: Handle)
    requires Ranked(par, lvl) && x in par && par[x].At?
    ensures lvl[Root(par, lvl, x)] < lvl[x] && Root(par, lvl, x) != x
    decreases lvl[x]
  {
    var p := par[x].h;
    if par[p].At? {
      RootLevel(par, lvl, p);
    }
  }

  /** The games fold is the sum below the root plus the root's own counter. */
  lemma {:induction false} SumAbove(par: map<Handle, Ptr>, games: map<Handle, int>, lvl: map<Handle, nat>, x: Handle)
    requires Ranked(par, lvl) && x in par && par.Keys <= games.Keys
    ensures Sum(par, games, lvl, x) == Above(par, games, lvl, x) + games[Root(par, lvl, x)]
    decreases lvl[x]
  {
    if par[x].At? {
      SumAbove(par, games, lvl, par[x].h);
    }
  }

  /** Below the root, the spirit fold is the root's partial spirit composed with the product below it. */
  lemma {:induction false} ProdLow<G(!new)>(ops: Perm<G>, par: map<Handle, Ptr>, ps: map<Handle, G>, lvl: map<Handle, nat>, x: Handle)
    requires IsGroup(ops) && Ranked(par, lvl) && x in par && par.Keys <= ps.Keys && par[x].At?
    ensures Prod(ops, par, ps, lvl, x) == ops.mul(ps[Root(par, lvl, x)], Low(ops, par, ps, lvl, x))
    decreases lvl[x]
  {
    var p := par[x].h;
    if par[p].At? {
      ProdLow(ops, par, ps, lvl, p);
      var r, lo := ps[Root(par, lvl, p)], Low(ops, par, ps, lvl, p);
      assert ops.mul(ops.mul(r, lo), ps[x]) == ops.mul(r, ops.mul(lo, ps[x]));
    }
  }

  /** update_gamesPlayed(g) on `x` adds `g` to the fold of exactly the players whose chain passes through `x`. */
  lemma {:induction false} AddGamesSum(par: map<Handle, Ptr>, games: map<Handle, int>, lvl: map<Handle, nat>, x: Handle, g: int, h: Handle)
    requires Ranked(par, lvl) && x in par && h in par && par.Keys <= games.Keys
    ensures Sum(par, games[x := games[x] + g], lvl, h) == Sum(par, games, lvl, h) + (if OnPath(par, lvl, h, x) then g else 0)
    decreases lvl[h]
  {
    if par[h].At? {
      AddGamesSum(par, games, lvl, x, g, par[h].h);
      if h == x {
        if OnPath(par, lvl, par[h].h, x) {
          OnPathLevel(par, lvl, par[h].h, x);
        }
      }
    }
  }

  /** A player is out of the game once the root of its tree has no team: every player of that tree is. */
  ghost predicate KickedOut(par: map<Handle, Ptr>, team: map<Handle, Ptr>, lvl: map<Handle, nat>, x: Handle)
    requires Ranked(par, lvl) && x in par && par.Keys <= team.Keys
  {
    team[Root(par, lvl, x)].Null?
  }

  /** detach on a root puts every player of its tree out of the game, and no other player. */
  lemma {:induction false} DetachKicksOut(par: map<Handle, Ptr>, team: map<Handle, Ptr>, lvl: map<Handle, nat>, r: Handle, h: Handle)
    requires Ranked(par, lvl) && r in par && par[r].Null? && h in par && par.Keys <= team.Keys
    ensures KickedOut(par, team[r := Null], lvl, h) <==> Root(par, lvl, h) == r || KickedOut(par, team, lvl, h)
  {
  }

  // ---------------------------------------------------------------------------
  // Path compression keeps every fold
  // ---------------------------------------------------------------------------

  /** After compression from `x` the links are still ranked by the same levels. */
  lemma {:induction false} FindRanked(par: map<Handle, Ptr>, lvl: map<Handle, nat>, x: Handle)
    requires Ranked(par, lvl) && x in par
    ensures Ranked(ParentsAfter(par, lvl, x), lvl)
  {
    var par' := ParentsAfter(par, lvl, x);
    forall h | h in par' && par'[h].At?
      ensures par'[h].h in par' && lvl[par'[h].h] < lvl[h]
    {
      if OnPath(par, lvl, x, h) {
        OnPathLevel(par, lvl, x, h);
        RootLevel(par, lvl, h);
      }
    }
  }

  /** Compression changes no player's root. */
  lemma {:induction false} FindRoots(par: map<Handle, Ptr>, lvl: map<Handle, nat>, x: Handle, h: Handle)
    requires Ranked(par, lvl) && x in par && h in par
    ensures Ranked(ParentsAfter(par, lvl, x), lvl)
    ensures Root(ParentsAfter(par, lvl, x), lvl, h) == Root(par, lvl, h)
    decreases lvl[h]
  {
    FindRanked(par, lvl, x);
    var par' := ParentsAfter(par, lvl, x);
    if par[h].At? {
      if OnPath(par, lvl, x, h) {
        OnPathLevel(par, lvl, x, h);
        var r := Root(par, lvl, x);
        assert par'[r] == Null;
      } else {
        FindRoots(par, lvl, x, par[h].h);
      }
    }
  }

  /** find keeps every player's games fold: compression with the rewritten counters. */
  lemma {:induction false} FindSums(par: map<Handle, Ptr>, games: map<Handle, int>, lvl: map<Handle, nat>, x: Handle, h: Handle)
    requires Ranked(par, lvl) && x in par && h in par && par.Keys <= games.Keys
    ensures Ranked(ParentsAfter(par, lvl, x), lvl)
    ensures Sum(ParentsAfter(par, lvl, x), GamesAfter(par, games, lvl, x), lvl, h) == Sum(par, games, lvl, h)
    decreases lvl[h]
  {
    FindRanked(par, lvl, x);
    var par', games' := ParentsAfter(par, lvl, x), GamesAfter(par, games, lvl, x);
    if par[h].At? {
      if OnPath(par, lvl, x, h) {
        OnPathLevel(par, lvl, x, h);
        var r := Root(par, lvl, x);
        assert par'[r] == Null && games'[r] == games[r];
        SumAbove(par, games, lvl, h);
      } else {
        FindSums(par, games, lvl, x, par[h].h);
      }
    }
  }

  /** find keeps every player's spirit fold: compression with the rewritten partial spirits. */
  lemma {:induction false} FindProds<G(!new)>(ops: Perm<G>, par: map<Handle, Ptr>, ps: map<Handle, G>, lvl: map<Handle, nat>, x: Handle, h: Handle)
    requires IsGroup(ops) && Ranked(par, lvl) && x in par && h in par && par.Keys <= ps.Keys
    ensures Ranked(ParentsAfter(par, lvl, x), lvl)
    ensures Prod(ops, ParentsAfter(par, lvl, x), PartialAfter(ops, par, ps, lvl, x), lvl, h) == Prod(ops, par, ps, lvl, h)
    decreases lvl[h]
  {
    FindRanked(par, lvl, x);
    var par', ps' := ParentsAfter(par, lvl, x), PartialAfter(ops, par, ps, lvl, x);
    if par[h].At? {
      if OnPath(par, lvl, x, h) {
        OnPathLevel(par, lvl, x, h);
        var r := Root(par, lvl, x);
        assert OnPath(par, lvl, x, r) by { RootOnPath(par, lvl, x); }
        assert par'[r] == Null && ps'[r] == ps[r];
        ProdLow(ops, par, ps, lvl, h);
      } else {
        FindProds(ops, par, ps, lvl, x, par[h].h);
      }
    }
  }

  /** The root ends every path. */
  lemma {:induction false} RootOnPath(par: map<Handle, Ptr>, lvl: map<Handle, nat>, x: Handle)
    requires Ranked(par, lvl) && x in par
    ensures OnPath(par, lvl, x, Root(par, lvl, x))
    decreases lvl[x]
  {
    if par[x].At? {
      RootOnPath(par, lvl, par[x].h);
    }
  }

  /**
   * find_update_parents as written loses the root: after compression from
   * a player below a root's child, that player is its own parent, and no
   * ranking of the links exists any more.
   */
  lemma {:induction false} ParentsAsWrittenLoops(par: map<Handle, Ptr>, lvl: map<Handle, nat>, x: Handle, lvl': map<Handle, nat>)
    requires Ranked(par, lvl) && x in par && par[x].At?
    ensures ParentsAsWritten(par, lvl, x)[x] == At(x)
    ensures !Ranked(ParentsAsWritten(par, lvl, x), lvl')
  {
    var par' := ParentsAsWritten(par, lvl, x);
    assert par'[x] == At(x);
  }

  // ---------------------------------------------------------------------------
  // The union of two teams' trees
  // ---------------------------------------------------------------------------

  /** Raises every level except the new root's above it, so `loser` may hang below `winner`. */
  ghost function Bump(lvl: map<Handle, nat>, winner: Handle): map<Handle, nat>
    requires winner in lvl
  {
    map h | h in lvl :: if h == winner then lvl[h] else lvl[h] + lvl[winner] + 1
  }

  /** The root that players_union returns: none when a side is empty, else the larger team's (the buyer's on a tie). */
  function UnionRoot(a: Handle, b: Handle, na: int, nb: int): (r: Ptr)
    ensures r.Null? <==> na == 0 || nb == 0
    ensures r.At? ==> (r.h == a && na >= nb) || (r.h == b && na < nb)
  {
    if na == 0 || nb == 0 then Null else if na >= nb then At(a) else At(b)
  }

  /**
   * The fields after players_union, `a` being the buyer's root, `b` the
   * bought team's and `sa` the buyer's spirit. The subordinate root's
   * counter and partial spirit are rewritten relative to its new parent;
   * in the second case the new root's partial spirit is prefixed by `sa`.
   */
  function Unite<G>(ops: Perm<G>, F: Forest<G>, a: Handle, b: Handle, na: int, nb: int, sa: G): (F': Forest<G>)
    requires a in F.games && b in F.games && a in F.partial && b in F.partial && a in F.parent && b in F.parent
  {
    if na == 0 || nb == 0 then F
    else if na >= nb then
      F.(parent := F.parent[b := At(a)],
         partial := F.partial[b := ops.mul(ops.inv(F.partial[a]), ops.mul(sa, F.partial[b]))],
         games := F.games[b := F.games[b] - F.games[a]])
    else
      var pb := ops.mul(sa, F.partial[b]);
      F.(parent := F.parent[a := At(b)],
         partial := F.partial[b := pb][a := ops.mul(ops.inv(pb), F.partial[a])],
         games := F.games[a := F.games[a] - F.games[b]])
  }

  /** The partial spirit players_union gives the new root `b` at Player.cpp:165, as written: from the buyer root's partial. */
  function UnitePartialAsWritten<G>(ops: Perm<G>, ps: map<Handle, G>, a: Handle, b: Handle, sa: G): (ps': map<Handle, G>)
    requires a in ps && b in ps
    ensures ps'.Keys == ps.Keys
  {
    var pb := ops.mul(sa, ps[a]);
    ps[b := pb][a := ops.mul(ops.inv(pb), ps[a])]
  }

  /**
   * With the line as written, the bought team's root gets the buyer's
   * spirit in front of its own fold only when both roots already had the
   * same partial spirit: any two roots with different partial spirits show
   * the discrepancy.
   */
  lemma {:induction false} UnitePartialAsWrittenWrong<G(!new)>(ops: Perm<G>, par: map<Handle, Ptr>, ps: map<Handle, G>, lvl: map<Handle, nat>,
                                            a: Handle, b: Handle, sa: G)
    requires IsGroup(ops) && Ranked(par, lvl) && a in par && b in par && a != b && par[a].Null? && par[b].Null?
    requires par.Keys <= ps.Keys
    ensures Ranked(par[a := At(b)], Bump(lvl, b))
    ensures Prod(ops, par[a := At(b)], UnitePartialAsWritten(ops, ps, a, b, sa), Bump(lvl, b), b) == ops.mul(sa, Prod(ops, par, ps, lvl, b))
            <==> ps[a] == ps[b]
  {
    UniteRanked(par, lvl, b, a);
    if ops.mul(sa, ps[a]) == ops.mul(sa, ps[b]) {
      Cancel(ops, sa, ps[a]);
      Cancel(ops, sa, ps[b]);
    }
  }

  /** The two cases of Unite, spelt out as players_union writes them. */
  lemma {:induction false} UniteCases<G>(ops: Perm<G>, F: Forest<G>, a: Handle, b: Handle, na: int, nb: int, sa: G)
    requires a in F.games && b in F.games && a in F.partial && b in F.partial && a in F.parent && b in F.parent
    requires na != 0 && nb != 0
    ensures na >= nb ==>
      Unite(ops, F, a, b, na, nb, sa)
      == F.(parent := F.parent[b := At(a)],
            partial := F.partial[b := ops.mul(ops.inv(F.partial[a]), ops.mul(sa, F.partial[b]))],
            games := F.games[b := F.games[b] - F.games[a]])
    ensures na < nb ==>
      Unite(ops, F, a, b, na, nb, sa)
      == (var pb := ops.mul(sa, F.partial[b]);
          F.(parent := F.parent[a := At(b)],
             partial := F.partial[b := pb][a := ops.mul(ops.inv(pb), F.partial[a])],
             games := F.games[a := F.games[a] - F.games[b]]))
  {
  }

  /** After the union the links are ranked by the raised levels. */
  lemma {:induction false} UniteRanked(par: map<Handle, Ptr>, lvl: map<Handle, nat>, winner: Handle, loser: Handle)
    requires Ranked(par, lvl) && winner in par && loser in par && winner != loser && par[winner].Null?
    ensures Ranked(par[loser := At(winner)], Bump(lvl, winner))
  {
  }

  /** After the union, the loser's players have the winner as root; every other root stays. */
  lemma {:induction false} UniteRoots(par: map<Handle, Ptr>, lvl: map<Handle, nat>, winner: Handle, loser: Handle, h: Handle)
    requires Ranked(par, lvl) && winner in par && loser in par && winner != loser && par[winner].Null? && par[loser].Null?
    requires h in par
    ensures Ranked(par[loser := At(winner)], Bump(lvl, winner))
    ensures Root(par[loser := At(winner)], Bump(lvl, winner), h) == if Root(par, lvl, h) == loser then winner else Root(par, lvl, h)
    decreases lvl[h]
  {
    UniteRanked(par, lvl, winner, loser);
    if par[h].At? {
      UniteRoots(par, lvl, winner, loser, par[h].h);
    }
  }

  /** players_union keeps every player's games fold. */
  lemma {:induction false} UniteSums<G>(ops: Perm<G>, F: Forest<G>, lvl: map<Handle, nat>, a: Handle, b: Handle, na: int, nb: int, sa: G, h: Handle)
    requires Ranked(F.parent, lvl) && F.parent.Keys <= F.games.Keys && F.parent.Keys <= F.partial.Keys
    requires a in F.parent && b in F.parent && a != b && F.parent[a].Null? && F.parent[b].Null? && h in F.parent
    requires na != 0 && nb != 0
    ensures Ranked(Unite(ops, F, a, b, na, nb, sa).parent, Bump(lvl, if na >= nb then a else b))
    ensures Sum(Unite(ops, F, a, b, na, nb, sa).parent, Unite(ops, F, a, b, na, nb, sa).games,
                Bump(lvl, if na >= nb then a else b), h) == Sum(F.parent, F.games, lvl, h)
    decreases lvl[h]
  {
    var w, l := if na >= nb then a else b, if na >= nb then b else a;
    UniteRanked(F.parent, lvl, w, l);
    var F' := Unite(ops, F, a, b, na, nb, sa);
    assert F'.parent == F.parent[l := At(w)];
    if F.parent[h].At? {
      UniteSums(ops, F, lvl, a, b, na, nb, sa, F.parent[h].h);
    } else if h == l {
      assert F'.parent[w].Null?;
    }
  }

  /** players_union puts the buyer's spirit in front of the fold of every player of the bought team and keeps the buyer's. */
  lemma {:induction false} UniteProds<G(!new)>(ops: Perm<G>, F: Forest<G>, lvl: map<Handle, nat>, a: Handle, b: Handle, na: int, nb: int, sa: G, h: Handle)
    requires IsGroup(ops)
    requires Ranked(F.parent, lvl) && F.parent.Keys <= F.games.Keys && F.parent.Keys <= F.partial.Keys
    requires a in F.parent && b in F.parent && a != b && F.parent[a].Null? && F.parent[b].Null? && h in F.parent
    requires na != 0 && nb != 0
    ensures Ranked(Unite(ops, F, a, b, na, nb, sa).parent, Bump(lvl, if na >= nb then a else b))
    ensures Prod(ops, Unite(ops, F, a, b, na, nb, sa).parent, Unite(ops, F, a, b, na, nb, sa).partial,
                 Bump(lvl, if na >= nb then a else b), h)
            == if Root(F.parent, lvl, h) == b then ops.mul(sa, Prod(ops, F.parent, F.partial, lvl, h))
               else Prod(ops, F.parent, F.partial, lvl, h)
    decreases lvl[h]
  {
    var w, l := if na >= nb then a else b, if na >= nb then b else a;
    UniteRanked(F.parent, lvl, w, l);
    var F' := Unite(ops, F, a, b, na, nb, sa);
    var lvl' := Bump(lvl, w);
    assert F'.parent == F.parent[l := At(w)];
    if F.parent[h].At? {
      var p := F.parent[h].h;
      UniteProds(ops, F, lvl, a, b, na, nb, sa, p);
      assert F'.partial[h] == F.partial[h];
      if Root(F.parent, lvl, h) == b {
        var q := Prod(ops, F.parent, F.partial, lvl, p);
        assert ops.mul(ops.mul(sa, q), F.partial[h]) == ops.mul(sa, ops.mul(q, F.partial[h]));
      }
    } else if h == b {
      if na >= nb {
        Cancel(ops, F.partial[a], ops.mul(sa, F.partial[b]));
      }
    } else if h == a && na < nb {
      Cancel(ops, ops.mul(sa, F.partial[b]), F.partial[a]);
    }
  }

  // ---------------------------------------------------------------------------
  // The arena of players
  // ---------------------------------------------------------------------------

  class Players<G(!new)> {
    /** The operations of permutation_t. */
    const ops: Perm<G>
    var f: Forest<G>
    ghost var lvl: map<Handle, nat>

    /** Every field is held for the same players, handles below `next`, and the links are ranked. */
    ghost predicate Valid()
      reads this
    {
      Ranked(f.parent, lvl)
      && forall h | h in f.parent :: h in f.games && h in f.partial && h in f.team && h in f.info && h < f.next
    }

    /** No players yet. */
    constructor(ops: Perm<G>)
      ensures Valid() && this.ops == ops && f.parent == map[] && f.next == 0
    {
      this.ops := ops;
      f := Forest(map[], map[], map[], map[], map[], 0);
      lvl := map[];
    }

    /** Player(...): a new player with the given fields, below `parent` if there is one. */
    method NewPlayer(playerId: int, gamesPlayed: int, ability: int, cards: int, goalkeeper: bool,
                     spirit: G, partialSpirit: G, team: Ptr, parent: Ptr) returns (x: Handle)
      requires Valid() && (parent.At? ==> parent.h in f.parent)
      modifies this
      ensures Valid() && x == old(f.next) && x !in old(f.parent)
      ensures f == Forest(old(f).parent[x := parent], old(f).games[x := gamesPlayed], old(f).partial[x := partialSpirit],
                          old(f).team[x := team], old(f).info[x := Info(playerId, ability, cards, goalkeeper, spirit)], x + 1)
    {
      x := f.next;
      lvl := lvl[x := if parent.At? then lvl[parent.h] + 1 else 0];
      f := Forest(f.parent[x := parent], f.games[x := gamesPlayed], f.partial[x := partialSpirit],
                  f.team[x := team], f.info[x := Info(playerId, ability, cards, goalkeeper, spirit)], x + 1);
    }

    /** update_gamesPlayed: adds to the player's own counter. */
    method UpdateGamesPlayed(x: Handle, gamesPlayed: int)
      requires Valid() && x in f.parent
      modifies this
      ensures Valid() && lvl == old(lvl) && f == old(f).(games := old(f.games)[x := old(f.games)[x] + gamesPlayed])
    {
      f := f.(games := f.games[x := f.games[x] + gamesPlayed]);
    }

    /** update_cards: adds to the player's cards. */
    method UpdateCards(x: Handle, cardsReceived: int)
      requires Valid() && x in f.parent
      modifies this
      ensures Valid() && lvl == old(lvl)
      ensures f == old(f).(info := old(f.info)[x := old(f.info)[x].(cards := old(f.info)[x].cards + cardsReceived)])
    {
      f := f.(info := f.info[x := f.info[x].(cards := f.info[x].cards + cardsReceived)]);
    }

    /** update_team: the player's team pointer. */
    method UpdateTeam(x: Handle, team: Ptr)
      requires Valid() && x in f.parent
      modifies this
      ensures Valid() && lvl == old(lvl) && f == old(f).(team := old(f.team)[x := team])
    {
      f := f.(team := f.team[x := team]);
    }

    /** detach: the player no longer belongs to a team. */
    method Detach(x: Handle)
      requires Valid() && x in f.parent
      modifies this
      ensures Valid() && lvl == old(lvl) && f == old(f).(team := old(f.team)[x := Null])
    {
      f := f.(team := f.team[x := Null]);
    }

    /**
     * find_update_games: adds to every non-root counter on the path from
     * `x` the counters above it below the root, and returns that sum.
     */
    method FindUpdateGames(x: Handle) returns (r: int)
      requires Valid() && x in f.parent
      modifies this
      ensures Valid() && lvl == old(lvl)
      ensures r == Above(old(f).parent, old(f).games, lvl, x)
      ensures f == old(f).(games := GamesAfter(old(f).parent, old(f).games, lvl, x))
      decreases lvl[x]
    {
      ghost var F := f;
      if f.parent[x].Null? {
        GamesAtRoot(F.parent, F.games, lvl, x);
        return 0;
      }
      var s := FindUpdateGames(f.parent[x].h);
      GamesStep(F.parent, F.games, lvl, x);
      f := f.(games := f.games[x := f.games[x] + s]);
      r := f.games[x];
    }

    /**
     * find_update_partial_spirit: below the root's child, every partial
     * spirit on the path from `x` is prefixed by the one computed for its
     * parent; the result is the product from the root's child down to `x`.
     */
    method FindUpdatePartialSpirit(x: Handle) returns (r: G)
      requires Valid() && x in f.parent
      modifies this
      ensures Valid() && lvl == old(lvl)
      ensures r == Low(ops, old(f).parent, old(f).partial, lvl, x)
      ensures f == old(f).(partial := PartialAfter(ops, old(f).parent, old(f).partial, lvl, x))
      decreases lvl[x]
    {
      ghost var F := f;
      if f.parent[x].Null? || f.parent[f.parent[x].h].Null? {
        PartialAtTop(ops, F.parent, F.partial, lvl, x);
        return f.partial[x];
      }
      var s := FindUpdatePartialSpirit(f.parent[x].h);
      PartialStep(ops, F.parent, F.partial, lvl, x);
      f := f.(partial := f.partial[x := ops.mul(s, f.partial[x])]);
      r := f.partial[x];
    }

    /**
     * find_update_parents, as Player.h:138-142 documents it: every
     * non-root node of the path from `x` is linked to the root, which is
     * returned.
     */
    method FindUpdateParents(x: Handle) returns (r: Handle)
      requires Valid() && x in f.parent
      modifies this
      ensures Valid() && lvl == old(lvl)
      ensures r == Root(old(f).parent, lvl, x)
      ensures f == old(f).(parent := ParentsAfter(old(f).parent, lvl, x))
      decreases lvl[x]
    {
      ghost var F := f;
      FindRanked(F.parent, lvl, x);
      if f.parent[x].Null? {
        ParentsAtRoot(F.parent, lvl, x);
        return x;
      }
      r := FindUpdateParents(f.parent[x].h);
      ParentsStep(F.parent, lvl, x);
      f := f.(parent := f.parent[x := At(r)]);
    }

    /**
     * find: nothing to do at a root or a root's child; otherwise the three
     * passes compress the path from `x` while keeping every fold.
     */
    method Find(x: Handle)
      requires Valid() && x in f.parent
      modifies this
      ensures Valid() && lvl == old(lvl)
      ensures if old(f).parent[x].Null? || old(f).parent[old(f).parent[x].h].Null? then f == old(f)
              else f == old(f).(games := GamesAfter(old(f).parent, old(f).games, lvl, x),
                                partial := PartialAfter(ops, old(f).parent, old(f).partial, lvl, x),
                                parent := ParentsAfter(old(f).parent, lvl, x))
    {
      if f.parent[x].Null? || f.parent[f.parent[x].h].Null? {
        return;
      }
      var _ := FindUpdateGames(x);
      var _ := FindUpdatePartialSpirit(x);
      var _ := FindUpdateParents(x);
    }

    /**
     * players_union, called on the buyer's root `a` with the bought team's
     * root `b`: nothing when a side is empty; otherwise the smaller team's
     * root goes below the larger one's (the bought one's on a tie).
     * Player.cpp:165 is taken as evidently intended (the bought root's
     * own partial spirit is prefixed by the buyer's spirit).
     */
    method PlayersUnion(a: Handle, b: Handle, na: int, nb: int, sa: G, sb: G) returns (r: Ptr)
      requires Valid() && a in f.parent && b in f.parent && a != b && f.parent[a].Null? && f.parent[b].Null?
      modifies this
      ensures Valid() && r == UnionRoot(a, b, na, nb)
      ensures f == Unite(ops, old(f), a, b, na, nb, sa)
      ensures lvl == if r.Null? then old(lvl) else Bump(old(lvl), r.h)
    {
      if na == 0 || nb == 0 {
        return Null;
      }
      UniteCases(ops, f, a, b, na, nb, sa);
      if na >= nb {
        Hang(a, b, ops.mul(ops.inv(f.partial[a]), ops.mul(sa, f.partial[b])));
        return At(a);
      }
      var pb := ops.mul(sa, f.partial[b]);
      f := f.(partial := f.partial[b := pb]);
      Hang(b, a, ops.mul(ops.inv(pb), f.partial[a]));
      r := At(b);
    }

    /** Links the root `l` below the root `w` with the given partial spirit, its counter made relative to `w`'s. */
    method Hang(w: Handle, l: Handle, pl: G)
      requires Valid() && w in f.parent && l in f.parent && w != l && f.parent[w].Null? && f.parent[l].Null?
      modifies this
      ensures Valid() && lvl == Bump(old(lvl), w)
      ensures f == old(f).(parent := old(f).parent[l := At(w)], partial := old(f).partial[l := pl],
                           games := old(f).games[l := old(f).games[l] - old(f).games[w]])
    {
      UniteRanked(f.parent, lvl, w, l);
      f, lvl := f.(parent := f.parent[l := At(w)], partial := f.partial[l := pl], games := f.games[l := f.games[l] - f.games[w]]),
                Bump(lvl, w);
    }
  }

  // ---------------------------------------------------------------------------
  // One step of each find pass
  // ---------------------------------------------------------------------------

  lemma {:induction false} GamesAtRoot(par: map<Handle, Ptr>, games: map<Handle, int>, lvl: map<Handle, nat>, x: Handle)
    requires Ranked(par, lvl) && x in par && par.Keys <= games.Keys && par[x].Null?
    ensures GamesAfter(par, games, lvl, x) == games
  {
  }

  lemma {:induction false} GamesStep(par: map<Handle, Ptr>, games: map<Handle, int>, lvl: map<Handle, nat>, x: Handle)
    requires Ranked(par, lvl) && x in par && par.Keys <= games.Keys && par[x].At?
    ensures GamesAfter(par, games, lvl, par[x].h)[x] == games[x]
    ensures GamesAfter(par, games, lvl, x)
            == GamesAfter(par, games, lvl, par[x].h)[x := games[x] + Above(par, games, lvl, par[x].h)]
  {
    if OnPath(par, lvl, par[x].h, x) {
      OnPathLevel(par, lvl, par[x].h, x);
    }
  }

  lemma {:induction false} PartialAtTop<G>(ops: Perm<G>, par: map<Handle, Ptr>, ps: map<Handle, G>, lvl: map<Handle, nat>, x: Handle)
    requires Ranked(par, lvl) && x in par && par.Keys <= ps.Keys && (par[x].Null? || par[par[x].h].Null?)
    ensures PartialAfter(ops, par, ps, lvl, x) == ps
  {
    forall h | h in ps && h in par && OnPath(par, lvl, x, h)
      ensures Low(ops, par, ps, lvl, h) == ps[h]
    {
      if h != x {
        assert OnPath(par, lvl, par[x].h, h);
      }
    }
  }

  lemma {:induction false} PartialStep<G>(ops: Perm<G>, par: map<Handle, Ptr>, ps: map<Handle, G>, lvl: map<Handle, nat>, x: Handle)
    requires Ranked(par, lvl) && x in par && par.Keys <= ps.Keys && par[x].At? && par[par[x].h].At?
    ensures PartialAfter(ops, par, ps, lvl, par[x].h)[x] == ps[x]
    ensures PartialAfter(ops, par, ps, lvl, x)
            == PartialAfter(ops, par, ps, lvl, par[x].h)[x := ops.mul(Low(ops, par, ps, lvl, par[x].h), ps[x])]
  {
    if OnPath(par, lvl, par[x].h, x) {
      OnPathLevel(par, lvl, par[x].h, x);
    }
  }

  lemma {:induction false} ParentsAtRoot(par: map<Handle, Ptr>, lvl: map<Handle, nat>, x: Handle)
    requires Ranked(par, lvl) && x in par && par[x].Null?
    ensures ParentsAfter(par, lvl, x) == par
  {
  }

  lemma {:induction false} ParentsStep(par: map<Handle, Ptr>, lvl: map<Handle, nat>, x: Handle)
    requires Ranked(par, lvl) && x in par && par[x].At?
    ensures ParentsAfter(par, lvl, x) == ParentsAfter(par, lvl, par[x].h)[x := At(Root(par, lvl, par[x].h))]
  {
    if OnPath(par, lvl, par[x].h, x) {
      OnPathLevel(par, lvl, par[x].h, x);
    }
  }
}
