/**
 * The parts of world_cup_t that carry logic of their own: the size of the
 * players' hash directory and its hash function, the growth step of that
 * directory, the input checks of the player operations, and the two folds
 * up a player's chain of parents.
 *
 * The directory lookup itself (the hash bucket and the search of its tree)
 * is not modelled: the operations take the handle that lookup finds, or
 * None when the player is not there. The directory buckets are kept as
 * nullable pointers to their trees.
 */
module WorldCup {
  import opened Common
  import opened Spirit
  import opened UnionFind

  /** StatusType of wet2util.h. */
  datatype Status = Success | AllocationError | InvalidInput | Failure

  /** output_t<T>: a status, with a value only on success. */
  datatype Output<T> = Output(status: Status, value: Option<T>)

  function Pow2(n: nat): (r: nat)
    ensures r >= 1 && (n >= 1 ==> r >= 2 && r % 2 == 0)
  {
    if n == 0 then 1 else 2 * Pow2(n - 1)
  }

  /** calculate_hash_size: the directory at index `i` has 2^i - 1 buckets (none for an index below one). */
  method CalculateHashSize(index: int) returns (size: int)
    ensures size == Pow2(if index <= 0 then 0 else index) - 1
    ensures index >= 1 ==> size >= 1 && size % 2 == 1
  {
    size := 1;
    var i := 0;
    while i < index
      invariant 0 <= i && (index >= 0 ==> i <= index) && (index < 0 ==> i == 0)
      invariant size == Pow2(i)
    {
      size := size * 2;
      i := i + 1;
    }
    size := size - 1;
  }

  /** One more index step more than doubles the directory: 2^(i+1) - 1 == 2 (2^i - 1) + 1. */
  lemma {:induction false} HashSizeStep(i: nat)
    ensures Pow2(i + 1) - 1 == 2 * (Pow2(i) - 1) + 1
  {
  }

  /** C++ `%` on int: it truncates toward zero, so the remainder takes the sign of the dividend. */
  function CppRem(a: int, b: int): (r: int)
    requires b > 0
    ensures a >= 0 ==> 0 <= r < b
    ensures a < 0 ==> -b < r <= 0
    ensures (a - r) % b == 0
  {
    RemCongruent(a, b);
    if a >= 0 then a % b else -((-a) % b)
  }

  /** Both ways of taking the remainder differ from `a` by a multiple of `b`. */
  lemma {:induction false} RemCongruent(a: int, b: int)
    requires b > 0
    ensures (a - a % b) % b == 0 && (a + (-a) % b) % b == 0
  {
    MultipleMod(a / b, b);
    assert a - a % b == (a / b) * b;
    MultipleMod(-((-a) / b), b);
    assert a + (-a) % b == (-((-a) / b)) * b;
  }

  lemma {:induction false} MultipleMod(k: int, b: int)
    requires b > 0
    ensures (k * b) % b == 0
  {
    var q, m := (k * b) / b, (k * b) % b;
    var d := k - q;
    assert d * b == m by {
      assert k * b == q * b + m;
      assert d * b == k * b - q * b;
    }
  }

  /** add_player's input check: INVALID_INPUT for a non-positive id, a negative count or an invalid spirit; otherwise it goes on. */
  function AddPlayerInput<G>(ops: Perm<G>, playerId: int, teamId: int, spirit: G, gamesPlayed: int, cards: int): (s: Option<Status>)
    ensures s.Some? ==> s.value == InvalidInput
    ensures s.None? <==> playerId > 0 && teamId > 0 && gamesPlayed >= 0 && cards >= 0 && ops.isValid(spirit)
  {
    if playerId <= 0 || teamId <= 0 || gamesPlayed < 0 || cards < 0 || !ops.isValid(spirit) then Some(InvalidInput) else None
  }

  class Cup<G(!new)> {
    /** The players, shared by the directory buckets and the teams. */
    const players: Players<G>
    var numTotalPlayers: int
    var currentHashIndex: int
    /** m_playersHashTable: a nullable pointer to the tree of each bucket. */
    var table: array<Ptr>

    ghost predicate Valid()
      reads this, players
    {
      currentHashIndex >= 1 && table.Length == Pow2(currentHashIndex) - 1 && players.Valid()
    }

    /** world_cup_t(): no players, index 3, seven empty buckets. */
    constructor(ops: Perm<G>)
      ensures Valid() && fresh(players) && fresh(table) && players.ops == ops && players.f.parent == map[]
      ensures numTotalPlayers == 0 && currentHashIndex == 3 && table.Length == 7
      ensures forall i | 0 <= i < table.Length :: table[i] == Null
    {
      var currentSize := CalculateHashSize(3);
      assert Pow2(3) == 8;
      var t := new Ptr[currentSize];
      var i := 0;
      while i < currentSize
        invariant 0 <= i <= currentSize
        invariant forall j | 0 <= j < i :: t[j] == Null
      {
        t[i] := Null;
        i := i + 1;
      }
      players := new Players(ops);
      numTotalPlayers := 0;
      currentHashIndex := 3;
      table := t;
    }

    /** hash_function: the id's C++ remainder by the number of buckets; a bucket index for every id that is not negative. */
    method HashFunction(id: int) returns (r: int)
      requires Valid()
      ensures r == CppRem(id, table.Length)
      ensures id >= 0 ==> 0 <= r < table.Length
    {
      var size := CalculateHashSize(currentHashIndex);
      r := if id >= 0 then id % size else -((-id) % size);
    }

    /**
     * enlarge_hash_table: a fresh array the size of the next index, the
     * old buckets in their places and the new ones empty. The old array is
     * cleared, as destroy_old_hash_table does before freeing it. The index
     * itself is advanced by the caller.
     */
    method EnlargeHashTable()
      requires Valid()
      modifies this, table
      ensures currentHashIndex == old(currentHashIndex) && numTotalPlayers == old(numTotalPlayers) && players.Valid()
      ensures fresh(table) && table.Length == Pow2(currentHashIndex + 1) - 1 && table.Length > old(table.Length)
      ensures forall i | 0 <= i < old(table.Length) :: table[i] == old(table[i])
      ensures forall i | old(table.Length) <= i < table.Length :: table[i] == Null
      ensures forall i | 0 <= i < old(table.Length) :: old(table)[i] == Null
    {
      var oldTable := table;
      var currentSize := CalculateHashSize(currentHashIndex);
      var newSize := CalculateHashSize(currentHashIndex + 1);
      HashSizeStep(currentHashIndex);
      var newTable := new Ptr[newSize];
      var i := 0;
      while i < currentSize
        modifies newTable
        invariant 0 <= i <= currentSize
        invariant forall j | 0 <= j < i :: newTable[j] == oldTable[j]
      {
        newTable[i] := oldTable[i];
        i := i + 1;
      }
      i := currentSize;
      while i < newSize
        modifies newTable
        invariant currentSize <= i <= newSize
        invariant forall j | 0 <= j < currentSize :: newTable[j] == oldTable[j]
        invariant forall j | currentSize <= j < i :: newTable[j] == Null
      {
        newTable[i] := Null;
        i := i + 1;
      }
      table := newTable;
      i := 0;
      while i < currentSize
        modifies oldTable
        invariant 0 <= i <= currentSize
        invariant forall j | 0 <= j < i :: oldTable[j] == Null
      {
        oldTable[i] := Null;
        i := i + 1;
      }
    }

    /**
     * The growth step of add_player: when the new player would fill the
     * directory to its size, the directory is enlarged and the index
     * advanced; otherwise nothing changes.
     */
    method GrowIfFull()
      requires Valid()
      modifies this, table
      ensures Valid() && numTotalPlayers == old(numTotalPlayers)
      ensures old(numTotalPlayers) + 1 == old(table.Length) ==>
                currentHashIndex == old(currentHashIndex) + 1 && fresh(table)
                && (forall i | 0 <= i < old(table.Length) :: table[i] == old(table[i]))
                && (forall i | old(table.Length) <= i < table.Length :: table[i] == Null)
      ensures old(numTotalPlayers) + 1 != old(table.Length) ==>
                currentHashIndex == old(currentHashIndex) && table == old(table) && table[..] == old(table[..])
    {
      var currentSize := CalculateHashSize(currentHashIndex);
      if numTotalPlayers + 1 == currentSize {
        EnlargeHashTable();
        currentHashIndex := currentHashIndex + 1;
      }
    }

    /**
     * check_player_kicked_out, from the handle the lookup found: climbs
     * to the root and reports whether it has lost its team.
     */
    method CheckPlayerKickedOut(x: Handle) returns (b: bool)
      requires Valid() && x in players.f.parent
      ensures b == KickedOut(players.f.parent, players.f.team, players.lvl, x)
    {
      var cur := x;
      while players.f.parent[cur].At?
        invariant cur in players.f.parent
        invariant Root(players.f.parent, players.lvl, cur) == Root(players.f.parent, players.lvl, x)
        decreases players.lvl[cur]
      {
        cur := players.f.parent[cur].h;
      }
      b := players.f.team[cur].Null?;
    }

    /**
     * add_player_cards, given the player the lookup finds: INVALID_INPUT
     * for a non-positive id or negative cards, FAILURE for a player who is
     * absent or out of the game, otherwise the cards are added.
     */
    method AddPlayerCards(playerId: int, cards: int, found: Option<Handle>) returns (s: Status)
      requires Valid() && (found.Some? ==> found.value in players.f.parent)
      modifies players
      ensures Valid() && players.lvl == old(players.lvl)
      ensures playerId <= 0 || cards < 0 ==> s == InvalidInput && players.f == old(players.f)
      ensures playerId > 0 && cards >= 0 && found.None? ==> s == Failure && players.f == old(players.f)
      ensures playerId > 0 && cards >= 0 && found.Some? ==>
                if KickedOut(old(players.f).parent, old(players.f).team, players.lvl, found.value)
                then s == Failure && players.f == old(players.f)
                else s == Success && players.f == old(players.f).(info := old(players.f).info[found.value :=
                       old(players.f).info[found.value].(cards := old(players.f).info[found.value].cards + cards)])
    {
      if playerId <= 0 || cards < 0 {
        return InvalidInput;
      }
      if found.None? {
        return Failure;
      }
      var out := CheckPlayerKickedOut(found.value);
      if out {
        return Failure;
      }
      players.UpdateCards(found.value, cards);
      s := Success;
    }

    /** get_player_cards, given the player the lookup finds. */
    method GetPlayerCards(playerId: int, found: Option<Handle>) returns (out: Output<int>)
      requires Valid() && (found.Some? ==> found.value in players.f.parent)
      ensures playerId <= 0 ==> out == Output(InvalidInput, None)
      ensures playerId > 0 && found.None? ==> out == Output(Failure, None)
      ensures playerId > 0 && found.Some? ==> out == Output(Success, Some(players.f.info[found.value].cards))
    {
      if playerId <= 0 {
        return Output(InvalidInput, None);
      }
      if found.None? {
        return Output(Failure, None);
      }
      out := Output(Success, Some(players.f.info[found.value].cards));
    }

    /**
     * get_partial_spirit, given the player the lookup finds: the partial
     * spirits from the player up to the root, each ancestor's composed on
     * the left, which is the player's spirit fold.
     */
    method GetPartialSpirit(playerId: int, found: Option<Handle>) returns (out: Output<G>)
      requires Valid() && IsGroup(players.ops) && (found.Some? ==> found.value in players.f.parent)
      ensures playerId <= 0 ==> out == Output(InvalidInput, None)
      ensures playerId > 0 && found.None? ==> out == Output(Failure, None)
      ensures playerId > 0 && found.Some? ==>
                out == if KickedOut(players.f.parent, players.f.team, players.lvl, found.value) then Output(Failure, None)
                       else Output(Success, Some(Prod(players.ops, players.f.parent, players.f.partial, players.lvl, found.value)))
    {
      if playerId <= 0 {
        return Output(InvalidInput, None);
      }
      if found.None? {
        return Output(Failure, None);
      }
      var kicked := CheckPlayerKickedOut(found.value);
      if kicked {
        return Output(Failure, None);
      }
      var s := ChainSpirit(found.value);
      out := Output(Success, Some(s));
    }

    /** The loop of get_partial_spirit. */
    method ChainSpirit(x: Handle) returns (s: G)
      requires Valid() && IsGroup(players.ops) && x in players.f.parent
      ensures s == Prod(players.ops, players.f.parent, players.f.partial, players.lvl, x)
    {
      var ops, par, ps, lvl := players.ops, players.f.parent, players.f.partial, players.lvl;
      var cur := x;
      s := ps[x];
      while par[cur].At?
        invariant cur in par
        invariant Prod(ops, par, ps, lvl, x) == Glue(ops, par, ps, lvl, cur, s)
        decreases lvl[cur]
      {
        var p := par[cur].h;
        GlueStep(ops, par, ps, lvl, cur, s);
        cur := p;
        s := ops.mul(ps[cur], s);
      }
    }

    /**
     * The loop of num_played_games_for_player as written: it stops only
     * once the pointer is null, having added every counter of the chain,
     * so the dereference at line 143 that follows is always of null.
     */
    method ChainGamesAsWritten(x: Handle) returns (gamesPlayed: int, last: Ptr)
      requires Valid() && x in players.f.parent
      ensures gamesPlayed == Sum(players.f.parent, players.f.games, players.lvl, x)
      ensures last == Null
    {
      var par, gs, lvl := players.f.parent, players.f.games, players.lvl;
      gamesPlayed := 0;
      last := At(x);
      while last.At?
        invariant last.At? ==> last.h in par && gamesPlayed + Sum(par, gs, lvl, last.h) == Sum(par, gs, lvl, x)
        invariant last.Null? ==> gamesPlayed == Sum(par, gs, lvl, x)
        decreases if last.At? then lvl[last.h] + 1 else 0
      {
        gamesPlayed := gamesPlayed + gs[last.h];
        last := par[last.h];
      }
    }

    /**
     * num_played_games_for_player, given the player the lookup finds, with
     * the loop stopped at the root so that its team can be read, as line
     * 143 means to: the counters of the chain, root included, plus the
     * games of the root's team (none once the team is gone). `teamGames`
     * stands for each team's get_games().
     */
    method NumPlayedGames(playerId: int, found: Option<Handle>, teamGames: Handle -> int) returns (out: Output<int>)
      requires Valid() && (found.Some? ==> found.value in players.f.parent)
      ensures playerId <= 0 ==> out == Output(InvalidInput, None)
      ensures playerId > 0 && found.None? ==> out == Output(Failure, None)
      ensures playerId > 0 && found.Some? ==>
                out == Output(Success, Some(Sum(players.f.parent, players.f.games, players.lvl, found.value)
                                            + TeamGames(players.f.team[Root(players.f.parent, players.lvl, found.value)], teamGames)))
    {
      if playerId <= 0 {
        return Output(InvalidInput, None);
      }
      if found.None? {
        return Output(Failure, None);
      }
      var par, gs, lvl := players.f.parent, players.f.games, players.lvl;
      var x := found.value;
      var cur := x;
      var gamesPlayed := gs[x];
      while par[cur].At?
        invariant cur in par && Root(par, lvl, cur) == Root(par, lvl, x)
        invariant gamesPlayed - gs[cur] + Sum(par, gs, lvl, cur) == Sum(par, gs, lvl, x)
        decreases lvl[cur]
      {
        cur := par[cur].h;
        gamesPlayed := gamesPlayed + gs[cur];
      }
      var team := players.f.team[cur];
      if team.At? {
        gamesPlayed := gamesPlayed + teamGames(team.h);
      }
      out := Output(Success, Some(gamesPlayed));
    }
  }

  /** The games of a player's team: none for a player whose root has lost its team. */
  function TeamGames(team: Ptr, teamGames: Handle -> int): int
  {
    if team.At? then teamGames(team.h) else 0
  }

  /** What the partial-spirit loop still has to compose: the fold above `cur` in front of `s`. */
  ghost function Glue<G>(ops: Perm<G>, par: map<Handle, Ptr>, ps: map<Handle, G>, lvl: map<Handle, nat>, cur: Handle, s: G): G
    requires Ranked(par, lvl) && cur in par && par.Keys <= ps.Keys
  {
    if par[cur].Null? then s else ops.mul(Prod(ops, par, ps, lvl, par[cur].h), s)
  }

  /** One step of the partial-spirit loop keeps what is left to compose. */
  lemma {:induction false} GlueStep<G(!new)>(ops: Perm<G>, par: map<Handle, Ptr>, ps: map<Handle, G>, lvl: map<Handle, nat>, cur: Handle, s: G)
    requires IsGroup(ops) && Ranked(par, lvl) && cur in par && par.Keys <= ps.Keys && par[cur].At?
    ensures Glue(ops, par, ps, lvl, cur, s) == Glue(ops, par, ps, lvl, par[cur].h, ops.mul(ps[par[cur].h], s))
  {
    var p := par[cur].h;
    if par[p].At? {
      var q := Prod(ops, par, ps, lvl, par[p].h);
      assert ops.mul(ops.mul(q, ps[p]), s) == ops.mul(q, ops.mul(ps[p], s));
    }
  }
}
