/**
 * Team: the counters of one national team and its spirit, the ordered
 * composition of its players' spirits. The ghost `members` lists the
 * players in the order they joined; `Valid` says every counter is the
 * fold of that list the source maintains incrementally.
 */
module Teams {
  import opened Common
  import opened Spirit

  /** What a team remembers of one of its players. */
  datatype Member<G> = Member(spirit: G, ability: int, goalkeeper: bool)

  /** The ordered product of the members' spirits, earliest on the left. */
  function SpiritOf<G>(p: Perm<G>, ms: seq<Member<G>>): G
  {
    if ms == [] then p.one else p.mul(SpiritOf(p, ms[..|ms| - 1]), ms[|ms| - 1].spirit)
  }

  function AbilityOf<G>(ms: seq<Member<G>>): int
  {
    if ms == [] then 0 else AbilityOf(ms[..|ms| - 1]) + ms[|ms| - 1].ability
  }

  function KeepersOf<G>(ms: seq<Member<G>>): nat
  {
    if ms == [] then 0 else KeepersOf(ms[..|ms| - 1]) + (if ms[|ms| - 1].goalkeeper then 1 else 0)
  }

  /** The spirit of two rosters joined is the buyer's spirit composed with the bought one's. */
  lemma {:induction false} SpiritAppend<G(!new)>(p: Perm<G>, a: seq<Member<G>>, b: seq<Member<G>>)
    requires IsGroup(p)
    ensures SpiritOf(p, a + b) == p.mul(SpiritOf(p, a), SpiritOf(p, b))
    decreases |b|
  {
    if b == [] {
      assert a + b == a;
    } else {
      var b' := b[..|b| - 1];
      assert (a + b)[..|a + b| - 1] == a + b';
      SpiritAppend(p, a, b');
    }
  }

  /** Ability and goalkeepers of two rosters joined add up. */
  lemma {:induction false} CountsAppend<G>(a: seq<Member<G>>, b: seq<Member<G>>)
    ensures AbilityOf(a + b) == AbilityOf(a) + AbilityOf(b)
    ensures KeepersOf(a + b) == KeepersOf(a) + KeepersOf(b)
    decreases |b|
  {
    if b == [] {
      assert a + b == a;
    } else {
      var b' := b[..|b| - 1];
      assert (a + b)[..|a + b| - 1] == a + b';
      CountsAppend(a, b');
    }
  }

  /**
   * The folds of two rosters joined, in the form teams_unite computes
   * them: an empty side contributes nothing to the spirit.
   */
  lemma UniteFolds<G(!new)>(p: Perm<G>, a: seq<Member<G>>, b: seq<Member<G>>)
    requires IsGroup(p)
    ensures SpiritOf(p, a + b) == if a == [] then SpiritOf(p, b)
                                 else if b != [] then p.mul(SpiritOf(p, a), SpiritOf(p, b))
                                 else SpiritOf(p, a)
    ensures AbilityOf(a + b) == AbilityOf(a) + AbilityOf(b)
    ensures KeepersOf(a + b) == KeepersOf(a) + KeepersOf(b)
  {
    SpiritAppend(p, a, b);
    CountsAppend(a, b);
    if a == [] {
      assert a + b == b;
    } else if b == [] {
      assert a + b == a;
    }
  }

  /** A roster has a goalkeeper exactly when some member is one. */
  lemma {:induction false} KeepersSome<G>(ms: seq<Member<G>>)
    ensures KeepersOf(ms) >= 1 <==> exists i | 0 <= i < |ms| :: ms[i].goalkeeper
    decreases |ms|
  {
    if ms != [] {
      var ms' := ms[..|ms| - 1];
      KeepersSome(ms');
      if exists i | 0 <= i < |ms'| :: ms'[i].goalkeeper {
        var i :| 0 <= i < |ms'| && ms'[i].goalkeeper;
        assert ms[i] == ms'[i];
      }
      if exists i | 0 <= i < |ms| :: ms[i].goalkeeper {
        var i :| 0 <= i < |ms| && ms[i].goalkeeper;
        if i < |ms'| {
          assert ms'[i] == ms[i];
        }
      }
    }
  }

  class Team<G(!new)> {
    /** The spirit operations of permutation_t. */
    const ops: Perm<G>

    var id: int
    var points: int
    var numPlayers: int
    var numGoalkeepers: int
    var numGames: int
    var totalAbility: int
    var teamSpirit: G
    /** m_players: the root of the team's players in the union-find forest. */
    var players: Ptr

    /** The players in the order they joined the team. */
    ghost var members: seq<Member<G>>

    ghost predicate Valid()
      reads this
    {
      numPlayers == |members| && teamSpirit == SpiritOf(ops, members)
      && totalAbility == AbilityOf(members) && numGoalkeepers == KeepersOf(members)
    }

    /** Team(teamID): an empty team with that id, identity spirit and no players. */
    constructor(ops: Perm<G>, teamId: int)
      requires IsGroup(ops)
      ensures Valid() && members == [] && this.ops == ops
      ensures id == teamId && points == 0 && numPlayers == 0 && numGoalkeepers == 0 && numGames == 0
      ensures totalAbility == 0 && teamSpirit == ops.one && players == Null
    {
      this.ops := ops;
      id := teamId;
      points, numPlayers, numGoalkeepers, numGames, totalAbility := 0, 0, 0, 0, 0;
      teamSpirit := ops.one;
      players := Null;
      members := [];
    }

    /** Team(): the same empty team, with id 0. */
    constructor Blank(ops: Perm<G>)
      requires IsGroup(ops)
      ensures Valid() && members == [] && this.ops == ops
      ensures id == 0 && points == 0 && numPlayers == 0 && numGoalkeepers == 0 && numGames == 0
      ensures totalAbility == 0 && teamSpirit == ops.one && players == Null
    {
      this.ops := ops;
      id := 0;
      points, numPlayers, numGoalkeepers, numGames, totalAbility := 0, 0, 0, 0, 0;
      teamSpirit := ops.one;
      players := Null;
      members := [];
    }

    /** get_score: the points plus the ability of every player. */
    function GetScore(): (r: int)
      reads this
      requires Valid()
      ensures r == points + AbilityOf(members)
    {
      points + totalAbility
    }

    /** get_spirit_strength: the strength of the composed spirit of the players. */
    function GetSpiritStrength(): (r: int)
      reads this
      requires Valid()
      ensures r == ops.strength(SpiritOf(ops, members))
    {
      ops.strength(teamSpirit)
    }

    /** is_valid: a team can play only with a goalkeeper among its players. */
    function IsValid(): (b: bool)
      reads this
      requires Valid()
      ensures b <==> exists i | 0 <= i < |members| :: members[i].goalkeeper
    {
      KeepersSome(members);
      numGoalkeepers >= 1
    }

    /** add_game: one more game; nothing else changes. */
    method AddGame()
      requires Valid()
      modifies this
      ensures Valid() && numGames == old(numGames) + 1 && members == old(members)
      ensures points == old(points) && numPlayers == old(numPlayers) && numGoalkeepers == old(numGoalkeepers)
      ensures totalAbility == old(totalAbility) && teamSpirit == old(teamSpirit) && players == old(players) && id == old(id)
    {
      numGames := numGames + 1;
    }

    /** update_points_won: a win is worth three points; nothing else changes. */
    method UpdatePointsWon()
      requires Valid()
      modifies this
      ensures Valid() && points == old(points) + 3 && members == old(members)
      ensures numGames == old(numGames) && numPlayers == old(numPlayers) && numGoalkeepers == old(numGoalkeepers)
      ensures totalAbility == old(totalAbility) && teamSpirit == old(teamSpirit) && players == old(players) && id == old(id)
    {
      points := points + 3;
    }

    /** update_points_tie: a tie is worth one point; nothing else changes. */
    method UpdatePointsTie()
      requires Valid()
      modifies this
      ensures Valid() && points == old(points) + 1 && members == old(members)
      ensures numGames == old(numGames) && numPlayers == old(numPlayers) && numGoalkeepers == old(numGoalkeepers)
      ensures totalAbility == old(totalAbility) && teamSpirit == old(teamSpirit) && players == old(players) && id == old(id)
    {
      points := points + 1;
    }

    /** set_teamPlayers (and update_players, the same write): the root of the team's players. */
    method SetPlayers(p: Ptr)
      requires Valid()
      modifies this
      ensures Valid() && players == p && members == old(members)
      ensures points == old(points) && numGames == old(numGames) && numPlayers == old(numPlayers)
      ensures numGoalkeepers == old(numGoalkeepers) && totalAbility == old(totalAbility)
      ensures teamSpirit == old(teamSpirit) && id == old(id)
    {
      players := p;
    }

    /**
     * add_player: the first player's spirit becomes the team's, a later
     * one's is composed on the right; the ability adds up and a
     * goalkeeper is counted. The player pointer itself is not stored.
     */
    method AddPlayer(player: Ptr, playerId: int, spirit: G, ability: int, cards: int, goalkeeper: bool)
      requires Valid() && IsGroup(ops)
      modifies this
      ensures Valid() && members == old(members) + [Member(spirit, ability, goalkeeper)]
      ensures teamSpirit == if old(numPlayers) == 0 then spirit else ops.mul(old(teamSpirit), spirit)
      ensures numPlayers == old(numPlayers) + 1 && totalAbility == old(totalAbility) + ability
      ensures numGoalkeepers == old(numGoalkeepers) + (if goalkeeper then 1 else 0)
      ensures points == old(points) && numGames == old(numGames) && players == old(players) && id == old(id)
    {
      var s := if numPlayers == 0 then spirit else ops.mul(teamSpirit, spirit);
      ghost var ms := members + [Member(spirit, ability, goalkeeper)];
      assert ms[..|ms| - 1] == members;
      teamSpirit, totalAbility, numPlayers, members :=
        s, totalAbility + ability, numPlayers + 1, ms;
      if goalkeeper {
        numGoalkeepers := numGoalkeepers + 1;
      }
    }

    /**
     * teams_unite: the buyer takes on the bought team's players after its
     * own, with their points, goalkeepers and ability, and restarts its
     * game count. The spirit of an empty side is left out of the product.
     */
    method TeamsUnite(bought: Team<G>)
      requires Valid() && bought.Valid() && bought.ops == ops && IsGroup(ops)
      modifies this
      ensures Valid() && members == old(members) + old(bought.members)
      ensures teamSpirit == if old(numPlayers) == 0 then old(bought.teamSpirit)
                            else if old(bought.numPlayers) != 0 then ops.mul(old(teamSpirit), old(bought.teamSpirit))
                            else old(teamSpirit)
      ensures points == old(points) + old(bought.points) && numPlayers == old(numPlayers) + old(bought.numPlayers)
      ensures numGoalkeepers == old(numGoalkeepers) + old(bought.numGoalkeepers) && numGames == 0
      ensures totalAbility == old(totalAbility) + old(bought.totalAbility)
      ensures players == old(players) && id == old(id)
    {
      ghost var a, b := members, bought.members;
      UniteFolds(ops, a, b);
      var spirit := teamSpirit;
      if numPlayers == 0 {
        spirit := bought.teamSpirit;
      } else if bought.numPlayers != 0 {
        spirit := ops.mul(teamSpirit, bought.teamSpirit);
      }
      teamSpirit, points, numPlayers, numGoalkeepers, numGames, totalAbility, members :=
        spirit, points + bought.points, numPlayers + bought.numPlayers, numGoalkeepers + bought.numGoalkeepers,
        0, totalAbility + bought.totalAbility, a + b;
    }
  }
}
