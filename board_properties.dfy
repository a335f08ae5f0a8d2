/**
 * What the actions of src/open_tt/board.rs promise: the order in which they
 * refuse, what a successful action changes and leaves alone, the
 * action-point economy, and the board invariant they keep.
 */
module BoardProperties {
  import opened Wrappers
  import opened TankTypes
  import opened BoardObjects
  import opened BoardRules

  // ------------------------------------------------------------------ Move

  /** Move refuses in this order: occupied target, out of bounds, unknown actor, too far, no action point. */
  lemma MoveRefusals(b: BoardState, id: PlayerId, t: BoardPos)
    ensures MoveStep(b, id, t) == Err(SpaceOccupied) <==> !IsTraversable(b, t)
    ensures MoveStep(b, id, t) == Err(OutOfBounds) <==> IsTraversable(b, t) && !InBounds(b, t)
    ensures MoveStep(b, id, t) == Err(InvalidPlayerID) <==> IsTraversable(b, t) && InBounds(b, t) && !PlayerExists(b, id)
    ensures MoveStep(b, id, t) == Err(TargetTooFar) <==>
      IsTraversable(b, t) && InBounds(b, t) && PlayerExists(b, id) && GridDist(b.players[id].position, t) > PLAYER_MOVE_DIST
    ensures MoveStep(b, id, t) == Err(NotEnoughAP) <==>
      IsTraversable(b, t) && InBounds(b, t) && PlayerExists(b, id) && GridDist(b.players[id].position, t) <= PLAYER_MOVE_DIST
      && !PlayerHasAp(b, id)
    ensures MoveStep(b, id, t).Ok? <==>
      IsTraversable(b, t) && InBounds(b, t) && PlayerHasAp(b, id) && GridDist(b.players[id].position, t) <= PLAYER_MOVE_DIST
  {
  }

  /** A cell with a player on it, the mover included, always refuses a Move. */
  lemma MoveOntoPlayerRefused(b: BoardState, id: PlayerId, t: BoardPos)
    requires PlayersAt(b, t) != {}
    ensures MoveStep(b, id, t) == Err(SpaceOccupied)
  {
    TraversableAsWritten(b, t);
  }

  /**
   * A successful Move puts the actor on an in-bounds, player-free cell at
   * most one step away, costs it exactly one action point, and changes
   * nothing else.
   */
  lemma MoveSuccess(b: BoardState, id: PlayerId, t: BoardPos, b': BoardState)
    requires MoveStep(b, id, t) == Ok(b')
    ensures id in b.players && InBounds(b, t) && PlayersAt(b, t) == {}
    ensures GridDist(b.players[id].position, t) <= PLAYER_MOVE_DIST
    ensures b'.players.Keys == b.players.Keys
    ensures b'.players[id] == b.players[id].(position := t, actionPoints := b.players[id].actionPoints - 1)
    ensures forall o | o in b.players && o != id :: b'.players[o] == b.players[o]
    ensures b'.objects == b.objects && b'.sizeX == b.sizeX && b'.sizeY == b.sizeY
  {
    TraversableAsWritten(b, t);
  }

  /** Moving a tank that has action points onto a near, empty, in-bounds cell. */
  lemma MoveToEmptyCell(b: BoardState, id: PlayerId, t: BoardPos)
    requires PlayerHasAp(b, id) && InBounds(b, t) && t !in b.objects && PlayersAt(b, t) == {}
    requires GridDist(b.players[id].position, t) <= PLAYER_MOVE_DIST
    ensures MoveStep(b, id, t) ==
      Ok(b.(players := b.players[id := b.players[id].(position := t, actionPoints := b.players[id].actionPoints - 1)]))
  {
    TraversableAsWritten(b, t);
    var b1 := TakeAp(b, id).value;
    var p := b.players[id];
    assert b1.players[id := b1.players[id].(position := t)] == b.players[id := p.(position := t, actionPoints := p.actionPoints - 1)];
  }

  /** Who stands on a cell of a board with a single tank. */
  lemma LoneTankAt(b: BoardState, id: PlayerId, t: BoardPos)
    requires b.players.Keys == {id}
    ensures PlayersAt(b, t) == if b.players[id].position == t then {id} else {}
  {
  }

  /** A lone tank steps onto a free neighbouring cell and pays one action point. */
  lemma LoneTankMoves(b: BoardState, id: PlayerId, t: BoardPos)
    requires b.players.Keys == {id} && b.players[id].position != t
    requires b.players[id].actionPoints > 0 && InBounds(b, t) && t !in b.objects
    requires GridDist(b.players[id].position, t) <= PLAYER_MOVE_DIST
    ensures MoveStep(b, id, t) ==
      Ok(b.(players := map[id := b.players[id].(position := t, actionPoints := b.players[id].actionPoints - 1)]))
  {
    LoneTankAt(b, id, t);
    MoveToEmptyCell(b, id, t);
    var p := b.players[id];
    assert b.players[id := p.(position := t, actionPoints := p.actionPoints - 1)]
      == map[id := p.(position := t, actionPoints := p.actionPoints - 1)];
  }

  /** A lone tank cannot reach a free cell more than one step away. */
  lemma LoneTankTooFar(b: BoardState, id: PlayerId, t: BoardPos)
    requires b.players.Keys == {id} && InBounds(b, t) && t !in b.objects
    requires GridDist(b.players[id].position, t) > PLAYER_MOVE_DIST
    ensures MoveStep(b, id, t) == Err(TargetTooFar)
  {
    LoneTankAt(b, id, t);
    TraversableAsWritten(b, t);
  }

  // ----------------------------------------------------------------- Shoot

  /** Shoot refuses in this order: out of bounds, unknown actor, too far, no action point. */
  lemma ShootRefusals(b: BoardState, id: PlayerId, t: BoardPos)
    ensures ShootStep(b, id, t) == Err(OutOfBounds) <==> !InBounds(b, t)
    ensures ShootStep(b, id, t) == Err(InvalidPlayerID) <==> InBounds(b, t) && !PlayerExists(b, id)
    ensures ShootStep(b, id, t) == Err(TargetTooFar) <==>
      InBounds(b, t) && PlayerExists(b, id) && GridDist(b.players[id].position, t) > PLAYER_SHOOT_DIST
    ensures ShootStep(b, id, t) == Err(NotEnoughAP) <==>
      InBounds(b, t) && PlayerExists(b, id) && GridDist(b.players[id].position, t) <= PLAYER_SHOOT_DIST && !PlayerHasAp(b, id)
    ensures ShootStep(b, id, t).Ok? <==>
      InBounds(b, t) && PlayerHasAp(b, id) && GridDist(b.players[id].position, t) <= PLAYER_SHOOT_DIST
  {
  }

  /**
   * A successful Shoot (whether or not it hits anything) costs the shooter
   * one action point; every player on the target loses one hitpoint and
   * leaves the board exactly when that was its last; the object on the
   * target goes iff it is DESTRUCTABLE; nothing else changes.
   */
  lemma ShootSuccess(b: BoardState, id: PlayerId, t: BoardPos, b': BoardState)
    requires ShootStep(b, id, t) == Ok(b')
    ensures InBounds(b, t) && PlayerHasAp(b, id) && GridDist(b.players[id].position, t) <= PLAYER_SHOOT_DIST
    ensures forall o :: o in b'.players <==> o in b.players && !(o in PlayersAt(b, t) && Killed(b.players[o]))
    ensures forall o | o in b'.players ::
      && b'.players[o].position == b.players[o].position
      && b'.players[o].hitpoints == (if o in PlayersAt(b, t) then WrappingDec(b.players[o].hitpoints) else b.players[o].hitpoints)
      && b'.players[o].actionPoints == (if o == id then b.players[o].actionPoints - 1 else b.players[o].actionPoints)
    ensures b'.objects == if t in b.objects && Destructable(b.objects[t]) then b.objects - {t} else b.objects
    ensures b'.sizeX == b.sizeX && b'.sizeY == b.sizeY
  {
    var b1 := TakeAp(b, id).value;
    assert PlayersAt(b1, t) == PlayersAt(b, t);
  }

  /** Shooting forest clears it; shooting water leaves it. */
  lemma ShootClearsForestNotWater(b: BoardState, id: PlayerId, t: BoardPos, b': BoardState)
    requires ShootStep(b, id, t) == Ok(b') && t in b.objects
    ensures b.objects[t] == FOREST ==> t !in b'.objects
    ensures b.objects[t] == WATER ==> t in b'.objects && b'.objects[t] == WATER
  {
    PresetFlags();
    ShootSuccess(b, id, t, b');
  }

  // ---------------------------------------------------------------- GiveAP

  /** GiveAP refuses in this order: out of bounds, unknown actor, too far, nobody on the target, no action point. */
  lemma GiveApRefusals(b: BoardState, id: PlayerId, t: BoardPos, pick: PlayerId)
    ensures GiveApStep(b, id, t, pick) == Err(OutOfBounds) <==> !InBounds(b, t)
    ensures GiveApStep(b, id, t, pick) == Err(InvalidPlayerID) <==> InBounds(b, t) && !PlayerExists(b, id)
    ensures GiveApStep(b, id, t, pick) == Err(TargetTooFar) <==>
      InBounds(b, t) && PlayerExists(b, id) && GridDist(b.players[id].position, t) > PLAYER_SHOOT_DIST
    ensures GiveApStep(b, id, t, pick) == Err(NoTargetFound) <==>
      InBounds(b, t) && PlayerExists(b, id) && GridDist(b.players[id].position, t) <= PLAYER_SHOOT_DIST && PlayersAt(b, t) == {}
    ensures GiveApStep(b, id, t, pick) == Err(NotEnoughAP) <==>
      InBounds(b, t) && PlayerExists(b, id) && GridDist(b.players[id].position, t) <= PLAYER_SHOOT_DIST
      && PlayersAt(b, t) != {} && !PlayerHasAp(b, id)
    ensures GiveApStep(b, id, t, pick).Ok? <==>
      InBounds(b, t) && PlayerHasAp(b, id) && GridDist(b.players[id].position, t) <= PLAYER_SHOOT_DIST && PlayersAt(b, t) != {}
  {
  }

  /** Beyond shooting range both Shoot and GiveAP fail with TargetTooFar once the target and actor are valid. */
  lemma TooFarBeyondShootRange(b: BoardState, id: PlayerId, t: BoardPos, pick: PlayerId)
    requires InBounds(b, t) && id in b.players && GridDist(b.players[id].position, t) > PLAYER_SHOOT_DIST
    ensures ShootStep(b, id, t) == Err(TargetTooFar)
    ensures GiveApStep(b, id, t, pick) == Err(TargetTooFar)
  {
  }

  /**
   * A successful GiveAP moves one action point from the actor to a player on
   * the target (no change when the actor gives to itself), touching nothing
   * else.
   */
  lemma GiveApSuccess(b: BoardState, id: PlayerId, t: BoardPos, pick: PlayerId, b': BoardState)
    requires GiveApStep(b, id, t, pick) == Ok(b')
    ensures InBounds(b, t) && PlayerHasAp(b, id) && GridDist(b.players[id].position, t) <= PLAYER_SHOOT_DIST
    ensures PlayersAt(b, t) != {}
    ensures var r := Receiver(b, t, pick);
      && r in PlayersAt(b, t)
      && b'.players.Keys == b.players.Keys
      && (forall o | o in b.players && o != id && o != r :: b'.players[o] == b.players[o])
      && (r != id ==> b'.players[id] == b.players[id].(actionPoints := b.players[id].actionPoints - 1))
      && (r != id ==> b'.players[r] == Credit(b.players[r]))
      && (r == id ==> b'.players[id] == b.players[id])
    ensures b'.objects == b.objects && b'.sizeX == b.sizeX && b'.sizeY == b.sizeY
  {
  }

  // --------------------------------------------------- action-point economy

  /** Sum of the action points of players with ids `i` and up. */
  function ApFrom(ps: map<PlayerId, PlayerTank>, i: nat): nat
    decreases 0x100 - i
  {
    if i >= 0x100 then 0
    else (if i in ps then ps[i].actionPoints else 0) + ApFrom(ps, i + 1)
  }

  /** Total action points held by living players. */
  function TotalAp(ps: map<PlayerId, PlayerTank>): nat
  {
    ApFrom(ps, 0)
  }

  /** Changing one player's action points changes the total by the difference. */
  lemma {:induction false} ApFromUpdate(ps: map<PlayerId, PlayerTank>, k: PlayerId, v: PlayerTank, i: nat)
    requires k in ps
    ensures ApFrom(ps[k := v], i) == ApFrom(ps, i) + (if i <= k then v.actionPoints - ps[k].actionPoints else 0)
    decreases 0x100 - i
  {
    if i < 0x100 {
      ApFromUpdate(ps, k, v, i + 1);
    }
  }

  /** Dropping players or lowering their action points never raises the total. */
  lemma {:induction false} ApFromShrinks(ps: map<PlayerId, PlayerTank>, qs: map<PlayerId, PlayerTank>, i: nat)
    requires forall k | k in qs :: k in ps && qs[k].actionPoints <= ps[k].actionPoints
    ensures ApFrom(qs, i) <= ApFrom(ps, i)
    decreases 0x100 - i
  {
    if i < 0x100 {
      ApFromShrinks(ps, qs, i + 1);
    }
  }

  /** A successful Move spends exactly one action point in total. */
  lemma MoveSpendsOneAp(b: BoardState, id: PlayerId, t: BoardPos, b': BoardState)
    requires MoveStep(b, id, t) == Ok(b')
    ensures TotalAp(b'.players) == TotalAp(b.players) - 1
  {
    MoveSuccess(b, id, t, b');
    assert b'.players == b.players[id := b'.players[id]];
    ApFromUpdate(b.players, id, b'.players[id], 0);
  }

  /** A successful Shoot spends at least one action point in total (more if it kills a holder of some). */
  lemma ShootSpendsAtLeastOneAp(b: BoardState, id: PlayerId, t: BoardPos, b': BoardState)
    requires ShootStep(b, id, t) == Ok(b')
    ensures TotalAp(b'.players) + 1 <= TotalAp(b.players)
  {
    var b1 := TakeAp(b, id).value;
    ApFromUpdate(b.players, id, b1.players[id], 0);
    ApFromShrinks(b1.players, b'.players, 0);
  }

  /**
   * A successful GiveAP keeps the total: the one point leaves the actor and
   * reaches the receiver, provided no receiver other than the actor already
   * holds 255 (the `u8` increment would wrap).
   */
  lemma GiveApConservesAp(b: BoardState, id: PlayerId, t: BoardPos, pick: PlayerId, b': BoardState)
    requires GiveApStep(b, id, t, pick) == Ok(b')
    requires forall o | o in PlayersAt(b, t) && o != id :: b.players[o].actionPoints < 0xFF
    ensures TotalAp(b'.players) == TotalAp(b.players)
  {
    GiveApSuccess(b, id, t, pick, b');
    var r := Receiver(b, t, pick);
    if r != id {
      var b1 := b.players[id := b'.players[id]];
      ApFromUpdate(b.players, id, b'.players[id], 0);
      assert b'.players == b1[r := b'.players[r]];
      ApFromUpdate(b1, r, b'.players[r], 0);
    } else {
      assert b'.players == b.players;
    }
  }

  /** The most action points a GiveAP can leave on its receiver wrap to zero. */
  lemma GiveApWrapsAt255(b: BoardState, id: PlayerId, t: BoardPos, pick: PlayerId, b': BoardState)
    requires GiveApStep(b, id, t, pick) == Ok(b')
    requires pick in PlayersAt(b, t) && pick != id && b.players[pick].actionPoints == 0xFF
    ensures b'.players[pick].actionPoints == 0
  {
    GiveApSuccess(b, id, t, pick, b');
  }

  // ------------------------------------------------------ the living players

  /**
   * No action adds a player id; a player leaves only when a Shoot at its
   * cell takes its last hitpoint.
   */
  lemma StepOnlyRemovesKilled(b: BoardState, a: Action, pick: PlayerId, b': BoardState)
    requires Step(b, a, pick) == Ok(b')
    ensures b'.players.Keys <= b.players.Keys
    ensures forall o | o in b.players && o !in b'.players ::
      a.TankShoot? && b.players[o].position == a.target && Killed(b.players[o])
  {
    match a
    case TankMove(id, t) => MoveSuccess(b, id, t, b');
    case TankShoot(id, t) => ShootSuccess(b, id, t, b');
    case TankGiveAP(id, t) => GiveApSuccess(b, id, t, pick, b');
  }

  /**
   * The board invariant the engine keeps: every living player is in bounds
   * with at least one hitpoint, and no two players share a cell.
   */
  predicate WellFormed(b: BoardState)
  {
    && (forall id | id in b.players :: InBounds(b, b.players[id].position) && b.players[id].hitpoints > 0)
    && (forall i, j | i in b.players && j in b.players && i != j :: b.players[i].position != b.players[j].position)
  }

  /** On a well-formed board a cell holds at most one player. */
  lemma AtMostOnePlayerAt(b: BoardState, t: BoardPos, id: PlayerId)
    requires WellFormed(b) && id in PlayersAt(b, t)
    ensures PlayersAt(b, t) == {id}
  {
  }

  /** Every action keeps the board well formed; in particular no hitpoint counter ever wraps. */
  lemma StepPreservesWellFormed(b: BoardState, a: Action, pick: PlayerId, b': BoardState)
    requires WellFormed(b) && Step(b, a, pick) == Ok(b')
    ensures WellFormed(b')
  {
    match a
    case TankMove(id, t) =>
      MoveSuccess(b, id, t, b');
      forall o | o in b.players && o != id
        ensures b.players[o].position != t
      {
        assert o !in PlayersAt(b, t);
      }
    case TankShoot(id, t) =>
      ShootSuccess(b, id, t, b');
    case TankGiveAP(id, t) =>
      GiveApSuccess(b, id, t, pick, b');
  }

  /** On a well-formed board the receiver of GiveAP is unique, so `HashMap` order does not matter. */
  lemma StepIgnoresPick(b: BoardState, a: Action, pick1: PlayerId, pick2: PlayerId)
    requires WellFormed(b)
    ensures Step(b, a, pick1) == Step(b, a, pick2)
  {
    if a.TankGiveAP? && PlayersAt(b, a.target) != {} {
      var r := Receiver(b, a.target, pick1);
      AtMostOnePlayerAt(b, a.target, r);
    }
  }

  /** Every check precedes the receiver choice, so a refusal never depends on it. */
  lemma StepErrorIgnoresPick(b: BoardState, a: Action, pick1: PlayerId, pick2: PlayerId)
    requires Step(b, a, pick1).Err?
    ensures Step(b, a, pick2) == Step(b, a, pick1)
  {
  }

  // -------------------------------------------------------------- scenarios

  /**
   * On a 3x3 board, player 0 at (0,0) with one action point moves
   * diagonally to (1,1) and has none left; a second move is refused.
   */
  lemma MoveScenario(b: BoardState)
    requires b.sizeX == 3 && b.sizeY == 3 && b.objects == map[]
    requires b.players == map[0 := PlayerTank(BoardPos(0, 0), 3, 1), 1 := PlayerTank(BoardPos(1, 0), 3, 0)]
    ensures var b1 := b.(players := b.players[0 := PlayerTank(BoardPos(1, 1), 3, 0)]);
      MoveStep(b, 0, BoardPos(1, 1)) == Ok(b1) && MoveStep(b1, 0, BoardPos(2, 2)) == Err(NotEnoughAP)
  {
    var b1 := b.(players := b.players[0 := PlayerTank(BoardPos(1, 1), 3, 0)]);
    assert PlayersAt(b, BoardPos(1, 1)) == {};
    TraversableAsWritten(b, BoardPos(1, 1));
    MoveRefusals(b, 0, BoardPos(1, 1));
    var r := MoveStep(b, 0, BoardPos(1, 1));
    MoveSuccess(b, 0, BoardPos(1, 1), r.value);
    assert r.value.players == b1.players;
    assert PlayersAt(b1, BoardPos(2, 2)) == {};
    TraversableAsWritten(b1, BoardPos(2, 2));
    MoveRefusals(b1, 0, BoardPos(2, 2));
  }

  /** A player on its last hitpoint dies to a shot; a GiveAP at its cell then finds nobody. */
  lemma KillScenario(b: BoardState, pick: PlayerId)
    requires b.sizeX == 4 && b.sizeY == 4 && b.objects == map[]
    requires b.players == map[0 := PlayerTank(BoardPos(0, 0), 3, 2), 1 := PlayerTank(BoardPos(2, 2), 1, 0)]
    ensures var s := ShootStep(b, 0, BoardPos(2, 2));
      && s.Ok? && 1 !in s.value.players
      && GiveApStep(s.value, 0, BoardPos(2, 2), pick) == Err(NoTargetFound)
  {
    var s := ShootStep(b, 0, BoardPos(2, 2));
    ShootRefusals(b, 0, BoardPos(2, 2));
    ShootSuccess(b, 0, BoardPos(2, 2), s.value);
    assert PlayersAt(s.value, BoardPos(2, 2)) == {};
    GiveApRefusals(s.value, 0, BoardPos(2, 2), pick);
  }
}
