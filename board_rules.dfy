/**
 * The rules of src/open_tt/board.rs as functions of one board snapshot:
 * the read-only queries, the effect of each action, and what those effects
 * preserve. The `Board` class in board.dfy is proved against these.
 */
module BoardRules {
  import opened Wrappers
  import opened TankTypes
  import opened BoardObjects

  /** One snapshot of the world: grid size, living players by id, board objects by cell. */
  datatype BoardState = BoardState(
    sizeX: U16,
    sizeY: U16,
    players: map<PlayerId, PlayerTank>,
    objects: map<BoardPos, Flags>)

  // ---------------------------------------------------------------- queries

  /** `pos_in_bounds` and `is_pos_in_bounds` (two copies of one test). */
  predicate InBounds(b: BoardState, pos: BoardPos)
  {
    pos.x < b.sizeX && pos.y < b.sizeY
  }

  predicate PlayerExists(b: BoardState, id: PlayerId)
  {
    id in b.players
  }

  predicate PlayerHasAp(b: BoardState, id: PlayerId)
  {
    id in b.players && b.players[id].actionPoints > 0
  }

  /** The ids of the living players standing on `pos`. */
  function PlayersAt(b: BoardState, pos: BoardPos): set<PlayerId>
  {
    set id | id in b.players && b.players[id].position == pos
  }

  /** Everything on `pos`: the board object there, if any, and each player there. */
  function ThingsAt(b: BoardState, pos: BoardPos): set<BoardThing>
  {
    (if pos in b.objects then {ObjectThing} else {}) + (set id | id in PlayersAt(b, pos) :: PlayerThing(id))
  }

  /** Who is on `pos`, read back from the occupant set. */
  lemma ThingsAtMembers(b: BoardState, pos: BoardPos)
    ensures ObjectThing in ThingsAt(b, pos) <==> pos in b.objects
    ensures forall id :: PlayerThing(id) in ThingsAt(b, pos) <==> id in PlayersAt(b, pos)
  {
    forall id | PlayerThing(id) in ThingsAt(b, pos)
      ensures id in PlayersAt(b, pos)
    {
      var players := set i | i in PlayersAt(b, pos) :: PlayerThing(i);
      assert PlayerThing(id) in players;
    }
  }

  /** Whether one occupant of `pos` stops movement: an object by its INPASSABLE bit, a player never. */
  predicate ThingBlocks(b: BoardState, pos: BoardPos, t: BoardThing)
  {
    match t
    case ObjectThing => pos in b.objects && Blocks(b.objects[pos])
    case PlayerThing(_) => false
  }

  /**
   * `is_pos_traversable` as written: the `&&`-reduction of the occupants'
   * blocking flags, true for an empty cell. So a non-empty cell counts as
   * traversable only when EVERY occupant blocks.
   */
  predicate IsTraversable(b: BoardState, pos: BoardPos)
  {
    forall t | t in ThingsAt(b, pos) :: ThingBlocks(b, pos, t)
  }

  /** What the comment above `is_pos_traversable` describes: no occupant blocks. */
  predicate IsTraversableIntended(b: BoardState, pos: BoardPos)
  {
    forall t | t in ThingsAt(b, pos) :: !ThingBlocks(b, pos, t)
  }

  /**
   * As written, a cell is traversable iff no player stands on it and its
   * object, if any, is INPASSABLE.
   */
  lemma TraversableAsWritten(b: BoardState, pos: BoardPos)
    ensures IsTraversable(b, pos) <==> PlayersAt(b, pos) == {} && (pos in b.objects ==> Blocks(b.objects[pos]))
  {
    if id :| id in PlayersAt(b, pos) {
      assert PlayerThing(id) in ThingsAt(b, pos);
    }
    if pos in b.objects {
      assert ObjectThing in ThingsAt(b, pos);
    }
  }

  /** As intended, a cell is traversable iff it holds no INPASSABLE object. */
  lemma TraversableIntended(b: BoardState, pos: BoardPos)
    ensures IsTraversableIntended(b, pos) <==> !(pos in b.objects && Blocks(b.objects[pos]))
  {
    if pos in b.objects {
      assert ObjectThing in ThingsAt(b, pos);
    }
  }

  /** The two rules disagree: water lets a tank in, forest does not. */
  lemma TraversabilityInverted(b: BoardState, pos: BoardPos)
    requires PlayersAt(b, pos) == {} && pos in b.objects
    ensures b.objects[pos] == WATER ==> IsTraversable(b, pos) && !IsTraversableIntended(b, pos)
    ensures b.objects[pos] == FOREST ==> !IsTraversable(b, pos) && IsTraversableIntended(b, pos)
  {
    PresetFlags();
    TraversableAsWritten(b, pos);
    TraversableIntended(b, pos);
  }

  // ------------------------------------------------------ single mutations

  /** `take_ap_from_player`: debit one action point, or say why not. */
  function TakeAp(b: BoardState, id: PlayerId): (r: Result<BoardState, AccessError>)
    ensures r.Ok? <==> PlayerHasAp(b, id)
    ensures r == Err(CouldNotFindPlayer) <==> !PlayerExists(b, id)
  {
    if id !in b.players then Err(CouldNotFindPlayer)
    else if b.players[id].actionPoints == 0 then Err(PlayerAPInsufficient)
    else Ok(b.(players := b.players[id := b.players[id].(actionPoints := b.players[id].actionPoints - 1)]))
  }

  /** How the `apply_*_action` functions translate a failed debit. */
  function AccessToActionError(e: AccessError): ActionError
  {
    match e
    case CouldNotFindPlayer => InvalidPlayerID
    case PlayerAPInsufficient => NotEnoughAP
  }

  /** A player that one point of damage brings to zero hitpoints. */
  predicate Killed(p: PlayerTank)
  {
    WrappingDec(p.hitpoints) == 0
  }

  function Damaged(p: PlayerTank): PlayerTank
  {
    p.(hitpoints := WrappingDec(p.hitpoints))
  }

  /** `damage_and_kill_player`: one point of damage; at zero hitpoints the player leaves the map. */
  function HitPlayer(b: BoardState, id: PlayerId): (BoardState, PlayerHitResult)
    requires id in b.players
  {
    var p := Damaged(b.players[id]);
    if p.hitpoints == 0 then (b.(players := b.players - {id}), PlayerKilled)
    else (b.(players := b.players[id := p]), PlayerAlive)
  }

  /** `damage_and_destroy_board_pos`: remove the object on `pos` if it is DESTRUCTABLE. */
  function HitObject(b: BoardState, pos: BoardPos): (BoardState, BoardObjectHitResult)
  {
    if pos !in b.objects then (b, NoEffect)
    else if !Destructable(b.objects[pos]) then (b, NoEffect)
    else (b.(objects := b.objects - {pos}), Destroyed)
  }

  /** The players after one point of damage to each player in `hit`. */
  function DamagePlayers(ps: map<PlayerId, PlayerTank>, hit: set<PlayerId>): map<PlayerId, PlayerTank>
  {
    map id | id in ps && !(id in hit && Killed(ps[id])) :: if id in hit then Damaged(ps[id]) else ps[id]
  }

  /** The objects after a shot at `pos`. */
  function DestroyObject(objs: map<BoardPos, Flags>, pos: BoardPos): map<BoardPos, Flags>
  {
    if pos in objs && Destructable(objs[pos]) then objs - {pos} else objs
  }

  /** `damage_things_at_board_pos`: one point of damage to everything on `pos`. */
  function DamageAt(b: BoardState, pos: BoardPos): BoardState
  {
    b.(players := DamagePlayers(b.players, PlayersAt(b, pos)), objects := DestroyObject(b.objects, pos))
  }

  /** Damaging one more player is one more `HitPlayer`. */
  lemma DamagePlayersGrow(b: BoardState, hit: set<PlayerId>, id: PlayerId, ps: map<PlayerId, PlayerTank>)
    requires id in ps && id !in hit && b.players == DamagePlayers(ps, hit)
    ensures id in b.players && b.players[id] == ps[id]
    ensures HitPlayer(b, id).0.players == DamagePlayers(ps, hit + {id})
    ensures HitPlayer(b, id).1 == PlayerKilled <==> Killed(ps[id])
  {
    var after := HitPlayer(b, id).0.players;
    var want := DamagePlayers(ps, hit + {id});
    assert after.Keys == want.Keys;
  }

  // ----------------------------------------------------------------- actions

  /** `apply_move_action`. */
  function MoveStep(b: BoardState, id: PlayerId, t: BoardPos): Result<BoardState, ActionError>
  {
    if !IsTraversable(b, t) then Err(SpaceOccupied)
    else if !InBounds(b, t) then Err(OutOfBounds)
    else if id !in b.players then Err(InvalidPlayerID)
    else if GridDist(b.players[id].position, t) > PLAYER_MOVE_DIST then Err(TargetTooFar)
    else match TakeAp(b, id)
      case Err(e) => Err(AccessToActionError(e))
      case Ok(b1) => Ok(b1.(players := b1.players[id := b1.players[id].(position := t)]))
  }

  /** `apply_shoot_action`. */
  function ShootStep(b: BoardState, id: PlayerId, t: BoardPos): Result<BoardState, ActionError>
  {
    if !InBounds(b, t) then Err(OutOfBounds)
    else if id !in b.players then Err(InvalidPlayerID)
    else if GridDist(b.players[id].position, t) > PLAYER_SHOOT_DIST then Err(TargetTooFar)
    else match TakeAp(b, id)
      case Err(e) => Err(AccessToActionError(e))
      case Ok(b1) => Ok(DamageAt(b1, t))
  }

  /**
   * The player `get_player_id_at_pos` reports for a cell holding several:
   * the first one `HashMap` iteration yields, which `pick` stands for. When
   * `pick` is not on the cell, some player that is.
   */
  ghost function Receiver(b: BoardState, t: BoardPos, pick: PlayerId): (r: PlayerId)
    requires PlayersAt(b, t) != {}
    ensures r in PlayersAt(b, t)
    ensures pick in PlayersAt(b, t) ==> r == pick
  {
    if pick in PlayersAt(b, t) then pick else var id :| id in PlayersAt(b, t); id
  }

  function Credit(p: PlayerTank): PlayerTank
  {
    p.(actionPoints := WrappingInc(p.actionPoints))
  }

  /** `apply_give_ap_action`, with the receiver chosen by `pick`. */
  ghost function GiveApStep(b: BoardState, id: PlayerId, t: BoardPos, pick: PlayerId): Result<BoardState, ActionError>
  {
    if !InBounds(b, t) then Err(OutOfBounds)
    else if id !in b.players then Err(InvalidPlayerID)
    else if GridDist(b.players[id].position, t) > PLAYER_SHOOT_DIST then Err(TargetTooFar)
    else if PlayersAt(b, t) == {} then Err(NoTargetFound)
    else
      var r := Receiver(b, t, pick);
      match TakeAp(b, id)
      case Err(e) => Err(AccessToActionError(e))
      case Ok(b1) => Ok(b1.(players := b1.players[r := Credit(b1.players[r])]))
  }

  /** `try_do_action`: dispatch on the action's kind. */
  ghost function Step(b: BoardState, a: Action, pick: PlayerId): Result<BoardState, ActionError>
  {
    match a
    case TankMove(id, t) => MoveStep(b, id, t)
    case TankShoot(id, t) => ShootStep(b, id, t)
    case TankGiveAP(id, t) => GiveApStep(b, id, t, pick)
  }

  /** `get_game_state` as written: the iterator mapped at board.rs:253 is never consumed. */
  function GetGameState(b: BoardState): GameState
  {
    InProgress
  }

  /** What `get_game_state` evidently means: the last living player has won. */
  ghost function GameStateIntended(b: BoardState): (s: GameState)
    ensures s.GameWon? <==> |b.players| == 1
    ensures s.GameWon? ==> b.players.Keys == {s.winner}
  {
    if |b.players| == 1 then
      var id :| id in b.players;
      OnlyKey(b.players.Keys, id);
      GameWon(id)
    else InProgress
  }

  lemma OnlyKey(keys: set<PlayerId>, id: PlayerId)
    requires |keys| == 1 && id in keys
    ensures keys == {id}
  {
    var rest := keys - {id};
    assert |rest| == 0;
  }

  /** With one living player left, the game still reports InProgress. */
  lemma GameStateMissesWin(b: BoardState, id: PlayerId)
    requires b.players.Keys == {id}
    ensures GetGameState(b) == InProgress
    ensures GameStateIntended(b) == GameWon(id)
  {
    assert |b.players.Keys| == 1;
  }
}
