/**
 * The `Board` of src/open_tt/board.rs as an object whose player and object
 * maps the actions update in place. Each method is proved against the
 * functions of BoardRules applied to the board's value before the call.
 */
module TankBoard {
  import opened Wrappers
  import opened TankTypes
  import opened BoardObjects
  import opened BoardRules

  /** A `Result<(), E>` read together with the board it left behind. */
  function Outcome<E>(r: Result<(), E>, b: BoardState): Result<BoardState, E>
  {
    match r
    case Ok(_) => Ok(b)
    case Err(e) => Err(e)
  }

  class Board {
    const sizeX: U16
    const sizeY: U16
    var players: map<PlayerId, PlayerTank>
    var objects: map<BoardPos, Flags>

    /** The board as a value. */
    function State(): BoardState
      reads this
    {
      BoardState(sizeX, sizeY, players, objects)
    }

    /** `Board::clone`. */
    constructor Clone(source: Board)
      ensures State() == source.State()
    {
      sizeX, sizeY := source.sizeX, source.sizeY;
      players, objects := source.players, source.objects;
    }

    /**
     * `get_things_at_pos`: every occupant of `pos` exactly once, the object
     * first; players come in `HashMap` iteration order, which is arbitrary.
     */
    method GetThingsAtPos(pos: BoardPos) returns (things: seq<BoardThing>)
      ensures forall t :: t in things <==> t in ThingsAt(State(), pos)
      ensures forall i, j | 0 <= i < j < |things| :: things[i] != things[j]
      ensures pos in objects ==> things[0] == ObjectThing
    {
      things := [];
      if pos in objects {
        things := [ObjectThing];
      }
      var unvisited := players.Keys;
      while unvisited != {}
        invariant unvisited <= players.Keys
        invariant pos in objects ==> |things| > 0 && things[0] == ObjectThing
        invariant forall i, j | 0 <= i < j < |things| :: things[i] != things[j]
        invariant forall t :: t in things <==> t in ThingsAt(State(), pos) && (t.PlayerThing? ==> t.id !in unvisited)
        decreases unvisited
      {
        var id :| id in unvisited;
        if players[id].position == pos {
          things := things + [PlayerThing(id)];
        }
        unvisited := unvisited - {id};
      }
    }

    /** `get_player_id_at_pos`: some player standing on `pos`, if there is one. */
    method GetPlayerIdAtPos(pos: BoardPos) returns (found: Option<PlayerId>)
      ensures found.None? <==> PlayersAt(State(), pos) == {}
      ensures found.Some? ==> found.value in PlayersAt(State(), pos)
    {
      var things := GetThingsAtPos(pos);
      var i := 0;
      while i < |things|
        invariant 0 <= i <= |things|
        invariant forall k | 0 <= k < i :: !things[k].PlayerThing?
      {
        if things[i].PlayerThing? {
          ThingsAtMembers(State(), pos);
          assert things[i] in things;
          return Some(things[i].id);
        }
        i := i + 1;
      }
      ThingsAtMembers(State(), pos);
      assert forall t | t in things :: !t.PlayerThing?;
      return None;
    }

    /** `take_ap_from_player`: all checks come before the one write. */
    method TakeApFromPlayer(id: PlayerId) returns (r: Result<(), AccessError>)
      modifies this
      ensures Outcome(r, State()) == TakeAp(old(State()), id)
      ensures r.Err? ==> State() == old(State())
    {
      if id !in players {
        return Err(CouldNotFindPlayer);
      }
      var player := players[id];
      if player.actionPoints == 0 {
        return Err(PlayerAPInsufficient);
      }
      players := players[id := player.(actionPoints := player.actionPoints - 1)];
      return Ok(());
    }

    /** `damage_and_kill_player`; the caller guarantees that the player exists. */
    method DamageAndKillPlayer(id: PlayerId) returns (r: PlayerHitResult)
      requires id in players
      modifies this
      ensures (State(), r) == HitPlayer(old(State()), id)
    {
      var player := players[id];
      players := players - {id};
      player := player.(hitpoints := WrappingDec(player.hitpoints));
      if player.hitpoints == 0 {
        return PlayerKilled;
      }
      players := players[id := player];
      assert players == old(players)[id := player];
      return PlayerAlive;
    }

    /** `damage_and_destroy_board_pos`. */
    method DamageAndDestroyBoardPos(pos: BoardPos) returns (r: BoardObjectHitResult)
      modifies this
      ensures (State(), r) == HitObject(old(State()), pos)
    {
      if pos !in objects {
        return NoEffect;
      }
      var flags := objects[pos];
      if flags & DESTRUCTABLE == 0 {
        return NoEffect;
      }
      objects := objects - {pos};
      return Destroyed;
    }

    /**
     * `damage_things_at_board_pos`: one point of damage to every occupant
     * of `pos`; returns what was destroyed.
     */
    method DamageThingsAtBoardPos(pos: BoardPos) returns (destroyed: seq<BoardThing>)
      modifies this
      ensures State() == DamageAt(old(State()), pos)
      ensures forall t :: t in destroyed <==>
        || (t == ObjectThing && pos in old(objects) && Destructable(old(objects)[pos]))
        || (t.PlayerThing? && t.id in PlayersAt(old(State()), pos) && Killed(old(players)[t.id]))
    {
      var things := GetThingsAtPos(pos);
      ghost var b0 := State();
      ghost var hit: set<PlayerId> := {};
      ghost var objectHit := false;
      destroyed := [];
      var i := 0;
      while i < |things|
        invariant 0 <= i <= |things|
        invariant forall id :: id in hit <==> PlayerThing(id) in things[..i]
        invariant hit <= PlayersAt(b0, pos)
        invariant objectHit <==> ObjectThing in things[..i]
        invariant sizeX == b0.sizeX && sizeY == b0.sizeY
        invariant players == DamagePlayers(b0.players, hit)
        invariant objects == if objectHit then DestroyObject(b0.objects, pos) else b0.objects
        invariant forall t :: t in destroyed <==>
          || (t == ObjectThing && objectHit && pos in b0.objects && Destructable(b0.objects[pos]))
          || (t.PlayerThing? && t.id in hit && Killed(b0.players[t.id]))
      {
        assert things[..i + 1] == things[..i] + [things[i]];
        assert things[i] !in things[..i];
        ThingsAtMembers(b0, pos);
        match things[i] {
        case PlayerThing(id) =>
          assert things[i] in things;
          DamagePlayersGrow(State(), hit, id, b0.players);
          var result := DamageAndKillPlayer(id);
          if result == PlayerKilled {
            destroyed := destroyed + [PlayerThing(id)];
          }
          hit := hit + {id};
        case ObjectThing =>
          var result := DamageAndDestroyBoardPos(pos);
          if result == Destroyed {
            destroyed := destroyed + [ObjectThing];
          }
          objectHit := true;
        }
        i := i + 1;
      }
      assert things[..i] == things;
      ThingsAtMembers(b0, pos);
      assert hit == PlayersAt(b0, pos);
    }

    /** `apply_move_action`. */
    method ApplyMoveAction(id: PlayerId, t: BoardPos) returns (r: Result<(), ActionError>)
      modifies this
      ensures Outcome(r, State()) == MoveStep(old(State()), id, t)
      ensures r.Err? ==> State() == old(State())
    {
      if !IsTraversable(State(), t) {
        return Err(SpaceOccupied);
      }
      if !InBounds(State(), t) {
        return Err(OutOfBounds);
      }
      if id !in players {
        return Err(InvalidPlayerID);
      }
      if GridDist(players[id].position, t) > PLAYER_MOVE_DIST {
        return Err(TargetTooFar);
      }
      var took := TakeApFromPlayer(id);
      if took.Err? {
        return Err(AccessToActionError(took.error));
      }
      players := players[id := players[id].(position := t)];
      return Ok(());
    }

    /** `apply_shoot_action`: succeeds whether or not anything is hit. */
    method ApplyShootAction(id: PlayerId, t: BoardPos) returns (r: Result<(), ActionError>)
      modifies this
      ensures Outcome(r, State()) == ShootStep(old(State()), id, t)
      ensures r.Err? ==> State() == old(State())
    {
      if !InBounds(State(), t) {
        return Err(OutOfBounds);
      }
      if id !in players {
        return Err(InvalidPlayerID);
      }
      if GridDist(players[id].position, t) > PLAYER_SHOOT_DIST {
        return Err(TargetTooFar);
      }
      var took := TakeApFromPlayer(id);
      if took.Err? {
        return Err(AccessToActionError(took.error));
      }
      var _ := DamageThingsAtBoardPos(t);
      return Ok(());
    }

    /** `apply_give_ap_action`; `pick` is the receiver the iteration chose. */
    method ApplyGiveApAction(id: PlayerId, t: BoardPos) returns (r: Result<(), ActionError>, ghost pick: PlayerId)
      modifies this
      ensures Outcome(r, State()) == GiveApStep(old(State()), id, t, pick)
      ensures r.Err? ==> State() == old(State())
    {
      pick := 0;
      if !InBounds(State(), t) {
        return Err(OutOfBounds), pick;
      }
      if id !in players {
        return Err(InvalidPlayerID), pick;
      }
      if GridDist(players[id].position, t) > PLAYER_SHOOT_DIST {
        return Err(TargetTooFar), pick;
      }
      var target := GetPlayerIdAtPos(t);
      if target.None? {
        return Err(NoTargetFound), pick;
      }
      var receiver := target.value;
      pick := receiver;
      var took := TakeApFromPlayer(id);
      if took.Err? {
        return Err(AccessToActionError(took.error)), pick;
      }
      players := players[receiver := Credit(players[receiver])];
      return Ok(()), pick;
    }

    /** `try_do_action`: dispatch on the kind of action. */
    method TryDoAction(a: Action) returns (r: Result<(), ActionError>, ghost pick: PlayerId)
      modifies this
      ensures Outcome(r, State()) == Step(old(State()), a, pick)
      ensures r.Err? ==> State() == old(State())
    {
      pick := 0;
      match a
      case TankGiveAP(id, t) =>
        r, pick := ApplyGiveApAction(id, t);
      case TankMove(id, t) =>
        r := ApplyMoveAction(id, t);
      case TankShoot(id, t) =>
        r := ApplyShootAction(id, t);
    }
  }
}
