/**
 * The engine's shared value types: positions, distances, players, actions,
 * errors and game states (src/open_tt/mod.rs).
 */
module TankTypes {

  /** Rust's `u8`. */
  type U8 = x: int | 0 <= x < 0x100

  /** Rust's `u16`. */
  type U16 = x: int | 0 <= x < 0x1_0000

  type PlayerId = U8

  /** `u8 -= 1` with two's-complement wrap-around, as a release build computes it. */
  function WrappingDec(v: U8): (r: U8)
    ensures v > 0 ==> r == v - 1
    ensures v == 0 ==> r == 0xFF
  {
    (v - 1) % 0x100
  }

  /** `u8 += 1` with two's-complement wrap-around, as a release build computes it. */
  function WrappingInc(v: U8): (r: U8)
    ensures v < 0xFF ==> r == v + 1
    ensures v == 0xFF ==> r == 0
  {
    (v + 1) % 0x100
  }

  /** How far a tank may move in one action. */
  const PLAYER_MOVE_DIST: U16 := 1

  /** How far a tank may shoot or hand over an action point. */
  const PLAYER_SHOOT_DIST: U16 := 3

  /** A cell of the grid. */
  datatype BoardPos = BoardPos(x: U16, y: U16)

  function Max(a: int, b: int): int { if a < b then b else a }

  function Min(a: int, b: int): int { if a < b then a else b }

  function Abs(a: int): nat { if a < 0 then -a else a }

  /**
   * Grid distance between two cells, computed per axis as the larger
   * coordinate minus the smaller one; it is the Chebyshev (king-move)
   * distance, and each subtraction stays within `u16`.
   */
  function GridDist(p: BoardPos, q: BoardPos): (d: U16)
    ensures d == Max(Abs(p.x - q.x), Abs(p.y - q.y))
  {
    Max(AxisGap(p.x, q.x), AxisGap(p.y, q.y))
  }

  /** One axis of `get_grid_dist`: `max(a, b) - min(a, b)` in `u16`. */
  function AxisGap(a: U16, b: U16): (g: U16)
    ensures g == Abs(a - b)
  {
    Max(a, b) - Min(a, b)
  }

  lemma GridDistSymmetric(p: BoardPos, q: BoardPos)
    ensures GridDist(p, q) == GridDist(q, p)
  {
  }

  lemma GridDistZeroIffSame(p: BoardPos, q: BoardPos)
    ensures GridDist(p, q) == 0 <==> p == q
  {
  }

  /** Every cell a Move can reach is also within Shoot and GiveAP range. */
  lemma MoveRangeWithinShootRange(p: BoardPos, q: BoardPos)
    requires GridDist(p, q) <= PLAYER_MOVE_DIST
    ensures GridDist(p, q) <= PLAYER_SHOOT_DIST
  {
  }

  /** A player controlled tank. */
  datatype PlayerTank = PlayerTank(position: BoardPos, hitpoints: U8, actionPoints: U8)

  /** One occupant of a cell: a player, or the cell's board object. */
  datatype BoardThing = PlayerThing(id: PlayerId) | ObjectThing

  datatype PlayerHitResult = PlayerKilled | PlayerAlive

  datatype BoardObjectHitResult = Destroyed | NoEffect

  /** Failure of the internal action-point debit. */
  datatype AccessError = CouldNotFindPlayer | PlayerAPInsufficient

  /** Why an action was refused. */
  datatype ActionError =
    | OutOfBounds
    | SpaceOccupied
    | NoTargetFound
    | InvalidPlayerID
    | NotEnoughAP
    | TargetTooFar

  /** Every action names its acting player and a target cell. */
  datatype Action =
    | TankMove(actor: PlayerId, target: BoardPos)
    | TankShoot(actor: PlayerId, target: BoardPos)
    | TankGiveAP(actor: PlayerId, target: BoardPos)

  datatype GameState = InProgress | GameWon(winner: PlayerId)
}
