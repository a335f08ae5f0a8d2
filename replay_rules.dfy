/**
 * Replaying an action log onto a board (src/open_tt/game.rs): the fold of
 * `try_do_action` over the log, and how the replay in `get_board_at_turn`
 * as written departs from it.
 */
module ReplayRules {
  import opened Wrappers
  import opened TankTypes
  import opened BoardRules
  import opened BoardProperties

  /** A logged action that was refused on replay, with its index in the replayed sequence. */
  datatype ReplayFailure = ReplayFailure(step: nat, error: ActionError)

  /**
   * The board after applying `moves` to `b` in order, action i with
   * receiver choice `picks[i]`; the first refusal ends the replay.
   */
  ghost function Replay(b: BoardState, moves: seq<Action>, picks: seq<PlayerId>): Result<BoardState, ReplayFailure>
    requires |picks| == |moves|
    decreases |moves|
  {
    if moves == [] then Ok(b)
    else
      var n := |moves| - 1;
      match Replay(b, moves[..n], picks[..n])
      case Err(f) => Err(f)
      case Ok(b1) =>
        match Step(b1, moves[n], picks[n])
        case Err(e) => Err(ReplayFailure(n, e))
        case Ok(b2) => Ok(b2)
  }

  /** Replaying one more action is one more step from the board replayed so far. */
  lemma ReplayAppend(b: BoardState, moves: seq<Action>, picks: seq<PlayerId>, a: Action, pick: PlayerId)
    requires |picks| == |moves| && Replay(b, moves, picks).Ok?
    ensures Replay(b, moves + [a], picks + [pick]) ==
      match Step(Replay(b, moves, picks).value, a, pick)
      case Ok(b2) => Ok(b2)
      case Err(e) => Err(ReplayFailure(|moves|, e))
  {
    assert (moves + [a])[..|moves|] == moves;
    assert (picks + [pick])[..|picks|] == picks;
  }

  /** A replay that fails names an action inside the log. */
  lemma {:induction false} ReplayFailureInLog(b: BoardState, moves: seq<Action>, picks: seq<PlayerId>)
    requires |picks| == |moves| && Replay(b, moves, picks).Err?
    ensures Replay(b, moves, picks).error.step < |moves|
    decreases |moves|
  {
    var n := |moves| - 1;
    if Replay(b, moves[..n], picks[..n]).Err? {
      ReplayFailureInLog(b, moves[..n], picks[..n]);
    }
  }

  /** A log that replays whole also replays in every prefix. */
  lemma {:induction false} ReplayPrefix(b: BoardState, moves: seq<Action>, picks: seq<PlayerId>, k: nat)
    requires |picks| == |moves| && k <= |moves| && Replay(b, moves, picks).Ok?
    ensures Replay(b, moves[..k], picks[..k]).Ok?
    decreases |moves|
  {
    if k < |moves| {
      var n := |moves| - 1;
      assert moves[..n][..k] == moves[..k] && picks[..n][..k] == picks[..k];
      ReplayPrefix(b, moves[..n], picks[..n], k);
    } else {
      assert moves[..k] == moves && picks[..k] == picks;
    }
  }

  /** Every board a replay reaches from a well-formed board is well formed. */
  lemma {:induction false} ReplayPreservesWellFormed(b: BoardState, moves: seq<Action>, picks: seq<PlayerId>)
    requires |picks| == |moves| && WellFormed(b) && Replay(b, moves, picks).Ok?
    ensures WellFormed(Replay(b, moves, picks).value)
    decreases |moves|
  {
    if moves != [] {
      var n := |moves| - 1;
      ReplayPreservesWellFormed(b, moves[..n], picks[..n]);
      StepPreservesWellFormed(Replay(b, moves[..n], picks[..n]).value, moves[n], picks[n], Replay(b, moves, picks).value);
    }
  }

  /** From a well-formed board the outcome of a replay does not depend on `HashMap` order. */
  lemma {:induction false} ReplayIgnoresPicks(b: BoardState, moves: seq<Action>, picks1: seq<PlayerId>, picks2: seq<PlayerId>)
    requires |picks1| == |moves| && |picks2| == |moves| && WellFormed(b)
    ensures Replay(b, moves, picks1) == Replay(b, moves, picks2)
    decreases |moves|
  {
    if moves != [] {
      var n := |moves| - 1;
      ReplayIgnoresPicks(b, moves[..n], picks1[..n], picks2[..n]);
      var r := Replay(b, moves[..n], picks1[..n]);
      if r.Ok? {
        ReplayPreservesWellFormed(b, moves[..n], picks1[..n]);
        StepIgnoresPick(r.value, moves[n], picks1[n], picks2[n]);
      }
    }
  }

  /** `n` copies of one action: what `get_board_at_turn(n)` as written replays. */
  function Repeated(a: Action, n: nat): (s: seq<Action>)
    ensures |s| == n && forall i | 0 <= i < n :: s[i] == a
  {
    seq(n, _ => a)
  }
}
