/**
 * The `Game` of src/open_tt/game.rs: a starting board, the current board
 * and the log of the actions that took one to the other.  `DoAction`
 * plays an action on the current board and logs it when it succeeds;
 * `GetBoardAtTurn` rebuilds an earlier board by replaying the log on a
 * clone of the starting board.
 */
module GameLog {
  import opened Wrappers
  import opened TankTypes
  import opened BoardRules
  import opened BoardProperties
  import opened ReplayRules
  import opened TankBoard

  /** Why a board could not be rebuilt: the turn is past the log, or a replayed action failed at step `turn`. */
  datatype BoardReconstructionError = TurnOutOfBounds | MoveError(turn: U16, error: ActionError)

  class Game {
    var startingBoard: Board
    var currentBoard: Board
    var moves: seq<Action>
    /** For each logged action, the player the `HashMap` iteration happened to yield first (see BoardRules.Receiver). */
    ghost var picks: seq<PlayerId>

    /** The log, replayed on the starting board, yields the current board. */
    ghost predicate Consistent()
      reads this, startingBoard, currentBoard
    {
      |picks| == |moves| && Replay(startingBoard.State(), moves, picks) == Ok(currentBoard.State())
    }

    /**
     * The struct literal of src/open_tt/mod.rs, field by field, with the
     * players picked so far alongside the log.  Nothing in the source
     * builds a game, so nothing is assumed about the fields.
     */
    constructor (startingBoard: Board, currentBoard: Board, moves: seq<Action>, ghost picks: seq<PlayerId>)
      ensures this.startingBoard == startingBoard && this.currentBoard == currentBoard
      ensures this.moves == moves && this.picks == picks
    {
      this.startingBoard, this.currentBoard := startingBoard, currentBoard;
      this.moves, this.picks := moves, picks;
    }

    /**
     * `do_action`: a refused action leaves the game as it was, whichever
     * player the iteration would have picked; an accepted one is applied
     * to the current board and appended to the log.  Either way the log
     * keeps replaying to the current board.
     */
    method DoAction(a: Action) returns (r: Result<(), ActionError>, ghost pick: PlayerId)
      requires startingBoard != currentBoard
      modifies this, currentBoard
      ensures startingBoard == old(startingBoard) && currentBoard == old(currentBoard)
      ensures startingBoard.State() == old(startingBoard.State())
      ensures Outcome(r, currentBoard.State()) == Step(old(currentBoard.State()), a, pick)
      ensures r.Err? ==> moves == old(moves) && picks == old(picks) && currentBoard.State() == old(currentBoard.State())
      ensures r.Err? ==> forall p: PlayerId :: Step(old(currentBoard.State()), a, p) == Err(r.error)
      ensures r.Ok? ==> moves == old(moves) + [a] && picks == old(picks) + [pick]
      ensures old(Consistent()) ==> Consistent()
    {
      ghost var start, before := startingBoard.State(), currentBoard.State();
      r, pick := currentBoard.TryDoAction(a);
      if r.Ok? {
        if |picks| == |moves| && Replay(start, moves, picks) == Ok(before) {
          ReplayAppend(start, moves, picks, a, pick);
        }
        moves := moves + [a];
        picks := picks + [pick];
      } else {
        forall p: PlayerId
          ensures Step(before, a, p) == Err(r.error)
        {
          StepErrorIgnoresPick(before, a, pick, p);
        }
      }
    }

    /**
     * `get_board_at_turn`, as written: it refuses `turnNum` equal to the
     * log's length, and each of its `turnNum` steps applies the action
     * logged AT `turnNum` rather than the action of that step.  The result
     * is what replaying `turnNum` copies of `moves[turnNum]` gives; a
     * failure names the step that failed.
     */
    method GetBoardAtTurn(turnNum: U16) returns (r: Result<Board, BoardReconstructionError>, ghost replayPicks: seq<PlayerId>)
      ensures r == Err(TurnOutOfBounds) <==> turnNum >= |moves|
      ensures turnNum == 0 < |moves| ==> r.Ok? && r.value.State() == startingBoard.State()
      ensures r.Ok? ==>
        && fresh(r.value) && |replayPicks| == turnNum
        && Replay(startingBoard.State(), Repeated(moves[turnNum], turnNum), replayPicks) == Ok(r.value.State())
      ensures r.Err? && r.error.MoveError? ==>
        && turnNum < |moves| && r.error.turn < turnNum
        && |replayPicks| == r.error.turn + 1
        && Replay(startingBoard.State(), Repeated(moves[turnNum], r.error.turn + 1), replayPicks)
           == Err(ReplayFailure(r.error.turn, r.error.error))
    {
      replayPicks := [];
      if turnNum >= |moves| {
        return Err(TurnOutOfBounds), replayPicks;
      }
      ghost var start := startingBoard.State();
      var newBoard := new Board.Clone(startingBoard);
      var action := moves[turnNum];
      var t: U16 := 0;
      while t < turnNum
        invariant t <= turnNum && |replayPicks| == t
        invariant fresh(newBoard) && startingBoard.State() == start
        invariant Replay(start, Repeated(action, t), replayPicks) == Ok(newBoard.State())
      {
        var res, pick := newBoard.TryDoAction(action);
        ReplayAppend(start, Repeated(action, t), replayPicks, action, pick);
        assert Repeated(action, t) + [action] == Repeated(action, t + 1);
        replayPicks := replayPicks + [pick];
        if res.Err? {
          return Err(MoveError(t, res.error)), replayPicks;
        }
        t := t + 1;
      }
      r := Ok(newBoard);
    }

    /**
     * `get_board_at_turn` as evidently intended: turn `turnNum` is the
     * board after the first `turnNum` logged actions, so any turn up to
     * the log's length can be rebuilt, and the last one is the current
     * board.  On a game whose log is consistent and whose starting board
     * is well formed the reconstruction always succeeds.
     */
    method GetBoardAtTurnIntended(turnNum: U16) returns (r: Result<Board, BoardReconstructionError>, ghost replayPicks: seq<PlayerId>)
      ensures r == Err(TurnOutOfBounds) <==> turnNum > |moves|
      ensures turnNum == 0 ==> r.Ok? && r.value.State() == startingBoard.State()
      ensures r.Ok? ==>
        && fresh(r.value) && |replayPicks| == turnNum
        && Replay(startingBoard.State(), moves[..turnNum], replayPicks) == Ok(r.value.State())
      ensures r.Err? && r.error.MoveError? ==>
        && r.error.turn < turnNum <= |moves|
        && |replayPicks| == r.error.turn + 1
        && Replay(startingBoard.State(), moves[..r.error.turn + 1], replayPicks)
           == Err(ReplayFailure(r.error.turn, r.error.error))
      ensures Consistent() && WellFormed(startingBoard.State()) && turnNum <= |moves| ==> r.Ok?
      ensures Consistent() && WellFormed(startingBoard.State()) && turnNum == |moves| ==>
        r.Ok? && r.value.State() == currentBoard.State()
    {
      replayPicks := [];
      if turnNum > |moves| {
        return Err(TurnOutOfBounds), replayPicks;
      }
      ghost var start, recorded := startingBoard.State(), picks;
      ghost var replayable := Consistent() && WellFormed(start);
      var newBoard := new Board.Clone(startingBoard);
      var t: U16 := 0;
      while t < turnNum
        invariant t <= turnNum && |replayPicks| == t
        invariant fresh(newBoard) && startingBoard.State() == start
        invariant Replay(start, moves[..t], replayPicks) == Ok(newBoard.State())
      {
        var action := moves[t];
        var res, pick := newBoard.TryDoAction(action);
        ReplayAppend(start, moves[..t], replayPicks, action, pick);
        PrefixGrows(moves, t);
        replayPicks := replayPicks + [pick];
        if res.Err? {
          if replayable {
            LoggedPrefixReplays(start, moves, recorded, replayPicks, t + 1);
            assert false;
          }
          return Err(MoveError(t, res.error)), replayPicks;
        }
        t := t + 1;
      }
      r := Ok(newBoard);
      if replayable && turnNum == |moves| {
        assert moves[..turnNum] == moves;
        ReplayIgnoresPicks(start, moves, recorded, replayPicks);
      }
    }
  }

  /** The first `t + 1` actions of a log are its first `t` and then action `t`. */
  lemma PrefixGrows(moves: seq<Action>, t: nat)
    requires t < |moves|
    ensures moves[..t] + [moves[t]] == moves[..t + 1]
  {
  }

  /**
   * On a well-formed starting board, every prefix of a log that replays
   * cleanly replays cleanly again, whatever players the iteration picks.
   */
  lemma LoggedPrefixReplays(b: BoardState, moves: seq<Action>, picks: seq<PlayerId>, others: seq<PlayerId>, k: nat)
    requires |picks| == |moves| && WellFormed(b) && Replay(b, moves, picks).Ok?
    requires k <= |moves| && |others| == k
    ensures Replay(b, moves[..k], others).Ok?
  {
    ReplayPrefix(b, moves, picks, k);
    ReplayIgnoresPicks(b, moves[..k], picks[..k], others);
  }
}
