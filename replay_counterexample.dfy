/**
 * The logs on which the as-written reconstruction of
 * src/open_tt/game.rs goes wrong: a lone tank walks two cells in two
 * one-cell moves.  The log replays cleanly, but reconstructing turn 1
 * applies the second move to the starting board, where its target is two
 * cells away.
 */
module ReplayCounterexample {
  import opened Wrappers
  import opened TankTypes
  import opened BoardRules
  import opened BoardProperties
  import opened ReplayRules

  /** A lone tank, with two action points, and two free cells in a row ahead of it. */
  predicate TwoStepWalk(b: BoardState, id: PlayerId, t1: BoardPos, t2: BoardPos)
  {
    && b.players.Keys == {id}
    && b.players[id].actionPoints >= 2
    && InBounds(b, t1) && t1 !in b.objects
    && InBounds(b, t2) && t2 !in b.objects
    && GridDist(b.players[id].position, t1) == 1
    && GridDist(t1, t2) == 1
    && GridDist(b.players[id].position, t2) == 2
  }

  /** The walk, as a log: first onto `t1`, then onto `t2`. */
  function Walk(id: PlayerId, t1: BoardPos, t2: BoardPos): seq<Action>
  {
    [TankMove(id, t1), TankMove(id, t2)]
  }

  /**
   * The whole walk replays cleanly (so a game can record it), and so does
   * its first turn, yet the as-written reconstruction of turn 1, which
   * applies the move of turn 1 once to the starting board, fails at its
   * first step with TargetTooFar, whichever player the iteration picks.
   */
  lemma ReplayIndexCounterexample(b: BoardState, id: PlayerId, t1: BoardPos, t2: BoardPos)
    requires TwoStepWalk(b, id, t1, t2)
    ensures Replay(b, Walk(id, t1, t2), [id, id]).Ok?
    ensures Replay(b, Walk(id, t1, t2)[..1], [id]).Ok?
    ensures forall pick: PlayerId ::
      Replay(b, Repeated(Walk(id, t1, t2)[1], 1), [pick]) == Err(ReplayFailure(0, TargetTooFar))
  {
    var m0, m1 := TankMove(id, t1), TankMove(id, t2);
    var p := b.players[id];
    GridDistZeroIffSame(p.position, t1);
    LoneTankMoves(b, id, t1);
    var b1 := b.(players := map[id := p.(position := t1, actionPoints := p.actionPoints - 1)]);
    assert Step(b, m0, id) == Ok(b1);
    assert b1.players.Keys == {id};
    GridDistZeroIffSame(t1, t2);
    LoneTankMoves(b1, id, t2);
    assert Step(b1, m1, id).Ok?;
    LoneTankTooFar(b, id, t2);
    assert Step(b, m1, id) == Err(TargetTooFar);
    ReplayAppend(b, [], [], m0, id);
    assert [] + [m0] == Walk(id, t1, t2)[..1];
    ReplayAppend(b, [m0], [id], m1, id);
    assert [m0] + [m1] == Walk(id, t1, t2);
    assert Repeated(m1, 1) == [] + [m1];
    forall pick: PlayerId
      ensures Replay(b, Repeated(m1, 1), [pick]) == Err(ReplayFailure(0, TargetTooFar))
    {
      ReplayAppend(b, [], [], m1, pick);
      assert [] + [pick] == [pick];
    }
  }

  /**
   * A 3x3 board without objects whose only tank, id 0, stands at (0,0)
   * with two action points: walking it east to (1,0) and then (2,0) is
   * such a walk.
   */
  lemma EastWalk(b: BoardState, t1: BoardPos, t2: BoardPos)
    requires b.sizeX == 3 && b.sizeY == 3 && b.objects == map[]
    requires b.players == map[0 := PlayerTank(BoardPos(0, 0), 3, 2)]
    requires t1 == BoardPos(1, 0) && t2 == BoardPos(2, 0)
    ensures TwoStepWalk(b, 0, t1, t2)
  {
    assert b.players.Keys == {0};
  }
}
