/**
 * Models/PeggleGameStatus.swift, WinConditions.swift and
 * LoseConditions.swift: a game is won as soon as one win condition holds,
 * lost when no win condition holds but a lose condition does, and ongoing
 * otherwise. The conditions are predicates on the game's state.
 */
module GameStatus {
  import opened Options
  import opened PegTypes
  import opened Pegs
  import opened Balls

  datatype PeggleGameStatus = Ongoing | Won | Lost
  {
    predicate IsGameOver()
      ensures IsGameOver() <==> this != Ongoing
    {
      match this
      case Ongoing => false
      case Won => true
      case Lost => true
    }
  }

  /** The part of the game's state the conditions look at: the ball in play, the pegs by id and the balls left. */
  datatype PeggleState = PeggleState(ball: Option<Ball>, pegs: map<int, Peg>, ballsRemaining: int)

  /** The conditions the game uses. */
  datatype PegglePredicate =
    | ClearAllOrangePegs  // won when no orange peg is left on the board
    | RanOutOfBalls       // lost when no ball is in play and none is left to fire
  {
    predicate Test(state: PeggleState)
      reads state.pegs.Values
    {
      match this
      case ClearAllOrangePegs =>
        !exists peg | peg in state.pegs.Values :: peg.color == Orange && !peg.removed
      case RanOutOfBalls =>
        state.ball == None && state.ballsRemaining <= 0
    }
  }

  /**
   * Whether some condition of `conditions` holds for `state`, looking at
   * them in order. Both `hasWon` and `hasLost` are this test on their own
   * list of conditions.
   */
  function AnyHolds(conditions: seq<PegglePredicate>, state: PeggleState): (r: bool)
    reads state.pegs.Values
    ensures r <==> exists i | 0 <= i < |conditions| :: conditions[i].Test(state)
    ensures conditions == [] ==> !r
  {
    if conditions == [] then false
    else conditions[0].Test(state) || AnyHolds(conditions[1..], state)
  }

  /** Won if a win condition holds; otherwise lost if a lose condition holds; otherwise ongoing. */
  function GetStatusFor(state: PeggleState, winConditions: seq<PegglePredicate>, loseConditions: seq<PegglePredicate>): (status: PeggleGameStatus)
    reads state.pegs.Values
    ensures status == Won <==> exists i | 0 <= i < |winConditions| :: winConditions[i].Test(state)
    ensures status == Lost <==>
      (forall i | 0 <= i < |winConditions| :: !winConditions[i].Test(state)) &&
      (exists i | 0 <= i < |loseConditions| :: loseConditions[i].Test(state))
    ensures status.IsGameOver() <==>
      (exists i | 0 <= i < |winConditions| :: winConditions[i].Test(state)) ||
      (exists i | 0 <= i < |loseConditions| :: loseConditions[i].Test(state))
  {
    if AnyHolds(winConditions, state) then Won
    else if AnyHolds(loseConditions, state) then Lost
    else Ongoing
  }

  /** With no conditions at all the game never ends. */
  lemma NoConditionsOngoing(state: PeggleState)
    ensures GetStatusFor(state, [], []) == Ongoing
  {
  }

  /** A win condition that holds decides the game, whatever the lose conditions say. */
  lemma WinTakesPrecedence(state: PeggleState, winConditions: seq<PegglePredicate>, loseConditions: seq<PegglePredicate>, i: nat)
    requires i < |winConditions| && winConditions[i].Test(state)
    ensures GetStatusFor(state, winConditions, loseConditions) == Won
  {
  }

  /**
   * The board is clear exactly when every peg that counts towards winning
   * (the orange ones) has been removed; the other pegs never matter.
   */
  lemma ClearAllOrangePegsMeansWinPegsRemoved(state: PeggleState)
    ensures ClearAllOrangePegs.Test(state) <==>
      forall peg | peg in state.pegs.Values :: peg.color.IsWinCondition() ==> peg.removed
  {
  }

  /** A game without pegs has cleared all its orange pegs. */
  lemma NoPegsIsClear(state: PeggleState)
    requires state.pegs == map[]
    ensures ClearAllOrangePegs.Test(state)
  {
  }

  /** While a ball is in play the player has not run out of balls, however few are left. */
  lemma BallInPlayPreventsRunningOut(state: PeggleState)
    requires state.ball.Some?
    ensures !RanOutOfBalls.Test(state)
  {
  }

  /**
   * Under the game's own rules, clearing the orange pegs wins even with no
   * balls left, and with an orange peg still on the board and a ball in
   * play the game goes on.
   */
  lemma StandardRules(state: PeggleState)
    ensures ClearAllOrangePegs.Test(state) ==> GetStatusFor(state, [ClearAllOrangePegs], [RanOutOfBalls]) == Won
    ensures (exists peg | peg in state.pegs.Values :: peg.color == Orange && !peg.removed) && state.ball.Some? ==>
      GetStatusFor(state, [ClearAllOrangePegs], [RanOutOfBalls]) == Ongoing
    ensures !ClearAllOrangePegs.Test(state) && state.ball == None && state.ballsRemaining <= 0 ==>
      GetStatusFor(state, [ClearAllOrangePegs], [RanOutOfBalls]) == Lost
  {
    var win, lose := [ClearAllOrangePegs], [RanOutOfBalls];
    assert win[0] == ClearAllOrangePegs && lose[0] == RanOutOfBalls;
  }
}
