/**
 * Models/GameObjects/PegType.swift: the three kinds of peg and the role
 * each plays in a game.
 *
 * The colours of pegs and obstacles (`PegColor`, `ObstacleColor`) are not
 * part of this model; they are taken to be the same three cases, which is
 * how the win condition and the level designer use them.
 */
module PegTypes {
  datatype PegType = Blue | Orange | Green
  {
    /** Whether pegs of this type must all be cleared to win: only orange ones. */
    predicate IsWinCondition()
      ensures IsWinCondition() <==> this == Orange
    {
      match this
      case Blue => false
      case Orange => true
      case Green => false
    }

    /** Whether hitting a peg of this type activates a powerup: only green ones. */
    predicate IsPowerup()
      ensures IsPowerup() <==> this == Green
    {
      match this
      case Blue => false
      case Orange => false
      case Green => true
    }
  }

  type PegColor = PegType
  type ObstacleColor = PegType

  /** No type both wins the game and grants a powerup, and blue does neither. */
  lemma RolesAreExclusive(t: PegType)
    ensures !(t.IsWinCondition() && t.IsPowerup())
    ensures t == Blue ==> !t.IsWinCondition() && !t.IsPowerup()
  {
  }
}
