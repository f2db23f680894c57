/**
 * Models/RelativelySized.swift: every game object is sized as a fixed
 * fraction of the level's width, so that the game looks the same on
 * screens of any size.
 */
module RelativeSizing {
  import opened Numerics

  /** The size of an object of relative width `of` in a level whose relative width `relativeTo` is `actualSize` wide. */
  function ScaledSize(of: real, relativeTo: real, actualSize: real): real
  {
    actualSize * Div(of, relativeTo)
  }

  /** The reference width against which all relative widths are given. */
  const LevelWidth: real := 100.0

  const LevelRelativeWidth: real := LevelWidth
  const PegRelativeWidth: real := LevelWidth * 0.06
  const CannonRelativeWidth: real := LevelWidth * 0.15
  const BallRelativeWidth: real := LevelWidth * 0.05
  const BucketRelativeWidth: real := LevelWidth * 0.15

  /** An object as wide as the reference has the actual size. */
  lemma ScaledSizeOfReference(x: real, actualSize: real)
    requires x != 0.0
    ensures ScaledSize(x, x, actualSize) == actualSize
  {
    var q := Div(x, x);
    assert (q - 1.0) * x == 0.0;
    ProductZero(q - 1.0, x);
  }

  /** Scaling is linear in the actual size. */
  lemma ScaledSizeLinear(of: real, relativeTo: real, a: real, b: real, k: real)
    ensures ScaledSize(of, relativeTo, a + b) == ScaledSize(of, relativeTo, a) + ScaledSize(of, relativeTo, b)
    ensures ScaledSize(of, relativeTo, k * a) == k * ScaledSize(of, relativeTo, a)
  {
  }

  /**
   * Against the level, pegs are 6%, cannons and buckets 15% and balls 5%
   * of the actual level width.
   */
  lemma RelativeWidthTable(levelWidth: real)
    ensures ScaledSize(LevelRelativeWidth, LevelRelativeWidth, levelWidth) == levelWidth
    ensures ScaledSize(PegRelativeWidth, LevelRelativeWidth, levelWidth) == 0.06 * levelWidth
    ensures ScaledSize(CannonRelativeWidth, LevelRelativeWidth, levelWidth) == 0.15 * levelWidth
    ensures ScaledSize(BallRelativeWidth, LevelRelativeWidth, levelWidth) == 0.05 * levelWidth
    ensures ScaledSize(BucketRelativeWidth, LevelRelativeWidth, levelWidth) == 0.15 * levelWidth
  {
    ScaledSizeOfReference(LevelRelativeWidth, levelWidth);
    assert Div(6.0, 100.0) == 0.06;
    assert Div(15.0, 100.0) == 0.15;
    assert Div(5.0, 100.0) == 0.05;
  }
}
