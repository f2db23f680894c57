/**
 * Models/Powerups/PowerupManager.swift: the powerups set off by green
 * pegs. Each activation is recorded with a timer; every update applies each
 * recorded powerup once, advances its timer, and then drops the records
 * that have outlived their powerup's duration.
 */
module Powerups {
  import opened Pegs
  import opened SpatialHashing

  /** A powerup as the manager sees it: a name and how long it lasts, in seconds. */
  datatype Powerup = Powerup(name: string, duration: real)

  /** One application of a powerup's effect on the game, for the peg that set it off. */
  datatype Application = Application(powerup: Powerup, hitPeg: Peg)

  class ActivatedPowerup {
    const powerup: Powerup
    const hitPeg: Peg
    var timeSinceActivated: real

    constructor (powerup: Powerup, hitPeg: Peg)
      ensures this.powerup == powerup && this.hitPeg == hitPeg && timeSinceActivated == 0.0
      ensures !Expired() <==> 0.0 <= powerup.duration
    {
      this.powerup := powerup;
      this.hitPeg := hitPeg;
      timeSinceActivated := 0.0;
    }

    /** A record expires once its timer has passed the powerup's duration. */
    predicate Expired()
      reads this
    {
      timeSinceActivated > powerup.duration
    }
  }

  /** The records of `records` that have not expired, in their original order. */
  function Unexpired(records: seq<ActivatedPowerup>): (r: seq<ActivatedPowerup>)
    reads records
    ensures forall i | 0 <= i < |r| :: r[i] in records && !r[i].Expired()
    ensures forall i | 0 <= i < |records| && !records[i].Expired() :: records[i] in r
    ensures |r| <= |records|
  {
    if records == [] then []
    else
      var rest := Unexpired(records[1..]);
      if records[0].Expired() then rest else [records[0]] + rest
  }

  /** When no record has expired, all are kept. */
  lemma {:induction false} NoneExpiredKeepsAll(records: seq<ActivatedPowerup>)
    requires forall i | 0 <= i < |records| :: !records[i].Expired()
    ensures Unexpired(records) == records
  {
    if records != [] {
      NoneExpiredKeepsAll(records[1..]);
      assert records == [records[0]] + records[1..];
    }
  }

  /** A single record is kept exactly when it has not expired. */
  lemma UnexpiredSingleton(record: ActivatedPowerup)
    ensures Unexpired([record]) == if record.Expired() then [] else [record]
  {
    assert [record][1..] == [];
  }

  /** Filtering distributes over concatenation: each part is filtered on its own. */
  lemma {:induction false} UnexpiredAppend(a: seq<ActivatedPowerup>, b: seq<ActivatedPowerup>)
    ensures Unexpired(a + b) == Unexpired(a) + Unexpired(b)
  {
    if a == [] {
      assert a + b == b;
    } else {
      assert (a + b)[1..] == a[1..] + b;
      UnexpiredAppend(a[1..], b);
    }
  }

  /** Filtering keeps records distinct. */
  lemma {:induction false} UnexpiredDistinct(records: seq<ActivatedPowerup>)
    requires Distinct(records)
    ensures Distinct(Unexpired(records))
  {
    if records != [] {
      var rest := records[1..];
      assert Distinct(rest) by {
        forall i, j | 0 <= i < j < |rest|
          ensures rest[i] != rest[j]
        {
          assert rest[i] == records[i + 1] && rest[j] == records[j + 1];
        }
      }
      UnexpiredDistinct(rest);
      if !records[0].Expired() {
        var r := [records[0]] + Unexpired(rest);
        forall i, j | 0 <= i < j < |r|
          ensures r[i] != r[j]
        {
          if i == 0 {
            assert r[j] in rest;
            var m :| 0 <= m < |rest| && rest[m] == r[j];
            assert records[m + 1] == r[j];
          }
        }
      }
    }
  }

  class PowerupManager {
    var activatedPowerups: seq<ActivatedPowerup>

    /** Each record appears once, so advancing every record's timer advances it once. */
    ghost predicate Valid()
      reads this
    {
      Distinct(activatedPowerups)
    }

    constructor ()
      ensures activatedPowerups == [] && Valid()
    {
      activatedPowerups := [];
    }

    /** Records a new activation of `powerup` by `hitPeg`, with its timer at zero. */
    method ActivatePowerup(powerup: Powerup, hitPeg: Peg)
      modifies this
      ensures |activatedPowerups| == |old(activatedPowerups)| + 1
      ensures activatedPowerups[..|old(activatedPowerups)|] == old(activatedPowerups)
      ensures var record := activatedPowerups[|old(activatedPowerups)|];
        fresh(record) && record.powerup == powerup && record.hitPeg == hitPeg && record.timeSinceActivated == 0.0
      ensures old(Valid()) ==> Valid()
    {
      var record := new ActivatedPowerup(powerup, hitPeg);
      activatedPowerups := activatedPowerups + [record];
    }

    /**
     * Applies every recorded powerup once, in order, and advances each
     * timer by `dt`; then keeps only the records that have not expired. The
     * applications are returned in the order they happened.
     */
    method Update(dt: real) returns (applied: seq<Application>)
      requires Valid()
      modifies this, activatedPowerups
      ensures |applied| == |old(activatedPowerups)|
      ensures forall i | 0 <= i < |applied| ::
        applied[i] == Application(old(activatedPowerups)[i].powerup, old(activatedPowerups)[i].hitPeg)
      ensures forall i | 0 <= i < |old(activatedPowerups)| ::
        old(activatedPowerups)[i].timeSinceActivated == old(activatedPowerups[i].timeSinceActivated) + dt
      ensures activatedPowerups == Unexpired(old(activatedPowerups))
      ensures Valid()
    {
      var records := activatedPowerups;
      applied := [];
      var i := 0;
      while i < |records|
        invariant 0 <= i <= |records| && activatedPowerups == records
        invariant |applied| == i
        invariant forall k | 0 <= k < i :: applied[k] == Application(records[k].powerup, records[k].hitPeg)
        invariant forall k | 0 <= k < i :: records[k].timeSinceActivated == old(records[k].timeSinceActivated) + dt
        invariant forall k | i <= k < |records| :: records[k].timeSinceActivated == old(records[k].timeSinceActivated)
      {
        var record := records[i];
        applied := applied + [Application(record.powerup, record.hitPeg)];
        record.timeSinceActivated := record.timeSinceActivated + dt;
        i := i + 1;
      }
      UnexpiredDistinct(records);
      activatedPowerups := Unexpired(records);
    }
  }

  /**
   * A powerup that lasts no time at all still takes effect once: it is
   * applied before its expiry is checked, and is gone afterwards.
   */
  method InstantPowerupAppliedOnce(peg: Peg, dt: real) returns (applied: seq<Application>, remaining: nat)
    requires 0.0 < dt
    ensures applied == [Application(Powerup("instant", 0.0), peg)]
    ensures remaining == 0
  {
    var manager := new PowerupManager();
    manager.ActivatePowerup(Powerup("instant", 0.0), peg);
    applied := manager.Update(dt);
    remaining := |manager.activatedPowerups|;
  }
}
