/** System.Random as an oracle: the raw draws it will make, in order, and
    how many it has made. Next(lo, hi) maps a raw draw into [lo, hi), so every
    value of the range is reachable and nothing outside it is. */
module Randomness {

  /** The value Next(lo, hi) yields for a given raw draw. */
  function NextValue(lo: int, hi: int, raw: nat): (r: int)
    requires lo <= hi
    ensures lo == hi ==> r == lo
    ensures lo < hi ==> lo <= r < hi
  {
    if lo == hi then lo else lo + raw % (hi - lo)
  }

  /** Every value of [lo, hi) is produced by some draw. */
  lemma NextValueCovers(lo: int, hi: int, v: int)
    requires lo <= v < hi
    ensures NextValue(lo, hi, (v - lo) as nat) == v
  {
  }

  class RandomSource {
    const draws: nat -> nat
    var used: nat

    constructor (draws: nat -> nat)
      ensures this.draws == draws && used == 0
    {
      this.draws := draws;
      used := 0;
    }

    /** Random.Next(lo, hi); .NET rejects lo > hi, which no caller here passes. */
    method Next(lo: int, hi: int) returns (r: int)
      requires lo <= hi
      modifies this
      ensures r == NextValue(lo, hi, draws(old(used))) && used == old(used) + 1
    {
      r := NextValue(lo, hi, draws(used));
      used := used + 1;
    }
  }
}
