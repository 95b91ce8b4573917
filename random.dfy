/**
 * The random source the controller draws from.  The pseudo-random algorithm and its
 * seeding are outside the model: the source is an injected stream of raw integers, and
 * every call of `Next` consumes exactly one of them, in the order the controller makes
 * its calls.
 */
module RandomSource {

  /** The value a draw at position `pos` of the stream yields for the range [lo, hi): the
      raw value when it lies in the range, and lo otherwise.  Every value of the range is
      the draw of some stream. */
  function Draw(raw: nat -> int, pos: nat, lo: int, hi: int): (r: int)
    requires lo < hi
    ensures lo <= r < hi
    ensures lo <= raw(pos) < hi ==> r == raw(pos)
  {
    var x := raw(pos);
    if lo <= x < hi then x else lo
  }

  class Random {
    /** The raw stream; fixed for the lifetime of the source. */
    const raw: nat -> int
    /** How many draws have been consumed so far. */
    var pos: nat

    constructor (raw: nat -> int)
      ensures this.raw == raw && pos == 0
    {
      this.raw := raw;
      pos := 0;
    }

    /** An integer in [lo, hi), like System.Random.Next(lo, hi). */
    method Next(lo: int, hi: int) returns (r: int)
      requires lo < hi
      modifies this
      ensures lo <= r < hi
      ensures r == Draw(raw, old(pos), lo, hi) && pos == old(pos) + 1
    {
      r := Draw(raw, pos, lo, hi);
      pos := pos + 1;
    }
  }
}
