/**
 * The best-lap de-duplication policy of the listener: one remembered value,
 * `bestlapOLD`, which starts as None and is compared with each reading's
 * best lap.
 */
module BestLap {
  import opened Wrappers
  import opened Floats

  /** `carro and bestlap and lapNumber != 0`: the reading may be saved at all. */
  predicate Eligible(carro: string, bestlap: Float32, lapNumber: int) {
    carro != "" && !IsZero(bestlap) && lapNumber != 0
  }

  /** `bestlapOLD != bestlap`; None differs from every float. */
  predicate Differs(bestlapOld: Option<Float32>, bestlap: Float32) {
    bestlapOld.None? || !Equal(bestlapOld.value, bestlap)
  }

  /** Whether the listener calls `salvarDB` for this reading. */
  predicate ShouldSave(bestlapOld: Option<Float32>, carro: string, bestlap: Float32, lapNumber: int) {
    Eligible(carro, bestlap, lapNumber) && Differs(bestlapOld, bestlap)
  }

  /**
   * `bestlapOLD` after the reading: set to bestlap on a save attempt, whatever
   * the store did with it, and otherwise left alone.
   */
  function Remember(bestlapOld: Option<Float32>, carro: string, bestlap: Float32, lapNumber: int): (r: Option<Float32>)
    ensures r.Some? ==> !IsZero(r.value) || (bestlapOld.Some? && r == bestlapOld)
  {
    if ShouldSave(bestlapOld, carro, bestlap, lapNumber) then Some(bestlap) else bestlapOld
  }

  /**
   * After any eligible reading, saved or not, the remembered value is that
   * reading's best lap: a skipped reading equals the remembered value bit for bit.
   */
  lemma RememberEligible(bestlapOld: Option<Float32>, carro: string, bestlap: Float32, lapNumber: int)
    requires Eligible(carro, bestlap, lapNumber)
    ensures Remember(bestlapOld, carro, bestlap, lapNumber) == Some(bestlap)
  {
    if !Differs(bestlapOld, bestlap) {
      EqualNonzero(bestlapOld.value, bestlap);
    }
  }

  /**
   * The number of maximal blocks of consecutive `==`-equal values in laps: a
   * new block starts at the first value and wherever a value is not `==` to
   * the one before it.
   */
  function Blocks(laps: seq<Float32>): (n: nat)
    ensures n <= |laps|
    ensures laps != [] ==> n >= 1
  {
    if laps == [] then 0
    else Blocks(laps[..|laps| - 1])
         + (if |laps| == 1 || !Equal(laps[|laps| - 2], laps[|laps| - 1]) then 1 else 0)
  }

  /** The sequence 10.5, 10.5, 9.8, 9.8, 9.8, 9.799 (as binary32 words) has three blocks. */
  lemma ThreeBlocks()
    ensures Blocks([Float32(0x4128_0000), Float32(0x4128_0000), Float32(0x411C_CCCD),
                    Float32(0x411C_CCCD), Float32(0x411C_CCCD), Float32(0x411C_C8B4)]) == 3
  {
    var a, b, c := Float32(0x4128_0000), Float32(0x411C_CCCD), Float32(0x411C_C8B4);
    assert Equal(a, a) && Equal(b, b) && !Equal(a, b) && !Equal(b, c);
    var laps := [a, a, b, b, b, c];
    assert Blocks([a]) == 1;
    assert Blocks([a, a]) == 1 by { assert [a, a][..1] == [a]; }
    assert Blocks([a, a, b]) == 2 by { assert [a, a, b][..2] == [a, a]; }
    assert Blocks([a, a, b, b]) == 2 by { assert [a, a, b, b][..3] == [a, a, b]; }
    assert Blocks([a, a, b, b, b]) == 2 by { assert [a, a, b, b, b][..4] == [a, a, b, b]; }
    assert laps[..5] == [a, a, b, b, b];
  }
}
