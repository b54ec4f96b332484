/**
 * The snapshot the listener broadcasts for each decoded datagram: the keys of
 * its JSON object, with the two byte-to-percentage conversions it computes.
 */
module Message {
  import opened Wrappers
  import opened Floats
  import opened Telemetry

  /**
   * `round(raw / 255 * 100)` for a byte: the integer nearest to 20*raw/51.
   * That quotient is never exactly halfway between two integers, so the
   * rounding rule for ties does not matter.
   */
  function Percent(raw: int): (r: int)
    requires 0 <= raw < 0x100
    ensures 0 <= r <= 100
    ensures -51 < 2 * (51 * r - 20 * raw) < 51
  {
    (200 * raw + 255) / 510
  }

  /** The bound above pins the result down: no other integer is that close to 20*raw/51. */
  lemma PercentIsNearest(raw: int, k: int)
    requires 0 <= raw < 0x100
    requires -51 < 2 * (51 * k - 20 * raw) < 51
    ensures k == Percent(raw)
  {
  }

  lemma PercentEnds()
    ensures Percent(0) == 0 && Percent(255) == 100
  {
  }

  /** A harder press never shows a smaller percentage. */
  lemma PercentMonotone(a: int, b: int)
    requires 0 <= a <= b < 0x100
    ensures Percent(a) <= Percent(b)
  {
  }

  /**
   * The dictionary passed to `json.dumps`. The float-derived values (km/h
   * speed, boost / 14.504, rounded best lap, fuel percentage) are carried
   * as the raw words they are computed from.
   */
  datatype Snapshot = Snapshot(
    rpm: Float32,
    gear: int,
    steer: int,
    acelerador: int,
    freio: int,
    velocidade: Float32,
    boost: Float32,
    bestlap: Float32,
    racePosition: int,
    lapNumber: int,
    fuel: Float32,
    carro: string,
    corridastatus: bool)

  /**
   * The message for a decoded reading, given its resolved car name and race
   * status; None where building it raises: `round(fuel / 1 * 100)` has no
   * integer to return for a NaN or infinite fuel word (ValueError,
   * OverflowError). The other float roundings take a digit count and return
   * a float, so they never raise.
   */
  function MakeSnapshot(r: Reading, carro: string, corridastatus: bool): (m: Option<Snapshot>)
    requires WellFormed(r)
    ensures m.None? <==> !IsFinite(r.fuel)
    ensures m.Some? ==>
              && m.value.acelerador == Percent(r.throttle) && m.value.freio == Percent(r.brake)
              && 0 <= m.value.acelerador <= 100 && 0 <= m.value.freio <= 100
              && m.value.gear == r.gear && m.value.steer == r.steer
              && m.value.racePosition == r.racePosition && m.value.lapNumber == r.lapNumber
              && m.value.rpm == r.rpm && m.value.velocidade == r.speed && m.value.boost == r.boost
              && m.value.bestlap == r.bestLap && m.value.fuel == r.fuel
              && m.value.carro == carro && m.value.corridastatus == corridastatus
  {
    if !IsFinite(r.fuel) then None
    else
      Some(Snapshot(r.rpm, r.gear, r.steer, Percent(r.throttle), Percent(r.brake), r.speed,
                    r.boost, r.bestLap, r.racePosition, r.lapNumber, r.fuel, carro, corridastatus))
  }
}
