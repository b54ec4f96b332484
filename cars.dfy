/** The car-name table (`buscar_carro`) and the race-status test (`corridaStatus`). */
module Cars {

  /** The name shown for an id the table does not hold. */
  const Unknown: string := "Carro Desconhecido"

  /** The thirteen car ids the dashboard knows, with their display names. */
  const Table: map<int, string> := map[
    2544 := "VIPER 2016",
    1131 := "458 2013",
    1599 := "599XX E",
    2750 := "Twin Mill",
    1670 := "MP4 F1",
    338 := "Mclaren F1 GT",
    2470 := "Vulcan",
    3072 := "911 GT3 2019",
    1175 := "Pagani zonda r",
    631 := "AM DBR9",
    2813 := "DEMON FF",
    1011 := "M3 2008",
    1111 := "M3 GT2"
  ]

  /**
   * The display name of a car id: its table entry, or the sentinel. Never
   * empty, so the listener's `carro` test always passes.
   */
  function CarName(carId: int): (name: string)
    ensures name != ""
    ensures carId in Table ==> name == Table[carId]
    ensures carId !in Table ==> name == Unknown
  {
    if carId in Table then Table[carId] else Unknown
  }

  /** The sentinel is not the name of any listed car, so it tells unknown ids apart. */
  lemma UnknownIffUnlisted(carId: int)
    ensures CarName(carId) == Unknown <==> carId !in Table
  {
    if carId in Table {
      assert Table[carId] in Table.Values;
      assert Unknown !in Table.Values;
    }
  }

  /** `corridaStatus`: a race is on exactly when the packet's isRaceOn word is nonzero. */
  function RaceStatus(isRaceOn: int): (on: bool)
    ensures on <==> isRaceOn != 0
  {
    if isRaceOn != 0 then true else false
  }
}
