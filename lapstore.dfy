/**
 * The lap-record table SessoesJogo as the listener uses it: rows are only
 * ever added, and the unique constraint on (Tempo_volta, Nome_carro) makes
 * the database refuse a second row with the same pair.
 */
module LapStore {
  import opened Floats

  /** One row: Nome_carro, Tempo_volta, Quantidade_volta. */
  datatype LapRecord = LapRecord(car: string, lapTime: Float32, lapCount: int)

  /** Two rows collide on the unique constraint: `==` lap times and the same car name. */
  predicate SameKey(a: LapRecord, b: LapRecord) {
    Equal(a.lapTime, b.lapTime) && a.car == b.car
  }

  predicate HasKey(records: seq<LapRecord>, rec: LapRecord) {
    exists i :: 0 <= i < |records| && SameKey(records[i], rec)
  }

  /** The table's invariant: no two rows share a key. */
  predicate KeysUnique(records: seq<LapRecord>) {
    forall i, j :: 0 <= i < j < |records| ==> !SameKey(records[i], records[j])
  }

  datatype InsertOutcome = Inserted | Duplicate

  /**
   * `session.add` then `session.commit` of rec: the new table and whether
   * the commit went through or failed on the unique constraint.
   */
  function Insert(records: seq<LapRecord>, rec: LapRecord): (r: (seq<LapRecord>, InsertOutcome))
    ensures r.1 == Duplicate <==> HasKey(records, rec)
    ensures records <= r.0
    ensures r.1 == Duplicate ==> r.0 == records
    ensures r.1 == Inserted ==> r.0 == records + [rec]
    ensures KeysUnique(records) ==> KeysUnique(r.0)
    ensures !IsNaN(rec.lapTime) ==> HasKey(r.0, rec)
  {
    if HasKey(records, rec) then (records, Duplicate)
    else
      var grown := records + [rec];
      assert !IsNaN(rec.lapTime) ==> SameKey(grown[|records|], rec);
      (grown, Inserted)
  }

  /** Inserting the same record twice in a row leaves one copy: the second insert is refused. */
  lemma InsertTwice(records: seq<LapRecord>, rec: LapRecord)
    requires !IsNaN(rec.lapTime)
    ensures Insert(Insert(records, rec).0, rec) == (Insert(records, rec).0, Duplicate)
  {
  }
}
