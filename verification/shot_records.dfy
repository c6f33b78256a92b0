/**
 The raw records the launch monitor writes (a row of the last-shot CSV file,
 or an entry of a session log), the quantities built from them, and the
 target distances the distance generator hands out.
 */
module ShotRecords {
  import opened Wrappers

  /** A parsed record: field name to number. JavaScript numbers are modelled as reals. */
  type RawRecord = map<string, real>

  /** A shot id as the page sees it: a number, or undefined when the record has no such field. */
  type ShotId = Option<real>

  const ShotIdKey: string := "shot_id"
  const CarryKey: string := "carry_m"
  const TotalDistanceKey: string := "total_distance_m"
  const OfflineKey: string := "offline_m"
  const Metre: string := "m"

  /** A mathjs unit value: a magnitude and a unit name. */
  datatype Quantity = Quantity(value: real, unit: string)

  /** A target distance, as the distance generator returns it. */
  type Distance = Quantity

  /** Reading a field of a record; an absent field reads as undefined. */
  function Field(rec: RawRecord, key: string): Option<real> {
    if key in rec then Some(rec[key]) else None
  }

  function ShotIdOf(rec: RawRecord): ShotId {
    Field(rec, ShotIdKey)
  }

  /** JavaScript's `!!v` for a number or undefined: false for undefined and zero (NaN is not modelled). */
  predicate Truthy(v: Option<real>) {
    v.Some? && v.value != 0.0
  }

  /** The shot id of every record, in record order. */
  function IdsOf(records: seq<RawRecord>): seq<ShotId> {
    seq(|records|, i requires 0 <= i < |records| => ShotIdOf(records[i]))
  }

  /** An id is among the records' ids exactly when some record carries it. */
  lemma InIdsOf(records: seq<RawRecord>)
    ensures forall id :: id in IdsOf(records) <==> exists i :: 0 <= i < |records| && ShotIdOf(records[i]) == id
  {
    forall id | exists i :: 0 <= i < |records| && ShotIdOf(records[i]) == id
      ensures id in IdsOf(records)
    {
      var i :| 0 <= i < |records| && ShotIdOf(records[i]) == id;
      assert IdsOf(records)[i] == id;
    }
  }

  /** No id occurs twice. */
  predicate Distinct(ids: seq<ShotId>) {
    forall i, j :: 0 <= i < j < |ids| ==> ids[i] != ids[j]
  }
}
