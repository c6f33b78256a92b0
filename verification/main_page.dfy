/**
 The earlier shot tracker of MainPage: every change of the last-shot file is
 read into a shot, a shot is admitted unless it repeats the id of the last
 admitted shot or the configured number of shots is already reached, and the
 generator is asked for the target distance of the next shot.
 */
module MainPage {
  import opened Wrappers
  import opened ShotRecords

  /** The shot object built from the last-shot row. */
  datatype Shot = Shot(
    id: real,
    carry: Quantity,
    totalDistance: Quantity,
    offline: Quantity,
    targetDistance: Option<Distance>)

  /** The tracker state: the admitted shots and the target distance of the next shot (None once the count is reached). */
  datatype Tracker = Tracker(shots: seq<Shot>, next: Option<Distance>)

  /**
   Reads the last-shot row. A row whose shot_id is missing or zero is
   ignored. Otherwise the shot takes its id and its three measurements, in
   metres, from the row and is stamped with the target distance that is
   current when the row is read; a missing measurement field makes the unit
   constructor throw before the shot is handed on, so no shot is read.
   */
  function ReadLastShot(rec: RawRecord, next: Option<Distance>): (r: Option<Shot>)
    ensures r.Some? <==> && ShotIdKey in rec && rec[ShotIdKey] != 0.0
                         && CarryKey in rec && TotalDistanceKey in rec && OfflineKey in rec
    ensures r.Some? ==> r.value.id == rec[ShotIdKey] && r.value.targetDistance == next
    ensures r.Some? ==> && r.value.carry == Quantity(rec[CarryKey], Metre)
                        && r.value.totalDistance == Quantity(rec[TotalDistanceKey], Metre)
                        && r.value.offline == Quantity(rec[OfflineKey], Metre)
  {
    if !Truthy(ShotIdOf(rec)) then None
    else if CarryKey !in rec || TotalDistanceKey !in rec || OfflineKey !in rec then None
    else
      Some(Shot(
        rec[ShotIdKey],
        Quantity(rec[CarryKey], Metre),
        Quantity(rec[TotalDistanceKey], Metre),
        Quantity(rec[OfflineKey], Metre),
        next))
  }

  /** The four fields the reader looks at. */
  const RowKeys: set<string> := {ShotIdKey, CarryKey, TotalDistanceKey, OfflineKey}

  /** The value a shot holds for one of the row fields. */
  function Measurement(s: Shot, key: string): real
    requires key in RowKeys
  {
    if key == ShotIdKey then s.id
    else if key == CarryKey then s.carry.value
    else if key == TotalDistanceKey then s.totalDistance.value
    else s.offline.value
  }

  /** The last-shot row the device writes for a shot: the id and the three measurements. */
  function RowOf(s: Shot): RawRecord {
    map k | k in RowKeys :: Measurement(s, k)
  }

  /** Reading back the row written for a shot gives the shot itself, when its id is non-zero and its measurements are in metres. */
  lemma ReadRowOfShot(s: Shot)
    requires s.id != 0.0
    requires s.carry.unit == Metre && s.totalDistance.unit == Metre && s.offline.unit == Metre
    ensures ReadLastShot(RowOf(s), s.targetDistance) == Some(s)
  {
  }

  /** A shot read from a row writes back exactly the row's four shot fields: the reader keeps every value it looks at and ignores the rest. */
  lemma RowOfReadShot(rec: RawRecord, next: Option<Distance>)
    requires ShotIdKey in rec && rec[ShotIdKey] != 0.0
    requires CarryKey in rec && TotalDistanceKey in rec && OfflineKey in rec
    ensures ReadLastShot(rec, next).Some?
    ensures RowOf(ReadLastShot(rec, next).value) == map k | k in rec && k in RowKeys :: rec[k]
  {
  }

  /** The first tracker state: no shots, target distance for the first shot. */
  function Init(gen: nat -> Distance): Tracker {
    Tracker([], Some(gen(0)))
  }

  /** Only the last admitted shot is compared: a shot is new when the list is empty or its id differs from the last one's. */
  predicate IsNewShot(shots: seq<Shot>, shot: Shot) {
    |shots| == 0 || shot.id != shots[|shots| - 1].id
  }

  /**
   Admission of a shot read from the file. A new shot arriving below the
   configured count is appended and the next target distance is picked for
   the new length (undefined once the count is reached); any other arrival
   leaves the state unchanged.
   */
  function Admit(t: Tracker, shot: Shot, numberOfShots: int, gen: nat -> Distance): (r: Tracker)
    ensures IsNewShot(t.shots, shot) && |t.shots| < numberOfShots <==> r.shots == t.shots + [shot]
    ensures r.shots != t.shots + [shot] ==> r == t
    ensures r.shots == t.shots + [shot] ==>
      r.next == (if |r.shots| < numberOfShots then Some(gen(|r.shots|)) else None)
    ensures |t.shots| <= numberOfShots ==> |r.shots| <= numberOfShots
  {
    if IsNewShot(t.shots, shot) && |t.shots| < numberOfShots then
      var shots := t.shots + [shot];
      Tracker(shots, if |shots| < numberOfShots then Some(gen(|shots|)) else None)
    else
      t
  }

  /**
   Restart: the generator has been reset (`gen` is its new epoch); the list
   is emptied and the first target distance is picked again, so the tracker
   starts over in a state that keeps the invariant under any positive count.
   */
  function Restart(gen: nat -> Distance): (r: Tracker)
    ensures r.shots == []
    ensures forall numberOfShots :: numberOfShots > 0 ==> Valid(r, numberOfShots, gen)
  {
    Tracker([], Some(gen(0)))
  }

  /**
   The invariant of the tracker: at most the configured number of shots,
   the i-th shot carries target gen(i), the next target is gen of the
   current length (undefined at the count), and no two consecutive shots
   share an id.
   */
  ghost predicate Valid(t: Tracker, numberOfShots: int, gen: nat -> Distance) {
    && |t.shots| <= numberOfShots
    && (forall i :: 0 <= i < |t.shots| ==> t.shots[i].targetDistance == Some(gen(i)))
    && t.next == (if |t.shots| < numberOfShots then Some(gen(|t.shots|)) else None)
    && (forall i :: 0 < i < |t.shots| ==> t.shots[i - 1].id != t.shots[i].id)
  }

  /** The page's first state satisfies the invariant for any positive count. */
  lemma InitValid(numberOfShots: int, gen: nat -> Distance)
    requires numberOfShots > 0
    ensures Valid(Init(gen), numberOfShots, gen)
  {
  }

  /** After a restart the invariant holds for the new generator epoch. */
  lemma RestartValid(numberOfShots: int, gen: nat -> Distance)
    requires numberOfShots > 0
    ensures Valid(Restart(gen), numberOfShots, gen)
    ensures Restart(gen).shots == []
  {
  }

  /** One change of the last-shot file: read the row with the current next distance, then admit it. */
  function OnLastShotFileChanged(t: Tracker, rec: RawRecord, numberOfShots: int, gen: nat -> Distance): (r: Tracker)
    ensures Valid(t, numberOfShots, gen) ==> Valid(r, numberOfShots, gen)
    ensures t.shots <= r.shots && |r.shots| <= |t.shots| + 1
    ensures |r.shots| == |t.shots| + 1 ==> ReadLastShot(rec, t.next) == Some(r.shots[|t.shots|])
  {
    match ReadLastShot(rec, t.next)
    case None => t
    case Some(shot) => Admit(t, shot, numberOfShots, gen)
  }

  /** A sequence of file changes, handled one after the other. */
  function Run(t: Tracker, recs: seq<RawRecord>, numberOfShots: int, gen: nat -> Distance): (r: Tracker)
    ensures Valid(t, numberOfShots, gen) ==> Valid(r, numberOfShots, gen)
    ensures t.shots <= r.shots
    ensures |r.shots| <= |t.shots| + |recs|
    decreases |recs|
  {
    if |recs| == 0 then t
    else Run(OnLastShotFileChanged(t, recs[0], numberOfShots, gen), recs[1..], numberOfShots, gen)
  }

  /** Reading the same row twice in a row admits it at most once. */
  lemma SameRowTwice(t: Tracker, rec: RawRecord, numberOfShots: int, gen: nat -> Distance)
    ensures var once := OnLastShotFileChanged(t, rec, numberOfShots, gen);
            OnLastShotFileChanged(once, rec, numberOfShots, gen) == once
  {
  }

  /** Only consecutive repeats are rejected: a shot whose id repeats an earlier, non-last shot is admitted. */
  lemma EarlierIdReadmitted(a: Shot, b: Shot, numberOfShots: int, gen: nat -> Distance)
    requires a.id != b.id && numberOfShots >= 3
    ensures var t := Admit(Admit(Admit(Init(gen), a, numberOfShots, gen), b, numberOfShots, gen), a, numberOfShots, gen);
            |t.shots| == 3 && t.shots[0].id == t.shots[2].id
  {
  }
}
