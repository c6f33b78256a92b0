/**
 The session tracker of DrillPage. Its state is the shots known to belong to
 the current session, the ids of the shots that predate the session (the
 baseline) and the target distance of the next shot. Four transitions act on
 it: capturing the baseline when the page attaches, admitting the latest shot
 (latest-only mode), rebuilding the session from every record of the shot
 log (full-rescan and polling modes) and restarting. When the drill's shot
 count is reached, a Session holding the shots is handed over for saving.
 */
module DrillPage {
  import opened Wrappers
  import opened ShotRecords

  /** How shots reach the page: the latest shot on a file event, every shot on a file event, or every shot by polling. */
  datatype UpdateMode = EventReadOnlyLatest | EventReadAll | Polling

  /** The parts of the drill configuration the tracker reads besides its distance generator. */
  datatype DrillConfiguration = DrillConfiguration(name: string, numberOfShots: int)

  /**
   A shot as it is built from a raw record and the target distance it is
   stamped with. Its id is the record's shot_id; how the other fields are
   converted is not part of this model, so the record is kept as is.
   */
  datatype ShotData = ShotData(record: RawRecord, targetDistance: Option<Distance>) {
    function Id(): ShotId {
      ShotIdOf(record)
    }
  }

  /** The values a saved session takes from the environment: a fresh uuid, a timestamp name and the selected player, if any. */
  datatype SessionStamp = SessionStamp(uuid: string, name: string, playerId: Option<string>)

  /** A finished session, as handed over for saving. */
  datatype Session = Session(
    uuid: string,
    name: string,
    playerId: Option<string>,
    drill: DrillConfiguration,
    shots: seq<ShotData>)

  /** The tracker state; the baseline is None until it has been captured, the next distance None once the count is reached. */
  datatype Tracker = Tracker(known: seq<ShotData>, baseline: Option<seq<ShotId>>, next: Option<Distance>)

  /** A transition's outcome: the new state and the session handed over for saving, if any. */
  datatype Step = Step(tracker: Tracker, saved: Option<Session>)

  /**
   The two ways a transition aborts with the state unchanged: the baseline
   is still undefined, or the rebuild found session shots but kept none
   (the drill's count is not positive), which fails the check that a last
   shot exists.
   */
  datatype TrackerError = BaselineNotRead | NoShotKept

  function KnownIds(shots: seq<ShotData>): seq<ShotId> {
    seq(|shots|, i requires 0 <= i < |shots| => shots[i].Id())
  }

  function SessionOf(stamp: SessionStamp, drill: DrillConfiguration, shots: seq<ShotData>): Session {
    Session(stamp.uuid, stamp.name, stamp.playerId, drill, shots)
  }

  /** The page's first state: nothing known, baseline not yet read, target distance of the first shot. */
  function Init(gen: nat -> Distance): Tracker {
    Tracker([], None, Some(gen(0)))
  }

  /**
   What follows a change of the known list: below the count the generator
   gives the next distance for the new length; at the count the next
   distance becomes undefined and the session is saved.
   */
  function Conclude(known: seq<ShotData>, baseline: Option<seq<ShotId>>, drill: DrillConfiguration,
                    gen: nat -> Distance, stamp: SessionStamp): (r: Step)
    ensures r.tracker.known == known && r.tracker.baseline == baseline
    ensures r.saved.Some? <==> |known| >= drill.numberOfShots
    ensures r.saved.Some? ==> r.tracker.next.None? && r.saved.value == SessionOf(stamp, drill, known)
    ensures r.saved.None? ==> r.tracker.next == Some(gen(|known|))
  {
    if |known| < drill.numberOfShots then
      Step(Tracker(known, baseline, Some(gen(|known|))), None)
    else
      Step(Tracker(known, baseline, None), Some(SessionOf(stamp, drill, known)))
  }

  // ---------------------------------------------------------------------
  // Baseline capture

  /**
   Capturing the baseline when the page attaches: in the two full-read modes
   it is the id of every record of the log, in latest-only mode it is empty.
   The known shots and the next distance are untouched.
   */
  function CaptureBaseline(t: Tracker, mode: UpdateMode, records: seq<RawRecord>): (r: Tracker)
    ensures r.known == t.known && r.next == t.next
    ensures r.baseline.Some?
    ensures mode == EventReadOnlyLatest ==> r.baseline.value == []
    ensures mode != EventReadOnlyLatest ==> forall id :: id in r.baseline.value <==> exists i :: 0 <= i < |records| && ShotIdOf(records[i]) == id
  {
    match mode
    case EventReadAll | Polling =>
      InIdsOf(records);
      Tracker(t.known, Some(IdsOf(records)), t.next)
    case EventReadOnlyLatest =>
      Tracker(t.known, Some([]), t.next)
  }

  // ---------------------------------------------------------------------
  // Latest-only mode

  /**
   Reading the latest-shot row: a row whose shot_id is missing or zero never
   reaches admission; otherwise the shot is stamped with the next distance
   current at reading time.
   */
  function ReadLatestShot(rec: RawRecord, next: Option<Distance>): (r: Option<ShotData>)
    ensures r.Some? <==> ShotIdKey in rec && rec[ShotIdKey] != 0.0
    ensures r.Some? ==> r.value.Id() == Some(rec[ShotIdKey]) && r.value.targetDistance == next
  {
    if Truthy(ShotIdOf(rec)) then Some(ShotData(rec, next)) else None
  }

  /**
   Admission of the latest shot. Only in latest-only mode, and only a shot
   whose id is not among the known ids and that arrives below the count,
   is appended at the end; then the next distance is picked for the new
   length, or, at the count, it becomes undefined and the session of exactly
   the known shots is saved. Every other arrival changes nothing.
   */
  function AdmitLatest(t: Tracker, mode: UpdateMode, shot: ShotData, drill: DrillConfiguration,
                       gen: nat -> Distance, stamp: SessionStamp): (r: Step)
    ensures mode != EventReadOnlyLatest || shot.Id() in KnownIds(t.known) || |t.known| >= drill.numberOfShots
            <==> r == Step(t, None)
    ensures r != Step(t, None) ==>
      && r.tracker.known == t.known + [shot]
      && r.tracker.baseline == t.baseline
      && (|r.tracker.known| < drill.numberOfShots ==> r.tracker.next == Some(gen(|r.tracker.known|)) && r.saved.None?)
      && (|r.tracker.known| == drill.numberOfShots ==> r.tracker.next.None? && r.saved == Some(SessionOf(stamp, drill, r.tracker.known)))
  {
    if mode == EventReadOnlyLatest && (|t.known| == 0 || shot.Id() !in KnownIds(t.known))
       && |t.known| < drill.numberOfShots
    then
      Conclude(t.known + [shot], t.baseline, drill, gen, stamp)
    else
      Step(t, None)
  }

  /** One change of the latest-shot file in latest-only mode: read the row with the current next distance, then admit it. */
  function LatestShotChanged(t: Tracker, rec: RawRecord, drill: DrillConfiguration,
                             gen: nat -> Distance, stamp: SessionStamp): (r: Step)
    ensures t.known <= r.tracker.known && |r.tracker.known| <= |t.known| + 1
    ensures r.tracker.baseline == t.baseline
    ensures |r.tracker.known| == |t.known| + 1 ==>
      r.tracker.known[|t.known|] == ShotData(rec, t.next) && Truthy(ShotIdOf(rec)) && ShotIdOf(rec) !in KnownIds(t.known)
  {
    match ReadLatestShot(rec, t.next)
    case None => Step(t, None)
    case Some(shot) => AdmitLatest(t, EventReadOnlyLatest, shot, drill, gen, stamp)
  }

  // ---------------------------------------------------------------------
  // Full rescan

  /**
   The ids of the log that belong to the current session: those not in the
   baseline, in log order (duplicates included).
   */
  function SessionIds(ids: seq<ShotId>, baseline: seq<ShotId>): (r: seq<ShotId>)
    ensures |r| <= |ids|
    ensures forall id :: id in r <==> id in ids && id !in baseline
    decreases |ids|
  {
    if |ids| == 0 then []
    else
      assert ids == [ids[0]] + ids[1..];
      if ids[0] in baseline then SessionIds(ids[1..], baseline)
      else [ids[0]] + SessionIds(ids[1..], baseline)
  }

  /** The position of the first record carrying the id, as an array search from the front finds it. */
  function FindRecord(records: seq<RawRecord>, id: ShotId): (r: Option<nat>)
    ensures r.Some? ==> r.value < |records| && ShotIdOf(records[r.value]) == id
    ensures r.Some? ==> forall k :: 0 <= k < r.value ==> ShotIdOf(records[k]) != id
    ensures r.None? <==> forall k :: 0 <= k < |records| ==> ShotIdOf(records[k]) != id
    decreases |records|
  {
    if |records| == 0 then None
    else if ShotIdOf(records[0]) == id then Some(0)
    else
      match FindRecord(records[1..], id)
      case None => None
      case Some(k) => Some(k + 1)
  }

  /** How many of k session shots are kept under a count of n. */
  function Cap(k: nat, n: int): nat {
    if n <= 0 then 0 else if k < n then k else n
  }

  /** The i-th shot of a rebuild: the first record carrying the i-th session id, stamped with the generator's distance for index k - 1 - i. */
  function SessionShot(records: seq<RawRecord>, sids: seq<ShotId>, i: nat, gen: nat -> Distance): (s: ShotData)
    requires i < |sids| && sids[i] in IdsOf(records)
    ensures s.Id() == sids[i] && s.targetDistance == Some(gen(|sids| - 1 - i))
    ensures FindRecord(records, sids[i]).Some? && s.record == records[FindRecord(records, sids[i]).value]
  {
    ShotData(records[FindRecord(records, sids[i]).value], Some(gen(|sids| - 1 - i)))
  }

  /**
   The shots a rebuild keeps: one per session id, up to the count, each the
   first record of the log with that id, and the i-th of them stamped with
   the distance for index k - 1 - i, where k counts all session ids.
   */
  function SessionShots(records: seq<RawRecord>, sids: seq<ShotId>, numberOfShots: int, gen: nat -> Distance): (s: seq<ShotData>)
    requires forall id :: id in sids ==> id in IdsOf(records)
    ensures |s| == Cap(|sids|, numberOfShots)
    ensures forall i :: 0 <= i < |s| ==> s[i].Id() == sids[i] && s[i].targetDistance == Some(gen(|sids| - 1 - i))
    ensures forall i :: 0 <= i < |s| ==>
              FindRecord(records, sids[i]).Some? && s[i].record == records[FindRecord(records, sids[i]).value]
  {
    seq(Cap(|sids|, numberOfShots), i requires 0 <= i < Cap(|sids|, numberOfShots) => SessionShot(records, sids, i, gen))
  }

  /**
   The rebuild loop over the session ids: each id is looked up in the log and
   stamped, and it is appended unless the count is already reached.
   */
  method CollectSessionShots(records: seq<RawRecord>, sids: seq<ShotId>, numberOfShots: int, gen: nat -> Distance)
    returns (known: seq<ShotData>)
    requires forall id :: id in sids ==> id in IdsOf(records)
    ensures known == SessionShots(records, sids, numberOfShots, gen)
  {
    known := [];
    for i := 0 to |sids|
      invariant |known| == Cap(i, numberOfShots)
      invariant forall j :: 0 <= j < |known| ==> known[j] == SessionShot(records, sids, j, gen)
    {
      assert sids[i] in sids;
      var k := FindRecord(records, sids[i]).value;
      var shot := ShotData(records[k], Some(gen(|sids| - 1 - i)));
      if |known| < numberOfShots {
        known := known + [shot];
      }
    }
  }

  /**
   Rebuilding the session from every record of the log. The session ids are
   the log's ids outside the baseline; if there are none nothing changes.
   Otherwise the known list is replaced (not extended) by the kept session
   shots, and the next distance is picked or, at the count, the session is
   saved, on every such call. Before the baseline is read any non-empty log
   aborts, and so does a rebuild that keeps no shot.
   */
  function Rebuild(t: Tracker, records: seq<RawRecord>, drill: DrillConfiguration,
                   gen: nat -> Distance, stamp: SessionStamp): (r: Result<Step, TrackerError>)
    ensures t.baseline.None? && |records| > 0 <==> r == Failure(BaselineNotRead)
    ensures t.baseline.None? && |records| == 0 ==> r == Success(Step(t, None))
    ensures t.baseline.Some? ==>
      var sids := SessionIds(IdsOf(records), t.baseline.value);
      && (|sids| == 0 ==> r == Success(Step(t, None)))
      && (|sids| > 0 && drill.numberOfShots <= 0 <==> r == Failure(NoShotKept))
      && (|sids| > 0 && drill.numberOfShots > 0 ==>
            && r.Success?
            && r.value.tracker.baseline == t.baseline
            && KnownIds(r.value.tracker.known) == sids[..Cap(|sids|, drill.numberOfShots)]
            && (forall i :: 0 <= i < |r.value.tracker.known| ==>
                  r.value.tracker.known[i].targetDistance == Some(gen(|sids| - 1 - i))
                  && r.value.tracker.known[i].Id() !in t.baseline.value)
            && (|r.value.tracker.known| < drill.numberOfShots ==>
                  r.value.tracker.next == Some(gen(|r.value.tracker.known|)) && r.value.saved.None?)
            && (|r.value.tracker.known| == drill.numberOfShots ==>
                  r.value.tracker.next.None? && r.value.saved == Some(SessionOf(stamp, drill, r.value.tracker.known))))
  {
    if |records| == 0 then Success(Step(t, None))
    else if t.baseline.None? then Failure(BaselineNotRead)
    else
      var sids := SessionIds(IdsOf(records), t.baseline.value);
      if |sids| == 0 then Success(Step(t, None))
      else if drill.numberOfShots <= 0 then Failure(NoShotKept)
      else
        var known := SessionShots(records, sids, drill.numberOfShots, gen);
        assert KnownIds(known) == sids[..Cap(|sids|, drill.numberOfShots)];
        Success(Conclude(known, t.baseline, drill, gen, stamp))
  }

  // ---------------------------------------------------------------------
  // Restart

  /**
   Restart, after the generator has been reset (`gen` is its new epoch): the
   known ids are put in front of the baseline, the known list is emptied and
   the first target distance is picked again. With the baseline still
   undefined, spreading it throws after the generator was reset: the tracker
   state is unchanged, but the generator's epoch has moved on. The page
   offers the restart button only once the baseline is read, so this path
   is not reachable from the page itself.
   */
  function Restart(t: Tracker, gen: nat -> Distance): (r: Result<Tracker, TrackerError>)
    ensures r.Failure? <==> t.baseline.None?
    ensures r.Success? ==> r.value.known == [] && r.value.next == Some(gen(0)) && r.value.baseline.Some?
    ensures r.Success? ==> forall id :: id in r.value.baseline.value <==> id in KnownIds(t.known) || id in t.baseline.value
  {
    match t.baseline
    case None => Failure(BaselineNotRead)
    case Some(baseline) => Success(Tracker([], Some(KnownIds(t.known) + baseline), Some(gen(0))))
  }
}
