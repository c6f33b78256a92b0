/**
 Properties of DrillPage's full-rescan and polling modes, where the tracker
 rebuilds the session from every record of the shot log: the rebuilt ids are
 distinct when the log's are, a repeated rebuild of an unchanged log changes
 nothing but saves the complete session again, a log read right after the
 baseline capture admits only the records added since, and ids known before
 a restart are never admitted again.
 */
module DrillFullRescan {
  import opened Wrappers
  import opened ShotRecords
  import opened DrillPage

  /** Filtering out the baseline keeps distinct ids distinct. */
  lemma {:induction false} SessionIdsDistinct(ids: seq<ShotId>, baseline: seq<ShotId>)
    requires Distinct(ids)
    ensures Distinct(SessionIds(ids, baseline))
    decreases |ids|
  {
    if |ids| > 0 {
      SessionIdsDistinct(ids[1..], baseline);
      assert ids[0] !in ids[1..];
    }
  }

  /** Filtering a concatenation filters each part. */
  lemma {:induction false} SessionIdsAppend(a: seq<ShotId>, b: seq<ShotId>, baseline: seq<ShotId>)
    ensures SessionIds(a + b, baseline) == SessionIds(a, baseline) + SessionIds(b, baseline)
    decreases |a|
  {
    if |a| == 0 {
      assert a + b == b;
    } else {
      assert (a + b)[1..] == a[1..] + b;
      SessionIdsAppend(a[1..], b, baseline);
    }
  }

  /** Ids that are all in the baseline leave no session id. */
  lemma {:induction false} SessionIdsOfBaseline(ids: seq<ShotId>, baseline: seq<ShotId>)
    requires forall id :: id in ids ==> id in baseline
    ensures SessionIds(ids, baseline) == []
    decreases |ids|
  {
    if |ids| > 0 {
      assert ids[0] in ids;
      SessionIdsOfBaseline(ids[1..], baseline);
    }
  }

  /** A prefix of a sequence of distinct ids has distinct ids. */
  lemma DistinctPrefix(ids: seq<ShotId>, n: nat)
    requires Distinct(ids) && n <= |ids|
    ensures Distinct(ids[..n])
  {
  }

  /** When the log's ids are distinct, so are the ids a rebuild keeps. */
  lemma RebuildKeepsIdsDistinct(t: Tracker, records: seq<RawRecord>, drill: DrillConfiguration,
                                gen: nat -> Distance, stamp: SessionStamp)
    requires Distinct(IdsOf(records)) && Distinct(KnownIds(t.known))
    ensures var r := Rebuild(t, records, drill, gen, stamp);
            r.Success? ==> Distinct(KnownIds(r.value.tracker.known))
  {
    var r := Rebuild(t, records, drill, gen, stamp);
    if r.Success? && t.baseline.Some? {
      var sids := SessionIds(IdsOf(records), t.baseline.value);
      SessionIdsDistinct(IdsOf(records), t.baseline.value);
      if |sids| > 0 {
        DistinctPrefix(sids, Cap(|sids|, drill.numberOfShots));
      }
    }
  }

  /**
   Rebuilding again from an unchanged log reproduces the same state and the
   same outcome: in particular a complete session is handed over again on
   every such call.
   */
  lemma RebuildRepeated(t: Tracker, records: seq<RawRecord>, drill: DrillConfiguration,
                        gen: nat -> Distance, stamp: SessionStamp)
    requires Rebuild(t, records, drill, gen, stamp).Success?
    ensures var s := Rebuild(t, records, drill, gen, stamp).value;
            Rebuild(s.tracker, records, drill, gen, stamp) == Success(s)
  {
  }

  /** Right after the baseline is captured from a log in a full-read mode, rereading the same log changes nothing. */
  lemma CaptureThenReread(t: Tracker, mode: UpdateMode, records: seq<RawRecord>,
                          drill: DrillConfiguration, gen: nat -> Distance, stamp: SessionStamp)
    requires mode != EventReadOnlyLatest
    ensures var c := CaptureBaseline(t, mode, records);
            Rebuild(c, records, drill, gen, stamp) == Success(Step(c, None))
  {
    var c := CaptureBaseline(t, mode, records);
    assert c.baseline == Some(IdsOf(records));
    SessionIdsOfBaseline(IdsOf(records), IdsOf(records));
  }

  /**
   Right after the baseline is captured from a log in a full-read mode,
   reading the log with records appended keeps exactly the appended
   records' ids that were not already in the log, in order, up to the count.
   */
  lemma CaptureThenReadAdded(t: Tracker, mode: UpdateMode, earlier: seq<RawRecord>, added: seq<RawRecord>,
                             drill: DrillConfiguration, gen: nat -> Distance, stamp: SessionStamp)
    requires mode != EventReadOnlyLatest && drill.numberOfShots > 0
    requires |SessionIds(IdsOf(added), IdsOf(earlier))| > 0
    ensures var sids := SessionIds(IdsOf(added), IdsOf(earlier));
            var r := Rebuild(CaptureBaseline(t, mode, earlier), earlier + added, drill, gen, stamp);
            r.Success? && KnownIds(r.value.tracker.known) == sids[..Cap(|sids|, drill.numberOfShots)]
  {
    var c := CaptureBaseline(t, mode, earlier);
    assert c.baseline == Some(IdsOf(earlier));
    assert IdsOf(earlier + added) == IdsOf(earlier) + IdsOf(added);
    SessionIdsOfBaseline(IdsOf(earlier), IdsOf(earlier));
    SessionIdsAppend(IdsOf(earlier), IdsOf(added), IdsOf(earlier));
    assert SessionIds(IdsOf(earlier + added), IdsOf(earlier)) == SessionIds(IdsOf(added), IdsOf(earlier));
  }

  /** When a rebuild keeps shots, its known list is exactly the kept session shots. */
  lemma RebuildKnown(t: Tracker, records: seq<RawRecord>, drill: DrillConfiguration,
                     gen: nat -> Distance, stamp: SessionStamp)
    requires t.baseline.Some? && drill.numberOfShots > 0
    requires |SessionIds(IdsOf(records), t.baseline.value)| > 0
    ensures Rebuild(t, records, drill, gen, stamp).Success?
    ensures Rebuild(t, records, drill, gen, stamp).value.tracker.known
         == SessionShots(records, SessionIds(IdsOf(records), t.baseline.value), drill.numberOfShots, gen)
  {
  }

  /**
   The rebuild stamps in reverse: the oldest session shot gets the distance
   for index k - 1 (k session ids in all), not the gen(0) it would have
   received had the shots arrived one at a time, and, when all k are kept,
   the newest one gets the distance for index 0.
   */
  lemma RebuildTargetsReversed(t: Tracker, records: seq<RawRecord>, drill: DrillConfiguration,
                               gen: nat -> Distance, stamp: SessionStamp)
    requires t.baseline.Some? && drill.numberOfShots > 0
    requires |SessionIds(IdsOf(records), t.baseline.value)| > 0
    ensures var k := |SessionIds(IdsOf(records), t.baseline.value)|;
            var known := Rebuild(t, records, drill, gen, stamp).value.tracker.known;
            && known[0].targetDistance == Some(gen(k - 1))
            && (k <= drill.numberOfShots ==> known[k - 1].targetDistance == Some(gen(0)))
  {
    RebuildKnown(t, records, drill, gen, stamp);
  }

  /**
   The rebuild does not collapse repeated ids: a log holding the same session
   record twice gives two known shots built from that one record, stamped
   with the distances for indices 1 and 0.
   */
  lemma RebuildKeepsDuplicates(t: Tracker, rec: RawRecord, drill: DrillConfiguration,
                               gen: nat -> Distance, stamp: SessionStamp)
    requires t.baseline.Some? && ShotIdOf(rec) !in t.baseline.value && drill.numberOfShots >= 2
    ensures Rebuild(t, [rec, rec], drill, gen, stamp).Success?
    ensures Rebuild(t, [rec, rec], drill, gen, stamp).value.tracker.known
         == [ShotData(rec, Some(gen(1))), ShotData(rec, Some(gen(0)))]
  {
    var id := ShotIdOf(rec);
    assert IdsOf([rec, rec]) == [id, id];
    assert SessionIds([id, id], t.baseline.value) == [id, id] by {
      assert [id, id][1..] == [id];
      assert [id][1..] == [];
    }
  }

  /** Events of the full-read modes: a read of the whole log, or the restart button with the generator's new epoch. */
  datatype RescanEvent = LogRead(records: seq<RawRecord>) | RestartPressed(newGen: nat -> Distance)

  /** Whether a run of events holds log reads only. */
  predicate ReadsOnly(events: seq<RescanEvent>) {
    forall i :: 0 <= i < |events| ==> events[i].LogRead?
  }

  /**
   A run of events, handled one after the other; an aborted transition leaves
   the state as it was. Once captured, the baseline only ever grows, and a run
   without restarts leaves it exactly as it was.
   */
  function RunRescan(t: Tracker, events: seq<RescanEvent>, drill: DrillConfiguration,
                     gen: nat -> Distance, stamp: SessionStamp): (r: Tracker)
    ensures t.baseline.Some? ==> r.baseline.Some? && forall id :: id in t.baseline.value ==> id in r.baseline.value
    ensures ReadsOnly(events) ==> r.baseline == t.baseline
    decreases |events|
  {
    if |events| == 0 then t
    else
      match events[0]
      case LogRead(records) =>
        var next := match Rebuild(t, records, drill, gen, stamp)
                    case Success(s) => s.tracker
                    case Failure(_) => t;
        RunRescan(next, events[1..], drill, gen, stamp)
      case RestartPressed(newGen) =>
        var next := match Restart(t, newGen)
                    case Success(s) => s
                    case Failure(_) => t;
        RunRescan(next, events[1..], drill, newGen, stamp)
  }

  /** The baseline is defined and no known shot carries a baseline id. */
  ghost predicate Separated(t: Tracker) {
    && t.baseline.Some?
    && forall i :: 0 <= i < |t.known| ==> t.known[i].Id() !in t.baseline.value
  }

  /**
   Along any run of log reads and restarts, a baseline id stays in the
   baseline and never becomes a known id.
   */
  lemma {:induction false} BaselineNeverAdmitted(t: Tracker, events: seq<RescanEvent>, drill: DrillConfiguration,
                                                 gen: nat -> Distance, stamp: SessionStamp, id: ShotId)
    requires Separated(t) && id in t.baseline.value
    ensures var r := RunRescan(t, events, drill, gen, stamp);
            Separated(r) && id in r.baseline.value && id !in KnownIds(r.known)
    decreases |events|
  {
    if |events| > 0 {
      match events[0]
      case LogRead(records) =>
        var next := match Rebuild(t, records, drill, gen, stamp)
                    case Success(s) => s.tracker
                    case Failure(_) => t;
        BaselineNeverAdmitted(next, events[1..], drill, gen, stamp, id);
      case RestartPressed(newGen) =>
        var next := match Restart(t, newGen)
                    case Success(s) => s
                    case Failure(_) => t;
        BaselineNeverAdmitted(next, events[1..], drill, newGen, stamp, id);
    }
  }

  /**
   A restart folds every known id into the baseline, so no shot known before
   the restart (nor any older baseline shot) is ever admitted again by later
   log reads, whatever they contain.
   */
  lemma RestartedShotsNeverReadmitted(t: Tracker, newGen: nat -> Distance, events: seq<RescanEvent>,
                                      drill: DrillConfiguration, stamp: SessionStamp, id: ShotId)
    requires t.baseline.Some?
    requires id in KnownIds(t.known) || id in t.baseline.value
    ensures id !in KnownIds(RunRescan(Restart(t, newGen).value, events, drill, newGen, stamp).known)
  {
    BaselineNeverAdmitted(Restart(t, newGen).value, events, drill, newGen, stamp, id);
  }
}
