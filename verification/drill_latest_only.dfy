/**
 Properties of DrillPage's latest-only mode, where every change of the
 last-shot file hands the tracker the single latest shot: the known ids stay
 distinct, the list never exceeds the drill's count, the i-th admitted shot
 is stamped with the generator's distance for index i, and a session is
 saved at most once.
 */
module DrillLatestOnly {
  import opened Wrappers
  import opened ShotRecords
  import opened DrillPage

  /**
   The latest-only invariant: at most the drill's count of shots, pairwise
   distinct ids, the i-th shot stamped with gen(i), and the next distance
   gen of the current length (undefined at the count).
   */
  ghost predicate Valid(t: Tracker, drill: DrillConfiguration, gen: nat -> Distance) {
    && |t.known| <= drill.numberOfShots
    && Distinct(KnownIds(t.known))
    && (forall i :: 0 <= i < |t.known| ==> t.known[i].targetDistance == Some(gen(i)))
    && t.next == (if |t.known| < drill.numberOfShots then Some(gen(|t.known|)) else None)
  }

  /** The page's first state, with or without its (empty) latest-only baseline, satisfies the invariant. */
  lemma InitValid(drill: DrillConfiguration, gen: nat -> Distance, records: seq<RawRecord>)
    requires drill.numberOfShots > 0
    ensures Valid(Init(gen), drill, gen)
    ensures Valid(CaptureBaseline(Init(gen), EventReadOnlyLatest, records), drill, gen)
    ensures CaptureBaseline(Init(gen), EventReadOnlyLatest, records).baseline == Some([])
  {
  }

  /** Appending a shot appends its id. */
  lemma KnownIdsAppend(known: seq<ShotData>, shot: ShotData)
    ensures KnownIds(known + [shot]) == KnownIds(known) + [shot.Id()]
  {
  }

  /**
   One file change keeps the invariant, and a session is handed over exactly
   when this change brings the list from below the count up to it; the
   session then holds exactly the known shots in admission order.
   */
  lemma StepPreservesValid(t: Tracker, rec: RawRecord, drill: DrillConfiguration, gen: nat -> Distance, stamp: SessionStamp)
    requires Valid(t, drill, gen)
    ensures var s := LatestShotChanged(t, rec, drill, gen, stamp);
            && Valid(s.tracker, drill, gen)
            && (s.saved.Some? <==> |t.known| < drill.numberOfShots && |s.tracker.known| == drill.numberOfShots)
            && (s.saved.Some? ==> s.saved.value == SessionOf(stamp, drill, s.tracker.known))
  {
    var s := LatestShotChanged(t, rec, drill, gen, stamp);
    if |s.tracker.known| == |t.known| + 1 {
      var shot := ShotData(rec, t.next);
      KnownIdsAppend(t.known, shot);
      assert s.tracker.known == t.known + [shot];
      assert KnownIds(s.tracker.known) == KnownIds(t.known) + [shot.Id()];
    } else {
      assert s.tracker.known == t.known;
    }
  }

  /** What a run of file changes produces: the final state and the sessions handed over on the way, in order. */
  datatype Trace = Trace(tracker: Tracker, saved: seq<Session>)

  /** A run of latest-shot file changes, handled one after the other. */
  function RunLatest(t: Tracker, recs: seq<RawRecord>, drill: DrillConfiguration, gen: nat -> Distance, stamp: SessionStamp): (r: Trace)
    ensures t.known <= r.tracker.known
    ensures r.tracker.baseline == t.baseline
    ensures |r.tracker.known| <= |t.known| + |recs|
    decreases |recs|
  {
    if |recs| == 0 then Trace(t, [])
    else
      var s := LatestShotChanged(t, recs[0], drill, gen, stamp);
      var rest := RunLatest(s.tracker, recs[1..], drill, gen, stamp);
      Trace(rest.tracker, (if s.saved.Some? then [s.saved.value] else []) + rest.saved)
  }

  /** The invariant holds after any run of file changes. */
  lemma {:induction false} RunPreservesValid(t: Tracker, recs: seq<RawRecord>, drill: DrillConfiguration, gen: nat -> Distance, stamp: SessionStamp)
    requires Valid(t, drill, gen)
    ensures Valid(RunLatest(t, recs, drill, gen, stamp).tracker, drill, gen)
    decreases |recs|
  {
    if |recs| > 0 {
      StepPreservesValid(t, recs[0], drill, gen, stamp);
      RunPreservesValid(LatestShotChanged(t, recs[0], drill, gen, stamp).tracker, recs[1..], drill, gen, stamp);
    }
  }

  /** Once the count is reached, later arrivals change nothing and save nothing. */
  lemma {:induction false} AtCountIdle(t: Tracker, recs: seq<RawRecord>, drill: DrillConfiguration, gen: nat -> Distance, stamp: SessionStamp)
    requires |t.known| >= drill.numberOfShots
    ensures RunLatest(t, recs, drill, gen, stamp) == Trace(t, [])
    decreases |recs|
  {
    if |recs| > 0 {
      assert LatestShotChanged(t, recs[0], drill, gen, stamp) == Step(t, None);
      AtCountIdle(t, recs[1..], drill, gen, stamp);
    }
  }

  /**
   A run saves at most one session: one exactly when it brings the list from
   below the count up to the count, and that session holds the final known
   shots.
   */
  lemma {:induction false} RunSavesOnce(t: Tracker, recs: seq<RawRecord>, drill: DrillConfiguration, gen: nat -> Distance, stamp: SessionStamp)
    requires Valid(t, drill, gen)
    ensures var r := RunLatest(t, recs, drill, gen, stamp);
            && |r.saved| <= 1
            && (|r.saved| == 1 <==> |t.known| < drill.numberOfShots && |r.tracker.known| == drill.numberOfShots)
            && (|r.saved| == 1 ==> r.saved[0] == SessionOf(stamp, drill, r.tracker.known))
    decreases |recs|
  {
    if |recs| > 0 {
      var s := LatestShotChanged(t, recs[0], drill, gen, stamp);
      StepPreservesValid(t, recs[0], drill, gen, stamp);
      if s.saved.Some? {
        AtCountIdle(s.tracker, recs[1..], drill, gen, stamp);
      } else {
        RunSavesOnce(s.tracker, recs[1..], drill, gen, stamp);
        RunPreservesValid(s.tracker, recs[1..], drill, gen, stamp);
      }
    }
  }

  /** The same row read twice in a row (the file rewritten with the same content) is admitted at most once. */
  lemma SameRowTwice(t: Tracker, rec: RawRecord, drill: DrillConfiguration, gen: nat -> Distance, stamp: SessionStamp)
    ensures var once := LatestShotChanged(t, rec, drill, gen, stamp);
            LatestShotChanged(once.tracker, rec, drill, gen, stamp) == Step(once.tracker, None)
  {
    var once := LatestShotChanged(t, rec, drill, gen, stamp);
    if |once.tracker.known| == |t.known| + 1 {
      KnownIdsAppend(t.known, ShotData(rec, t.next));
      assert ShotIdOf(rec) in KnownIds(once.tracker.known);
    }
  }

  /**
   The baseline plays no part in latest-only admission: after a restart, a
   row carrying an id that was known before the restart is admitted again,
   as the first shot of the new session.
   */
  lemma RestartDoesNotBlockReadmission(t: Tracker, rec: RawRecord, drill: DrillConfiguration,
                                       newGen: nat -> Distance, stamp: SessionStamp)
    requires t.baseline.Some? && drill.numberOfShots > 0
    requires Truthy(ShotIdOf(rec)) && ShotIdOf(rec) in KnownIds(t.known)
    ensures Restart(t, newGen).Success?
    ensures LatestShotChanged(Restart(t, newGen).value, rec, drill, newGen, stamp).tracker.known
            == [ShotData(rec, Some(newGen(0)))]
  {
  }
}
