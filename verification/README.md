# Shot-session tracker of GCQuadCombineTest, modelled in Dafny

GCQuadCombineTest reads the shots a golf launch monitor writes to disk and
pairs each shot with a target distance that a distance generator picks. When
a drill's configured number of shots is complete, it hands the session over
for saving. This project models the two shot trackers in the app's views as
pure state-transition functions and proves their invariants.

- **DrillPage** (`drill_page.dfy`, module `DrillPage`). The tracker state is:
  - the known shots of the current session;
  - the baseline, i.e. the ids of shots that predate the session (undefined until captured);
  - the next target distance (undefined once the count is reached).

  It has four transitions: baseline capture on attach, latest-only
  admission, full-rescan rebuild and restart. `drill_latest_only.dfy` proves
  the latest-only invariants over arbitrary runs. `drill_full_rescan.dfy`
  proves the rebuild and restart properties over arbitrary runs of log reads
  and restarts.
- **MainPage** (`main_page.dfy`, `main_page_deviation.dfy`). This is the
  earlier tracker. It normalises a CSV row into a shot and rejects only a
  repeat of the last admitted id. It caps the list, picks the next distance,
  and computes the deviation sums shown under the list.
- `shot_records.dfy` holds the shared vocabulary: raw records, quantities,
  distances and shot ids. `wrappers.dfy` holds `Option`/`Result`.

Modelling conventions:
- A raw record is a map from field name to number. JavaScript numbers are
  reals, and `undefined` is `None`.
- A shot id is a number or undefined. The full-rescan path never checks ids,
  so an absent `shot_id` flows through it as an undefined id, as in the code.
- The distance generator of the current reset epoch is a function
  `gen: nat -> Distance`. A restart takes the generator's new epoch as a
  parameter.
- The shot count is an `int`. The model does not require it to be positive,
  so the non-positive cases behave as the code does.
- The session uuid, the timestamp name and the player are an opaque
  `SessionStamp` input.
- `ShotData.fromJson` is not part of this model. A DrillPage shot keeps its
  record and its target, and its id is the record's `shot_id`.

Behaviour of the code worth knowing, which the model reproduces:
- A full rescan stamps the i-th session shot with the distance for index
  k - 1 - i, where k is the number of session ids. It does not use the
  distance current at admission (`RebuildTargetsReversed`).
- A full rescan that ends at the count saves the session again on every call
  (`RebuildRepeated`). It is not saved once.
- Restart puts the known ids in front of the baseline list, rather than
  taking a set union. Membership is the same.
- Latest-only admission does not consult the baseline at all. A shot known
  before a restart is admitted again if its row is read again
  (`RestartDoesNotBlockReadmission`).
- The id guard rejects only a missing or zero `shot_id`. Negative and
  fractional ids pass. MainPage compares a new id only with the last admitted
  id (`EarlierIdReadmitted`).
- A restart before the baseline is captured aborts: spreading an undefined
  list throws. So does a rebuild of a non-empty log before capture, because
  `includes` is called on undefined. A rebuild that finds session ids but
  keeps none fails the last-shot assertion. In all three cases the tracker
  state is unchanged (`TrackerError`). The aborted restart has already reset
  the generator, so later reads use its new epoch (`DrillFullRescan.RunRescan`).
  The page shows the restart button only once the baseline is read.
- A full rescan does not collapse repeated ids. If the log holds the same
  session id twice, the rebuild keeps two shots built from the first record
  with that id (`DrillFullRescan.RebuildKeepsDuplicates`).
  `DrillFullRescan.RebuildKeepsIdsDistinct` covers only logs with distinct ids.
- MainPage builds the three measurements with mathjs's `unit`, which has no
  signature for an undefined magnitude. A row with a truthy id but a missing
  `carry_m`, `total_distance_m` or `offline_m` field therefore throws before
  the shot is handed on, and no shot is read (`MainPage.ReadLastShot`).

## Model

| member | source | states |
|---|---|---|
| `MainPage.ReadLastShot` | src/app/views/MainPage/MainPage.tsx:37-49 | a shot is read if and only if the row's shot_id is present and non-zero and all three measurement fields are present; the shot's id is the row's shot_id, its three measurements are the row's values in metres and its target is the next distance current at reading time |
| `MainPage.ReadRowOfShot` | src/app/views/MainPage/MainPage.tsx:42-48 | round trip: reading the row written for a shot (non-zero id, metre quantities) gives back that shot |
| `MainPage.RowOfReadShot` | src/app/views/MainPage/MainPage.tsx:42-48 | round trip the other way: a row with a non-zero id and all three measurements is read, and the shot read writes back exactly the row's four shot fields, so nothing read is lost and nothing else is read |
| `MainPage.Admit` | src/app/views/MainPage/MainPage.tsx:92-115 | a shot is appended, exactly at the end, if and only if the list is empty or its id differs from the last one's and the list is below the count; otherwise the state is unchanged; after an append the next distance is gen of the new length, or undefined at the count; the cap is never exceeded |
| `MainPage.InitValid` | src/app/views/MainPage/MainPage.tsx:34-35 | the first state (no shots, next distance gen(0)) satisfies the tracker invariant |
| `MainPage.Restart` | src/app/views/MainPage/MainPage.tsx:117-122 | restart empties the list and leaves a state that keeps the tracker invariant for the generator's new epoch under any positive count |
| `MainPage.RestartValid` | src/app/views/MainPage/MainPage.tsx:117-122 | restart empties the list and re-establishes the invariant for the generator's new epoch, with next distance gen(0) |
| `MainPage.OnLastShotFileChanged` | src/app/views/MainPage/MainPage.tsx:92-113 | one file change keeps the invariant: length at most the count, the i-th shot targets gen(i), next distance gen(length) or undefined at the count, no two consecutive equal ids; the list only grows at the end, by at most one shot, and an appended shot is exactly the shot read from the row with the next distance current before the change |
| `MainPage.Run` | src/app/views/MainPage/MainPage.tsx:92-113 | any run of file changes keeps the invariant and only appends to the list |
| `MainPage.SameRowTwice` | src/app/views/MainPage/MainPage.tsx:93 | the same row read twice in a row is admitted at most once |
| `MainPage.EarlierIdReadmitted` | src/app/views/MainPage/MainPage.tsx:93 | only the last id is compared: a shot repeating an earlier, non-last id is admitted again |
| `MainPageDeviation.ReduceIsSum` | src/app/views/MainPage/MainPage.tsx:130-132 | the left-to-right reduction from an initial value equals that value plus the reference sum |
| `MainPageDeviation.AbsoluteDeviationSum` | src/app/views/MainPage/MainPage.tsx:130-132 | the absolute-deviation sum reduced from zero is the sum of the per-shot deviations: zero for the empty list, never negative when no deviation is |
| `MainPageDeviation.AbsoluteDeviationSumAppend` | src/app/views/MainPage/MainPage.tsx:130-132 | admitting one more shot adds exactly its deviation to the absolute sum |
| `MainPageDeviation.RelativeDeviationSum` | src/app/views/MainPage/MainPage.tsx:141-143 | the relative-deviation sum is 100 times the sum of the per-shot relative deviations, zero for the empty list |
| `DrillPage.Conclude` | src/app/views/DrillPage/DrillPage.tsx:130-143 | after the known list changes (here and at lines 185-198 of the rebuild) the list and baseline are kept; a session of exactly the known shots is saved if and only if the list has reached the count, and then the next distance is undefined; otherwise the next distance is gen of the list's length |
| `DrillPage.CaptureBaseline` | src/app/views/DrillPage/DrillPage.tsx:251-261 | the baseline becomes defined: the ids of every record of the log in the two full-read modes, empty in latest-only mode; known shots and next distance are untouched |
| `DrillPage.ReadLatestShot` | src/app/views/DrillPage/DrillPage.tsx:102-112 | a last-shot row with a missing or zero shot_id never reaches admission; otherwise the shot's id is the row's shot_id and its target the next distance at reading time |
| `DrillPage.AdmitLatest` | src/app/views/DrillPage/DrillPage.tsx:114-148 | the state is unchanged (and nothing saved) if and only if the mode is not latest-only, the id is already known, or the count is reached; otherwise exactly the shot is appended, the baseline kept, and the next distance is gen(new length), or at the count it becomes undefined and the session of exactly the known shots is saved |
| `DrillPage.LatestShotChanged` | src/app/views/DrillPage/DrillPage.tsx:102-148 | one change of the last-shot file only appends, and appends at most the row's shot, stamped with the current next distance, with a truthy id not yet known; the baseline is unchanged |
| `DrillPage.SessionIds` | src/app/views/DrillPage/DrillPage.tsx:152-156 | an id is a session id if and only if it occurs in the log and not in the baseline |
| `DrillPage.FindRecord` | src/app/views/DrillPage/DrillPage.tsx:166 | the search finds the first record carrying the id, and finds nothing exactly when no record carries it |
| `DrillPage.SessionShots` | src/app/views/DrillPage/DrillPage.tsx:163-178 | the kept shots number min(k, count); the i-th carries the i-th session id, the first log record with that id, and the target gen(k - 1 - i) |
| `DrillPage.CollectSessionShots` | src/app/views/DrillPage/DrillPage.tsx:161-178 | the loop over the session ids, skipping shots once the count is reached, builds exactly the kept shots |
| `DrillPage.Rebuild` | src/app/views/DrillPage/DrillPage.tsx:150-201 | the rebuild aborts for a non-empty log before baseline capture, and aborts when it finds session ids but the count is not positive; with no session ids nothing changes; otherwise the known list is replaced by the first min(k, count) session ids in log order, none of them a baseline id, stamped in reverse; the baseline is kept; the next distance is gen(length), or at the count it is undefined and the session is saved |
| `DrillPage.Restart` | src/app/views/DrillPage/DrillPage.tsx:287-299 | restart aborts if and only if the baseline was never captured; otherwise the known list is emptied, the next distance is gen(0) of the new epoch, and the new baseline holds exactly the old known ids and the old baseline ids |
| `DrillLatestOnly.InitValid` | src/app/views/DrillPage/DrillPage.tsx:58-59 | the first state, and the first state after the latest-only baseline capture (an empty baseline), satisfy the latest-only invariant |
| `DrillLatestOnly.StepPreservesValid` | src/app/views/DrillPage/DrillPage.tsx:114-148 | one file change keeps the invariant (length at most the count, distinct ids, i-th shot targets gen(i), next distance gen(length) or undefined at the count) and saves a session exactly when it brings the list up to the count, with exactly the known shots |
| `DrillLatestOnly.RunPreservesValid` | src/app/views/DrillPage/DrillPage.tsx:117-144 | the latest-only invariant holds after any run of file changes |
| `DrillLatestOnly.RunLatest` | src/app/views/DrillPage/DrillPage.tsx:102-148 | a run of latest-shot file changes only appends to the known list, by at most one shot per change, and never touches the baseline |
| `DrillLatestOnly.AtCountIdle` | src/app/views/DrillPage/DrillPage.tsx:120-122 | once the count is reached, any further arrivals leave all state unchanged and save nothing |
| `DrillLatestOnly.RunSavesOnce` | src/app/views/DrillPage/DrillPage.tsx:130-143 | a run saves at most one session; it saves one exactly when it brings the list from below the count to the count, and that session holds the final known shots |
| `DrillLatestOnly.SameRowTwice` | src/app/views/DrillPage/DrillPage.tsx:117-118 | the same row read twice in a row changes nothing the second time |
| `DrillLatestOnly.RestartDoesNotBlockReadmission` | src/app/views/DrillPage/DrillPage.tsx:117-118 | after a restart, a row whose id was known before it is admitted again as the first shot of the new session |
| `DrillFullRescan.SessionIdsDistinct` | src/app/views/DrillPage/DrillPage.tsx:156 | filtering out the baseline keeps distinct ids distinct |
| `DrillFullRescan.SessionIdsAppend` | src/app/views/DrillPage/DrillPage.tsx:156 | filtering a log with records appended filters the old part and the appended part separately |
| `DrillFullRescan.SessionIdsOfBaseline` | src/app/views/DrillPage/DrillPage.tsx:156 | a log whose ids are all baseline ids leaves no session id |
| `DrillFullRescan.RebuildKeepsIdsDistinct` | src/app/views/DrillPage/DrillPage.tsx:152-182 | when the log's ids are distinct, the rebuilt known ids are distinct |
| `DrillFullRescan.RebuildRepeated` | src/app/views/DrillPage/DrillPage.tsx:185-199 | rebuilding again from an unchanged log reproduces the same state and outcome, so a complete session is saved on every such call |
| `DrillFullRescan.CaptureThenReread` | src/app/views/DrillPage/DrillPage.tsx:254-257 | right after a full-read baseline capture, rereading the same log changes nothing |
| `DrillFullRescan.CaptureThenReadAdded` | src/app/views/DrillPage/DrillPage.tsx:152-159 | right after a full-read baseline capture, a log with records appended yields exactly the appended ids that were not in the log before, in order, up to the count |
| `DrillFullRescan.RebuildKnown` | src/app/views/DrillPage/DrillPage.tsx:159-182 | a rebuild that finds session ids under a positive count succeeds, and its known list is the kept session shots |
| `DrillFullRescan.RebuildTargetsReversed` | src/app/views/DrillPage/DrillPage.tsx:163-167 | the oldest rebuilt shot targets gen(k - 1), not gen(0); when all k are kept, the newest targets gen(0) |
| `DrillFullRescan.RebuildKeepsDuplicates` | src/app/views/DrillPage/DrillPage.tsx:156-173 | a log holding one session record twice, under a count of at least two, gives two known shots built from that record, stamped gen(1) and gen(0): repeated ids are not collapsed |
| `DrillFullRescan.RunRescan` | src/app/views/DrillPage/DrillPage.tsx:269-283 | along a run of log reads (as the polling loop issues them) and restarts, a captured baseline only grows, and a run of log reads alone leaves it unchanged |
| `DrillFullRescan.BaselineNeverAdmitted` | src/app/views/DrillPage/DrillPage.tsx:156-182 | along any run of log reads and restarts, a baseline id stays in the baseline and never becomes a known id |
| `DrillFullRescan.RestartedShotsNeverReadmitted` | src/app/views/DrillPage/DrillPage.tsx:287-299 | after a restart, no id known before it (nor any older baseline id) is ever admitted again by later log reads, whatever they contain |

## Left out

- File watching, directory listing, file reads and CSV/JSON parsing are left out. This covers DrillPage.tsx:67-100 and 203-249, and MainPage.tsx:52-90. Records reach the model as arguments.
- The log reader at DrillPage.tsx:99 returns an empty list on every path, and discards the shots parsed at line 95. Line 85 picks the file with the oldest modification time, although its comment says the latest. As written, the full-rescan path therefore never sees a record and the captured baseline is always empty. The model instead takes the log's records as input, which is what the rebuild and the capture are written against.
- The watcher's mode dispatch (DrillPage.tsx:204-211) is left out. So are the polling loop with its cancellation flag (269-283, 419) and asynchronous interleaving. Transitions are serialized. A polling run is a run of log reads (`DrillFullRescan.RunRescan`).
- `setShotData` is not a separate state in the model. At DrillPage.tsx:109 it hands the read shot to the admission effect (lines 114-148); `DrillPage.LatestShotChanged` models that hand-off as a direct call. At line 181 the rebuild sets it to its last kept shot, which triggers the same effect; outside latest-only mode that effect does nothing, so the model drops it. The page never renders `shotData`: the display reads the last known shot (line 301).
- The distance generator implementations are not part of this model. The generator of each epoch is the parameter `gen`. Nothing checks an index beyond the generator's range, and a rebuild with more session ids than the count asks for such an index.
- `ShotData.fromJson` and `ShotData.fromSessionShotDataJson` are not part of this model. The conversion of measurement fields in DrillPage shots is abstracted as keeping the record.
- mathjs unit arithmetic is left out, and so are the per-shot deviation functions, which are not part of this model. Deviations are real parameters in the generator's unit. The unit attached to the absolute sum is not tracked.
- The maximum absolute deviation (MainPage.tsx:133-140) is left out. It compares unit objects with `>`, which is not a numeric comparison, so it is not a maximum to model.
- The last shot's deviation display (MainPage.tsx:127-128) is left out. It is a single call of the deviation functions, which are not part of this model.
- NaN ids are not modelled, nor is the difference between `includes` and `===` on NaN and negative zero.
- Rendering, tabs and navigation are left out (DrillPage.tsx:301-441), as are the other views and app wiring. These are EndGroundTypeTable.tsx, EditDrillConfigurationPage.tsx, HomePage.tsx and app.tsx.
