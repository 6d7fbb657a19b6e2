# AntyTajniak core in Dafny

AntyTajniak watches the road through a front and a back depth camera. Each
frame goes through a licence-plate detector and three OCR engines. The
recognised text is fuzzy-matched against a watch list of plates (the
"database" of unmarked police cars). Every match is queued as a
`police_car` event; an alert is queued too, rate-limited by a two-minute
cooldown. A Tk user-interface tick drains that queue onto a map canvas,
where each tracked plate is one icon. The icon is placed ahead of or
behind the user's car, is animated smoothly when the plate is seen again,
and is forgotten five seconds after its last sighting.

This project models that core:

- `PlateText` covers plate normalisation (upper-case, keep `[A-Z0-9]`) and Python's `strip`.
- `Levenshtein` holds the case-insensitive edit distance. It gives a recursive definition and the dynamic-programming table of the source, and proves the two equal.
- `FuzzyMatch` is the nearest-plate matcher with its tolerance.
- `Database` covers the watch-list store: load, sorted save, add and remove. It also proves the save/load round trip.
- `Detection` models one camera thread:
  - frame-size skip, per-engine consensus and bearing offset;
  - depth lookup and the alert cooldown;
  - the events it appends to the shared queue.
- `MapDisplay` is the map tracker: projection, clamping, the new-icon and move cases, and the step-by-step animation callbacks.
- `Ui` covers the `update_ui` tick (drain the queue, then expire stale cars) and the two settings sliders.
- `Stable` models the older single-file `latestStable.py` where it differs:
  - a 9999 sentinel in the matcher;
  - a tracker without timestamps or expiry that starts moves from the icon's on-screen position;
  - floor division for the animation interval.

  Its Levenshtein distance, normalisation, database load and save, and detection loop are the ones modelled in the other modules.

Each stateful part of the program is a class whose methods are proved equal to
specification functions over the old state:

- `WatchList` holds `database_entries` and the database file.
- `Detector` holds `detection_queue` and `last_alert_time`.
- `Tracker` and `StableTracker` hold `police_cars`, the canvas items and the pending `after` callbacks.
- `Settings` holds the settings dictionary.

The properties are then proved as lemmas about those functions.

## Model

| member | source | states |
|---|---|---|
| Numeric.Trunc | ui.py:103 | `int()` of a float truncates toward zero: for x ≥ 0 the result is the largest integer ≤ x, for x < 0 the smallest integer ≥ x |
| PlateText.Normalize | database_manager.py:21-24 | the normalised plate contains only `[A-Z0-9]` and is no longer than the input |
| PlateText.KeepPlateChars | database_manager.py:23 | the `re.sub` step alone: the result holds only `[A-Z0-9]`, is no longer than the input and leaves an all-`[A-Z0-9]` string unchanged |
| PlateText.KeepPlateCharsAppend | database_manager.py:23 | the `re.sub` filter distributes over concatenation |
| PlateText.NormalizeIsUpperThenFilter | database_manager.py:21-24 | normalising is exactly `upper()` of the whole text followed by deleting every character outside `[A-Z0-9]` |
| PlateText.NormalizeUpper | database_manager.py:22 | upper-casing the text beforehand changes nothing |
| PlateText.NormalizeKeepsLetters | database_manager.py:21-24 | a lower-case letter is kept as its upper-case letter; upper-case letters and digits are kept; anything whose upper case is outside `[A-Z0-9]` is dropped |
| PlateText.NormalizeAppend | database_manager.py:21-24 | normalisation works character by character: normalising a concatenation concatenates the normalised parts |
| PlateText.NormalizeFixesCanonical | database_manager.py:21-24 | a string already made of `[A-Z0-9]` is left unchanged |
| PlateText.NormalizeIdempotent | database_manager.py:21-24 | normalising twice is the same as normalising once |
| PlateText.NormalizeIgnoresStrip | database_manager.py:46-47 | stripping whitespace before normalising changes nothing (`strip` then `normalize_plate` equals `normalize_plate` alone) |
| PlateText.KeyOfCanonical | fuzzy_match.py:39 | the matcher's `strip().upper()` leaves a normalised plate as it is |
| FuzzyMatch.Key | fuzzy_match.py:39 | the matcher's key holds no lower-case letter and is the text itself for a normalised plate |
| FuzzyMatch.Match | fuzzy_match.py:34-53 | a returned plate comes from a non-blank key, is a watch-list entry and is within the tolerance of the key; an empty watch list or a negative tolerance gives None |
| Levenshtein.LevenshteinDistance | fuzzy_match.py:3-31 | the DP table (first row and column = prefix lengths, each cell the minimum of deletion, insertion and substitution) returns exactly the recursive edit distance of the upper-cased strings |
| Levenshtein.DistAtSymmetric | fuzzy_match.py:23-30 | the recurrence is symmetric: the distance of prefixes (i of a, j of b) equals that of (j of b, i of a) |
| Levenshtein.DistAtBounds | fuzzy_match.py:18-30 | the distance of two prefixes is at least their length difference and at most the longer length |
| Levenshtein.DistAtZeroIff | fuzzy_match.py:23-30 | the distance is 0 exactly when the two prefixes are equal |
| Levenshtein.SubstituteLast | fuzzy_match.py:25-29 | changing the last character costs exactly one edit |
| Levenshtein.DistMetric | fuzzy_match.py:3-31 | identity, symmetry, length-difference lower bound, longer-length upper bound, and zero exactly for equal strings |
| Levenshtein.EditDistanceCaseInsensitive | fuzzy_match.py:7-8 | the distance ignores case: it equals the distance of the upper-cased inputs |
| Levenshtein.EditDistanceEmpty | fuzzy_match.py:11-14 | with one side empty the distance is the other side's length |
| Levenshtein.EditDistanceMetric | fuzzy_match.py:3-31 | the metric properties for the case-insensitive distance; it is zero exactly when the upper-cased strings are equal |
| FuzzyMatch.FuzzyMatch | fuzzy_match.py:34-53 | the loop over the watch list returns exactly the specification `Match`: None for an empty key, otherwise the first entry at minimum distance if that distance is within the tolerance |
| FuzzyMatch.BestIsFirstMinimum | fuzzy_match.py:43-49 | the strict `<` scan keeps an entry whose distance is ≤ every entry's distance and < every earlier entry's distance (the first minimum) |
| FuzzyMatch.BestEmpty | fuzzy_match.py:43-49 | the scan over an empty watch list finds nothing |
| FuzzyMatch.MatchSound | fuzzy_match.py:39-53 | a returned plate is a watch-list entry within the tolerance of the stripped, upper-cased text, nearest to it and first among equals; the text was not blank |
| FuzzyMatch.MatchNone | fuzzy_match.py:39-53 | None exactly when the key is empty or every entry is farther than the tolerance |
| FuzzyMatch.MatchExact | fuzzy_match.py:34-53 | a text that reads exactly as an entry is matched at distance 0 for any tolerance ≥ 0 |
| FuzzyMatch.MatchOneSubstitution | fuzzy_match.py:34-53 | "ABC123" matches "ABC124" with tolerance 1 but not with tolerance 0 |
| Database.LexTransitive | database_manager.py:29 | Python's string `<` used by `sorted` is transitive |
| Database.LexTotal | database_manager.py:29 | any two distinct strings are ordered one way or the other |
| Database.LeastExists | database_manager.py:29 | every non-empty set of strings has a least element, so `sorted` is defined |
| Database.SortedPlates | database_manager.py:29 | `sorted(database_entries)` is strictly increasing and holds exactly the set's strings, each once |
| Database.RenderEndsWithNewline | database_manager.py:27-30 | the saved text is empty exactly when there are no plates and otherwise ends with a newline |
| Database.LinesOfRender | database_manager.py:27-30 | reading back a written file gives the written plates, then the empty piece after the last newline |
| Database.LinesSplitAtBreaks | database_manager.py:16-18 | universal-newline reading yields lines that hold no `\n` or `\r`; a text without breaks is one line |
| Database.ParseLinesExactly | database_manager.py:18 | the loaded set holds every non-blank stripped line and nothing else |
| Database.ParseDatabase | database_manager.py:16-18 | the loaded set never holds the empty string |
| Database.ParseSingleLine | database_manager.py:16-18 | a one-line file holding a plate with surrounding blanks loads as that stripped plate alone |
| Database.ParsePlates | database_manager.py:18 | lines that are already non-empty plates are loaded as exactly those plates |
| Database.ParseRender | database_manager.py:16-30 | parsing a rendered list of non-empty plates gives back its set |
| Database.SaveLoadRoundTrip | database_manager.py:16-30 | saving a set of non-empty normalised plates and loading the file gives back the same set |
| Database.WatchList.Load | database_manager.py:13-18 | a missing file becomes empty; the entries are the stripped non-blank lines of the file |
| Database.WatchList.SaveDatabase | database_manager.py:27-30 | the file becomes the sorted entries, each followed by a newline |
| Database.WatchList.AddPlateEntry | database_manager.py:42-52 | the stripped, normalised input is added and saved exactly when it is non-empty and new; otherwise nothing changes; the store keeps only non-empty plates and the saved file loads back to the entries |
| Database.WatchList.RemoveSelectedPlate | database_manager.py:55-65 | a selected plate that is in the set is removed and saved; no selection or an unknown plate changes nothing; the file loads back to the entries |
| Detection.LocalNormalizeText | detection.py:87-90 | the engine text keeps only `[A-Z0-9]` and is unchanged by the matcher's `strip().upper()` |
| Detection.LocalNormalizeTextIsUpperThenFilter | detection.py:87-90 | the engine text is upper-cased, then everything outside `[A-Z0-9]` is deleted |
| Detection.SliceLen | detection.py:128-129 | a slice of an n-pixel axis has length `hi - lo` for in-range bounds and 0 when `hi <= lo` |
| Detection.Degenerate | detection.py:127-130 | a crop whose right edge is not past its left edge (or bottom not past top) is empty and skipped; a box with positive size inside the image is not |
| Detection.CentrePixel | detection.py:152-155 | the pixel is `int((a + b) / 2)`: half the sum rounded toward zero (down for a non-negative sum, up for a negative one), and it lies between the two box edges |
| Detection.BearingOffset | detection.py:185-186 | the offset is negative exactly when the box centre is left of the image centre and zero exactly when centred; it is at most a quarter of the width for an on-image box |
| Detection.RegionDepth | detection.py:152-157 | the debug frame reports 2.0 m; a sensor frame reports the depth at the box's centre pixel `(int((x1 + x2) / 2), int((y1 + y2) / 2))`, which lies inside the box |
| Detection.EngineHit | detection.py:172-174 | an engine whose normalised text is empty has no hit; a hit is a non-empty watch-list entry within the tolerance of that engine's normalised text |
| Detection.Consensus | detection.py:170-176 | no engines give no plate; a found plate is a non-empty watch-list entry |
| Detection.ConsensusFirstHit | detection.py:170-176 | a found plate is the hit of the first engine, in order, that has one; all earlier engines had none |
| Detection.ConsensusAtFirstHit | detection.py:170-176 | conversely, when engine k hits and every engine before it has none, the result is engine k's hit |
| Detection.ConsensusNone | detection.py:170-176 | no plate is found exactly when no engine has a non-empty text with a truthy match |
| Detection.ConsensusIgnoresLater | detection.py:174-176 | after the `break`, later engines cannot change the result |
| Detection.ConsensusSound | detection.py:170-176 | a found plate is a non-empty watch-list entry within the tolerance of some engine's normalised text |
| Detection.ResolveConsensus | detection.py:170-176 | the loop with its early `break` returns exactly the consensus |
| Detection.RegionEvents | detection.py:126-192 | a region emits at most two events, the first a car event facing the thread's camera, and `last_alert_time` never decreases |
| Detection.FrameEvents | detection.py:126-192 | a frame emits at most two events per region and `last_alert_time` never decreases |
| Detection.RunEvents | detection.py:92-192 | over the loop passes `last_alert_time` never decreases |
| Detection.RegionGate | detection.py:178-192 | a region emits its car event then at most one alert; `last_alert_time` moves, to the region's clock, exactly when the alert fires; a region emits something exactly when it is non-empty and has a consensus, and then the alert fires and `last_alert_time` becomes the clock if and only if 120 s have passed since the last alert |
| Detection.FrameCooldown | detection.py:126-192 | across a frame every alert directly follows a car event; `last_alert_time` grows by at least 120 s per alert and moves only if an alert fired |
| Detection.RunCooldown | detection.py:92-192 | the same over all loop passes of a camera thread, dropped frames included |
| Detection.RegionCars | detection.py:170-187 | a region enqueues a car event for its consensus plate with the thread's orientation, or none |
| Detection.FrameCars | detection.py:126-187 | the car events of a frame are, in order, the consensus plates of its non-empty matched regions; each is a watch-list plate and carries the thread's orientation |
| Detection.Detector.ProcessRegion | detection.py:126-192 | the queue is extended by exactly the region's events and `last_alert_time` becomes the region's outcome |
| Detection.Detector.ProcessFrame | detection.py:123-192 | the queue is extended by the frame's events in region order, with the tolerance from the settings (default 1) |
| Detection.Detector.RunDetection | detection.py:92-192 | the queue is extended by the events of every captured frame, in order; dropped frames are skipped |
| MapDisplay.ProjectMirror | map_display.py:112-118 | a back-camera sighting is the front one reflected through the canvas centre |
| MapDisplay.Project | map_display.py:112-118 | a car ahead is drawn above the canvas centre and one behind below it; a positive offset is right of centre ahead and left of it behind; zero distance or offset keeps the centre line |
| MapDisplay.ProjectScale | map_display.py:112-118 | one metre of distance moves the icon 1000 px from the centre line (up ahead, down behind) and one unit of offset 10 px sideways (mirrored behind) |
| MapDisplay.Clamp | map_display.py:121-124 | the clamped coordinate keeps the icon's half-size inside the canvas and is unchanged when already inside |
| MapDisplay.Target | map_display.py:112-124 | the icon's centre lies at least half an icon inside every canvas edge that has room |
| MapDisplay.Lerp | map_display.py:169-171 | step 0 gives the start, step `steps` the end, and every step in between lies between them |
| MapDisplay.LerpEvenSteps | map_display.py:169-171 | consecutive steps are evenly spaced, `(end - start) / steps` apart |
| MapDisplay.StepIntervalIsTrunc | map_display.py:175 | the interval is exactly `Trunc` (Python's `int()`) of the true quotient `duration / steps`, for every duration |
| MapDisplay.StepIntervalTowardZero | map_display.py:175 | for negative durations the interval truncates toward zero |
| MapDisplay.MoveInterval | map_display.py:175 | a 500 ms move in 20 steps schedules a callback every 25 ms |
| MapDisplay.MoveItem | map_display.py:165-173 | `coords` moves only the given item, if it exists |
| MapDisplay.AnimateStep | map_display.py:156-178 | a callback keeps the board consistent and never changes the tracked cars |
| MapDisplay.Place | map_display.py:93-153 | placing keeps every entry with its own live icon and never reuses ids |
| MapDisplay.PlaceWithoutCanvas | map_display.py:101-102 | without a canvas or icon image nothing happens |
| MapDisplay.PlaceUnseen | map_display.py:126-134 | an unseen plate gets one new entry stamped now, at the clamped target, with a fresh icon drawn there; other entries are unchanged |
| MapDisplay.PlaceSeen | map_display.py:135-153 | a seen plate keeps its icon and is re-stamped now with the new target; the icon is shown at the old target and step 1 is scheduled; other entries are unchanged |
| MapDisplay.AnimateStopsWhenGone | map_display.py:162-163 | once the plate is gone, a callback does nothing and schedules nothing |
| MapDisplay.AnimateFrames | map_display.py:165-173 | the animation shows the start at step 0 and the end past the last step, and stays on the segment between them |
| MapDisplay.AnimationReachesTarget | map_display.py:156-178 | an undisturbed move ends with the icon at its target, nothing left scheduled and the cars unchanged |
| MapDisplay.Deliver | map_display.py:176-178 | running the earliest callback consumes it and at most re-schedules the next step of that same move; the cars, the canvas and the set of items are unchanged |
| MapDisplay.Tracker.AnimatePoliceCarMove | map_display.py:156-178 | the callback updates the canvas and schedule as `AnimateStep` specifies |
| MapDisplay.Tracker.PlaceOrMove | map_display.py:93-153 | the tracker changes as `Place` specifies |
| MapDisplay.Tracker.RunNextCallback | map_display.py:176-178 | the event loop runs the earliest scheduled callback |
| Ui.Drain | ui.py:383-396 | draining the queue keeps the board consistent and the canvas unchanged |
| Ui.Dispatch | ui.py:386-393 | an alert leaves the map unchanged, as does any item without a canvas; a car event with a canvas tracks its plate and stamps it with the tick's clock |
| Ui.Alerts | ui.py:391-393 | the messages played are no more than the queue items, and each comes from a `play_alert` item of the queue |
| Ui.AlertsComplete | ui.py:391-393 | every `play_alert` item's message is played |
| Ui.AlertsCount | ui.py:391-393 | exactly one message is played per `play_alert` item |
| Ui.AlertsAppend | ui.py:383-393 | messages are played in queue order: those of a later batch follow those of an earlier one |
| Ui.Expire | ui.py:398-408 | the clean-up keeps the board consistent |
| Ui.ExpireExact | ui.py:398-408 | exactly the entries last seen at least 5 s ago are removed, with their icons when there is a canvas; the others keep their entry and icon |
| Ui.ExpiryBoundary | ui.py:398-402 | `>=`: a car seen at t = 1.0 survives at 5.9 and is removed at 6.0 |
| Ui.DrainAppend | ui.py:383-396 | the queue is handled strictly in FIFO order |
| Ui.DrainStamps | ui.py:386-389 | every plate of a drained car event is tracked and stamped with the tick's clock |
| Ui.FreshSurvivesTick | ui.py:383-408 | a car detected during a tick survives that tick's clean-up |
| Ui.UpdateUi | ui.py:371-411 | the detection queue is emptied and its alerts are played in order; the tracker is drained and then expired |
| Ui.DrainQueue | ui.py:383-396 | the `get_nowait` loop empties the queue, plays the alerts in order and places every car |
| Ui.RemoveStale | ui.py:398-408 | the two clean-up loops together perform `Expire` |
| Ui.CollectStale | ui.py:400-406 | `to_remove` holds exactly the stale plates and their icons are deleted when there is a canvas |
| Ui.DeleteEntries | ui.py:407-408 | the listed plates are deleted from `police_cars` |
| Ui.ToleranceFromSlider | ui.py:103 | a non-negative slider value gives its integer part |
| Ui.VolumeFromSlider | ui.py:139-140 | the volume is the integer part clamped to 0..100 |
| Ui.Settings.UpdateMismatchTolerance | ui.py:102-106 | the setting becomes the truncated slider value |
| Ui.Settings.UpdateVolumeLevel | ui.py:138-143 | the setting becomes the clamped volume, within 0..100 |
| Stable.StableFuzzyMatch | latestStable.py:105-121 | the loop returns exactly the sentinel-based `StableMatch` |
| Stable.StableScan | latestStable.py:111-117 | the scan's distance never exceeds 9999; with no match it stays 9999; a kept entry is a watch-list entry at the recorded distance, which is below 9999 |
| Stable.StableMatch | latestStable.py:105-121 | a returned plate comes from a non-blank key, is a watch-list entry and is within the tolerance; an empty watch list or a negative tolerance gives None |
| Stable.StableScanIsBest | latestStable.py:111-117 | the 9999-sentinel scan finds the same first minimum as the scan from infinity when that minimum is below 9999, and nothing otherwise |
| Stable.StableMatchAgrees | latestStable.py:105-121 | for tolerances below 9999 the old matcher agrees with the current one |
| Stable.StableMatchAgreesNear | latestStable.py:105-121 | the two matchers also agree when some entry is fewer than 9999 edits away |
| Stable.StableSentinelMisses | latestStable.py:112 | a text 10000 edits from its only entry is missed by the sentinel scan even at tolerance 10000, while the current matcher returns the entry |
| Stable.StableStepInterval | latestStable.py:333 | `duration // steps` equals the current interval, which is `int(duration / steps)` by `StepIntervalIsTrunc`, for non-negative durations |
| Stable.IntervalsDifferBelowZero | latestStable.py:333 | below zero the two differ: floor gives -1 where truncation gives 0 |
| Stable.StableAnimateStep | latestStable.py:312-337 | a callback keeps every entry's icon and the set of entries |
| Stable.StablePlace | latestStable.py:255-310 | placing keeps the board consistent and never removes an entry |
| Stable.StablePlaceUnseen | latestStable.py:287-294 | a new entry records the clamped target as `last_x`/`last_y` and the camera's orientation, drawn there |
| Stable.StablePlaceSeen | latestStable.py:295-310 | a seen plate's entry is unchanged; a move starts from the icon's current canvas position |
| Stable.StableLastOnlyAtEnd | latestStable.py:320-325 | `last_x`/`last_y` change only at the final callback, and then to the end point |
| Stable.StableNeverExpires | latestStable.py:502-518 | with no expiry, a car once tracked stays tracked through every tick |
| Stable.StableDrain | latestStable.py:502-518 | draining never changes the canvas, and without a canvas it changes nothing |
| Stable.StableTracker.PlaceOrMove | latestStable.py:255-310 | the tracker changes as `StablePlace` specifies |
| Stable.StableTracker.AnimatePoliceCarMove | latestStable.py:312-337 | the callback changes the tracker as `StableAnimateStep` specifies |
| Stable.StableUpdateUi | latestStable.py:502-518 | the queue is emptied into the tracker as `StableDrain` specifies, every alert message is played in queue order, and no tracked car is ever removed |

## Left out

- Camera capture, image processing, the three OCR engines and the YOLO plate detector are left out. A frame is given as its size, a depth source and, per detected box, the three engine texts in engine order and the clock reading at that box.
- Threads and the queue's locking are not modelled. The two camera threads and the UI tick are modelled as sequential calls on shared objects.
- File I/O becomes values: the database file is a `string` field, and the settings file is the `Settings` object's fields. `load_settings`/`save_settings` and `settings_manager.py` are not part of this model.
- Python `set` iteration order is given as the order of a `seq<string>` watch list; which order CPython uses is not modelled.
- `str.upper`, `str.strip` and the `[^A-Z0-9]` filter are modelled on ASCII only; Unicode case mapping and whitespace are left out.
- Floats are modelled as exact reals, so rounding is left out. `time.time()` is a parameter: one reading per region in detection and one per `update_ui` tick.
- The Tk widgets, labels, listbox refresh, sounds and the volume applied to them are left out: `play_alert_sound` is modelled as the list of messages played. `update_map_display`, `handle_window_resize`, `show_map` and image scaling are left out.
- Debug mode's image selection and the override buttons in ui.py are left out. Only their effect is modelled: a debug frame with depth 2.0.
- The `running` flag, the 'q' key and `cv2` windows are left out. A run is a finite sequence of loop passes.
- Canvas item ids are modelled as fresh naturals (`nextId`); Tk's id allocation and the `after` timer's delay are left out. The tracker keeps pending callbacks in FIFO order and the interval only as a value.
- The run_detection of latestStable.py (344-467) is covered by `Detection.RunEvents` with a sensor depth source. It has no debug branch, and its matcher is related to the current one by `Stable.StableMatchAgrees`.
- Ui.ToleranceFromSlider: states the integer part only for non-negative values; the slider's range is 0..5, so negative values do not arise.

## Findings

| source | as written | input that shows it | evidently intended | confidence | as-written member | corrected member |
|---|---|---|---|---|---|---|
| latestStable.py:112 | `best_dist = 9999` caps the distance the scan can record, so an entry 9999 or more edits away is never kept, whatever the tolerance | text of 10000 'B's, watch list {"A"}, tolerance 10000 | the nearest entry is returned whenever it is within the tolerance, as fuzzy_match.py:44 does with `float('inf')` | low (needs absurd tolerance), not executed | Stable.StableSentinelMisses | FuzzyMatch.MatchSound |
