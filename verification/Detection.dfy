/**
 * The decision logic of `run_detection` (detection.py): per detected plate
 * region, the three OCR texts are normalised and tried in engine order
 * against the watch-list; a hit enqueues a `police_car` event, and the
 * shared cooldown may add a `play_alert` event. Cameras, YOLO and the OCR
 * engines are inputs: a frame arrives as its size, its depth source and its
 * regions, each region as its box, its three engine texts and the clock
 * reading taken when it is handled.
 */
module Detection {
  import opened Wrappers
  import opened Numeric
  import opened PlateText
  import opened Levenshtein
  import opened FuzzyMatch

  /** `ALERT_COOLDOWN`, in seconds. */
  const AlertCooldown: real := 120.0
  /** The depth used when a debug image replaces the camera. */
  const DebugDepth: real := 2.0
  /** The mismatch tolerance used when the settings do not hold one. */
  const DefaultTolerance: int := 1
  const AlertMessage: string := "UWAGA TAJNIAK!"

  datatype Orientation = Front | Back

  /** The tuples put on `detection_queue`. */
  datatype Event =
    | PoliceCar(plate: string, distance: real, offset: real, orientation: Orientation)
    | PlayAlert(message: string)

  /** A YOLO box as floating-point corners (`plate_box.xyxy[0]`). */
  datatype Box = Box(x1: real, y1: real, x2: real, y2: real)

  /** One detected plate region: its box, the stripped texts of Tesseract, EasyOCR and PaddleOCR in that order, and `time.time()` at its alert check. */
  datatype Region = Region(box: Box, texts: seq<string>, clock: real)

  /** Where depth comes from: the fixed debug value, or the aligned depth frame's `get_distance`. */
  datatype DepthSource = Debug | Sensor(distanceAt: (int, int) -> real)

  /**
   * One pass of the loop: the image size, the depth source, the regions in
   * YOLO order, the tolerance read from the settings (if present) and the
   * watch-list in its iteration order.
   */
  datatype Frame = Frame(width: nat, height: nat, depth: DepthSource, regions: seq<Region>,
                         tolerance: Option<int>, watchList: seq<string>)

  /** A loop pass either misses its colour or depth frame (`continue`) or gets a frame. */
  datatype Capture = Dropped | Captured(frame: Frame)

  /** The events a step enqueues and the resulting `last_alert_time`. */
  datatype Outcome = Outcome(events: seq<Event>, lastAlert: real)

  /** `local_normalize_text`: the same rule as the watch-list's `normalize_plate`. */
  function LocalNormalizeText(text: string): (r: string)
    ensures Canonical(r)
    ensures Upper(Strip(r)) == r
  {
    var r := Normalize(text);
    KeyOfCanonical(r);
    r
  }

  /** The engine text is upper-cased, then everything but `A`-`Z` and `0`-`9` is dropped. */
  lemma LocalNormalizeTextIsUpperThenFilter(text: string)
    ensures LocalNormalizeText(text) == KeepPlateChars(Upper(text))
  {
    NormalizeIsUpperThenFilter(text);
  }

  /** Python's length of `seq[lo:hi]` over a dimension of size `n`. */
  function SliceLen(n: nat, lo: int, hi: int): (len: nat)
    ensures len <= n
    ensures 0 <= lo <= hi <= n ==> len == hi - lo
    ensures 0 <= hi <= lo ==> len == 0
  {
    var start := if lo < 0 then (if lo + n < 0 then 0 else lo + n) else (if lo > n then n else lo);
    var stop := if hi < 0 then (if hi + n < 0 then 0 else hi + n) else (if hi > n then n else hi);
    if stop > start then stop - start else 0
  }

  /** `plate_region.size == 0` for the crop `color_image[y1:y2, x1:x2]` of the truncated corners. */
  predicate Degenerate(f: Frame, b: Box)
    ensures 0 <= Trunc(b.x2) <= Trunc(b.x1) ==> Degenerate(f, b)
    ensures 0 <= Trunc(b.y2) <= Trunc(b.y1) ==> Degenerate(f, b)
    ensures 0 <= Trunc(b.x1) < Trunc(b.x2) <= f.width && 0 <= Trunc(b.y1) < Trunc(b.y2) <= f.height ==>
              !Degenerate(f, b)
  {
    SliceLen(f.height, Trunc(b.y1), Trunc(b.y2)) == 0 || SliceLen(f.width, Trunc(b.x1), Trunc(b.x2)) == 0
  }

  predicate Between(c: int, a: int, b: int) {
    a <= c <= b || b <= c <= a
  }

  /** The pixel index `int((a + b) / 2)` of the box centre along one axis. */
  function CentrePixel(a: int, b: int): (c: int)
    ensures a + b >= 0 ==> c == (a + b) / 2
    ensures a + b < 0 ==> c == -((-(a + b)) / 2)
    ensures (if a <= b then a else b) <= c <= (if a <= b then b else a)
  {
    Trunc((a + b) as real / 2.0)
  }

  /** The horizontal offset `((x1 + x2) / 2 - width / 2) / 2.0` of the box centre. */
  function BearingOffset(width: nat, b: Box): (offset: real)
    ensures (offset < 0.0) == (Trunc(b.x1) + Trunc(b.x2) < width)
    ensures (offset == 0.0) == (Trunc(b.x1) + Trunc(b.x2) == width)
    ensures 0 <= Trunc(b.x1) <= width && 0 <= Trunc(b.x2) <= width ==>
              -(width as real) / 4.0 <= offset <= width as real / 4.0
  {
    ((Trunc(b.x1) + Trunc(b.x2)) as real / 2.0 - width as real / 2.0) / 2.0
  }

  /** The distance reported for a region: the debug constant, or the depth at the centre pixel. */
  function RegionDepth(f: Frame, b: Box): (d: real)
    ensures f.depth.Debug? ==> d == DebugDepth
    ensures f.depth.Sensor? ==>
              d == f.depth.distanceAt(CentrePixel(Trunc(b.x1), Trunc(b.x2)), CentrePixel(Trunc(b.y1), Trunc(b.y2)))
    ensures f.depth.Sensor? ==> exists cx, cy ::
              Between(cx, Trunc(b.x1), Trunc(b.x2)) && Between(cy, Trunc(b.y1), Trunc(b.y2)) &&
              d == f.depth.distanceAt(cx, cy)
  {
    match f.depth
    case Debug => DebugDepth
    case Sensor(at) =>
      var cx := CentrePixel(Trunc(b.x1), Trunc(b.x2));
      var cy := CentrePixel(Trunc(b.y1), Trunc(b.y2));
      at(cx, cy)
  }

  /** What one engine contributes: its normalised text, when non-empty, matched and truthy. */
  function EngineHit(text: string, watchList: seq<string>, tolerance: int): (h: Option<string>)
    ensures LocalNormalizeText(text) == [] ==> h == None
    ensures h.Some? ==> h.value in watchList && h.value != [] &&
                        EditDistance(LocalNormalizeText(text), h.value) <= tolerance
  {
    var t := LocalNormalizeText(text);
    if t == [] then None
    else
      var m := Match(t, watchList, tolerance);
      if m.Some? && m.value != [] then m else None
  }

  /** `plate_found`: the hit of the first engine, in order, that has one. */
  function Consensus(texts: seq<string>, watchList: seq<string>, tolerance: int): (c: Option<string>)
    ensures texts == [] ==> c == None
    ensures c.Some? ==> c.value in watchList && c.value != []
    decreases |texts|
  {
    if texts == [] then None
    else
      var h := EngineHit(texts[0], watchList, tolerance);
      if h.Some? then h else Consensus(texts[1..], watchList, tolerance)
  }

  /** The consensus is the hit of some engine `k`, and every engine before `k` had none. */
  lemma {:induction false} ConsensusFirstHit(texts: seq<string>, watchList: seq<string>, tolerance: int)
    returns (k: nat)
    requires Consensus(texts, watchList, tolerance).Some?
    ensures k < |texts|
    ensures EngineHit(texts[k], watchList, tolerance) == Consensus(texts, watchList, tolerance)
    ensures forall j :: 0 <= j < k ==> EngineHit(texts[j], watchList, tolerance).None?
    decreases |texts|
  {
    if EngineHit(texts[0], watchList, tolerance).Some? {
      k := 0;
    } else {
      var k' := ConsensusFirstHit(texts[1..], watchList, tolerance);
      k := k' + 1;
      forall j | 0 <= j < k
        ensures EngineHit(texts[j], watchList, tolerance).None?
      {
        if j > 0 {
          assert texts[j] == texts[1..][j - 1];
        }
      }
    }
  }

  /** No plate is found exactly when no engine has a hit. */
  lemma {:induction false} ConsensusNone(texts: seq<string>, watchList: seq<string>, tolerance: int)
    ensures Consensus(texts, watchList, tolerance).None? <==>
            forall j :: 0 <= j < |texts| ==> EngineHit(texts[j], watchList, tolerance).None?
    decreases |texts|
  {
    if texts != [] {
      ConsensusNone(texts[1..], watchList, tolerance);
      if EngineHit(texts[0], watchList, tolerance).None? {
        forall j | 1 <= j < |texts|
          ensures texts[j] == texts[1..][j - 1]
        {
        }
      }
    }
  }

  /** Once an engine hits, the engines after it are never consulted. */
  lemma {:induction false} ConsensusIgnoresLater(texts: seq<string>, more: seq<string>, watchList: seq<string>, tolerance: int)
    requires Consensus(texts, watchList, tolerance).Some?
    ensures Consensus(texts + more, watchList, tolerance) == Consensus(texts, watchList, tolerance)
    decreases |texts|
  {
    var k := ConsensusFirstHit(texts, watchList, tolerance);
    var all := texts + more;
    forall j | 0 <= j <= k
      ensures all[j] == texts[j]
    {
    }
    ConsensusAtFirstHit(all, k, watchList, tolerance);
  }

  /** Conversely, the first engine with a hit decides the consensus. */
  lemma {:induction false} ConsensusAtFirstHit(texts: seq<string>, k: nat, watchList: seq<string>, tolerance: int)
    requires k < |texts|
    requires EngineHit(texts[k], watchList, tolerance).Some?
    requires forall j :: 0 <= j < k ==> EngineHit(texts[j], watchList, tolerance).None?
    ensures Consensus(texts, watchList, tolerance) == EngineHit(texts[k], watchList, tolerance)
    decreases k
  {
    ConsensusStep(texts, watchList, tolerance);
    if k > 0 {
      NoHitsShift(texts, k, watchList, tolerance);
      ConsensusAtFirstHit(texts[1..], k - 1, watchList, tolerance);
    }
  }

  /** Dropping the first engine keeps "no hit before `k`" for the engines that remain. */
  lemma NoHitsShift(texts: seq<string>, k: nat, watchList: seq<string>, tolerance: int)
    requires 0 < k < |texts|
    requires forall j :: 0 <= j < k ==> EngineHit(texts[j], watchList, tolerance).None?
    ensures texts[1..][k - 1] == texts[k]
    ensures forall j :: 0 <= j < k - 1 ==> EngineHit(texts[1..][j], watchList, tolerance).None?
  {
    forall j | 0 <= j < k - 1
      ensures EngineHit(texts[1..][j], watchList, tolerance).None?
    {
      assert EngineHit(texts[j + 1], watchList, tolerance).None?;
    }
  }

  /** One engine of the consensus: its own hit, or else the consensus of the engines after it. */
  lemma ConsensusStep(texts: seq<string>, watchList: seq<string>, tolerance: int)
    requires texts != []
    ensures Consensus(texts, watchList, tolerance) ==
            if EngineHit(texts[0], watchList, tolerance).Some? then EngineHit(texts[0], watchList, tolerance)
            else Consensus(texts[1..], watchList, tolerance)
  {
  }

  /** A found plate is a non-empty watch-list entry within the tolerance of some engine's normalised text. */
  lemma ConsensusSound(texts: seq<string>, watchList: seq<string>, tolerance: int)
    requires Consensus(texts, watchList, tolerance).Some?
    ensures Consensus(texts, watchList, tolerance).value in watchList
    ensures Consensus(texts, watchList, tolerance).value != []
    ensures exists k :: 0 <= k < |texts| &&
              EditDistance(LocalNormalizeText(texts[k]), Consensus(texts, watchList, tolerance).value) <= tolerance
  {
    var k := ConsensusFirstHit(texts, watchList, tolerance);
    var t := LocalNormalizeText(texts[k]);
    var i := MatchSound(t, watchList, tolerance);
  }

  /** The consensus loop with its early `break`, running the matcher engine by engine. */
  method ResolveConsensus(texts: seq<string>, watchList: seq<string>, tolerance: int)
    returns (plateFound: Option<string>)
    ensures plateFound == Consensus(texts, watchList, tolerance)
  {
    plateFound := None;
    var i := 0;
    while i < |texts|
      invariant i <= |texts|
      invariant Consensus(texts, watchList, tolerance) == Consensus(texts[i..], watchList, tolerance)
    {
      assert texts[i..][1..] == texts[i + 1..];
      var recognized := LocalNormalizeText(texts[i]);
      if recognized != [] {
        var m := FuzzyMatch.FuzzyMatch(recognized, watchList, tolerance);
        if m.Some? && m.value != [] {
          plateFound := m;
          break;
        }
      }
      i := i + 1;
    }
  }

  /** One region's effect on the queue and on `last_alert_time`. */
  function RegionEvents(f: Frame, r: Region, o: Orientation, lastAlert: real): (out: Outcome)
    ensures |out.events| <= 2
    ensures out.events != [] ==> out.events[0].PoliceCar? && out.events[0].orientation == o
    ensures out.lastAlert >= lastAlert
  {
    if Degenerate(f, r.box) then Outcome([], lastAlert)
    else
      match Consensus(r.texts, f.watchList, f.tolerance.GetOr(DefaultTolerance))
      case None => Outcome([], lastAlert)
      case Some(plate) =>
        var car := PoliceCar(plate, RegionDepth(f, r.box), BearingOffset(f.width, r.box), o);
        if r.clock - lastAlert >= AlertCooldown then Outcome([car, PlayAlert(AlertMessage)], r.clock)
        else Outcome([car], lastAlert)
  }

  /** The regions of a frame handled in order, `last_alert_time` threaded through. */
  function FrameEvents(f: Frame, rs: seq<Region>, o: Orientation, lastAlert: real): (out: Outcome)
    ensures out.lastAlert >= lastAlert
    ensures |out.events| <= 2 * |rs|
    decreases |rs|
  {
    if rs == [] then Outcome([], lastAlert)
    else
      var before := FrameEvents(f, rs[..|rs| - 1], o, lastAlert);
      var step := RegionEvents(f, rs[|rs| - 1], o, before.lastAlert);
      Outcome(before.events + step.events, step.lastAlert)
  }

  /** Concatenation regroups; stated once so the queue invariants below need not re-derive it. */
  lemma AppendAssoc<T>(a: seq<T>, b: seq<T>, c: seq<T>)
    ensures (a + b) + c == a + (b + c)
  {
  }

  /** Handling one more region extends the frame's outcome by that region's. */
  lemma FrameEventsStep(f: Frame, rs: seq<Region>, i: nat, o: Orientation, lastAlert: real)
    requires i < |rs|
    ensures var before := FrameEvents(f, rs[..i], o, lastAlert);
      var step := RegionEvents(f, rs[i], o, before.lastAlert);
      FrameEvents(f, rs[..i + 1], o, lastAlert) == Outcome(before.events + step.events, step.lastAlert)
  {
    assert rs[..i + 1][..i] == rs[..i];
  }

  /** The loop passes of one camera thread, in order. */
  function RunEvents(cs: seq<Capture>, o: Orientation, lastAlert: real): (out: Outcome)
    ensures out.lastAlert >= lastAlert
    decreases |cs|
  {
    if cs == [] then Outcome([], lastAlert)
    else
      var before := RunEvents(cs[..|cs| - 1], o, lastAlert);
      match cs[|cs| - 1]
      case Dropped => before
      case Captured(f) =>
        var step := FrameEvents(f, f.regions, o, before.lastAlert);
        Outcome(before.events + step.events, step.lastAlert)
  }

  /** One more loop pass extends the thread's outcome by that pass's. */
  lemma RunEventsStep(cs: seq<Capture>, i: nat, o: Orientation, lastAlert: real)
    requires i < |cs|
    ensures var before := RunEvents(cs[..i], o, lastAlert);
      RunEvents(cs[..i + 1], o, lastAlert) ==
        match cs[i]
        case Dropped => before
        case Captured(f) =>
          var step := FrameEvents(f, f.regions, o, before.lastAlert);
          Outcome(before.events + step.events, step.lastAlert)
  {
    assert cs[..i + 1][..i] == cs[..i];
  }

  /** Every alert directly follows a `police_car` event and carries the alert text. */
  predicate AlertsFollowCars(ev: seq<Event>) {
    forall i :: 0 <= i < |ev| && ev[i].PlayAlert? ==>
      0 < i && ev[i - 1].PoliceCar? && ev[i].message == AlertMessage
  }

  function AlertCount(ev: seq<Event>): nat {
    if ev == [] then 0 else (if ev[0].PlayAlert? then 1 else 0) + AlertCount(ev[1..])
  }

  lemma {:induction false} AlertCountAppend(a: seq<Event>, b: seq<Event>)
    ensures AlertCount(a + b) == AlertCount(a) + AlertCount(b)
  {
    if a != [] {
      assert (a + b)[0] == a[0];
      assert (a + b)[1..] == a[1..] + b;
      AlertCountAppend(a[1..], b);
    } else {
      assert a + b == b;
    }
  }

  lemma AlertsFollowCarsAppend(a: seq<Event>, b: seq<Event>)
    requires AlertsFollowCars(a) && AlertsFollowCars(b)
    ensures AlertsFollowCars(a + b)
  {
    var ab := a + b;
    forall i | 0 <= i < |ab| && ab[i].PlayAlert?
      ensures 0 < i && ab[i - 1].PoliceCar? && ab[i].message == AlertMessage
    {
      if i >= |a| {
        assert ab[i] == b[i - |a|];
        assert 0 < i - |a| ==> ab[i - 1] == b[i - |a| - 1];
      }
    }
  }

  /**
   * The alert gate of one region: at most one alert, right after its car
   * event; `last_alert_time` moves to the region's clock exactly when the
   * alert fires, which needs the cooldown to have elapsed.
   */
  lemma RegionGate(f: Frame, r: Region, o: Orientation, lastAlert: real)
    ensures AlertsFollowCars(RegionEvents(f, r, o, lastAlert).events)
    ensures AlertCount(RegionEvents(f, r, o, lastAlert).events) ==
            (if RegionEvents(f, r, o, lastAlert).lastAlert == lastAlert then 0 else 1)
    ensures RegionEvents(f, r, o, lastAlert).lastAlert != lastAlert ==>
              RegionEvents(f, r, o, lastAlert).lastAlert == r.clock &&
              r.clock - lastAlert >= AlertCooldown
    ensures RegionEvents(f, r, o, lastAlert).events != [] <==>
              !Degenerate(f, r.box) && Consensus(r.texts, f.watchList, f.tolerance.GetOr(DefaultTolerance)).Some?
    ensures !Degenerate(f, r.box) && Consensus(r.texts, f.watchList, f.tolerance.GetOr(DefaultTolerance)).Some? ==>
              RegionEvents(f, r, o, lastAlert).lastAlert == (if r.clock - lastAlert >= AlertCooldown then r.clock else lastAlert) &&
              AlertCount(RegionEvents(f, r, o, lastAlert).events) == (if r.clock - lastAlert >= AlertCooldown then 1 else 0)
  {
    var ev := RegionEvents(f, r, o, lastAlert).events;
    assert AlertCount([]) == 0;
    if |ev| == 2 {
      assert ev[1..] == [ev[1]];
      assert ev[1..][1..] == [];
      assert AlertCount(ev[1..]) == 1;
    } else if |ev| == 1 {
      assert ev[1..] == [];
    }
  }

  /**
   * Across a frame: alerts always follow their car events, and every alert
   * advanced `last_alert_time` by at least the cooldown, so it moved exactly
   * when some alert fired.
   */
  lemma {:induction false} FrameCooldown(f: Frame, rs: seq<Region>, o: Orientation, lastAlert: real)
    ensures AlertsFollowCars(FrameEvents(f, rs, o, lastAlert).events)
    ensures FrameEvents(f, rs, o, lastAlert).lastAlert >=
              lastAlert + AlertCooldown * AlertCount(FrameEvents(f, rs, o, lastAlert).events) as real
    ensures (FrameEvents(f, rs, o, lastAlert).lastAlert == lastAlert) ==
              (AlertCount(FrameEvents(f, rs, o, lastAlert).events) == 0)
    decreases |rs|
  {
    if rs != [] {
      var before := FrameEvents(f, rs[..|rs| - 1], o, lastAlert);
      FrameCooldown(f, rs[..|rs| - 1], o, lastAlert);
      var step := RegionEvents(f, rs[|rs| - 1], o, before.lastAlert);
      RegionGate(f, rs[|rs| - 1], o, before.lastAlert);
      AlertsFollowCarsAppend(before.events, step.events);
      AlertCountAppend(before.events, step.events);
    }
  }

  /** The same two facts over a whole camera thread. */
  lemma {:induction false} RunCooldown(cs: seq<Capture>, o: Orientation, lastAlert: real)
    ensures AlertsFollowCars(RunEvents(cs, o, lastAlert).events)
    ensures RunEvents(cs, o, lastAlert).lastAlert >=
              lastAlert + AlertCooldown * AlertCount(RunEvents(cs, o, lastAlert).events) as real
    ensures (RunEvents(cs, o, lastAlert).lastAlert == lastAlert) ==
              (AlertCount(RunEvents(cs, o, lastAlert).events) == 0)
    decreases |cs|
  {
    if cs != [] {
      var before := RunEvents(cs[..|cs| - 1], o, lastAlert);
      RunCooldown(cs[..|cs| - 1], o, lastAlert);
      if cs[|cs| - 1].Captured? {
        var f := cs[|cs| - 1].frame;
        var step := FrameEvents(f, f.regions, o, before.lastAlert);
        FrameCooldown(f, f.regions, o, before.lastAlert);
        AlertsFollowCarsAppend(before.events, step.events);
        AlertCountAppend(before.events, step.events);
      }
    }
  }

  /** The plates of the `police_car` events, in queue order. */
  function CarPlates(ev: seq<Event>): seq<string> {
    if ev == [] then []
    else (if ev[0].PoliceCar? then [ev[0].plate] else []) + CarPlates(ev[1..])
  }

  lemma {:induction false} CarPlatesAppend(a: seq<Event>, b: seq<Event>)
    ensures CarPlates(a + b) == CarPlates(a) + CarPlates(b)
  {
    if a != [] {
      assert (a + b)[0] == a[0];
      assert (a + b)[1..] == a[1..] + b;
      CarPlatesAppend(a[1..], b);
    } else {
      assert a + b == b;
    }
  }

  /** Reference definition: the consensus plates of the non-empty regions, in region order. */
  function MatchedPlates(f: Frame, rs: seq<Region>): seq<string>
    decreases |rs|
  {
    if rs == [] then []
    else
      var r := rs[|rs| - 1];
      var found := Consensus(r.texts, f.watchList, f.tolerance.GetOr(DefaultTolerance));
      MatchedPlates(f, rs[..|rs| - 1]) + (if !Degenerate(f, r.box) && found.Some? then [found.value] else [])
  }

  /** A region enqueues a `police_car` event for its consensus plate, facing the thread's camera, or none. */
  lemma RegionCars(f: Frame, r: Region, o: Orientation, lastAlert: real)
    ensures CarPlates(RegionEvents(f, r, o, lastAlert).events) ==
              MatchedPlates(f, [r])
    ensures forall e :: e in RegionEvents(f, r, o, lastAlert).events && e.PoliceCar? ==>
              e.orientation == o && e.plate in f.watchList
  {
    var ev := RegionEvents(f, r, o, lastAlert).events;
    assert [r][..0] == [];
    assert CarPlates([]) == [];
    var found := Consensus(r.texts, f.watchList, f.tolerance.GetOr(DefaultTolerance));
    if !Degenerate(f, r.box) && found.Some? {
      ConsensusSound(r.texts, f.watchList, f.tolerance.GetOr(DefaultTolerance));
      if |ev| == 2 {
        assert ev[1..] == [ev[1]] && ev[1..][1..] == [];
      } else {
        assert ev[1..] == [];
      }
    }
  }

  /**
   * A frame enqueues one `police_car` event per non-empty region with a
   * consensus, in region order and with that plate; zero-size and
   * unmatched regions are skipped without stopping the loop.
   */
  lemma {:induction false} FrameCars(f: Frame, rs: seq<Region>, o: Orientation, lastAlert: real)
    ensures CarPlates(FrameEvents(f, rs, o, lastAlert).events) == MatchedPlates(f, rs)
    ensures forall e :: e in FrameEvents(f, rs, o, lastAlert).events && e.PoliceCar? ==>
              e.orientation == o && e.plate in f.watchList
    decreases |rs|
  {
    if rs != [] {
      var before := FrameEvents(f, rs[..|rs| - 1], o, lastAlert);
      FrameCars(f, rs[..|rs| - 1], o, lastAlert);
      var r := rs[|rs| - 1];
      var step := RegionEvents(f, r, o, before.lastAlert);
      RegionCars(f, r, o, before.lastAlert);
      CarPlatesAppend(before.events, step.events);
      assert MatchedPlates(f, rs) == MatchedPlates(f, rs[..|rs| - 1]) + MatchedPlates(f, [r]) by {
        assert [r][..0] == [];
      }
    }
  }

  /** The module globals `detection_queue` and `last_alert_time` that the camera threads share. */
  class Detector {
    var queue: seq<Event>
    var lastAlertTime: real

    constructor ()
      ensures queue == [] && lastAlertTime == 0.0
    {
      queue := [];
      lastAlertTime := 0.0;
    }

    /** The body of the `for plate_box in ...` loop for one region. */
    method ProcessRegion(f: Frame, r: Region, o: Orientation, tolerance: int)
      requires tolerance == f.tolerance.GetOr(DefaultTolerance)
      modifies this
      ensures queue == old(queue) + RegionEvents(f, r, o, old(lastAlertTime)).events
      ensures lastAlertTime == RegionEvents(f, r, o, old(lastAlertTime)).lastAlert
    {
      if Degenerate(f, r.box) {
        return;
      }
      var plateFound := ResolveConsensus(r.texts, f.watchList, tolerance);
      if plateFound.Some? {
        var depth := RegionDepth(f, r.box);
        var offset := BearingOffset(f.width, r.box);
        queue := queue + [PoliceCar(plateFound.value, depth, offset, o)];
        var now := r.clock;
        if now - lastAlertTime >= AlertCooldown {
          lastAlertTime := now;
          queue := queue + [PlayAlert(AlertMessage)];
        }
      }
    }

    /** One frame: the settings' tolerance, then every region in YOLO order. */
    method ProcessFrame(f: Frame, o: Orientation)
      modifies this
      ensures queue == old(queue) + FrameEvents(f, f.regions, o, old(lastAlertTime)).events
      ensures lastAlertTime == FrameEvents(f, f.regions, o, old(lastAlertTime)).lastAlert
    {
      var tolerance := f.tolerance.GetOr(DefaultTolerance);
      ghost var q0 := queue;
      ghost var l0 := lastAlertTime;
      for i := 0 to |f.regions|
        invariant queue == q0 + FrameEvents(f, f.regions[..i], o, l0).events
        invariant lastAlertTime == FrameEvents(f, f.regions[..i], o, l0).lastAlert
      {
        FrameEventsStep(f, f.regions, i, o, l0);
        ghost var before := FrameEvents(f, f.regions[..i], o, l0);
        ghost var step := RegionEvents(f, f.regions[i], o, before.lastAlert);
        ProcessRegion(f, f.regions[i], o, tolerance);
        AppendAssoc(q0, before.events, step.events);
      }
      assert f.regions[..|f.regions|] == f.regions;
    }

    /** `run_detection` over the loop passes it makes before it stops. */
    method RunDetection(cs: seq<Capture>, o: Orientation)
      modifies this
      ensures queue == old(queue) + RunEvents(cs, o, old(lastAlertTime)).events
      ensures lastAlertTime == RunEvents(cs, o, old(lastAlertTime)).lastAlert
    {
      ghost var q0 := queue;
      ghost var l0 := lastAlertTime;
      for i := 0 to |cs|
        invariant queue == q0 + RunEvents(cs[..i], o, l0).events
        invariant lastAlertTime == RunEvents(cs[..i], o, l0).lastAlert
      {
        RunEventsStep(cs, i, o, l0);
        if cs[i].Dropped? {
          continue;
        }
        ghost var before := RunEvents(cs[..i], o, l0);
        ghost var step := FrameEvents(cs[i].frame, cs[i].frame.regions, o, before.lastAlert);
        ProcessFrame(cs[i].frame, o);
        AppendAssoc(q0, before.events, step.events);
      }
      assert cs[..|cs|] == cs;
    }
  }
}
