/**
 * latestStable.py, the older single-file version of the program. Its
 * Levenshtein distance, plate normalisation, database save and detection
 * loop are the ones of the other modules; what differs is modelled here:
 * the matcher starts from a distance of 9999 instead of infinity, and the
 * map tracker keeps `last_x`, `last_y` and `orientation` instead of
 * timestamps, starts a move from the icon's current canvas position,
 * updates the stored position only when a move finishes, and never
 * expires a car.
 */
module Stable {
  import opened Wrappers
  import opened PlateText
  import opened Levenshtein
  import opened FuzzyMatch
  import opened Detection
  import opened MapDisplay
  import Ui

  /** The initial `best_dist`. */
  const Sentinel: nat := 9999

  /** `best_match` and `best_dist` after scanning `es` in order. */
  datatype Scan = Scan(best: Option<string>, dist: nat)

  function StableScan(q: string, es: seq<string>): (s: Scan)
    ensures s.dist <= Sentinel
    ensures s.best.None? ==> s.dist == Sentinel
    ensures s.best.Some? ==> s.best.value in es && s.dist == EditDistance(q, s.best.value) && s.dist < Sentinel
    decreases |es|
  {
    if es == [] then Scan(None, Sentinel)
    else
      var s := StableScan(q, es[..|es| - 1]);
      var d := EditDistance(q, es[|es| - 1]);
      if d < s.dist then Scan(Some(es[|es| - 1]), d) else s
  }

  /** `fuzzy_match` of latestStable.py. */
  function StableMatch(text: string, es: seq<string>, tolerance: int): (r: Option<string>)
    ensures r.Some? ==> Key(text) != [] && r.value in es && EditDistance(Key(text), r.value) <= tolerance
    ensures es == [] || tolerance < 0 ==> r == None
  {
    var q := Key(text);
    if q == [] then None
    else
      var s := StableScan(q, es);
      if s.dist <= tolerance then s.best else None
  }

  method StableFuzzyMatch(text: string, es: seq<string>, tolerance: int) returns (r: Option<string>)
    ensures r == StableMatch(text, es, tolerance)
  {
    var q := Upper(Strip(text));
    if q == [] {
      return None;
    }
    var bestMatch: Option<string> := None;
    var bestDist: nat := Sentinel;
    for i := 0 to |es|
      invariant Scan(bestMatch, bestDist) == StableScan(q, es[..i])
    {
      assert es[..i + 1][..i] == es[..i];
      var d := LevenshteinDistance(q, es[i]);
      if d < bestDist {
        bestDist := d;
        bestMatch := Some(es[i]);
      }
    }
    assert es[..|es|] == es;
    if bestDist <= tolerance {
      return bestMatch;
    }
    return None;
  }

  /**
   * The sentinel scan finds the same first minimum as the scan from
   * infinity whenever that minimum is below 9999, and nothing otherwise.
   */
  lemma {:induction false} StableScanIsBest(q: string, es: seq<string>)
    ensures StableScan(q, es) ==
            if Best(q, es).Some? && Best(q, es).value.dist < Sentinel
            then Scan(Some(Best(q, es).value.plate), Best(q, es).value.dist)
            else Scan(None, Sentinel)
    decreases |es|
  {
    if es != [] {
      StableScanIsBest(q, es[..|es| - 1]);
    }
  }

  /** The two matchers agree whenever the tolerance is below the sentinel. */
  lemma StableMatchAgrees(text: string, es: seq<string>, tolerance: int)
    requires tolerance < Sentinel
    ensures StableMatch(text, es, tolerance) == Match(text, es, tolerance)
  {
    if Key(text) != [] {
      StableScanIsBest(Key(text), es);
    }
  }

  /** They also agree whenever some entry is fewer than 9999 edits from the text. */
  lemma StableMatchAgreesNear(text: string, es: seq<string>, tolerance: int, k: nat)
    requires k < |es| && EditDistance(Key(text), es[k]) < Sentinel
    ensures StableMatch(text, es, tolerance) == Match(text, es, tolerance)
  {
    if Key(text) != [] {
      StableScanIsBest(Key(text), es);
      var i := BestIsFirstMinimum(Key(text), es);
    }
  }

  /**
   * A text 9999 edits or more from every entry is never matched by the
   * sentinel scan, however large the tolerance, while the scan from
   * infinity returns the nearest entry.
   */
  lemma StableSentinelMisses()
    ensures var text := seq(10000, i => 'B');
      && StableMatch(text, ["A"], 10000) == None
      && Match(text, ["A"], 10000) == Some("A")
  {
    var text := seq(10000, i => 'B');
    assert Strip(text) == text;
    assert Upper(text) == text;
    EditDistanceMetric(text, "A");
    StableScanIsBest(text, ["A"]);
    assert ["A"][..0] == [];
  }

  /** `duration // steps`: floor division; it agrees with `int(duration / steps)` on non-negative durations. */
  function StableStepInterval(duration: int, steps: nat): (ms: int)
    requires steps > 0
    ensures duration >= 0 ==> ms == StepInterval(duration, steps)
  {
    duration / steps
  }

  /** The two intervals differ below zero: floor versus truncation. */
  lemma IntervalsDifferBelowZero()
    ensures StableStepInterval(-1, MoveSteps) == -1
    ensures StepInterval(-1, MoveSteps) == 0
  {
  }

  /** A `police_cars` entry of this version: icon `id`, `last_x`/`last_y` and `orientation`. */
  datatype StableCar = StableCar(canvasId: nat, last: Point, orientation: Orientation)

  /** The arguments of one `animate_police_car_move` call; the icon is looked up by plate. */
  datatype StableAnimation = StableAnimation(step: nat, steps: nat, duration: int, start: Point, end: Point, plate: string)

  datatype StableBoard = StableBoard(display: Option<Canvas>, cars: map<string, StableCar>, items: map<nat, Point>,
                                     nextId: nat, pending: seq<StableAnimation>)

  predicate StableConsistent(b: StableBoard) {
    && (forall p :: p in b.cars ==> b.cars[p].canvasId in b.items)
    && (forall id :: id in b.items ==> id < b.nextId)
    && (forall i :: 0 <= i < |b.pending| ==> b.pending[i].steps > 0)
  }

  /** One call of this version's `animate_police_car_move`. */
  function StableAnimateStep(b: StableBoard, a: StableAnimation): (r: StableBoard)
    requires a.steps > 0 && StableConsistent(b)
    ensures StableConsistent(r)
    ensures r.display == b.display && r.cars.Keys == b.cars.Keys && r.items.Keys == b.items.Keys
  {
    if a.plate !in b.cars then b
    else
      var car := b.cars[a.plate];
      if a.step > a.steps then
        b.(items := MoveItem(b.items, car.canvasId, a.end),
           cars := b.cars[a.plate := car.(last := a.end)])
      else
        var mid := Point(Lerp(a.start.x, a.end.x, a.step, a.steps), Lerp(a.start.y, a.end.y, a.step, a.steps));
        b.(items := MoveItem(b.items, car.canvasId, mid), pending := b.pending + [a.(step := a.step + 1)])
  }

  /** This version's `place_or_move_police_car`. */
  function StablePlace(b: StableBoard, plate: string, distance: real, offset: real, o: Orientation): (r: StableBoard)
    requires StableConsistent(b)
    ensures StableConsistent(r)
    ensures r.display == b.display
    ensures b.cars.Keys <= r.cars.Keys
  {
    match b.display
    case None => b
    case Some(c) =>
      var t := Target(c, distance, offset, o);
      if plate !in b.cars then
        StableBoard(b.display, b.cars[plate := StableCar(b.nextId, t, o)], b.items[b.nextId := t], b.nextId + 1, b.pending)
      else
        var start := b.items[b.cars[plate].canvasId];
        StableAnimateStep(b, StableAnimation(0, MoveSteps, MoveDuration, start, t, plate))
  }

  /** An unseen plate gets one entry holding its target as `last_x`/`last_y` and its camera. */
  lemma StablePlaceUnseen(b: StableBoard, plate: string, distance: real, offset: real, o: Orientation)
    requires StableConsistent(b) && b.display.Some? && plate !in b.cars
    ensures var r := StablePlace(b, plate, distance, offset, o);
      && r.cars.Keys == b.cars.Keys + {plate}
      && r.cars[plate].last == Target(b.display.value, distance, offset, o)
      && r.cars[plate].orientation == o
      && r.items[r.cars[plate].canvasId] == r.cars[plate].last
      && (forall q :: q in b.cars ==> r.cars[q] == b.cars[q])
  {
  }

  /**
   * A seen plate's entry is left as it was (no timestamp, same orientation
   * and stored position); only a move from the icon's current position is
   * started.
   */
  lemma StablePlaceSeen(b: StableBoard, plate: string, distance: real, offset: real, o: Orientation)
    requires StableConsistent(b) && b.display.Some? && plate in b.cars
    ensures var r := StablePlace(b, plate, distance, offset, o);
      var id := b.cars[plate].canvasId;
      && r.cars == b.cars
      && r.items[id] == b.items[id]
      && r.pending == b.pending +
           [StableAnimation(1, MoveSteps, MoveDuration, b.items[id], Target(b.display.value, distance, offset, o), plate)]
  {
  }

  /** The stored position changes only at the final callback, and then to the end point. */
  lemma StableLastOnlyAtEnd(b: StableBoard, a: StableAnimation)
    requires a.steps > 0 && StableConsistent(b)
    ensures a.step <= a.steps ==> StableAnimateStep(b, a).cars == b.cars
    ensures a.step > a.steps && a.plate in b.cars ==>
              StableAnimateStep(b, a).cars == b.cars[a.plate := b.cars[a.plate].(last := a.end)]
  {
  }

  /** This version's `update_ui` only drains the queue. */
  function StableDrain(b: StableBoard, q: seq<Event>): (r: StableBoard)
    requires StableConsistent(b)
    ensures StableConsistent(r)
    ensures r.display == b.display
    ensures b.display.None? ==> r == b
    decreases |q|
  {
    if q == [] then b
    else
      var before := StableDrain(b, q[..|q| - 1]);
      match q[|q| - 1]
      case PoliceCar(plate, distance, offset, o) => StablePlace(before, plate, distance, offset, o)
      case PlayAlert(_) => before
  }

  /** Without expiry, a car once on the map stays there through every tick. */
  lemma {:induction false} StableNeverExpires(b: StableBoard, q: seq<Event>)
    requires StableConsistent(b)
    ensures b.cars.Keys <= StableDrain(b, q).cars.Keys
    decreases |q|
  {
    if q != [] {
      StableNeverExpires(b, q[..|q| - 1]);
    }
  }

  /** The tracker state of latestStable.py. */
  class StableTracker {
    var display: Option<Canvas>
    var cars: map<string, StableCar>
    var items: map<nat, Point>
    var nextId: nat
    var pending: seq<StableAnimation>

    function State(): StableBoard
      reads this
    {
      StableBoard(display, cars, items, nextId, pending)
    }

    predicate Valid()
      reads this
    {
      StableConsistent(State())
    }

    constructor (display: Option<Canvas>)
      ensures Valid()
      ensures State() == StableBoard(display, map[], map[], 0, [])
    {
      this.display := display;
      cars := map[];
      items := map[];
      nextId := 0;
      pending := [];
    }

    method AnimatePoliceCarMove(a: StableAnimation)
      requires Valid() && a.steps > 0
      modifies this
      ensures Valid()
      ensures State() == StableAnimateStep(old(State()), a)
    {
      if a.plate !in cars {
        return;
      }
      var car := cars[a.plate];
      if a.step > a.steps {
        items := MoveItem(items, car.canvasId, a.end);
        cars := cars[a.plate := car.(last := a.end)];
        return;
      }
      var mid := Point(Lerp(a.start.x, a.end.x, a.step, a.steps), Lerp(a.start.y, a.end.y, a.step, a.steps));
      items := MoveItem(items, car.canvasId, mid);
      pending := pending + [a.(step := a.step + 1)];
    }

    method PlaceOrMove(plate: string, distance: real, offset: real, o: Orientation)
      requires Valid()
      modifies this
      ensures Valid()
      ensures State() == StablePlace(old(State()), plate, distance, offset, o)
    {
      if display.None? {
        return;
      }
      var target := Target(display.value, distance, offset, o);
      if plate !in cars {
        var id := nextId;
        items := items[id := target];
        nextId := nextId + 1;
        cars := cars[plate := StableCar(id, target, o)];
      } else {
        var start := items[cars[plate].canvasId];
        AnimatePoliceCarMove(StableAnimation(0, MoveSteps, MoveDuration, start, target, plate));
      }
    }
  }

  /** This version's `update_ui`: drain the queue in order; there is no clean-up. */
  method StableUpdateUi(det: Detector, tracker: StableTracker) returns (played: seq<string>)
    requires tracker.Valid()
    modifies det, tracker
    ensures tracker.Valid()
    ensures det.queue == [] && det.lastAlertTime == old(det.lastAlertTime)
    ensures played == Ui.Alerts(old(det.queue))
    ensures tracker.State() == StableDrain(old(tracker.State()), old(det.queue))
    ensures old(tracker.cars).Keys <= tracker.cars.Keys
  {
    ghost var q0 := det.queue;
    ghost var b0 := tracker.State();
    played := [];
    ghost var taken := 0;
    while det.queue != []
      invariant tracker.Valid()
      invariant taken <= |q0| && det.queue == q0[taken..]
      invariant det.lastAlertTime == old(det.lastAlertTime)
      invariant tracker.State() == StableDrain(b0, q0[..taken])
      invariant played == Ui.Alerts(q0[..taken])
      decreases |det.queue|
    {
      var item := det.queue[0];
      det.queue := det.queue[1..];
      assert q0[..taken + 1][..taken] == q0[..taken] && q0[..taken + 1][taken] == item;
      taken := taken + 1;
      match item
      case PoliceCar(plate, distance, offset, o) =>
        tracker.PlaceOrMove(plate, distance, offset, o);
      case PlayAlert(message) =>
        played := played + [message];
    }
    assert q0[..taken] == q0;
    StableNeverExpires(b0, q0);
  }
}
