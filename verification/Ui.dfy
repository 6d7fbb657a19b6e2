/**
 * The periodic `update_ui` tick of ui.py, which drains `detection_queue`
 * into the map and then forgets police cars not seen for
 * `DETECTION_TIMEOUT` seconds, and the settings sliders' callbacks.
 * One clock reading `now` stands for the tick's `time.time()` calls.
 */
module Ui {
  import opened Wrappers
  import opened Numeric
  import opened Detection
  import opened MapDisplay

  /** `DETECTION_TIMEOUT`, in seconds. */
  const DetectionTimeout: real := 5.0

  /** One queue item handed to its handler. */
  function Dispatch(b: Board, e: Event, now: real): (r: Board)
    requires Consistent(b)
    ensures Consistent(r)
    ensures r.display == b.display
    ensures e.PlayAlert? || b.display.None? ==> r == b
    ensures e.PoliceCar? && b.display.Some? ==>
              r.cars.Keys == b.cars.Keys + {e.plate} && r.cars[e.plate].lastDetection == now
  {
    match e
    case PoliceCar(plate, distance, offset, o) => Place(b, plate, distance, offset, o, now)
    case PlayAlert(_) => b
  }

  /** The queue items handled in FIFO order. */
  function Drain(b: Board, q: seq<Event>, now: real): (r: Board)
    requires Consistent(b)
    ensures Consistent(r)
    ensures r.display == b.display
    decreases |q|
  {
    if q == [] then b else Dispatch(Drain(b, q[..|q| - 1], now), q[|q| - 1], now)
  }

  /** The messages handed to `play_alert_sound`, in queue order. */
  function Alerts(q: seq<Event>): (r: seq<string>)
    ensures |r| <= |q|
    ensures forall m :: m in r ==> PlayAlert(m) in q
    decreases |q|
  {
    if q == [] then [] else Alerts(q[..|q| - 1]) + (if q[|q| - 1].PlayAlert? then [q[|q| - 1].message] else [])
  }

  /** Every `play_alert` item's message is played. */
  lemma {:induction false} AlertsComplete(q: seq<Event>)
    ensures forall i :: 0 <= i < |q| && q[i].PlayAlert? ==> q[i].message in Alerts(q)
    decreases |q|
  {
    if q != [] {
      var init := q[..|q| - 1];
      AlertsComplete(init);
      forall i | 0 <= i < |init| && q[i].PlayAlert?
        ensures q[i].message in Alerts(q)
      {
        assert q[i] == init[i];
      }
    }
  }

  /** Alerts are played in queue order: a later batch's messages follow an earlier batch's. */
  lemma {:induction false} AlertsAppend(a: seq<Event>, b: seq<Event>)
    ensures Alerts(a + b) == Alerts(a) + Alerts(b)
    decreases |b|
  {
    if b == [] {
      assert a + b == a;
    } else {
      var init, e := b[..|b| - 1], b[|b| - 1];
      var tail := if e.PlayAlert? then [e.message] else [];
      AlertsAppend(a, init);
      assert (a + b)[..|a + b| - 1] == a + init;
      assert (a + b)[|a + b| - 1] == e;
      assert Alerts(a + b) == Alerts(a + init) + tail;
      assert Alerts(b) == Alerts(init) + tail;
      assert (Alerts(a) + Alerts(init)) + tail == Alerts(a) + (Alerts(init) + tail);
    }
  }

  /** One message is played per `play_alert` item, no more and no fewer. */
  lemma {:induction false} AlertsCount(q: seq<Event>)
    ensures |Alerts(q)| == AlertCount(q)
    decreases |q|
  {
    if q != [] {
      var init := q[..|q| - 1];
      var last := q[|q| - 1];
      AlertsCount(init);
      assert q == init + [last];
      AlertCountAppend(init, [last]);
      assert AlertCount([last]) == if last.PlayAlert? then 1 else 0 by {
        assert [last][1..] == [];
      }
    }
  }

  predicate Expired(car: Car, now: real) {
    now - car.lastDetection >= DetectionTimeout
  }

  /** `to_remove`: the entries, among `plates`, whose last sighting is at least the timeout old. */
  function ExpiredPlates(cars: map<string, Car>, plates: set<string>, now: real): set<string> {
    set p | p in plates && p in cars && Expired(cars[p], now)
  }

  /** The canvas items left after `road_canvas.delete` of the icons of `plates`. */
  function DropIcons(items: map<nat, Point>, cars: map<string, Car>, plates: set<string>): map<nat, Point> {
    map id | id in items && (forall p :: p in plates && p in cars ==> cars[p].canvasId != id) :: items[id]
  }

  /** The clean-up phase of the tick. */
  function Expire(b: Board, now: real): (r: Board)
    requires Consistent(b)
    ensures Consistent(r)
  {
    var gone := ExpiredPlates(b.cars, b.cars.Keys, now);
    var cars := map p | p in b.cars && p !in gone :: b.cars[p];
    var items := if b.display.Some? then DropIcons(b.items, b.cars, gone) else b.items;
    var r := b.(cars := cars, items := items);
    assert forall p :: p in r.cars ==> r.cars[p].canvasId in r.items by {
      forall p | p in r.cars
        ensures r.cars[p].canvasId in r.items
      {
        assert b.cars[p].canvasId in b.items;
      }
    }
    r
  }

  /**
   * Exactly the entries last seen at least `DETECTION_TIMEOUT` ago are
   * removed, with their icons when the canvas exists; the others keep their
   * entry and icon unchanged.
   */
  lemma ExpireExact(b: Board, now: real)
    requires Consistent(b)
    ensures forall p :: p in Expire(b, now).cars <==> p in b.cars && now - b.cars[p].lastDetection < DetectionTimeout
    ensures forall p :: p in Expire(b, now).cars ==> Expire(b, now).cars[p] == b.cars[p]
    ensures forall p :: p in Expire(b, now).cars ==> Expire(b, now).items[b.cars[p].canvasId] == b.items[b.cars[p].canvasId]
    ensures b.display.Some? ==> forall p :: p in b.cars && Expired(b.cars[p], now) ==> b.cars[p].canvasId !in Expire(b, now).items
  {
  }

  /** The queue is handled strictly in order: draining `q1 + q2` is draining `q1`, then `q2`. */
  lemma {:induction false} DrainAppend(b: Board, q1: seq<Event>, q2: seq<Event>, now: real)
    requires Consistent(b)
    ensures Drain(b, q1 + q2, now) == Drain(Drain(b, q1, now), q2, now)
    decreases |q2|
  {
    if q2 == [] {
      assert q1 + q2 == q1;
    } else {
      var init := q2[..|q2| - 1];
      var e := q2[|q2| - 1];
      assert (q1 + q2)[..|q1 + q2| - 1] == q1 + init;
      assert (q1 + q2)[|q1 + q2| - 1] == e;
      DrainAppend(b, q1, init, now);
      var mid := Drain(b, q1, now);
      assert Drain(b, q1 + q2, now) == Dispatch(Drain(b, q1 + init, now), e, now);
      assert Drain(mid, q2, now) == Dispatch(Drain(mid, init, now), e, now);
    }
  }

  /** A plate with an event in the drained queue is an entry stamped with the tick's clock. */
  lemma {:induction false} DrainStamps(b: Board, q: seq<Event>, now: real, k: nat)
    requires Consistent(b) && b.display.Some?
    requires k < |q| && q[k].PoliceCar?
    ensures q[k].plate in Drain(b, q, now).cars
    ensures Drain(b, q, now).cars[q[k].plate].lastDetection == now
    decreases |q|
  {
    var init := Drain(b, q[..|q| - 1], now);
    var e := q[|q| - 1];
    assert Drain(b, q, now) == Dispatch(init, e, now);
    if k < |q| - 1 {
      DrainStamps(b, q[..|q| - 1], now, k);
      if e.PoliceCar? && e.plate != q[k].plate {
        if e.plate in init.cars {
          PlaceSeen(init, e.plate, e.distance, e.offset, e.orientation, now);
        } else {
          PlaceUnseen(init, e.plate, e.distance, e.offset, e.orientation, now);
        }
      }
    } else if q[k].plate in init.cars {
      PlaceSeen(init, e.plate, e.distance, e.offset, e.orientation, now);
    } else {
      PlaceUnseen(init, e.plate, e.distance, e.offset, e.orientation, now);
    }
  }

  /** A car detected during the tick survives that tick's clean-up. */
  lemma FreshSurvivesTick(b: Board, q: seq<Event>, now: real, k: nat)
    requires Consistent(b) && b.display.Some?
    requires k < |q| && q[k].PoliceCar?
    ensures q[k].plate in Expire(Drain(b, q, now), now).cars
  {
    DrainStamps(b, q, now, k);
    ExpireExact(Drain(b, q, now), now);
  }

  /** The timeout boundary: a car last seen 5.9 s ago stays, one seen 6 s ago goes. */
  lemma ExpiryBoundary(b: Board, plate: string)
    requires Consistent(b) && plate in b.cars && b.cars[plate].lastDetection == 1.0
    ensures plate in Expire(b, 5.9).cars
    ensures plate !in Expire(b, 6.0).cars
  {
    ExpireExact(b, 5.9);
    ExpireExact(b, 6.0);
  }

  /** `update_ui`: drain the queue into the map in order, then remove the stale cars in two phases. */
  method UpdateUi(det: Detector, tracker: Tracker, now: real) returns (played: seq<string>)
    requires tracker.Valid()
    modifies det, tracker
    ensures tracker.Valid()
    ensures det.queue == [] && det.lastAlertTime == old(det.lastAlertTime)
    ensures played == Alerts(old(det.queue))
    ensures tracker.State() == Expire(Drain(old(tracker.State()), old(det.queue), now), now)
  {
    played := DrainQueue(det, tracker, now);
    RemoveStale(tracker, now);
  }

  /** The `while True: get_nowait()` loop, which ends when the queue is empty. */
  method DrainQueue(det: Detector, tracker: Tracker, now: real) returns (played: seq<string>)
    requires tracker.Valid()
    modifies det, tracker
    ensures tracker.Valid()
    ensures det.queue == [] && det.lastAlertTime == old(det.lastAlertTime)
    ensures played == Alerts(old(det.queue))
    ensures tracker.State() == Drain(old(tracker.State()), old(det.queue), now)
  {
    ghost var q0 := det.queue;
    ghost var b0 := tracker.State();
    played := [];
    ghost var taken := 0;
    while det.queue != []
      invariant tracker.Valid()
      invariant taken <= |q0| && det.queue == q0[taken..]
      invariant det.lastAlertTime == old(det.lastAlertTime)
      invariant tracker.State() == Drain(b0, q0[..taken], now)
      invariant played == Alerts(q0[..taken])
      decreases |det.queue|
    {
      var item := det.queue[0];
      det.queue := det.queue[1..];
      assert q0[..taken + 1][..taken] == q0[..taken] && q0[..taken + 1][taken] == item;
      taken := taken + 1;
      match item
      case PoliceCar(plate, distance, offset, o) =>
        tracker.PlaceOrMove(plate, distance, offset, o, now);
      case PlayAlert(message) =>
        played := played + [message];
    }
    assert q0[..taken] == q0;
  }

  /** The clean-up: collect `to_remove` while deleting icons, then delete the entries. */
  method RemoveStale(tracker: Tracker, now: real)
    requires tracker.Valid()
    modifies tracker
    ensures tracker.Valid()
    ensures tracker.State() == Expire(old(tracker.State()), now)
  {
    ghost var b := tracker.State();
    var toRemove := CollectStale(tracker, now);
    DeleteEntries(tracker, toRemove);
    ghost var gone := ExpiredPlates(b.cars, b.cars.Keys, now);
    assert tracker.cars == map p | p in b.cars && p !in gone :: b.cars[p];
  }

  /** Deleting one more entry's icon. */
  lemma DropIconsAdd(items: map<nat, Point>, cars: map<string, Car>, plates: set<string>, plate: string)
    requires plate in cars
    ensures DropIcons(items, cars, plates + {plate}) == DropIcons(items, cars, plates) - {cars[plate].canvasId}
  {
  }

  /** Visiting one more entry adds it to `to_remove` exactly when it is stale. */
  lemma ExpiredAdd(cars: map<string, Car>, plates: set<string>, plate: string, now: real)
    requires plate in cars
    ensures ExpiredPlates(cars, plates + {plate}, now) ==
              if Expired(cars[plate], now) then ExpiredPlates(cars, plates, now) + {plate} else ExpiredPlates(cars, plates, now)
  {
  }

  /** The first loop over `police_cars.items()`: stale plates are collected and their icons deleted. */
  method CollectStale(tracker: Tracker, now: real) returns (toRemove: seq<string>)
    modifies tracker`items
    ensures forall p :: p in toRemove <==> p in ExpiredPlates(tracker.cars, tracker.cars.Keys, now)
    ensures tracker.items ==
              if tracker.display.Some? then DropIcons(old(tracker.items), tracker.cars, ExpiredPlates(tracker.cars, tracker.cars.Keys, now))
              else old(tracker.items)
  {
    var cars := tracker.cars;
    ghost var items0 := tracker.items;
    toRemove := [];
    var unvisited := cars.Keys;
    ghost var visited: set<string> := {};
    ghost var gone: set<string> := {};
    while unvisited != {}
      invariant visited + unvisited == cars.Keys
      invariant gone == ExpiredPlates(cars, visited, now)
      invariant forall p :: p in toRemove <==> p in gone
      invariant tracker.items == if tracker.display.Some? then DropIcons(items0, cars, gone) else items0
      decreases |unvisited|
    {
      var plate :| plate in unvisited;
      ExpiredAdd(cars, visited, plate, now);
      if now - cars[plate].lastDetection >= DetectionTimeout {
        if tracker.display.Some? {
          DropIconsAdd(items0, cars, gone, plate);
          tracker.items := tracker.items - {cars[plate].canvasId};
        }
        toRemove := toRemove + [plate];
        gone := gone + {plate};
      }
      unvisited := unvisited - {plate};
      visited := visited + {plate};
    }
  }

  /** The second loop: `del police_cars[plate]` for each collected plate. */
  method DeleteEntries(tracker: Tracker, toRemove: seq<string>)
    modifies tracker`cars
    ensures tracker.cars == map p | p in old(tracker.cars) && p !in toRemove :: old(tracker.cars)[p]
  {
    for i := 0 to |toRemove|
      invariant tracker.cars == map p | p in old(tracker.cars) && p !in toRemove[..i] :: old(tracker.cars)[p]
    {
      tracker.cars := tracker.cars - {toRemove[i]};
    }
  }

  /** The stored mismatch tolerance: the slider value truncated to an integer. */
  function ToleranceFromSlider(value: real): (t: int)
    ensures value >= 0.0 ==> t >= 0 && t as real <= value < t as real + 1.0
  {
    Trunc(value)
  }

  /** The stored volume: the truncated slider value forced into `[0, 100]`. */
  function VolumeFromSlider(value: real): (v: int)
    ensures 0 <= v <= 100
    ensures 0 <= Trunc(value) <= 100 ==> v == Trunc(value)
    ensures Trunc(value) < 0 ==> v == 0
    ensures Trunc(value) > 100 ==> v == 100
  {
    var v := Trunc(value);
    if v < 0 then 0 else if v > 100 then 100 else v
  }

  /** The `settings` dictionary's two keys; a key that was never stored is absent. */
  class Settings {
    var mismatchTolerance: Option<int>
    var volumeLevel: Option<int>

    constructor (mismatchTolerance: Option<int>, volumeLevel: Option<int>)
      ensures this.mismatchTolerance == mismatchTolerance && this.volumeLevel == volumeLevel
    {
      this.mismatchTolerance := mismatchTolerance;
      this.volumeLevel := volumeLevel;
    }

    /** `update_mismatch_tolerance`. */
    method UpdateMismatchTolerance(value: real)
      modifies this`mismatchTolerance
      ensures mismatchTolerance == Some(ToleranceFromSlider(value))
    {
      var v := Trunc(value);
      mismatchTolerance := Some(v);
    }

    /** `update_volume_level`. */
    method UpdateVolumeLevel(value: real)
      modifies this`volumeLevel
      ensures volumeLevel == Some(VolumeFromSlider(value))
      ensures 0 <= volumeLevel.value <= 100
    {
      var v := Trunc(value);
      v := if v < 0 then 0 else if v > 100 then 100 else v;
      volumeLevel := Some(v);
    }
  }
}
