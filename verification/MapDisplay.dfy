/**
 * The police-car map of map_display.py: where a detection is drawn
 * (`place_or_move_police_car`) and how an icon glides to its new place
 * (`animate_police_car_move`). The Tk canvas is reduced to the positions of
 * its image items by id; the Tk `after` queue to the list of pending
 * animation callbacks, delivered in order.
 */
module MapDisplay {
  import opened Wrappers
  import opened Numeric
  import opened Detection

  /** Pixels per metre of reported distance. */
  const DistanceScale: real := 1000.0
  /** Pixels per unit of horizontal offset. */
  const OffsetScale: real := 10.0
  /** The `steps` and `duration` (ms) of a move animation. */
  const MoveSteps: nat := 20
  const MoveDuration: int := 500

  datatype Point = Point(x: real, y: real)

  /** The canvas size (`canvas_width`, `canvas_height`) and the police icon's size. */
  datatype Canvas = Canvas(width: int, height: int, iconWidth: int, iconHeight: int)

  function CenterX(c: Canvas): real { c.width as real / 2.0 }
  function CenterY(c: Canvas): real { c.height as real / 2.0 }
  function HalfW(c: Canvas): real { c.iconWidth as real / 2.0 }
  function HalfH(c: Canvas): real { c.iconHeight as real / 2.0 }

  /** The unclamped position: ahead of the user's car for the front camera, behind it (offset mirrored) for the back one. */
  function Project(c: Canvas, distance: real, offset: real, o: Orientation): (p: Point)
    ensures distance > 0.0 ==> (p.y < CenterY(c) <==> o == Front)
    ensures offset > 0.0 ==> (p.x > CenterX(c) <==> o == Front)
    ensures distance == 0.0 ==> p.y == CenterY(c)
    ensures offset == 0.0 ==> p.x == CenterX(c)
  {
    var y := if o == Front then CenterY(c) - distance * DistanceScale else CenterY(c) + distance * DistanceScale;
    var side := if o == Front then offset else -offset;
    Point(CenterX(c) + side * OffsetScale, y)
  }

  /**
   * The scale of the map: each metre of distance moves the icon 1000 px away
   * from the centre line, and each unit of offset moves it 10 px sideways.
   */
  lemma ProjectScale(c: Canvas, d1: real, d2: real, off1: real, off2: real, o: Orientation)
    ensures var p1, p2 := Project(c, d1, off1, o), Project(c, d2, off2, o);
      && (o == Front ==> p1.y - p2.y == (d2 - d1) * 1000.0 && p2.x - p1.x == (off2 - off1) * 10.0)
      && (o == Back ==> p2.y - p1.y == (d2 - d1) * 1000.0 && p1.x - p2.x == (off2 - off1) * 10.0)
  {
  }

  /** A back-camera sighting is the front-camera one reflected through the canvas centre. */
  lemma ProjectMirror(c: Canvas, distance: real, offset: real)
    ensures Project(c, distance, offset, Back) ==
            Point(2.0 * CenterX(c) - Project(c, distance, offset, Front).x,
                  2.0 * CenterY(c) - Project(c, distance, offset, Front).y)
  {
  }

  /** `max(half, min(v, bound - half))`. */
  function Clamp(v: real, half: real, bound: real): (r: real)
    ensures r >= half
    ensures half <= bound - half ==> r <= bound - half
    ensures half <= v <= bound - half ==> r == v
    ensures r == v || r == half || r == bound - half
  {
    Max(half, Min(v, bound - half))
  }

  /** The clamped position where the icon is drawn. */
  function Target(c: Canvas, distance: real, offset: real, o: Orientation): (p: Point)
    ensures HalfW(c) <= p.x && HalfH(c) <= p.y
    ensures HalfW(c) <= c.width as real - HalfW(c) ==> p.x <= c.width as real - HalfW(c)
    ensures HalfH(c) <= c.height as real - HalfH(c) ==> p.y <= c.height as real - HalfH(c)
  {
    var p := Project(c, distance, offset, o);
    Point(Clamp(p.x, HalfW(c), c.width as real), Clamp(p.y, HalfH(c), c.height as real))
  }

  lemma MulNonNegative(x: real, y: real)
    requires x >= 0.0 && y >= 0.0
    ensures x * y >= 0.0
  {
  }

  /** A fraction `t` of a length lies between zero and that length. */
  lemma ScaleBounds(t: real, d: real)
    requires 0.0 <= t <= 1.0
    ensures d >= 0.0 ==> 0.0 <= t * d <= d
    ensures d < 0.0 ==> d <= t * d <= 0.0
  {
    if d >= 0.0 {
      MulNonNegative(t, d);
      MulNonNegative(1.0 - t, d);
      assert (1.0 - t) * d == d - t * d;
    } else {
      MulNonNegative(t, -d);
      MulNonNegative(1.0 - t, -d);
      assert t * (-d) == -(t * d);
      assert (1.0 - t) * (-d) == t * d - d;
    }
  }

  lemma RatioBounds(k: nat, steps: nat)
    requires 0 < steps && k <= steps
    ensures 0.0 <= k as real / steps as real <= 1.0
    ensures k == steps ==> k as real / steps as real == 1.0
  {
  }

  /** A point a fraction `t` of the way from `a` to `b` lies between them. */
  lemma BetweenEnds(a: real, b: real, t: real)
    requires 0.0 <= t <= 1.0
    ensures Min(a, b) <= a + t * (b - a) <= Max(a, b)
  {
    var d := b - a;
    var p := t * d;
    ScaleBounds(t, d);
    if a <= b {
      assert 0.0 <= p <= d;
      assert Min(a, b) == a && Max(a, b) == b;
    } else {
      assert d <= p <= 0.0;
      assert Min(a, b) == b && Max(a, b) == a;
    }
  }

  /** `a + (k / steps) * (b - a)`. */
  function Lerp(a: real, b: real, k: nat, steps: nat): (r: real)
    requires steps > 0
    ensures k == 0 ==> r == a
    ensures k == steps ==> r == b
    ensures k <= steps ==> Min(a, b) <= r <= Max(a, b)
  {
    var ratio := k as real / steps as real;
    if k <= steps then
      RatioBounds(k, steps);
      BetweenEnds(a, b, ratio);
      a + ratio * (b - a)
    else
      a + ratio * (b - a)
  }

  /** Consecutive animation steps are evenly spaced, `(b - a) / steps` apart. */
  lemma LerpEvenSteps(a: real, b: real, k: nat, steps: nat)
    requires steps > 0
    ensures Lerp(a, b, k + 1, steps) - Lerp(a, b, k, steps) == (b - a) / steps as real
  {
    var n := steps as real;
    var r0, r1 := k as real / n, (k + 1) as real / n;
    assert r1 - r0 == 1.0 / n;
    assert r1 * (b - a) - r0 * (b - a) == (r1 - r0) * (b - a);
    assert (1.0 / n) * (b - a) == (b - a) / n;
  }

  /** Division truncating toward zero, as `int` of a true quotient. */
  function TruncDiv(n: int, d: int): int
    requires d > 0
  {
    if n >= 0 then n / d else -((-n) / d)
  }

  /**
   * `int(duration / steps)`: the delay, in ms, before the next animation
   * callback; `int` of the true quotient truncates toward zero.
   */
  function StepInterval(duration: int, steps: nat): (ms: int)
    requires steps > 0
    ensures duration >= 0 ==> ms == duration / steps
  {
    TruncDiv(duration, steps)
  }

  /** A negative quotient is rounded toward zero, the mirror image of the positive one. */
  lemma StepIntervalTowardZero(duration: int, steps: nat)
    requires steps > 0 && duration > 0
    ensures StepInterval(-duration, steps) == -StepInterval(duration, steps)
  {
  }

  /** For a positive divisor, the floor of the true quotient of naturals is their integer quotient. */
  lemma FloorOfQuotient(m: nat, d: nat)
    requires d > 0
    ensures (m as real / d as real).Floor == m / d
  {
    var q := m / d;
    var x := m as real / d as real;
    assert q * d <= m < q * d + d;
    assert x * d as real == m as real;
    assert (q as real) * (d as real) <= m as real < (q as real + 1.0) * (d as real);
    if q as real + 1.0 <= x {
      MulMonotone(q as real + 1.0, x, d as real);
    }
    if x < q as real {
      MulMonotone(x, q as real, d as real);
    }
  }

  /** Multiplying by a positive factor keeps the order. */
  lemma MulMonotone(a: real, b: real, c: real)
    requires a <= b && c > 0.0
    ensures a * c <= b * c
  {
    MulNonNegative(b - a, c);
  }

  /** The interval is Python's `int()` of the true quotient `duration / steps`. */
  lemma StepIntervalIsTrunc(duration: int, steps: nat)
    requires steps > 0
    ensures StepInterval(duration, steps) == Trunc(duration as real / steps as real)
  {
    if duration >= 0 {
      FloorOfQuotient(duration, steps);
    } else {
      FloorOfQuotient(-duration, steps);
      assert -(duration as real / steps as real) == (-duration) as real / steps as real;
    }
  }

  lemma MoveInterval()
    ensures StepInterval(MoveDuration, MoveSteps) == 25
  {
  }

  /** The arguments of one `animate_police_car_move` call. */
  datatype Animation = Animation(step: nat, steps: nat, duration: int, start: Point, end: Point,
                                 canvasId: nat, plate: string)

  /** Where callback `a` puts the icon: interpolated, or the end point once past the last step. */
  function AnimationPoint(a: Animation): Point
    requires a.steps > 0
  {
    if a.step > a.steps then a.end
    else Point(Lerp(a.start.x, a.end.x, a.step, a.steps), Lerp(a.start.y, a.end.y, a.step, a.steps))
  }

  /** A `police_cars` entry: its icon, `last_detection_time` and stored target `x`, `y`. */
  datatype Car = Car(canvasId: nat, lastDetection: real, pos: Point)

  /**
   * The tracker's whole state: the canvas (absent until the map is shown),
   * `police_cars`, the canvas image items by id, the next id the canvas
   * hands out, and the scheduled animation callbacks.
   */
  datatype Board = Board(display: Option<Canvas>, cars: map<string, Car>, items: map<nat, Point>,
                         nextId: nat, pending: seq<Animation>)

  /** Every entry has its own live icon, ids are never reused, and every callback has steps. */
  predicate Consistent(b: Board) {
    && (forall p :: p in b.cars ==> b.cars[p].canvasId in b.items)
    && (forall id :: id in b.items ==> id < b.nextId)
    && (forall p, q :: p in b.cars && q in b.cars && p != q ==> b.cars[p].canvasId != b.cars[q].canvasId)
    && (forall i :: 0 <= i < |b.pending| ==> b.pending[i].steps > 0)
  }

  /** The canvas's `coords(id, ...)`: moves the item if it still exists. */
  function MoveItem(items: map<nat, Point>, id: nat, p: Point): (r: map<nat, Point>)
    ensures r.Keys == items.Keys
    ensures id in items ==> r[id] == p
    ensures forall j :: j in items && j != id ==> r[j] == items[j]
  {
    if id in items then items[id := p] else items
  }

  /** One `animate_police_car_move` call. */
  function AnimateStep(b: Board, a: Animation): (r: Board)
    requires a.steps > 0
    requires Consistent(b)
    ensures Consistent(r)
    ensures r.display == b.display && r.cars == b.cars && r.nextId == b.nextId
  {
    if a.plate !in b.cars then b
    else if a.step > a.steps then b.(items := MoveItem(b.items, a.canvasId, a.end))
    else b.(items := MoveItem(b.items, a.canvasId, AnimationPoint(a)), pending := b.pending + [a.(step := a.step + 1)])
  }

  /** `place_or_move_police_car` for a detection at clock `now`. */
  function Place(b: Board, plate: string, distance: real, offset: real, o: Orientation, now: real): (r: Board)
    requires Consistent(b)
    ensures Consistent(r)
    ensures r.display == b.display
  {
    match b.display
    case None => b
    case Some(c) =>
      var t := Target(c, distance, offset, o);
      if plate !in b.cars then
        Board(b.display, b.cars[plate := Car(b.nextId, now, t)], b.items[b.nextId := t], b.nextId + 1, b.pending)
      else
        var car := b.cars[plate];
        var updated := b.(cars := b.cars[plate := Car(car.canvasId, now, t)]);
        AnimateStep(updated, Animation(0, MoveSteps, MoveDuration, car.pos, t, car.canvasId, plate))
  }

  /** Without a canvas or icon nothing changes. */
  lemma PlaceWithoutCanvas(b: Board, plate: string, distance: real, offset: real, o: Orientation, now: real)
    requires Consistent(b) && b.display.None?
    ensures Place(b, plate, distance, offset, o, now) == b
  {
  }

  /**
   * An unseen plate gets exactly one new entry, stamped `now`, whose fresh
   * icon is drawn at the clamped target; nothing else changes.
   */
  lemma PlaceUnseen(b: Board, plate: string, distance: real, offset: real, o: Orientation, now: real)
    requires Consistent(b) && b.display.Some? && plate !in b.cars
    ensures var r := Place(b, plate, distance, offset, o, now);
      && r.cars.Keys == b.cars.Keys + {plate}
      && |r.cars| == |b.cars| + 1
      && r.cars[plate].lastDetection == now
      && r.cars[plate].pos == Target(b.display.value, distance, offset, o)
      && r.cars[plate].canvasId !in b.items
      && r.items[r.cars[plate].canvasId] == r.cars[plate].pos
      && (forall q :: q in b.cars ==> r.cars[q] == b.cars[q])
      && r.pending == b.pending
  {
    var t := Target(b.display.value, distance, offset, o);
    assert Place(b, plate, distance, offset, o, now) ==
           Board(b.display, b.cars[plate := Car(b.nextId, now, t)], b.items[b.nextId := t], b.nextId + 1, b.pending);
    assert b.nextId !in b.items;
  }

  /**
   * A seen plate keeps its single entry and icon, re-stamped `now` with the
   * new target; the icon is shown at its old target (step 0) and the rest
   * of the move is scheduled; other entries are unchanged.
   */
  lemma PlaceSeen(b: Board, plate: string, distance: real, offset: real, o: Orientation, now: real)
    requires Consistent(b) && b.display.Some? && plate in b.cars
    ensures var r := Place(b, plate, distance, offset, o, now);
      var t := Target(b.display.value, distance, offset, o);
      var car := b.cars[plate];
      && r.cars.Keys == b.cars.Keys
      && r.cars[plate] == Car(car.canvasId, now, t)
      && (forall q :: q in b.cars && q != plate ==> r.cars[q] == b.cars[q])
      && r.items[car.canvasId] == car.pos
      && r.pending == b.pending + [Animation(1, MoveSteps, MoveDuration, car.pos, t, car.canvasId, plate)]
  {
  }

  /** Once the plate has left `police_cars`, a callback changes nothing and schedules nothing. */
  lemma AnimateStopsWhenGone(b: Board, a: Animation)
    requires Consistent(b) && a.steps > 0 && a.plate !in b.cars
    ensures AnimateStep(b, a) == b
  {
  }

  /** Step 0 shows the start, step `steps` the end, every step in between lies on the segment. */
  lemma AnimateFrames(a: Animation)
    requires a.steps > 0
    ensures a.step == 0 ==> AnimationPoint(a) == a.start
    ensures a.step >= a.steps ==> AnimationPoint(a) == a.end
    ensures Min(a.start.x, a.end.x) <= AnimationPoint(a).x <= Max(a.start.x, a.end.x)
    ensures Min(a.start.y, a.end.y) <= AnimationPoint(a).y <= Max(a.start.y, a.end.y)
  {
  }

  /** The Tk event loop runs the first scheduled callback. */
  function Deliver(b: Board): (r: Board)
    requires Consistent(b) && b.pending != []
    ensures Consistent(r)
    ensures r.display == b.display && r.cars == b.cars && r.items.Keys == b.items.Keys
    ensures r.pending == b.pending[1..] ||
            r.pending == b.pending[1..] + [b.pending[0].(step := b.pending[0].step + 1)]
  {
    AnimateStep(b.(pending := b.pending[1..]), b.pending[0])
  }

  /** The Tk event loop runs `n` scheduled callbacks, fewer if the queue empties. */
  function DeliverN(b: Board, n: nat): (r: Board)
    requires Consistent(b)
    ensures Consistent(r)
    decreases n
  {
    if n == 0 || b.pending == [] then b else DeliverN(Deliver(b), n - 1)
  }

  /**
   * A move left undisturbed ends with the icon at its target and nothing
   * left scheduled, after one callback per remaining step and a final one.
   */
  lemma {:induction false} AnimationReachesTarget(b: Board, a: Animation)
    requires Consistent(b) && b.pending == [a]
    requires a.plate in b.cars && b.cars[a.plate].canvasId == a.canvasId
    requires a.step <= a.steps + 1
    ensures var r := DeliverN(b, a.steps + 2 - a.step);
      && r.pending == []
      && r.cars == b.cars
      && r.items.Keys == b.items.Keys
      && r.items[a.canvasId] == a.end
    decreases a.steps + 1 - a.step
  {
    var next := Deliver(b);
    assert b.pending[1..] == [];
    if a.step <= a.steps {
      assert next.pending == [a.(step := a.step + 1)];
      AnimationReachesTarget(next, a.(step := a.step + 1));
    } else {
      assert next.pending == [];
      assert DeliverN(next, 0) == next;
    }
  }

  /** `police_cars`, the canvas and the Tk callback queue as the program updates them. */
  class Tracker {
    var display: Option<Canvas>
    var cars: map<string, Car>
    var items: map<nat, Point>
    var nextId: nat
    var pending: seq<Animation>

    function State(): Board
      reads this
    {
      Board(display, cars, items, nextId, pending)
    }

    predicate Valid()
      reads this
    {
      Consistent(State())
    }

    /** The empty map, before or after the canvas is created. */
    constructor (display: Option<Canvas>)
      ensures Valid()
      ensures State() == Board(display, map[], map[], 0, [])
    {
      this.display := display;
      cars := map[];
      items := map[];
      nextId := 0;
      pending := [];
    }

    /** `animate_police_car_move`. */
    method AnimatePoliceCarMove(a: Animation)
      requires Valid() && a.steps > 0
      modifies this
      ensures Valid()
      ensures State() == AnimateStep(old(State()), a)
    {
      if a.plate !in cars {
        return;
      }
      if a.step > a.steps {
        items := MoveItem(items, a.canvasId, a.end);
        return;
      }
      var mid := Point(Lerp(a.start.x, a.end.x, a.step, a.steps), Lerp(a.start.y, a.end.y, a.step, a.steps));
      items := MoveItem(items, a.canvasId, mid);
      pending := pending + [a.(step := a.step + 1)];
    }

    /** `place_or_move_police_car`. */
    method PlaceOrMove(plate: string, distance: real, offset: real, o: Orientation, now: real)
      requires Valid()
      modifies this
      ensures Valid()
      ensures State() == Place(old(State()), plate, distance, offset, o, now)
    {
      if display.None? {
        return;
      }
      var c := display.value;
      var projected := Project(c, distance, offset, o);
      var target := Point(Clamp(projected.x, HalfW(c), c.width as real), Clamp(projected.y, HalfH(c), c.height as real));
      if plate !in cars {
        var id := nextId;
        items := items[id := target];
        nextId := nextId + 1;
        cars := cars[plate := Car(id, now, target)];
      } else {
        var car := cars[plate];
        cars := cars[plate := Car(car.canvasId, now, target)];
        AnimatePoliceCarMove(Animation(0, MoveSteps, MoveDuration, car.pos, target, car.canvasId, plate));
      }
    }

    /** The Tk event loop delivering the next scheduled animation callback. */
    method RunNextCallback()
      requires Valid() && pending != []
      modifies this
      ensures Valid()
      ensures State() == Deliver(old(State()))
    {
      var a := pending[0];
      pending := pending[1..];
      AnimatePoliceCarMove(a);
    }
  }
}
