/**
 * The magnetic wrapper: while the pointer is within `distance` pixels of the
 * element's centre, the element is pulled towards it by `strength` times the
 * pointer's offset, scaled down linearly to nothing at the edge of the radius;
 * outside the radius, and when the pointer leaves the element, it rests at (0, 0).
 * A disabled wrapper, or one whose element is not mounted, installs no handler.
 */
module MagneticWrapper {
  import opened Wrappers

  /** A translation of the element, in pixels. */
  datatype Position = Position(x: real, y: real)

  /** What `getBoundingClientRect` reports for the element. */
  datatype BoundingRect = BoundingRect(left: real, top: real, width: real, height: real)

  /** The default `strength`, `distance` and `disabled` props. */
  const DefaultStrength: real := 0.3
  const DefaultDistance: real := 100.0
  const DefaultDisabled: bool := false

  /** The initial position and the one every reset restores. */
  const Rest: Position := Position(0.0, 0.0)

  /** The centre of the element's box. */
  function Center(r: BoundingRect): (c: Position)
    ensures c.x - r.left == r.left + r.width - c.x
    ensures c.y - r.top == r.top + r.height - c.y
  {
    Position(r.left + r.width / 2.0, r.top + r.height / 2.0)
  }

  /** `d` is what `Math.sqrt(dx * dx + dy * dy)` returns. */
  predicate IsDistance(dx: real, dy: real, d: real)
  {
    d >= 0.0 && d * d == dx * dx + dy * dy
  }

  /** The pull's strength at distance `d` from the centre: 1 at the centre, falling to 0 at the radius. */
  function Force(d: real, distance: real): real
    requires 0.0 <= d < distance
  {
    (distance - d) / distance
  }

  /** The position a pointer move at offset (`dx`, `dy`), `d` away from the centre, sets. */
  function Offset(dx: real, dy: real, d: real, strength: real, distance: real): Position
    requires d >= 0.0
  {
    if d < distance then
      var magneticForce := Force(d, distance);
      Position(dx * strength * magneticForce, dy * strength * magneticForce)
    else Rest
  }

  /** At or beyond the radius the element rests. */
  lemma OffsetOutside(dx: real, dy: real, d: real, strength: real, distance: real)
    requires d >= 0.0 && d >= distance
    ensures Offset(dx, dy, d, strength, distance) == Rest
  {
  }

  /** Inside the radius the force lies in (0, 1] and is 1 only at the centre. */
  lemma ForceInUnit(d: real, distance: real)
    requires 0.0 <= d < distance
    ensures 0.0 < Force(d, distance) <= 1.0
    ensures Force(d, distance) == 1.0 <==> d == 0.0
  {
    var f := Force(d, distance);
    ForceTimesRadius(d, distance);
    CompareScaled(0.0, f, distance);
    CompareScaled(f, 1.0, distance);
    assert 0.0 * distance == 0.0 && 1.0 * distance == distance;
  }

  /** The force weakens strictly as the pointer moves away from the centre. */
  lemma ForceDecreasing(d: real, e: real, distance: real)
    requires 0.0 <= d < e < distance
    ensures Force(e, distance) < Force(d, distance)
  {
    DivLess(distance - e, distance - d, distance);
  }

  /** Dividing by a positive number keeps a strict order. */
  lemma DivLess(a: real, b: real, k: real)
    requires a < b && k > 0.0
    ensures a / k < b / k
  {
    var qa, qb := a / k, b / k;
    if qa >= qb {
      MulNonneg(qa - qb, k);
    }
  }

  /** The force times the radius is what is left of the radius beyond `d`. */
  lemma ForceTimesRadius(d: real, distance: real)
    requires 0.0 <= d < distance
    ensures Force(d, distance) * distance == distance - d
  {
  }

  /** Scaling by a positive factor keeps the order of two numbers. */
  lemma CompareScaled(g: real, f: real, k: real)
    requires k > 0.0
    ensures g * k < f * k <==> g < f
    ensures g * k == f * k <==> g == f
  {
    if g < f {
      MulPos(f - g, k);
    } else if g > f {
      MulPos(g - f, k);
    }
  }

  lemma MulNonneg(a: real, b: real)
    requires a >= 0.0 && b >= 0.0
    ensures a * b >= 0.0
  {
  }

  /**
   * Inside the radius each component is the pointer's offset along that axis, scaled
   * by `strength` and by the force.
   */
  lemma OffsetInside(dx: real, dy: real, d: real, strength: real, distance: real)
    requires 0.0 <= d < distance
    ensures Offset(dx, dy, d, strength, distance).x * distance == dx * strength * (distance - d)
    ensures Offset(dx, dy, d, strength, distance).y * distance == dy * strength * (distance - d)
  {
    var f := Force(d, distance);
    ForceTimesRadius(d, distance);
    ScaledTimes(dx * strength, f, distance);
    ScaledTimes(dy * strength, f, distance);
  }

  lemma ScaledTimes(a: real, f: real, k: real)
    ensures a * f * k == a * (f * k)
  {
  }

  /**
   * With a non-negative strength the element moves towards the pointer, never past
   * `strength` times the pointer's offset, along each axis.
   */
  lemma OffsetTowardsPointer(dx: real, dy: real, d: real, strength: real, distance: real)
    requires d >= 0.0 && strength >= 0.0
    ensures var p := Offset(dx, dy, d, strength, distance);
            && (dx >= 0.0 ==> 0.0 <= p.x <= strength * dx)
            && (dx <= 0.0 ==> strength * dx <= p.x <= 0.0)
            && (dy >= 0.0 ==> 0.0 <= p.y <= strength * dy)
            && (dy <= 0.0 ==> strength * dy <= p.y <= 0.0)
  {
    if d < distance {
      var f := Force(d, distance);
      ForceInUnit(d, distance);
      PullComponent(dx, strength, f);
      PullComponent(dy, strength, f);
    }
  }

  /** `a * s * f` lies between 0 and `a * s` when `s >= 0` and `f` is in (0, 1]. */
  lemma PullComponent(a: real, s: real, f: real)
    requires s >= 0.0 && 0.0 < f <= 1.0
    ensures a >= 0.0 ==> 0.0 <= a * s * f <= s * a
    ensures a <= 0.0 ==> s * a <= a * s * f <= 0.0
  {
    var prod := a * s;
    assert prod * f == prod - prod * (1.0 - f);
    if a >= 0.0 {
      MulNonneg(a, s);
      MulNonneg(prod, f);
      MulNonneg(prod, 1.0 - f);
    } else {
      MulNonneg(-a, s);
      assert -prod == (-a) * s;
      MulNonneg(-prod, f);
      MulNonneg(-prod, 1.0 - f);
      assert (-prod) * f == -(prod * f) && (-prod) * (1.0 - f) == -(prod * (1.0 - f));
    }
  }

  /**
   * The pull is strict: with a positive strength, a pointer inside the radius and off
   * the centre's axis moves the element along that axis, in the pointer's direction.
   */
  lemma OffsetStrict(dx: real, dy: real, d: real, strength: real, distance: real)
    requires 0.0 <= d < distance && strength > 0.0
    ensures dx > 0.0 ==> Offset(dx, dy, d, strength, distance).x > 0.0
    ensures dx < 0.0 ==> Offset(dx, dy, d, strength, distance).x < 0.0
    ensures dy > 0.0 ==> Offset(dx, dy, d, strength, distance).y > 0.0
    ensures dy < 0.0 ==> Offset(dx, dy, d, strength, distance).y < 0.0
  {
    var f := Force(d, distance);
    ForceInUnit(d, distance);
    StrictComponent(dx, strength, f);
    StrictComponent(dy, strength, f);
  }

  lemma StrictComponent(a: real, s: real, f: real)
    requires s > 0.0 && f > 0.0
    ensures a > 0.0 ==> a * s * f > 0.0
    ensures a < 0.0 ==> a * s * f < 0.0
  {
    var prod := a * s;
    assert a > 0.0 ==> prod > 0.0;
    assert a < 0.0 ==> prod < 0.0;
  }

  /**
   * However the pointer moves, a wrapper with a non-negative strength is displaced
   * less than `strength * distance` along each axis: the pointer's offset along an
   * axis is at most its distance, which is below the radius wherever there is a pull.
   */
  lemma OffsetBounded(dx: real, dy: real, d: real, strength: real, distance: real)
    requires 0.0 <= d && -d <= dx <= d && -d <= dy <= d
    requires strength >= 0.0 && distance >= 0.0
    ensures var p := Offset(dx, dy, d, strength, distance);
            && -(strength * distance) <= p.x <= strength * distance
            && -(strength * distance) <= p.y <= strength * distance
  {
    OffsetTowardsPointer(dx, dy, d, strength, distance);
    var p := Offset(dx, dy, d, strength, distance);
    if d < distance {
      ComponentBound(dx, p.x, d, distance, strength);
      ComponentBound(dy, p.y, d, distance, strength);
    } else {
      MulNonneg(strength, distance);
    }
  }

  lemma ComponentBound(a: real, v: real, d: real, distance: real, s: real)
    requires -d <= a <= d && d < distance && s >= 0.0
    requires a >= 0.0 ==> 0.0 <= v <= s * a
    requires a <= 0.0 ==> s * a <= v <= 0.0
    ensures -(s * distance) <= v <= s * distance
  {
    MulNonneg(s, distance - a);
    MulNonneg(s, distance + a);
  }

  /** A component of a vector is no longer than the vector. */
  lemma ComponentWithinDistance(a: real, b: real, d: real)
    requires d >= 0.0 && d * d == a * a + b * b
    ensures -d <= a <= d
  {
    if a > d {
      MulStrict(a, d);
      MulNonneg(b, b);
    } else if -a > d {
      MulStrict(-a, d);
      MulNonneg(b, b);
    }
  }

  lemma MulStrict(a: real, d: real)
    requires 0.0 <= d < a
    ensures a * a > d * d
  {
    assert a * a - d * d == (a - d) * (a + d);
    MulPos(a - d, a + d);
  }

  lemma MulPos(a: real, b: real)
    requires a > 0.0 && b > 0.0
    ensures a * b > 0.0
  {
  }

  /** The wrapper's state: its props, whether its element is mounted, and the current position. */
  datatype Magnet = Magnet(strength: real, distance: real, disabled: bool, mounted: bool, position: Position)

  /**
   * A fresh wrapper rests at (0, 0). A prop left out (`None`) takes its default:
   * `strength` 0.3, `distance` 100, `disabled` false.
   */
  function Initial(strength: Option<real>, distance: Option<real>, disabled: Option<bool>, mounted: bool): (m: Magnet)
    ensures m.position == Rest
    ensures m.strength == (if strength.None? then DefaultStrength else strength.value)
    ensures m.distance == (if distance.None? then DefaultDistance else distance.value)
    ensures m.disabled == (if disabled.None? then DefaultDisabled else disabled.value)
    ensures m.mounted == mounted
  {
    Magnet(strength.GetOr(DefaultStrength), distance.GetOr(DefaultDistance), disabled.GetOr(DefaultDisabled), mounted, Rest)
  }

  /** The effect installs its handlers only for an enabled wrapper whose element exists. */
  predicate Listening(m: Magnet)
  {
    !m.disabled && m.mounted
  }

  /** The events the wrapper reacts to; a move carries the pointer and the element's current box. */
  datatype Event =
    | MouseMove(clientX: real, clientY: real, rect: BoundingRect, d: real)
    | MouseLeave

  /** A move event is well formed when `d` is the pointer's distance from the box's centre. */
  predicate WellFormed(e: Event)
  {
    e.MouseMove? ==> IsDistance(e.clientX - Center(e.rect).x, e.clientY - Center(e.rect).y, e.d)
  }

  /** `handleMouseMove`: the pointer's offset from the centre decides the new position. */
  function HandleMouseMove(m: Magnet, clientX: real, clientY: real, rect: BoundingRect, d: real): (r: Magnet)
    requires d >= 0.0
    ensures r.strength == m.strength && r.distance == m.distance
    ensures r.disabled == m.disabled && r.mounted == m.mounted
    ensures !Listening(m) ==> r == m
    ensures Listening(m) ==> r.position == Offset(clientX - Center(rect).x, clientY - Center(rect).y, d, m.strength, m.distance)
  {
    if !Listening(m) then m
    else
      var center := Center(rect);
      var deltaX := clientX - center.x;
      var deltaY := clientY - center.y;
      m.(position := Offset(deltaX, deltaY, d, m.strength, m.distance))
  }

  /** `handleMouseLeave`: the element returns to rest. */
  function HandleMouseLeave(m: Magnet): (r: Magnet)
    ensures Listening(m) ==> r.position == Rest
    ensures !Listening(m) ==> r == m
    ensures r.strength == m.strength && r.distance == m.distance
    ensures r.disabled == m.disabled && r.mounted == m.mounted
  {
    if !Listening(m) then m else m.(position := Rest)
  }

  function Step(m: Magnet, e: Event): Magnet
    requires WellFormed(e)
  {
    match e
    case MouseMove(x, y, rect, d) => HandleMouseMove(m, x, y, rect, d)
    case MouseLeave => HandleMouseLeave(m)
  }

  predicate AllWellFormed(events: seq<Event>)
  {
    forall e :: e in events ==> WellFormed(e)
  }

  /** The wrapper after a sequence of events, the first one first. */
  function Run(m: Magnet, events: seq<Event>): Magnet
    requires AllWellFormed(events)
    decreases |events|
  {
    if events == [] then m
    else Run(Step(m, events[0]), events[1..])
  }

  /** A disabled wrapper, or one with no element, never moves from (0, 0), whatever happens. */
  lemma {:induction false} SilentStaysAtRest(m: Magnet, events: seq<Event>)
    requires AllWellFormed(events)
    requires !Listening(m) && m.position == Rest
    ensures Run(m, events) == m
    decreases |events|
  {
    if events != [] {
      SilentStaysAtRest(Step(m, events[0]), events[1..]);
    }
  }

  /** The position lies within `strength * distance` of rest along each axis. */
  predicate Near(m: Magnet)
  {
    var bound := m.strength * m.distance;
    -bound <= m.position.x <= bound && -bound <= m.position.y <= bound
  }

  /** One event keeps a wrapper with a non-negative strength and radius near rest. */
  lemma StepStaysNear(m: Magnet, e: Event)
    requires WellFormed(e) && m.strength >= 0.0 && m.distance >= 0.0 && Near(m)
    ensures Near(Step(m, e))
  {
    match e
    case MouseMove(x, y, rect, d) =>
      var dx, dy := x - Center(rect).x, y - Center(rect).y;
      ComponentWithinDistance(dx, dy, d);
      ComponentWithinDistance(dy, dx, d);
      MoveStaysNear(m, x, y, rect, d);
    case MouseLeave => LeaveStaysNear(m);
  }

  lemma MoveStaysNear(m: Magnet, clientX: real, clientY: real, rect: BoundingRect, d: real)
    requires 0.0 <= d && -d <= clientX - Center(rect).x <= d && -d <= clientY - Center(rect).y <= d
    requires m.strength >= 0.0 && m.distance >= 0.0 && Near(m)
    ensures Near(HandleMouseMove(m, clientX, clientY, rect, d))
  {
    if Listening(m) {
      var dx, dy := clientX - Center(rect).x, clientY - Center(rect).y;
      var p := Offset(dx, dy, d, m.strength, m.distance);
      OffsetBounded(dx, dy, d, m.strength, m.distance);
      assert HandleMouseMove(m, clientX, clientY, rect, d) == m.(position := p);
    }
  }

  lemma LeaveStaysNear(m: Magnet)
    requires m.strength >= 0.0 && m.distance >= 0.0 && Near(m)
    ensures Near(HandleMouseLeave(m))
  {
    MulNonneg(m.strength, m.distance);
  }

  /**
   * A wrapper with a non-negative strength and radius stays within `strength * distance`
   * of rest along each axis after any sequence of well-formed events.
   */
  lemma {:induction false} RunStaysNear(m: Magnet, events: seq<Event>)
    requires AllWellFormed(events)
    requires m.strength >= 0.0 && m.distance >= 0.0 && Near(m)
    ensures Near(Run(m, events))
    decreases |events|
  {
    if events != [] {
      StepStaysNear(m, events[0]);
      RunStaysNear(Step(m, events[0]), events[1..]);
    }
  }
}
