/**
 * The gradient cursor's trail: a bounded first-in first-out buffer of recent pointer
 * positions. A pointer move appends one point and drops the oldest when the buffer
 * is over capacity; leaving the document empties it; every animation frame fades
 * each point by its age and drops the points that have faded out.
 */
module GradientCursor {
  import opened Wrappers

  /** One remembered pointer position; `timestamp` is the `Date.now()` of the move. */
  datatype TrailPoint = TrailPoint(x: real, y: real, opacity: real, size: real, timestamp: real)

  /** Milliseconds for a trail point to fade from opacity 1 to 0. */
  const DecayTime: real := 300.0

  /** Points at or below this opacity are dropped. */
  const VisibleOpacity: real := 0.01

  /** Size factor of a point recorded over a button, link or form control. */
  const HoverScale: real := 1.5

  /** The default `size`, `trailLength` and `enabled` props. */
  const DefaultSize: real := 20.0
  const DefaultTrailLength: int := 15
  const DefaultEnabled: bool := true

  /** The point a pointer move records: fully opaque, larger over an interactive target. */
  function NewPoint(x: real, y: real, overInteractive: bool, size: real, now: real): (p: TrailPoint)
    ensures p.opacity == 1.0 && p.timestamp == now && p.x == x && p.y == y
    ensures overInteractive ==> p.size == HoverScale * size
    ensures !overInteractive ==> p.size == size
  {
    TrailPoint(x, y, 1.0, if overInteractive then size * 1.5 else size, now)
  }

  /**
   * The trail after `push(p)` followed by one `shift()` when the length then exceeds
   * `limit`: `p` is the newest point, at most the single oldest point is dropped,
   * and a trail within the limit stays within it.
   */
  function Push(trail: seq<TrailPoint>, p: TrailPoint, limit: int): (r: seq<TrailPoint>)
    ensures |trail| + 1 <= limit ==> r == trail + [p]
    ensures |trail| + 1 > limit && trail != [] ==> r == trail[1..] + [p]
    ensures |trail| + 1 > limit && trail == [] ==> r == []
    ensures limit >= 1 ==> |r| > 0 && r[|r| - 1] == p
    ensures 0 <= limit && |trail| <= limit ==> |r| <= limit
  {
    var pushed := trail + [p];
    if |pushed| > limit then
      assert trail != [] ==> pushed[1..] == trail[1..] + [p];
      pushed[1..]
    else pushed
  }

  /** `Math.max(0, v)`. */
  function Max0(v: real): real
  {
    if v > 0.0 then v else 0.0
  }

  /**
   * The `map` step of a frame: opacity falls linearly with age and reaches 0 after
   * `DecayTime`; the new size is scaled by the point's previous opacity, so a point
   * whose opacity lies in [0, 1] keeps between half and all of its size.
   */
  function Faded(p: TrailPoint, now: real): (q: TrailPoint)
    ensures q.x == p.x && q.y == p.y && q.timestamp == p.timestamp
    ensures q.opacity >= 0.0
    ensures p.timestamp <= now ==> q.opacity <= 1.0
    ensures q.opacity > 0.0 <==> now - p.timestamp < DecayTime
    ensures 0.0 <= p.opacity <= 1.0 && p.size >= 0.0 ==> p.size / 2.0 <= q.size <= p.size
  {
    var opacity := Max0(1.0 - (now - p.timestamp) / DecayTime);
    var size := p.size * (0.5 + p.opacity * 0.5);
    assert 0.0 <= p.opacity <= 1.0 && p.size >= 0.0 ==> p.size / 2.0 <= size <= p.size by {
      if 0.0 <= p.opacity <= 1.0 && p.size >= 0.0 {
        assert p.size * (0.5 + p.opacity * 0.5) == p.size / 2.0 + p.size * p.opacity * 0.5;
        assert 0.0 <= p.size * p.opacity <= p.size by {
          assert p.size * p.opacity <= p.size * 1.0;
        }
      }
    }
    p.(opacity := opacity, size := size)
  }

  /** Every point of the trail, faded for time `now`, in the same order. */
  function FadeAll(trail: seq<TrailPoint>, now: real): (r: seq<TrailPoint>)
    ensures |r| == |trail|
    ensures forall i :: 0 <= i < |trail| ==> r[i] == Faded(trail[i], now)
  {
    seq(|trail|, i requires 0 <= i < |trail| => Faded(trail[i], now))
  }

  /** The `filter` step: keep the points still visibly opaque, in order. */
  function Visible(s: seq<TrailPoint>): seq<TrailPoint>
  {
    if s == [] then []
    else (if s[0].opacity > VisibleOpacity then [s[0]] else []) + Visible(s[1..])
  }

  /** One animation frame of the trail. */
  function Decay(trail: seq<TrailPoint>, now: real): seq<TrailPoint>
  {
    Visible(FadeAll(trail, now))
  }

  /** `a` is `b` with some elements removed and the rest in their original order. */
  predicate Subsequence<T(==)>(a: seq<T>, b: seq<T>)
  {
    if b == [] then a == []
    else (a != [] && a[0] == b[0] && Subsequence(a[1..], b[1..])) || Subsequence(a, b[1..])
  }

  /**
   * The filter keeps exactly the points above the visibility cut-off and never
   * reorders or adds any: its result is an ordered subsequence of its input.
   */
  lemma {:induction false} VisibleIsFilter(s: seq<TrailPoint>)
    ensures Subsequence(Visible(s), s)
    ensures |Visible(s)| <= |s|
    ensures forall q :: q in Visible(s) ==> q in s && q.opacity > VisibleOpacity
    ensures forall q :: q in s && q.opacity > VisibleOpacity ==> q in Visible(s)
  {
    if s != [] {
      VisibleIsFilter(s[1..]);
      var rest := Visible(s[1..]);
      assert s == [s[0]] + s[1..];
      if s[0].opacity > VisibleOpacity {
        assert Visible(s) == [s[0]] + rest;
        assert Visible(s)[1..] == rest;
      } else {
        assert Visible(s) == rest;
        assert Subsequence(rest, s[1..]);
      }
    }
  }

  /**
   * A frame never adds points, keeps their order, keeps exactly the faded points that
   * are still visible, and moves none of them.
   */
  lemma DecayIsOrderedFilter(trail: seq<TrailPoint>, now: real)
    ensures |Decay(trail, now)| <= |trail|
    ensures Subsequence(Decay(trail, now), FadeAll(trail, now))
    ensures forall q :: q in Decay(trail, now) <==> q in FadeAll(trail, now) && q.opacity > VisibleOpacity
  {
    VisibleIsFilter(FadeAll(trail, now));
  }

  /** A point survives a frame exactly when less than about 297 ms have passed since it was recorded. */
  lemma SurvivesIffRecent(p: TrailPoint, now: real)
    ensures Faded(p, now) in Decay([p], now) <==> now - p.timestamp < DecayTime * (1.0 - VisibleOpacity)
  {
    VisibleIsFilter(FadeAll([p], now));
    assert FadeAll([p], now) == [Faded(p, now)];
  }

  /** Every trail point has an opacity in [0, 1], a non-negative size and a timestamp no later than `now`. */
  predicate WellFormed(trail: seq<TrailPoint>, now: real)
  {
    forall p :: p in trail ==> 0.0 <= p.opacity <= 1.0 && p.size >= 0.0 && p.timestamp <= now
  }

  /** A frame keeps the trail well formed, at any later time, and shrinks no point. */
  lemma DecayPreservesWellFormed(trail: seq<TrailPoint>, now: real, later: real)
    requires WellFormed(trail, now) && now <= later
    ensures WellFormed(Decay(trail, later), later)
    ensures forall i :: 0 <= i < |trail| ==> FadeAll(trail, later)[i].size <= trail[i].size
  {
    DecayIsOrderedFilter(trail, later);
    forall q | q in Decay(trail, later)
      ensures 0.0 <= q.opacity <= 1.0 && q.size >= 0.0 && q.timestamp <= later
    {
      var i :| 0 <= i < |trail| && FadeAll(trail, later)[i] == q;
      assert trail[i] in trail;
    }
    forall i | 0 <= i < |trail|
      ensures FadeAll(trail, later)[i].size <= trail[i].size
    {
      assert trail[i] in trail;
    }
  }

  /** A pointer move keeps the trail well formed when the recorded size is not negative. */
  lemma PushPreservesWellFormed(trail: seq<TrailPoint>, p: TrailPoint, limit: int, now: real)
    requires WellFormed(trail, now)
    requires p.opacity == 1.0 && p.size >= 0.0 && p.timestamp == now
    ensures WellFormed(Push(trail, p, limit), now)
  {
    var r := Push(trail, p, limit);
    forall q | q in r ensures 0.0 <= q.opacity <= 1.0 && q.size >= 0.0 && q.timestamp <= now {
      if q != p {
        var i :| 0 <= i < |r| && r[i] == q;
        if |trail| + 1 <= limit {
          assert q == (trail + [p])[i];
          assert q in trail;
        } else {
          assert q == trail[1..][i];
          assert q in trail;
        }
      }
    }
  }

  /** The cursor's state. */
  class Cursor {
    const size: real
    const trailLength: int
    const enabled: bool
    var trail: seq<TrailPoint>
    var isVisible: bool
    var isHovering: bool
    var cursorX: real
    var cursorY: real
    var lastMouseX: real
    var lastMouseY: real

    /** The most points the trail may hold. */
    function Capacity(): nat
      reads this
    {
      if trailLength < 0 then 0 else trailLength
    }

    /** The trail never holds more points than the capacity. */
    ghost predicate Valid()
      reads this
    {
      |trail| <= Capacity()
    }

    /** A prop left out (`None`) takes its default: `size` 20, `trailLength` 15, `enabled` true. */
    constructor (size: Option<real>, trailLength: Option<int>, enabled: Option<bool>)
      ensures this.size == (if size.None? then DefaultSize else size.value)
      ensures this.trailLength == (if trailLength.None? then DefaultTrailLength else trailLength.value)
      ensures this.enabled == (if enabled.None? then DefaultEnabled else enabled.value)
      ensures Valid() && trail == [] && !isVisible && !isHovering
    {
      this.size := size.GetOr(DefaultSize);
      this.trailLength := trailLength.GetOr(DefaultTrailLength);
      this.enabled := enabled.GetOr(DefaultEnabled);
      trail := [];
      isVisible := false;
      isHovering := false;
      cursorX, cursorY := 0.0, 0.0;
      lastMouseX, lastMouseY := 0.0, 0.0;
    }

    /**
     * `mousemove` at (`clientX`, `clientY`) at time `now`; `overInteractive` is whether
     * the event target lies inside a button, link or form control. With the cursor
     * disabled no handler is installed and nothing changes.
     */
    method HandleMouseMove(clientX: real, clientY: real, overInteractive: bool, now: real)
      requires Valid()
      modifies this`trail, this`isVisible, this`isHovering, this`cursorX, this`cursorY, this`lastMouseX, this`lastMouseY
      ensures Valid()
      ensures enabled ==> trail == Push(old(trail), NewPoint(clientX, clientY, overInteractive, size, now), trailLength)
      ensures enabled ==> isVisible && isHovering == overInteractive && cursorX == clientX && cursorY == clientY
      ensures enabled ==> lastMouseX == clientX && lastMouseY == clientY
      ensures !enabled ==> trail == old(trail) && isVisible == old(isVisible) && isHovering == old(isHovering)
      ensures !enabled ==> cursorX == old(cursorX) && cursorY == old(cursorY)
      ensures !enabled ==> lastMouseX == old(lastMouseX) && lastMouseY == old(lastMouseY)
    {
      if !enabled {
        return;
      }
      cursorX, cursorY := clientX, clientY;
      isHovering := overInteractive;
      var point := NewPoint(clientX, clientY, overInteractive, size, now);
      trail := trail + [point];
      if |trail| > trailLength {
        trail := trail[1..];
      }
      lastMouseX, lastMouseY := clientX, clientY;
      isVisible := true;
    }

    /** `mouseenter` on the document. */
    method HandleMouseEnter()
      modifies this`isVisible
      ensures enabled ==> isVisible
      ensures !enabled ==> isVisible == old(isVisible)
      ensures trail == old(trail)
    {
      if enabled {
        isVisible := true;
      }
    }

    /** `mouseleave` on the document: the cursor hides and the trail is emptied. */
    method HandleMouseLeave()
      requires Valid()
      modifies this`isVisible, this`trail
      ensures Valid()
      ensures enabled ==> !isVisible && trail == []
      ensures !enabled ==> isVisible == old(isVisible) && trail == old(trail)
    {
      if enabled {
        isVisible := false;
        trail := [];
      }
    }

    /** One animation frame at time `now`: the trail fades and loses its faded points. */
    method Animate(now: real)
      requires Valid()
      modifies this`trail
      ensures Valid()
      ensures enabled ==> trail == Decay(old(trail), now)
      ensures !enabled ==> trail == old(trail)
      ensures isVisible == old(isVisible)
    {
      if enabled {
        DecayIsOrderedFilter(trail, now);
        trail := Decay(trail, now);
      }
    }
  }
}
