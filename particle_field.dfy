/**
 * The particle field: a pool of decorative particles on a canvas. The pool is sized
 * from the canvas area and a density tier; every animation frame moves each particle
 * by its velocity, ages it, optionally pulls it towards the pointer, fades it in and
 * out over its lifetime, wraps it back onto the canvas and, once its life is spent,
 * replaces it in place with a fresh one. Each `Math.random()` draw is an input.
 */
module ParticleField {
  import opened Wrappers

  datatype Density = Low | Medium | High
  datatype Speed = Slow | Medium | Fast
  datatype SizeTier = Small | Medium | Large

  /** Particles per 15000 square pixels of canvas. */
  function DensityFactor(d: Density): real
  {
    match d
    case Low => 0.5
    case Medium => 1.0
    case High => 1.5
  }

  /** Multiplier on the spawn velocity. */
  function SpeedFactor(s: Speed): (m: real)
    ensures m > 0.0
  {
    match s
    case Slow => 0.5
    case Medium => 1.0
    case Fast => 2.0
  }

  datatype SizeRange = SizeRange(min: real, max: real)

  /** Range of particle radii for each size tier. */
  function SizeRangeOf(t: SizeTier): (r: SizeRange)
    ensures 0.0 < r.min < r.max
  {
    match t
    case Small => SizeRange(1.0, 3.0)
    case Medium => SizeRange(2.0, 5.0)
    case Large => SizeRange(3.0, 7.0)
  }

  /** Canvas area, in square pixels, that one particle stands for at density 1. */
  const AreaPerParticle: real := 15000.0

  /** Radius, in pixels, within which the pointer pulls particles. */
  const AttractionRadius: real := 100.0

  /** Velocity gained per frame per pixel of offset to the pointer, at full force. */
  const PullRate: real := 0.001

  /** The component's props; `opacity` is the ceiling that fading climbs to. */
  datatype Config = Config(
    density: Density, colors: seq<string>, speed: Speed, size: SizeTier,
    interactive: bool, opacity: real)

  /** The props a caller gets by passing none. */
  const DefaultConfig: Config :=
    Config(Density.Medium, ["#667eea", "#764ba2", "#f093fb", "#4facfe", "#00f2fe"],
           Speed.Medium, SizeTier.Medium, false, 0.6)

  /** `color` is `None` when the palette is empty, where JavaScript reads `undefined`. */
  datatype Particle = Particle(
    x: real, y: real, vx: real, vy: real, size: real,
    color: Option<string>, opacity: real, life: nat, maxLife: real)

  /** The eight `Math.random()` draws of one spawn, named after what each one decides. */
  datatype SpawnDraws = SpawnDraws(
    size: real, x: real, y: real, vx: real, vy: real, color: real, opacity: real, maxLife: real)

  /** `Math.random()` returns values in [0, 1). */
  predicate Unit(r: real)
  {
    0.0 <= r < 1.0
  }

  predicate ValidDraws(r: SpawnDraws)
  {
    Unit(r.size) && Unit(r.x) && Unit(r.y) && Unit(r.vx) && Unit(r.vy)
    && Unit(r.color) && Unit(r.opacity) && Unit(r.maxLife)
  }

  /** `Math.floor((canvas.width * canvas.height) / 15000 * densityFactor)`. */
  function ParticleCount(width: nat, height: nat, density: Density): (n: nat)
  {
    var n := ((width * height) as real / AreaPerParticle * DensityFactor(density)).Floor;
    assert n >= 0 by {
      assert (width * height) as real / AreaPerParticle * DensityFactor(density) >= 0.0;
    }
    n
  }

  /** An 800 x 600 canvas holds 16, 32 or 48 particles at low, medium or high density. */
  lemma ParticleCountExamples()
    ensures ParticleCount(800, 600, Density.Low) == 16
    ensures ParticleCount(800, 600, Density.Medium) == 32
    ensures ParticleCount(800, 600, Density.High) == 48
  {
  }

  /** The palette index `Math.floor(r * colors.length)` of a draw `r` in [0, 1). */
  function ColorIndex(r: real, n: nat): (k: int)
    requires Unit(r)
    ensures n > 0 ==> 0 <= k < n
    ensures n == 0 ==> k == 0
  {
    var v := r * n as real;
    assert 0.0 <= v;
    assert n > 0 ==> v < n as real by {
      if n > 0 { assert r * n as real < 1.0 * n as real; }
    }
    v.Floor
  }

  /** `colors[index]`, which is `undefined` for an empty palette. */
  function PickColor(colors: seq<string>, r: real): (c: Option<string>)
    requires Unit(r)
    ensures |colors| > 0 <==> c.Some?
    ensures c.Some? ==> c.value in colors
  {
    var k := ColorIndex(r, |colors|);
    if 0 <= k < |colors| then Some(colors[k]) else None
  }

  /** `Math.random() * extent`: in [0, extent], and short of `extent` when it is positive. */
  function Scaled(u: real, extent: real): (v: real)
    requires Unit(u)
    ensures extent >= 0.0 ==> 0.0 <= v <= extent
    ensures extent > 0.0 ==> v < extent
  {
    assert extent >= 0.0 ==> 0.0 <= u * extent <= 1.0 * extent;
    assert extent > 0.0 ==> u * extent < 1.0 * extent;
    u * extent
  }

  /** `(Math.random() - 0.5) * m`: in [-m/2, m/2) for a positive multiplier `m`. */
  function Centered(u: real, m: real): (v: real)
    requires Unit(u)
    ensures m > 0.0 ==> -0.5 * m <= v < 0.5 * m
  {
    assert (u - 0.5) * m == u * m - 0.5 * m;
    assert m > 0.0 ==> 0.0 <= u * m < 1.0 * m;
    (u - 0.5) * m
  }

  /** `Math.random() * (max - min) + min` for the tier's range: in [min, max). */
  function SizeDraw(t: SizeTier, u: real): (size: real)
    requires Unit(u)
    ensures SizeRangeOf(t).min <= size < SizeRangeOf(t).max
  {
    var sizeRange := SizeRangeOf(t);
    SizeInTier(t, u);
    u * (sizeRange.max - sizeRange.min) + sizeRange.min
  }

  lemma SizeInTier(t: SizeTier, u: real)
    requires Unit(u)
    ensures SizeRangeOf(t).min <= u * (SizeRangeOf(t).max - SizeRangeOf(t).min) + SizeRangeOf(t).min < SizeRangeOf(t).max
  {
    match t
    case Small =>
    case Medium =>
    case Large =>
  }

  /** A spawn position lies on the canvas, short of its far edges when the canvas has extent. */
  predicate OnCanvasAtSpawn(p: Particle, width: nat, height: nat)
  {
    && 0.0 <= p.x <= width as real && (width > 0 ==> p.x < width as real)
    && 0.0 <= p.y <= height as real && (height > 0 ==> p.y < height as real)
  }

  /** Each spawn velocity component lies in [-m/2, m/2) for the speed multiplier m. */
  predicate SpawnVelocity(p: Particle, cfg: Config)
  {
    && -0.5 * SpeedFactor(cfg.speed) <= p.vx < 0.5 * SpeedFactor(cfg.speed)
    && -0.5 * SpeedFactor(cfg.speed) <= p.vy < 0.5 * SpeedFactor(cfg.speed)
  }

  /** Radius within the size tier, colour from the palette, opacity below the ceiling. */
  predicate SpawnLook(p: Particle, cfg: Config)
  {
    && SizeRangeOf(cfg.size).min <= p.size < SizeRangeOf(cfg.size).max
    && (|cfg.colors| > 0 <==> p.color.Some?) && (p.color.Some? ==> p.color.value in cfg.colors)
    && (cfg.opacity >= 0.0 ==> 0.0 <= p.opacity <= cfg.opacity)
    && (cfg.opacity > 0.0 ==> p.opacity < cfg.opacity)
  }

  /** The ranges every freshly spawned particle lies in. */
  predicate Spawned(p: Particle, width: nat, height: nat, cfg: Config)
  {
    && OnCanvasAtSpawn(p, width, height)
    && SpawnVelocity(p, cfg)
    && SpawnLook(p, cfg)
    && p.life == 0
    && 100.0 <= p.maxLife < 300.0
  }

  /** `createParticle`: every attribute drawn uniformly from its range, life starting at 0. */
  function CreateParticle(width: nat, height: nat, cfg: Config, r: SpawnDraws): (p: Particle)
    requires ValidDraws(r)
    ensures Spawned(p, width, height, cfg)
  {
    var speedMultiplier := SpeedFactor(cfg.speed);
    Particle(
      x := Scaled(r.x, width as real),
      y := Scaled(r.y, height as real),
      vx := Centered(r.vx, speedMultiplier),
      vy := Centered(r.vy, speedMultiplier),
      size := SizeDraw(cfg.size, r.size),
      color := PickColor(cfg.colors, r.color),
      opacity := Scaled(r.opacity, cfg.opacity),
      life := 0,
      maxLife := r.maxLife * 200.0 + 100.0)
  }

  /**
   * The two boundary checks on one axis: below 0 jumps to the far edge, past the far
   * edge jumps to 0. The result always lies in the closed interval [0, extent].
   */
  function Wrap(v: real, extent: nat): (w: real)
    ensures 0.0 <= w <= extent as real
    ensures 0.0 <= v <= extent as real ==> w == v
    ensures v < 0.0 ==> w == extent as real
    ensures v > extent as real ==> w == 0.0
  {
    var w := if v < 0.0 then extent as real else v;
    if w > extent as real then 0.0 else w
  }

  /**
   * The opacity after the fade rule for a particle of age `life`: a linear climb to
   * the ceiling over the first tenth of its life, a linear fall over the last tenth,
   * and the previous opacity in between.
   */
  function FadeOpacity(life: real, maxLife: real, previous: real, ceiling: real): real
    requires maxLife > 0.0
  {
    var fadeInTime := maxLife * 0.1;
    var fadeOutTime := maxLife * 0.9;
    if life < fadeInTime then (life / fadeInTime) * ceiling
    else if life > fadeOutTime then ((maxLife - life) / (maxLife - fadeOutTime)) * ceiling
    else previous
  }

  /** While a particle lives, the fade keeps its opacity between 0 and the ceiling. */
  lemma FadeOpacityBounds(life: real, maxLife: real, previous: real, ceiling: real)
    requires maxLife > 0.0 && 0.0 <= life < maxLife && ceiling >= 0.0
    requires 0.0 <= previous <= ceiling
    ensures 0.0 <= FadeOpacity(life, maxLife, previous, ceiling) <= ceiling
  {
    var fadeInTime := maxLife * 0.1;
    var fadeOutTime := maxLife * 0.9;
    if life < fadeInTime {
      RatioInUnit(life, fadeInTime);
      UnitTimes(life / fadeInTime, ceiling);
      assert FadeOpacity(life, maxLife, previous, ceiling) == (life / fadeInTime) * ceiling;
    } else if life > fadeOutTime {
      RatioInUnit(maxLife - life, maxLife - fadeOutTime);
      UnitTimes((maxLife - life) / (maxLife - fadeOutTime), ceiling);
      assert FadeOpacity(life, maxLife, previous, ceiling) == ((maxLife - life) / (maxLife - fadeOutTime)) * ceiling;
    }
  }

  lemma UnitTimes(u: real, c: real)
    requires Unit(u) && c >= 0.0
    ensures 0.0 <= u * c <= c
  {
    assert u * c <= 1.0 * c;
  }

  lemma RatioInUnit(a: real, b: real)
    requires 0.0 <= a < b
    ensures Unit(a / b)
  {
    assert (a / b) * b == a;
  }

  /**
   * The fade windows: opacity grows with age during the fade-in, shrinks with age
   * during the fade-out, and is 0 at the birth and the end of life formulas.
   */
  lemma FadeWindows(maxLife: real, previous: real, ceiling: real, a: real, b: real)
    requires maxLife > 0.0 && ceiling > 0.0 && a < b
    ensures 0.0 <= a && b < maxLife * 0.1 ==>
              FadeOpacity(a, maxLife, previous, ceiling) < FadeOpacity(b, maxLife, previous, ceiling)
    ensures maxLife * 0.9 < a && b <= maxLife ==>
              FadeOpacity(a, maxLife, previous, ceiling) > FadeOpacity(b, maxLife, previous, ceiling)
    ensures maxLife * 0.1 <= a <= maxLife * 0.9 ==> FadeOpacity(a, maxLife, previous, ceiling) == previous
    ensures FadeOpacity(0.0, maxLife, previous, ceiling) == 0.0
    ensures FadeOpacity(maxLife, maxLife, previous, ceiling) == 0.0
  {
    var fadeInTime := maxLife * 0.1;
    if 0.0 <= a && b < fadeInTime {
      ScaledRatioMonotone(a, b, fadeInTime, ceiling);
    }
    var window := maxLife - maxLife * 0.9;
    if maxLife * 0.9 < a && b <= maxLife {
      ScaledRatioMonotone(maxLife - b, maxLife - a, window, ceiling);
    }
  }

  lemma ScaledRatioMonotone(x: real, y: real, den: real, c: real)
    requires x < y && den > 0.0 && c > 0.0
    ensures (x / den) * c < (y / den) * c
  {
    var rx, ry := x / den, y / den;
    assert rx * den == x && ry * den == y;
    assert rx < ry;
  }

  /** Math.sqrt(dx * dx + dy * dy), supplied by the caller. */
  predicate IsDistance(d: real, dx: real, dy: real)
  {
    d >= 0.0 && d * d == dx * dx + dy * dy
  }

  /** The pointer's pull on one velocity component, for an offset `delta` at distance `d`. */
  function Pull(delta: real, d: real): real
  {
    var force := (AttractionRadius - d) / AttractionRadius;
    delta * force * PullRate
  }

  /**
   * A particle that lives on after one frame: moved by its velocity, one frame older,
   * pulled towards the pointer when interactive and within the radius, faded, and
   * wrapped. The pull is computed from the moved, not yet wrapped, position.
   */
  function Moved(p: Particle, width: nat, height: nat, cfg: Config,
                 mouseX: real, mouseY: real, d: real): Particle
    requires p.maxLife > 0.0
  {
    var x, y := p.x + p.vx, p.y + p.vy;
    var pulled := cfg.interactive && d < AttractionRadius;
    Particle(
      x := Wrap(x, width),
      y := Wrap(y, height),
      vx := if pulled then p.vx + Pull(mouseX - x, d) else p.vx,
      vy := if pulled then p.vy + Pull(mouseY - y, d) else p.vy,
      size := p.size,
      color := p.color,
      opacity := FadeOpacity((p.life + 1) as real, p.maxLife, p.opacity, cfg.opacity),
      life := p.life + 1,
      maxLife := p.maxLife)
  }

  /** The particle after one frame: spent particles are replaced by a fresh spawn. */
  function Updated(p: Particle, width: nat, height: nat, cfg: Config,
                   mouseX: real, mouseY: real, d: real, r: SpawnDraws): Particle
    requires p.maxLife > 0.0 && ValidDraws(r)
  {
    if (p.life + 1) as real >= p.maxLife then CreateParticle(width, height, cfg, r)
    else Moved(p, width, height, cfg, mouseX, mouseY, d)
  }

  /** The distance the pull needs: from the pointer to the particle's moved position. */
  predicate DistanceOk(p: Particle, cfg: Config, mouseX: real, mouseY: real, d: real)
  {
    cfg.interactive ==> IsDistance(d, mouseX - (p.x + p.vx), mouseY - (p.y + p.vy))
  }

  /** `updateParticle`: the source's statements in order, on a local copy of the particle. */
  method UpdateParticle(particle: Particle, width: nat, height: nat, cfg: Config,
                        mouseX: real, mouseY: real, distance: real, draws: SpawnDraws)
    returns (p: Particle)
    requires particle.maxLife > 0.0 && ValidDraws(draws)
    ensures p == Updated(particle, width, height, cfg, mouseX, mouseY, distance, draws)
  {
    ghost var moved := Moved(particle, width, height, cfg, mouseX, mouseY, distance);
    p := particle;
    p := p.(x := p.x + p.vx);
    p := p.(y := p.y + p.vy);
    p := p.(life := p.life + 1);

    if cfg.interactive {
      var dx := mouseX - p.x;
      var dy := mouseY - p.y;
      if distance < 100.0 {
        var force := (100.0 - distance) / 100.0;
        p := p.(vx := p.vx + dx * force * 0.001);
        p := p.(vy := p.vy + dy * force * 0.001);
      }
    }
    assert p.vx == moved.vx && p.vy == moved.vy;
    assert p.x == particle.x + particle.vx && p.y == particle.y + particle.vy;

    var fadeInTime := p.maxLife * 0.1;
    var fadeOutTime := p.maxLife * 0.9;
    if (p.life as real) < fadeInTime {
      p := p.(opacity := (p.life as real / fadeInTime) * cfg.opacity);
    } else if (p.life as real) > fadeOutTime {
      p := p.(opacity := ((p.maxLife - p.life as real) / (p.maxLife - fadeOutTime)) * cfg.opacity);
    }
    assert p.opacity == moved.opacity;

    if p.x < 0.0 { p := p.(x := width as real); }
    if p.x > width as real { p := p.(x := 0.0); }
    if p.y < 0.0 { p := p.(y := height as real); }
    if p.y > height as real { p := p.(y := 0.0); }
    assert p == moved;

    if (p.life as real) >= p.maxLife {
      p := CreateParticle(width, height, cfg, draws);
    }
  }

  /** What holds of every particle in the pool, from its spawn on. */
  predicate ValidParticle(p: Particle, width: nat, height: nat, cfg: Config)
  {
    && 0.0 <= p.x <= width as real
    && 0.0 <= p.y <= height as real
    && 100.0 <= p.maxLife < 300.0
    && (p.life as real) < p.maxLife
    && SizeRangeOf(cfg.size).min <= p.size < SizeRangeOf(cfg.size).max
    && (|cfg.colors| > 0 <==> p.color.Some?) && (p.color.Some? ==> p.color.value in cfg.colors)
    && (cfg.opacity >= 0.0 ==> 0.0 <= p.opacity <= cfg.opacity)
  }

  lemma SpawnedIsValid(p: Particle, width: nat, height: nat, cfg: Config)
    requires Spawned(p, width, height, cfg)
    ensures ValidParticle(p, width, height, cfg)
  {
  }

  /**
   * A frame keeps every particle valid: on the canvas (closed bounds), younger than
   * its lifetime, with its lifetime, radius, colour and opacity in range.
   */
  lemma UpdatedPreservesValid(p: Particle, width: nat, height: nat, cfg: Config,
                              mouseX: real, mouseY: real, d: real, r: SpawnDraws)
    requires ValidParticle(p, width, height, cfg) && ValidDraws(r)
    ensures ValidParticle(Updated(p, width, height, cfg, mouseX, mouseY, d, r), width, height, cfg)
  {
    var life := p.life + 1;
    if (life as real) < p.maxLife && cfg.opacity >= 0.0 {
      FadeOpacityBounds(life as real, p.maxLife, p.opacity, cfg.opacity);
    }
  }

  /**
   * Whatever the particle, after a frame it lies on the canvas (closed bounds) and is
   * younger than its lifetime: a particle that reaches its lifetime is respawned at age 0.
   */
  lemma UpdatedBounds(p: Particle, width: nat, height: nat, cfg: Config,
                      mouseX: real, mouseY: real, d: real, r: SpawnDraws)
    requires p.maxLife > 0.0 && ValidDraws(r)
    ensures var q := Updated(p, width, height, cfg, mouseX, mouseY, d, r);
            && 0.0 <= q.x <= width as real && 0.0 <= q.y <= height as real
            && (q.life as real) < q.maxLife
            && ((p.life + 1) as real >= p.maxLife ==> q.life == 0 && 100.0 <= q.maxLife)
            && ((p.life + 1) as real < p.maxLife ==> q.life == p.life + 1 && q.maxLife == p.maxLife)
  {
  }

  /**
   * Velocity changes only through the pointer's pull: never when the field is not
   * interactive or the pointer is 100 pixels or more away; otherwise each component
   * moves towards the pointer, by at most 0.001 of the offset.
   */
  lemma VelocityOnlyPulled(p: Particle, width: nat, height: nat, cfg: Config,
                           mouseX: real, mouseY: real, d: real)
    requires p.maxLife > 0.0 && d >= 0.0
    ensures var q := Moved(p, width, height, cfg, mouseX, mouseY, d);
            var dx, dy := mouseX - (p.x + p.vx), mouseY - (p.y + p.vy);
            && (!cfg.interactive || d >= AttractionRadius ==> q.vx == p.vx && q.vy == p.vy)
            && (dx >= 0.0 ==> p.vx <= q.vx <= p.vx + PullRate * dx)
            && (dx <= 0.0 ==> p.vx + PullRate * dx <= q.vx <= p.vx)
            && (dy >= 0.0 ==> p.vy <= q.vy <= p.vy + PullRate * dy)
            && (dy <= 0.0 ==> p.vy + PullRate * dy <= q.vy <= p.vy)
  {
    var dx, dy := mouseX - (p.x + p.vx), mouseY - (p.y + p.vy);
    if cfg.interactive && d < AttractionRadius {
      PullBounds(dx, d);
      PullBounds(dy, d);
    }
  }

  /** The pull has the sign of the offset and at most 0.001 of its size. */
  lemma PullBounds(delta: real, d: real)
    requires 0.0 <= d < AttractionRadius
    ensures delta >= 0.0 ==> 0.0 <= Pull(delta, d) <= PullRate * delta
    ensures delta <= 0.0 ==> PullRate * delta <= Pull(delta, d) <= 0.0
  {
    var force := (AttractionRadius - d) / AttractionRadius;
    assert 0.0 < force <= 1.0;
    if delta >= 0.0 {
      assert 0.0 <= delta * force <= delta * 1.0;
    } else {
      assert delta * 1.0 <= delta * force <= 0.0;
    }
  }

  /** A particle moving off the right edge lands exactly on the left edge; the overshoot is dropped. */
  lemma WrapExample(r: SpawnDraws)
    requires ValidDraws(r)
    ensures var p := Particle(799.0, 300.0, 5.0, 0.0, 2.0, None, 0.3, 50, 200.0);
            Updated(p, 800, 600, DefaultConfig, 0.0, 0.0, 0.0, r).x == 0.0
  {
  }

  /** The component's state: its props, the canvas size, the pool and the last pointer position. */
  class Field {
    const cfg: Config
    var width: nat
    var height: nat
    var particles: seq<Particle>
    var mouseX: real
    var mouseY: real

    /** Every particle of the pool is valid for the current canvas. */
    ghost predicate Valid()
      reads this
    {
      forall i :: 0 <= i < |particles| ==> ValidParticle(particles[i], width, height, cfg)
    }

    constructor (cfg: Config)
      ensures this.cfg == cfg && width == 0 && height == 0 && particles == []
      ensures mouseX == 0.0 && mouseY == 0.0 && Valid()
    {
      this.cfg := cfg;
      width, height := 0, 0;
      particles := [];
      mouseX, mouseY := 0.0, 0.0;
    }

    /** `initParticles`: a fresh pool of exactly `ParticleCount` spawned particles. */
    method InitParticles(draws: seq<SpawnDraws>)
      requires |draws| >= ParticleCount(width, height, cfg.density)
      requires forall i :: 0 <= i < |draws| ==> ValidDraws(draws[i])
      modifies this`particles
      ensures |particles| == ParticleCount(width, height, cfg.density)
      ensures forall i :: 0 <= i < |particles| ==> particles[i] == CreateParticle(width, height, cfg, draws[i])
      ensures Valid()
    {
      var particleCount := ParticleCount(width, height, cfg.density);
      particles := [];
      var i := 0;
      while i < particleCount
        invariant 0 <= i <= particleCount
        invariant |particles| == i
        invariant forall j :: 0 <= j < i ==> particles[j] == CreateParticle(width, height, cfg, draws[j])
      {
        particles := particles + [CreateParticle(width, height, cfg, draws[i])];
        i := i + 1;
      }
      forall j | 0 <= j < |particles| ensures ValidParticle(particles[j], width, height, cfg) {
        SpawnedIsValid(particles[j], width, height, cfg);
      }
    }

    /** `handleResize`: the canvas takes the container's size and the pool is rebuilt. */
    method HandleResize(containerWidth: nat, containerHeight: nat, draws: seq<SpawnDraws>)
      requires |draws| >= ParticleCount(containerWidth, containerHeight, cfg.density)
      requires forall i :: 0 <= i < |draws| ==> ValidDraws(draws[i])
      modifies this`width, this`height, this`particles
      ensures width == containerWidth && height == containerHeight
      ensures |particles| == ParticleCount(containerWidth, containerHeight, cfg.density)
      ensures forall i :: 0 <= i < |particles| ==> particles[i] == CreateParticle(width, height, cfg, draws[i])
      ensures Valid()
    {
      width := containerWidth;
      height := containerHeight;
      InitParticles(draws);
    }

    /** `mousemove` on the canvas: the pointer in canvas coordinates, recorded only when interactive. */
    method HandleMouseMove(clientX: real, clientY: real, canvasLeft: real, canvasTop: real)
      modifies this
      ensures cfg.interactive ==> mouseX == clientX - canvasLeft && mouseY == clientY - canvasTop
      ensures !cfg.interactive ==> mouseX == old(mouseX) && mouseY == old(mouseY)
      ensures particles == old(particles) && width == old(width) && height == old(height)
    {
      if !cfg.interactive {
        return;
      }
      mouseX := clientX - canvasLeft;
      mouseY := clientY - canvasTop;
    }

    /**
     * One animation frame (drawing aside): with a drawing context, every particle is
     * updated in place and the pool keeps its length; without one the frame is skipped.
     * `distances[i]` is the pointer's distance from particle `i`'s moved position and
     * `draws[i]` the spawn draws used if particle `i` is respawned.
     */
    method Animate(hasContext: bool, distances: seq<real>, draws: seq<SpawnDraws>)
      requires Valid()
      requires |distances| == |particles| && |draws| == |particles|
      requires forall i :: 0 <= i < |draws| ==> ValidDraws(draws[i])
      requires forall i :: 0 <= i < |particles| ==> DistanceOk(particles[i], cfg, mouseX, mouseY, distances[i])
      modifies this`particles
      ensures Valid()
      ensures |particles| == |old(particles)|
      ensures hasContext ==> forall i :: 0 <= i < |particles| ==>
                particles[i] == Updated(old(particles)[i], width, height, cfg, mouseX, mouseY, distances[i], draws[i])
      ensures !hasContext ==> particles == old(particles)
    {
      if !hasContext {
        return;
      }
      var i := 0;
      while i < |particles|
        invariant 0 <= i <= |particles| == |old(particles)|
        invariant forall j :: 0 <= j < i ==>
                    particles[j] == Updated(old(particles)[j], width, height, cfg, mouseX, mouseY, distances[j], draws[j])
        invariant forall j :: i <= j < |particles| ==> particles[j] == old(particles)[j]
        invariant Valid()
      {
        var updated := UpdateParticle(particles[i], width, height, cfg, mouseX, mouseY, distances[i], draws[i]);
        UpdatedPreservesValid(particles[i], width, height, cfg, mouseX, mouseY, distances[i], draws[i]);
        particles := particles[i := updated];
        i := i + 1;
      }
    }
  }
}
