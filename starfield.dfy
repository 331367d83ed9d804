/** The starfield effect of js/effects/starfield.js: three layers of
    stars fly towards the viewer at their layer's speed, re-enter at the
    back once they pass it, drift with the mouse and twinkle; shooting
    stars are spawned by a self-re-arming timer and fade out in 50 frames.
    Drawing (the `500 / z` projection aside) is left out. */
module Starfield {
  import opened Host

  /** One entry of `getLayersConfig()`: star count, speed and radius range. */
  datatype Layer = Layer(count: nat, speed: real, lo: real, hi: real)

  /** A star; `speed` is its layer's speed. */
  datatype Star = Star(x: real, y: real, z: real, radius: real, color: nat, alpha: real,
                       speed: real, alphaChange: real)

  datatype Shooting = Shooting(x: real, y: real, length: real, speed: real, color: nat, alpha: real)

  datatype Listener = Resize | MouseMove

  const Colors := 6
  const Fade: real := 0.02

  /** `getLayersConfig()` for a canvas `w` wide: fewer, smaller stars below
      600 px. */
  function LayersConfig(w: real): (cfg: seq<Layer>)
    ensures |cfg| == 3
    ensures cfg[0].speed == 6.0 && cfg[1].speed == 3.0 && cfg[2].speed == 1.5
    ensures forall l :: l in cfg ==> 0.0 < l.lo < l.hi
  {
    if w < 600.0 then [Layer(60, 6.0, 1.0, 2.0), Layer(90, 3.0, 0.5, 1.0), Layer(120, 1.5, 0.2, 0.8)]
    else [Layer(120, 6.0, 2.0, 4.0), Layer(180, 3.0, 1.0, 2.0), Layer(240, 1.5, 0.5, 1.5)]
  }

  /** The stars of the layers `cfg`. */
  function Total(cfg: seq<Layer>): nat
    decreases |cfg|
  {
    if cfg == [] then 0 else Total(cfg[..|cfg| - 1]) + cfg[|cfg| - 1].count
  }

  /** 120 + 180 + 240 stars, or 60 + 90 + 120 on a narrow canvas. */
  lemma StarCount(w: real)
    ensures Total(LayersConfig(w)) == if w < 600.0 then 270 else 540
  {
    var cfg := LayersConfig(w);
    assert cfg[..2][..1][..0] == [];
    assert Total(cfg[..1]) == cfg[0].count;
    assert Total(cfg[..2]) == cfg[0].count + cfg[1].count;
  }

  /** A star twinkles within `[0.2 - |c|, 1 + |c|]`: its change `c` points
      back inside whenever its alpha is outside `[0.2, 1]`. */
  predicate Twinkling(alpha: real, c: real) {
    0.005 <= Abs(c) < 0.025 && 0.2 - Abs(c) <= alpha <= 1.0 + Abs(c) &&
    (alpha < 0.2 ==> c > 0.0) && (alpha > 1.0 ==> c < 0.0)
  }

  /** `lo + r * (hi - lo)`: a draw placed in a range. */
  function Between(lo: real, hi: real, r: real): (v: real)
    ensures IsUnit(r) && lo <= hi ==> lo <= v <= hi
  {
    var span := hi - lo;
    ScaleUnit(r, span);
    assert IsUnit(r) && lo <= hi ==> 0.0 <= r * span <= span;
    lo + r * span
  }

  /** A new star of `layer` from draws `g(i, _)`: 0 to 2 place and depth,
      3 radius, 4 colour, 5 alpha, 6 twinkle rate. */
  function CreateStar(layer: Layer, w: real, h: real, g: Rng, i: nat): (s: Star)
    ensures s.speed == layer.speed
    ensures IsUnit(g(i, 2)) && w >= 0.0 ==> 0.0 <= s.z <= w
    ensures IsUnit(g(i, 3)) && layer.lo <= layer.hi ==> layer.lo <= s.radius <= layer.hi
    ensures IsUnit(g(i, 5)) && IsUnit(g(i, 6)) ==> Twinkling(s.alpha, s.alphaChange)
  {
    ScaleUnit(g(i, 2), w);
    Star(g(i, 0) * w, g(i, 1) * h, g(i, 2) * w, Between(layer.lo, layer.hi, g(i, 3)),
         if IsUnit(g(i, 4)) then RandomIndex(g(i, 4), Colors) else 0,
         g(i, 5) * 0.5 + 0.5, layer.speed, g(i, 6) * 0.02 + 0.005)
  }

  /** The stars of one layer, numbered from `base`. */
  function LayerStars(layer: Layer, w: real, h: real, g: Rng, base: nat): (r: seq<Star>)
    ensures |r| == layer.count
  {
    seq(layer.count, j requires 0 <= j < layer.count => CreateStar(layer, w, h, g, base + j))
  }

  /** `initStars()`: the stars of every layer in turn. */
  function Layered(cfg: seq<Layer>, w: real, h: real, g: Rng): (r: seq<Star>)
    ensures |r| == Total(cfg)
    decreases |cfg|
  {
    if cfg == [] then []
    else
      var pre := cfg[..|cfg| - 1];
      Layered(pre, w, h, g) + LayerStars(cfg[|cfg| - 1], w, h, g, Total(pre))
  }

  /** The layer a star's radius comes from is the layer it moves with. */
  predicate FromLayer(s: Star, cfg: seq<Layer>)
    decreases |cfg|
  {
    cfg != [] &&
    ((s.speed == cfg[|cfg| - 1].speed && cfg[|cfg| - 1].lo <= s.radius <= cfg[|cfg| - 1].hi) ||
     FromLayer(s, cfg[..|cfg| - 1]))
  }

  /** Every initial star lies at a depth in `[0, w]`, twinkles, and has a
      radius in the range of its layer. */
  lemma {:induction false} LayeredStars(cfg: seq<Layer>, w: real, h: real, g: Rng, s: Star)
    requires Fair(g) && w >= 0.0 && forall l :: l in cfg ==> l.lo <= l.hi
    requires s in Layered(cfg, w, h, g)
    ensures 0.0 <= s.z <= w && Twinkling(s.alpha, s.alphaChange) && FromLayer(s, cfg)
    decreases |cfg|
  {
    var pre := cfg[..|cfg| - 1];
    var last := cfg[|cfg| - 1];
    assert last in cfg;
    var base := Total(pre);
    if s in Layered(pre, w, h, g) {
      assert forall l :: l in pre ==> l in cfg;
      LayeredStars(pre, w, h, g, s);
    } else {
      var stars := LayerStars(last, w, h, g, base);
      assert s in stars;
      var j :| 0 <= j < |stars| && stars[j] == s;
      assert s == CreateStar(last, w, h, g, base + j);
    }
  }

  /** With fair draws every initial star twinkles. */
  lemma LayeredTwinkles(cfg: seq<Layer>, w: real, h: real, g: Rng)
    requires Fair(g) && w >= 0.0 && forall l :: l in cfg ==> l.lo <= l.hi
    ensures forall k :: 0 <= k < |Layered(cfg, w, h, g)| ==>
              Twinkling(Layered(cfg, w, h, g)[k].alpha, Layered(cfg, w, h, g)[k].alphaChange)
  {
    var stars := Layered(cfg, w, h, g);
    forall k | 0 <= k < |stars|
      ensures Twinkling(stars[k].alpha, stars[k].alphaChange)
    {
      LayeredStars(cfg, w, h, g, stars[k]);
    }
  }

  /** The inner loop of `initStars()`: the `layer.count` stars of one
      layer, the first of them star number `base`. */
  method LayerLoop(layer: Layer, w: real, h: real, g: Rng, base: nat) returns (r: seq<Star>)
    ensures r == LayerStars(layer, w, h, g, base)
  {
    ghost var all := LayerStars(layer, w, h, g, base);
    r := [];
    var j := 0;
    while j < layer.count
      invariant 0 <= j <= layer.count && r == all[..j]
    {
      r := r + [CreateStar(layer, w, h, g, base + j)];
      j := j + 1;
      assert all[..j] == all[..j - 1] + [all[j - 1]];
    }
    assert all[..layer.count] == all;
  }

  /** The shooting star `spawnShootingStar()` adds, from draws `g(0, _)`. */
  function CreateShooting(w: real, h: real, g: Rng): (s: Shooting)
    ensures s.alpha == 1.0
    ensures IsUnit(g(0, 3)) ==> (if w < 600.0 then 8.0 <= s.speed < 13.0 else 15.0 <= s.speed < 25.0)
  {
    var narrow := w < 600.0;
    Shooting(g(0, 0) * w, g(0, 1) * h / 2.0,
             if narrow then 5.0 + g(0, 2) * 10.0 else 10.0 + g(0, 2) * 20.0,
             if narrow then 8.0 + g(0, 3) * 5.0 else 15.0 + g(0, 3) * 10.0,
             if IsUnit(g(0, 4)) then RandomIndex(g(0, 4), Colors) else 0, 1.0)
  }

  // ------------------------------------------------------------ motion

  /** One star's frame in `updateStars`: forward by its layer's speed,
      back to depth `w` at a random place once at or past the viewer,
      drift with the mouse, twinkle. `g(i, 0)` and `g(i, 1)` are the
      random place. */
  function StarStep(s: Star, mouseX: real, mouseY: real, w: real, h: real, g: Rng, i: nat): (t: Star)
    ensures t.z == (if s.z - s.speed <= 0.0 then w else s.z - s.speed)
    ensures t.alpha == s.alpha + s.alphaChange
    ensures Abs(t.alphaChange) == Abs(s.alphaChange)
    ensures t.speed == s.speed && t.radius == s.radius
  {
    var z := s.z - s.speed;
    var reset := z <= 0.0;
    var x := if reset then g(i, 0) * w else s.x;
    var y := if reset then g(i, 1) * h else s.y;
    var alpha := s.alpha + s.alphaChange;
    s.(x := x + mouseX * 0.0005 * s.speed, y := y + mouseY * 0.0005 * s.speed,
       z := if reset then w else z, alpha := alpha,
       alphaChange := if alpha > 1.0 || alpha < 0.2 then -s.alphaChange else s.alphaChange)
  }

  /** The depth guard of `drawStars`: after an update a star is in front of
      the viewer whenever the canvas has width, so `500 / z` is defined. */
  lemma DepthPositive(s: Star, mouseX: real, mouseY: real, w: real, h: real, g: Rng, i: nat)
    requires w > 0.0
    ensures StarStep(s, mouseX, mouseY, w, h, g, i).z > 0.0
  {
  }

  /** Twinkling is an invariant of the update. */
  lemma TwinkleKeeps(s: Star, mouseX: real, mouseY: real, w: real, h: real, g: Rng, i: nat)
    requires Twinkling(s.alpha, s.alphaChange)
    ensures var t := StarStep(s, mouseX, mouseY, w, h, g, i); Twinkling(t.alpha, t.alphaChange)
  {
    var t := StarStep(s, mouseX, mouseY, w, h, g, i);
    var c := s.alphaChange;
    if c > 0.0 {
      assert s.alpha <= 1.0;
    } else {
      assert s.alpha >= 0.2;
    }
    assert Abs(t.alphaChange) == Abs(c);
  }

  /** Every star's update, in order. */
  function StepStars(ps: seq<Star>, mouseX: real, mouseY: real, w: real, h: real, g: Rng): (r: seq<Star>)
    ensures |r| == |ps|
    decreases |ps|
  {
    if |ps| == 0 then []
    else StepStars(ps[..|ps| - 1], mouseX, mouseY, w, h, g) + [StarStep(ps[|ps| - 1], mouseX, mouseY, w, h, g, |ps| - 1)]
  }

  lemma {:induction false} StepStarsAt(ps: seq<Star>, mouseX: real, mouseY: real, w: real, h: real, g: Rng, k: nat)
    requires k < |ps|
    ensures StepStars(ps, mouseX, mouseY, w, h, g)[k] == StarStep(ps[k], mouseX, mouseY, w, h, g, k)
    decreases |ps|
  {
    if k < |ps| - 1 {
      StepStarsAt(ps[..|ps| - 1], mouseX, mouseY, w, h, g, k);
    }
  }

  /** Stepping the first i + 1 stars is stepping the first i and then
      star i in its own slot. */
  lemma StepStarsSnoc(ps: seq<Star>, mouseX: real, mouseY: real, w: real, h: real, g: Rng, i: nat)
    requires i < |ps|
    ensures StepStars(ps[..i + 1], mouseX, mouseY, w, h, g) ==
              StepStars(ps[..i], mouseX, mouseY, w, h, g) + [StarStep(ps[i], mouseX, mouseY, w, h, g, i)]
  {
    PrefixSnoc(ps, i);
  }

  /** The star loop of `updateStars`, each star updated in its slot. */
  method StepEach(ps: seq<Star>, mouseX: real, mouseY: real, w: real, h: real, reset: Rng) returns (r: seq<Star>)
    ensures r == StepStars(ps, mouseX, mouseY, w, h, reset)
  {
    r := ps;
    var i := 0;
    while i < |r|
      invariant 0 <= i <= |ps|
      invariant r == StepStars(ps[..i], mouseX, mouseY, w, h, reset) + ps[i..]
    {
      TailFrom(ps, i);
      var t := StarStep(r[i], mouseX, mouseY, w, h, reset, i);
      StepStarsSnoc(ps, mouseX, mouseY, w, h, reset, i);
      SnocUpdate(StepStars(ps[..i], mouseX, mouseY, w, h, reset), ps[i..], t);
      r := r[i := t];
      i := i + 1;
    }
    assert ps[..|ps|] == ps;
  }

  /** A frame keeps every star twinkling in its band, and puts every star
      in front of the viewer when the canvas has width. */
  lemma StepStarsKeep(ps: seq<Star>, mouseX: real, mouseY: real, w: real, h: real, g: Rng)
    requires forall k :: 0 <= k < |ps| ==> Twinkling(ps[k].alpha, ps[k].alphaChange)
    ensures var r := StepStars(ps, mouseX, mouseY, w, h, g);
            forall k :: 0 <= k < |r| ==> Twinkling(r[k].alpha, r[k].alphaChange) && (w > 0.0 ==> r[k].z > 0.0)
  {
    var r := StepStars(ps, mouseX, mouseY, w, h, g);
    forall k | 0 <= k < |r|
      ensures Twinkling(r[k].alpha, r[k].alphaChange) && (w > 0.0 ==> r[k].z > 0.0)
    {
      StepStarsAt(ps, mouseX, mouseY, w, h, g, k);
      TwinkleKeeps(ps[k], mouseX, mouseY, w, h, g, k);
    }
  }

  /** A shooting star's frame: along its path, 0.02 fainter. */
  function ShootingStep(s: Shooting): (t: Shooting)
    ensures t.alpha == s.alpha - Fade && t.speed == s.speed
  {
    s.(x := s.x + s.speed, y := s.y + s.speed / 3.0, alpha := s.alpha - Fade)
  }

  function ShootingAfter(s: Shooting, n: nat): Shooting
    decreases n
  {
    if n == 0 then s else ShootingStep(ShootingAfter(s, n - 1))
  }

  /** From alpha 1 a shooting star is still visible after 49 frames and
      gone at the 50th. */
  lemma {:induction false} ShootingLives50(s: Shooting, n: nat)
    requires s.alpha == 1.0
    ensures ShootingAfter(s, n).alpha == 1.0 - Fade * n as real
    ensures ShootingAfter(s, n).alpha > 0.0 <==> n < 50
    decreases n
  {
    if n > 0 {
      ShootingLives50(s, n - 1);
    }
  }

  /** The shooting stars the backward pass over `ss[lo..]` leaves: each
      moved, the faded ones dropped, order kept. */
  function Glowing(ss: seq<Shooting>, lo: nat): (r: seq<Shooting>)
    requires lo <= |ss|
    ensures |r| <= |ss| - lo
    ensures forall t :: t in r ==> t.alpha > 0.0
    decreases |ss| - lo
  {
    if lo == |ss| then []
    else
      var t := ShootingStep(ss[lo]);
      (if t.alpha <= 0.0 then [] else [t]) + Glowing(ss, lo + 1)
  }

  lemma GlowingStep(ss: seq<Shooting>, i: nat, cur: seq<Shooting>)
    requires i < |ss| && cur == ss[..i + 1] + Glowing(ss, i + 1)
    ensures i < |cur| && cur[i] == ss[i]
    ensures var t := ShootingStep(ss[i]);
            var moved := cur[..i] + [t] + cur[i + 1..];
            (if t.alpha <= 0.0 then moved[..i] + moved[i + 1..] else moved) == ss[..i] + Glowing(ss, i)
  {
    var pre := ss[..i];
    var tail := Glowing(ss, i + 1);
    assert cur == pre + [ss[i]] + tail by {
      assert ss[..i + 1] == pre + [ss[i]];
    }
    Splice(pre, ss[i], tail);
    var t := ShootingStep(ss[i]);
    var moved := pre + [t] + tail;
    Splice(pre, t, tail);
    assert |pre| == i;
    if t.alpha <= 0.0 {
      assert moved[..i] + moved[i + 1..] == pre + tail;
      assert Glowing(ss, i) == [] + tail;
    } else {
      assert Glowing(ss, i) == [t] + tail;
      assert moved == pre + ([t] + tail);
    }
  }

  // ------------------------------------------------------------ effect

  /** What a frame takes from the host: the draws of stars that re-enter. */
  datatype StarFrame = StarFrame(reset: Rng)

  class StarfieldEffect {
    var sched: Scheduler
    var animationId: Option<nat>
    var hasCtx: bool
    var listeners: set<Listener>
    /** Whether the shooting-star timeout is pending. */
    var timerArmed: bool
    var w: real
    var h: real
    var mouseX: real
    var mouseY: real
    var stars: seq<Star>
    var shootingStars: seq<Shooting>

    /** Every star twinkles within its band. */
    ghost predicate Valid()
      reads this
    {
      Fresh(sched) &&
      sched.pending == (if animationId.Some? then {animationId.value} else {}) &&
      w >= 0.0 &&
      forall k :: 0 <= k < |stars| ==> Twinkling(stars[k].alpha, stars[k].alphaChange)
    }

    constructor ()
      ensures Valid() && animationId == None && stars == [] && shootingStars == [] && !timerArmed
    {
      sched := Idle;
      animationId := None;
      hasCtx := false;
      listeners := {};
      timerArmed := false;
      w, h := 0.0, 0.0;
      mouseX, mouseY := 0.0, 0.0;
      stars, shootingStars := [], [];
    }

    /** `start()`: nothing while a frame is scheduled or without a canvas;
        otherwise listeners, a fresh starfield, one shooting star with its
        timer armed, and the first frame. */
    method Start(hasCanvas: bool, width: real, height: real, g: Rng, first: Rng, fr: StarFrame)
      requires Valid() && Fair(g) && width >= 0.0
      modifies this`hasCtx, this`listeners, this`w, this`h, this`stars, this`shootingStars, this`timerArmed,
               this`sched, this`animationId
      ensures Valid()
      ensures old(animationId).Some? || !hasCanvas ==>
                animationId == old(animationId) && sched == old(sched) && stars == old(stars) &&
                shootingStars == old(shootingStars) && timerArmed == old(timerArmed)
      ensures old(animationId).Some? || !hasCanvas ==> unchanged(this)
      ensures old(animationId).None? && hasCanvas ==>
                animationId.Some? && sched.pending == {animationId.value} && timerArmed &&
                listeners == {Resize, MouseMove} && w == width && h == height &&
                stars == StepStars(Layered(LayersConfig(width), width, height, g), mouseX, mouseY, width, height, fr.reset) &&
                shootingStars == Glowing(old(shootingStars) + [CreateShooting(width, height, first)], 0)
      ensures old(animationId).None? && hasCanvas ==> |stars| == (if width < 600.0 then 270 else 540)
    {
      if animationId.Some? {
        return;
      }
      if !hasCanvas {
        return;
      }
      Launch(width, height, g, first, fr);
    }

    /** What `start()` does once the guards pass: the context, the
        listeners, the size, two starfields, the first shooting star and
        the first frame. */
    method Launch(width: real, height: real, g: Rng, first: Rng, fr: StarFrame)
      requires Valid() && Fair(g) && width >= 0.0 && animationId.None?
      modifies this`hasCtx, this`listeners, this`w, this`h, this`stars, this`shootingStars, this`timerArmed,
               this`sched, this`animationId
      ensures Valid()
      ensures animationId.Some? && sched.pending == {animationId.value} && timerArmed &&
              listeners == {Resize, MouseMove} && w == width && h == height
      ensures stars == StepStars(Layered(LayersConfig(width), width, height, g), mouseX, mouseY, width, height, fr.reset)
      ensures |stars| == (if width < 600.0 then 270 else 540)
      ensures shootingStars == Glowing(old(shootingStars) + [CreateShooting(width, height, first)], 0)
    {
      Prepare(width, height, g);
      SpawnShootingStar(first);
      Animate(fr);
    }

    /** The first half of `start()`: the context, the listeners, the size
        and two starfields. */
    method Prepare(width: real, height: real, g: Rng)
      requires Valid() && Fair(g) && width >= 0.0 && animationId.None?
      modifies this`hasCtx, this`listeners, this`w, this`h, this`stars
      ensures Valid() && animationId.None? && listeners == {Resize, MouseMove} && w == width && h == height
      ensures stars == Layered(LayersConfig(width), width, height, g) && |stars| == (if width < 600.0 then 270 else 540)
    {
      hasCtx := true;
      listeners := {Resize, MouseMove};
      w, h := width, height;
      InitStars(g);         // `resize()` draws a starfield,
      InitStars(g);         // and `start()` draws it again
    }

    /** `stop()`: cancel the frame, detach the listeners, clear the timer,
        empty both star lists. */
    method Stop()
      requires Valid()
      modifies this`sched, this`animationId, this`listeners, this`timerArmed, this`stars, this`shootingStars
      ensures Valid() && animationId == None && sched.pending == {} && listeners == {} && !timerArmed
      ensures stars == [] && shootingStars == []
    {
      if animationId.Some? {
        sched := Drop(sched, animationId.value);
        animationId := None;
      }
      listeners := {};
      timerArmed := false;
      stars, shootingStars := [], [];
    }

    /** `resize()`: the new size, and a fresh starfield for it. */
    method OnResize(width: real, height: real, g: Rng)
      requires Valid() && Fair(g) && width >= 0.0
      modifies this`w, this`h, this`stars
      ensures Valid() && w == width && h == height && stars == Layered(LayersConfig(width), width, height, g)
    {
      w, h := width, height;
      InitStars(g);
    }

    /** The mouse, relative to the canvas centre. */
    method OnMouseMove(clientX: real, clientY: real)
      modifies this`mouseX, this`mouseY
      ensures mouseX == clientX - w / 2.0 && mouseY == clientY - h / 2.0
    {
      mouseX, mouseY := clientX - w / 2.0, clientY - h / 2.0;
    }

    /** `initStars()`: the layers' stars, layer by layer. */
    method InitStars(g: Rng)
      requires Valid() && Fair(g)
      modifies this`stars
      ensures Valid() && stars == Layered(LayersConfig(w), w, h, g)
      ensures |stars| == (if w < 600.0 then 270 else 540)
    {
      var cfg := LayersConfig(w);
      stars := [];
      var li := 0;
      while li < |cfg|
        invariant 0 <= li <= |cfg|
        invariant stars == Layered(cfg[..li], w, h, g)
      {
        PrefixSnoc(cfg, li);
        var added := LayerLoop(cfg[li], w, h, g, |stars|);
        stars := stars + added;
        li := li + 1;
      }
      assert cfg[..|cfg|] == cfg;
      LayeredTwinkles(cfg, w, h, g);
      StarCount(w);
    }

    /** `spawnShootingStar()`: one more shooting star, and the timer
        re-armed. */
    method SpawnShootingStar(g: Rng)
      requires Valid()
      modifies this`shootingStars, this`timerArmed
      ensures Valid() && timerArmed && shootingStars == old(shootingStars) + [CreateShooting(w, h, g)]
    {
      shootingStars := shootingStars + [CreateShooting(w, h, g)];
      timerArmed := true;
    }

    /** The shooting-star timeout fires. */
    method OnTimer(g: Rng)
      requires Valid() && timerArmed
      modifies this`shootingStars, this`timerArmed
      ensures Valid() && timerArmed && shootingStars == old(shootingStars) + [CreateShooting(w, h, g)]
    {
      SpawnShootingStar(g);
    }

    /** The star loop of `updateStars`. */
    method MoveStars(reset: Rng)
      requires Valid()
      modifies this`stars
      ensures Valid() && stars == StepStars(old(stars), mouseX, mouseY, w, h, reset)
      ensures w > 0.0 ==> forall k :: 0 <= k < |stars| ==> stars[k].z > 0.0
    {
      StepStarsKeep(stars, mouseX, mouseY, w, h, reset);
      stars := StepEach(stars, mouseX, mouseY, w, h, reset);
    }

    /** The shooting-star loop of `updateStars`: from the last one down,
        move it and remove it once faded. */
    method MoveShootingStars()
      modifies this`shootingStars
      ensures shootingStars == Glowing(old(shootingStars), 0)
    {
      ghost var ss := shootingStars;
      var i := |shootingStars|;
      while i > 0
        invariant 0 <= i <= |ss|
        invariant shootingStars == ss[..i] + Glowing(ss, i)
      {
        i := i - 1;
        GlowingStep(ss, i, shootingStars);
        var t := ShootingStep(shootingStars[i]);
        shootingStars := shootingStars[..i] + [t] + shootingStars[i + 1..];
        if t.alpha <= 0.0 {
          shootingStars := shootingStars[..i] + shootingStars[i + 1..];
        }
      }
    }

    /** `animate()`: update the stars and the shooting stars, then the
        next frame. Every star drawn has positive depth. */
    method Animate(fr: StarFrame)
      requires Valid() && animationId.None?
      modifies this`stars, this`shootingStars, this`sched, this`animationId
      ensures Valid() && animationId.Some? && sched.pending == {animationId.value} && animationId.value >= old(sched.next)
      ensures stars == StepStars(old(stars), mouseX, mouseY, w, h, fr.reset) && |stars| == |old(stars)|
      ensures shootingStars == Glowing(old(shootingStars), 0)
      ensures w > 0.0 ==> forall k :: 0 <= k < |stars| ==> stars[k].z > 0.0
    {
      MoveStars(fr.reset);
      MoveShootingStars();
      var (s, id) := Request(sched);
      sched, animationId := s, Some(id);
    }

    /** The frame callback `id` fires. */
    method OnFrame(id: nat, fr: StarFrame)
      requires Valid() && id in sched.pending
      modifies this`stars, this`shootingStars, this`sched, this`animationId
      ensures Valid() && animationId.Some? && animationId.value != id && sched.pending == {animationId.value}
      ensures stars == StepStars(old(stars), mouseX, mouseY, w, h, fr.reset)
      ensures shootingStars == Glowing(old(shootingStars), 0)
    {
      sched := Drop(sched, id);
      animationId := None;
      Animate(fr);
    }
  }
}
