/** The fireworks effect of js/effects/fireworks.js: rockets launched on
    click, on mouse movement and at random, that burst into one of nine
    spark patterns; sparks fall under gravity, fade, and one pattern splits a
    second time. Velocities built from random angles with cos/sin, and the
    launch velocity solved with sqrt, come in from the host. */
module Fireworks {
  import opened Host

  datatype Split = NoSplit | Phase2
  datatype Spark = Spark(x: real, y: real, vx: real, vy: real, alpha: real, decay: real, size: real, split: Split)
  datatype Rocket = Rocket(x: real, y: real, vx: real, vy: real, ax: real, gravity: real,
                           targetY: real, kind: nat, exploded: bool)
  datatype Point = Point(x: real, y: real)
  datatype Vec = Vec(dx: real, dy: real)
  datatype Listener = Resize | MouseMove | Click

  /** Host-supplied velocities: `Kicks(i, k)` is the k-th velocity built for
      item `i` (rocket `i`'s burst, or spark `i`'s split). */
  type Kicks = (nat, nat) -> Vec

  /** What `createRocket` needs from the host: the draw that picks the burst
      type, the draw that offsets the launch point, the velocity of the apex
      solve, and the draw for the sideways curve. */
  datatype Launch = Launch(kindDraw: real, xDraw: real, vx: real, vy: real, axDraw: real)

  predicate FairLaunch(l: Launch) {
    IsUnit(l.kindDraw) && IsUnit(l.xDraw) && IsUnit(l.axDraw)
  }

  /** Everything one `animate(now)` call takes from the host. */
  datatype FrameInput = FrameInput(now: real, first: Launch, second: Launch,
                                   targetX: real, targetY: real,
                                   burstKicks: Kicks, burstDraws: Rng, splitKicks: Kicks)

  predicate FairFrame(f: FrameInput) {
    FairLaunch(f.first) && FairLaunch(f.second) && IsUnit(f.targetX) && IsUnit(f.targetY)
  }

  const MaxParticles := 2000
  const MaxRockets := 80
  const RandomInterval: real := 900.0
  const MoveInterval: real := 2000.0
  const ClickSpamThreshold: real := 400.0
  const MoveRecency: real := 3000.0
  const SparkGravity: real := 0.018
  const RocketGravity: real := 0.015
  const SplitAlpha: real := 0.55
  const SplitRays := 14
  const Kinds := 9

  /** `explode(x, y, type)`'s spark counts, type 0 to 8 (type 4 is six arms
      of thirty). */
  const BurstSizes: seq<nat> := [100, 120, 100, 120, 6 * 30, 150, 140, 60, 100]

  function BurstSize(kind: nat): nat {
    if kind < Kinds then BurstSizes[kind] else 0
  }

  /** `createParticle(..., decay = 0.009, size = 4, split = false)`. */
  function NewSpark(at: Point, v: Vec, decay: real, size: real, split: Split): Spark {
    Spark(at.x, at.y, v.dx, v.dy, 1.0, decay, size, split)
  }

  /** Spark `k` of a burst of `kind`, with velocity `v` and size draw `r`.
      Types 2 and 5 draw their size; the others have fixed size and decay. */
  function BurstSpark(kind: nat, at: Point, v: Vec, r: real): Spark {
    if kind == 0 then NewSpark(at, v, 0.009, 4.0, NoSplit)
    else if kind == 1 then NewSpark(at, v, 0.008, 4.0, NoSplit)
    else if kind == 2 then NewSpark(at, v, 0.012, 3.0 + r * 2.0, NoSplit)
    else if kind == 3 then NewSpark(at, v, 0.016, 3.0, NoSplit)
    else if kind == 4 then NewSpark(at, v, 0.012, 4.0, NoSplit)
    else if kind == 5 then NewSpark(at, v, 0.012, 3.0 + r * 2.0, NoSplit)
    else if kind == 6 then NewSpark(at, v, 0.006, 5.0, NoSplit)
    else if kind == 7 then NewSpark(at, v, 0.007, 3.8, Phase2)
    else NewSpark(at, v, 0.009, 4.0, NoSplit)
  }

  /** The sparks `explode` adds for rocket `item`: a fixed count per type,
      all at the burst point, at full alpha and fading. */
  function Burst(kind: nat, at: Point, kicks: Kicks, draws: Rng, item: nat): (r: seq<Spark>)
    ensures |r| == BurstSize(kind)
    ensures forall s :: s in r ==> s.alpha == 1.0 && s.x == at.x && s.y == at.y && s.decay > 0.0
    ensures forall s :: s in r ==> (s.split == Phase2 <==> kind == 7)
  {
    var r := seq(BurstSize(kind), k requires 0 <= k => BurstSpark(kind, at, kicks(item, k), draws(item, k)));
    assert forall k :: 0 <= k < |r| ==> r[k] == BurstSpark(kind, at, kicks(item, k), draws(item, k));
    r
  }

  /** The burst counts, type by type. */
  lemma BurstCounts(at: Point, kicks: Kicks, draws: Rng, item: nat)
    ensures |Burst(0, at, kicks, draws, item)| == 100 && |Burst(1, at, kicks, draws, item)| == 120
    ensures |Burst(2, at, kicks, draws, item)| == 100 && |Burst(3, at, kicks, draws, item)| == 120
    ensures |Burst(4, at, kicks, draws, item)| == 180 && |Burst(5, at, kicks, draws, item)| == 150
    ensures |Burst(6, at, kicks, draws, item)| == 140 && |Burst(7, at, kicks, draws, item)| == 60
    ensures |Burst(8, at, kicks, draws, item)| == 100
  {
  }

  // ---------------------------------------------------------------- sparks

  /** Whether `updateParticle` splits spark `p`: a "phase2" spark whose alpha
      has just dropped below 0.55. */
  predicate Splits(p: Spark) {
    p.split == Phase2 && p.alpha - p.decay < SplitAlpha
  }

  /** `updateParticle(p)` on the spark itself: gravity, motion, fading, and
      the split flag cleared when it splits. */
  function SparkMove(p: Spark): Spark {
    var vy := p.vy + SparkGravity;
    p.(x := p.x + p.vx, y := p.y + vy, vy := vy, alpha := p.alpha - p.decay,
       split := if Splits(p) then NoSplit else p.split)
  }

  /** The 14 sparks of a split, from where the moved spark `q` is. */
  function SplitSparks(q: Spark, kicks: Kicks, item: nat): (r: seq<Spark>)
    ensures |r| == SplitRays
    ensures forall c :: c in r ==> c.alpha == 1.0 && c.split == NoSplit && c.x == q.x && c.y == q.y
  {
    var r := seq(SplitRays, k requires 0 <= k => NewSpark(Point(q.x, q.y), kicks(item, k), 0.008, 3.0, NoSplit));
    assert forall k :: 0 <= k < |r| ==> r[k] == NewSpark(Point(q.x, q.y), kicks(item, k), 0.008, 3.0, NoSplit);
    r
  }

  /** `updateParticle(p)`: the moved spark and the sparks it pushes. */
  function SparkStep(p: Spark, kicks: Kicks, item: nat): (r: (Spark, seq<Spark>))
    ensures r.0 == SparkMove(p)
    ensures |r.1| == (if Splits(p) then SplitRays else 0)
    ensures r.0.alpha == p.alpha - p.decay && r.0.vy == p.vy + SparkGravity
    ensures r.0.split == (if |r.1| > 0 then NoSplit else p.split)
  {
    var q := SparkMove(p);
    (q, if Splits(p) then SplitSparks(q, kicks, item) else [])
  }

  function SparkAfter(p: Spark, n: nat): Spark
    decreases n
  {
    if n == 0 then p else SparkAfter(SparkMove(p), n - 1)
  }

  /** How many of the first `n` updates of `p` split it. */
  function SplitCount(p: Spark, n: nat): nat
    decreases n
  {
    if n == 0 then 0 else (if Splits(p) then 1 else 0) + SplitCount(SparkMove(p), n - 1)
  }

  /** Alpha falls by `decay` on every update. */
  lemma {:induction false} SparkFades(p: Spark, n: nat)
    ensures SparkAfter(p, n).alpha == p.alpha - n as real * p.decay
    ensures SparkAfter(p, n).decay == p.decay
    decreases n
  {
    if n > 0 {
      SparkFades(SparkMove(p), n - 1);
      assert (n - 1) as real * p.decay + p.decay == n as real * p.decay;
    }
  }

  /** A "phase2" spark splits exactly once: over any run of `n` updates it
      has split once if its alpha has by then dropped below 0.55, and never
      otherwise; an ordinary spark never splits. */
  lemma {:induction false} SplitsOnce(p: Spark, n: nat)
    requires p.decay >= 0.0
    ensures SplitCount(p, n) <= 1
    ensures SplitCount(p, n) == 1 <==> n > 0 && p.split == Phase2 && p.alpha - n as real * p.decay < SplitAlpha
    decreases n
  {
    if n > 0 {
      var q := SparkMove(p);
      SplitsOnce(q, n - 1);
      assert q.alpha - (n - 1) as real * q.decay == p.alpha - n as real * p.decay by {
        assert (n - 1) as real * p.decay + p.decay == n as real * p.decay;
      }
      assert n as real * p.decay >= p.decay by {
        assert n as real * p.decay - p.decay == (n - 1) as real * p.decay;
      }
    }
  }

  /** The sparks that survive the backward pass over `ps[lo..]`: each one
      updated, those that faded to alpha <= 0 dropped, order kept. */
  function SurvivorsFrom(ps: seq<Spark>, lo: nat, kicks: Kicks): (r: seq<Spark>)
    requires lo <= |ps|
    ensures forall s :: s in r ==> s.alpha > 0.0
    ensures |r| <= |ps| - lo
    decreases |ps| - lo
  {
    if lo == |ps| then []
    else
      var q := SparkStep(ps[lo], kicks, lo).0;
      (if q.alpha <= 0.0 then [] else [q]) + SurvivorsFrom(ps, lo + 1, kicks)
  }

  /** The pass drops no spark that is still visible after its update. */
  lemma {:induction false} SurvivorsComplete(ps: seq<Spark>, lo: nat, kicks: Kicks, k: nat)
    requires lo <= k < |ps| && SparkMove(ps[k]).alpha > 0.0
    ensures SparkMove(ps[k]) in SurvivorsFrom(ps, lo, kicks)
    decreases k - lo
  {
    if lo < k {
      SurvivorsComplete(ps, lo + 1, kicks, k);
    }
  }

  /** The sparks the same pass pushes, in the order it pushes them (from the
      highest index down). */
  function SpawnedFrom(ps: seq<Spark>, lo: nat, kicks: Kicks): (r: seq<Spark>)
    requires lo <= |ps|
    ensures forall s :: s in r ==> s.alpha == 1.0 && s.split == NoSplit
    decreases |ps| - lo
  {
    if lo == |ps| then []
    else SpawnedFrom(ps, lo + 1, kicks) + SparkStep(ps[lo], kicks, lo).1
  }

  // --------------------------------------------------------------- rockets

  /** `createRocket(type, targetX, targetY)`, launched from the bottom edge. */
  function CreateRocket(kind: nat, target: Point, l: Launch, w: real, h: real): (r: Rocket)
    ensures !r.exploded && r.y == h && r.kind == kind && r.gravity == RocketGravity
  {
    Rocket(w / 2.0 + (l.xDraw - 0.5) * 200.0, h, l.vx, l.vy, (l.axDraw - 0.5) * 0.01,
           RocketGravity, target.y, kind, false)
  }

  /** `updateRocket(r)`: curve, gravity, motion; the rocket explodes on the
      first update that leaves it falling. Returns the rocket and whether it
      exploded on this update. */
  function RocketStep(r: Rocket): (s: (Rocket, bool))
    ensures s.0.vy == r.vy + r.gravity && s.0.gravity == r.gravity && s.0.kind == r.kind
    ensures s.1 <==> !r.exploded && s.0.vy >= 0.0
    ensures s.0.exploded == (r.exploded || s.1)
  {
    var vx := r.vx + r.ax * 0.1;
    var vy := r.vy + r.gravity;
    var q := r.(x := r.x + vx, y := r.y + vy, vx := vx, vy := vy);
    if !r.exploded && vy >= 0.0 then (q.(exploded := true), true) else (q, false)
  }

  /** How many of the first `n` updates of `r` explode it. */
  function Explosions(r: Rocket, n: nat): nat
    decreases n
  {
    if n == 0 then 0 else (if RocketStep(r).1 then 1 else 0) + Explosions(RocketStep(r).0, n - 1)
  }

  /** Under positive gravity `vy` only grows, so a rocket explodes exactly
      once: within `n` updates it has exploded once precisely when
      `vy + n * gravity >= 0`, and it explodes at the first such update. */
  lemma {:induction false} ExplodesOnce(r: Rocket, n: nat)
    requires r.gravity >= 0.0
    ensures Explosions(r, n) <= 1
    ensures Explosions(r, n) == 1 <==> n > 0 && !r.exploded && r.vy + n as real * r.gravity >= 0.0
    decreases n
  {
    if n > 0 {
      var q := RocketStep(r).0;
      ExplodesOnce(q, n - 1);
      assert q.vy + (n - 1) as real * q.gravity == r.vy + n as real * r.gravity by {
        assert (n - 1) as real * r.gravity + r.gravity == n as real * r.gravity;
      }
      assert n as real * r.gravity >= r.gravity by {
        assert n as real * r.gravity - r.gravity == (n - 1) as real * r.gravity;
      }
    }
  }

  /** The rockets left by the backward pass over `rs[lo..]`: each updated,
      those that exploded removed, order kept. */
  function FlyingFrom(rs: seq<Rocket>, lo: nat): (r: seq<Rocket>)
    requires lo <= |rs|
    ensures forall x :: x in r ==> !x.exploded
    ensures |r| <= |rs| - lo
    decreases |rs| - lo
  {
    if lo == |rs| then []
    else
      var q := RocketStep(rs[lo]).0;
      (if q.exploded then [] else [q]) + FlyingFrom(rs, lo + 1)
  }

  /** One step of the backward rocket pass: rocket `i` is replaced by its
      update, or removed once it has exploded. */
  lemma RocketSplice(rs: seq<Rocket>, i: nat, cur: seq<Rocket>)
    requires i < |rs| && cur == rs[..i + 1] + FlyingFrom(rs, i + 1)
    ensures cur[i] == rs[i]
    ensures var q := RocketStep(rs[i]).0;
            (if q.exploded then cur[..i] + cur[i + 1..] else cur[..i] + [q] + cur[i + 1..])
              == rs[..i] + FlyingFrom(rs, i)
  {
    var tail := FlyingFrom(rs, i + 1);
    assert rs[..i + 1] == rs[..i] + [rs[i]];
    assert cur == rs[..i] + [rs[i]] + tail;
    Splice(rs[..i], rs[i], tail);
    var q := RocketStep(rs[i]).0;
    assert FlyingFrom(rs, i) == (if q.exploded then [] else [q]) + tail;
  }

  /** The `createParticle` loop of `explode(x, y, kind)`: the sparks of one
      burst, in the order they are pushed. */
  method BurstSparks(at: Point, kind: nat, kicks: Kicks, draws: Rng, item: nat) returns (r: seq<Spark>)
    ensures r == Burst(kind, at, kicks, draws, item)
  {
    var n := BurstSize(kind);
    r := [];
    var k := 0;
    while k < n
      invariant 0 <= k <= n
      invariant r == Burst(kind, at, kicks, draws, item)[..k]
    {
      r := r + [BurstSpark(kind, at, kicks(item, k), draws(item, k))];
      k := k + 1;
      assert Burst(kind, at, kicks, draws, item)[..k]
          == Burst(kind, at, kicks, draws, item)[..k - 1] + [Burst(kind, at, kicks, draws, item)[k - 1]];
    }
    assert Burst(kind, at, kicks, draws, item)[..n] == Burst(kind, at, kicks, draws, item);
  }

  /** The rocket loop of `animate`, from the last rocket down: each one is
      updated in its slot, an exploding one adds its burst, and an exploded
      one is spliced out. */
  method RocketPass(rs: seq<Rocket>, kicks: Kicks, draws: Rng) returns (flying: seq<Rocket>, debris: seq<Spark>)
    ensures flying == FlyingFrom(rs, 0)
    ensures debris == DebrisFrom(rs, 0, kicks, draws)
  {
    flying, debris := rs, [];
    var i := |rs|;
    while i > 0
      invariant 0 <= i <= |rs|
      invariant flying == rs[..i] + FlyingFrom(rs, i)
      invariant debris == DebrisFrom(rs, i, kicks, draws)
    {
      i := i - 1;
      RocketSplice(rs, i, flying);
      var step := RocketStep(flying[i]);
      if step.1 {
        var sparks := BurstSparks(Point(step.0.x, step.0.y), step.0.kind, kicks, draws, i);
        debris := debris + sparks;
      }
      if step.0.exploded {
        flying := flying[..i] + flying[i + 1..];
      } else {
        flying := flying[..i] + [step.0] + flying[i + 1..];
      }
    }
  }

  /** The sparks the rocket pass adds: one burst per rocket that explodes,
      from the highest index down. */
  function DebrisFrom(rs: seq<Rocket>, lo: nat, kicks: Kicks, draws: Rng): (r: seq<Spark>)
    requires lo <= |rs|
    decreases |rs| - lo
  {
    if lo == |rs| then []
    else
      var step := RocketStep(rs[lo]);
      DebrisFrom(rs, lo + 1, kicks, draws)
        + (if step.1 then Burst(step.0.kind, Point(step.0.x, step.0.y), kicks, draws, lo) else [])
  }

  /** Every spark a rocket pass adds starts fully opaque. */
  lemma {:induction false} DebrisFresh(rs: seq<Rocket>, lo: nat, kicks: Kicks, draws: Rng)
    requires lo <= |rs|
    ensures forall s :: s in DebrisFrom(rs, lo, kicks, draws) ==> s.alpha == 1.0
    decreases |rs| - lo
  {
    if lo < |rs| {
      DebrisFresh(rs, lo + 1, kicks, draws);
    }
  }

  // ------------------------------------------------------------ spawning

  /** Which shots `control(now)` fires. */
  datatype Plan = Plan(click: bool, move: bool, random: bool)

  /** `control(now)`'s decision: a queued click is served alone; otherwise a
      follow-the-mouse shot when the last one is over 2 s old and the
      mouse moved in the last 3 s, and a random shot when the last one is
      over 0.9 s old and no click came in the last 0.4 s. */
  function PlanShots(queued: bool, now: real, lastClickTime: real, lastMoveTime: real,
                     lastMoveShot: real, lastRandomShot: real): (p: Plan)
    ensures p.click <==> queued
    ensures p.click ==> !p.move && !p.random
    ensures p.random ==> now - lastClickTime >= ClickSpamThreshold
    ensures !queued ==> (p.move <==> now - lastMoveShot > MoveInterval && now - lastMoveTime < MoveRecency)
    ensures !queued ==> (p.random <==> now - lastClickTime >= ClickSpamThreshold && now - lastRandomShot > RandomInterval)
  {
    var clickSpam := now - lastClickTime < ClickSpamThreshold;
    if queued then Plan(true, false, false)
    else Plan(false,
              now - lastMoveShot > MoveInterval && now - lastMoveTime < MoveRecency,
              !clickSpam && now - lastRandomShot > RandomInterval)
  }

  /** `spawnRocket`'s effect on the rocket list: one new rocket aimed at
      `target` and launched with `l`, unless more than 80 rockets or more
      than 2000 sparks already exist. */
  function Spawn(rs: seq<Rocket>, sparks: nat, target: Point, l: Launch, w: real, h: real): (r: seq<Rocket>)
    requires FairLaunch(l)
    ensures rs <= r && |r| <= |rs| + 1
    ensures |r| == |rs| + 1 <==> |rs| <= MaxRockets && sparks <= MaxParticles
    ensures |rs| <= MaxRockets + 1 ==> |r| <= MaxRockets + 1
    ensures forall k :: |rs| <= k < |r| ==> !r[k].exploded && r[k].y == h && r[k].kind < Kinds
  {
    if |rs| > MaxRockets || sparks > MaxParticles then rs
    else rs + [CreateRocket(RandomIndex(l.kindDraw, Kinds), target, l, w, h)]
  }

  /** The random shot's target: anywhere across, in the upper 60% of the
      viewport. */
  function RandomTarget(input: FrameInput, w: real, h: real): Point
  {
    Point(input.targetX * w, input.targetY * h * 0.6)
  }

  /** The rockets once `control(now)` has fired the shots of plan `p`: the
      first queued click alone, or else a shot at the mouse and a random
      shot in the upper 60% of the viewport. */
  function Shots(rs: seq<Rocket>, sparks: nat, queue: seq<Point>, p: Plan, mouse: Point,
                 input: FrameInput, w: real, h: real): (r: seq<Rocket>)
    requires FairFrame(input) && (p.click ==> |queue| > 0)
    ensures rs <= r
    ensures |r| <= |rs| + (if p.click then 1 else 0) + (if !p.click && p.move then 1 else 0)
                        + (if !p.click && p.random then 1 else 0)
    ensures |rs| <= MaxRockets + 1 ==> |r| <= MaxRockets + 1
    ensures forall k :: |rs| <= k < |r| ==> !r[k].exploded
  {
    if p.click then Spawn(rs, sparks, queue[0], input.first, w, h)
    else
      var a := if p.move then Spawn(rs, sparks, mouse, input.first, w, h) else rs;
      if p.random then Spawn(a, sparks, RandomTarget(input, w, h), input.second, w, h) else a
  }

  /** With room for every shot, each shot of the plan adds its rocket; the
      rockets and sparks already at their caps block every shot. */
  lemma ShotsRoom(rs: seq<Rocket>, sparks: nat, queue: seq<Point>, p: Plan, mouse: Point,
                  input: FrameInput, w: real, h: real)
    requires FairFrame(input) && (p.click ==> |queue| > 0)
    ensures |rs| + 1 <= MaxRockets && sparks <= MaxParticles ==>
              |Shots(rs, sparks, queue, p, mouse, input, w, h)|
                == |rs| + (if p.click then 1 else 0) + (if !p.click && p.move then 1 else 0)
                        + (if !p.click && p.random then 1 else 0)
    ensures |rs| > MaxRockets || sparks > MaxParticles ==> Shots(rs, sparks, queue, p, mouse, input, w, h) == rs
  {
  }

  /** The part of the effect's state one frame changes. */
  datatype Sky = Sky(rockets: seq<Rocket>, particles: seq<Spark>, clickQueue: seq<Point>,
                     lastMoveShot: real, lastRandomShot: real)

  /** One `animate(now)` frame: `control(now)`, then the rocket pass, whose
      bursts join the sparks, then the spark pass. */
  function Frame(s: Sky, input: FrameInput, lastClickTime: real, lastMoveTime: real, mouse: Point,
                 w: real, h: real): (r: Sky)
    requires FairFrame(input)
    ensures forall x :: x in r.rockets ==> !x.exploded
    ensures forall x :: x in r.particles ==> x.alpha > 0.0
    ensures |s.rockets| <= MaxRockets + 1 ==> |r.rockets| <= MaxRockets + 1
    ensures r.clickQueue == (if |s.clickQueue| > 0 then s.clickQueue[1..] else s.clickQueue)
    ensures |s.clickQueue| > 0 ==> r.lastMoveShot == s.lastMoveShot && r.lastRandomShot == s.lastRandomShot
    ensures r.lastMoveShot in {s.lastMoveShot, input.now} && r.lastRandomShot in {s.lastRandomShot, input.now}
  {
    var p := PlanShots(|s.clickQueue| > 0, input.now, lastClickTime, lastMoveTime, s.lastMoveShot, s.lastRandomShot);
    var fired := Shots(s.rockets, |s.particles|, s.clickQueue, p, mouse, input, w, h);
    var ps := s.particles + DebrisFrom(fired, 0, input.burstKicks, input.burstDraws);
    Sky(FlyingFrom(fired, 0), SurvivorsFrom(ps, 0, input.splitKicks) + SpawnedFrom(ps, 0, input.splitKicks),
        if p.click then s.clickQueue[1..] else s.clickQueue,
        if p.move then input.now else s.lastMoveShot,
        if p.random then input.now else s.lastRandomShot)
  }

  /** One step of the spark pass, from index `i + 1` down to `i`. */
  lemma SparkPassStep(ps: seq<Spark>, i: nat, kicks: Kicks, cur: seq<Spark>)
    requires i < |ps| && cur == ps[..i + 1] + SurvivorsFrom(ps, i + 1, kicks) + SpawnedFrom(ps, i + 1, kicks)
    ensures i < |cur| && cur[i] == ps[i]
    ensures var step := SparkStep(ps[i], kicks, i);
            var pushed := cur[..i] + [step.0] + cur[i + 1..] + step.1;
            (if step.0.alpha <= 0.0 then pushed[..i] + pushed[i + 1..] else pushed)
              == ps[..i] + SurvivorsFrom(ps, i, kicks) + SpawnedFrom(ps, i, kicks)
  {
    var survivors := SurvivorsFrom(ps, i + 1, kicks);
    var spawned := SpawnedFrom(ps, i + 1, kicks);
    assert cur == ps[..i] + [ps[i]] + (survivors + spawned) by {
      assert ps[..i + 1] == ps[..i] + [ps[i]];
    }
    var step := SparkStep(ps[i], kicks, i);
    var keep := step.0.alpha > 0.0;
    assert SurvivorsFrom(ps, i, kicks) == (if keep then [step.0] else []) + survivors;
    assert SpawnedFrom(ps, i, kicks) == spawned + step.1;
    UpdatePushSplice(ps[..i], ps[i], survivors + spawned, step.0, step.1, keep);
    assert |ps[..i]| == i;
    var pushed := cur[..i] + [step.0] + cur[i + 1..] + step.1;
    var res := if keep then pushed else pushed[..i] + pushed[i + 1..];
    assert res == ps[..i] + ((if keep then [step.0] else []) + (survivors + spawned)) + step.1;
    Regroup(ps[..i], if keep then [step.0] else [], survivors, spawned, step.1);
  }

  // -------------------------------------------------------------- effect

  class FireworksEffect {
    var sched: Scheduler
    var animationId: Option<nat>
    var hasCtx: bool
    var listeners: set<Listener>
    var w: real
    var h: real
    var rockets: seq<Rocket>
    var particles: seq<Spark>
    var clickQueue: seq<Point>
    var lastClickTime: real
    var lastMoveShot: real
    var lastRandomShot: real
    var lastMoveTime: real
    var mouseX: real
    var mouseY: real

    /** The frame queue holds exactly the callback `animationId` names; at
        most 81 rockets exist, and none of them has exploded. */
    ghost predicate Valid()
      reads this
    {
      Fresh(sched) &&
      sched.pending == (if animationId.Some? then {animationId.value} else {}) &&
      |rockets| <= MaxRockets + 1 &&
      forall r :: r in rockets ==> !r.exploded
    }

    /** The fields one frame changes. */
    function Snapshot(): Sky
      reads this
    {
      Sky(rockets, particles, clickQueue, lastMoveShot, lastRandomShot)
    }

    /** The object literal's initial fields. */
    constructor ()
      ensures Valid() && animationId == None && sched.pending == {}
      ensures !hasCtx && listeners == {} && rockets == [] && particles == [] && clickQueue == []
      ensures lastClickTime == 0.0 && lastMoveShot == 0.0 && lastRandomShot == 0.0 && lastMoveTime == 0.0
    {
      sched := Idle;
      animationId := None;
      hasCtx := false;
      listeners := {};
      w, h := 0.0, 0.0;
      rockets, particles, clickQueue := [], [], [];
      lastClickTime, lastMoveShot, lastRandomShot, lastMoveTime := 0.0, 0.0, 0.0, 0.0;
      mouseX, mouseY := 0.0, 0.0;
    }

    /** `start()`: nothing while a frame is scheduled or without a canvas;
        otherwise attach the three listeners, size to the viewport and run
        the first frame, with `now = 0`. */
    method Start(hasCanvas: bool, width: real, height: real, input: FrameInput)
      requires Valid() && FairFrame(input)
      modifies this`hasCtx, this`listeners, this`w, this`h, this`mouseX, this`mouseY,
               this`sched, this`animationId, this`rockets, this`particles, this`clickQueue,
               this`lastMoveShot, this`lastRandomShot
      ensures Valid()
      ensures old(animationId).Some? || !hasCanvas ==>
                animationId == old(animationId) && sched == old(sched) && listeners == old(listeners) &&
                rockets == old(rockets) && particles == old(particles) && clickQueue == old(clickQueue) &&
                hasCtx == old(hasCtx)
      ensures old(animationId).Some? || !hasCanvas ==> unchanged(this)
      ensures old(animationId).None? && hasCanvas ==>
                hasCtx && listeners == {Resize, MouseMove, Click} && animationId.Some? &&
                sched.pending == {animationId.value} && w == width && h == height &&
                Snapshot() == Frame(old(Snapshot()), input.(now := 0.0), lastClickTime, lastMoveTime,
                                    Point(width / 2.0, height / 2.0), width, height)
    {
      if animationId.Some? {
        return;
      }
      if !hasCanvas {
        return;
      }
      hasCtx := true;
      listeners := {Resize, MouseMove, Click};
      Open(width, height, input.(now := 0.0));
    }

    /** The sizing and first frame of `start()`. */
    method Open(width: real, height: real, input: FrameInput)
      requires Valid() && FairFrame(input) && animationId == None
      modifies this`w, this`h, this`mouseX, this`mouseY, this`sched, this`animationId,
               this`rockets, this`particles, this`clickQueue, this`lastMoveShot, this`lastRandomShot
      ensures Valid() && animationId.Some? && sched.pending == {animationId.value}
      ensures w == width && h == height
      ensures Snapshot() == Frame(old(Snapshot()), input, lastClickTime, lastMoveTime,
                                  Point(width / 2.0, height / 2.0), width, height)
    {
      OnResize(width, height);
      Animate(input);
    }

    /** `stop()`: cancel the frame, detach and forget the listeners, then
        clear the surface and empty the three collections. The surface is
        reached through `ctx` unguarded, so without one this throws before
        the collections are emptied. */
    method Stop() returns (threw: bool)
      requires Valid()
      modifies this`sched, this`animationId, this`listeners, this`rockets, this`particles, this`clickQueue
      ensures Valid() && animationId == None && sched.pending == {} && listeners == {}
      ensures threw <==> !hasCtx
      ensures hasCtx == old(hasCtx)
      ensures !threw ==> rockets == [] && particles == [] && clickQueue == []
      ensures threw ==> rockets == old(rockets) && particles == old(particles) && clickQueue == old(clickQueue)
    {
      if animationId.Some? {
        sched := Drop(sched, animationId.value);
        animationId := None;
      }
      listeners := {};
      if !hasCtx {
        return true;
      }
      rockets := [];
      particles := [];
      clickQueue := [];
      threw := false;
    }

    /** `resize()`: the viewport size, and the mouse reset to its centre. */
    method OnResize(width: real, height: real)
      modifies this`w, this`h, this`mouseX, this`mouseY
      ensures w == width && h == height && mouseX == width / 2.0 && mouseY == height / 2.0
    {
      w, h := width, height;
      mouseX, mouseY := w / 2.0, h / 2.0;
    }

    /** `onMove(e)`. */
    method OnMove(x: real, y: real, now: real)
      modifies this`mouseX, this`mouseY, this`lastMoveTime
      ensures mouseX == x && mouseY == y && lastMoveTime == now
    {
      mouseX, mouseY := x, y;
      lastMoveTime := now;
    }

    /** `onClick(e)`: queue the click point. */
    method OnClick(x: real, y: real, now: real)
      modifies this`clickQueue, this`lastClickTime
      ensures clickQueue == old(clickQueue) + [Point(x, y)] && lastClickTime == now
    {
      clickQueue := clickQueue + [Point(x, y)];
      lastClickTime := now;
    }

    /** `spawnRocket(x, y)`: dropped when there are already more than 80
        rockets or more than 2000 sparks. */
    method SpawnRocket(target: Point, l: Launch) returns (spawned: bool)
      requires Valid() && FairLaunch(l)
      modifies this`rockets
      ensures Valid()
      ensures spawned <==> |old(rockets)| <= MaxRockets && |particles| <= MaxParticles
      ensures spawned ==> rockets == old(rockets) + [CreateRocket(RandomIndex(l.kindDraw, Kinds), target, l, w, h)]
      ensures !spawned ==> rockets == old(rockets)
      ensures rockets == Spawn(old(rockets), |particles|, target, l, w, h)
    {
      if |rockets| > MaxRockets {
        return false;
      }
      if |particles| > MaxParticles {
        return false;
      }
      rockets := rockets + [CreateRocket(RandomIndex(l.kindDraw, Kinds), target, l, w, h)];
      spawned := true;
    }

    /** `control(now)`. The shot timestamps move on whether or not the spawn
        itself was dropped. */
    method Control(input: FrameInput)
      requires Valid() && FairFrame(input)
      modifies this`rockets, this`clickQueue, this`lastMoveShot, this`lastRandomShot
      ensures Valid()
      ensures var p := PlanShots(|old(clickQueue)| > 0, input.now, lastClickTime, lastMoveTime,
                                 old(lastMoveShot), old(lastRandomShot));
              && clickQueue == (if p.click then old(clickQueue)[1..] else old(clickQueue))
              && lastMoveShot == (if p.move then input.now else old(lastMoveShot))
              && lastRandomShot == (if p.random then input.now else old(lastRandomShot))
              && rockets == Shots(old(rockets), |particles|, old(clickQueue), p, Point(mouseX, mouseY), input, w, h)
    {
      var plan := PlanShots(|clickQueue| > 0, input.now, lastClickTime, lastMoveTime, lastMoveShot, lastRandomShot);
      if plan.click {
        var p := clickQueue[0];
        clickQueue := clickQueue[1..];
        var _ := SpawnRocket(p, input.first);
        return;
      }
      var mouse := Point(mouseX, mouseY);
      if plan.move {
        var _ := SpawnRocket(mouse, input.first);
        lastMoveShot := input.now;
      }
      if plan.random {
        var _ := SpawnRocket(RandomTarget(input, w, h), input.second);
        lastRandomShot := input.now;
      }
    }


    /** The rocket loop of `animate`: from the last rocket down, update it,
        burst it if it explodes now, and remove it if it has exploded. */
    method UpdateRockets(kicks: Kicks, draws: Rng)
      modifies this`rockets, this`particles
      ensures rockets == FlyingFrom(old(rockets), 0)
      ensures particles == old(particles) + DebrisFrom(old(rockets), 0, kicks, draws)
    {
      var flying, debris := RocketPass(rockets, kicks, draws);
      rockets := flying;
      particles := particles + debris;
    }

    /** The spark loop of `animate`: from the last spark down, update it
        (pushing any split sparks at the end, which this pass does not
        reach) and remove it once its alpha is <= 0. */
    method UpdateSparks(kicks: Kicks)
      modifies this`particles
      ensures particles == SurvivorsFrom(old(particles), 0, kicks) + SpawnedFrom(old(particles), 0, kicks)
    {
      ghost var ps := particles;
      var i := |particles|;
      while i > 0
        invariant 0 <= i <= |ps|
        invariant particles == ps[..i] + SurvivorsFrom(ps, i, kicks) + SpawnedFrom(ps, i, kicks)
      {
        i := i - 1;
        SparkPassStep(ps, i, kicks, particles);
        var step := SparkStep(particles[i], kicks, i);
        particles := particles[..i] + [step.0] + particles[i + 1..] + step.1;
        if step.0.alpha <= 0.0 {
          particles := particles[..i] + particles[i + 1..];
        }
      }
    }

    /** `animate(now)`: one frame, then ask for the next one. */
    method Animate(input: FrameInput)
      requires Valid() && FairFrame(input) && animationId == None
      modifies this`sched, this`animationId, this`rockets, this`particles, this`clickQueue,
               this`lastMoveShot, this`lastRandomShot
      ensures Valid() && animationId.Some?
      ensures sched.pending == {animationId.value} && animationId.value >= old(sched.next)
      ensures Snapshot() == Frame(old(Snapshot()), input, lastClickTime, lastMoveTime, Point(mouseX, mouseY), w, h)
    {
      Step(input);
      var (s, id) := Request(sched);
      sched, animationId := s, Some(id);
    }

    /** The body of `animate(now)`: control, the rocket pass, the spark pass. */
    method Step(input: FrameInput)
      requires Valid() && FairFrame(input)
      modifies this`rockets, this`particles, this`clickQueue, this`lastMoveShot, this`lastRandomShot
      ensures Valid()
      ensures Snapshot() == Frame(old(Snapshot()), input, lastClickTime, lastMoveTime, Point(mouseX, mouseY), w, h)
    {
      Control(input);
      UpdateRockets(input.burstKicks, input.burstDraws);
      UpdateSparks(input.splitKicks);
    }

    /** The frame callback `id` fires. */
    method OnFrame(id: nat, input: FrameInput)
      requires Valid() && FairFrame(input) && id in sched.pending
      modifies this`sched, this`animationId, this`rockets, this`particles, this`clickQueue,
               this`lastMoveShot, this`lastRandomShot
      ensures Valid() && animationId.Some? && animationId.value != id
      ensures sched.pending == {animationId.value}
      ensures Snapshot() == Frame(old(Snapshot()), input, lastClickTime, lastMoveTime, Point(mouseX, mouseY), w, h)
    {
      sched := Drop(sched, id);
      animationId := None;
      Animate(input);
    }
  }
}
