/** The peach-blossom effect of js/effects/peach.js: petals and whole
    five-petal blooms fall and sway; a tap on a bloom shatters it into
    single-petal pieces and raises the target density, which a feedback
    controller approaches through a ramped spawn rate and an accumulator
    and lets decay once taps stop. Colours are left out; the sway offsets
    (`Math.sin(p.angle)`) and the random angles come in from the host. */
module Peach {
  import opened Host

  datatype Kind = Fall | Burst
  datatype Petal = Petal(kind: Kind, x: real, y: real, depth: real, size: real, speedY: real,
                         swayAmp: real, swaySpeed: real, angle: real, rotation: real, rotationSpeed: real,
                         indices: seq<nat>)
  datatype Listener = Resize | PointerDown

  const MinCount := 40
  const MaxCount := 280
  const RampSpeed: real := 12.0
  const DecayDelay: real := 1500.0
  const DecaySpeed: real := 12.0
  const Bloom: seq<nat> := [0, 1, 2, 3, 4]

  /** `createFallPetal()` from the draws `g(i, _)`: 0 depth, 1 single or
      bloom, 2 which petal, 3 across, 4 sway speed, 5 and 6 the host's random
      angles, 7 spin. Four in five are single petals. */
  function CreateFallPetal(w: real, g: Rng, i: nat): (p: Petal)
    requires IsUnit(g(i, 2))
    ensures p.kind == Fall && p.y == -30.0
    ensures g(i, 1) < 0.8 ==> |p.indices| == 1 && p.indices[0] < 5
    ensures g(i, 1) >= 0.8 ==> p.indices == Bloom
    ensures IsUnit(g(i, 0)) && g(i, 1) < 0.8 ==> 5.0 <= p.size < 11.0
    ensures IsUnit(g(i, 0)) && g(i, 1) >= 0.8 ==> 8.0 <= p.size < 16.0
  {
    var depth := g(i, 0);
    var single := g(i, 1) < 0.8;
    Petal(Fall, g(i, 3) * w, -30.0, depth,
          if single then 5.0 + depth * 6.0 else 8.0 + depth * 8.0,
          0.6 + depth * 1.2, 0.5 + depth * 1.4, 0.01 + g(i, 4) * 0.02, g(i, 5), g(i, 6),
          (g(i, 7) - 0.5) * 0.02,
          if single then [RandomIndex(g(i, 2), 5)] else Bloom)
  }

  /** `createBurstPiece(parent)` from the draws `g(j, _)`: one petal, at the
      parent's place, 0.55 of its size. */
  function CreateBurstPiece(parent: Petal, g: Rng, j: nat): (p: Petal)
    requires IsUnit(g(j, 1))
    ensures p.kind == Burst && |p.indices| == 1 && p.indices[0] < 5
    ensures p.size == parent.size * 0.55 && p.x == parent.x && p.y == parent.y
  {
    var depth := g(j, 0);
    Petal(Burst, parent.x, parent.y, depth, parent.size * 0.55, 1.0 + depth * 1.6, 1.0 + depth * 2.0,
          0.02 + g(j, 2) * 0.03, g(j, 3), g(j, 4), (g(j, 5) - 0.5) * 0.04, [RandomIndex(g(j, 1), 5)])
  }

  /** A shattered bloom's first `n` pieces. */
  function Pieces(parent: Petal, g: Rng, n: nat): (r: seq<Petal>)
    requires forall j: nat :: j < n ==> IsUnit(g(j, 1))
    ensures |r| == n
  {
    if n == 0 then [] else Pieces(parent, g, n - 1) + [CreateBurstPiece(parent, g, n - 1)]
  }

  /** Every piece is a single burst petal at the parent's place, 0.55 of
      its size. */
  lemma {:induction false} PiecesShape(parent: Petal, g: Rng, n: nat)
    requires forall j: nat :: j < n ==> IsUnit(g(j, 1))
    ensures forall q :: q in Pieces(parent, g, n) ==>
              q.kind == Burst && |q.indices| == 1 && q.indices[0] < 5 &&
              q.size == parent.size * 0.55 && q.x == parent.x && q.y == parent.y
  {
    if n > 0 {
      PiecesShape(parent, g, n - 1);
    }
  }

  /** `4 + Math.floor(Math.random() * 5)` pieces: four to eight. */
  function PieceCount(r: real): (n: nat)
    requires IsUnit(r)
    ensures 4 <= n <= 8
  {
    4 + RandomIndex(r, 5)
  }

  /** New falling petals `0 .. n-1` from the draws `g`. */
  function NewFalls(w: real, g: Rng, n: nat): (r: seq<Petal>)
    requires forall j: nat :: j < n ==> IsUnit(g(j, 2))
    ensures |r| == n
  {
    if n == 0 then [] else NewFalls(w, g, n - 1) + [CreateFallPetal(w, g, n - 1)]
  }

  /** Spawned petals all fall from above the top. */
  lemma {:induction false} NewFallsFall(w: real, g: Rng, n: nat)
    requires forall j: nat :: j < n ==> IsUnit(g(j, 2))
    ensures forall q :: q in NewFalls(w, g, n) ==> q.kind == Fall && q.y == -30.0
  {
    if n > 0 {
      NewFallsFall(w, g, n - 1);
    }
  }

  // ----------------------------------------------------------- tapping

  /** A tap at (mx, my) lands on `p` when `p` is a falling whole bloom and
      the tap is within 1.4 times its size. */
  predicate Hittable(p: Petal, mx: real, my: real) {
    p.kind == Fall && |p.indices| == 5 &&
    (p.x - mx) * (p.x - mx) + (p.y - my) * (p.y - my) < (p.size * 1.4) * (p.size * 1.4)
  }

  /** The bloom a tap shatters among `ps[..i]`: the one with the highest
      index, as the backward loop meets it first. */
  function HitIndex(ps: seq<Petal>, mx: real, my: real, i: nat): (k: Option<nat>)
    requires i <= |ps|
    ensures k.Some? ==> k.value < i && Hittable(ps[k.value], mx, my)
    ensures k.Some? ==> forall j :: k.value < j < i ==> !Hittable(ps[j], mx, my)
    ensures k.None? ==> forall j :: 0 <= j < i ==> !Hittable(ps[j], mx, my)
  {
    if i == 0 then None
    else if Hittable(ps[i - 1], mx, my) then Some(i - 1)
    else HitIndex(ps, mx, my, i - 1)
  }

  /** The number of falling petals, `petals.filter(p => p.type === "fall").length`. */
  function FallCount(ps: seq<Petal>): (n: nat)
    ensures n <= |ps|
  {
    if ps == [] then 0 else (if ps[0].kind == Fall then 1 else 0) + FallCount(ps[1..])
  }

  // ----------------------------------------------------------- density

  /** The target after idling `idle` ms: it decays by 12 per second, never
      below 40, once no tap came for 1.5 s. */
  function DecayTarget(target: real, idle: real, dt: real): (t: real)
    ensures idle <= DecayDelay ==> t == target
    ensures MinCount as real <= target <= MaxCount as real && dt >= 0.0 ==> MinCount as real <= t <= target
  {
    if idle > DecayDelay then Max(MinCount as real, target - DecaySpeed * dt) else target
  }

  /** The spawn rate after a frame of `dt` seconds with `diff` petals
      missing: ramped by 12 per second and capped at 0.8 of the gap, or 0
      when nothing is missing. */
  function NextSpawnRate(rate: real, diff: real, dt: real): (r: real)
    ensures diff <= 0.0 ==> r == 0.0
    ensures diff > 0.0 ==> r <= diff * 0.8 && r <= rate + RampSpeed * dt
    ensures rate >= 0.0 && dt >= 0.0 ==> r >= 0.0
  {
    if diff > 0.0 then Min(rate + RampSpeed * dt, diff * 0.8) else 0.0
  }

  /** The intro ramp: from 0 to 1 over the first three seconds. */
  function Intro(elapsedMs: real): (f: real)
    ensures elapsedMs >= 0.0 ==> 0.0 <= f <= 1.0
    ensures elapsedMs >= 3000.0 ==> f == 1.0
  {
    Min(elapsedMs / 1000.0 / 3.0, 1.0)
  }

  /** The accumulator after a frame: what it held plus `rate * dt * intro`
      petals' worth, never negative. */
  function Accrued(acc: real, rate: real, dt: real, intro: real): (r: real)
    ensures acc >= 0.0 && rate >= 0.0 && dt >= 0.0 && 0.0 <= intro ==> r >= acc
  {
    assert acc >= 0.0 && rate >= 0.0 && dt >= 0.0 && 0.0 <= intro ==> rate * dt * intro >= 0.0 by {
      if rate >= 0.0 && dt >= 0.0 && 0.0 <= intro {
        assert rate * dt >= 0.0;
      }
    }
    acc + rate * dt * intro
  }

  // ----------------------------------------------------------- falling

  /** A petal's move in `animate`, `sway` being the host's `Math.sin(p.angle)`. */
  function MovePetal(p: Petal, sway: real): (q: Petal)
    ensures q.y == p.y + p.speedY && q.kind == p.kind && q.indices == p.indices && q.size == p.size
  {
    p.(y := p.y + p.speedY, x := p.x + sway * p.swayAmp, angle := p.angle + p.swaySpeed,
       rotation := p.rotation + p.rotationSpeed)
  }

  /** The petals the backward pass over `ps[lo..]` leaves: each moved, those
      below `h + 40` dropped, order kept; `sway(i)` is petal `i`'s offset. */
  function Remaining(ps: seq<Petal>, lo: nat, sway: nat -> real, h: real): (r: seq<Petal>)
    requires lo <= |ps|
    ensures |r| <= |ps| - lo
    ensures forall q :: q in r ==> q.y <= h + 40.0
    decreases |ps| - lo
  {
    if lo == |ps| then []
    else
      var q := MovePetal(ps[lo], sway(lo));
      (if q.y > h + 40.0 then [] else [q]) + Remaining(ps, lo + 1, sway, h)
  }

  /** One step of that pass, from index `i + 1` down to `i`. */
  lemma RemainingStep(ps: seq<Petal>, i: nat, sway: nat -> real, h: real, cur: seq<Petal>)
    requires i < |ps| && cur == ps[..i + 1] + Remaining(ps, i + 1, sway, h)
    ensures i < |cur| && cur[i] == ps[i]
    ensures var q := MovePetal(ps[i], sway(i));
            var moved := cur[..i] + [q] + cur[i + 1..];
            (if q.y > h + 40.0 then moved[..i] + moved[i + 1..] else moved)
              == ps[..i] + Remaining(ps, i, sway, h)
  {
    var pre := ps[..i];
    var tail := Remaining(ps, i + 1, sway, h);
    assert cur == pre + [ps[i]] + tail by {
      assert ps[..i + 1] == pre + [ps[i]];
    }
    Splice(pre, ps[i], tail);
    var q := MovePetal(ps[i], sway(i));
    var moved := pre + [q] + tail;
    Splice(pre, q, tail);
    assert |pre| == i;
    if q.y > h + 40.0 {
      assert moved[..i] + moved[i + 1..] == pre + tail;
      assert Remaining(ps, i, sway, h) == [] + tail;
    } else {
      assert Remaining(ps, i, sway, h) == [q] + tail;
      assert moved == pre + ([q] + tail);
    }
  }

  // ------------------------------------------------------------ effect

  /** What a tap takes from the host: the piece-count draw and the draws of
      the pieces, the bloom's replacement and the extra petal. */
  datatype Tap = Tap(count: real, pieces: Rng, bloom: Rng, extra: Rng)

  ghost predicate FairTap(t: Tap) {
    IsUnit(t.count) && Fair(t.pieces) && Fair(t.bloom) && Fair(t.extra)
  }

  /** What a frame takes from the host: the clock, the draws of new petals,
      and each petal's sway offset. */
  datatype PeachFrame = PeachFrame(now: real, spawn: Rng, sway: nat -> real)

  /** What `animate()` carries from one frame to the next: the petals, the
      target, the spawn rate, the accumulator and the last frame time. */
  datatype Density = Density(petals: seq<Petal>, target: real, rate: real, acc: real, last: real)

  /** One `animate()` body at clock `fr.now`, for an effect started at
      `start` and last tapped at `tapped` on a `w` by `h` canvas: the
      density controller over the elapsed `dt`, one new falling petal per
      whole unit owed, then the backward petal pass. */
  function FrameStep(d: Density, start: real, tapped: real, w: real, h: real, fr: PeachFrame): (r: Density)
    requires Fair(fr.spawn) && d.rate >= 0.0 && d.acc >= 0.0 && d.last <= fr.now && start <= fr.now
    ensures r.last == fr.now
    ensures MinCount as real <= d.target <= MaxCount as real ==> MinCount as real <= r.target <= d.target
    ensures fr.now - tapped <= DecayDelay ==> r.target == d.target
    ensures r.target <= FallCount(d.petals) as real ==> r.rate == 0.0
    ensures r.rate >= 0.0 && 0.0 <= r.acc < 1.0
    ensures forall q :: q in r.petals ==> q.y <= h + 40.0
  {
    var dt := (fr.now - d.last) / 1000.0;
    var target := DecayTarget(d.target, fr.now - tapped, dt);
    var rate := NextSpawnRate(d.rate, target - FallCount(d.petals) as real, dt);
    var owed := Accrued(d.acc, rate, dt, Intro(fr.now - start));
    var n := FloorNat(owed);
    Density(Remaining(d.petals + NewFalls(w, fr.spawn, n), 0, fr.sway, h), target, rate, owed - n as real, fr.now)
  }

  /** `FrameStep` from the pieces `regulateDensity` computes. */
  lemma FrameStepFrom(d: Density, start: real, tapped: real, w: real, h: real, fr: PeachFrame,
                      dt: real, owed: real, m: Density)
    requires Fair(fr.spawn) && d.rate >= 0.0 && d.acc >= 0.0 && d.last <= fr.now && start <= fr.now
    requires dt == (fr.now - d.last) / 1000.0
    requires m.target == DecayTarget(d.target, fr.now - tapped, dt)
    requires m.rate == NextSpawnRate(d.rate, m.target - FallCount(d.petals) as real, dt)
    requires owed == Accrued(d.acc, m.rate, dt, Intro(fr.now - start)) && owed >= 0.0
    requires m.acc == owed - FloorNat(owed) as real && m.last == fr.now
    requires m.petals == d.petals + NewFalls(w, fr.spawn, FloorNat(owed))
    ensures FrameStep(d, start, tapped, w, h, fr) == m.(petals := Remaining(m.petals, 0, fr.sway, h))
  {
  }

  /** The first frame after `start()` (no time elapsed, nothing owed)
      leaves the reset state as it found it: no petals, the target at 40,
      no spawn rate and an empty accumulator. */
  lemma FirstFrameKeepsReset(tapped: real, w: real, h: real, fr: PeachFrame)
    requires Fair(fr.spawn)
    ensures var reset := Density([], MinCount as real, 0.0, 0.0, fr.now);
            FrameStep(reset, fr.now, tapped, w, h, fr) == reset
  {
    assert FloorNat(0.0) == 0;
    assert NewFalls(w, fr.spawn, 0) == [];
  }

  class PeachEffect {
    var sched: Scheduler
    var animationId: Option<nat>
    var hasCtx: bool
    var listeners: set<Listener>
    var w: real
    var h: real
    var petals: seq<Petal>
    var targetCount: real
    var spawnRate: real
    var spawnAccumulator: real
    var lastFrameTime: real
    var lastInteraction: real
    var startTime: real

    /** The controller's state stays in range: the target between 40 and
        280, a non-negative spawn rate, and less than one petal owed. */
    ghost predicate Valid()
      reads this
    {
      Fresh(sched) &&
      sched.pending == (if animationId.Some? then {animationId.value} else {}) &&
      MinCount as real <= targetCount <= MaxCount as real &&
      spawnRate >= 0.0 && 0.0 <= spawnAccumulator < 1.0 &&
      startTime <= lastFrameTime
    }

    /** The state `animate()` carries between frames. */
    function Snapshot(): (d: Density)
      reads this
      ensures d.petals == petals && d.target == targetCount && d.last == lastFrameTime
    {
      Density(petals, targetCount, spawnRate, spawnAccumulator, lastFrameTime)
    }

    constructor ()
      ensures Valid() && animationId == None && petals == [] && listeners == {}
      ensures targetCount == MinCount as real && spawnRate == 0.0 && spawnAccumulator == 0.0
    {
      sched := Idle;
      animationId := None;
      hasCtx := false;
      listeners := {};
      w, h := 0.0, 0.0;
      petals := [];
      targetCount := MinCount as real;
      spawnRate, spawnAccumulator := 0.0, 0.0;
      lastFrameTime, lastInteraction, startTime := 0.0, 0.0, 0.0;
    }

    /** `start()`: nothing while a frame is scheduled or without a canvas;
        otherwise attach the listeners, reset the petals and the controller,
        and run the first frame. */
    method Start(hasCanvas: bool, width: real, height: real, fr: PeachFrame)
      requires Valid() && Fair(fr.spawn)
      modifies this
      ensures Valid()
      ensures old(animationId).Some? || !hasCanvas ==>
                animationId == old(animationId) && sched == old(sched) && petals == old(petals) &&
                targetCount == old(targetCount) && listeners == old(listeners)
      ensures old(animationId).Some? || !hasCanvas ==> unchanged(this)
      ensures old(animationId).None? && hasCanvas ==>
                animationId.Some? && listeners == {Resize, PointerDown} && startTime == fr.now &&
                w == width && h == height && Snapshot() == Density([], MinCount as real, 0.0, 0.0, fr.now)
    {
      if animationId.Some? {
        return;
      }
      if !hasCanvas {
        return;
      }
      hasCtx := true;
      listeners := {Resize, PointerDown};
      w, h := width, height;
      startTime := fr.now;
      Launch(fr);
    }

    /** The rest of `start()`: reset the petals and the density controller,
        then run the first frame, which finds no time elapsed. */
    method Launch(fr: PeachFrame)
      requires Fresh(sched) && animationId == None && sched.pending == {} && startTime == fr.now && Fair(fr.spawn)
      modifies this`petals, this`spawnRate, this`spawnAccumulator, this`targetCount, this`lastFrameTime,
               this`sched, this`animationId
      ensures Valid() && animationId.Some? && sched.pending == {animationId.value}
      ensures Snapshot() == Density([], MinCount as real, 0.0, 0.0, fr.now)
    {
      petals := [];
      spawnRate := 0.0;
      spawnAccumulator := 0.0;
      targetCount := MinCount as real;
      lastFrameTime := fr.now;
      FirstFrameKeepsReset(lastInteraction, w, h, fr);
      Animate(fr);
    }

    /** `stop()`: cancel the frame, detach the listeners, empty the petals. */
    method Stop()
      requires Valid()
      modifies this`sched, this`listeners, this`petals, this`animationId
      ensures Valid() && animationId == None && sched.pending == {} && listeners == {} && petals == []
      ensures targetCount == old(targetCount) && spawnRate == old(spawnRate)
    {
      if animationId.Some? {
        sched := Drop(sched, animationId.value);
      }
      listeners := {};
      petals := [];
      animationId := None;
    }

    /** `resize()`, bound to the window's `resize` event: the size becomes
        the window's. */
    method OnResize(width: real, height: real)
      modifies this`w, this`h
      ensures w == width && h == height
    { w, h := width, height; }

    /** `handleClick(e)` at canvas point (mx, my): from the last petal down,
        the first falling bloom under the tap shatters into 4 to 8 pieces,
        is replaced in place by a new falling petal, and raises the target by
        40 (at most 280); after a hit one more petal falls if there are
        fewer than 280. At most one bloom shatters per tap. */
    method HandleClick(mx: real, my: real, now: real, t: Tap)
      requires Valid() && FairTap(t)
      modifies this`petals, this`targetCount, this`lastInteraction
      ensures Valid()
      ensures HitIndex(old(petals), mx, my, |old(petals)|).None? ==>
                petals == old(petals) && targetCount == old(targetCount) && lastInteraction == old(lastInteraction)
      ensures HitIndex(old(petals), mx, my, |old(petals)|).Some? ==>
                var k := HitIndex(old(petals), mx, my, |old(petals)|).value;
                var shattered := old(petals)[k := CreateFallPetal(w, t.bloom, 0)]
                                 + Pieces(old(petals)[k], t.pieces, PieceCount(t.count));
                petals == shattered + (if |shattered| < MaxCount then [CreateFallPetal(w, t.extra, 0)] else []) &&
                targetCount == Min(old(targetCount) + 40.0, MaxCount as real) && lastInteraction == now
    {
      var k := FindHit(mx, my);
      if k.Some? {
        Shatter(k.value, now, t);
        if |petals| < MaxCount {
          petals := petals + [CreateFallPetal(w, t.extra, 0)];
        }
      }
    }

    /** The search of `handleClick`: from the last petal down, skipping all
        but falling blooms, to the first one under the tap. */
    method FindHit(mx: real, my: real) returns (k: Option<nat>)
      ensures k == HitIndex(petals, mx, my, |petals|)
    {
      var i := |petals|;
      while i > 0
        invariant 0 <= i <= |petals|
        invariant HitIndex(petals, mx, my, |petals|) == HitIndex(petals, mx, my, i)
      {
        i := i - 1;
        var p := petals[i];
        if p.kind != Fall || |p.indices| != 5 {
          continue;
        }
        if (p.x - mx) * (p.x - mx) + (p.y - my) * (p.y - my) < (p.size * 1.4) * (p.size * 1.4) {
          return Some(i);
        }
      }
      return None;
    }

    /** The `for` loop of `handleClick` that pushes the `n` pieces of the
        tapped bloom `p`. */
    method PushPieces(p: Petal, g: Rng, n: nat)
      requires Fair(g)
      modifies this`petals
      ensures petals == old(petals) + Pieces(p, g, n)
    {
      var j := 0;
      while j < n
        invariant 0 <= j <= n && petals == old(petals) + Pieces(p, g, j)
      {
        petals := petals + [CreateBurstPiece(p, g, j)];
        j := j + 1;
      }
    }

    /** A hit on petal `k`: push its pieces, replace it in place by a new
        falling petal (`Object.assign`), raise the target, note the time. */
    method Shatter(k: nat, now: real, t: Tap)
      requires Valid() && FairTap(t) && k < |petals|
      modifies this`petals, this`targetCount, this`lastInteraction
      ensures Valid()
      ensures petals == old(petals)[k := CreateFallPetal(w, t.bloom, 0)]
                        + Pieces(old(petals)[k], t.pieces, PieceCount(t.count))
      ensures targetCount == Min(old(targetCount) + 40.0, MaxCount as real) && lastInteraction == now
    {
      var p := petals[k];
      PushPieces(p, t.pieces, PieceCount(t.count));
      UpdateBeforeAppend(old(petals), Pieces(p, t.pieces, PieceCount(t.count)), k, CreateFallPetal(w, t.bloom, 0));
      petals := petals[k := CreateFallPetal(w, t.bloom, 0)];
      targetCount := Min(targetCount + 40.0, MaxCount as real);
      lastInteraction := now;
    }

    /** `regulateDensity(dt)` at clock `now`: decay the target when idle,
        ramp the spawn rate towards the gap, add to the accumulator, and
        push one petal per whole unit owed. */
    method RegulateDensity(dt: real, now: real, spawn: Rng)
      requires Valid() && dt >= 0.0 && now >= startTime && Fair(spawn)
      modifies this`petals, this`targetCount, this`spawnRate, this`spawnAccumulator
      ensures Valid()
      ensures targetCount == DecayTarget(old(targetCount), now - lastInteraction, dt)
      ensures spawnRate == NextSpawnRate(old(spawnRate), targetCount - FallCount(old(petals)) as real, dt)
      ensures var owed := Accrued(old(spawnAccumulator), spawnRate, dt, Intro(now - startTime));
              owed >= 0.0 &&
              petals == old(petals) + NewFalls(w, spawn, FloorNat(owed)) &&
              spawnAccumulator == owed - FloorNat(owed) as real
    {
      Steer(dt, now);
      SpawnOwed(spawn);
    }

    /** The density controller's arithmetic: decay the target, ramp the
        spawn rate towards the number of missing falling petals, and accrue
        what is owed. */
    method Steer(dt: real, now: real)
      requires Valid() && dt >= 0.0 && now >= startTime
      modifies this`targetCount, this`spawnRate, this`spawnAccumulator
      ensures targetCount == DecayTarget(old(targetCount), now - lastInteraction, dt)
      ensures spawnRate == NextSpawnRate(old(spawnRate), targetCount - FallCount(petals) as real, dt)
      ensures spawnAccumulator == Accrued(old(spawnAccumulator), spawnRate, dt, Intro(now - startTime))
      ensures MinCount as real <= targetCount <= MaxCount as real && spawnRate >= 0.0 && spawnAccumulator >= 0.0
    {
      targetCount := DecayTarget(targetCount, now - lastInteraction, dt);
      var falling := FallCount(petals);
      var diff := targetCount - falling as real;
      spawnRate := NextSpawnRate(spawnRate, diff, dt);
      spawnAccumulator := Accrued(spawnAccumulator, spawnRate, dt, Intro(now - startTime));
    }

    /** The accumulator loop of `regulateDensity`: one new falling petal per
        whole unit owed, leaving the fraction. */
    method SpawnOwed(spawn: Rng)
      requires spawnAccumulator >= 0.0 && Fair(spawn)
      modifies this`petals, this`spawnAccumulator
      ensures petals == old(petals) + NewFalls(w, spawn, FloorNat(old(spawnAccumulator)))
      ensures spawnAccumulator == old(spawnAccumulator) - FloorNat(old(spawnAccumulator)) as real
      ensures 0.0 <= spawnAccumulator < 1.0
    {
      ghost var owed := spawnAccumulator;
      var j: nat := 0;
      while spawnAccumulator >= 1.0
        invariant spawnAccumulator + j as real == owed && spawnAccumulator >= 0.0
        invariant j <= FloorNat(owed)
        invariant petals == old(petals) + NewFalls(w, spawn, j)
        decreases FloorNat(owed) - j
      {
        petals := petals + [CreateFallPetal(w, spawn, j)];
        spawnAccumulator := spawnAccumulator - 1.0;
        j := j + 1;
        assert NewFalls(w, spawn, j) == NewFalls(w, spawn, j - 1) + [CreateFallPetal(w, spawn, j - 1)];
      }
      assert j == FloorNat(owed);
    }

    /** The petal loop of `animate`: from the last petal down, move it and
        remove it once it is 40 px below the bottom edge; nothing is
        recycled. */
    method MovePetals(sway: nat -> real)
      modifies this`petals
      ensures petals == Remaining(old(petals), 0, sway, h)
    {
      ghost var ps := petals;
      var i := |petals|;
      while i > 0
        invariant 0 <= i <= |ps|
        invariant petals == ps[..i] + Remaining(ps, i, sway, h)
      {
        i := i - 1;
        RemainingStep(ps, i, sway, h, petals);
        var q := MovePetal(petals[i], sway(i));
        petals := petals[..i] + [q] + petals[i + 1..];
        if q.y > h + 40.0 {
          petals := petals[..i] + petals[i + 1..];
        }
      }
    }

    /** `animate()` at clock `now`: the frame time, the density controller,
        the petal pass, then the next frame. */
    method Animate(fr: PeachFrame)
      requires Valid() && Fair(fr.spawn) && fr.now >= lastFrameTime && animationId == None
      modifies this`lastFrameTime, this`petals, this`targetCount, this`spawnRate, this`spawnAccumulator,
               this`sched, this`animationId
      ensures Valid() && animationId.Some? && sched.pending == {animationId.value} && animationId.value >= old(sched.next)
      ensures Snapshot() == FrameStep(old(Snapshot()), startTime, lastInteraction, w, h, fr)
    {
      Advance(fr);
      var (s, id) := Request(sched);
      sched, animationId := s, Some(id);
    }

    /** The body of `animate()` before the next frame is requested: the
        clock, the density controller and the petals' moves. */
    method Advance(fr: PeachFrame)
      requires Valid() && Fair(fr.spawn) && fr.now >= lastFrameTime
      modifies this`lastFrameTime, this`petals, this`targetCount, this`spawnRate, this`spawnAccumulator
      ensures Valid()
      ensures Snapshot() == FrameStep(old(Snapshot()), startTime, lastInteraction, w, h, fr)
    {
      Regulate(fr);
      MovePetals(fr.sway);
    }

    /** The frame time and `regulateDensity(dt)`: everything `animate()`
        does before its petal loop. */
    method Regulate(fr: PeachFrame)
      requires Valid() && Fair(fr.spawn) && fr.now >= lastFrameTime
      modifies this`lastFrameTime, this`petals, this`targetCount, this`spawnRate, this`spawnAccumulator
      ensures Valid()
      ensures Snapshot().(petals := Remaining(petals, 0, fr.sway, h))
                == FrameStep(old(Snapshot()), startTime, lastInteraction, w, h, fr)
    {
      ghost var d := Snapshot();
      var dt := (fr.now - lastFrameTime) / 1000.0;
      lastFrameTime := fr.now;
      RegulateDensity(dt, fr.now, fr.spawn);
      FrameStepFrom(d, startTime, lastInteraction, w, h, fr, dt,
                    Accrued(d.acc, spawnRate, dt, Intro(fr.now - startTime)), Snapshot());
    }

    /** The frame callback `id` fires, with a clock that has not gone back. */
    method OnFrame(id: nat, fr: PeachFrame)
      requires Valid() && Fair(fr.spawn) && fr.now >= lastFrameTime && id in sched.pending
      modifies this`lastFrameTime, this`petals, this`targetCount, this`spawnRate, this`spawnAccumulator,
               this`sched, this`animationId
      ensures Valid() && animationId.Some? && animationId.value != id && sched.pending == {animationId.value}
      ensures Snapshot() == FrameStep(old(Snapshot()), startTime, lastInteraction, w, h, fr)
    {
      sched := Drop(sched, id);
      animationId := None;
      Animate(fr);
    }
  }
}
