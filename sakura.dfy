/** The cherry-blossom effect of js/effects/sakura.js: single petals and
    whole five-petal blooms fall and sway; one that falls 40 px past the
    bottom is replaced, in place, by a new one above the top, so the count
    never changes. `start` has no guard: a second call attaches a second
    resize listener and starts a second loop, and `stop` reaches only the
    latest of each. Colours are left out; the sway offsets
    (`Math.sin(p.angle)`) and the random angles come in from the host. */
module Sakura {
  import opened Host

  datatype Petal = Petal(x: real, y: real, depth: real, size: real, speedY: real,
                         swayAmp: real, swaySpeed: real, angle: real, rotation: real, rotationSpeed: real,
                         indices: seq<nat>)

  const Bloom: seq<nat> := [0, 1, 2, 3, 4]

  /** How many petals `initPetals` creates. */
  function InitialCount(innerWidth: real): (n: nat)
    ensures n == 25 <==> innerWidth < 600.0
    ensures n == 25 || n == 45
  {
    if innerWidth < 600.0 then 25 else 45
  }

  /** A petal's shape: one of the five petal slots at size 5 to 13, or the
      whole bloom at size 8 to 20; it always falls. */
  predicate Shaped(p: Petal) {
    p.speedY > 0.0 &&
    ((|p.indices| == 1 && p.indices[0] < 5 && 5.0 <= p.size < 13.0) ||
     (p.indices == Bloom && 8.0 <= p.size < 20.0))
  }

  /** `createPetal(initial)` from the draws `g(i, _)`: 0 depth, 1 single or
      bloom, 2 which petal, 3 across, 4 down (initial petals only), 5 sway
      speed, 6 and 7 the host's random angles, 8 spin. Five in six are
      single petals. */
  function CreatePetal(w: real, h: real, initial: bool, g: Rng, i: nat): (p: Petal)
    requires IsUnit(g(i, 2))
    ensures g(i, 1) < 0.83 ==> |p.indices| == 1 && p.indices[0] < 5
    ensures g(i, 1) >= 0.83 ==> p.indices == Bloom
    ensures IsUnit(g(i, 0)) ==> Shaped(p) && 0.5 <= p.speedY < 1.8
    ensures !initial ==> p.y == -30.0
    ensures initial && IsUnit(g(i, 4)) && h >= 0.0 ==> 0.0 <= p.y <= h
    ensures IsUnit(g(i, 8)) ==> if g(i, 1) < 0.83 then -0.01 <= p.rotationSpeed < 0.01 else -0.003 <= p.rotationSpeed < 0.003
  {
    var depth := g(i, 0);
    var single := g(i, 1) < 0.83;
    ScaleUnit(g(i, 4), h);
    Petal(g(i, 3) * w, if initial then g(i, 4) * h else -30.0, depth,
          if single then 5.0 + depth * 8.0 else 8.0 + depth * 12.0,
          0.5 + depth * 1.3, 0.4 + depth * 1.4, 0.01 + g(i, 5) * 0.02, g(i, 6), g(i, 7),
          if single then (g(i, 8) - 0.5) * 0.02 else (g(i, 8) - 0.5) * 0.006,
          if single then [RandomIndex(g(i, 2), 5)] else Bloom)
  }

  /** The first `n` petals `initPetals` creates. */
  function Created(w: real, h: real, g: Rng, n: nat): (r: seq<Petal>)
    requires Fair(g)
    ensures |r| == n
  {
    if n == 0 then [] else Created(w, h, g, n - 1) + [CreatePetal(w, h, true, g, n - 1)]
  }

  /** Every petal of a fresh set is shaped and on the canvas. */
  lemma {:induction false} CreatedOnCanvas(w: real, h: real, g: Rng, n: nat, k: nat)
    requires Fair(g) && k < n && h >= 0.0
    ensures Created(w, h, g, n)[k] == CreatePetal(w, h, true, g, k)
    ensures Shaped(Created(w, h, g, n)[k]) && 0.0 <= Created(w, h, g, n)[k].y <= h
  {
    if k < n - 1 {
      CreatedOnCanvas(w, h, g, n - 1, k);
    }
    assert IsUnit(g(k, 0)) && IsUnit(g(k, 4));
  }

  // ------------------------------------------------------------ motion

  /** Fall, sway by `sway` (the host's `Math.sin(p.angle)`), turn. */
  function MovePetal(p: Petal, sway: real): (q: Petal)
    ensures q.y == p.y + p.speedY && q.x == p.x + sway * p.swayAmp
    ensures q.angle == p.angle + p.swaySpeed && q.rotation == p.rotation + p.rotationSpeed
    ensures q.(x := p.x, y := p.y, angle := p.angle, rotation := p.rotation) == p
  {
    p.(y := p.y + p.speedY, x := p.x + sway * p.swayAmp, angle := p.angle + p.swaySpeed,
       rotation := p.rotation + p.rotationSpeed)
  }

  /** What `animate` makes of petal `k`: moved, or, once it is more than
      40 px below the bottom, overwritten by a new petal above the top. */
  function PetalStep(p: Petal, sway: real, w: real, h: real, g: Rng, k: nat): (q: Petal)
    requires Fair(g)
    ensures p.y + p.speedY <= h + 40.0 ==> q == MovePetal(p, sway)
    ensures p.y + p.speedY > h + 40.0 ==> q == CreatePetal(w, h, false, g, k) && q.y == -30.0
    ensures h >= -70.0 ==> q.y <= h + 40.0
    ensures Shaped(p) ==> Shaped(q)
  {
    assert IsUnit(g(k, 0)) && IsUnit(g(k, 2));
    var m := MovePetal(p, sway);
    if m.y > h + 40.0 then CreatePetal(w, h, false, g, k) else m
  }

  /** What a frame takes from the host: each petal's sway offset and the
      draws for the petals it replaces. */
  datatype Frame = Frame(sway: nat -> real, g: Rng)

  /** One frame's pass over all petals, in order. */
  function StepAll(ps: seq<Petal>, w: real, h: real, fr: Frame): (r: seq<Petal>)
    requires Fair(fr.g)
    ensures |r| == |ps|
    decreases |ps|
  {
    if |ps| == 0 then []
    else StepAll(ps[..|ps| - 1], w, h, fr) + [PetalStep(ps[|ps| - 1], fr.sway(|ps| - 1), w, h, fr.g, |ps| - 1)]
  }

  lemma {:induction false} StepAllAt(ps: seq<Petal>, w: real, h: real, fr: Frame, k: nat)
    requires Fair(fr.g) && k < |ps|
    ensures StepAll(ps, w, h, fr)[k] == PetalStep(ps[k], fr.sway(k), w, h, fr.g, k)
    decreases |ps|
  {
    if k < |ps| - 1 {
      StepAllAt(ps[..|ps| - 1], w, h, fr, k);
    }
  }

  lemma StepAllSnoc(ps: seq<Petal>, w: real, h: real, fr: Frame, i: nat)
    requires Fair(fr.g) && i < |ps|
    ensures StepAll(ps[..i + 1], w, h, fr) == StepAll(ps[..i], w, h, fr) + [PetalStep(ps[i], fr.sway(i), w, h, fr.g, i)]
  {
    PrefixSnoc(ps, i);
  }

  /** All petals are shaped. */
  predicate AllShaped(ps: seq<Petal>) {
    forall k :: 0 <= k < |ps| ==> Shaped(ps[k])
  }

  /** A frame keeps every petal shaped and leaves none more than 40 px
      below the bottom. */
  lemma StepAllKeeps(ps: seq<Petal>, w: real, h: real, fr: Frame)
    requires Fair(fr.g) && h >= 0.0
    ensures AllShaped(ps) ==> AllShaped(StepAll(ps, w, h, fr))
    ensures forall k :: 0 <= k < |ps| ==> StepAll(ps, w, h, fr)[k].y <= h + 40.0
  {
    forall k | 0 <= k < |ps|
      ensures (Shaped(ps[k]) ==> Shaped(StepAll(ps, w, h, fr)[k])) && StepAll(ps, w, h, fr)[k].y <= h + 40.0
    {
      StepAllAt(ps, w, h, fr, k);
    }
  }

  // ------------------------------------------------------------ effect

  class SakuraEffect {
    var sched: Scheduler
    var animationId: Option<nat>
    var hasCtx: bool
    /** The resize listeners attached, tagged with the `start()` call that
        attached each. */
    var listeners: set<nat>
    /** How many `start()` calls got past the canvas check; the latest
        one's handler is `resizeHandler`. */
    var generation: nat
    var w: real
    var h: real
    var petals: seq<Petal>

    ghost predicate Valid()
      reads this
    {
      Fresh(sched) &&
      (sched.pending != {} ==> hasCtx) &&
      (forall l :: l in listeners ==> 1 <= l <= generation) &&
      h >= 0.0 && AllShaped(petals)
    }

    constructor ()
      ensures Valid() && sched.pending == {} && listeners == {} && petals == [] && generation == 0
    {
      sched := Idle;
      animationId := None;
      hasCtx := false;
      listeners := {};
      generation := 0;
      w, h := 0.0, 0.0;
      petals := [];
    }

    /** `start()`: nothing without a canvas; otherwise one more resize
        listener, a fresh set of petals on the canvas, and one more
        animation loop beside whatever earlier starts left running. */
    method Start(hasCanvas: bool, innerWidth: real, innerHeight: real, g: Rng, fr: Frame)
      requires Valid() && Fair(g) && Fair(fr.g) && innerHeight >= 0.0
      modifies this
      ensures Valid()
      ensures !hasCanvas ==> sched == old(sched) && listeners == old(listeners) && petals == old(petals)
      ensures !hasCanvas ==> unchanged(this)
      ensures hasCanvas ==>
                hasCtx && generation == old(generation) + 1 && listeners == old(listeners) + {generation} &&
                w == innerWidth && h == innerHeight &&
                petals == StepAll(Created(w, h, g, InitialCount(innerWidth)), w, h, fr) &&
                animationId.Some? && animationId.value !in old(sched.pending) &&
                sched.pending == old(sched.pending) + {animationId.value}
    {
      if !hasCanvas {
        return;
      }
      hasCtx := true;
      generation := generation + 1;
      listeners := listeners + {generation};
      Launch(innerWidth, innerHeight, g, fr);
    }

    /** The rest of `start()`: size the canvas, create the petals and run
        the first frame. */
    method Launch(innerWidth: real, innerHeight: real, g: Rng, fr: Frame)
      requires Valid() && hasCtx && Fair(g) && Fair(fr.g) && innerHeight >= 0.0
      modifies this`w, this`h, this`petals, this`sched, this`animationId
      ensures Valid()
      ensures w == innerWidth && h == innerHeight &&
              petals == StepAll(Created(w, h, g, InitialCount(innerWidth)), w, h, fr) &&
              animationId.Some? && animationId.value !in old(sched.pending) &&
              sched.pending == old(sched.pending) + {animationId.value}
    {
      OnResize(innerWidth, innerHeight);
      InitPetals(InitialCount(innerWidth), g);
      Animate(fr);
    }

    /** `stop()`: cancel the latest frame id, detach the latest resize
        listener, drop the petals. */
    method Stop()
      requires Valid()
      modifies this`sched, this`listeners, this`petals
      ensures Valid()
      ensures sched.pending == (if old(animationId).Some? then old(sched.pending) - {old(animationId).value} else old(sched.pending))
      ensures generation == old(generation) && listeners == old(listeners) - {generation}
      ensures petals == [] && animationId == old(animationId)
    {
      if animationId.Some? {
        sched := Drop(sched, animationId.value);
      }
      listeners := listeners - {generation};
      petals := [];
    }

    /** `resize()`: the canvas follows the window. */
    method OnResize(innerWidth: real, innerHeight: real)
      requires innerHeight >= 0.0
      modifies this`w, this`h
      ensures w == innerWidth && h == innerHeight
    {
      w, h := innerWidth, innerHeight;
    }

    /** `initPetals()`: `count` petals scattered over the canvas. */
    method InitPetals(count: nat, g: Rng)
      requires Fair(g) && h >= 0.0
      modifies this`petals
      ensures petals == Created(w, h, g, count) && AllShaped(petals)
    {
      petals := [];
      var i := 0;
      while i < count
        invariant 0 <= i <= count && petals == Created(w, h, g, i)
      {
        petals := petals + [CreatePetal(w, h, true, g, i)];
        i := i + 1;
      }
      forall k | 0 <= k < count
        ensures Shaped(petals[k])
      {
        CreatedOnCanvas(w, h, g, count, k);
      }
    }

    /** The petal loop of `animate`, updating each petal in place. */
    method MovePetals(fr: Frame)
      requires Fair(fr.g)
      modifies this`petals
      ensures petals == StepAll(old(petals), w, h, fr)
    {
      ghost var ps := petals;
      var i := 0;
      while i < |petals|
        invariant 0 <= i <= |ps|
        invariant petals == StepAll(ps[..i], w, h, fr) + ps[i..]
      {
        TailFrom(ps, i);
        var q := PetalStep(petals[i], fr.sway(i), w, h, fr.g, i);
        StepAllSnoc(ps, w, h, fr, i);
        SnocUpdate(StepAll(ps[..i], w, h, fr), ps[i..], q);
        petals := petals[i := q];
        i := i + 1;
      }
      assert ps[..|ps|] == ps;
    }

    /** `animate()`: move every petal, then request the next frame, whose
        id replaces `animationId`. */
    method Animate(fr: Frame)
      requires Valid() && hasCtx && Fair(fr.g)
      modifies this`petals, this`sched, this`animationId
      ensures Valid()
      ensures petals == StepAll(old(petals), w, h, fr) && |petals| == |old(petals)|
      ensures forall k :: 0 <= k < |petals| ==> petals[k].y <= h + 40.0
      ensures animationId.Some? && animationId.value !in old(sched.pending) && animationId.value >= old(sched.next)
      ensures sched.pending == old(sched.pending) + {animationId.value}
    {
      StepAllKeeps(petals, w, h, fr);
      MovePetals(fr);
      var (s, id) := Request(sched);
      sched, animationId := s, Some(id);
    }

    /** Frame callback `id` of any running loop fires. */
    method OnFrame(id: nat, fr: Frame)
      requires Valid() && id in sched.pending && Fair(fr.g)
      modifies this`petals, this`sched, this`animationId
      ensures Valid() && petals == StepAll(old(petals), w, h, fr) && |petals| == |old(petals)|
      ensures forall k :: 0 <= k < |petals| ==> petals[k].y <= h + 40.0
      ensures animationId.Some? && animationId.value !in old(sched.pending)
      ensures sched.pending == old(sched.pending) - {id} + {animationId.value}
    {
      sched := Drop(sched, id);
      Animate(fr);
    }
  }
}
