/** The glowing-dust effect of js/effects/ld-effect.js. `initLDEffect`
    builds a scene of 500 drifting particles that wrap around the canvas
    edges; the scene lives in a closure, and two globals on `window` steer
    it: the stop flag `_stopLDEffect`, which every frame checks before doing
    anything, and the cleanup `_ldCleanup`, which `destroyLDEffect` runs at
    most once. The resize listener each call attaches is never removed.
    Colours and the trail fill are left out. */
module LdEffect {
  import opened Host

  datatype Particle = Particle(x: real, y: real, size: real, speedX: real, speedY: real)

  const NumParticles: nat := 500

  /** `new Particle()` from the draws `g(i, _)`: place, size, velocity. */
  function CreateParticle(w: real, h: real, g: Rng, i: nat): (p: Particle)
    ensures IsUnit(g(i, 0)) && IsUnit(g(i, 1)) && w >= 0.0 && h >= 0.0 ==> InBounds(p, w, h)
    ensures IsUnit(g(i, 2)) ==> 0.3 <= p.size < 1.5
    ensures IsUnit(g(i, 3)) && IsUnit(g(i, 4)) ==> -0.75 <= p.speedX < 0.75 && -0.75 <= p.speedY < 0.75
  {
    ScaleUnit(g(i, 0), w);
    ScaleUnit(g(i, 1), h);
    Particle(g(i, 0) * w, g(i, 1) * h, g(i, 2) * 1.2 + 0.3, (g(i, 3) - 0.5) * 1.5, (g(i, 4) - 0.5) * 1.5)
  }

  /** The first `n` particles `createParticles` pushes. */
  function Created(w: real, h: real, g: Rng, n: nat): (r: seq<Particle>)
    ensures |r| == n
  {
    if n == 0 then [] else Created(w, h, g, n - 1) + [CreateParticle(w, h, g, n - 1)]
  }

  /** Particle `k` of a fresh set is the `k`-th one created, and with
      fair draws it starts on the canvas. */
  lemma {:induction false} CreatedAt(w: real, h: real, g: Rng, n: nat, k: nat)
    requires k < n
    ensures Created(w, h, g, n)[k] == CreateParticle(w, h, g, k)
    ensures Fair(g) && w >= 0.0 && h >= 0.0 ==> InBounds(Created(w, h, g, n)[k], w, h)
  {
    if k < n - 1 {
      CreatedAt(w, h, g, n - 1, k);
    }
    assert Fair(g) ==> IsUnit(g(k, 0)) && IsUnit(g(k, 1));
  }

  predicate InBounds(p: Particle, w: real, h: real) {
    0.0 <= p.x <= w && 0.0 <= p.y <= h
  }

  /** One coordinate's wrap-around: past the low edge it jumps to the high
      one, past the high edge to 0. */
  function Wrap(v: real, hi: real): (r: real)
    ensures hi >= 0.0 ==> 0.0 <= r <= hi
    ensures 0.0 <= v <= hi ==> r == v
    ensures v < 0.0 ==> r == hi
    ensures v > hi && hi >= 0.0 ==> r == 0.0
  {
    var a := if v < 0.0 then hi else v;
    if a > hi then 0.0 else a
  }

  /** `Particle.update()`: move by the velocity, then wrap. */
  function Update(p: Particle, w: real, h: real): (q: Particle)
    ensures w >= 0.0 && h >= 0.0 ==> InBounds(q, w, h)
    ensures q.x == Wrap(p.x + p.speedX, w) && q.y == Wrap(p.y + p.speedY, h)
    ensures q.(x := p.x, y := p.y) == p
  {
    p.(x := Wrap(p.x + p.speedX, w), y := Wrap(p.y + p.speedY, h))
  }

  /** Every particle's update, in order. */
  function UpdateAll(ps: seq<Particle>, w: real, h: real): (r: seq<Particle>)
    ensures |r| == |ps|
    decreases |ps|
  {
    if |ps| == 0 then [] else UpdateAll(ps[..|ps| - 1], w, h) + [Update(ps[|ps| - 1], w, h)]
  }

  lemma {:induction false} UpdateAllAt(ps: seq<Particle>, w: real, h: real, k: nat)
    requires k < |ps|
    ensures UpdateAll(ps, w, h)[k] == Update(ps[k], w, h)
    decreases |ps|
  {
    if k < |ps| - 1 {
      UpdateAllAt(ps[..|ps| - 1], w, h, k);
    }
  }

  lemma UpdateAllSnoc(ps: seq<Particle>, w: real, h: real, i: nat)
    requires i < |ps|
    ensures UpdateAll(ps[..i + 1], w, h) == UpdateAll(ps[..i], w, h) + [Update(ps[i], w, h)]
  {
    PrefixSnoc(ps, i);
  }

  /** After a frame every particle is on the canvas, whatever its speed. */
  lemma UpdateAllInBounds(ps: seq<Particle>, w: real, h: real)
    requires w >= 0.0 && h >= 0.0
    ensures forall k :: 0 <= k < |ps| ==> InBounds(UpdateAll(ps, w, h)[k], w, h)
  {
    forall k | 0 <= k < |ps|
      ensures InBounds(UpdateAll(ps, w, h)[k], w, h)
    {
      UpdateAllAt(ps, w, h, k);
    }
  }

  /** The state one `initLDEffect` call closes over. */
  class LdScene {
    var w: real
    var h: real
    var particles: seq<Particle>
    var animationId: Option<nat>

    constructor (innerWidth: real, innerHeight: real)
      ensures w == innerWidth && h == innerHeight && particles == [] && animationId == None
    {
      w, h := innerWidth, innerHeight;
      particles := [];
      animationId := None;
    }

    /** `resize()`. */
    method Resize(innerWidth: real, innerHeight: real)
      modifies this`w, this`h
      ensures w == innerWidth && h == innerHeight
    {
      w, h := innerWidth, innerHeight;
    }

    /** `createParticles()`: empty the array, then push 500 new ones. */
    method CreateParticles(g: Rng)
      modifies this`particles
      ensures particles == Created(w, h, g, NumParticles) && |particles| == 500
    {
      particles := [];
      var i := 0;
      while i < NumParticles
        invariant 0 <= i <= NumParticles && particles == Created(w, h, g, i)
      {
        particles := particles + [CreateParticle(w, h, g, i)];
        i := i + 1;
      }
    }

    /** The `particles.forEach(p => p.update())` of `animate`, in place. */
    method UpdateParticles()
      modifies this`particles
      ensures particles == UpdateAll(old(particles), w, h)
    {
      ghost var ps := particles;
      var i := 0;
      while i < |particles|
        invariant 0 <= i <= |ps|
        invariant particles == UpdateAll(ps[..i], w, h) + ps[i..]
      {
        TailFrom(ps, i);
        var q := Update(particles[i], w, h);
        UpdateAllSnoc(ps, w, h, i);
        SnocUpdate(UpdateAll(ps[..i], w, h), ps[i..], q);
        particles := particles[i := q];
        i := i + 1;
      }
      assert ps[..|ps|] == ps;
    }
  }

  /** The page: the frame scheduler, the two globals and the resize
      listeners attached so far. */
  class Window {
    var sched: Scheduler
    /** `window._stopLDEffect`. */
    var stopFlag: bool
    /** `window._ldCleanup`, and the scene it tears down. */
    var cleanup: Option<LdScene>
    /** The scenes whose resize listener is attached, one per call. */
    var resizeListeners: seq<LdScene>

    ghost predicate Valid()
      reads this
    {
      Fresh(sched)
    }

    constructor ()
      ensures Valid() && sched == Idle && !stopFlag && cleanup == None && resizeListeners == []
    {
      sched := Idle;
      stopFlag := false;
      cleanup := None;
      resizeListeners := [];
    }

    /** `initLDEffect()`: nothing without a canvas; otherwise a new scene
        with 500 particles, its resize listener, the stop flag cleared, the
        first frame run and the cleanup for this scene installed. */
    method Init(hasCanvas: bool, innerWidth: real, innerHeight: real, g: Rng) returns (s: Option<LdScene>)
      requires Valid()
      modifies this
      ensures Valid()
      ensures !hasCanvas ==> s == None && sched == old(sched) && stopFlag == old(stopFlag) &&
                             cleanup == old(cleanup) && resizeListeners == old(resizeListeners)
      ensures hasCanvas ==>
                s.Some? && fresh(s.value) && !stopFlag && cleanup == s &&
                resizeListeners == old(resizeListeners) + [s.value] &&
                s.value.w == innerWidth && s.value.h == innerHeight &&
                s.value.particles == UpdateAll(Created(innerWidth, innerHeight, g, NumParticles), innerWidth, innerHeight) &&
                s.value.animationId.Some? && s.value.animationId.value !in old(sched.pending) &&
                sched.pending == old(sched.pending) + {s.value.animationId.value}
    {
      if !hasCanvas {
        return None;
      }
      var scene := new LdScene(innerWidth, innerHeight);
      resizeListeners := resizeListeners + [scene];
      stopFlag := false;
      scene.CreateParticles(g);
      Animate(scene);
      cleanup := Some(scene);
      s := Some(scene);
    }

    /** `animate()` of scene `s`: nothing once the stop flag is up;
        otherwise update every particle and request the next frame. */
    method Animate(s: LdScene)
      requires Valid()
      modifies this`sched, s`particles, s`animationId
      ensures Valid()
      ensures stopFlag ==> sched == old(sched) && s.particles == old(s.particles) && s.animationId == old(s.animationId)
      ensures !stopFlag ==>
                s.particles == UpdateAll(old(s.particles), s.w, s.h) &&
                s.animationId.Some? && s.animationId.value !in old(sched.pending) &&
                s.animationId.value >= old(sched.next) &&
                sched.pending == old(sched.pending) + {s.animationId.value}
    {
      if stopFlag {
        return;
      }
      s.UpdateParticles();
      var (t, id) := Request(sched);
      sched, s.animationId := t, Some(id);
    }

    /** Frame `id`, requested by scene `s`, fires. Once the flag is up the
        chain ends: nothing is requested again. */
    method OnFrame(s: LdScene, id: nat)
      requires Valid() && id in sched.pending
      modifies this`sched, s`particles, s`animationId
      ensures Valid()
      ensures stopFlag ==> sched.pending == old(sched.pending) - {id} && s.particles == old(s.particles)
      ensures !stopFlag ==>
                s.particles == UpdateAll(old(s.particles), s.w, s.h) &&
                s.animationId.Some? && s.animationId.value !in old(sched.pending) &&
                sched.pending == old(sched.pending) - {id} + {s.animationId.value}
    {
      sched := Drop(sched, id);
      Animate(s);
    }

    /** `destroyLDEffect()`: when a cleanup is installed, raise the stop
        flag, cancel that scene's latest frame and delete the cleanup;
        otherwise nothing. The resize listeners stay. */
    method Destroy()
      requires Valid()
      modifies this
      ensures Valid()
      ensures resizeListeners == old(resizeListeners) && cleanup == None
      ensures old(cleanup).None? ==> sched == old(sched) && stopFlag == old(stopFlag)
      ensures old(cleanup).Some? ==>
                stopFlag &&
                sched.pending == (if old(cleanup.value.animationId).Some?
                                  then old(sched.pending) - {old(cleanup.value.animationId).value}
                                  else old(sched.pending))
    {
      if cleanup.Some? {
        var s := cleanup.value;
        stopFlag := true;
        if s.animationId.Some? {
          sched := Drop(sched, s.animationId.value);
        }
        cleanup := None;
      }
    }
  }

  /** Two `initLDEffect` calls leave two frame chains; `destroyLDEffect`
      cancels only the second scene's frame, but the stop flag ends the
      first chain at its next frame. Both resize listeners stay attached;
      after a second `destroyLDEffect` nothing is pending and the flag
      stays up. */
  method InitTwiceDestroy(g: Rng) returns (win: Window)
    ensures win.sched.pending == {} && win.stopFlag && |win.resizeListeners| == 2
  {
    win := new Window();
    var first := win.Init(true, 800.0, 600.0, g);
    var id := first.value.animationId.value;
    var second := win.Init(true, 800.0, 600.0, g);
    win.Destroy();
    assert win.sched.pending == {id};
    win.OnFrame(first.value, id);
    win.Destroy();
  }
}
