/** The singularity effect of js/effects/singularity.js: drifting motes are
    pulled towards the mouse, captured and pinned within 18 px, and once
    100 are held (or on a click) a burst schedules each captured mote's
    release on a timer and blocks new captures until a cooldown timer
    clears. Timers are the pending tasks `timeouts`, one task fired per
    `FireTimer` call; `Math.hypot` and the trigonometry are host values. */
module Singularity {
  import opened Host

  datatype Mote = Mote(x: real, y: real, vx: real, vy: real, baseSpeed: real, r: real,
                       captured: bool, immuneUntil: real, bursting: bool)

  /** A pending `setTimeout` of `triggerBurst`: the release of mote `index`,
      or the end of the cooldown. */
  datatype Task = Release(index: nat) | ClearCooldown

  datatype Listener = Resize | MouseMove | MouseLeave | Click

  const MouseRadius: real := 110.0
  const CaptureRadius: real := 18.0
  const BurstThreshold := 100
  const BurstDrag: real := 0.986
  const Immunity: real := 5000.0

  /** `Math.hypot` as the host computes it. */
  type Hypot = (real, real) -> real

  /** What one mote's update sees: the mouse (absent once it left, its
      coordinates then reading as 0, as `null` does in arithmetic), the
      cooldown flag, `Date.now()`, the canvas size and the host's hypot. */
  datatype Env = Env(hasMouse: bool, mx: real, my: real, cooldown: bool, now: real,
                     w: real, h: real, hyp: Hypot)

  /** `createParticle()` from draws `g(i, 0)` (base speed), `g(i, 2)`, `g(i, 3)`
      (place) and `g(i, 4)` (radius); `dir` is the host's (cos, sin) of the
      random heading. */
  function CreateMote(w: real, h: real, g: Rng, dir: (real, real), i: nat): (p: Mote)
    ensures !p.captured && !p.bursting && p.immuneUntil == 0.0
    ensures IsUnit(g(i, 0)) ==> 0.6 <= p.baseSpeed < 1.0
    ensures IsUnit(g(i, 4)) ==> 1.0 <= p.r < 2.2
  {
    var base := 0.6 + g(i, 0) * 0.4;
    Mote(g(i, 2) * w, g(i, 3) * h, dir.0 * base, dir.1 * base, base, 1.0 + g(i, 4) * 1.2, false, 0.0, false)
  }

  /** The number of motes `initSingularity` creates. */
  function InitialCount(innerWidth: real): (n: nat)
    ensures n == 80 || n == 190
    ensures n == 80 <==> innerWidth < 600.0
  {
    if innerWidth < 600.0 then 80 else 190
  }

  /** A captured mote holds still: no velocity, and not bursting. */
  predicate Still(p: Mote) {
    p.captured ==> p.vx == 0.0 && p.vy == 0.0 && !p.bursting
  }

  // ------------------------------------------------------- one mote

  /** A bursting mote is slowed by 0.986 per frame and stops bursting once
      its speed falls below 1.2 times its base speed. */
  function Decay(p: Mote, hyp: Hypot): (q: Mote)
    ensures p.bursting ==> q.vx == p.vx * BurstDrag && q.vy == p.vy * BurstDrag
    ensures p.bursting ==> (q.bursting <==> hyp(q.vx, q.vy) >= p.baseSpeed * 1.2)
    ensures !p.bursting ==> q == p
    ensures q.x == p.x && q.y == p.y && q.captured == p.captured && q.baseSpeed == p.baseSpeed
  {
    if p.bursting then
      var vx := p.vx * BurstDrag;
      var vy := p.vy * BurstDrag;
      p.(vx := vx, vy := vy, bursting := !(hyp(vx, vy) < p.baseSpeed * 1.2))
    else p
  }

  /** The pull applies to a free, settled, no longer immune mote while the
      mouse is present and no cooldown runs. */
  predicate Attractable(p: Mote, e: Env) {
    e.hasMouse && !p.captured && !p.bursting && e.now > p.immuneUntil && !e.cooldown
  }

  /** The pull towards the mouse within 110 px, and the capture within
      18 px, which pins the mote and stops it. */
  function Attract(p: Mote, e: Env): (q: Mote)
    ensures !Attractable(p, e) ==> q == p
    ensures q.bursting == p.bursting && q.baseSpeed == p.baseSpeed
    ensures q.captured <==> p.captured || (Attractable(p, e) && e.hyp(e.mx - p.x, e.my - p.y) < CaptureRadius)
    ensures q.captured && !p.captured ==> q.vx == 0.0 && q.vy == 0.0 && q.x == e.mx && q.y == e.my
  {
    if !Attractable(p, e) then p
    else
      var dx := e.mx - p.x;
      var dy := e.my - p.y;
      var dist := e.hyp(dx, dy);
      if dist < MouseRadius then
        var pull := 1.0 - dist / MouseRadius;
        var strength := 0.001 + pull * pull * pull * 0.009;
        if dist < CaptureRadius then
          p.(captured := true, x := e.mx, y := e.my, vx := 0.0, vy := 0.0)
        else p.(vx := p.vx + dx * strength, vy := p.vy + dy * strength)
      else p
  }

  /** A captured mote stays on the mouse; a free one moves by its
      velocity. */
  function Advance(p: Mote, e: Env): (q: Mote)
    ensures p.captured ==> q == p.(x := e.mx, y := e.my)
    ensures !p.captured ==> q == p.(x := p.x + p.vx, y := p.y + p.vy)
  {
    if p.captured then p.(x := e.mx, y := e.my) else p.(x := p.x + p.vx, y := p.y + p.vy)
  }

  /** `normalizeSpeed(p)`: nudge the speed 2% of the way back to the base
      speed; nothing when the mote stands still. */
  function Normalize(p: Mote, hyp: Hypot): (q: Mote)
    ensures hyp(p.vx, p.vy) == 0.0 ==> q == p
    ensures q.captured == p.captured && q.bursting == p.bursting && q.x == p.x && q.y == p.y
  {
    var speed := hyp(p.vx, p.vy);
    if speed == 0.0 then p
    else
      var diff := p.baseSpeed - speed;
      p.(vx := p.vx + (p.vx / speed) * diff * 0.02, vy := p.vy + (p.vy / speed) * diff * 0.02)
  }

  /** Velocity components flip at the canvas edges (at or beyond them). */
  function Bounce(p: Mote, w: real, h: real): (q: Mote)
    ensures q.vx == (if p.x <= 0.0 || p.x >= w then -p.vx else p.vx)
    ensures q.vy == (if p.y <= 0.0 || p.y >= h then -p.vy else p.vy)
    ensures q.(vx := p.vx, vy := p.vy) == p
  {
    p.(vx := if p.x <= 0.0 || p.x >= w then -p.vx else p.vx,
       vy := if p.y <= 0.0 || p.y >= h then -p.vy else p.vy)
  }

  /** The loop body of `animate` for one mote. */
  function MoteStep(p: Mote, e: Env): Mote {
    var a := Attract(Decay(p, e.hyp), e);
    var b := Advance(a, e);
    Bounce(if !b.captured && !b.bursting then Normalize(b, e.hyp) else b, e.w, e.h)
  }

  /** A mote is captured after its update exactly when it already was, or
      it was free to be pulled and within 18 px of the mouse; a captured
      mote sits on the mouse and holds still; nothing starts bursting. */
  lemma MoteStepRules(p: Mote, e: Env)
    ensures var q := MoteStep(p, e);
            (q.captured <==> p.captured || (Attractable(Decay(p, e.hyp), e) && e.hyp(e.mx - p.x, e.my - p.y) < CaptureRadius)) &&
            (q.captured ==> q.x == e.mx && q.y == e.my) &&
            (q.bursting ==> p.bursting) &&
            (Still(p) ==> Still(q))
  {
  }

  /** Once captured, a mote stays captured and still on the mouse until a
      release frees it. */
  lemma {:induction false} CapturedStaysPinned(p: Mote, e: Env)
    requires p.captured && Still(p)
    ensures MoteStep(p, e) == p.(x := e.mx, y := e.my)
  {
    assert Decay(p, e.hyp) == p;
    assert Attract(p, e) == p;
    var b := Advance(p, e);
    assert b.vx == 0.0 && b.vy == 0.0;
    assert -0.0 == 0.0;
  }

  /** A bursting mote that keeps bursting is slowed by exactly 0.986 (up
      to the sign a bounce gives). */
  lemma BurstSlows(p: Mote, e: Env)
    requires p.bursting && MoteStep(p, e).bursting
    ensures Abs(MoteStep(p, e).vx) == Abs(p.vx) * BurstDrag
    ensures Abs(MoteStep(p, e).vy) == Abs(p.vy) * BurstDrag
  {
    var d := Decay(p, e.hyp);
    assert d.bursting;
    assert Attract(d, e) == d;
    if p.vx < 0.0 {
      assert d.vx < 0.0;
    }
    if p.vy < 0.0 {
      assert d.vy < 0.0;
    }
  }

  /** A release at `Date.now() == now`: the mote is freed, sent off along
      the host's (cos, sin) `dir` at speed `8 + 6 draw`, and immune for 5 s. */
  function Released(p: Mote, dir: (real, real), draw: real, now: real): (q: Mote)
    ensures !q.captured && q.bursting && q.immuneUntil == now + Immunity
    ensures q.x == p.x && q.y == p.y && q.baseSpeed == p.baseSpeed
  {
    var speed := 8.0 + draw * 6.0;
    p.(vx := dir.0 * speed, vy := dir.1 * speed, captured := false, bursting := true, immuneUntil := now + Immunity)
  }

  /** Every mote's update, in order. */
  function StepAll(ps: seq<Mote>, e: Env): (r: seq<Mote>)
    ensures |r| == |ps|
    decreases |ps|
  {
    if |ps| == 0 then [] else StepAll(ps[..|ps| - 1], e) + [MoteStep(ps[|ps| - 1], e)]
  }

  lemma {:induction false} StepAllAt(ps: seq<Mote>, e: Env, k: nat)
    requires k < |ps|
    ensures StepAll(ps, e)[k] == MoteStep(ps[k], e)
    decreases |ps|
  {
    if k < |ps| - 1 {
      StepAllAt(ps[..|ps| - 1], e, k);
    }
  }

  lemma StepAllSnoc(ps: seq<Mote>, e: Env, i: nat)
    requires i < |ps|
    ensures StepAll(ps[..i + 1], e) == StepAll(ps[..i], e) + [MoteStep(ps[i], e)]
  {
    PrefixSnoc(ps, i);
  }

  /** A frame keeps every captured mote still. */
  lemma StepAllStill(ps: seq<Mote>, e: Env)
    requires forall k :: 0 <= k < |ps| ==> Still(ps[k])
    ensures forall k :: 0 <= k < |ps| ==> Still(StepAll(ps, e)[k])
  {
    forall k | 0 <= k < |ps|
      ensures Still(StepAll(ps, e)[k])
    {
      StepAllAt(ps, e, k);
      MoteStepRules(ps[k], e);
    }
  }

  /** The releases `triggerBurst` schedules for `ps[..n]`: one per captured
      mote, in order. */
  function Releases(ps: seq<Mote>, n: nat): (r: seq<Task>)
    requires n <= |ps|
    ensures |r| <= n
  {
    if n == 0 then [] else Releases(ps, n - 1) + (if ps[n - 1].captured then [Release(n - 1)] else [])
  }

  /** The loop of `triggerBurst`: one release timeout per captured mote,
      in index order. */
  method QueueReleases(ps: seq<Mote>) returns (r: seq<Task>)
    ensures r == Releases(ps, |ps|)
  {
    r := [];
    var i := 0;
    while i < |ps|
      invariant 0 <= i <= |ps| && r == Releases(ps, i)
    {
      if ps[i].captured {
        r := r + [Release(i)];
      }
      i := i + 1;
    }
  }

  /** The cooldown tasks among `ts`. */
  function ClearCount(ts: seq<Task>): (c: nat)
    ensures c <= |ts|
  {
    if ts == [] then 0 else (if ts[0].ClearCooldown? then 1 else 0) + ClearCount(ts[1..])
  }

  /** Every release in `ts` names one of `n` motes. */
  predicate NamesWithin(ts: seq<Task>, n: nat) {
    ts == [] || ((ts[0].ClearCooldown? || ts[0].index < n) && NamesWithin(ts[1..], n))
  }

  lemma {:induction false} TasksConcat(a: seq<Task>, b: seq<Task>, n: nat)
    ensures ClearCount(a + b) == ClearCount(a) + ClearCount(b)
    ensures NamesWithin(a + b, n) <==> NamesWithin(a, n) && NamesWithin(b, n)
  {
    if a == [] {
      assert a + b == b;
    } else {
      assert (a + b)[1..] == a[1..] + b;
      TasksConcat(a[1..], b, n);
    }
  }

  /** A burst schedules no cooldown task among its releases, and each
      release names an existing mote. */
  lemma {:induction false} ReleasesTasks(ps: seq<Mote>, n: nat)
    requires n <= |ps|
    ensures ClearCount(Releases(ps, n)) == 0 && NamesWithin(Releases(ps, n), |ps|)
  {
    if n > 0 {
      ReleasesTasks(ps, n - 1);
      TasksConcat(Releases(ps, n - 1), if ps[n - 1].captured then [Release(n - 1)] else [], |ps|);
    }
  }

  lemma {:induction false} TaskAt(ts: seq<Task>, k: nat, n: nat)
    requires k < |ts| && NamesWithin(ts, n)
    ensures ts[k].ClearCooldown? || ts[k].index < n
  {
    if k > 0 {
      TaskAt(ts[1..], k - 1, n);
    }
  }

  /** Firing pending task `k` takes exactly that task out of the counts. */
  lemma RemoveTask(ts: seq<Task>, k: nat, n: nat)
    requires k < |ts|
    ensures ClearCount(ts[..k] + ts[k + 1..]) + (if ts[k].ClearCooldown? then 1 else 0) == ClearCount(ts)
    ensures NamesWithin(ts, n) ==> NamesWithin(ts[..k] + ts[k + 1..], n)
  {
    assert ts == ts[..k] + ([ts[k]] + ts[k + 1..]);
    TasksConcat(ts[..k], [ts[k]] + ts[k + 1..], n);
    TasksConcat([ts[k]], ts[k + 1..], n);
    TasksConcat(ts[..k], ts[k + 1..], n);
    assert [ts[k]][1..] == [];
  }

  /** One release for exactly each captured mote. */
  lemma {:induction false} ReleasesExactly(ps: seq<Mote>, n: nat, k: nat)
    requires n <= |ps|
    ensures Release(k) in Releases(ps, n) <==> k < n && ps[k].captured
  {
    if n > 0 {
      ReleasesExactly(ps, n - 1, k);
    }
  }

  /** The captured count of `animate` is the number of releases a burst
      schedules. */
  function CapturedCount(ps: seq<Mote>): (c: nat)
    ensures c <= |ps|
  {
    |Releases(ps, |ps|)|
  }

  lemma {:induction false} SomeCaptured(ps: seq<Mote>, n: nat)
    requires n <= |ps| && |Releases(ps, n)| > 0
    ensures exists k :: 0 <= k < n && ps[k].captured
  {
    if !ps[n - 1].captured {
      SomeCaptured(ps, n - 1);
    }
  }

  lemma {:induction false} NoneCaptured(ps: seq<Mote>, n: nat)
    requires n <= |ps| && |Releases(ps, n)| == 0
    ensures forall k :: 0 <= k < n ==> !ps[k].captured
  {
    if n > 0 {
      NoneCaptured(ps, n - 1);
    }
  }

  // ------------------------------------------------------------ effect

  /** What a frame takes from the host. */
  datatype SingFrame = SingFrame(now: real, hyp: Hypot)

  /** The motes `initSingularity` creates, in order. */
  function Created(w: real, h: real, g: Rng, dirs: nat -> (real, real), n: nat): (r: seq<Mote>)
    ensures |r| == n && forall k :: 0 <= k < n ==> r[k] == CreateMote(w, h, g, dirs(k), k)
  {
    seq(n, k requires 0 <= k < n => CreateMote(w, h, g, dirs(k), k))
  }

  /** What a frame of `animate` changes: the motes, the pending timeouts
      and the cooldown flag. */
  datatype Swarm = Swarm(motes: seq<Mote>, timeouts: seq<Task>, cooldown: bool)

  /** The timers agree with the flag: the cooldown is on exactly while its
      one clearing task is pending, and every pending release names a
      mote. */
  predicate TimersAgree(s: Swarm) {
    ClearCount(s.timeouts) == (if s.cooldown then 1 else 0) && NamesWithin(s.timeouts, |s.motes|)
  }

  /** The work of one `animate()`: every mote's update under the cooldown
      flag the frame starts with, then a burst when at least 100 motes are
      captured and no cooldown runs. */
  function Tick(s: Swarm, hasMouse: bool, mx: real, my: real, w: real, h: real, fr: SingFrame): (r: Swarm)
    ensures |r.motes| == |s.motes|
    ensures r.cooldown == (s.cooldown || CapturedCount(r.motes) >= BurstThreshold)
    ensures s.cooldown ==> r.timeouts == s.timeouts
    ensures TimersAgree(s) ==> TimersAgree(r)
    ensures (forall k :: 0 <= k < |s.motes| ==> Still(s.motes[k])) ==> forall k :: 0 <= k < |r.motes| ==> Still(r.motes[k])
  {
    var e := Env(hasMouse, mx, my, s.cooldown, fr.now, w, h, fr.hyp);
    var moved := StepAll(s.motes, e);
    StillAfter(s.motes, e);
    if CapturedCount(moved) >= BurstThreshold && !s.cooldown then
      ReleasesTasks(moved, |moved|);
      TasksConcat(s.timeouts, Releases(moved, |moved|), |moved|);
      TasksConcat(s.timeouts + Releases(moved, |moved|), [ClearCooldown], |moved|);
      Swarm(moved, s.timeouts + Releases(moved, |moved|) + [ClearCooldown], true)
    else
      Swarm(moved, s.timeouts, s.cooldown)
  }

  /** `StepAllStill`, stated as an implication. */
  lemma StillAfter(ps: seq<Mote>, e: Env)
    ensures (forall k :: 0 <= k < |ps| ==> Still(ps[k])) ==> forall k :: 0 <= k < |ps| ==> Still(StepAll(ps, e)[k])
  {
    if forall k :: 0 <= k < |ps| ==> Still(ps[k]) {
      StepAllStill(ps, e);
    }
  }

  /** A burst frame queues, after the timeouts already pending, one release
      for exactly each mote captured after the update, and then the end of
      the cooldown. */
  lemma TickBurst(s: Swarm, hasMouse: bool, mx: real, my: real, w: real, h: real, fr: SingFrame, k: nat)
    requires !s.cooldown
    requires CapturedCount(Tick(s, hasMouse, mx, my, w, h, fr).motes) >= BurstThreshold
    ensures var r := Tick(s, hasMouse, mx, my, w, h, fr);
            r.timeouts[..|s.timeouts|] == s.timeouts && r.timeouts[|r.timeouts| - 1] == ClearCooldown &&
            (Release(k) in r.timeouts[|s.timeouts|..|r.timeouts| - 1] <==> k < |r.motes| && r.motes[k].captured)
  {
    var r := Tick(s, hasMouse, mx, my, w, h, fr);
    var rel := Releases(r.motes, |r.motes|);
    assert r.timeouts == s.timeouts + rel + [ClearCooldown];
    assert r.timeouts[|s.timeouts|..|r.timeouts| - 1] == rel;
    ReleasesExactly(r.motes, |r.motes|, k);
  }

  /** Under a running cooldown no frame bursts: the timeouts stay as they
      were and the cooldown stays on. */
  lemma TickUnderCooldown(s: Swarm, hasMouse: bool, mx: real, my: real, w: real, h: real, fr: SingFrame)
    requires s.cooldown
    ensures var r := Tick(s, hasMouse, mx, my, w, h, fr);
            r.timeouts == s.timeouts && r.cooldown
  {
  }

  class SingularityEffect {
    var sched: Scheduler
    var animationId: Option<nat>
    var running: bool
    var hasCtx: bool
    var listeners: set<Listener>
    var w: real
    var h: real
    var hasMouse: bool
    var mouseX: real
    var mouseY: real
    var singularities: seq<Mote>
    var timeouts: seq<Task>
    var burstCooldown: bool

    /** The cooldown is on exactly while its one clearing task is pending; every
        pending release names a mote; captured motes are still. */
    ghost predicate Valid()
      reads this
    {
      Fresh(sched) &&
      (sched.pending == {} || (animationId.Some? && sched.pending == {animationId.value})) &&
      (sched.pending != {} ==> running && hasCtx) &&
      (!running ==> timeouts == [] && !burstCooldown && listeners == {}) &&
      (!hasCtx ==> timeouts == [] && listeners == {} && singularities == [] && !hasMouse) &&
      ClearCount(timeouts) == (if burstCooldown then 1 else 0) &&
      (!running ==> singularities == []) &&
      NamesWithin(timeouts, |singularities|) &&
      (forall k :: 0 <= k < |singularities| ==> Still(singularities[k])) &&
      (!hasMouse ==> mouseX == 0.0 && mouseY == 0.0)
    }

    /** The state a frame works on. */
    function Snapshot(): Swarm
      reads this
    {
      Swarm(singularities, timeouts, burstCooldown)
    }

    constructor ()
      ensures Valid() && !running && singularities == [] && timeouts == []
    {
      sched := Idle;
      animationId := None;
      running, hasCtx := false, false;
      listeners := {};
      w, h := 0.0, 0.0;
      hasMouse, mouseX, mouseY := false, 0.0, 0.0;
      singularities := [];
      timeouts := [];
      burstCooldown := false;
    }

    /** `start()`: `running` is set before the canvas check, so without a
        canvas the effect counts as running with nothing scheduled. */
    method Start(hasCanvas: bool, width: real, height: real, g: Rng, dirs: nat -> (real, real), fr: SingFrame)
      requires Valid()
      modifies this`running, this`hasCtx, this`listeners, this`w, this`h, this`singularities, this`timeouts,
               this`burstCooldown, this`sched, this`animationId
      ensures Valid()
      ensures old(running) ==> singularities == old(singularities) && sched == old(sched) && listeners == old(listeners)
      ensures old(running) ==> unchanged(this)
      ensures !old(running) ==> running
      ensures !old(running) && !hasCanvas ==> sched == old(sched) && singularities == old(singularities)
      ensures !old(running) && !hasCanvas ==>
                unchanged(this`hasCtx, this`listeners, this`w, this`h, this`singularities, this`timeouts,
                          this`burstCooldown, this`sched, this`animationId)
      ensures !old(running) && hasCanvas ==>
                listeners == {Resize, MouseMove, MouseLeave, Click} && w == width && h == height &&
                animationId.Some? && sched.pending == {animationId.value} &&
                Snapshot() == Tick(Swarm(Created(width, height, g, dirs, InitialCount(width)), [], false),
                                   hasMouse, mouseX, mouseY, width, height, fr)
    {
      if running {
        return;
      }
      running := true;
      if !hasCanvas {
        return;
      }
      Open(width, height, g, dirs, fr);
    }

    /** `start()` once a canvas is found: the listeners, the size, the
        population and the first frame. */
    method Open(width: real, height: real, g: Rng, dirs: nat -> (real, real), fr: SingFrame)
      requires Valid() && running && timeouts == [] && !burstCooldown && sched.pending == {}
      modifies this`hasCtx, this`listeners, this`w, this`h, this`singularities, this`timeouts,
               this`burstCooldown, this`sched, this`animationId
      ensures Valid()
      ensures listeners == {Resize, MouseMove, MouseLeave, Click} && w == width && h == height &&
              animationId.Some? && sched.pending == {animationId.value} &&
              Snapshot() == Tick(Swarm(Created(width, height, g, dirs, InitialCount(width)), [], false),
                                 hasMouse, mouseX, mouseY, width, height, fr)
    {
      hasCtx := true;
      listeners := {Resize, MouseMove, MouseLeave, Click};
      w, h := width, height;
      Launch(InitialCount(width), g, dirs, fr);
    }

    /** The end of `start()`: the population, then the first frame. */
    method Launch(count: nat, g: Rng, dirs: nat -> (real, real), fr: SingFrame)
      requires Valid() && timeouts == [] && !burstCooldown && running && hasCtx && sched.pending == {}
      modifies this`singularities, this`timeouts, this`burstCooldown, this`sched, this`animationId
      ensures Valid() && animationId.Some? && sched.pending == {animationId.value}
      ensures Snapshot() == Tick(Swarm(Created(w, h, g, dirs, count), [], false), hasMouse, mouseX, mouseY, w, h, fr)
    {
      InitSingularity(count, g, dirs);
      Animate(fr);
    }

    /** `initSingularity()`: a fresh population of `count` motes. */
    method InitSingularity(count: nat, g: Rng, dirs: nat -> (real, real))
      requires Valid() && timeouts == [] && running && hasCtx
      modifies this`singularities
      ensures Valid() && singularities == Created(w, h, g, dirs, count)
    {
      singularities := [];
      var i := 0;
      while i < count
        invariant 0 <= i <= count && |singularities| == i
        invariant forall k :: 0 <= k < i ==> singularities[k] == CreateMote(w, h, g, dirs(k), k)
      {
        singularities := singularities + [CreateMote(w, h, g, dirs(i), i)];
        i := i + 1;
      }
      assert singularities == Created(w, h, g, dirs, count);
    }

    /** `stop()`: nothing unless running. The frame is cancelled, the
        listeners detached and the timers cleared; the canvas is then
        cleared without a check, which throws when no canvas was ever
        found, before the motes, the mouse and the cooldown are reset. */
    method Stop() returns (threw: bool)
      requires Valid()
      modifies this`running, this`sched, this`listeners, this`timeouts, this`singularities,
               this`hasMouse, this`mouseX, this`mouseY, this`burstCooldown
      ensures Valid()
      ensures !old(running) ==> unchanged(this)
      ensures threw ==> unchanged(this`singularities, this`hasMouse, this`mouseX, this`mouseY, this`burstCooldown)
      ensures !old(running) ==> !threw && singularities == old(singularities) && sched == old(sched)
      ensures old(running) ==> !running && sched.pending == {} && listeners == {} && timeouts == []
      ensures old(running) ==> (threw <==> !hasCtx)
      ensures old(running) && !threw ==> singularities == [] && !hasMouse && !burstCooldown
    {
      threw := false;
      if !running {
        return;
      }
      running := false;
      if animationId.Some? {
        sched := Drop(sched, animationId.value);
      }
      listeners := {};
      timeouts := [];
      if !hasCtx {
        threw := true;
        return;
      }
      singularities := [];
      hasMouse, mouseX, mouseY := false, 0.0, 0.0;
      burstCooldown := false;
    }

    /** `resize()`, bound to the window's `resize` event: the size becomes
        the window's. */
    method OnResize(width: real, height: real)
      modifies this`w, this`h
      ensures w == width && h == height
    { w, h := width, height; }

    method OnMouseMove(x: real, y: real)
      requires Valid() && MouseMove in listeners
      modifies this`hasMouse, this`mouseX, this`mouseY
      ensures Valid() && hasMouse && mouseX == x && mouseY == y
    {
      hasMouse, mouseX, mouseY := true, x, y;
    }

    method OnMouseLeave()
      requires Valid()
      modifies this`hasMouse, this`mouseX, this`mouseY
      ensures Valid() && !hasMouse
    {
      hasMouse, mouseX, mouseY := false, 0.0, 0.0;
    }

    /** The click handler: ignored without a mouse or under cooldown; a
        burst when some mote is captured. */
    method OnClick()
      requires Valid() && Click in listeners
      modifies this`burstCooldown, this`timeouts
      ensures Valid()
      ensures !old(hasMouse) || old(burstCooldown) || CapturedCount(singularities) == 0 ==>
                timeouts == old(timeouts) && burstCooldown == old(burstCooldown)
      ensures old(hasMouse) && !old(burstCooldown) && CapturedCount(singularities) > 0 ==>
                burstCooldown && timeouts == old(timeouts) + Releases(singularities, |singularities|) + [ClearCooldown]
    {
      if !hasMouse || burstCooldown {
        return;
      }
      TriggerBurst();
    }

    /** `triggerBurst()`: nothing under cooldown or with nothing captured;
        otherwise the cooldown starts and one release per captured mote,
        then the cooldown's end, are scheduled. */
    method TriggerBurst()
      requires Valid()
      modifies this`burstCooldown, this`timeouts
      ensures Valid()
      ensures old(burstCooldown) || CapturedCount(singularities) == 0 ==>
                timeouts == old(timeouts) && burstCooldown == old(burstCooldown)
      ensures !old(burstCooldown) && CapturedCount(singularities) > 0 ==>
                burstCooldown && timeouts == old(timeouts) + Releases(singularities, |singularities|) + [ClearCooldown]
    {
      if burstCooldown {
        return;
      }
      if CapturedCount(singularities) == 0 {
        return;
      }
      assert running by {
        SomeCaptured(singularities, |singularities|);
      }
      burstCooldown := true;
      var released := QueueReleases(singularities);
      ReleasesTasks(singularities, |singularities|);
      TasksConcat(timeouts, released, |singularities|);
      TasksConcat(timeouts + released, [ClearCooldown], |singularities|);
      timeouts := timeouts + released + [ClearCooldown];
    }

    /** The host fires pending timer `k` at `Date.now() == now`: a release
        frees its mote, sends it off along `dir` at `8 + 6 draw` and makes it
        immune for 5 s; the cooldown task ends the cooldown. */
    method FireTimer(k: nat, now: real, dir: (real, real), draw: real)
      requires Valid() && k < |timeouts|
      modifies this`timeouts, this`singularities, this`burstCooldown
      ensures Valid()
      ensures timeouts == old(timeouts[..k] + timeouts[k + 1..])
      ensures old(timeouts[k]).ClearCooldown? ==> !burstCooldown && singularities == old(singularities)
      ensures old(timeouts[k]).Release? ==>
                var i := old(timeouts[k]).index;
                burstCooldown == old(burstCooldown) && i < |old(singularities)| &&
                singularities == old(singularities)[i := Released(old(singularities)[i], dir, draw, now)]
    {
      var task := timeouts[k];
      RemoveTask(timeouts, k, |singularities|);
      TaskAt(timeouts, k, |singularities|);
      timeouts := timeouts[..k] + timeouts[k + 1..];
      match task
      case ClearCooldown =>
        burstCooldown := false;
      case Release(i) =>
        singularities := singularities[i := Released(singularities[i], dir, draw, now)];
    }

    /** The mote loop of `animate`: every mote's update, in place. */
    method UpdateMotes(e: Env)
      modifies this`singularities
      ensures singularities == StepAll(old(singularities), e)
    {
      ghost var ps := singularities;
      var i := 0;
      while i < |singularities|
        invariant 0 <= i <= |ps|
        invariant singularities == StepAll(ps[..i], e) + ps[i..]
      {
        TailFrom(ps, i);
        var q := MoteStep(singularities[i], e);
        StepAllSnoc(ps, e, i);
        SnocUpdate(StepAll(ps[..i], e), ps[i..], q);
        singularities := singularities[i := q];
        i := i + 1;
      }
      assert ps[..|ps|] == ps;
    }

    /** `capturedCount` of `animate`: the motes captured after their update
        (a mote's update touches no other mote, so counting after the loop
        gives the same number). */
    method CountCaptured() returns (count: nat)
      ensures count == CapturedCount(singularities)
    {
      count := 0;
      var i := 0;
      while i < |singularities|
        invariant 0 <= i <= |singularities|
        invariant count == |Releases(singularities, i)|
      {
        if singularities[i].captured {
          count := count + 1;
        }
        i := i + 1;
      }
    }

    /** `animate()`: nothing once stopped; otherwise a frame's work, then
        the next frame. */
    method Animate(fr: SingFrame)
      requires Valid() && sched.pending == {} && hasCtx
      modifies this`singularities, this`timeouts, this`burstCooldown, this`sched, this`animationId
      ensures Valid()
      ensures !running ==> Snapshot() == old(Snapshot()) && sched == old(sched)
      ensures running ==> animationId.Some? && sched.pending == {animationId.value} && animationId.value >= old(sched.next)
      ensures running ==> Snapshot() == Tick(old(Snapshot()), hasMouse, mouseX, mouseY, w, h, fr)
    {
      if !running {
        return;
      }
      Step(fr);
      Schedule();
    }

    /** `requestAnimationFrame(animate)` at the end of a frame. */
    method Schedule()
      requires Valid() && sched.pending == {} && running && hasCtx
      modifies this`sched, this`animationId
      ensures Valid() && animationId.Some? && sched.pending == {animationId.value} && animationId.value >= old(sched.next)
    {
      var (s, id) := Request(sched);
      sched, animationId := s, Some(id);
    }

    /** A frame's work: update every mote, then burst when at least 100 are
        captured and no cooldown runs. */
    method Step(fr: SingFrame)
      requires Valid()
      modifies this`singularities, this`timeouts, this`burstCooldown
      ensures Valid()
      ensures Snapshot() == Tick(old(Snapshot()), hasMouse, mouseX, mouseY, w, h, fr)
    {
      var e := Env(hasMouse, mouseX, mouseY, burstCooldown, fr.now, w, h, fr.hyp);
      MoveAll(e);
      MaybeBurst();
    }

    /** Every mote's update, keeping the effect's invariant. */
    method MoveAll(e: Env)
      requires Valid()
      modifies this`singularities
      ensures Valid() && singularities == StepAll(old(singularities), e)
    {
      StepAllStill(singularities, e);
      UpdateMotes(e);
    }

    /** The end of the update pass: count the captured motes and burst
        when there are enough and no cooldown runs. */
    method MaybeBurst()
      requires Valid()
      modifies this`timeouts, this`burstCooldown
      ensures Valid()
      ensures CapturedCount(singularities) >= BurstThreshold && !old(burstCooldown) ==>
                burstCooldown && timeouts == old(timeouts) + Releases(singularities, |singularities|) + [ClearCooldown]
      ensures CapturedCount(singularities) < BurstThreshold || old(burstCooldown) ==>
                timeouts == old(timeouts) && burstCooldown == old(burstCooldown)
    {
      var count := CountCaptured();
      if count >= BurstThreshold && !burstCooldown {
        TriggerBurst();
      }
    }

    /** The frame callback `id` fires. */
    method OnFrame(id: nat, fr: SingFrame)
      requires Valid() && id in sched.pending
      modifies this`singularities, this`timeouts, this`burstCooldown, this`sched, this`animationId
      ensures Valid() && animationId.Some? && animationId.value != id && sched.pending == {animationId.value}
      ensures Snapshot() == Tick(old(Snapshot()), hasMouse, mouseX, mouseY, w, h, fr)
    {
      sched := Drop(sched, id);
      Animate(fr);
    }
  }

}
