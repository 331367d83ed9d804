/** The particle-network effect of js/effects/particles.js: dots drift and
    bounce off the canvas edges, are pushed away from the mouse within
    150 px, and every pair closer than a threshold is joined by a line whose
    opacity falls with distance. `start` has no guard: every call adds a
    new set of listeners and a new animation loop, and `stop` only reaches
    the latest of each. `Math.hypot` and the direction `atan2` gives come
    from the host. */
module Particles {
  import opened Host

  datatype Particle = Particle(x: real, y: real, vx: real, vy: real, r: real)

  datatype Kind = Resize | MouseMove | MouseLeave

  /** A listener, tagged with the `start()` call that attached it. */
  datatype Listener = Listener(kind: Kind, generation: nat)

  /** A connection line between particles `i` and `j`. */
  datatype Line = Line(i: nat, j: nat, alpha: real)

  const MouseRadius: real := 150.0

  /** `Math.hypot` as the host computes it. */
  type Hypot = (real, real) -> real

  /** `(Math.cos(a), Math.sin(a))` for `a = Math.atan2(dy, dx)`. */
  type Heading = (real, real) -> (real, real)

  /** The particles `initParticles` creates. */
  function InitialCount(innerWidth: real): (n: nat)
    ensures n == 80 <==> innerWidth < 600.0
    ensures n == 80 || n == 190
  {
    if innerWidth < 600.0 then 80 else 190
  }

  /** The line threshold of `animate`. */
  function MaxDist(innerWidth: real): (d: real)
    ensures d == 70.0 || d == 110.0
    ensures d == 70.0 <==> innerWidth < 600.0
  {
    if innerWidth < 600.0 then 70.0 else 110.0
  }

  /** A new particle from draws `g(i, _)`: place, velocity, radius. */
  function CreateParticle(w: real, h: real, g: Rng, i: nat): (p: Particle)
    ensures IsUnit(g(i, 2)) ==> -0.45 <= p.vx < 0.45
    ensures IsUnit(g(i, 3)) ==> -0.45 <= p.vy < 0.45
    ensures IsUnit(g(i, 4)) ==> 1.0 <= p.r < 2.2
  {
    Particle(g(i, 0) * w, g(i, 1) * h, (g(i, 2) - 0.5) * 0.9, (g(i, 3) - 0.5) * 0.9, 1.0 + g(i, 4) * 1.2)
  }

  /** The first `n` particles `initParticles` creates. */
  function Created(w: real, h: real, g: Rng, n: nat): (r: seq<Particle>)
    ensures |r| == n
  {
    if n == 0 then [] else Created(w, h, g, n - 1) + [CreateParticle(w, h, g, n - 1)]
  }

  /** Particle `k` of a fresh set is the `k`-th one created; with fair
      draws its speed and radius are in range. */
  lemma {:induction false} CreatedAt(w: real, h: real, g: Rng, n: nat, k: nat)
    requires k < n
    ensures Created(w, h, g, n)[k] == CreateParticle(w, h, g, k)
    ensures Fair(g) ==> -0.45 <= Created(w, h, g, n)[k].vx < 0.45 && 1.0 <= Created(w, h, g, n)[k].r < 2.2
  {
    if k < n - 1 {
      CreatedAt(w, h, g, n - 1, k);
    }
    assert Fair(g) ==> IsUnit(g(k, 2)) && IsUnit(g(k, 4));
  }

  /** Move by the velocity, then flip each component at or beyond its
      edges. */
  function Bounce(p: Particle, w: real, h: real): (q: Particle)
    ensures q.x == p.x + p.vx && q.y == p.y + p.vy && q.r == p.r
    ensures (q.x <= 0.0 || q.x >= w) ==> q.vx == -p.vx
    ensures 0.0 < q.x < w ==> q.vx == p.vx
    ensures (q.y <= 0.0 || q.y >= h) ==> q.vy == -p.vy
    ensures 0.0 < q.y < h ==> q.vy == p.vy
    ensures Abs(q.vx) == Abs(p.vx) && Abs(q.vy) == Abs(p.vy)
  {
    var x := p.x + p.vx;
    var y := p.y + p.vy;
    Particle(x, y, if x <= 0.0 || x >= w then -p.vx else p.vx, if y <= 0.0 || y >= h then -p.vy else p.vy, p.r)
  }

  /** The push away from the mouse at distance `dist`: from nearly 1
      close in down to 0 at the radius. */
  function PushFactor(dist: real): (f: real)
    ensures 0.001 < dist < MouseRadius ==> 0.0 < f < 1.0
  {
    (MouseRadius - dist) / MouseRadius
  }

  /** The repulsion applies only when the mouse is present and the
      particle is within 150 px of it, but not on top of it. */
  predicate Repelled(p: Particle, hasMouse: bool, mx: real, my: real, hyp: Hypot) {
    hasMouse && 0.001 < hyp(p.x - mx, p.y - my) < MouseRadius
  }

  /** One particle's frame in `animate`. */
  function ParticleStep(p: Particle, w: real, h: real, hasMouse: bool, mx: real, my: real,
                        hyp: Hypot, heading: Heading): (q: Particle)
    ensures var b := Bounce(p, w, h);
            q.x == b.x && q.y == b.y && q.r == b.r &&
            (!Repelled(b, hasMouse, mx, my, hyp) ==> q == b)
    ensures var b := Bounce(p, w, h);
            Repelled(b, hasMouse, mx, my, hyp) ==>
              var dx := b.x - mx;
              var dy := b.y - my;
              var push := PushFactor(hyp(dx, dy));
              q.vx == b.vx + heading(dx, dy).0 * push * 0.1 && q.vy == b.vy + heading(dx, dy).1 * push * 0.1
  {
    var b := Bounce(p, w, h);
    if hasMouse then
      var dx := b.x - mx;
      var dy := b.y - my;
      var dist := hyp(dx, dy);
      if dist < MouseRadius && dist > 0.001 then
        var push := (MouseRadius - dist) / MouseRadius;
        b.(vx := b.vx + heading(dx, dy).0 * push * 0.1, vy := b.vy + heading(dx, dy).1 * push * 0.1)
      else b
    else b
  }

  /** What a frame reads from the host and the effect. */
  datatype Env = Env(w: real, h: real, hasMouse: bool, mx: real, my: real, hyp: Hypot, heading: Heading)

  /** Every particle's update, in order. */
  function StepAll(ps: seq<Particle>, e: Env): (r: seq<Particle>)
    ensures |r| == |ps|
    decreases |ps|
  {
    if |ps| == 0 then []
    else StepAll(ps[..|ps| - 1], e) + [ParticleStep(ps[|ps| - 1], e.w, e.h, e.hasMouse, e.mx, e.my, e.hyp, e.heading)]
  }

  lemma {:induction false} StepAllAt(ps: seq<Particle>, e: Env, k: nat)
    requires k < |ps|
    ensures StepAll(ps, e)[k] == ParticleStep(ps[k], e.w, e.h, e.hasMouse, e.mx, e.my, e.hyp, e.heading)
    decreases |ps|
  {
    if k < |ps| - 1 {
      StepAllAt(ps[..|ps| - 1], e, k);
    }
  }

  lemma StepAllSnoc(ps: seq<Particle>, e: Env, i: nat)
    requires i < |ps|
    ensures StepAll(ps[..i + 1], e) == StepAll(ps[..i], e) + [ParticleStep(ps[i], e.w, e.h, e.hasMouse, e.mx, e.my, e.hyp, e.heading)]
  {
    PrefixSnoc(ps, i);
  }

  // ------------------------------------------------------- connections

  /** A line's opacity at distance `d`: `(1 - d / maxDist) * 0.3`, in
      (0, 0.3] for any `0 <= d < maxDist`. */
  function Alpha(d: real, maxDist: real): (a: real)
    requires maxDist > 0.0
    ensures 0.0 <= d < maxDist ==> 0.0 < a <= 0.3
  {
    assert d < maxDist ==> d / maxDist < 1.0 by {
      if d < maxDist {
        assert d < maxDist * 1.0;
      }
    }
    (1.0 - d / maxDist) * 0.3
  }

  /** The line between particles `i` and `j` when they are closer than
      `maxDist`. */
  function Link(ps: seq<Particle>, hyp: Hypot, maxDist: real, i: nat, j: nat): (r: seq<Line>)
    requires i < |ps| && j < |ps| && maxDist > 0.0
    ensures |r| <= 1
    ensures r != [] <==> hyp(ps[i].x - ps[j].x, ps[i].y - ps[j].y) < maxDist
    ensures r != [] ==> r[0] == Line(i, j, Alpha(hyp(ps[i].x - ps[j].x, ps[i].y - ps[j].y), maxDist))
  {
    var d := hyp(ps[i].x - ps[j].x, ps[i].y - ps[j].y);
    if d < maxDist then [Line(i, j, Alpha(d, maxDist))] else []
  }

  /** The lines from particle `i` to particles `i + 1 .. j - 1`. */
  function Row(ps: seq<Particle>, hyp: Hypot, maxDist: real, i: nat, j: nat): (r: seq<Line>)
    requires i < |ps| && j <= |ps| && maxDist > 0.0
    decreases j
  {
    if j <= i + 1 then [] else Row(ps, hyp, maxDist, i, j - 1) + Link(ps, hyp, maxDist, i, j - 1)
  }

  /** The lines of rows `0 .. n - 1`. */
  function Lines(ps: seq<Particle>, hyp: Hypot, maxDist: real, n: nat): (r: seq<Line>)
    requires n <= |ps| && maxDist > 0.0
    decreases n
  {
    if n == 0 then [] else Lines(ps, hyp, maxDist, n - 1) + Row(ps, hyp, maxDist, n - 1, |ps|)
  }

  /** The lines one frame draws. */
  function AllLines(ps: seq<Particle>, hyp: Hypot, maxDist: real): seq<Line>
    requires maxDist > 0.0
  {
    Lines(ps, hyp, maxDist, |ps|)
  }

  /** `i` before `j` in the order the double loop visits pairs. */
  predicate Before(a: Line, b: Line) {
    a.i < b.i || (a.i == b.i && a.j < b.j)
  }

  predicate Ordered(ls: seq<Line>) {
    forall a, b {:trigger Before(ls[a], ls[b])} :: 0 <= a < b < |ls| ==> Before(ls[a], ls[b])
  }

  lemma OrderedConcat(xs: seq<Line>, ys: seq<Line>)
    requires Ordered(xs) && Ordered(ys)
    requires forall a, b {:trigger Before(xs[a], ys[b])} :: 0 <= a < |xs| && 0 <= b < |ys| ==> Before(xs[a], ys[b])
    ensures Ordered(xs + ys)
  {
    var zs := xs + ys;
    forall a, b | 0 <= a < b < |zs|
      ensures Before(zs[a], zs[b])
    {
      if b < |xs| {
        assert zs[a] == xs[a] && zs[b] == xs[b];
      } else if a >= |xs| {
        assert zs[a] == ys[a - |xs|] && zs[b] == ys[b - |xs|];
      } else {
        assert zs[a] == xs[a] && zs[b] == ys[b - |xs|];
      }
    }
  }

  /** Particles `i` and `k` are close enough to be joined. */
  predicate Close(ps: seq<Particle>, hyp: Hypot, maxDist: real, i: nat, k: nat)
    requires i < |ps| && k < |ps|
  {
    hyp(ps[i].x - ps[k].x, ps[i].y - ps[k].y) < maxDist
  }

  /** Some line joins `i` to `k`. */
  predicate HasPair(ls: seq<Line>, i: nat, k: nat) {
    exists l: Line :: l in ls && l.i == i && l.j == k
  }

  lemma HasPairConcat(xs: seq<Line>, ys: seq<Line>, i: nat, k: nat)
    ensures HasPair(xs + ys, i, k) <==> HasPair(xs, i, k) || HasPair(ys, i, k)
  {
    if HasPair(xs + ys, i, k) {
      var l: Line :| l in xs + ys && l.i == i && l.j == k;
      assert l in xs || l in ys;
    }
    if HasPair(xs, i, k) {
      var l: Line :| l in xs && l.i == i && l.j == k;
      assert l in xs + ys;
    }
    if HasPair(ys, i, k) {
      var l: Line :| l in ys && l.i == i && l.j == k;
      assert l in xs + ys;
    }
  }

  /** Row `i` up to `j` holds only pairs `(i, k)` with `i < k < j`, in
      increasing `k`. */
  lemma {:induction false} RowShape(ps: seq<Particle>, hyp: Hypot, maxDist: real, i: nat, j: nat)
    requires i < |ps| && j <= |ps| && maxDist > 0.0
    ensures var r := Row(ps, hyp, maxDist, i, j);
            Ordered(r) && forall l: Line :: l in r ==> l.i == i && i < l.j < j
    decreases j
  {
    if j > i + 1 {
      RowShape(ps, hyp, maxDist, i, j - 1);
      OrderedConcat(Row(ps, hyp, maxDist, i, j - 1), Link(ps, hyp, maxDist, i, j - 1));
    }
  }

  /** Row `i` up to `j` joins `i` to exactly the close `k`, `i < k < j`. */
  lemma {:induction false} RowComplete(ps: seq<Particle>, hyp: Hypot, maxDist: real, i: nat, j: nat)
    requires i < |ps| && j <= |ps| && maxDist > 0.0
    ensures forall k :: i < k < j ==>
              (Close(ps, hyp, maxDist, i, k) <==> HasPair(Row(ps, hyp, maxDist, i, j), i, k))
    decreases j
  {
    if j > i + 1 {
      RowComplete(ps, hyp, maxDist, i, j - 1);
      RowShape(ps, hyp, maxDist, i, j - 1);
      var pre := Row(ps, hyp, maxDist, i, j - 1);
      var last := Link(ps, hyp, maxDist, i, j - 1);
      forall k | i < k < j
        ensures Close(ps, hyp, maxDist, i, k) <==> HasPair(pre + last, i, k)
      {
        HasPairConcat(pre, last, i, k);
        if k == j - 1 {
          if last != [] {
            assert last[0] in last;
          }
          assert !HasPair(pre, i, k);
        } else {
          assert !HasPair(last, i, k);
        }
      }
    }
  }

  /** Rows `0 .. n - 1` hold only pairs `i < j` with `i < n`. */
  lemma {:induction false} LinesBounds(ps: seq<Particle>, hyp: Hypot, maxDist: real, n: nat)
    requires n <= |ps| && maxDist > 0.0
    ensures forall l: Line :: l in Lines(ps, hyp, maxDist, n) ==> l.i < n && l.i < l.j < |ps|
    decreases n
  {
    if n > 0 {
      LinesBounds(ps, hyp, maxDist, n - 1);
      RowShape(ps, hyp, maxDist, n - 1, |ps|);
    }
  }

  /** Lines of earlier rows come before those of row `m`. */
  lemma RowsAfter(pre: seq<Line>, row: seq<Line>, m: nat)
    requires forall l: Line :: l in pre ==> l.i < m
    requires forall l: Line :: l in row ==> l.i == m
    ensures forall a, b {:trigger Before(pre[a], row[b])} :: 0 <= a < |pre| && 0 <= b < |row| ==> Before(pre[a], row[b])
  {
    forall a, b | 0 <= a < |pre| && 0 <= b < |row|
      ensures Before(pre[a], row[b])
    {
      assert pre[a] in pre && row[b] in row;
    }
  }

  /** Appending row `m` to the earlier rows keeps the visiting order. */
  lemma OrderedJoin(pre: seq<Line>, row: seq<Line>, m: nat, all: seq<Line>)
    requires Ordered(pre) && Ordered(row) && all == pre + row
    requires forall l: Line :: l in pre ==> l.i < m
    requires forall l: Line :: l in row ==> l.i == m
    ensures Ordered(all)
  {
    RowsAfter(pre, row, m);
    OrderedConcat(pre, row);
  }

  /** Appending row `m` to the earlier rows joins its close pairs. */
  lemma CompleteJoin(ps: seq<Particle>, hyp: Hypot, maxDist: real, m: nat, pre: seq<Line>, row: seq<Line>, all: seq<Line>)
    requires m < |ps| && maxDist > 0.0 && all == pre + row
    requires forall i, k :: 0 <= i < m && i < k < |ps| ==> (Close(ps, hyp, maxDist, i, k) <==> HasPair(pre, i, k))
    requires forall l: Line :: l in pre ==> l.i < m
    requires forall k :: m < k < |ps| ==> (Close(ps, hyp, maxDist, m, k) <==> HasPair(row, m, k))
    requires forall l: Line :: l in row ==> l.i == m
    ensures forall i, k :: 0 <= i <= m && i < k < |ps| ==> (Close(ps, hyp, maxDist, i, k) <==> HasPair(all, i, k))
  {
    forall i, k | 0 <= i <= m && i < k < |ps|
      ensures Close(ps, hyp, maxDist, i, k) <==> HasPair(all, i, k)
    {
      HasPairConcat(pre, row, i, k);
      if i < m {
        assert !HasPair(row, i, k);
      } else {
        assert !HasPair(pre, i, k);
      }
    }
  }

  /** Rows `0 .. n - 1` list their pairs in the order the double loop
      visits them. */
  lemma {:induction false} LinesOrdered(ps: seq<Particle>, hyp: Hypot, maxDist: real, n: nat)
    requires n <= |ps| && maxDist > 0.0
    ensures Ordered(Lines(ps, hyp, maxDist, n))
    decreases n
  {
    if n > 0 {
      LinesOrdered(ps, hyp, maxDist, n - 1);
      LinesBounds(ps, hyp, maxDist, n - 1);
      RowShape(ps, hyp, maxDist, n - 1, |ps|);
      OrderedStep(ps, hyp, maxDist, n - 1, Lines(ps, hyp, maxDist, n - 1), Row(ps, hyp, maxDist, n - 1, |ps|));
    }
  }

  lemma OrderedStep(ps: seq<Particle>, hyp: Hypot, maxDist: real, m: nat, pre: seq<Line>, row: seq<Line>)
    requires m < |ps| && maxDist > 0.0
    requires pre == Lines(ps, hyp, maxDist, m) && row == Row(ps, hyp, maxDist, m, |ps|)
    requires Ordered(pre) && Ordered(row)
    requires forall l: Line :: l in pre ==> l.i < m
    requires forall l: Line :: l in row ==> l.i == m
    ensures Ordered(Lines(ps, hyp, maxDist, m + 1))
  {
    assert Lines(ps, hyp, maxDist, m + 1) == pre + row;
    OrderedJoin(pre, row, m, pre + row);
  }

  /** The lines of rows `0 .. n - 1` join exactly the close pairs `i < k`
      with `i < n`. */
  lemma {:induction false} LinesComplete(ps: seq<Particle>, hyp: Hypot, maxDist: real, n: nat)
    requires n <= |ps| && maxDist > 0.0
    ensures forall i, k :: 0 <= i < n && i < k < |ps| ==>
              (Close(ps, hyp, maxDist, i, k) <==> HasPair(Lines(ps, hyp, maxDist, n), i, k))
    decreases n
  {
    if n > 0 {
      LinesComplete(ps, hyp, maxDist, n - 1);
      LinesBounds(ps, hyp, maxDist, n - 1);
      RowComplete(ps, hyp, maxDist, n - 1, |ps|);
      RowShape(ps, hyp, maxDist, n - 1, |ps|);
      CompleteJoin(ps, hyp, maxDist, n - 1, Lines(ps, hyp, maxDist, n - 1), Row(ps, hyp, maxDist, n - 1, |ps|),
                   Lines(ps, hyp, maxDist, n));
    }
  }

  /** The double loop of `animate` visits each unordered pair of particles
      once: its lines, in visiting order, join exactly the pairs closer
      than `maxDist`, each with its opacity. */
  lemma ConnectionsExactly(ps: seq<Particle>, hyp: Hypot, maxDist: real)
    requires maxDist > 0.0
    ensures var r := AllLines(ps, hyp, maxDist);
            Ordered(r) &&
            (forall l: Line :: l in r ==> l.i < l.j < |ps|) &&
            (forall i, k :: 0 <= i < k < |ps| ==> (Close(ps, hyp, maxDist, i, k) <==> HasPair(r, i, k)))
  {
    LinesOrdered(ps, hyp, maxDist, |ps|);
    LinesBounds(ps, hyp, maxDist, |ps|);
    LinesComplete(ps, hyp, maxDist, |ps|);
  }

  /** The inner loop of the connection pass: the lines from particle `i`
      to every later one. */
  method ConnectRow(ps: seq<Particle>, hyp: Hypot, maxDist: real, i: nat) returns (row: seq<Line>)
    requires i < |ps| && maxDist > 0.0
    ensures row == Row(ps, hyp, maxDist, i, |ps|)
  {
    row := [];
    var j := i + 1;
    while j < |ps|
      invariant i + 1 <= j <= |ps| || (j == i + 1 && j == |ps|)
      invariant row == Row(ps, hyp, maxDist, i, j)
    {
      var a := ps[i];
      var b := ps[j];
      var d := hyp(a.x - b.x, a.y - b.y);
      assert Row(ps, hyp, maxDist, i, j + 1) == row + Link(ps, hyp, maxDist, i, j);
      if d < maxDist {
        row := row + [Line(i, j, Alpha(d, maxDist))];
      }
      j := j + 1;
    }
  }

  /** The connection pass of `animate`: every pair `i < j` once, a line
      for the close ones. */
  method Connections(ps: seq<Particle>, hyp: Hypot, maxDist: real) returns (lines: seq<Line>)
    requires maxDist > 0.0
    ensures lines == AllLines(ps, hyp, maxDist)
  {
    lines := [];
    var i := 0;
    while i < |ps|
      invariant 0 <= i <= |ps|
      invariant lines == Lines(ps, hyp, maxDist, i)
    {
      var row := ConnectRow(ps, hyp, maxDist, i);
      lines := lines + row;
      i := i + 1;
    }
  }

  // ------------------------------------------------------------ effect

  /** What a frame takes from the host. */
  datatype Frame = Frame(hyp: Hypot, heading: Heading)

  class ParticlesEffect {
    var sched: Scheduler
    var animationId: Option<nat>
    var hasCtx: bool
    var listeners: set<Listener>
    /** How many `start()` calls got past the canvas check. */
    var generation: nat
    var w: real
    var h: real
    var hasMouse: bool
    var mouseX: real
    var mouseY: real
    var particles: seq<Particle>

    /** Only frames that were requested are pending; only starts that ran
        left listeners. */
    ghost predicate Valid()
      reads this
    {
      Fresh(sched) &&
      (sched.pending != {} ==> hasCtx) &&
      (forall l :: l in listeners ==> 1 <= l.generation <= generation)
    }

    constructor ()
      ensures Valid() && sched.pending == {} && listeners == {} && particles == [] && generation == 0
    {
      sched := Idle;
      animationId := None;
      hasCtx := false;
      listeners := {};
      generation := 0;
      w, h := 0.0, 0.0;
      hasMouse, mouseX, mouseY := false, 0.0, 0.0;
      particles := [];
    }

    /** The listeners one `start()` attaches. */
    static function Attached(gen: nat): set<Listener> {
      {Listener(Resize, gen), Listener(MouseMove, gen), Listener(MouseLeave, gen)}
    }

    /** `start()`: nothing without a canvas; otherwise a new set of
        listeners, fresh particles and a new animation loop, alongside
        whatever earlier starts left running. */
    method Start(hasCanvas: bool, width: real, height: real, g: Rng, fr: Frame)
      requires Valid()
      modifies this
      ensures Valid()
      ensures !hasCanvas ==> sched == old(sched) && listeners == old(listeners) && particles == old(particles)
      ensures !hasCanvas ==> unchanged(this)
      ensures hasMouse == old(hasMouse) && mouseX == old(mouseX) && mouseY == old(mouseY)
      ensures hasCanvas ==>
                hasCtx && generation == old(generation) + 1 &&
                listeners == old(listeners) + Attached(generation) &&
                Launched(width, height, g, fr, old(sched.pending))
    {
      if !hasCanvas {
        return;
      }
      hasCtx := true;
      generation := generation + 1;
      listeners := listeners + Attached(generation);
      Open(width, height, g, fr);
    }

    /** The state `start()` leaves past its canvas check: the window's size,
        a fresh set of particles moved by one frame, and one new frame
        pending beside those already pending. */
    ghost predicate Launched(width: real, height: real, g: Rng, fr: Frame, before: set<nat>)
      reads this
    {
      w == width && h == height &&
      particles == StepAll(Created(w, h, g, InitialCount(w)),
                           Env(w, h, hasMouse, mouseX, mouseY, fr.hyp, fr.heading)) &&
      animationId.Some? && animationId.value !in before &&
      sched.pending == before + {animationId.value}
    }

    /** The sizing and the tail of `start()`. */
    method Open(width: real, height: real, g: Rng, fr: Frame)
      requires Valid() && hasCtx
      modifies this`w, this`h, this`particles, this`sched, this`animationId
      ensures Valid() && Launched(width, height, g, fr, old(sched.pending))
    {
      w, h := width, height;
      Launch(InitialCount(width), g, fr);
    }

    /** The tail of `start()`: `initParticles()` then the first
        `animate()`. */
    method Launch(count: nat, g: Rng, fr: Frame)
      requires Valid() && hasCtx
      modifies this`particles, this`sched, this`animationId
      ensures Valid()
      ensures particles == StepAll(Created(w, h, g, count), Env(w, h, hasMouse, mouseX, mouseY, fr.hyp, fr.heading))
      ensures animationId.Some? && animationId.value !in old(sched.pending)
      ensures sched.pending == old(sched.pending) + {animationId.value}
    {
      InitParticles(count, g);
      var _ := Animate(fr);
    }

    /** `stop()`: cancel the latest frame id and detach the latest
        listeners; empty the particles and forget the mouse. */
    method Stop()
      requires Valid()
      modifies this`sched, this`listeners, this`particles, this`hasMouse, this`mouseX, this`mouseY
      ensures Valid()
      ensures sched.pending == (if old(animationId).Some? then old(sched.pending) - {old(animationId).value} else old(sched.pending))
      ensures generation == old(generation) && listeners == old(listeners) - Attached(generation)
      ensures particles == [] && !hasMouse && animationId == old(animationId)
    {
      if animationId.Some? {
        sched := Drop(sched, animationId.value);
      }
      listeners := listeners - Attached(generation);
      particles := [];
      hasMouse, mouseX, mouseY := false, 0.0, 0.0;
    }

    /** `resize()`, bound to the window's `resize` event: the size becomes
        the window's. */
    method OnResize(width: real, height: real)
      modifies this`w, this`h
      ensures w == width && h == height
    {
      w, h := width, height;
    }

    method OnMouseMove(x: real, y: real)
      modifies this`hasMouse, this`mouseX, this`mouseY
      ensures hasMouse && mouseX == x && mouseY == y
    {
      hasMouse, mouseX, mouseY := true, x, y;
    }

    method OnMouseLeave()
      modifies this`hasMouse
      ensures !hasMouse
    {
      hasMouse := false;
    }

    /** `initParticles()`. */
    method InitParticles(count: nat, g: Rng)
      modifies this`particles
      ensures particles == Created(w, h, g, count)
    {
      particles := [];
      var i := 0;
      while i < count
        invariant 0 <= i <= count && particles == Created(w, h, g, i)
      {
        particles := particles + [CreateParticle(w, h, g, i)];
        i := i + 1;
      }
    }

    /** The particle loop of `animate`. */
    method UpdateParticles(e: Env)
      modifies this`particles
      ensures particles == StepAll(old(particles), e)
    {
      ghost var ps := particles;
      var i := 0;
      while i < |particles|
        invariant 0 <= i <= |ps|
        invariant particles == StepAll(ps[..i], e) + ps[i..]
      {
        TailFrom(ps, i);
        var q := ParticleStep(particles[i], e.w, e.h, e.hasMouse, e.mx, e.my, e.hyp, e.heading);
        StepAllSnoc(ps, e, i);
        SnocUpdate(StepAll(ps[..i], e), ps[i..], q);
        particles := particles[i := q];
        i := i + 1;
      }
      assert ps[..|ps|] == ps;
    }

    /** `animate()`: update every particle, compute the connection lines,
        and request the next frame, whose id replaces `animationId`. */
    method Animate(fr: Frame) returns (lines: seq<Line>)
      requires Valid() && hasCtx
      modifies this`particles, this`sched, this`animationId
      ensures Valid()
      ensures particles == StepAll(old(particles), Env(w, h, hasMouse, mouseX, mouseY, fr.hyp, fr.heading))
      ensures lines == AllLines(particles, fr.hyp, MaxDist(w))
      ensures animationId.Some? && animationId.value !in old(sched.pending) && animationId.value >= old(sched.next)
      ensures sched.pending == old(sched.pending) + {animationId.value}
    {
      UpdateParticles(Env(w, h, hasMouse, mouseX, mouseY, fr.hyp, fr.heading));
      lines := Connections(particles, fr.hyp, MaxDist(w));
      var (s, id) := Request(sched);
      sched, animationId := s, Some(id);
    }

    /** Frame callback `id` of any running loop fires. */
    method OnFrame(id: nat, fr: Frame) returns (lines: seq<Line>)
      requires Valid() && id in sched.pending
      modifies this`particles, this`sched, this`animationId
      ensures Valid() && animationId.Some? && animationId.value !in old(sched.pending)
      ensures sched.pending == old(sched.pending) - {id} + {animationId.value}
      ensures particles == StepAll(old(particles), Env(w, h, hasMouse, mouseX, mouseY, fr.hyp, fr.heading))
      ensures lines == AllLines(particles, fr.hyp, MaxDist(w))
    {
      sched := Drop(sched, id);
      lines := Animate(fr);
    }
  }

  /** Starting twice and stopping once leaves the first loop running and
      the first listeners attached. */
  method StartTwiceStopOnce(width: real, height: real, g: Rng, fr: Frame) returns (e: ParticlesEffect)
    ensures e.sched.pending != {} && e.listeners == ParticlesEffect.Attached(1)
  {
    e := new ParticlesEffect();
    e.Start(true, width, height, g, fr);
    ghost var first := e.animationId.value;
    e.Start(true, width, height, g, fr);
    assert first in e.sched.pending && first != e.animationId.value;
    assert e.listeners == ParticlesEffect.Attached(1) + ParticlesEffect.Attached(2);
    e.Stop();
    assert first in e.sched.pending;
    assert forall l :: l in ParticlesEffect.Attached(1) ==> l !in ParticlesEffect.Attached(2);
  }
}
