/** The drift effect of js/effects/drift.js: a field of glowing motes that
    wander with clamped speed and wrap at the edges, wells planted by
    clicks that pull motes in for 320 frames and then blow the motes near
    them into fading fragments, with fresh motes entering from the edges to
    keep the population at its initial count. Square roots and
    `Math.pow(Math.random(), 0.7)` come in from the host. */
module Drift {
  import opened Host

  datatype Mote = Mote(x: real, y: real, size: real, speedX: real, speedY: real, hueOffset: real, depth: real)
  datatype Well = Well(x: real, y: real, life: int, radius: real)
  datatype Fragment = Fragment(x: real, y: real, vx: real, vy: real, life: real, lifeMax: real, size: real)
  datatype Listener = Resize | MouseMove | Click

  const MaxMotes := 900
  const MaxSpeed: real := 1.2
  const MinSize: real := 0.65
  const WellLife := 320
  const WellRadius: real := 140.0
  const MouseRadius: real := 120.0

  /** Motes per square pixel: sparser on a narrow (mobile) viewport. */
  function Density(isMobile: bool): real {
    if isMobile then 1.0 / 4200.0 else 1.0 / 3200.0
  }

  /** `initSingularity`'s count: `min(900, floor(w * h * density))`. */
  function InitialCount(w: real, h: real, isMobile: bool): (n: nat)
    requires w >= 0.0 && h >= 0.0
    ensures n <= MaxMotes
    ensures n as real <= w * h * Density(isMobile)
    ensures n < MaxMotes ==> w * h * Density(isMobile) < n as real + 1.0
  {
    assert w * h >= 0.0;
    var k := FloorNat(w * h * Density(isMobile));
    if k < MaxMotes then k else MaxMotes
  }

  /** `createParticle()` for mote `i`, from its seven draws. */
  function CreateMote(w: real, h: real, g: Rng, i: nat): (p: Mote)
    ensures p.size >= MinSize
    ensures w >= 0.0 && h >= 0.0 && IsUnit(g(i, 1)) && IsUnit(g(i, 2)) ==> 0.0 <= p.x <= w && 0.0 <= p.y <= h
  {
    ScaleUnit(g(i, 1), w);
    ScaleUnit(g(i, 2), h);
    Mote(g(i, 1) * w, g(i, 2) * h, Max(g(i, 0) * 1.2 + 0.35, MinSize),
         (g(i, 3) - 0.5) * 1.2, (g(i, 4) - 0.5) * 1.2, g(i, 5) * 360.0, g(i, 6))
  }

  /** `spawnFromEdge()` for new mote `i`: draw 0 picks the side, draw 1 the
      place along it, and draw 2 is the host's `Math.pow(Math.random(), 0.7)`. */
  function SpawnFromEdge(w: real, h: real, g: Rng, i: nat): (p: Mote)
    requires IsUnit(g(i, 0))
    ensures p.size >= MinSize
    ensures p.x == 0.0 || p.x == w || p.y == 0.0 || p.y == h
    ensures w >= 0.0 && h >= 0.0 && IsUnit(g(i, 1)) ==> 0.0 <= p.x <= w && 0.0 <= p.y <= h
  {
    var side := RandomIndex(g(i, 0), 4);
    var along := g(i, 1);
    ScaleUnit(along, w);
    ScaleUnit(along, h);
    var x := if side == 0 then 0.0 else if side == 1 then w else along * w;
    var y := if side == 0 || side == 1 then along * h else if side == 2 then 0.0 else h;
    Mote(x, y, Max(g(i, 2) * 1.2 + 0.35, MinSize),
         (g(i, 3) - 0.5) * 1.2, (g(i, 4) - 0.5) * 1.2, g(i, 5) * 360.0, g(i, 6))
  }

  /** The motes the population is topped up with; none when `n` is not
      positive. */
  function Backfill(w: real, h: real, g: Rng, n: int): (r: seq<Mote>)
    requires forall i: nat :: i < n ==> IsUnit(g(i, 0))
    ensures |r| == if n < 0 then 0 else n
    decreases n
  {
    if n <= 0 then [] else Backfill(w, h, g, n - 1) + [SpawnFromEdge(w, h, g, n - 1)]
  }

  lemma BackfillSnoc(w: real, h: real, g: Rng, j: nat)
    requires Fair(g)
    ensures Backfill(w, h, g, j + 1) == Backfill(w, h, g, j) + [SpawnFromEdge(w, h, g, j)]
  {
  }

  /** Every mote the top-up adds enters from an edge, no smaller than the
      minimum size. */
  lemma {:induction false} BackfillShape(w: real, h: real, g: Rng, n: int)
    requires forall i: nat :: i < n ==> IsUnit(g(i, 0))
    ensures forall p :: p in Backfill(w, h, g, n) ==> p.size >= MinSize
    ensures forall p :: p in Backfill(w, h, g, n) ==> p.x == 0.0 || p.x == w || p.y == 0.0 || p.y == h
    decreases n
  {
    if n > 0 {
      BackfillShape(w, h, g, n - 1);
    }
  }

  /** `createWell(x, y)`. */
  function NewWell(x: real, y: real): Well {
    Well(x, y, WellLife, WellRadius)
  }

  // ----------------------------------------------------------- explosions

  /** Is mote `p` strictly inside the circle of radius `r` around (x, y)? */
  predicate Caught(p: Mote, x: real, y: real, r: real) {
    (p.x - x) * (p.x - x) + (p.y - y) * (p.y - y) < r * r
  }

  /** `3 + floor(size * 2)` fragments per mote. */
  function Pieces(size: real): nat
    requires size >= 0.0
  {
    3 + FloorNat(size * 2.0)
  }

  /** Fragment `k` of exploded mote `p` (the mote at index `j`). */
  function Shard(p: Mote, g: Rng, j: nat, k: nat): Fragment {
    var strength := 1.2 + p.size * 1.2;
    var life := 20.0 + p.size * 10.0;
    Fragment(p.x, p.y, (g(j, 3 * k) - 0.5) * strength, (g(j, 3 * k + 1) - 0.5) * strength,
             life, life, p.size * (g(j, 3 * k + 2) * 0.6 + 0.4))
  }

  /** The fragments of exploded mote `p`. */
  function ShardsOf(p: Mote, g: Rng, j: nat): (r: seq<Fragment>)
    requires p.size >= 0.0
    ensures |r| == Pieces(p.size)
  {
    seq(Pieces(p.size), k requires 0 <= k => Shard(p, g, j, k))
  }

  /** Every fragment of a mote starts where the mote was, at full life
      `20 + 10 * size`. */
  lemma ShardsOfFresh(p: Mote, g: Rng, j: nat)
    requires p.size >= 0.0
    ensures forall f :: f in ShardsOf(p, g, j) ==> f.life == f.lifeMax == 20.0 + 10.0 * p.size && f.x == p.x && f.y == p.y
  {
    var r := ShardsOf(p, g, j);
    assert forall k :: 0 <= k < |r| ==> r[k] == Shard(p, g, j, k);
  }

  /** The motes `explodeNear` keeps, in their order. */
  function Kept(ps: seq<Mote>, x: real, y: real, r: real): (s: seq<Mote>)
    ensures |s| <= |ps|
  {
    if ps == [] then []
    else
      var last := ps[|ps| - 1];
      Kept(ps[..|ps| - 1], x, y, r) + (if Caught(last, x, y, r) then [] else [last])
  }

  /** `explodeNear` keeps exactly the motes outside the circle. */
  lemma {:induction false} KeptExactly(ps: seq<Mote>, x: real, y: real, r: real)
    ensures forall p :: p in Kept(ps, x, y, r) <==> p in ps && !Caught(p, x, y, r)
  {
    if ps != [] {
      KeptExactly(ps[..|ps| - 1], x, y, r);
      assert ps == ps[..|ps| - 1] + [ps[|ps| - 1]];
    }
  }

  /** No mote has a negative size. */
  predicate Sized(ps: seq<Mote>) {
    forall p :: p in ps ==> p.size >= 0.0
  }

  /** The fragments `explodeNear` pushes, mote by mote in array order. */
  function Shards(ps: seq<Mote>, x: real, y: real, r: real, g: Rng): (s: seq<Fragment>)
    requires Sized(ps)
  {
    if ps == [] then []
    else
      var last := ps[|ps| - 1];
      assert forall p :: p in ps[..|ps| - 1] ==> p in ps;
      Shards(ps[..|ps| - 1], x, y, r, g) + (if Caught(last, x, y, r) then ShardsOf(last, g, |ps| - 1) else [])
  }

  /** Every fragment an explosion pushes starts at full life, at least 20. */
  lemma {:induction false} ShardsFresh(ps: seq<Mote>, x: real, y: real, r: real, g: Rng)
    requires Sized(ps)
    ensures forall f :: f in Shards(ps, x, y, r, g) ==> f.life == f.lifeMax && f.life >= 20.0
  {
    if ps != [] {
      var last := ps[|ps| - 1];
      assert forall p :: p in ps[..|ps| - 1] ==> p in ps;
      ShardsFresh(ps[..|ps| - 1], x, y, r, g);
      ShardsOfFresh(last, g, |ps| - 1);
    }
  }

  /** One mote further into the array: it is kept or it leaves its
      fragments. */
  lemma PartitionSnoc(ps: seq<Mote>, x: real, y: real, r: real, g: Rng, i: nat)
    requires i < |ps| && Sized(ps)
    ensures Sized(ps[..i]) && Sized(ps[..i + 1]) && ps[i].size >= 0.0
    ensures Kept(ps[..i + 1], x, y, r) == Kept(ps[..i], x, y, r) + (if Caught(ps[i], x, y, r) then [] else [ps[i]])
    ensures Shards(ps[..i + 1], x, y, r, g) ==
              Shards(ps[..i], x, y, r, g) + (if Caught(ps[i], x, y, r) then ShardsOf(ps[i], g, i) else [])
  {
    PrefixSnoc(ps, i);
    assert forall p :: p in ps[..i] ==> p in ps;
    assert forall p :: p in ps[..i + 1] ==> p in ps;
  }

  /** A caught mote leaves exactly `Pieces(size)` fragments. */
  lemma {:induction false} ShardCount(ps: seq<Mote>, x: real, y: real, r: real, g: Rng)
    requires Sized(ps)
    ensures |Shards(ps, x, y, r, g)| == ShardTotal(ps, x, y, r)
  {
    if ps != [] {
      assert forall p :: p in ps[..|ps| - 1] ==> p in ps;
      ShardCount(ps[..|ps| - 1], x, y, r, g);
    }
  }

  function ShardTotal(ps: seq<Mote>, x: real, y: real, r: real): nat
    requires Sized(ps)
  {
    if ps == [] then 0
    else
      var last := ps[|ps| - 1];
      assert forall p :: p in ps[..|ps| - 1] ==> p in ps;
      ShardTotal(ps[..|ps| - 1], x, y, r) + (if Caught(last, x, y, r) then Pieces(last.size) else 0)
  }

  /** The inner loop of `explodeNear`: the fragments of mote `p`, the
      `j`-th one, in the order they are pushed. */
  method ShatterMote(p: Mote, g: Rng, j: nat) returns (pushed: seq<Fragment>)
    requires p.size >= 0.0
    ensures pushed == ShardsOf(p, g, j)
  {
    var pieces := Pieces(p.size);
    pushed := [];
    var k := 0;
    while k < pieces
      invariant 0 <= k <= pieces
      invariant pushed == ShardsOf(p, g, j)[..k]
    {
      pushed := pushed + [Shard(p, g, j, k)];
      k := k + 1;
      assert ShardsOf(p, g, j)[..k] == ShardsOf(p, g, j)[..k - 1] + [ShardsOf(p, g, j)[k - 1]];
    }
    assert ShardsOf(p, g, j)[..pieces] == ShardsOf(p, g, j);
  }

  /** The loop of `explodeNear` over the motes `ps`: keep the ones outside
      the circle, and collect the fragments of the ones inside in the
      order they are pushed. */
  method Partition(ps: seq<Mote>, x: real, y: real, radius: real, g: Rng)
      returns (survivors: seq<Mote>, pushed: seq<Fragment>)
    requires Sized(ps)
    ensures survivors == Kept(ps, x, y, radius)
    ensures pushed == Shards(ps, x, y, radius, g)
  {
    survivors, pushed := [], [];
    var i := 0;
    while i < |ps|
      invariant 0 <= i <= |ps|
      invariant survivors == Kept(ps[..i], x, y, radius)
      invariant pushed == Shards(ps[..i], x, y, radius, g)
    {
      var p := ps[i];
      PartitionSnoc(ps, x, y, radius, g, i);
      if Caught(p, x, y, radius) {
        var frs := ShatterMote(p, g, i);
        pushed := pushed + frs;
      } else {
        survivors := survivors + [p];
      }
      i := i + 1;
    }
    assert ps[..|ps|] == ps;
  }

  /** The refill loop of `explodeNear`: one edge spawn per missing mote,
      none when nothing is missing. */
  method TopUp(w: real, h: real, edges: Rng, missing: int) returns (added: seq<Mote>)
    requires Fair(edges)
    ensures added == Backfill(w, h, edges, missing)
  {
    ghost var target: nat := if missing < 0 then 0 else missing;
    added := [];
    var j: nat := 0;
    while j < missing
      invariant j <= target
      invariant added == Backfill(w, h, edges, j)
    {
      BackfillSnoc(w, h, edges, j);
      added := added + [SpawnFromEdge(w, h, edges, j)];
      j := j + 1;
    }
    assert Backfill(w, h, edges, missing) == Backfill(w, h, edges, j);
  }

  /** After an explosion and the top-up no mote is below the minimum
      size. */
  lemma RefillSized(ps: seq<Mote>, x: real, y: real, r: real, w: real, h: real, edges: Rng, n: int)
    requires Fair(edges) && forall p :: p in ps ==> p.size >= MinSize
    ensures forall p :: p in Kept(ps, x, y, r) + Backfill(w, h, edges, n) ==> p.size >= MinSize
  {
    KeptExactly(ps, x, y, r);
    BackfillShape(w, h, edges, n);
  }

  // ---------------------------------------------------------------- wells

  /** How many of the first `n` frames make a well with `life` frames left
      explode: it counts down each frame, explodes when it reaches 0, and is
      dropped then. */
  function WellFires(life: int, n: nat): nat
    decreases n
  {
    if n == 0 || life <= 0 then 0
    else (if life - 1 == 0 then 1 else 0) + WellFires(life - 1, n - 1)
  }

  /** A well explodes once, on frame number `life` (320 for a new well), and
      not before. */
  lemma {:induction false} WellFiresOnce(life: int, n: nat)
    requires life >= 1
    ensures WellFires(life, n) == if n >= life then 1 else 0
    decreases n
  {
    if n > 0 && life > 1 {
      WellFiresOnce(life - 1, n - 1);
    }
  }

  lemma NewWellFiresOnFrame320(x: real, y: real, n: nat)
    ensures WellFires(NewWell(x, y).life, n) == if n >= 320 then 1 else 0
  {
    WellFiresOnce(WellLife, n);
  }

  function AgeWell(wl: Well): Well {
    wl.(life := wl.life - 1)
  }

  /** `wells.filter(w => w.life > 0)`. */
  function LiveWells(ws: seq<Well>): (r: seq<Well>)
    ensures forall wl :: wl in r <==> wl in ws && wl.life > 0
  {
    if ws == [] then []
    else (if ws[0].life > 0 then [ws[0]] else []) + LiveWells(ws[1..])
  }

  // ------------------------------------------------------------ fragments

  function AgeFragment(f: Fragment): Fragment {
    f.(x := f.x + f.vx, y := f.y + f.vy, life := f.life - 1.0)
  }

  /** `fragments.filter(f => f.life > 0)`. */
  function LiveFragments(fs: seq<Fragment>): (r: seq<Fragment>)
    ensures forall f :: f in r <==> f in fs && f.life > 0.0
  {
    if fs == [] then []
    else (if fs[0].life > 0.0 then [fs[0]] else []) + LiveFragments(fs[1..])
  }

  function FragmentAfter(f: Fragment, n: nat): Fragment
    decreases n
  {
    if n == 0 then f else FragmentAfter(AgeFragment(f), n - 1)
  }

  /** A fragment loses one life per frame, so it is dropped on the first
      frame its life reaches 0 or less. */
  lemma {:induction false} FragmentCountsDown(f: Fragment, n: nat)
    ensures FragmentAfter(f, n).life == f.life - n as real
    ensures FragmentAfter(f, n).lifeMax == f.lifeMax
    decreases n
  {
    if n > 0 {
      FragmentCountsDown(AgeFragment(f), n - 1);
    }
  }

  // ---------------------------------------------------------------- motes

  /** A mote's position while the wells act on it, and whether any well has
      caught it so far. */
  datatype Pos = Pos(x: real, y: real, inside: bool)

  predicate InWell(x: real, y: real, wl: Well) {
    (wl.x - x) * (wl.x - x) + (wl.y - y) * (wl.y - y) < wl.radius * wl.radius
  }

  /** One well's pull: strongest at the centre. `root` is the host's
      `Math.sqrt(d2)`, with 0 read as 1 as in `Math.sqrt(d2) || 1`. */
  function Pull(s: Pos, wl: Well, root: real): (r: Pos)
    ensures r.inside == (s.inside || InWell(s.x, s.y, wl))
    ensures !InWell(s.x, s.y, wl) ==> r == s
  {
    var dx := wl.x - s.x;
    var dy := wl.y - s.y;
    if InWell(s.x, s.y, wl) then
      assert wl.radius != 0.0 by {
        assert dx * dx + dy * dy >= 0.0;
      }
      var dist := if root == 0.0 then 1.0 else root;
      var pull := 0.02 + (1.0 - dist / wl.radius) * 0.05;
      Pos(s.x + dx * pull, s.y + dy * pull, true)
    else s
  }

  /** The pulls of `wells[k..]` in order, each from where the last left
      the mote; `roots(i, k)` is the distance root for mote `i` and well `k`. */
  function PullFrom(s: Pos, wells: seq<Well>, roots: (nat, nat) -> real, i: nat, k: nat): (r: Pos)
    requires k <= |wells|
    ensures s.inside ==> r.inside
    decreases |wells| - k
  {
    if k == |wells| then s else PullFrom(Pull(s, wells[k], roots(i, k)), wells, roots, i, k + 1)
  }

  /** The mouse's push, only for a mote no well holds. */
  function Repel(s: Pos, hasMouse: bool, mx: real, my: real): (r: Pos)
    ensures s.inside || !hasMouse ==> r == s
  {
    var dx := s.x - mx;
    var dy := s.y - my;
    var r2 := MouseRadius * MouseRadius;
    var d2 := dx * dx + dy * dy;
    if hasMouse && !s.inside && d2 < r2 then
      var f := (r2 - d2) / r2;
      Pos(s.x + dx * f * 0.55, s.y + dy * f * 0.55, s.inside)
    else s
  }

  /** `Math.max(-max, Math.min(max, v))`. */
  function Clamp(v: real): (r: real)
    ensures -MaxSpeed <= r <= MaxSpeed
    ensures -MaxSpeed <= v <= MaxSpeed ==> r == v
  {
    Max(-MaxSpeed, Min(MaxSpeed, v))
  }

  /** The wrap rule: below 0 jumps to the far edge, beyond it to 0. */
  function Wrap(v: real, limit: real): (r: real)
    ensures limit >= 0.0 ==> 0.0 <= r <= limit
    ensures 0.0 <= v <= limit ==> r == v
  {
    var a := if v < 0.0 then limit else v;
    if a > limit then 0.0 else a
  }

  /** Everything a frame of `updateParticle` needs besides the mote: the
      wells, the mouse, the viewport, the host's draws and roots. */
  datatype Field = Field(wells: seq<Well>, hasMouse: bool, mouseX: real, mouseY: real, w: real, h: real,
                         jitter: Rng, roots: (nat, nat) -> real)

  /** The part of `updateParticle` after the wells and the mouse have
      moved mote `i` to `s`: jitter and clamp the speed, drift, and wrap. */
  function Glide(p: Mote, s: Pos, w: real, h: real, jitter: Rng, i: nat): (q: Mote)
    ensures -MaxSpeed <= q.speedX <= MaxSpeed && -MaxSpeed <= q.speedY <= MaxSpeed
    ensures w >= 0.0 ==> 0.0 <= q.x <= w
    ensures h >= 0.0 ==> 0.0 <= q.y <= h
    ensures q.size == p.size && q.depth == p.depth && q.hueOffset == p.hueOffset
  {
    var sx := Clamp(p.speedX + (jitter(i, 0) - 0.5) * 0.05);
    var sy := Clamp(p.speedY + (jitter(i, 1) - 0.5) * 0.05);
    var depth := 0.6 + p.depth * 0.6;
    var boost := 1.0 + p.size * 0.045;
    p.(x := Wrap(s.x + sx * depth * boost, w), y := Wrap(s.y + sy * depth * boost, h),
       speedX := sx, speedY := sy)
  }

  /** `updateParticle(p)` for mote `i`: the wells' pulls, the mouse's push
      for a mote no well holds, then the glide. */
  function MoteStep(p: Mote, f: Field, i: nat): (q: Mote)
    ensures -MaxSpeed <= q.speedX <= MaxSpeed && -MaxSpeed <= q.speedY <= MaxSpeed
    ensures f.w >= 0.0 ==> 0.0 <= q.x <= f.w
    ensures f.h >= 0.0 ==> 0.0 <= q.y <= f.h
    ensures q.size == p.size && q.depth == p.depth && q.hueOffset == p.hueOffset
  {
    var pulled := PullFrom(Pos(p.x, p.y, false), f.wells, f.roots, i, 0);
    Glide(p, Repel(pulled, f.hasMouse, f.mouseX, f.mouseY), f.w, f.h, f.jitter, i)
  }

  /** Whether some well holds mote `i` this frame. */
  predicate HeldByWell(p: Mote, f: Field, i: nat) {
    PullFrom(Pos(p.x, p.y, false), f.wells, f.roots, i, 0).inside
  }

  /** The mouse only pushes motes no well holds: for a held mote the
      mouse's presence and place make no difference. */
  lemma MouseIgnoredInWell(p: Mote, f: Field, i: nat, hasMouse: bool, mx: real, my: real)
    requires HeldByWell(p, f, i)
    ensures MoteStep(p, f, i) == MoteStep(p, f.(hasMouse := hasMouse, mouseX := mx, mouseY := my), i)
  {
    var s := PullFrom(Pos(p.x, p.y, false), f.wells, f.roots, i, 0);
    assert Repel(s, f.hasMouse, f.mouseX, f.mouseY) == s == Repel(s, hasMouse, mx, my);
  }

  /** `(r2 - d2) / r2 * 0.55`, the push factor at squared distance `d2`. */
  function PushFactor(s: Pos, mx: real, my: real): real {
    var r2 := MouseRadius * MouseRadius;
    var d2 := (s.x - mx) * (s.x - mx) + (s.y - my) * (s.y - my);
    (r2 - d2) / r2 * 0.55
  }

  /** And with no well holding it, a mote near the mouse is pushed
      straight away from it, by a positive factor (before the glide). */
  lemma MousePushesFree(s: Pos, mx: real, my: real)
    requires !s.inside
    requires (s.x - mx) * (s.x - mx) + (s.y - my) * (s.y - my) < MouseRadius * MouseRadius
    ensures var t := Repel(s, true, mx, my);
            PushFactor(s, mx, my) > 0.0 &&
            t.x - s.x == (s.x - mx) * PushFactor(s, mx, my) && t.y - s.y == (s.y - my) * PushFactor(s, mx, my)
  {
  }

  // --------------------------------------------------------------- effect

  /** Everything one `animate()` takes from the host: the drift draws and
      well roots of `updateParticle`, and per exploding well (by index) the
      fragment draws and the edge-spawn draws. */
  datatype DriftFrame = DriftFrame(jitter: Rng, roots: (nat, nat) -> real, shards: nat -> Rng, edges: nat -> Rng)

  ghost predicate FairFrame(fr: DriftFrame) {
    forall k: nat :: Fair(fr.edges(k))
  }

  // ---------------------------------------------------------- a whole frame

  /** What one frame of `animate` changes: the motes, the wells and the
      fragments. */
  datatype Scene = Scene(motes: seq<Mote>, wells: seq<Well>, frags: seq<Fragment>)

  /** No mote is below the minimum size. */
  predicate Grown(ps: seq<Mote>) {
    forall p :: p in ps ==> p.size >= MinSize
  }

  /** The motes and the fragments, the part of the scene an explosion
      changes. */
  datatype Debris = Debris(motes: seq<Mote>, frags: seq<Fragment>)

  /** `explodeNear(x, y, r)` on values: the motes outside the circle stay
      in order and the population is topped up to `count` from the edges;
      each caught mote appends its fragments. */
  function Blast(d: Debris, x: real, y: real, r: real, count: nat, w: real, h: real, g: Rng, edges: Rng): (e: Debris)
    requires Fair(edges) && Grown(d.motes)
    ensures Grown(e.motes) && d.frags <= e.frags
    ensures |d.motes| <= count ==> |e.motes| == count
  {
    RefillSized(d.motes, x, y, r, w, h, edges, count - |Kept(d.motes, x, y, r)|);
    var kept := Kept(d.motes, x, y, r);
    Debris(kept + Backfill(w, h, edges, count - |kept|), d.frags + Shards(d.motes, x, y, r, g))
  }

  /** The `for (w of wells)` loop of `updateWells` over the first `n` wells
      of `ws`, in index order: well `k` explodes, with the draws of frame
      slot `k`, exactly when its countdown reaches 0. */
  function WellsPass(d: Debris, ws: seq<Well>, n: nat, count: nat, w: real, h: real, fr: DriftFrame): (e: Debris)
    requires n <= |ws| && FairFrame(fr) && Grown(d.motes)
    ensures Grown(e.motes) && d.frags <= e.frags
    ensures |d.motes| == count ==> |e.motes| == count
    decreases n
  {
    if n == 0 then d
    else
      var t := WellsPass(d, ws, n - 1, count, w, h, fr);
      var wl := AgeWell(ws[n - 1]);
      if wl.life == 0 then Blast(t, wl.x, wl.y, wl.radius, count, w, h, fr.shards(n - 1), fr.edges(n - 1)) else t
  }

  /** A frame in which no well reaches the end of its countdown explodes
      nothing: the motes and fragments are as they were. */
  lemma {:induction false} WellsPassQuiet(d: Debris, ws: seq<Well>, n: nat, count: nat, w: real, h: real, fr: DriftFrame)
    requires n <= |ws| && FairFrame(fr) && Grown(d.motes)
    requires forall k :: 0 <= k < n ==> WellFires(ws[k].life, 1) == 0
    ensures WellsPass(d, ws, n, count, w, h, fr) == d
    decreases n
  {
    if n > 0 {
      WellsPassQuiet(d, ws, n - 1, count, w, h, fr);
      assert WellFires(ws[n - 1].life, 1) == 0;
    }
  }

  /** One more well in the pass: it explodes exactly when `WellFires`
      counts a firing for it this frame. */
  lemma WellsPassSnoc(d: Debris, ws: seq<Well>, n: nat, count: nat, w: real, h: real, fr: DriftFrame)
    requires n < |ws| && FairFrame(fr) && Grown(d.motes)
    ensures var t := WellsPass(d, ws, n, count, w, h, fr);
            var wl := ws[n];
            WellsPass(d, ws, n + 1, count, w, h, fr) ==
              if WellFires(wl.life, 1) == 1 then Blast(t, wl.x, wl.y, wl.radius, count, w, h, fr.shards(n), fr.edges(n)) else t
  {
  }

  /** Every mote takes its `updateParticle` step. */
  function Moved(ps: seq<Mote>, f: Field): (r: seq<Mote>)
    ensures |r| == |ps|
  {
    seq(|ps|, i requires 0 <= i < |ps| => MoteStep(ps[i], f, i))
  }

  /** Moving keeps every mote's size, so no mote falls below the minimum. */
  lemma MovedGrown(ps: seq<Mote>, f: Field)
    requires Grown(ps)
    ensures Grown(Moved(ps, f))
  {
    var moved := Moved(ps, f);
    forall p | p in moved
      ensures p.size >= MinSize
    {
      var k :| 0 <= k < |moved| && moved[k] == p;
      assert ps[k] in ps;
    }
  }

  /** Every well one frame older. */
  function Aged(ws: seq<Well>): (r: seq<Well>)
    ensures |r| == |ws| && forall k :: 0 <= k < |ws| ==> r[k] == AgeWell(ws[k])
  {
    seq(|ws|, k requires 0 <= k < |ws| => AgeWell(ws[k]))
  }

  /** Every fragment moved and one life shorter. */
  function Faded(fs: seq<Fragment>): (r: seq<Fragment>)
    ensures |r| == |fs| && forall k :: 0 <= k < |fs| ==> r[k] == AgeFragment(fs[k])
  {
    seq(|fs|, k requires 0 <= k < |fs| => AgeFragment(fs[k]))
  }

  /** The first part of a frame: every mote moves under the wells of the
      scene and the mouse. */
  function Drifted(s: Scene, hasMouse: bool, mx: real, my: real, w: real, h: real, fr: DriftFrame): (r: Scene)
    requires Grown(s.motes)
    ensures Grown(r.motes) && |r.motes| == |s.motes| && r.wells == s.wells && r.frags == s.frags
  {
    MovedGrown(s.motes, Field(s.wells, hasMouse, mx, my, w, h, fr.jitter, fr.roots));
    s.(motes := Moved(s.motes, Field(s.wells, hasMouse, mx, my, w, h, fr.jitter, fr.roots)))
  }

  /** The body of one `animate()`: the motes move under the wells that exist
      at the start of the frame and the mouse; then the wells count down and
      explode in order; then the fragments (old and new) age; the spent wells
      and fragments are dropped. */
  function Frame(s: Scene, count: nat, hasMouse: bool, mx: real, my: real, w: real, h: real, fr: DriftFrame): (r: Scene)
    requires FairFrame(fr) && Grown(s.motes)
    ensures Grown(r.motes) && (|s.motes| == count ==> |r.motes| == count)
    ensures r.wells == LiveWells(Aged(s.wells))
    ensures forall f :: f in r.frags ==> f.life > 0.0
  {
    var mv := Drifted(s, hasMouse, mx, my, w, h, fr);
    var t := WellsPass(Debris(mv.motes, mv.frags), s.wells, |s.wells|, count, w, h, fr);
    Scene(t.motes, LiveWells(Aged(s.wells)), LiveFragments(Faded(t.frags)))
  }

  /** The motes `initSingularity` creates, in order. */
  function Created(w: real, h: real, g: Rng, n: nat): (r: seq<Mote>)
    ensures |r| == n && Grown(r) && forall i :: 0 <= i < n ==> r[i] == CreateMote(w, h, g, i)
  {
    seq(n, i requires 0 <= i < n => CreateMote(w, h, g, i))
  }

  /** `Frame` from its pieces, as `Step` computes them one after another. */
  lemma FrameFrom(s: Scene, count: nat, hasMouse: bool, mx: real, my: real, w: real, h: real, fr: DriftFrame, mv: Scene, m: Scene)
    requires FairFrame(fr) && Grown(s.motes) && mv == Drifted(s, hasMouse, mx, my, w, h, fr)
    requires var t := WellsPass(Debris(mv.motes, mv.frags), mv.wells, |mv.wells|, count, w, h, fr);
             m == Scene(t.motes, LiveWells(Aged(mv.wells)), LiveFragments(Faded(t.frags)))
    ensures Frame(s, count, hasMouse, mx, my, w, h, fr) == m
  {
  }

  class DriftEffect {
    var sched: Scheduler
    var animationId: Option<nat>
    var running: bool
    var hasCtx: bool
    var listeners: set<Listener>
    var w: real
    var h: real
    var isMobile: bool
    var initCount: nat
    var hasMouse: bool
    var mouseX: real
    var mouseY: real
    var singularities: seq<Mote>
    var wells: seq<Well>
    var fragments: seq<Fragment>

    /** A scheduled frame only exists while running with a surface and a
        full population; wells count down from 320 and fragments still have
        life. */
    ghost predicate Valid()
      reads this
    {
      Fresh(sched) &&
      sched.pending <= (if animationId.Some? then {animationId.value} else {}) &&
      (sched.pending != {} ==> running && hasCtx && |singularities| == initCount) &&
      w >= 0.0 && h >= 0.0 &&
      (forall p :: p in singularities ==> p.size >= MinSize) &&
      (forall wl :: wl in wells ==> 1 <= wl.life <= WellLife && wl.radius == WellRadius) &&
      (forall f :: f in fragments ==> f.life > 0.0)
    }

    /** The scene one frame works on. */
    function Snapshot(): Scene
      reads this
    {
      Scene(singularities, wells, fragments)
    }

    /** The part of the scene an explosion changes. */
    function Loose(): Debris
      reads this
    {
      Debris(singularities, fragments)
    }

    constructor ()
      ensures Valid() && !running && sched.pending == {} && singularities == [] && wells == [] && fragments == []
      ensures listeners == {} && initCount == 0 && !hasMouse
    {
      sched := Idle;
      animationId := None;
      running, hasCtx := false, false;
      listeners := {};
      w, h, isMobile := 0.0, 0.0, false;
      initCount := 0;
      hasMouse, mouseX, mouseY := false, 0.0, 0.0;
      singularities, wells, fragments := [], [], [];
    }

    /** `start()`. `running` is set before the canvas check, so without a
        canvas the effect counts as running with nothing scheduled, and
        later starts do nothing until a stop. */
    method Start(hasCanvas: bool, width: real, height: real, init: Rng, fr: DriftFrame)
      requires Valid() && width >= 0.0 && height >= 0.0 && FairFrame(fr)
      modifies this`running, this`hasCtx, this`listeners, this`w, this`h, this`isMobile, this`initCount,
               this`singularities, this`wells, this`fragments, this`sched, this`animationId
      ensures Valid()
      ensures old(running) ==> sched == old(sched) && singularities == old(singularities) &&
                               wells == old(wells) && fragments == old(fragments) && listeners == old(listeners)
      ensures old(running) ==> unchanged(this)
      ensures !old(running) ==> running
      ensures !old(running) && !hasCanvas ==> sched == old(sched) && listeners == old(listeners)
      ensures !old(running) && !hasCanvas ==>
                unchanged(this`hasCtx, this`listeners, this`w, this`h, this`isMobile, this`initCount,
                          this`singularities, this`wells, this`fragments, this`sched, this`animationId)
      ensures !old(running) && hasCanvas ==>
                listeners == {Resize, MouseMove, Click} &&
                animationId.Some? && sched.pending == {animationId.value} &&
                w == width && h == height && initCount == InitialCount(width, height, width < 600.0) &&
                Snapshot() == Frame(Scene(Created(width, height, init, initCount), old(wells), old(fragments)),
                                    initCount, hasMouse, mouseX, mouseY, width, height, fr)
    {
      if running {
        return;
      }
      running := true;
      if !hasCanvas {
        return;
      }
      hasCtx := true;
      listeners := {Resize, MouseMove, Click};
      Launch(width, height, init, fr);
    }

    /** The rest of `start()` once the surface and listeners are set up:
        size the viewport, create the population, and run the first frame. */
    method Launch(width: real, height: real, init: Rng, fr: DriftFrame)
      requires Valid() && running && hasCtx && sched.pending == {}
      requires width >= 0.0 && height >= 0.0 && FairFrame(fr)
      modifies this`w, this`h, this`isMobile, this`initCount, this`singularities, this`wells, this`fragments,
               this`sched, this`animationId
      ensures Valid() && animationId.Some? && sched.pending == {animationId.value}
      ensures w == width && h == height && initCount == InitialCount(width, height, width < 600.0)
      ensures Snapshot() == Frame(Scene(Created(width, height, init, initCount), old(wells), old(fragments)),
                                  initCount, hasMouse, mouseX, mouseY, width, height, fr)
    {
      Populate(width, height, init);
      Animate(fr);
    }

    /** `resize()` and `initSingularity()` of `start()`. */
    method Populate(width: real, height: real, init: Rng)
      requires Valid() && sched.pending == {} && width >= 0.0 && height >= 0.0
      modifies this`w, this`h, this`isMobile, this`initCount, this`singularities
      ensures Valid() && w == width && h == height && initCount == InitialCount(width, height, width < 600.0)
      ensures singularities == Created(width, height, init, initCount)
    {
      OnResize(width, height);
      InitSingularity(init);
    }

    /** `stop()`: nothing unless running; otherwise cancel the frame, detach
        the listeners and empty the three collections. `animationId` keeps the
        stale id. */
    method Stop()
      requires Valid()
      modifies this`running, this`sched, this`listeners, this`singularities, this`wells, this`fragments
      ensures Valid() && !running && sched.pending == {}
      ensures !old(running) ==> unchanged(this)
      ensures !old(running) ==> singularities == old(singularities) && wells == old(wells) &&
                                fragments == old(fragments) && listeners == old(listeners)
      ensures old(running) ==> singularities == [] && wells == [] && fragments == [] && listeners == {}
      ensures animationId == old(animationId) && initCount == old(initCount)
    {
      if !running {
        return;
      }
      running := false;
      if animationId.Some? {
        sched := Drop(sched, animationId.value);
      }
      listeners := {};
      singularities, fragments, wells := [], [], [];
    }

    /** `resize()`: the viewport, and whether it is narrow. */
    method OnResize(width: real, height: real)
      requires width >= 0.0 && height >= 0.0
      modifies this`w, this`h, this`isMobile
      ensures w == width && h == height && isMobile == (width < 600.0)
    {
      w, h := width, height;
      isMobile := w < 600.0;
    }

    /** The `mousemove` listener. */
    method OnMove(x: real, y: real)
      modifies this`mouseX, this`mouseY, this`hasMouse
      ensures mouseX == x && mouseY == y && hasMouse
    {
      mouseX, mouseY, hasMouse := x, y, true;
    }

    /** The `click` listener: `createWell(x, y)`. */
    method OnClick(x: real, y: real)
      requires Valid()
      modifies this`wells
      ensures Valid() && wells == old(wells) + [NewWell(x, y)]
    {
      wells := wells + [NewWell(x, y)];
    }

    /** `initSingularity()`. */
    method InitSingularity(g: Rng)
      requires Valid() && sched.pending == {}
      modifies this`initCount, this`singularities
      ensures Valid()
      ensures initCount == InitialCount(w, h, isMobile) && |singularities| == initCount
      ensures singularities == Created(w, h, g, initCount)
    {
      var count := InitialCount(w, h, isMobile);
      initCount := count;
      singularities := [];
      var i := 0;
      while i < count
        invariant 0 <= i <= count && |singularities| == i && initCount == count
        invariant forall k :: 0 <= k < i ==> singularities[k] == CreateMote(w, h, g, k)
        invariant forall p :: p in singularities ==> p.size >= MinSize
      {
        singularities := singularities + [CreateMote(w, h, g, i)];
        i := i + 1;
      }
      assert singularities == Created(w, h, g, count);
    }

    /** `explodeNear(x, y, radius)`: keep the motes outside the circle in
        order, turn each one inside into its fragments, then top the
        population back up to `initCount` from the edges. */
    method ExplodeNear(x: real, y: real, radius: real, g: Rng, edges: Rng)
      requires Fair(edges)
      requires forall p :: p in singularities ==> p.size >= MinSize
      modifies this`singularities, this`fragments
      ensures singularities == Kept(old(singularities), x, y, radius)
                               + Backfill(w, h, edges, initCount - |Kept(old(singularities), x, y, radius)|)
      ensures fragments == old(fragments) + Shards(old(singularities), x, y, radius, g)
      ensures var kept := |Kept(old(singularities), x, y, radius)|;
              |singularities| == if kept < initCount then initCount else kept
      ensures |old(singularities)| <= initCount ==> |singularities| == initCount
      ensures forall p :: p in singularities ==> p.size >= MinSize
      ensures Loose() == Blast(old(Loose()), x, y, radius, initCount, w, h, g, edges)
    {
      assert Sized(singularities);
      var survivors, pushed := Partition(singularities, x, y, radius, g);
      fragments := fragments + pushed;
      RefillSized(singularities, x, y, radius, w, h, edges, initCount - |survivors|);
      singularities := survivors;
      var added := TopUp(w, h, edges, initCount - |survivors|);
      singularities := singularities + added;
    }

    /** `updateParticle(p)` for mote `i`, with its loop over the wells. */
    method UpdateMote(p: Mote, f: Field, i: nat) returns (q: Mote)
      ensures q == MoteStep(p, f, i)
    {
      var s := Pos(p.x, p.y, false);
      var k := 0;
      while k < |f.wells|
        invariant 0 <= k <= |f.wells|
        invariant PullFrom(s, f.wells, f.roots, i, k) == PullFrom(Pos(p.x, p.y, false), f.wells, f.roots, i, 0)
      {
        s := Pull(s, f.wells[k], f.roots(i, k));
        k := k + 1;
      }
      s := Repel(s, f.hasMouse, f.mouseX, f.mouseY);
      q := Glide(p, s, f.w, f.h, f.jitter, i);
    }

    /** The `for (p of singularities)` loop of `animate`. */
    method UpdateMotes(f: Field)
      requires Valid()
      modifies this`singularities
      ensures Valid()
      ensures singularities == Moved(old(singularities), f)
    {
      var i := 0;
      while i < |singularities|
        invariant 0 <= i <= |singularities| == |old(singularities)|
        invariant forall k :: 0 <= k < i ==> singularities[k] == MoteStep(old(singularities)[k], f, k)
        invariant forall k :: i <= k < |singularities| ==> singularities[k] == old(singularities)[k]
      {
        var q := UpdateMote(singularities[i], f, i);
        singularities := singularities[i := q];
        i := i + 1;
      }
      assert singularities == Moved(old(singularities), f);
      MovedGrown(old(singularities), f);
    }

    /** One turn of the wells loop of `animate`: well `i` ages by one
        frame, and when its life runs out the motes near it explode. */
    method AgeWellAt(i: nat, fr: DriftFrame)
      requires i < |wells| && FairFrame(fr)
      requires forall p :: p in singularities ==> p.size >= MinSize
      requires forall f :: f in fragments ==> f.life > 0.0
      modifies this`wells, this`singularities, this`fragments
      ensures wells == old(wells)[i := AgeWell(old(wells)[i])]
      ensures var wl := AgeWell(old(wells)[i]);
              wl.life == 0 ==> Loose() == Blast(old(Loose()), wl.x, wl.y, wl.radius, initCount, w, h, fr.shards(i), fr.edges(i))
      ensures AgeWell(old(wells)[i]).life != 0 ==> Loose() == old(Loose())
      ensures forall p :: p in singularities ==> p.size >= MinSize
      ensures forall f :: f in fragments ==> f.life > 0.0
    {
      wells := wells[i := AgeWell(wells[i])];
      if wells[i].life == 0 {
        ShardsFresh(singularities, wells[i].x, wells[i].y, wells[i].radius, fr.shards(i));
        ExplodeNear(wells[i].x, wells[i].y, wells[i].radius, fr.shards(i), fr.edges(i));
      }
    }

    /** `updateWells()`: count every well down, explode the ones that reach
        0, then drop them. */
    method UpdateWells(fr: DriftFrame)
      requires Valid() && FairFrame(fr)
      modifies this`wells, this`singularities, this`fragments
      ensures Valid()
      ensures wells == LiveWells(Aged(old(wells)))
      ensures Loose() == WellsPass(old(Loose()), old(wells), |old(wells)|, initCount, w, h, fr)
    {
      CountDownWells(fr);
      wells := LiveWells(wells);
    }

    /** The `for (w of wells)` loop of `updateWells`. */
    method CountDownWells(fr: DriftFrame)
      requires FairFrame(fr)
      requires forall p :: p in singularities ==> p.size >= MinSize
      requires forall f :: f in fragments ==> f.life > 0.0
      modifies this`wells, this`singularities, this`fragments
      ensures wells == Aged(old(wells))
      ensures Loose() == WellsPass(old(Loose()), old(wells), |old(wells)|, initCount, w, h, fr)
      ensures forall f :: f in fragments ==> f.life > 0.0
    {
      ghost var ws := wells;
      ghost var d0 := Loose();
      var i := 0;
      while i < |wells|
        invariant 0 <= i <= |wells| == |ws|
        invariant forall k :: 0 <= k < i ==> wells[k] == AgeWell(ws[k])
        invariant forall k :: i <= k < |wells| ==> wells[k] == ws[k]
        invariant forall p :: p in singularities ==> p.size >= MinSize
        invariant forall f :: f in fragments ==> f.life > 0.0
        invariant Loose() == WellsPass(d0, ws, i, initCount, w, h, fr)
      {
        AgeWellAt(i, fr);
        i := i + 1;
      }
      assert wells == Aged(ws);
    }

    /** `updateFragments()`: move each fragment and take one life, then drop
        those with none left. */
    method UpdateFragments()
      modifies this`fragments
      ensures fragments == LiveFragments(Faded(old(fragments)))
      ensures forall f :: f in fragments ==> f.life > 0.0
    {
      ghost var fs := fragments;
      var i := 0;
      while i < |fragments|
        invariant 0 <= i <= |fragments| == |fs|
        invariant forall k :: 0 <= k < i ==> fragments[k] == AgeFragment(fs[k])
        invariant forall k :: i <= k < |fragments| ==> fragments[k] == fs[k]
      {
        fragments := fragments[i := AgeFragment(fragments[i])];
        i := i + 1;
      }
      assert fragments == Faded(fs);
      fragments := LiveFragments(fragments);
    }

    /** `animate()`: nothing once stopped; otherwise a frame of motes, wells
        and fragments, then the next frame. */
    method Animate(fr: DriftFrame)
      requires Valid() && FairFrame(fr) && sched.pending == {}
      requires running ==> hasCtx && |singularities| == initCount
      modifies this`sched, this`animationId, this`singularities, this`wells, this`fragments
      ensures Valid()
      ensures !running ==> sched == old(sched) && Snapshot() == old(Snapshot())
      ensures running ==> animationId.Some? && sched.pending == {animationId.value} && animationId.value >= old(sched.next)
      ensures running ==> Snapshot() == Frame(old(Snapshot()), initCount, hasMouse, mouseX, mouseY, w, h, fr)
    {
      if !running {
        return;
      }
      Step(fr);
      Schedule();
    }

    /** `requestAnimationFrame(animate)` at the end of a frame. */
    method Schedule()
      requires Valid() && sched.pending == {} && running && hasCtx && |singularities| == initCount
      modifies this`sched, this`animationId
      ensures Valid() && animationId.Some? && sched.pending == {animationId.value} && animationId.value >= old(sched.next)
    {
      var (s, id) := Request(sched);
      sched, animationId := s, Some(id);
    }

    /** The body of a frame: motes, wells, fragments. */
    method Step(fr: DriftFrame)
      requires Valid() && FairFrame(fr)
      modifies this`singularities, this`wells, this`fragments
      ensures Valid()
      ensures Snapshot() == Frame(old(Snapshot()), initCount, hasMouse, mouseX, mouseY, w, h, fr)
    {
      ghost var s0 := Snapshot();
      MoveMotes(fr);
      ghost var mv := Snapshot();
      AgeAll(fr);
      FrameFrom(s0, initCount, hasMouse, mouseX, mouseY, w, h, fr, mv, Snapshot());
    }

    /** The motes part of a frame. */
    method MoveMotes(fr: DriftFrame)
      requires Valid()
      modifies this`singularities
      ensures Valid()
      ensures Snapshot() == Drifted(old(Snapshot()), hasMouse, mouseX, mouseY, w, h, fr)
    {
      UpdateMotes(Field(wells, hasMouse, mouseX, mouseY, w, h, fr.jitter, fr.roots));
    }

    /** The wells and fragments parts of a frame, after the motes moved. */
    method AgeAll(fr: DriftFrame)
      requires Valid() && FairFrame(fr)
      modifies this`singularities, this`wells, this`fragments
      ensures Valid()
      ensures var t := WellsPass(old(Loose()), old(wells), |old(wells)|, initCount, w, h, fr);
              Snapshot() == Scene(t.motes, LiveWells(Aged(old(wells))), LiveFragments(Faded(t.frags)))
    {
      UpdateWells(fr);
      UpdateFragments();
    }

    /** The frame callback `id` fires. */
    method OnFrame(id: nat, fr: DriftFrame)
      requires Valid() && FairFrame(fr) && id in sched.pending
      modifies this`sched, this`animationId, this`singularities, this`wells, this`fragments
      ensures Valid()
      ensures !running ==> sched.pending == old(sched.pending) - {id} && Snapshot() == old(Snapshot())
      ensures running ==> animationId.Some? && animationId.value != id && sched.pending == {animationId.value}
      ensures running ==> Snapshot() == Frame(old(Snapshot()), initCount, hasMouse, mouseX, mouseY, w, h, fr)
      ensures running == old(running) && initCount == old(initCount)
    {
      sched := Drop(sched, id);
      Animate(fr);
    }
  }
}
