/** Values the browser hands to every effect: random draws, JavaScript's
    integer remainder, and the animation-frame scheduler behind
    requestAnimationFrame / cancelAnimationFrame. */
module Host {

  datatype Option<T> = None | Some(value: T)

  /** A value `Math.random()` can return. */
  predicate IsUnit(r: real) {
    0.0 <= r < 1.0
  }

  /** The stream of `Math.random()` results an operation consumes:
      `g(i, j)` is the j-th draw made for the i-th item it creates or updates. */
  type Rng = (nat, nat) -> real

  ghost predicate Fair(g: Rng) {
    forall i: nat, j: nat :: IsUnit(g(i, j))
  }

  /** `Math.floor(r * n)`: the index a draw picks out of a list of `n` items. */
  function RandomIndex(r: real, n: nat): (k: int)
    requires IsUnit(r) && n > 0
    ensures 0 <= k < n
  {
    assert 0.0 <= r * n as real < n as real by {
      assert (1.0 - r) * n as real > 0.0;
    }
    (r * n as real).Floor
  }

  /** A draw scaled to a non-negative length stays within it. */
  lemma ScaleUnit(r: real, len: real)
    ensures IsUnit(r) && len >= 0.0 ==> 0.0 <= r * len <= len
  {
    if IsUnit(r) && len >= 0.0 {
      assert len - r * len == (1.0 - r) * len;
    }
  }

  /** `Math.floor` of a non-negative real. */
  function FloorNat(r: real): (k: nat)
    requires r >= 0.0
    ensures k as real <= r < k as real + 1.0
  {
    r.Floor
  }

  function Abs(x: real): (r: real)
    ensures r >= 0.0 && (r == x || r == -x)
  {
    if x < 0.0 then -x else x
  }

  function Min(a: real, b: real): (r: real)
    ensures r <= a && r <= b && (r == a || r == b)
  {
    if a <= b then a else b
  }

  function Max(a: real, b: real): (r: real)
    ensures r >= a && r >= b && (r == a || r == b)
  {
    if a >= b then a else b
  }

  /** JavaScript's `%` on integers, which truncates toward zero: the result
      takes the sign of the dividend. (Dafny's own `%` never goes negative.) */
  function JsRem(a: int, b: int): (r: int)
    requires b > 0
    ensures a >= 0 ==> 0 <= r < b
    ensures a < 0 ==> -b < r <= 0
    ensures a == b * TruncDiv(a, b) + r
  {
    if a >= 0 then a % b else -((-a) % b)
  }

  /** JavaScript's `Math.trunc(a / b)`: the quotient rounded toward zero. */
  function TruncDiv(a: int, b: int): int
    requires b > 0
  {
    if a >= 0 then a / b else -((-a) / b)
  }

  /** `k` presses of a "next" button over `n` entries, each doing
      `i = (i + 1) % n` with JavaScript's remainder. */
  function Cycle(i: int, n: int, k: nat): int
    requires n > 0
  {
    if k == 0 then i else JsRem(Cycle(i, n, k - 1) + 1, n)
  }

  lemma SmallMod(a: int, n: int)
    requires 0 <= a < n
    ensures a % n == a
  {
  }

  /** Without wrapping, each press moves one entry on. */
  lemma {:induction false} CycleNoWrap(i: int, n: int, k: nat)
    requires 0 <= i && i + k < n
    ensures Cycle(i, n, k) == i + k
  {
    if k > 0 {
      CycleNoWrap(i, n, k - 1);
      SmallMod(i + k, n);
    }
  }

  lemma {:induction false} CycleSplit(i: int, n: int, a: nat, b: nat)
    requires n > 0
    ensures Cycle(i, n, a + b) == Cycle(Cycle(i, n, a), n, b)
  {
    if b > 0 {
      CycleSplit(i, n, a, b - 1);
    }
  }

  lemma SelfRem(n: int)
    requires n > 0
    ensures JsRem(n, n) == 0
  {
    assert n == n * 1 + 0;
    SmallMod(0, n);
    assert (n * 1 + 0) % n == 0;
  }

  /** `n` presses over `n` entries return to the start index. */
  lemma CycleReturns(i: int, n: int)
    requires 0 <= i < n
    ensures Cycle(i, n, n) == i
  {
    CycleNoWrap(i, n, n - 1 - i);
    assert Cycle(i, n, n - i) == JsRem(n, n);
    SelfRem(n);
    CycleSplit(i, n, n - i, i);
    if i > 0 {
      CycleNoWrap(0, n, i);
    }
  }

  // ------------------------------------------------------------ sequences

  lemma Splice<T>(a: seq<T>, x: T, b: seq<T>)
    ensures (a + [x] + b)[..|a|] == a && (a + [x] + b)[|a| + 1..] == b
  {
    assert (a + [x] + b)[..|a|] == a;
    assert (a + [x] + b)[|a| + 1..] == b;
  }

  /** In-place update at index `|pre|`, pushes at the end, then the splice
      that removes the updated element when it is not kept. */
  lemma UpdatePushSplice<T>(pre: seq<T>, x: T, tail: seq<T>, y: T, extra: seq<T>, keep: bool)
    ensures var cur := pre + [x] + tail;
            var pushed := cur[..|pre|] + [y] + cur[|pre| + 1..] + extra;
            (if keep then pushed else pushed[..|pre|] + pushed[|pre| + 1..])
              == pre + ((if keep then [y] else []) + tail) + extra
  {
    Splice(pre, x, tail);
    var pushed := pre + [y] + tail + extra;
    assert pushed == pre + [y] + (tail + extra);
    Splice(pre, y, tail + extra);
  }

  lemma Regroup<T>(a: seq<T>, k: seq<T>, s: seq<T>, p: seq<T>, e: seq<T>)
    ensures a + (k + (s + p)) + e == a + (k + s) + (p + e)
  {
  }

  lemma PrefixSnoc<T>(ps: seq<T>, i: nat)
    requires i < |ps|
    ensures ps[..i + 1][..i] == ps[..i] && ps[..i + 1][i] == ps[i] && |ps[..i + 1]| == i + 1
  {
  }

  /** Overwriting the first element after a finished prefix extends it. */
  lemma SnocUpdate<T>(done: seq<T>, rest: seq<T>, q: T)
    requires |rest| > 0
    ensures (done + rest)[|done| := q] == (done + [q]) + rest[1..]
  {
  }

  lemma UpdateBeforeAppend<T>(a: seq<T>, b: seq<T>, k: nat, x: T)
    requires k < |a|
    ensures (a + b)[k := x] == a[k := x] + b
  {
  }

  lemma TailFrom<T>(ps: seq<T>, i: nat)
    requires i < |ps|
    ensures ps[i..][1..] == ps[i + 1..] && ps[i..][0] == ps[i]
  {
  }

  /** The host's animation-frame queue: the ids of callbacks that are
      pending, and the id the next `requestAnimationFrame` will hand out.
      Ids start at 1, so a returned id is always truthy. */
  datatype Scheduler = Scheduler(pending: set<nat>, next: nat)

  const Idle := Scheduler({}, 1)

  predicate Fresh(s: Scheduler) {
    s.next >= 1 && forall id :: id in s.pending ==> 1 <= id < s.next
  }

  /** `requestAnimationFrame(cb)`: queue one callback and return its id. */
  function Request(s: Scheduler): (r: (Scheduler, nat))
    requires Fresh(s)
    ensures Fresh(r.0) && r.1 >= 1
    ensures r.1 !in s.pending && r.0.pending == s.pending + {r.1}
    ensures r.1 >= s.next && r.0.next > r.1
  {
    (Scheduler(s.pending + {s.next}, s.next + 1), s.next)
  }

  /** Callback `id` leaves the queue: `cancelAnimationFrame(id)`, or the host
      running it. An id that is not queued (already run, or none) is ignored. */
  function Drop(s: Scheduler, id: nat): (r: Scheduler)
    requires Fresh(s)
    ensures Fresh(r) && r.pending == s.pending - {id} && r.next == s.next
  {
    Scheduler(s.pending - {id}, s.next)
  }
}
