/** The effect controller of js/effects.js: a closure holding `enabled` and
    `currentIndex` over a fixed list of three effects, each named by a pair of
    global `init`/`destroy` functions. The effects themselves are outside this
    module; what the controller does to them is recorded as the sequence of
    calls it makes. */
module Controller {
  import opened Host

  /** The names in the `effects` array, in order. */
  const Names: seq<string> := ["particles", "starfield", "ld-effect"]

  /** The indices of `effects`. */
  const Effects: set<nat> := {0, 1, 2}

  /** A call the controller makes into an effect's global function. */
  datatype Call = Init(effect: nat) | Destroy(effect: nat)

  /** The calls `effects.forEach(eff => eff.destroy())` makes for the first
      `n` effects, skipping effects whose `destroy` is not a function. */
  function DestroyCalls(hasDestroy: seq<bool>, n: nat): (r: seq<Call>)
    requires n <= |hasDestroy|
    ensures |r| <= n
    decreases n
  {
    if n == 0 then []
    else DestroyCalls(hasDestroy, n - 1) + (if hasDestroy[n - 1] then [Destroy(n - 1)] else [])
  }

  /** The destroy loop calls exactly the destroys that exist, and nothing
      else. */
  lemma {:induction false} DestroyCallsExactly(hasDestroy: seq<bool>, n: nat)
    requires n <= |hasDestroy|
    ensures forall c :: c in DestroyCalls(hasDestroy, n) ==> c.Destroy?
    ensures forall k: nat :: Destroy(k) in DestroyCalls(hasDestroy, n) <==> k < n && hasDestroy[k]
    decreases n
  {
    if n > 0 {
      DestroyCallsExactly(hasDestroy, n - 1);
    }
  }

  /** The calls of `loadEffect(index)`: every destroy, then the chosen init
      when effects are enabled, the index is in range and the init exists. */
  function LoadCalls(enabled: bool, index: int, hasInit: seq<bool>, hasDestroy: seq<bool>): (r: seq<Call>)
    requires |hasInit| == |Names| && |hasDestroy| == |Names|
    ensures |DestroyCalls(hasDestroy, |Names|)| <= |r| <= |DestroyCalls(hasDestroy, |Names|)| + 1
    ensures r[..|DestroyCalls(hasDestroy, |Names|)|] == DestroyCalls(hasDestroy, |Names|)
    ensures forall k: nat :: Init(k) in r <==> enabled && k == index && k < |Names| && hasInit[k]
    ensures forall k: nat :: Init(k) in r ==> r[|r| - 1] == Init(k)
  {
    var destroys := DestroyCalls(hasDestroy, |Names|);
    DestroyCallsExactly(hasDestroy, |Names|);
    if enabled && 0 <= index < |Names| && hasInit[index] then destroys + [Init(index)] else destroys
  }

  /** The effects left running by a sequence of calls, reading `init` as
      "start this effect" and `destroy` as "stop it". */
  ghost function Running(log: seq<Call>): set<nat>
  {
    if log == [] then {}
    else
      var before := Running(log[..|log| - 1]);
      var c := log[|log| - 1];
      if c.Init? then before + {c.effect} else before - {c.effect}
  }

  lemma RunningSnoc(log: seq<Call>, c: Call)
    ensures Running(log + [c])
         == if c.Init? then Running(log) + {c.effect} else Running(log) - {c.effect}
  {
    assert (log + [c])[..|log + [c]| - 1] == log;
  }

  /** The effects among the first `n` that have a destroy function. */
  ghost function Destroyable(hasDestroy: seq<bool>, n: nat): set<nat>
    requires n <= |hasDestroy|
    decreases n
  {
    if n == 0 then {} else Destroyable(hasDestroy, n - 1) + (if hasDestroy[n - 1] then {n - 1} else {})
  }

  /** One more effect's destroy, appended to the loop so far. */
  lemma DestroyStep(log: seq<Call>, hasDestroy: seq<bool>, n: nat)
    requires 0 < n <= |hasDestroy|
    requires Running(log + DestroyCalls(hasDestroy, n - 1)) == Running(log) - Destroyable(hasDestroy, n - 1)
    ensures Running(log + DestroyCalls(hasDestroy, n)) == Running(log) - Destroyable(hasDestroy, n)
  {
    var pre := DestroyCalls(hasDestroy, n - 1);
    if hasDestroy[n - 1] {
      assert log + DestroyCalls(hasDestroy, n) == (log + pre) + [Destroy(n - 1)];
      RunningSnoc(log + pre, Destroy(n - 1));
      assert Destroyable(hasDestroy, n) == Destroyable(hasDestroy, n - 1) + {n - 1};
    } else {
      assert log + DestroyCalls(hasDestroy, n) == log + pre;
    }
  }

  /** Replaying the destroy loop after any history stops exactly the effects
      that have a destroy function. */
  lemma {:induction false} RunningAfterDestroys(log: seq<Call>, hasDestroy: seq<bool>, n: nat)
    requires n <= |hasDestroy|
    ensures Running(log + DestroyCalls(hasDestroy, n)) == Running(log) - Destroyable(hasDestroy, n)
    decreases n
  {
    if n == 0 {
      assert log + DestroyCalls(hasDestroy, n) == log;
    } else {
      RunningAfterDestroys(log, hasDestroy, n - 1);
      DestroyStep(log, hasDestroy, n);
    }
  }

  /** The coordinator invariant: when every effect has a destroy function,
      after `loadEffect(index)` at most the chosen effect runs, and it runs
      exactly when the controller is enabled and its init exists. */
  lemma LoadLeavesAtMostOne(log: seq<Call>, enabled: bool, index: int, hasInit: seq<bool>, hasDestroy: seq<bool>)
    requires |hasInit| == |Names| && |hasDestroy| == |Names|
    requires forall k :: 0 <= k < |Names| ==> hasDestroy[k]
    ensures var after := Running(log + LoadCalls(enabled, index, hasInit, hasDestroy));
            after - (Running(log) - Effects) <= (if 0 <= index then {index as nat} else {})
    ensures Running(log) <= Effects ==>
            Running(log + LoadCalls(enabled, index, hasInit, hasDestroy))
            == (if enabled && 0 <= index < |Names| && hasInit[index] then {index as nat} else {})
  {
    var destroys := DestroyCalls(hasDestroy, |Names|);
    RunningAfterDestroys(log, hasDestroy, |Names|);
    assert Destroyable(hasDestroy, |Names|) == Effects;
    if enabled && 0 <= index < |Names| && hasInit[index] {
      assert log + LoadCalls(enabled, index, hasInit, hasDestroy) == (log + destroys) + [Init(index)];
      RunningSnoc(log + destroys, Init(index));
    }
  }

  /** Turning effects off with every destroy present leaves nothing running. */
  lemma OffStopsAll(log: seq<Call>, hasDestroy: seq<bool>)
    requires |hasDestroy| == |Names|
    requires forall k :: 0 <= k < |Names| ==> hasDestroy[k]
    requires Running(log) <= Effects
    ensures Running(log + DestroyCalls(hasDestroy, |Names|)) == {}
  {
    RunningAfterDestroys(log, hasDestroy, |Names|);
    assert Destroyable(hasDestroy, |Names|) == Effects;
  }

  /** `nextEffect`'s index: `(currentIndex + 1) % effects.length`. */
  function NextIndex(i: int): int {
    JsRem(i + 1, |Names|)
  }

  /** Three presses of next restore any index in range. */
  lemma NextThriceRestores(i: int)
    requires 0 <= i < |Names|
    ensures Cycle(i, |Names|, 3) == i
    ensures NextIndex(NextIndex(NextIndex(i))) == i
  {
    CycleReturns(i, |Names|);
  }

  class EffectController {
    const hasInit: seq<bool>
    const hasDestroy: seq<bool>
    var enabled: bool
    var currentIndex: int
    /** Every call made so far into the effects' init/destroy functions. */
    var log: seq<Call>

    ghost predicate Valid()
      reads this
    {
      |hasInit| == |Names| && |hasDestroy| == |Names|
    }

    /** Loading the script: `enabled = false`, `currentIndex = 0`, then
        `loadEffect(0)`, which with effects disabled only destroys. */
    constructor (hasInit: seq<bool>, hasDestroy: seq<bool>)
      requires |hasInit| == |Names| && |hasDestroy| == |Names|
      ensures Valid() && this.hasInit == hasInit && this.hasDestroy == hasDestroy
      ensures !enabled && currentIndex == 0
      ensures log == DestroyCalls(hasDestroy, |Names|)
      ensures forall c :: c in log ==> c.Destroy?
    {
      this.hasInit := hasInit;
      this.hasDestroy := hasDestroy;
      enabled := false;
      currentIndex := 0;
      log := [];
      new;
      var _ := LoadEffect(0);
      assert [] + LoadCalls(false, 0, hasInit, hasDestroy) == DestroyCalls(hasDestroy, |Names|);
    }

    /** The `forEach` destroy loop. */
    method DestroyEach()
      requires Valid()
      modifies this`log
      ensures log == old(log) + DestroyCalls(hasDestroy, |Names|)
    {
      var i := 0;
      while i < |Names|
        invariant 0 <= i <= |Names|
        invariant log == old(log) + DestroyCalls(hasDestroy, i)
      {
        if hasDestroy[i] {
          log := log + [Destroy(i)];
        }
        i := i + 1;
      }
    }

    /** `loadEffect(index)`. With effects enabled and `index` out of range,
        reading `effects[index].init` throws after the destroys, and the
        index is not stored; otherwise the index is stored even when
        disabled. */
    method LoadEffect(index: int) returns (threw: bool)
      requires Valid()
      modifies this`log, this`currentIndex
      ensures threw <==> enabled && !(0 <= index < |Names|)
      ensures log == old(log) + LoadCalls(enabled, index, hasInit, hasDestroy)
      ensures currentIndex == if threw then old(currentIndex) else index
    {
      DestroyEach();
      if enabled && !(0 <= index < |Names|) {
        return true;
      }
      if enabled && hasInit[index] {
        log := log + [Init(index)];
      }
      currentIndex := index;
      threw := false;
    }

    /** `toggleEffects(on)`: off destroys everything; on re-runs
        `loadEffect(currentIndex)`, so turning on twice destroys and
        re-creates the effect rather than doing nothing. */
    method ToggleEffects(on: bool) returns (threw: bool)
      requires Valid()
      modifies this`log, this`currentIndex, this`enabled
      ensures enabled == on
      ensures !on ==> !threw && log == old(log) + DestroyCalls(hasDestroy, |Names|) && currentIndex == old(currentIndex)
      ensures on ==> (threw <==> !(0 <= old(currentIndex) < |Names|))
      ensures on ==> log == old(log) + LoadCalls(true, old(currentIndex), hasInit, hasDestroy)
      ensures on ==> currentIndex == old(currentIndex)
    {
      enabled := on;
      if !enabled {
        DestroyEach();
        threw := false;
      } else {
        threw := LoadEffect(currentIndex);
      }
    }

    /** `nextEffect`: load `(currentIndex + 1) % 3`. */
    method NextEffect() returns (threw: bool)
      requires Valid()
      modifies this`log, this`currentIndex
      ensures threw <==> enabled && !(0 <= NextIndex(old(currentIndex)) < |Names|)
      ensures log == old(log) + LoadCalls(enabled, NextIndex(old(currentIndex)), hasInit, hasDestroy)
      ensures !threw ==> currentIndex == NextIndex(old(currentIndex))
      ensures 0 <= old(currentIndex) ==> !threw && 0 <= currentIndex < |Names|
    {
      threw := LoadEffect(NextIndex(currentIndex));
    }

    /** `randomEffect`: load `Math.floor(r * 3)` for a draw `r`, always in range. */
    method RandomEffect(r: real) returns (threw: bool)
      requires Valid() && IsUnit(r)
      modifies this`log, this`currentIndex
      ensures !threw && 0 <= currentIndex < |Names| && currentIndex == RandomIndex(r, |Names|)
      ensures log == old(log) + LoadCalls(enabled, currentIndex, hasInit, hasDestroy)
    {
      threw := LoadEffect(RandomIndex(r, |Names|));
    }

    /** `getCurrent()`: no name while disabled (`null`), nor for an index
        outside the array (`undefined`); otherwise the current effect's name. */
    function GetCurrent(): (r: Option<string>)
      reads this
      ensures r.Some? <==> enabled && 0 <= currentIndex < |Names|
      ensures r.Some? ==> r.value == Names[currentIndex] && r.value in Names
    {
      if enabled && 0 <= currentIndex < |Names| then Some(Names[currentIndex]) else None
    }
  }
}
