/** The effect selector of js/effect-manager.js: the 25 December to 15 March
    season test, the pool it selects, and the `EffectManager` object that
    picks a random start, cycles with the toggle button and shows an icon.
    The controller it drives is an outside collaborator here: the manager's
    calls into it are recorded as requests. Whether that controller has a
    `setEffect` method is a parameter; the one js/effects.js defines has
    none, and with it every `setEffect` call throws. */
module Selector {
  import opened Host

  /** A local calendar reading as `new Date()` gives it: month 0-11, as in
      JavaScript. */
  datatype Instant = Instant(year: int, month: int, day: int, hour: int, minute: int, second: int, ms: int)

  predicate WellFormed(t: Instant) {
    0 <= t.month < 12 && 1 <= t.day <= 31 && 0 <= t.hour < 24 &&
    0 <= t.minute < 60 && 0 <= t.second < 60 && 0 <= t.ms < 1000
  }

  /** `new Date(year, month, day)`: midnight of that day. */
  function Midnight(year: int, month: int, day: int): Instant {
    Instant(year, month, day, 0, 0, 0, 0)
  }

  /** Date comparison `a <= b`, which for well-formed readings is the
      lexicographic order of their fields. */
  predicate NotAfter(a: Instant, b: Instant) {
    if a.year != b.year then a.year < b.year
    else if a.month != b.month then a.month < b.month
    else if a.day != b.day then a.day < b.day
    else if a.hour != b.hour then a.hour < b.hour
    else if a.minute != b.minute then a.minute < b.minute
    else if a.second != b.second then a.second < b.second
    else a.ms <= b.ms
  }

  /** The season window, read off the calendar: from 25 December on, all of
      January and February, and March up to 15 March 00:00:00.000. */
  predicate InWindow(t: Instant) {
    (t.month == 11 && t.day >= 25) || t.month == 0 || t.month == 1 ||
    (t.month == 2 && (t.day < 15 || (t.day == 15 && t.hour == 0 && t.minute == 0 && t.second == 0 && t.ms == 0)))
  }

  /** `isTetSeason()`: is `now` between 25 December 00:00 and the following
      15 March 00:00 (both included)? In January to March the window is the
      one that started in the previous year. */
  function IsTetSeason(now: Instant): (r: bool)
    ensures WellFormed(now) ==> (r <==> InWindow(now))
  {
    var year := now.year;
    var start := if now.month <= 2 then Midnight(year - 1, 11, 25) else Midnight(year, 11, 25);
    var end := if now.month <= 2 then Midnight(year, 2, 15) else Midnight(year + 1, 2, 15);
    NotAfter(start, now) && NotAfter(now, end)
  }

  /** The dates the season test is known by. */
  lemma SeasonExamples()
    ensures IsTetSeason(Instant(2025, 0, 15, 12, 0, 0, 0))      // 15 January
    ensures IsTetSeason(Instant(2025, 11, 26, 12, 0, 0, 0))     // 26 December
    ensures IsTetSeason(Midnight(2025, 11, 25))                  // 25 December 00:00
    ensures IsTetSeason(Midnight(2026, 2, 15))                   // 15 March 00:00
    ensures !IsTetSeason(Instant(2025, 6, 1, 12, 0, 0, 0))      // 1 July
    ensures !IsTetSeason(Instant(2025, 11, 20, 12, 0, 0, 0))    // 20 December
    ensures !IsTetSeason(Instant(2025, 3, 1, 0, 0, 0, 0))       // 1 April
    ensures !IsTetSeason(Instant(2026, 2, 15, 0, 0, 0, 1))      // just after 15 March 00:00
  {
  }

  const IconMap: map<string, string> := map[
    "particles" := "\U{1F4A0}",
    "starfield" := "\U{2728}",
    "drift" := "\U{1F4AB}",
    "fireworks" := "\U{1F386}",
    "sakura" := "\U{1F338}"
  ]

  /** The icon shown when a name has no entry. */
  const DefaultIcon: string := "\U{2728}"

  const TetEffects: seq<string> := ["fireworks", "sakura"]
  const NormalEffects: seq<string> := ["particles", "starfield", "drift"]

  /** The pool the manager is constructed with. */
  function PoolFor(now: Instant): (pool: seq<string>)
    ensures IsTetSeason(now) ==> pool == TetEffects
    ensures !IsTetSeason(now) ==> pool == NormalEffects
    ensures |pool| > 0 && forall name :: name in pool ==> name in IconMap
  {
    if IsTetSeason(now) then TetEffects else NormalEffects
  }

  /** `ICON_MAP[name] || "✨"`. */
  function Icon(name: string): (r: string)
    ensures name in IconMap ==> r == IconMap[name]
    ensures name !in IconMap ==> r == DefaultIcon
    ensures r != ""
  {
    if name in IconMap && IconMap[name] != "" then IconMap[name] else DefaultIcon
  }

  /** Every effect either pool can select has its own icon. */
  lemma PoolIconsMapped(now: Instant, i: nat)
    requires i < |PoolFor(now)|
    ensures Icon(PoolFor(now)[i]) == IconMap[PoolFor(now)[i]]
  {
    assert PoolFor(now)[i] in PoolFor(now);
  }

  /** A call the manager makes on the controller. */
  datatype Request = SetEffect(name: string) | Toggle(on: bool)

  class EffectManager {
    var pool: seq<string>
    var index: int
    /** The toggle button's `textContent`. */
    var icon: string
    /** The calls made on the controller so far. */
    var requests: seq<Request>
    /** Whether the two button click listeners are attached. */
    var bound: bool
    /** Whether the controller the manager was given has a `setEffect`
        method; calling a missing one throws a TypeError. */
    var hasSetEffect: bool
    /** Whether the constructor's `init()` was cut short by that TypeError. */
    var failed: bool

    ghost predicate Valid()
      reads this
    {
      (pool == TetEffects || pool == NormalEffects) && 0 <= index < |pool|
    }

    /** `new EffectManager(...)`: choose the pool from the date, set
        `index = 0`, then `init()`. When the controller has no `setEffect`,
        `init()` throws out of the constructor before anything reaches the
        controller or the page. */
    constructor (now: Instant, r: real, text: string, setEffect: bool)
      requires IsUnit(r)
      ensures Valid() && pool == PoolFor(now) && hasSetEffect == setEffect
      ensures index == RandomIndex(r, |pool|)
      ensures failed <==> !setEffect
      ensures !failed ==> requests == [SetEffect(pool[index]), Toggle(true)] && icon == Icon(pool[index]) && bound
      ensures failed ==> requests == [] && icon == text && !bound
    {
      pool := PoolFor(now);
      index := 0;
      icon := text;
      requests := [];
      bound := false;
      hasSetEffect := setEffect;
      new;
      failed := Init(r);
    }

    /** `init()`: nothing on an empty pool; otherwise a random start,
        `toggleEffects(true)`, the icon, and the button listeners. A throw
        in the random start skips the other three. */
    method Init(r: real) returns (threw: bool)
      requires IsUnit(r)
      modifies this`index, this`requests, this`icon, this`bound
      ensures threw <==> |pool| > 0 && !hasSetEffect
      ensures |pool| == 0 ==> index == old(index) && icon == old(icon) && requests == old(requests) && bound == old(bound)
      ensures |pool| > 0 ==> index == RandomIndex(r, |pool|)
      ensures |pool| > 0 && !threw ==> icon == Icon(pool[index]) && bound
      ensures |pool| > 0 && !threw ==> requests == old(requests) + [SetEffect(pool[index]), Toggle(true)]
      ensures threw ==> icon == old(icon) && requests == old(requests) && bound == old(bound)
    {
      if |pool| == 0 {
        return false;
      }
      threw := RandomStart(r);
      if threw {
        return;
      }
      requests := requests + [Toggle(true)];
      UpdateIcon();
      bound := true;
    }

    /** `randomStart()`: `index = Math.floor(r * pool.length)`, then ask the
        controller for that effect, which throws when it has no `setEffect`. */
    method RandomStart(r: real) returns (threw: bool)
      requires IsUnit(r) && |pool| > 0
      modifies this`index, this`requests
      ensures index == RandomIndex(r, |pool|) && 0 <= index < |pool|
      ensures threw <==> !hasSetEffect
      ensures requests == old(requests) + (if threw then [] else [SetEffect(pool[index])])
    {
      index := RandomIndex(r, |pool|);
      if !hasSetEffect {
        return true;
      }
      requests := requests + [SetEffect(pool[index])];
      threw := false;
    }

    /** `next()`, bound to the toggle button: the index moves on before the
        `setEffect` call, and the icon follows only when that call returns. */
    method Next() returns (threw: bool)
      requires Valid()
      modifies this`index, this`requests, this`icon
      ensures Valid() && index == Cycle(old(index), |pool|, 1)
      ensures threw <==> !hasSetEffect
      ensures !threw ==> requests == old(requests) + [SetEffect(pool[index])] && icon == Icon(pool[index])
      ensures threw ==> requests == old(requests) && icon == old(icon)
    {
      index := JsRem(index + 1, |pool|);
      if !hasSetEffect {
        return true;
      }
      requests := requests + [SetEffect(pool[index])];
      UpdateIcon();
      threw := false;
    }

    /** `updateIcon()`. */
    method UpdateIcon()
      requires 0 <= index < |pool|
      modifies this`icon
      ensures icon == Icon(pool[index])
    {
      icon := Icon(pool[index]);
    }

    /** The off button: `toggleEffects(false)`, with `index` left alone. */
    method Off()
      modifies this`requests
      ensures requests == old(requests) + [Toggle(false)]
    {
      requests := requests + [Toggle(false)];
    }
  }

  /** Pressing the toggle button once per pool entry comes back to the
      starting effect. */
  lemma NextReturnsToStart(pool: seq<string>, i: int)
    requires 0 <= i < |pool|
    ensures Cycle(i, |pool|, |pool|) == i
  {
    CycleReturns(i, |pool|);
  }

  /** `window.initEffectManager()`: build a manager only when the controller
      and both buttons exist. The construction throws when the controller
      has no `setEffect`; the manager is then unreachable and has made no
      request, bound no listener and left the button's text. */
  method InitEffectManager(hasController: bool, hasToggle: bool, hasOff: bool, setEffect: bool,
                           now: Instant, r: real, text: string)
    returns (m: EffectManager?, threw: bool)
    requires IsUnit(r)
    ensures (m != null) <==> hasController && hasToggle && hasOff
    ensures threw <==> m != null && !setEffect
    ensures m != null ==> fresh(m) && m.Valid() && m.pool == PoolFor(now) && m.index == RandomIndex(r, |m.pool|)
    ensures m != null && !threw ==> m.bound && m.icon == Icon(m.pool[m.index]) &&
                                    m.requests == [SetEffect(m.pool[m.index]), Toggle(true)]
    ensures threw ==> !m.bound && m.icon == text && m.requests == []
  {
    threw := false;
    if !hasController || !hasToggle || !hasOff {
      return null, false;
    }
    m := new EffectManager(now, r, text, setEffect);
    threw := m.failed;
  }
}
