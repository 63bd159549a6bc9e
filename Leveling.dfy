/** The leveling engine (app/src/services/leveling.ts): XP from completed
    minutes, the doubling level curve, the append-only event history and the
    day-streak counters.

    The two sources of nondeterminism of leveling.ts are parameters here:
    `now` stands for `Date.now()` and `id` for a freshly minted identifier.
    The calendar day of a timestamp is given by `dayOf`, a day index in which
    consecutive calendar days differ by one. */
module Leveling {
  import opened Schema
  import opened Numeric

  const DEFAULT_DAILY_STREAK_MIN: int := 15
  const BASE_XP_PER_MIN: real := 1.0

  datatype XPEvent = XPEvent(
    id: UUID,
    taskId: Option<UUID>,
    minutes: int,
    priorityWeight: real,
    categoryMultiplier: real,
    timestamp: int,
    xp: int)

  datatype LevelState = LevelState(
    totalXP: int,
    level: int,
    events: seq<XPEvent>,
    streakDays: nat,
    longestStreak: nat)

  /** The invariants every reachable LevelState keeps: the level is derived from
      the XP total, and the current streak never exceeds the longest one. */
  predicate Valid(s: LevelState) {
    s.level == LevelFromXP(s.totalXP) && s.streakDays <= s.longestStreak
  }

  // ---------------------------------------------------------------- XP

  /** The weight factor of `calculateXP`, with both lower clamps applied. */
  function XPFactor(priorityWeight: real, categoryMultiplier: real): (f: real)
    ensures f >= 0.05
  {
    var w := MaxR(0.1, priorityWeight);
    var c := MaxR(0.5, categoryMultiplier);
    assert w * c >= 0.1 * c >= 0.05;
    BASE_XP_PER_MIN * w * c
  }

  /** The XP earned for `minutes` of work; the weight defaults to 0.5 and the
      multiplier to 1. */
  function CalculateXP(minutes: int, priorityWeight: real := 0.5, categoryMultiplier: real := 1.0): (xp: int)
    ensures minutes == 0 ==> xp == 0
    ensures minutes >= 0 ==> xp >= 0
    ensures minutes <= 0 ==> xp <= 0
  {
    var f := XPFactor(priorityWeight, categoryMultiplier);
    assert minutes >= 0 ==> minutes as real * f >= 0.0;
    assert minutes <= 0 ==> minutes as real * f <= 0.0;
    Round(minutes as real * f)
  }

  /** More minutes never earn less XP. */
  lemma CalculateXPMonotone(m1: int, m2: int, priorityWeight: real, categoryMultiplier: real)
    requires m1 <= m2
    ensures CalculateXP(m1, priorityWeight, categoryMultiplier) <= CalculateXP(m2, priorityWeight, categoryMultiplier)
  {
    var f := XPFactor(priorityWeight, categoryMultiplier);
    assert (m2 - m1) as real * f >= 0.0;
    assert m1 as real * f <= m2 as real * f;
    RoundMonotone(m1 as real * f, m2 as real * f);
  }

  /** A priority weight below 0.1 counts as 0.1, a category multiplier below
      0.5 counts as 0.5. */
  lemma CalculateXPClamps(minutes: int, priorityWeight: real, categoryMultiplier: real)
    ensures priorityWeight < 0.1 ==>
      CalculateXP(minutes, priorityWeight, categoryMultiplier) == CalculateXP(minutes, 0.1, categoryMultiplier)
    ensures categoryMultiplier < 0.5 ==>
      CalculateXP(minutes, priorityWeight, categoryMultiplier) == CalculateXP(minutes, priorityWeight, 0.5)
  {
  }

  // ---------------------------------------------------------------- level curve

  function Pow2(n: nat): (p: nat)
    ensures p >= 1
  {
    if n == 0 then 1 else 2 * Pow2(n - 1)
  }

  lemma {:induction false} Pow2Monotone(a: nat, b: nat)
    requires a <= b
    ensures Pow2(a) <= Pow2(b)
    decreases b
  {
    if a < b {
      Pow2Monotone(a, b - 1);
    }
  }

  /** floor(log2 n) for a positive integer n. */
  function Log2Floor(n: int): (k: nat)
    requires n >= 1
    ensures Pow2(k) <= n < Pow2(k + 1)
    decreases n
  {
    if n < 2 then 0 else 1 + Log2Floor(n / 2)
  }

  /** `Math.floor(Math.log2(r))` for a real r >= 1, in exact arithmetic: the
      largest k with 2^k <= r. */
  function FloorLog2(r: real): (k: nat)
    requires r >= 1.0
    ensures Pow2(k) as real <= r < Pow2(k + 1) as real
  {
    Log2Floor(r.Floor)
  }

  function LevelFromXP(xp: int): (level: int)
    ensures level >= 1
    ensures xp <= 0 ==> level == 1
  {
    if xp <= 0 then 1 else Max(1, FloorLog2(xp as real / 100.0 + 1.0) + 1)
  }

  /** The least cumulative XP of a level: 0 for level 1, then 100, 300, 700, ... */
  function XpForLevel(level: int): (xp: int)
    ensures level <= 1 ==> xp == 0
    ensures level >= 1 ==> xp == 100 * (Pow2(level - 1) - 1)
  {
    if level <= 1 then 0 else Round(100.0 * (Pow2(level - 1) as real - 1.0))
  }

  /** Every level needs strictly more XP than the one before it. */
  lemma XpForLevelIncreasing(a: int, b: int)
    requires 1 <= a < b
    ensures XpForLevel(a) < XpForLevel(b)
  {
    Pow2Monotone(a - 1, b - 2);
  }

  /** The level of a non-negative XP total is the level whose XP band holds it. */
  lemma LevelBracket(xp: int)
    requires xp >= 0
    ensures XpForLevel(LevelFromXP(xp)) <= xp < XpForLevel(LevelFromXP(xp) + 1)
  {
    if xp > 0 {
      var r := xp as real / 100.0 + 1.0;
      var k := FloorLog2(r);
      assert LevelFromXP(xp) == k + 1;
      assert XpForLevel(k + 1) == 100 * (Pow2(k) - 1);
      assert XpForLevel(k + 2) == 100 * (Pow2(k + 1) - 1);
    }
  }

  /** The curve's round trip: the least XP of level n has level n. */
  lemma LevelFromXPRoundTrip(n: int)
    requires n >= 1
    ensures XpForLevel(1) == 0
    ensures LevelFromXP(XpForLevel(n)) == n
  {
    var x := XpForLevel(n);
    var l := LevelFromXP(x);
    LevelBracket(x);
    if l < n {
      if l + 1 < n {
        XpForLevelIncreasing(l + 1, n);
      }
      assert false;
    } else if l > n {
      if n + 1 < l {
        XpForLevelIncreasing(n + 1, l);
      }
      assert false;
    }
  }

  /** More XP never means a lower level. */
  lemma LevelFromXPMonotone(a: int, b: int)
    requires a <= b
    ensures LevelFromXP(a) <= LevelFromXP(b)
  {
    if a > 0 {
      var la, lb := LevelFromXP(a), LevelFromXP(b);
      LevelBracket(a);
      LevelBracket(b);
      if la > lb {
        if lb + 1 < la {
          XpForLevelIncreasing(lb + 1, la);
        }
        assert false;
      }
    }
  }

  /** Mapping an XP total to its level, to that level's least XP and back gives
      the same level. */
  lemma LevelCurveConsistent(xp: int)
    requires xp >= 0
    ensures LevelFromXP(XpForLevel(LevelFromXP(xp))) == LevelFromXP(xp)
  {
    LevelFromXPRoundTrip(LevelFromXP(xp));
  }

  // ---------------------------------------------------------------- events and state

  /** A fresh event for `minutes` of work, with the XP `CalculateXP` awards;
      the weight defaults to 0.5 and the multiplier to 1. */
  function CreateXPEvent(
    id: UUID, taskId: Option<UUID>, minutes: int, priorityWeight: real := 0.5, categoryMultiplier: real := 1.0,
    now: int)
    : (e: XPEvent)
    ensures e.id == id && e.taskId == taskId && e.timestamp == now
    ensures e.minutes == minutes && e.priorityWeight == priorityWeight && e.categoryMultiplier == categoryMultiplier
    ensures e.xp == CalculateXP(minutes, priorityWeight, categoryMultiplier)
    ensures minutes >= 0 ==> e.xp >= 0
  {
    XPEvent(id, taskId, minutes, priorityWeight, categoryMultiplier, now, CalculateXP(minutes, priorityWeight, categoryMultiplier))
  }

  /** A new state: the event appended, its XP added and the level recomputed;
      the streak counters are carried over. The argument state, a value, is
      left as it was. */
  function ApplyXPEvent(state: LevelState, event: XPEvent): (next: LevelState)
    ensures next.totalXP == state.totalXP + event.xp
    ensures next.events == state.events + [event]
    ensures next.streakDays == state.streakDays && next.longestStreak == state.longestStreak
    ensures next.level == LevelFromXP(next.totalXP)
    ensures Valid(state) ==> Valid(next)
    ensures Valid(state) && event.xp >= 0 ==> next.level >= state.level
  {
    var total := state.totalXP + event.xp;
    assert event.xp >= 0 ==> LevelFromXP(state.totalXP) <= LevelFromXP(total) by {
      if event.xp >= 0 {
        LevelFromXPMonotone(state.totalXP, total);
      }
    }
    state.(totalXP := total, level := LevelFromXP(total), events := state.events + [event])
  }

  function CreateEmptyState(): (s: LevelState)
    ensures Valid(s)
    ensures s.totalXP == 0 && s.level == 1 && s.events == [] && s.streakDays == 0 && s.longestStreak == 0
  {
    LevelState(0, 1, [], 0, 0)
  }

  // ---------------------------------------------------------------- streaks

  /** The minutes of `events` recorded on calendar day `day`. */
  function MinutesOn(events: seq<XPEvent>, dayOf: int -> int, day: int): int
  {
    if events == [] then 0
    else
      var last := events[|events| - 1];
      MinutesOn(events[..|events| - 1], dayOf, day) + (if dayOf(last.timestamp) == day then last.minutes else 0)
  }

  predicate HasEventOn(events: seq<XPEvent>, dayOf: int -> int, day: int) {
    exists i :: 0 <= i < |events| && dayOf(events[i].timestamp) == day
  }

  /** A day counts towards a streak when some event falls on it and its
      minutes reach the threshold. */
  predicate Qualifies(events: seq<XPEvent>, dayOf: int -> int, threshold: int, day: int): (q: bool)
    ensures !HasEventOn(events, dayOf, day) ==> !q
  {
    HasEventOn(events, dayOf, day) && MinutesOn(events, dayOf, day) >= threshold
  }

  /** `n` is the length of the run of consecutive qualifying days that ends on
      day `today`: the n days up to today qualify and the day before them does not. */
  predicate IsStreak(events: seq<XPEvent>, dayOf: int -> int, threshold: int, today: int, n: nat) {
    (forall d :: today - n < d <= today ==> Qualifies(events, dayOf, threshold, d))
    && !Qualifies(events, dayOf, threshold, today - n)
  }

  /** A day history has exactly one streak length: the run of qualifying days
      ending today is determined by the first day that does not qualify. */
  lemma IsStreakUnique(events: seq<XPEvent>, dayOf: int -> int, threshold: int, today: int, n: nat, m: nat)
    requires IsStreak(events, dayOf, threshold, today, n)
    requires IsStreak(events, dayOf, threshold, today, m)
    ensures n == m
  {
    assert !(today - m < today - n <= today);
    assert !(today - n < today - m <= today);
  }

  /** Seven qualifying days ending today, preceded by one that does not
      qualify, make a streak of 7; a qualifying today after a day that does not
      qualify makes a streak of 1; a today that does not qualify makes 0. */
  lemma StreakExamples(events: seq<XPEvent>, dayOf: int -> int, threshold: int, today: int, n: nat)
    requires IsStreak(events, dayOf, threshold, today, n)
    ensures ((forall d :: today - 7 < d <= today ==> Qualifies(events, dayOf, threshold, d))
             && !Qualifies(events, dayOf, threshold, today - 7)) ==> n == 7
    ensures Qualifies(events, dayOf, threshold, today) && !Qualifies(events, dayOf, threshold, today - 1) ==> n == 1
    ensures !Qualifies(events, dayOf, threshold, today) ==> n == 0
  {
    if (forall d :: today - 7 < d <= today ==> Qualifies(events, dayOf, threshold, d))
      && !Qualifies(events, dayOf, threshold, today - 7)
    {
      IsStreakUnique(events, dayOf, threshold, today, n, 7);
    }
    if Qualifies(events, dayOf, threshold, today) && !Qualifies(events, dayOf, threshold, today - 1) {
      IsStreakUnique(events, dayOf, threshold, today, n, 1);
    }
    if !Qualifies(events, dayOf, threshold, today) {
      IsStreakUnique(events, dayOf, threshold, today, n, 0);
    }
  }

  /** Days without any event contribute no minutes. */
  lemma {:induction false} MinutesOnWithoutEvents(events: seq<XPEvent>, dayOf: int -> int, day: int)
    requires !HasEventOn(events, dayOf, day)
    ensures MinutesOn(events, dayOf, day) == 0
  {
    if events != [] {
      MinutesOnWithoutEvents(events[..|events| - 1], dayOf, day);
    }
  }

  /** The current streak is the number of consecutive qualifying days ending
      today, and the longest streak is ratcheted up to it. */
  method UpdateStreaks(
    state: LevelState, events: seq<XPEvent>, dailyThreshold: int := DEFAULT_DAILY_STREAK_MIN, now: int, dayOf: int -> int)
    returns (streakDays: nat, longestStreak: nat)
    ensures IsStreak(events, dayOf, dailyThreshold, dayOf(now), streakDays)
    ensures longestStreak == Max(state.longestStreak, streakDays)
  {
    var byDay: map<int, int> := map[];
    for i := 0 to |events|
      invariant forall d :: d in byDay <==> HasEventOn(events[..i], dayOf, d)
      invariant forall d :: d in byDay ==> byDay[d] == MinutesOn(events[..i], dayOf, d)
    {
      var d := dayOf(events[i].timestamp);
      if d !in byDay {
        MinutesOnWithoutEvents(events[..i], dayOf, d);
      }
      byDay := byDay[d := (if d in byDay then byDay[d] else 0) + events[i].minutes];
      assert events[..i + 1][..i] == events[..i];
      forall d' ensures MinutesOn(events[..i + 1], dayOf, d') ==
          MinutesOn(events[..i], dayOf, d') + (if d' == d then events[i].minutes else 0) {
      }
      forall d' ensures HasEventOn(events[..i + 1], dayOf, d') <==> HasEventOn(events[..i], dayOf, d') || d' == d {
        if HasEventOn(events[..i + 1], dayOf, d') {
          var j :| 0 <= j < i + 1 && dayOf(events[..i + 1][j].timestamp) == d';
          if j < i {
            assert events[..i][j] == events[..i + 1][j];
          }
        }
        if d' == d {
          assert events[..i + 1][i] == events[i];
        }
        if HasEventOn(events[..i], dayOf, d') {
          var j :| 0 <= j < i && dayOf(events[..i][j].timestamp) == d';
          assert events[..i + 1][j] == events[..i][j];
        }
      }
    }
    assert events[..|events|] == events;
    var qualifies := set d | d in byDay && byDay[d] >= dailyThreshold;

    var streak: nat := 0;
    var cursor := dayOf(now);
    while cursor in qualifies
      invariant cursor == dayOf(now) - streak
      invariant forall d :: cursor < d <= dayOf(now) ==> d in qualifies
      decreases set d | d in qualifies && d <= cursor
    {
      ghost var before := set d | d in qualifies && d <= cursor;
      streak := streak + 1;
      cursor := cursor - 1;
      assert cursor + 1 in before - (set d | d in qualifies && d <= cursor);
    }
    forall d | cursor < d <= dayOf(now) ensures Qualifies(events, dayOf, dailyThreshold, d) {
      assert d in qualifies;
    }
    streakDays := streak;
    longestStreak := Max(state.longestStreak, streak);
  }

  /** Records one completed unit of work: mints the event, applies it, and
      recomputes both streaks over the updated history. */
  method RecordCompletion(
    state: LevelState, minutes: int, taskId: Option<UUID> := None, priorityWeight: real := 0.5,
    categoryMultiplier: real := 1.0, id: UUID, now: int, dayOf: int -> int)
    returns (next: LevelState, event: XPEvent)
    ensures event.id == id && event.taskId == taskId && event.timestamp == now && event.minutes == minutes
    ensures event.priorityWeight == priorityWeight && event.categoryMultiplier == categoryMultiplier
    ensures event.xp == CalculateXP(minutes, priorityWeight, categoryMultiplier)
    ensures next.events == state.events + [event]
    ensures next.totalXP == state.totalXP + event.xp
    ensures next.level == LevelFromXP(next.totalXP)
    ensures IsStreak(next.events, dayOf, DEFAULT_DAILY_STREAK_MIN, dayOf(now), next.streakDays)
    ensures next.longestStreak == Max(state.longestStreak, next.streakDays)
    ensures Valid(next)
    ensures minutes >= 0 && state.totalXP >= 0 ==> next.totalXP >= 0
    ensures minutes >= 0 && Valid(state) ==> next.level >= state.level
  {
    event := CreateXPEvent(id, taskId, minutes, priorityWeight, categoryMultiplier, now);
    var applied := ApplyXPEvent(state, event);
    var streakDays, longestStreak := UpdateStreaks(applied, applied.events, now := now, dayOf := dayOf);
    next := applied.(streakDays := streakDays, longestStreak := longestStreak);
    if minutes >= 0 {
      LevelFromXPMonotone(state.totalXP, next.totalXP);
    }
  }
}
