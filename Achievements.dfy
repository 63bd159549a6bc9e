/** The achievement evaluator (app/src/services/achievements.ts): a fixed
    catalog of badges, and the append-only unlocking of those whose condition
    now holds. `now` stands for `Date.now()`. */
module Achievements {
  import opened Schema
  import opened Leveling

  datatype Achievement = Achievement(id: string, title: string, description: string, unlockedAt: Option<int>)

  const FIRST_TASK: string := "first_task"
  const WEEK_STREAK: string := "week_streak"
  const TIME_1000: string := "time_1000"
  const CATEGORY_MASTER: string := "category_master"

  const ACHIEVEMENT_DEFS: seq<Achievement> := [
    Achievement(FIRST_TASK, "First Task", "Complete your first task", None),
    Achievement(WEEK_STREAK, "7-day Streak", "Maintain a 7-day streak", None),
    Achievement(TIME_1000, "1000 Minutes", "Accumulate 1000 minutes recorded", None),
    Achievement(CATEGORY_MASTER, "Category Master", "Complete 10 tasks in a single category", None)
  ]

  /** The first catalog entry with the given id, if any (`ACHIEVEMENT_DEFS.find`). */
  function FindDef(defs: seq<Achievement>, id: string): (d: Option<Achievement>)
    ensures d.Some? <==> exists i :: 0 <= i < |defs| && defs[i].id == id
    ensures d.Some? ==>
      (exists i :: 0 <= i < |defs| && defs[i] == d.value && d.value.id == id &&
                   (forall j :: 0 <= j < i ==> defs[j].id != id))
  {
    if defs == [] then None
    else if defs[0].id == id then Some(defs[0])
    else
      var d := FindDef(defs[1..], id);
      assert forall i :: 1 <= i < |defs| ==> defs[i] == defs[1..][i - 1];
      d
  }

  /** The catalog entry of an evaluated badge, stamped as unlocked at `now`.
      The entry is picked by its position in the catalog; CatalogLookup shows
      that this is the entry `ACHIEVEMENT_DEFS.find` returns for the id. */
  function Unlock(id: string, now: int): (a: Achievement)
    requires id in {FIRST_TASK, WEEK_STREAK, TIME_1000}
    ensures a.id == id && a.unlockedAt == Some(now)
    ensures a.(unlockedAt := None) in ACHIEVEMENT_DEFS
  {
    var k := if id == FIRST_TASK then 0 else if id == WEEK_STREAK then 1 else 2;
    ACHIEVEMENT_DEFS[k].(unlockedAt := Some(now))
  }

  /** Looking the id up in the catalog finds the entry that Unlock stamps. */
  lemma CatalogLookup(id: string, now: int)
    requires id in {FIRST_TASK, WEEK_STREAK, TIME_1000}
    ensures FindDef(ACHIEVEMENT_DEFS, id) == Some(Unlock(id, now).(unlockedAt := None))
  {
    CatalogIdsDistinct();
  }

  /** The ids whose record in `existing` carries a (truthy) unlock time. */
  function UnlockedIds(existing: seq<Achievement>): (ids: set<string>)
    ensures forall i :: 0 <= i < |existing| && Truthy(existing[i].unlockedAt) ==> existing[i].id in ids
    ensures forall id :: id in ids ==> exists i :: 0 <= i < |existing| && Truthy(existing[i].unlockedAt) && existing[i].id == id
  {
    set a | a in existing && Truthy(a.unlockedAt) :: a.id
  }

  /** The minutes of every event, summed left to right (`events.reduce`). */
  function TotalMinutes(events: seq<XPEvent>): (total: int)
    ensures (forall i :: 0 <= i < |events| ==> events[i].minutes >= 0) ==> total >= 0
    ensures (forall i :: 0 <= i < |events| ==> events[i].minutes >= 0) ==>
      forall i :: 0 <= i < |events| ==> total >= events[i].minutes
  {
    if events == [] then 0 else TotalMinutes(events[..|events| - 1]) + events[|events| - 1].minutes
  }

  /** Some record of `s` has the given id. */
  predicate HasId(s: seq<Achievement>, id: string) {
    exists i :: 0 <= i < |s| && s[i].id == id
  }

  lemma HasIdConcat(a: seq<Achievement>, b: seq<Achievement>, id: string)
    ensures HasId(a + b, id) <==> HasId(a, id) || HasId(b, id)
  {
    if HasId(a + b, id) {
      var i :| 0 <= i < |a + b| && (a + b)[i].id == id;
      if i >= |a| {
        assert b[i - |a|] == (a + b)[i];
      }
    }
    if HasId(b, id) {
      var i :| 0 <= i < |b| && b[i].id == id;
      assert (a + b)[|a| + i] == b[i];
    }
    if HasId(a, id) {
      var i :| 0 <= i < |a| && a[i].id == id;
      assert (a + b)[i] == a[i];
    }
  }

  /** The one-record list `[Unlock(id, now)]` when `condition` holds, else nothing. */
  function UnlockIf(condition: bool, id: string, now: int): (s: seq<Achievement>)
    requires id in {FIRST_TASK, WEEK_STREAK, TIME_1000}
    ensures |s| <= 1
    ensures HasId(s, id) <==> condition
    ensures forall i :: 0 <= i < |s| ==> s[i].id == id && s[i].unlockedAt == Some(now)
  {
    if condition then
      var s := [Unlock(id, now)];
      assert s[0].id == id;
      s
    else []
  }

  /** The four catalog ids are pairwise distinct. */
  lemma CatalogIdsDistinct()
    ensures FIRST_TASK != WEEK_STREAK && FIRST_TASK != TIME_1000 && FIRST_TASK != CATEGORY_MASTER
    ensures WEEK_STREAK != TIME_1000 && WEEK_STREAK != CATEGORY_MASTER && TIME_1000 != CATEGORY_MASTER
  {
    assert |FIRST_TASK| == 10 && |WEEK_STREAK| == 11 && |TIME_1000| == 9 && |CATEGORY_MASTER| == 15;
  }

  /** The records one evaluation appends, in the order the source checks them. */
  function NewUnlocks(state: LevelState, existing: seq<Achievement>, events: seq<XPEvent>, now: int)
    : (added: seq<Achievement>)
    ensures |added| <= 3
    ensures events == [] ==> forall i :: 0 <= i < |added| ==> added[i].id != FIRST_TASK
  {
    var ids := UnlockedIds(existing);
    UnlockIf(FIRST_TASK !in ids && |events| >= 1, FIRST_TASK, now)
    + UnlockIf(WEEK_STREAK !in ids && state.streakDays >= 7, WEEK_STREAK, now)
    + UnlockIf(TIME_1000 !in ids && TotalMinutes(events) >= 1000, TIME_1000, now)
  }

  /** At most three records are appended, each a catalog entry stamped `now`. */
  lemma NewUnlocksShape(state: LevelState, existing: seq<Achievement>, events: seq<XPEvent>, now: int)
    ensures |NewUnlocks(state, existing, events, now)| <= 3
    ensures forall a :: a in NewUnlocks(state, existing, events, now) ==>
      a.unlockedAt == Some(now) && a.(unlockedAt := None) in ACHIEVEMENT_DEFS
  {
  }

  /** Which ids three guarded unlocks contribute, for arbitrary guards. */
  lemma UnlockIfThree(c1: bool, c2: bool, c3: bool, now: int)
    ensures var s := UnlockIf(c1, FIRST_TASK, now) + UnlockIf(c2, WEEK_STREAK, now) + UnlockIf(c3, TIME_1000, now);
      (HasId(s, FIRST_TASK) <==> c1) && (HasId(s, WEEK_STREAK) <==> c2) && (HasId(s, TIME_1000) <==> c3)
      && !HasId(s, CATEGORY_MASTER)
  {
    CatalogIdsDistinct();
    var first, week, time := UnlockIf(c1, FIRST_TASK, now), UnlockIf(c2, WEEK_STREAK, now), UnlockIf(c3, TIME_1000, now);
    HasIdConcat(first, week, FIRST_TASK);
    HasIdConcat(first + week, time, FIRST_TASK);
    HasIdConcat(first, week, WEEK_STREAK);
    HasIdConcat(first + week, time, WEEK_STREAK);
    HasIdConcat(first, week, TIME_1000);
    HasIdConcat(first + week, time, TIME_1000);
    HasIdConcat(first, week, CATEGORY_MASTER);
    HasIdConcat(first + week, time, CATEGORY_MASTER);
  }

  /** Each evaluated badge is appended exactly when it is not yet unlocked and
      its condition holds; `category_master` never is. */
  lemma NewUnlocksConditions(state: LevelState, existing: seq<Achievement>, events: seq<XPEvent>, now: int)
    ensures HasId(NewUnlocks(state, existing, events, now), FIRST_TASK) <==>
      FIRST_TASK !in UnlockedIds(existing) && |events| >= 1
    ensures HasId(NewUnlocks(state, existing, events, now), WEEK_STREAK) <==>
      WEEK_STREAK !in UnlockedIds(existing) && state.streakDays >= 7
    ensures HasId(NewUnlocks(state, existing, events, now), TIME_1000) <==>
      TIME_1000 !in UnlockedIds(existing) && TotalMinutes(events) >= 1000
    ensures !HasId(NewUnlocks(state, existing, events, now), CATEGORY_MASTER)
  {
    var ids := UnlockedIds(existing);
    UnlockIfThree(
      FIRST_TASK !in ids && |events| >= 1,
      WEEK_STREAK !in ids && state.streakDays >= 7,
      TIME_1000 !in ids && TotalMinutes(events) >= 1000,
      now);
  }

  /** Copies `existing` and appends every catalog entry whose condition now
      holds and that is not yet unlocked. */
  method EvaluateAchievements(state: LevelState, existing: seq<Achievement>, events: seq<XPEvent>, now: int)
    returns (unlocked: seq<Achievement>)
    ensures unlocked == existing + NewUnlocks(state, existing, events, now)
  {
    unlocked := existing;
    var unlockedIds := set a | a in unlocked && Truthy(a.unlockedAt) :: a.id;
    assert unlockedIds == UnlockedIds(existing);

    if FIRST_TASK !in unlockedIds && |events| >= 1 {
      unlocked := unlocked + [Unlock(FIRST_TASK, now)];
    }
    ghost var first := UnlockIf(FIRST_TASK !in unlockedIds && |events| >= 1, FIRST_TASK, now);
    assert unlocked == existing + first;

    if WEEK_STREAK !in unlockedIds && state.streakDays >= 7 {
      unlocked := unlocked + [Unlock(WEEK_STREAK, now)];
    }
    ghost var week := UnlockIf(WEEK_STREAK !in unlockedIds && state.streakDays >= 7, WEEK_STREAK, now);
    assert unlocked == existing + first + week;

    var totalMinutes := TotalMinutes(events);
    if TIME_1000 !in unlockedIds && totalMinutes >= 1000 {
      unlocked := unlocked + [Unlock(TIME_1000, now)];
    }
    ghost var time := UnlockIf(TIME_1000 !in unlockedIds && totalMinutes >= 1000, TIME_1000, now);
    assert unlocked == existing + first + week + time;

    assert existing + first + week + time == existing + NewUnlocks(state, existing, events, now);
  }

  /** Evaluating again, with the first result as the existing list and the same
      state and history, appends nothing, at whatever time the second call runs:
      no achievement is unlocked twice. Unlock times of 0 are falsy in the
      source, hence `now > 0` for the first call. */
  lemma EvaluateIdempotent(state: LevelState, existing: seq<Achievement>, events: seq<XPEvent>, now: int, later: int)
    requires now > 0
    ensures NewUnlocks(state, existing + NewUnlocks(state, existing, events, now), events, later) == []
  {
    var added := NewUnlocks(state, existing, events, now);
    var first := existing + added;
    NewUnlocksConditions(state, existing, events, now);
    NewUnlocksShape(state, existing, events, now);
    forall id | HasId(added, id) ensures id in UnlockedIds(first) {
      var i :| 0 <= i < |added| && added[i].id == id;
      assert added[i] in added;
      assert first[|existing| + i] == added[i];
      assert added[i] in first;
    }
    forall a | a in existing ensures a in first {
    }
  }
}
