# Goal-tracker engine: leveling, achievements and daily planning

This project models the engine of a personal goal tracker in Dafny. Work
recorded against tasks earns experience points (XP), and the XP total sets a
level on a logarithmic curve. Days with at least 15 recorded minutes make up
a streak. A fixed catalog of achievements is unlocked as conditions come to
hold. Each day a planner scores every open task and hands out the day's
minutes greedily. The model covers three services:

- `app/src/services/leveling.ts`: XP per completion, the level curve and its
  inverse, event creation and application, streak computation, and
  `recordCompletion`. Modelled in `Leveling.dfy`.
- `app/src/services/achievements.ts`: the achievement catalog and
  `evaluateAchievements`. Modelled in `Achievements.dfy`.
- `app/src/services/planner.ts`: `scoreTask` and `generateDailyPlan`.
  Modelled in `Planner.dfy`.

The modules are supported by two more files:

- `Schema.dfy` holds the record types of `app/src/models/schema.ts`. It also
  holds JavaScript truthiness for optional timestamps: an absent field and 0
  are both falsy.
- `Numeric.dfy` holds `Math.max`, `Math.min` and `Math.round`, in exact
  arithmetic.

Every source function is pure once its clock and identifier calls are
factored out. Those calls become parameters:

- `now` stands for `Date.now()`.
- `id` stands for `uuid()`.
- `dayOf` maps a timestamp to its calendar day number.
- `daysUntil` gives the calendar days from today to a timestamp.

`LevelState` and the records are values, as in the source. `applyXPEvent`
returns a spread copy, and `recordCompletion` writes only to that fresh copy,
so no state is shared between callers. Where the source walks a list with a
loop, the model is a method with a loop, and its contract ties the result to a
specification:

- `updateStreaks` becomes `Leveling.UpdateStreaks`. Its two loops total the
  minutes per day and count back from today. Its contract says the count
  satisfies the predicate `IsStreak`, and `IsStreakUnique` shows that only one
  count does.
- The collection loops of `generateDailyPlan` become `Planner.CollectCandidates`,
  `Planner.ScoreProject` and `Planner.ScoreMilestone`. Each is proved equal to
  a recursive function: `Candidates`, `MilestoneCandidates` or `TaskCandidates`.
- The greedy loop becomes `Planner.Allot`, which is proved equal to the
  recursive function `Allocate`.

`recordCompletion` and `evaluateAchievements` have no loop of their own.
`Leveling.RecordCompletion` is a method because it calls `UpdateStreaks`.
`Achievements.EvaluateAchievements` pushes onto a copy of the list step by
step, as the source does. Its result is proved to be the existing list
followed by the function `NewUnlocks`.

Defaulted arguments of the source are defaulted parameters here: a weight of
0.5 and a multiplier of 1 (`leveling.ts:29`, `:47`, `:90`), a streak threshold
of 15 minutes (`leveling.ts:65`), and at most 8 planned tasks (`planner.ts:19`).

Three behaviours of the code are easy to misread. The model states each one
as the code has it:

- A today that qualifies after a yesterday that does not gives a streak of 1,
  not 0. `Leveling.StreakExamples` states this.
- `calculateXP` of a negative number of minutes is a negative XP amount, not 0.
  `Leveling.CalculateXP` states that `minutes <= 0` gives `xp <= 0`, and that
  `minutes == 0` gives 0.
- A negative `estimateMinutes` scores as 5 minutes (`planner.ts:6`). It is
  still planned at its own negative value (`planner.ts:32`), which adds to the
  budget left. `Planner.EffectiveEstimate` and `Planner.PickedAt` state the two
  readings.

The planner's budget promise, planned minutes never above the available
minutes, holds only for a non-negative budget. A negative budget yields an
empty plan whose total, 0, exceeds it. The model states the total as at most
`max(0, M)`.

## Model

| member | source | states |
|---|---|---|
| Numeric.Round | app/src/services/leveling.ts:31 | `Math.round` gives the integer within one half of its argument, halves going up |
| Leveling.XPFactor | app/src/services/leveling.ts:30 | with both lower clamps applied, the factor per minute is at least 0.05 |
| Leveling.CalculateXP | app/src/services/leveling.ts:29-32 | no minutes earn no XP; non-negative minutes earn non-negative XP, non-positive minutes non-positive XP; weight 0.5 and multiplier 1 by default |
| Leveling.CalculateXPMonotone | app/src/services/leveling.ts:29-32 | for fixed weight and multiplier, more minutes never earn less XP |
| Leveling.CalculateXPClamps | app/src/services/leveling.ts:30 | a weight below 0.1 acts as 0.1 and a multiplier below 0.5 as 0.5 |
| Leveling.FloorLog2 | app/src/services/leveling.ts:37 | `Math.floor(Math.log2(r))` for r >= 1 is the k with 2^k <= r < 2^(k+1) |
| Leveling.LevelFromXP | app/src/services/leveling.ts:35-38 | every level is at least 1, and an XP total of 0 or less is level 1 |
| Leveling.XpForLevel | app/src/services/leveling.ts:41-44 | level 1 and below need 0 XP; level n needs 100 * (2^(n-1) - 1) |
| Leveling.XpForLevelIncreasing | app/src/services/leveling.ts:41-44 | each level needs strictly more XP than any lower one |
| Leveling.LevelBracket | app/src/services/leveling.ts:35-44 | a non-negative total lies in its level's band: at least that level's XP and below the next level's |
| Leveling.LevelFromXPRoundTrip | app/src/services/leveling.ts:35-44 | for every n >= 1, the level of the least XP of level n is n |
| Leveling.LevelFromXPMonotone | app/src/services/leveling.ts:35-38 | more XP never means a lower level |
| Leveling.LevelCurveConsistent | app/src/services/leveling.ts:35-44 | for xp >= 0, the level of the least XP of xp's level is xp's level |
| Leveling.CreateXPEvent | app/src/services/leveling.ts:47-55 | the event carries the given id, task, minutes, weight, multiplier and time, plus the XP `calculateXP` awards; weight 0.5 and multiplier 1 by default |
| Leveling.ApplyXPEvent | app/src/services/leveling.ts:58-62 | XP is added, the event appended and streaks carried over; the level is always recomputed from the new total; it never drops for non-negative XP from a consistent state |
| Leveling.MinutesOnWithoutEvents | app/src/services/leveling.ts:66-70 | a day on which no event falls has a per-day total of 0 minutes |
| Leveling.Qualifies | app/src/services/leveling.ts:71-72 | a day without any event never qualifies, whatever the threshold |
| Leveling.UpdateStreaks | app/src/services/leveling.ts:65-82 | the streak is the run of days, ending today, whose summed minutes meet the threshold (15 by default); the longest streak is the larger of the old one and the new one |
| Leveling.IsStreakUnique | app/src/services/leveling.ts:73-79 | a history of days has exactly one streak length |
| Leveling.StreakExamples | app/src/services/leveling.ts:73-79 | seven qualifying days after one that does not qualify give 7; today qualifying after a failed yesterday gives 1; a failed today gives 0 |
| Leveling.CreateEmptyState | app/src/services/leveling.ts:85-87 | the empty state has 0 XP, level 1, no events, a current and a longest streak of 0, and its level agrees with its XP |
| Leveling.RecordCompletion | app/src/services/leveling.ts:90-97 | the minted event carries the id, task, minutes, weight and multiplier (defaults 0.5 and 1) and its XP; the new state holds that event, the added XP, the recomputed level and the streak over the updated history with threshold 15; the longest streak never decreases; the level does not drop for non-negative minutes from a consistent state |
| Achievements.FindDef | app/src/services/achievements.ts:24 | `find` returns an entry exactly when one has the id, and then the first entry with that id |
| Achievements.Unlock | app/src/services/achievements.ts:11-16 | an unlocked record is a catalog entry for that id, stamped with the unlock time |
| Achievements.CatalogLookup | app/src/services/achievements.ts:11-16 | looking an evaluated id up with `find` yields the entry that Unlock stamps |
| Achievements.CatalogIdsDistinct | app/src/services/achievements.ts:11-16 | the four catalog ids are pairwise distinct |
| Achievements.UnlockedIds | app/src/services/achievements.ts:20 | the set holds the id of every record with a truthy unlock time, and only such ids |
| Achievements.TotalMinutes | app/src/services/achievements.ts:33 | with no negative minutes, the sum is non-negative and at least each event's minutes |
| Achievements.UnlockIf | app/src/services/achievements.ts:23-25 | one guarded push appends at most one record, with that id, exactly when its condition holds |
| Achievements.NewUnlocks | app/src/services/achievements.ts:22-36 | at most three records are appended, and without events first_task is not among them |
| Achievements.NewUnlocksShape | app/src/services/achievements.ts:18-39 | one evaluation appends at most three records, each a catalog entry stamped with the unlock time |
| Achievements.NewUnlocksConditions | app/src/services/achievements.ts:20-36 | first_task, week_streak and time_1000 are each appended iff not yet unlocked and their condition holds; category_master never is |
| Achievements.EvaluateAchievements | app/src/services/achievements.ts:18-39 | the result is the existing list, unchanged, followed by the new unlocks |
| Achievements.EvaluateIdempotent | app/src/services/achievements.ts:18-39 | evaluating again, at any later time, with the first result as the existing list appends nothing |
| Planner.EstimateOrDefault | app/src/services/planner.ts:6 | the estimate-or-30 fallback is the estimate itself when it is non-zero and 30 when it is 0 |
| Planner.EffectiveEstimate | app/src/services/planner.ts:6 | the scoring estimate is never below 5; it is 30 when unset, the estimate itself from 5 upwards, otherwise (negative estimates included) 5 |
| Planner.Targets | app/src/services/planner.ts:9 | the list holds every set milestone target date and nothing else |
| Planner.MinOf | app/src/services/planner.ts:11 | `Math.min` of a non-empty list is an element that is at most every element |
| Planner.NearestTarget | app/src/services/planner.ts:9-11 | there is no nearest target iff no milestone has a set target; otherwise it is a set target no later than any other |
| Planner.UrgencyRatio | app/src/services/planner.ts:13 | 30/days is positive, at least 10 up to three days out and at most 10 from three days on |
| Planner.Urgency | app/src/services/planner.ts:8-14 | urgency is in (0, 10]; it is 1 without deadlines, 10 up to three days out, and 30/days from three days on |
| Planner.ScoreTask | app/src/services/planner.ts:5-15 | a completed task scores 0; an open task scores `BaseScore` (its scoring estimate times the priority weight, planner.ts:6-7) times the urgency |
| Planner.ScoreWithoutDeadline | app/src/services/planner.ts:5-16 | an open task of a project without deadlines scores its weighted estimate |
| Planner.ScoreTaskBounds | app/src/services/planner.ts:5-16 | with a non-negative weight, a score lies between 0 and ten times the weighted estimate |
| Planner.PriorityFor | app/src/services/planner.ts:24 | the first priority with the project's id, or a stand-in of weight 0.5 when none matches |
| Planner.TaskCandidates | app/src/services/planner.ts:25 | the candidates of a milestone are its incomplete tasks, each with its score |
| Planner.MilestoneCandidates | app/src/services/planner.ts:25 | the candidates of a project are incomplete and scored with that project and priority |
| Planner.MilestoneCandidatesSound | app/src/services/planner.ts:25 | every candidate of a project is a task of one of its milestones |
| Planner.Candidates | app/src/services/planner.ts:22-26 | no completed task is a candidate |
| Planner.CandidatesSound | app/src/services/planner.ts:22-26 | every candidate is a task of some milestone of some input project |
| Planner.CandidatesComplete | app/src/services/planner.ts:22-26 | every incomplete task of every milestone of every project is a candidate, scored with its project's priority |
| Planner.SortByScore | app/src/services/planner.ts:27 | sorting keeps the number of candidates |
| Planner.SortByScoreSorted | app/src/services/planner.ts:27 | the sort orders by score, highest first |
| Planner.SortByScorePermutes | app/src/services/planner.ts:27 | the sort keeps every candidate, as often as it occurs |
| Planner.SortByScoreStable | app/src/services/planner.ts:27 | candidates of equal score keep their traversal order |
| Planner.SortByScoreSpec | app/src/services/planner.ts:27 | the three sort properties together: ordered, a permutation, stable |
| Planner.Allocate | app/src/services/planner.ts:28-36 | the walk takes at most the remaining task slots and candidates, nothing without budget, and within the budget |
| Planner.AllocatePick | app/src/services/planner.ts:29-33 | the i-th entry is for the i-th sorted candidate, is made only while budget remains, and takes exactly the smaller of its estimate (30 when unset) and the budget left before it |
| Planner.AllocateStops | app/src/services/planner.ts:30-31 | the walk ends only when the candidates run out, the task limit is reached, or the budget is used up |
| Planner.PlanTasks | app/src/services/planner.ts:22-36 | a plan has at most maxTasks entries and is empty without budget |
| Planner.PlanTasksSpec | app/src/services/planner.ts:18-36 | a plan has at most maxTasks entries, is empty without budget, and stays within max(0, budget) |
| Planner.SortedPick | app/src/services/planner.ts:25-33 | over sorted incomplete candidates, each entry is for an incomplete task and is the exact pick `AllocatePick` describes |
| Planner.PlanTasksPick | app/src/services/planner.ts:22-35 | the i-th entry of the plan is for the i-th candidate in score order, an incomplete task, and takes exactly the smaller of its estimate (30 when unset) and the budget left before it |
| Planner.PlanTasksGreedy | app/src/services/planner.ts:27-31 | the plan follows score order, highest first, and ends only at the end of the candidates, at maxTasks entries, or once the budget is used up |
| Planner.PlanWithoutOpenTasks | app/src/services/planner.ts:22-36 | with no incomplete task anywhere the plan is empty |
| Planner.PlannerExample | app/src/services/planner.ts:5-36 | two tasks scoring 60 each, with a 60-minute budget: the first in traversal order gets all 60 minutes and the other nothing |
| Planner.ScoreMilestone | app/src/services/planner.ts:25 | the loop over one milestone's tasks yields that milestone's candidates |
| Planner.ScoreProject | app/src/services/planner.ts:25 | the loop over one project's milestones yields that project's candidates |
| Planner.CollectCandidates | app/src/services/planner.ts:22-26 | the loop over projects yields every candidate, in traversal order |
| Planner.Allot | app/src/services/planner.ts:28-36 | the greedy loop, with its break, produces the entries the greedy walk describes |
| Planner.GenerateDailyPlan | app/src/services/planner.ts:18-40 | the plan for the date, stamped now, holds the greedy allocation over the sorted candidates (at most 8 tasks by default), within the task limit and the budget |

## Left out

- The storage layer (`db.ts`), sync, hooks and the user interface are not part of this model. The planner takes its projects and priorities as parameters and returns the plan instead of calling `saveDailyPlan`.
- Each `Date.now()` in the source is a separate clock reading. The model uses one `now` per operation, so the event time, the streak's today and every unlock time coincide.
- `startOfDay`, `toISOString().slice(0,10)` and `differenceInCalendarDays` are replaced by the `dayOf` and `daysUntil` parameters. Time zones and daylight-saving shifts are not modelled.
- Minutes, estimates and budgets are integers, while the source uses floating-point numbers. Weights, multipliers, urgency and scores are exact reals, so IEEE rounding in `Math.log2`, `Math.pow` and products is not modelled. NaN and infinities are not modelled either.
- Planner.SortByScore: the sort is modelled on a sequence as a stable insertion sort, not as the in-place `Array.prototype.sort`. The engine's sort guarantees stability but not the algorithm.
- Planner.PriorityFor: the `?? 0.5` branch for a priority whose weight is undefined cannot arise with typed records. Only the missing-priority stand-in is modelled.
- Achievements.Unlock: selects the catalog entry by position. Achievements.CatalogLookup shows that this equals the entry `find` returns.
- The `category_master` achievement is in the catalog but never evaluated by the source, and the model keeps it so.
- `exportSnapshot` and `importSnapshot` are not part of this model.
