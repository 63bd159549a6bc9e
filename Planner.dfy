/** The daily planning scheduler (app/src/services/planner.ts): scores every
    incomplete task of every project, orders them by score, highest first, and
    greedily hands out minutes of the day's budget.

    The projects and priorities read from the store are parameters, the plan
    is returned instead of being saved, `now` stands for `Date.now()`, and
    `daysUntil` gives the number of calendar days from today to a timestamp. */
module Planner {
  import opened Schema
  import opened Numeric

  const DEFAULT_ESTIMATE: int := 30
  const MIN_ESTIMATE: int := 5
  const DEFAULT_WEIGHT: real := 0.5
  const MAX_URGENCY: real := 10.0
  const URGENCY_DAYS: real := 30.0
  const DEFAULT_MAX_TASKS: int := 8

  /** A candidate for today's plan: an incomplete task and its score. */
  datatype Scored = Scored(task: Task, score: real)

  // ---------------------------------------------------------------- scoring

  /** `estimateMinutes || 30`: an estimate of 0 means "not given". */
  function EstimateOrDefault(estimateMinutes: int): (e: int)
    ensures estimateMinutes != 0 ==> e == estimateMinutes
    ensures estimateMinutes == 0 ==> e == DEFAULT_ESTIMATE
  {
    if estimateMinutes == 0 then DEFAULT_ESTIMATE else estimateMinutes
  }

  /** The estimate used for scoring: never below 5 minutes, 30 when unset. */
  function EffectiveEstimate(t: Task): (e: int)
    ensures e >= MIN_ESTIMATE
    ensures t.estimateMinutes == 0 ==> e == DEFAULT_ESTIMATE
    ensures t.estimateMinutes >= MIN_ESTIMATE ==> e == t.estimateMinutes
    ensures t.estimateMinutes < MIN_ESTIMATE && t.estimateMinutes != 0 ==> e == MIN_ESTIMATE
  {
    Max(MIN_ESTIMATE, EstimateOrDefault(t.estimateMinutes))
  }

  /** The set target dates of the milestones, in milestone order. */
  function Targets(milestones: seq<Milestone>): (ts: seq<int>)
    ensures forall i :: 0 <= i < |milestones| && Truthy(milestones[i].targetDate) ==>
      milestones[i].targetDate.value in ts
    ensures forall t :: t in ts ==>
      (exists i :: 0 <= i < |milestones| && Truthy(milestones[i].targetDate) && milestones[i].targetDate.value == t)
  {
    if milestones == [] then []
    else
      var rest := Targets(milestones[1..]);
      var t := milestones[0].targetDate;
      assert forall i :: 1 <= i < |milestones| ==> milestones[i] == milestones[1..][i - 1];
      if Truthy(t) then [t.value] + rest else rest
  }

  /** `Math.min(...xs)` for a non-empty list. */
  function MinOf(xs: seq<int>): (m: int)
    requires xs != []
    ensures m in xs
    ensures forall x :: x in xs ==> m <= x
  {
    if |xs| == 1 then xs[0]
    else
      assert xs == [xs[0]] + xs[1..];
      Min(xs[0], MinOf(xs[1..]))
  }

  /** The nearest target date among the project's milestones, if any is set. */
  function NearestTarget(project: Project): (n: Option<int>)
    ensures n.None? <==> forall i :: 0 <= i < |project.milestones| ==> !Truthy(project.milestones[i].targetDate)
    ensures n.Some? ==>
      (exists i :: 0 <= i < |project.milestones| && Truthy(project.milestones[i].targetDate) &&
                   project.milestones[i].targetDate.value == n.value)
    ensures n.Some? ==> forall i :: 0 <= i < |project.milestones| && Truthy(project.milestones[i].targetDate) ==>
      n.value <= project.milestones[i].targetDate.value
  {
    var ts := Targets(project.milestones);
    if ts == [] then None else Some(MinOf(ts))
  }

  /** 30 / days, for a whole number of days: positive, at least 10 up to three
      days out and at most 10 from three days on. */
  lemma UrgencyRatio(days: int)
    requires days >= 1
    ensures URGENCY_DAYS / days as real > 0.0
    ensures days <= 3 ==> URGENCY_DAYS / days as real >= MAX_URGENCY
    ensures days >= 3 ==> URGENCY_DAYS / days as real <= MAX_URGENCY
  {
    var d := days as real;
    var q := URGENCY_DAYS / d;
    assert q * d == URGENCY_DAYS;
    if days <= 3 {
      assert q * d <= q * 3.0;
    }
    if days >= 3 {
      assert q * d >= q * 3.0;
    }
  }

  /** Scaling a non-negative base by an urgency in (0, 10] keeps it between 0
      and ten times the base. */
  lemma ScaledByUrgency(base: real, urgency: real)
    requires base >= 0.0 && 0.0 < urgency <= MAX_URGENCY
    ensures 0.0 <= base * urgency <= MAX_URGENCY * base
  {
    assert base * (MAX_URGENCY - urgency) >= 0.0;
  }

  /** How pressing the project's nearest deadline is: 1 without deadlines,
      otherwise 30 over the days left (at least one), capped at 10. */
  function Urgency(project: Project, daysUntil: int -> int): (u: real)
    ensures 0.0 < u <= MAX_URGENCY
    ensures NearestTarget(project).None? ==> u == 1.0
    ensures NearestTarget(project).Some? ==>
      var days := daysUntil(NearestTarget(project).value);
      (days <= 3 ==> u == MAX_URGENCY) && (days >= 3 ==> u == URGENCY_DAYS / days as real)
  {
    match NearestTarget(project)
    case None => 1.0
    case Some(nearest) =>
      var days := Max(1, daysUntil(nearest));
      UrgencyRatio(days);
      MinR(MAX_URGENCY, URGENCY_DAYS / days as real)
  }

  /** The priority-weighted estimate a task's score starts from. */
  function BaseScore(task: Task, priority: Priority): real {
    EffectiveEstimate(task) as real * priority.weight
  }

  /** A completed task scores 0; any other scores its base times the urgency. */
  function ScoreTask(task: Task, project: Project, priority: Priority, daysUntil: int -> int): (s: real)
    ensures Truthy(task.completedAt) ==> s == 0.0
    ensures !Truthy(task.completedAt) ==> s == BaseScore(task, priority) * Urgency(project, daysUntil)
  {
    var base := BaseScore(task, priority);
    var urgency := Urgency(project, daysUntil);
    if Truthy(task.completedAt) then 0.0 else base * urgency
  }

  /** A project without deadlines leaves an open task's base score as it is. */
  lemma ScoreWithoutDeadline(task: Task, project: Project, priority: Priority, daysUntil: int -> int)
    requires !Truthy(task.completedAt) && NearestTarget(project).None?
    ensures ScoreTask(task, project, priority, daysUntil) == BaseScore(task, priority)
  {
  }

  /** With a non-negative weight a score lies between 0 and ten times the base. */
  lemma ScoreTaskBounds(task: Task, project: Project, priority: Priority, daysUntil: int -> int)
    requires priority.weight >= 0.0
    ensures 0.0 <= ScoreTask(task, project, priority, daysUntil) <= MAX_URGENCY * BaseScore(task, priority)
  {
    var base := BaseScore(task, priority);
    assert base >= 0.0 by {
      var e := EffectiveEstimate(task) as real;
      assert e >= 0.0;
      assert e * priority.weight >= 0.0;
    }
    var urgency := Urgency(project, daysUntil);
    ScaledByUrgency(base, urgency);
    if !Truthy(task.completedAt) {
      assert ScoreTask(task, project, priority, daysUntil) == base * urgency;
    }
  }

  /** The priority a project points to (`priorities.find`), or a stand-in
      carrying only the default weight 0.5 when there is none. */
  function PriorityFor(priorities: seq<Priority>, priorityId: UUID): (pr: Priority)
    ensures (forall i :: 0 <= i < |priorities| ==> priorities[i].id != priorityId) ==> pr.weight == DEFAULT_WEIGHT
    ensures (exists i :: 0 <= i < |priorities| && priorities[i].id == priorityId) ==>
      exists i :: 0 <= i < |priorities| && priorities[i] == pr && pr.id == priorityId &&
        forall j :: 0 <= j < i ==> priorities[j].id != priorityId
  {
    if priorities == [] then Priority("", "", "", DEFAULT_WEIGHT, 0)
    else if priorities[0].id == priorityId then priorities[0]
    else
      var pr := PriorityFor(priorities[1..], priorityId);
      assert forall i :: 1 <= i < |priorities| ==> priorities[i] == priorities[1..][i - 1];
      pr
  }

  // ---------------------------------------------------------------- candidates

  /** The incomplete tasks of one milestone, scored, in order. */
  function TaskCandidates(tasks: seq<Task>, project: Project, priority: Priority, daysUntil: int -> int)
    : (r: seq<Scored>)
    ensures forall c :: c in r ==>
      (c.task in tasks && !Truthy(c.task.completedAt) && c.score == ScoreTask(c.task, project, priority, daysUntil))
  {
    if tasks == [] then []
    else
      var t := tasks[|tasks| - 1];
      TaskCandidates(tasks[..|tasks| - 1], project, priority, daysUntil)
        + (if Truthy(t.completedAt) then [] else [Scored(t, ScoreTask(t, project, priority, daysUntil))])
  }

  /** The candidates of the project's milestones, milestone by milestone. */
  function MilestoneCandidates(milestones: seq<Milestone>, project: Project, priority: Priority, daysUntil: int -> int)
    : (r: seq<Scored>)
    ensures forall c :: c in r ==>
      (!Truthy(c.task.completedAt) && c.score == ScoreTask(c.task, project, priority, daysUntil))
  {
    if milestones == [] then []
    else
      var last := milestones[|milestones| - 1];
      MilestoneCandidates(milestones[..|milestones| - 1], project, priority, daysUntil)
        + TaskCandidates(last.tasks, project, priority, daysUntil)
  }

  /** Every incomplete task of every project, scored, in project, milestone,
      task order. */
  function Candidates(projects: seq<Project>, priorities: seq<Priority>, daysUntil: int -> int): (r: seq<Scored>)
    ensures forall c :: c in r ==> !Truthy(c.task.completedAt)
  {
    if projects == [] then []
    else
      var p := projects[|projects| - 1];
      Candidates(projects[..|projects| - 1], priorities, daysUntil)
        + MilestoneCandidates(p.milestones, p, PriorityFor(priorities, p.priorityId), daysUntil)
  }

  /** Every candidate of a project is a task of one of its milestones. */
  lemma {:induction false} MilestoneCandidatesSound(
    milestones: seq<Milestone>, project: Project, priority: Priority, daysUntil: int -> int)
    ensures forall c :: c in MilestoneCandidates(milestones, project, priority, daysUntil) ==>
      exists j, k :: 0 <= j < |milestones| && 0 <= k < |milestones[j].tasks| && milestones[j].tasks[k] == c.task
  {
    if milestones != [] {
      var init, last := milestones[..|milestones| - 1], milestones[|milestones| - 1];
      MilestoneCandidatesSound(init, project, priority, daysUntil);
      assert forall j :: 0 <= j < |init| ==> init[j] == milestones[j];
      assert forall c :: c in TaskCandidates(last.tasks, project, priority, daysUntil) ==>
        exists k :: 0 <= k < |last.tasks| && last.tasks[k] == c.task;
    }
  }

  /** Every candidate is a task of some milestone of some project. */
  lemma {:induction false} CandidatesSound(projects: seq<Project>, priorities: seq<Priority>, daysUntil: int -> int)
    ensures forall c :: c in Candidates(projects, priorities, daysUntil) ==>
      exists i, j, k :: 0 <= i < |projects| && 0 <= j < |projects[i].milestones|
        && 0 <= k < |projects[i].milestones[j].tasks| && projects[i].milestones[j].tasks[k] == c.task
  {
    if projects != [] {
      var init := projects[..|projects| - 1];
      var p := projects[|projects| - 1];
      CandidatesSound(init, priorities, daysUntil);
      MilestoneCandidatesSound(p.milestones, p, PriorityFor(priorities, p.priorityId), daysUntil);
      assert forall i :: 0 <= i < |init| ==> init[i] == projects[i];
    }
  }

  lemma {:induction false} TaskCandidatesComplete(
    tasks: seq<Task>, project: Project, priority: Priority, daysUntil: int -> int, k: int)
    requires 0 <= k < |tasks| && !Truthy(tasks[k].completedAt)
    ensures Scored(tasks[k], ScoreTask(tasks[k], project, priority, daysUntil))
      in TaskCandidates(tasks, project, priority, daysUntil)
  {
    var init := tasks[..|tasks| - 1];
    if k < |tasks| - 1 {
      assert init[k] == tasks[k];
      TaskCandidatesComplete(init, project, priority, daysUntil, k);
    }
  }

  lemma {:induction false} MilestoneCandidatesComplete(
    milestones: seq<Milestone>, project: Project, priority: Priority, daysUntil: int -> int, j: int, k: int)
    requires 0 <= j < |milestones| && 0 <= k < |milestones[j].tasks|
    requires !Truthy(milestones[j].tasks[k].completedAt)
    ensures var t := milestones[j].tasks[k];
      Scored(t, ScoreTask(t, project, priority, daysUntil)) in MilestoneCandidates(milestones, project, priority, daysUntil)
  {
    var init := milestones[..|milestones| - 1];
    if j < |milestones| - 1 {
      assert init[j] == milestones[j];
      MilestoneCandidatesComplete(init, project, priority, daysUntil, j, k);
    } else {
      TaskCandidatesComplete(milestones[j].tasks, project, priority, daysUntil, k);
    }
  }

  /** Every incomplete task of every milestone of every project is a candidate,
      scored with its project and that project's priority. */
  lemma {:induction false} CandidatesComplete(
    projects: seq<Project>, priorities: seq<Priority>, daysUntil: int -> int, i: int, j: int, k: int)
    requires 0 <= i < |projects| && 0 <= j < |projects[i].milestones| && 0 <= k < |projects[i].milestones[j].tasks|
    requires !Truthy(projects[i].milestones[j].tasks[k].completedAt)
    ensures var p := projects[i];
      var t := p.milestones[j].tasks[k];
      Scored(t, ScoreTask(t, p, PriorityFor(priorities, p.priorityId), daysUntil))
        in Candidates(projects, priorities, daysUntil)
  {
    var init := projects[..|projects| - 1];
    if i < |projects| - 1 {
      assert init[i] == projects[i];
      CandidatesComplete(init, priorities, daysUntil, i, j, k);
    } else {
      var p := projects[i];
      MilestoneCandidatesComplete(p.milestones, p, PriorityFor(priorities, p.priorityId), daysUntil, j, k);
    }
  }

  // ---------------------------------------------------------------- stable sort by score, highest first

  predicate SortedByScore(xs: seq<Scored>) {
    forall i, j :: 0 <= i < j < |xs| ==> xs[i].score >= xs[j].score
  }

  /** The elements of `xs` with score `s`, in their order in `xs`. */
  function WithScore(xs: seq<Scored>, s: real): seq<Scored> {
    if xs == [] then [] else (if xs[0].score == s then [xs[0]] else []) + WithScore(xs[1..], s)
  }

  /** Puts `x` after every element whose score is at least its own. */
  function Insert(x: Scored, ys: seq<Scored>): (r: seq<Scored>)
    ensures |r| == |ys| + 1
  {
    if ys == [] || x.score > ys[0].score then [x] + ys else [ys[0]] + Insert(x, ys[1..])
  }

  /** `Array.prototype.sort` with comparator `b.score - a.score`, which is
      stable: an insertion sort that takes the elements in order. */
  function SortByScore(xs: seq<Scored>): (r: seq<Scored>)
    ensures |r| == |xs|
  {
    if xs == [] then [] else Insert(xs[|xs| - 1], SortByScore(xs[..|xs| - 1]))
  }

  lemma {:induction false} WithScoreConcat(a: seq<Scored>, b: seq<Scored>, s: real)
    ensures WithScore(a + b, s) == WithScore(a, s) + WithScore(b, s)
  {
    if a != [] {
      assert (a + b)[1..] == a[1..] + b;
      WithScoreConcat(a[1..], b, s);
    } else {
      assert a + b == b;
    }
  }

  lemma {:induction false} WithScoreNone(xs: seq<Scored>, s: real)
    requires forall i :: 0 <= i < |xs| ==> xs[i].score < s
    ensures WithScore(xs, s) == []
  {
    if xs != [] {
      WithScoreNone(xs[1..], s);
    }
  }

  lemma {:induction false} InsertPermutes(x: Scored, ys: seq<Scored>)
    ensures multiset(Insert(x, ys)) == multiset(ys) + multiset{x}
  {
    if ys != [] && x.score <= ys[0].score {
      InsertPermutes(x, ys[1..]);
      assert ys == [ys[0]] + ys[1..];
    }
  }

  lemma {:induction false} InsertSorted(x: Scored, ys: seq<Scored>)
    requires SortedByScore(ys)
    ensures SortedByScore(Insert(x, ys))
  {
    if ys != [] && x.score <= ys[0].score {
      var r, tail := Insert(x, ys), Insert(x, ys[1..]);
      InsertSorted(x, ys[1..]);
      InsertPermutes(x, ys[1..]);
      assert r == [ys[0]] + tail;
      forall i | 0 < i < |r| ensures ys[0].score >= r[i].score {
        assert r[i] == tail[i - 1];
        assert r[i] in multiset(tail);
        if r[i] != x {
          assert r[i] in multiset(ys[1..]);
          var k :| 0 <= k < |ys[1..]| && ys[1..][k] == r[i];
          assert ys[k + 1] == r[i];
        }
      }
    }
  }

  lemma {:induction false} InsertStable(x: Scored, ys: seq<Scored>, s: real)
    requires SortedByScore(ys)
    ensures WithScore(Insert(x, ys), s) == WithScore(ys, s) + (if x.score == s then [x] else [])
  {
    var r := Insert(x, ys);
    if ys == [] || x.score > ys[0].score {
      assert r[1..] == ys;
      if x.score == s {
        WithScoreNone(ys, s);
      }
    } else {
      InsertStable(x, ys[1..], s);
      assert r[1..] == Insert(x, ys[1..]);
    }
  }

  /** The sort orders by score, highest first. */
  lemma {:induction false} SortByScoreSorted(xs: seq<Scored>)
    ensures SortedByScore(SortByScore(xs))
  {
    if xs != [] {
      var init, last := xs[..|xs| - 1], xs[|xs| - 1];
      SortByScoreSorted(init);
      InsertSorted(last, SortByScore(init));
    }
  }

  /** The sort keeps every element, as often as it occurs. */
  lemma {:induction false} SortByScorePermutes(xs: seq<Scored>)
    ensures multiset(SortByScore(xs)) == multiset(xs)
  {
    if xs != [] {
      var init, last := xs[..|xs| - 1], xs[|xs| - 1];
      SortByScorePermutes(init);
      InsertPermutes(last, SortByScore(init));
      assert xs == init + [last];
    }
  }

  /** Elements of equal score keep their original order. */
  lemma {:induction false} SortByScoreStable(xs: seq<Scored>, s: real)
    ensures WithScore(SortByScore(xs), s) == WithScore(xs, s)
  {
    if xs != [] {
      var init, last := xs[..|xs| - 1], xs[|xs| - 1];
      SortByScoreStable(init, s);
      SortByScoreSorted(init);
      InsertStable(last, SortByScore(init), s);
      WithScoreConcat(init, [last], s);
      assert xs == init + [last];
    }
  }

  /** The sort orders by score, highest first, keeps every element, and keeps
      elements of equal score in their original order. */
  lemma SortByScoreSpec(xs: seq<Scored>)
    ensures SortedByScore(SortByScore(xs))
    ensures multiset(SortByScore(xs)) == multiset(xs)
    ensures forall s :: WithScore(SortByScore(xs), s) == WithScore(xs, s)
  {
    SortByScoreSorted(xs);
    SortByScorePermutes(xs);
    forall s ensures WithScore(SortByScore(xs), s) == WithScore(xs, s) {
      SortByScoreStable(xs, s);
    }
  }

  // ---------------------------------------------------------------- greedy allocation

  function TotalPlanned(entries: seq<PlanEntry>): int {
    if entries == [] then 0 else entries[0].plannedMinutes + TotalPlanned(entries[1..])
  }

  lemma {:induction false} TotalPlannedAppend(entries: seq<PlanEntry>, e: PlanEntry)
    ensures TotalPlanned(entries + [e]) == TotalPlanned(entries) + e.plannedMinutes
  {
    if entries != [] {
      assert (entries + [e])[1..] == entries[1..] + [e];
      TotalPlannedAppend(entries[1..], e);
    } else {
      assert [e][1..] == [];
    }
  }

  /** The greedy walk over the sorted candidates: while fewer than `maxTasks`
      are taken and budget remains, the next task gets its estimate (30 when
      unset) or whatever budget is left, if that is less. */
  function Allocate(sorted: seq<Scored>, remaining: int, count: int, maxTasks: int): (plan: seq<PlanEntry>)
    ensures |plan| <= |sorted|
    ensures |plan| <= Max(0, maxTasks - count)
    ensures remaining <= 0 ==> plan == []
    ensures plan != [] ==> TotalPlanned(plan) <= remaining
    decreases |sorted|
  {
    if sorted == [] || count >= maxTasks || remaining <= 0 then []
    else
      var take := Min(EstimateOrDefault(sorted[0].task.estimateMinutes), remaining);
      [PlanEntry(sorted[0].task.id, take)] + Allocate(sorted[1..], remaining - take, count + 1, maxTasks)
  }

  lemma TotalPlannedCons(e: PlanEntry, entries: seq<PlanEntry>)
    ensures TotalPlanned([e] + entries) == e.plannedMinutes + TotalPlanned(entries)
  {
    assert ([e] + entries)[1..] == entries;
  }

  /** Entry `i` of `plan` is for candidate `i` of `sorted`, is made only while
      some of `budget` is left, and takes the candidate's estimate (30 when
      unset) or the budget left before it, whichever is less. */
  predicate PickedAt(plan: seq<PlanEntry>, sorted: seq<Scored>, budget: int, i: int)
    requires 0 <= i < |plan| && i < |sorted|
  {
    var left := budget - TotalPlanned(plan[..i]);
    plan[i].taskId == sorted[i].task.id
    && 0 < left
    && plan[i].plannedMinutes == Min(EstimateOrDefault(sorted[i].task.estimateMinutes), left)
  }

  /** Every entry of the walk is a pick as `PickedAt` describes it. */
  lemma {:induction false} AllocatePick(sorted: seq<Scored>, remaining: int, count: int, maxTasks: int, i: int)
    requires 0 <= i < |Allocate(sorted, remaining, count, maxTasks)|
    ensures PickedAt(Allocate(sorted, remaining, count, maxTasks), sorted, remaining, i)
    decreases |sorted|
  {
    var plan := Allocate(sorted, remaining, count, maxTasks);
    var take := Min(EstimateOrDefault(sorted[0].task.estimateMinutes), remaining);
    var rest := Allocate(sorted[1..], remaining - take, count + 1, maxTasks);
    assert plan == [PlanEntry(sorted[0].task.id, take)] + rest;
    if i > 0 {
      AllocatePick(sorted[1..], remaining - take, count + 1, maxTasks, i - 1);
      assert plan[..i] == [plan[0]] + rest[..i - 1];
      TotalPlannedCons(plan[0], rest[..i - 1]);
      assert plan[i] == rest[i - 1];
    } else {
      assert plan[..0] == [];
    }
  }

  /** The walk only stops at the end of the candidates, at the task limit, or
      once the budget is used up. */
  lemma {:induction false} AllocateStops(sorted: seq<Scored>, remaining: int, count: int, maxTasks: int)
    ensures var plan := Allocate(sorted, remaining, count, maxTasks);
      |plan| == |sorted| || count + |plan| >= maxTasks || remaining - TotalPlanned(plan) <= 0
    decreases |sorted|
  {
    if !(sorted == [] || count >= maxTasks || remaining <= 0) {
      var take := Min(EstimateOrDefault(sorted[0].task.estimateMinutes), remaining);
      var rest := Allocate(sorted[1..], remaining - take, count + 1, maxTasks);
      AllocateStops(sorted[1..], remaining - take, count + 1, maxTasks);
      TotalPlannedCons(PlanEntry(sorted[0].task.id, take), rest);
    }
  }

  lemma AppendAssoc(a: seq<PlanEntry>, b: seq<PlanEntry>, c: seq<PlanEntry>)
    ensures a + b + c == a + (b + c)
  {
  }

  /** One step of the walk: a pick followed by the walk over the rest. */
  lemma AllocateStep(sorted: seq<Scored>, remaining: int, count: int, maxTasks: int, i: int)
    requires 0 <= i < |sorted| && count < maxTasks && remaining > 0
    ensures var take := Min(EstimateOrDefault(sorted[i].task.estimateMinutes), remaining);
      Allocate(sorted[i..], remaining, count, maxTasks)
      == [PlanEntry(sorted[i].task.id, take)] + Allocate(sorted[i + 1..], remaining - take, count + 1, maxTasks)
  {
    assert sorted[i..][1..] == sorted[i + 1..];
  }

  /** The entries of today's plan: allocation over the score-sorted candidates. */
  function PlanTasks(
    projects: seq<Project>, priorities: seq<Priority>, dailyAvailableMinutes: int, maxTasks: int, daysUntil: int -> int)
    : (plan: seq<PlanEntry>)
    ensures |plan| <= Max(0, maxTasks)
    ensures dailyAvailableMinutes <= 0 ==> plan == []
  {
    Allocate(SortByScore(Candidates(projects, priorities, daysUntil)), dailyAvailableMinutes, 0, maxTasks)
  }

  /** The plan's limits: at most `maxTasks` entries, none without a budget, and
      no more minutes in total than the budget (or 0, when it is negative). */
  lemma PlanTasksSpec(
    projects: seq<Project>, priorities: seq<Priority>, dailyAvailableMinutes: int, maxTasks: int, daysUntil: int -> int)
    ensures var plan := PlanTasks(projects, priorities, dailyAvailableMinutes, maxTasks, daysUntil);
      |plan| <= Max(0, maxTasks)
      && (dailyAvailableMinutes <= 0 ==> plan == [])
      && TotalPlanned(plan) <= Max(0, dailyAvailableMinutes)
  {
  }

  /** The i-th pick over sorted incomplete candidates is for an incomplete
      task, and is a pick as `PickedAt` describes it. */
  lemma SortedPick(cands: seq<Scored>, dailyAvailableMinutes: int, maxTasks: int, i: int)
    requires forall c :: c in cands ==> !Truthy(c.task.completedAt)
    requires 0 <= i < |Allocate(SortByScore(cands), dailyAvailableMinutes, 0, maxTasks)|
    ensures var sorted := SortByScore(cands);
      i < |sorted| && !Truthy(sorted[i].task.completedAt)
    ensures PickedAt(Allocate(SortByScore(cands), dailyAvailableMinutes, 0, maxTasks), SortByScore(cands), dailyAvailableMinutes, i)
  {
    var sorted := SortByScore(cands);
    AllocatePick(sorted, dailyAvailableMinutes, 0, maxTasks, i);
    SortByScorePermutes(cands);
    assert sorted[i] in multiset(cands);
  }

  /** The i-th entry of the plan is for the i-th candidate in score order, an
      incomplete task, and gets its estimate (30 when unset) or the budget left
      before it, whichever is less; it is only made while budget remains. */
  lemma PlanTasksPick(
    projects: seq<Project>, priorities: seq<Priority>, dailyAvailableMinutes: int, maxTasks: int, daysUntil: int -> int,
    i: int)
    requires 0 <= i < |PlanTasks(projects, priorities, dailyAvailableMinutes, maxTasks, daysUntil)|
    ensures var sorted := SortByScore(Candidates(projects, priorities, daysUntil));
      i < |sorted| && !Truthy(sorted[i].task.completedAt)
    ensures PickedAt(
      PlanTasks(projects, priorities, dailyAvailableMinutes, maxTasks, daysUntil),
      SortByScore(Candidates(projects, priorities, daysUntil)), dailyAvailableMinutes, i)
  {
    SortedPick(Candidates(projects, priorities, daysUntil), dailyAvailableMinutes, maxTasks, i);
  }

  /** The plan follows score order, highest first, and ends only at the end of
      the candidates, at `maxTasks` entries, or once the budget is used up. */
  lemma PlanTasksGreedy(
    projects: seq<Project>, priorities: seq<Priority>, dailyAvailableMinutes: int, maxTasks: int, daysUntil: int -> int)
    ensures var plan := PlanTasks(projects, priorities, dailyAvailableMinutes, maxTasks, daysUntil);
      var sorted := SortByScore(Candidates(projects, priorities, daysUntil));
      (forall i, j :: 0 <= i < j < |plan| ==> sorted[i].score >= sorted[j].score)
      && (|plan| == |sorted| || |plan| >= maxTasks || dailyAvailableMinutes - TotalPlanned(plan) <= 0)
  {
    var cands := Candidates(projects, priorities, daysUntil);
    SortByScoreSorted(cands);
    AllocateStops(SortByScore(cands), dailyAvailableMinutes, 0, maxTasks);
  }

  /** Without any incomplete task there is nothing to plan. */
  lemma PlanWithoutOpenTasks(
    projects: seq<Project>, priorities: seq<Priority>, dailyAvailableMinutes: int, maxTasks: int, daysUntil: int -> int)
    requires forall i, j, k ::
      (0 <= i < |projects| && 0 <= j < |projects[i].milestones| && 0 <= k < |projects[i].milestones[j].tasks|)
      ==> Truthy(projects[i].milestones[j].tasks[k].completedAt)
    ensures PlanTasks(projects, priorities, dailyAvailableMinutes, maxTasks, daysUntil) == []
  {
    var cands := Candidates(projects, priorities, daysUntil);
    CandidatesSound(projects, priorities, daysUntil);
    assert forall n :: 0 <= n < |cands| ==> cands[n] in cands;
    assert |SortByScore(cands)| == 0;
  }

  // A worked instance: task A (60 minutes, weight 1, no deadline) and task B
  // (30 minutes, weight 0.2, deadline one day out) both score 60.
  const EXAMPLE_DEADLINE: int := 86_400_000
  const EXAMPLE_A: Task := Task("a", "A", 60, None, None, 0)
  const EXAMPLE_B: Task := Task("bb", "B", 30, None, None, 0)
  const EXAMPLE_PROJECTS: seq<Project> := [
    Project("pa", "w", "Alpha", Code, None, [Milestone("ma", "M", None, [EXAMPLE_A])], 0),
    Project("pbb", "ww", "Beta", Code, None, [Milestone("mb", "M", Some(EXAMPLE_DEADLINE), [EXAMPLE_B])], 0)
  ]
  const EXAMPLE_PRIORITIES: seq<Priority> := [Priority("w", "v", "One", 1.0, 0), Priority("ww", "v", "Two", 0.2, 0)]

  lemma ExampleScores(daysUntil: int -> int)
    requires daysUntil(EXAMPLE_DEADLINE) == 1
    ensures ScoreTask(EXAMPLE_A, EXAMPLE_PROJECTS[0], PriorityFor(EXAMPLE_PRIORITIES, "w"), daysUntil) == 60.0
    ensures ScoreTask(EXAMPLE_B, EXAMPLE_PROJECTS[1], PriorityFor(EXAMPLE_PRIORITIES, "ww"), daysUntil) == 60.0
  {
    var pa, pb := EXAMPLE_PROJECTS[0], EXAMPLE_PROJECTS[1];
    assert PriorityFor(EXAMPLE_PRIORITIES, "w").weight == 1.0;
    assert PriorityFor(EXAMPLE_PRIORITIES, "ww").weight == 0.2 by {
      assert EXAMPLE_PRIORITIES[0].id != "ww";
    }
    assert NearestTarget(pa) == None;
    assert Targets(pb.milestones) == [EXAMPLE_DEADLINE];
    assert Urgency(pb, daysUntil) == 10.0;
  }

  lemma ExampleCandidates(daysUntil: int -> int)
    requires daysUntil(EXAMPLE_DEADLINE) == 1
    ensures Candidates(EXAMPLE_PROJECTS, EXAMPLE_PRIORITIES, daysUntil) == [Scored(EXAMPLE_A, 60.0), Scored(EXAMPLE_B, 60.0)]
  {
    var pa, pb := EXAMPLE_PROJECTS[0], EXAMPLE_PROJECTS[1];
    var pra, prb := PriorityFor(EXAMPLE_PRIORITIES, "w"), PriorityFor(EXAMPLE_PRIORITIES, "ww");
    ExampleScores(daysUntil);
    assert TaskCandidates([EXAMPLE_A], pa, pra, daysUntil) == [Scored(EXAMPLE_A, 60.0)];
    assert TaskCandidates([EXAMPLE_B], pb, prb, daysUntil) == [Scored(EXAMPLE_B, 60.0)];
    assert pa.milestones[..0] == [] && pb.milestones[..0] == [];
    assert MilestoneCandidates(pa.milestones, pa, pra, daysUntil) == [Scored(EXAMPLE_A, 60.0)];
    assert MilestoneCandidates(pb.milestones, pb, prb, daysUntil) == [Scored(EXAMPLE_B, 60.0)];
    assert EXAMPLE_PROJECTS[..1] == [pa] && [pa][..0] == [];
    assert Candidates([pa], EXAMPLE_PRIORITIES, daysUntil) == [Scored(EXAMPLE_A, 60.0)];
  }

  /** In the worked instance the tie keeps traversal order, so a 60-minute
      budget goes entirely to A and B gets nothing. */
  lemma PlannerExample(daysUntil: int -> int)
    requires daysUntil(EXAMPLE_DEADLINE) == 1
    ensures PlanTasks(EXAMPLE_PROJECTS, EXAMPLE_PRIORITIES, 60, DEFAULT_MAX_TASKS, daysUntil) == [PlanEntry("a", 60)]
  {
    var ca, cb := Scored(EXAMPLE_A, 60.0), Scored(EXAMPLE_B, 60.0);
    ExampleCandidates(daysUntil);
    assert SortByScore([ca]) == [ca];
    assert SortByScore([ca, cb]) == Insert(cb, [ca]) == [ca, cb];
    assert Allocate([cb], 0, 1, DEFAULT_MAX_TASKS) == [];
    assert Allocate([ca, cb], 60, 0, DEFAULT_MAX_TASKS) == [PlanEntry("a", 60)] + Allocate([cb], 0, 1, DEFAULT_MAX_TASKS);
  }

  // ---------------------------------------------------------------- the scheduler

  /** Scores the incomplete tasks of one milestone, in order. */
  method ScoreMilestone(tasks: seq<Task>, project: Project, priority: Priority, daysUntil: int -> int)
    returns (scored: seq<Scored>)
    ensures scored == TaskCandidates(tasks, project, priority, daysUntil)
  {
    scored := [];
    for k := 0 to |tasks|
      invariant scored == TaskCandidates(tasks[..k], project, priority, daysUntil)
    {
      var t := tasks[k];
      assert tasks[..k + 1][..k] == tasks[..k];
      if !Truthy(t.completedAt) {
        scored := scored + [Scored(t, ScoreTask(t, project, priority, daysUntil))];
      }
    }
    assert tasks[..|tasks|] == tasks;
  }

  /** Scores the incomplete tasks of one project, milestone by milestone. */
  method ScoreProject(project: Project, priority: Priority, daysUntil: int -> int)
    returns (scored: seq<Scored>)
    ensures scored == MilestoneCandidates(project.milestones, project, priority, daysUntil)
  {
    var milestones := project.milestones;
    scored := [];
    for j := 0 to |milestones|
      invariant scored == MilestoneCandidates(milestones[..j], project, priority, daysUntil)
    {
      var fromMilestone := ScoreMilestone(milestones[j].tasks, project, priority, daysUntil);
      assert milestones[..j + 1][..j] == milestones[..j];
      scored := scored + fromMilestone;
    }
    assert milestones[..|milestones|] == milestones;
  }

  /** Scores every incomplete task, walking projects, milestones and tasks in order. */
  method CollectCandidates(projects: seq<Project>, priorities: seq<Priority>, daysUntil: int -> int)
    returns (scored: seq<Scored>)
    ensures scored == Candidates(projects, priorities, daysUntil)
  {
    scored := [];
    for i := 0 to |projects|
      invariant scored == Candidates(projects[..i], priorities, daysUntil)
    {
      var p := projects[i];
      var fromProject := ScoreProject(p, PriorityFor(priorities, p.priorityId), daysUntil);
      assert projects[..i + 1][..i] == projects[..i];
      scored := scored + fromProject;
    }
    assert projects[..|projects|] == projects;
  }

  /** The greedy walk over the sorted candidates, keeping the remaining budget
      equal to the available minutes less everything planned so far. */
  method Allot(sorted: seq<Scored>, dailyAvailableMinutes: int, maxTasks: int) returns (entries: seq<PlanEntry>)
    ensures entries == Allocate(sorted, dailyAvailableMinutes, 0, maxTasks)
  {
    entries := [];
    var remaining, count := dailyAvailableMinutes, 0;
    assert sorted[0..] == sorted;
    for i := 0 to |sorted|
      invariant count == i == |entries|
      invariant remaining == dailyAvailableMinutes - TotalPlanned(entries)
      invariant entries + Allocate(sorted[i..], remaining, count, maxTasks)
        == Allocate(sorted, dailyAvailableMinutes, 0, maxTasks)
    {
      if count >= maxTasks || remaining <= 0 {
        break;
      }
      var take := Min(EstimateOrDefault(sorted[i].task.estimateMinutes), remaining);
      var entry := PlanEntry(sorted[i].task.id, take);
      AllocateStep(sorted, remaining, count, maxTasks, i);
      AppendAssoc(entries, [entry], Allocate(sorted[i + 1..], remaining - take, count + 1, maxTasks));
      TotalPlannedAppend(entries, entry);
      entries := entries + [entry];
      remaining := remaining - take;
      count := count + 1;
    }
  }

  /** Builds the plan for `date`: collects and scores candidates, sorts them by
      score, highest first, then hands out the budget greedily. */
  method GenerateDailyPlan(
    projects: seq<Project>, priorities: seq<Priority>, date: string, dailyAvailableMinutes: int,
    maxTasks: int := DEFAULT_MAX_TASKS, now: int, daysUntil: int -> int)
    returns (plan: DailyPlan)
    ensures plan.date == date && plan.createdAt == now
    ensures plan.tasks == PlanTasks(projects, priorities, dailyAvailableMinutes, maxTasks, daysUntil)
    ensures |plan.tasks| <= Max(0, maxTasks)
    ensures dailyAvailableMinutes <= 0 ==> plan.tasks == []
    ensures TotalPlanned(plan.tasks) <= Max(0, dailyAvailableMinutes)
  {
    var scored := CollectCandidates(projects, priorities, daysUntil);
    scored := SortByScore(scored);
    var planTasks := Allot(scored, dailyAvailableMinutes, maxTasks);
    plan := DailyPlan(date, planTasks, now);
    PlanTasksSpec(projects, priorities, dailyAvailableMinutes, maxTasks, daysUntil);
  }
}
