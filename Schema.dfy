/** Record shapes shared by the leveling engine, the achievement evaluator and
    the daily planner (app/src/models/schema.ts). Timestamps are integer
    milliseconds since the epoch; identifiers are opaque strings. */
module Schema {

  datatype Option<+T> = None | Some(value: T)

  type UUID = string

  /** JavaScript truthiness of an optional number: absent, null and 0 are all
      falsy. The source tests `completedAt`, `targetDate` and `unlockedAt` this way. */
  predicate Truthy(o: Option<int>) {
    o.Some? && o.value != 0
  }

  datatype Category = Code | Language | Fitness | Career | Personal | Other

  datatype Vision = Vision(id: UUID, title: string, description: Option<string>, horizonYears: int, createdAt: int)

  datatype Priority = Priority(id: UUID, visionId: UUID, title: string, weight: real, createdAt: int)

  datatype Task = Task(
    id: UUID,
    title: string,
    estimateMinutes: int,
    completedAt: Option<int>,
    score: Option<real>,
    createdAt: int)

  datatype Milestone = Milestone(id: UUID, title: string, targetDate: Option<int>, tasks: seq<Task>)

  datatype Project = Project(
    id: UUID,
    priorityId: UUID,
    title: string,
    category: Category,
    description: Option<string>,
    milestones: seq<Milestone>,
    createdAt: int)

  datatype PlanEntry = PlanEntry(taskId: UUID, plannedMinutes: int)

  /** The plan for one calendar day (`YYYY-MM-DD`). */
  datatype DailyPlan = DailyPlan(date: string, tasks: seq<PlanEntry>, createdAt: int)
}
