/**
 * Task-importance scoring and ranking.
 *
 * A task's importance score is the sum of four table-driven parts: a base
 * for its priority, a bonus for how close its due date is, a modifier for
 * its status and a flat boost for a few alarm tags.  Tasks are ranked by a
 * sort that returns a new list, highest score first, and the top-N selector
 * is a prefix of that ranking.
 *
 * Dates are whole day numbers and the current day is a parameter, so that
 * "due now" is "due today" exactly as the test fixtures expect.
 *
 * The scoring code itself is not part of this model; the values below are the
 * ones the Jest suites assert.  Where those suites are silent the model picks a
 * value, and says so at the definition: due in 2 to 6 days, beyond 7 days or
 * more than one day overdue; the IN_PROGRESS and other statuses; several
 * alarm tags on one task.
 */
module TaskPriority {
  import opened Common
  import opened Sorting

  datatype Priority = Low | Medium | High | Urgent | Unrecognized(name: string)

  datatype Status = Todo | InProgress | Review | Done | OtherStatus(name: string)

  /** A task record as the ranking engine reads it; `dueDate` and `updatedAt` are day numbers. */
  datatype Task = Task(
    name: string,
    priority: Priority,
    dueDate: Option<int>,
    status: Status,
    tags: seq<string>,
    updatedAt: int)

  /** The number of tasks returned when no limit is given. */
  const DefaultLimit: nat := 5

  function PriorityBase(p: Priority): (base: int)
    ensures 0 <= base <= 40
    ensures base == 0 <==> p.Unrecognized?
  {
    match p
    case Low => 10
    case Medium => 20
    case High => 30
    case Urgent => 40
    case Unrecognized(_) => 0
  }

  /**
   * Bonus by tier of `dueDate - today`; the first tier that applies wins.
   * The tests fix -1 (30), 0 (20), +1 (15) and +7 (10) days; the model extends
   * each tier to its neighbours (any overdue day 30, 2 to 6 days 10, later 0).
   */
  function DueDateBonus(dueDate: Option<int>, today: int): (bonus: int)
    ensures bonus in {0, 10, 15, 20, 30}
  {
    match dueDate
    case None => 0
    case Some(due) =>
      var daysUntilDue := due - today;
      if daysUntilDue < 0 then 30
      else if daysUntilDue == 0 then 20
      else if daysUntilDue <= 1 then 15
      else if daysUntilDue <= 7 then 10
      else 0
  }

  /** TODO 0, DONE -50 and REVIEW -15 are tested; IN_PROGRESS and other statuses get 0 by the model's choice. */
  function StatusModifier(s: Status): (modifier: int)
    ensures modifier in {0, -15, -50}
  {
    match s
    case Done => -50
    case Review => -15
    case _ => 0
  }

  predicate HasBoostTag(tags: seq<string>) {
    "blocker" in tags || "critical" in tags || "urgent" in tags
  }

  /** The tags that earn the flat boost (exact, case-sensitive match). */
  const BoostTags: seq<string> := ["blocker", "critical", "urgent"]

  /** One alarm tag adds 8, as tested; that several add the same flat 8 is the model's choice. */
  function TagBoost(tags: seq<string>): (boost: int)
    ensures boost == 0 || boost == 8
  {
    if HasBoostTag(tags) then 8 else 0
  }

  /** The importance score of `t` on day `today`. */
  function Score(t: Task, today: int): (score: int)
    ensures -50 <= score <= 78
  {
    PriorityBase(t.priority) + DueDateBonus(t.dueDate, today) + StatusModifier(t.status) + TagBoost(t.tags)
  }

  // ---------------------------------------------------------------------------
  // Properties of the score

  /**
   * With no due date, no tags and an active status, the score is the priority
   * base alone.  The TODO case is the one the tests fix; IN_PROGRESS follows
   * from the model's modifier 0 for it.
   */
  lemma PlainTaskScoresItsPriority(t: Task, today: int)
    requires t.dueDate.None? && t.tags == [] && (t.status.Todo? || t.status.InProgress?)
    ensures Score(t, today) == PriorityBase(t.priority)
    ensures t.priority == Low ==> Score(t, today) == 10
    ensures t.priority == Medium ==> Score(t, today) == 20
    ensures t.priority == High ==> Score(t, today) == 30
    ensures t.priority == Urgent ==> Score(t, today) == 40
    ensures t.priority.Unrecognized? ==> Score(t, today) == 0
  {
    assert !HasBoostTag([]);
  }

  /**
   * Due-date tiers on a MEDIUM, TODO task without tags: today 40, tomorrow 35,
   * next week 30 and yesterday 50 are tested; 20 at eight days out follows from
   * the model's choice of no bonus beyond a week.
   */
  lemma DueDateTiers(t: Task, today: int)
    requires t.priority == Medium && t.status == Todo && t.tags == []
    ensures Score(t.(dueDate := Some(today)), today) == 40
    ensures Score(t.(dueDate := Some(today + 1)), today) == 35
    ensures Score(t.(dueDate := Some(today + 7)), today) == 30
    ensures Score(t.(dueDate := Some(today - 1)), today) == 50
    ensures Score(t.(dueDate := Some(today + 8)), today) == 20
  {
    assert !HasBoostTag([]);
  }

  /**
   * Among tasks that are not overdue, a later due date never earns a larger
   * bonus; overdue earns the most.  The tests fix four points of this order
   * (overdue > today > tomorrow > next week); between them it is a property of
   * the tiers the model chose.  The last clause is immediate: no due date earns
   * 0 and no tier is negative.
   */
  lemma DueDateBonusDecreasesWithDistance(today: int, d1: int, d2: int)
    ensures today <= d1 <= d2 ==> DueDateBonus(Some(d1), today) >= DueDateBonus(Some(d2), today)
    ensures d1 < today ==> DueDateBonus(Some(d1), today) >= DueDateBonus(Some(d2), today)
    ensures DueDateBonus(Some(d1), today) >= DueDateBonus(None, today)
  {
  }

  /** Status modifiers on a MEDIUM task with no due date and no tags: TODO 20, DONE -30, REVIEW 5. */
  lemma StatusModifiers(t: Task, today: int)
    requires t.priority == Medium && t.dueDate.None? && t.tags == []
    ensures Score(t.(status := Todo), today) == 20
    ensures Score(t.(status := Done), today) == -30
    ensures Score(t.(status := Review), today) == 5
  {
    assert !HasBoostTag([]);
  }

  /** Any one of "blocker", "critical", "urgent" adds exactly 8; another tag such as "work" adds nothing. */
  lemma SingleTagBoost(t: Task, today: int, tag: string)
    ensures Score(t.(tags := [tag]), today) == Score(t.(tags := []), today) + (if tag in BoostTags then 8 else 0)
  {
    assert !HasBoostTag([]);
    if tag in BoostTags {
      assert HasBoostTag([tag]);
    }
  }

  /** The boost is flat: several alarm tags add the same 8 as one of them (the model's choice; no test has two). */
  lemma BoostDoesNotStack(t: Task, today: int)
    ensures Score(t.(tags := ["blocker", "critical", "urgent"]), today) == Score(t.(tags := ["blocker"]), today)
  {
    assert HasBoostTag(["blocker"]);
    assert HasBoostTag(["blocker", "critical", "urgent"]) by {
      assert "blocker" in ["blocker", "critical", "urgent"];
    }
  }

  // ---------------------------------------------------------------------------
  // Ranking

  /** The score as a sort key for day `today`. */
  function ScoreOn(today: int): Task -> int {
    t => Score(t, today)
  }

  /**
   * A new list holding the tasks of `tasks`, highest score first; tasks with
   * equal scores keep their relative order (see SortIsStableByScore).
   */
  function SortByImportance(tasks: seq<Task>, today: int): (r: seq<Task>)
    ensures |r| == |tasks|
    ensures multiset(r) == multiset(tasks)
    ensures forall i, j :: 0 <= i < j < |r| ==> Score(r[i], today) >= Score(r[j], today)
  {
    SortByKey(tasks, ScoreOn(today))
  }

  /** The first `limit` tasks of the ranking (all of them when `limit` is at least their number). */
  function TopPriority(tasks: seq<Task>, today: int, limit: nat := DefaultLimit): (r: seq<Task>)
    ensures |r| == Min(limit, |tasks|)
    ensures r == SortByImportance(tasks, today)[..|r|]
  {
    var sorted := SortByImportance(tasks, today);
    sorted[..Min(limit, |sorted|)]
  }

  // ---------------------------------------------------------------------------
  // Properties of the ranking

  /** The ranking is stable: the tasks with any one score appear in the same order as in the input. */
  lemma SortIsStableByScore(tasks: seq<Task>, k: int, today: int)
    ensures WithKey(SortByImportance(tasks, today), k, ScoreOn(today)) == WithKey(tasks, k, ScoreOn(today))
  {
    SortByKeyIsStable(tasks, k, ScoreOn(today));
  }

  /**
   * A task's rank is fixed by the scores alone: position `j` of the ranking
   * holds a task scoring above `k` exactly when `j` is smaller than the number
   * of input tasks scoring above `k`.
   */
  lemma RankIsCountOfHigherScores(tasks: seq<Task>, k: int, today: int)
    ensures var r := SortByImportance(tasks, today);
            forall j :: 0 <= j < |r| ==> (Score(r[j], today) > k <==> j < CountAbove(tasks, k, ScoreOn(today)))
  {
    SortByKeyPosition(tasks, k, ScoreOn(today));
  }

  /** No task left out of the top-N outscores a task in it, and the top-N is a sub-multiset of the input. */
  lemma TopPriorityIsTop(tasks: seq<Task>, today: int, limit: nat)
    ensures var r := TopPriority(tasks, today, limit);
            var sorted := SortByImportance(tasks, today);
            && (forall i, j :: 0 <= i < j < |r| ==> Score(r[i], today) >= Score(r[j], today))
            && multiset(r) <= multiset(tasks)
            && forall i, j :: 0 <= i < |r| <= j < |tasks| ==> Score(r[i], today) >= Score(sorted[j], today)
  {
    var r := TopPriority(tasks, today, limit);
    var sorted := SortByImportance(tasks, today);
    assert sorted == r + sorted[|r|..];
    assert multiset(sorted) == multiset(r) + multiset(sorted[|r|..]);
  }

  /** Ranking an empty list gives an empty list, with or without a limit. */
  lemma EmptyInput(today: int, limit: nat)
    ensures SortByImportance([], today) == []
    ensures TopPriority([], today) == []
    ensures TopPriority([], today, limit) == []
  {
  }

  /** A limit at or above the number of tasks returns every task, ranked. */
  lemma LargeLimitReturnsAll(tasks: seq<Task>, today: int, limit: nat)
    requires limit >= |tasks|
    ensures TopPriority(tasks, today, limit) == SortByImportance(tasks, today)
  {
  }

  /** Without a limit, ten tasks give five. */
  lemma DefaultLimitIsFive(tasks: seq<Task>, today: int)
    requires |tasks| == 10
    ensures |TopPriority(tasks, today)| == 5
  {
  }

  // ---------------------------------------------------------------------------
  // The scenarios of the integration suite

  function MakeTask(name: string, priority: Priority, dueDate: Option<int>, status: Status, tags: seq<string>, today: int): Task {
    Task(name, priority, dueDate, status, tags, today)
  }

  /** Ranking [LOW, HIGH] puts the HIGH task first while the input list is left as it was. */
  lemma SortDoesNotMutateInput(today: int)
    ensures var tasks := [MakeTask("Task 1", Low, None, Todo, [], today), MakeTask("Task 2", High, None, Todo, [], today)];
            var sorted := SortByImportance(tasks, today);
            && |tasks| == 2 && tasks[0].name == "Task 1" && sorted[0].name == "Task 2"
  {
    var t1 := MakeTask("Task 1", Low, None, Todo, [], today);
    var t2 := MakeTask("Task 2", High, None, Todo, [], today);
    assert !HasBoostTag([]);
    assert Score(t1, today) == 10 && Score(t2, today) == 30;
    assert [t1, t2][1..] == [t2] && [t2][1..] == [];
    assert CountAbove([t1, t2], 30, ScoreOn(today)) == 0;
    assert CountAbove([t1, t2], 29, ScoreOn(today)) == 1;
    SortByKeyPlace([t1, t2], t2, ScoreOn(today));
  }

  // The five tasks of the top-three scenario, on day `today`.
  function LowTask(today: int): Task { MakeTask("Low Priority Task", Low, Some(today + 7), Todo, [], today) }
  function HighTask(today: int): Task { MakeTask("High Priority Task", High, Some(today + 1), Todo, [], today) }
  function UrgentTask(today: int): Task { MakeTask("Urgent Task", Urgent, Some(today), Todo, [], today) }
  function CompletedTask(today: int): Task { MakeTask("Completed Task", Urgent, Some(today), Done, [], today) }
  function BlockerTask(today: int): Task { MakeTask("Medium Priority Task", Medium, Some(today + 7), Todo, ["blocker"], today) }

  lemma ScenarioScores(today: int)
    ensures Score(LowTask(today), today) == 20
    ensures Score(HighTask(today), today) == 45
    ensures Score(UrgentTask(today), today) == 60
    ensures Score(CompletedTask(today), today) == 10
    ensures Score(BlockerTask(today), today) == 38
  {
    assert !HasBoostTag([]);
    assert HasBoostTag(["blocker"]);
  }

  /** The number of the five elements whose key is above `k`. */
  lemma CountAboveFive<T>(a: T, b: T, c: T, d: T, e: T, k: int, key: T -> int)
    ensures CountAbove([a, b, c, d, e], k, key)
         == (if key(a) > k then 1 else 0) + (if key(b) > k then 1 else 0) + (if key(c) > k then 1 else 0)
          + (if key(d) > k then 1 else 0) + (if key(e) > k then 1 else 0)
  {
    CountAboveCons(e, [], k, key);
    CountAboveCons(d, [e], k, key);
    CountAboveCons(c, [d, e], k, key);
    CountAboveCons(b, [c, d, e], k, key);
    CountAboveCons(a, [b, c, d, e], k, key);
    assert [a] + [b, c, d, e] == [a, b, c, d, e];
    assert [b] + [c, d, e] == [b, c, d, e];
    assert [c] + [d, e] == [c, d, e];
    assert [d] + [e] == [d, e];
    assert [e] + [] == [e];
  }

  /** With keys c > b > e > a > d, each element has as many elements above it as its place in [c, b, e, a, d]. */
  lemma FiveCounts<T>(a: T, b: T, c: T, d: T, e: T, key: T -> int)
    requires key(c) > key(b) > key(e) > key(a) > key(d)
    ensures CountAbove([a, b, c, d, e], key(c), key) == 0 && CountAbove([a, b, c, d, e], key(c) - 1, key) == 1
    ensures CountAbove([a, b, c, d, e], key(b), key) == 1 && CountAbove([a, b, c, d, e], key(b) - 1, key) == 2
    ensures CountAbove([a, b, c, d, e], key(e), key) == 2 && CountAbove([a, b, c, d, e], key(e) - 1, key) == 3
    ensures CountAbove([a, b, c, d, e], key(a), key) == 3 && CountAbove([a, b, c, d, e], key(a) - 1, key) == 4
    ensures CountAbove([a, b, c, d, e], key(d), key) == 4 && CountAbove([a, b, c, d, e], key(d) - 1, key) == 5
  {
    CountAboveFive(a, b, c, d, e, key(c), key);
    CountAboveFive(a, b, c, d, e, key(c) - 1, key);
    CountAboveFive(a, b, c, d, e, key(b), key);
    CountAboveFive(a, b, c, d, e, key(b) - 1, key);
    CountAboveFive(a, b, c, d, e, key(e), key);
    CountAboveFive(a, b, c, d, e, key(e) - 1, key);
    CountAboveFive(a, b, c, d, e, key(a), key);
    CountAboveFive(a, b, c, d, e, key(a) - 1, key);
    CountAboveFive(a, b, c, d, e, key(d), key);
    CountAboveFive(a, b, c, d, e, key(d) - 1, key);
  }

  /** Five elements whose keys are ordered c > b > e > a > d come out as [c, b, e, a, d]. */
  lemma RankFive<T(!new)>(a: T, b: T, c: T, d: T, e: T, key: T -> int)
    requires key(c) > key(b) > key(e) > key(a) > key(d)
    ensures SortByKey([a, b, c, d, e], key) == [c, b, e, a, d]
  {
    FiveCounts(a, b, c, d, e, key);
    SortByKeyPlace([a, b, c, d, e], c, key);
    SortByKeyPlace([a, b, c, d, e], b, key);
    SortByKeyPlace([a, b, c, d, e], e, key);
    SortByKeyPlace([a, b, c, d, e], a, key);
    SortByKeyPlace([a, b, c, d, e], d, key);
  }

  /** The full ranking of the five tasks: 60, 45, 38, 20, 10. */
  lemma ScenarioRanking(today: int)
    ensures SortByImportance([LowTask(today), HighTask(today), UrgentTask(today), CompletedTask(today), BlockerTask(today)], today)
         == [UrgentTask(today), HighTask(today), BlockerTask(today), LowTask(today), CompletedTask(today)]
  {
    ScenarioScores(today);
    RankFive(LowTask(today), HighTask(today), UrgentTask(today), CompletedTask(today), BlockerTask(today), ScoreOn(today));
  }

  /**
   * Five tasks (LOW due next week, HIGH due tomorrow, URGENT due today,
   * URGENT due today but DONE, MEDIUM due next week tagged "blocker"):
   * the top three are URGENT/today (60), HIGH/tomorrow (45) and the blocker (38).
   */
  lemma TopThreeScenario(today: int)
    ensures var top := TopPriority([LowTask(today), HighTask(today), UrgentTask(today), CompletedTask(today), BlockerTask(today)], today, 3);
            && top == [UrgentTask(today), HighTask(today), BlockerTask(today)]
            && top[0].name == "Urgent Task"
  {
    var tasks := [LowTask(today), HighTask(today), UrgentTask(today), CompletedTask(today), BlockerTask(today)];
    ScenarioRanking(today);
    FirstThreeOfFive(SortByImportance(tasks, today), UrgentTask(today), HighTask(today), BlockerTask(today), LowTask(today), CompletedTask(today));
  }

  lemma FirstThreeOfFive<T>(s: seq<T>, a: T, b: T, c: T, d: T, e: T)
    requires s == [a, b, c, d, e]
    ensures s[..3] == [a, b, c]
  {
  }

  /** With keys a > c > b, each element has as many elements above it as its place in [a, c, b]. */
  lemma ThreeCounts<T>(a: T, b: T, c: T, key: T -> int)
    requires key(a) > key(c) > key(b)
    ensures CountAbove([a, b, c], key(a), key) == 0 && CountAbove([a, b, c], key(a) - 1, key) == 1
    ensures CountAbove([a, b, c], key(c), key) == 1 && CountAbove([a, b, c], key(c) - 1, key) == 2
    ensures CountAbove([a, b, c], key(b), key) == 2 && CountAbove([a, b, c], key(b) - 1, key) == 3
  {
    forall k ensures CountAbove([a, b, c], k, key)
                  == (if key(a) > k then 1 else 0) + (if key(b) > k then 1 else 0) + (if key(c) > k then 1 else 0)
    {
      CountAboveCons(c, [], k, key);
      CountAboveCons(b, [c], k, key);
      CountAboveCons(a, [b, c], k, key);
      assert [a] + [b, c] == [a, b, c] && [b] + [c] == [b, c] && [c] + [] == [c];
    }
  }

  /** Three elements whose keys are ordered a > c > b come out as [a, c, b]. */
  lemma RankThree<T(!new)>(a: T, b: T, c: T, key: T -> int)
    requires key(a) > key(c) > key(b)
    ensures SortByKey([a, b, c], key) == [a, c, b]
  {
    ThreeCounts(a, b, c, key);
    SortByKeyPlace([a, b, c], a, key);
    SortByKeyPlace([a, b, c], c, key);
    SortByKeyPlace([a, b, c], b, key);
  }

  function CriticalOverdue(today: int): Task { MakeTask("Critical Overdue", High, Some(today - 1), Todo, ["blocker"], today) }
  function CompletedLow(today: int): Task { MakeTask("Completed Low", Low, None, Done, [], today) }
  function MediumDueToday(today: int): Task { MakeTask("Medium Due Today", Medium, Some(today), Todo, ["critical"], today) }

  /** HIGH + overdue + "blocker" scores 68, MEDIUM + due today + "critical" 48, LOW + DONE -40. */
  lemma MixedScores(today: int)
    ensures Score(CriticalOverdue(today), today) == 68
    ensures Score(MediumDueToday(today), today) == 48
    ensures Score(CompletedLow(today), today) == -40
  {
    assert !HasBoostTag([]);
    assert HasBoostTag(["blocker"]);
    assert HasBoostTag(["critical"]);
  }

  /** The three mixed-factor tasks rank 68, 48, -40 whatever their input order. */
  lemma MixedFactorOrdering(today: int)
    ensures SortByImportance([CriticalOverdue(today), CompletedLow(today), MediumDueToday(today)], today)
         == [CriticalOverdue(today), MediumDueToday(today), CompletedLow(today)]
  {
    MixedScores(today);
    RankThree(CriticalOverdue(today), CompletedLow(today), MediumDueToday(today), ScoreOn(today));
  }
}
