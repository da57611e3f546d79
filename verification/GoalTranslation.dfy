/** Turning a decomposed request's goals into autonomous tasks and dependency rows, in two
    passes, leaving out the goals the chat turn answers itself. */
module GoalTranslation {
  import opened Options
  import opened DependencyOrders

  type GoalId = string

  /** Generated task identifiers, all different. */
  datatype TaskId = TaskId(n: nat)

  datatype Goal = Goal(id: GoalId, capability: string, dependsOn: seq<GoalId>)

  datatype TaskStatus = Created | WaitingForDependency

  datatype Task = Task(name: GoalId, capability: string, status: TaskStatus)

  datatype Translation = Translation(
    tasks: map<TaskId, Task>,
    taskOf: map<GoalId, TaskId>,
    dependencies: set<(TaskId, TaskId)>)

  const CHAT_CAPABILITY := "chat.respond"

  predicate IsChat(g: Goal) {
    g.capability == CHAT_CAPABILITY
  }

  ghost predicate UniqueIds(goals: seq<Goal>) {
    forall i, j | 0 <= i < j < |goals| :: goals[i].id != goals[j].id
  }

  ghost function GoalIds(goals: seq<Goal>): set<GoalId> {
    set g | g in goals :: g.id
  }

  ghost function TaskGoals(goals: seq<Goal>): set<GoalId> {
    set g | g in goals && !IsChat(g) :: g.id
  }

  /** `(a, b)` for every goal `a` that lists a goal `b` of the same request. */
  ghost function GoalEdges(goals: seq<Goal>): Edges<GoalId> {
    set g, b | g in goals && b in g.dependsOn && b in GoalIds(goals) :: (g.id, b)
  }

  /** The tasks of the listed goals that have one, in the listed order. */
  function TasksOf(ids: seq<GoalId>, taskOf: map<GoalId, TaskId>): seq<TaskId> {
    if ids == [] then []
    else TasksOf(ids[..|ids| - 1], taskOf) + if ids[|ids| - 1] in taskOf then [taskOf[ids[|ids| - 1]]] else []
  }

  /** A goal listing the same non-chat goal twice asks for one dependency row twice. */
  ghost predicate RepeatsTask(goals: seq<Goal>, g: Goal) {
    ListsTwice(g.dependsOn, TaskGoals(goals))
  }

  /** The i-th goal asks for a dependency row that it or an earlier goal of the same id asked for already. */
  ghost predicate Clashes(goals: seq<Goal>, i: nat)
    requires i < |goals|
  {
    && !IsChat(goals[i])
    && (|| RepeatsTask(goals, goals[i])
        || exists j, b | 0 <= j < i && b in goals[i].dependsOn :: SharesRow(goals, j, i, b))
  }

  ghost predicate SharesRow(goals: seq<Goal>, j: nat, i: nat, b: GoalId)
    requires j < |goals| && i < |goals|
  {
    !IsChat(goals[j]) && goals[j].id == goals[i].id && b in goals[j].dependsOn && b in TaskGoals(goals)
  }

  /** The goals with a task and the tasks, matched one to one through the task's name. */
  ghost predicate IsBijection(tasks: map<TaskId, Task>, taskOf: map<GoalId, TaskId>) {
    && (forall id | id in taskOf :: taskOf[id] in tasks && tasks[taskOf[id]].name == id)
    && (forall t | t in tasks :: tasks[t].name in taskOf && taskOf[tasks[t].name] == t)
  }

  ghost function Rows(done: seq<Goal>, taskOf: map<GoalId, TaskId>): set<(TaskId, TaskId)> {
    set g, b | g in done && !IsChat(g) && g.id in taskOf && b in g.dependsOn && b in taskOf :: (taskOf[g.id], taskOf[b])
  }

  ghost predicate StatusesMatch(tasks: map<TaskId, Task>, rows: set<(TaskId, TaskId)>) {
    forall t | t in tasks :: tasks[t].status == WaitingForDependency <==> exists d :: (t, d) in rows
  }

  /** What the two passes promise for goals with unique ids: a task for each non-chat goal, and
      a dependency row exactly where one such goal lists another. */
  ghost predicate IsTranslation(goals: seq<Goal>, t: Translation) {
    && t.taskOf.Keys == TaskGoals(goals)
    && IsBijection(t.tasks, t.taskOf)
    && (forall g | g in goals && !IsChat(g) :: t.tasks[t.taskOf[g.id]].capability == g.capability)
    && StatusesMatch(t.tasks, t.dependencies)
    && (forall x, y | x in t.tasks && y in t.tasks ::
          (x, y) in t.dependencies <==> (t.tasks[x].name, t.tasks[y].name) in GoalEdges(goals))
    && (forall e | e in t.dependencies :: e.0 in t.tasks && e.1 in t.tasks)
  }

  // ---------------------------------------------------------------------------
  // The two passes
  // ---------------------------------------------------------------------------

  /** How many tasks the first pass makes. */
  function CountTasks(goals: seq<Goal>): nat {
    if goals == [] then 0
    else CountTasks(goals[..|goals| - 1]) + if IsChat(goals[|goals| - 1]) then 0 else 1
  }

  /** No two goals that get a task have the same id. */
  ghost predicate TaskIdsDiffer(goals: seq<Goal>) {
    forall i, j | 0 <= i < j < |goals| && !IsChat(goals[i]) && !IsChat(goals[j]) :: goals[i].id != goals[j].id
  }

  /** One task for each non-chat goal, and a map from their ids to tasks of that name. */
  ghost predicate Named(done: seq<Goal>, tasks: map<TaskId, Task>, taskOf: map<GoalId, TaskId>) {
    && |tasks| == CountTasks(done)
    && taskOf.Keys == TaskGoals(done)
    && AllPoint(tasks, taskOf)
  }

  /** The id's task exists and carries its name. */
  ghost predicate Points(tasks: map<TaskId, Task>, taskOf: map<GoalId, TaskId>, id: GoalId) {
    id in taskOf && taskOf[id] in tasks && tasks[taskOf[id]].name == id
  }

  ghost predicate AllPoint(tasks: map<TaskId, Task>, taskOf: map<GoalId, TaskId>) {
    forall id {:trigger Points(tasks, taskOf, id)} | id in taskOf :: Points(tasks, taskOf, id)
  }

  /** The map misses no task. */
  ghost predicate IsOnto(tasks: map<TaskId, Task>, taskOf: map<GoalId, TaskId>) {
    forall t | t in tasks :: tasks[t].name in taskOf && taskOf[tasks[t].name] == t
  }

  /** What the first pass over `done` has built, whatever the ids: it misses a task exactly when an id
      came twice. */
  ghost predicate Mapped(done: seq<Goal>, tasks: map<TaskId, Task>, taskOf: map<GoalId, TaskId>) {
    Named(done, tasks, taskOf) && (IsOnto(tasks, taskOf) <==> TaskIdsDiffer(done))
  }

  lemma TaskGoalsStep(done: seq<Goal>, g: Goal)
    ensures CountTasks(done + [g]) == CountTasks(done) + if IsChat(g) then 0 else 1
    ensures TaskGoals(done + [g]) == TaskGoals(done) + if IsChat(g) then {} else {g.id}
  {
    assert (done + [g])[..|done|] == done;
  }

  lemma TaskIdsStep(done: seq<Goal>, g: Goal)
    ensures TaskIdsDiffer(done + [g]) <==> TaskIdsDiffer(done) && (IsChat(g) || g.id !in TaskGoals(done))
  {
    var more := done + [g];
    if !IsChat(g) && g.id in TaskGoals(done) {
      var i :| 0 <= i < |done| && !IsChat(done[i]) && done[i].id == g.id;
      assert more[i].id == more[|done|].id;
    }
    if TaskIdsDiffer(more) {
      forall i, j | 0 <= i < j < |done| && !IsChat(done[i]) && !IsChat(done[j]) ensures done[i].id != done[j].id {
        assert more[i] == done[i] && more[j] == done[j];
      }
    }
  }

  lemma NamedStep(done: seq<Goal>, g: Goal, tasks: map<TaskId, Task>, taskOf: map<GoalId, TaskId>, next: TaskId)
    requires Named(done, tasks, taskOf) && next !in tasks && !IsChat(g)
    ensures Named(done + [g], tasks[next := Task(g.id, g.capability, Created)], taskOf[g.id := next])
  {
    TaskGoalsStep(done, g);
    var after, ids := tasks[next := Task(g.id, g.capability, Created)], taskOf[g.id := next];
    assert |after| == |tasks| + 1 by { assert after.Keys == tasks.Keys + {next}; }
    PointsStep(g, tasks, taskOf, next);
  }

  lemma PointsStep(g: Goal, tasks: map<TaskId, Task>, taskOf: map<GoalId, TaskId>, next: TaskId)
    requires AllPoint(tasks, taskOf) && next !in tasks
    ensures AllPoint(tasks[next := Task(g.id, g.capability, Created)], taskOf[g.id := next])
  {
    var after, ids := tasks[next := Task(g.id, g.capability, Created)], taskOf[g.id := next];
    forall id | id in ids ensures Points(after, ids, id) {
      if id != g.id { assert Points(tasks, taskOf, id); }
    }
  }

  lemma OntoStep(g: Goal, tasks: map<TaskId, Task>, taskOf: map<GoalId, TaskId>, next: TaskId)
    requires next !in tasks && AllPoint(tasks, taskOf)
    ensures IsOnto(tasks[next := Task(g.id, g.capability, Created)], taskOf[g.id := next])
       <==> IsOnto(tasks, taskOf) && g.id !in taskOf
  {
    var after, ids := tasks[next := Task(g.id, g.capability, Created)], taskOf[g.id := next];
    if g.id in taskOf {
      assert Points(tasks, taskOf, g.id);
      assert after[taskOf[g.id]].name == g.id;
    } else if IsOnto(after, ids) {
      forall t | t in tasks ensures tasks[t].name in taskOf && taskOf[tasks[t].name] == t {
        assert after[t] == tasks[t] && ids[after[t].name] == t;
      }
    }
  }

  lemma MappedStep(done: seq<Goal>, g: Goal, tasks: map<TaskId, Task>, taskOf: map<GoalId, TaskId>, next: TaskId)
    requires Mapped(done, tasks, taskOf) && next !in tasks
    ensures IsChat(g) ==> Mapped(done + [g], tasks, taskOf)
    ensures !IsChat(g) ==> Mapped(done + [g], tasks[next := Task(g.id, g.capability, Created)], taskOf[g.id := next])
  {
    TaskGoalsStep(done, g);
    TaskIdsStep(done, g);
    if !IsChat(g) {
      NamedStep(done, g, tasks, taskOf, next);
      OntoStep(g, tasks, taskOf, next);
    }
  }

  /** What the first pass over `done` has built when all ids differ. */
  ghost predicate FirstPass(done: seq<Goal>, tasks: map<TaskId, Task>, taskOf: map<GoalId, TaskId>) {
    && taskOf.Keys == TaskGoals(done)
    && IsBijection(tasks, taskOf)
    && (forall g | g in done && !IsChat(g) :: tasks[taskOf[g.id]].capability == g.capability)
  }

  lemma FirstPassStep(done: seq<Goal>, g: Goal, tasks: map<TaskId, Task>, taskOf: map<GoalId, TaskId>, next: TaskId)
    requires FirstPass(done, tasks, taskOf) && next !in tasks && g.id !in GoalIds(done)
    ensures IsChat(g) ==> FirstPass(done + [g], tasks, taskOf)
    ensures !IsChat(g) ==>
              FirstPass(done + [g], tasks[next := Task(g.id, g.capability, Created)], taskOf[g.id := next])
  {
    assert TaskGoals(done + [g]) == TaskGoals(done) + if IsChat(g) then {} else {g.id};
    assert forall x | x in done :: x.id in GoalIds(done);
    if !IsChat(g) {
      var after, ids := tasks[next := Task(g.id, g.capability, Created)], taskOf[g.id := next];
      assert g.id !in taskOf;
      forall id | id in ids ensures ids[id] in after && after[ids[id]].name == id {
        if id != g.id { assert taskOf[id] in tasks; }
      }
    }
  }

  ghost predicate IsInjective(taskOf: map<GoalId, TaskId>) {
    forall a, b | a in taskOf && b in taskOf && a != b :: taskOf[a] != taskOf[b]
  }

  lemma {:induction false} TasksOfMembers(ids: seq<GoalId>, taskOf: map<GoalId, TaskId>, t: TaskId)
    ensures t in TasksOf(ids, taskOf) <==> exists b :: b in ids && b in taskOf && taskOf[b] == t
  {
    if ids != [] {
      var init, last := ids[..|ids| - 1], ids[|ids| - 1];
      assert ids == init + [last];
      TasksOfMembers(init, taskOf, t);
    }
  }

  ghost predicate ListsTwice(ids: seq<GoalId>, tasks: set<GoalId>) {
    exists i, j | 0 <= i < j < |ids| :: ids[i] == ids[j] && ids[i] in tasks
  }

  lemma {:induction false} TasksRepeatIff(ids: seq<GoalId>, taskOf: map<GoalId, TaskId>)
    requires IsInjective(taskOf)
    ensures NoRepeats(TasksOf(ids, taskOf)) <==> !ListsTwice(ids, taskOf.Keys)
  {
    if ids != [] {
      var init, last := ids[..|ids| - 1], ids[|ids| - 1];
      TasksRepeatIff(init, taskOf);
      var before := TasksOf(init, taskOf);
      if last in taskOf {
        TasksOfMembers(init, taskOf, taskOf[last]);
        assert TasksOf(ids, taskOf) == before + [taskOf[last]];
        if last in init {
          var i :| 0 <= i < |init| && init[i] == last;
          assert ids[i] == ids[|ids| - 1] && ids[i] in taskOf;
          var k :| 0 <= k < |before| && before[k] == taskOf[last];
          assert TasksOf(ids, taskOf)[k] == TasksOf(ids, taskOf)[|before|];
        } else {
          assert taskOf[last] !in before;
          NoRepeatsSnoc(before, taskOf[last]);
          ListsTwiceSnoc(init, last, taskOf.Keys);
          assert ids == init + [last];
        }
      } else {
        assert TasksOf(ids, taskOf) == before;
        ListsTwiceSnoc(init, last, taskOf.Keys);
        assert ids == init + [last];
      }
    }
  }

  lemma NoRepeatsSnoc(o: seq<TaskId>, t: TaskId)
    requires t !in o
    ensures NoRepeats(o + [t]) <==> NoRepeats(o)
  {
    if NoRepeats(o + [t]) {
      forall i, j | 0 <= i < j < |o| ensures o[i] != o[j] {
        assert (o + [t])[i] != (o + [t])[j];
      }
    }
  }

  lemma ListsTwiceSnoc(ids: seq<GoalId>, last: GoalId, tasks: set<GoalId>)
    requires last !in ids || last !in tasks
    ensures ListsTwice(ids + [last], tasks) <==> ListsTwice(ids, tasks)
  {
    if ListsTwice(ids, tasks) {
      var i, j :| 0 <= i < j < |ids| && ids[i] == ids[j] && ids[i] in tasks;
      assert (ids + [last])[i] == (ids + [last])[j];
    }
  }

  lemma RowsStep(goals: seq<Goal>, i: nat, taskOf: map<GoalId, TaskId>)
    requires i < |goals|
    ensures var g := goals[i];
            Rows(goals[..i + 1], taskOf) == Rows(goals[..i], taskOf)
              + if IsChat(g) || g.id !in taskOf then {}
                else set n | n in TasksOf(g.dependsOn, taskOf) :: (taskOf[g.id], n)
  {
    var g := goals[i];
    assert goals[..i + 1] == goals[..i] + [g];
    forall n
      ensures n in TasksOf(g.dependsOn, taskOf) <==> exists b :: b in g.dependsOn && b in taskOf && taskOf[b] == n
    {
      TasksOfMembers(g.dependsOn, taskOf, n);
    }
  }

  /** First pass: a task for every non-chat goal, without dependencies. */
  method CreateTasks(goals: seq<Goal>) returns (tasks: map<TaskId, Task>, taskOf: map<GoalId, TaskId>)
    ensures Mapped(goals, tasks, taskOf)
    ensures IsBijection(tasks, taskOf) <==> TaskIdsDiffer(goals)
    ensures forall t | t in tasks :: tasks[t].status == Created
    ensures UniqueIds(goals) ==> FirstPass(goals, tasks, taskOf)
  {
    tasks, taskOf := map[], map[];
    var next := 0;
    for i := 0 to |goals|
      invariant Making(goals, i, tasks, taskOf, next)
    {
      MakingStep(goals, i, tasks, taskOf, next);
      if !IsChat(goals[i]) {
        tasks := tasks[TaskId(next) := Task(goals[i].id, goals[i].capability, Created)];
        taskOf := taskOf[goals[i].id := TaskId(next)];
        next := next + 1;
      }
    }
    Made(goals, tasks, taskOf, next);
  }

  /** The state of the first pass after `i` goals. */
  ghost predicate Making(goals: seq<Goal>, i: nat, tasks: map<TaskId, Task>, taskOf: map<GoalId, TaskId>, next: nat)
    requires i <= |goals|
  {
    && AllNew(tasks, next)
    && Mapped(goals[..i], tasks, taskOf)
    && (UniqueIds(goals) ==> FirstPass(goals[..i], tasks, taskOf))
  }

  ghost predicate AllNew(tasks: map<TaskId, Task>, next: nat) {
    forall t | t in tasks :: t.n < next && tasks[t].status == Created
  }

  lemma MakingStep(goals: seq<Goal>, i: nat, tasks: map<TaskId, Task>, taskOf: map<GoalId, TaskId>, next: nat)
    requires i < |goals| && Making(goals, i, tasks, taskOf, next)
    ensures var g := goals[i];
            if IsChat(g) then Making(goals, i + 1, tasks, taskOf, next)
            else Making(goals, i + 1, tasks[TaskId(next) := Task(g.id, g.capability, Created)],
                        taskOf[g.id := TaskId(next)], next + 1)
  {
    FirstPassesStep(goals, i, tasks, taskOf, TaskId(next));
  }

  lemma Made(goals: seq<Goal>, tasks: map<TaskId, Task>, taskOf: map<GoalId, TaskId>, next: nat)
    requires Making(goals, |goals|, tasks, taskOf, next)
    ensures Mapped(goals, tasks, taskOf) && (UniqueIds(goals) ==> FirstPass(goals, tasks, taskOf))
    ensures IsBijection(tasks, taskOf) <==> TaskIdsDiffer(goals)
  {
    assert goals[..|goals|] == goals;
    MappedBijection(goals, tasks, taskOf);
  }

  lemma MappedBijection(goals: seq<Goal>, tasks: map<TaskId, Task>, taskOf: map<GoalId, TaskId>)
    requires Mapped(goals, tasks, taskOf)
    ensures IsBijection(tasks, taskOf) <==> TaskIdsDiffer(goals)
    ensures IsInjective(taskOf) && forall id | id in taskOf :: taskOf[id] in tasks
  {
    forall id | id in taskOf ensures taskOf[id] in tasks && tasks[taskOf[id]].name == id {
      assert Points(tasks, taskOf, id);
    }
  }

  lemma FirstPassesStep(goals: seq<Goal>, i: nat, tasks: map<TaskId, Task>, taskOf: map<GoalId, TaskId>, next: TaskId)
    requires i < |goals| && next !in tasks && Mapped(goals[..i], tasks, taskOf)
    requires UniqueIds(goals) ==> FirstPass(goals[..i], tasks, taskOf)
    ensures var g := goals[i];
            var after := if IsChat(g) then tasks else tasks[next := Task(g.id, g.capability, Created)];
            var ids := if IsChat(g) then taskOf else taskOf[g.id := next];
            Mapped(goals[..i + 1], after, ids) && (UniqueIds(goals) ==> FirstPass(goals[..i + 1], after, ids))
  {
    assert goals[..i + 1] == goals[..i] + [goals[i]];
    MappedStep(goals[..i], goals[i], tasks, taskOf, next);
    if UniqueIds(goals) { FirstPassStep(goals[..i], goals[i], tasks, taskOf, next); }
  }

  /** The dependency rows of one task; inserting a row that exists already fails. */
  method InsertRows(task: TaskId, needed: seq<TaskId>, before: set<(TaskId, TaskId)>)
    returns (ok: bool, rows: set<(TaskId, TaskId)>)
    ensures ok <==> NoRepeats(needed) && forall n | n in needed :: (task, n) !in before
    ensures ok ==> rows == before + set n | n in needed :: (task, n)
  {
    rows := before;
    for k := 0 to |needed|
      invariant rows == before + set n | n in needed[..k] :: (task, n)
      invariant NoRepeats(needed[..k]) && forall n | n in needed[..k] :: (task, n) !in before
    {
      assert needed[..k + 1] == needed[..k] + [needed[k]];
      if (task, needed[k]) in rows {
        if needed[k] in needed[..k] {
          var j :| 0 <= j < k && needed[j] == needed[k];
        }
        return false, rows;
      }
      assert needed[k] !in needed[..k];
      NoRepeatsSnoc(needed[..k], needed[k]);
      rows := rows + {(task, needed[k])};
    }
    assert needed[..|needed|] == needed;
    ok := true;
  }

  /** What the second pass over `done` has built. */
  ghost predicate SecondPass(done: seq<Goal>, created: map<TaskId, Task>, tasks: map<TaskId, Task>,
                             taskOf: map<GoalId, TaskId>, rows: set<(TaskId, TaskId)>) {
    && tasks.Keys == created.Keys
    && (forall t | t in tasks :: tasks[t] == created[t].(status := tasks[t].status))
    && StatusesMatch(tasks, rows)
    && rows == Rows(done, taskOf)
  }

  lemma SecondPassStep(goals: seq<Goal>, i: nat, created: map<TaskId, Task>, tasks: map<TaskId, Task>,
                       taskOf: map<GoalId, TaskId>, rows: set<(TaskId, TaskId)>)
    requires i < |goals| && SecondPass(goals[..i], created, tasks, taskOf, rows)
    requires !IsChat(goals[i]) ==> goals[i].id in taskOf && taskOf[goals[i].id] in tasks
    ensures IsChat(goals[i]) || TasksOf(goals[i].dependsOn, taskOf) == [] ==>
              SecondPass(goals[..i + 1], created, tasks, taskOf, rows)
    ensures !IsChat(goals[i]) && TasksOf(goals[i].dependsOn, taskOf) != [] ==>
              var task, needed := taskOf[goals[i].id], TasksOf(goals[i].dependsOn, taskOf);
              SecondPass(goals[..i + 1], created, tasks[task := tasks[task].(status := WaitingForDependency)], taskOf,
                         rows + set n | n in needed :: (task, n))
  {
    RowsStep(goals, i, taskOf);
    if !IsChat(goals[i]) && TasksOf(goals[i].dependsOn, taskOf) != [] {
      var task, needed := taskOf[goals[i].id], TasksOf(goals[i].dependsOn, taskOf);
      RowsMatch(tasks, task, rows, rows + set n | n in needed :: (task, n), needed);
    }
  }

  lemma RowsMatch(tasks: map<TaskId, Task>, task: TaskId, before: set<(TaskId, TaskId)>,
                  rows: set<(TaskId, TaskId)>, needed: seq<TaskId>)
    requires task in tasks && needed != [] && StatusesMatch(tasks, before)
    requires rows == before + set n | n in needed :: (task, n)
    ensures StatusesMatch(tasks[task := tasks[task].(status := WaitingForDependency)], rows)
  {
    assert needed[0] in needed && (task, needed[0]) in rows;
    forall t | t in tasks && t != task ensures (exists d :: (t, d) in before) <==> exists d :: (t, d) in rows {
      if d :| (t, d) in rows { assert (t, d) in before; }
      if d :| (t, d) in before { assert (t, d) in rows; }
    }
  }

  /** Second pass: the dependency rows, and a waiting status for every task that got one. */
  method AddDependencies(goals: seq<Goal>, created: map<TaskId, Task>, taskOf: map<GoalId, TaskId>)
    returns (ok: bool, tasks: map<TaskId, Task>, rows: set<(TaskId, TaskId)>)
    requires IsInjective(taskOf) && taskOf.Keys == TaskGoals(goals)
    requires forall id | id in taskOf :: taskOf[id] in created
    requires forall t | t in created :: created[t].status == Created
    ensures ok ==> SecondPass(goals, created, tasks, taskOf, rows)
    ensures ok <==> forall i | 0 <= i < |goals| :: !Clashes(goals, i)
  {
    tasks, rows := created, {};
    for i := 0 to |goals|
      invariant SecondPass(goals[..i], created, tasks, taskOf, rows)
      invariant forall k | 0 <= k < i :: !Clashes(goals, k)
    {
      assert !IsChat(goals[i]) ==> goals[i].id in TaskGoals(goals);
      SecondPassStep(goals, i, created, tasks, taskOf, rows);
      if !IsChat(goals[i]) {
        var task := taskOf[goals[i].id];
        var needed := TasksOf(goals[i].dependsOn, taskOf);
        RefusedIff(goals, i, taskOf);
        if needed != [] {
          tasks := tasks[task := tasks[task].(status := WaitingForDependency)];
          ok, rows := InsertRows(task, needed, rows);
          if !ok {
            return;
          }
        }
      }
    }
    assert goals[..|goals|] == goals;
    ok := true;
  }

  /** The rows of the i-th goal can be inserted exactly when it does not clash. */
  lemma RefusedIff(goals: seq<Goal>, i: nat, taskOf: map<GoalId, TaskId>)
    requires i < |goals| && !IsChat(goals[i]) && IsInjective(taskOf) && taskOf.Keys == TaskGoals(goals)
    requires goals[i].id in taskOf
    ensures var task, needed := taskOf[goals[i].id], TasksOf(goals[i].dependsOn, taskOf);
            (NoRepeats(needed) && forall n | n in needed :: (task, n) !in Rows(goals[..i], taskOf))
              <==> !Clashes(goals, i)
  {
    var task, needed := taskOf[goals[i].id], TasksOf(goals[i].dependsOn, taskOf);
    TasksRepeatIff(goals[i].dependsOn, taskOf);
    if n :| n in needed && (task, n) in Rows(goals[..i], taskOf) {
      TasksOfMembers(goals[i].dependsOn, taskOf, n);
      RowIsShared(goals, i, taskOf, n);
    }
    forall j, b | 0 <= j < i && b in goals[i].dependsOn && SharesRow(goals, j, i, b)
      ensures taskOf[b] in needed && (task, taskOf[b]) in Rows(goals[..i], taskOf)
    {
      TasksOfMembers(goals[i].dependsOn, taskOf, taskOf[b]);
      assert goals[..i][j] == goals[j] && goals[j] in goals[..i];
    }
  }

  lemma RowIsShared(goals: seq<Goal>, i: nat, taskOf: map<GoalId, TaskId>, n: TaskId)
    requires i < |goals| && IsInjective(taskOf) && taskOf.Keys == TaskGoals(goals) && goals[i].id in taskOf
    requires (taskOf[goals[i].id], n) in Rows(goals[..i], taskOf)
    requires exists b :: b in goals[i].dependsOn && b in taskOf && taskOf[b] == n
    ensures exists j, b | 0 <= j < i && b in goals[i].dependsOn :: SharesRow(goals, j, i, b)
  {
    var b :| b in goals[i].dependsOn && b in taskOf && taskOf[b] == n;
    var g, c :| g in goals[..i] && !IsChat(g) && g.id in taskOf && c in g.dependsOn && c in taskOf
                && (taskOf[g.id], taskOf[c]) == (taskOf[goals[i].id], n);
    var j :| 0 <= j < i && goals[j] == g;
    assert g.id == goals[i].id && c == b;
    assert SharesRow(goals, j, i, b);
  }

  lemma UniqueClashesIff(goals: seq<Goal>)
    requires UniqueIds(goals)
    ensures (forall i | 0 <= i < |goals| :: !Clashes(goals, i))
       <==> forall g | g in goals && !IsChat(g) :: !RepeatsTask(goals, g)
  {
    forall i | 0 <= i < |goals| ensures Clashes(goals, i) <==> !IsChat(goals[i]) && RepeatsTask(goals, goals[i]) {
      forall j, b | 0 <= j < i && b in goals[i].dependsOn ensures !SharesRow(goals, j, i, b) {
      }
    }
    assert forall g | g in goals :: exists i :: 0 <= i < |goals| && goals[i] == g;
  }

  /** What a successful translation promises for any goals, equal ids included: a task for each non-chat
      goal, and a row exactly where some goal of one id lists another id, between the tasks of these ids. */
  ghost predicate IsMapping(goals: seq<Goal>, t: Translation) {
    && Mapped(goals, t.tasks, t.taskOf)
    && t.dependencies == Rows(goals, t.taskOf)
    && StatusesMatch(t.tasks, t.dependencies)
  }

  /** Translates the goals: it fails exactly when some non-chat goal, or several of the same id, list
      another one twice, and it matches goals and tasks one to one exactly when no id comes twice. */
  method SubmitAutonomous(goals: seq<Goal>) returns (r: Result<Translation, string>)
    ensures r.Ok? <==> forall i | 0 <= i < |goals| :: !Clashes(goals, i)
    ensures r.Ok? ==> IsMapping(goals, r.value)
    ensures r.Ok? ==> (IsBijection(r.value.tasks, r.value.taskOf) <==> TaskIdsDiffer(goals))
    ensures UniqueIds(goals) ==> (r.Ok? <==> forall g | g in goals && !IsChat(g) :: !RepeatsTask(goals, g))
    ensures UniqueIds(goals) && r.Ok? ==> IsTranslation(goals, r.value)
  {
    var created, taskOf := CreateTasks(goals);
    MappedBijection(goals, created, taskOf);
    var ok, tasks, rows := AddDependencies(goals, created, taskOf);
    if UniqueIds(goals) { UniqueClashesIff(goals); }
    if !ok {
      return Err("duplicate key value violates unique constraint");
    }
    SameNamesMapped(goals, created, tasks, taskOf);
    r := Ok(Translation(tasks, taskOf, rows));
    if UniqueIds(goals) { RowsAreEdges(goals, created, tasks, taskOf); }
  }

  lemma SameNamesMapped(goals: seq<Goal>, created: map<TaskId, Task>, tasks: map<TaskId, Task>,
                        taskOf: map<GoalId, TaskId>)
    requires Mapped(goals, created, taskOf) && tasks.Keys == created.Keys
    requires forall t | t in tasks :: tasks[t].name == created[t].name
    ensures Mapped(goals, tasks, taskOf)
    ensures IsBijection(tasks, taskOf) <==> IsBijection(created, taskOf)
  {
    assert |tasks| == |tasks.Keys| == |created.Keys|;
    forall id | id in taskOf ensures Points(tasks, taskOf, id) {
      assert Points(created, taskOf, id);
    }
    MappedBijection(goals, created, taskOf);
    assert IsOnto(tasks, taskOf) <==> IsOnto(created, taskOf);
    MappedBijection(goals, tasks, taskOf);
  }

  lemma RowsAreEdges(goals: seq<Goal>, created: map<TaskId, Task>, tasks: map<TaskId, Task>,
                     taskOf: map<GoalId, TaskId>)
    requires UniqueIds(goals) && FirstPass(goals, created, taskOf)
    requires SecondPass(goals, created, tasks, taskOf, Rows(goals, taskOf))
    ensures IsTranslation(goals, Translation(tasks, taskOf, Rows(goals, taskOf)))
  {
    forall x, y | x in tasks && y in tasks
      ensures (x, y) in Rows(goals, taskOf) <==> (tasks[x].name, tasks[y].name) in GoalEdges(goals)
    {
      RowIsEdge(goals, tasks, taskOf, x, y);
    }
  }

  lemma RowIsEdge(goals: seq<Goal>, tasks: map<TaskId, Task>, taskOf: map<GoalId, TaskId>, x: TaskId, y: TaskId)
    requires UniqueIds(goals) && IsBijection(tasks, taskOf) && taskOf.Keys == TaskGoals(goals)
    requires x in tasks && y in tasks
    ensures (x, y) in Rows(goals, taskOf) <==> (tasks[x].name, tasks[y].name) in GoalEdges(goals)
  {
    var a, b := tasks[x].name, tasks[y].name;
    var g :| g in goals && !IsChat(g) && g.id == a;
    if (a, b) in GoalEdges(goals) {
      var h :| h in goals && h.id == a && b in h.dependsOn;
      assert h == g;
      assert (taskOf[g.id], taskOf[b]) in Rows(goals, taskOf);
    }
    if (x, y) in Rows(goals, taskOf) {
      var h, c :| h in goals && !IsChat(h) && h.id in taskOf && c in h.dependsOn && c in taskOf
                  && (taskOf[h.id], taskOf[c]) == (x, y);
      assert h.id == a && c == b;
      var target :| target in goals && !IsChat(target) && target.id == c;
      assert c in GoalIds(goals);
    }
  }

  // ---------------------------------------------------------------------------
  // Orders of goals and orders of tasks
  // ---------------------------------------------------------------------------

  ghost predicate IsGoalOrder(goals: seq<Goal>, o: seq<GoalId>) {
    IsOrder(o, GoalIds(goals), GoalEdges(goals))
  }

  ghost predicate IsTaskOrder(t: Translation, o: seq<TaskId>) {
    IsOrder(o, t.tasks.Keys, t.dependencies)
  }

  /** The goals of a sequence of tasks. */
  function Names(tasks: map<TaskId, Task>, o: seq<TaskId>): seq<GoalId>
    requires forall x | x in o :: x in tasks
  {
    seq(|o|, i requires 0 <= i < |o| => tasks[o[i]].name)
  }

  /** A sequence of tasks is a task order exactly when its goals are an order of the non-chat goals. */
  lemma NamesOrder(goals: seq<Goal>, t: Translation, o: seq<TaskId>)
    requires IsTranslation(goals, t) && forall x | x in o :: x in t.tasks
    ensures IsTaskOrder(t, o)
       <==> IsOrder(Names(t.tasks, o), TaskGoals(goals), Within(GoalEdges(goals), TaskGoals(goals)))
  {
    NamesRepeat(goals, t, o);
    NamesMembers(goals, t, o);
    NamesRespect(goals, t, o);
  }

  lemma NamesRepeat(goals: seq<Goal>, t: Translation, o: seq<TaskId>)
    requires IsTranslation(goals, t) && forall x | x in o :: x in t.tasks
    ensures NoRepeats(o) <==> NoRepeats(Names(t.tasks, o))
  {
    var u := Names(t.tasks, o);
    forall i, j | 0 <= i < j < |o| ensures o[i] == o[j] <==> u[i] == u[j] {
      assert o[i] in t.tasks && o[j] in t.tasks;
    }
  }

  lemma NamesMembers(goals: seq<Goal>, t: Translation, o: seq<TaskId>)
    requires IsTranslation(goals, t) && forall x | x in o :: x in t.tasks
    ensures Members(o) == t.tasks.Keys <==> Members(Names(t.tasks, o)) == TaskGoals(goals)
  {
    var u := Names(t.tasks, o);
    forall x | x in t.tasks ensures x in o <==> t.tasks[x].name in u {
      if x in o {
        var i :| 0 <= i < |o| && o[i] == x;
        assert u[i] == t.tasks[x].name;
      }
    }
    if Members(o) == t.tasks.Keys {
      forall id | id in TaskGoals(goals) ensures id in Members(u) {
        assert t.taskOf[id] in Members(o);
      }
    }
    if Members(u) == TaskGoals(goals) {
      forall x | x in t.tasks ensures x in Members(o) {
        assert t.tasks[x].name in Members(u);
      }
    }
  }

  lemma NamesRespect(goals: seq<Goal>, t: Translation, o: seq<TaskId>)
    requires IsTranslation(goals, t) && forall x | x in o :: x in t.tasks
    ensures Respects(o, t.dependencies) <==> Respects(Names(t.tasks, o), Within(GoalEdges(goals), TaskGoals(goals)))
  {
    var u, edges := Names(t.tasks, o), Within(GoalEdges(goals), TaskGoals(goals));
    if Respects(o, t.dependencies) {
      forall i, j | 0 <= i < |u| && 0 <= j < |u| && (u[i], u[j]) in edges ensures j < i {
        assert o[i] in o && o[j] in o;
        RowNamesEdge(goals, t, o[i], o[j]);
      }
    } else {
      var i, j :| 0 <= i < |o| && 0 <= j < |o| && (o[i], o[j]) in t.dependencies && i <= j;
      assert o[i] in o && o[j] in o;
      RowNamesEdge(goals, t, o[i], o[j]);
      assert (u[i], u[j]) in edges;
    }
  }

  lemma RowNamesEdge(goals: seq<Goal>, t: Translation, x: TaskId, y: TaskId)
    requires IsTranslation(goals, t) && x in t.tasks && y in t.tasks
    ensures (x, y) in t.dependencies
       <==> (t.tasks[x].name, t.tasks[y].name) in Within(GoalEdges(goals), TaskGoals(goals))
  {
    assert t.tasks[x].name in t.taskOf && t.tasks[y].name in t.taskOf;
  }

  lemma {:induction false} TasksOfFilter(goals: seq<Goal>, t: Translation, o: seq<GoalId>)
    requires IsTranslation(goals, t)
    ensures forall x | x in TasksOf(o, t.taskOf) :: x in t.tasks
    ensures Names(t.tasks, TasksOf(o, t.taskOf)) == Filter(o, TaskGoals(goals))
  {
    if o != [] {
      TasksOfFilter(goals, t, o[..|o| - 1]);
    }
  }

  lemma SameNames(goals: seq<Goal>, t: Translation, a: seq<TaskId>, b: seq<TaskId>)
    requires IsTranslation(goals, t) && (forall x | x in a :: x in t.tasks) && (forall x | x in b :: x in t.tasks)
    requires Names(t.tasks, a) == Names(t.tasks, b)
    ensures a == b
  {
    forall i | 0 <= i < |a| ensures a[i] == b[i] {
      assert Names(t.tasks, a)[i] == Names(t.tasks, b)[i];
    }
  }

  /** Every order of the goals, restricted to the non-chat goals, is an order of the tasks. */
  lemma GoalOrderIsTaskOrder(goals: seq<Goal>, t: Translation, o: seq<GoalId>)
    requires IsTranslation(goals, t) && IsGoalOrder(goals, o)
    ensures IsTaskOrder(t, TasksOf(o, t.taskOf))
  {
    TasksOfFilter(goals, t, o);
    FilterAll(o, TaskGoals(goals));
    FilterKeepsOrder(o, TaskGoals(goals), GoalEdges(goals));
    NamesOrder(goals, t, TasksOf(o, t.taskOf));
  }

  /** Conversely, every order of the tasks is what some order of the goals leaves, if and only if
      every need between non-chat goals is also one through non-chat goals alone. */
  lemma TaskOrdersExtendIff(goals: seq<Goal>, t: Translation)
    requires IsTranslation(goals, t) && Acyclic(GoalEdges(goals))
    ensures (forall o | IsTaskOrder(t, o) :: exists g :: IsGoalOrder(goals, g) && TasksOf(g, t.taskOf) == o)
       <==> KeepsNeeds(GoalEdges(goals), TaskGoals(goals))
  {
    var s, kept, edges := GoalIds(goals), TaskGoals(goals), GoalEdges(goals);
    OrdersExtendIff(s, kept, edges);
    if KeepsNeeds(edges, kept) {
      forall o | IsTaskOrder(t, o) ensures exists g :: IsGoalOrder(goals, g) && TasksOf(g, t.taskOf) == o {
        assert forall x | x in o :: x in Members(o);
        NamesOrder(goals, t, o);
        var g :| IsOrder(g, s, edges) && Filter(g, kept) == Names(t.tasks, o);
        TasksOfFilter(goals, t, g);
        SameNames(goals, t, TasksOf(g, t.taskOf), o);
        assert IsGoalOrder(goals, g);
      }
    } else {
      var u :| IsOrder(u, kept, Within(edges, kept)) && !exists g :: IsOrder(g, s, edges) && Filter(g, kept) == u;
      FilterAll(u, kept);
      TasksOfFilter(goals, t, u);
      var o := TasksOf(u, t.taskOf);
      NamesOrder(goals, t, o);
      forall g | IsGoalOrder(goals, g) ensures TasksOf(g, t.taskOf) != o {
        TasksOfFilter(goals, t, g);
      }
    }
  }

  /** In particular when no non-chat goal depends on a chat goal. */
  lemma NoChatDependencyExtends(goals: seq<Goal>, t: Translation, o: seq<TaskId>)
    requires IsTranslation(goals, t) && Acyclic(GoalEdges(goals)) && IsTaskOrder(t, o)
    requires forall a, b | (a, b) in GoalEdges(goals) && a in TaskGoals(goals) :: b in TaskGoals(goals)
    ensures exists g :: IsGoalOrder(goals, g) && TasksOf(g, t.taskOf) == o
  {
    NoDroppedNeeds(GoalEdges(goals), TaskGoals(goals));
    TaskOrdersExtendIff(goals, t);
  }
}
