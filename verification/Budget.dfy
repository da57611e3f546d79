/** Budget counters as a function of the calls made so far. */
module BudgetSteps {
  import opened Options

  type TaskId = string

  datatype LimitName = Runtime | Retries | Children | Tokens | Cost | Cpu | Memory | Workers

  /** An absent limit is never checked. */
  datatype BudgetLimit = BudgetLimit(
    runtime: Option<real>,
    retries: Option<int>,
    children: Option<int>,
    tokens: Option<int>,
    cost: Option<real>,
    cpu: Option<real>,
    memory: Option<real>,
    workers: Option<int>)

  /** The system's load in percent at the moment of a check. */
  datatype Snapshot = Snapshot(cpu: real, memory: real)

  datatype BudgetUsage = BudgetUsage(runtime: real, retries: nat, children: nat, tokens: int, cost: real, workers: nat)

  const UNUSED := BudgetUsage(0.0, 0, 0, 0, 0.0, 0)

  datatype Budgets = Budgets(
    usage: map<TaskId, BudgetUsage>,
    limits: map<TaskId, BudgetLimit>,
    starts: map<TaskId, real>)

  const NOTHING := Budgets(map[], map[], map[])

  datatype Op =
    | SetBudget(task: TaskId, limit: BudgetLimit, now: real)
    | StartTracking(task: TaskId, now: real)
    | Retry(task: TaskId)
    | ChildSpawn(task: TaskId)
    | SpendTokens(task: TaskId, amount: int)
    | SpendCost(task: TaskId, price: real)
    | WorkerStart(task: TaskId)
    | WorkerEnd(task: TaskId)
    | Cleanup(task: TaskId)

  function UsageOf(b: Budgets, task: TaskId): BudgetUsage {
    if task in b.usage then b.usage[task] else UNUSED
  }

  predicate IsRecord(op: Op) {
    !op.SetBudget? && !op.StartTracking? && !op.Cleanup?
  }

  function Recorded(u: BudgetUsage, op: Op): BudgetUsage
    requires IsRecord(op)
  {
    match op
    case Retry(_) => u.(retries := u.retries + 1)
    case ChildSpawn(_) => u.(children := u.children + 1)
    case SpendTokens(_, amount) => u.(tokens := u.tokens + amount)
    case SpendCost(_, price) => u.(cost := u.cost + price)
    case WorkerStart(_) => u.(workers := u.workers + 1)
    case WorkerEnd(_) => u.(workers := if u.workers > 0 then u.workers - 1 else 0)
  }

  function Apply(b: Budgets, op: Op): Budgets {
    match op
    case SetBudget(task, limit, now) =>
      Budgets(b.usage[task := UNUSED], b.limits[task := limit], b.starts[task := now])
    case StartTracking(task, now) =>
      Budgets(b.usage[task := UsageOf(b, task)], b.limits, if task in b.starts then b.starts else b.starts[task := now])
    case Cleanup(task) => Budgets(b.usage - {task}, b.limits - {task}, b.starts - {task})
    case _ => b.(usage := b.usage[op.task := Recorded(UsageOf(b, op.task), op)])
  }

  function Run(b: Budgets, ops: seq<Op>): Budgets {
    if ops == [] then b else Apply(Run(b, ops[..|ops| - 1]), ops[|ops| - 1])
  }

  /** What is kept about one task. */
  datatype View = View(usage: Option<BudgetUsage>, limit: Option<BudgetLimit>, start: Option<real>)

  function Lookup<V>(m: map<TaskId, V>, task: TaskId): Option<V> {
    if task in m then Some(m[task]) else None
  }

  function ViewOf(b: Budgets, task: TaskId): View {
    View(Lookup(b.usage, task), Lookup(b.limits, task), Lookup(b.starts, task))
  }

  function CallsFor(ops: seq<Op>, task: TaskId): seq<Op> {
    if ops == [] then []
    else
      var last := ops[|ops| - 1];
      CallsFor(ops[..|ops| - 1], task) + if last.task == task then [last] else []
  }

  /** What is kept about a task depends on the calls for that task alone. */
  lemma {:induction false} TasksAreIndependent(b: Budgets, ops: seq<Op>, task: TaskId)
    ensures ViewOf(Run(b, ops), task) == ViewOf(Run(b, CallsFor(ops, task)), task)
  {
    if ops != [] {
      var front, last := ops[..|ops| - 1], ops[|ops| - 1];
      TasksAreIndependent(b, front, task);
      var mine := CallsFor(front, task);
      if last.task == task {
        assert CallsFor(ops, task)[..|mine|] == mine;
        ApplySeesOneTask(Run(b, front), Run(b, mine), last);
      } else {
        assert CallsFor(ops, task) == mine;
      }
    }
  }

  lemma ApplySeesOneTask(b: Budgets, c: Budgets, op: Op)
    requires ViewOf(b, op.task) == ViewOf(c, op.task)
    ensures ViewOf(Apply(b, op), op.task) == ViewOf(Apply(c, op), op.task)
  {
  }

  /** The records for a task since its budget was last set or cleaned up. */
  function Since(ops: seq<Op>, task: TaskId): seq<Op> {
    if ops == [] then []
    else
      var front, last := Since(ops[..|ops| - 1], task), ops[|ops| - 1];
      if last.task != task || last.StartTracking? then front
      else if IsRecord(last) then front + [last]
      else []
  }

  function Count(ops: seq<Op>, p: Op -> bool): nat {
    if ops == [] then 0
    else Count(ops[..|ops| - 1], p) + if p(ops[|ops| - 1]) then 1 else 0
  }

  function TokensIn(ops: seq<Op>): int {
    if ops == [] then 0
    else TokensIn(ops[..|ops| - 1]) + if ops[|ops| - 1].SpendTokens? then ops[|ops| - 1].amount else 0
  }

  function CostIn(ops: seq<Op>): real {
    if ops == [] then 0.0
    else CostIn(ops[..|ops| - 1]) + if ops[|ops| - 1].SpendCost? then ops[|ops| - 1].price else 0.0
  }

  /** Worker starts less worker ends. */
  function NetWorkers(ops: seq<Op>): int {
    Count(ops, (o: Op) => o.WorkerStart?) - Count(ops, (o: Op) => o.WorkerEnd?)
  }

  /** The number is the greatest net worker count of any suffix, the empty one included. */
  ghost predicate IsPeak(ops: seq<Op>, n: int) {
    && (forall k | 0 <= k <= |ops| :: NetWorkers(ops[k..]) <= n)
    && (exists k | 0 <= k <= |ops| :: NetWorkers(ops[k..]) == n)
  }

  /** The usage the given records add up to. */
  ghost predicate AddsUpTo(ops: seq<Op>, u: BudgetUsage) {
    && u.runtime == 0.0
    && u.retries == Count(ops, (o: Op) => o.Retry?)
    && u.children == Count(ops, (o: Op) => o.ChildSpawn?)
    && u.tokens == TokensIn(ops)
    && u.cost == CostIn(ops)
    && IsPeak(ops, u.workers)
  }

  lemma NetAfter(ops: seq<Op>, op: Op, k: nat)
    requires k <= |ops|
    ensures NetWorkers((ops + [op])[k..])
         == NetWorkers(ops[k..]) + (if op.WorkerStart? then 1 else 0) - if op.WorkerEnd? then 1 else 0
  {
    var suffix := (ops + [op])[k..];
    assert suffix[..|suffix| - 1] == ops[k..];
  }

  lemma PeakAfter(ops: seq<Op>, op: Op, n: nat)
    requires IsPeak(ops, n)
    ensures IsPeak(ops + [op], if op.WorkerStart? then n + 1 else if op.WorkerEnd? && n > 0 then n - 1 else n)
  {
    var all := ops + [op];
    forall k | 0 <= k <= |ops|
      ensures NetWorkers(all[k..])
           == NetWorkers(ops[k..]) + (if op.WorkerStart? then 1 else 0) - if op.WorkerEnd? then 1 else 0
    {
      NetAfter(ops, op, k);
    }
    assert all[|all|..] == [] && NetWorkers(all[|all|..]) == 0;
    var best :| 0 <= best <= |ops| && NetWorkers(ops[best..]) == n;
    assert NetWorkers(all[best..]) == n + (if op.WorkerStart? then 1 else 0) - if op.WorkerEnd? then 1 else 0;
  }

  lemma RecordAddsUp(ops: seq<Op>, u: BudgetUsage, op: Op)
    requires AddsUpTo(ops, u) && IsRecord(op)
    ensures AddsUpTo(ops + [op], Recorded(u, op))
  {
    PeakAfter(ops, op, u.workers);
    assert (ops + [op])[..|ops|] == ops;
  }

  /** After any calls at all, each counter is the number or sum of what was recorded since the
      budget was set, and the worker count is the peak over suffixes. */
  lemma {:induction false} CountersAddUp(ops: seq<Op>, task: TaskId)
    ensures AddsUpTo(Since(ops, task), UsageOf(Run(NOTHING, ops), task))
  {
    assert AddsUpTo([], UNUSED) by {
      var none: seq<Op> := [];
      assert NetWorkers(none[0..]) == 0;
    }
    if ops != [] {
      var front, last := ops[..|ops| - 1], ops[|ops| - 1];
      CountersAddUp(front, task);
      if last.task == task && IsRecord(last) {
        RecordAddsUp(Since(front, task), UsageOf(Run(NOTHING, front), task), last);
      }
    }
  }

  function Bound(limit: BudgetLimit, name: LimitName): Option<real> {
    match name
    case Runtime => limit.runtime
    case Retries => AsReal(limit.retries)
    case Children => AsReal(limit.children)
    case Tokens => AsReal(limit.tokens)
    case Cost => limit.cost
    case Cpu => limit.cpu
    case Memory => limit.memory
    case Workers => AsReal(limit.workers)
  }

  function AsReal(n: Option<int>): Option<real> {
    if n.Some? then Some(n.value as real) else None
  }

  function Used(usage: BudgetUsage, load: Snapshot, name: LimitName): real {
    match name
    case Runtime => usage.runtime
    case Retries => usage.retries as real
    case Children => usage.children as real
    case Tokens => usage.tokens as real
    case Cost => usage.cost
    case Cpu => load.cpu
    case Memory => load.memory
    case Workers => usage.workers as real
  }

  predicate Exceeds(limit: BudgetLimit, usage: BudgetUsage, load: Snapshot, name: LimitName) {
    Bound(limit, name).Some? && Used(usage, load, name) >= Bound(limit, name).value
  }

  /** A limit on what the task itself uses up. */
  predicate IsSpent(name: LimitName) {
    name !in {Cpu, Memory, Workers}
  }

  /** The usage a check looks at: the counters, with the runtime read off the clock. */
  function UsageNow(b: Budgets, task: TaskId, now: real): BudgetUsage {
    if task in b.starts then UsageOf(b, task).(runtime := now - b.starts[task]) else UsageOf(b, task)
  }

  predicate IsViolated(b: Budgets, task: TaskId, name: LimitName, now: real, load: Snapshot) {
    task in b.limits && Exceeds(b.limits[task], UsageNow(b, task, now), load, name)
  }

  datatype Violation = Violation(name: LimitName, limit: real, current: real)

  datatype CheckResult = CheckResult(
    allowed: bool,
    violations: seq<Violation>,
    usage: BudgetUsage,
    remaining: map<LimitName, real>)

  const UNLIMITED := CheckResult(true, [], UNUSED, map[])

  /** The order violations are reported in; the first five also have a remaining amount. */
  const ORDER: seq<LimitName> := [Runtime, Retries, Children, Tokens, Cost, Cpu, Memory, Workers]

  function Report(limit: BudgetLimit, usage: BudgetUsage, load: Snapshot, n: nat): seq<Violation>
    requires n <= |ORDER|
  {
    if n == 0 then [] else Report(limit, usage, load, n - 1) + Reported(limit, usage, load, ORDER[n - 1])
  }

  function Reported(limit: BudgetLimit, usage: BudgetUsage, load: Snapshot, name: LimitName): seq<Violation> {
    if Exceeds(limit, usage, load, name)
    then [Violation(name, Bound(limit, name).value, Used(usage, load, name))]
    else []
  }

  function Remaining(limit: BudgetLimit, usage: BudgetUsage, load: Snapshot, n: nat): map<LimitName, real>
    requires n <= |ORDER|
  {
    if n == 0 then map[] else LeaveOver(Remaining(limit, usage, load, n - 1), limit, usage, load, ORDER[n - 1])
  }

  function LeaveOver(remaining: map<LimitName, real>, limit: BudgetLimit, usage: BudgetUsage, load: Snapshot,
                     name: LimitName)
    : map<LimitName, real>
  {
    if Bound(limit, name).None? then remaining
    else remaining[name := Max(0.0, Bound(limit, name).value - Used(usage, load, name))]
  }

  function Max(a: real, b: real): real {
    if a < b then b else a
  }

  /** What a check answers about a task. */
  function Answer(b: Budgets, task: TaskId, now: real, load: Snapshot): CheckResult {
    if task !in b.limits then UNLIMITED
    else
      var limit, usage := b.limits[task], UsageNow(b, task, now);
      var violations := Report(limit, usage, load, 8);
      CheckResult(violations == [], violations, usage, Remaining(limit, usage, load, 5))
  }

  /** Whether some entry of a report names the limit. */
  predicate Names(violations: seq<Violation>, name: LimitName) {
    exists v | v in violations :: v.name == name
  }

  lemma NamesAfter(violations: seq<Violation>, more: seq<Violation>, name: LimitName)
    ensures Names(violations + more, name) <==> Names(violations, name) || Names(more, name)
  {
    if Names(violations, name) {
      var v :| v in violations && v.name == name;
      assert v in violations + more;
    }
    if Names(more, name) {
      var v :| v in more && v.name == name;
      assert v in violations + more;
    }
  }

  lemma ReportedNames(limit: BudgetLimit, usage: BudgetUsage, load: Snapshot, here: LimitName, name: LimitName)
    ensures Names(Reported(limit, usage, load, here), name) <==> name == here && Exceeds(limit, usage, load, here)
  {
    if Exceeds(limit, usage, load, here) {
      assert Reported(limit, usage, load, here)[0] in Reported(limit, usage, load, here);
    }
  }

  lemma {:induction false} ReportNames(limit: BudgetLimit, usage: BudgetUsage, load: Snapshot, n: nat, name: LimitName)
    requires n <= |ORDER|
    ensures Names(Report(limit, usage, load, n), name) <==> name in ORDER[..n] && Exceeds(limit, usage, load, name)
  {
    if n > 0 {
      ReportNames(limit, usage, load, n - 1, name);
      NamesAfter(Report(limit, usage, load, n - 1), Reported(limit, usage, load, ORDER[n - 1]), name);
      ReportedNames(limit, usage, load, ORDER[n - 1], name);
      assert ORDER[..n] == ORDER[..n - 1] + [ORDER[n - 1]];
    }
  }

  lemma {:induction false} RemainingIs(limit: BudgetLimit, usage: BudgetUsage, load: Snapshot, n: nat, name: LimitName)
    requires n <= |ORDER|
    ensures name in Remaining(limit, usage, load, n) <==> name in ORDER[..n] && Bound(limit, name).Some?
    ensures name in Remaining(limit, usage, load, n) ==>
              Remaining(limit, usage, load, n)[name] == Max(0.0, Bound(limit, name).value - Used(usage, load, name))
  {
    if n > 0 {
      RemainingIs(limit, usage, load, n - 1, name);
      assert ORDER[..n] == ORDER[..n - 1] + [ORDER[n - 1]];
    }
  }

  /** A check reports exactly the violated limits. For the five a task uses up it tells what is
      left, which is nothing exactly when the limit is violated. */
  lemma NothingRemainsIffViolated(b: Budgets, task: TaskId, now: real, load: Snapshot, name: LimitName)
    ensures var r := Answer(b, task, now, load);
            && (Names(r.violations, name) <==> IsViolated(b, task, name, now, load))
            && (name in r.remaining <==> task in b.limits && Bound(b.limits[task], name).Some? && IsSpent(name))
            && (name in r.remaining ==> (r.remaining[name] == 0.0 <==> IsViolated(b, task, name, now, load)))
            && (IsViolated(b, task, name, now, load) ==> !r.allowed)
  {
    if task in b.limits {
      ReportNames(b.limits[task], UsageNow(b, task, now), load, 8, name);
      RemainingIs(b.limits[task], UsageNow(b, task, now), load, 5, name);
      assert ORDER[..8] == ORDER && ORDER[Rank(name)] == name;
      assert name in ORDER[..5] <==> IsSpent(name) by {
        assert IsSpent(name) ==> ORDER[..5][Rank(name)] == name;
      }
    }
  }

  /** A task is allowed to go on exactly when none of its limits is violated. */
  lemma AllowedIffNoneViolated(b: Budgets, task: TaskId, now: real, load: Snapshot)
    ensures Answer(b, task, now, load).allowed <==> forall name: LimitName :: !IsViolated(b, task, name, now, load)
  {
    forall name: LimitName
      ensures Names(Answer(b, task, now, load).violations, name) <==> IsViolated(b, task, name, now, load)
    {
      NothingRemainsIffViolated(b, task, now, load, name);
    }
    var violations := Answer(b, task, now, load).violations;
    if violations != [] {
      assert violations[0] in violations && Names(violations, violations[0].name);
    }
  }

  // ---------------------------------------------------------------------------
  // What a check says about the calls made so far
  // ---------------------------------------------------------------------------

  /** The limits set last, unless they were cleaned up since. */
  function LimitSince(ops: seq<Op>, task: TaskId): Option<BudgetLimit> {
    if ops == [] then None
    else
      var last := ops[|ops| - 1];
      if last.task == task && last.SetBudget? then Some(last.limit)
      else if last.task == task && last.Cleanup? then None
      else LimitSince(ops[..|ops| - 1], task)
  }

  /** When the limits were set last. */
  function SetAt(ops: seq<Op>, task: TaskId): real
    requires LimitSince(ops, task).Some?
  {
    var last := ops[|ops| - 1];
    if last.task == task && last.SetBudget? then last.now else SetAt(ops[..|ops| - 1], task)
  }

  /** The check compares the amount with the limit of that name: it reports the limit, with both
      numbers, exactly when it is set and reached, and says what is left of it. */
  ghost predicate Compares(r: CheckResult, name: LimitName, limit: Option<real>, amount: real) {
    && (Names(r.violations, name) <==> limit.Some? && amount >= limit.value)
    && (forall v | v in r.violations && v.name == name :: limit == Some(v.limit) && v.current == amount)
  }

  ghost predicate Leaves(r: CheckResult, name: LimitName, limit: Option<real>, amount: real) {
    && (name in r.remaining <==> limit.Some?)
    && (limit.Some? ==> r.remaining[name] == if amount < limit.value then limit.value - amount else 0.0)
  }

  /** Violations come in the fixed order, each limit at most once. */
  ghost predicate InOrder(violations: seq<Violation>) {
    forall i, j | 0 <= i < j < |violations| :: Rank(violations[i].name) < Rank(violations[j].name)
  }

  function ToReal(n: Option<int>): Option<real> {
    match n
    case None => None
    case Some(v) => Some(v as real)
  }

  /** What the answer says of the limits on what the task uses up, in terms of the calls `h` since they
      were set. */
  ghost predicate TellsSpent(limit: BudgetLimit, h: seq<Op>, runtime: real, r: CheckResult) {
    var retries, children := Count(h, (o: Op) => o.Retry?) as real, Count(h, (o: Op) => o.ChildSpawn?) as real;
    && Compares(r, Runtime, limit.runtime, runtime) && Leaves(r, Runtime, limit.runtime, runtime)
    && Compares(r, Retries, ToReal(limit.retries), retries) && Leaves(r, Retries, ToReal(limit.retries), retries)
    && Compares(r, Children, ToReal(limit.children), children)
    && Leaves(r, Children, ToReal(limit.children), children)
    && Compares(r, Tokens, ToReal(limit.tokens), TokensIn(h) as real)
    && Leaves(r, Tokens, ToReal(limit.tokens), TokensIn(h) as real)
    && Compares(r, Cost, limit.cost, CostIn(h)) && Leaves(r, Cost, limit.cost, CostIn(h))
  }

  /** And of the other limits. */
  ghost predicate TellsLoad(limit: BudgetLimit, h: seq<Op>, load: Snapshot, r: CheckResult) {
    && Compares(r, Cpu, limit.cpu, load.cpu) && Compares(r, Memory, limit.memory, load.memory)
    && (exists peak: int :: IsPeak(h, peak) && Compares(r, Workers, ToReal(limit.workers), peak as real))
    && Cpu !in r.remaining && Memory !in r.remaining && Workers !in r.remaining
  }

  /** The answer of a check after the given calls, in terms of these calls. */
  ghost predicate Tells(ops: seq<Op>, task: TaskId, now: real, load: Snapshot, r: CheckResult)
    requires LimitSince(ops, task).Some?
  {
    var limit, h, runtime := LimitSince(ops, task).value, Since(ops, task), now - SetAt(ops, task);
    && TellsSpent(limit, h, runtime, r) && TellsLoad(limit, h, load, r)
    && InOrder(r.violations) && (r.allowed <==> r.violations == [])
    && AddsUpTo(h, r.usage.(runtime := 0.0)) && r.usage.runtime == runtime
  }

  lemma {:induction false} LimitsAreLast(ops: seq<Op>, task: TaskId)
    ensures Lookup(Run(NOTHING, ops).limits, task) == LimitSince(ops, task)
    ensures LimitSince(ops, task).Some? ==> Lookup(Run(NOTHING, ops).starts, task) == Some(SetAt(ops, task))
  {
    if ops != [] {
      LimitsAreLast(ops[..|ops| - 1], task);
    }
  }

  lemma {:induction false} ReportCompares(limit: BudgetLimit, usage: BudgetUsage, load: Snapshot, n: nat,
                                          name: LimitName)
    requires n <= |ORDER|
    ensures forall v | v in Report(limit, usage, load, n) && v.name == name ::
              Bound(limit, name) == Some(v.limit) && v.current == Used(usage, load, name)
    ensures forall v | v in Report(limit, usage, load, n) :: Rank(v.name) < n
    ensures InOrder(Report(limit, usage, load, n))
  {
    if n > 0 {
      ReportCompares(limit, usage, load, n - 1, name);
      assert Rank(ORDER[n - 1]) == n - 1;
    }
  }

  /** One limit of an answer. */
  lemma AnswerCompares(b: Budgets, task: TaskId, now: real, load: Snapshot, name: LimitName)
    requires task in b.limits
    ensures var limit, usage, r := b.limits[task], UsageNow(b, task, now), Answer(b, task, now, load);
            && Compares(r, name, Bound(limit, name), Used(usage, load, name))
            && (if IsSpent(name) then Leaves(r, name, Bound(limit, name), Used(usage, load, name))
                else name !in r.remaining)
            && InOrder(r.violations)
  {
    var limit, usage := b.limits[task], UsageNow(b, task, now);
    NothingRemainsIffViolated(b, task, now, load, name);
    ReportCompares(limit, usage, load, 8, name);
    RemainingIs(limit, usage, load, 5, name);
  }

  lemma AnswerTellsSpent(b: Budgets, task: TaskId, now: real, load: Snapshot, h: seq<Op>)
    requires task in b.limits && task in b.starts && AddsUpTo(h, UsageOf(b, task))
    ensures TellsSpent(b.limits[task], h, now - b.starts[task], Answer(b, task, now, load))
  {
    AnswerCompares(b, task, now, load, Runtime);
    AnswerCompares(b, task, now, load, Retries);
    AnswerCompares(b, task, now, load, Children);
    AnswerCompares(b, task, now, load, Tokens);
    AnswerCompares(b, task, now, load, Cost);
  }

  lemma AnswerTellsLoad(b: Budgets, task: TaskId, now: real, load: Snapshot, h: seq<Op>)
    requires task in b.limits && AddsUpTo(h, UsageOf(b, task))
    ensures TellsLoad(b.limits[task], h, load, Answer(b, task, now, load))
    ensures InOrder(Answer(b, task, now, load).violations)
  {
    AnswerCompares(b, task, now, load, Cpu);
    AnswerCompares(b, task, now, load, Memory);
    AnswerCompares(b, task, now, load, Workers);
    assert IsPeak(h, UsageOf(b, task).workers);
  }

  /** Over any calls, a check compares with each limit set last what the calls since then add up to: the
      retries, the children, the tokens, the cost, the peak of the workers, and the time since. */
  lemma CheckTells(ops: seq<Op>, task: TaskId, now: real, load: Snapshot)
    ensures var r := Answer(Run(NOTHING, ops), task, now, load);
            if LimitSince(ops, task).None? then r == CheckResult(true, [], UNUSED, map[])
            else Tells(ops, task, now, load, r)
  {
    var b := Run(NOTHING, ops);
    LimitsAreLast(ops, task);
    if LimitSince(ops, task).Some? {
      CountersAddUp(ops, task);
      AnswerTellsSpent(b, task, now, load, Since(ops, task));
      AnswerTellsLoad(b, task, now, load, Since(ops, task));
      assert Answer(b, task, now, load).usage.(runtime := 0.0) == UsageOf(b, task);
    }
  }

  /** A limit's place in the report. */
  function Rank(name: LimitName): nat {
    match name
    case Runtime => 0
    case Retries => 1
    case Children => 2
    case Tokens => 3
    case Cost => 4
    case Cpu => 5
    case Memory => 6
    case Workers => 7
  }

  /** A call that neither resets the task's budget nor gives anything back. */
  predicate OnlySpends(op: Op, task: TaskId) {
    op.task == task ==>
      && !op.SetBudget? && !op.Cleanup?
      && (op.SpendTokens? ==> op.amount >= 0)
      && (op.SpendCost? ==> op.price >= 0.0)
  }

  lemma StepKeepsUse(b: Budgets, op: Op, task: TaskId, name: LimitName, load: Snapshot)
    requires task in b.limits && task in b.starts && OnlySpends(op, task) && IsSpent(name)
    ensures task in Apply(b, op).limits && Apply(b, op).limits[task] == b.limits[task]
    ensures task in Apply(b, op).starts && Apply(b, op).starts[task] == b.starts[task]
    ensures Used(UsageOf(b, task), load, name) <= Used(UsageOf(Apply(b, op), task), load, name)
  {
  }

  /** A violated limit on what a task uses up stays violated while only records come in, however the
      system's load changes. */
  lemma {:induction false} ViolationsLast(b: Budgets, ops: seq<Op>, task: TaskId, name: LimitName,
                                          now: real, load: Snapshot, later: real, laterLoad: Snapshot)
    requires task in b.starts && IsSpent(name) && now <= later
    requires forall op | op in ops :: OnlySpends(op, task)
    requires IsViolated(b, task, name, now, load)
    ensures IsViolated(Run(b, ops), task, name, later, laterLoad)
    ensures task in Run(b, ops).starts
  {
    if ops != [] {
      var front, last := ops[..|ops| - 1], ops[|ops| - 1];
      assert last in ops;
      ViolationsLast(b, front, task, name, now, load, later, laterLoad);
      StepKeepsUse(Run(b, front), last, task, name, laterLoad);
    }
  }

  /** The worker limit is the exception: one worker ending lifts it. */
  lemma WorkerViolationLifts(task: TaskId, now: real, load: Snapshot)
    ensures var limit := BudgetLimit(None, None, None, None, None, None, None, Some(1));
            var b := Run(NOTHING, [SetBudget(task, limit, now), WorkerStart(task)]);
            && IsViolated(b, task, Workers, now, load)
            && !IsViolated(Apply(b, WorkerEnd(task)), task, Workers, now, load)
  {
    var limit := BudgetLimit(None, None, None, None, None, None, None, Some(1));
    var ops := [SetBudget(task, limit, now), WorkerStart(task)];
    assert ops[..1] == [SetBudget(task, limit, now)] && ops[..1][..0] == [];
  }

  /** A task with limits always has its counters and its start time. */
  ghost predicate LimitsAreTracked(b: Budgets) {
    forall task | task in b.limits :: task in b.usage && task in b.starts
  }

  lemma {:induction false} RunsTrackLimits(b: Budgets, ops: seq<Op>)
    requires LimitsAreTracked(b)
    ensures LimitsAreTracked(Run(b, ops))
  {
    if ops != [] {
      RunsTrackLimits(b, ops[..|ops| - 1]);
    }
  }
}

module BudgetEnforcers {
  import opened Options
  import opened BudgetSteps
  import S = BudgetSteps

  class BudgetEnforcer {
    var usage: map<TaskId, BudgetUsage>
    var limits: map<TaskId, BudgetLimit>
    var starts: map<TaskId, real>

    constructor ()
      ensures State() == NOTHING
    {
      usage, limits, starts := map[], map[], map[];
    }

    function State(): Budgets
      reads this
    {
      Budgets(usage, limits, starts)
    }

    method SetBudget(task: TaskId, limit: BudgetLimit, now: real)
      modifies this
      ensures State() == S.Apply(old(State()), S.SetBudget(task, limit, now))
      ensures limits == old(limits)[task := limit] && starts == old(starts)[task := now]
      ensures usage == old(usage)[task := BudgetUsage(0.0, 0, 0, 0, 0.0, 0)]
    {
      limits := limits[task := limit];
      usage := usage[task := UNUSED];
      starts := starts[task := now];
    }

    method StartTracking(task: TaskId, now: real)
      modifies this
      ensures State() == S.Apply(old(State()), S.StartTracking(task, now))
      ensures limits == old(limits)
      ensures usage == if task in old(usage) then old(usage) else old(usage)[task := UNUSED]
      ensures starts == if task in old(starts) then old(starts) else old(starts)[task := now]
    {
      if task !in starts {
        starts := starts[task := now];
      }
      if task !in usage {
        usage := usage[task := UNUSED];
      }
      assert usage == old(usage)[task := UsageOf(old(State()), task)];
    }

    method Cleanup(task: TaskId)
      modifies this
      ensures State() == S.Apply(old(State()), S.Cleanup(task))
      ensures usage == old(usage) - {task} && limits == old(limits) - {task} && starts == old(starts) - {task}
    {
      usage := usage - {task};
      limits := limits - {task};
      starts := starts - {task};
    }

    method CheckBudget(task: TaskId, now: real, load: Snapshot) returns (r: CheckResult)
      ensures r == Answer(State(), task, now, load)
    {
      if task !in limits {
        return UNLIMITED;
      }
      var limit := limits[task];
      var current := if task in usage then usage[task] else UNUSED;
      if task in starts {
        current := current.(runtime := now - starts[task]);
      }
      var spent := FindSpentViolations(limit, current, load);
      var violations := FindLoadViolations(limit, current, load, spent);
      var remaining := FindRemaining(limit, current, load);
      r := CheckResult(violations == [], violations, current, remaining);
    }

    static method FindSpentViolations(limit: BudgetLimit, current: BudgetUsage, load: Snapshot)
      returns (violations: seq<Violation>)
      ensures violations == Report(limit, current, load, 5)
    {
      violations := [];
      if limit.runtime.Some? && current.runtime >= limit.runtime.value {
        violations := violations + [Violation(Runtime, limit.runtime.value, current.runtime)];
      }
      assert violations == Report(limit, current, load, 1);
      if limit.retries.Some? && current.retries >= limit.retries.value {
        violations := violations + [Violation(Retries, limit.retries.value as real, current.retries as real)];
      }
      assert violations == Report(limit, current, load, 2);
      if limit.children.Some? && current.children >= limit.children.value {
        violations := violations + [Violation(Children, limit.children.value as real, current.children as real)];
      }
      assert violations == Report(limit, current, load, 3);
      if limit.tokens.Some? && current.tokens >= limit.tokens.value {
        violations := violations + [Violation(Tokens, limit.tokens.value as real, current.tokens as real)];
      }
      assert violations == Report(limit, current, load, 4);
      if limit.cost.Some? && current.cost >= limit.cost.value {
        violations := violations + [Violation(Cost, limit.cost.value, current.cost)];
      }
      assert violations == Report(limit, current, load, 5);
    }

    static method FindLoadViolations(limit: BudgetLimit, current: BudgetUsage, load: Snapshot, spent: seq<Violation>)
      returns (violations: seq<Violation>)
      requires spent == Report(limit, current, load, 5)
      ensures violations == Report(limit, current, load, 8)
    {
      violations := spent;
      if limit.cpu.Some? && load.cpu >= limit.cpu.value {
        violations := violations + [Violation(Cpu, limit.cpu.value, load.cpu)];
      }
      assert violations == Report(limit, current, load, 6);
      if limit.memory.Some? && load.memory >= limit.memory.value {
        violations := violations + [Violation(Memory, limit.memory.value, load.memory)];
      }
      assert violations == Report(limit, current, load, 7);
      if limit.workers.Some? && current.workers >= limit.workers.value {
        violations := violations + [Violation(Workers, limit.workers.value as real, current.workers as real)];
      }
      assert violations == Report(limit, current, load, 8);
    }

    static method FindRemaining(limit: BudgetLimit, current: BudgetUsage, load: Snapshot)
      returns (remaining: map<LimitName, real>)
      ensures remaining == Remaining(limit, current, load, 5)
    {
      remaining := map[];
      if limit.runtime.Some? {
        remaining := remaining[Runtime := Max(0.0, limit.runtime.value - current.runtime)];
      }
      assert remaining == Remaining(limit, current, load, 1);
      if limit.retries.Some? {
        remaining := remaining[Retries := Max(0.0, (limit.retries.value - current.retries) as real)];
      }
      assert remaining == Remaining(limit, current, load, 2);
      if limit.children.Some? {
        remaining := remaining[Children := Max(0.0, (limit.children.value - current.children) as real)];
      }
      assert remaining == Remaining(limit, current, load, 3);
      if limit.tokens.Some? {
        remaining := remaining[Tokens := Max(0.0, (limit.tokens.value - current.tokens) as real)];
      }
      assert remaining == Remaining(limit, current, load, 4);
      if limit.cost.Some? {
        remaining := remaining[Cost := Max(0.0, limit.cost.value - current.cost)];
      }
      assert remaining == Remaining(limit, current, load, 5);
    }

    method RecordRetry(task: TaskId, now: real, load: Snapshot) returns (r: CheckResult)
      modifies this
      ensures State() == S.Apply(old(State()), S.Retry(task)) && r == Answer(State(), task, now, load)
    {
      var u := UsageOf(State(), task);
      usage := usage[task := u.(retries := u.retries + 1)];
      r := CheckBudget(task, now, load);
    }

    method RecordChildSpawn(task: TaskId, now: real, load: Snapshot) returns (r: CheckResult)
      modifies this
      ensures State() == S.Apply(old(State()), S.ChildSpawn(task)) && r == Answer(State(), task, now, load)
    {
      var u := UsageOf(State(), task);
      usage := usage[task := u.(children := u.children + 1)];
      r := CheckBudget(task, now, load);
    }

    method RecordTokens(task: TaskId, amount: int, now: real, load: Snapshot) returns (r: CheckResult)
      modifies this
      ensures State() == S.Apply(old(State()), S.SpendTokens(task, amount)) && r == Answer(State(), task, now, load)
    {
      var u := UsageOf(State(), task);
      usage := usage[task := u.(tokens := u.tokens + amount)];
      r := CheckBudget(task, now, load);
    }

    method RecordCost(task: TaskId, price: real, now: real, load: Snapshot) returns (r: CheckResult)
      modifies this
      ensures State() == S.Apply(old(State()), S.SpendCost(task, price)) && r == Answer(State(), task, now, load)
    {
      var u := UsageOf(State(), task);
      usage := usage[task := u.(cost := u.cost + price)];
      r := CheckBudget(task, now, load);
    }

    method RecordWorkerStart(task: TaskId, now: real, load: Snapshot) returns (r: CheckResult)
      modifies this
      ensures State() == S.Apply(old(State()), S.WorkerStart(task)) && r == Answer(State(), task, now, load)
    {
      var u := UsageOf(State(), task);
      usage := usage[task := u.(workers := u.workers + 1)];
      r := CheckBudget(task, now, load);
    }

    method RecordWorkerEnd(task: TaskId, now: real, load: Snapshot) returns (r: CheckResult)
      modifies this
      ensures State() == S.Apply(old(State()), S.WorkerEnd(task)) && r == Answer(State(), task, now, load)
    {
      var u := UsageOf(State(), task);
      usage := usage[task := u.(workers := if u.workers > 0 then u.workers - 1 else 0)];
      r := CheckBudget(task, now, load);
    }
  }
}
