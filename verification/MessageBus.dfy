/** The message bus as steps over the repository: sending, delivering, handler failures,
    processing, retries and clean-up, each taken one at a time. */
module BusSteps {
  import opened Options
  import opened Messages
  import opened MessageStore

  /** `invoked` counts handler calls per message; `sent` remembers each message's retry limit
      even after its row is gone. Neither exists in the program: they are what is claimed about it. */
  datatype Bus = Bus(
    repo: Repo,
    handlers: map<AgentId, set<MessageType>>,
    invoked: map<Id, nat>,
    sent: map<Id, int>)

  function Count(b: Bus, id: Id): nat {
    if id in b.invoked then b.invoked[id] else 0
  }

  function Max0(n: int): nat {
    if n < 0 then 0 else n
  }

  /** Identifiers are random, so a message whose identifier was used before is never sent. */
  function Send(b: Bus, m: Message, evicted: set<Id>): Bus {
    if m.id in b.sent then b
    else b.(repo := Create(b.repo, m, evicted), sent := b.sent[m.id := m.maxRetries])
  }

  predicate Accepts(b: Bus, m: Message) {
    && m.recipient.Some? && m.recipient.value != ""
    && m.recipient.value in b.handlers && m.kind in b.handlers[m.recipient.value]
  }

  function Mark(b: Bus, id: Id, status: MessageStatus, error: Option<string>, now: int): Bus {
    b.(repo := UpdateStatus(b.repo, id, status, error, now))
  }

  function Call(b: Bus, id: Id): Bus {
    b.(invoked := b.invoked[id := Count(b, id) + 1])
  }

  predicate CanDeliver(b: Bus, id: Id) {
    id in b.repo.table && Get(b.repo, id).Some? && Get(b.repo, id).value.status == Sent
  }

  /** `deliver` up to and including the call of the handler. */
  function Deliver(b: Bus, id: Id, now: int): Bus {
    if !CanDeliver(b, id) then b
    else
      var delivered := Mark(b, id, Delivered, None, now);
      if Accepts(b, b.repo.table[id]) then Call(Mark(delivered, id, Processing, None, now), id) else delivered
  }

  /** The handler raised: a step of its own, since the handler may itself have used the bus. It is only
      taken for a message whose handler has been called. */
  function HandlerRaised(b: Bus, id: Id, error: string, now: int): Bus {
    Mark(b, id, Failed, Some(error), now)
  }

  function Process(b: Bus, id: Id, now: int): Bus {
    var found := Get(b.repo, id);
    if found.None? || found.value.status !in {Delivered, Processing} then b
    else Mark(b, id, Processed, None, now)
  }

  function Expire(b: Bus, id: Id, now: int): Bus {
    Mark(b, id, Expired, Some("Message expired"), now)
  }

  /** One message of `retry_failed`'s answer. */
  function Retry(b: Bus, id: Id): Bus {
    if id in b.repo.table && b.repo.table[id].status == Failed && b.repo.table[id].CanRetry()
    then b.(repo := IncrementRetry(b.repo, id))
    else b
  }

  datatype Step =
    | SendStep(message: Message, evicted: set<Id>)
    | DeliverStep(id: Id, now: int)
    | HandlerRaisedStep(id: Id, error: string, now: int)
    | ProcessStep(id: Id, now: int)
    | ExpireStep(id: Id, now: int)
    | RetryStep(id: Id)
    | DeleteExpiredStep(before: int)
    | RegisterStep(agent: AgentId, kinds: set<MessageType>)
    | UnregisterStep(agent: AgentId)

  /** Only new messages are sent. */
  predicate Allowed(s: Step) {
    s.SendStep? ==> var m := s.message;
      m.status == Sent && m.retryCount == 0 && m.deliveredAt.None? && m.processedAt.None? && m.error.None?
  }

  function Apply(b: Bus, s: Step): Bus {
    match s
    case SendStep(m, evicted) => Send(b, m, evicted)
    case DeliverStep(id, now) => Deliver(b, id, now)
    case HandlerRaisedStep(id, error, now) => if Count(b, id) > 0 then HandlerRaised(b, id, error, now) else b
    case ProcessStep(id, now) => Process(b, id, now)
    case ExpireStep(id, now) => Expire(b, id, now)
    case RetryStep(id) => Retry(b, id)
    case DeleteExpiredStep(before) => b.(repo := DeleteExpired(b.repo, before))
    case RegisterStep(agent, kinds) => b.(handlers := b.handlers[agent := kinds])
    case UnregisterStep(agent) => b.(handlers := b.handlers - {agent})
  }

  const EMPTY_BUS := Bus(Repo(map[], map[]), map[], map[], map[])

  function Run(b: Bus, steps: seq<Step>): Bus {
    if steps == [] then b else Apply(Run(b, steps[..|steps| - 1]), steps[|steps| - 1])
  }

  // ---------------------------------------------------------------------------
  // Bounded retry
  // ---------------------------------------------------------------------------

  /** A row that is SENT has used up no more calls than retries; any other row at most one more. */
  predicate WithinBudget(m: Message, calls: nat, excess: nat) {
    && m.retryCount <= Max0(m.maxRetries) + excess
    && calls <= m.retryCount + if m.status == Sent then 0 else 1
  }

  /** Every message is within its retry limit, give or take `excess` retries. */
  ghost predicate Bounded(b: Bus, excess: nat) {
    && (forall id | id in b.repo.cache :: id in b.sent)
    && (forall id | id in b.repo.table :: id in b.sent && b.sent[id] == b.repo.table[id].maxRetries)
    && (forall id | id in b.invoked :: id in b.sent)
    // A cached SENT copy is never ahead of its row: the row is SENT too, or it is gone.
    && (forall id | id in b.repo.cache && id in b.repo.table ::
          b.repo.cache[id].status == Sent ==> b.repo.table[id].status == Sent)
    && (forall id | id in b.repo.table :: WithinBudget(b.repo.table[id], Count(b, id), excess))
    && (forall id | id in b.sent :: Count(b, id) <= Max0(b.sent[id]) + excess + 1)
  }

  lemma MarkKeepsBounded(b: Bus, id: Id, status: MessageStatus, error: Option<string>, now: int, excess: nat)
    requires Bounded(b, excess) && status != Sent
    ensures Bounded(Mark(b, id, status, error, now), excess)
  {
  }

  lemma CallKeepsBounded(b: Bus, id: Id, excess: nat)
    requires Bounded(b, excess) && id in b.repo.table && b.repo.table[id].status != Sent
    requires Count(b, id) <= b.repo.table[id].retryCount
    ensures Bounded(Call(b, id), excess)
  {
    assert forall x | x != id :: Count(Call(b, id), x) == Count(b, x);
  }

  /** The check of the update's result and the cached status together mean the row itself was SENT. */
  lemma DeliverableIsSent(b: Bus, id: Id, excess: nat)
    requires Bounded(b, excess) && CanDeliver(b, id)
    ensures b.repo.table[id].status == Sent && Count(b, id) <= b.repo.table[id].retryCount
  {
    assert WithinBudget(b.repo.table[id], Count(b, id), excess);
  }

  /** A handler is called exactly when the message is deliverable and somebody takes it, and then
      the row itself was SENT, whatever the cached copy said. */
  lemma OnlySentRowsAreHandled(b: Bus, id: Id, now: int, excess: nat)
    requires Bounded(b, excess)
    ensures Count(Deliver(b, id, now), id) > Count(b, id) <==> CanDeliver(b, id) && Accepts(b, b.repo.table[id])
    ensures Count(Deliver(b, id, now), id) > Count(b, id) ==> b.repo.table[id].status == Sent
  {
    if CanDeliver(b, id) {
      DeliverableIsSent(b, id, excess);
    }
  }

  lemma DeliverKeepsBounded(b: Bus, id: Id, now: int, excess: nat)
    requires Bounded(b, excess)
    ensures Bounded(Deliver(b, id, now), excess)
  {
    if CanDeliver(b, id) {
      DeliverableIsSent(b, id, excess);
      var marked := Mark(b, id, Delivered, None, now);
      MarkKeepsBounded(b, id, Delivered, None, now, excess);
      MarkKeepsBounded(marked, id, Processing, None, now, excess);
      CallKeepsBounded(Mark(marked, id, Processing, None, now), id, excess);
    }
  }

  lemma StepKeepsBounded(b: Bus, s: Step, excess: nat)
    requires Bounded(b, excess) && Allowed(s)
    ensures Bounded(Apply(b, s), excess)
  {
    match s
    case DeliverStep(id, now) => DeliverKeepsBounded(b, id, now, excess);
    case HandlerRaisedStep(id, error, now) => MarkKeepsBounded(b, id, Failed, Some(error), now, excess);
    case ProcessStep(id, now) => MarkKeepsBounded(b, id, Processed, None, now, excess);
    case ExpireStep(id, now) => MarkKeepsBounded(b, id, Expired, Some("Message expired"), now, excess);
    case SendStep(m, evicted) => SendKeepsBounded(b, m, evicted, excess);
    case RetryStep(id) => RetryKeepsBounded(b, id, excess);
    case _ =>
  }

  lemma RetryKeepsBounded(b: Bus, id: Id, excess: nat)
    requires Bounded(b, excess)
    ensures Bounded(Retry(b, id), excess)
  {
    if id in b.repo.table {
      assert WithinBudget(b.repo.table[id], Count(b, id), excess);
    }
  }

  lemma SendKeepsBounded(b: Bus, m: Message, evicted: set<Id>, excess: nat)
    requires Bounded(b, excess) && Allowed(SendStep(m, evicted))
    ensures Bounded(Send(b, m, evicted), excess)
  {
    if m.id !in b.sent {
      assert m.id !in b.invoked && m.id !in b.repo.table;
    }
  }

  /** Over any run, a message's handler is called at most once more than the message was
      retried, the retries stay within the limit, and no message, deleted or not, is ever
      handled more than `max(0, max_retries) + 1` times. */
  lemma {:induction false} HandlerCallsAreBounded(steps: seq<Step>)
    requires forall s | s in steps :: Allowed(s)
    ensures Bounded(Run(EMPTY_BUS, steps), 0)
    ensures var b := Run(EMPTY_BUS, steps);
            && (forall id | id in b.repo.table :: Count(b, id) <= b.repo.table[id].retryCount + 1
                                                && b.repo.table[id].retryCount <= Max0(b.repo.table[id].maxRetries))
            && (forall id | id in b.invoked :: id in b.sent && b.invoked[id] <= Max0(b.sent[id]) + 1)
  {
    if steps != [] {
      HandlerCallsAreBounded(steps[..|steps| - 1]);
      StepKeepsBounded(Run(EMPTY_BUS, steps[..|steps| - 1]), steps[|steps| - 1], 0);
    }
    var b := Run(EMPTY_BUS, steps);
    forall id | id in b.invoked ensures b.invoked[id] <= Max0(b.sent[id]) + 1 {
      assert Count(b, id) == b.invoked[id];
    }
  }

  /** The limit itself is kept over every run exactly for messages whose limit is not negative. */
  lemma LimitKeptIffNotNegative(steps: seq<Step>)
    requires forall s | s in steps :: Allowed(s)
    ensures var table := Run(EMPTY_BUS, steps).repo.table;
            forall id | id in table :: table[id].retryCount <= table[id].maxRetries <==> table[id].maxRetries >= 0
  {
    HandlerCallsAreBounded(steps);
  }

  /** Nothing keeps a limit from being negative: one `send` makes such a row. */
  lemma NegativeLimit(id: Id, agent: AgentId, now: int)
    ensures var m := NewMessage(id, agent, None, "request", Normal, now, None, -1);
            var steps := [SendStep(m, {})];
            && Allowed(steps[0]) && id in Run(EMPTY_BUS, steps).repo.table
            && Run(EMPTY_BUS, steps).repo.table[id].retryCount > Run(EMPTY_BUS, steps).repo.table[id].maxRetries
  {
    var steps := [SendStep(NewMessage(id, agent, None, "request", Normal, now, None, -1), {})];
    assert steps[..0] == [];
  }

  // ---------------------------------------------------------------------------
  // What a stale copy does to a retried message
  // ---------------------------------------------------------------------------

  /** With a coherent cache, a retried message can be delivered again exactly when it was not cached. */
  lemma RetriedDeliversIffUncached(b: Bus, id: Id, now: int)
    requires Coherent(b.repo) && id in b.repo.table
    requires b.repo.table[id].status == Failed && b.repo.table[id].CanRetry()
    ensures var retried := Retry(b, id);
            && retried.repo.table[id].status == Sent
            && (Deliver(retried, id, now).repo.table[id].status != Sent <==> id !in b.repo.cache)
            && (id in b.repo.cache ==> Deliver(retried, id, now) == retried)
            && (id in b.sent && id in b.repo.cache ==> IsStuck(retried, id))
  {
  }

  /** The copy is stale in the one way there is: the row went from FAILED back to SENT behind it. */
  predicate IsBehind(copy: Message, row: Message) {
    copy.status == Failed && row == Retried(copy)
  }

  ghost predicate CopiesExplained(b: Bus) {
    forall id | id in b.repo.cache && id in b.repo.table ::
      b.repo.cache[id] == b.repo.table[id] || IsBehind(b.repo.cache[id], b.repo.table[id])
  }

  /** What a row's fields say about its status. */
  predicate FieldsMatch(m: Message) {
    && (m.status == Sent ==> m.deliveredAt.None? && m.processedAt.None?)
    && (m.status in {Delivered, Processing, Processed} ==> m.deliveredAt.Some?)
    && (m.status == Processed ==> m.processedAt.Some?)
    && (m.error.Some? <==> m.status in {Failed, Expired})
  }

  ghost predicate RowsMatch(b: Bus) {
    forall id | id in b.repo.table :: FieldsMatch(b.repo.table[id])
  }

  lemma StepKeepsCopies(b: Bus, s: Step)
    requires CopiesExplained(b) && Allowed(s)
    ensures CopiesExplained(Apply(b, s))
  {
  }

  lemma MarkKeepsRows(b: Bus, id: Id, status: MessageStatus, error: Option<string>, now: int)
    requires RowsMatch(b) && status in {Delivered, Processing, Processed, Failed, Expired}
    requires error.Some? <==> status in {Failed, Expired}
    requires id in b.repo.table && status in {Processing, Processed} ==> b.repo.table[id].deliveredAt.Some?
    ensures RowsMatch(Mark(b, id, status, error, now))
  {
  }

  lemma StepKeepsRows(b: Bus, s: Step)
    requires CopiesExplained(b) && RowsMatch(b) && Allowed(s)
    ensures RowsMatch(Apply(b, s))
  {
    match s
    case DeliverStep(id, now) =>
      if CanDeliver(b, id) {
        MarkKeepsRows(b, id, Delivered, None, now);
        MarkKeepsRows(Mark(b, id, Delivered, None, now), id, Processing, None, now);
      }
    case HandlerRaisedStep(id, error, now) => MarkKeepsRows(b, id, Failed, Some(error), now);
    case ProcessStep(id, now) =>
      if Process(b, id, now) != b {
        MarkKeepsRows(b, id, Processed, None, now);
      }
    case ExpireStep(id, now) => MarkKeepsRows(b, id, Expired, Some("Message expired"), now);
    case _ =>
  }

  /** Over any run, `get` differs from an existing row only for a FAILED copy of a message that was
      retried behind it, and every row's times and error text fit its status. */
  lemma {:induction false} StaleOnlyByRetry(steps: seq<Step>)
    requires forall s | s in steps :: Allowed(s)
    ensures CopiesExplained(Run(EMPTY_BUS, steps)) && RowsMatch(Run(EMPTY_BUS, steps))
    ensures var repo := Run(EMPTY_BUS, steps).repo;
            forall id | id in repo.table ::
              Get(repo, id) != Some(repo.table[id]) <==> id in repo.cache && IsBehind(repo.cache[id], repo.table[id])
  {
    if steps != [] {
      StaleOnlyByRetry(steps[..|steps| - 1]);
      StepKeepsCopies(Run(EMPTY_BUS, steps[..|steps| - 1]), steps[|steps| - 1]);
      StepKeepsRows(Run(EMPTY_BUS, steps[..|steps| - 1]), steps[|steps| - 1]);
    }
  }

  /** The steps that replace or drop the cached copy of `id`. */
  predicate Refreshes(s: Step, id: Id) {
    match s
    case SendStep(m, evicted) => id in evicted
    case HandlerRaisedStep(x, _, _) => x == id
    case ExpireStep(x, _) => x == id
    case _ => false
  }

  /** The cached copy still says FAILED although the row is SENT again or gone. */
  predicate IsStuck(b: Bus, id: Id) {
    && id in b.sent && id in b.repo.cache && b.repo.cache[id].status == Failed
    && (id in b.repo.table ==> b.repo.table[id].status == Sent)
  }

  lemma StepKeepsStuck(b: Bus, id: Id, s: Step)
    requires IsStuck(b, id) && Allowed(s) && !Refreshes(s, id)
    ensures IsStuck(Apply(b, s), id) && Count(Apply(b, s), id) == Count(b, id)
    ensures id in Apply(b, s).repo.table ==> id in b.repo.table && Apply(b, s).repo.table[id] == b.repo.table[id]
  {
  }

  /** Until an update or an eviction refreshes the copy, no number of deliveries, processings,
      retries or delivery cycles ever hands the message to its handler or takes it out of SENT. */
  lemma {:induction false} RetriedStaysStuck(b: Bus, id: Id, steps: seq<Step>)
    requires IsStuck(b, id)
    requires forall s | s in steps :: Allowed(s) && !Refreshes(s, id)
    ensures var after := Run(b, steps);
            && IsStuck(after, id)
            && Count(after, id) == Count(b, id)
            && (id in after.repo.table ==> id in b.repo.table && after.repo.table[id] == b.repo.table[id])
  {
    if steps != [] {
      RetriedStaysStuck(b, id, steps[..|steps| - 1]);
      StepKeepsStuck(Run(b, steps[..|steps| - 1]), id, steps[|steps| - 1]);
    }
  }

  // ---------------------------------------------------------------------------
  // Delivery cycles
  // ---------------------------------------------------------------------------

  /** `deliver` with a handler that does not use the bus; `raises` says which handlers fail. */
  function DeliverAndSettle(b: Bus, id: Id, now: int, raises: map<Id, string>): Bus {
    var delivered := Deliver(b, id, now);
    if Count(delivered, id) > Count(b, id) && id in raises
    then HandlerRaised(delivered, id, raises[id], now)
    else delivered
  }

  function HandlePending(b: Bus, id: Id, now: int, raises: map<Id, string>): Bus {
    if id in b.repo.table && b.repo.table[id].IsExpired(now) then Expire(b, id, now)
    else DeliverAndSettle(b, id, now, raises)
  }

  /** One agent's share of a delivery cycle: the pending messages in order, the i-th at time `clock(i)`. */
  function HandleAll(b: Bus, ids: seq<Id>, clock: nat -> int, raises: map<Id, string>): Bus {
    if ids == [] then b
    else HandlePending(HandleAll(b, ids[..|ids| - 1], clock, raises), ids[|ids| - 1], clock(|ids| - 1), raises)
  }

  const CYCLE_LIMIT := 50

  ghost predicate SameExcept(a: Bus, b: Bus, ids: set<Id>) {
    && b.repo.table.Keys == a.repo.table.Keys
    && (forall x | x in a.repo.table && x !in ids :: b.repo.table[x] == a.repo.table[x] && Count(b, x) == Count(a, x))
    && (forall x | x !in ids :: Lookup(b.repo.cache, x) == Lookup(a.repo.cache, x))
  }

  lemma MarkEffect(b: Bus, id: Id, status: MessageStatus, error: Option<string>, now: int)
    requires Coherent(b.repo) && id in b.repo.table
    ensures var after := Mark(b, id, status, error, now);
            Coherent(after.repo) && SameExcept(b, after, {id}) && after.repo.table[id].status == status
  {
  }

  lemma SameExceptJoins(a: Bus, b: Bus, c: Bus, ids: set<Id>, more: set<Id>)
    requires SameExcept(a, b, ids) && SameExcept(b, c, more)
    ensures SameExcept(a, c, ids + more)
  {
  }

  lemma DeliverEffect(b: Bus, id: Id, now: int)
    requires Coherent(b.repo) && id in b.repo.table
    ensures var after := Deliver(b, id, now);
            && Coherent(after.repo) && SameExcept(b, after, {id})
            && after.repo.table[id].status != Sent
            && (b.repo.table[id].status != Sent ==> after == b)
  {
    if CanDeliver(b, id) {
      var marked := Mark(b, id, Delivered, None, now);
      MarkEffect(b, id, Delivered, None, now);
      var processing := Mark(marked, id, Processing, None, now);
      MarkEffect(marked, id, Processing, None, now);
      SameExceptJoins(b, marked, processing, {id}, {id});
      assert SameExcept(processing, Call(processing, id), {id});
      SameExceptJoins(b, processing, Call(processing, id), {id}, {id});
    }
  }

  lemma HandlePendingEffect(b: Bus, id: Id, now: int, raises: map<Id, string>)
    requires Coherent(b.repo) && id in b.repo.table
    ensures var after := HandlePending(b, id, now, raises);
            && Coherent(after.repo) && SameExcept(b, after, {id})
            && after.repo.table[id].status != Sent
            && (b.repo.table[id].IsExpired(now) ==> after.repo.table[id].status == Expired)
            && (b.repo.table[id].status != Sent && !b.repo.table[id].IsExpired(now) ==> after == b)
  {
    if b.repo.table[id].IsExpired(now) {
      MarkEffect(b, id, Expired, Some("Message expired"), now);
    } else {
      DeliverEffect(b, id, now);
      if id in raises {
        MarkEffect(Deliver(b, id, now), id, Failed, Some(raises[id]), now);
        SameExceptJoins(b, Deliver(b, id, now), HandlerRaised(Deliver(b, id, now), id, raises[id], now), {id}, {id});
      }
    }
  }

  /** A cycle touches no row outside the query's answer, and every row of the answer leaves SENT. */
  lemma {:induction false} CycleClearsItsRows(b: Bus, ids: seq<Id>, clock: nat -> int, raises: map<Id, string>)
    requires Coherent(b.repo) && forall id | id in ids :: id in b.repo.table
    ensures var after := HandleAll(b, ids, clock, raises);
            && Coherent(after.repo) && SameExcept(b, after, Prefix(ids))
            && forall id | id in ids :: after.repo.table[id].status != Sent
  {
    if ids != [] {
      var init, last := ids[..|ids| - 1], ids[|ids| - 1];
      CycleClearsItsRows(b, init, clock, raises);
      HandlePendingEffect(HandleAll(b, init, clock, raises), last, clock(|ids| - 1), raises);
      assert Prefix(ids) == Prefix(init) + {last};
    }
  }

  lemma {:induction false} LaterRowsLeave(b: Bus, ids: seq<Id>, clock: nat -> int, raises: map<Id, string>,
                                          k: nat, x: Id)
    requires Coherent(b.repo) && (forall id | id in ids :: id in b.repo.table)
    requires k <= |ids| && x in b.repo.table && x !in ids[k..]
    ensures x in HandleAll(b, ids[..k], clock, raises).repo.table && x in HandleAll(b, ids, clock, raises).repo.table
    ensures HandleAll(b, ids, clock, raises).repo.table[x] == HandleAll(b, ids[..k], clock, raises).repo.table[x]
    ensures Count(HandleAll(b, ids, clock, raises), x) == Count(HandleAll(b, ids[..k], clock, raises), x)
  {
    CycleClearsItsRows(b, ids[..k], clock, raises);
    if k == |ids| {
      assert ids[..k] == ids;
    } else {
      var init, last := ids[..|ids| - 1], ids[|ids| - 1];
      assert init[..k] == ids[..k] && last in ids[k..];
      LaterRowsLeave(b, init, clock, raises, k, x);
      CycleClearsItsRows(b, init, clock, raises);
      HandlePendingEffect(HandleAll(b, init, clock, raises), last, clock(|ids| - 1), raises);
    }
  }

  /** Of the answer's rows, a cycle changes exactly those that were SENT or have expired by their turn. */
  lemma CycleChangesIff(b: Bus, ids: seq<Id>, clock: nat -> int, raises: map<Id, string>, i: nat)
    requires Coherent(b.repo) && i < |ids| && (forall j, k | 0 <= j < k < |ids| :: ids[j] != ids[k])
    requires forall id | id in ids :: id in b.repo.table && b.repo.table[id].status in {Sent, Delivered}
    ensures var row, after := b.repo.table[ids[i]], HandleAll(b, ids, clock, raises);
            && ids[i] in after.repo.table
            && (after.repo.table[ids[i]] != row <==> row.status == Sent || row.IsExpired(clock(i)))
  {
    var x, init := ids[i], ids[..i];
    assert x !in Prefix(init) && x !in ids[i + 1..] && ids[..i + 1][..i] == init;
    CycleClearsItsRows(b, init, clock, raises);
    HandlePendingChangesIff(HandleAll(b, init, clock, raises), x, clock(i), raises);
    LaterRowsLeave(b, ids, clock, raises, i + 1, x);
  }

  /** Whether a handler is registered for the message's recipient and takes its type. */
  predicate IsTaken(b: Bus, m: Message) {
    exists agent | agent in b.handlers :: agent != "" && m.recipient == Some(agent) && m.kind in b.handlers[agent]
  }

  /** What its turn in a cycle at time `now` makes of a row that is its own cached copy: it expires, is left
      alone, delivered to nobody, handled, or handled with an error. */
  predicate IsOutcome(was: Message, row: Message, taken: bool, raised: Option<string>, now: int) {
    if was.expiresAt != None && was.expiresAt.value < now then
      row == was.(status := Expired, error := Some("Message expired"))
    else if was.status != Sent then row == was
    else if !taken then row == was.(status := Delivered, deliveredAt := Some(now), error := None)
    else if raised == None then row == was.(status := Processing, deliveredAt := Some(now), error := None)
    else row == was.(status := Failed, deliveredAt := Some(now), error := raised)
  }

  predicate IsCalled(was: Message, taken: bool, now: int) {
    was.status == Sent && taken && (was.expiresAt == None || now <= was.expiresAt.value)
  }

  lemma TakenIff(b: Bus, m: Message)
    ensures Accepts(b, m) <==> IsTaken(b, m)
  {
  }

  lemma DeliverOutcome(b: Bus, id: Id, now: int, raises: map<Id, string>)
    requires Coherent(b.repo) && id in b.repo.table && b.repo.table[id].status == Sent
    ensures var was, after := b.repo.table[id], DeliverAndSettle(b, id, now, raises);
            var raised := if id in raises then Some(raises[id]) else None;
            && id in after.repo.table && after.handlers == b.handlers
            && after.repo.table[id]
                 == (if !Accepts(b, was) then was.(status := Delivered, deliveredAt := Some(now), error := None)
                     else if raised == None then was.(status := Processing, deliveredAt := Some(now), error := None)
                     else was.(status := Failed, deliveredAt := Some(now), error := raised))
            && Count(after, id) == Count(b, id) + if Accepts(b, was) then 1 else 0
  {
  }

  /** The whole of a delivery: what it makes of the row, and whom it calls. */
  lemma DeliverExactly(b: Bus, id: Id, now: int, raises: map<Id, string>)
    requires id in b.repo.table && (if id in b.repo.cache then b.repo.cache[id] else b.repo.table[id]).status == Sent
    ensures var after, was := DeliverAndSettle(b, id, now, raises), b.repo.table[id];
            var sent := was.(status := Delivered, deliveredAt := Some(now), error := None);
            && after.repo.table == b.repo.table[id := if !IsTaken(b, was) then sent
                                                      else if id !in raises then sent.(status := Processing)
                                                      else sent.(status := Failed, error := Some(raises[id]))]
            && after.invoked == if IsTaken(b, was) then b.invoked[id := Count(b, id) + 1] else b.invoked
  {
    var was := b.repo.table[id];
    TakenIff(b, was);
    var delivered := Mark(b, id, Delivered, None, now);
    assert delivered.repo.table == b.repo.table[id := WithStatus(was, Delivered, None, now)];
    if Accepts(b, was) {
      var called := Deliver(b, id, now);
      assert called == Call(Mark(delivered, id, Processing, None, now), id);
      assert called.repo.table[id] == WithStatus(WithStatus(was, Delivered, None, now), Processing, None, now);
      assert Count(called, id) == Count(b, id) + 1;
    }
  }

  lemma HandlePendingOutcome(b: Bus, id: Id, now: int, raises: map<Id, string>)
    requires Coherent(b.repo) && id in b.repo.table
    ensures var was, after := b.repo.table[id], HandlePending(b, id, now, raises);
            var taken, raised := IsTaken(b, was), if id in raises then Some(raises[id]) else None;
            && id in after.repo.table && IsOutcome(was, after.repo.table[id], taken, raised, now)
            && Count(after, id) == Count(b, id) + (if IsCalled(was, taken, now) then 1 else 0)
            && after.handlers == b.handlers
  {
    TakenIff(b, b.repo.table[id]);
    if b.repo.table[id].status == Sent {
      DeliverOutcome(b, id, now, raises);
    }
  }

  lemma {:induction false} CycleKeepsHandlers(b: Bus, ids: seq<Id>, clock: nat -> int, raises: map<Id, string>)
    ensures HandleAll(b, ids, clock, raises).handlers == b.handlers
  {
    if ids != [] {
      CycleKeepsHandlers(b, ids[..|ids| - 1], clock, raises);
    }
  }

  /** A cycle gives every row of the answer the outcome of its own turn, and calls its handler as that
      outcome says, whatever the other rows met with. */
  lemma CycleOutcome(b: Bus, ids: seq<Id>, clock: nat -> int, raises: map<Id, string>, i: nat)
    requires Coherent(b.repo) && i < |ids| && (forall j, k | 0 <= j < k < |ids| :: ids[j] != ids[k])
    requires forall id | id in ids :: id in b.repo.table
    ensures var x, was, after := ids[i], b.repo.table[ids[i]], HandleAll(b, ids, clock, raises);
            var taken, raised := IsTaken(b, was), if x in raises then Some(raises[x]) else None;
            && x in after.repo.table && IsOutcome(was, after.repo.table[x], taken, raised, clock(i))
            && Count(after, x) == Count(b, x) + if IsCalled(was, taken, clock(i)) then 1 else 0
  {
    var x, init := ids[i], ids[..i];
    assert x !in Prefix(init) && x !in ids[i + 1..] && ids[..i + 1][..i] == init;
    CycleClearsItsRows(b, init, clock, raises);
    CycleKeepsHandlers(b, init, clock, raises);
    HandlePendingOutcome(HandleAll(b, init, clock, raises), x, clock(i), raises);
    LaterRowsLeave(b, ids, clock, raises, i + 1, x);
  }

  lemma HandlePendingChangesIff(b: Bus, id: Id, now: int, raises: map<Id, string>)
    requires Coherent(b.repo) && id in b.repo.table && b.repo.table[id].status in {Sent, Delivered}
    ensures var row, after := b.repo.table[id], HandlePending(b, id, now, raises);
            id in after.repo.table && (after.repo.table[id] != row <==> row.status == Sent || row.IsExpired(now))
  {
    HandlePendingEffect(b, id, now, raises);
  }

  /** With a coherent cache, a SENT row with fewer than fifty pending rows ahead of it or level
      with it has left SENT when the cycle ends. */
  lemma CycleDeliversNearRows(b: Bus, agent: AgentId, now: int, ids: seq<Id>, clock: nat -> int,
                              raises: map<Id, string>, x: Id)
    requires Coherent(b.repo) && x in b.repo.table && b.repo.table[x].IsPendingFor(agent, now)
    requires IsFirst(PendingKeys(b.repo.table, agent, now), CYCLE_LIMIT, ids)
    requires |Rivals(PendingKeys(b.repo.table, agent, now), x)| < CYCLE_LIMIT
    ensures var after := HandleAll(b, ids, clock, raises); x in after.repo.table && after.repo.table[x].status != Sent
  {
    FirstHolds(PendingKeys(b.repo.table, agent, now), CYCLE_LIMIT, ids, x);
    CycleClearsItsRows(b, ids, clock, raises);
  }

  /** Fewer than fifty such rows is also what it takes: a SENT row leaves SENT whichever answer the
      query gives if and only if fewer than fifty rows are ahead of it or level with it. */
  lemma CycleSurelyDeliversIff(b: Bus, agent: AgentId, now: int, clock: nat -> int, raises: map<Id, string>, x: Id)
    requires Coherent(b.repo) && x in b.repo.table && b.repo.table[x].status == Sent
    requires b.repo.table[x].IsPendingFor(agent, now)
    ensures (forall ids | IsFirst(PendingKeys(b.repo.table, agent, now), CYCLE_LIMIT, ids) ::
               LeavesSent(HandleAll(b, ids, clock, raises), x))
       <==> |Rivals(PendingKeys(b.repo.table, agent, now), x)| < CYCLE_LIMIT
  {
    var keys := PendingKeys(b.repo.table, agent, now);
    if |Rivals(keys, x)| < CYCLE_LIMIT {
      forall ids | IsFirst(keys, CYCLE_LIMIT, ids) ensures LeavesSent(HandleAll(b, ids, clock, raises), x) {
        CycleDeliversNearRows(b, agent, now, ids, clock, raises, x);
      }
    } else {
      var ids := AnswerWithout(keys, CYCLE_LIMIT, x);
      assert forall id | id in ids :: id in keys;
      CycleClearsItsRows(b, ids, clock, raises);
      assert !LeavesSent(HandleAll(b, ids, clock, raises), x);
    }
  }

  /** The message is not SENT any more, or gone. */
  predicate IsThrough(b: Bus, x: Id) {
    x in b.repo.table ==> b.repo.table[x].status != Sent
  }

  predicate CopyIsCurrent(b: Bus, x: Id) {
    x in b.sent && (x in b.repo.cache && x in b.repo.table ==> b.repo.cache[x] == b.repo.table[x])
  }

  predicate IsTurn(s: Step, x: Id) {
    (s.DeliverStep? || s.ExpireStep?) && s.id == x
  }

  lemma StepThrough(b: Bus, s: Step, x: Id)
    requires CopyIsCurrent(b, x) && Allowed(s) && s != RetryStep(x)
    ensures CopyIsCurrent(Apply(b, s), x)
    ensures IsThrough(b, x) || IsTurn(s, x) ==> IsThrough(Apply(b, s), x)
  {
    match s
    case DeliverStep(id, now) => DeliverThrough(b, id, now, x);
    case _ =>
  }

  lemma DeliverThrough(b: Bus, id: Id, now: int, x: Id)
    requires CopyIsCurrent(b, x)
    ensures CopyIsCurrent(Deliver(b, id, now), x)
    ensures IsThrough(b, x) || id == x ==> IsThrough(Deliver(b, id, now), x)
  {
    if id == x && CanDeliver(b, id) {
      assert Deliver(b, id, now).repo.table[id].status in {Delivered, Processing};
    }
  }

  /** A cycle may be interleaved with anything, what its handlers do with the bus included: a message
      that had its turn is out of SENT or gone afterwards, unless it was itself retried meanwhile. */
  lemma {:induction false} TurnsGetThrough(b: Bus, steps: seq<Step>, x: Id)
    requires CopyIsCurrent(b, x) && forall s | s in steps :: Allowed(s) && s != RetryStep(x)
    ensures CopyIsCurrent(Run(b, steps), x)
    ensures (exists s :: s in steps && IsTurn(s, x)) ==> IsThrough(Run(b, steps), x)
  {
    if steps != [] {
      var init, last := steps[..|steps| - 1], steps[|steps| - 1];
      assert last in steps;
      TurnsGetThrough(b, init, x);
      StepThrough(Run(b, init), last, x);
      if s :| s in steps && IsTurn(s, x) {
        assert s in init || s == last;
      }
    }
  }

  /** So a pending row with fewer than fifty rivals is out of SENT or gone once the query's answer has
      been worked off, whatever happened in between but for a retry of that very message. */
  lemma InterleavedCycleDelivers(b: Bus, agent: AgentId, now: int, ids: seq<Id>, steps: seq<Step>, x: Id)
    requires CopyIsCurrent(b, x) && x in b.repo.table && b.repo.table[x].IsPendingFor(agent, now)
    requires IsFirst(PendingKeys(b.repo.table, agent, now), CYCLE_LIMIT, ids)
    requires |Rivals(PendingKeys(b.repo.table, agent, now), x)| < CYCLE_LIMIT
    requires forall s | s in steps :: Allowed(s) && s != RetryStep(x)
    requires forall id | id in ids :: exists s :: s in steps && IsTurn(s, id)
    ensures IsThrough(Run(b, steps), x)
  {
    FirstHolds(PendingKeys(b.repo.table, agent, now), CYCLE_LIMIT, ids, x);
    TurnsGetThrough(b, steps, x);
  }

  predicate LeavesSent(b: Bus, x: Id) {
    x in b.repo.table && b.repo.table[x].status != Sent
  }

  /** A critical message waits for critical ones only: with fewer than fifty other critical rows pending
      it leaves SENT in the cycle, whatever less urgent rows are waiting. */
  lemma CriticalGetsThrough(b: Bus, agent: AgentId, now: int, ids: seq<Id>, clock: nat -> int,
                            raises: map<Id, string>, x: Id)
    requires Coherent(b.repo) && x in b.repo.table && AwaitsAgent(b.repo.table[x], agent, now)
    requires IsPendingAnswer(b.repo.table, agent, now, CYCLE_LIMIT, ids)
    requires b.repo.table[x].priority == Critical
    requires |OthersOf(b.repo.table, agent, now, x, {Critical})| < CYCLE_LIMIT
    ensures x in ids && LeavesSent(HandleAll(b, ids, clock, raises), x)
  {
    UrgentGetsThrough(b, agent, now, ids, clock, raises, x, {Critical});
  }

  /** The other rows pending for the agent with one of the given priorities. */
  ghost function OthersOf(table: Rows, agent: AgentId, now: int, x: Id, priorities: set<MessagePriority>): set<Id> {
    set y | y in table && y != x && AwaitsAgent(table[y], agent, now) && table[y].priority in priorities
  }

  /** In general only rows at least as urgent count. */
  lemma UrgentGetsThrough(b: Bus, agent: AgentId, now: int, ids: seq<Id>, clock: nat -> int,
                          raises: map<Id, string>, x: Id, urgent: set<MessagePriority>)
    requires Coherent(b.repo) && x in b.repo.table && AwaitsAgent(b.repo.table[x], agent, now)
    requires IsPendingAnswer(b.repo.table, agent, now, CYCLE_LIMIT, ids)
    requires forall p :: p in urgent <==> !Outranks(b.repo.table[x].priority, p)
    requires |OthersOf(b.repo.table, agent, now, x, urgent)| < CYCLE_LIMIT
    ensures x in ids && LeavesSent(HandleAll(b, ids, clock, raises), x)
  {
    var keys := PendingKeys(b.repo.table, agent, now);
    PendingAnswerIff(b.repo.table, agent, now, CYCLE_LIMIT, ids);
    PendingKeysAre(b.repo.table, agent, now, x);
    forall y | y in Rivals(keys, x) ensures y in OthersOf(b.repo.table, agent, now, x, urgent) {
      RivalsAre(b.repo.table, agent, now, x, y);
    }
    SubsetSize(Rivals(keys, x), OthersOf(b.repo.table, agent, now, x, urgent));
    FirstHolds(keys, CYCLE_LIMIT, ids, x);
    CycleDeliversNearRows(b, agent, now, ids, clock, raises, x);
  }

  // ---------------------------------------------------------------------------
  // Delivered rows that block the ones behind them
  // ---------------------------------------------------------------------------

  function KeyOf(m: Message): (int, int) {
    (m.Rank(), m.createdAt)
  }

  /** Delivered rows for `agent` that never expire. */
  ghost predicate HoldsFront(b: Bus, agent: AgentId, front: set<Id>) {
    forall y | y in front ::
      && y in b.repo.table && y in b.sent
      && b.repo.table[y].recipient == Some(agent)
      && b.repo.table[y].status == Delivered && b.repo.table[y].expiresAt.None?
  }

  /** A delivery cycle for one agent over an answer of its pending query, or any other bus step. */
  datatype Stage =
    | CycleStage(agent: AgentId, now: int, ids: seq<Id>, clock: nat -> int, raises: map<Id, string>)
    | StepStage(step: Step)

  /** The step neither processes nor expires a row of `front`, and no handler fails on one. */
  predicate Spares(s: Step, front: set<Id>) {
    (s.ProcessStep? || s.ExpireStep? || s.HandlerRaisedStep?) ==> s.id !in front
  }

  ghost predicate CanFollow(b: Bus, front: set<Id>, g: Stage) {
    match g
    case CycleStage(agent, now, ids, _, _) => IsFirst(PendingKeys(b.repo.table, agent, now), CYCLE_LIMIT, ids)
    case StepStage(s) => Allowed(s) && Spares(s, front)
  }

  function ApplyStage(b: Bus, g: Stage): Bus {
    match g
    case CycleStage(_, _, ids, clock, raises) => HandleAll(b, ids, clock, raises)
    case StepStage(s) => Apply(b, s)
  }

  function AfterStages(b: Bus, stages: seq<Stage>): Bus {
    if stages == [] then b else ApplyStage(AfterStages(b, stages[..|stages| - 1]), stages[|stages| - 1])
  }

  ghost predicate AreStages(b: Bus, front: set<Id>, stages: seq<Stage>) {
    stages == [] ||
    (var init := stages[..|stages| - 1];
     AreStages(b, front, init) && CanFollow(AfterStages(b, init), front, stages[|stages| - 1]))
  }

  lemma HandlePendingKeepsCopies(b: Bus, id: Id, now: int, raises: map<Id, string>)
    requires CopiesExplained(b)
    ensures CopiesExplained(HandlePending(b, id, now, raises))
  {
    StepKeepsCopies(b, ExpireStep(id, now));
    StepKeepsCopies(b, DeliverStep(id, now));
    var delivered := Deliver(b, id, now);
    if id in raises && Count(delivered, id) > 0 {
      StepKeepsCopies(delivered, HandlerRaisedStep(id, raises[id], now));
    }
  }

  lemma HandlePendingLeaves(b: Bus, id: Id, now: int, raises: map<Id, string>, x: Id)
    requires CopiesExplained(b)
    requires x == id ==> x in b.repo.table && b.repo.table[x].status == Delivered && b.repo.table[x].expiresAt.None?
    ensures Lookup(HandlePending(b, id, now, raises).repo.table, x) == Lookup(b.repo.table, x)
    ensures HandlePending(b, id, now, raises).sent == b.sent
  {
    if x == id {
      assert !CanDeliver(b, id) && Deliver(b, id, now) == b;
    } else {
      DeliverLeaves(b, id, now, x);
    }
  }

  lemma DeliverLeaves(b: Bus, id: Id, now: int, x: Id)
    requires x != id
    ensures Lookup(Deliver(b, id, now).repo.table, x) == Lookup(b.repo.table, x)
    ensures Deliver(b, id, now).sent == b.sent
  {
  }

  lemma {:induction false} CycleKeepsCopies(b: Bus, ids: seq<Id>, clock: nat -> int, raises: map<Id, string>)
    requires CopiesExplained(b)
    ensures CopiesExplained(HandleAll(b, ids, clock, raises))
  {
    if ids != [] {
      CycleKeepsCopies(b, ids[..|ids| - 1], clock, raises);
      HandlePendingKeepsCopies(HandleAll(b, ids[..|ids| - 1], clock, raises), ids[|ids| - 1], clock(|ids| - 1), raises);
    }
  }

  lemma {:induction false} CycleLeaves(b: Bus, ids: seq<Id>, clock: nat -> int, raises: map<Id, string>, x: Id)
    requires CopiesExplained(b)
    requires x in ids ==> x in b.repo.table && b.repo.table[x].status == Delivered && b.repo.table[x].expiresAt.None?
    ensures HandleAll(b, ids, clock, raises).sent == b.sent
    ensures Lookup(HandleAll(b, ids, clock, raises).repo.table, x) == Lookup(b.repo.table, x)
  {
    if ids != [] {
      var init, last := ids[..|ids| - 1], ids[|ids| - 1];
      CycleLeaves(b, init, clock, raises, x);
      var before := HandleAll(b, init, clock, raises);
      CycleKeepsCopies(b, init, clock, raises);
      HandlePendingLeaves(before, last, clock(|ids| - 1), raises, x);
    }
  }

  lemma StepSparesRow(b: Bus, s: Step, y: Id)
    requires CopiesExplained(b) && Allowed(s) && Spares(s, {y})
    requires y in b.repo.table && y in b.sent && b.repo.table[y].status == Delivered && b.repo.table[y].expiresAt.None?
    ensures y in Apply(b, s).sent && Lookup(Apply(b, s).repo.table, y) == Some(b.repo.table[y])
  {
  }

  lemma StageKeepsFront(b: Bus, agent: AgentId, front: set<Id>, g: Stage)
    requires CopiesExplained(b) && HoldsFront(b, agent, front) && CanFollow(b, front, g)
    ensures CopiesExplained(ApplyStage(b, g)) && HoldsFront(ApplyStage(b, g), agent, front)
    ensures forall y | y in front :: ApplyStage(b, g).repo.table[y] == b.repo.table[y]
  {
    match g
    case CycleStage(_, _, ids, clock, raises) =>
      CycleKeepsCopies(b, ids, clock, raises);
      forall y | y in front
        ensures y in ApplyStage(b, g).sent && Lookup(ApplyStage(b, g).repo.table, y) == Some(b.repo.table[y])
      {
        CycleLeaves(b, ids, clock, raises, y);
      }
    case StepStage(s) =>
      StepKeepsCopies(b, s);
      forall y | y in front
        ensures y in ApplyStage(b, g).sent && Lookup(ApplyStage(b, g).repo.table, y) == Some(b.repo.table[y])
      {
        StepSparesRow(b, s, y);
      }
  }

  /** Delivered rows that nobody processes stay where they are over any run of cycles and steps. */
  lemma {:induction false} FrontStays(b: Bus, agent: AgentId, front: set<Id>, stages: seq<Stage>)
    requires CopiesExplained(b) && HoldsFront(b, agent, front) && AreStages(b, front, stages)
    ensures CopiesExplained(AfterStages(b, stages)) && HoldsFront(AfterStages(b, stages), agent, front)
    ensures forall y | y in front :: AfterStages(b, stages).repo.table[y] == b.repo.table[y]
  {
    if stages != [] {
      FrontStays(b, agent, front, stages[..|stages| - 1]);
      StageKeepsFront(AfterStages(b, stages[..|stages| - 1]), agent, front, stages[|stages| - 1]);
    }
  }

  ghost predicate IsBehindFront(b: Bus, agent: AgentId, front: set<Id>, x: Id)
    requires HoldsFront(b, agent, front)
  {
    && x in b.repo.table && b.repo.table[x].recipient == Some(agent)
    && forall y | y in front :: KeyLess(KeyOf(b.repo.table[y]), KeyOf(b.repo.table[x]))
  }

  lemma CycleSkips(b: Bus, agent: AgentId, front: set<Id>, c: Stage, x: Id)
    requires CopiesExplained(b) && HoldsFront(b, agent, front) && |front| >= CYCLE_LIMIT
    requires c.CycleStage? && CanFollow(b, front, c) && IsBehindFront(b, agent, front, x)
    ensures x !in c.ids && Lookup(ApplyStage(b, c).repo.table, x) == Some(b.repo.table[x])
  {
    var keys := PendingKeys(b.repo.table, c.agent, c.now);
    if x in keys {
      assert c.agent == agent;
      FirstLacks(keys, CYCLE_LIMIT, c.ids, x, front);
    }
    assert forall id | id in c.ids :: id in keys;
    CycleLeaves(b, c.ids, c.clock, c.raises, x);
  }

  /** Delivered rows nobody handles keep their places: over any run mixing delivery cycles with sends,
      deliveries, retries, clean-ups and whatever else leaves fifty of them alone, no cycle ever looks
      at a row for the same agent behind them. */
  lemma BlockedForever(b: Bus, agent: AgentId, front: set<Id>, stages: seq<Stage>, c: Stage, x: Id)
    requires CopiesExplained(b) && HoldsFront(b, agent, front) && |front| >= CYCLE_LIMIT
    requires AreStages(b, front, stages) && c.CycleStage? && CanFollow(AfterStages(b, stages), front, c)
    ensures HoldsFront(AfterStages(b, stages), agent, front)
    ensures var now := AfterStages(b, stages);
            IsBehindFront(now, agent, front, x) ==>
              x !in c.ids && Lookup(ApplyStage(now, c).repo.table, x) == Lookup(now.repo.table, x)
  {
    FrontStays(b, agent, front, stages);
    if IsBehindFront(AfterStages(b, stages), agent, front, x) {
      CycleSkips(AfterStages(b, stages), agent, front, c, x);
    }
  }

  /** So while only cycles run, such a row stays exactly as it was. */
  lemma {:induction false} CyclesNeverReach(b: Bus, agent: AgentId, front: set<Id>, stages: seq<Stage>, x: Id)
    requires CopiesExplained(b) && HoldsFront(b, agent, front) && |front| >= CYCLE_LIMIT
    requires AreStages(b, front, stages) && (forall g | g in stages :: g.CycleStage?)
    requires IsBehindFront(b, agent, front, x)
    ensures Lookup(AfterStages(b, stages).repo.table, x) == Some(b.repo.table[x])
  {
    if stages != [] {
      var init, last := stages[..|stages| - 1], stages[|stages| - 1];
      assert last in stages;
      CyclesNeverReach(b, agent, front, init, x);
      FrontStays(b, agent, front, init);
      BlockedForever(b, agent, front, init, last, x);
    }
  }

  function RetryAll(b: Bus, ids: seq<Id>): Bus {
    if ids == [] then b else Retry(RetryAll(b, ids[..|ids| - 1]), ids[|ids| - 1])
  }

  function Retriable(rows: Rows, ids: seq<Id>): nat {
    if ids == [] then 0
    else Retriable(rows, ids[..|ids| - 1]) + if ids[|ids| - 1] in rows && rows[ids[|ids| - 1]].CanRetry() then 1 else 0
  }

  /** A retry step touches the row of one failed message that may be retried, and nothing else. */
  lemma RetryStepIs(b: Bus, id: Id, x: Id)
    ensures var after := Apply(b, RetryStep(id));
            && after.repo.cache == b.repo.cache && after.handlers == b.handlers && after.invoked == b.invoked
            && (if x == id && x in b.repo.table && b.repo.table[x].status == Failed
                then x in after.repo.table && IsRetryOf(b.repo.table[x], after.repo.table[x])
                else Lookup(after.repo.table, x) == Lookup(b.repo.table, x))
  {
  }

  /** A clean-up removes the rows that expired before the given time, and nothing else. */
  lemma CleanUpStepIs(b: Bus, before: int, x: Id)
    ensures var after := Apply(b, DeleteExpiredStep(before));
            && after.repo.cache == b.repo.cache && after.handlers == b.handlers && after.invoked == b.invoked
            && Lookup(after.repo.table, x)
                 == (if x !in b.repo.table then None
                     else if b.repo.table[x].expiresAt == None || before <= b.repo.table[x].expiresAt.value
                     then Some(b.repo.table[x]) else None)
  {
  }

  /** An expiry step marks one row. */
  lemma ExpireStepIs(b: Bus, id: Id, now: int, x: Id)
    ensures Lookup(Apply(b, ExpireStep(id, now)).repo.table, x)
         == if x == id && x in b.repo.table
            then Some(b.repo.table[x].(status := Expired, error := Some("Message expired")))
            else Lookup(b.repo.table, x)
  {
  }

  /** What a retry makes of a failed row. */
  predicate IsRetryOf(was: Message, row: Message) {
    if was.retryCount < was.maxRetries
    then row == was.(status := Sent, retryCount := was.retryCount + 1, deliveredAt := None, processedAt := None,
                     error := None)
    else row == was
  }

  lemma {:induction false} RetryAllRetries(b: Bus, ids: seq<Id>, i: nat)
    requires i < |ids| && (forall j, k | 0 <= j < k < |ids| :: ids[j] != ids[k])
    requires forall id | id in ids :: id in b.repo.table && b.repo.table[id].status == Failed
    ensures var table := RetryAll(b, ids).repo.table;
            ids[i] in table && IsRetryOf(b.repo.table[ids[i]], table[ids[i]])
  {
    var init, last := ids[..|ids| - 1], ids[|ids| - 1];
    if i < |init| {
      RetryAllRetries(b, init, i);
    } else {
      RetryAllKeepsOthers(b, init, last);
    }
  }

  ghost function RetriableIn(rows: Rows, ids: seq<Id>): set<Id> {
    set id | id in ids && id in rows && rows[id].retryCount < rows[id].maxRetries
  }

  lemma RetriableSnoc(rows: Rows, ids: seq<Id>, last: Id)
    requires last !in ids
    ensures |RetriableIn(rows, ids + [last])|
         == |RetriableIn(rows, ids)| + if last in rows && rows[last].retryCount < rows[last].maxRetries then 1 else 0
  {
    var more := if last in rows && rows[last].retryCount < rows[last].maxRetries then {last} else {};
    assert RetriableIn(rows, ids + [last]) == RetriableIn(rows, ids) + more;
  }

  lemma {:induction false} RetriableCounts(rows: Rows, ids: seq<Id>)
    requires forall j, k | 0 <= j < k < |ids| :: ids[j] != ids[k]
    requires forall id | id in ids :: id in rows && rows[id].status == Failed
    ensures Retriable(rows, ids) == |RetriableIn(rows, ids)|
  {
    if ids != [] {
      var init, last := ids[..|ids| - 1], ids[|ids| - 1];
      RetriableCounts(rows, init);
      assert ids == init + [last] && last in ids;
      RetriableSnoc(rows, init, last);
    }
  }

  lemma {:induction false} RetryAllKeepsOthers(b: Bus, ids: seq<Id>, x: Id)
    requires x !in ids
    ensures Lookup(RetryAll(b, ids).repo.table, x) == Lookup(b.repo.table, x)
  {
    if ids != [] {
      RetryAllKeepsOthers(b, ids[..|ids| - 1], x);
    }
  }
}

module MessageBuses {
  import opened Options
  import opened Messages
  import opened MessageRepositories
  import S = MessageStore
  import B = BusSteps

  class MessageBus {
    const repo: MessageRepository
    var handlers: map<AgentId, set<MessageType>>
    ghost var invoked: map<Id, nat>
    ghost var sent: map<Id, int>

    constructor ()
      ensures fresh(repo) && repo.Valid() && State() == B.EMPTY_BUS
    {
      repo := new MessageRepository();
      handlers, invoked, sent := map[], map[], map[];
    }

    ghost function State(): B.Bus
      reads this, repo
    {
      B.Bus(repo.State(), handlers, invoked, sent)
    }

    method RegisterHandler(agent: AgentId, kinds: set<MessageType>)
      modifies this`handlers
      ensures State() == B.Apply(old(State()), B.RegisterStep(agent, kinds))
      ensures handlers == old(handlers)[agent := kinds]
    {
      handlers := handlers[agent := kinds];
    }

    method UnregisterHandler(agent: AgentId)
      modifies this`handlers
      ensures State() == B.Apply(old(State()), B.UnregisterStep(agent))
      ensures handlers == old(handlers) - {agent}
    {
      handlers := handlers - {agent};
    }

    method Send(id: Id, sender: AgentId, recipient: Option<AgentId>, kind: MessageType, priority: MessagePriority,
                now: int, expiresAt: Option<int>, maxRetries: int) returns (m: Message, ghost evicted: set<Id>)
      requires repo.Valid() && id !in sent && id !in repo.table
      modifies this`sent, repo
      ensures repo.Valid() && B.Allowed(B.SendStep(m, evicted))
      ensures State() == B.Apply(old(State()), B.SendStep(m, evicted))
      ensures m == Message(id, sender, recipient, kind, priority, Sent, now, None, None, expiresAt, 0, maxRetries, None)
      ensures repo.table == old(repo.table)[id := m]
    {
      m := NewMessage(id, sender, recipient, kind, priority, now, expiresAt, maxRetries);
      evicted := repo.Create(m);
      sent := sent[id := maxRetries];
    }

    /** Delivers a message that `get` reports as SENT and whose row is still there; `raised` is
        the error its handler raises, should the handler be called. */
    method Deliver(id: Id, now: int, raised: Option<string>) returns (m: Option<Message>)
      requires repo.Valid()
      modifies this`invoked, repo
      ensures repo.Valid()
      ensures var raises := if raised.Some? then map[id := raised.value] else map[];
              State() == B.DeliverAndSettle(old(State()), id, now, raises)
      ensures m.None? ==> State() == old(State())
      ensures m.Some? <==>
                && id in old(repo.table)
                && (if id in old(repo.cache) then old(repo.cache)[id] else old(repo.table)[id]).status == Sent
      ensures m.Some? ==>
                var was := old(repo.table)[id];
                var taken := B.IsTaken(old(State()), was);
                var sent := was.(status := Delivered, deliveredAt := Some(now), error := None);
                && m.value == sent
                && repo.table == old(repo.table)[id := if !taken then sent
                                                       else if raised == None then sent.(status := Processing)
                                                       else sent.(status := Failed, error := raised)]
                && invoked == if taken then old(invoked)[id := B.Count(old(State()), id) + 1] else old(invoked)
    {
      var found := repo.Get(id);
      if found.None? || found.value.status != Sent {
        return None;
      }
      if id in repo.table {
        B.DeliverExactly(State(), id, now, if raised.Some? then map[id := raised.value] else map[]);
      }
      m := repo.UpdateStatus(id, Delivered, None, now);
      if m.None? {
        assert State() == old(State());
        return;
      }
      if m.value.recipient.Some? && m.value.recipient.value != "" {
        InvokeHandler(m.value, now, raised);
      }
    }

    method InvokeHandler(m: Message, now: int, raised: Option<string>)
      requires m.recipient.Some? && m.recipient.value != ""
      requires repo.Valid()
      modifies this`invoked, repo
      ensures repo.Valid()
      ensures var before := old(State());
              var called := B.Call(B.Mark(before, m.id, Processing, None, now), m.id);
              State() == if !B.Accepts(before, m) then before
                         else if raised.Some? then B.HandlerRaised(called, m.id, raised.value, now)
                         else called
      ensures invoked == if B.IsTaken(old(State()), m) then old(invoked)[m.id := B.Count(old(State()), m.id) + 1]
                         else old(invoked)
    {
      B.TakenIff(State(), m);
      if m.recipient.value !in handlers || m.kind !in handlers[m.recipient.value] {
        return;
      }
      var _ := repo.UpdateStatus(m.id, Processing, None, now);
      invoked := invoked[m.id := B.Count(State(), m.id) + 1];
      if raised.Some? {
        var _ := repo.UpdateStatus(m.id, Failed, raised, now);
      }
    }

    method Process(id: Id, now: int) returns (m: Option<Message>)
      requires repo.Valid()
      modifies repo
      ensures repo.Valid()
      ensures State() == B.Process(old(State()), id, now) == B.Apply(old(State()), B.ProcessStep(id, now))
      ensures m.Some? <==>
                && id in old(repo.table)
                && (if id in old(repo.cache) then old(repo.cache)[id] else old(repo.table)[id]).status
                     in {Delivered, Processing}
      ensures m.None? ==> State() == old(State())
      ensures m.Some? ==>
                && m.value == old(repo.table)[id].(status := Processed, processedAt := Some(now), error := None)
                && repo.table == old(repo.table)[id := m.value]
    {
      var found := repo.Get(id);
      if found.None? || found.value.status !in {Delivered, Processing} {
        return None;
      }
      m := repo.UpdateStatus(id, Processed, None, now);
    }

    /** One row of a delivery cycle: expired by now, or delivered. */
    method HandlePending(id: Id, now: int, raises: map<Id, string>)
      requires repo.Valid()
      modifies this`invoked, repo
      ensures repo.Valid()
      ensures State() == B.HandlePending(old(State()), id, now, raises)
      ensures id in old(repo.table) && S.Coherent(old(repo.State())) ==>
                var was := old(repo.table)[id];
                id in repo.table && B.IsOutcome(was, repo.table[id], B.IsTaken(old(State()), was),
                                                if id in raises then Some(raises[id]) else None, now)
    {
      if id in repo.table && S.Coherent(repo.State()) { B.HandlePendingOutcome(State(), id, now, raises); }
      if id in repo.table && repo.table[id].IsExpired(now) {
        var _ := repo.UpdateStatus(id, Expired, Some("Message expired"), now);
      } else if id in raises {
        var _ := Deliver(id, now, Some(raises[id]));
      } else {
        var _ := Deliver(id, now, None);
      }
    }

    /** One agent's share of a delivery cycle. */
    method DeliverPending(agent: AgentId, now: int, clock: nat -> int, raises: map<Id, string>) returns (ids: seq<Id>)
      requires repo.Valid()
      modifies this`invoked, repo
      ensures repo.Valid()
      ensures IsFirst(S.PendingKeys(old(repo.table), agent, now), B.CYCLE_LIMIT, ids)
      ensures S.IsPendingAnswer(old(repo.table), agent, now, 50, ids)
      ensures State() == B.HandleAll(old(State()), ids, clock, raises)
    {
      ids := repo.GetPendingMessages(agent, now, B.CYCLE_LIMIT);
      HandleEach(ids, clock, raises);
    }

    /** The loop over the answer. */
    method HandleEach(ids: seq<Id>, clock: nat -> int, raises: map<Id, string>)
      requires repo.Valid()
      modifies this`invoked, repo
      ensures repo.Valid()
      ensures State() == B.HandleAll(old(State()), ids, clock, raises)
    {
      for i := 0 to |ids|
        invariant repo.Valid()
        invariant State() == B.HandleAll(old(State()), ids[..i], clock, raises)
      {
        assert ids[..i + 1][..i] == ids[..i];
        HandlePending(ids[i], clock(i), raises);
      }
      assert ids[..|ids|] == ids;
    }

    /** Retries the failed messages the agent sent or received that still may be retried. */
    method RetryFailed(agent: AgentId) returns (ids: seq<Id>, retried: nat)
      requires repo.Valid()
      modifies repo
      ensures repo.Valid()
      ensures IsFirst(S.FailedKeys(old(repo.table), agent), 100, ids)
      ensures S.IsFailedAnswer(old(repo.table), agent, 100, ids)
      ensures State() == B.RetryAll(old(State()), ids)
      ensures forall i | 0 <= i < |ids| ::
                ids[i] in repo.table && B.IsRetryOf(old(repo.table)[ids[i]], repo.table[ids[i]])
      ensures forall x | x !in ids :: S.Lookup(repo.table, x) == S.Lookup(old(repo.table), x)
      ensures retried == |B.RetriableIn(old(repo.table), ids)|
    {
      ids := repo.GetFailedMessages(agent, 100);
      var snapshot := repo.table;
      retried := 0;
      for i := 0 to |ids|
        invariant repo.Valid()
        invariant State() == B.RetryAll(old(State()), ids[..i])
        invariant retried == B.Retriable(snapshot, ids[..i])
      {
        assert ids[..i + 1][..i] == ids[..i];
        assert ids[i] !in ids[..i] && ids[i] in S.FailedKeys(snapshot, agent);
        B.RetryAllKeepsOthers(old(State()), ids[..i], ids[i]);
        if snapshot[ids[i]].CanRetry() {
          var _ := repo.IncrementRetry(ids[i]);
          retried := retried + 1;
        }
      }
      assert ids[..|ids|] == ids;
      assert forall id | id in ids :: id in S.FailedKeys(snapshot, agent);
      B.RetriableCounts(snapshot, ids);
      forall i | 0 <= i < |ids|
        ensures ids[i] in repo.table && B.IsRetryOf(snapshot[ids[i]], repo.table[ids[i]])
      {
        B.RetryAllRetries(old(State()), ids, i);
      }
      forall x | x !in ids ensures S.Lookup(repo.table, x) == S.Lookup(snapshot, x) {
        B.RetryAllKeepsOthers(old(State()), ids, x);
      }
    }
  }
}
