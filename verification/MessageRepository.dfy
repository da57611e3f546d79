/** Agent messages, the message table and the in-process cache in front of it. */
module Messages {
  import opened Options

  type Id = string
  type AgentId = string
  type MessageType = string

  datatype MessageStatus = Sent | Delivered | Processing | Processed | Failed | Expired | Cancelled

  datatype MessagePriority = Low | Normal | High | Critical

  datatype Message = Message(
    id: Id,
    sender: AgentId,
    recipient: Option<AgentId>,
    kind: MessageType,
    priority: MessagePriority,
    status: MessageStatus,
    createdAt: int,
    deliveredAt: Option<int>,
    processedAt: Option<int>,
    expiresAt: Option<int>,
    retryCount: nat,
    maxRetries: int,
    error: Option<string>)
  {
    predicate IsExpired(now: int) {
      expiresAt.Some? && now > expiresAt.value
    }

    predicate CanRetry() {
      retryCount < maxRetries && status in {Failed, Sent}
    }

    /** Still waiting for `agent` in the eyes of the pending query at time `now`. */
    predicate IsPendingFor(agent: AgentId, now: int) {
      && recipient == Some(agent)
      && status in {Sent, Delivered}
      && (expiresAt.Some? ==> expiresAt.value > now)
    }

    function Rank(): int {
      match priority
      case Critical => 1
      case High => 2
      case Normal => 3
      case Low => 4
    }
  }

  function NewMessage(id: Id, sender: AgentId, recipient: Option<AgentId>, kind: MessageType, priority: MessagePriority,
                      now: int, expiresAt: Option<int>, maxRetries: int): Message {
    Message(id, sender, recipient, kind, priority, Sent, now, None, None, expiresAt, 0, maxRetries, None)
  }

  // ---------------------------------------------------------------------------
  // ORDER BY ... LIMIT
  // ---------------------------------------------------------------------------

  type Keys = map<Id, (int, int)>

  predicate KeyLess(a: (int, int), b: (int, int)) {
    a.0 < b.0 || (a.0 == b.0 && a.1 < b.1)
  }

  /** `ids` is an answer of a query ordered by `keys` and cut off after `limit` rows. */
  ghost predicate IsFirst(keys: Keys, limit: nat, ids: seq<Id>) {
    && |ids| <= limit
    && (forall i | 0 <= i < |ids| :: ids[i] in keys)
    && (forall i, j | 0 <= i < j < |ids| :: ids[i] != ids[j] && !KeyLess(keys[ids[j]], keys[ids[i]]))
    && (forall x, i | x in keys && x !in ids && 0 <= i < |ids| :: !KeyLess(keys[x], keys[ids[i]]))
    && (forall x | x in keys && x !in ids :: |ids| == limit)
  }

  method SelectFirst(keys: Keys, limit: nat) returns (ids: seq<Id>)
    ensures IsFirst(keys, limit, ids)
  {
    ids := [];
    var rest := keys.Keys;
    while rest != {} && |ids| < limit
      invariant |ids| <= limit
      invariant rest <= keys.Keys
      invariant forall x :: x in ids <==> x in keys.Keys - rest
      invariant forall i | 0 <= i < |ids| :: ids[i] in keys
      invariant forall i, j | 0 <= i < j < |ids| :: ids[i] != ids[j] && !KeyLess(keys[ids[j]], keys[ids[i]])
      invariant forall x, i | x in rest && 0 <= i < |ids| :: !KeyLess(keys[x], keys[ids[i]])
      decreases rest
    {
      var least :| least in rest;
      var others := rest - {least};
      while others != {}
        invariant least in rest && others <= rest
        invariant forall x | x in rest - others :: !KeyLess(keys[x], keys[least])
        decreases others
      {
        var x :| x in others;
        others := others - {x};
        if KeyLess(keys[x], keys[least]) { least := x; }
      }
      assert least !in ids && forall i | 0 <= i < |ids| :: ids[i] in ids;
      ids := ids + [least];
      rest := rest - {least};
    }
  }

  ghost function Prefix(ids: seq<Id>): set<Id> {
    set x | x in ids
  }

  lemma {:induction false} DistinctSize(ids: seq<Id>)
    requires forall i, j | 0 <= i < j < |ids| :: ids[i] != ids[j]
    ensures |Prefix(ids)| == |ids|
  {
    if ids != [] {
      var init := ids[..|ids| - 1];
      DistinctSize(init);
      assert Prefix(ids) == Prefix(init) + {ids[|ids| - 1]};
    }
  }

  lemma SubsetSize<T>(a: set<T>, b: set<T>)
    requires a <= b
    ensures |a| <= |b|
  {
    assert b == a + (b - a);
  }

  /** The rows of a query that are ahead of a row or level with it. */
  ghost function Rivals(keys: Keys, x: Id): set<Id>
    requires x in keys
  {
    set y | y in keys && y != x && !KeyLess(keys[x], keys[y])
  }

  /** A row with fewer than `limit` rows ahead of it or level with it is in the answer. */
  lemma FirstHolds(keys: Keys, limit: nat, ids: seq<Id>, x: Id)
    requires IsFirst(keys, limit, ids) && x in keys
    requires |Rivals(keys, x)| < limit
    ensures x in ids
  {
    if x !in ids {
      DistinctSize(ids);
      SubsetSize(Prefix(ids), Rivals(keys, x));
    }
  }

  lemma {:induction false} SomeLeast(keys: Keys) returns (least: Id)
    requires keys != map[]
    ensures least in keys && forall x | x in keys :: !KeyLess(keys[x], keys[least])
    decreases |keys|
  {
    assert keys.Keys != {};
    least :| least in keys.Keys;
    var others := keys - {least};
    assert keys.Keys == others.Keys + {least};
    if others != map[] {
      var next := SomeLeast(others);
      if KeyLess(keys[next], keys[least]) { least := next; }
    }
  }

  /** Every such query has an answer. */
  lemma {:induction false} SomeAnswer(keys: Keys, limit: nat) returns (ids: seq<Id>)
    ensures IsFirst(keys, limit, ids)
    decreases limit
  {
    if keys == map[] || limit == 0 {
      ids := [];
    } else {
      var least := SomeLeast(keys);
      var rest := SomeAnswer(keys - {least}, limit - 1);
      LeastFirst(keys, limit, least, rest);
      ids := [least] + rest;
    }
  }

  lemma LeastFirst(keys: Keys, limit: nat, least: Id, rest: seq<Id>)
    requires limit > 0 && least in keys && forall x | x in keys :: !KeyLess(keys[x], keys[least])
    requires IsFirst(keys - {least}, limit - 1, rest)
    ensures IsFirst(keys, limit, [least] + rest)
  {
    var ids := [least] + rest;
    assert forall i | 0 < i < |ids| :: ids[i] == rest[i - 1];
    LeastBefore(keys, limit, least, rest);
    forall x | x in keys && x !in ids
      ensures |ids| == limit && forall i | 0 <= i < |ids| :: !KeyLess(keys[x], keys[ids[i]])
    {
      assert x in keys - {least} && x !in rest;
    }
  }

  lemma LeastBefore(keys: Keys, limit: nat, least: Id, rest: seq<Id>)
    requires limit > 0 && least in keys && forall x | x in keys :: !KeyLess(keys[x], keys[least])
    requires IsFirst(keys - {least}, limit - 1, rest)
    ensures var ids := [least] + rest;
            && (forall i | 0 <= i < |ids| :: ids[i] in keys)
            && forall i, j | 0 <= i < j < |ids| :: ids[i] != ids[j] && !KeyLess(keys[ids[j]], keys[ids[i]])
  {
    assert forall i | 0 <= i < |rest| :: rest[i] in keys - {least};
  }

  lemma AnswerWithout(keys: Keys, limit: nat, x: Id) returns (ids: seq<Id>)
    requires x in keys && |Rivals(keys, x)| >= limit
    ensures IsFirst(keys, limit, ids) && x !in ids
  {
    var rivals := Rivals(keys, x);
    ids := SomeAnswer(keys - {x}, limit);
    DistinctSize(ids);
    assert x !in ids;
    if |ids| < limit {
      SubsetSize(rivals, Prefix(ids));
    }
    forall i | 0 <= i < |ids| ensures !KeyLess(keys[x], keys[ids[i]]) {
      NoneBeyond(keys, limit, x, ids, i);
    }
  }

  lemma NoneBeyond(keys: Keys, limit: nat, x: Id, ids: seq<Id>, i: nat)
    requires x in keys && |Rivals(keys, x)| >= limit && IsFirst(keys - {x}, limit, ids) && i < |ids|
    ensures !KeyLess(keys[x], keys[ids[i]])
  {
    if KeyLess(keys[x], keys[ids[i]]) {
      DistinctSize(ids);
      assert ids[i] !in Rivals(keys, x) && ids[i] in Prefix(ids);
      SubsetSize(Rivals(keys, x), Prefix(ids) - {ids[i]});
    }
  }

  /** Which of several level rows a query puts first is left open, so a row is certain to be in the
      answer exactly when fewer than `limit` rows are ahead of it or level with it. */
  lemma InEveryAnswerIff(keys: Keys, limit: nat, x: Id)
    requires x in keys
    ensures (forall ids | IsFirst(keys, limit, ids) :: x in ids) <==> |Rivals(keys, x)| < limit
  {
    if |Rivals(keys, x)| < limit {
      forall ids | IsFirst(keys, limit, ids) ensures x in ids {
        FirstHolds(keys, limit, ids, x);
      }
    } else {
      var ids := AnswerWithout(keys, limit, x);
      assert IsFirst(keys, limit, ids) && x !in ids;
    }
  }

  /** A row with `limit` rows strictly ahead of it is not. */
  lemma FirstLacks(keys: Keys, limit: nat, ids: seq<Id>, x: Id, ahead: set<Id>)
    requires IsFirst(keys, limit, ids) && x in keys
    requires |ahead| >= limit && forall y | y in ahead :: y in keys && KeyLess(keys[y], keys[x])
    ensures x !in ids
  {
    if x in ids {
      DistinctSize(ids);
      assert x !in ahead;
      SubsetSize(ahead + {x}, Prefix(ids));
    }
  }
}

module MessageStore {
  import opened Options
  import opened Messages

  type Rows = map<Id, Message>

  /** The message table and the cache of recent messages. */
  datatype Repo = Repo(table: Rows, cache: Rows)

  const CACHE_LIMIT := 1000

  function Lookup(rows: Rows, id: Id): Option<Message> {
    if id in rows then Some(rows[id]) else None
  }

  function Get(r: Repo, id: Id): Option<Message> {
    if id in r.cache then Some(r.cache[id]) else Lookup(r.table, id)
  }

  function Create(r: Repo, m: Message, evicted: set<Id>): Repo {
    Repo(r.table[m.id := m], r.cache[m.id := m] - evicted)
  }

  function WithStatus(m: Message, status: MessageStatus, error: Option<string>, now: int): Message {
    m.(status := status,
       deliveredAt := if status == Delivered then Some(now) else m.deliveredAt,
       processedAt := if status == Processed then Some(now) else m.processedAt,
       error := error)
  }

  function UpdateStatus(r: Repo, id: Id, status: MessageStatus, error: Option<string>, now: int): Repo {
    if id !in r.table then r
    else
      var m := WithStatus(r.table[id], status, error, now);
      Repo(r.table[id := m], r.cache[id := m])
  }

  function Retried(m: Message): Message {
    m.(status := Sent, retryCount := m.retryCount + 1, deliveredAt := None, processedAt := None, error := None)
  }

  /** The retry count and status change in the table only; a cached copy stays behind. */
  function IncrementRetry(r: Repo, id: Id): Repo {
    if id !in r.table then r else r.(table := r.table[id := Retried(r.table[id])])
  }

  predicate DueBefore(m: Message, before: int) {
    m.expiresAt.Some? && m.expiresAt.value < before
  }

  function DeleteExpired(r: Repo, before: int): Repo {
    r.(table := map id | id in r.table && !DueBefore(r.table[id], before) :: r.table[id])
  }

  function PendingKeys(table: Rows, agent: AgentId, now: int): Keys {
    map id | id in table && table[id].IsPendingFor(agent, now) :: (table[id].Rank(), table[id].createdAt)
  }

  /** The failed messages an agent sent or received, newest first. */
  function FailedKeys(table: Rows, agent: AgentId): Keys {
    map id | id in table && table[id].status == Failed
             && (table[id].sender == agent || table[id].recipient == Some(agent)) :: (0, -table[id].createdAt)
  }

  // ---------------------------------------------------------------------------
  // What the queries answer
  // ---------------------------------------------------------------------------

  /** The first priority is served before the second. */
  predicate Outranks(p: MessagePriority, q: MessagePriority) {
    match p
    case Critical => q != Critical
    case High => q == Normal || q == Low
    case Normal => q == Low
    case Low => false
  }

  /** Whether `m` may stand before `n`: nothing more urgent, or as urgent and older, is passed over. */
  predicate MayPrecede(m: Message, n: Message) {
    !Outranks(n.priority, m.priority) && (m.priority == n.priority ==> m.createdAt <= n.createdAt)
  }

  /** The row is addressed to the agent, was sent or delivered, and does not expire by `now`. */
  predicate AwaitsAgent(m: Message, agent: AgentId, now: int) {
    && m.recipient == Some(agent) && (m.status == Sent || m.status == Delivered)
    && (m.expiresAt == None || m.expiresAt.value > now)
  }

  /** An answer of the pending query, said of the rows themselves: rows that await the agent, most urgent
      first and oldest first among equals, and the most urgent there are. */
  ghost predicate IsPendingAnswer(table: Rows, agent: AgentId, now: int, limit: nat, ids: seq<Id>) {
    && |ids| <= limit
    && (forall i | 0 <= i < |ids| :: ids[i] in table && AwaitsAgent(table[ids[i]], agent, now))
    && (forall i, j | 0 <= i < j < |ids| :: ids[i] != ids[j] && MayPrecede(table[ids[i]], table[ids[j]]))
    && (forall x | x in table && AwaitsAgent(table[x], agent, now) && x !in ids ::
          |ids| == limit && forall i | 0 <= i < |ids| :: MayPrecede(table[ids[i]], table[x]))
  }

  lemma KeysFollowUrgency(m: Message, n: Message)
    ensures !KeyLess((n.Rank(), n.createdAt), (m.Rank(), m.createdAt)) <==> MayPrecede(m, n)
  {
  }

  lemma PendingKeysAre(table: Rows, agent: AgentId, now: int, x: Id)
    ensures x in PendingKeys(table, agent, now) <==> x in table && AwaitsAgent(table[x], agent, now)
    ensures x in PendingKeys(table, agent, now) ==>
              PendingKeys(table, agent, now)[x] == (table[x].Rank(), table[x].createdAt)
  {
  }

  /** The ordered and cut-off query gives exactly such answers. */
  lemma PendingAnswerIff(table: Rows, agent: AgentId, now: int, limit: nat, ids: seq<Id>)
    ensures IsFirst(PendingKeys(table, agent, now), limit, ids) <==> IsPendingAnswer(table, agent, now, limit, ids)
  {
    var keys := PendingKeys(table, agent, now);
    forall x ensures x in keys <==> x in table && AwaitsAgent(table[x], agent, now) {
      PendingKeysAre(table, agent, now, x);
    }
    forall x, y | x in keys && y in keys ensures !KeyLess(keys[y], keys[x]) <==> MayPrecede(table[x], table[y]) {
      KeysFollowUrgency(table[x], table[y]);
    }
  }

  /** A row's rivals are the awaiting rows that may stand before it. */
  lemma RivalsAre(table: Rows, agent: AgentId, now: int, x: Id, y: Id)
    requires x in PendingKeys(table, agent, now)
    ensures y in Rivals(PendingKeys(table, agent, now), x)
       <==> y in table && y != x && AwaitsAgent(table[y], agent, now) && MayPrecede(table[y], table[x])
  {
    PendingKeysAre(table, agent, now, x);
    PendingKeysAre(table, agent, now, y);
    if y in table { KeysFollowUrgency(table[y], table[x]); }
  }

  /** An answer about failed messages: rows the agent sent or received, newest first. */
  ghost predicate IsFailedAnswer(table: Rows, agent: AgentId, limit: nat, ids: seq<Id>) {
    && |ids| <= limit
    && (forall i | 0 <= i < |ids| :: ids[i] in table && Concerns(table[ids[i]], agent))
    && (forall i, j | 0 <= i < j < |ids| :: ids[i] != ids[j] && table[ids[i]].createdAt >= table[ids[j]].createdAt)
    && (forall x | x in table && Concerns(table[x], agent) && x !in ids ::
          |ids| == limit && forall i | 0 <= i < |ids| :: table[ids[i]].createdAt >= table[x].createdAt)
  }

  predicate Concerns(m: Message, agent: AgentId) {
    m.status == Failed && (m.recipient == Some(agent) || m.sender == agent)
  }

  lemma FailedAnswerIff(table: Rows, agent: AgentId, limit: nat, ids: seq<Id>)
    ensures IsFirst(FailedKeys(table, agent), limit, ids) <==> IsFailedAnswer(table, agent, limit, ids)
  {
    var keys := FailedKeys(table, agent);
    forall x ensures x in keys <==> x in table && Concerns(table[x], agent) {
    }
    forall x, y | x in keys && y in keys
      ensures !KeyLess(keys[y], keys[x]) <==> table[x].createdAt >= table[y].createdAt
    {
    }
  }

  /** What is in the pending query's answer has not expired, and what expires right now is in neither. */
  lemma PendingIsNotExpired(m: Message, agent: AgentId, now: int)
    ensures m.IsPendingFor(agent, now) ==> !m.IsExpired(now)
    ensures m.IsExpired(now) <==> exists t :: m.expiresAt == Some(t) && t < now
    ensures m.expiresAt == Some(now) ==> !m.IsPendingFor(agent, now) && !m.IsExpired(now)
  {
  }

  // ---------------------------------------------------------------------------
  // When the cache tells the truth
  // ---------------------------------------------------------------------------

  ghost predicate Coherent(r: Repo) {
    forall id | id in r.cache :: id in r.table && r.cache[id] == r.table[id]
  }

  /** `get` answers with the row for every identifier exactly when the cache is coherent. */
  lemma GetIsRow(r: Repo)
    ensures (forall id :: Get(r, id) == Lookup(r.table, id)) <==> Coherent(r)
  {
    if forall id :: Get(r, id) == Lookup(r.table, id) {
      forall id | id in r.cache ensures id in r.table && r.cache[id] == r.table[id] {
        assert Get(r, id) == Lookup(r.table, id);
      }
    }
  }

  /** A status update caches without evicting, so it takes a full cache past its limit exactly
      when its row exists and was not cached. */
  lemma UpdateOutgrowsIff(r: Repo, id: Id, status: MessageStatus, error: Option<string>, now: int)
    requires |r.cache| <= CACHE_LIMIT
    ensures |UpdateStatus(r, id, status, error, now).cache| > CACHE_LIMIT
       <==> |r.cache| == CACHE_LIMIT && id in r.table && id !in r.cache
  {
    var after := UpdateStatus(r, id, status, error, now).cache;
    assert after.Keys == if id in r.table then r.cache.Keys + {id} else r.cache.Keys;
  }

  datatype RepoStep =
    | CreateStep(message: Message, evicted: set<Id>)
    | UpdateStep(id: Id, status: MessageStatus, error: Option<string>, now: int)
    | GetStep(id: Id)

  function ApplyRepoStep(r: Repo, s: RepoStep): Repo {
    match s
    case CreateStep(m, evicted) => Create(r, m, evicted)
    case UpdateStep(id, status, error, now) => UpdateStatus(r, id, status, error, now)
    case GetStep(id) => r
  }

  function RunRepo(r: Repo, steps: seq<RepoStep>): Repo {
    if steps == [] then r else ApplyRepoStep(RunRepo(r, steps[..|steps| - 1]), steps[|steps| - 1])
  }

  /** A creation as the code makes it: a new id, and past the limit one cached message goes. */
  ghost predicate Evicts(r: Repo, s: RepoStep) {
    s.CreateStep? ==>
      && s.message.id !in r.table && s.message.id !in r.cache
      && (if |r.cache| < CACHE_LIMIT then s.evicted == {}
          else exists v | v == s.message.id || v in r.cache :: s.evicted == {v})
  }

  ghost predicate AllEvict(steps: seq<RepoStep>) {
    steps == [] ||
    (AllEvict(steps[..|steps| - 1]) && Evicts(RunRepo(Repo(map[], map[]), steps[..|steps| - 1]), steps[|steps| - 1]))
  }

  /** The updates of uncached rows that found the cache at its limit or beyond. */
  function Unevicted(steps: seq<RepoStep>): nat {
    if steps == [] then 0
    else
      var r, last := RunRepo(Repo(map[], map[]), steps[..|steps| - 1]), steps[|steps| - 1];
      Unevicted(steps[..|steps| - 1])
        + if last.UpdateStep? && last.id in r.table && last.id !in r.cache && |r.cache| >= CACHE_LIMIT then 1 else 0
  }

  lemma SizeWithout(s: set<Id>, v: Id)
    requires v in s
    ensures |s - {v}| == |s| - 1
  {
  }

  lemma GrownSize(r: Repo, m: Message)
    requires m.id !in r.cache
    ensures |Create(r, m, {}).cache| == |r.cache| + 1
  {
    assert Create(r, m, {}).cache.Keys == r.cache.Keys + {m.id};
  }

  lemma EvictedSize(r: Repo, m: Message, v: Id)
    requires m.id !in r.cache && (v == m.id || v in r.cache)
    ensures |Create(r, m, {v}).cache| == |r.cache|
  {
    var grown := r.cache.Keys + {m.id};
    SizeWithout(grown, v);
    assert Create(r, m, {v}).cache.Keys == grown - {v};
  }

  lemma UpdateSize(r: Repo, id: Id, status: MessageStatus, error: Option<string>, now: int)
    ensures |UpdateStatus(r, id, status, error, now).cache|
         == |r.cache| + if id in r.table && id !in r.cache then 1 else 0
  {
    var after := UpdateStatus(r, id, status, error, now).cache;
    assert after.Keys == if id in r.table then r.cache.Keys + {id} else r.cache.Keys;
    if id in r.cache { assert r.cache.Keys + {id} == r.cache.Keys; }
  }

  lemma RepoStepSize(r: Repo, s: RepoStep)
    requires Evicts(r, s)
    ensures |ApplyRepoStep(r, s).cache| == |r.cache|
              + if s.UpdateStep? && s.id in r.table && s.id !in r.cache then 1
                else if s.CreateStep? && |r.cache| < CACHE_LIMIT then 1 else 0
  {
    match s
    case CreateStep(m, evicted) =>
      if evicted == {} {
        GrownSize(r, m);
      } else {
        var v :| (v == m.id || v in r.cache) && evicted == {v};
        EvictedSize(r, m, v);
      }
    case UpdateStep(id, status, error, now) => UpdateSize(r, id, status, error, now);
    case GetStep(_) =>
  }

  /** Over any run the cache is beyond its limit by the number of uncached rows updated when it was
      full: a creation evicts no more than it adds, so an outgrown cache never shrinks back.
      (Counting retries up and deleting rows leave the cache alone.) */
  lemma {:induction false} ExcessIsUnevicted(steps: seq<RepoStep>)
    requires AllEvict(steps)
    ensures var size := |RunRepo(Repo(map[], map[]), steps).cache|;
            Unevicted(steps) == if size > CACHE_LIMIT then size - CACHE_LIMIT else 0
    ensures steps != [] ==>
              var before := |RunRepo(Repo(map[], map[]), steps[..|steps| - 1]).cache|;
              before <= |RunRepo(Repo(map[], map[]), steps).cache|
  {
    if steps != [] {
      ExcessIsUnevicted(steps[..|steps| - 1]);
      RepoStepSize(RunRepo(Repo(map[], map[]), steps[..|steps| - 1]), steps[|steps| - 1]);
    }
  }

  /** After any sequence of creations, status updates and reads, and whatever was evicted on
      the way, `get` returns the table's row. */
  lemma {:induction false} WriteThroughKeepsCoherent(steps: seq<RepoStep>, id: Id)
    ensures Coherent(RunRepo(Repo(map[], map[]), steps))
    ensures Get(RunRepo(Repo(map[], map[]), steps), id) == Lookup(RunRepo(Repo(map[], map[]), steps).table, id)
  {
    if steps != [] {
      WriteThroughKeepsCoherent(steps[..|steps| - 1], id);
    }
    GetIsRow(RunRepo(Repo(map[], map[]), steps));
  }

  /** Incrementing the retry count spoils exactly the cached copy of that one message. */
  lemma RetryLeavesOldCopy(r: Repo, id: Id, x: Id)
    requires Coherent(r) && id in r.table
    ensures Get(IncrementRetry(r, id), x) == Lookup(IncrementRetry(r, id).table, x) <==> !(x == id && id in r.cache)
    ensures id in r.cache ==> Get(IncrementRetry(r, id), id) == Some(r.table[id])
  {
    assert Retried(r.table[id]).retryCount != r.table[id].retryCount;
  }

  /** Deleting expired rows spoils exactly the cached copies of the rows it deletes. */
  lemma DeleteLeavesOldCopies(r: Repo, before: int, x: Id)
    requires Coherent(r)
    ensures Get(DeleteExpired(r, before), x) == Lookup(DeleteExpired(r, before).table, x)
       <==> !(x in r.cache && DueBefore(r.cache[x], before))
  {
    assert x in r.cache ==> r.cache[x] == r.table[x];
  }
}

module MessageRepositories {
  import opened Options
  import opened Messages
  import S = MessageStore

  ghost predicate IsOldest(cached: S.Rows, v: Id)
    requires v in cached
  {
    forall x | x in cached :: cached[v].createdAt <= cached[x].createdAt
  }

  method Oldest(cached: S.Rows, some: Id) returns (oldest: Id)
    requires some in cached
    ensures oldest in cached
    ensures forall x | x in cached :: cached[oldest].createdAt <= cached[x].createdAt
  {
    oldest := some;
    var rest := cached.Keys;
    while rest != {}
      invariant oldest in cached && rest <= cached.Keys
      invariant forall x | x in cached.Keys - rest :: cached[oldest].createdAt <= cached[x].createdAt
      decreases rest
    {
      var x :| x in rest;
      rest := rest - {x};
      if cached[x].createdAt < cached[oldest].createdAt { oldest := x; }
    }
  }

  class MessageRepository {
    var table: S.Rows
    var cache: S.Rows

    constructor ()
      ensures State() == S.Repo(map[], map[])
    {
      table, cache := map[], map[];
    }

    function State(): S.Repo
      reads this
    {
      S.Repo(table, cache)
    }

    /** Every stored or cached message sits under its own identifier. */
    ghost predicate Valid()
      reads this
    {
      (forall id | id in cache :: cache[id].id == id) && (forall id | id in table :: table[id].id == id)
    }

    /** Inserts a row and caches it; past the limit the oldest cached message goes. */
    method Create(m: Message) returns (ghost evicted: set<Id>)
      requires Valid() && m.id !in table
      modifies this
      ensures Valid()
      ensures State() == S.Create(old(State()), m, evicted) == S.ApplyRepoStep(old(State()), S.CreateStep(m, evicted))
      ensures table == old(table)[m.id := m] && cache == old(cache)[m.id := m] - evicted
      ensures var grown := old(cache)[m.id := m];
              if |grown| <= 1000 then evicted == {}
              else exists v | v in grown :: evicted == {v} && IsOldest(grown, v)
    {
      table := table[m.id := m];
      cache := cache[m.id := m];
      evicted := {};
      if |cache| > S.CACHE_LIMIT {
        var oldest := Oldest(cache, m.id);
        evicted := {oldest};
        cache := cache - {cache[oldest].id};
      }
    }

    method Get(id: Id) returns (m: Option<Message>)
      ensures m == S.Get(State(), id)
      ensures m == if id in cache then Some(cache[id]) else if id in table then Some(table[id]) else None
    {
      if id in cache {
        return Some(cache[id]);
      }
      if id in table {
        return Some(table[id]);
      }
      return None;
    }

    method UpdateStatus(id: Id, status: MessageStatus, error: Option<string>, now: int) returns (m: Option<Message>)
      modifies this
      ensures old(Valid()) ==> Valid()
      ensures State() == S.UpdateStatus(old(State()), id, status, error, now)
           == S.ApplyRepoStep(old(State()), S.UpdateStep(id, status, error, now))
      ensures m == S.Lookup(table, id)
      ensures m.Some? <==> id in old(table)
      ensures m.None? ==> table == old(table) && cache == old(cache)
      ensures m.Some? ==>
                var was := old(table)[id];
                && table == old(table)[id := m.value] && cache == old(cache)[id := m.value]
                && m.value == was.(status := status, error := error,
                                   deliveredAt := if status == Delivered then Some(now) else was.deliveredAt,
                                   processedAt := if status == Processed then Some(now) else was.processedAt)
    {
      if id !in table {
        return None;
      }
      var row := S.WithStatus(table[id], status, error, now);
      table := table[id := row];
      cache := cache[id := row];
      m := Some(row);
    }

    method IncrementRetry(id: Id) returns (m: Option<Message>)
      modifies this
      ensures old(Valid()) ==> Valid()
      ensures State() == S.IncrementRetry(old(State()), id)
      ensures m == S.Lookup(table, id) && cache == old(cache)
      ensures m.Some? <==> id in old(table)
      ensures table == if m.None? then old(table) else
                old(table)[id := old(table)[id].(status := Sent, retryCount := old(table)[id].retryCount + 1,
                                                 deliveredAt := None, processedAt := None, error := None)]
    {
      if id !in table {
        return None;
      }
      table := table[id := S.Retried(table[id])];
      m := Some(table[id]);
    }

    method DeleteExpired(before: int) returns (deleted: nat)
      modifies this
      ensures old(Valid()) ==> Valid()
      ensures State() == S.DeleteExpired(old(State()), before)
      ensures deleted == |set id | id in old(table) && S.DueBefore(old(table)[id], before)|
      ensures cache == old(cache) && deleted == |old(table)| - |table|
      ensures forall id | id in old(table) ::
                id in table <==> old(table)[id].expiresAt == None || before <= old(table)[id].expiresAt.value
      ensures table.Keys <= old(table).Keys
      ensures forall id | id in table :: table[id] == old(table)[id]
    {
      var due := set id | id in table && S.DueBefore(table[id], before);
      table := map id | id in table && id !in due :: table[id];
      deleted := |due|;
      assert old(table).Keys == table.Keys + due;
    }

    method GetPendingMessages(agent: AgentId, now: int, limit: nat) returns (ids: seq<Id>)
      ensures IsFirst(S.PendingKeys(table, agent, now), limit, ids)
      ensures S.IsPendingAnswer(table, agent, now, limit, ids)
    {
      ids := SelectFirst(S.PendingKeys(table, agent, now), limit);
      S.PendingAnswerIff(table, agent, now, limit, ids);
    }

    method GetFailedMessages(agent: AgentId, limit: nat) returns (ids: seq<Id>)
      ensures IsFirst(S.FailedKeys(table, agent), limit, ids)
      ensures S.IsFailedAnswer(table, agent, limit, ids)
    {
      ids := SelectFirst(S.FailedKeys(table, agent), limit);
      S.FailedAnswerIff(table, agent, limit, ids);
    }
  }
}
