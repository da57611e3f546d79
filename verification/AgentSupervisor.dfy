/** Agent instances supervised over an id-to-row store: spawning, the three
    recursive cascades (terminate, pause, resume) and the tree query. */
module AgentSupervision {
  import opened Options
  import opened WhitePaths

  datatype Status = Spawned | Starting | Running | Waiting | Paused | Completed | Failed | Terminated

  datatype Agent = Agent(
    parent: Option<Id>,
    children: seq<Id>,
    status: Status,
    startedAt: Option<nat>,
    updatedAt: nat,
    completedAt: Option<nat>,
    result: Option<string>,
    failure: Option<string>)

  type Rows = map<Id, Agent>

  predicate IsFinal(s: Status) {
    s in {Completed, Failed, Terminated}
  }

  ghost function Links(rows: Rows): Graph {
    map x | x in rows :: rows[x].children
  }

  ghost function WithStatus(rows: Rows, s: Status): set<Id> {
    set x | x in rows && rows[x].status == s
  }

  ghost function Live(rows: Rows): set<Id> {
    set x | x in rows && !IsFinal(rows[x].status)
  }

  /** The reason an agent records when it is terminated `depth` child links below the
      agent the caller named: each link prepends the parent's prefix. */
  const PARENT_TERMINATED := "Parent agent terminated: "

  function Inherited(reason: Option<string>): Option<string> {
    Some(PARENT_TERMINATED + if reason.Some? then reason.value else "None")
  }

  ghost function ReasonAt(reason: Option<string>, depth: nat): Option<string> {
    if depth == 0 then reason else Inherited(ReasonAt(reason, depth - 1))
  }

  lemma {:induction false} ReasonFromChild(reason: Option<string>, depth: nat)
    ensures ReasonAt(Inherited(reason), depth) == ReasonAt(reason, depth + 1)
  {
    if depth > 0 { ReasonFromChild(reason, depth - 1); }
  }

  function Repeated(prefix: string, times: nat): string {
    if times == 0 then "" else prefix + Repeated(prefix, times - 1)
  }

  /** The reason below the agent the caller named is the caller's text, or "None" where none was given,
      behind one prefix for each link. */
  lemma {:induction false} ReasonReads(reason: Option<string>, depth: nat)
    ensures ReasonAt(reason, 0) == reason
    ensures depth > 0 ==>
              ReasonAt(reason, depth)
                == Some(Repeated("Parent agent terminated: ", depth) + if reason.Some? then reason.value else "None")
  {
    if depth > 1 {
      ReasonReads(reason, depth - 1);
      var text := if reason.Some? then reason.value else "None";
      assert PARENT_TERMINATED + (Repeated(PARENT_TERMINATED, depth - 1) + text)
          == (PARENT_TERMINATED + Repeated(PARENT_TERMINATED, depth - 1)) + text;
    } else if depth == 1 {
      assert ReasonAt(reason, 0) == reason;
      assert Repeated(PARENT_TERMINATED, 1) == PARENT_TERMINATED;
    }
  }

  /** How one row looks before and after a cascade has changed it. */
  ghost predicate Changed(a: Agent, b: Agent, to: Status, t0: nat, t1: nat) {
    && b == a.(status := to, updatedAt := b.updatedAt, completedAt := b.completedAt, failure := b.failure)
    && t0 <= b.updatedAt <= t1
    && if to == Terminated
       then b.completedAt.Some? && t0 <= b.completedAt.value <= b.updatedAt
       else b.completedAt == a.completedAt && b.failure == a.failure
  }

  /** A cascade moved exactly the rows of `hit` to `to` and left every other row as it was. */
  ghost predicate Swept(before: Rows, after: Rows, hit: set<Id>, to: Status, t0: nat, t1: nat) {
    && after.Keys == before.Keys
    && (forall x | x in before :: if x in hit then Changed(before[x], after[x], to, t0, t1)
                                  else after[x] == before[x])
  }

  /** Every terminated agent's recorded reason is the caller's, wrapped once for each
      link of a live path from a start agent to it. */
  ghost predicate Explained(g: Graph, live: set<Id>, from: set<Id>, after: Rows, hit: set<Id>, reason: Option<string>) {
    forall x | x in hit && x in after :: IsExplained(g, live, from, after[x].failure, x, reason)
  }

  ghost predicate IsExplained(g: Graph, live: set<Id>, from: set<Id>, failure: Option<string>, x: Id,
                              reason: Option<string>) {
    exists p :: Connects(g, live, from, p, x) && failure == ReasonAt(reason, |p| - 1)
  }

  /** What terminating the agents of `from` has done: exactly the agents reachable from them along
      live agents are terminated, with their reasons. */
  ghost predicate Felled(g: Graph, live: set<Id>, from: set<Id>, before: Rows, after: Rows, reason: Option<string>,
                         t0: nat, t1: nat) {
    && Swept(before, after, Reach(g, live, from), Terminated, t0, t1)
    && Explained(g, live, from, after, Reach(g, live, from), reason)
  }

  lemma SweepsCompose(a: Rows, b: Rows, c: Rows, first: set<Id>, second: set<Id>, to: Status,
                      t0: nat, t1: nat, t2: nat, t3: nat)
    requires Swept(a, b, first, to, t0, t1) && Swept(b, c, second, to, t2, t3)
    requires first !! second && t0 <= t2 && t1 <= t3
    ensures Swept(a, c, first + second, to, t0, t3)
    ensures Links(c) == Links(a)
  {
    forall x | x in a ensures c[x].children == a[x].children {
    }
  }

  lemma ReachIsWhite(g: Graph, white: set<Id>, from: set<Id>)
    ensures Reach(g, white, from) <= white
  {
  }

  // ---------------------------------------------------------------------------
  // What holds between any two states of the store
  // ---------------------------------------------------------------------------

  /** A completion time is recorded exactly on agents that are finished for good. */
  ghost predicate TimesMatch(rows: Rows) {
    forall x | x in rows :: rows[x].completedAt.Some? <==> IsFinal(rows[x].status)
  }

  /** No row disappears or changes its parent, and a finished agent keeps its status,
      completion time, result and failure; `spawn` alone may still extend its child list. */
  ghost predicate Evolves(before: Rows, after: Rows) {
    forall x | x in before ::
      && x in after
      && after[x].parent == before[x].parent
      && before[x].children <= after[x].children
      && (IsFinal(before[x].status) ==>
            after[x] == before[x].(children := after[x].children, updatedAt := after[x].updatedAt))
  }

  ghost predicate NoRepeats(ids: seq<Id>) {
    forall i, j | 0 <= i < j < |ids| :: ids[i] != ids[j]
  }

  /** The child list of `p` holds each agent naming it as parent, once, and nothing else. */
  ghost predicate ListsChildren(rows: Rows, p: Id)
    requires p in rows
  {
    && NoRepeats(rows[p].children)
    && forall c :: c in rows[p].children <==> c in rows && rows[c].parent == Some(p)
  }

  ghost predicate ChildrenMatch(rows: Rows) {
    forall p {:trigger ListsChildren(rows, p)} | p in rows :: ListsChildren(rows, p)
  }

  /** No agent is its own descendant. */
  ghost predicate Acyclic(rows: Rows) {
    forall p | IsPath(Links(rows), rows.Keys, p) && |p| > 1 :: p[0] != p[|p| - 1]
  }

  ghost predicate IsForest(rows: Rows) {
    TimesMatch(rows) && ChildrenMatch(rows) && Acyclic(rows) && "" !in rows
  }

  /** What a generated identifier promises: nobody has used or named it before. */
  ghost predicate IsFresh(rows: Rows, id: Id) {
    && id != "" && id !in rows
    && forall x | x in rows :: rows[x].parent != Some(id) && id !in rows[x].children
  }

  /** The whole effect of `spawn`: the new row, and the parent's list when the parent exists. */
  ghost predicate SpawnStep(before: Rows, after: Rows, id: Id, parent: Option<Id>) {
    && after.Keys == before.Keys + {id}
    && after[id].status == Spawned && after[id].parent == parent && after[id].children == []
    && after[id].completedAt.None?
    && forall x | x in before :: if parent == Some(x) && x != ""
         then after[x] == before[x].(children := before[x].children + [id], updatedAt := after[x].updatedAt)
         else after[x] == before[x]
  }

  /** Spawning with a fresh identifier keeps the child lists exact and the forest acyclic. */
  lemma SpawnKeepsForest(rows: Rows, after: Rows, id: Id, parent: Option<Id>)
    requires IsForest(rows) && IsFresh(rows, id) && parent != Some(id)
    requires SpawnStep(rows, after, id, parent)
    ensures IsForest(after) && Evolves(rows, after)
  {
    SpawnKeepsChildren(rows, after, id, parent);
    SpawnKeepsAcyclic(rows, after, id, parent);
    forall x | x in rows ensures rows[x].children <= after[x].children && after[x].parent == rows[x].parent {
    }
  }

  lemma SpawnKeepsAcyclic(rows: Rows, after: Rows, id: Id, parent: Option<Id>)
    requires Acyclic(rows) && id !in rows && parent != Some(id)
    requires SpawnStep(rows, after, id, parent)
    ensures Acyclic(after)
  {
    forall p | IsPath(Links(after), after.Keys, p) && |p| > 1 ensures p[0] != p[|p| - 1] {
      SpawnAddsNoCycle(rows, after, id, parent, p);
    }
  }

  lemma SpawnKeepsChildren(rows: Rows, after: Rows, id: Id, parent: Option<Id>)
    requires ChildrenMatch(rows) && "" !in rows && IsFresh(rows, id) && parent != Some(id)
    requires SpawnStep(rows, after, id, parent)
    ensures ChildrenMatch(after)
  {
    forall p | p in after ensures ListsChildren(after, p) {
      if p in rows {
        assert ListsChildren(rows, p);
      }
    }
  }

  /** The new agent has no children, so it can only be the last node of a path. */
  lemma SpawnAddsNoCycle(rows: Rows, after: Rows, id: Id, parent: Option<Id>, p: seq<Id>)
    requires Acyclic(rows) && id !in rows && parent != Some(id)
    requires SpawnStep(rows, after, id, parent)
    requires IsPath(Links(after), after.Keys, p) && |p| > 1
    ensures p[0] != p[|p| - 1]
  {
    forall i | 0 <= i < |p| - 1 ensures p[i] != id {
      assert p[i + 1] in Links(after)[p[i]];
    }
    if p[|p| - 1] != id {
      forall i | 0 < i < |p| ensures p[i] in Links(rows)[p[i - 1]] {
        assert p[i] in Links(after)[p[i - 1]];
        OldLink(rows, after, id, parent, p[i - 1], p[i]);
      }
      assert IsPath(Links(rows), rows.Keys, p);
    }
  }

  lemma OldLink(rows: Rows, after: Rows, id: Id, parent: Option<Id>, x: Id, y: Id)
    requires SpawnStep(rows, after, id, parent) && x in rows && y != id && y in after[x].children
    ensures y in rows[x].children
  {
  }

  /** A cascade changes no link, so it keeps the forest. */
  lemma SweepKeepsForest(before: Rows, after: Rows, hit: set<Id>, to: Status, t0: nat, t1: nat)
    requires Swept(before, after, hit, to, t0, t1)
    requires hit <= Live(before) && to in {Paused, Running, Terminated}
    ensures IsForest(before) ==> IsForest(after)
    ensures Evolves(before, after)
  {
    LinksKeepForest(before, after);
  }

  /** A change that touches no link and keeps completion times right keeps the forest. */
  lemma LinksKeepForest(before: Rows, after: Rows)
    requires after.Keys == before.Keys
    requires forall x | x in before :: after[x].children == before[x].children && after[x].parent == before[x].parent
    ensures IsForest(before) && TimesMatch(after) ==> IsForest(after)
  {
    assert Links(after) == Links(before);
    forall p | ChildrenMatch(before) && p in after ensures ListsChildren(after, p) {
      assert ListsChildren(before, p);
    }
  }

  // ---------------------------------------------------------------------------
  // Pause followed by resume
  // ---------------------------------------------------------------------------

  /** No agent the pause stopped has a child that was already paused before it. */
  ghost predicate NoPausedBelow(rows: Rows, root: Id) {
    forall x, c | x in Reach(Links(rows), WithStatus(rows, Running), {root}) && x in rows && c in rows[x].children ::
      c !in WithStatus(rows, Paused)
  }

  /** The agents a resume starts after a pause of the same root: those the pause stopped, and
      those that were paused before and hang below them through paused agents only. */
  lemma ResumeAfterPause(before: Rows, root: Id) returns (stopped: set<Id>, started: set<Id>)
    requires root in before && before[root].status == Running
    ensures stopped == Reach(Links(before), WithStatus(before, Running), {root})
    ensures started == Reach(Links(before), WithStatus(before, Paused) + stopped, {root})
    ensures stopped <= started <= stopped + WithStatus(before, Paused)
    ensures started == stopped <==> NoPausedBelow(before, root)
  {
    var g := Links(before);
    var running, paused := WithStatus(before, Running), WithStatus(before, Paused);
    stopped := Reach(g, running, {root});
    started := Reach(g, paused + stopped, {root});
    forall x | x in stopped ensures x in started {
      var p :| Connects(g, running, {root}, p, x);
      forall i | 0 <= i < |p| ensures p[i] in stopped {
        assert Connects(g, running, {root}, p[..i + 1], p[i]);
      }
      assert Connects(g, paused + stopped, {root}, p, x);
    }
    if x, c :| x in stopped && x in before && c in before[x].children && c in paused {
      var p :| Connects(g, paused + stopped, {root}, p, x);
      JoinPaths(g, paused + stopped, {root}, p, [x, c], c);
      assert c in started && c !in running;
    } else {
      forall x | x in started ensures x in stopped {
        var p :| Connects(g, paused + stopped, {root}, p, x);
        assert Connects(g, running, {root}, [root], root);
        StaysInside(before, root, p, |p| - 1);
      }
    }
  }

  lemma {:induction false} StaysInside(before: Rows, root: Id, p: seq<Id>, i: nat)
    requires root in before && before[root].status == Running && NoPausedBelow(before, root)
    requires i < |p| && p[0] == root
    requires IsPath(Links(before),
                    WithStatus(before, Paused) + Reach(Links(before), WithStatus(before, Running), {root}), p)
    ensures p[i] in Reach(Links(before), WithStatus(before, Running), {root})
  {
    if i == 0 {
      assert Connects(Links(before), WithStatus(before, Running), {root}, [root], root);
    } else {
      StaysInside(before, root, p, i - 1);
      assert p[i] in Links(before)[p[i - 1]];
    }
  }

  /** Pausing a running agent and resuming it sets exactly `started` running. Every status is
      back to what it was if and only if no just-paused agent had an already paused child. */
  lemma PauseThenResume(before: Rows, mid: Rows, after: Rows, root: Id, t0: nat, t1: nat, t2: nat, t3: nat)
    requires root in before && before[root].status == Running
    requires Swept(before, mid, Reach(Links(before), WithStatus(before, Running), {root}), Paused, t0, t1)
    requires Swept(mid, after, Reach(Links(mid), WithStatus(mid, Paused), {root}), Running, t2, t3)
    ensures after.Keys == before.Keys
    ensures var stopped := Reach(Links(before), WithStatus(before, Running), {root});
            var started := Reach(Links(before), WithStatus(before, Paused) + stopped, {root});
            forall x | x in before :: after[x].status == if x in started then Running else before[x].status
    ensures (forall x | x in before :: after[x].status == before[x].status) <==> NoPausedBelow(before, root)
  {
    var stopped, started := ResumeAfterPause(before, root);
    assert forall x | x in before :: mid[x].children == before[x].children;
    assert Links(mid) == Links(before);
    assert WithStatus(mid, Paused) == WithStatus(before, Paused) + stopped;
    if started != stopped {
      var x :| x in started && x !in stopped;
      assert before[x].status == Paused && after[x].status == Running;
    }
  }

  // ---------------------------------------------------------------------------
  // The supervisor
  // ---------------------------------------------------------------------------

  class AgentSupervisor {
    var rows: Rows
    var clock: nat

    constructor ()
      ensures rows == map[]
    {
      rows, clock := map[], 0;
    }

    /** Reads the wall clock, which never runs backwards. */
    method Now() returns (t: nat)
      modifies this`clock
      ensures old(clock) <= t == clock
    {
      var passed: nat :| true;
      clock := clock + passed;
      t := clock;
    }

    method Spawn(id: Id, parent: Option<Id>) returns (agent: Agent)
      requires id !in rows && parent != Some(id)
      modifies this
      ensures SpawnStep(old(rows), rows, id, parent) && rows[id] == agent
      ensures agent == Agent(parent, [], Spawned, None, agent.updatedAt, None, None, None)
      ensures old(clock) <= agent.updatedAt <= clock
      ensures Evolves(old(rows), rows)
      ensures old(IsForest(rows) && IsFresh(rows, id)) ==> IsForest(rows)
    {
      var now := Now();
      agent := Agent(parent, [], Spawned, None, now, None, None, None);
      rows := rows[id := agent];
      if parent.Some? && parent.value != "" {
        if parent.value in rows {
          var p := rows[parent.value];
          var later := Now();
          rows := rows[parent.value := p.(children := p.children + [id], updatedAt := later)];
        }
      }
      if IsForest(old(rows)) && IsFresh(old(rows), id) {
        SpawnKeepsForest(old(rows), rows, id, parent);
      }
    }

    method Start(id: Id) returns (agent: Option<Agent>)
      modifies this
      ensures agent.Some? <==> id in old(rows) && old(rows)[id].status == Spawned
      ensures agent.None? ==> rows == old(rows)
      ensures agent.Some? ==> agent.value.status == Running && agent.value.startedAt.Some?
                              && rows == old(rows)[id := agent.value]
                              && agent.value == old(rows)[id].(status := Running, startedAt := agent.value.startedAt,
                                                               updatedAt := agent.value.updatedAt)
      ensures agent.Some? ==> old(clock) <= agent.value.startedAt.value <= agent.value.updatedAt <= clock
      ensures Evolves(old(rows), rows)
      ensures old(IsForest(rows)) ==> IsForest(rows)
    {
      if id !in rows || rows[id].status != Spawned {
        return None;
      }
      var now := Now();
      rows := rows[id := rows[id].(status := Starting, updatedAt := now)];
      var started := Now();
      rows := rows[id := rows[id].(status := Running, startedAt := Some(started), updatedAt := started)];
      agent := Some(rows[id]);
      LinksKeepForest(old(rows), rows);
    }

    method Complete(id: Id, result: Option<string>) returns (agent: Option<Agent>)
      modifies this
      ensures agent.Some? <==> id in old(rows) && old(rows)[id].status == Running
      ensures agent.None? ==> rows == old(rows)
      ensures agent.Some? ==> rows == old(rows)[id := agent.value] && agent.value.completedAt.Some?
                              && agent.value == old(rows)[id].(status := Completed, result := result,
                                                               completedAt := agent.value.completedAt,
                                                               updatedAt := agent.value.updatedAt)
      ensures agent.Some? ==> old(clock) <= agent.value.completedAt.value <= agent.value.updatedAt <= clock
      ensures Evolves(old(rows), rows)
      ensures old(IsForest(rows)) ==> IsForest(rows)
    {
      if id !in rows || rows[id].status != Running {
        return None;
      }
      var now := Now();
      rows := rows[id := rows[id].(status := Completed, completedAt := Some(now), result := result, updatedAt := now)];
      agent := Some(rows[id]);
      LinksKeepForest(old(rows), rows);
    }

    method Fail(id: Id, failure: string) returns (agent: Option<Agent>)
      modifies this
      ensures agent.Some? <==> id in old(rows) && old(rows)[id].status == Running
      ensures agent.None? ==> rows == old(rows)
      ensures agent.Some? ==> rows == old(rows)[id := agent.value] && agent.value.completedAt.Some?
                              && agent.value == old(rows)[id].(status := Failed, failure := Some(failure),
                                                               completedAt := agent.value.completedAt,
                                                               updatedAt := agent.value.updatedAt)
      ensures agent.Some? ==> old(clock) <= agent.value.completedAt.value <= agent.value.updatedAt <= clock
      ensures Evolves(old(rows), rows)
      ensures old(IsForest(rows)) ==> IsForest(rows)
    {
      if id !in rows || rows[id].status != Running {
        return None;
      }
      var now := Now();
      rows := rows[id := rows[id].(status := Failed, completedAt := Some(now), failure := Some(failure),
                                   updatedAt := now)];
      agent := Some(rows[id]);
      LinksKeepForest(old(rows), rows);
    }

    /** Terminates exactly the agents reachable along live agents, whatever the child lists
        look like; the recursion ends because every acting call leaves fewer live agents. */
    method Terminate(id: Id, reason: Option<string>) returns (agent: Option<Agent>)
      modifies this
      ensures old(clock) <= clock
      ensures agent.Some? <==> id in Live(old(rows))
      ensures agent.Some? ==> agent.value.status == Terminated && agent.value.failure == reason
      ensures agent.Some? ==> id in rows && agent.value == rows[id]
      ensures Felled(Links(old(rows)), Live(old(rows)), {id}, old(rows), rows, reason, old(clock), clock)
      ensures Evolves(old(rows), rows)
      ensures old(IsForest(rows)) ==> IsForest(rows)
      decreases Live(rows), 0
    {
      ghost var g, live := Links(rows), Live(rows);
      if id !in rows || IsFinal(rows[id].status) {
        ReachNothing(g, live, id);
        return None;
      }
      var done := Now();
      var now := Now();
      var felled := rows[id].(status := Terminated, failure := reason, completedAt := Some(done), updatedAt := now);
      agent := Some(felled);
      rows := rows[id := felled];
      ghost var mid, midClock := rows, clock;
      SweepOne(old(rows), id, felled, Terminated, old(clock), midClock);
      LiveAfter(old(rows), mid, {id}, old(clock), midClock);
      TerminateAll(felled.children, Inherited(reason));
      FellRoot(g, live, old(rows), mid, rows, id, reason, old(clock), midClock, clock);
    }

    /** The loop over the children. */
    method TerminateAll(kids: seq<Id>, reason: Option<string>)
      modifies this
      ensures old(clock) <= clock
      ensures Felled(Links(old(rows)), Live(old(rows)), Members(kids), old(rows), rows, reason, old(clock), clock)
      decreases Live(rows), 1
    {
      ghost var g, live, start, t := Links(rows), Live(rows), rows, clock;
      for i := 0 to |kids|
        invariant t <= clock && Live(rows) <= live
        invariant Felled(g, live, Members(kids[..i]), start, rows, reason, t, clock)
      {
        ghost var here, hereClock := rows, clock;
        LiveAfter(start, here, Reach(g, live, Members(kids[..i])), t, clock);
        var child := Terminate(kids[i], reason);
        FellChild(g, live, start, here, rows, kids, i, t, hereClock, clock, reason);
        LiveAfter(start, rows, Reach(g, live, Members(kids[..i + 1])), t, clock);
      }
      assert kids[..|kids|] == kids;
    }

    /** Pauses exactly the agents reachable along running agents. */
    method Pause(id: Id) returns (agent: Option<Agent>)
      modifies this
      ensures old(clock) <= clock
      ensures agent.Some? <==> id in WithStatus(old(rows), Running)
      ensures agent.Some? ==> id in rows && agent.value == rows[id]
      ensures Swept(old(rows), rows, Reach(Links(old(rows)), WithStatus(old(rows), Running), {id}), Paused,
                    old(clock), clock)
      ensures Evolves(old(rows), rows)
      ensures old(IsForest(rows)) ==> IsForest(rows)
      decreases WithStatus(rows, Running)
    {
      ghost var g, white := Links(rows), WithStatus(rows, Running);
      if id !in rows || rows[id].status != Running {
        ReachNothing(g, white, id);
        return None;
      }
      var now := Now();
      agent := Some(rows[id].(status := Paused, updatedAt := now));
      rows := rows[id := agent.value];
      ghost var mid, midClock := rows, clock;
      SweepOne(old(rows), id, agent.value, Paused, old(clock), midClock);
      StatusAfter(old(rows), mid, {id}, Running, Paused, old(clock), midClock);
      var kids := agent.value.children;
      ghost var swept: set<Id> := {};
      for i := 0 to |kids|
        invariant midClock <= clock
        invariant swept == Reach(g, white - {id}, Members(kids[..i]))
        invariant Swept(mid, rows, swept, Paused, midClock, clock)
      {
        ghost var here, hereClock := rows, clock;
        StatusAfter(mid, here, swept, Running, Paused, midClock, clock);
        assert WithStatus(rows, Running) <= white - {id};
        var child := Pause(kids[i]);
        SweepChild(g, white - {id}, mid, here, rows, kids, i, Paused, midClock, hereClock, clock);
        swept := Reach(g, white - {id}, Members(kids[..i + 1]));
      }
      assert kids[..|kids|] == kids;
      SweepRoot(g, white, old(rows), mid, rows, id, Paused, old(clock), midClock, clock);
      SweepKeepsForest(old(rows), rows, Reach(g, white, {id}), Paused, old(clock), clock);
    }

    /** Resumes exactly the agents reachable along paused agents. */
    method Resume(id: Id) returns (agent: Option<Agent>)
      modifies this
      ensures old(clock) <= clock
      ensures agent.Some? <==> id in WithStatus(old(rows), Paused)
      ensures agent.Some? ==> id in rows && agent.value == rows[id]
      ensures Swept(old(rows), rows, Reach(Links(old(rows)), WithStatus(old(rows), Paused), {id}), Running,
                    old(clock), clock)
      ensures Evolves(old(rows), rows)
      ensures old(IsForest(rows)) ==> IsForest(rows)
      decreases WithStatus(rows, Paused)
    {
      ghost var g, white := Links(rows), WithStatus(rows, Paused);
      if id !in rows || rows[id].status != Paused {
        ReachNothing(g, white, id);
        return None;
      }
      var now := Now();
      agent := Some(rows[id].(status := Running, updatedAt := now));
      rows := rows[id := agent.value];
      ghost var mid, midClock := rows, clock;
      SweepOne(old(rows), id, agent.value, Running, old(clock), midClock);
      StatusAfter(old(rows), mid, {id}, Paused, Running, old(clock), midClock);
      var kids := agent.value.children;
      ghost var swept: set<Id> := {};
      for i := 0 to |kids|
        invariant midClock <= clock
        invariant swept == Reach(g, white - {id}, Members(kids[..i]))
        invariant Swept(mid, rows, swept, Running, midClock, clock)
      {
        ghost var here, hereClock := rows, clock;
        StatusAfter(mid, here, swept, Paused, Running, midClock, clock);
        assert WithStatus(rows, Paused) <= white - {id};
        var child := Resume(kids[i]);
        SweepChild(g, white - {id}, mid, here, rows, kids, i, Running, midClock, hereClock, clock);
        swept := Reach(g, white - {id}, Members(kids[..i + 1]));
      }
      assert kids[..|kids|] == kids;
      SweepRoot(g, white, old(rows), mid, rows, id, Running, old(clock), midClock, clock);
      SweepKeepsForest(old(rows), rows, Reach(g, white, {id}), Running, old(clock), clock);
    }

    /** The rows naming `id` as their parent, in whatever order the table returns them. */
    method ListByParent(id: Id) returns (ids: seq<Id>)
      ensures forall c :: c in ids <==> c in rows && rows[c].parent == Some(id)
      ensures NoRepeats(ids)
    {
      ids := [];
      var rest := rows.Keys;
      while rest != {}
        invariant rest <= rows.Keys
        invariant forall c :: c in ids <==> c in rows.Keys - rest && rows[c].parent == Some(id)
        invariant NoRepeats(ids)
        decreases rest
      {
        var c :| c in rest;
        rest := rest - {c};
        if rows[c].parent == Some(id) { ids := ids + [c]; }
      }
    }

    /** Walks the whole tree below `id`. It ends because, in a forest, a child has strictly
        fewer descendants; the list it rebuilds holds the stored children, each once. */
    method BuildTree(id: Id) returns (agent: Agent)
      requires IsForest(rows) && id in rows
      ensures agent == rows[id].(children := agent.children)
      ensures multiset(agent.children) == multiset(rows[id].children)
      decreases Reach(Links(rows), rows.Keys, {id})
    {
      var kids := ListByParent(id);
      assert ListsChildren(rows, id);
      SameElements(kids, rows[id].children);
      agent := rows[id].(children := kids);
      for i := 0 to |kids| {
        assert kids[i] in rows[id].children;
        FewerDescendants(rows, id, kids[i]);
        var child := BuildTree(kids[i]);
      }
    }

    method GetAgentTree(id: Id) returns (agent: Option<Agent>)
      requires IsForest(rows)
      ensures agent.Some? <==> id in rows
      ensures agent.Some? ==> multiset(agent.value.children) == multiset(rows[id].children)
      ensures agent.Some? ==> agent.value == rows[id].(children := agent.value.children)
    {
      if id !in rows {
        return None;
      }
      var root := BuildTree(id);
      agent := Some(root);
    }
  }

  // ---------------------------------------------------------------------------
  // Steps of the cascade proofs
  // ---------------------------------------------------------------------------

  lemma LiveAfter(before: Rows, after: Rows, hit: set<Id>, t0: nat, t1: nat)
    requires Swept(before, after, hit, Terminated, t0, t1)
    ensures Live(after) == Live(before) - hit && Links(after) == Links(before)
  {
    forall x | x in before ensures after[x].children == before[x].children {
    }
  }

  lemma StatusAfter(before: Rows, after: Rows, hit: set<Id>, acting: Status, to: Status, t0: nat, t1: nat)
    requires Swept(before, after, hit, to, t0, t1) && acting != to
    ensures WithStatus(after, acting) == WithStatus(before, acting) - hit && Links(after) == Links(before)
  {
    forall x | x in before ensures after[x].children == before[x].children {
    }
  }

  /** One row swept. */
  lemma SweepOne(rows: Rows, id: Id, changed: Agent, to: Status, t0: nat, t1: nat)
    requires id in rows && Changed(rows[id], changed, to, t0, t1)
    ensures Swept(rows, rows[id := changed], {id}, to, t0, t1)
  {
  }

  /** One more child swept. */
  lemma SweepChild(g: Graph, white: set<Id>, mid: Rows, here: Rows, after: Rows, kids: seq<Id>, i: nat, to: Status,
                   t0: nat, t1: nat, t2: nat)
    requires i < |kids| && t0 <= t1 <= t2
    requires Swept(mid, here, Reach(g, white, Members(kids[..i])), to, t0, t1)
    requires Swept(here, after, Reach(g, white - Reach(g, white, Members(kids[..i])), {kids[i]}), to, t1, t2)
    ensures Swept(mid, after, Reach(g, white, Members(kids[..i + 1])), to, t0, t2)
  {
    var swept := Reach(g, white, Members(kids[..i]));
    assert Members(kids[..i + 1]) == Members(kids[..i]) + {kids[i]};
    ReachSplit(g, white, Members(kids[..i]), kids[i]);
    ReachIsWhite(g, white - swept, {kids[i]});
    SweepsCompose(mid, here, after, swept, Reach(g, white - swept, {kids[i]}), to, t0, t1, t1, t2);
  }

  /** All children swept after the root itself. */
  lemma SweepRoot(g: Graph, white: set<Id>, before: Rows, mid: Rows, after: Rows, id: Id, to: Status,
                  t0: nat, t1: nat, t2: nat)
    requires id in white && id in g && t0 <= t1 <= t2
    requires Swept(before, mid, {id}, to, t0, t1)
    requires Swept(mid, after, Reach(g, white - {id}, Kids(g, id)), to, t1, t2)
    ensures Swept(before, after, Reach(g, white, {id}), to, t0, t2)
  {
    ReachStep(g, white, id);
    ReachIsWhite(g, white - {id}, Kids(g, id));
    SweepsCompose(before, mid, after, {id}, Reach(g, white - {id}, Kids(g, id)), to, t0, t1, t1, t2);
  }

  lemma ExplainChild(g: Graph, live: set<Id>, mid: Rows, here: Rows, after: Rows, kids: seq<Id>, i: nat,
                     t0: nat, t1: nat, t2: nat, reason: Option<string>)
    requires i < |kids| && t0 <= t1 <= t2
    requires Swept(mid, here, Reach(g, live, Members(kids[..i])), Terminated, t0, t1)
    requires Swept(here, after, Reach(g, live - Reach(g, live, Members(kids[..i])), {kids[i]}), Terminated, t1, t2)
    requires Explained(g, live, Members(kids[..i]), here, Reach(g, live, Members(kids[..i])), reason)
    requires Explained(g, live - Reach(g, live, Members(kids[..i])), {kids[i]}, after,
                       Reach(g, live - Reach(g, live, Members(kids[..i])), {kids[i]}), reason)
    ensures Explained(g, live, Members(kids[..i + 1]), after, Reach(g, live, Members(kids[..i + 1])), reason)
  {
    var swept := Reach(g, live, Members(kids[..i]));
    assert Members(kids[..i + 1]) == Members(kids[..i]) + {kids[i]};
    ReachSplit(g, live, Members(kids[..i]), kids[i]);
    ReachIsWhite(g, live - swept, {kids[i]});
    ExplainMore(g, live, Members(kids[..i]), kids[i], here, after, swept, Reach(g, live - swept, {kids[i]}), reason);
  }

  lemma ExplainMore(g: Graph, live: set<Id>, from: set<Id>, kid: Id, before: Rows, after: Rows,
                    hit: set<Id>, more: set<Id>, reason: Option<string>)
    requires Explained(g, live, from, before, hit, reason) && Explained(g, live - hit, {kid}, after, more, reason)
    requires after.Keys == before.Keys && forall x | x in before && x in hit :: after[x] == before[x]
    ensures Explained(g, live, from + {kid}, after, hit + more, reason)
  {
    forall x | x in hit + more && x in after
      ensures IsExplained(g, live, from + {kid}, after[x].failure, x, reason)
    {
      if x in hit {
        WiderExplanation(g, live, live, from, from + {kid}, after[x].failure, x, reason);
      } else {
        WiderExplanation(g, live - hit, live, {kid}, from + {kid}, after[x].failure, x, reason);
      }
    }
  }

  lemma WiderExplanation(g: Graph, white: set<Id>, wider: set<Id>, from: set<Id>, more: set<Id>,
                         failure: Option<string>, x: Id, reason: Option<string>)
    requires IsExplained(g, white, from, failure, x, reason) && white <= wider && from <= more
    ensures IsExplained(g, wider, more, failure, x, reason)
  {
    var p :| Connects(g, white, from, p, x) && failure == ReasonAt(reason, |p| - 1);
    WiderPath(g, white, wider, from, more, p, x);
  }

  lemma ExplainRoot(g: Graph, live: set<Id>, id: Id, after: Rows, hit: set<Id>, reason: Option<string>)
    requires id in live && id in g && id in after && after[id].failure == reason
    requires Explained(g, live - {id}, Kids(g, id), after, hit, Inherited(reason))
    ensures Explained(g, live, {id}, after, {id} + hit, reason)
  {
    forall x | x in {id} + hit && x in after
      ensures IsExplained(g, live, {id}, after[x].failure, x, reason)
    {
      if x == id {
        assert Connects(g, live, {id}, [id], id) && ReasonAt(reason, |[id]| - 1) == reason;
      } else {
        ExplainThrough(g, live, id, after[x].failure, x, reason);
      }
    }
  }

  lemma ExplainThrough(g: Graph, live: set<Id>, id: Id, failure: Option<string>, x: Id, reason: Option<string>)
    requires id in live && id in g && IsExplained(g, live - {id}, Kids(g, id), failure, x, Inherited(reason))
    ensures IsExplained(g, live, {id}, failure, x, reason)
  {
    var p :| Connects(g, live - {id}, Kids(g, id), p, x) && failure == ReasonAt(Inherited(reason), |p| - 1);
    Prepend(g, live, id, p, x);
    ReasonFromChild(reason, |p| - 1);
    assert Connects(g, live, {id}, [id] + p, x) && |[id] + p| - 1 == |p|;
  }

  /** One more child terminated. */
  lemma FellChild(g: Graph, live: set<Id>, mid: Rows, here: Rows, after: Rows, kids: seq<Id>, i: nat,
                  t0: nat, t1: nat, t2: nat, reason: Option<string>)
    requires i < |kids| && t0 <= t1 <= t2
    requires Felled(g, live, Members(kids[..i]), mid, here, reason, t0, t1)
    requires Felled(g, live - Reach(g, live, Members(kids[..i])), {kids[i]}, here, after, reason, t1, t2)
    ensures Felled(g, live, Members(kids[..i + 1]), mid, after, reason, t0, t2)
  {
    SweepChild(g, live, mid, here, after, kids, i, Terminated, t0, t1, t2);
    ExplainChild(g, live, mid, here, after, kids, i, t0, t1, t2, reason);
  }

  /** The whole cascade: the root first, then all its children. */
  lemma FellRoot(g: Graph, live: set<Id>, before: Rows, mid: Rows, after: Rows, id: Id, reason: Option<string>,
                 t0: nat, t1: nat, t2: nat)
    requires g == Links(before) && live == Live(before) && id in live && t0 <= t1 <= t2
    requires Swept(before, mid, {id}, Terminated, t0, t1) && mid[id].failure == reason
    requires Felled(g, live - {id}, Kids(g, id), mid, after, Inherited(reason), t1, t2)
    ensures Felled(g, live, {id}, before, after, reason, t0, t2)
    ensures Evolves(before, after)
    ensures IsForest(before) ==> IsForest(after)
  {
    SweepRoot(g, live, before, mid, after, id, Terminated, t0, t1, t2);
    assert after[id].failure == reason by { ReachIsWhite(g, live - {id}, Kids(g, id)); }
    ExplainAll(g, live, id, after, reason);
    assert Reach(g, live, {id}) <= live by { ReachIsWhite(g, live, {id}); }
    SweepKeepsForest(before, after, Reach(g, live, {id}), Terminated, t0, t2);
  }

  lemma ExplainAll(g: Graph, live: set<Id>, id: Id, after: Rows, reason: Option<string>)
    requires id in live && id in g && id in after && after[id].failure == reason
    requires Explained(g, live - {id}, Kids(g, id), after, Reach(g, live - {id}, Kids(g, id)), Inherited(reason))
    ensures Explained(g, live, {id}, after, Reach(g, live, {id}), reason)
  {
    ExplainRoot(g, live, id, after, Reach(g, live - {id}, Kids(g, id)), reason);
    ReachStep(g, live, id);
  }

  lemma FewerDescendants(rows: Rows, id: Id, kid: Id)
    requires IsForest(rows) && id in rows && kid in rows[id].children
    ensures kid in rows && Reach(Links(rows), rows.Keys, {kid}) < Reach(Links(rows), rows.Keys, {id})
  {
    var g := Links(rows);
    assert ListsChildren(rows, id);
    forall x | x in Reach(g, rows.Keys, {kid}) ensures x in Reach(g, rows.Keys, {id}) && x != id {
      var p :| Connects(g, rows.Keys, {kid}, p, x);
      var q := [id, kid] + p[1..];
      JoinPaths(g, rows.Keys, {id}, [id, kid], p, x);
      assert IsPath(g, rows.Keys, q) && |q| > 1 && q[0] == id && q[|q| - 1] == x;
      assert q[0] != q[|q| - 1];
    }
    assert Connects(g, rows.Keys, {id}, [id], id) && id !in Reach(g, rows.Keys, {kid});
  }

  lemma {:induction false} CountsOnce(a: seq<Id>, c: Id)
    requires NoRepeats(a)
    ensures multiset(a)[c] == if c in a then 1 else 0
  {
    if a != [] {
      var init, last := a[..|a| - 1], a[|a| - 1];
      assert a == init + [last];
      CountsOnce(init, c);
    }
  }

  /** Two lists without repeats and with the same members are permutations of each other. */
  lemma SameElements(a: seq<Id>, b: seq<Id>)
    requires Members(a) == Members(b) && NoRepeats(a) && NoRepeats(b)
    ensures multiset(a) == multiset(b)
  {
    forall c ensures multiset(a)[c] == multiset(b)[c] {
      CountsOnce(a, c);
      CountsOnce(b, c);
      assert c in a <==> c in Members(a);
      assert c in b <==> c in Members(b);
    }
  }
}
