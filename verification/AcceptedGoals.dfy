/** What the decomposer lets through to the translation, and what that makes of the task graph. */
module AcceptedGoals {
  import opened Options
  import opened DependencyOrders
  import opened GoalTranslation

  datatype DecompositionError =
    | NoGoals
    | ChatGoals(count: nat)
    | ChatNotLast
    | WrongDependencies(missing: set<GoalId>, unexpected: set<GoalId>)

  function ChatGoalsOf(goals: seq<Goal>): seq<Goal> {
    if goals == [] then []
    else ChatGoalsOf(goals[..|goals| - 1]) + if IsChat(goals[|goals| - 1]) then [goals[|goals| - 1]] else []
  }

  function IdsOf(goals: seq<Goal>): set<GoalId> {
    set g | g in goals :: g.id
  }

  function Listed(g: Goal): set<GoalId> {
    set b | b in g.dependsOn
  }

  /** The checks every decomposition passes before anything is made of it. */
  function Validate(goals: seq<Goal>): Result<(), DecompositionError> {
    if goals == [] then Err(NoGoals)
    else
      var chats := ChatGoalsOf(goals);
      if |chats| != 1 then Err(ChatGoals(|chats|))
      else if goals[|goals| - 1].id != chats[0].id then Err(ChatNotLast)
      else
        var expected, actual := IdsOf(goals[..|goals| - 1]), Listed(chats[0]);
        if expected - actual != {} || actual - expected != {}
        then Err(WrongDependencies(expected - actual, actual - expected))
        else Ok(())
  }

  /** For goals with different ids: the last goal, and no other, is a chat goal, and it lists exactly the
      other goals. */
  ghost predicate EndsInChat(goals: seq<Goal>) {
    && goals != [] && IsChat(goals[|goals| - 1])
    && (forall i | 0 <= i < |goals| - 1 :: !IsChat(goals[i]))
    && Listed(goals[|goals| - 1]) == IdsOf(goals[..|goals| - 1])
  }

  lemma {:induction false} ChatGoalsAre(goals: seq<Goal>)
    ensures forall g :: g in ChatGoalsOf(goals) <==> g in goals && IsChat(g)
    ensures |ChatGoalsOf(goals)| == 0 <==> forall i | 0 <= i < |goals| :: !IsChat(goals[i])
  {
    if goals != [] {
      ChatGoalsAre(goals[..|goals| - 1]);
      assert goals == goals[..|goals| - 1] + [goals[|goals| - 1]];
    }
  }

  /** What the checks amount to. */
  lemma ValidIff(goals: seq<Goal>)
    requires UniqueIds(goals)
    ensures Validate(goals).Ok? <==> EndsInChat(goals)
  {
    if goals != [] {
      var front, last := goals[..|goals| - 1], goals[|goals| - 1];
      ChatGoalsAre(goals);
      ChatGoalsAre(front);
      var chats := ChatGoalsOf(goals);
      if |chats| == 1 && chats[0].id == last.id {
        assert chats[0] in chats;
        var i :| 0 <= i < |goals| && goals[i] == chats[0];
        assert i == |goals| - 1;
        assert chats == ChatGoalsOf(front) + [last];
      }
      if EndsInChat(goals) {
        assert forall i | 0 <= i < |front| :: front[i] == goals[i];
        assert chats == [last];
      }
      assert forall x, y: set<GoalId> :: x - y == {} && y - x == {} <==> x == y by {
        forall x, y: set<GoalId> | x - y == {} && y - x == {} ensures x == y {
          assert forall e | e in x :: e !in x - y;
          assert forall e | e in y :: e !in y - x;
        }
      }
    }
  }

  /** A refusal says what is wrong: how many chat goals there are instead of one, or which goals the chat
      goal leaves out and which it lists beside them. */
  lemma RefusalTells(goals: seq<Goal>)
    ensures Validate(goals) == Err(NoGoals) <==> goals == []
    ensures Validate(goals).Err? && Validate(goals).error.ChatGoals? ==>
              |ChatGoalsOf(goals)| == Validate(goals).error.count != 1
    ensures Validate(goals).Err? && Validate(goals).error.WrongDependencies? ==>
              var e, chat, others := Validate(goals).error, ChatGoalsOf(goals)[0], goals[..|goals| - 1];
              && (forall x :: x in e.missing <==> (exists g :: g in others && g.id == x) && x !in chat.dependsOn)
              && (forall x :: x in e.unexpected <==> x in chat.dependsOn && !exists g :: g in others && g.id == x)
              && e.missing + e.unexpected != {}
  {
  }

  /** In accepted goals all but the chat goal have a task, and it lists all of them. */
  lemma ChatListsAll(goals: seq<Goal>)
    requires UniqueIds(goals) && EndsInChat(goals)
    ensures var c := goals[|goals| - 1].id;
            && c !in TaskGoals(goals) && GoalIds(goals) == TaskGoals(goals) + {c}
            && (forall b :: (c, b) in GoalEdges(goals) <==> b in TaskGoals(goals))
  {
    var front, last := goals[..|goals| - 1], goals[|goals| - 1];
    forall b ensures b in TaskGoals(goals) <==> b in IdsOf(front) {
      if b in TaskGoals(goals) {
        var i :| 0 <= i < |goals| && !IsChat(goals[i]) && goals[i].id == b;
        assert front[i] == goals[i] && front[i] in front;
      }
    }
    assert last in goals;
    forall b ensures b in GoalIds(goals) <==> b in TaskGoals(goals) || b == last.id {
      if g :| g in goals && g.id == b {
        assert !IsChat(g) || g == last;
      }
    }
    forall g | g in goals && g.id == last.id ensures g == last {
      var i :| 0 <= i < |goals| && goals[i] == g;
    }
    forall b ensures (last.id, b) in GoalEdges(goals) <==> b in TaskGoals(goals) {
      assert b in Listed(last) <==> b in last.dependsOn;
    }
  }

  /** No goal that gets a task lists the chat goal. */
  ghost predicate NobodyListsChat(goals: seq<Goal>)
    requires goals != []
  {
    forall e | e in GoalEdges(goals) :: e.1 != goals[|goals| - 1].id
  }

  /** An accepted request is free of cycles exactly when its task graph is and nobody lists the chat goal. */
  lemma AcceptedAcyclicIff(goals: seq<Goal>)
    requires UniqueIds(goals) && EndsInChat(goals)
    ensures Acyclic(GoalEdges(goals))
       <==> Acyclic(Within(GoalEdges(goals), TaskGoals(goals))) && NobodyListsChat(goals)
  {
    var edges, kept, c := GoalEdges(goals), TaskGoals(goals), goals[|goals| - 1].id;
    ChatListsAll(goals);
    if Acyclic(edges) {
      WithinAcyclic(edges, kept);
      forall e | e in edges ensures e.1 != c {
        if e.1 == c {
          assert e.0 in GoalIds(goals) && (c, c) !in edges;
          EdgeIsNeed(edges, e.0, c);
          EdgeIsNeed(edges, c, e.0);
          NeedsJoin(edges, e.0, c, e.0);
        }
      }
    } else if NobodyListsChat(goals) {
      var x :| Needs(edges, x, x);
      var p :| Chains(edges, p, x, x);
      CycleAvoidsChat(goals, p);
      assert Chains(Within(edges, kept), p, x, x) && Needs(Within(edges, kept), x, x);
    }
  }

  lemma CycleAvoidsChat(goals: seq<Goal>, p: seq<GoalId>)
    requires UniqueIds(goals) && EndsInChat(goals) && NobodyListsChat(goals)
    requires IsChain(GoalEdges(goals), p) && p[0] == p[|p| - 1]
    ensures IsChain(Within(GoalEdges(goals), TaskGoals(goals)), p)
  {
    var edges, c := GoalEdges(goals), goals[|goals| - 1].id;
    ChatListsAll(goals);
    forall i | 0 <= i < |p| ensures p[i] in TaskGoals(goals) {
      var k := if i == 0 then |p| - 1 else i;
      assert (p[k - 1], p[k]) in edges;
    }
    forall i | 0 < i < |p| ensures (p[i - 1], p[i]) in Within(edges, TaskGoals(goals)) {
      assert (p[i - 1], p[i]) in edges;
    }
  }

  /** An accepted request without cycles loses no need with its chat goal. */
  lemma AcceptedKeepsNeeds(goals: seq<Goal>)
    requires UniqueIds(goals) && EndsInChat(goals) && Acyclic(GoalEdges(goals))
    ensures KeepsNeeds(GoalEdges(goals), TaskGoals(goals))
  {
    AcceptedAcyclicIff(goals);
    ChatListsAll(goals);
    forall e | e in GoalEdges(goals) && e.0 in TaskGoals(goals) ensures e.1 in TaskGoals(goals) {
      assert e.1 in GoalIds(goals);
    }
    NoDroppedNeeds(GoalEdges(goals), TaskGoals(goals));
  }

  /** So every order of its tasks is what some order of its goals leaves. */
  lemma AcceptedOrdersExtend(goals: seq<Goal>, t: Translation, o: seq<TaskId>)
    requires UniqueIds(goals) && Validate(goals).Ok? && Acyclic(GoalEdges(goals))
    requires IsTranslation(goals, t) && IsTaskOrder(t, o)
    ensures exists g :: IsGoalOrder(goals, g) && TasksOf(g, t.taskOf) == o
  {
    ValidIff(goals);
    AcceptedKeepsNeeds(goals);
    TaskOrdersExtendIff(goals, t);
  }

  /** The tasks can be put in an order exactly when the non-chat goals have no cycle among themselves. */
  lemma TaskOrderExistsIff(goals: seq<Goal>, t: Translation)
    requires IsTranslation(goals, t)
    ensures (exists o :: IsTaskOrder(t, o)) <==> Acyclic(Within(GoalEdges(goals), TaskGoals(goals)))
  {
    var kept, inner := TaskGoals(goals), Within(GoalEdges(goals), TaskGoals(goals));
    OrderExistsIff(kept, inner);
    if o :| IsTaskOrder(t, o) {
      assert forall x | x in o :: x in Members(o);
      NamesOrder(goals, t, o);
      assert IsOrder(Names(t.tasks, o), kept, inner);
    }
    if u :| IsOrder(u, kept, inner) {
      var o := TasksOf(u, t.taskOf);
      FilterAll(u, kept);
      TasksOfFilter(goals, t, u);
      NamesOrder(goals, t, o);
      assert IsTaskOrder(t, o);
    }
  }

  /** For every accepted request: all orders of its tasks come from orders of its goals if and only if it
      has no cycle, or its tasks have no order at all. */
  lemma AcceptedOrdersExtendIff(goals: seq<Goal>, t: Translation)
    requires UniqueIds(goals) && Validate(goals).Ok? && IsTranslation(goals, t)
    ensures (forall o | IsTaskOrder(t, o) :: exists g :: IsGoalOrder(goals, g) && TasksOf(g, t.taskOf) == o)
       <==> Acyclic(GoalEdges(goals)) || !Acyclic(Within(GoalEdges(goals), TaskGoals(goals)))
  {
    TaskOrderExistsIff(goals, t);
    if Acyclic(GoalEdges(goals)) {
      forall o | IsTaskOrder(t, o) ensures exists g :: IsGoalOrder(goals, g) && TasksOf(g, t.taskOf) == o {
        AcceptedOrdersExtend(goals, t, o);
      }
    } else if Acyclic(Within(GoalEdges(goals), TaskGoals(goals))) {
      var o :| IsTaskOrder(t, o);
      forall g ensures !IsGoalOrder(goals, g) {
        if IsGoalOrder(goals, g) {
          assert IsOrder(g, GoalIds(goals), GoalEdges(goals));
          OrderExistsIff(GoalIds(goals), GoalEdges(goals));
        }
      }
    }
  }

  /** An accepted request can have a cycle that its task graph does not show: a goal and the chat goal
      that wait for each other. The planner would refuse it; the task goes ahead. */
  lemma AcceptedCycle() returns (goals: seq<Goal>)
    ensures UniqueIds(goals) && Validate(goals).Ok?
    ensures !Acyclic(GoalEdges(goals)) && Acyclic(Within(GoalEdges(goals), TaskGoals(goals)))
  {
    goals := [Goal("a", "web.search", ["c"]), Goal("c", CHAT_CAPABILITY, ["a"])];
    var edges := GoalEdges(goals);
    assert goals[0] in goals && goals[1] in goals;
    assert forall g | g in goals :: g == goals[0] || g == goals[1];
    assert EndsInChat(goals) by {
      assert goals[..1] == [goals[0]];
      assert goals[0] in goals[..1] && "a" in goals[1].dependsOn;
    }
    ValidIff(goals);
    ChatListsAll(goals);
    assert "c" in goals[0].dependsOn && ("a", "c") in edges;
    assert !NobodyListsChat(goals);
    AcceptedAcyclicIff(goals);
    assert TaskGoals(goals) == {"a"};
    assert ("a", "a") !in edges;
    assert Within(edges, {"a"}) == {};
    forall x ensures !Needs(Within(edges, {"a"}), x, x) {
      NeedHasEdge(Within(edges, {"a"}), x, x);
    }
  }

  /** An example of the graph theorem: a node left out in the middle hides a need. Such goals are not
      accepted, since the chat goal comes last and nobody waits for it in a request without cycles. */
  lemma ChatGoalHidesNeed() returns (goals: seq<Goal>)
    ensures UniqueIds(goals) && Acyclic(GoalEdges(goals))
    ensures !KeepsNeeds(GoalEdges(goals), TaskGoals(goals))
    ensures Validate(goals).Err?
  {
    var first, chat := Goal("a", "web.search", []), Goal("c", CHAT_CAPABILITY, ["a"]);
    var last := Goal("b", "shell.execute", ["c"]);
    goals := [first, chat, last];
    var edges, kept := GoalEdges(goals), TaskGoals(goals);
    assert first in goals && chat in goals && last in goals;
    assert {"a", "b", "c"} <= GoalIds(goals);
    assert edges == {("c", "a"), ("b", "c")};
    assert kept == {"a", "b"};
    ThroughChat(edges, kept);
    ValidIff(goals);
  }

  lemma ThroughChat(edges: Edges<GoalId>, kept: set<GoalId>)
    requires edges == {("c", "a"), ("b", "c")} && kept == {"a", "b"}
    ensures Acyclic(edges) && !KeepsNeeds(edges, kept)
  {
    var order := ["a", "c", "b"];
    assert Members(order) == {"a", "b", "c"} by {
      assert order[0] == "a" && order[1] == "c" && order[2] == "b";
    }
    OrderedIsAcyclic(order, {"a", "b", "c"}, edges);
    assert Chains(edges, ["b", "c", "a"], "b", "a");
    assert Needs(edges, "b", "a");
    assert Within(edges, kept) == {};
    NeedHasEdge(Within(edges, kept), "b", "a");
  }

  lemma ChatGoalsAfter(goals: seq<Goal>, g: Goal)
    ensures ChatGoalsOf(goals + [g]) == ChatGoalsOf(goals) + if IsChat(g) then [g] else []
  {
    assert (goals + [g])[..|goals|] == goals;
  }

  lemma NothingClashes(goals: seq<Goal>)
    requires forall g | g in goals && !IsChat(g) :: g.dependsOn == []
    ensures forall i | 0 <= i < |goals| :: !Clashes(goals, i)
  {
    forall i | 0 <= i < |goals| ensures !Clashes(goals, i) {
      assert goals[i] in goals;
    }
  }

  lemma ValidTriple(a: Goal, b: Goal, c: Goal)
    requires !IsChat(a) && !IsChat(b) && IsChat(c) && a.id == b.id && c.dependsOn == [a.id]
    ensures Validate([a, b, c]).Ok? && CountTasks([a, b, c]) == 2
  {
    assert [] + [a] == [a] && [a] + [b] == [a, b] && [a, b] + [c] == [a, b, c] && [a, b, c][..2] == [a, b];
    ChatGoalsAfter([], a);
    ChatGoalsAfter([a], b);
    ChatGoalsAfter([a, b], c);
    TaskGoalsStep([], a);
    TaskGoalsStep([a], b);
    TaskGoalsStep([a, b], c);
    assert IdsOf([a, b]) == {a.id} by { assert [a, b][0] == a && [a, b][1] == b; }
    assert Listed(c) == {a.id} by { assert c.dependsOn[0] == a.id; }
  }

  /** Two goals of one id are accepted, since only sets of ids are compared, and both get a task; but
      only one of the tasks is on the map. */
  lemma AcceptedEqualIds() returns (goals: seq<Goal>)
    ensures Validate(goals).Ok? && !TaskIdsDiffer(goals) && CountTasks(goals) == 2
    ensures forall i | 0 <= i < |goals| :: !Clashes(goals, i)
  {
    var a, b, c := Goal("a", "web.search", []), Goal("a", "shell.execute", []), Goal("c", CHAT_CAPABILITY, ["a"]);
    goals := [a, b, c];
    ValidTriple(a, b, c);
    assert goals[0].id == goals[1].id;
    NothingClashes(goals);
  }
}
