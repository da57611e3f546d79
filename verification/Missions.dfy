/** Mission statuses and the table of transitions between them. */
module MissionContracts {
  datatype MissionStatus =
    | Created | Planning | Running | Waiting | Paused | Blocked | NeedsApproval
    | Failed | Cancelled | Completed

  function Successors(from: MissionStatus): set<MissionStatus> {
    match from
    case Created => {Planning, Cancelled, Failed}
    case Planning => {Running, Cancelled, Failed}
    case Running => {Waiting, Paused, Blocked, NeedsApproval, Completed, Failed, Cancelled}
    case Waiting | Paused | Blocked | NeedsApproval => {Running, Cancelled, Failed}
    case Failed | Cancelled | Completed => {}
  }

  predicate IsTerminal(s: MissionStatus) {
    s in {Completed, Failed, Cancelled}
  }

  /** `h` starts a mission's life at CREATED and follows the table ever after. */
  predicate IsStatusPath(h: seq<MissionStatus>) {
    && |h| > 0 && h[0] == Created
    && forall i | 0 < i < |h| :: h[i] in Successors(h[i - 1])
  }

  /** A terminal status is never left: it can only be the last of a path, and every status with
      no way out is terminal. */
  lemma TerminalIsLast(h: seq<MissionStatus>, i: nat)
    requires IsStatusPath(h) && i < |h| && IsTerminal(h[i])
    ensures i == |h| - 1
    ensures forall s :: Successors(s) == {} <==> IsTerminal(s)
  {
    if i < |h| - 1 {
      assert h[i + 1] in Successors(h[i]);
    }
    forall s ensures Successors(s) == {} <==> IsTerminal(s) {
      assert !IsTerminal(s) ==> Failed in Successors(s);
    }
  }
}

/** Mission operations, each a read-validate-write step whose event is published by a second step. */
module MissionSteps {
  import opened Options
  import opened MissionContracts

  type Id = string

  datatype Mission = Mission(
    status: MissionStatus,
    startedAt: Option<int>,
    updatedAt: int,
    completedAt: Option<int>,
    progress: real,
    failure: Option<string>,
    result: Option<string>)

  datatype Kind =
    | CreatedEvent | StartedEvent | ProgressEvent | PausedEvent | ResumedEvent
    | CompletedEvent | FailedEvent | CancelledEvent

  datatype Event = Event(kind: Kind, id: Id)

  const TERMINAL_KINDS: seq<Kind> := [CompletedEvent, FailedEvent, CancelledEvent]

  /** The stored missions, every event still owed and every event published so far. `history`
      records each mission's statuses in order, deleted missions included. */
  datatype World = World(
    missions: map<Id, Mission>,
    history: map<Id, seq<MissionStatus>>,
    outbox: multiset<Event>,
    published: multiset<Event>)

  datatype Op =
    | Create(id: Id)
    | Plan(id: Id)
    | Start(id: Id)
    | UpdateProgress(id: Id, progress: real)
    | Complete(id: Id, result: Option<string>)
    | Fail(id: Id, failure: string)
    | Cancel(id: Id)
    | Pause(id: Id)
    | Resume(id: Id)
    | Delete(id: Id)

  function Target(op: Op): Option<MissionStatus> {
    match op
    case Plan(_) => Some(Planning)
    case Start(_) | Resume(_) => Some(Running)
    case Complete(_, _) => Some(Completed)
    case Fail(_, _) => Some(Failed)
    case Cancel(_) => Some(Cancelled)
    case Pause(_) => Some(Paused)
    case _ => None
  }

  function EventOf(op: Op): Option<Event> {
    match op
    case Create(id) => Some(Event(CreatedEvent, id))
    case Start(id) => Some(Event(StartedEvent, id))
    case UpdateProgress(id, _) => Some(Event(ProgressEvent, id))
    case Complete(id, _) => Some(Event(CompletedEvent, id))
    case Fail(id, _) => Some(Event(FailedEvent, id))
    case Cancel(id) => Some(Event(CancelledEvent, id))
    case Pause(id) => Some(Event(PausedEvent, id))
    case Resume(id) => Some(Event(ResumedEvent, id))
    case Plan(_) | Delete(_) => None
  }

  function Events(op: Op): multiset<Event> {
    if EventOf(op).Some? then multiset{EventOf(op).value} else multiset{}
  }

  /** Whether the operation finds its mission in a state it may act on. */
  predicate Acts(missions: map<Id, Mission>, op: Op) {
    op.id in missions && (Target(op).Some? ==> Target(op).value in Successors(missions[op.id].status))
  }

  function Clamp(p: real): real {
    if p < 0.0 then 0.0 else if p > 1.0 then 1.0 else p
  }

  function NewMission(now: int): Mission {
    Mission(Created, None, now, None, 0.0, None, None)
  }

  function Changed(m: Mission, op: Op, now: int): Mission {
    match op
    case Plan(_) => m.(status := Planning, updatedAt := now)
    case Start(_) => m.(status := Running, startedAt := Some(now), updatedAt := now)
    case UpdateProgress(_, p) => m.(progress := Clamp(p), updatedAt := now)
    case Complete(_, r) =>
      m.(status := Completed, completedAt := Some(now), progress := 1.0, result := r, updatedAt := now)
    case Fail(_, f) => m.(status := Failed, failure := Some(f), completedAt := Some(now), updatedAt := now)
    case Cancel(_) => m.(status := Cancelled, completedAt := Some(now), updatedAt := now)
    case Pause(_) => m.(status := Paused, updatedAt := now)
    case Resume(_) => m.(status := Running, updatedAt := now)
    case Create(_) | Delete(_) => m
  }

  /** Whether the write changes anything and so owes its events. */
  predicate Takes(w: World, op: Op) {
    if op.Create? then op.id !in w.history else Acts(w.missions, op)
  }

  /** The first half of an operation. Identifiers are generated, so none is ever used twice. */
  function Write(w: World, op: Op, now: int): World {
    if !Takes(w, op) then w
    else
      World(
        if op.Create? then w.missions[op.id := NewMission(now)]
        else if op.Delete? then w.missions - {op.id}
        else w.missions[op.id := Changed(w.missions[op.id], op, now)],
        if op.Create? then w.history[op.id := [Created]]
        else if Target(op).Some? && op.id in w.history then w.history[op.id := w.history[op.id] + [Target(op).value]]
        else w.history,
        w.outbox + Events(op), w.published)
  }

  /** The second half: one owed event reaches the bus. */
  function Publish(w: World, e: Event): World {
    if e in w.outbox then w.(outbox := w.outbox - multiset{e}, published := w.published + multiset{e}) else w
  }

  datatype Step = WriteStep(op: Op, now: int) | PublishStep(event: Event)

  function Apply(w: World, s: Step): World {
    match s
    case WriteStep(op, now) => Write(w, op, now)
    case PublishStep(e) => Publish(w, e)
  }

  const EMPTY_WORLD := World(map[], map[], multiset{}, multiset{})

  function Run(w: World, steps: seq<Step>): World {
    if steps == [] then w else Apply(Run(w, steps[..|steps| - 1]), steps[|steps| - 1])
  }

  function TerminalEvents(events: multiset<Event>, id: Id): nat {
    events[Event(CompletedEvent, id)] + events[Event(FailedEvent, id)] + events[Event(CancelledEvent, id)]
  }

  /** How many completed, failed or cancelled events mission `id` has caused, published or owed. */
  function AllTerminalEvents(w: World, id: Id): nat {
    TerminalEvents(w.outbox, id) + TerminalEvents(w.published, id)
  }

  /** What a stored mission, its status history and the number of terminal events it caused owe each other. */
  ghost predicate Fits(m: Mission, h: seq<MissionStatus>, events: nat) {
    && IsStatusPath(h) && h[|h| - 1] == m.status
    && (m.completedAt.Some? <==> IsTerminal(m.status))
    && 0.0 <= m.progress <= 1.0
    && events == if IsTerminal(m.status) then 1 else 0
  }

  ghost predicate MissionSound(w: World, id: Id)
    requires id in w.missions
  {
    id in w.history && Fits(w.missions[id], w.history[id], AllTerminalEvents(w, id))
  }

  ghost predicate Sound(w: World) {
    && (forall id | id in w.missions :: MissionSound(w, id))
    && (forall id | id in w.history :: IsStatusPath(w.history[id]) && AllTerminalEvents(w, id) <= 1)
    && (forall id | id !in w.history :: AllTerminalEvents(w, id) == 0)
  }

  lemma StepKeepsSound(w: World, s: Step)
    requires Sound(w)
    ensures Sound(Apply(w, s))
  {
    match s
    case PublishStep(e) => PublishKeepsSound(w, e);
    case WriteStep(op, now) => WriteKeepsSound(w, op, now);
  }

  lemma PublishKeepsSound(w: World, e: Event)
    requires Sound(w)
    ensures Sound(Publish(w, e))
  {
    var after := Publish(w, e);
    forall id ensures AllTerminalEvents(after, id) == AllTerminalEvents(w, id) {
    }
    forall id | id in after.missions ensures MissionSound(after, id) {
      assert MissionSound(w, id);
    }
  }

  lemma WriteOwes(w: World, op: Op, now: int, id: Id)
    ensures AllTerminalEvents(Write(w, op, now), id)
         == AllTerminalEvents(w, id) + if Takes(w, op) then TerminalEvents(Events(op), id) else 0
  {
  }

  lemma OneTerminalEvent(op: Op, id: Id)
    ensures TerminalEvents(Events(op), id)
         == if id == op.id && Target(op).Some? && IsTerminal(Target(op).value) then 1 else 0
  {
  }

  lemma ChangeFits(m: Mission, h: seq<MissionStatus>, op: Op, now: int)
    requires Fits(m, h, if IsTerminal(m.status) then 1 else 0) && !op.Create? && !op.Delete?
    requires Target(op).Some? ==> Target(op).value in Successors(m.status)
    ensures var after := Changed(m, op, now);
            Fits(after, if Target(op).Some? then h + [after.status] else h, if IsTerminal(after.status) then 1 else 0)
  {
  }

  lemma WriteElsewhere(w: World, op: Op, now: int, id: Id)
    requires id != op.id
    ensures var after := Write(w, op, now);
            && AllTerminalEvents(after, id) == AllTerminalEvents(w, id)
            && (id in after.missions <==> id in w.missions)
            && (id in w.missions ==> after.missions[id] == w.missions[id])
            && (id in after.history <==> id in w.history) && (id in w.history ==> after.history[id] == w.history[id])
  {
    WriteOwes(w, op, now, id);
    OneTerminalEvent(op, id);
  }

  lemma WriteKeepsSound(w: World, op: Op, now: int)
    requires Sound(w)
    ensures Sound(Write(w, op, now))
  {
    var after := Write(w, op, now);
    if Takes(w, op) {
      if op.id in w.missions { assert MissionSound(w, op.id); }
      WriteKeepsOwn(w, op, now);
      forall id | id in after.missions ensures MissionSound(after, id) {
        if id != op.id {
          WriteElsewhere(w, op, now, id);
          assert MissionSound(w, id);
        }
      }
      forall id | id != op.id
        ensures id in after.history ==> IsStatusPath(after.history[id]) && AllTerminalEvents(after, id) <= 1
        ensures id !in after.history ==> AllTerminalEvents(after, id) == 0
      {
        WriteElsewhere(w, op, now, id);
      }
    }
  }

  lemma WriteKeepsOwn(w: World, op: Op, now: int)
    requires Takes(w, op)
    requires op.id in w.missions ==> MissionSound(w, op.id)
    requires op.id in w.history ==> IsStatusPath(w.history[op.id]) && AllTerminalEvents(w, op.id) <= 1
    requires op.id !in w.history ==> AllTerminalEvents(w, op.id) == 0
    ensures var after := Write(w, op, now);
            && (op.id in after.missions ==> MissionSound(after, op.id))
            && op.id in after.history && IsStatusPath(after.history[op.id]) && AllTerminalEvents(after, op.id) <= 1
  {
    WriteOwes(w, op, now, op.id);
    OneTerminalEvent(op, op.id);
    if !op.Create? && !op.Delete? {
      ChangeFits(w.missions[op.id], w.history[op.id], op, now);
    }
  }

  /** Over any interleaving of writes and publishes, every mission's status history is a path in
      the transition table, a completion time is set exactly in terminal statuses, progress stays
      in [0, 1], and at most one completed, failed or cancelled event is ever published. */
  lemma {:induction false} MissionsStaySound(steps: seq<Step>)
    ensures Sound(Run(EMPTY_WORLD, steps))
    ensures forall id :: TerminalEvents(Run(EMPTY_WORLD, steps).published, id) <= 1
  {
    if steps != [] {
      MissionsStaySound(steps[..|steps| - 1]);
      StepKeepsSound(Run(EMPTY_WORLD, steps[..|steps| - 1]), steps[|steps| - 1]);
    }
    var w := Run(EMPTY_WORLD, steps);
    forall id ensures TerminalEvents(w.published, id) <= 1 {
      assert AllTerminalEvents(w, id) <= 1;
    }
  }

  // ---------------------------------------------------------------------------
  // Which events there are
  // ---------------------------------------------------------------------------

  /** The operation whose event is of the given kind. */
  predicate Causes(op: Op, kind: Kind) {
    match kind
    case CreatedEvent => op.Create?
    case StartedEvent => op.Start?
    case ProgressEvent => op.UpdateProgress?
    case PausedEvent => op.Pause?
    case ResumedEvent => op.Resume?
    case CompletedEvent => op.Complete?
    case FailedEvent => op.Fail?
    case CancelledEvent => op.Cancel?
  }

  /** The events of a kind that were published or are owed. */
  function Total(w: World, kind: Kind, id: Id): nat {
    w.published[Event(kind, id)] + w.outbox[Event(kind, id)]
  }

  /** The operations of a kind that found the mission in a state to act on. */
  function Acted(steps: seq<Step>, kind: Kind, id: Id): nat {
    if steps == [] then 0
    else
      var w, last := Run(EMPTY_WORLD, steps[..|steps| - 1]), steps[|steps| - 1];
      Acted(steps[..|steps| - 1], kind, id)
        + if last.WriteStep? && last.op.id == id && Causes(last.op, kind) && Takes(w, last.op) then 1 else 0
  }

  lemma StepEvents(w: World, s: Step, kind: Kind, id: Id)
    ensures Total(Apply(w, s), kind, id)
         == Total(w, kind, id)
            + if s.WriteStep? && s.op.id == id && Causes(s.op, kind) && Takes(w, s.op) then 1 else 0
  {
  }

  /** Over any run there are exactly as many events of each kind, published or owed, as operations of
      that kind that acted. */
  lemma {:induction false} EventsAreCounted(steps: seq<Step>, kind: Kind, id: Id)
    ensures Total(Run(EMPTY_WORLD, steps), kind, id) == Acted(steps, kind, id)
  {
    if steps != [] {
      EventsAreCounted(steps[..|steps| - 1], kind, id);
      StepEvents(Run(EMPTY_WORLD, steps[..|steps| - 1]), steps[|steps| - 1], kind, id);
    }
  }

  function Times(h: seq<MissionStatus>, s: MissionStatus): nat {
    multiset(h)[s]
  }

  function HistoryOf(w: World, id: Id): seq<MissionStatus> {
    if id in w.history then w.history[id] else []
  }

  /** What the events of a mission say about its history. */
  ghost predicate EventsTell(w: World, id: Id) {
    var h := HistoryOf(w, id);
    && Total(w, CreatedEvent, id) == Times(h, Created)
    && Total(w, CompletedEvent, id) == Times(h, Completed)
    && Total(w, FailedEvent, id) == Times(h, Failed)
    && Total(w, CancelledEvent, id) == Times(h, Cancelled)
    && Total(w, PausedEvent, id) == Times(h, Paused)
    && Total(w, StartedEvent, id) + Total(w, ResumedEvent, id) == Times(h, Running)
  }

  /** The operation puts its own status at the end of the history, or nothing. */
  lemma WriteAdds(w: World, op: Op, now: int, s: MissionStatus)
    requires Takes(w, op) && (op.id in w.missions ==> op.id in w.history)
    ensures var after := Write(w, op, now);
            && op.id in after.history
            && Times(HistoryOf(after, op.id), s)
                 == Times(HistoryOf(w, op.id), s) + match op
                                  case Create(_) => if s == Created then 1 else 0
                                  case Plan(_) => if s == Planning then 1 else 0
                                  case Start(_) | Resume(_) => if s == Running then 1 else 0
                                  case Complete(_, _) => if s == Completed then 1 else 0
                                  case Fail(_, _) => if s == Failed then 1 else 0
                                  case Cancel(_) => if s == Cancelled then 1 else 0
                                  case Pause(_) => if s == Paused then 1 else 0
                                  case UpdateProgress(_, _) | Delete(_) => 0
  {
  }

  /** One kind of event and the one status its operation leads to. */
  lemma KindTells(w: World, op: Op, now: int, kind: Kind, s: MissionStatus)
    requires Takes(w, op) && (op.id in w.missions ==> op.id in w.history)
    requires (kind, s) in {(CreatedEvent, Created), (CompletedEvent, Completed), (FailedEvent, Failed),
                           (CancelledEvent, Cancelled), (PausedEvent, Paused)}
    ensures Total(Write(w, op, now), kind, op.id) - Total(w, kind, op.id)
         == Times(HistoryOf(Write(w, op, now), op.id), s) - Times(HistoryOf(w, op.id), s)
  {
    StepEvents(w, WriteStep(op, now), kind, op.id);
    WriteAdds(w, op, now, s);
  }

  lemma RunningTells(w: World, op: Op, now: int)
    requires Takes(w, op) && (op.id in w.missions ==> op.id in w.history)
    ensures Total(Write(w, op, now), StartedEvent, op.id) + Total(Write(w, op, now), ResumedEvent, op.id)
              - Total(w, StartedEvent, op.id) - Total(w, ResumedEvent, op.id)
         == Times(HistoryOf(Write(w, op, now), op.id), Running) - Times(HistoryOf(w, op.id), Running)
  {
    StepEvents(w, WriteStep(op, now), StartedEvent, op.id);
    StepEvents(w, WriteStep(op, now), ResumedEvent, op.id);
    WriteAdds(w, op, now, Running);
  }

  lemma ElsewhereTells(w: World, s: Step, id: Id)
    requires s.WriteStep? ==> s.op.id != id || !Takes(w, s.op)
    ensures HistoryOf(Apply(w, s), id) == HistoryOf(w, id)
    ensures forall kind :: Total(Apply(w, s), kind, id) == Total(w, kind, id)
  {
    forall kind ensures Total(Apply(w, s), kind, id) == Total(w, kind, id) {
      StepEvents(w, s, kind, id);
    }
  }

  lemma StepTells(w: World, s: Step, id: Id)
    requires EventsTell(w, id) && (id in w.missions ==> id in w.history)
    ensures EventsTell(Apply(w, s), id)
  {
    if s.WriteStep? && s.op.id == id && Takes(w, s.op) {
      KindTells(w, s.op, s.now, CreatedEvent, Created);
      KindTells(w, s.op, s.now, CompletedEvent, Completed);
      KindTells(w, s.op, s.now, FailedEvent, Failed);
      KindTells(w, s.op, s.now, CancelledEvent, Cancelled);
      KindTells(w, s.op, s.now, PausedEvent, Paused);
      RunningTells(w, s.op, s.now);
    } else {
      ElsewhereTells(w, s, id);
    }
  }

  /** Over any run the completed, failed, cancelled, paused and created events of a mission, published or
      owed, are exactly as many as its history has such statuses, and the started and resumed ones
      together as many as it has RUNNING; so a completed mission has caused one completed event and no
      failed or cancelled one. */
  lemma {:induction false} EventsTellTheHistory(steps: seq<Step>, id: Id)
    ensures EventsTell(Run(EMPTY_WORLD, steps), id)
  {
    if steps != [] {
      EventsTellTheHistory(steps[..|steps| - 1], id);
      MissionsStaySound(steps[..|steps| - 1]);
      var w := Run(EMPTY_WORLD, steps[..|steps| - 1]);
      if id in w.missions { assert MissionSound(w, id); }
      StepTells(w, steps[|steps| - 1], id);
    }
  }

  lemma {:induction false} TerminalOnce(h: seq<MissionStatus>, s: MissionStatus)
    requires IsStatusPath(h) && IsTerminal(s)
    ensures Times(h, s) == if h[|h| - 1] == s then 1 else 0
  {
    var init, last := h[..|h| - 1], h[|h| - 1];
    assert h == init + [last];
    forall i | 0 <= i < |init| ensures init[i] != s {
      if h[i] == s { TerminalIsLast(h, i); }
    }
    assert s !in multiset(init);
  }

  /** A stored mission has caused one event of its terminal status if it has one, and none of another. */
  lemma StatusTells(steps: seq<Step>, id: Id)
    requires id in Run(EMPTY_WORLD, steps).missions
    ensures var w := Run(EMPTY_WORLD, steps);
            var status := w.missions[id].status;
            && Total(w, CompletedEvent, id) == (if status == Completed then 1 else 0)
            && Total(w, FailedEvent, id) == (if status == Failed then 1 else 0)
            && Total(w, CancelledEvent, id) == (if status == Cancelled then 1 else 0)
  {
    var w := Run(EMPTY_WORLD, steps);
    EventsTellTheHistory(steps, id);
    MissionsStaySound(steps);
    assert MissionSound(w, id);
    TerminalOnce(w.history[id], Completed);
    TerminalOnce(w.history[id], Failed);
    TerminalOnce(w.history[id], Cancelled);
  }

  /** A history only ever grows, and once terminal it stays as it is. */
  lemma HistoryGrows(w: World, s: Step, id: Id)
    requires Sound(w) && id in w.history
    ensures id in Apply(w, s).history && w.history[id] <= Apply(w, s).history[id]
    ensures id in w.missions && IsTerminal(w.missions[id].status) ==> Apply(w, s).history[id] == w.history[id]
  {
    if s.WriteStep? {
      if s.op.id != id {
        WriteElsewhere(w, s.op, s.now, id);
      } else if Takes(w, s.op) && Target(s.op).Some? {
        assert w.missions[id].status !in {Completed, Failed, Cancelled};
        assert Write(w, s.op, s.now).history[id] == w.history[id] + [Target(s.op).value];
      }
    }
  }

  /** Both halves of an operation, one right after the other. */
  function Perform(w: World, op: Op, now: int): World {
    var written := Write(w, op, now);
    if Takes(w, op) && EventOf(op).Some? then Publish(written, EventOf(op).value) else written
  }

  lemma PerformKeepsSound(w: World, op: Op, now: int)
    requires Sound(w)
    ensures Sound(Perform(w, op, now))
  {
    WriteKeepsSound(w, op, now);
    var written, after := Write(w, op, now), Perform(w, op, now);
    if Takes(w, op) && EventOf(op).Some? {
      PublishKeepsSound(written, EventOf(op).value);
      assert after == Publish(written, EventOf(op).value);
    } else {
      assert after == written;
    }
  }
}

/** The mission manager as a single caller uses it: every operation writes, then publishes. */
module MissionManagers {
  import opened Options
  import opened MissionContracts
  import S = MissionSteps

  class MissionManager {
    var missions: map<S.Id, S.Mission>
    ghost var history: map<S.Id, seq<MissionStatus>>
    ghost var published: multiset<S.Event>

    constructor ()
      ensures Valid() && State() == S.EMPTY_WORLD
    {
      missions, history, published := map[], map[], multiset{};
    }

    ghost function State(): S.World
      reads this
    {
      S.World(missions, history, multiset{}, published)
    }

    ghost predicate Valid()
      reads this
    {
      missions.Keys <= history.Keys
    }

    /** Storing a changed mission and publishing the operation's event. */
    method Record(op: S.Op, changed: S.Mission)
      requires op.id in missions && op.id in history
      modifies this
      ensures missions == old(missions)[op.id := changed]
      ensures history == if S.Target(op).Some? then old(history)[op.id := old(history)[op.id] + [changed.status]]
                         else old(history)
      ensures published == old(published) + S.Events(op)
    {
      missions := missions[op.id := changed];
      if S.Target(op).Some? { history := history[op.id := history[op.id] + [changed.status]]; }
      published := published + S.Events(op);
    }

    method Create(id: S.Id, now: int) returns (m: S.Mission)
      requires Valid() && id !in history
      modifies this
      ensures Valid() && State() == S.Perform(old(State()), S.Create(id), now)
      ensures id in missions && missions[id] == m
      ensures m == S.Mission(Created, None, now, None, 0.0, None, None)
      ensures missions == old(missions)[id := m] && history == old(history)[id := [Created]]
      ensures published == old(published) + multiset{S.Event(S.CreatedEvent, id)}
    {
      m := S.NewMission(now);
      missions := missions[id := m];
      history := history[id := [Created]];
      published := published + S.Events(S.Create(id));
    }

    method Plan(id: S.Id, now: int) returns (m: Option<S.Mission>)
      requires Valid()
      modifies this
      ensures Valid() && State() == S.Perform(old(State()), S.Plan(id), now)
      ensures m == if S.Acts(old(missions), S.Plan(id)) then Some(missions[id]) else None
      ensures m == if id in old(missions) && old(missions)[id].status == Created
                   then Some(old(missions)[id].(status := Planning, updatedAt := now)) else None
      ensures missions == if m.Some? then old(missions)[id := m.value] else old(missions)
      ensures m.Some? ==> id in old(history) && history == old(history)[id := old(history)[id] + [Planning]]
      ensures m.None? ==> history == old(history)
      ensures published == old(published)
    {
      if id !in missions || Planning !in Successors(missions[id].status) {
        return None;
      }
      var mission := missions[id].(status := Planning, updatedAt := now);
      Record(S.Plan(id), mission);
      m := Some(mission);
    }

    method Start(id: S.Id, now: int) returns (m: Option<S.Mission>)
      requires Valid()
      modifies this
      ensures Valid() && State() == S.Perform(old(State()), S.Start(id), now)
      ensures m == if S.Acts(old(missions), S.Start(id)) then Some(missions[id]) else None
      ensures m == if id in old(missions)
                      && old(missions)[id].status in {Planning, Waiting, Paused, Blocked, NeedsApproval}
                   then Some(old(missions)[id].(status := Running, startedAt := Some(now), updatedAt := now)) else None
      ensures missions == if m.Some? then old(missions)[id := m.value] else old(missions)
      ensures m.Some? ==> id in old(history) && history == old(history)[id := old(history)[id] + [Running]]
      ensures m.None? ==> history == old(history)
      ensures published == old(published) + if m.Some? then multiset{S.Event(S.StartedEvent, id)} else multiset{}
    {
      if id !in missions || Running !in Successors(missions[id].status) {
        return None;
      }
      var mission := missions[id].(status := Running, startedAt := Some(now), updatedAt := now);
      Record(S.Start(id), mission);
      m := Some(mission);
    }

    method UpdateProgress(id: S.Id, progress: real, now: int) returns (m: Option<S.Mission>)
      requires Valid()
      modifies this
      ensures Valid() && State() == S.Perform(old(State()), S.UpdateProgress(id, progress), now)
      ensures m == if id in old(missions) then Some(missions[id]) else None
      ensures m.Some? ==>
                && 0.0 <= m.value.progress <= 1.0 && (0.0 <= progress <= 1.0 ==> m.value.progress == progress)
                && (progress > 1.0 ==> m.value.progress == 1.0) && (progress < 0.0 ==> m.value.progress == 0.0)
                && m.value == old(missions)[id].(progress := m.value.progress, updatedAt := now)
      ensures missions == (if m.Some? then old(missions)[id := m.value] else old(missions)) && history == old(history)
      ensures published == old(published) + if m.Some? then multiset{S.Event(S.ProgressEvent, id)} else multiset{}
    {
      if id !in missions {
        return None;
      }
      var atMost := if progress < 1.0 then progress else 1.0;
      var clamped := if atMost > 0.0 then atMost else 0.0;
      assert clamped == S.Clamp(progress);
      var mission := missions[id].(progress := clamped, updatedAt := now);
      Record(S.UpdateProgress(id, progress), mission);
      m := Some(mission);
    }

    method Complete(id: S.Id, result: Option<string>, now: int) returns (m: Option<S.Mission>)
      requires Valid()
      modifies this
      ensures Valid() && State() == S.Perform(old(State()), S.Complete(id, result), now)
      ensures m == if S.Acts(old(missions), S.Complete(id, result)) then Some(missions[id]) else None
      ensures m == if id in old(missions) && old(missions)[id].status == Running
                   then Some(old(missions)[id].(status := Completed, completedAt := Some(now), progress := 1.0,
                                                  result := result, updatedAt := now)) else None
      ensures missions == if m.Some? then old(missions)[id := m.value] else old(missions)
      ensures m.Some? ==> id in old(history) && history == old(history)[id := old(history)[id] + [Completed]]
      ensures m.None? ==> history == old(history)
      ensures published == old(published) + if m.Some? then multiset{S.Event(S.CompletedEvent, id)} else multiset{}
    {
      if id !in missions || Completed !in Successors(missions[id].status) {
        return None;
      }
      var mission := missions[id].(status := Completed, completedAt := Some(now), progress := 1.0, result := result,
                                   updatedAt := now);
      Record(S.Complete(id, result), mission);
      m := Some(mission);
    }

    method Fail(id: S.Id, failure: string, now: int) returns (m: Option<S.Mission>)
      requires Valid()
      modifies this
      ensures Valid() && State() == S.Perform(old(State()), S.Fail(id, failure), now)
      ensures m == if S.Acts(old(missions), S.Fail(id, failure)) then Some(missions[id]) else None
      ensures m == if id in old(missions) && old(missions)[id].status !in {Failed, Cancelled, Completed}
                   then Some(old(missions)[id].(status := Failed, failure := Some(failure),
                                                  completedAt := Some(now), updatedAt := now)) else None
      ensures missions == if m.Some? then old(missions)[id := m.value] else old(missions)
      ensures m.Some? ==> id in old(history) && history == old(history)[id := old(history)[id] + [Failed]]
      ensures m.None? ==> history == old(history)
      ensures published == old(published) + if m.Some? then multiset{S.Event(S.FailedEvent, id)} else multiset{}
    {
      if id !in missions || Failed !in Successors(missions[id].status) {
        return None;
      }
      var mission := missions[id].(status := Failed, failure := Some(failure), completedAt := Some(now),
                                   updatedAt := now);
      Record(S.Fail(id, failure), mission);
      m := Some(mission);
    }

    method Cancel(id: S.Id, now: int) returns (m: Option<S.Mission>)
      requires Valid()
      modifies this
      ensures Valid() && State() == S.Perform(old(State()), S.Cancel(id), now)
      ensures m == if S.Acts(old(missions), S.Cancel(id)) then Some(missions[id]) else None
      ensures m == if id in old(missions) && old(missions)[id].status !in {Failed, Cancelled, Completed}
                   then Some(old(missions)[id].(status := Cancelled, completedAt := Some(now), updatedAt := now))
                   else None
      ensures missions == if m.Some? then old(missions)[id := m.value] else old(missions)
      ensures m.Some? ==> id in old(history) && history == old(history)[id := old(history)[id] + [Cancelled]]
      ensures m.None? ==> history == old(history)
      ensures published == old(published) + if m.Some? then multiset{S.Event(S.CancelledEvent, id)} else multiset{}
    {
      if id !in missions || Cancelled !in Successors(missions[id].status) {
        return None;
      }
      var mission := missions[id].(status := Cancelled, completedAt := Some(now), updatedAt := now);
      Record(S.Cancel(id), mission);
      m := Some(mission);
    }

    method Pause(id: S.Id, now: int) returns (m: Option<S.Mission>)
      requires Valid()
      modifies this
      ensures Valid() && State() == S.Perform(old(State()), S.Pause(id), now)
      ensures m == if S.Acts(old(missions), S.Pause(id)) then Some(missions[id]) else None
      ensures m == if id in old(missions) && old(missions)[id].status == Running
                   then Some(old(missions)[id].(status := Paused, updatedAt := now)) else None
      ensures missions == if m.Some? then old(missions)[id := m.value] else old(missions)
      ensures m.Some? ==> id in old(history) && history == old(history)[id := old(history)[id] + [Paused]]
      ensures m.None? ==> history == old(history)
      ensures published == old(published) + if m.Some? then multiset{S.Event(S.PausedEvent, id)} else multiset{}
    {
      if id !in missions || Paused !in Successors(missions[id].status) {
        return None;
      }
      var mission := missions[id].(status := Paused, updatedAt := now);
      Record(S.Pause(id), mission);
      m := Some(mission);
    }

    method Resume(id: S.Id, now: int) returns (m: Option<S.Mission>)
      requires Valid()
      modifies this
      ensures Valid() && State() == S.Perform(old(State()), S.Resume(id), now)
      ensures m == if S.Acts(old(missions), S.Resume(id)) then Some(missions[id]) else None
      ensures m == if id in old(missions)
                      && old(missions)[id].status in {Planning, Waiting, Paused, Blocked, NeedsApproval}
                   then Some(old(missions)[id].(status := Running, updatedAt := now)) else None
      ensures missions == if m.Some? then old(missions)[id := m.value] else old(missions)
      ensures m.Some? ==> id in old(history) && history == old(history)[id := old(history)[id] + [Running]]
      ensures m.None? ==> history == old(history)
      ensures published == old(published) + if m.Some? then multiset{S.Event(S.ResumedEvent, id)} else multiset{}
    {
      if id !in missions || Running !in Successors(missions[id].status) {
        return None;
      }
      var mission := missions[id].(status := Running, updatedAt := now);
      Record(S.Resume(id), mission);
      m := Some(mission);
    }
  }
}
