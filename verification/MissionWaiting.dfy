/** `wait_for_completion` interleaved, step by step, with everything other threads do to the
    missions: a waiter looks, subscribes to three events, looks again, blocks, reads and
    unsubscribes, while writers store and then publish. */
module MissionWaiting {
  import opened Options
  import opened MissionContracts
  import opened MissionSteps

  /** Where the waiting thread is. The number counts the subscriptions made or undone so far. */
  datatype Place =
    | Looking
    | Subscribing(made: nat)
    | LookingAgain
    | Blocking
    | Reading
    | Unsubscribing(undone: nat)
    | Returned

  /** `signalled` is the event flag; `timedOut` and `missing` remember how the wait ended and
      whether the second look found no mission. */
  datatype Wait = Wait(
    world: World,
    place: Place,
    subscribed: set<Kind>,
    signalled: bool,
    missing: bool,
    timedOut: bool,
    result: Option<Mission>)

  datatype Act = Other(step: Step) | Advance | WakeUp | TimeOut

  function Stored(w: Wait, id: Id): Option<Mission> {
    if id in w.world.missions then Some(w.world.missions[id]) else None
  }

  predicate IsDone(m: Option<Mission>) {
    m.Some? && IsTerminal(m.value.status)
  }

  predicate Enabled(w: Wait, a: Act) {
    match a
    case Other(_) => true
    case Advance => w.place != Blocking && w.place != Returned
    case WakeUp => w.place == Blocking && w.signalled
    case TimeOut => w.place == Blocking
  }

  /** Publishing calls the waiter's subscriber when it is subscribed to that event by then. */
  function Disturbed(w: Wait, id: Id, s: Step): Wait {
    var heard := s.PublishStep? && s.event in w.world.outbox && s.event.id == id && s.event.kind in w.subscribed;
    w.(world := Apply(w.world, s), signalled := w.signalled || heard)
  }

  /** The waiter's own next step, at any place but the blocking wait. */
  function Advanced(w: Wait, id: Id): Wait {
    match w.place
    case Looking =>
      if Stored(w, id).None? || IsDone(Stored(w, id)) then w.(place := Returned, result := Stored(w, id))
      else w.(place := Subscribing(0))
    case Subscribing(n) =>
      if n < 3 then w.(place := Subscribing(n + 1), subscribed := w.subscribed + {TERMINAL_KINDS[n]})
      else w.(place := LookingAgain)
    case LookingAgain =>
      if IsDone(Stored(w, id)) then w.(place := Unsubscribing(0), result := Stored(w, id))
      else w.(place := Blocking, missing := Stored(w, id).None?)
    case Reading => w.(place := Unsubscribing(0), result := Stored(w, id))
    case Unsubscribing(n) =>
      if n < 3 then w.(place := Unsubscribing(n + 1), subscribed := w.subscribed - {TERMINAL_KINDS[n]})
      else w.(place := Returned)
    case Blocking | Returned => w
  }

  function Next(w: Wait, id: Id, a: Act): Wait {
    match a
    case Other(s) => Disturbed(w, id, s)
    case Advance => Advanced(w, id)
    case WakeUp => w.(place := Reading)
    case TimeOut => w.(place := Reading, timedOut := true)
  }

  function Begin(world: World): Wait {
    Wait(world, Looking, {}, false, false, false, None)
  }

  function Play(w: Wait, id: Id, acts: seq<Act>): Wait {
    if acts == [] then w else Next(Play(w, id, acts[..|acts| - 1]), id, acts[|acts| - 1])
  }

  /** Every step of the run is enabled when it is taken. */
  predicate IsRun(w: Wait, id: Id, acts: seq<Act>) {
    acts == [] || (IsRun(w, id, acts[..|acts| - 1]) && Enabled(Play(w, id, acts[..|acts| - 1]), acts[|acts| - 1]))
  }

  function Subscriptions(p: Place): set<Kind> {
    match p
    case Looking | Returned => {}
    case Subscribing(n) =>
      if n == 0 then {} else if n == 1 then {CompletedEvent} else if n == 2 then {CompletedEvent, FailedEvent}
      else {CompletedEvent, FailedEvent, CancelledEvent}
    case LookingAgain | Blocking | Reading => {CompletedEvent, FailedEvent, CancelledEvent}
    case Unsubscribing(n) =>
      if n == 0 then {CompletedEvent, FailedEvent, CancelledEvent} else if n == 1 then {FailedEvent, CancelledEvent}
      else if n == 2 then {CancelledEvent} else {}
  }

  predicate InBounds(p: Place) {
    (p.Subscribing? ==> p.made <= 3) && (p.Unsubscribing? ==> p.undone <= 3)
  }

  ghost predicate Safe(w: Wait, id: Id) {
    Sound(w.world) && Steady(w, id)
  }

  ghost predicate Steady(w: Wait, id: Id) {
    && InBounds(w.place)
    && (w.place !in {Looking, Returned} ==> id in w.world.history)
    && (w.missing ==> id in w.world.history)
    // Exactly the three subscriptions are held between subscribing and unsubscribing, none outside.
    && w.subscribed == Subscriptions(w.place)
    // The flag is only ever set by a terminal event of this mission.
    && (w.signalled ==> TerminalEvents(w.world.published, id) > 0)
    // No wake-up is lost: once past the second look, a published terminal event has set the flag.
    && (w.place in {Blocking, Reading} && TerminalEvents(w.world.published, id) > 0 ==> w.signalled || w.missing)
    && (w.missing ==> id !in w.world.missions)
    && (w.place.Looking? || w.place.Subscribing? || w.place.LookingAgain? ==> !w.missing && !w.timedOut)
    && (w.place == Blocking ==> !w.timedOut)
    && (w.place == Reading ==> w.timedOut || w.signalled)
    && (w.place.Unsubscribing? || w.place == Returned ==> w.timedOut || w.result.None? || IsDone(w.result))
    && (w.missing && (w.place.Unsubscribing? || w.place == Returned) ==> w.result.None?)
  }

  lemma OtherKeepsSafe(w: Wait, id: Id, s: Step)
    requires Safe(w, id)
    ensures Safe(Disturbed(w, id, s), id)
  {
    StepKeepsSound(w.world, s);
    if id in w.world.history {
      HistoryGrows(w.world, s, id);
      PublishedGrows(w.world, s, id);
    }
  }

  lemma PublishedGrows(w: World, s: Step, id: Id)
    ensures TerminalEvents(Apply(w, s).published, id) >= TerminalEvents(w.published, id)
    ensures TerminalEvents(Apply(w, s).published, id) > TerminalEvents(w.published, id)
       <==> s.PublishStep? && s.event in w.outbox && s.event.id == id && s.event.kind in TERMINAL_KINDS
    ensures id in w.history && id !in w.missions ==> id !in Apply(w, s).missions
  {
  }

  /** A terminal mission event has been published, so the stored mission is terminal or deleted. */
  lemma PublishedMeansDone(w: World, id: Id)
    requires Sound(w) && TerminalEvents(w.published, id) > 0 && id in w.missions
    ensures IsTerminal(w.missions[id].status)
  {
    assert MissionSound(w, id);
  }

  lemma OneSubscription(n: nat)
    requires n < 3
    ensures Subscriptions(Subscribing(n)) + {TERMINAL_KINDS[n]} == Subscriptions(Subscribing(n + 1))
    ensures Subscriptions(Unsubscribing(n)) - {TERMINAL_KINDS[n]} == Subscriptions(Unsubscribing(n + 1))
  {
  }

  lemma AdvanceKeepsSafe(w: Wait, id: Id)
    requires Safe(w, id) && w.place != Blocking && w.place != Returned
    ensures Safe(Advanced(w, id), id)
  {
    if id in w.world.missions && TerminalEvents(w.world.published, id) > 0 { PublishedMeansDone(w.world, id); }
    if id in w.world.missions { assert MissionSound(w.world, id); }
    AdvanceKeepsSteady(w, id);
  }

  lemma AdvanceKeepsSteady(w: Wait, id: Id)
    requires Steady(w, id) && w.place != Blocking && w.place != Returned
    requires id in w.world.missions ==> id in w.world.history
    requires id in w.world.missions && TerminalEvents(w.world.published, id) > 0 ==> IsDone(Stored(w, id))
    ensures Steady(Advanced(w, id), id)
  {
    match w.place
    case Subscribing(n) => if n < 3 { OneSubscription(n); }
    case Unsubscribing(n) => if n < 3 { OneSubscription(n); }
    case _ =>
  }

  lemma {:induction false} RunsAreSafe(world: World, id: Id, acts: seq<Act>)
    requires Sound(world) && IsRun(Begin(world), id, acts)
    ensures Safe(Play(Begin(world), id, acts), id)
  {
    if acts != [] {
      RunsAreSafe(world, id, acts[..|acts| - 1]);
      var mid := Play(Begin(world), id, acts[..|acts| - 1]);
      match acts[|acts| - 1]
      case Other(s) => OtherKeepsSafe(mid, id, s);
      case Advance => AdvanceKeepsSafe(mid, id);
      case WakeUp =>
      case TimeOut =>
    }
  }

  /** Some terminal event of the mission was published when the waiter had made its subscriptions. */
  predicate PublishedToWaiter(world: World, id: Id, acts: seq<Act>) {
    acts != [] &&
    (var front, last := acts[..|acts| - 1], acts[|acts| - 1];
     var w := Play(Begin(world), id, front);
     || PublishedToWaiter(world, id, front)
     || (&& last.Other? && last.step.PublishStep?
         && last.step.event in w.world.outbox && last.step.event.id == id && last.step.event.kind in TERMINAL_KINDS
         && w.place in {LookingAgain, Blocking, Reading}))
  }

  lemma NextKeepsFlag(w: Wait, id: Id, a: Act)
    requires Enabled(w, a)
    ensures w.signalled ==> Next(w, id, a).signalled
    ensures a.Other? && a.step.PublishStep? && a.step.event in w.world.outbox && a.step.event.id == id ==>
              a.step.event.kind in w.subscribed ==> Next(w, id, a).signalled
  {
  }

  lemma {:induction false} PublishedSetsFlag(world: World, id: Id, acts: seq<Act>)
    requires Sound(world) && IsRun(Begin(world), id, acts) && PublishedToWaiter(world, id, acts)
    ensures Play(Begin(world), id, acts).signalled
  {
    var front := acts[..|acts| - 1];
    NextKeepsFlag(Play(Begin(world), id, front), id, acts[|acts| - 1]);
    if PublishedToWaiter(world, id, front) {
      PublishedSetsFlag(world, id, front);
    } else {
      RunsAreSafe(world, id, front);
    }
  }

  /** A blocked waiter whose flag is unset has missed nothing: no terminal event was published once
      it had subscribed, none at all unless its second look found the mission deleted, and if the
      mission is terminal in the store, the event that will wake it is owed and will set the flag. */
  lemma NoLostWakeUp(world: World, id: Id, acts: seq<Act>, w: Wait)
    requires Sound(world) && IsRun(Begin(world), id, acts) && w == Play(Begin(world), id, acts)
    requires w.place == Blocking && !w.signalled
    ensures !PublishedToWaiter(world, id, acts)
    ensures if w.missing then Stored(w, id).None? else TerminalEvents(w.world.published, id) == 0
    ensures IsDone(Stored(w, id)) ==>
              exists e :: e in w.world.outbox && e.id == id && Disturbed(w, id, PublishStep(e)).signalled
  {
    RunsAreSafe(world, id, acts);
    if PublishedToWaiter(world, id, acts) { PublishedSetsFlag(world, id, acts); }
    if IsDone(Stored(w, id)) {
      assert MissionSound(w.world, id);
      assert TerminalEvents(w.world.outbox, id) == 1;
      var k :| k in TERMINAL_KINDS && Event(k, id) in w.world.outbox;
      assert Disturbed(w, id, PublishStep(Event(k, id))).signalled;
    }
  }

  /** Every way out leaves no subscription behind; a waiter woken by the event returns a terminal
      mission, or none when it was deleted meanwhile; only a timeout returns an unfinished one. */
  lemma ReturnsDone(world: World, id: Id, acts: seq<Act>, w: Wait)
    requires Sound(world) && IsRun(Begin(world), id, acts) && w == Play(Begin(world), id, acts) && w.place == Returned
    ensures w.subscribed == {}
    ensures !w.timedOut ==> w.result.None? || IsTerminal(w.result.value.status)
    ensures w.missing ==> w.result.None?
  {
    RunsAreSafe(world, id, acts);
  }

  // ---------------------------------------------------------------------------
  // When the answer is None
  // ---------------------------------------------------------------------------

  /** The waiter has taken its answer. */
  predicate HasRead(p: Place) {
    p.Unsubscribing? || p == Returned
  }

  /** The mission was deleted at some point of the run at which the waiter had not taken its answer. */
  predicate DeletedBeforeRead(world: World, id: Id, acts: seq<Act>) {
    acts != [] &&
    (var front, last := acts[..|acts| - 1], acts[|acts| - 1];
     || DeletedBeforeRead(world, id, front)
     || (&& last.Other? && last.step.WriteStep? && last.step.op == Delete(id)
         && !HasRead(Play(Begin(world), id, front).place)))
  }

  /** An answer not yet taken will be None as things stand, or one that was taken is. */
  predicate AnswersNone(w: Wait, id: Id) {
    if HasRead(w.place) then w.result.None? else Stored(w, id).None?
  }

  lemma WriteStored(w: World, id: Id, s: Step)
    requires id in w.history
    ensures id in Apply(w, s).history
    ensures id in Apply(w, s).missions <==> id in w.missions && !(s.WriteStep? && s.op == Delete(id))
  {
    if s.WriteStep? && s.op.id != id {
      WriteElsewhere(w, s.op, s.now, id);
    }
  }

  lemma NextAnswer(w: Wait, id: Id, a: Act)
    requires Safe(w, id) && Enabled(w, a) && id in w.world.history
    ensures id in Next(w, id, a).world.history
    ensures AnswersNone(Next(w, id, a), id)
       <==> AnswersNone(w, id) || (a.Other? && a.step.WriteStep? && a.step.op == Delete(id) && !HasRead(w.place))
  {
    if a.Other? {
      WriteStored(w.world, id, a.step);
      assert Next(w, id, a).place == w.place && Next(w, id, a).result == w.result;
    }
  }

  lemma {:induction false} AnswerFollowsDeletion(world: World, id: Id, acts: seq<Act>)
    requires Sound(world) && id in world.history && IsRun(Begin(world), id, acts)
    ensures id in Play(Begin(world), id, acts).world.history
    ensures AnswersNone(Play(Begin(world), id, acts), id)
       <==> id !in world.missions || DeletedBeforeRead(world, id, acts)
  {
    if acts != [] {
      var front := acts[..|acts| - 1];
      AnswerFollowsDeletion(world, id, front);
      RunsAreSafe(world, id, front);
      NextAnswer(Play(Begin(world), id, front), id, acts[|acts| - 1]);
    }
  }

  /** In every run the answer for a mission that was ever created is None if and only if it was
      deleted before the call or before the answer was taken. How the wait ended does not matter:
      a timed-out wait, too, answers None exactly then. */
  lemma NoneIffDeleted(world: World, id: Id, acts: seq<Act>, w: Wait)
    requires Sound(world) && id in world.history
    requires IsRun(Begin(world), id, acts) && w == Play(Begin(world), id, acts) && HasRead(w.place)
    ensures w.result.None? <==> id !in world.missions || DeletedBeforeRead(world, id, acts)
  {
    AnswerFollowsDeletion(world, id, acts);
  }

  /** A mission that is finished or gone when the wait begins is answered by the first look, without any
      subscription. */
  lemma {:induction false} FirstLookAnswers(world: World, id: Id, acts: seq<Act>)
    requires Sound(world) && id in world.history && IsRun(Begin(world), id, acts)
    requires Stored(Begin(world), id).None? || IsDone(Stored(Begin(world), id))
    ensures var w := Play(Begin(world), id, acts);
            && w.place in {Looking, Returned} && w.subscribed == {} && id in w.world.history
            && (Stored(w, id).None? || IsDone(Stored(w, id)))
  {
    if acts != [] {
      var front, last := acts[..|acts| - 1], acts[|acts| - 1];
      FirstLookAnswers(world, id, front);
      RunsAreSafe(world, id, front);
      if last.Other? {
        StaysAnswered(Play(Begin(world), id, front).world, id, last.step);
      }
    }
  }

  lemma StaysAnswered(w: World, id: Id, s: Step)
    requires Sound(w) && id in w.history && (id in w.missions ==> IsTerminal(w.missions[id].status))
    ensures id in Apply(w, s).history
    ensures id in Apply(w, s).missions ==> IsTerminal(Apply(w, s).missions[id].status)
  {
    WriteStored(w, id, s);
    if id in w.missions && id in Apply(w, s).missions {
      assert MissionSound(w, id);
      WriteDone(w, id, s);
    }
  }

  /** The step finishes the mission: completes, fails or cancels it where the table allows that. */
  predicate Finishes(w: World, id: Id, a: Act) {
    && a.Other? && a.step.WriteStep? && a.step.op.id == id
    && Takes(w, a.step.op) && Target(a.step.op).Some? && IsTerminal(Target(a.step.op).value)
  }

  predicate FinishedBeforeRead(world: World, id: Id, acts: seq<Act>) {
    acts != [] &&
    (var front, last := acts[..|acts| - 1], acts[|acts| - 1];
     var w := Play(Begin(world), id, front);
     FinishedBeforeRead(world, id, front) || (Finishes(w.world, id, last) && !HasRead(w.place)))
  }

  predicate AnswersDone(w: Wait, id: Id) {
    if HasRead(w.place) then IsDone(w.result) else IsDone(Stored(w, id))
  }

  lemma WriteDone(w: World, id: Id, s: Step)
    requires id in w.missions && MissionSound(w, id) && id in Apply(w, s).missions
    ensures IsTerminal(Apply(w, s).missions[id].status)
       <==> IsTerminal(w.missions[id].status) || Finishes(w, id, Other(s))
  {
    if s.WriteStep? && s.op.id != id {
      WriteElsewhere(w, s.op, s.now, id);
    }
  }

  lemma NextDone(w: Wait, id: Id, a: Act)
    requires Safe(w, id) && Enabled(w, a) && id in w.world.history && !AnswersNone(Next(w, id, a), id)
    ensures AnswersDone(Next(w, id, a), id) <==> AnswersDone(w, id) || (Finishes(w.world, id, a) && !HasRead(w.place))
  {
    NextAnswer(w, id, a);
    if a.Other? && !HasRead(w.place) {
      assert MissionSound(w.world, id);
      WriteDone(w.world, id, a.step);
    }
  }

  lemma {:induction false} DoneFollowsFinish(world: World, id: Id, acts: seq<Act>)
    requires Sound(world) && id in world.history && IsRun(Begin(world), id, acts)
    requires !AnswersNone(Play(Begin(world), id, acts), id)
    ensures AnswersDone(Play(Begin(world), id, acts), id)
       <==> IsDone(Stored(Begin(world), id)) || FinishedBeforeRead(world, id, acts)
  {
    if acts != [] {
      var front, last := acts[..|acts| - 1], acts[|acts| - 1];
      var w := Play(Begin(world), id, front);
      RunsAreSafe(world, id, front);
      AnswerFollowsDeletion(world, id, front);
      NextAnswer(w, id, last);
      DoneFollowsFinish(world, id, front);
      NextDone(w, id, last);
    }
  }

  /** The documented answer, a terminal mission or else None, is given if and only if the mission
      was deleted or finished before the answer was taken. Every other wait was timed out. */
  lemma PromiseKeptIff(world: World, id: Id, acts: seq<Act>, w: Wait)
    requires Sound(world) && id in world.history
    requires IsRun(Begin(world), id, acts) && w == Play(Begin(world), id, acts) && HasRead(w.place)
    ensures w.result.None? || IsDone(w.result) <==>
              || id !in world.missions || IsDone(Stored(Begin(world), id))
              || DeletedBeforeRead(world, id, acts) || FinishedBeforeRead(world, id, acts)
    ensures !w.timedOut ==> w.result.None? || IsDone(w.result)
  {
    RunsAreSafe(world, id, acts);
    NoneIffDeleted(world, id, acts, w);
    if w.result.Some? {
      DoneFollowsFinish(world, id, acts);
    }
  }

  /** A timed-out wait answers None, as documented, if and only if the mission was deleted. */
  lemma TimeoutAnswersNoneIff(world: World, id: Id, acts: seq<Act>, w: Wait)
    requires Sound(world) && id in world.missions
    requires IsRun(Begin(world), id, acts) && w == Play(Begin(world), id, acts) && HasRead(w.place) && w.timedOut
    ensures w.result.None? <==> DeletedBeforeRead(world, id, acts)
  {
    assert MissionSound(world, id);
    NoneIffDeleted(world, id, acts, w);
  }

  function Distance(p: Place): nat {
    match p
    case Looking => 12
    case Subscribing(n) => if n <= 3 then 11 - n else 8
    case LookingAgain => 7
    case Blocking => 6
    case Reading => 5
    case Unsubscribing(n) => if n <= 3 then 4 - n else 1
    case Returned => 0
  }

  /** The waiter is never stuck, its own steps bring it strictly closer to returning, and nobody
      else's steps move it. */
  lemma WaiterReturns(w: Wait, id: Id)
    requires InBounds(w.place)
    ensures w.place != Returned ==> exists a: Act :: !a.Other? && Enabled(w, a)
    ensures forall a | Enabled(w, a) ::
              if a.Other? then Next(w, id, a).place == w.place else Distance(Next(w, id, a).place) < Distance(w.place)
  {
    assert Enabled(w, if w.place == Blocking then TimeOut else Advance) <==> w.place != Returned;
  }

  /** After a timeout the code returns the mission it reads, unfinished or not, although its own
      description promises none: left alone, a waiter for an unfinished mission ends like this. */
  lemma TimeoutReturnsUnfinished(world: World, id: Id) returns (acts: seq<Act>)
    requires Sound(world) && id in world.missions && !IsTerminal(world.missions[id].status)
    ensures IsRun(Begin(world), id, acts)
    ensures var w := Play(Begin(world), id, acts); w.place == Returned && w.result == Some(world.missions[id])
  {
    var w := Begin(world);
    acts := [];
    while w.place != Returned
      invariant IsRun(Begin(world), id, acts) && w == Play(Begin(world), id, acts)
      invariant w.world == world && InBounds(w.place)
      invariant w.place.Unsubscribing? || w.place == Returned ==> w.result == Some(world.missions[id])
      decreases Distance(w.place)
    {
      var a := if w.place == Blocking then TimeOut else Advance;
      WaiterReturns(w, id);
      assert (acts + [a])[..|acts|] == acts;
      acts, w := acts + [a], Next(w, id, a);
    }
  }
}
