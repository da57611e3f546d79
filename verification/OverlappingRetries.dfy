/** Retry calls that overlap: each tests its failed messages as it read them, and counts the retries
    up later, whatever has become of the rows by then. */
module OverlappingRetries {
  import opened Options
  import opened Messages
  import opened MessageStore
  import opened BusSteps

  /** `granted` counts, for each message, the calls that found it retriable and have not counted up yet. */
  datatype Racing = Racing(bus: Bus, granted: map<Id, nat>)

  datatype RaceStep = BusStep(step: Step) | Grant(id: Id) | Increment(id: Id)

  const START := Racing(EMPTY_BUS, map[])

  function Granted(r: Racing, id: Id): nat {
    if id in r.granted then r.granted[id] else 0
  }

  predicate CanGrant(b: Bus, id: Id) {
    id in b.repo.table && b.repo.table[id].status == Failed && b.repo.table[id].CanRetry()
  }

  function ApplyRace(r: Racing, s: RaceStep): Racing {
    match s
    case BusStep(step) => r.(bus := Apply(r.bus, step))
    case Grant(id) => if CanGrant(r.bus, id) then r.(granted := r.granted[id := Granted(r, id) + 1]) else r
    case Increment(id) =>
      if Granted(r, id) == 0 then r
      else Racing(r.bus.(repo := IncrementRetry(r.bus.repo, id)), r.granted[id := Granted(r, id) - 1])
  }

  function Race(steps: seq<RaceStep>): Racing {
    if steps == [] then START else ApplyRace(Race(steps[..|steps| - 1]), steps[|steps| - 1])
  }

  /** A retry is a grant and an increment here, so the bus's own retry step is not taken. */
  predicate IsRaceStep(s: RaceStep) {
    s.BusStep? ==> Allowed(s.step) && !s.step.RetryStep?
  }

  /** At no point of the run did more than `k` calls hold a grant for the same message. */
  ghost predicate OverlapsAtMost(steps: seq<RaceStep>, k: nat) {
    && (forall id :: Granted(Race(steps), id) <= k)
    && (steps == [] || OverlapsAtMost(steps[..|steps| - 1], k))
  }

  /** What all messages keep when at most `excess + 1` calls overlap. */
  ghost predicate RaceBounded(r: Racing, excess: nat) {
    && Bounded(r.bus, excess)
    && (forall id | id in r.granted :: id in r.bus.sent)
    && (forall id | id in r.bus.repo.table :: Fits(r, id, excess))
  }

  predicate Fits(r: Racing, id: Id, excess: nat)
    requires id in r.bus.repo.table
  {
    var m := r.bus.repo.table[id];
    m.retryCount + Granted(r, id) <= Max0(m.maxRetries) + excess
  }

  lemma BusStepCounts(b: Bus, s: Step, id: Id)
    requires !s.RetryStep? && Allowed(s)
    ensures b.sent.Keys <= Apply(b, s).sent.Keys
    ensures id in b.sent && id in Apply(b, s).repo.table ==>
              && id in b.repo.table
              && Apply(b, s).repo.table[id].retryCount == b.repo.table[id].retryCount
              && Apply(b, s).repo.table[id].maxRetries == b.repo.table[id].maxRetries
  {
  }

  lemma BusStepFits(r: Racing, s: Step, excess: nat)
    requires RaceBounded(r, excess) && Allowed(s) && !s.RetryStep?
    ensures RaceBounded(ApplyRace(r, BusStep(s)), excess)
  {
    StepKeepsBounded(r.bus, s, excess);
    var after := ApplyRace(r, BusStep(s));
    forall id | id in after.bus.repo.table ensures Fits(after, id, excess) {
      BusStepCounts(r.bus, s, id);
      if id in r.bus.sent {
        assert Fits(r, id, excess);
      } else {
        assert id !in r.granted && after.bus.repo.table[id].retryCount == 0;
      }
    }
  }

  lemma IncrementFits(r: Racing, id: Id, excess: nat)
    requires RaceBounded(r, excess)
    ensures RaceBounded(ApplyRace(r, Increment(id)), excess)
  {
    var after := ApplyRace(r, Increment(id));
    forall x | x in after.bus.repo.table ensures Fits(after, x, excess) {
      assert Fits(r, x, excess);
    }
    if Granted(r, id) > 0 && id in r.bus.repo.table {
      assert Fits(r, id, excess);
      CountUpKeepsBounded(r.bus, id, excess);
    }
  }

  lemma CountUpKeepsBounded(b: Bus, id: Id, excess: nat)
    requires Bounded(b, excess) && id in b.repo.table
    requires b.repo.table[id].retryCount < Max0(b.repo.table[id].maxRetries) + excess
    ensures Bounded(b.(repo := IncrementRetry(b.repo, id)), excess)
  {
    assert WithinBudget(b.repo.table[id], Count(b, id), excess);
  }

  lemma GrantFits(r: Racing, id: Id, excess: nat)
    requires RaceBounded(r, excess) && Granted(ApplyRace(r, Grant(id)), id) <= excess + 1
    ensures RaceBounded(ApplyRace(r, Grant(id)), excess)
  {
    var after := ApplyRace(r, Grant(id));
    forall x | x in after.bus.repo.table ensures Fits(after, x, excess) {
      assert Fits(r, x, excess);
    }
  }

  lemma {:induction false} RacesAreBounded(steps: seq<RaceStep>, excess: nat)
    requires (forall s | s in steps :: IsRaceStep(s)) && OverlapsAtMost(steps, excess + 1)
    ensures RaceBounded(Race(steps), excess)
  {
    if steps != [] {
      var before, last := Race(steps[..|steps| - 1]), steps[|steps| - 1];
      RacesAreBounded(steps[..|steps| - 1], excess);
      assert last in steps && IsRaceStep(last);
      match last
      case BusStep(s) => BusStepFits(before, s, excess);
      case Grant(id) =>
        assert Granted(Race(steps), id) <= excess + 1;
        GrantFits(before, id, excess);
      case Increment(id) => IncrementFits(before, id, excess);
    }
  }

  /** With at most `k` overlapping calls a message is retried at most `k - 1` times beyond its limit;
      its handler is still called at most once more than it was retried. */
  lemma OvershootIsBounded(steps: seq<RaceStep>, k: nat)
    requires (forall s | s in steps :: IsRaceStep(s)) && OverlapsAtMost(steps, k)
    ensures var b, excess := Race(steps).bus, if k == 0 then 0 else k - 1;
            && (forall id | id in b.repo.table ::
                  && b.repo.table[id].retryCount <= Max0(b.repo.table[id].maxRetries) + excess
                  && Count(b, id) <= b.repo.table[id].retryCount + 1)
            && (forall id | id in b.invoked :: id in b.sent && b.invoked[id] <= Max0(b.sent[id]) + excess + 1)
  {
    var b, excess := Race(steps).bus, if k == 0 then 0 else k - 1;
    WiderOverlap(steps, k, excess + 1);
    RacesAreBounded(steps, excess);
    forall id | id in b.invoked ensures b.invoked[id] <= Max0(b.sent[id]) + excess + 1 {
      assert Count(b, id) == b.invoked[id];
    }
  }

  lemma {:induction false} WiderOverlap(steps: seq<RaceStep>, k: nat, more: nat)
    requires OverlapsAtMost(steps, k) && k <= more
    ensures OverlapsAtMost(steps, more)
  {
    if steps != [] {
      WiderOverlap(steps[..|steps| - 1], k, more);
    }
  }

  ghost predicate LimitsKept(b: Bus) {
    forall id | id in b.repo.table :: b.repo.table[id].retryCount <= Max0(b.repo.table[id].maxRetries)
  }

  /** One step more of a run. */
  lemma RaceOn(steps: seq<RaceStep>, s: RaceStep)
    ensures Race(steps + [s]) == ApplyRace(Race(steps), s)
  {
    assert (steps + [s])[..|steps|] == steps;
  }

  lemma OverlapOn(steps: seq<RaceStep>, s: RaceStep, k: nat)
    requires OverlapsAtMost(steps, k) && forall id :: Granted(ApplyRace(Race(steps), s), id) <= k
    ensures OverlapsAtMost(steps + [s], k)
  {
    RaceOn(steps, s);
    assert (steps + [s])[..|steps|] == steps;
  }

  /** A run of allowed steps with at most `k` overlaps, after which "m", with one retry allowed, has been
      handled once and retried `retried` times, and `granted` calls hold a grant for it. */
  ghost predicate Prepared(steps: seq<RaceStep>, k: nat, retried: nat, granted: nat) {
    var r := Race(steps);
    && (forall s | s in steps :: IsRaceStep(s)) && OverlapsAtMost(steps, k)
    && "m" in r.bus.repo.table
    && r.bus.repo.table["m"].maxRetries == 1 && r.bus.repo.table["m"].retryCount == retried
    && Count(r.bus, "m") == 1
    && (forall id :: Granted(r, id) == if id == "m" then granted else 0)
  }

  lemma BusStepOn(steps: seq<RaceStep>, s: Step, k: nat)
    requires OverlapsAtMost(steps, k) && Race(steps).granted == map[]
    ensures var more := steps + [BusStep(s)];
            OverlapsAtMost(more, k) && Race(more) == Racing(Apply(Race(steps).bus, s), map[])
  {
    RaceOn(steps, BusStep(s));
    OverlapOn(steps, BusStep(s), k);
  }

  const FIRST := NewMessage("m", "a", Some("b"), "request", Normal, 0, None, 1)

  lemma SendOnce(k: nat) returns (steps: seq<RaceStep>)
    ensures (forall s | s in steps :: IsRaceStep(s)) && OverlapsAtMost(steps, k) && Race(steps).granted == map[]
    ensures var b := Race(steps).bus;
            b.repo.table == map["m" := FIRST] && CanDeliver(b, "m") && Accepts(b, FIRST) && Count(b, "m") == 0
  {
    var register, send := RegisterStep("b", {"request"}), SendStep(FIRST, {});
    steps := [];
    BusStepOn(steps, register, k);
    steps := steps + [BusStep(register)];
    BusStepOn(steps, send, k);
    steps := steps + [BusStep(send)];
    assert steps == [BusStep(register), BusStep(send)];
  }

  /** A handler is registered, the message is sent to it and delivered, and the handler raises. */
  lemma FailOnce(k: nat) returns (steps: seq<RaceStep>)
    ensures Prepared(steps, k, 0, 0) && CanGrant(Race(steps).bus, "m")
  {
    var deliver, fail := DeliverStep("m", 1), HandlerRaisedStep("m", "failed", 2);
    var sent := SendOnce(k);
    BusStepOn(sent, deliver, k);
    var delivered := sent + [BusStep(deliver)];
    assert Count(Race(delivered).bus, "m") == 1;
    BusStepOn(delivered, fail, k);
    steps := delivered + [BusStep(fail)];
  }

  lemma GrantOnce(steps: seq<RaceStep>, k: nat, granted: nat)
    requires Prepared(steps, k, 0, granted) && CanGrant(Race(steps).bus, "m") && granted < k
    ensures Prepared(steps + [Grant("m")], k, 0, granted + 1) && CanGrant(Race(steps + [Grant("m")]).bus, "m")
  {
    var r := Race(steps);
    RaceOn(steps, Grant("m"));
    assert ApplyRace(r, Grant("m")) == r.(granted := r.granted["m" := granted + 1]) by {
      assert Granted(r, "m") == granted;
    }
    forall id ensures Granted(ApplyRace(r, Grant("m")), id) == if id == "m" then granted + 1 else 0 {
      assert Granted(r, id) == if id == "m" then granted else 0;
    }
    OverlapOn(steps, Grant("m"), k);
  }

  lemma IncrementOnce(steps: seq<RaceStep>, k: nat, retried: nat, granted: nat)
    requires Prepared(steps, k, retried, granted) && 0 < granted <= k
    ensures Prepared(steps + [Increment("m")], k, retried + 1, granted - 1)
  {
    var r := Race(steps);
    RaceOn(steps, Increment("m"));
    assert Granted(r, "m") == granted;
    forall id ensures Granted(ApplyRace(r, Increment("m")), id) == if id == "m" then granted - 1 else 0 {
      assert Granted(r, id) == if id == "m" then granted else 0;
    }
    OverlapOn(steps, Increment("m"), k);
  }

  /** The bound is met: `k` calls that all find a message failed once, with one retry left, retry it
      `k` times. */
  lemma OvershootIsReached(k: nat) returns (steps: seq<RaceStep>)
    ensures (forall s | s in steps :: IsRaceStep(s)) && OverlapsAtMost(steps, k)
    ensures var table := Race(steps).bus.repo.table;
            "m" in table && table["m"].maxRetries == 1 && table["m"].retryCount == k
  {
    steps := FailOnce(k);
    for i := 0 to k
      invariant Prepared(steps, k, 0, i) && CanGrant(Race(steps).bus, "m")
    {
      GrantOnce(steps, k, i);
      steps := steps + [Grant("m")];
    }
    for i := 0 to k
      invariant Prepared(steps, k, i, k - i)
    {
      IncrementOnce(steps, k, i, k - i);
      steps := steps + [Increment("m")];
    }
  }

  /** The retry limit is kept in all runs with at most `k` overlapping calls exactly when no two overlap. */
  lemma LimitKeptIffNoOverlap(k: nat)
    ensures (forall steps | (forall s | s in steps :: IsRaceStep(s)) && OverlapsAtMost(steps, k) ::
               LimitsKept(Race(steps).bus))
       <==> k <= 1
  {
    if k <= 1 {
      forall steps | (forall s | s in steps :: IsRaceStep(s)) && OverlapsAtMost(steps, k)
        ensures LimitsKept(Race(steps).bus)
      {
        OvershootIsBounded(steps, k);
      }
    } else {
      var steps := OvershootIsReached(k);
      assert !LimitsKept(Race(steps).bus);
    }
  }
}
