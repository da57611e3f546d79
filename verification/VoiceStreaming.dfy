/** `_stream_chunks_async`: a producer thread feeds a queue of one item, an async consumer
    drains it and yields, and the two advance in any interleaving. */
module VoiceStreaming {
  import opened Options

  type Chunk = string

  /** What the driver's generator does: yield some chunks, then stop or raise. */
  datatype Driver = Driver(chunks: seq<Chunk>, error: Option<string>)

  datatype Item = ChunkItem(chunk: Chunk) | ErrorItem(message: string) | Sentinel

  datatype Out = Yielded(chunk: Chunk) | FinalError(message: string)

  /** The producer asks the driver for its next chunk, or blocks offering an item to the queue. */
  datatype Producer =
    | Pulling(next: nat)
    | OfferingChunk(next: nat)
    | OfferingError
    | OfferingSentinel
    | Finished

  /** The consumer checks for a disconnect, waits for an item, or has left its loop. */
  datatype Consumer = Checking | Getting | Stopped(disconnected: bool)

  datatype Stream = Stream(
    producer: Producer,
    queue: seq<Item>,
    consumer: Consumer,
    consumed: seq<Item>,
    yielded: seq<Out>)

  datatype Act = Produce | Check | Disconnect | Take

  const QUEUE_SIZE := 1

  function Start(): Stream {
    Stream(Pulling(0), [], Checking, [], [])
  }

  /** A disconnect is noticed by the check, or cancels the consumer while it yields or waits. */
  predicate Enabled(s: Stream, a: Act) {
    match a
    case Produce => s.producer != Finished && (!s.producer.Pulling? ==> |s.queue| < QUEUE_SIZE)
    case Check => s.consumer == Checking
    case Disconnect => !s.consumer.Stopped?
    case Take => s.consumer == Getting && |s.queue| > 0
  }

  function Offered(d: Driver, p: Producer): Option<Item> {
    match p
    case OfferingChunk(i) => if i < |d.chunks| then Some(ChunkItem(d.chunks[i])) else None
    case OfferingError => if d.error.Some? then Some(ErrorItem(d.error.value)) else None
    case OfferingSentinel => Some(Sentinel)
    case _ => None
  }

  function Moved(d: Driver, p: Producer): Producer {
    match p
    case Pulling(i) =>
      if i < |d.chunks| then OfferingChunk(i) else if d.error.Some? then OfferingError else OfferingSentinel
    case OfferingChunk(i) => Pulling(i + 1)
    case OfferingError => OfferingSentinel
    case OfferingSentinel | Finished => Finished
  }

  function Taken(s: Stream, item: Item, rest: seq<Item>): Stream {
    var t := s.(queue := rest, consumed := s.consumed + [item]);
    match item
    case Sentinel => t.(consumer := Stopped(false))
    case ErrorItem(m) => t.(consumer := Stopped(false), yielded := s.yielded + [FinalError(m)])
    case ChunkItem(c) => t.(consumer := Checking, yielded := s.yielded + [Yielded(c)])
  }

  function Next(d: Driver, s: Stream, a: Act): Stream {
    match a
    case Produce =>
      s.(producer := Moved(d, s.producer),
         queue := if Offered(d, s.producer).Some? then s.queue + [Offered(d, s.producer).value] else s.queue)
    case Check => s.(consumer := Getting)
    case Disconnect => s.(consumer := Stopped(true))
    case Take => if |s.queue| > 0 then Taken(s, s.queue[0], s.queue[1..]) else s
  }

  function Play(d: Driver, acts: seq<Act>): Stream {
    if acts == [] then Start() else Next(d, Play(d, acts[..|acts| - 1]), acts[|acts| - 1])
  }

  predicate IsRun(d: Driver, acts: seq<Act>) {
    acts == [] || (IsRun(d, acts[..|acts| - 1]) && Enabled(Play(d, acts[..|acts| - 1]), acts[|acts| - 1]))
  }

  /** Everything the producer will ever put, in order. */
  function Script(d: Driver): seq<Item> {
    seq(|d.chunks|, i requires 0 <= i < |d.chunks| => ChunkItem(d.chunks[i]))
      + (if d.error.Some? then [ErrorItem(d.error.value)] else []) + [Sentinel]
  }

  /** What a client that stays connected should receive. */
  function Expected(d: Driver): seq<Out> {
    seq(|d.chunks|, i requires 0 <= i < |d.chunks| => Yielded(d.chunks[i]))
      + if d.error.Some? then [FinalError(d.error.value)] else []
  }

  predicate InPlace(d: Driver, p: Producer) {
    match p
    case Pulling(i) => i <= |d.chunks|
    case OfferingChunk(i) => i < |d.chunks|
    case OfferingError => d.error.Some?
    case _ => true
  }

  /** What the producer still has to put. */
  function Pending(d: Driver, p: Producer): seq<Item>
    requires InPlace(d, p)
  {
    match p
    case Pulling(i) => Script(d)[i..]
    case OfferingChunk(i) => Script(d)[i..]
    case OfferingError => Script(d)[|d.chunks|..]
    case OfferingSentinel => [Sentinel]
    case Finished => []
  }

  /** Nothing is lost, repeated or reordered: what was consumed, what is queued and what is
      still to come make up the script. */
  ghost predicate Conserved(d: Driver, s: Stream) {
    && InPlace(d, s.producer)
    && |s.queue| <= QUEUE_SIZE
    && s.consumed + s.queue + Pending(d, s.producer) == Script(d)
    && |s.yielded| <= |Expected(d)| && s.yielded == Expected(d)[..|s.yielded|]
    && |s.yielded| == (if |s.consumed| <= |Expected(d)| then |s.consumed| else |Expected(d)|)
    && (s.consumer in {Checking, Getting} ==> |s.consumed| <= |d.chunks|)
    && (s.consumer == Stopped(false) ==> s.yielded == Expected(d) && |s.consumed| > |d.chunks|)
  }

  lemma Regroup(a: seq<Item>, b: seq<Item>, x: Item, c: seq<Item>)
    ensures a + (b + [x]) + c == a + b + ([x] + c)
  {
  }

  /** A producer step moves one item from what is still to come to the queue, or none. */
  lemma ProduceMoves(d: Driver, p: Producer)
    requires InPlace(d, p) && p != Finished
    ensures InPlace(d, Moved(d, p))
    ensures Pending(d, p) == (if Offered(d, p).Some? then [Offered(d, p).value] else []) + Pending(d, Moved(d, p))
  {
    match p
    case OfferingChunk(i) => assert Script(d)[i..] == [Script(d)[i]] + Script(d)[i + 1..];
    case OfferingError => assert Script(d)[|d.chunks|..] == [ErrorItem(d.error.value), Sentinel];
    case _ =>
  }

  lemma ProduceConserves(d: Driver, s: Stream)
    requires Conserved(d, s) && Enabled(s, Produce)
    ensures Conserved(d, Next(d, s, Produce))
  {
    ProduceMoves(d, s.producer);
    var offered := Offered(d, s.producer);
    if offered.Some? {
      Regroup(s.consumed, s.queue, offered.value, Pending(d, Moved(d, s.producer)));
    }
  }

  lemma TakeMoves(d: Driver, s: Stream)
    requires Conserved(d, s) && Enabled(s, Take)
    ensures |s.consumed| < |Script(d)| && s.queue == [Script(d)[|s.consumed|]]
    ensures s.consumed + [s.queue[0]] + [] + Pending(d, s.producer) == Script(d)
  {
    assert s.queue == [s.queue[0]];
    assert s.consumed + [s.queue[0]] + [] == s.consumed + s.queue;
    assert (s.consumed + s.queue + Pending(d, s.producer))[|s.consumed|] == s.queue[0];
  }

  lemma ScriptAt(d: Driver, i: nat)
    requires i < |Script(d)|
    ensures i < |d.chunks| ==> Script(d)[i] == ChunkItem(d.chunks[i]) && Expected(d)[i] == Yielded(d.chunks[i])
    ensures i == |d.chunks| && d.error.Some? ==>
              Script(d)[i] == ErrorItem(d.error.value) && Expected(d)[i] == FinalError(d.error.value)
    ensures i == |d.chunks| && d.error.None? ==> Script(d)[i] == Sentinel && |Expected(d)| == i
    ensures |Expected(d)| == |Script(d)| - 1
  {
  }

  lemma TakeConserves(d: Driver, s: Stream)
    requires Conserved(d, s) && Enabled(s, Take)
    ensures Conserved(d, Next(d, s, Take))
  {
    TakeMoves(d, s);
    ScriptAt(d, |s.consumed|);
    var i := |s.consumed|;
    if i < |Expected(d)| {
      assert Expected(d)[..i] + [Expected(d)[i]] == Expected(d)[..i + 1];
    }
  }

  /** In every interleaving the queue never holds more than one item and the items are conserved. */
  lemma {:induction false} RunsConserve(d: Driver, acts: seq<Act>)
    requires IsRun(d, acts)
    ensures Conserved(d, Play(d, acts))
  {
    if acts == [] {
      assert [] + [] + Script(d)[0..] == Script(d);
    } else {
      RunsConserve(d, acts[..|acts| - 1]);
      var s := Play(d, acts[..|acts| - 1]);
      match acts[|acts| - 1]
      case Produce => ProduceConserves(d, s);
      case Take => TakeConserves(d, s);
      case _ =>
    }
  }

  /** What the client has received is always a prefix of what the driver produced. */
  lemma YieldsAPrefix(d: Driver, acts: seq<Act>)
    requires IsRun(d, acts)
    ensures |Play(d, acts).queue| <= QUEUE_SIZE
    ensures Play(d, acts).yielded <= Expected(d)
    ensures forall i | 0 <= i < |Play(d, acts).yielded| ::
              Play(d, acts).yielded[i]
                == if i < |d.chunks| then Yielded(d.chunks[i])
                   else FinalError(if d.error.Some? then d.error.value else "")
  {
    RunsConserve(d, acts);
  }

  /** With no disconnect, a run that cannot go on has yielded every chunk, and one final error
      chunk exactly when the driver raised; the producer has finished too. */
  lemma CompleteWithoutDisconnect(d: Driver, acts: seq<Act>)
    requires IsRun(d, acts) && Disconnect !in acts
    requires forall a | a != Disconnect :: !Enabled(Play(d, acts), a)
    ensures var s := Play(d, acts); s.yielded == Expected(d) && s.consumer == Stopped(false) && s.producer == Finished
    ensures (exists m :: FinalError(m) in Play(d, acts).yielded) <==> d.error.Some?
    ensures var out, n := Play(d, acts).yielded, |d.chunks|;
            && |out| == n + (if d.error == None then 0 else 1)
            && (d.error.Some? ==> out[n] == FinalError(d.error.value))
            && forall i | 0 <= i < n :: out[i] == Yielded(d.chunks[i])
  {
    var s := Play(d, acts);
    RunsConserve(d, acts);
    NeverDisconnected(d, acts);
    assert !Enabled(s, Produce) && !Enabled(s, Check) && !Enabled(s, Take);
    assert |s.consumed| + |s.queue| + |Pending(d, s.producer)| == |Script(d)|;
    if d.error.Some? {
      assert Expected(d)[|d.chunks|] == FinalError(d.error.value);
    }
  }

  lemma {:induction false} NeverDisconnected(d: Driver, acts: seq<Act>)
    requires IsRun(d, acts) && Disconnect !in acts
    ensures Play(d, acts).consumer != Stopped(true)
  {
    if acts != [] {
      NeverDisconnected(d, acts[..|acts| - 1]);
      assert acts[|acts| - 1] in acts;
    }
  }

  function Checks(acts: seq<Act>): nat {
    if acts == [] then 0 else Checks(acts[..|acts| - 1]) + if acts[|acts| - 1] == Check then 1 else 0
  }

  /** The connection is checked before every single item: there are as many checks as items taken, and one
      more while an item is awaited. */
  lemma {:induction false} ChecksBeforeItems(d: Driver, acts: seq<Act>)
    requires IsRun(d, acts)
    ensures var s := Play(d, acts);
            && |s.consumed| <= Checks(acts) <= |s.consumed| + 1
            && (s.consumer == Checking ==> Checks(acts) == |s.consumed|)
            && (s.consumer == Getting ==> Checks(acts) == |s.consumed| + 1)
  {
    if acts != [] {
      ChecksBeforeItems(d, acts[..|acts| - 1]);
    }
  }

  /** A bound on the number of steps both sides can still take. */
  function Work(d: Driver, s: Stream): nat
    requires InPlace(d, s.producer)
  {
    4 * |Pending(d, s.producer)| + (if s.producer.Pulling? then 1 else 0)
      + 2 * |s.queue| + if s.consumer == Checking then 2 else if s.consumer == Getting then 1 else 0
  }

  /** Every step of either side uses some of it up, so every run ends. */
  lemma EveryStepWorks(d: Driver, acts: seq<Act>, a: Act)
    requires IsRun(d, acts) && Enabled(Play(d, acts), a)
    ensures InPlace(d, Play(d, acts).producer) && InPlace(d, Next(d, Play(d, acts), a).producer)
    ensures Work(d, Next(d, Play(d, acts), a)) < Work(d, Play(d, acts))
  {
    RunsConserve(d, acts);
    StepWorks(d, Play(d, acts), a);
  }

  lemma StepWorks(d: Driver, s: Stream, a: Act)
    requires Conserved(d, s) && Enabled(s, a)
    ensures InPlace(d, Next(d, s, a).producer) && Work(d, Next(d, s, a)) < Work(d, s)
  {
    if a == Produce {
      assert Offered(d, s.producer).Some? ==>
          |Pending(d, s.producer)| == 1 + |Pending(d, Moved(d, s.producer))|;
    }
  }

  lemma {:induction false} RunsAreBounded(d: Driver, acts: seq<Act>)
    requires IsRun(d, acts)
    ensures InPlace(d, Play(d, acts).producer) && |acts| + Work(d, Play(d, acts)) <= 4 * |Script(d)| + 3
  {
    RunsConserve(d, acts);
    if acts != [] {
      RunsAreBounded(d, acts[..|acts| - 1]);
      EveryStepWorks(d, acts[..|acts| - 1], acts[|acts| - 1]);
    }
  }

  /** After a disconnect, whether seen by the check or cancelling the wait for an item, the producer
      thread ends only if at most one item was left to take: otherwise it blocks forever on the full queue. */
  lemma ProducerEndsIff(d: Driver, acts: seq<Act>)
    requires IsRun(d, acts) && Play(d, acts).consumer == Stopped(true)
    requires forall a :: !Enabled(Play(d, acts), a)
    ensures Play(d, acts).producer == Finished <==> |Play(d, acts).consumed| >= |Script(d)| - 1
  {
    var s := Play(d, acts);
    RunsConserve(d, acts);
    assert !Enabled(s, Produce);
    assert |s.consumed| + |s.queue| + |Pending(d, s.producer)| == |Script(d)|;
  }
}
