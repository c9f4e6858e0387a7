/** Reconcile of errand_reconciler.go: the sequence of API calls of one reconcile, as an
    automaton over the answers it receives, and the imperative method that follows it. */
module ErrandReconciler {
  import opened Types

  /** ReconcileSkipDuration. */
  const SKIP: Time := 10_000_000_000
  /** The delay after `Create` reports a missing reference. */
  const RETRY: Time := 5_000_000_000

  /** The meltdown window contains exactly the instants of [last, last + SKIP). */
  predicate InWindow(last: Time, now: Time) {
    last <= now < last + SKIP
  }

  datatype Result = Nothing | Failure | After(delay: Time)

  datatype Call = Get | ReadClock | StatusUpdate(sent: QuarksJob) | Update(sent: QuarksJob) | CreateJob(sent: QuarksJob)

  /** An update that is stored answers with the object as stored.  `JobMade` is a create
      result without retry or error, whether the Job is new or one is already running. */
  datatype Answer = Found(q: QuarksJob) | NotFound | Failed | Clock(now: Time) | Stored(q: QuarksJob) | JobMade | JobRetry

  /** Where a reconcile stands: the call it makes next, with its copy of the QuarksJob as
      it will be sent. */
  datatype Pc =
    | Getting
    | Checking(q: QuarksJob)
    | Stamping(q: QuarksJob)
    | Clearing(q: QuarksJob)
    | Reverting(q: QuarksJob)
    | Creating(q: QuarksJob)
    | Finishing(q: QuarksJob)
    | Returned(result: Result)

  function WithStamp(q: QuarksJob, t: Option<Time>): QuarksJob {
    q.(status := q.status.(lastReconcile := t))
  }

  function WithStrategy(q: QuarksJob, s: Strategy): QuarksJob {
    q.(spec := q.spec.(strategy := s))
  }

  function Request(pc: Pc): Call
    requires !pc.Returned?
  {
    match pc
    case Getting => Get
    case Checking(_) => ReadClock
    case Stamping(q) => StatusUpdate(q)
    case Clearing(q) => StatusUpdate(q)
    case Reverting(q) => Update(q)
    case Creating(q) => CreateJob(q)
    case Finishing(q) => Update(q)
  }

  function Next(pc: Pc, a: Answer): Pc
    requires !pc.Returned?
  {
    match (pc, a)
    case (Getting, Found(q)) => Checking(q)
    case (Getting, NotFound) => Returned(Nothing)
    case (Checking(q), _) => AfterClock(q, TimeOf(a))
    case (Stamping(_), Stored(_)) => Returned(After(SKIP))
    case (Clearing(_), Stored(q)) => if q.spec.strategy == Now then Reverting(WithStrategy(q, Manual)) else Creating(q)
    case (Reverting(_), Stored(q)) => Creating(q)
    case (Creating(q), JobMade) => if q.spec.strategy == Once then Finishing(WithStrategy(q, Done)) else Returned(Nothing)
    case (Creating(_), JobRetry) => Returned(After(RETRY))
    case (Finishing(_), _) => Returned(Nothing)
    case _ => Returned(Failure)
  }

  /** Reading the clock cannot fail; whatever else the outside says is some time. */
  function TimeOf(a: Answer): Time {
    if a.Clock? then a.now else 0
  }

  function AfterClock(q: QuarksJob, now: Time): Pc {
    match q.status.lastReconcile
    case None => Stamping(WithStamp(q, Some(now)))
    case Some(last) => if InWindow(last, now) then Returned(Nothing) else Clearing(WithStamp(q, None))
  }

  function Rank(pc: Pc): nat {
    match pc
    case Getting => 6
    case Checking(_) => 5
    case Stamping(_) => 1
    case Clearing(_) => 4
    case Reverting(_) => 3
    case Creating(_) => 2
    case Finishing(_) => 1
    case Returned(_) => 0
  }

  // ----- complete episodes -----

  datatype Exchange = Exchange(call: Call, answer: Answer)

  /** What the outside answers to the n-th call: any function at all, so every interleaving
      of other writers, every failure and every stale read is one of these. */
  type World = (nat, Call) -> Answer

  datatype Episode = Episode(trace: seq<Exchange>, result: Result)

  /** The complete episode of the automaton that has come to `pc` with the given trace. */
  ghost function Run(pc: Pc, world: World, trace: seq<Exchange>): Episode
    decreases Rank(pc)
  {
    if pc.Returned? then
      Episode(trace, pc.result)
    else
      var a := world(|trace|, Request(pc));
      Run(Next(pc, a), world, trace + [Exchange(Request(pc), a)])
  }

  // ----- what an episode looks like -----

  /** The exchanges of `t` from the n-th on are those of a complete reconcile that returned `r`:
      it reads the object, then the clock if there is an object; an object without a timestamp
      gets one and the reconcile asks to be called again ten seconds later; inside those ten
      seconds it does nothing. */
  ghost predicate LegalEpisode(t: seq<Exchange>, n: nat, r: Result) {
    |t| > n && t[n].call == Get &&
    match t[n].answer
    case Found(q) =>
      |t| > n + 1 && t[n + 1].call == ReadClock &&
      (t[n + 1].answer.Clock? ==> LegalAfterClock(q, t[n + 1].answer.now, t, n + 2, r))
    case NotFound => |t| == n + 1 && r == Nothing
    case _ => |t| == n + 1 && r == Failure
  }

  ghost predicate LegalAfterClock(q: QuarksJob, now: Time, t: seq<Exchange>, n: nat, r: Result) {
    match q.status.lastReconcile
    case None =>
      |t| == n + 1 && t[n].call == StatusUpdate(q.(status := Status(Some(now), q.status.completed))) &&
      r == (if t[n].answer.Stored? then After(10_000_000_000) else Failure)
    case Some(last) =>
      if last <= now < last + 10_000_000_000 then |t| == n && r == Nothing
      else LegalEnding(q.(status := Status(None, q.status.completed)), t, n, r)
  }

  /** After them it clears the timestamp, moves `now` back to `manual`, and asks for a Job with
      the object as last stored. */
  ghost predicate LegalEnding(cleared: QuarksJob, t: seq<Exchange>, n: nat, r: Result) {
    |t| > n && t[n].call == StatusUpdate(cleared) &&
    match t[n].answer
    case Stored(q) =>
      if q.spec.strategy != Now then LegalCreate(q, t, n + 1, r)
      else
        |t| > n + 1 && t[n + 1].call == Update(q.(spec := q.spec.(strategy := Manual))) &&
        (match t[n + 1].answer
         case Stored(m) => LegalCreate(m, t, n + 2, r)
         case _ => |t| == n + 2 && r == Failure)
    case _ => |t| == n + 1 && r == Failure
  }

  /** A Job made for a `once` object is followed by exactly one call, which moves it to `done`,
      and by none for any other object; a missing reference is retried five seconds later. */
  ghost predicate LegalCreate(q: QuarksJob, t: seq<Exchange>, n: nat, r: Result) {
    |t| > n && t[n].call == CreateJob(q) &&
    match t[n].answer
    case JobMade =>
      r == Nothing &&
      (if q.spec.strategy == Once
       then |t| == n + 2 && t[n + 1].call == Update(q.(spec := q.spec.(strategy := Done)))
       else |t| == n + 1)
    case JobRetry => |t| == n + 1 && r == After(5_000_000_000)
    case _ => |t| == n + 1 && r == Failure
  }

  /** From the n-th exchange on, `t` follows the automaton from `pc` to its end. */
  ghost predicate Follows(pc: Pc, t: seq<Exchange>, n: nat, r: Result)
    decreases Rank(pc)
  {
    if pc.Returned? then |t| == n && pc.result == r
    else |t| > n && t[n].call == Request(pc) && Follows(Next(pc, t[n].answer), t, n + 1, r)
  }

  lemma {:induction false} RunFollows(pc: Pc, world: World, trace: seq<Exchange>)
    ensures var e := Run(pc, world, trace); trace <= e.trace && Follows(pc, e.trace, |trace|, e.result)
    decreases Rank(pc)
  {
    if !pc.Returned? {
      var a := world(|trace|, Request(pc));
      var more := trace + [Exchange(Request(pc), a)];
      RunFollows(Next(pc, a), world, more);
      assert Run(pc, world, trace).trace[|trace|] == more[|trace|];
    }
  }

  lemma CreateIsLegal(q: QuarksJob, t: seq<Exchange>, n: nat, r: Result)
    requires Follows(Creating(q), t, n, r)
    ensures LegalCreate(q, t, n, r)
  {
    var next := Next(Creating(q), t[n].answer);
    assert Follows(next, t, n + 1, r);
    if next.Finishing? {
      assert Follows(Next(next, t[n + 1].answer), t, n + 2, r);
    }
  }

  lemma EndingIsLegal(cleared: QuarksJob, t: seq<Exchange>, n: nat, r: Result)
    requires Follows(Clearing(cleared), t, n, r)
    ensures LegalEnding(cleared, t, n, r)
  {
    var next := Next(Clearing(cleared), t[n].answer);
    assert Follows(next, t, n + 1, r);
    if next.Creating? {
      CreateIsLegal(next.q, t, n + 1, r);
    } else if next.Reverting? {
      var last := Next(next, t[n + 1].answer);
      assert Follows(last, t, n + 2, r);
      if last.Creating? {
        CreateIsLegal(last.q, t, n + 2, r);
      }
    }
  }

  lemma AfterClockIsLegal(q: QuarksJob, now: Time, t: seq<Exchange>, n: nat, r: Result)
    requires Follows(AfterClock(q, now), t, n, r)
    ensures LegalAfterClock(q, now, t, n, r)
  {
    var pc := AfterClock(q, now);
    if pc.Clearing? {
      EndingIsLegal(pc.q, t, n, r);
    } else if pc.Stamping? {
      assert Follows(Next(pc, t[n].answer), t, n + 1, r);
    }
  }

  /** Every episode of the automaton is legal. */
  lemma EpisodesAreLegal(t: seq<Exchange>, n: nat, r: Result)
    requires Follows(Getting, t, n, r)
    ensures LegalEpisode(t, n, r)
  {
    var next := Next(Getting, t[n].answer);
    assert Follows(next, t, n + 1, r);
    if next.Checking? {
      assert Follows(Next(next, t[n + 1].answer), t, n + 2, r);
      if t[n + 1].answer.Clock? {
        AfterClockIsLegal(next.q, t[n + 1].answer.now, t, n + 2, r);
      }
    }
  }

  lemma RunIsLegal(world: World, trace: seq<Exchange>)
    ensures var e := Run(Getting, world, trace); LegalEpisode(e.trace, |trace|, e.result)
  {
    var e := Run(Getting, world, trace);
    RunFollows(Getting, world, trace);
    EpisodesAreLegal(e.trace, |trace|, e.result);
  }

  lemma RunEndsLegally(cleared: QuarksJob, world: World, trace: seq<Exchange>)
    ensures var e := Run(Clearing(cleared), world, trace); LegalEnding(cleared, e.trace, |trace|, e.result)
  {
    var e := Run(Clearing(cleared), world, trace);
    RunFollows(Clearing(cleared), world, trace);
    EndingIsLegal(cleared, e.trace, |trace|, e.result);
  }

  lemma RunCreatesLegally(q: QuarksJob, world: World, trace: seq<Exchange>)
    ensures var e := Run(Creating(q), world, trace); LegalCreate(q, e.trace, |trace|, e.result)
  {
    var e := Run(Creating(q), world, trace);
    RunFollows(Creating(q), world, trace);
    CreateIsLegal(q, e.trace, |trace|, e.result);
  }

  // ----- the code -----

  class Client {
    const world: World
    ghost var trace: seq<Exchange>
    var calls: nat

    ghost predicate Valid() reads this { calls == |trace| }

    constructor (world: World)
      ensures Valid() && this.world == world && trace == []
    {
      this.world := world;
      trace, calls := [], 0;
    }

    /** One call, made by a reconcile that stands at `pc`. */
    method Do(call: Call, ghost pc: Pc) returns (a: Answer)
      requires Valid() && !pc.Returned? && call == Request(pc)
      modifies this
      ensures Valid()
      ensures a == world(|old(trace)|, call)
      ensures trace == old(trace) + [Exchange(call, a)]
      ensures Run(pc, world, old(trace)) == Run(Next(pc, a), world, trace)
    {
      a := world(calls, call);
      calls := calls + 1;
      trace := trace + [Exchange(call, a)];
    }
  }

  class Reconciler {
    const client: Client

    constructor (client: Client)
      ensures this.client == client
    {
      this.client := client;
    }

    /** One reconcile makes exactly the calls of the automaton, in order, and returns its
        result, whatever it is answered; so its calls and its result are those of a legal
        episode. */
    method Reconcile() returns (result: Result)
      requires client.Valid()
      modifies client
      ensures client.Valid()
      ensures Run(Getting, client.world, old(client.trace)) == Episode(client.trace, result)
      ensures LegalEpisode(client.trace, |old(client.trace)|, result)
    {
      RunIsLegal(client.world, client.trace);
      var got := client.Do(Get, Getting);
      if got.NotFound? {
        return Nothing;
      }
      if !got.Found? {
        return Failure;
      }
      var qJob := got.q;
      var clock := client.Do(ReadClock, Checking(qJob));
      var now := TimeOf(clock);
      if qJob.status.lastReconcile == None {
        qJob := WithStamp(qJob, Some(now));
        var stamped := client.Do(StatusUpdate(qJob), Stamping(qJob));
        if !stamped.Stored? {
          return Failure;
        }
        return After(SKIP);
      }
      if InWindow(qJob.status.lastReconcile.value, now) {
        return Nothing;
      }
      qJob := WithStamp(qJob, None);
      result := Proceed(qJob);
    }

    /** After the meltdown has ended: clear the timestamp, revert `now`, and start the Job. */
    method Proceed(cleared: QuarksJob) returns (result: Result)
      requires client.Valid()
      modifies client
      ensures client.Valid()
      ensures Run(Clearing(cleared), client.world, old(client.trace)) == Episode(client.trace, result)
      ensures LegalEnding(cleared, client.trace, |old(client.trace)|, result)
    {
      RunEndsLegally(cleared, client.world, client.trace);
      var qJob := cleared;
      var stored := client.Do(StatusUpdate(qJob), Clearing(qJob));
      if !stored.Stored? {
        return Failure;
      }
      qJob := stored.q;
      if qJob.spec.strategy == Now {
        qJob := WithStrategy(qJob, Manual);
        var reverted := client.Do(Update(qJob), Reverting(qJob));
        if !reverted.Stored? {
          return Failure;
        }
        qJob := reverted.q;
      }
      result := Start(qJob);
    }

    /** Create the Job, and finish `once`. */
    method Start(q: QuarksJob) returns (result: Result)
      requires client.Valid()
      modifies client
      ensures client.Valid()
      ensures Run(Creating(q), client.world, old(client.trace)) == Episode(client.trace, result)
      ensures LegalCreate(q, client.trace, |old(client.trace)|, result)
    {
      RunCreatesLegally(q, client.world, client.trace);
      var qJob := q;
      var created := client.Do(CreateJob(qJob), Creating(qJob));
      if created.JobRetry? {
        return After(RETRY);
      }
      if !created.JobMade? {
        return Failure;
      }
      if qJob.spec.strategy == Once {
        qJob := WithStrategy(qJob, Done);
        var _ := client.Do(Update(qJob), Finishing(qJob));
      }
      return Nothing;
    }
  }
}
