/** One QuarksJob under the operator: the API server, the work queue of the errand
    controller, its reconcile in flight, and any number of Job reconciles, interleaved one
    API call at a time. */
module ErrandSystem {
  import opened Types
  import opened ErrandReconciler
  import ErrandController

  /** Who stored a version of the object. */
  datatype Writer = User | ErrandStatus | ErrandSpec(run: nat) | JobStatus

  /** One version; `None` while the object does not exist. */
  datatype Write = Write(obj: Option<QuarksJob>, writer: Writer)

  /** The errand reconcile in flight, and the strategy its Get returned. */
  datatype Running = Running(id: nat, pc: Pc, saw: Option<Strategy>)

  /** `JobDone` is a create result without error; `created` says a Job was created rather than
      found running, `stored` how many versions were stored before, `sent` the copy of the
      QuarksJob it was asked with.  `Refused` is an update of the spec that failed or met a
      newer version. */
  datatype Event =
    | Accepted(version: nat)
    | JobDone(run: nat, at: Time, saw: Option<Strategy>, stored: nat, created: bool, sent: QuarksJob)
    | Refused(run: nat, sent: QuarksJob)

  /** `round` is what the API server keeps of a timestamp, at most `grain` less.  With
      `merge` the queue keeps one delayed entry per key, the earliest, as client-go does;
      without, every requeue is an entry of its own. */
  datatype Config = Config(naming: ErrandController.Naming, round: Time -> Time, grain: nat, merge: bool)

  ghost predicate ValidConfig(c: Config) {
    c.grain >= 1 && forall t :: RoundsDown(c, t)
  }

  ghost predicate RoundsDown(c: Config, t: Time) {
    c.round(t) <= t < c.round(t) + c.grain && c.round(c.round(t)) == c.round(t)
  }

  /** `hist` holds every version ever stored; the version number is the index.  The informer
      has processed the first `seen` of them.  An entry of `queue` is the time it is due. */
  datatype State = State(
    clock: Time,
    hist: seq<Write>,
    seen: nat,
    queue: multiset<Time>,
    run: Option<Running>,
    jobs: map<nat, QuarksJob>,
    started: nat,
    log: seq<Event>)

  function Initial(now: Time): State {
    State(now, [Write(None, User)], 1, multiset{}, None, map[], 0, [])
  }

  // ----- the API server -----

  function Latest(s: State): Option<QuarksJob>
    requires |s.hist| > 0
  {
    s.hist[|s.hist| - 1].obj
  }

  /** Optimistic locking: an update must carry the version the server holds. */
  predicate Current(s: State, q: QuarksJob)
    requires |s.hist| > 0
  {
    Latest(s).Some? && Latest(s).value.version == q.version
  }

  function Store(s: State, obj: Option<QuarksJob>, w: Writer): State {
    s.(hist := s.hist + [Write(obj, w)])
  }

  /** The status subresource takes the status and nothing else. */
  function WithStatus(c: Config, s: State, q: QuarksJob): QuarksJob
    requires |s.hist| > 0 && Current(s, q)
  {
    var stamp := match q.status.lastReconcile case None => None case Some(t) => Some(c.round(t));
    Latest(s).value.(version := |s.hist|, status := Status(stamp, q.status.completed))
  }

  /** The main resource takes the spec and leaves the status. */
  function WithSpec(s: State, q: QuarksJob): QuarksJob
    requires |s.hist| > 0 && Current(s, q)
  {
    Latest(s).value.(version := |s.hist|, spec := q.spec)
  }

  function UserObject(s: State, spec: Spec): QuarksJob
    requires |s.hist| > 0
  {
    match Latest(s)
    case None => QuarksJob(|s.hist|, spec, Status(None, false))
    case Some(q) => q.(version := |s.hist|, spec := spec)
  }

  /** How a call turns out.  Reads may return any version the object ever had; a reported
      absence is at least as recent as the informer's cache.  A failed call does nothing. */
  datatype Reply = ReadAt(at: nat) | Absent(at: nat) | Ok | Fail | Made(created: bool) | Retry

  predicate Possible(s: State, call: Call, r: Reply)
    requires |s.hist| > 0
  {
    match call
    case Get =>
      (r.ReadAt? && r.at < |s.hist| && s.hist[r.at].obj.Some?) ||
      (r.Absent? && s.seen <= r.at + 1 && r.at < |s.hist| && s.hist[r.at].obj.None?) ||
      r.Fail?
    case ReadClock => r.Ok?
    case StatusUpdate(q) => (r.Ok? && Current(s, q)) || r.Fail?
    case Update(q) => (r.Ok? && Current(s, q)) || r.Fail?
    case CreateJob(_) => r.Made? || r.Retry? || r.Fail?
  }

  /** The answer to the call, and the state the call leaves. */
  function Serve(c: Config, s: State, run: Running, call: Call, r: Reply): (Answer, State)
    requires |s.hist| > 0 && Possible(s, call, r)
  {
    match call
    case Get =>
      (match r case ReadAt(i) => Found(s.hist[i].obj.value) case Absent(_) => NotFound case _ => Failed, s)
    case ReadClock => (Clock(s.clock), s)
    case StatusUpdate(q) =>
      if r.Fail? then (Failed, s)
      else var o := WithStatus(c, s, q); (Stored(o), Store(s, Some(o), ErrandStatus))
    case Update(q) =>
      if r.Fail? then (Failed, s.(log := s.log + [Refused(run.id, q)]))
      else var o := WithSpec(s, q); (Stored(o), Store(s, Some(o), ErrandSpec(run.id)))
    case CreateJob(q) =>
      match r
      case Made(created) => (JobMade, s.(log := s.log + [JobDone(run.id, s.clock, run.saw, |s.hist|, created, q)]))
      case Retry => (JobRetry, s)
      case _ => (Failed, s)
  }

  // ----- the steps -----

  /** `Finish` hands the result of a reconcile to the queue; `merged` is the delayed entry
      the new one is merged with, if the queue merges. */
  datatype Action =
    | Tick(d: nat)
    | UserWrite(spec: Option<Spec>)
    | Deliver(upto: nat)
    | ConfigEvent
    | Pop(due: Time)
    | Ask(reply: Reply)
    | Finish(backoff: nat, merged: Option<Time>)
    | JobRead(k: nat, at: nat)
    | JobWrite(k: nat, stored: bool)

  ghost predicate Enabled(c: Config, s: State, a: Action) {
    |s.hist| > 0 && 1 <= s.seen <= |s.hist| &&
    match a
    case Tick(_) => true
    case UserWrite(_) => true
    case Deliver(upto) => s.seen <= upto < |s.hist|
    case ConfigEvent =>
      var o := s.hist[s.seen - 1].obj;
      o.Some? && o.value.spec.updateOnConfigChange && o.value.IsAutoErrand()
    case Pop(due) => s.run.None? && due in s.queue && due <= s.clock
    case Ask(r) => s.run.Some? && !s.run.value.pc.Returned? && Possible(s, Request(s.run.value.pc), r)
    case Finish(_, merged) =>
      s.run.Some? && s.run.value.pc.Returned? &&
      if s.run.value.pc.result.Nothing? then merged.None?
      else if merged.Some? then c.merge && merged.value in s.queue && s.clock < merged.value
      else c.merge ==> forall e :: e in s.queue ==> e <= s.clock
    case JobRead(k, at) => k !in s.jobs && at < |s.hist| && s.hist[at].obj.Some?
    case JobWrite(k, stored) => k in s.jobs && (stored ==> Current(s, s.jobs[k]))
  }

  function Enqueue(s: State, due: Time, merged: Option<Time>): multiset<Time> {
    match merged
    case None => s.queue + multiset{due}
    case Some(w) => s.queue - multiset{w} + multiset{if w < due then w else due}
  }

  function RequeueAt(s: State, r: Result, backoff: nat): Time {
    s.clock + match r case After(d) => d case _ => backoff
  }

  ghost function Apply(c: Config, s: State, a: Action): State
    requires Enabled(c, s, a)
  {
    match a
    case Tick(d) => s.(clock := s.clock + d)
    case UserWrite(None) => Store(s, None, User)
    case UserWrite(Some(spec)) => Store(s, Some(UserObject(s, spec)), User)
    case Deliver(upto) =>
      if ErrandController.EventPasses(c.naming, s.hist[s.seen - 1].obj, s.hist[upto].obj)
      then Accept(s, upto).(seen := upto + 1)
      else s.(seen := upto + 1)
    case ConfigEvent => Accept(s, s.seen - 1)
    case Pop(due) =>
      s.(queue := s.queue - multiset{due}, run := Some(Running(s.started, Getting, None)), started := s.started + 1)
    case Ask(r) => Advance(c, s, s.run.value, r)
    case Finish(backoff, merged) =>
      var r := s.run.value.pc.result;
      s.(run := None, queue := if r.Nothing? then s.queue else Enqueue(s, RequeueAt(s, r, backoff), merged))
    case JobRead(k, at) => s.(jobs := s.jobs[k := s.hist[at].obj.value])
    case JobWrite(k, stored) =>
      var q := s.jobs[k];
      var t := if stored then Store(s, Some(WithStatus(c, s, Completed(q))), JobStatus) else s;
      t.(jobs := s.jobs - {k})
  }

  function Accept(s: State, version: nat): State {
    s.(queue := s.queue + multiset{s.clock}, log := s.log + [Accepted(version)])
  }

  function Advance(c: Config, s: State, run: Running, r: Reply): State
    requires |s.hist| > 0 && !run.pc.Returned? && Possible(s, Request(run.pc), r)
  {
    var (a, t) := Serve(c, s, run, Request(run.pc), r);
    var saw := if a.Found? then Some(a.q.spec.strategy) else run.saw;
    t.(run := Some(Running(run.id, Next(run.pc, a), saw)))
  }

  /** The Job reconciler's only write (job_reconciler.go:117). */
  function Completed(q: QuarksJob): QuarksJob {
    q.(status := q.status.(completed := true))
  }

  // ----- runs -----

  ghost predicate ValidRun(c: Config, s: State, steps: seq<Action>)
    decreases |steps|
  {
    steps == [] || (Enabled(c, s, steps[0]) && ValidRun(c, Apply(c, s, steps[0]), steps[1..]))
  }

  ghost function Outcome(c: Config, s: State, steps: seq<Action>): State
    requires ValidRun(c, s, steps)
    decreases |steps|
  {
    if steps == [] then s else Outcome(c, Apply(c, s, steps[0]), steps[1..])
  }

  ghost predicate Reachable(c: Config, s: State) {
    exists now: Time, steps: seq<Action> :: ValidRun(c, Initial(now), steps) && Outcome(c, Initial(now), steps) == s
  }
}
