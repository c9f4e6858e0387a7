/** What every step keeps, whoever makes it. */
module ErrandInvariant {
  import opened Types
  import opened ErrandReconciler
  import opened ErrandSystem

  // ----- the stored history -----

  ghost predicate InvHist(s: State) {
    |s.hist| > 0 && 1 <= s.seen <= |s.hist| &&
    forall i :: 0 <= i < |s.hist| && s.hist[i].obj.Some? ==> s.hist[i].obj.value.version == i
  }

  /** What each writer may change between two consecutive versions. */
  ghost predicate Respectful(prev: Option<QuarksJob>, w: Write) {
    match w.writer
    case User =>
      prev.Some? && w.obj.Some? ==> w.obj.value.status == prev.value.status
    case ErrandStatus =>
      prev.Some? && w.obj.Some? &&
      w.obj.value.spec == prev.value.spec &&
      w.obj.value.status.completed == prev.value.status.completed &&
      (w.obj.value.status.lastReconcile.Some? <==> prev.value.status.lastReconcile.None?)
    case ErrandSpec(_) =>
      prev.Some? && w.obj.Some? &&
      w.obj.value.status == prev.value.status &&
      ((prev.value.spec.strategy == Now && w.obj.value.spec == prev.value.spec.(strategy := Manual)) ||
       (prev.value.spec.strategy == Once && w.obj.value.spec == prev.value.spec.(strategy := Done)))
    case JobStatus =>
      prev.Some? && w.obj.Some? &&
      w.obj.value.spec == prev.value.spec &&
      w.obj.value.status == prev.value.status.(completed := true)
  }

  ghost predicate RespectfulAt(hist: seq<Write>, i: nat) {
    1 <= i < |hist| ==> Respectful(hist[i - 1].obj, hist[i])
  }

  ghost predicate InvWrites(s: State) {
    forall i :: RespectfulAt(s.hist, i)
  }

  ghost predicate InvStamps(c: Config, s: State) {
    forall i :: 0 <= i < |s.hist| && Stamp(s.hist[i]).Some? ==>
      Stamp(s.hist[i]).value <= s.clock && c.round(Stamp(s.hist[i]).value) == Stamp(s.hist[i]).value
  }

  function Stamp(w: Write): Option<Time> {
    if w.obj.Some? then w.obj.value.status.lastReconcile else None
  }

  // ----- the copies the controllers work on -----

  predicate IsCopy(s: State, q: QuarksJob) {
    q.version < |s.hist| && s.hist[q.version].obj == Some(q)
  }

  ghost predicate InvJobs(s: State) {
    forall k :: k in s.jobs ==> IsCopy(s, s.jobs[k])
  }

  /** No timestamp is stored. */
  predicate Unstamped(s: State)
    requires |s.hist| > 0
  {
    Stamp(s.hist[|s.hist| - 1]).None?
  }

  ghost predicate InvCopy(s: State, run: Running)
    requires |s.hist| > 0
  {
    match run.pc
    case Getting => true
    case Checking(q) => IsCopy(s, q) && run.saw == Some(q.spec.strategy)
    case Stamping(q) =>
      q.status.lastReconcile.Some? && q.status.lastReconcile.value <= s.clock && IsCopy(s, WithStamp(q, None))
    case Clearing(q) =>
      q.status.lastReconcile.None? && run.saw == Some(q.spec.strategy) &&
      exists t: Time :: IsCopy(s, WithStamp(q, Some(t))) && t + SKIP <= s.clock
    case Reverting(q) =>
      q.spec.strategy == Manual && run.saw == Some(Now) && IsCopy(s, WithStrategy(q, Now)) && Unstamped(s)
    case Creating(q) =>
      q.spec.strategy != Now && run.saw.Some? && IsCopy(s, q) && Unstamped(s)
    case Finishing(q) =>
      q.spec.strategy == Done && IsCopy(s, WithStrategy(q, Once)) && Unstamped(s)
    case Returned(_) => true
  }

  ghost predicate InvBase(c: Config, s: State) {
    InvHist(s) && InvWrites(s) && InvStamps(c, s) && InvJobs(s) &&
    (s.run.Some? ==> s.run.value.id < s.started && InvCopy(s, s.run.value))
  }

  lemma CurrentCopy(s: State, q: QuarksJob)
    requires InvHist(s) && IsCopy(s, q) && Current(s, q)
    ensures Latest(s) == Some(q) && q.version == |s.hist| - 1
  {
  }

  lemma StoreKeepsCopies(s: State, t: State)
    requires s.hist <= t.hist
    ensures forall q :: IsCopy(s, q) ==> IsCopy(t, q)
  {
  }

  /** Adding one version. */
  lemma StoreKeepsHistory(c: Config, s: State, obj: Option<QuarksJob>, w: Writer)
    requires InvBase(c, s)
    requires Respectful(Latest(s), Write(obj, w))
    requires obj.Some? ==> obj.value.version == |s.hist|
    requires Stamp(Write(obj, w)).Some? ==>
               Stamp(Write(obj, w)).value <= s.clock && c.round(Stamp(Write(obj, w)).value) == Stamp(Write(obj, w)).value
    ensures var t := Store(s, obj, w);
            InvHist(t) && InvWrites(t) && InvStamps(c, t) && InvJobs(t) && (forall q :: IsCopy(s, q) ==> IsCopy(t, q))
  {
    var t := Store(s, obj, w);
    StoreKeepsCopies(s, t);
    forall i ensures RespectfulAt(t.hist, i) {
      assert RespectfulAt(s.hist, i);
    }
  }

  lemma {:induction false} ReadKeepsBase(c: Config, s: State, r: Reply)
    requires ValidConfig(c) && InvBase(c, s) && Enabled(c, s, Ask(r))
    requires s.run.value.pc.Getting? || s.run.value.pc.Checking? || s.run.value.pc.Creating?
    ensures InvBase(c, Apply(c, s, Ask(r)))
  {
    var t := Apply(c, s, Ask(r));
    assert t.hist == s.hist && t.clock == s.clock && t.seen == s.seen && t.jobs == s.jobs && t.started == s.started;
    if s.run.value.pc.Getting? || s.run.value.pc.Creating? {
      SamePlaceKeepsCopy(c, s, r);
    } else {
      ClockKeepsCopy(c, s, r);
    }
  }

  lemma SamePlaceKeepsCopy(c: Config, s: State, r: Reply)
    requires InvBase(c, s) && Enabled(c, s, Ask(r)) && (s.run.value.pc.Getting? || s.run.value.pc.Creating?)
    ensures InvCopy(Apply(c, s, Ask(r)), Apply(c, s, Ask(r)).run.value)
  {
  }

  lemma ClockKeepsCopy(c: Config, s: State, r: Reply)
    requires InvBase(c, s) && Enabled(c, s, Ask(r)) && s.run.value.pc.Checking?
    ensures InvCopy(Apply(c, s, Ask(r)), Apply(c, s, Ask(r)).run.value)
  {
    var q := s.run.value.pc.q;
    if q.status.lastReconcile.Some? {
      assert WithStamp(WithStamp(q, None), q.status.lastReconcile) == q;
      assert Stamp(s.hist[q.version]) == q.status.lastReconcile;
    }
  }

  lemma StampKeepsBase(c: Config, s: State, q: QuarksJob)
    requires ValidConfig(c) && InvBase(c, s) && Enabled(c, s, Ask(Ok)) && s.run.value.pc == Stamping(q)
    ensures InvBase(c, Apply(c, s, Ask(Ok)))
  {
    CurrentCopy(s, WithStamp(q, None));
    assert RoundsDown(c, q.status.lastReconcile.value);
    StoreKeepsHistory(c, s, Some(WithStatus(c, s, q)), ErrandStatus);
  }

  lemma ClearKeepsBase(c: Config, s: State, q: QuarksJob)
    requires ValidConfig(c) && InvBase(c, s) && Enabled(c, s, Ask(Ok)) && s.run.value.pc == Clearing(q)
    ensures InvBase(c, Apply(c, s, Ask(Ok)))
  {
    var last :| IsCopy(s, WithStamp(q, Some(last))) && last + SKIP <= s.clock;
    CurrentCopy(s, WithStamp(q, Some(last)));
    var o := WithStatus(c, s, q);
    StoreKeepsHistory(c, s, Some(o), ErrandStatus);
    assert o.spec.strategy == Now ==> WithStrategy(WithStrategy(o, Manual), Now) == o;
  }

  lemma StrategyKeepsBase(c: Config, s: State, q: QuarksJob)
    requires ValidConfig(c) && InvBase(c, s) && Enabled(c, s, Ask(Ok))
    requires s.run.value.pc == Reverting(q) || s.run.value.pc == Finishing(q)
    ensures InvBase(c, Apply(c, s, Ask(Ok)))
  {
    CurrentCopy(s, WithStrategy(q, if q.spec.strategy == Manual then Now else Once));
    StoreKeepsHistory(c, s, Some(WithSpec(s, q)), ErrandSpec(s.run.value.id));
  }

  lemma AskKeepsBase(c: Config, s: State, r: Reply)
    requires ValidConfig(c) && InvBase(c, s) && Enabled(c, s, Ask(r))
    ensures InvBase(c, Apply(c, s, Ask(r)))
  {
    var pc := s.run.value.pc;
    if pc.Getting? || pc.Checking? || pc.Creating? {
      ReadKeepsBase(c, s, r);
    } else if r.Ok? {
      match pc
      case Stamping(q) => StampKeepsBase(c, s, q);
      case Clearing(q) => ClearKeepsBase(c, s, q);
      case Reverting(q) => StrategyKeepsBase(c, s, q);
      case Finishing(q) => StrategyKeepsBase(c, s, q);
    }
  }

  lemma UserWriteKeepsBase(c: Config, s: State, spec: Option<Spec>)
    requires ValidConfig(c) && InvBase(c, s) && Enabled(c, s, UserWrite(spec))
    ensures InvBase(c, Apply(c, s, UserWrite(spec)))
  {
    match spec
    case None => StoreKeepsHistory(c, s, None, User);
    case Some(sp) =>
      assert Latest(s).Some? ==> Stamp(Write(Some(UserObject(s, sp)), User)) == Stamp(s.hist[|s.hist| - 1]);
      StoreKeepsHistory(c, s, Some(UserObject(s, sp)), User);
  }

  lemma JobWriteKeepsBase(c: Config, s: State, k: nat)
    requires ValidConfig(c) && InvBase(c, s) && Enabled(c, s, JobWrite(k, true))
    ensures InvBase(c, Apply(c, s, JobWrite(k, true)))
  {
    var q := s.jobs[k];
    CurrentCopy(s, q);
    assert Stamp(s.hist[q.version]) == q.status.lastReconcile;
    StoreKeepsHistory(c, s, Some(WithStatus(c, s, Completed(q))), JobStatus);
  }

  /** A step that stores nothing. */
  lemma QuietStepKeepsBase(c: Config, s: State, t: State)
    requires InvBase(c, s)
    requires t.hist == s.hist && s.clock <= t.clock && s.seen <= t.seen <= |s.hist| && s.started <= t.started
    requires forall k :: k in t.jobs ==> IsCopy(s, t.jobs[k])
    requires t.run == s.run || t.run.None? || (t.run.value.id < t.started && t.run.value.pc == Getting)
    ensures InvBase(c, t)
  {
  }

  lemma StepKeepsBase(c: Config, s: State, a: Action)
    requires ValidConfig(c) && InvBase(c, s) && Enabled(c, s, a)
    ensures InvBase(c, Apply(c, s, a))
  {
    match a
    case Ask(r) => AskKeepsBase(c, s, r);
    case UserWrite(spec) => UserWriteKeepsBase(c, s, spec);
    case JobWrite(k, true) => JobWriteKeepsBase(c, s, k);
    case Tick(_) => QuietStepKeepsBase(c, s, Apply(c, s, a));
    case Deliver(_) => QuietStepKeepsBase(c, s, Apply(c, s, a));
    case ConfigEvent => QuietStepKeepsBase(c, s, Apply(c, s, a));
    case Pop(_) => QuietStepKeepsBase(c, s, Apply(c, s, a));
    case Finish(_, _) => QuietStepKeepsBase(c, s, Apply(c, s, a));
    case JobRead(_, _) => QuietStepKeepsBase(c, s, Apply(c, s, a));
    case JobWrite(_, false) => QuietStepKeepsBase(c, s, Apply(c, s, a));
  }
}
