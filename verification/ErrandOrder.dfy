/** Spacing of Job creations, and the order of durable strategy writes around them. */
module ErrandOrder {
  import opened Types
  import opened ErrandReconciler
  import opened ErrandSystem
  import opened ErrandInvariant

  // ----- spacing -----

  ghost predicate InvTimes(s: State) {
    forall p :: 0 <= p < |s.log| && s.log[p].JobDone? ==> s.log[p].at <= s.clock
  }

  ghost predicate Spaced(c: Config, log: seq<Event>) {
    forall p, r :: 0 <= p < r < |log| && log[p].JobDone? && log[r].JobDone? ==> log[p].at + SKIP < log[r].at + c.grain
  }

  /** No create result is younger than `t` by the grain of stored timestamps. */
  ghost predicate NoneAfter(c: Config, log: seq<Event>, t: Time) {
    forall p :: 0 <= p < |log| && log[p].JobDone? ==> log[p].at < t + c.grain
  }

  /** A stored timestamp is not older than the last create result; once it is cleared, its
      window has passed since that result. */
  ghost predicate InvSpacing(c: Config, s: State)
    requires |s.hist| > 0
  {
    Spaced(c, s.log) &&
    (Stamp(s.hist[|s.hist| - 1]).Some? ==> NoneAfter(c, s.log, Stamp(s.hist[|s.hist| - 1]).value)) &&
    (s.run.Some? && s.run.value.pc.Stamping? && s.run.value.pc.q.status.lastReconcile.Some? ==>
      forall p :: 0 <= p < |s.log| && s.log[p].JobDone? ==> s.log[p].at <= s.run.value.pc.q.status.lastReconcile.value) &&
    (s.run.Some? && (s.run.value.pc.Reverting? || s.run.value.pc.Creating?) ==> NoneAfter(c, s.log, s.clock - SKIP))
  }

  lemma StampKeepsSpacing(c: Config, s: State, q: QuarksJob)
    requires ValidConfig(c) && InvBase(c, s) && InvSpacing(c, s) && Enabled(c, s, Ask(Ok)) && s.run.value.pc == Stamping(q)
    ensures InvSpacing(c, Apply(c, s, Ask(Ok)))
  {
    assert RoundsDown(c, q.status.lastReconcile.value);
  }

  lemma ClearKeepsSpacing(c: Config, s: State, q: QuarksJob)
    requires InvBase(c, s) && InvSpacing(c, s) && Enabled(c, s, Ask(Ok)) && s.run.value.pc == Clearing(q)
    ensures InvSpacing(c, Apply(c, s, Ask(Ok)))
  {
  }

  lemma CreateKeepsSpacing(c: Config, s: State, created: bool)
    requires ValidConfig(c) && Enabled(c, s, Ask(Made(created))) && InvSpacing(c, s) && Unstamped(s)
    requires s.run.value.pc.Creating?
    ensures InvSpacing(c, Apply(c, s, Ask(Made(created))))
  {
  }

  lemma ReadKeepsSpacing(c: Config, s: State, r: Reply)
    requires Enabled(c, s, Ask(r)) && InvTimes(s) && InvSpacing(c, s) && !r.Made?
    requires s.run.value.pc.Getting? || s.run.value.pc.Checking? || s.run.value.pc.Creating? || r.Fail?
    ensures InvSpacing(c, Apply(c, s, Ask(r)))
  {
    var t := Apply(c, s, Ask(r));
    assert t.hist == s.hist && t.clock == s.clock && s.log <= t.log;
    assert forall p :: |s.log| <= p < |t.log| ==> t.log[p].Refused?;
    assert !t.run.value.pc.Reverting? && !t.run.value.pc.Creating?;
  }

  lemma StrategyKeepsSpacing(c: Config, s: State, q: QuarksJob)
    requires InvBase(c, s) && InvSpacing(c, s) && Enabled(c, s, Ask(Ok))
    requires s.run.value.pc == Reverting(q) || s.run.value.pc == Finishing(q)
    ensures InvSpacing(c, Apply(c, s, Ask(Ok)))
  {
  }

  lemma AskKeepsSpacing(c: Config, s: State, r: Reply)
    requires ValidConfig(c) && InvBase(c, s) && InvTimes(s) && InvSpacing(c, s) && Enabled(c, s, Ask(r))
    ensures InvSpacing(c, Apply(c, s, Ask(r)))
  {
    if r.Made? {
      CreateKeepsSpacing(c, s, r.created);
    } else if r.Fail? {
      ReadKeepsSpacing(c, s, r);
    } else {
      match s.run.value.pc
      case Stamping(q) => StampKeepsSpacing(c, s, q);
      case Clearing(q) => ClearKeepsSpacing(c, s, q);
      case Reverting(q) => StrategyKeepsSpacing(c, s, q);
      case Finishing(q) => StrategyKeepsSpacing(c, s, q);
      case Getting => ReadKeepsSpacing(c, s, r);
      case Checking(_) => ReadKeepsSpacing(c, s, r);
      case Creating(_) => ReadKeepsSpacing(c, s, r);
    }
  }

  lemma StepKeepsTimes(c: Config, s: State, a: Action)
    requires InvTimes(s) && Enabled(c, s, a)
    ensures InvTimes(Apply(c, s, a))
  {
  }

  /** The last timestamp of the history after a write of a user or the Job reconciler. */
  lemma OthersKeepStamp(c: Config, s: State, a: Action)
    requires ValidConfig(c) && InvBase(c, s) && Enabled(c, s, a) && !a.Ask?
    ensures var t := Apply(c, s, a);
            Stamp(t.hist[|t.hist| - 1]).Some? ==> Stamp(t.hist[|t.hist| - 1]) == Stamp(s.hist[|s.hist| - 1])
  {
  }

  lemma OthersKeepLog(c: Config, s: State, a: Action)
    requires Enabled(c, s, a) && !a.Ask?
    ensures var t := Apply(c, s, a);
            s.clock <= t.clock && (t.run == s.run || t.run.None? || t.run.value.pc == Getting) &&
            forall p :: 0 <= p < |t.log| && t.log[p].JobDone? ==> p < |s.log| && t.log[p] == s.log[p]
  {
  }

  lemma StepKeepsSpacing(c: Config, s: State, a: Action)
    requires ValidConfig(c) && InvBase(c, s) && InvTimes(s) && InvSpacing(c, s) && Enabled(c, s, a)
    ensures InvSpacing(c, Apply(c, s, a))
  {
    if a.Ask? {
      AskKeepsSpacing(c, s, a.reply);
    } else {
      OthersKeepStamp(c, s, a);
      OthersKeepLog(c, s, a);
    }
  }

  // ----- what Jobs are made from -----

  ghost predicate SentIsStored(s: State, e: Event) {
    e.JobDone? ==>
      IsCopy(s, e.sent) && e.sent.version < e.stored <= |s.hist| && e.sent.spec.strategy != Now
  }

  ghost predicate InvSent(s: State) {
    forall p :: 0 <= p < |s.log| ==> SentIsStored(s, s.log[p])
  }

  lemma StepKeepsSent(c: Config, s: State, a: Action)
    requires InvBase(c, s) && InvSent(s) && Enabled(c, s, a)
    ensures InvSent(Apply(c, s, a))
  {
    var t := Apply(c, s, a);
    assert s.hist <= t.hist && s.log <= t.log;
    StoreKeepsCopies(s, t);
    forall p | 0 <= p < |t.log| ensures SentIsStored(t, t.log[p]) {
      if p < |s.log| {
        assert t.log[p] == s.log[p] && SentIsStored(s, s.log[p]);
      } else if a.Ask? {
        NewJobIsStored(c, s, a.reply);
      }
    }
  }

  lemma NewJobIsStored(c: Config, s: State, r: Reply)
    requires InvBase(c, s) && Enabled(c, s, Ask(r))
    ensures var t := Apply(c, s, Ask(r));
            |s.log| <= |t.log| <= |s.log| + 1 && (|t.log| > |s.log| ==> SentIsStored(t, t.log[|s.log|]))
  {
  }

  // ----- order -----

  /** Reconcile `run` stored strategy `manual` before version `before`. */
  ghost predicate StoredManual(hist: seq<Write>, run: nat, before: nat) {
    exists v :: 1 <= v < before && v < |hist| && hist[v].writer == ErrandSpec(run) &&
                hist[v].obj.Some? && hist[v].obj.value.spec.strategy == Manual
  }

  /** Reconcile `run` had a create result without error when fewer than `before` + 1
      versions were stored. */
  ghost predicate CreateSucceeded(log: seq<Event>, run: nat, before: nat) {
    exists p :: 0 <= p < |log| && log[p].JobDone? && log[p].run == run && log[p].stored <= before
  }

  ghost predicate InvManualFirst(s: State) {
    forall p :: 0 <= p < |s.log| && s.log[p].JobDone? ==>
      s.log[p].saw.Some? && s.log[p].stored <= |s.hist| &&
      (s.log[p].saw == Some(Now) ==> StoredManual(s.hist, s.log[p].run, s.log[p].stored))
  }

  ghost predicate InvDoneLast(s: State) {
    forall v :: 0 <= v < |s.hist| && s.hist[v].writer.ErrandSpec? && s.hist[v].obj.Some? &&
                s.hist[v].obj.value.spec.strategy == Done ==>
      CreateSucceeded(s.log, s.hist[v].writer.run, v)
  }

  ghost predicate InvProgress(s: State) {
    s.run.Some? ==>
      (s.run.value.pc.Creating? && s.run.value.saw == Some(Now) ==> StoredManual(s.hist, s.run.value.id, |s.hist|)) &&
      (s.run.value.pc.Finishing? ==> CreateSucceeded(s.log, s.run.value.id, |s.hist|))
  }

  ghost predicate InvOrder(s: State) {
    InvManualFirst(s) && InvDoneLast(s) && InvProgress(s)
  }

  lemma OrderIsMonotone(s: State, t: State)
    requires s.hist <= t.hist && s.log <= t.log
    ensures forall run, before :: StoredManual(s.hist, run, before) ==> StoredManual(t.hist, run, before)
    ensures forall run :: StoredManual(s.hist, run, |s.hist|) ==> StoredManual(t.hist, run, |t.hist|)
    ensures forall run, before, after :: before <= after && CreateSucceeded(s.log, run, before) ==> CreateSucceeded(t.log, run, after)
  {
  }

  lemma StepKeepsOrder(c: Config, s: State, a: Action)
    requires ValidConfig(c) && InvBase(c, s) && InvOrder(s) && Enabled(c, s, a)
    ensures InvOrder(Apply(c, s, a))
  {
    StepKeepsProgress(c, s, a);
    StepKeepsManualFirst(c, s, a);
    StepKeepsDoneLast(c, s, a);
  }

  lemma StepKeepsManualFirst(c: Config, s: State, a: Action)
    requires ValidConfig(c) && InvBase(c, s) && InvOrder(s) && Enabled(c, s, a)
    ensures InvManualFirst(Apply(c, s, a))
  {
    var t := Apply(c, s, a);
    assert s.hist <= t.hist && s.log <= t.log;
    OrderIsMonotone(s, t);
    forall p | 0 <= p < |t.log| && t.log[p].JobDone?
      ensures t.log[p].saw.Some? && t.log[p].stored <= |t.hist|
      ensures t.log[p].saw == Some(Now) ==> StoredManual(t.hist, t.log[p].run, t.log[p].stored)
    {
      if p < |s.log| {
        assert t.log[p] == s.log[p];
      }
    }
  }

  lemma StepKeepsDoneLast(c: Config, s: State, a: Action)
    requires ValidConfig(c) && InvBase(c, s) && InvOrder(s) && Enabled(c, s, a)
    ensures InvDoneLast(Apply(c, s, a))
  {
    var t := Apply(c, s, a);
    assert s.hist <= t.hist && s.log <= t.log;
    OrderIsMonotone(s, t);
    forall v | 0 <= v < |t.hist| && t.hist[v].writer.ErrandSpec? && t.hist[v].obj.Some? &&
               t.hist[v].obj.value.spec.strategy == Done
      ensures CreateSucceeded(t.log, t.hist[v].writer.run, v)
    {
      if v < |s.hist| {
        assert t.hist[v] == s.hist[v];
      } else {
        assert s.run.value.pc.Finishing?;
      }
    }
  }

  lemma StepKeepsProgress(c: Config, s: State, a: Action)
    requires ValidConfig(c) && InvBase(c, s) && InvOrder(s) && Enabled(c, s, a)
    ensures InvProgress(Apply(c, s, a))
  {
    if !a.Ask? {
      var t := Apply(c, s, a);
      assert s.hist <= t.hist && s.log <= t.log;
      OrderIsMonotone(s, t);
      OthersKeepLog(c, s, a);
    } else if s.run.value.pc.Reverting? && a.reply.Ok? {
      RevertMakesProgress(c, s);
    } else if s.run.value.pc.Creating? && a.reply.Made? {
      CreateMakesProgress(c, s, a.reply.created);
    } else {
      AskKeepsProgress(c, s, a.reply);
    }
  }

  lemma RevertMakesProgress(c: Config, s: State)
    requires InvBase(c, s) && Enabled(c, s, Ask(Ok)) && s.run.value.pc.Reverting?
    ensures InvProgress(Apply(c, s, Ask(Ok)))
  {
    var t, v := Apply(c, s, Ask(Ok)), |s.hist|;
    assert t.hist[v].writer == ErrandSpec(s.run.value.id) && t.hist[v].obj.value.spec.strategy == Manual;
  }

  lemma CreateMakesProgress(c: Config, s: State, created: bool)
    requires InvBase(c, s) && Enabled(c, s, Ask(Made(created))) && s.run.value.pc.Creating?
    ensures InvProgress(Apply(c, s, Ask(Made(created))))
  {
    var t, p := Apply(c, s, Ask(Made(created))), |s.log|;
    assert t.log[p].JobDone? && t.log[p].run == s.run.value.id && t.log[p].stored == |t.hist|;
  }

  /** The other calls come neither to a create by way of `now` nor to the last update. */
  lemma AskKeepsProgress(c: Config, s: State, r: Reply)
    requires InvBase(c, s) && Enabled(c, s, Ask(r))
    requires !(s.run.value.pc.Reverting? && r.Ok?) && !(s.run.value.pc.Creating? && r.Made?)
    ensures InvProgress(Apply(c, s, Ask(r)))
  {
  }

  // ----- once becomes done -----

  /** Reconcile `run` stored strategy `done`, as version `from` or later. */
  ghost predicate StoredDone(hist: seq<Write>, run: nat, from: nat) {
    exists v :: from <= v < |hist| && hist[v].writer == ErrandSpec(run) && hist[v].obj.Some? &&
                hist[v].obj.value.spec.strategy == Done
  }

  /** Its attempt to do so failed, after log entry p. */
  ghost predicate DoneRefused(log: seq<Event>, run: nat, p: nat) {
    exists r :: p < r < |log| && log[r].Refused? && log[r].run == run && log[r].sent.spec.strategy == Done
  }

  /** A reconcile that made a Job for a `once` object is about to store `done`, or has tried. */
  ghost predicate OnceHandled(s: State, p: nat)
    requires p < |s.log| && s.log[p].JobDone?
  {
    s.log[p].sent.spec.strategy == Once ==>
      (s.run.Some? && s.run.value.id == s.log[p].run && s.run.value.pc.Finishing? &&
       s.run.value.pc.q.spec.strategy == Done && s.log[p].stored <= |s.hist|) ||
      StoredDone(s.hist, s.log[p].run, s.log[p].stored) ||
      DoneRefused(s.log, s.log[p].run, p)
  }

  ghost predicate InvOnce(s: State) {
    forall p: nat :: p < |s.log| && s.log[p].JobDone? ==> OnceHandled(s, p)
  }

  lemma StepKeepsOnce(c: Config, s: State, a: Action)
    requires InvBase(c, s) && InvOnce(s) && Enabled(c, s, a)
    ensures InvOnce(Apply(c, s, a))
  {
    var t := Apply(c, s, a);
    assert s.hist <= t.hist && s.log <= t.log;
    forall p: nat | p < |t.log| && t.log[p].JobDone? ensures OnceHandled(t, p) {
      if p < |s.log| {
        assert t.log[p] == s.log[p] && OnceHandled(s, p);
        HandledStays(c, s, a, p);
      } else {
        NewJobIsHandled(c, s, a, p);
      }
    }
  }

  lemma NewJobIsHandled(c: Config, s: State, a: Action, p: nat)
    requires InvBase(c, s) && Enabled(c, s, a) && |s.log| <= p < |Apply(c, s, a).log|
    requires Apply(c, s, a).log[p].JobDone?
    ensures OnceHandled(Apply(c, s, a), p)
  {
    assert a.Ask? && a.reply.Made? && s.run.value.pc.Creating?;
  }

  lemma HandledStays(c: Config, s: State, a: Action, p: nat)
    requires InvBase(c, s) && Enabled(c, s, a) && p < |s.log| && s.log[p].JobDone? && OnceHandled(s, p)
    requires s.hist <= Apply(c, s, a).hist && s.log <= Apply(c, s, a).log
    ensures Apply(c, s, a).log[p] == s.log[p] && OnceHandled(Apply(c, s, a), p)
  {
    var t, id, from := Apply(c, s, a), s.log[p].run, s.log[p].stored;
    if s.log[p].sent.spec.strategy != Once {
      return;
    }
    if StoredDone(s.hist, id, from) {
      var v :| from <= v < |s.hist| && s.hist[v].writer == ErrandSpec(id) && s.hist[v].obj.Some? &&
               s.hist[v].obj.value.spec.strategy == Done;
      assert t.hist[v] == s.hist[v];
    } else if DoneRefused(s.log, id, p) {
      var r :| p < r < |s.log| && s.log[r].Refused? && s.log[r].run == id && s.log[r].sent.spec.strategy == Done;
      assert t.log[r] == s.log[r];
    } else if a.Ask? {
      DoneIsTried(c, s, a.reply);
      if a.reply.Ok? {
        assert StoredDone(t.hist, id, from);
      } else {
        assert t.log[|s.log|] == Refused(id, s.run.value.pc.q);
      }
    } else {
      assert t.run == s.run;
    }
  }

  lemma DoneIsTried(c: Config, s: State, r: Reply)
    requires InvBase(c, s) && Enabled(c, s, Ask(r)) && s.run.value.pc.Finishing?
    ensures var t, q := Apply(c, s, Ask(r)), s.run.value.pc.q;
            if r.Ok? then
              |t.hist| == |s.hist| + 1 && t.hist[|s.hist|].writer == ErrandSpec(s.run.value.id) &&
              t.hist[|s.hist|].obj.Some? && t.hist[|s.hist|].obj.value.spec == q.spec
            else
              t.log == s.log + [Refused(s.run.value.id, q)]
  {
  }
}
