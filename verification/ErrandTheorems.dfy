/** Whole runs: what holds in every state the operator can reach, under every interleaving,
    failure and stale read. */
module ErrandTheorems {
  import opened Types
  import opened ErrandReconciler
  import opened ErrandSystem
  import opened ErrandInvariant
  import opened ErrandTriggers
  import opened ErrandOrder
  import ErrandController

  ghost predicate Inv(c: Config, s: State) {
    InvBase(c, s) && InvAccepted(s) && InvPaid(s) && InvTimes(s) && InvSpacing(c, s) && InvOrder(s) && InvSent(s) && InvOnce(s)
  }

  /** Kept by a queue that keeps every requeue as its own entry. */
  ghost predicate InvLive(s: State) {
    InvWake(s) && InvTrigger(s)
  }

  lemma StepKeepsInv(c: Config, s: State, a: Action)
    requires ValidConfig(c) && Inv(c, s) && Enabled(c, s, a)
    ensures Inv(c, Apply(c, s, a))
  {
    StepKeepsBase(c, s, a);
    StepKeepsAccepted(c, s, a);
    StepKeepsPaid(c, s, a);
    StepKeepsTimes(c, s, a);
    StepKeepsSpacing(c, s, a);
    StepKeepsOrder(c, s, a);
    StepKeepsSent(c, s, a);
    StepKeepsOnce(c, s, a);
  }

  lemma {:induction false} RunKeepsInv(c: Config, s: State, steps: seq<Action>)
    requires ValidConfig(c) && Inv(c, s) && ValidRun(c, s, steps)
    ensures Inv(c, Outcome(c, s, steps))
    decreases |steps|
  {
    if steps != [] {
      StepKeepsInv(c, s, steps[0]);
      RunKeepsInv(c, Apply(c, s, steps[0]), steps[1..]);
    }
  }

  lemma {:induction false} RunKeepsLive(c: Config, s: State, steps: seq<Action>)
    requires ValidConfig(c) && !c.merge && Inv(c, s) && InvLive(s) && ValidRun(c, s, steps)
    ensures InvLive(Outcome(c, s, steps))
    decreases |steps|
  {
    if steps != [] {
      StepKeepsWake(c, s, steps[0]);
      StepKeepsTriggers(c, s, steps[0]);
      StepKeepsInv(c, s, steps[0]);
      RunKeepsLive(c, Apply(c, s, steps[0]), steps[1..]);
    }
  }

  lemma InitialInv(c: Config, now: Time)
    ensures Inv(c, Initial(now)) && InvLive(Initial(now))
  {
  }

  lemma ReachableInv(c: Config, s: State)
    requires ValidConfig(c) && Reachable(c, s)
    ensures Inv(c, s)
    ensures !c.merge ==> InvLive(s)
  {
    var now: Time, steps: seq<Action> :| ValidRun(c, Initial(now), steps) && Outcome(c, Initial(now), steps) == s;
    InitialInv(c, now);
    RunKeepsInv(c, Initial(now), steps);
    if !c.merge {
      RunKeepsLive(c, Initial(now), steps);
    }
  }

  // ----- what is accepted -----

  /** The informer's cache and the version it delivers make a trigger: a new object that is to
      run now or once, a change from `manual` to `now`, or, for an auto-errand that follows its
      configs, a change of their names that does not look like a downgrade of a secret. */
  ghost predicate IsTrigger(n: ErrandController.Naming, cached: Option<QuarksJob>, next: Option<QuarksJob>) {
    next.Some? &&
    var b := next.value.spec;
    if cached.None? then
      b.strategy == Now || b.strategy == Once
    else
      var a := cached.value.spec;
      (a.strategy == Manual && b.strategy == Now) ||
      ((b.strategy == Once || b.strategy == Done) && b.updateOnConfigChange &&
       (a.config.configMaps != b.config.configMaps || a.config.secrets != b.config.secrets) &&
       !exists x, y ::
          x in b.config.secrets && y in a.config.secrets &&
          n.version(x).ok && n.base(x) <= y && n.version(x).number < n.version(y).number)
  }

  /** Delivering a version accepts exactly the triggers, each with an entry that is due now;
      nothing else changes. */
  lemma DeliveryAcceptsTriggers(c: Config, s: State, upto: nat)
    requires Enabled(c, s, Deliver(upto))
    ensures Apply(c, s, Deliver(upto)) ==
            if IsTrigger(c.naming, s.hist[s.seen - 1].obj, s.hist[upto].obj)
            then s.(seen := upto + 1, log := s.log + [Accepted(upto)], queue := s.queue + multiset{s.clock})
            else s.(seen := upto + 1)
  {
    var cached, next := s.hist[s.seen - 1].obj, s.hist[upto].obj;
    if cached.Some? && next.Some? {
      DowngradesMeans(c.naming, cached.value.spec.config.secrets, next.value.spec.config.secrets);
    }
  }

  lemma DowngradesMeans(n: ErrandController.Naming, olds: set<string>, news: set<string>)
    ensures ErrandController.Downgrades(n, olds, news) <==>
            exists x, y ::
              x in news && y in olds && n.version(x).ok && n.base(x) <= y && n.version(x).number < n.version(y).number
  {
    if x, y :| x in news && y in olds && n.version(x).ok && n.base(x) <= y && n.version(x).number < n.version(y).number {
      assert ErrandController.Older(n, x, y);
    }
  }

  /** A changed ConfigMap or Secret is accepted exactly for a cached auto-errand that follows
      its configs, and no other step accepts anything. */
  lemma NothingElseIsAccepted(c: Config, s: State, a: Action)
    requires |s.hist| > 0 && 1 <= s.seen <= |s.hist|
    ensures Enabled(c, s, ConfigEvent) <==>
            var o := s.hist[s.seen - 1].obj;
            o.Some? && o.value.spec.updateOnConfigChange && (o.value.spec.strategy == Once || o.value.spec.strategy == Done)
    ensures Enabled(c, s, ConfigEvent) ==>
              Apply(c, s, ConfigEvent) == s.(log := s.log + [Accepted(s.seen - 1)], queue := s.queue + multiset{s.clock})
    ensures Enabled(c, s, a) && !a.Deliver? && !a.ConfigEvent? ==>
              forall p :: |s.log| <= p < |Apply(c, s, a).log| ==> !Apply(c, s, a).log[p].Accepted?
  {
  }

  /** Every create result without error is logged as what it was, and nothing else is. */
  lemma CreateResultsAreLogged(c: Config, s: State, a: Action)
    requires Enabled(c, s, a)
    ensures a.Ask? && s.run.value.pc.Creating? && a.reply.Made? ==>
              Apply(c, s, a).log ==
              s.log + [JobDone(s.run.value.id, s.clock, s.run.value.saw, |s.hist|, a.reply.created, s.run.value.pc.q)]
    ensures !(a.Ask? && s.run.value.pc.Creating? && a.reply.Made?) ==>
              forall p :: |s.log| <= p < |Apply(c, s, a).log| ==> !Apply(c, s, a).log[p].JobDone?
  {
  }

  // ----- what becomes of it -----

  /** No accepted trigger is lost: until a later create result answers it, made from a version
      later than the accepted one, or its object is deleted, the queue holds an entry or a
      reconcile is in flight that will create a Job from such a version or leave an entry. */
  lemma NoTriggerLost(c: Config, s: State, p: nat)
    requires ValidConfig(c) && !c.merge && Reachable(c, s)
    requires p < |s.log| && s.log[p].Accepted?
    ensures (exists r :: p < r < |s.log| && s.log[r].JobDone? && s.log[r].sent.version > s.log[p].version) ||
            DeletedAfter(s, s.log[p].version) ||
            s.queue != multiset{} ||
            (s.run.Some? && WillAnswer(s.run.value.pc, s.log[p].version))
  {
    ReachableInv(c, s);
    if !Unanswered(s, p) && !DeletedAfter(s, s.log[p].version) {
      var r :| p < r < |s.log| && Answers(s.log[r], s.log[p].version);
      assert s.log[r].JobDone?;
    }
  }

  /** From the write to the Job: a trigger the informer delivers is, ever after, answered by a
      Job made from a later version, or its object was deleted, or the operator still has an
      entry or a reconcile for it. */
  lemma DeliveredTriggersAreNotLost(c: Config, s: State, upto: nat, steps: seq<Action>)
    requires ValidConfig(c) && !c.merge && Reachable(c, s) && Enabled(c, s, Deliver(upto))
    requires IsTrigger(c.naming, s.hist[s.seen - 1].obj, s.hist[upto].obj)
    requires ValidRun(c, Apply(c, s, Deliver(upto)), steps)
    ensures var t := Outcome(c, Apply(c, s, Deliver(upto)), steps);
            (exists r :: |s.log| < r < |t.log| && t.log[r].JobDone? && t.log[r].sent.version > upto) ||
            DeletedAfter(t, upto) ||
            t.queue != multiset{} ||
            (t.run.Some? && WillAnswer(t.run.value.pc, upto))
  {
    DeliveryAcceptsTriggers(c, s, upto);
    var s1 := Apply(c, s, Deliver(upto));
    var t := Outcome(c, s1, steps);
    ReachableInv(c, s);
    StepKeepsInv(c, s, Deliver(upto));
    StepKeepsWake(c, s, Deliver(upto));
    StepKeepsTriggers(c, s, Deliver(upto));
    RunKeepsLive(c, s1, steps);
    RunOnlyAppends(c, s1, steps);
    assert t.log[|s.log|] == s1.log[|s.log|] == Accepted(upto);
    if !Unanswered(t, |s.log|) && !DeletedAfter(t, upto) {
      var r :| |s.log| < r < |t.log| && Answers(t.log[r], upto);
      assert t.log[r].JobDone?;
    }
  }

  /** Every Job is made from a version that was stored before, with no `now` left to act
      upon. */
  lemma JobsComeFromStoredVersions(c: Config, s: State, r: nat)
    requires ValidConfig(c) && Reachable(c, s) && r < |s.log| && s.log[r].JobDone?
    ensures var q := s.log[r].sent;
            q.version < s.log[r].stored <= |s.hist| && s.hist[q.version].obj == Some(q) && q.spec.strategy != Now
  {
    ReachableInv(c, s);
    assert SentIsStored(s, s.log[r]);
  }

  /** An open meltdown window always has its wake-up call at or after its end. */
  lemma MeltdownEnds(c: Config, s: State, i: nat)
    requires ValidConfig(c) && !c.merge && Reachable(c, s) && OpenWindow(s, i)
    ensures (exists e :: e in s.queue && Stamp(s.hist[i]).value + SKIP <= e) ||
            (s.run.Some? && s.run.value.pc == Returned(After(SKIP)))
  {
    ReachableInv(c, s);
    assert WakeUp(s, i);
  }

  /** Every Job, every queue entry and every reconcile that may still create is paid for by
      an accepted trigger of its own, whichever way the queue keeps its entries. */
  lemma TriggersPayForJobs(c: Config, s: State)
    requires ValidConfig(c) && Reachable(c, s)
    ensures Jobs(s.log) + |s.queue| + Owed(s.run) <= Accepts(s.log)
  {
    ReachableInv(c, s);
  }

  /** Debounce: two create results are further apart than the window less the grain of the
      stored timestamps. */
  lemma JobsAreSpaced(c: Config, s: State, p: nat, r: nat)
    requires ValidConfig(c) && Reachable(c, s)
    requires p < r < |s.log| && s.log[p].JobDone? && s.log[r].JobDone?
    ensures s.log[r].at - s.log[p].at > SKIP - c.grain
  {
    ReachableInv(c, s);
  }

  /** With timestamps kept to the nanosecond the distance is the full ten seconds. */
  lemma JobsAreSpacedExactly(c: Config, s: State, p: nat, r: nat)
    requires (forall t :: c.round(t) == t) && c.grain == 1 && Reachable(c, s)
    requires p < r < |s.log| && s.log[p].JobDone? && s.log[r].JobDone?
    ensures s.log[r].at - s.log[p].at >= SKIP
  {
    forall t ensures RoundsDown(c, t) {}
    JobsAreSpaced(c, s, p, r);
  }

  const SECOND: Time := 1_000_000_000

  /** Section 5.6 of RFC 3339 as metav1.Time uses it: whole seconds. */
  function ToSecond(t: Time): Time {
    t - t % SECOND
  }

  /** With timestamps stored to the second it is more than nine seconds. */
  lemma JobsAreSpacedBySeconds(c: Config, s: State, p: nat, r: nat)
    requires (forall t :: c.round(t) == ToSecond(t)) && c.grain == SECOND && Reachable(c, s)
    requires p < r < |s.log| && s.log[p].JobDone? && s.log[r].JobDone?
    ensures s.log[r].at - s.log[p].at > 9 * SECOND
  {
    forall t ensures RoundsDown(c, t) {
      assert ToSecond(ToSecond(t)) == ToSecond(t);
    }
    JobsAreSpaced(c, s, p, r);
  }

  /** A Job created by a reconcile that read `now` comes after a stored `manual` of that
      reconcile. */
  lemma ManualBeforeJob(c: Config, s: State, p: nat)
    requires ValidConfig(c) && Reachable(c, s)
    requires p < |s.log| && s.log[p].JobDone? && s.log[p].saw == Some(Now)
    ensures exists v :: 1 <= v < s.log[p].stored <= |s.hist| &&
                        s.hist[v].writer == ErrandSpec(s.log[p].run) && s.hist[v].obj.Some? &&
                        s.hist[v].obj.value.spec.strategy == Manual &&
                        s.hist[v - 1].obj.Some? && s.hist[v - 1].obj.value.spec.strategy == Now
  {
    ReachableInv(c, s);
    assert StoredManual(s.hist, s.log[p].run, s.log[p].stored);
    var v :| 1 <= v < s.log[p].stored && v < |s.hist| && s.hist[v].writer == ErrandSpec(s.log[p].run) &&
             s.hist[v].obj.Some? && s.hist[v].obj.value.spec.strategy == Manual;
    assert RespectfulAt(s.hist, v);
  }

  /** A `done` stored by the reconciler replaces `once`, and comes after a create result
      without error of the same reconcile. */
  lemma JobBeforeDone(c: Config, s: State, v: nat)
    requires ValidConfig(c) && Reachable(c, s)
    requires v < |s.hist| && s.hist[v].writer.ErrandSpec? && s.hist[v].obj.Some?
    requires s.hist[v].obj.value.spec.strategy == Done
    ensures v >= 1 && s.hist[v - 1].obj.Some? && s.hist[v - 1].obj.value.spec.strategy == Once
    ensures exists p :: 0 <= p < |s.log| && s.log[p].JobDone? && s.log[p].run == s.hist[v].writer.run && s.log[p].stored <= v
  {
    ReachableInv(c, s);
    assert CreateSucceeded(s.log, s.hist[v].writer.run, v);
    FirstVersionIsTheUsers(c, s);
    assert RespectfulAt(s.hist, v);
  }

  /** And the other way round: when a reconcile that made a Job for a `once` object has ended,
      it has stored `done`, unless that update failed or met a newer version. */
  lemma OnceBecomesDone(c: Config, s: State, p: nat)
    requires ValidConfig(c) && Reachable(c, s)
    requires p < |s.log| && s.log[p].JobDone? && s.log[p].sent.spec.strategy == Once
    requires s.run.None? || s.run.value.id != s.log[p].run || s.run.value.pc.Returned?
    ensures (exists v :: s.log[p].stored <= v < |s.hist| && s.hist[v].writer == ErrandSpec(s.log[p].run) &&
                         s.hist[v].obj.Some? && s.hist[v].obj.value.spec.strategy == Done) ||
            (exists r :: p < r < |s.log| && s.log[r].Refused? && s.log[r].run == s.log[p].run &&
                         s.log[r].sent.spec.strategy == Done)
  {
    ReachableInv(c, s);
    assert OnceHandled(s, p);
  }

  lemma FirstVersionIsTheUsers(c: Config, s: State)
    requires Reachable(c, s)
    ensures |s.hist| > 0 && s.hist[0] == Write(None, User)
  {
    var now: Time, steps: seq<Action> :| ValidRun(c, Initial(now), steps) && Outcome(c, Initial(now), steps) == s;
    RunOnlyAppends(c, Initial(now), steps);
    assert Initial(now).hist[0] == s.hist[0];
  }

  lemma {:induction false} RunOnlyAppends(c: Config, s: State, steps: seq<Action>)
    requires ValidRun(c, s, steps)
    ensures s.hist <= Outcome(c, s, steps).hist && s.log <= Outcome(c, s, steps).log
    decreases |steps|
  {
    if steps != [] {
      StepsOnlyAppend(c, s, steps[0]);
      RunOnlyAppends(c, Apply(c, s, steps[0]), steps[1..]);
    }
  }

  /** Two controllers write one status object and neither undoes the other: the Job
      reconciler stores exactly `completed`, the errand reconciler only the timestamp, or
      one of its two strategy changes. */
  lemma WritersRespectEachOther(c: Config, s: State, v: nat)
    requires ValidConfig(c) && Reachable(c, s) && 1 <= v < |s.hist| && s.hist[v].writer != User
    ensures s.hist[v - 1].obj.Some? && s.hist[v].obj.Some?
    ensures var a, b := s.hist[v - 1].obj.value, s.hist[v].obj.value;
            (s.hist[v].writer.JobStatus? ==> b.spec == a.spec && b.status == Status(a.status.lastReconcile, true)) &&
            (s.hist[v].writer.ErrandStatus? ==>
              b.spec == a.spec && b.status.completed == a.status.completed &&
              (b.status.lastReconcile.Some? <==> a.status.lastReconcile.None?)) &&
            (s.hist[v].writer.ErrandSpec? ==>
              b.status == a.status &&
              ((a.spec.strategy == Now && b.spec == a.spec.(strategy := Manual)) ||
               (a.spec.strategy == Once && b.spec == a.spec.(strategy := Done))))
  {
    ReachableInv(c, s);
    assert RespectfulAt(s.hist, v);
  }

  /** `completed` never goes back to false while the object lives. */
  lemma {:induction false} CompletedIsFinal(c: Config, s: State, i: nat, j: nat)
    requires ValidConfig(c) && Reachable(c, s) && i <= j < |s.hist|
    requires forall k :: i <= k <= j ==> s.hist[k].obj.Some?
    requires s.hist[i].obj.value.status.completed
    ensures s.hist[j].obj.value.status.completed
    decreases j
  {
    if i < j {
      CompletedIsFinal(c, s, i, j - 1);
      ReachableInv(c, s);
      assert RespectfulAt(s.hist, j);
    }
  }

  /** The controllers never trigger themselves: an event that spans only their own writes,
      however many the informer skips, passes no predicate. */
  lemma NoSelfTrigger(c: Config, s: State, from: nat, last: nat)
    requires ValidConfig(c) && Reachable(c, s)
    requires from < last < |s.hist| && forall v :: from < v <= last ==> s.hist[v].writer != User
    ensures !ErrandController.EventPasses(c.naming, s.hist[from].obj, s.hist[last].obj)
  {
    ReachableInv(c, s);
    OwnWritesAreQuiet(s, from, last);
  }

  /** What a chain of controller writes can change of the spec. */
  ghost predicate QuietChange(a: Spec, b: Spec) {
    a == b || (a.strategy == Now && b == a.(strategy := Manual)) || (a.strategy == Once && b == a.(strategy := Done))
  }

  lemma {:induction false} OwnWritesAreQuiet(s: State, from: nat, last: nat)
    requires InvWrites(s) && from < last < |s.hist|
    requires forall v :: from < v <= last ==> s.hist[v].writer != User
    ensures s.hist[from].obj.Some? && s.hist[last].obj.Some?
    ensures QuietChange(s.hist[from].obj.value.spec, s.hist[last].obj.value.spec)
    decreases last
  {
    assert RespectfulAt(s.hist, last);
    assert s.hist[last].writer != User;
    if from + 1 < last {
      OwnWritesAreQuiet(s, from, last - 1);
    }
  }
}
