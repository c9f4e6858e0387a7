/** No accepted trigger is lost, and every Job is paid for by one. */
module ErrandTriggers {
  import opened Types
  import opened ErrandReconciler
  import opened ErrandSystem
  import opened ErrandInvariant

  lemma StepsOnlyAppend(c: Config, s: State, a: Action)
    requires Enabled(c, s, a)
    ensures s.hist <= Apply(c, s, a).hist && s.log <= Apply(c, s, a).log
  {
  }

  // ----- an open meltdown window has a wake-up call -----

  /** A stored timestamp whose window has not passed. */
  predicate OpenWindow(s: State, i: nat) {
    i < |s.hist| && Stamp(s.hist[i]).Some? && s.clock < Stamp(s.hist[i]).value + SKIP
  }

  ghost predicate WakeUp(s: State, i: nat)
    requires OpenWindow(s, i)
  {
    (exists e :: e in s.queue && Stamp(s.hist[i]).value + SKIP <= e) ||
    (s.run.Some? && s.run.value.pc == Returned(After(SKIP)))
  }

  ghost predicate InvWake(s: State) {
    forall i :: OpenWindow(s, i) ==> WakeUp(s, i)
  }

  /** The entry that results from merging `w` with one due at `due` comes at or after `end`, or
      some other entry does. */
  ghost predicate StillWakes(s: State, w: Time, due: Time, end: Time) {
    (end <= w && end <= due) || exists e :: e in s.queue - multiset{w} && end <= e
  }

  /** In a queue that merges, `Finish` may only take a delayed entry from the open windows that
      can do without it.  In a queue that keeps every entry there is nothing to require. */
  ghost predicate HarmlessMerge(c: Config, s: State, a: Action)
    requires Enabled(c, s, a)
  {
    a.Finish? && a.merged.Some? ==>
      forall i: nat :: OpenWindow(s, i) ==>
        StillWakes(s, a.merged.value, RequeueAt(s, s.run.value.pc.result, a.backoff), Stamp(s.hist[i]).value + SKIP)
  }

  /** A merge leaves a window its wake-up call exactly if the entries say so beforehand. */
  lemma MergeWakesIff(c: Config, s: State, a: Action, i: nat)
    requires Enabled(c, s, a) && a.Finish? && a.merged.Some? && OpenWindow(s, i)
    ensures WakeUp(Apply(c, s, a), i) <==>
            StillWakes(s, a.merged.value, RequeueAt(s, s.run.value.pc.result, a.backoff), Stamp(s.hist[i]).value + SKIP)
  {
    var w, due, end := a.merged.value, RequeueAt(s, s.run.value.pc.result, a.backoff), Stamp(s.hist[i]).value + SKIP;
    var t, rest := Apply(c, s, a), s.queue - multiset{w};
    assert t.queue == rest + multiset{if w < due then w else due};
    if e :| e in rest && end <= e {
      assert e in t.queue;
    }
    assert (if w < due then w else due) in t.queue;
  }

  /** An entry later than the clock stays in the queue, unless it is merged with another. */
  lemma LaterEntriesStay(c: Config, s: State, a: Action, e: Time)
    requires Enabled(c, s, a) && !(a.Finish? && a.merged.Some?) && e in s.queue && s.clock < e
    ensures e in Apply(c, s, a).queue
  {
  }

  lemma WakeUpStays(c: Config, s: State, a: Action, i: nat)
    requires InvBase(c, s) && Enabled(c, s, a) && !(a.Finish? && a.merged.Some?)
    requires OpenWindow(s, i) && WakeUp(s, i) && OpenWindow(Apply(c, s, a), i)
    ensures WakeUp(Apply(c, s, a), i)
  {
    StepsOnlyAppend(c, s, a);
    var t := Apply(c, s, a);
    assert t.hist[i] == s.hist[i];
    if e :| e in s.queue && Stamp(s.hist[i]).value + SKIP <= e {
      LaterEntriesStay(c, s, a, e);
    } else if a.Finish? {
      assert Stamp(s.hist[i]).value <= s.clock;
      assert s.clock + SKIP in t.queue;
    } else {
      ReturnedStays(c, s, a);
    }
  }

  lemma ReturnedStays(c: Config, s: State, a: Action)
    requires Enabled(c, s, a) && !a.Finish? && s.run.Some? && s.run.value.pc.Returned?
    ensures Apply(c, s, a).run == s.run
  {
  }

  lemma OldWindowsWake(c: Config, s: State, a: Action, i: nat)
    requires InvBase(c, s) && InvWake(s) && Enabled(c, s, a) && HarmlessMerge(c, s, a)
    requires i < |s.hist| && OpenWindow(Apply(c, s, a), i)
    ensures WakeUp(Apply(c, s, a), i)
  {
    OldWindowsWereOpen(c, s, a, i);
    if a.Finish? && a.merged.Some? {
      MergeWakesIff(c, s, a, i);
    } else {
      WakeUpStays(c, s, a, i);
    }
  }

  lemma OldWindowsWereOpen(c: Config, s: State, a: Action, i: nat)
    requires Enabled(c, s, a) && i < |s.hist| && OpenWindow(Apply(c, s, a), i)
    ensures OpenWindow(s, i)
  {
    StepsOnlyAppend(c, s, a);
    assert Apply(c, s, a).hist[i] == s.hist[i];
    assert s.clock <= Apply(c, s, a).clock;
  }

  lemma StepKeepsWake(c: Config, s: State, a: Action)
    requires ValidConfig(c) && InvBase(c, s) && InvWake(s) && Enabled(c, s, a) && HarmlessMerge(c, s, a)
    ensures InvWake(Apply(c, s, a))
  {
    StepsOnlyAppend(c, s, a);
    var t := Apply(c, s, a);
    forall i: nat | OpenWindow(t, i) ensures WakeUp(t, i) {
      if i < |s.hist| {
        OldWindowsWake(c, s, a, i);
      } else {
        NewStampSleeps(c, s, a);
      }
    }
  }

  /** A version stored with an open window comes from the errand reconciler, which is about
      to ask for its requeue, or copies the timestamp of the version before. */
  lemma NewStampSleeps(c: Config, s: State, a: Action)
    requires ValidConfig(c) && InvBase(c, s) && InvWake(s) && Enabled(c, s, a)
    requires var t := Apply(c, s, a); |t.hist| > |s.hist| && OpenWindow(t, |s.hist|)
    ensures var t := Apply(c, s, a); WakeUp(t, |s.hist|)
  {
    var t, n := Apply(c, s, a), |s.hist|;
    if !(a.Ask? && s.run.value.pc.Stamping?) {
      StepKeepsBase(c, s, a);
      NewStampIsCopied(c, s, a);
      assert OpenWindow(s, n - 1) && WakeUp(s, n - 1);
      assert t.queue == s.queue;
      assert s.run.Some? && s.run.value.pc.Returned? ==> t.run == s.run;
    }
  }

  lemma NewStampIsCopied(c: Config, s: State, a: Action)
    requires InvBase(c, s) && Enabled(c, s, a) && !(a.Ask? && s.run.value.pc.Stamping?)
    requires var t := Apply(c, s, a); InvBase(c, t) && |t.hist| > |s.hist| && Stamp(t.hist[|s.hist|]).Some?
    ensures Stamp(Apply(c, s, a).hist[|s.hist|]) == Stamp(s.hist[|s.hist| - 1]) && Apply(c, s, a).clock == s.clock
  {
    var t, n := Apply(c, s, a), |s.hist|;
    assert RespectfulAt(t.hist, n);
    assert t.hist[n - 1] == s.hist[n - 1];
  }

  // ----- an unanswered trigger is alive -----

  ghost predicate DeletedAfter(s: State, version: nat) {
    exists j :: version < j < |s.hist| && s.hist[j].obj.None?
  }

  /** A create result without error answers a trigger if the Job was made from a later version
      than the one that was accepted. */
  predicate Answers(e: Event, version: nat) {
    e.JobDone? && e.sent.version > version
  }

  /** The p-th logged event is an accepted trigger, no create result has answered it since, and
      the object it was accepted for was not deleted later. */
  ghost predicate Unanswered(s: State, p: nat) {
    p < |s.log| && s.log[p].Accepted? &&
    (forall r :: p < r < |s.log| ==> !Answers(s.log[r], s.log[p].version)) &&
    !DeletedAfter(s, s.log[p].version)
  }

  /** The reconcile will create a Job, or hand the queue a new entry. */
  predicate WillContinue(pc: Pc) {
    !pc.Finishing? && pc != Returned(Nothing)
  }

  /** And if it does create a Job, then from a later version. */
  predicate WillAnswer(pc: Pc, version: nat) {
    WillContinue(pc) && (pc.Reverting? || pc.Creating? ==> pc.q.version > version)
  }

  ghost predicate Alive(s: State, version: nat) {
    s.queue != multiset{} || (s.run.Some? && WillAnswer(s.run.value.pc, version))
  }

  ghost predicate InvTrigger(s: State) {
    forall p: nat :: Unanswered(s, p) ==> Alive(s, s.log[p].version)
  }

  /** What is unanswered after a step was so before, unless the step accepted it. */
  lemma UnansweredBefore(s: State, t: State, p: nat)
    requires s.hist <= t.hist && s.log <= t.log && Unanswered(t, p) && p < |s.log|
    ensures Unanswered(s, p)
  {
  }

  /** A create result without error answers what was accepted for an earlier version. */
  lemma CreateAnswers(c: Config, s: State, created: bool, p: nat)
    requires Enabled(c, s, Ask(Made(created))) && p < |s.log| && s.log[p].Accepted?
    requires s.run.value.pc.q.version > s.log[p].version
    ensures !Unanswered(Apply(c, s, Ask(Made(created))), p)
  {
    var t := Apply(c, s, Ask(Made(created)));
    assert Answers(t.log[|s.log|], t.log[p].version);
  }

  ghost predicate InvAccepted(s: State) {
    forall p :: 0 <= p < |s.log| && s.log[p].Accepted? ==>
      s.log[p].version < s.seen && s.log[p].version < |s.hist| && s.hist[s.log[p].version].obj.Some?
  }

  lemma StepKeepsAccepted(c: Config, s: State, a: Action)
    requires InvAccepted(s) && Enabled(c, s, a)
    ensures InvAccepted(Apply(c, s, a))
  {
  }

  lemma StepKeepsTriggers(c: Config, s: State, a: Action)
    requires ValidConfig(c) && InvBase(c, s) && InvWake(s) && InvAccepted(s) && InvTrigger(s) && Enabled(c, s, a)
    ensures InvTrigger(Apply(c, s, a))
  {
    var t := Apply(c, s, a);
    StepsOnlyAppend(c, s, a);
    forall p: nat | Unanswered(t, p) ensures Alive(t, t.log[p].version) {
      if p < |s.log| {
        UnansweredBefore(s, t, p);
        if a.Ask? {
          AskKeepsAlive(c, s, a.reply, p);
        } else {
          OthersKeepAlive(c, s, a, s.log[p].version);
        }
      } else {
        assert s.clock in t.queue;
      }
    }
  }

  lemma OthersKeepAlive(c: Config, s: State, a: Action, version: nat)
    requires Alive(s, version) && Enabled(c, s, a) && !a.Ask?
    ensures Alive(Apply(c, s, a), version)
  {
  }

  lemma AskKeepsAlive(c: Config, s: State, r: Reply, p: nat)
    requires ValidConfig(c) && InvBase(c, s) && InvWake(s) && InvAccepted(s) && Enabled(c, s, Ask(r))
    requires Unanswered(s, p) && Unanswered(Apply(c, s, Ask(r)), p) && Alive(s, s.log[p].version)
    ensures Alive(Apply(c, s, Ask(r)), s.log[p].version)
  {
    match s.run.value.pc
    case Getting =>
      assert s.hist[s.log[p].version].obj.Some?;
    case Checking(q) =>
      if q.status.lastReconcile.Some? && InWindow(q.status.lastReconcile.value, s.clock) {
        assert Stamp(s.hist[q.version]) == q.status.lastReconcile;
        assert OpenWindow(s, q.version) && WakeUp(s, q.version);
      }
    case Creating(q) =>
      if r.Made? && q.version > s.log[p].version {
        CreateAnswers(c, s, r.created, p);
      }
    case Clearing(_) =>
      if r.Ok? {
        StoredIsLater(c, s, r);
      }
    case Reverting(_) =>
      if r.Ok? {
        StoredIsLater(c, s, r);
      }
    case _ =>
  }

  /** A call that stores a version goes on with a copy that is later than every version an
      accepted trigger can be for. */
  lemma StoredIsLater(c: Config, s: State, r: Reply)
    requires Enabled(c, s, Ask(r)) && (s.run.value.pc.Clearing? || s.run.value.pc.Reverting?) && r.Ok?
    ensures var pc := Apply(c, s, Ask(r)).run.value.pc; (pc.Reverting? || pc.Creating?) && pc.q.version == |s.hist|
  {
  }

  // ----- conservation -----

  function Jobs(log: seq<Event>): nat {
    if log == [] then 0
    else Jobs(log[..|log| - 1]) + (if log[|log| - 1].JobDone? && log[|log| - 1].created then 1 else 0)
  }

  function Accepts(log: seq<Event>): nat {
    if log == [] then 0
    else Accepts(log[..|log| - 1]) + (if log[|log| - 1].Accepted? then 1 else 0)
  }

  /** A reconcile in flight that may still create a Job or requeue itself. */
  function Owed(run: Option<Running>): nat {
    if run.Some? && WillContinue(run.value.pc) then 1 else 0
  }

  ghost predicate InvPaid(s: State) {
    Jobs(s.log) + |s.queue| + Owed(s.run) <= Accepts(s.log)
  }

  lemma StepKeepsPaid(c: Config, s: State, a: Action)
    requires InvPaid(s) && Enabled(c, s, a)
    ensures InvPaid(Apply(c, s, a))
  {
    if a.Ask? {
      AskKeepsPaid(c, s, a.reply);
    } else if a.Deliver? || a.ConfigEvent? {
      var t := Apply(c, s, a);
      if |t.log| > |s.log| {
        assert t.log[..|t.log| - 1] == s.log;
      }
    } else {
      QueueMovesKeepPaid(c, s, a);
    }
  }

  lemma AskKeepsPaid(c: Config, s: State, r: Reply)
    requires InvPaid(s) && Enabled(c, s, Ask(r))
    ensures InvPaid(Apply(c, s, Ask(r)))
  {
    var t := Apply(c, s, Ask(r));
    if |t.log| > |s.log| {
      assert t.log[..|t.log| - 1] == s.log;
    }
  }

  lemma QueueMovesKeepPaid(c: Config, s: State, a: Action)
    requires InvPaid(s) && Enabled(c, s, a) && !a.Ask? && !a.Deliver? && !a.ConfigEvent?
    ensures InvPaid(Apply(c, s, a))
  {
  }
}
