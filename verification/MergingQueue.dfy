/** What the theorems owe to the queue and to the clock: client-go keeps one delayed entry per
    key, the earliest, and the API server keeps whole seconds. */
module MergingQueue {
  import opened Types
  import opened ErrandReconciler
  import opened ErrandSystem
  import opened ErrandInvariant
  import opened ErrandTriggers
  import opened ErrandTheorems
  import opened ErrandQuiescence
  import ErrandController

  /** At most one entry is due later than now. */
  ghost predicate OneDelayed(s: State) {
    forall e, f :: e in s.queue && f in s.queue && s.clock < e && s.clock < f ==> e == f && s.queue[e] == 1
  }

  /** That is what a merging queue keeps. */
  lemma {:induction false} MergingKeepsOneDelayed(c: Config, s: State, steps: seq<Action>)
    requires c.merge && OneDelayed(s) && ValidRun(c, s, steps)
    ensures OneDelayed(Outcome(c, s, steps))
    decreases |steps|
  {
    if steps != [] {
      StepKeepsOneDelayed(c, s, steps[0]);
      MergingKeepsOneDelayed(c, Apply(c, s, steps[0]), steps[1..]);
    }
  }

  lemma OneDelayedEntry(c: Config, s: State)
    requires c.merge && Reachable(c, s)
    ensures forall e, f :: e in s.queue && f in s.queue && s.clock < e && s.clock < f ==> e == f && s.queue[e] == 1
  {
    var now: Time, steps: seq<Action> :| ValidRun(c, Initial(now), steps) && Outcome(c, Initial(now), steps) == s;
    MergingKeepsOneDelayed(c, Initial(now), steps);
  }

  lemma StepKeepsOneDelayed(c: Config, s: State, a: Action)
    requires c.merge && OneDelayed(s) && Enabled(c, s, a)
    ensures OneDelayed(Apply(c, s, a))
  {
    if a.Finish? {
      FinishKeepsOneDelayed(c, s, a);
    } else {
      OthersDelayNothing(c, s, a);
    }
  }

  lemma OthersDelayNothing(c: Config, s: State, a: Action)
    requires Enabled(c, s, a) && !a.Finish?
    ensures var t := Apply(c, s, a);
            s.clock <= t.clock && forall e :: e in t.queue && t.clock < e ==> e in s.queue && t.queue[e] == s.queue[e]
  {
  }

  lemma FinishKeepsOneDelayed(c: Config, s: State, a: Action)
    requires c.merge && OneDelayed(s) && Enabled(c, s, a) && a.Finish?
    ensures OneDelayed(Apply(c, s, a))
  {
  }

  ghost predicate HarmlessRun(c: Config, s: State, steps: seq<Action>)
    decreases |steps|
  {
    steps == [] ||
    (Enabled(c, s, steps[0]) && HarmlessMerge(c, s, steps[0]) && HarmlessRun(c, Apply(c, s, steps[0]), steps[1..]))
  }

  /** A merging queue loses nothing as long as no merge takes the last wake-up call of an open
      window. */
  lemma {:induction false} HarmlessRunsKeepTriggers(c: Config, s: State, steps: seq<Action>)
    requires ValidConfig(c) && Inv(c, s) && InvLive(s) && HarmlessRun(c, s, steps)
    ensures ValidRun(c, s, steps) && Inv(c, Outcome(c, s, steps)) && InvLive(Outcome(c, s, steps))
    decreases |steps|
  {
    if steps != [] {
      StepKeepsInv(c, s, steps[0]);
      StepKeepsWake(c, s, steps[0]);
      StepKeepsTriggers(c, s, steps[0]);
      HarmlessRunsKeepTriggers(c, Apply(c, s, steps[0]), steps[1..]);
    }
  }

  /** The run leaves trigger p unanswered with nothing left to answer it. */
  ghost predicate Loses(c: Config, s: State, steps: seq<Action>, p: nat) {
    ValidRun(c, s, steps) && Idle(Outcome(c, s, steps)) && Unanswered(Outcome(c, s, steps), p)
  }

  lemma HarmlessRunsLoseNothing(c: Config, s: State, steps: seq<Action>, p: nat)
    requires ValidConfig(c) && Inv(c, s) && InvLive(s) && HarmlessRun(c, s, steps)
    ensures !Loses(c, s, steps, p)
  {
    HarmlessRunsKeepTriggers(c, s, steps);
    var t := Outcome(c, s, steps);
    assert Unanswered(t, p) ==> Alive(t, t.log[p].version);
  }

  /** One entry is taken inside the window of version i: the reconcile returns and asks for
      nothing. */
  function Swallow(wait: nat, due: Time, i: nat): seq<Action> {
    [Tick(wait), Pop(due), Ask(ReadAt(i)), Ask(Ok), Finish(0, None)]
  }

  lemma FirstStep(c: Config, s: State, a: Action, rest: seq<Action>)
    requires Enabled(c, s, a) && HarmlessMerge(c, s, a)
    requires HarmlessRun(c, Apply(c, s, a), rest) && ValidRun(c, Apply(c, s, a), rest)
    ensures HarmlessRun(c, s, [a] + rest) && ValidRun(c, s, [a] + rest)
    ensures Outcome(c, s, [a] + rest) == Outcome(c, Apply(c, s, a), rest)
  {
  }

  lemma SwallowTakesOne(c: Config, s: State, wait: nat, due: Time, i: nat)
    requires ValidConfig(c) && Inv(c, s) && s.run.None? && due in s.queue && due <= s.clock + wait
    requires i < |s.hist| && Stamp(s.hist[i]).Some? && s.clock + wait < Stamp(s.hist[i]).value + SKIP
    ensures var steps := Swallow(wait, due, i);
            HarmlessRun(c, s, steps) && ValidRun(c, s, steps) &&
            Outcome(c, s, steps) == s.(clock := s.clock + wait, queue := s.queue - multiset{due}, started := s.started + 1)
  {
    var s1 := s.(clock := s.clock + wait);
    assert Enabled(c, s, Tick(wait)) && Apply(c, s, Tick(wait)) == s1;
    var s2 := s1.(queue := s.queue - multiset{due}, run := Some(Running(s.started, Getting, None)), started := s.started + 1);
    assert Enabled(c, s1, Pop(due)) && Apply(c, s1, Pop(due)) == s2;
    SwallowedReconcile(c, s2, i);
    var tail := [Ask(ReadAt(i)), Ask(Ok), Finish(0, None)];
    FirstStep(c, s1, Pop(due), tail);
    FirstStep(c, s, Tick(wait), [Pop(due)] + tail);
    assert Swallow(wait, due, i) == [Tick(wait)] + ([Pop(due)] + tail);
  }

  lemma SwallowedReconcile(c: Config, s: State, i: nat)
    requires |s.hist| > 0 && 1 <= s.seen <= |s.hist| && s.run.Some? && s.run.value.pc == Getting
    requires i < |s.hist| && Stamp(s.hist[i]).Some? && InWindow(Stamp(s.hist[i]).value, s.clock)
    ensures var tail := [Ask(ReadAt(i)), Ask(Ok), Finish(0, None)];
            HarmlessRun(c, s, tail) && ValidRun(c, s, tail) && Outcome(c, s, tail) == s.(run := None)
  {
    var q, id := s.hist[i].obj.value, s.run.value.id;
    var saw := Some(q.spec.strategy);
    var s1 := s.(run := Some(Running(id, Checking(q), saw)));
    assert Enabled(c, s, Ask(ReadAt(i))) && Apply(c, s, Ask(ReadAt(i))) == s1;
    var s2 := s.(run := Some(Running(id, Returned(Nothing), saw)));
    assert Enabled(c, s1, Ask(Ok)) && Apply(c, s1, Ask(Ok)) == s2;
    assert Enabled(c, s2, Finish(0, None)) && Apply(c, s2, Finish(0, None)) == s.(run := None);
    FirstStep(c, s2, Finish(0, None), []);
    FirstStep(c, s1, Ask(Ok), [Finish(0, None)]);
    FirstStep(c, s, Ask(ReadAt(i)), [Ask(Ok), Finish(0, None)]);
    assert [Finish(0, None)] == [Finish(0, None)] + [];
    assert [Ask(Ok), Finish(0, None)] == [Ask(Ok)] + [Finish(0, None)];
    assert [Ask(ReadAt(i)), Ask(Ok), Finish(0, None)] == [Ask(ReadAt(i))] + [Ask(Ok), Finish(0, None)];
  }

  lemma {:induction false} HarmlessRunsCompose(c: Config, s: State, first: seq<Action>, second: seq<Action>)
    requires ValidRun(c, s, first) && HarmlessRun(c, s, first) && HarmlessRun(c, Outcome(c, s, first), second)
    ensures HarmlessRun(c, s, first + second)
    decreases |first|
  {
    if first == [] {
      assert first + second == second;
    } else {
      assert (first + second)[0] == first[0] && (first + second)[1..] == first[1..] + second;
      HarmlessRunsCompose(c, Apply(c, s, first[0]), first[1..], second);
    }
  }

  /** An open window without a wake-up call: every entry can be taken before it ends. */
  lemma {:induction false} SleepersLose(c: Config, s: State, i: nat, p: nat) returns (steps: seq<Action>)
    requires ValidConfig(c) && Inv(c, s) && s.run.None? && Unanswered(s, p)
    requires OpenWindow(s, i) && !WakeUp(s, i)
    ensures HarmlessRun(c, s, steps) && Loses(c, s, steps, p)
    decreases |s.queue|
  {
    if s.queue == multiset{} {
      steps := [];
    } else {
      assert exists e :: e in s.queue by {
        assert (forall e :: e !in s.queue) ==> s.queue == multiset{};
      }
      var due :| due in s.queue;
      var wait: nat := if due <= s.clock then 0 else due - s.clock;
      var first := Swallow(wait, due, i);
      SwallowTakesOne(c, s, wait, due, i);
      var t := Outcome(c, s, first);
      RunKeepsInv(c, s, first);
      assert forall e :: e in t.queue ==> e in s.queue;
      assert DeletedAfter(t, t.log[p].version) ==> DeletedAfter(s, s.log[p].version);
      var rest := SleepersLose(c, t, i, p);
      HarmlessRunsCompose(c, s, first, rest);
      RunsCompose(c, s, first, rest);
      steps := first + rest;
    }
  }

  ghost predicate Sleeper(s: State, i: nat) {
    OpenWindow(s, i) && forall e :: e in s.queue ==> e < Stamp(s.hist[i]).value + SKIP
  }

  /** Between reconciles, with a trigger unanswered: it can be lost without any further
      harmful merge if and only if some open window has no entry due at or after its end. */
  lemma LossIffNoWakeUp(c: Config, s: State, p: nat)
    requires ValidConfig(c) && Inv(c, s) && InvTrigger(s) && s.run.None? && Unanswered(s, p)
    ensures (exists steps :: HarmlessRun(c, s, steps) && Loses(c, s, steps, p)) <==> (exists i :: Sleeper(s, i))
  {
    if i: nat :| Sleeper(s, i) {
      var steps := SleepersLose(c, s, i, p);
      assert HarmlessRun(c, s, steps) && Loses(c, s, steps, p);
    } else {
      forall i: nat | OpenWindow(s, i) ensures WakeUp(s, i) {
        assert !Sleeper(s, i);
      }
      forall steps | HarmlessRun(c, s, steps) ensures !Loses(c, s, steps, p) {
        HarmlessRunsLoseNothing(c, s, steps, p);
      }
    }
  }

  /** A merge is harmless if and only if no unanswered trigger can be lost after it without a
      further harmful merge. */
  lemma MergeIsHarmlessIff(c: Config, s: State, a: Action, p: nat)
    requires ValidConfig(c) && Inv(c, s) && InvLive(s) && Enabled(c, s, a) && a.Finish? && Unanswered(s, p)
    ensures HarmlessMerge(c, s, a) <==>
            !exists steps :: HarmlessRun(c, Apply(c, s, a), steps) && Loses(c, Apply(c, s, a), steps, p)
  {
    var t := Apply(c, s, a);
    StepKeepsInv(c, s, a);
    StepKeepsTriggers(c, s, a);
    LossIffNoWakeUp(c, t, p);
    if HarmlessMerge(c, s, a) {
      StepKeepsWake(c, s, a);
      forall i: nat | OpenWindow(t, i) ensures !Sleeper(t, i) {
        assert WakeUp(t, i);
      }
    } else {
      var i: nat :| OpenWindow(s, i) &&
                    !StillWakes(s, a.merged.value, RequeueAt(s, s.run.value.pc.result, a.backoff), Stamp(s.hist[i]).value + SKIP);
      MergeWakesIff(c, s, a, i);
      assert Sleeper(t, i);
    }
  }

  /** After the steps `first` comes a merge that takes the last wake-up call of a window. */
  ghost predicate HarmfulAfter(c: Config, s: State, first: seq<Action>, a: Action) {
    ValidRun(c, s, first) && Enabled(c, Outcome(c, s, first), a) && !HarmlessMerge(c, Outcome(c, s, first), a)
  }

  /** And no trigger is lost without a harmful merge on the way. */
  lemma LossNeedsHarmfulMerge(c: Config, s: State, steps: seq<Action>, p: nat)
    requires ValidConfig(c) && Inv(c, s) && InvLive(s) && Loses(c, s, steps, p)
    ensures exists k :: 0 <= k < |steps| && HarmfulAfter(c, s, steps[..k], steps[k])
  {
    if HarmlessRun(c, s, steps) {
      HarmlessRunsLoseNothing(c, s, steps, p);
    } else {
      var k := FirstHarmfulMerge(c, s, steps);
    }
  }

  lemma {:induction false} FirstHarmfulMerge(c: Config, s: State, steps: seq<Action>) returns (k: nat)
    requires ValidRun(c, s, steps) && !HarmlessRun(c, s, steps)
    ensures k < |steps| && HarmfulAfter(c, s, steps[..k], steps[k])
    decreases |steps|
  {
    if !HarmlessMerge(c, s, steps[0]) {
      k := 0;
      HarmfulNow(c, s, steps[0]);
      assert steps[..0] == [];
    } else {
      var m := FirstHarmfulMerge(c, Apply(c, s, steps[0]), steps[1..]);
      k := m + 1;
      HarmfulLater(c, s, steps[0], steps[1..][..m], steps[1..][m]);
      TakeCons(steps, m);
    }
  }

  lemma TakeCons(steps: seq<Action>, m: nat)
    requires m + 1 < |steps|
    ensures steps[..m + 1] == [steps[0]] + steps[1..][..m] && steps[m + 1] == steps[1..][m]
  {
  }

  lemma HarmfulNow(c: Config, s: State, a: Action)
    requires Enabled(c, s, a) && !HarmlessMerge(c, s, a)
    ensures HarmfulAfter(c, s, [], a)
  {
  }

  lemma HarmfulLater(c: Config, s: State, a: Action, first: seq<Action>, b: Action)
    requires Enabled(c, s, a) && HarmfulAfter(c, Apply(c, s, a), first, b)
    ensures HarmfulAfter(c, s, [a] + first, b)
  {
    assert ([a] + first)[1..] == first;
  }

  // ----- it happens -----

  lemma StepIsReachable(c: Config, s: State, a: Action)
    requires Reachable(c, s) && Enabled(c, s, a)
    ensures Reachable(c, Apply(c, s, a))
  {
    assert [a][1..] == [];
    assert ValidRun(c, Apply(c, s, a), []) && ValidRun(c, s, [a]);
    assert Outcome(c, s, [a]) == Apply(c, s, a);
    ContinuationIsReachable(c, s, [a]);
  }

  lemma InitialIsReachable(c: Config, now: Time)
    ensures Reachable(c, Initial(now))
  {
    assert ValidRun(c, Initial(now), []) && Outcome(c, Initial(now), []) == Initial(now);
  }

  function Plain(merge: bool): Config {
    Config(ErrandController.Naming(s => s, s => ErrandController.Version(-1, false)), t => t, 1, merge)
  }

  const AUTO := Spec(Once, true, ConfigNames({}, {}), "template")

  /** The object a user creates, and the state just after its creation was accepted. */
  function Created(now: Time): State {
    State(now, [Write(None, User), Write(Some(QuarksJob(1, AUTO, Status(None, false))), User)], 2,
          multiset{now}, None, map[], 0, [Accepted(1)])
  }

  lemma CreatedIsReachable(c: Config, now: Time)
    ensures Reachable(c, Created(now))
  {
    var s, q := Initial(now), QuarksJob(1, AUTO, Status(None, false));
    InitialIsReachable(c, now);
    StepIsReachable(c, s, UserWrite(Some(AUTO)));
    var t := State(now, [Write(None, User), Write(Some(q), User)], 1, multiset{}, None, map[], 0, []);
    assert Apply(c, s, UserWrite(Some(AUTO))) == t;
    StepIsReachable(c, t, Deliver(1));
    assert Apply(c, t, Deliver(1)) == Created(now);
  }

  /** A complete reconcile up to its clock reading, on version `at`. */
  function Checked(s: State, due: Time, at: nat): State
    requires at < |s.hist| && s.hist[at].obj.Some?
  {
    var q := s.hist[at].obj.value;
    s.(queue := s.queue - multiset{due}, started := s.started + 1,
       run := Some(Running(s.started, AfterClock(q, s.clock), Some(q.spec.strategy))))
  }

  lemma CheckedIsReachable(c: Config, s: State, due: Time, at: nat)
    requires Reachable(c, s) && 1 <= s.seen <= |s.hist| && s.run.None? && due in s.queue && due <= s.clock
    requires at < |s.hist| && s.hist[at].obj.Some?
    ensures Reachable(c, Checked(s, due, at))
  {
    StepIsReachable(c, s, Pop(due));
    var s1 := s.(queue := s.queue - multiset{due}, started := s.started + 1, run := Some(Running(s.started, Getting, None)));
    assert Apply(c, s, Pop(due)) == s1;
    ReadIsReachable(c, s1, at);
  }

  lemma ReadIsReachable(c: Config, s: State, at: nat)
    requires Reachable(c, s) && 1 <= s.seen <= |s.hist| && s.run.Some? && s.run.value.pc == Getting
    requires at < |s.hist| && s.hist[at].obj.Some?
    ensures var q := s.hist[at].obj.value;
            Reachable(c, s.(run := Some(Running(s.run.value.id, AfterClock(q, s.clock), Some(q.spec.strategy)))))
  {
    var q, id := s.hist[at].obj.value, s.run.value.id;
    StepIsReachable(c, s, Ask(ReadAt(at)));
    var s1 := s.(run := Some(Running(id, Checking(q), Some(q.spec.strategy))));
    assert Apply(c, s, Ask(ReadAt(at))) == s1;
    StepIsReachable(c, s1, Ask(Ok));
    assert Apply(c, s1, Ask(Ok)) == s.(run := Some(Running(id, AfterClock(q, s.clock), Some(q.spec.strategy))));
  }

  /** A reconcile that opens the meltdown window on the latest version. */
  function Stamped(c: Config, s: State, due: Time): State
    requires |s.hist| > 0 && Latest(s).Some?
  {
    var q := WithStamp(Latest(s).value, Some(c.round(s.clock))).(version := |s.hist|);
    s.(queue := s.queue - multiset{due} + multiset{s.clock + SKIP}, started := s.started + 1,
       hist := s.hist + [Write(Some(q), ErrandStatus)])
  }

  lemma StampedIsReachable(c: Config, s: State, due: Time)
    requires ValidConfig(c) && Reachable(c, s) && 1 <= s.seen <= |s.hist| && s.run.None?
    requires due in s.queue && due <= s.clock
    requires Latest(s).Some? && Stamp(s.hist[|s.hist| - 1]).None?
    requires c.merge ==> forall e :: e in s.queue ==> e <= s.clock
    ensures Reachable(c, Stamped(c, s, due))
  {
    var at, q := |s.hist| - 1, Latest(s).value;
    LatestVersion(c, s);
    CheckedIsReachable(c, s, due, at);
    var s1 := Checked(s, due, at);
    var sent := WithStamp(q, Some(s.clock));
    assert s1.run == Some(Running(s.started, Stamping(sent), Some(q.spec.strategy)));
    WindowOpens(c, s1, sent);
    var o := WithStamp(q, Some(c.round(s.clock))).(version := |s.hist|);
    assert WithStatus(c, s1, sent) == o;
    assert Stamped(c, s, due) ==
           s1.(hist := s.hist + [Write(Some(o), ErrandStatus)], queue := s1.queue + multiset{s.clock + SKIP}, run := None);
  }

  /** The timestamp is stored, and the wake-up call asked for. */
  lemma WindowOpens(c: Config, s: State, sent: QuarksJob)
    requires Reachable(c, s) && 1 <= s.seen <= |s.hist| && Current(s, sent)
    requires s.run.Some? && s.run.value.pc == Stamping(sent)
    requires c.merge ==> forall e :: e in s.queue ==> e <= s.clock
    ensures Reachable(c, s.(hist := s.hist + [Write(Some(WithStatus(c, s, sent)), ErrandStatus)],
                            queue := s.queue + multiset{s.clock + SKIP}, run := None))
  {
    StepIsReachable(c, s, Ask(Ok));
    var t := s.(hist := s.hist + [Write(Some(WithStatus(c, s, sent)), ErrandStatus)],
                run := Some(s.run.value.(pc := Returned(ErrandReconciler.Result.After(SKIP)))));
    assert Apply(c, s, Ask(Ok)) == t;
    StepIsReachable(c, t, Finish(0, None));
    assert Apply(c, t, Finish(0, None)) == t.(queue := s.queue + multiset{s.clock + SKIP}, run := None);
  }

  lemma LatestVersion(c: Config, s: State)
    requires ValidConfig(c) && Reachable(c, s)
    ensures |s.hist| > 0 && 1 <= s.seen <= |s.hist| && (Latest(s).Some? ==> Latest(s).value.version == |s.hist| - 1)
  {
    ReachableInv(c, s);
  }

  /** A config change arrives just after the window has opened, the cache still shows the
      object without its timestamp, the update conflicts, and the retry takes the place of
      the wake-up call: the change is never acted upon. */
  lemma MergingQueueLosesATrigger()
    ensures exists c: Config, s: State, p: nat :: ValidConfig(c) && c.merge && Reachable(c, s) && Idle(s) && Unanswered(s, p)
  {
    var c := Plain(true);
    forall t ensures RoundsDown(c, t) {}
    CreatedIsReachable(c, 0);
    var s1 := Created(0);
    StampedIsReachable(c, s1, 0);
    var s2 := Stamped(c, s1, 0);
    var q1 := QuarksJob(1, AUTO, Status(None, false));
    var q2 := QuarksJob(2, AUTO, Status(Some(0), false));
    var hist := [Write(None, User), Write(Some(q1), User), Write(Some(q2), ErrandStatus)];
    assert s2 == State(0, hist, 2, multiset{SKIP}, None, map[], 1, [Accepted(1)]);
    StepIsReachable(c, s2, ConfigEvent);
    var s3 := State(0, hist, 2, multiset{SKIP, 0}, None, map[], 1, [Accepted(1), Accepted(1)]);
    assert Apply(c, s2, ConfigEvent) == s3;
    CheckedIsReachable(c, s3, 0, 1);
    RetryReplacesWakeUp(c, Checked(s3, 0, 1), hist, WithStamp(q1, Some(0)));
  }

  lemma RetryReplacesWakeUp(c: Config, s: State, hist: seq<Write>, q: QuarksJob)
    requires ValidConfig(c) && c.merge && Reachable(c, s) && |hist| == 3 && hist[2].obj.Some? && Stamp(hist[2]) == Some(0)
    requires s == State(0, hist, 2, multiset{SKIP}, Some(Running(1, Stamping(q), Some(Once))), map[], 2, [Accepted(1), Accepted(1)])
    ensures exists t: State, p: nat :: Reachable(c, t) && Idle(t) && Unanswered(t, p)
  {
    StepIsReachable(c, s, Ask(Fail));
    var t := s.(run := Some(Running(1, Returned(Failure), Some(Once))));
    assert Apply(c, s, Ask(Fail)) == t;
    var retry := Finish(5_000_000, Some(SKIP));
    StepIsReachable(c, t, retry);
    var u := t.(run := None, queue := multiset{5_000_000});
    assert Apply(c, t, retry) == u;
    ConflictLosesTrigger(c, u);
  }

  lemma ConflictLosesTrigger(c: Config, s: State)
    requires ValidConfig(c) && Reachable(c, s) && s.run.None? && s.clock == 0 && s.queue == multiset{5_000_000}
    requires |s.hist| == 3 && s.hist[2].obj.Some? && Stamp(s.hist[2]) == Some(0)
    requires |s.log| == 2 && s.log[1] == Accepted(1)
    ensures exists t: State, p: nat :: Reachable(c, t) && Idle(t) && Unanswered(t, p)
  {
    assert Unanswered(s, 1) && OpenWindow(s, 2) && !WakeUp(s, 2);
    ReachableInv(c, s);
    var steps := SleepersLose(c, s, 2, 1);
    ContinuationIsReachable(c, s, steps);
  }

  // ----- the debounce bound is tight -----

  /** A reconcile that clears the timestamp, creates a Job and fails to store `done`. */
  function JobCreated(c: Config, s: State, due: Time): State
    requires |s.hist| > 0 && Latest(s).Some?
  {
    var q := WithStamp(Latest(s).value, None).(version := |s.hist|);
    s.(queue := s.queue - multiset{due}, started := s.started + 1, hist := s.hist + [Write(Some(q), ErrandStatus)],
       log := s.log + [JobDone(s.started, s.clock, Some(q.spec.strategy), |s.hist| + 1, true, q),
                       Refused(s.started, WithStrategy(q, Done))])
  }

  lemma JobCreatedIsReachable(c: Config, s: State, due: Time)
    requires ValidConfig(c) && Reachable(c, s) && 1 <= s.seen <= |s.hist| && s.run.None?
    requires due in s.queue && due <= s.clock
    requires Latest(s).Some? && Latest(s).value.spec.strategy == Once
    requires Stamp(s.hist[|s.hist| - 1]).Some? && !InWindow(Stamp(s.hist[|s.hist| - 1]).value, s.clock)
    ensures Reachable(c, JobCreated(c, s, due))
  {
    var q := Latest(s).value;
    LatestVersion(c, s);
    CheckedIsReachable(c, s, due, |s.hist| - 1);
    var s1 := Checked(s, due, |s.hist| - 1);
    var sent := WithStamp(q, None);
    assert s1.run == Some(Running(s.started, Clearing(sent), Some(Once)));
    StepIsReachable(c, s1, Ask(Ok));
    var o := WithStatus(c, s1, sent);
    var s2 := s1.(hist := s.hist + [Write(Some(o), ErrandStatus)], run := Some(Running(s.started, Creating(o), Some(Once))));
    assert Apply(c, s1, Ask(Ok)) == s2;
    CreatedOnceIsReachable(c, s2, o);
    assert JobCreated(c, s, due) ==
           s2.(log := s.log + [JobDone(s.started, s.clock, Some(Once), |s.hist| + 1, true, o),
                               Refused(s.started, WithStrategy(o, Done))],
               run := None);
  }

  lemma CreatedOnceIsReachable(c: Config, s: State, q: QuarksJob)
    requires Reachable(c, s) && |s.hist| > 0 && 1 <= s.seen <= |s.hist| && q.spec.strategy == Once
    requires s.run.Some? && s.run.value.pc == Creating(q) && s.run.value.saw == Some(Once)
    ensures Reachable(c, s.(log := s.log + [JobDone(s.run.value.id, s.clock, Some(Once), |s.hist|, true, q),
                                            Refused(s.run.value.id, WithStrategy(q, Done))],
                            run := None))
  {
    var id := s.run.value.id;
    var events := [JobDone(id, s.clock, Some(Once), |s.hist|, true, q), Refused(id, WithStrategy(q, Done))];
    StepIsReachable(c, s, Ask(Made(true)));
    var s1 := s.(log := s.log + [JobDone(id, s.clock, Some(Once), |s.hist|, true, q)],
                 run := Some(Running(id, Finishing(WithStrategy(q, Done)), Some(Once))));
    assert Apply(c, s, Ask(Made(true))) == s1;
    StepIsReachable(c, s1, Ask(Fail));
    var s2 := s1.(log := s.log + events, run := Some(Running(id, Returned(Nothing), Some(Once))));
    assert Apply(c, s1, Ask(Fail)) == s2 by {
      assert s1.log + [Refused(id, WithStrategy(q, Done))] == s.log + events;
    }
    StepIsReachable(c, s2, Finish(0, None));
    assert Apply(c, s2, Finish(0, None)) == s2.(run := None);
  }

  function Object(version: nat, stamp: Option<Time>): Write {
    Write(Some(QuarksJob(version, AUTO, Status(stamp, false))), if version == 1 then User else ErrandStatus)
  }

  /** A first Job at time `at`. */
  function FirstJob(c: Config, at: Time): State {
    State(at, [Write(None, User), Object(1, None), Object(2, Some(c.round(at - SKIP))), Object(3, None)], 2,
          multiset{}, None, map[], 2,
          [Accepted(1), JobDone(1, at, Some(Once), 4, true, Object(3, None).obj.value),
           Refused(1, WithStrategy(Object(3, None).obj.value, Done))])
  }

  lemma FirstJobIsReachable(c: Config, at: Time)
    requires ValidConfig(c)
    ensures Reachable(c, FirstJob(c, at))
  {
    var now := at - SKIP;
    assert RoundsDown(c, now);
    CreatedIsReachable(c, now);
    StampedIsReachable(c, Created(now), now);
    var h3 := [Write(None, User), Object(1, None), Object(2, Some(c.round(now)))];
    var s1 := State(now, h3, 2, multiset{at}, None, map[], 1, [Accepted(1)]);
    assert Stamped(c, Created(now), now) == s1;
    StepIsReachable(c, s1, Tick(SKIP));
    var s2 := s1.(clock := at);
    assert Apply(c, s1, Tick(SKIP)) == s2;
    JobCreatedIsReachable(c, s2, at);
    assert JobCreated(c, s2, at) == FirstJob(c, at);
  }

  /** Where the window opened at `at` ends, as stored. */
  function WindowEnd(c: Config, at: Time): Time {
    if c.round(at) + SKIP <= at then at else c.round(at) + SKIP
  }

  /** A second Job at the end of the window that was opened at the time of the first. */
  lemma SecondJobIsReachable(c: Config, at: Time) returns (t: State)
    requires ValidConfig(c)
    ensures Reachable(c, t) && |t.log| == 7 && t.log[1].JobDone? && t.log[5].JobDone?
    ensures t.log[1].at == at && t.log[5].at == WindowEnd(c, at)
  {
    var s, end := FirstJob(c, at), WindowEnd(c, at);
    FirstJobIsReachable(c, at);
    StepIsReachable(c, s, ConfigEvent);
    var s1 := s.(queue := multiset{at}, log := s.log + [Accepted(1)]);
    assert Apply(c, s, ConfigEvent) == s1;
    StampedIsReachable(c, s1, at);
    var s2 := s1.(hist := s.hist + [Object(4, Some(c.round(at)))], queue := multiset{at + SKIP}, started := 3);
    assert Stamped(c, s1, at) == s2;
    StepIsReachable(c, s2, Tick(end - at));
    var s3 := s2.(clock := end);
    assert Apply(c, s2, Tick(end - at)) == s3;
    StepIsReachable(c, s3, ConfigEvent);
    var s4 := Accept(s3, 1);
    assert Apply(c, s3, ConfigEvent) == s4;
    JobCreatedIsReachable(c, s4, end);
    t := JobCreated(c, s4, end);
  }

  const BySecond := Plain(false).(round := ToSecond, grain := SECOND)

  /** A timestamp taken at the end of a second is stored as its beginning, so the window it
      opens closes a second early: the next Job follows after nine seconds and a
      nanosecond. */
  lemma NineSecondsHappen()
    ensures exists s: State, p: nat, r: nat ::
              Reachable(BySecond, s) && p < r < |s.log| && s.log[p].JobDone? && s.log[r].JobDone? &&
              s.log[r].at - s.log[p].at == 9 * SECOND + 1
  {
    var s := SecondJobIsReachable(BySecond, 11 * SECOND - 1);
    assert s.log[5].at - s.log[1].at == 9 * SECOND + 1;
  }

  /** Any two Jobs of any run are at least `distance` apart. */
  ghost predicate AlwaysApart(c: Config, distance: Time) {
    forall s: State, p: nat, r: nat ::
      Reachable(c, s) && p < r < |s.log| && s.log[p].JobDone? && s.log[r].JobDone? ==> s.log[r].at - s.log[p].at >= distance
  }

  /** Exactly: Jobs are never closer than the window less `loss` if and only if storing a
      timestamp never loses more than `loss`.  In particular they keep the whole window apart
      exactly if timestamps are stored as they are. */
  lemma JobsAreSpacedIff(c: Config, loss: nat)
    requires ValidConfig(c) && loss < SKIP
    ensures AlwaysApart(c, SKIP - loss) <==> forall t: Time :: t - c.round(t) <= loss
  {
    if forall t: Time :: t - c.round(t) <= loss {
      var d := c.(grain := loss + 1);
      forall t ensures RoundsDown(d, t) {
        assert RoundsDown(c, t);
      }
      forall s: State, p: nat, r: nat | Reachable(c, s) && p < r < |s.log| && s.log[p].JobDone? && s.log[r].JobDone?
        ensures s.log[r].at - s.log[p].at >= SKIP - loss
      {
        GrainIsNotRead(c, d, s);
        JobsAreSpaced(d, s, p, r);
      }
    } else {
      var at: Time :| at - c.round(at) > loss;
      var s := SecondJobIsReachable(c, at);
      assert s.log[5].at - s.log[1].at < SKIP - loss;
    }
  }

  lemma GrainIsNotRead(c: Config, d: Config, s: State)
    requires Reachable(c, s) && d == c.(grain := d.grain)
    ensures Reachable(d, s)
  {
    var now: Time, steps: seq<Action> :| ValidRun(c, Initial(now), steps) && Outcome(c, Initial(now), steps) == s;
    SameRuns(c, d, Initial(now), steps);
  }

  lemma {:induction false} SameRuns(c: Config, d: Config, s: State, steps: seq<Action>)
    requires ValidRun(c, s, steps) && d == c.(grain := d.grain)
    ensures ValidRun(d, s, steps) && Outcome(d, s, steps) == Outcome(c, s, steps)
    decreases |steps|
  {
    if steps != [] {
      SameStep(c, d, s, steps[0]);
      SameRuns(c, d, Apply(c, s, steps[0]), steps[1..]);
    }
  }

  lemma SameStep(c: Config, d: Config, s: State, a: Action)
    requires Enabled(c, s, a) && d == c.(grain := d.grain)
    ensures Enabled(d, s, a) && Apply(d, s, a) == Apply(c, s, a)
  {
  }
}
