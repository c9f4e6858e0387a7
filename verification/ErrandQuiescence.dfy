/** How much work a run can cause, and when it comes to rest: reconciles are paid for by
    queue entries, accepted triggers and disturbances, and an operator left to itself empties
    its queue. */
module ErrandQuiescence {
  import opened Types
  import opened ErrandReconciler
  import opened ErrandSystem
  import opened ErrandInvariant
  import opened ErrandTriggers
  import opened ErrandTheorems
  import ErrandController

  // ----- every run: reconciles are paid for -----

  /** The reconcile in flight works on a version that is no longer the latest. */
  predicate Stale(s: State, pc: Pc) {
    !pc.Getting? && !pc.Returned? && pc.q.version + 1 != |s.hist|
  }

  /** Reconciles still to come, at most: two for each entry, one more to set a timestamp, and
      what the one in flight may still ask for. */
  function Work(s: State): nat
    requires |s.hist| > 0
  {
    2 * |s.queue| + (if Unstamped(s) then 1 else 0) +
    (if s.run.None? then 0 else Credit(s.run.value.pc) + (if Stale(s, s.run.value.pc) then 2 else 0))
  }

  function Credit(pc: Pc): nat {
    match pc
    case Getting => 1
    case Checking(_) => 1
    case Stamping(_) => 1
    case Clearing(_) => 1
    case Returned(r) => if r.Nothing? then 0 else 2
    case _ => 0
  }

  /** The next call is an update that carries a version the server no longer holds. */
  predicate Conflicts(s: State)
    requires |s.hist| > 0
  {
    s.run.Some? && match s.run.value.pc
                   case Stamping(q) => !Current(s, q)
                   case Clearing(q) => !Current(s, q)
                   case Reverting(q) => !Current(s, q)
                   case Finishing(q) => !Current(s, q)
                   case _ => false
  }

  /** What a step adds to the work: two for an accepted trigger, a stored Job write, a stale
      read, a missing reference or a failure other than a conflict, three for a user's write.
      A conflict is paid for by the write that caused it. */
  ghost function Charge(c: Config, s: State, a: Action): nat
    requires Enabled(c, s, a)
  {
    match a
    case UserWrite(_) => 3
    case Deliver(upto) => if ErrandController.EventPasses(c.naming, s.hist[s.seen - 1].obj, s.hist[upto].obj) then 2 else 0
    case ConfigEvent => 2
    case Ask(ReadAt(i)) => if i + 1 == |s.hist| then 0 else 2
    case Ask(Fail) => if Conflicts(s) then 0 else 2
    case Ask(Retry) => 2
    case JobWrite(_, stored) => if stored then 2 else 0
    case _ => 0
  }

  lemma StepIsPaid(c: Config, s: State, a: Action)
    requires ValidConfig(c) && Inv(c, s) && Enabled(c, s, a)
    ensures var t := Apply(c, s, a);
            Inv(c, t) && Work(t) + (if a.Pop? then 1 else 0) <= Work(s) + Charge(c, s, a)
  {
    StepKeepsInv(c, s, a);
    match a
    case Ask(r) => CallIsPaid(c, s, r);
    case JobWrite(k, true) => JobWriteIsPaid(c, s, k);
    case UserWrite(_) => WriteOrEventIsPaid(c, s, a);
    case Deliver(_) => WriteOrEventIsPaid(c, s, a);
    case ConfigEvent => WriteOrEventIsPaid(c, s, a);
    case _ => OtherStepIsPaid(c, s, a);
  }

  lemma JobWriteIsPaid(c: Config, s: State, k: nat)
    requires InvBase(c, s) && Enabled(c, s, JobWrite(k, true))
    ensures Work(Apply(c, s, JobWrite(k, true))) <= Work(s) + 2
  {
    CurrentCopy(s, s.jobs[k]);
    assert Stamp(s.hist[|s.hist| - 1]) == s.jobs[k].status.lastReconcile;
  }

  lemma WriteOrEventIsPaid(c: Config, s: State, a: Action)
    requires Enabled(c, s, a) && (a.UserWrite? || a.Deliver? || a.ConfigEvent?)
    ensures Work(Apply(c, s, a)) <= Work(s) + Charge(c, s, a)
  {
  }

  lemma OtherStepIsPaid(c: Config, s: State, a: Action)
    requires Enabled(c, s, a) && (a.Tick? || a.Pop? || a.Finish? || a.JobRead? || (a.JobWrite? && !a.stored))
    ensures Work(Apply(c, s, a)) + (if a.Pop? then 1 else 0) <= Work(s) + Charge(c, s, a)
  {
  }

  lemma CallIsPaid(c: Config, s: State, r: Reply)
    requires InvBase(c, s) && Enabled(c, s, Ask(r))
    ensures Work(Apply(c, s, Ask(r))) <= Work(s) + Charge(c, s, Ask(r))
  {
    var pc := s.run.value.pc;
    if pc.Getting? || pc.Checking? || pc.Creating? {
      ReadIsPaid(c, s, r);
    } else if r.Fail? {
      ConflictsAreStale(c, s);
    } else {
      UpdateIsPaid(c, s);
    }
  }

  lemma ReadIsPaid(c: Config, s: State, r: Reply)
    requires InvBase(c, s) && Enabled(c, s, Ask(r))
    requires s.run.value.pc.Getting? || s.run.value.pc.Checking? || s.run.value.pc.Creating?
    ensures Work(Apply(c, s, Ask(r))) <= Work(s) + Charge(c, s, Ask(r))
  {
    assert Apply(c, s, Ask(r)).hist == s.hist && Apply(c, s, Ask(r)).queue == s.queue;
  }

  lemma ConflictsAreStale(c: Config, s: State)
    requires InvBase(c, s) && s.run.Some?
    ensures Conflicts(s) ==> Stale(s, s.run.value.pc)
  {
  }

  lemma UpdateIsPaid(c: Config, s: State)
    requires InvBase(c, s) && Enabled(c, s, Ask(Ok))
    requires !s.run.value.pc.Getting? && !s.run.value.pc.Checking? && !s.run.value.pc.Creating?
    ensures Work(Apply(c, s, Ask(Ok))) <= Work(s)
  {
    var pc := s.run.value.pc;
    if pc.Stamping? {
      CurrentCopy(s, WithStamp(pc.q, None));
      assert Unstamped(s);
    }
  }

  function Pops(steps: seq<Action>): nat {
    if steps == [] then 0 else (if steps[0].Pop? then 1 else 0) + Pops(steps[1..])
  }

  ghost function Charges(c: Config, s: State, steps: seq<Action>): nat
    requires ValidRun(c, s, steps)
    decreases |steps|
  {
    if steps == [] then 0 else Charge(c, s, steps[0]) + Charges(c, Apply(c, s, steps[0]), steps[1..])
  }

  /** Every run: the reconciles it makes, and the work it leaves, are paid for by the work
      there was and the charges on the way. */
  lemma {:induction false} ReconcilesArePaid(c: Config, s: State, steps: seq<Action>)
    requires ValidConfig(c) && Inv(c, s) && ValidRun(c, s, steps)
    ensures Inv(c, Outcome(c, s, steps))
    ensures Pops(steps) + Work(Outcome(c, s, steps)) <= Work(s) + Charges(c, s, steps)
    decreases |steps|
  {
    if steps != [] {
      StepIsPaid(c, s, steps[0]);
      ReconcilesArePaid(c, Apply(c, s, steps[0]), steps[1..]);
    }
  }

  /** From every reachable state and for either queue: two reconciles for an entry, four for
      what is in flight, and the charges. */
  lemma ReconcilesAreBounded(c: Config, s: State, steps: seq<Action>)
    requires ValidConfig(c) && Reachable(c, s) && ValidRun(c, s, steps)
    ensures Pops(steps) <= 2 * |s.queue| + (if s.run.None? then 1 else 4) + Charges(c, s, steps)
  {
    ReachableInv(c, s);
    ReconcilesArePaid(c, s, steps);
  }

  // ----- an operator left to itself -----

  /** No user acts, every call succeeds on the latest version except for conflicts, every
      reference is present.  Job reconciles read and write whenever they like. */
  ghost predicate Undisturbed(c: Config, s: State, a: Action) {
    Enabled(c, s, a) &&
    match a
    case UserWrite(_) => false
    case ConfigEvent => false
    case Ask(ReadAt(i)) => i + 1 == |s.hist|
    case Ask(Absent(i)) => i + 1 == |s.hist|
    case Ask(Fail) => Conflicts(s)
    case Ask(Retry) => false
    case _ => true
  }

  ghost predicate UndisturbedRun(c: Config, s: State, steps: seq<Action>)
    decreases |steps|
  {
    steps == [] || (Undisturbed(c, s, steps[0]) && UndisturbedRun(c, Apply(c, s, steps[0]), steps[1..]))
  }

  /** The informer has yet to see a write of a user. */
  ghost predicate Pending(s: State) {
    exists v :: s.seen <= v < |s.hist| && s.hist[v].writer == User
  }

  function JobWrites(steps: seq<Action>): nat {
    if steps == [] then 0 else (if steps[0].JobWrite? && steps[0].stored then 1 else 0) + JobWrites(steps[1..])
  }

  /** With every user write seen, only the Job writes are charged. */
  lemma {:induction false} OnlyJobWritesAreCharged(c: Config, s: State, steps: seq<Action>)
    requires ValidConfig(c) && Inv(c, s) && !Pending(s) && UndisturbedRun(c, s, steps)
    ensures ValidRun(c, s, steps) && Charges(c, s, steps) == 2 * JobWrites(steps)
    decreases |steps|
  {
    if steps != [] {
      var a := steps[0];
      StepKeepsInv(c, s, a);
      NothingNewIsPending(c, s, a);
      UndisturbedIsUncharged(c, s, a);
      OnlyJobWritesAreCharged(c, Apply(c, s, a), steps[1..]);
    }
  }

  lemma NothingNewIsPending(c: Config, s: State, a: Action)
    requires Undisturbed(c, s, a)
    ensures Pending(Apply(c, s, a)) ==> Pending(s)
  {
    var t := Apply(c, s, a);
    if v :| t.seen <= v < |t.hist| && t.hist[v].writer == User {
      assert v < |s.hist| && s.hist[v] == t.hist[v];
    }
  }

  // ----- it comes to rest -----

  ghost predicate Idle(s: State) {
    s.queue == multiset{} && s.run.None?
  }

  /** Idle, and the informer has seen everything. */
  ghost predicate AtRest(s: State) {
    Idle(s) && s.seen == |s.hist|
  }

  /** The reply an undisturbed server gives to the next call. */
  function GoodReply(s: State, pc: Pc): Reply
    requires |s.hist| > 0
  {
    match pc
    case Getting => if Latest(s).Some? then ReadAt(|s.hist| - 1) else Absent(|s.hist| - 1)
    case Creating(_) => Made(true)
    case _ => if Conflicts(s) then Fail else Ok
  }

  /** The delayed entry a requeue is merged with, if the queue merges. */
  ghost function MergedWith(c: Config, s: State): Option<Time> {
    if c.merge && exists e :: e in s.queue && s.clock < e
    then var e :| e in s.queue && s.clock < e; Some(e)
    else None
  }

  /** What happens next with a reconcile in flight. */
  ghost function NextStep(c: Config, s: State): Action
    requires |s.hist| > 0 && s.run.Some?
  {
    match s.run.value.pc
    case Returned(Nothing) => Finish(0, None)
    case Returned(_) => Finish(0, MergedWith(c, s))
    case pc => Ask(GoodReply(s, pc))
  }

  lemma NextStepIsUndisturbed(c: Config, s: State)
    requires InvBase(c, s) && s.run.Some?
    ensures Undisturbed(c, s, NextStep(c, s)) && Charge(c, s, NextStep(c, s)) == 0
  {
  }

  function Left(s: State): nat {
    if s.run.Some? then Rank(s.run.value.pc) + 1 else 0
  }

  lemma RanksFall(c: Config, s: State, r: Reply)
    requires Enabled(c, s, Ask(r))
    ensures Rank(Apply(c, s, Ask(r)).run.value.pc) < Rank(s.run.value.pc)
  {
  }

  lemma ReconcileGoesOn(c: Config, s: State)
    requires ValidConfig(c) && Inv(c, s) && s.run.Some?
    ensures Undisturbed(c, s, NextStep(c, s))
    ensures var t := Apply(c, s, NextStep(c, s));
            Inv(c, t) && Work(t) <= Work(s) && Left(t) < Left(s) && (Pending(t) ==> Pending(s))
  {
    NextStepIsUndisturbed(c, s);
    StepIsPaid(c, s, NextStep(c, s));
    NothingNewIsPending(c, s, NextStep(c, s));
    if !s.run.value.pc.Returned? {
      RanksFall(c, s, GoodReply(s, s.run.value.pc));
    }
  }

  /** The next entry is taken when it is due. */
  lemma EntryIsTaken(c: Config, s: State) returns (wait: nat, due: Time)
    requires ValidConfig(c) && Inv(c, s) && s.run.None? && s.queue != multiset{}
    ensures Undisturbed(c, s, Tick(wait)) && Undisturbed(c, Apply(c, s, Tick(wait)), Pop(due))
    ensures var t := Apply(c, Apply(c, s, Tick(wait)), Pop(due)); Inv(c, t) && Work(t) < Work(s) && (Pending(t) ==> Pending(s))
  {
    assert exists e :: e in s.queue by {
      assert (forall e :: e !in s.queue) ==> s.queue == multiset{};
    }
    due :| due in s.queue;
    wait := if due <= s.clock then 0 else due - s.clock;
    StepIsPaid(c, s, Tick(wait));
    StepIsPaid(c, Apply(c, s, Tick(wait)), Pop(due));
  }

  /** The informer catches up; only writes of users can add an entry. */
  lemma InformerCatchesUp(c: Config, s: State)
    requires ValidConfig(c) && Inv(c, s) && s.run.None? && s.seen < |s.hist|
    ensures Undisturbed(c, s, Deliver(|s.hist| - 1))
    ensures var t := Apply(c, s, Deliver(|s.hist| - 1));
            Inv(c, t) && t.seen == |t.hist| == |s.hist| && t.run == s.run && (!Pending(s) ==> Work(t) <= Work(s))
  {
    StepIsPaid(c, s, Deliver(|s.hist| - 1));
    DeliveryOnlyQueues(c, s, |s.hist| - 1);
    if !Pending(s) {
      OwnWritesAreNotCharged(c, s, |s.hist| - 1);
    }
  }

  lemma DeliveryOnlyQueues(c: Config, s: State, upto: nat)
    requires Enabled(c, s, Deliver(upto))
    ensures var t := Apply(c, s, Deliver(upto)); t.hist == s.hist && t.run == s.run && t.seen == upto + 1
  {
  }

  lemma OwnWritesAreNotCharged(c: Config, s: State, upto: nat)
    requires InvWrites(s) && Enabled(c, s, Deliver(upto)) && !Pending(s)
    ensures Charge(c, s, Deliver(upto)) == 0
  {
    OwnWritesAreQuiet(s, s.seen - 1, upto);
  }

  lemma PrependStep(c: Config, s: State, a: Action, rest: seq<Action>)
    requires Undisturbed(c, s, a) && UndisturbedRun(c, Apply(c, s, a), rest) && ValidRun(c, Apply(c, s, a), rest)
    ensures UndisturbedRun(c, s, [a] + rest) && ValidRun(c, s, [a] + rest)
    ensures Outcome(c, s, [a] + rest) == Outcome(c, Apply(c, s, a), rest)
  {
  }

  /** Some undisturbed continuation comes to rest. */
  lemma {:induction false} Drain(c: Config, s: State) returns (steps: seq<Action>)
    requires ValidConfig(c) && Inv(c, s)
    ensures UndisturbedRun(c, s, steps) && ValidRun(c, s, steps) && AtRest(Outcome(c, s, steps))
    decreases Pending(s), Work(s), Left(s), |s.hist| - s.seen
  {
    if s.run.Some? {
      ReconcileGoesOn(c, s);
      var rest := Drain(c, Apply(c, s, NextStep(c, s)));
      PrependStep(c, s, NextStep(c, s), rest);
      steps := [NextStep(c, s)] + rest;
    } else if s.queue != multiset{} {
      var wait, due := EntryIsTaken(c, s);
      var t := Apply(c, s, Tick(wait));
      var rest := Drain(c, Apply(c, t, Pop(due)));
      PrependStep(c, t, Pop(due), rest);
      PrependStep(c, s, Tick(wait), [Pop(due)] + rest);
      steps := [Tick(wait)] + ([Pop(due)] + rest);
    } else if s.seen < |s.hist| {
      InformerCatchesUp(c, s);
      var a := Deliver(|s.hist| - 1);
      var rest := Drain(c, Apply(c, s, a));
      PrependStep(c, s, a, rest);
      steps := [a] + rest;
    } else {
      steps := [];
    }
  }

  lemma {:induction false} RunsCompose(c: Config, s: State, first: seq<Action>, second: seq<Action>)
    requires ValidRun(c, s, first) && ValidRun(c, Outcome(c, s, first), second)
    ensures ValidRun(c, s, first + second) && Outcome(c, s, first + second) == Outcome(c, Outcome(c, s, first), second)
    decreases |first|
  {
    if first == [] {
      assert first + second == second;
    } else {
      assert (first + second)[0] == first[0] && (first + second)[1..] == first[1..] + second;
      RunsCompose(c, Apply(c, s, first[0]), first[1..], second);
    }
  }

  lemma ContinuationIsReachable(c: Config, s: State, steps: seq<Action>)
    requires Reachable(c, s) && ValidRun(c, s, steps)
    ensures Reachable(c, Outcome(c, s, steps))
  {
    var now: Time, before: seq<Action> :| ValidRun(c, Initial(now), before) && Outcome(c, Initial(now), before) == s;
    RunsCompose(c, Initial(now), before, steps);
  }

  /** Where the operator has come to rest, every accepted trigger has been answered by a create
      result, unless its object was deleted. */
  lemma RestMeansAnswered(c: Config, s: State, p: nat)
    requires ValidConfig(c) && !c.merge && Reachable(c, s) && Idle(s)
    requires p < |s.log| && s.log[p].Accepted?
    ensures (exists r :: p < r < |s.log| && s.log[r].JobDone? && s.log[r].sent.version > s.log[p].version) ||
            DeletedAfter(s, s.log[p].version)
  {
    NoTriggerLost(c, s, p);
  }

  /** Quiescence: from every reachable state, for either queue, an operator left to itself can
      come to rest. */
  lemma Quiescence(c: Config, s: State) returns (steps: seq<Action>)
    requires ValidConfig(c) && Reachable(c, s)
    ensures UndisturbedRun(c, s, steps) && ValidRun(c, s, steps)
    ensures Reachable(c, Outcome(c, s, steps)) && AtRest(Outcome(c, s, steps))
  {
    ReachableInv(c, s);
    steps := Drain(c, s);
    ContinuationIsReachable(c, s, steps);
  }

  /** From trigger to Job: after any trigger the informer delivers, an operator left to itself
      can come to rest, and then it has made a Job from a later version, unless the object was
      deleted. */
  lemma TriggersAreAnswered(c: Config, s: State, upto: nat) returns (steps: seq<Action>)
    requires ValidConfig(c) && !c.merge && Reachable(c, s) && Enabled(c, s, Deliver(upto))
    requires IsTrigger(c.naming, s.hist[s.seen - 1].obj, s.hist[upto].obj)
    ensures var s1 := Apply(c, s, Deliver(upto));
            UndisturbedRun(c, s1, steps) && ValidRun(c, s1, steps) && AtRest(Outcome(c, s1, steps))
    ensures var t := Outcome(c, Apply(c, s, Deliver(upto)), steps);
            (exists r :: |s.log| < r < |t.log| && t.log[r].JobDone? && t.log[r].sent.version > upto) || DeletedAfter(t, upto)
  {
    ReachableInv(c, s);
    StepKeepsInv(c, s, Deliver(upto));
    steps := Drain(c, Apply(c, s, Deliver(upto)));
    DeliveredTriggersAreNotLost(c, s, upto, steps);
  }

  /** And however it proceeds once the user's writes are seen, it reconciles at most twice per
      entry, four times more for what is in flight, and twice per stored Job write. */
  lemma UndisturbedRunsAreBounded(c: Config, s: State, steps: seq<Action>)
    requires ValidConfig(c) && Reachable(c, s) && !Pending(s) && UndisturbedRun(c, s, steps)
    ensures Pops(steps) <= 2 * |s.queue| + (if s.run.None? then 1 else 4) + 2 * JobWrites(steps)
  {
    ReachableInv(c, s);
    OnlyJobWritesAreCharged(c, s, steps);
    ReconcilesAreBounded(c, s, steps);
  }

  // ----- every undisturbed run -----

  /** The operator itself is at work: it takes an entry, makes a call, or returns. */
  predicate IsWork(a: Action) {
    a.Pop? || a.Ask? || a.Finish?
  }

  function WorkSteps(steps: seq<Action>): nat {
    if steps == [] then 0 else (if IsWork(steps[0]) then 1 else 0) + WorkSteps(steps[1..])
  }

  /** Steps of the operator still to come, at most. */
  function Energy(s: State): nat
    requires |s.hist| > 0
  {
    8 * Work(s) + Left(s)
  }

  function JobCharge(a: Action): nat {
    if a.JobWrite? && a.stored then 2 else 0
  }

  lemma UndisturbedIsUncharged(c: Config, s: State, a: Action)
    requires InvWrites(s) && !Pending(s) && Undisturbed(c, s, a)
    ensures Charge(c, s, a) == JobCharge(a)
  {
    if a.Deliver? {
      OwnWritesAreNotCharged(c, s, a.upto);
    }
  }

  lemma LeftFalls(c: Config, s: State, a: Action)
    requires Enabled(c, s, a)
    ensures a.Ask? || a.Finish? ==> Left(Apply(c, s, a)) < Left(s)
    ensures a.Pop? ==> Left(Apply(c, s, a)) == 7 && Left(s) == 0
  {
    if a.Ask? {
      RanksFall(c, s, a.reply);
    }
  }

  lemma OthersLeave(c: Config, s: State, a: Action)
    requires Enabled(c, s, a) && !IsWork(a)
    ensures Left(Apply(c, s, a)) == Left(s)
  {
  }

  lemma EnergyFalls(c: Config, s: State, a: Action)
    requires ValidConfig(c) && Inv(c, s) && !Pending(s) && Undisturbed(c, s, a)
    ensures var t := Apply(c, s, a);
            Inv(c, t) && !Pending(t) && Energy(t) + (if IsWork(a) then 1 else 0) <= Energy(s) + 8 * JobCharge(a)
  {
    StepIsPaid(c, s, a);
    UndisturbedIsUncharged(c, s, a);
    NothingNewIsPending(c, s, a);
    if IsWork(a) {
      LeftFalls(c, s, a);
    } else {
      OthersLeave(c, s, a);
    }
  }

  lemma {:induction false} WorkIsFinite(c: Config, s: State, steps: seq<Action>)
    requires ValidConfig(c) && Inv(c, s) && !Pending(s) && UndisturbedRun(c, s, steps)
    ensures WorkSteps(steps) <= Energy(s) + 16 * JobWrites(steps)
    decreases |steps|
  {
    if steps != [] {
      EnergyFalls(c, s, steps[0]);
      WorkIsFinite(c, Apply(c, s, steps[0]), steps[1..]);
    }
  }

  /** Every undisturbed run: once the user's writes are seen, the operator takes entries, makes
      calls and returns only so often, whatever is chosen. */
  lemma UndisturbedRunsEnd(c: Config, s: State, steps: seq<Action>)
    requires ValidConfig(c) && Reachable(c, s) && !Pending(s) && UndisturbedRun(c, s, steps)
    ensures WorkSteps(steps) <= 16 * |s.queue| + (if s.run.None? then 8 else 39) + 16 * JobWrites(steps)
  {
    ReachableInv(c, s);
    WorkIsFinite(c, s, steps);
  }

  /** And unless it is idle it can work on, at once or when the next entry is due.  So the
      only place where such a run can stop working is idleness. */
  lemma OnlyIdlenessEndsWork(c: Config, s: State)
    requires ValidConfig(c) && Reachable(c, s)
    ensures Idle(s) <==>
            !exists wait: nat, a: Action ::
              IsWork(a) && Undisturbed(c, s, Tick(wait)) && Undisturbed(c, Apply(c, s, Tick(wait)), a)
  {
    ReachableInv(c, s);
    if s.run.Some? {
      var t := Apply(c, s, Tick(0));
      assert t == s;
      NextStepIsUndisturbed(c, s);
      assert IsWork(NextStep(c, s)) && Undisturbed(c, s, Tick(0));
    } else if s.queue != multiset{} {
      var wait, due := EntryIsTaken(c, s);
      assert IsWork(Pop(due));
    }
  }
}
