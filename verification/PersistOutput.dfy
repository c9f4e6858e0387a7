/** From the pod to the stored secrets: Persist and persistPod as a whole,
    output_persistor.go:48-102, on the pods that Create makes. */
module PersistOutput {
  import opened Types
  import opened Secrets
  import opened PersistContainer
  import opened FileTracker
  import JobCreator
  import PersistPod

  datatype Container = Container(name: string, remoteID: Option<string>)
  datatype Output = Output(outputMap: map<string, FilesToSecrets>, secretLabels: map<string, string>, writeOnFailure: bool)

  /** A worker is started for the container. */
  predicate Starts(o: Output, c: Container) {
    c.name != JobCreator.PERSIST && c.name in o.outputMap
  }

  function JobFor(o: Output, prefix: string, c: Container): Job
    requires Starts(o, c)
  {
    Job(prefix, c.name, c.remoteID, o.secretLabels, o.writeOnFailure, o.outputMap[c.name])
  }

  ghost function Started(o: Output, prefix: string, cs: seq<Container>): seq<Job> {
    if cs == [] then []
    else
      var c := cs[|cs| - 1];
      Started(o, prefix, cs[..|cs| - 1]) + (if Starts(o, c) then [JobFor(o, prefix, c)] else [])
  }

  /** The messages the loop at line 95 receives. */
  function Awaited(cs: seq<Container>): nat {
    if |cs| == 0 then 0 else |cs| - 1
  }

  /** The jobs are those of the containers at the positions `at`: in order, all that are mapped
      but the persistor, each with its name, its remote id, its files, and the output's labels
      and flag. */
  ghost predicate JobsAreFor(o: Output, prefix: string, cs: seq<Container>, jobs: seq<Job>, at: seq<nat>) {
    |at| == |jobs| &&
    (forall k :: 0 <= k < |at| ==> at[k] < |cs|) &&
    (forall k, l :: 0 <= k < l < |at| ==> at[k] < at[l]) &&
    (forall i: nat :: i < |cs| ==> (i in at <==> cs[i].name != "output-persist" && cs[i].name in o.outputMap)) &&
    (forall k :: 0 <= k < |jobs| ==>
      var c := cs[at[k]];
      c.name in o.outputMap &&
      jobs[k] == Job(prefix, c.name, c.remoteID, o.secretLabels, o.writeOnFailure, o.outputMap[c.name]))
  }

  lemma {:induction false} StartedIsForEach(o: Output, prefix: string, cs: seq<Container>) returns (at: seq<nat>)
    ensures JobsAreFor(o, prefix, cs, Started(o, prefix, cs), at)
    decreases |cs|
  {
    if cs == [] {
      at := [];
    } else {
      var n := |cs| - 1;
      at := StartedIsForEach(o, prefix, cs[..n]);
      if Starts(o, cs[n]) {
        at := at + [n];
      }
    }
  }

  /** The loop at line 81. */
  method StartWorkers(o: Output, prefix: string, cs: seq<Container>) returns (jobs: seq<Job>)
    ensures jobs == Started(o, prefix, cs)
    ensures exists at :: JobsAreFor(o, prefix, cs, jobs, at)
  {
    ghost var at := StartedIsForEach(o, prefix, cs);
    jobs := [];
    for i := 0 to |cs|
      invariant jobs == Started(o, prefix, cs[..i])
    {
      assert cs[..i + 1][..i] == cs[..i];
      if cs[i].name == JobCreator.PERSIST {
        continue;
      }
      if cs[i].name !in o.outputMap {
        continue;
      }
      jobs := jobs + [JobFor(o, prefix, cs[i])];
    }
    assert cs[..|cs|] == cs;
  }

  ghost function Skipped(o: Output, cs: seq<Container>): set<nat> {
    set i: nat | i < |cs| && !Starts(o, cs[i])
  }

  /** Every container either starts a worker or is skipped. */
  lemma {:induction false} StartedOrSkipped(o: Output, prefix: string, cs: seq<Container>)
    ensures |Started(o, prefix, cs)| + |Skipped(o, cs)| == |cs|
  {
    if cs == [] {
      assert Skipped(o, cs) == {};
    } else {
      var n := |cs| - 1;
      StartedOrSkipped(o, prefix, cs[..n]);
      assert Skipped(o, cs) == Skipped(o, cs[..n]) + (if Starts(o, cs[n]) then {} else {n});
    }
  }

  /** As many workers as awaited messages exactly if one container is skipped, or there is no
      container at all; too many only if every container is mapped and none is the
      persistor. */
  lemma WorkersAgainstMessages(o: Output, prefix: string, cs: seq<Container>)
    ensures |Started(o, prefix, cs)| == Awaited(cs) <==> cs == [] || |Skipped(o, cs)| == 1
    ensures |Started(o, prefix, cs)| > Awaited(cs) <==> cs != [] && forall i :: 0 <= i < |cs| ==> Starts(o, cs[i])
  {
    StartedOrSkipped(o, prefix, cs);
    if cs != [] {
      assert Skipped(o, cs) == {} <==> forall i :: 0 <= i < |cs| ==> Starts(o, cs[i]) by {
        if Skipped(o, cs) == {} {
          forall i: nat | i < |cs| ensures Starts(o, cs[i]) {
            assert i !in Skipped(o, cs);
          }
        }
      }
      assert Skipped(o, cs) == {} <==> |Skipped(o, cs)| == 0;
    }
  }

  /** The pod Create makes, with every container of the template mapped: one persistor, one
      worker for each of the others. */
  lemma RewrittenPodsMatch(e: JobCreator.Setting, jobName: string, p: JobCreator.PodSpec, r: JobCreator.PodSpec,
                           o: Output, prefix: string, cs: seq<Container>)
    requires JobCreator.IsRewritten(e, jobName, p, r)
    requires |cs| == |r.containers| && forall i :: 0 <= i < |cs| ==> cs[i].name == r.containers[i].name
    requires forall i :: 0 <= i < |p.containers| ==>
               p.containers[i].name != JobCreator.PERSIST && p.containers[i].name in o.outputMap
    ensures |Started(o, prefix, cs)| == Awaited(cs)
  {
    var n := |p.containers|;
    forall i: nat | i < |cs| ensures i in Skipped(o, cs) <==> i == n {
      if i < n {
        assert r.containers[i].name == p.containers[i].name;
      }
    }
    assert Skipped(o, cs) == {n};
    WorkersAgainstMessages(o, prefix, cs);
  }

  // ----- the whole -----

  ghost function AllExpected(ws: seq<World>, jobs: seq<Job>): set<Upsert>
    requires |ws| == |jobs|
  {
    set i, u | 0 <= i < |jobs| && u in Expected(ws[i], jobs[i]) :: u
  }

  /** One thing to store: a file of a container, or a key of a fan-out file. */
  datatype Item = Item(worker: nat, file: string, key: Option<string>)

  ghost predicate IsItem(ws: seq<World>, jobs: seq<Job>, x: Item)
    requires |ws| == |jobs|
  {
    x.worker < |jobs| && x.file in jobs[x.worker].files &&
    if jobs[x.worker].files[x.file].fanOut
    then x.key.Some? && x.key.value in DataOf(ws[x.worker], jobs[x.worker], x.file)
    else x.key.None?
  }

  ghost function UpsertOf(ws: seq<World>, jobs: seq<Job>, x: Item): Upsert
    requires |ws| == |jobs| && IsItem(ws, jobs, x)
  {
    if x.key.Some? then FanOut(ws[x.worker], jobs[x.worker], x.file, x.key.value)
    else OneToOne(ws[x.worker], jobs[x.worker], x.file)
  }

  /** The sanitized destination names of all files and keys are pairwise distinct. */
  ghost predicate DistinctDestinations(ws: seq<World>, jobs: seq<Job>)
    requires |ws| == |jobs|
  {
    forall x, y :: IsItem(ws, jobs, x) && IsItem(ws, jobs, y) && x != y ==>
      UpsertOf(ws, jobs, x).dest != UpsertOf(ws, jobs, y).dest
  }

  lemma ExpectedIsAnItem(ws: seq<World>, jobs: seq<Job>, u: Upsert) returns (x: Item)
    requires |ws| == |jobs| && u in AllExpected(ws, jobs)
    ensures IsItem(ws, jobs, x) && UpsertOf(ws, jobs, x) == u
  {
    var i :| 0 <= i < |jobs| && u in Expected(ws[i], jobs[i]);
    var f :| f in jobs[i].files && u in FileOutputs(ws[i], jobs[i], f);
    if jobs[i].files[f].fanOut {
      var k :| k in DataOf(ws[i], jobs[i], f) && FanOut(ws[i], jobs[i], f, k) == u;
      x := Item(i, f, Some(k));
    } else {
      x := Item(i, f, None);
    }
  }

  /** With distinct destination names no two upserts compete. */
  lemma DistinctIsConsistent(ws: seq<World>, jobs: seq<Job>)
    requires |ws| == |jobs| && DistinctDestinations(ws, jobs)
    ensures Consistent(AllExpected(ws, jobs))
  {
    forall u, v | u in AllExpected(ws, jobs) && v in AllExpected(ws, jobs) && u.dest == v.dest ensures u == v {
      var x := ExpectedIsAnItem(ws, jobs, u);
      var y := ExpectedIsAnItem(ws, jobs, v);
    }
  }

  /** Each worker behaves as its code does. */
  ghost predicate Behave(ws: seq<World>, jobs: seq<Job>, ss: PersistPod.Scripts) {
    |ws| == |jobs| == |ss| && forall i :: 0 <= i < |ss| ==> IsBehaviour(ws[i], jobs[i], ss[i])
  }

  lemma WorkersWaitOrEnd(ws: seq<World>, jobs: seq<Job>, ss: PersistPod.Scripts)
    requires Behave(ws, jobs, ss)
    ensures forall k :: 0 <= k < |ss| ==> PersistPod.WaitsOrEnds(ss[k])
  {
    forall k | 0 <= k < |ss| ensures PersistPod.WaitsOrEnds(ss[k]) {
      assert IsBehaviour(ws[k], jobs[k], ss[k]);
      forall m | 0 <= m < |ss[k]| - 1 ensures ss[k][m] != Nil {
        assert ss[k][m] == ss[k][..|ss[k]| - 1][m];
      }
    }
  }

  /** When persistPod returns nil, every worker had its files, met no error, and did all it is
      for. */
  lemma NilMeansAllDone(ws: seq<World>, jobs: seq<Job>, ss: PersistPod.Scripts, awaited: nat, st: Store, s: PersistPod.State)
    requires Behave(ws, jobs, ss) && |jobs| <= awaited
    requires PersistPod.Reaches(st, ss, awaited, s) && s.joiner == PersistPod.Returned(true)
    ensures forall i :: 0 <= i < |ss| ==> Arrives(Required(jobs[i]), ws[i].stat, ws[i].watch) && AllSound(ws[i], jobs[i])
    ensures PersistPod.AllPuts(ss) == AllExpected(ws, jobs)
    ensures forall k :: 0 <= k < |ss| ==> PersistPod.NilComesLast(ss[k])
  {
    WorkersWaitOrEnd(ws, jobs, ss);
    PersistPod.WaitsOrEndsInNil(ss);
    PersistPod.NilMeansAllFinishedClean(st, ss, awaited, s);
    forall i | 0 <= i < |ss|
      ensures Arrives(Required(jobs[i]), ws[i].stat, ws[i].watch) && AllSound(ws[i], jobs[i]) && Puts(ss[i]) == Expected(ws[i], jobs[i])
    {
      assert IsBehaviour(ws[i], jobs[i], ss[i]) && ss[i] != [] && Clean(ss[i]);
      assert !Clean([Error, Error]);
    }
    PutsAreExpected(ws, jobs, ss);
  }

  /** When persistPod returns nil, the secrets are exactly those the output map asks for: one
      per file, or one per key of a fan-out file, of every container whose exit code
      qualifies; everything else in the store is as before. */
  lemma NilMeansExactlyTheOutputs(ws: seq<World>, jobs: seq<Job>, ss: PersistPod.Scripts, awaited: nat,
                                  st: Store, s: PersistPod.State)
    requires Behave(ws, jobs, ss) && |jobs| <= awaited
    requires Consistent(AllExpected(ws, jobs))
    requires PersistPod.Reaches(st, ss, awaited, s) && s.joiner == PersistPod.Returned(true)
    ensures s.store == Persisted(st, AllExpected(ws, jobs))
    ensures forall i :: 0 <= i < |ss| ==> Arrives(Required(jobs[i]), ws[i].stat, ws[i].watch) && AllSound(ws[i], jobs[i])
  {
    NilMeansAllDone(ws, jobs, ss, awaited, st, s);
    PersistPod.NilMeansPersisted(st, ss, awaited, s);
  }

  lemma PutsAreExpected(ws: seq<World>, jobs: seq<Job>, ss: PersistPod.Scripts)
    requires |ws| == |jobs| == |ss| && forall i :: 0 <= i < |ss| ==> Puts(ss[i]) == Expected(ws[i], jobs[i])
    ensures PersistPod.AllPuts(ss) == AllExpected(ws, jobs)
  {
  }

  /** Whatever happens, nothing but outputs is stored. */
  lemma PutsAreOutputs(ws: seq<World>, jobs: seq<Job>, ss: PersistPod.Scripts)
    requires Behave(ws, jobs, ss)
    ensures PersistPod.AllPuts(ss) <= AllExpected(ws, jobs)
  {
    forall u | u in PersistPod.AllPuts(ss) ensures u in AllExpected(ws, jobs) {
      var i :| 0 <= i < |ss| && u in Puts(ss[i]);
      BehaviourPuts(ws[i], jobs[i], ss[i]);
    }
  }

  /** In every state of every run, whether it has returned nil, an error, or nothing yet, the
      store is the one specified for some of the outputs. */
  lemma EveryRunStoresSomeOutputs(ws: seq<World>, jobs: seq<Job>, ss: PersistPod.Scripts, awaited: nat,
                                  st: Store, s: PersistPod.State) returns (us: set<Upsert>)
    requires Behave(ws, jobs, ss) && Consistent(AllExpected(ws, jobs)) && PersistPod.Reaches(st, ss, awaited, s)
    ensures us <= AllExpected(ws, jobs) && s.store == Persisted(st, us)
  {
    PutsAreOutputs(ws, jobs, ss);
    us := PersistPod.SomeIsPersisted(st, ss, awaited, s);
  }

  /** A run after one that failed or was cut off at any point, in any other interleaving and
      order: if it returns nil, the store is the one specified for the outputs over what there
      was before the first.  If the first had returned nil, nothing has changed. */
  lemma PersistingTwiceIsPersistingOnce(ws: seq<World>, jobs: seq<Job>, st: Store,
                                        first: PersistPod.Scripts, n: nat, s: PersistPod.State,
                                        second: PersistPod.Scripts, awaited: nat, t: PersistPod.State)
    requires Behave(ws, jobs, first) && PersistPod.Reaches(st, first, n, s)
    requires Behave(ws, jobs, second) && PersistPod.Reaches(s.store, second, awaited, t)
    requires |jobs| <= awaited && Consistent(AllExpected(ws, jobs)) && t.joiner == PersistPod.Returned(true)
    ensures t.store == Persisted(st, AllExpected(ws, jobs))
    ensures |jobs| <= n && s.joiner == PersistPod.Returned(true) ==> t.store == s.store
  {
    var us := EveryRunStoresSomeOutputs(ws, jobs, first, n, st, s);
    NilMeansExactlyTheOutputs(ws, jobs, second, awaited, s.store, t);
    PersistMore(st, us, AllExpected(ws, jobs));
    assert us + AllExpected(ws, jobs) == AllExpected(ws, jobs);
    if |jobs| <= n && s.joiner == PersistPod.Returned(true) {
      NilMeansExactlyTheOutputs(ws, jobs, first, n, st, s);
    }
  }

  /** The store after `n` runs, each cut off anywhere. */
  ghost predicate AfterAttempts(ws: seq<World>, jobs: seq<Job>, st: Store, n: nat, result: Store) {
    if n == 0 then result == st
    else
      exists before: Store, ss: PersistPod.Scripts, awaited: nat, s: PersistPod.State ::
        AfterAttempts(ws, jobs, st, n - 1, before) && Behave(ws, jobs, ss) &&
        PersistPod.Reaches(before, ss, awaited, s) && s.store == result
  }

  lemma {:induction false} AttemptsStoreSomeOutputs(ws: seq<World>, jobs: seq<Job>, st: Store, n: nat, result: Store)
    returns (us: set<Upsert>)
    requires |ws| == |jobs| && AfterAttempts(ws, jobs, st, n, result) && Consistent(AllExpected(ws, jobs))
    ensures us <= AllExpected(ws, jobs) && result == Persisted(st, us)
    decreases n
  {
    if n == 0 {
      us := {};
    } else {
      var before: Store, ss: PersistPod.Scripts, awaited: nat, s: PersistPod.State :|
        AfterAttempts(ws, jobs, st, n - 1, before) && Behave(ws, jobs, ss) &&
        PersistPod.Reaches(before, ss, awaited, s) && s.store == result;
      var vs := AttemptsStoreSomeOutputs(ws, jobs, st, n - 1, before);
      var more := EveryRunStoresSomeOutputs(ws, jobs, ss, awaited, before, s);
      us := vs + more;
      PersistMore(st, vs, more);
    }
  }

  /** Retrying converges: after any number of runs, each cut off anywhere, a run that returns
      nil leaves exactly the outputs over what there was at the very first. */
  lemma RetryingConverges(ws: seq<World>, jobs: seq<Job>, st: Store, n: nat, before: Store,
                          ss: PersistPod.Scripts, awaited: nat, t: PersistPod.State)
    requires |ws| == |jobs| && AfterAttempts(ws, jobs, st, n, before) && Consistent(AllExpected(ws, jobs))
    requires Behave(ws, jobs, ss) && |jobs| <= awaited && PersistPod.Reaches(before, ss, awaited, t)
    requires t.joiner == PersistPod.Returned(true)
    ensures t.store == Persisted(st, AllExpected(ws, jobs))
  {
    var us := AttemptsStoreSomeOutputs(ws, jobs, st, n, before);
    NilMeansExactlyTheOutputs(ws, jobs, ss, awaited, before, t);
    PersistMore(st, us, AllExpected(ws, jobs));
    assert us + AllExpected(ws, jobs) == AllExpected(ws, jobs);
  }

  /** A destination that no file or key of any container maps to is left alone, whatever the
      run returns, and even where upserts compete. */
  lemma OtherSecretsUntouched(ws: seq<World>, jobs: seq<Job>, ss: PersistPod.Scripts, awaited: nat,
                              st: Store, s: PersistPod.State, d: Dest)
    requires Behave(ws, jobs, ss) && PersistPod.Reaches(st, ss, awaited, s)
    requires !Targets(AllExpected(ws, jobs), d)
    ensures (d in s.store <==> d in st) && Slot(s.store, d) == Slot(st, d)
  {
    PutsAreOutputs(ws, jobs, ss);
    PersistPod.OthersStay(st, ss, awaited, s, d);
  }

  // ----- on the pods that Create makes -----

  /** The pod as the persistor reads it back: the containers of the rewritten template. */
  ghost predicate ReadBack(e: JobCreator.Setting, jobName: string, p: JobCreator.PodSpec, cs: seq<Container>) {
    exists r ::
      JobCreator.IsRewritten(e, jobName, p, r) && |cs| == |r.containers| &&
      forall i :: 0 <= i < |cs| ==> cs[i].name == r.containers[i].name
  }

  predicate Mapped(o: Output, c: JobCreator.ContainerSpec) {
    c.name != JobCreator.PERSIST && c.name in o.outputMap
  }

  lemma MappedPodsMatch(e: JobCreator.Setting, jobName: string, p: JobCreator.PodSpec, o: Output, prefix: string, cs: seq<Container>)
    requires ReadBack(e, jobName, p, cs) && forall i :: 0 <= i < |p.containers| ==> Mapped(o, p.containers[i])
    ensures |Started(o, prefix, cs)| == Awaited(cs)
  {
    var r :| JobCreator.IsRewritten(e, jobName, p, r) && |cs| == |r.containers| &&
             forall i :: 0 <= i < |cs| ==> cs[i].name == r.containers[i].name;
    forall i | 0 <= i < |p.containers|
      ensures p.containers[i].name != JobCreator.PERSIST && p.containers[i].name in o.outputMap
    {
      assert Mapped(o, p.containers[i]);
    }
    RewrittenPodsMatch(e, jobName, p, r, o, prefix, cs);
  }

  /** Every container of the template mapped: persistPod on the Job's pod cannot be stuck
      unless some container's files never come; it returns nil, once nothing is left to do, if
      and only if every worker came to its end without an error, and then the store is the
      specified one. */
  lemma MappedPodsArePersisted(e: JobCreator.Setting, jobName: string, p: JobCreator.PodSpec, o: Output, prefix: string,
                               cs: seq<Container>, ws: seq<World>, ss: PersistPod.Scripts, st: Store, s: PersistPod.State)
    requires ReadBack(e, jobName, p, cs) && forall i :: 0 <= i < |p.containers| ==> Mapped(o, p.containers[i])
    requires Behave(ws, Started(o, prefix, cs), ss) && Consistent(AllExpected(ws, Started(o, prefix, cs)))
    requires PersistPod.Reaches(st, ss, Awaited(cs), s)
    ensures s.joiner == PersistPod.Returned(true) ==> s.store == Persisted(st, AllExpected(ws, Started(o, prefix, cs)))
    ensures (forall i :: !PersistPod.Enabled(ss, s, i)) ==>
              (s.joiner == PersistPod.Returned(true) <==> |PersistPod.Ending(ss)| == |ss| && PersistPod.AllClean(ss))
  {
    MappedPodsMatch(e, jobName, p, o, prefix, cs);
    WorkersWaitOrEnd(ws, Started(o, prefix, cs), ss);
    if s.joiner == PersistPod.Returned(true) {
      NilMeansExactlyTheOutputs(ws, Started(o, prefix, cs), ss, Awaited(cs), st, s);
    }
    if forall i :: !PersistPod.Enabled(ss, s, i) {
      PersistPod.JoinReturnsNilIffClean(st, ss, Awaited(cs), s);
    }
  }

  /** One container of the template not mapped: persistPod never returns nil.  Once nothing is
      left to do it hangs, unless a worker had an error to send. */
  lemma UnmappedPodsNeverSucceed(e: JobCreator.Setting, jobName: string, p: JobCreator.PodSpec, o: Output, prefix: string,
                                 cs: seq<Container>, ws: seq<World>, ss: PersistPod.Scripts, st: Store, s: PersistPod.State)
    requires ReadBack(e, jobName, p, cs) && exists i :: 0 <= i < |p.containers| && !Mapped(o, p.containers[i])
    requires Behave(ws, Started(o, prefix, cs), ss) && PersistPod.Reaches(st, ss, Awaited(cs), s)
    ensures s.joiner != PersistPod.Returned(true)
    ensures (forall i :: !PersistPod.Enabled(ss, s, i)) ==> (s.joiner.Counting? <==> PersistPod.AllClean(ss))
  {
    TooFewWorkers(e, jobName, p, o, prefix, cs);
    WorkersWaitOrEnd(ws, Started(o, prefix, cs), ss);
    PersistPod.WaitsOrEndsInNil(ss);
    PersistPod.NilIffEnoughCleanWorkers(st, ss, Awaited(cs));
    PersistPod.FullSetSize(|ss|, PersistPod.CleanWorkers(ss));
    PersistPod.FullSetSize(|ss|, PersistPod.Ending(ss));
    if forall i :: !PersistPod.Enabled(ss, s, i) {
      PersistPod.JoinReturns(st, ss, Awaited(cs), s);
    }
  }

  lemma TooFewWorkers(e: JobCreator.Setting, jobName: string, p: JobCreator.PodSpec, o: Output, prefix: string, cs: seq<Container>)
    requires ReadBack(e, jobName, p, cs) && exists i :: 0 <= i < |p.containers| && !Mapped(o, p.containers[i])
    ensures |Started(o, prefix, cs)| < Awaited(cs)
  {
    var r :| JobCreator.IsRewritten(e, jobName, p, r) && |cs| == |r.containers| &&
             forall i :: 0 <= i < |cs| ==> cs[i].name == r.containers[i].name;
    var i: nat :| i < |p.containers| && !Mapped(o, p.containers[i]);
    var n := |p.containers|;
    assert r.containers[i].name == p.containers[i].name;
    assert cs[n].name == JobCreator.PERSIST;
    assert i in Skipped(o, cs) && n in Skipped(o, cs);
    PersistPod.SubsetSize({i, n}, Skipped(o, cs));
    StartedOrSkipped(o, prefix, cs);
  }
}
