/** The fork and join of persistPod, output_persistor.go:76-102: workers that store secrets and
    send messages over one unbuffered channel, a joiner that counts them. */
module PersistPod {
  import opened Secrets
  import opened PersistContainer

  /** What each worker does from start to end, were every message of it received. */
  type Scripts = seq<seq<Event>>

  datatype Joiner = Counting(received: nat) | Returned(ok: bool)

  /** `done[i]` events of worker i have happened. */
  datatype State = State(store: Store, done: seq<nat>, joiner: Joiner)

  function Start(st: Store, ss: Scripts, awaited: nat): State {
    State(st, seq(|ss|, _ => 0), if awaited == 0 then Returned(true) else Counting(0))
  }

  predicate HasNext(ss: Scripts, s: State, i: nat) {
    |s.done| == |ss| && i < |ss| && s.done[i] < |ss[i]|
  }

  /** Worker i stores a secret on its own; a message needs the joiner to be receiving. */
  predicate Enabled(ss: Scripts, s: State, i: nat) {
    HasNext(ss, s, i) && (ss[i][s.done[i]].Stored? || s.joiner.Counting?)
  }

  function Apply(ss: Scripts, awaited: nat, s: State, i: nat): State
    requires Enabled(ss, s, i)
  {
    var e := ss[i][s.done[i]];
    var done := s.done[i := s.done[i] + 1];
    match e
    case Stored(u) => State(Put(s.store, u), done, s.joiner)
    case Error => State(s.store, done, Returned(false))
    case Nil => State(s.store, done, if s.joiner.received + 1 == awaited then Returned(true) else Counting(s.joiner.received + 1))
  }

  /** One interleaving: which worker makes the next step. */
  ghost predicate ValidRun(ss: Scripts, awaited: nat, s: State, steps: seq<nat>)
    decreases |steps|
  {
    steps == [] || (Enabled(ss, s, steps[0]) && ValidRun(ss, awaited, Apply(ss, awaited, s, steps[0]), steps[1..]))
  }

  ghost function Outcome(ss: Scripts, awaited: nat, s: State, steps: seq<nat>): State
    requires ValidRun(ss, awaited, s, steps)
    decreases |steps|
  {
    if steps == [] then s else Outcome(ss, awaited, Apply(ss, awaited, s, steps[0]), steps[1..])
  }

  ghost predicate Reaches(st: Store, ss: Scripts, awaited: nat, s: State) {
    exists steps :: ValidRun(ss, awaited, Start(st, ss, awaited), steps) &&
                    Outcome(ss, awaited, Start(st, ss, awaited), steps) == s
  }

  /** A final message, if there is one, comes last. */
  ghost predicate NilComesLast(es: seq<Event>) {
    forall k :: 0 <= k < |es| - 1 ==> es[k] != Nil
  }

  /** The worker comes to its end with a final message, or it waits for its files for ever. */
  ghost predicate WaitsOrEnds(es: seq<Event>) {
    es != [] ==> !es[|es| - 1].Stored? && NilComesLast(es)
  }

  /** The workers that do not wait for ever. */
  ghost function Ending(ss: Scripts): set<nat> {
    set i: nat | i < |ss| && ss[i] != []
  }

  /** Worker i has come to its end; one that waits for ever never does. */
  ghost predicate Finished(ss: Scripts, s: State, i: nat) {
    i < |ss| == |s.done| && ss[i] != [] && s.done[i] == |ss[i]|
  }

  ghost predicate AllFinished(ss: Scripts, s: State) {
    forall i :: 0 <= i < |ss| ==> Finished(ss, s, i)
  }

  ghost predicate AllClean(ss: Scripts) {
    forall i :: 0 <= i < |ss| ==> Clean(ss[i])
  }

  // ----- the invariant -----

  /** Workers whose final nil has been received. */
  ghost function Joined(ss: Scripts, s: State): set<nat>
    requires |s.done| == |ss| && forall i :: 0 <= i < |ss| ==> s.done[i] <= |ss[i]|
  {
    set i: nat | i < |ss| && s.done[i] > 0 && ss[i][s.done[i] - 1] == Nil
  }

  ghost function AllPuts(ss: Scripts): set<Upsert> {
    set i, u | 0 <= i < |ss| && u in Puts(ss[i]) :: u
  }

  ghost function PutsSoFar(ss: Scripts, s: State): set<Upsert>
    requires |s.done| == |ss| && forall i :: 0 <= i < |ss| ==> s.done[i] <= |ss[i]|
  {
    set i, u | 0 <= i < |ss| && u in Puts(ss[i][..s.done[i]]) :: u
  }

  ghost predicate InvShape(ss: Scripts, s: State) {
    |s.done| == |ss| && forall i :: 0 <= i < |ss| ==> s.done[i] <= |ss[i]|
  }

  /** Until the joiner has returned an error, only nils were received, and it has counted the
      workers they came from. */
  ghost predicate InvJoin(ss: Scripts, awaited: nat, s: State) {
    InvShape(ss, s) &&
    (s.joiner != Returned(false) ==>
      CleanSoFar(ss, s) &&
      |Joined(ss, s)| == (if s.joiner.Returned? then awaited else s.joiner.received)) &&
    (s.joiner.Counting? ==> s.joiner.received < awaited)
  }

  ghost predicate InvStore(st: Store, ss: Scripts, s: State) {
    InvShape(ss, s) && s.store == Persisted(st, PutsSoFar(ss, s))
  }

  lemma JoinedGrows(ss: Scripts, awaited: nat, s: State, i: nat)
    requires InvShape(ss, s) && Enabled(ss, s, i) && NilComesLast(ss[i])
    ensures i !in Joined(ss, s)
    ensures Joined(ss, Apply(ss, awaited, s, i)) == Joined(ss, s) + (if ss[i][s.done[i]] == Nil then {i} else {})
  {
  }

  ghost predicate CleanSoFar(ss: Scripts, s: State)
    requires InvShape(ss, s)
  {
    forall i :: 0 <= i < |ss| ==> Clean(ss[i][..s.done[i]])
  }

  lemma CleanGrows(ss: Scripts, awaited: nat, s: State, i: nat)
    requires InvShape(ss, s) && Enabled(ss, s, i)
    ensures CleanSoFar(ss, Apply(ss, awaited, s, i)) <==> CleanSoFar(ss, s) && ss[i][s.done[i]] != Error
  {
  }

  lemma StepKeepsJoin(ss: Scripts, awaited: nat, s: State, i: nat)
    requires (forall k :: 0 <= k < |ss| ==> NilComesLast(ss[k])) && InvJoin(ss, awaited, s) && Enabled(ss, s, i)
    ensures InvJoin(ss, awaited, Apply(ss, awaited, s, i))
  {
    JoinedGrows(ss, awaited, s, i);
    CleanGrows(ss, awaited, s, i);
  }

  lemma StepKeepsStore(st: Store, ss: Scripts, awaited: nat, s: State, i: nat)
    requires Consistent(AllPuts(ss)) && InvStore(st, ss, s) && Enabled(ss, s, i)
    ensures InvStore(st, ss, Apply(ss, awaited, s, i))
  {
    OneMoreEvent(ss[i], s.done[i]);
    PutsSoFarGrow(ss, awaited, s, i);
    if ss[i][s.done[i]].Stored? {
      PutsSoFarAreSome(ss, Apply(ss, awaited, s, i));
      StoreOneMore(st, AllPuts(ss), PutsSoFar(ss, s), ss[i][s.done[i]].u);
    } else {
      assert PutsSoFar(ss, s) + {} == PutsSoFar(ss, s);
    }
  }

  lemma OneMoreEvent(es: seq<Event>, n: nat)
    requires n < |es|
    ensures Puts(es[..n + 1]) == Puts(es[..n]) + (if es[n].Stored? then {es[n].u} else {})
  {
    assert es[..n + 1] == es[..n] + [es[n]];
    PutsConcat(es[..n], [es[n]]);
    PutsOne(es[n]);
  }

  lemma StoreOneMore(st: Store, all: set<Upsert>, us: set<Upsert>, u: Upsert)
    requires Consistent(all) && us + {u} <= all
    ensures Put(Persisted(st, us), u) == Persisted(st, us + {u})
  {
    PersistOneMore(st, us, u);
  }

  lemma PutsSoFarGrow(ss: Scripts, awaited: nat, s: State, i: nat)
    requires InvShape(ss, s) && Enabled(ss, s, i)
    requires Puts(ss[i][..s.done[i] + 1]) ==
               Puts(ss[i][..s.done[i]]) + (if ss[i][s.done[i]].Stored? then {ss[i][s.done[i]].u} else {})
    ensures PutsSoFar(ss, Apply(ss, awaited, s, i)) ==
              PutsSoFar(ss, s) + (if ss[i][s.done[i]].Stored? then {ss[i][s.done[i]].u} else {})
  {
    var t, e := Apply(ss, awaited, s, i), ss[i][s.done[i]];
    var added := if e.Stored? then {e.u} else {};
    forall u | u in PutsSoFar(ss, t) ensures u in PutsSoFar(ss, s) + added {
      var k :| 0 <= k < |ss| && u in Puts(ss[k][..t.done[k]]);
      if k != i {
        assert u in Puts(ss[k][..s.done[k]]);
      }
    }
    forall u | u in PutsSoFar(ss, s) + added ensures u in PutsSoFar(ss, t) {
      if u in PutsSoFar(ss, s) {
        var k :| 0 <= k < |ss| && u in Puts(ss[k][..s.done[k]]);
        assert u in Puts(ss[k][..t.done[k]]);
      } else {
        assert u in Puts(ss[i][..t.done[i]]);
      }
    }
  }

  lemma PutsSoFarAreSome(ss: Scripts, s: State)
    requires InvShape(ss, s)
    ensures PutsSoFar(ss, s) <= AllPuts(ss)
  {
    forall u | u in PutsSoFar(ss, s) ensures u in AllPuts(ss) {
      var k :| 0 <= k < |ss| && u in Puts(ss[k][..s.done[k]]);
      assert ss[k] == ss[k][..s.done[k]] + ss[k][s.done[k]..];
      PutsConcat(ss[k][..s.done[k]], ss[k][s.done[k]..]);
      assert u in Puts(ss[k]);
    }
  }

  lemma {:induction false} RunKeepsJoin(ss: Scripts, awaited: nat, s: State, steps: seq<nat>)
    requires (forall k :: 0 <= k < |ss| ==> NilComesLast(ss[k])) && InvJoin(ss, awaited, s) && ValidRun(ss, awaited, s, steps)
    ensures InvJoin(ss, awaited, Outcome(ss, awaited, s, steps))
    decreases |steps|
  {
    if steps != [] {
      StepKeepsJoin(ss, awaited, s, steps[0]);
      RunKeepsJoin(ss, awaited, Apply(ss, awaited, s, steps[0]), steps[1..]);
    }
  }

  lemma {:induction false} RunKeepsStore(st: Store, ss: Scripts, awaited: nat, s: State, steps: seq<nat>)
    requires Consistent(AllPuts(ss)) && InvStore(st, ss, s) && ValidRun(ss, awaited, s, steps)
    ensures InvStore(st, ss, Outcome(ss, awaited, s, steps))
    decreases |steps|
  {
    if steps != [] {
      StepKeepsStore(st, ss, awaited, s, steps[0]);
      RunKeepsStore(st, ss, awaited, Apply(ss, awaited, s, steps[0]), steps[1..]);
    }
  }

  lemma StartInv(st: Store, ss: Scripts, awaited: nat)
    ensures InvJoin(ss, awaited, Start(st, ss, awaited)) && InvStore(st, ss, Start(st, ss, awaited))
  {
  }

  // ----- the theorems -----

  lemma FullSetIsAll(n: nat, js: set<nat>)
    requires (forall i :: i in js ==> i < n) && |js| >= n
    ensures forall i :: 0 <= i < n ==> i in js
  {
    if n > 0 {
      var rest := js - {n - 1};
      if n - 1 !in js {
        assert js == rest;
        FullSetSize(n - 1, js);
      } else {
        FullSetIsAll(n - 1, rest);
        forall i: nat | i < n ensures i in js {
          assert i == n - 1 || i in rest;
        }
      }
    }
  }

  lemma FullSetSize(n: nat, js: set<nat>)
    requires forall i :: i in js ==> i < n
    ensures |js| <= n
  {
    if n > 0 {
      FullSetSize(n - 1, js - {n - 1});
    } else {
      assert js == {};
    }
  }

  /** `nil` means joined: when no more workers run than messages are awaited, persistPod
      returns nil only after every worker has come to its end, none having attempted an error
      on the way. */
  lemma NilMeansAllFinishedClean(st: Store, ss: Scripts, awaited: nat, s: State)
    requires forall k :: 0 <= k < |ss| ==> NilComesLast(ss[k])
    requires |ss| <= awaited && Reaches(st, ss, awaited, s) && s.joiner == Returned(true)
    ensures |ss| == awaited && AllFinished(ss, s) && AllClean(ss)
    ensures forall k :: 0 <= k < |ss| ==> ss[k] != []
  {
    var steps :| ValidRun(ss, awaited, Start(st, ss, awaited), steps) && Outcome(ss, awaited, Start(st, ss, awaited), steps) == s;
    StartInv(st, ss, awaited);
    RunKeepsJoin(ss, awaited, Start(st, ss, awaited), steps);
    var js := Joined(ss, s);
    FullSetSize(|ss|, js);
    FullSetIsAll(|ss|, js);
    forall i | 0 <= i < |ss| ensures Finished(ss, s, i) && Clean(ss[i]) && ss[i] != [] {
      assert i in js;
      assert ss[i][..s.done[i]] == ss[i];
    }
  }

  /** Then the store holds every secret of every worker, and is otherwise what it was, however
      the workers interleaved and in whatever order each went through its files and keys. */
  lemma NilMeansPersisted(st: Store, ss: Scripts, awaited: nat, s: State)
    requires forall k :: 0 <= k < |ss| ==> NilComesLast(ss[k])
    requires |ss| <= awaited && Reaches(st, ss, awaited, s) && s.joiner == Returned(true)
    requires Consistent(AllPuts(ss))
    ensures s.store == Persisted(st, AllPuts(ss))
  {
    NilMeansAllFinishedClean(st, ss, awaited, s);
    var steps :| ValidRun(ss, awaited, Start(st, ss, awaited), steps) && Outcome(ss, awaited, Start(st, ss, awaited), steps) == s;
    StartInv(st, ss, awaited);
    RunKeepsStore(st, ss, awaited, Start(st, ss, awaited), steps);
    forall i | 0 <= i < |ss| ensures ss[i][..s.done[i]] == ss[i] {
      assert Finished(ss, s, i);
    }
    assert PutsSoFar(ss, s) == AllPuts(ss);
  }

  // ----- whatever is returned -----

  /** In every reachable state, returned or not, the store holds some of what the workers
      store. */
  lemma SomeIsPersisted(st: Store, ss: Scripts, awaited: nat, s: State) returns (us: set<Upsert>)
    requires Reaches(st, ss, awaited, s) && Consistent(AllPuts(ss))
    ensures us <= AllPuts(ss) && s.store == Persisted(st, us)
  {
    var steps :| ValidRun(ss, awaited, Start(st, ss, awaited), steps) && Outcome(ss, awaited, Start(st, ss, awaited), steps) == s;
    StartInv(st, ss, awaited);
    RunKeepsStore(st, ss, awaited, Start(st, ss, awaited), steps);
    us := PutsSoFar(ss, s);
    PutsSoFarAreSome(ss, s);
  }

  /** And a destination that no worker stores to is as it was, even where they compete. */
  lemma OthersStay(st: Store, ss: Scripts, awaited: nat, s: State, d: Dest)
    requires Reaches(st, ss, awaited, s) && !Targets(AllPuts(ss), d)
    ensures (d in s.store <==> d in st) && Slot(s.store, d) == Slot(st, d)
  {
    var steps :| ValidRun(ss, awaited, Start(st, ss, awaited), steps) && Outcome(ss, awaited, Start(st, ss, awaited), steps) == s;
    RunLeavesOthers(ss, awaited, Start(st, ss, awaited), steps, d);
  }

  lemma {:induction false} RunLeavesOthers(ss: Scripts, awaited: nat, s: State, steps: seq<nat>, d: Dest)
    requires ValidRun(ss, awaited, s, steps) && !Targets(AllPuts(ss), d)
    ensures var t := Outcome(ss, awaited, s, steps); (d in t.store <==> d in s.store) && Slot(t.store, d) == Slot(s.store, d)
    decreases |steps|
  {
    if steps != [] {
      var i := steps[0];
      var e := ss[i][s.done[i]];
      if e.Stored? {
        assert e.u in Puts(ss[i]) && e.u in AllPuts(ss);
        assert e.u.dest != d;
      }
      RunLeavesOthers(ss, awaited, Apply(ss, awaited, s, i), steps[1..], d);
    }
  }

  // ----- competing writes -----

  /** The destination was last filled with one of the upserts, or is as it was if there are
      none for it. */
  ghost predicate HoldsOne(before: Store, after: Store, us: set<Upsert>, d: Dest) {
    if Targets(us, d) then exists u :: u in us && u.dest == d && LatestIs(after, u)
    else (d in after <==> d in before) && Slot(after, d) == Slot(before, d)
  }

  /** The latest version at the upsert's destination holds its data; a plain secret is its
      secret. */
  predicate LatestIs(st: Store, u: Upsert) {
    u.dest in st && st[u.dest] != [] && st[u.dest][|st[u.dest]| - 1].data == u.secret.data &&
    (u.dest.Plain? ==> st[u.dest] == [u.secret])
  }

  ghost predicate InvLatest(st: Store, ss: Scripts, s: State) {
    InvShape(ss, s) && forall d :: HoldsOne(st, s.store, PutsSoFar(ss, s), d)
  }

  lemma PutKeepsOne(st: Store, now: Store, us: set<Upsert>, u: Upsert, d: Dest)
    requires HoldsOne(st, now, us, d)
    ensures HoldsOne(st, Put(now, u), us + {u}, d)
  {
    var after, vs := Put(now, u), us + {u};
    if d == u.dest {
      assert u in vs && LatestIs(after, u);
    } else if Targets(us, d) {
      var v :| v in us && v.dest == d && LatestIs(now, v);
      assert v in vs && LatestIs(after, v);
    }
  }

  lemma StepKeepsLatest(st: Store, ss: Scripts, awaited: nat, s: State, i: nat)
    requires InvLatest(st, ss, s) && Enabled(ss, s, i)
    ensures InvLatest(st, ss, Apply(ss, awaited, s, i))
  {
    var t, e := Apply(ss, awaited, s, i), ss[i][s.done[i]];
    OneMoreEvent(ss[i], s.done[i]);
    PutsSoFarGrow(ss, awaited, s, i);
    forall d ensures HoldsOne(st, t.store, PutsSoFar(ss, t), d) {
      if e.Stored? {
        PutKeepsOne(st, s.store, PutsSoFar(ss, s), e.u, d);
      } else {
        assert PutsSoFar(ss, t) == PutsSoFar(ss, s);
      }
    }
  }

  lemma {:induction false} RunKeepsLatest(st: Store, ss: Scripts, awaited: nat, s: State, steps: seq<nat>)
    requires InvLatest(st, ss, s) && ValidRun(ss, awaited, s, steps)
    ensures InvLatest(st, ss, Outcome(ss, awaited, s, steps))
    decreases |steps|
  {
    if steps != [] {
      StepKeepsLatest(st, ss, awaited, s, steps[0]);
      RunKeepsLatest(st, ss, awaited, Apply(ss, awaited, s, steps[0]), steps[1..]);
    }
  }

  /** When workers compete for a destination, nil still means that it holds what one of them
      stored. */
  lemma NilMeansOneIsHeld(st: Store, ss: Scripts, awaited: nat, s: State, d: Dest)
    requires forall k :: 0 <= k < |ss| ==> NilComesLast(ss[k])
    requires |ss| <= awaited && Reaches(st, ss, awaited, s) && s.joiner == Returned(true)
    ensures HoldsOne(st, s.store, AllPuts(ss), d)
  {
    NilMeansAllFinishedClean(st, ss, awaited, s);
    var steps :| ValidRun(ss, awaited, Start(st, ss, awaited), steps) && Outcome(ss, awaited, Start(st, ss, awaited), steps) == s;
    assert PutsSoFar(ss, Start(st, ss, awaited)) == {};
    RunKeepsLatest(st, ss, awaited, Start(st, ss, awaited), steps);
    forall i | 0 <= i < |ss| ensures ss[i][..s.done[i]] == ss[i] {
      assert Finished(ss, s, i);
    }
    assert PutsSoFar(ss, s) == AllPuts(ss);
  }

  // ----- exactly when -----

  /** Workers that end with a nil and no error before. */
  ghost function CleanWorkers(ss: Scripts): set<nat> {
    set i: nat | i < |ss| && ss[i] != [] && ss[i][|ss[i]| - 1] == Nil && Clean(ss[i])
  }

  /** A worker that runs alone, up to its final message. */
  lemma {:induction false} RunWorker(ss: Scripts, awaited: nat, s: State, i: nat) returns (steps: seq<nat>)
    requires InvShape(ss, s) && s.joiner.Counting? && s.joiner.received < awaited
    requires i in CleanWorkers(ss) && NilComesLast(ss[i]) && s.done[i] < |ss[i]|
    ensures ValidRun(ss, awaited, s, steps)
    ensures var t := Outcome(ss, awaited, s, steps);
            t.done == s.done[i := |ss[i]|] &&
            t.joiner == (if s.joiner.received + 1 == awaited then Returned(true) else Counting(s.joiner.received + 1))
    decreases |ss[i]| - s.done[i]
  {
    var t := Apply(ss, awaited, s, i);
    assert ss[i][s.done[i]] != Error;
    if s.done[i] + 1 == |ss[i]| {
      steps := [i];
      assert steps[1..] == [];
    } else {
      assert ss[i][s.done[i]] != Nil;
      var rest := RunWorker(ss, awaited, t, i);
      steps := [i] + rest;
      assert steps[1..] == rest;
    }
  }

  lemma {:induction false} RunsCompose(ss: Scripts, awaited: nat, s: State, first: seq<nat>, second: seq<nat>)
    requires ValidRun(ss, awaited, s, first) && ValidRun(ss, awaited, Outcome(ss, awaited, s, first), second)
    ensures ValidRun(ss, awaited, s, first + second)
    ensures Outcome(ss, awaited, s, first + second) == Outcome(ss, awaited, Outcome(ss, awaited, s, first), second)
    decreases |first|
  {
    if first == [] {
      assert first + second == second;
    } else {
      assert (first + second)[0] == first[0] && (first + second)[1..] == first[1..] + second;
      RunsCompose(ss, awaited, Apply(ss, awaited, s, first[0]), first[1..], second);
    }
  }

  /** Clean workers one after the other, until the joiner has its messages or they are all
      through. */
  lemma {:induction false} RunWorkers(ss: Scripts, awaited: nat, s: State, todo: set<nat>) returns (steps: seq<nat>)
    requires InvShape(ss, s) && s.joiner.Counting? && s.joiner.received + |todo| <= awaited && s.joiner.received < awaited
    requires todo <= CleanWorkers(ss) && forall i :: i in todo ==> NilComesLast(ss[i]) && s.done[i] == 0
    ensures ValidRun(ss, awaited, s, steps)
    ensures var t := Outcome(ss, awaited, s, steps);
            |t.done| == |s.done| &&
            (forall i :: 0 <= i < |ss| ==> t.done[i] == if i in todo then |ss[i]| else s.done[i]) &&
            t.joiner == (if s.joiner.received + |todo| == awaited then Returned(true) else Counting(s.joiner.received + |todo|))
    decreases |todo|
  {
    if todo == {} {
      steps := [];
    } else {
      var i :| i in todo;
      var first := RunWorker(ss, awaited, s, i);
      var t := Outcome(ss, awaited, s, first);
      var rest := todo - {i};
      if rest == {} {
        steps := first;
        assert todo == {i};
      } else {
        assert |rest| > 0;
        var second := RunWorkers(ss, awaited, t, rest);
        RunsCompose(ss, awaited, s, first, second);
        steps := first + second;
      }
    }
  }

  lemma Subset(js: set<nat>, n: nat) returns (ks: set<nat>)
    requires n <= |js|
    ensures ks <= js && |ks| == n
  {
    if n == 0 {
      ks := {};
    } else {
      var j :| j in js;
      ks := Subset(js - {j}, n - 1);
      ks := ks + {j};
    }
  }

  /** A run that returns nil with exactly the workers of `todo` finished. */
  lemma NilAfter(st: Store, ss: Scripts, awaited: nat, todo: set<nat>) returns (s: State)
    requires (forall k :: 0 <= k < |ss| ==> NilComesLast(ss[k])) && todo <= CleanWorkers(ss) && |todo| == awaited
    ensures Reaches(st, ss, awaited, s) && s.joiner == Returned(true)
    ensures |s.done| == |ss| && forall i :: 0 <= i < |ss| ==> s.done[i] == if i in todo then |ss[i]| else 0
  {
    var start := Start(st, ss, awaited);
    StartInv(st, ss, awaited);
    if awaited == 0 {
      s := start;
      assert todo == {};
      assert ValidRun(ss, awaited, start, []) && Outcome(ss, awaited, start, []) == s;
    } else {
      var steps := RunWorkers(ss, awaited, start, todo);
      s := Outcome(ss, awaited, start, steps);
    }
  }

  /** persistPod can return nil if and only if at least as many workers are free of errors as
      messages are awaited.  With an unmapped container too many there never are enough. */
  lemma NilIffEnoughCleanWorkers(st: Store, ss: Scripts, awaited: nat)
    requires forall k :: 0 <= k < |ss| ==> NilComesLast(ss[k])
    ensures (exists s :: Reaches(st, ss, awaited, s) && s.joiner == Returned(true)) <==> |CleanWorkers(ss)| >= awaited
  {
    if |CleanWorkers(ss)| >= awaited {
      var todo := Subset(CleanWorkers(ss), awaited);
      var s := NilAfter(st, ss, awaited, todo);
    }
    if s :| Reaches(st, ss, awaited, s) && s.joiner == Returned(true) {
      JoinedAreClean(st, ss, awaited, s);
      SubsetSize(Joined(ss, s), CleanWorkers(ss));
    }
  }

  lemma JoinedAreClean(st: Store, ss: Scripts, awaited: nat, s: State)
    requires forall k :: 0 <= k < |ss| ==> NilComesLast(ss[k])
    requires Reaches(st, ss, awaited, s) && s.joiner != Returned(false)
    ensures InvJoin(ss, awaited, s) && Joined(ss, s) <= CleanWorkers(ss)
    ensures forall i :: i in Joined(ss, s) ==> Finished(ss, s, i)
  {
    var steps :| ValidRun(ss, awaited, Start(st, ss, awaited), steps) && Outcome(ss, awaited, Start(st, ss, awaited), steps) == s;
    StartInv(st, ss, awaited);
    RunKeepsJoin(ss, awaited, Start(st, ss, awaited), steps);
    forall i | i in Joined(ss, s) ensures i in CleanWorkers(ss) && Finished(ss, s, i) {
      assert NilComesLast(ss[i]);
      assert s.done[i] == |ss[i]|;
      assert ss[i][..s.done[i]] == ss[i];
    }
  }

  lemma SubsetSize(a: set<nat>, b: set<nat>)
    requires a <= b
    ensures |a| <= |b|
  {
    assert b == a + (b - a);
  }

  /** Returning nil means that all workers have finished, in every run, if and only if no more
      workers run than messages are awaited, or too few are free of errors to return nil. */
  lemma NilMeansFinishedIff(st: Store, ss: Scripts, awaited: nat)
    requires forall k :: 0 <= k < |ss| ==> NilComesLast(ss[k])
    ensures (forall s :: Reaches(st, ss, awaited, s) && s.joiner == Returned(true) ==> AllFinished(ss, s)) <==>
            (|ss| <= awaited || |CleanWorkers(ss)| < awaited)
  {
    if |ss| <= awaited {
      forall s | Reaches(st, ss, awaited, s) && s.joiner == Returned(true) ensures AllFinished(ss, s) {
        NilMeansAllFinishedClean(st, ss, awaited, s);
      }
    } else if |CleanWorkers(ss)| < awaited {
      NilIffEnoughCleanWorkers(st, ss, awaited);
    } else {
      var todo := Subset(CleanWorkers(ss), awaited);
      var s := NilAfter(st, ss, awaited, todo);
      SomeoneIsLeft(|ss|, todo);
      var i: nat :| i < |ss| && i !in todo;
      assert s.done[i] == 0 && !Finished(ss, s, i);
    }
  }

  ghost function Range(n: nat): (r: set<nat>)
    ensures |r| == n && forall i: nat :: i in r <==> i < n
  {
    if n == 0 then {} else Range(n - 1) + {n - 1}
  }

  lemma SomeoneIsLeft(n: nat, js: set<nat>)
    requires |js| < n
    ensures exists i: nat :: i < n && i !in js
  {
    if forall i: nat :: i < n ==> i in js {
      SubsetSize(Range(n), js);
    }
  }

  /** The joiner waits and no worker has anything left to do. */
  ghost predicate Stuck(ss: Scripts, s: State) {
    s.joiner.Counting? && forall i :: !Enabled(ss, s, i)
  }

  /** The join can hang if and only if fewer workers come to an end than messages are awaited,
      and no worker has an error to send: too few were started, or some wait for ever. */
  lemma StuckIffTooFewWorkers(st: Store, ss: Scripts, awaited: nat)
    requires forall k :: 0 <= k < |ss| ==> WaitsOrEnds(ss[k])
    ensures (exists s :: Reaches(st, ss, awaited, s) && Stuck(ss, s)) <==> |Ending(ss)| < awaited && AllClean(ss)
  {
    if |Ending(ss)| < awaited && AllClean(ss) {
      var s := HangingState(st, ss, awaited);
    }
    if s :| Reaches(st, ss, awaited, s) && Stuck(ss, s) {
      HangingMeansTooFew(st, ss, awaited, s);
    }
  }

  lemma HangingState(st: Store, ss: Scripts, awaited: nat) returns (s: State)
    requires (forall k :: 0 <= k < |ss| ==> WaitsOrEnds(ss[k])) && |Ending(ss)| < awaited && AllClean(ss)
    ensures Reaches(st, ss, awaited, s) && Stuck(ss, s)
  {
    var all, start := Ending(ss), Start(st, ss, awaited);
    forall i | i in all ensures i in CleanWorkers(ss) && NilComesLast(ss[i]) {
      assert WaitsOrEnds(ss[i]) && ss[i][|ss[i]| - 1] != Error;
    }
    StartInv(st, ss, awaited);
    var steps := RunWorkers(ss, awaited, start, all);
    s := Outcome(ss, awaited, start, steps);
    forall i: nat | i < |ss| ensures !HasNext(ss, s, i) {
      assert i in all <==> ss[i] != [];
    }
  }

  lemma HangingMeansTooFew(st: Store, ss: Scripts, awaited: nat, s: State)
    requires forall k :: 0 <= k < |ss| ==> WaitsOrEnds(ss[k])
    requires Reaches(st, ss, awaited, s) && Stuck(ss, s)
    ensures |Ending(ss)| < awaited && AllClean(ss)
  {
    WaitsOrEndsInNil(ss);
    JoinedAreClean(st, ss, awaited, s);
    forall i: nat | i < |ss| ensures (i in Joined(ss, s) <==> i in Ending(ss)) && Clean(ss[i]) {
      assert WaitsOrEnds(ss[i]) && !Enabled(ss, s, i);
      assert ss[i][..s.done[i]] == ss[i];
      assert Clean(ss[i][..s.done[i]]);
    }
    assert Joined(ss, s) == Ending(ss);
  }

  lemma WaitsOrEndsInNil(ss: Scripts)
    requires forall k :: 0 <= k < |ss| ==> WaitsOrEnds(ss[k])
    ensures forall k :: 0 <= k < |ss| ==> NilComesLast(ss[k])
  {
    forall k | 0 <= k < |ss| ensures NilComesLast(ss[k]) {
      assert WaitsOrEnds(ss[k]);
    }
  }

  function Remaining(ss: Scripts, done: seq<nat>): int
    requires |done| == |ss|
  {
    if ss == [] then 0 else |ss[0]| - done[0] + Remaining(ss[1..], done[1..])
  }

  lemma {:induction false} OneStepLess(ss: Scripts, done: seq<nat>, i: nat)
    requires |done| == |ss| && i < |ss|
    ensures Remaining(ss, done[i := done[i] + 1]) == Remaining(ss, done) - 1
  {
    var next := done[i := done[i] + 1];
    if i == 0 {
      assert next[1..] == done[1..];
    } else {
      assert next[1..] == done[1..][i - 1 := done[1..][i - 1] + 1];
      OneStepLess(ss[1..], done[1..], i - 1);
    }
  }

  lemma {:induction false} RemainingIsNatural(ss: Scripts, done: seq<nat>)
    requires |done| == |ss| && forall i :: 0 <= i < |ss| ==> done[i] <= |ss[i]|
    ensures Remaining(ss, done) >= 0
  {
    if ss != [] {
      RemainingIsNatural(ss[1..], done[1..]);
    }
  }

  /** Every interleaving is finite: a run makes no more steps than the scripts have events. */
  lemma {:induction false} RunsAreFinite(ss: Scripts, awaited: nat, s: State, steps: seq<nat>)
    requires InvShape(ss, s) && ValidRun(ss, awaited, s, steps)
    ensures |steps| <= Remaining(ss, s.done)
    decreases |steps|
  {
    if steps == [] {
      RemainingIsNatural(ss, s.done);
    } else {
      OneStepLess(ss, s.done, steps[0]);
      RunsAreFinite(ss, awaited, Apply(ss, awaited, s, steps[0]), steps[1..]);
    }
  }

  lemma {:induction false} CleanWorkersNeverFail(ss: Scripts, awaited: nat, s: State, steps: seq<nat>)
    requires AllClean(ss) && s.joiner != Returned(false) && ValidRun(ss, awaited, s, steps)
    ensures Outcome(ss, awaited, s, steps).joiner != Returned(false)
    decreases |steps|
  {
    if steps != [] {
      var i := steps[0];
      assert ss[i][s.done[i]] != Error;
      CleanWorkersNeverFail(ss, awaited, Apply(ss, awaited, s, i), steps[1..]);
    }
  }

  /** Join progress: a run that cannot be extended has returned if and only if enough workers
      come to an end, or some worker has an error to send. */
  lemma JoinReturns(st: Store, ss: Scripts, awaited: nat, s: State)
    requires forall k :: 0 <= k < |ss| ==> WaitsOrEnds(ss[k])
    requires Reaches(st, ss, awaited, s) && forall i :: !Enabled(ss, s, i)
    ensures s.joiner.Returned? <==> |Ending(ss)| >= awaited || !AllClean(ss)
  {
    if s.joiner.Counting? {
      HangingMeansTooFew(st, ss, awaited, s);
    } else if AllClean(ss) {
      NoErrorWithoutError(st, ss, awaited, s);
      WaitsOrEndsInNil(ss);
      JoinedAreClean(st, ss, awaited, s);
      SubsetSize(Joined(ss, s), Ending(ss));
    }
  }

  lemma NoErrorWithoutError(st: Store, ss: Scripts, awaited: nat, s: State)
    requires AllClean(ss) && Reaches(st, ss, awaited, s)
    ensures s.joiner != Returned(false)
  {
    var steps :| ValidRun(ss, awaited, Start(st, ss, awaited), steps) && Outcome(ss, awaited, Start(st, ss, awaited), steps) == s;
    CleanWorkersNeverFail(ss, awaited, Start(st, ss, awaited), steps);
  }

  /** With no more workers than awaited messages, a run that cannot be extended has returned
      nil if and only if enough workers come to an end free of errors: then that is every
      worker, and one for each message. */
  lemma JoinReturnsNilIffClean(st: Store, ss: Scripts, awaited: nat, s: State)
    requires (forall k :: 0 <= k < |ss| ==> WaitsOrEnds(ss[k])) && |ss| <= awaited
    requires Reaches(st, ss, awaited, s) && forall i :: !Enabled(ss, s, i)
    ensures s.joiner == Returned(true) <==> |CleanWorkers(ss)| >= awaited
    ensures s.joiner == Returned(true) <==> |ss| == awaited && |Ending(ss)| == |ss| && AllClean(ss)
  {
    WaitsOrEndsInNil(ss);
    FullSetSize(|ss|, CleanWorkers(ss));
    FullSetSize(|ss|, Ending(ss));
    NilIffEnoughCleanWorkers(st, ss, awaited);
    if s.joiner == Returned(true) {
      NilMeansAllFinishedClean(st, ss, awaited, s);
      SubsetSize(CleanWorkers(ss), Ending(ss));
    }
    if |CleanWorkers(ss)| >= awaited {
      FullSetIsAll(|ss|, CleanWorkers(ss));
      assert CleanWorkers(ss) == Ending(ss);
      forall i | 0 <= i < |ss| ensures Clean(ss[i]) {
        assert i in CleanWorkers(ss);
      }
    }
    if |ss| == awaited == |Ending(ss)| && AllClean(ss) {
      NoErrorWithoutError(st, ss, awaited, s);
      JoinReturns(st, ss, awaited, s);
    }
  }
}
