/** Waiting for a container's output files: output_persistor.go:204-305. */
module FileTracker {
  datatype Stat = Missing | Directory | Regular

  /** What the watcher reports: some operation on a file, a closed channel, an error. */
  datatype FsEvent = Touched(name: string, created: bool) | Closed | WatchError

  /** Making the watcher or adding the directory can fail; otherwise a finite sequence of
      reports arrives while the container runs. */
  datatype Watch = Unwatchable | Watching(events: seq<FsEvent>)

  /** `Waiting` is a tracker that is never told enough to return. */
  datatype Tracked = Ready | Broken | Waiting

  /** fileExists. */
  predicate Exists(stat: string -> Stat, path: string) {
    stat(path) == Regular
  }

  /** The path existed at the check, or one of the first k reports is its creation. */
  ghost predicate Accounted(stat: string -> Stat, events: seq<FsEvent>, k: nat, path: string)
    requires k <= |events|
  {
    Exists(stat, path) || Touched(path, true) in events[..k]
  }

  ghost predicate AllAccounted(paths: set<string>, stat: string -> Stat, events: seq<FsEvent>, k: nat)
    requires k <= |events|
  {
    forall p :: p in paths ==> Accounted(stat, events, k, p)
  }

  /** The `seen` map. */
  class Seen {
    var files: map<string, bool>

    constructor (paths: seq<string>)
      ensures files.Keys == (set p | p in paths) && forall p :: p in files ==> !files[p]
    {
      var m: map<string, bool> := map[];
      for i := 0 to |paths|
        invariant m.Keys == (set p | p in paths[..i])
        invariant forall p :: p in m ==> !m[p]
      {
        m := m[paths[i] := false];
      }
      assert paths[..|paths|] == paths;
      files := m;
    }

    method Done(file: string)
      requires file in files
      modifies this
      ensures files == old(files)[file := true]
    {
      files := files[file := true];
    }

    method Complete() returns (all: bool)
      ensures all <==> forall p :: p in files ==> files[p]
    {
      var rest := files.Keys;
      while rest != {}
        invariant rest <= files.Keys
        invariant forall p :: p in files && p !in rest ==> files[p]
      {
        var p :| p in rest;
        if !files[p] {
          return false;
        }
        rest := rest - {p};
      }
      return true;
    }

    method CheckAll(stat: string -> Stat)
      modifies this
      ensures files.Keys == old(files.Keys)
      ensures forall p :: p in files ==> (files[p] <==> old(files)[p] || Exists(stat, p))
    {
      var rest := files.Keys;
      while rest != {}
        invariant rest <= files.Keys == old(files.Keys)
        invariant forall p :: p in files ==> (files[p] <==> old(files)[p] || (p !in rest && Exists(stat, p)))
      {
        var p :| p in rest;
        if Exists(stat, p) {
          Done(p);
        }
        rest := rest - {p};
      }
    }
  }

  /** When the tracker's loop returns after exactly k reports with the given verdict: no report
      before ended it. */
  ghost predicate EndsAt(paths: set<string>, stat: string -> Stat, events: seq<FsEvent>, k: nat, r: Tracked) {
    k < |events| &&
    (forall j :: 0 <= j < k ==> events[j] != WatchError) && !AllAccounted(paths, stat, events, k) &&
    match r
    case Ready => AllAccounted(paths, stat, events, k + 1)
    case Broken => events[k] == WatchError
    case Waiting => false
  }

  // ----- the same, said of the reports as a whole -----

  /** Every required path is a file at the check, or its creation is reported before any error
      is. */
  ghost predicate Arrives(required: set<string>, stat: string -> Stat, watch: Watch) {
    (forall p :: p in required ==> stat(p) == Regular) ||
    (watch.Watching? && exists n: nat :: ArrivesBy(required, stat, watch.events, n))
  }

  ghost predicate ArrivesBy(required: set<string>, stat: string -> Stat, events: seq<FsEvent>, n: nat) {
    n <= |events| && WatchError !in events[..n] &&
    forall p :: p in required ==> stat(p) == Regular || Touched(p, true) in events[..n]
  }

  /** Some path is not there, and there is no watcher, or an error is reported first. */
  ghost predicate Fails(required: set<string>, stat: string -> Stat, watch: Watch) {
    !Arrives(required, stat, watch) &&
    (watch.Unwatchable? || WatchError in watch.events)
  }

  lemma {:induction false} ArrivingEnds(required: set<string>, stat: string -> Stat, events: seq<FsEvent>, n: nat) returns (k: nat)
    requires ArrivesBy(required, stat, events, n) && !AllAccounted(required, stat, events, 0)
    ensures EndsAt(required, stat, events, k, Ready)
    decreases n
  {
    if AllAccounted(required, stat, events, n - 1) {
      assert forall e :: e in events[..n - 1] ==> e in events[..n];
      k := ArrivingEnds(required, stat, events, n - 1);
    } else {
      k := n - 1;
      assert forall j :: 0 <= j < k ==> events[j] in events[..n];
    }
  }

  lemma EndingArrives(required: set<string>, stat: string -> Stat, events: seq<FsEvent>, k: nat)
    requires EndsAt(required, stat, events, k, Ready)
    ensures ArrivesBy(required, stat, events, k + 1)
  {
    assert events[..k + 1] == events[..k] + [events[k]];
    assert forall p :: p in required ==>
        (Touched(p, true) in events[..k + 1] <==> Touched(p, true) in events[..k] || events[k] == Touched(p, true));
  }

  /** The first error ends the tracker exactly if the files have not arrived. */
  lemma FailingEnds(required: set<string>, stat: string -> Stat, events: seq<FsEvent>)
    requires !AllAccounted(required, stat, events, 0)
    ensures (exists k :: EndsAt(required, stat, events, k, Ready)) <==> exists n: nat :: ArrivesBy(required, stat, events, n)
    ensures (exists k :: EndsAt(required, stat, events, k, Broken)) <==>
            WatchError in events && !exists n: nat :: ArrivesBy(required, stat, events, n)
  {
    if k :| EndsAt(required, stat, events, k, Ready) {
      EndingArrives(required, stat, events, k);
    }
    if n: nat :| ArrivesBy(required, stat, events, n) {
      var k := ArrivingEnds(required, stat, events, n);
    }
    if k :| EndsAt(required, stat, events, k, Broken) {
      NoneArrivesAfter(required, stat, events, k);
    }
    if WatchError in events && !exists n: nat :: ArrivesBy(required, stat, events, n) {
      var k := FirstError(events);
      assert !ArrivesBy(required, stat, events, k);
      assert EndsAt(required, stat, events, k, Broken);
    }
  }

  lemma NoneArrivesAfter(required: set<string>, stat: string -> Stat, events: seq<FsEvent>, k: nat)
    requires EndsAt(required, stat, events, k, Broken)
    ensures WatchError in events && forall n: nat :: !ArrivesBy(required, stat, events, n)
  {
    forall n: nat ensures !ArrivesBy(required, stat, events, n) {
      if n > k && n <= |events| {
        assert events[..n][k] == WatchError;
      } else if n <= k {
        assert forall e :: e in events[..n] ==> e in events[..k];
      }
    }
  }

  lemma {:induction false} FirstError(events: seq<FsEvent>) returns (k: nat)
    requires WatchError in events
    ensures k < |events| && events[k] == WatchError && WatchError !in events[..k]
    decreases |events|
  {
    var n := |events| - 1;
    if WatchError in events[..n] {
      k := FirstError(events[..n]);
      assert events[..n][..k] == events[..k];
    } else {
      k := n;
    }
  }

  /** checkForOutputFiles.  It reports the files complete if and only if they arrive, and fails
      if and only if they do not and there is no watcher or an error is reported; otherwise it
      waits for ever. */
  method CheckForOutputFiles(paths: seq<string>, stat: string -> Stat, watch: Watch) returns (r: Tracked)
    ensures r == Ready <==> Arrives((set p | p in paths), stat, watch)
    ensures r == Broken <==> Fails((set p | p in paths), stat, watch)
  {
    var seen := new Seen(paths);
    seen.CheckAll(stat);
    var complete := seen.Complete();
    if complete {
      return Ready;
    }
    if watch.Unwatchable? {
      return Broken;
    }
    FailingEnds((set p | p in paths), stat, watch.events);
    r := WatchFiles(paths, stat, watch.events, seen);
  }

  lemma OneMoreReport(stat: string -> Stat, events: seq<FsEvent>, i: nat, p: string)
    requires i < |events|
    ensures Accounted(stat, events, i + 1, p) <==> Accounted(stat, events, i, p) || events[i] == Touched(p, true)
  {
    assert events[..i + 1] == events[..i] + [events[i]];
  }

  /** One report of an operation on a file. */
  method Report(required: set<string>, stat: string -> Stat, events: seq<FsEvent>, i: nat, seen: Seen) returns (complete: bool)
    requires i < |events| && events[i].Touched? && seen.files.Keys == required
    requires forall p :: p in required ==> (seen.files[p] <==> Accounted(stat, events, i, p))
    modifies seen
    ensures seen.files.Keys == required
    ensures forall p :: p in required ==> (seen.files[p] <==> Accounted(stat, events, i + 1, p))
    ensures complete <==> AllAccounted(required, stat, events, i + 1)
  {
    if events[i].created && events[i].name in seen.files {
      seen.Done(events[i].name);
    }
    forall p | p in required ensures seen.files[p] <==> Accounted(stat, events, i + 1, p) {
      OneMoreReport(stat, events, i, p);
    }
    complete := seen.Complete();
  }

  method WatchFiles(paths: seq<string>, stat: string -> Stat, events: seq<FsEvent>, seen: Seen) returns (r: Tracked)
    requires seen.files.Keys == (set p | p in paths)
    requires forall p :: p in seen.files ==> (seen.files[p] <==> Exists(stat, p))
    requires !forall p :: p in seen.files ==> seen.files[p]
    modifies seen
    ensures var required := set p | p in paths;
            (r == Ready <==> exists k :: EndsAt(required, stat, events, k, Ready)) &&
            (r == Broken <==> exists k :: EndsAt(required, stat, events, k, Broken))
  {
    ghost var required := set p | p in paths;
    for i := 0 to |events|
      invariant seen.files.Keys == required
      invariant forall p :: p in required ==> (seen.files[p] <==> Accounted(stat, events, i, p))
      invariant !AllAccounted(required, stat, events, i)
      invariant forall j :: 0 <= j < i ==> events[j] != WatchError
      invariant forall j :: 0 <= j < i ==> !EndsAt(required, stat, events, j, Ready)
    {
      assert events[..i + 1] == events[..i] + [events[i]];
      match events[i]
      case Closed =>
      case WatchError =>
        assert EndsAt(required, stat, events, i, Broken);
        assert !EndsAt(required, stat, events, i, Ready);
        return Broken;
      case Touched(_, _) =>
        var complete := Report(seen.files.Keys, stat, events, i, seen);
        if complete {
          assert EndsAt(required, stat, events, i, Ready);
          return Ready;
        }
    }
    return Waiting;
  }
}
