/** From the pod and the output map to the secrets, in the terms a user of quarks-job would use. */
module PersistedSecrets {
  import opened Types
  import opened Secrets
  import opened PersistContainer
  import opened FileTracker
  import opened PersistOutput
  import Paths
  import PodPaths
  import JobCreator
  import PersistPod

  /** What the volumes, the kubelet and the libraries show of each container, by name. */
  type Pod = string -> World

  ghost function Shown(pod: Pod, jobs: seq<Job>): (ws: seq<World>)
    ensures |ws| == |jobs| && forall k :: 0 <= k < |ws| ==> ws[k] == pod(jobs[k].container)
  {
    seq(|jobs|, k requires 0 <= k < |jobs| => pod(jobs[k].container))
  }

  // ----- what the output map asks for -----

  /** The exit code is zero, or it is one and outputs are wanted all the same. */
  ghost predicate Qualified(o: Output, w: World) {
    w.exitCode == Some(0) || (w.exitCode == Some(1) && o.writeOnFailure)
  }

  /** File f of the i-th container is mapped, and the container qualifies. */
  ghost predicate IsMapped(o: Output, cs: seq<Container>, pod: Pod, i: nat, f: string) {
    i < |cs| && cs[i].name != "output-persist" && cs[i].name in o.outputMap && f in o.outputMap[cs[i].name] &&
    Qualified(o, pod(cs[i].name))
  }

  /** The output map asks for secret s at destination d: for a file one secret, named after its
      entry and holding the file's keys, or with fan-out one for each key, named after entry and
      key and holding the keys of that value. */
  ghost predicate IsAsked(o: Output, cs: seq<Container>, pod: Pod, i: nat, f: string, key: Option<string>, d: Dest, s: Secret) {
    IsMapped(o, cs, pod, i, f) &&
    var c, w := cs[i], pod(cs[i].name);
    var entry := o.outputMap[c.name][f];
    var data := w.parse(w.read(PodPaths.ReadPath(c.name, f)).text).data;
    s.labels == Labels(w.sanitize, o.secretLabels, entry.labels, c.name, c.remoteID) &&
    s.annotations == entry.annotations &&
    (match key
     case None => !entry.fanOut && s.data == data && IsDest(d, entry.versioned, w.subdomain(entry.name))
     case Some(k) =>
       entry.fanOut && k in data && s.data == w.parse(data[k]).data &&
       IsDest(d, entry.versioned, w.subdomain(entry.name + "-" + k)))
  }

  ghost predicate IsDest(d: Dest, versioned: bool, name: string) {
    d == if versioned then Versioned(name) else Plain(name)
  }

  ghost predicate Asked(o: Output, cs: seq<Container>, pod: Pod, d: Dest, s: Secret) {
    exists i: nat, f: string, key: Option<string> :: IsAsked(o, cs, pod, i, f, key, d, s)
  }

  /** No two different secrets are asked for at one destination. */
  ghost predicate NoneCompete(o: Output, cs: seq<Container>, pod: Pod) {
    forall d, s, t :: Asked(o, cs, pod, d, s) && Asked(o, cs, pod, d, t) ==> s == t
  }

  // ----- that is what the workers are for -----

  ghost predicate IsFor(o: Output, cs: seq<Container>, jobs: seq<Job>, k: nat, i: nat) {
    k < |jobs| && i < |cs| && cs[i].name in o.outputMap && cs[i].name != "output-persist" &&
    jobs[k] == Job(JobCreator.PREFIX, cs[i].name, cs[i].remoteID, o.secretLabels, o.writeOnFailure, o.outputMap[cs[i].name])
  }

  lemma ExpectedIsAsked(o: Output, cs: seq<Container>, pod: Pod, jobs: seq<Job>, k: nat, i: nat, u: Upsert)
    requires IsFor(o, cs, jobs, k, i) && u in Expected(pod(cs[i].name), jobs[k])
    ensures exists f: string, key: Option<string> :: IsAsked(o, cs, pod, i, f, key, u.dest, u.secret)
  {
    var w, j := pod(cs[i].name), jobs[k];
    var f :| f in j.files && u in FileOutputs(w, j, f);
    if j.files[f].fanOut {
      var key :| key in DataOf(w, j, f) && FanOut(w, j, f, key) == u;
      assert IsAsked(o, cs, pod, i, f, Some(key), u.dest, u.secret);
    } else {
      assert IsAsked(o, cs, pod, i, f, None, u.dest, u.secret);
    }
  }

  lemma AskedIsExpected(o: Output, cs: seq<Container>, pod: Pod, jobs: seq<Job>, k: nat, i: nat,
                        f: string, key: Option<string>, u: Upsert)
    requires IsFor(o, cs, jobs, k, i) && IsAsked(o, cs, pod, i, f, key, u.dest, u.secret)
    ensures u in Expected(pod(cs[i].name), jobs[k])
  {
    var w, j := pod(cs[i].name), jobs[k];
    assert f in j.files;
    if key.Some? {
      assert u == FanOut(w, j, f, key.value);
    } else {
      assert u == OneToOne(w, j, f);
    }
    assert u in FileOutputs(w, j, f);
  }

  /** The upserts of all workers are exactly what the output map asks for. */
  lemma WorkersAreForTheOutputMap(o: Output, cs: seq<Container>, pod: Pod, u: Upsert)
    ensures var jobs := Started(o, JobCreator.PREFIX, cs);
            u in AllExpected(Shown(pod, jobs), jobs) <==> Asked(o, cs, pod, u.dest, u.secret)
  {
    var jobs := Started(o, JobCreator.PREFIX, cs);
    var ws, at := Shown(pod, jobs), [];
    at := StartedIsForEach(o, JobCreator.PREFIX, cs);
    if u in AllExpected(ws, jobs) {
      var k :| 0 <= k < |jobs| && u in Expected(ws[k], jobs[k]);
      assert at[k] in at;
      ExpectedIsAsked(o, cs, pod, jobs, k, at[k], u);
    }
    if Asked(o, cs, pod, u.dest, u.secret) {
      var i: nat, f: string, key: Option<string> :| IsAsked(o, cs, pod, i, f, key, u.dest, u.secret);
      assert i in at;
      var k :| 0 <= k < |at| && at[k] == i;
      AskedIsExpected(o, cs, pod, jobs, k, i, f, key, u);
      assert u in Expected(ws[k], jobs[k]);
    }
  }

  // ----- what nil means -----

  /** The destination holds the secret: a plain one nothing else, a versioned one as its latest
      version, added to those before unless the latest of them held the same data. */
  ghost predicate Holds(before: Store, after: Store, d: Dest, s: Secret) {
    d in after &&
    match d
    case Plain(_) => after[d] == [s]
    case Versioned(_) =>
      if d in before && before[d] != [] && before[d][|before[d]| - 1].data == s.data then after[d] == before[d]
      else after[d] == (if d in before then before[d] else []) + [s]
  }

  ghost predicate Untouched(before: Store, after: Store, d: Dest) {
    (d in after <==> d in before) && (d in before ==> after[d] == before[d])
  }

  lemma PersistedHolds(st: Store, us: set<Upsert>, u: Upsert)
    requires Consistent(us) && u in us
    ensures Holds(st, Persisted(st, us), u.dest, u.secret)
  {
    PersistedAt(st, us, u.dest);
    assert Targets(us, u.dest) && SecretFor(us, u.dest) == u.secret;
  }

  /** The whole.  When persistPod returns nil on the pod of a Job whose template is fully mapped,
      every secret the output map asks for is there, nothing else has changed, every mapped file
      had arrived before, and whatever was read could be used. */
  lemma NilMeansWhatIsAsked(e: JobCreator.Setting, jobName: string, p: JobCreator.PodSpec, o: Output,
                            cs: seq<Container>, pod: Pod, ss: PersistPod.Scripts, st: Store, s: PersistPod.State)
    requires ReadBack(e, jobName, p, cs) && forall i :: 0 <= i < |p.containers| ==> Mapped(o, p.containers[i])
    requires var jobs := Started(o, JobCreator.PREFIX, cs); Behave(Shown(pod, jobs), jobs, ss)
    requires PersistPod.Reaches(st, ss, Awaited(cs), s) && s.joiner == PersistPod.Returned(true)
    requires NoneCompete(o, cs, pod)
    ensures forall d, x :: Asked(o, cs, pod, d, x) ==> Holds(st, s.store, d, x)
    ensures forall d :: (forall x :: !Asked(o, cs, pod, d, x)) ==> Untouched(st, s.store, d)
    ensures forall i: nat :: i < |p.containers| ==> HadItsFiles(o, p.containers[i].name, pod(p.containers[i].name))
  {
    var jobs := Started(o, JobCreator.PREFIX, cs);
    var ws := Shown(pod, jobs);
    NoneCompeteIsConsistent(o, cs, pod);
    MappedPodsMatch(e, jobName, p, o, JobCreator.PREFIX, cs);
    NilMeansExactlyTheOutputs(ws, jobs, ss, Awaited(cs), st, s);
    assert AllReady(ws, jobs);
    SameNames(e, jobName, p, cs);
    forall d, x | Asked(o, cs, pod, d, x) ensures Holds(st, s.store, d, x) {
      WorkersAreForTheOutputMap(o, cs, pod, Upsert(d, x));
      PersistedHolds(st, AllExpected(ws, jobs), Upsert(d, x));
    }
    forall d | forall x :: !Asked(o, cs, pod, d, x) ensures Untouched(st, s.store, d) {
      OthersAreUntouched(o, cs, pod, st, d);
    }
    forall i: nat | i < |p.containers| ensures HadItsFiles(o, p.containers[i].name, pod(p.containers[i].name)) {
      assert Mapped(o, p.containers[i]);
      WorkerHadItsFiles(o, cs, pod, i);
    }
  }

  /** Where the persistor looks for the files of a container. */
  ghost function FilesOf(o: Output, name: string): set<string>
    requires name in o.outputMap
  {
    set f | f in o.outputMap[name] :: PodPaths.ReadPath(name, f)
  }

  /** And where different secrets are asked for at one destination, it holds one of them. */
  lemma NilMeansOneOfTheAsked(e: JobCreator.Setting, jobName: string, p: JobCreator.PodSpec, o: Output, cs: seq<Container>,
                              pod: Pod, ss: PersistPod.Scripts, st: Store, s: PersistPod.State, d: Dest, x: Secret)
    requires ReadBack(e, jobName, p, cs) && forall i :: 0 <= i < |p.containers| ==> Mapped(o, p.containers[i])
    requires var jobs := Started(o, JobCreator.PREFIX, cs); Behave(Shown(pod, jobs), jobs, ss)
    requires PersistPod.Reaches(st, ss, Awaited(cs), s) && s.joiner == PersistPod.Returned(true)
    requires Asked(o, cs, pod, d, x)
    ensures exists y :: Asked(o, cs, pod, d, y) && PersistPod.LatestIs(s.store, Upsert(d, y))
  {
    var jobs := Started(o, JobCreator.PREFIX, cs);
    MappedPodsMatch(e, jobName, p, o, JobCreator.PREFIX, cs);
    NilMeansAllDone(Shown(pod, jobs), jobs, ss, Awaited(cs), st, s);
    PersistPod.NilMeansOneIsHeld(st, ss, Awaited(cs), s, d);
    OneOfTheAskedIsHeld(o, cs, pod, st, s.store, d, x);
  }

  lemma OneOfTheAskedIsHeld(o: Output, cs: seq<Container>, pod: Pod, before: Store, after: Store, d: Dest, x: Secret)
    requires var jobs := Started(o, JobCreator.PREFIX, cs);
             PersistPod.HoldsOne(before, after, AllExpected(Shown(pod, jobs), jobs), d)
    requires Asked(o, cs, pod, d, x)
    ensures exists y :: Asked(o, cs, pod, d, y) && PersistPod.LatestIs(after, Upsert(d, y))
  {
    var jobs := Started(o, JobCreator.PREFIX, cs);
    var us := AllExpected(Shown(pod, jobs), jobs);
    AskedIsTargeted(o, cs, pod, d, x);
    var u :| u in us && u.dest == d && PersistPod.LatestIs(after, u);
    ExpectedIsAskedFor(o, cs, pod, u);
    assert u == Upsert(d, u.secret);
  }

  lemma AskedIsTargeted(o: Output, cs: seq<Container>, pod: Pod, d: Dest, x: Secret)
    requires Asked(o, cs, pod, d, x)
    ensures var jobs := Started(o, JobCreator.PREFIX, cs); Targets(AllExpected(Shown(pod, jobs), jobs), d)
  {
    WorkersAreForTheOutputMap(o, cs, pod, Upsert(d, x));
    assert Upsert(d, x).dest == d;
  }

  lemma ExpectedIsAskedFor(o: Output, cs: seq<Container>, pod: Pod, u: Upsert)
    requires var jobs := Started(o, JobCreator.PREFIX, cs); u in AllExpected(Shown(pod, jobs), jobs)
    ensures Asked(o, cs, pod, u.dest, u.secret)
  {
    WorkersAreForTheOutputMap(o, cs, pod, u);
  }

  /** Every mapped file of the container arrived, its exit code is known, and if it qualifies
      every file, and with fan-out every value in it, could be read and parsed. */
  ghost predicate HadItsFiles(o: Output, name: string, w: World) {
    name in o.outputMap &&
    Arrives(FilesOf(o, name), w.stat, w.watch) &&
    w.exitCode.Some? &&
    (Qualified(o, w) ==> forall f :: f in o.outputMap[name] ==> Usable(o, name, w, f))
  }

  ghost predicate Usable(o: Output, name: string, w: World, f: string)
    requires name in o.outputMap && f in o.outputMap[name]
  {
    var content := w.read(PodPaths.ReadPath(name, f));
    !content.failed && !w.parse(content.text).failed &&
    (o.outputMap[name][f].fanOut ==>
      forall k :: k in w.parse(content.text).data ==> !w.parse(w.parse(content.text).data[k]).failed)
  }

  lemma WorkerHadItsFiles(o: Output, cs: seq<Container>, pod: Pod, i: nat)
    requires i < |cs| && cs[i].name != "output-persist" && cs[i].name in o.outputMap
    requires var jobs := Started(o, JobCreator.PREFIX, cs); AllReady(Shown(pod, jobs), jobs)
    ensures HadItsFiles(o, cs[i].name, pod(cs[i].name))
  {
    var jobs := Started(o, JobCreator.PREFIX, cs);
    var at := StartedIsForEach(o, JobCreator.PREFIX, cs);
    assert i in at;
    var k :| 0 <= k < |at| && at[k] == i;
    assert IsFor(o, cs, jobs, k, i);
    assert WasReady(Shown(pod, jobs)[k], jobs[k]);
    JobHadItsFiles(o, cs, pod, jobs, k, i);
  }

  ghost predicate AllReady(ws: seq<World>, jobs: seq<Job>) {
    |ws| == |jobs| && forall k :: 0 <= k < |jobs| ==> WasReady(ws[k], jobs[k])
  }

  ghost predicate WasReady(w: World, j: Job) {
    Arrives(Required(j), w.stat, w.watch) && AllSound(w, j)
  }

  lemma SameNames(e: JobCreator.Setting, jobName: string, p: JobCreator.PodSpec, cs: seq<Container>)
    requires ReadBack(e, jobName, p, cs)
    ensures |cs| == |p.containers| + 1 && forall i :: 0 <= i < |p.containers| ==> cs[i].name == p.containers[i].name
  {
    var r :| JobCreator.IsRewritten(e, jobName, p, r) && |cs| == |r.containers| &&
             forall i :: 0 <= i < |cs| ==> cs[i].name == r.containers[i].name;
    forall i | 0 <= i < |p.containers| ensures cs[i].name == p.containers[i].name {
      assert r.containers[i].name == p.containers[i].name;
    }
  }

  lemma JobHadItsFiles(o: Output, cs: seq<Container>, pod: Pod, jobs: seq<Job>, k: nat, i: nat)
    requires IsFor(o, cs, jobs, k, i) && WasReady(pod(cs[i].name), jobs[k])
    ensures HadItsFiles(o, cs[i].name, pod(cs[i].name))
  {
    var name, w := cs[i].name, pod(cs[i].name);
    RequiredAreTheFiles(o, name, jobs[k]);
    if Qualified(o, w) {
      forall f | f in o.outputMap[name] ensures Usable(o, name, w, f) {
        assert Sound(w, jobs[k], f);
        SoundIsUsable(o, name, w, jobs[k], f);
      }
    }
  }

  lemma RequiredAreTheFiles(o: Output, name: string, j: Job)
    requires name in o.outputMap && j.prefix == JobCreator.PREFIX && j.container == name && j.files == o.outputMap[name]
    ensures Required(j) == FilesOf(o, name)
  {
    forall path ensures path in Required(j) <==> path in FilesOf(o, name) {
    }
  }

  lemma SoundIsUsable(o: Output, name: string, w: World, j: Job, f: string)
    requires name in o.outputMap && j.prefix == JobCreator.PREFIX && j.container == name && j.files == o.outputMap[name]
    requires f in j.files && Sound(w, j, f)
    ensures Usable(o, name, w, f)
  {
    var data := w.parse(w.read(PodPaths.ReadPath(name, f)).text).data;
    assert DataOf(w, j, f) == data;
    if o.outputMap[name][f].fanOut {
      forall k | k in data ensures !w.parse(data[k]).failed {
        assert k in DataOf(w, j, f);
      }
    }
  }

  lemma NoneCompeteIsConsistent(o: Output, cs: seq<Container>, pod: Pod)
    requires NoneCompete(o, cs, pod)
    ensures var jobs := Started(o, JobCreator.PREFIX, cs); Consistent(AllExpected(Shown(pod, jobs), jobs))
  {
    var jobs := Started(o, JobCreator.PREFIX, cs);
    forall u, v | u in AllExpected(Shown(pod, jobs), jobs) && v in AllExpected(Shown(pod, jobs), jobs) && u.dest == v.dest
      ensures u == v
    {
      WorkersAreForTheOutputMap(o, cs, pod, u);
      WorkersAreForTheOutputMap(o, cs, pod, v);
    }
  }

  lemma OthersAreUntouched(o: Output, cs: seq<Container>, pod: Pod, st: Store, d: Dest)
    requires forall x :: !Asked(o, cs, pod, d, x)
    ensures var jobs := Started(o, JobCreator.PREFIX, cs); Untouched(st, Persisted(st, AllExpected(Shown(pod, jobs), jobs)), d)
  {
    var jobs := Started(o, JobCreator.PREFIX, cs);
    var us := AllExpected(Shown(pod, jobs), jobs);
    forall u | u in us ensures u.dest != d {
      WorkersAreForTheOutputMap(o, cs, pod, u);
    }
    PersistedAt(st, us, d);
  }

  // ----- from the file a container writes to the secret -----

  /** The persistor reads each file from the volume its path means in its container. */
  ghost predicate ReadsVolumes(mounts: seq<JobCreator.Mount>, w: World, disk: PodPaths.Location -> Content) {
    forall path: string, file :: PodPaths.MeansFile(mounts, Paths.Resolve(path), file) ==> w.read(path) == disk(file)
  }

  lemma SameFile(own: seq<JobCreator.Mount>, persistor: seq<JobCreator.Mount>, w: World, disk: PodPaths.Location -> Content,
                 written: string, read: string, file: PodPaths.Location, here: PodPaths.Location)
    requires PodPaths.MeansFile(own, Paths.Resolve(written), file) && PodPaths.MeansFile(own, Paths.Resolve(written), here)
    requires PodPaths.MeansFile(persistor, Paths.Resolve(read), here) && ReadsVolumes(persistor, w, disk)
    ensures w.read(read) == disk(file)
  {
    PodPaths.FilesAreUnique(own, Paths.Resolve(written), file, here);
  }

  lemma ReadIsWritten(e: JobCreator.Setting, jobName: string, p: JobCreator.PodSpec, r: JobCreator.PodSpec,
                      i: nat, f: string, w: World, disk: PodPaths.Location -> Content, file: PodPaths.Location)
    requires JobCreator.IsRewritten(e, jobName, p, r) && i < |p.containers| && PodPaths.Ordinary(e, p)
    requires Paths.Stays(0, Paths.Split(f)) && !PodPaths.Shadowed(p.containers[i], Paths.Resolve(PodPaths.WritePath(f)))
    requires ReadsVolumes(r.containers[|p.containers|].mounts, w, disk)
    requires PodPaths.MeansFile(r.containers[i].mounts, Paths.Resolve(PodPaths.WritePath(f)), file)
    ensures w.read(PodPaths.ReadPath(p.containers[i].name, f)) == disk(file)
  {
    PodPaths.PathsAgree(e, jobName, p, r, i, f);
    var here := PodPaths.Location(JobCreator.VolumeName(e, p.containers[i].name), Paths.Walk([], Paths.Split(f)));
    SameFile(r.containers[i].mounts, r.containers[|p.containers|].mounts, w, disk,
             PodPaths.WritePath(f), PodPaths.ReadPath(p.containers[i].name, f), file, here);
  }

  /** The secret for file f of the i-th container, if its content is `text`. */
  ghost predicate HoldsText(o: Output, c: Container, w: World, f: string, text: string, before: Store, after: Store)
    requires c.name in o.outputMap && f in o.outputMap[c.name]
  {
    var entry := o.outputMap[c.name][f];
    var name := w.subdomain(entry.name);
    Holds(before, after, if entry.versioned then Versioned(name) else Plain(name),
          Secret(Labels(w.sanitize, o.secretLabels, entry.labels, c.name, c.remoteID), entry.annotations, w.parse(text).data))
  }

  /** End to end: what a container of the template has written at /mnt/quarks/f is what the secret
      for f holds when persistPod has returned nil. */
  lemma WrittenIsPersisted(e: JobCreator.Setting, jobName: string, p: JobCreator.PodSpec, r: JobCreator.PodSpec, o: Output,
                           cs: seq<Container>, pod: Pod, ss: PersistPod.Scripts, st: Store, s: PersistPod.State,
                           i: nat, f: string, disk: PodPaths.Location -> Content, file: PodPaths.Location)
    requires JobCreator.IsRewritten(e, jobName, p, r)
    requires |cs| == |r.containers| && forall k :: 0 <= k < |cs| ==> cs[k].name == r.containers[k].name
    requires forall k :: 0 <= k < |p.containers| ==> Mapped(o, p.containers[k])
    requires var jobs := Started(o, JobCreator.PREFIX, cs); Behave(Shown(pod, jobs), jobs, ss)
    requires PersistPod.Reaches(st, ss, Awaited(cs), s) && s.joiner == PersistPod.Returned(true) && NoneCompete(o, cs, pod)
    requires i < |p.containers| && PodPaths.Ordinary(e, p) && IsMapped(o, cs, pod, i, f) && !o.outputMap[cs[i].name][f].fanOut
    requires Paths.Stays(0, Paths.Split(f)) && !PodPaths.Shadowed(p.containers[i], Paths.Resolve(PodPaths.WritePath(f)))
    requires ReadsVolumes(r.containers[|p.containers|].mounts, pod(cs[i].name), disk)
    requires PodPaths.MeansFile(r.containers[i].mounts, Paths.Resolve(PodPaths.WritePath(f)), file)
    ensures HoldsText(o, cs[i], pod(cs[i].name), f, disk(file).text, st, s.store)
  {
    ReadIsWritten(e, jobName, p, r, i, f, pod(cs[i].name), disk, file);
    assert cs[i].name == r.containers[i].name == p.containers[i].name;
    assert ReadBack(e, jobName, p, cs);
    NilMeansWhatIsAsked(e, jobName, p, o, cs, pod, ss, st, s);
    MappedIsHeld(o, cs, pod, st, s.store, i, f);
  }

  lemma MappedIsHeld(o: Output, cs: seq<Container>, pod: Pod, before: Store, after: Store, i: nat, f: string)
    requires IsMapped(o, cs, pod, i, f) && !o.outputMap[cs[i].name][f].fanOut
    requires forall d, x :: Asked(o, cs, pod, d, x) ==> Holds(before, after, d, x)
    ensures HoldsText(o, cs[i], pod(cs[i].name), f, pod(cs[i].name).read(PodPaths.ReadPath(cs[i].name, f)).text, before, after)
  {
    var c, w := cs[i], pod(cs[i].name);
    var entry := o.outputMap[c.name][f];
    var d := if entry.versioned then Versioned(w.subdomain(entry.name)) else Plain(w.subdomain(entry.name));
    var x := Secret(Labels(w.sanitize, o.secretLabels, entry.labels, c.name, c.remoteID), entry.annotations,
                    w.parse(w.read(PodPaths.ReadPath(c.name, f)).text).data);
    assert IsAsked(o, cs, pod, i, f, None, d, x);
    assert Asked(o, cs, pod, d, x);
  }
}
