/** One worker of the persistor: persistContainer, output_persistor.go:104-186. */
module PersistContainer {
  import opened Types
  import opened Secrets
  import opened FileTracker
  import Paths

  datatype SecretOptions = SecretOptions(
    name: string,
    labels: map<string, string>,
    annotations: map<string, string>,
    versioned: bool,
    fanOut: bool)

  /** FanOutName. */
  function FanOutName(o: SecretOptions, key: string): string {
    o.name + "-" + key
  }

  type FilesToSecrets = map<string, SecretOptions>

  /** PrefixedPaths, in whatever order the map is ranged over. */
  method PrefixedPaths(files: FilesToSecrets, prefix: string) returns (paths: seq<string>)
    ensures forall p :: p in paths <==> exists f :: f in files && p == Paths.Join(prefix, f)
    ensures |paths| == |files|
  {
    paths := [];
    var rest := files.Keys;
    while rest != {}
      invariant rest <= files.Keys && |paths| + |rest| == |files|
      invariant forall p :: p in paths <==> exists f :: f in files && f !in rest && p == Paths.Join(prefix, f)
    {
      var f :| f in rest;
      paths := paths + [Paths.Join(prefix, f)];
      rest := rest - {f};
    }
  }

  /** A read or a parse may fail and still hand back something, which the code goes on to
      use. */
  datatype Content = Content(text: string, failed: bool)
  datatype Parsed = Parsed(data: map<string, string>, failed: bool)

  /** What the pod's volumes, the kubelet and the name libraries show this worker. */
  datatype World = World(
    stat: string -> Stat,
    watch: Watch,
    exitCode: Option<int>,
    read: string -> Content,
    parse: string -> Parsed,
    sanitize: string -> string,
    subdomain: string -> string)

  datatype Job = Job(
    prefix: string,
    container: string,
    remoteID: Option<string>,
    secretLabels: map<string, string>,
    writeOnFailure: bool,
    files: FilesToSecrets)

  // ----- what a worker does, seen from outside -----

  /** A stored secret, or a message on the shared channel: an error, or the final `nil`. */
  datatype Event = Stored(u: Upsert) | Error | Nil

  ghost predicate Clean(es: seq<Event>) {
    Error !in es
  }

  ghost function Puts(es: seq<Event>): set<Upsert> {
    set i | 0 <= i < |es| && es[i].Stored? :: es[i].u
  }

  /** The store after the events, in order. */
  ghost function Effect(st: Store, es: seq<Event>): Store {
    if es == [] then st
    else
      var before := Effect(st, es[..|es| - 1]);
      if es[|es| - 1].Stored? then Put(before, es[|es| - 1].u) else before
  }

  lemma PutsConcat(a: seq<Event>, b: seq<Event>)
    ensures Puts(a + b) == Puts(a) + Puts(b)
  {
    forall u | u in Puts(a) + Puts(b) ensures u in Puts(a + b) {
      if u in Puts(a) {
        var i :| 0 <= i < |a| && a[i].Stored? && a[i].u == u;
        assert (a + b)[i].u == u;
      } else {
        var i :| 0 <= i < |b| && b[i].Stored? && b[i].u == u;
        assert (a + b)[|a| + i].u == u;
      }
    }
  }

  lemma PutsOne(e: Event)
    ensures Puts([e]) == if e.Stored? then {e.u} else {}
  {
    if e.Stored? {
      assert [e][0].u == e.u;
    }
  }

  /** From `a` to `b` no final message was sent, and no error either exactly if `clean`.  Of the
      upserts `us` some were stored and no others; all of them if `full`. */
  ghost predicate Part(a: seq<Event>, b: seq<Event>, clean: bool, full: bool, us: set<Upsert>) {
    a <= b && Nil !in b[|a|..] && (Clean(b[|a|..]) <==> clean) &&
    Puts(b[|a|..]) <= us && (full ==> Puts(b[|a|..]) == us)
  }

  lemma PartNone(a: seq<Event>)
    ensures Part(a, a, true, true, {})
  {
  }

  lemma PartOne(a: seq<Event>, e: Event)
    requires e != Nil
    ensures Part(a, a + [e], e.Stored?, true, if e.Stored? then {e.u} else {})
  {
    assert (a + [e])[|a|..] == [e];
    PutsOne(e);
  }

  lemma PartConcat(a: seq<Event>, b: seq<Event>, c: seq<Event>, p: bool, q: bool, f: bool, g: bool,
                   us: set<Upsert>, vs: set<Upsert>)
    requires Part(a, b, p, f, us) && Part(b, c, q, g, vs)
    ensures Part(a, c, p && q, f && g, us + vs)
  {
    assert c[|a|..] == b[|a|..] + c[|b|..];
    PutsConcat(b[|a|..], c[|b|..]);
  }

  // ----- what it is for -----

  ghost function DestOf(o: SecretOptions, name: string): Dest {
    if o.versioned then Versioned(name) else Plain(name)
  }

  ghost function LabelsOf(w: World, j: Job, o: SecretOptions): map<string, string> {
    Labels(w.sanitize, j.secretLabels, o.labels, j.container, j.remoteID)
  }

  ghost function DataOf(w: World, j: Job, f: string): map<string, string> {
    w.parse(w.read(Paths.Join(Paths.Join(j.prefix, j.container), f)).text).data
  }

  /** One secret for a file, holding its keys. */
  ghost function OneToOne(w: World, j: Job, f: string): Upsert
    requires f in j.files
  {
    var o := j.files[f];
    Upsert(DestOf(o, w.subdomain(o.name)), Secret(LabelsOf(w, j, o), o.annotations, DataOf(w, j, f)))
  }

  /** One secret for a key of a file, holding the keys of its value. */
  ghost function FanOut(w: World, j: Job, f: string, key: string): Upsert
    requires f in j.files && key in DataOf(w, j, f)
  {
    var o := j.files[f];
    Upsert(DestOf(o, w.subdomain(FanOutName(o, key))),
           Secret(LabelsOf(w, j, o), o.annotations, w.parse(DataOf(w, j, f)[key]).data))
  }

  ghost function FileOutputs(w: World, j: Job, f: string): set<Upsert>
    requires f in j.files
  {
    if j.files[f].fanOut then set k | k in DataOf(w, j, f) :: FanOut(w, j, f, k) else {OneToOne(w, j, f)}
  }

  ghost function Outputs(w: World, j: Job): set<Upsert> {
    set f, u | f in j.files && u in FileOutputs(w, j, f) :: u
  }

  predicate Qualifies(j: Job, exitCode: int) {
    exitCode == 0 || (exitCode == 1 && j.writeOnFailure)
  }

  /** What a worker that hits no error stores. */
  ghost function Expected(w: World, j: Job): set<Upsert> {
    if w.exitCode.Some? && Qualifies(j, w.exitCode.value) then Outputs(w, j) else {}
  }

  /** The file, and for fan-out each of its values, can be read and parsed. */
  ghost predicate Sound(w: World, j: Job, f: string)
    requires f in j.files
  {
    var content := w.read(Paths.Join(Paths.Join(j.prefix, j.container), f));
    !content.failed && !w.parse(content.text).failed &&
    (j.files[f].fanOut ==> forall k :: k in DataOf(w, j, f) ==> !w.parse(DataOf(w, j, f)[k]).failed)
  }

  /** The exit code is known, and if it qualifies every file is sound. */
  ghost predicate AllSound(w: World, j: Job) {
    w.exitCode.Some? && (Qualifies(j, w.exitCode.value) ==> forall f :: f in j.files ==> Sound(w, j, f))
  }

  /** The paths the worker waits for. */
  ghost function Required(j: Job): set<string> {
    set f | f in j.files :: Paths.Join(Paths.Join(j.prefix, j.container), f)
  }

  /** A worker that has had its files and has come to its end: errors only, if any, then the
      final `nil`.  It stored nothing but what it is for, and without errors all of it, and
      then nothing it read was unusable. */
  ghost predicate IsScript(w: World, j: Job, es: seq<Event>) {
    |es| > 0 && es[|es| - 1] == Nil && Nil !in es[..|es| - 1] &&
    Puts(es) <= Expected(w, j) && (Clean(es) ==> Puts(es) == Expected(w, j) && AllSound(w, j))
  }

  /** Everything a worker does, from start to end: it persists its files once all of them have
      arrived, sends the tracker's error twice if that fails, and is silent while it waits. */
  ghost predicate IsBehaviour(w: World, j: Job, es: seq<Event>) {
    if Arrives(Required(j), w.stat, w.watch) then IsScript(w, j, es)
    else if Fails(Required(j), w.stat, w.watch) then es == [Error, Error]
    else es == []
  }

  /** Whatever it does, it stores nothing but what it is for. */
  lemma BehaviourPuts(w: World, j: Job, es: seq<Event>)
    requires IsBehaviour(w, j, es)
    ensures Puts(es) <= Expected(w, j)
  {
    if es == [Error, Error] {
      assert forall i :: 0 <= i < |es| ==> !es[i].Stored?;
    }
  }

  // ----- the code -----

  class Worker {
    const w: World
    const j: Job
    const api: SecretClient
    ghost var start: Store
    ghost var events: seq<Event>

    constructor (w: World, j: Job, api: SecretClient)
      ensures this.w == w && this.j == j && this.api == api && events == [] && start == api.store
    {
      this.w, this.j, this.api := w, j, api;
      start, events := api.store, [];
    }

    ghost predicate Valid()
      reads this, api
    {
      api.store == Effect(start, events)
    }

    /** The channel takes the message: the worker blocks until it does. */
    method Send(e: Event)
      requires Valid() && !e.Stored?
      modifies `events
      ensures Valid() && events == old(events) + [e]
    {
      events := events + [e];
      assert events[..|events| - 1] == old(events);
    }

    method Upserted(o: SecretOptions, name: string, s: Secret) returns (ok: bool)
      modifies api
      ensures api.store == if ok then Put(old(api.store), Upsert(DestOf(o, name), s)) else old(api.store)
      ensures api.faults == old(api.faults) + if ok then 0 else 1
    {
      if o.versioned {
        ok := api.CreateVersionedSecret(name, s);
      } else {
        ok := api.CreateSecret(name, s);
      }
    }

    /** The secret has been stored. */
    ghost method Note(u: Upsert)
      requires api.store == Put(Effect(start, events), u)
      modifies `events
      ensures Valid() && events == old(events) + [Event.Stored(u)]
    {
      events := events + [Event.Stored(u)];
      assert events[..|events| - 1] == old(events);
    }

    /** Create one secret; on failure send the error and go on. */
    method Persist(o: SecretOptions, name: string, s: Secret)
      requires Valid()
      modifies `events, api
      ensures Valid() && api.faults >= old(api.faults)
      ensures Part(old(events), events, api.faults == old(api.faults), api.faults == old(api.faults), {Upsert(DestOf(o, name), s)})
    {
      ghost var u := Upsert(DestOf(o, name), s);
      var ok := Upserted(o, name, s);
      PartOne(events, if ok then Event.Stored(u) else Error);
      if ok {
        Note(u);
      } else {
        Send(Error);
      }
    }

    /** One key of a fan-out file. */
    method PersistKey(f: string, data: map<string, string>, labels: map<string, string>, k: string)
      requires Valid() && f in j.files && data == DataOf(w, j, f) && labels == LabelsOf(w, j, j.files[f]) && k in data
      modifies `events, api
      ensures Valid() && api.faults >= old(api.faults)
      ensures Part(old(events), events, api.faults == old(api.faults) && !w.parse(data[k]).failed, api.faults == old(api.faults),
                   {FanOut(w, j, f, k)})
    {
      var o := j.files[f];
      var value := w.parse(data[k]);
      PartNone(events);
      if value.failed {
        PartOne(events, Error);
        Send(Error);
      }
      ghost var middle := events;
      Persist(o, w.subdomain(FanOutName(o, k)), Secret(labels, o.annotations, value.data));
      PartConcat(old(events), middle, events, !value.failed, api.faults == old(api.faults), true, api.faults == old(api.faults),
                 {}, {FanOut(w, j, f, k)});
      assert {} + {FanOut(w, j, f, k)} == {FanOut(w, j, f, k)};
    }

    ghost predicate KeysSound(data: map<string, string>, ks: set<string>)
      requires ks <= data.Keys
    {
      forall k :: k in ks ==> !w.parse(data[k]).failed
    }

    ghost function FanOutsOf(f: string, ks: set<string>): set<Upsert>
      requires f in j.files && ks <= DataOf(w, j, f).Keys
    {
      set k | k in ks :: FanOut(w, j, f, k)
    }

    lemma OneMoreKey(f: string, ks: set<string>, k: string)
      requires f in j.files && ks <= DataOf(w, j, f).Keys && k in DataOf(w, j, f)
      ensures FanOutsOf(f, ks + {k}) == FanOutsOf(f, ks) + {FanOut(w, j, f, k)}
      ensures KeysSound(DataOf(w, j, f), ks + {k}) <==> KeysSound(DataOf(w, j, f), ks) && !w.parse(DataOf(w, j, f)[k]).failed
    {
    }

    /** The loop over the keys of a fan-out file. */
    method PersistFanOut(f: string, data: map<string, string>, labels: map<string, string>)
      requires Valid() && f in j.files && data == DataOf(w, j, f) && labels == LabelsOf(w, j, j.files[f])
      modifies `events, api
      ensures Valid() && api.faults >= old(api.faults)
      ensures Part(old(events), events, api.faults == old(api.faults) && KeysSound(data, data.Keys), api.faults == old(api.faults),
                   FanOutsOf(f, data.Keys))
    {
      var rest := data.Keys;
      ghost var done: set<string> := {};
      ghost var clean := true;
      PartNone(events);
      assert FanOutsOf(f, done) == {};
      while rest != {}
        invariant Valid() && api.faults >= old(api.faults) && rest <= data.Keys && done == data.Keys - rest
        invariant clean <==> api.faults == old(api.faults) && KeysSound(data, done)
        invariant Part(old(events), events, clean, api.faults == old(api.faults), FanOutsOf(f, done))
      {
        var k :| k in rest;
        ghost var before, faults := events, api.faults;
        PersistKey(f, data, labels, k);
        PartConcat(old(events), before, events, clean, api.faults == faults && !w.parse(data[k]).failed,
                   faults == old(api.faults), api.faults == faults, FanOutsOf(f, done), {FanOut(w, j, f, k)});
        OneMoreKey(f, done, k);
        clean := clean && api.faults == faults && !w.parse(data[k]).failed;
        rest := rest - {k};
        done := done + {k};
      }
      assert done == data.Keys;
    }

    /** The body of the loop over files.  Read and parse errors are sent, not returned from. */
    method PersistFile(f: string)
      requires Valid() && f in j.files
      modifies `events, api
      ensures Valid() && api.faults >= old(api.faults)
      ensures Part(old(events), events, api.faults == old(api.faults) && Sound(w, j, f), api.faults == old(api.faults), FileOutputs(w, j, f))
    {
      var o := j.files[f];
      var content := w.read(Paths.Join(Paths.Join(j.prefix, j.container), f));
      var parsed := w.parse(content.text);
      SendErrors(content.failed, parsed.failed);
      ghost var middle := events;
      var labels := NewLabels(w.sanitize, j.secretLabels, o.labels, j.container, j.remoteID);
      if o.fanOut {
        PersistFanOut(f, parsed.data, labels);
        PartConcat(old(events), middle, events, !content.failed && !parsed.failed,
                   api.faults == old(api.faults) && KeysSound(parsed.data, parsed.data.Keys), true, api.faults == old(api.faults),
                   {}, FanOutsOf(f, parsed.data.Keys));
        assert FanOutsOf(f, parsed.data.Keys) == FileOutputs(w, j, f);
      } else {
        Persist(o, w.subdomain(o.name), Secret(labels, o.annotations, parsed.data));
        PartConcat(old(events), middle, events, !content.failed && !parsed.failed, api.faults == old(api.faults),
                   true, api.faults == old(api.faults), {}, FileOutputs(w, j, f));
      }
      assert {} + FileOutputs(w, j, f) == FileOutputs(w, j, f);
    }

    method SendErrors(first: bool, second: bool)
      requires Valid()
      modifies `events
      ensures Valid() && Part(old(events), events, !first && !second, true, {})
    {
      PartNone(events);
      if first {
        PartOne(events, Error);
        Send(Error);
      }
      ghost var middle := events;
      PartNone(events);
      if second {
        PartOne(events, Error);
        Send(Error);
      }
      PartConcat(old(events), middle, events, !first, !second, true, true, {}, {});
    }

    ghost function OutputsOf(fs: set<string>): set<Upsert>
      requires fs <= j.files.Keys
    {
      set f, u | f in fs && u in FileOutputs(w, j, f) :: u
    }

    ghost predicate FilesSound(fs: set<string>)
      requires fs <= j.files.Keys
    {
      forall f :: f in fs ==> Sound(w, j, f)
    }

    lemma OneMoreFile(fs: set<string>, f: string)
      requires fs <= j.files.Keys && f in j.files
      ensures OutputsOf(fs + {f}) == OutputsOf(fs) + FileOutputs(w, j, f)
      ensures FilesSound(fs + {f}) <==> FilesSound(fs) && Sound(w, j, f)
    {
    }

    method PersistFiles()
      requires Valid()
      modifies `events, api
      ensures Valid() && api.faults >= old(api.faults)
      ensures Part(old(events), events, api.faults == old(api.faults) && FilesSound(j.files.Keys), api.faults == old(api.faults),
                   Outputs(w, j))
    {
      var rest := j.files.Keys;
      ghost var done: set<string> := {};
      ghost var clean := true;
      PartNone(events);
      assert OutputsOf(done) == {};
      while rest != {}
        invariant Valid() && api.faults >= old(api.faults) && rest <= j.files.Keys && done == j.files.Keys - rest
        invariant clean <==> api.faults == old(api.faults) && FilesSound(done)
        invariant Part(old(events), events, clean, api.faults == old(api.faults), OutputsOf(done))
      {
        var f :| f in rest;
        ghost var before, faults := events, api.faults;
        PersistFile(f);
        PartConcat(old(events), before, events, clean, api.faults == faults && Sound(w, j, f),
                   faults == old(api.faults), api.faults == faults, OutputsOf(done), FileOutputs(w, j, f));
        OneMoreFile(done, f);
        clean := clean && api.faults == faults && Sound(w, j, f);
        rest := rest - {f};
        done := done + {f};
      }
      assert done == j.files.Keys;
      assert OutputsOf(done) == Outputs(w, j);
    }

    /** With a known exit code that qualifies, the files; without a code, an error. */
    method PersistQualified()
      requires Valid() && events == []
      modifies `events, api
      ensures Valid() && Part([], events, api.faults == old(api.faults) && AllSound(w, j), api.faults == old(api.faults), Expected(w, j))
    {
      PartNone([]);
      if w.exitCode.None? {
        PartOne([], Error);
        assert [] + [Error] == [Error];
        Send(Error);
      } else if w.exitCode.value == 0 || (w.exitCode.value == 1 && j.writeOnFailure) {
        PersistFiles();
      }
    }

    /** persistContainer.  What the worker does is a behaviour: it waits for exactly its own
        files, and stores nothing before all of them have arrived.  It sends an error if and
        only if the tracker broke, the exit code or a file was unusable, or an API call failed.
        Unusable files stop nothing: as long as no API call fails, every secret of the
        container is stored. */
    method Run() returns (tracked: Tracked)
      requires Valid() && events == []
      modifies `events, api
      ensures Valid() && IsBehaviour(w, j, events)
      ensures tracked == Ready <==> Arrives((set f | f in j.files :: Paths.Join(Paths.Join(j.prefix, j.container), f)), w.stat, w.watch)
      ensures tracked == Broken <==> Fails((set f | f in j.files :: Paths.Join(Paths.Join(j.prefix, j.container), f)), w.stat, w.watch)
      ensures tracked == Waiting ==> events == []
      ensures tracked == Broken ==> events == [Error, Error]
      ensures tracked == Ready ==> IsScript(w, j, events)
      ensures tracked == Ready && api.faults == old(api.faults) ==> Puts(events) == Expected(w, j)
      ensures tracked == Ready ==> (Clean(events) <==> api.faults == old(api.faults) && AllSound(w, j))
    {
      var paths := PrefixedPaths(j.files, Paths.Join(j.prefix, j.container));
      assert (set p | p in paths) == Required(j);
      tracked := CheckForOutputFiles(paths, w.stat, w.watch);
      if tracked == Waiting {
        return;
      }
      if tracked == Broken {
        Send(Error);
        Send(Error);
        return;
      }
      PersistQualified();
      ghost var before := events;
      assert before[0..] == before;
      Send(Nil);
      ScriptEnds(before);
    }

    lemma ScriptEnds(before: seq<Event>)
      requires Nil !in before && Puts(before) <= Expected(w, j)
      requires Clean(before) ==> Puts(before) == Expected(w, j) && AllSound(w, j)
      ensures IsScript(w, j, before + [Nil]) && (Clean(before + [Nil]) <==> Clean(before))
      ensures Puts(before + [Nil]) == Puts(before)
    {
      PutsConcat(before, [Nil]);
      PutsOne(Nil);
    }
  }
}
