/** job_creator.go: rewriting a copy of the pod template, on the heap, and creating the Job. */
module JobCreator {
  import opened Types
  import Paths

  // ----- values -----

  datatype VolumeSource = EmptyDir | SecretSource(secretName: string) | OtherSource(text: string)
  datatype Volume = Volume(name: string, source: VolumeSource)
  datatype Mount = Mount(name: string, path: string, readOnly: bool)
  datatype ContainerSpec = ContainerSpec(name: string, mounts: seq<Mount>, rest: string)
  datatype PodSpec = PodSpec(volumes: seq<Volume>, containers: seq<ContainerSpec>, labels: Option<map<string, string>>)

  /** "/mnt/quarks", as the persist-output command passes it (persist_output.go:57), and
      "/mnt/quarks/", where containers find their output volume. */
  const PREFIX := Paths.Unparse(["mnt", "quarks"])
  const MOUNT_PATH := PREFIX + "/"
  /** "/var/run/secrets/kubernetes.io/serviceaccount" (service_account.go:18). */
  const ACCOUNT_PATH := Paths.Unparse(["var", "run", "secrets", "kubernetes.io", "serviceaccount"])
  const PERSIST := "output-persist"
  const LABEL_QJOB_NAME := "quarks.cloudfoundry.org/qjob-name"

  /** The service account's volume and mount, and `names.Sanitize`. */
  datatype Setting = Setting(account: Volume, accountMount: Mount, sanitize: string -> string)

  function VolumeName(e: Setting, container: string): string {
    e.sanitize("output-" + container)
  }

  function OwnMount(e: Setting, container: string): Mount {
    Mount(VolumeName(e, container), MOUNT_PATH, false)
  }

  function PersistMount(e: Setting, container: string): Mount {
    Mount(VolumeName(e, container), Paths.Join(MOUNT_PATH, container), false)
  }

  ghost function OutputVolumes(e: Setting, names: seq<string>): (vs: seq<Volume>)
    ensures |vs| == |names| && forall i :: 0 <= i < |vs| ==> vs[i] == Volume(VolumeName(e, names[i]), EmptyDir)
  {
    seq(|names|, i requires 0 <= i < |names| => Volume(VolumeName(e, names[i]), EmptyDir))
  }

  ghost function PersistMounts(e: Setting, names: seq<string>): (ms: seq<Mount>)
    ensures |ms| == |names| && forall i :: 0 <= i < |ms| ==> ms[i] == PersistMount(e, names[i])
  {
    seq(|names|, i requires 0 <= i < |names| => PersistMount(e, names[i]))
  }

  /** The template with one more volume and mount per container, the service account's volume
      and the persisting container, stated element by element. */
  ghost predicate IsRewritten(e: Setting, jobName: string, p: PodSpec, r: PodSpec) {
    var n := |p.containers|;
    |r.volumes| == |p.volumes| + 1 + n &&
    r.volumes[..|p.volumes|] == p.volumes && r.volumes[|p.volumes|] == e.account &&
    (forall i :: 0 <= i < n ==>
      r.volumes[|p.volumes| + 1 + i] == Volume(e.sanitize("output-" + p.containers[i].name), EmptyDir)) &&
    |r.containers| == n + 1 &&
    (forall i :: 0 <= i < n ==>
      r.containers[i] == p.containers[i].(mounts := p.containers[i].mounts +
                                                    [Mount(e.sanitize("output-" + p.containers[i].name), MOUNT_PATH, false)])) &&
    r.containers[n].name == "output-persist" &&
    |r.containers[n].mounts| == n + 1 && r.containers[n].mounts[0] == e.accountMount &&
    (forall i :: 0 <= i < n ==>
      r.containers[n].mounts[1 + i] ==
        Mount(e.sanitize("output-" + p.containers[i].name), Paths.Join(MOUNT_PATH, p.containers[i].name), false)) &&
    r.labels == Some((if p.labels.Some? then p.labels.value else map[])["quarks.cloudfoundry.org/qjob-name" := jobName])
  }

  /** What the edits leave, piece by piece. */
  ghost predicate IsAssembled(e: Setting, jobName: string, names: seq<string>, p: PodSpec, r: PodSpec) {
    |names| == |p.containers| && (forall i :: 0 <= i < |names| ==> names[i] == p.containers[i].name) &&
    r.volumes == p.volumes + [e.account] + OutputVolumes(e, names) &&
    |r.containers| == |names| + 1 &&
    (forall i :: 0 <= i < |names| ==>
      r.containers[i] == p.containers[i].(mounts := p.containers[i].mounts + [OwnMount(e, names[i])])) &&
    r.containers[|names|].name == PERSIST &&
    r.containers[|names|].mounts == [e.accountMount] + PersistMounts(e, names) &&
    r.labels == Some((if p.labels.Some? then p.labels.value else map[])[LABEL_QJOB_NAME := jobName])
  }

  lemma AssembledIsRewritten(e: Setting, jobName: string, names: seq<string>, p: PodSpec, r: PodSpec)
    requires IsAssembled(e, jobName, names, p, r)
    ensures IsRewritten(e, jobName, p, r)
  {
  }

  lemma PrefixGrows<T>(s: seq<T>, i: nat)
    requires i < |s|
    ensures s[..i + 1] == s[..i] + [s[i]]
  {
  }

  // ----- the heap -----

  class Container {
    const name: string
    const rest: string
    var mounts: seq<Mount>

    constructor (name: string, mounts: seq<Mount>, rest: string)
      ensures this.name == name && this.mounts == mounts && this.rest == rest
    {
      this.name, this.mounts, this.rest := name, mounts, rest;
    }

    function Value(): ContainerSpec
      reads this
    {
      ContainerSpec(name, mounts, rest)
    }
  }

  class LabelMap {
    var entries: map<string, string>

    constructor (entries: map<string, string>)
      ensures this.entries == entries
    {
      this.entries := entries;
    }
  }

  /** A pod template as Go holds it: containers and labels are shared by every copy of the
      struct that points at them. */
  class PodTemplate {
    var volumes: seq<Volume>
    var containers: seq<Container>
    var labels: LabelMap?

    constructor (volumes: seq<Volume>, containers: seq<Container>, labels: LabelMap?)
      ensures this.volumes == volumes && this.containers == containers && this.labels == labels
    {
      this.volumes, this.containers, this.labels := volumes, containers, labels;
    }

    ghost predicate Valid()
      reads this
    {
      forall i, j :: 0 <= i < j < |containers| ==> containers[i] != containers[j]
    }

    ghost function Value(): PodSpec
      reads this, containers, labels
    {
      PodSpec(volumes, seq(|containers|, i requires 0 <= i < |containers| reads this, containers => containers[i].Value()),
              if labels == null then None else Some(labels.entries))
    }

    /** The Kubernetes deep copy: equal, and new in every part. */
    method DeepCopy() returns (copy: PodTemplate)
      requires Valid()
      ensures fresh(copy) && fresh(copy.containers) && (copy.labels != null ==> fresh(copy.labels))
      ensures copy.Valid() && copy.Value() == Value()
    {
      var cs: seq<Container> := [];
      for i := 0 to |containers|
        invariant |cs| == i
        invariant forall k :: 0 <= k < i ==> fresh(cs[k]) && cs[k].Value() == containers[k].Value()
        invariant forall j, k :: 0 <= j < k < i ==> cs[j] != cs[k]
      {
        var c := new Container(containers[i].name, containers[i].mounts, containers[i].rest);
        cs := cs + [c];
      }
      var ls: LabelMap? := null;
      if labels != null {
        ls := new LabelMap(labels.entries);
      }
      copy := new PodTemplate(volumes, cs, ls);
    }

    /** The loop of Create: appends to the volumes, to each container's mounts in place, and
        to the mounts of the container to come. */
    method MountOutputs(e: Setting) returns (persistMounts: seq<Mount>)
      requires Valid()
      modifies `volumes, containers
      ensures volumes == old(volumes) + [e.account] + OutputVolumes(e, ContainerNames())
      ensures forall i :: 0 <= i < |containers| ==>
                containers[i].mounts == old(containers[i].mounts) + [OwnMount(e, containers[i].name)]
      ensures persistMounts == [e.accountMount] + PersistMounts(e, ContainerNames())
    {
      ghost var names := ContainerNames();
      volumes := volumes + [e.account];
      persistMounts := [e.accountMount];
      for i := 0 to |containers|
        invariant volumes == old(volumes) + [e.account] + OutputVolumes(e, names)[..i]
        invariant persistMounts == [e.accountMount] + PersistMounts(e, names)[..i]
        invariant forall k :: 0 <= k < i ==>
                    containers[k].mounts == old(containers[k].mounts) + [OwnMount(e, containers[k].name)]
        invariant forall k :: i <= k < |containers| ==> containers[k].mounts == old(containers[k].mounts)
      {
        var c := containers[i];
        PrefixGrows(OutputVolumes(e, names), i);
        PrefixGrows(PersistMounts(e, names), i);
        volumes := volumes + [Volume(VolumeName(e, c.name), EmptyDir)];
        var m := OwnMount(e, c.name);
        c.mounts := c.mounts + [m];
        persistMounts := persistMounts + [m.(path := Paths.Join(MOUNT_PATH, c.name))];
      }
    }

    ghost function ContainerNames(): (names: seq<string>)
      reads this
      ensures |names| == |containers| && forall i :: 0 <= i < |names| ==> names[i] == containers[i].name
    {
      seq(|containers|, i requires 0 <= i < |containers| reads this => containers[i].name)
    }

    method AddContainer(c: Container)
      requires Valid() && c !in containers
      modifies `containers
      ensures Valid() && containers == old(containers) + [c]
    {
      containers := containers + [c];
    }

    method SetLabel(key: string, value: string)
      modifies `labels, labels
      ensures labels != null && (labels == old(labels) || fresh(labels))
      ensures labels.entries == (if old(labels) == null then map[] else old(labels.entries))[key := value]
    {
      if labels == null {
        labels := new LabelMap(map[]);
      }
      labels.entries := labels.entries[key := value];
    }

    method Assemble(e: Setting, jobName: string)
      requires Valid()
      modifies this, containers, labels
      ensures Valid() && IsAssembled(e, jobName, old(ContainerNames()), old(Value()), Value())
      ensures |containers| == |old(containers)| + 1 && containers[..|old(containers)|] == old(containers)
      ensures fresh(containers[|old(containers)|]) && labels != null && (labels == old(labels) || fresh(labels))
    {
      ghost var p, names, originals := Value(), ContainerNames(), containers;
      var mounts := MountOutputs(e);
      var persist := new Container(PERSIST, mounts, "persist-output");
      AddContainer(persist);
      SetLabel(LABEL_QJOB_NAME, jobName);
      ghost var r := Value();
      forall i | 0 <= i < |originals|
        ensures r.containers[i] == p.containers[i].(mounts := p.containers[i].mounts + [OwnMount(e, names[i])])
      {
        assert containers[i] == originals[i];
      }
    }

    /** The in-place edits of Create, on whatever template they are made. */
    method Rewrite(e: Setting, jobName: string)
      requires Valid()
      modifies this, containers, labels
      ensures Valid() && IsRewritten(e, jobName, old(Value()), Value())
      ensures |containers| == |old(containers)| + 1 && containers[..|old(containers)|] == old(containers)
      ensures fresh(containers[|old(containers)|]) && labels != null && (labels == old(labels) || fresh(labels))
    {
      ghost var p, names := Value(), ContainerNames();
      Assemble(e, jobName);
      AssembledIsRewritten(e, jobName, names, p, Value());
    }

    /** The versioned secret store's SetSecretReferences: new secret names, nothing else. */
    method SetSecretReferences(latest: string -> string)
      modifies `volumes
      ensures volumes == RenameSecrets(latest, old(volumes))
      ensures |volumes| == |old(volumes)| && forall i :: 0 <= i < |volumes| ==> IsRenamed(latest, old(volumes)[i], volumes[i])
    {
      ghost var before := volumes;
      for i := 0 to |volumes|
        invariant |volumes| == |before|
        invariant forall k :: 0 <= k < i ==> volumes[k] == Rename(latest, before[k])
        invariant forall k :: i <= k < |before| ==> volumes[k] == before[k]
      {
        volumes := volumes[i := Rename(latest, volumes[i])];
      }
    }
  }

  /** Only a secret's name changes, to the latest version's. */
  predicate IsRenamed(latest: string -> string, v: Volume, r: Volume) {
    r.name == v.name &&
    match v.source
    case SecretSource(name) => r.source == SecretSource(latest(name))
    case _ => r.source == v.source
  }

  function Rename(latest: string -> string, v: Volume): Volume {
    if v.source.SecretSource? then v.(source := SecretSource(latest(v.source.secretName))) else v
  }

  ghost function RenameSecrets(latest: string -> string, vs: seq<Volume>): (r: seq<Volume>)
    ensures |r| == |vs| && forall i :: 0 <= i < |vs| ==> r[i] == Rename(latest, vs[i])
  {
    seq(|vs|, i requires 0 <= i < |vs| => Rename(latest, vs[i]))
  }

  // ----- creating the Job -----

  datatype Lookup = Present | Missing | Broken
  datatype Post = Posted | Exists | Rejected

  /** What the cluster answers while one Job is created. */
  datatype Cluster = Cluster(
    setting: Option<Setting>,
    latest: Option<string -> string>,
    configMap: string -> Lookup,
    secret: string -> Lookup,
    jobName: Option<string>,
    ownerSet: bool,
    post: Post)

  ghost predicate AllPresent(cl: Cluster, refs: ConfigNames) {
    (forall n :: n in refs.configMaps ==> cl.configMap(n) == Present) &&
    (forall n :: n in refs.secrets ==> cl.secret(n) == Present)
  }

  /** The first reference that cannot be read, ConfigMaps before Secrets, may be one that is
      answered with r; if several cannot be read, it depends on the order they are tried in. */
  ghost predicate FirstIs(cl: Cluster, refs: ConfigNames, r: Lookup) {
    (exists n :: n in refs.configMaps && cl.configMap(n) == r) ||
    ((forall n :: n in refs.configMaps ==> cl.configMap(n) == Present) && exists n :: n in refs.secrets && cl.secret(n) == r)
  }

  /** The first reference that cannot be read, in whatever order they are tried. */
  method FirstAbsent(lookup: string -> Lookup, names: set<string>) returns (r: Lookup)
    ensures r == Present <==> forall n :: n in names ==> lookup(n) == Present
    ensures r != Present ==> exists n :: n in names && lookup(n) == r
  {
    var rest := names;
    while rest != {}
      invariant rest <= names
      invariant forall n :: n in names - rest ==> lookup(n) == Present
    {
      var n :| n in rest;
      if lookup(n) != Present {
        return lookup(n);
      }
      rest := rest - {n};
    }
    return Present;
  }

  /** validateReferences: ConfigMaps first, then Secrets. */
  method ValidateReferences(cl: Cluster, refs: ConfigNames) returns (r: Lookup)
    ensures r == Present <==> AllPresent(cl, refs)
    ensures r != Present ==> FirstIs(cl, refs, r)
  {
    r := FirstAbsent(cl.configMap, refs.configMaps);
    if r == Present {
      r := FirstAbsent(cl.secret, refs.secrets);
    }
  }

  /** Some references are missing, and nothing else is wrong with any. */
  ghost predicate OnlyMissing(cl: Cluster, refs: ConfigNames) {
    !AllPresent(cl, refs) &&
    (forall n :: n in refs.configMaps ==> cl.configMap(n) != Broken) && (forall n :: n in refs.secrets ==> cl.secret(n) != Broken)
  }

  /** A Job can be created, or one is already running. */
  ghost predicate Succeeds(cl: Cluster, refs: ConfigNames) {
    cl.setting.Some? && cl.latest.Some? && AllPresent(cl, refs) && cl.jobName.Some? && cl.ownerSet && cl.post != Rejected
  }

  /** The tail of Create, from the reference check on. */
  method Submit(cl: Cluster, refs: ConfigNames) returns (retry: bool, err: bool, posted: bool)
    ensures !retry && !err <==> AllPresent(cl, refs) && cl.jobName.Some? && cl.ownerSet && cl.post != Rejected
    ensures !AllPresent(cl, refs) ==>
              (retry && !err && FirstIs(cl, refs, Missing)) || (!retry && err && FirstIs(cl, refs, Broken))
    ensures AllPresent(cl, refs) && (cl.jobName.None? || !cl.ownerSet) ==> !retry && err
    ensures retry && err <==> AllPresent(cl, refs) && cl.jobName.Some? && cl.ownerSet && cl.post == Rejected
    ensures posted <==> !retry && !err && cl.post == Posted
  {
    var found := ValidateReferences(cl, refs);
    if found == Missing {
      return true, false, false;
    }
    if found == Broken || cl.jobName.None? || !cl.ownerSet {
      return false, true, false;
    }
    if cl.post == Exists {
      return false, false, false;
    }
    if cl.post == Rejected {
      return true, true, false;
    }
    return false, false, true;
  }

  /** The head of Create: the template is copied before it is edited. */
  method RewrittenCopy(qJobName: string, template: PodTemplate, e: Setting) returns (copy: PodTemplate)
    requires template.Valid()
    ensures fresh(copy) && fresh(copy.containers) && (copy.labels != null ==> fresh(copy.labels)) && copy.Valid()
    ensures IsRewritten(e, qJobName, template.Value(), copy.Value())
    ensures template.Valid() && template.Value() == old(template.Value())
  {
    copy := template.DeepCopy();
    copy.Rewrite(e, qJobName);
  }

  /** Create.  It modifies nothing that existed before: every in-place edit lands in the deep
      copy, so the caller's QuarksJob, which shares the template, is written back later with
      the template it was read with. */
  method Create(qJobName: string, refs: ConfigNames, template: PodTemplate, cl: Cluster)
    returns (retry: bool, err: bool, job: PodTemplate?)
    requires template.Valid()
    ensures template.Valid() && template.Value() == old(template.Value())
    ensures !retry && !err <==> Succeeds(cl, refs)
    ensures (cl.setting.None? || cl.latest.None?) ==> !retry && err
    ensures cl.setting.Some? && cl.latest.Some? && !AllPresent(cl, refs) ==>
              (retry && !err && FirstIs(cl, refs, Missing)) || (!retry && err && FirstIs(cl, refs, Broken))
    ensures cl.setting.Some? && cl.latest.Some? && AllPresent(cl, refs) && (cl.jobName.None? || !cl.ownerSet) ==> !retry && err
    ensures cl.setting.Some? && cl.latest.Some? ==>
              (retry && err <==> AllPresent(cl, refs) && cl.jobName.Some? && cl.ownerSet && cl.post == Rejected)
    ensures cl.setting.Some? && cl.latest.Some? && OnlyMissing(cl, refs) ==> retry && !err
    ensures job != null <==> Succeeds(cl, refs) && cl.post == Posted
    ensures job != null ==>
              fresh(job) && fresh(job.containers) && (job.labels != null ==> fresh(job.labels)) && job.Valid() &&
              exists r: PodSpec :: IsRewritten(cl.setting.value, qJobName, template.Value(), r) &&
                                   job.Value() == r.(volumes := job.volumes) && |job.volumes| == |r.volumes| &&
                                   forall i :: 0 <= i < |r.volumes| ==> IsRenamed(cl.latest.value, r.volumes[i], job.volumes[i])
  {
    if cl.setting.None? {
      return false, true, null;
    }
    var copy := RewrittenCopy(qJobName, template, cl.setting.value);
    ghost var r := copy.Value();
    if cl.latest.None? {
      return false, true, null;
    }
    copy.SetSecretReferences(cl.latest.value);
    assert copy.Value() == r.(volumes := RenameSecrets(cl.latest.value, r.volumes));
    var posted;
    retry, err, posted := Submit(cl, refs);
    job := if posted then copy else null;
  }
}
