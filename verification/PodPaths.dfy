/** The rewritten pod: well formed, and the creator of the mounts and the reader of the files
    mean the same files. */
module PodPaths {
  import opened Types
  import opened Paths
  import opened JobCreator

  // ----- well-formedness -----

  ghost predicate Named(vs: seq<Volume>, name: string) {
    exists k :: 0 <= k < |vs| && vs[k].name == name
  }

  ghost predicate MountsNameVolumes(p: PodSpec) {
    forall i, j :: 0 <= i < |p.containers| && 0 <= j < |p.containers[i].mounts| ==>
      Named(p.volumes, p.containers[i].mounts[j].name)
  }

  /** Every mount of the rewritten pod names a volume of the pod, if that held before. */
  lemma RewriteKeepsMountsNamed(e: Setting, jobName: string, p: PodSpec, r: PodSpec)
    requires IsRewritten(e, jobName, p, r) && MountsNameVolumes(p) && e.accountMount.name == e.account.name
    ensures MountsNameVolumes(r)
  {
    var n, v := |p.containers|, |p.volumes|;
    forall i, j | 0 <= i < |r.containers| && 0 <= j < |r.containers[i].mounts|
      ensures Named(r.volumes, r.containers[i].mounts[j].name)
    {
      if i < n {
        if j < |p.containers[i].mounts| {
          assert Named(p.volumes, p.containers[i].mounts[j].name);
          var k :| 0 <= k < v && p.volumes[k].name == p.containers[i].mounts[j].name;
          assert r.volumes[k] == r.volumes[..v][k];
        } else {
          assert r.volumes[v + 1 + i].name == r.containers[i].mounts[j].name;
        }
      } else if j == 0 {
        assert r.volumes[v].name == r.containers[n].mounts[0].name;
      } else {
        assert r.containers[n].mounts[1 + (j - 1)] == PersistMount(e, p.containers[j - 1].name);
        assert r.volumes[v + 1 + (j - 1)].name == r.containers[n].mounts[j].name;
      }
    }
  }

  lemma RenamingKeepsMountsNamed(latest: string -> string, p: PodSpec)
    requires MountsNameVolumes(p)
    ensures MountsNameVolumes(p.(volumes := RenameSecrets(latest, p.volumes)))
  {
  }

  ghost predicate UniqueNames(names: seq<string>) {
    forall i, j :: 0 <= i < j < |names| ==> names[i] != names[j]
  }

  function VolumeNames(vs: seq<Volume>): seq<string> {
    seq(|vs|, i requires 0 <= i < |vs| => vs[i].name)
  }

  function ContainerNames(cs: seq<ContainerSpec>): seq<string> {
    seq(|cs|, i requires 0 <= i < |cs| => cs[i].name)
  }

  ghost predicate SanitizeSeparates(e: Setting, p: PodSpec) {
    forall i, j :: 0 <= i < j < |p.containers| ==>
      VolumeName(e, p.containers[i].name) != VolumeName(e, p.containers[j].name)
  }

  ghost predicate NewNamesAreNew(e: Setting, p: PodSpec) {
    !Named(p.volumes, e.account.name) &&
    forall i :: 0 <= i < |p.containers| ==>
      !Named(p.volumes, VolumeName(e, p.containers[i].name)) && VolumeName(e, p.containers[i].name) != e.account.name
  }

  /** Volume names stay unique exactly when the new names are new and `Sanitize` keeps the
      containers apart. */
  lemma VolumesStayUnique(e: Setting, jobName: string, p: PodSpec, r: PodSpec)
    requires IsRewritten(e, jobName, p, r) && UniqueNames(VolumeNames(p.volumes))
    ensures UniqueNames(VolumeNames(r.volumes)) <==> SanitizeSeparates(e, p) && NewNamesAreNew(e, p)
  {
    var n, v := |p.containers|, |p.volumes|;
    assert forall k :: 0 <= k < v ==> r.volumes[k] == r.volumes[..v][k] == p.volumes[k];
    var names := VolumeNames(r.volumes);
    assert forall i :: 0 <= i < n ==> names[v + 1 + i] == VolumeName(e, p.containers[i].name);
    assert names[v] == e.account.name;
    if SanitizeSeparates(e, p) && NewNamesAreNew(e, p) {
      forall i, j | 0 <= i < j < |names| ensures names[i] != names[j] {
        if j < v {
          assert VolumeNames(p.volumes)[i] != VolumeNames(p.volumes)[j];
        } else if i < v {
          assert Named(p.volumes, names[i]);
          assert j > v ==> names[j] == VolumeName(e, p.containers[j - v - 1].name);
        } else if i == v {
          assert names[j] == VolumeName(e, p.containers[j - v - 1].name);
        } else {
          assert names[i] == VolumeName(e, p.containers[i - v - 1].name);
          assert names[j] == VolumeName(e, p.containers[j - v - 1].name);
        }
      }
    }
    if UniqueNames(names) {
      forall i, j | 0 <= i < j < n ensures VolumeName(e, p.containers[i].name) != VolumeName(e, p.containers[j].name) {
        assert names[v + 1 + i] != names[v + 1 + j];
      }
      forall k | 0 <= k < v ensures p.volumes[k].name != e.account.name {
        assert names[k] != names[v];
      }
      forall i | 0 <= i < n
        ensures !Named(p.volumes, VolumeName(e, p.containers[i].name)) && VolumeName(e, p.containers[i].name) != e.account.name
      {
        assert names[v] != names[v + 1 + i];
        forall k | 0 <= k < v ensures p.volumes[k].name != VolumeName(e, p.containers[i].name) {
          assert names[k] != names[v + 1 + i];
        }
      }
    }
  }

  // ----- which file a path means inside a container -----

  /** A file: the volume's name and the path below the volume's root. */
  datatype Location = Location(volume: string, below: seq<string>)

  predicate Covers(m: Mount, path: seq<string>) {
    Resolve(m.path) <= path
  }

  /** The deepest mount on the way decides. */
  ghost predicate Decides(mounts: seq<Mount>, i: nat, path: seq<string>) {
    i < |mounts| && Covers(mounts[i], path) &&
    forall j :: 0 <= j < |mounts| && j != i && Covers(mounts[j], path) ==>
      |Resolve(mounts[j].path)| < |Resolve(mounts[i].path)|
  }

  ghost predicate MeansFile(mounts: seq<Mount>, path: seq<string>, loc: Location) {
    exists i: nat :: Decides(mounts, i, path) && loc == Location(mounts[i].name, path[|Resolve(mounts[i].path)|..])
  }

  /** A path means one file at most. */
  lemma FilesAreUnique(mounts: seq<Mount>, path: seq<string>, a: Location, b: Location)
    requires MeansFile(mounts, path, a) && MeansFile(mounts, path, b)
    ensures a == b
  {
  }

  const QUARKS := ["mnt", "quarks"]

  /** The two constants as text. */
  lemma Literals()
    ensures PREFIX == "/mnt/quarks" && MOUNT_PATH == "/mnt/quarks/"
  {
    assert QUARKS[..1] == ["mnt"];
    assert Unparse(["mnt"]) == "/mnt";
    assert Unparse(QUARKS) == "/mnt" + "/" + "quarks";
  }

  lemma KnownPaths()
    ensures Resolve(PREFIX) == QUARKS && Resolve(MOUNT_PATH) == QUARKS
  {
    ResolveUnparse(QUARKS);
    TrailingSlash(PREFIX);
  }

  lemma TrailingSlash(base: string)
    ensures Resolve(base + "/") == Resolve(base)
  {
    assert base + "/" + "" == base + "/";
    AppendWalks(base, "");
  }

  lemma AccountPath()
    ensures Resolve(ACCOUNT_PATH) == ["var", "run", "secrets", "kubernetes.io", "serviceaccount"]
  {
    ResolveUnparse(["var", "run", "secrets", "kubernetes.io", "serviceaccount"]);
  }

  /** Where the persistor looks for file f of a container (output_persistor.go:114, :129). */
  function ReadPath(container: string, f: string): string {
    Join(Join(PREFIX, container), f)
  }

  /** Where the container writes it. */
  function WritePath(f: string): string {
    MOUNT_PATH + f
  }

  /** Both paths as directory elements, for every file name. */
  lemma WrittenPath(f: string)
    ensures Resolve(WritePath(f)) == Up(QUARKS, Climbs(f)) + Descends(f)
    ensures Climbs(f) == 0 ==> Resolve(WritePath(f)) == QUARKS + Walk([], Split(f))
  {
    KnownPaths();
    assert WritePath(f) == PREFIX + "/" + f;
    AppendWalks(PREFIX, f);
    RelativeWalk(QUARKS, f);
  }

  lemma MountedPath(container: string)
    requires Plain(container)
    ensures Resolve(Join(MOUNT_PATH, container)) == QUARKS + [container]
    ensures Resolve(Join(PREFIX, container)) == QUARKS + [container]
  {
    KnownPaths();
    SplitPlain(container);
    JoinWalks(MOUNT_PATH, container);
    JoinWalks(PREFIX, container);
  }

  lemma ReadPathResolves(container: string, f: string)
    requires Plain(container)
    ensures Resolve(ReadPath(container, f)) == Up(QUARKS + [container], Climbs(f)) + Descends(f)
    ensures Climbs(f) == 0 ==> Resolve(ReadPath(container, f)) == QUARKS + [container] + Walk([], Split(f))
  {
    MountedPath(container);
    JoinWalks(Join(PREFIX, container), f);
    RelativeWalk(QUARKS + [container], f);
  }

  /** One of the container's own mounts lies on the way from /mnt/quarks to the path. */
  ghost predicate Shadowed(c: ContainerSpec, path: seq<string>) {
    exists j :: 0 <= j < |c.mounts| && QUARKS <= Resolve(c.mounts[j].path) <= path
  }

  /** What the paths need of the pod: the service account is mounted where service_account.go
      says, and container names are distinct path elements. */
  ghost predicate Ordinary(e: Setting, p: PodSpec) {
    e.accountMount.path == ACCOUNT_PATH && UniqueNames(ContainerNames(p.containers)) &&
    forall k :: 0 <= k < |p.containers| ==> Plain(p.containers[k].name)
  }

  /** Path agreement.  The file container i writes at /mnt/quarks/f and the file the persistor
      reads for it are the same file of the volume made for the container. */
  lemma PathsAgree(e: Setting, jobName: string, p: PodSpec, r: PodSpec, i: nat, f: string)
    requires IsRewritten(e, jobName, p, r) && i < |p.containers| && Ordinary(e, p)
    requires Stays(0, Split(f)) && !Shadowed(p.containers[i], Resolve(WritePath(f)))
    ensures var file := Location(VolumeName(e, p.containers[i].name), Walk([], Split(f)));
            MeansFile(r.containers[i].mounts, Resolve(WritePath(f)), file) &&
            MeansFile(r.containers[|p.containers|].mounts, Resolve(ReadPath(p.containers[i].name, f)), file)
  {
    var below := Walk([], Split(f));
    RelativeWalk(QUARKS, f);
    WrittenPath(f);
    ReadPathResolves(p.containers[i].name, f);
    WriteSide(e, p.containers[i], r.containers[i].mounts, below);
    ReadSide(e, jobName, p, r, i, below);
  }

  /** The writer's side: below /mnt/quarks what is not shadowed is the container's own output
      volume. */
  lemma WriteSide(e: Setting, c: ContainerSpec, mounts: seq<Mount>, below: seq<string>)
    requires mounts == c.mounts + [OwnMount(e, c.name)] && !Shadowed(c, QUARKS + below)
    ensures MeansFile(mounts, QUARKS + below, Location(VolumeName(e, c.name), below))
  {
    KnownPaths();
    var path, last := QUARKS + below, |c.mounts|;
    forall j | 0 <= j < |mounts| && j != last && Covers(mounts[j], path)
      ensures |Resolve(mounts[j].path)| < 2
    {
      assert mounts[j] == c.mounts[j];
      ShorterOrBelow(Resolve(mounts[j].path), below);
    }
    assert mounts[last] == OwnMount(e, c.name);
    assert Decides(mounts, last, path);
    assert path[2..] == below;
  }

  lemma ShorterOrBelow(m: seq<string>, below: seq<string>)
    requires m <= QUARKS + below
    ensures |m| < 2 || QUARKS <= m
  {
    assert m == (QUARKS + below)[..|m|];
  }

  /** The reader's side: below /mnt/quarks/<container> everything is that container's volume. */
  lemma ReadSide(e: Setting, jobName: string, p: PodSpec, r: PodSpec, i: nat, below: seq<string>)
    requires IsRewritten(e, jobName, p, r) && i < |p.containers| && Ordinary(e, p)
    ensures MeansFile(r.containers[|p.containers|].mounts, QUARKS + [p.containers[i].name] + below,
                      Location(VolumeName(e, p.containers[i].name), below))
  {
    var mounts, name := r.containers[|p.containers|].mounts, p.containers[i].name;
    var path := QUARKS + [name] + below;
    MountedPath(name);
    forall j | 0 <= j < |mounts| && j != 1 + i ensures !Covers(mounts[j], path) {
      OnlyOneCovers(e, jobName, p, r, i, j, below);
    }
    assert mounts[1 + i] == PersistMount(e, name);
    assert Decides(mounts, 1 + i, path);
    assert path[3..] == below;
  }

  lemma OnlyOneCovers(e: Setting, jobName: string, p: PodSpec, r: PodSpec, i: nat, j: nat, below: seq<string>)
    requires IsRewritten(e, jobName, p, r) && i < |p.containers| && Ordinary(e, p)
    requires j < |r.containers[|p.containers|].mounts| && j != 1 + i
    ensures !Covers(r.containers[|p.containers|].mounts[j], QUARKS + [p.containers[i].name] + below)
  {
    var m := r.containers[|p.containers|].mounts[j];
    if j == 0 {
      AccountIsElsewhere(m, p.containers[i].name, below);
    } else {
      assert m == r.containers[|p.containers|].mounts[1 + (j - 1)] == PersistMount(e, p.containers[j - 1].name);
      assert ContainerNames(p.containers)[j - 1] != ContainerNames(p.containers)[i];
      OtherMountIsElsewhere(e, p.containers[j - 1].name, p.containers[i].name, below);
    }
  }

  lemma AccountIsElsewhere(m: Mount, name: string, below: seq<string>)
    requires m.path == ACCOUNT_PATH
    ensures !Covers(m, QUARKS + [name] + below)
  {
    AccountPath();
    assert Resolve(m.path)[0] == "var";
    assert "var" != "mnt" by { assert "var"[0] != "mnt"[0]; }
  }

  lemma OtherMountIsElsewhere(e: Setting, other: string, name: string, below: seq<string>)
    requires Plain(other) && other != name
    ensures !Covers(PersistMount(e, other), QUARKS + [name] + below)
  {
    MountedPath(other);
    assert Resolve(PersistMount(e, other).path)[2] == other;
  }

  /** Files of distinct containers never alias: whatever path container i writes to, and
      whatever file the persistor reads for container j, they lie in different volumes. */
  lemma FilesNeverAlias(e: Setting, jobName: string, p: PodSpec, r: PodSpec, i: nat, f: string, j: nat, g: string)
    requires IsRewritten(e, jobName, p, r) && i < |p.containers| && j < |p.containers| && i != j && Ordinary(e, p)
    requires MountsNameVolumes(p) && SanitizeSeparates(e, p) && NewNamesAreNew(e, p)
    requires Stays(0, Split(g))
    ensures forall a, b ::
              MeansFile(r.containers[i].mounts, Resolve(WritePath(f)), a) &&
              MeansFile(r.containers[|p.containers|].mounts, Resolve(ReadPath(p.containers[j].name, g)), b) ==>
              a.volume != b.volume
  {
    var name, below := p.containers[j].name, Walk([], Split(g));
    RelativeWalk(QUARKS, g);
    ReadPathResolves(name, g);
    ReadSide(e, jobName, p, r, j, below);
    forall a, b | MeansFile(r.containers[i].mounts, Resolve(WritePath(f)), a) &&
                  MeansFile(r.containers[|p.containers|].mounts, Resolve(ReadPath(name, g)), b)
      ensures a.volume != b.volume
    {
      FilesAreUnique(r.containers[|p.containers|].mounts, Resolve(ReadPath(name, g)), b, Location(VolumeName(e, name), below));
      var k := Decider(r.containers[i].mounts, Resolve(WritePath(f)), a);
      assert k < |p.containers[i].mounts| ==> Named(p.volumes, p.containers[i].mounts[k].name);
    }
  }

  // ----- when exactly they agree -----

  /** Writer and persistor mean one and the same file by f. */
  ghost predicate Agree(p: PodSpec, r: PodSpec, i: nat, f: string)
    requires i < |p.containers| < |r.containers| && i < |r.containers|
  {
    exists file ::
      MeansFile(r.containers[i].mounts, Resolve(WritePath(f)), file) &&
      MeansFile(r.containers[|p.containers|].mounts, Resolve(ReadPath(p.containers[i].name, f)), file)
  }

  /** The file name does not climb, or it leaves the directory of a container named quarks by
      one level and comes back. */
  predicate ComesBack(container: string, f: string) {
    Climbs(f) == 0 ||
    (container == "quarks" && Climbs(f) == 1 && Descends(f) != [] && Descends(f)[0] == "quarks")
  }

  /** For every file name: writer and reader agree if and only if the name comes back to the
      container's directory, and no mount of the container's own lies on the way. */
  lemma FilesAgreeIff(e: Setting, jobName: string, p: PodSpec, r: PodSpec, i: nat, f: string)
    requires IsRewritten(e, jobName, p, r) && i < |p.containers| && Ordinary(e, p)
    requires MountsNameVolumes(p) && SanitizeSeparates(e, p) && NewNamesAreNew(e, p)
    requires e.accountMount.name == e.account.name
    ensures Agree(p, r, i, f) <==>
            ComesBack(p.containers[i].name, f) && !Shadowed(p.containers[i], Resolve(WritePath(f)))
  {
    var name := p.containers[i].name;
    WrittenPath(f);
    ReadPathResolves(name, f);
    if ComesBack(name, f) && !Shadowed(p.containers[i], Resolve(WritePath(f))) {
      var below := if Climbs(f) == 0 then Descends(f) else Descends(f)[1..];
      ComingBackIsBelow(name, f, below);
      WriteSide(e, p.containers[i], r.containers[i].mounts, below);
      ReadSide(e, jobName, p, r, i, below);
    }
    if Agree(p, r, i, f) {
      var file :| MeansFile(r.containers[i].mounts, Resolve(WritePath(f)), file) &&
                  MeansFile(r.containers[|p.containers|].mounts, Resolve(ReadPath(name, f)), file);
      OneVolume(e, jobName, p, r, i, Resolve(WritePath(f)), Resolve(ReadPath(name, f)), file);
      BelowMeansComingBack(name, f, file.below);
    }
  }

  /** For a container of any other name the first condition is that f stays in its directory. */
  lemma FilesAgreeIffStaying(e: Setting, jobName: string, p: PodSpec, r: PodSpec, i: nat, f: string)
    requires IsRewritten(e, jobName, p, r) && i < |p.containers| && Ordinary(e, p)
    requires MountsNameVolumes(p) && SanitizeSeparates(e, p) && NewNamesAreNew(e, p)
    requires e.accountMount.name == e.account.name
    requires p.containers[i].name != "quarks"
    ensures Agree(p, r, i, f) <==> Stays(0, Split(f)) && !Shadowed(p.containers[i], Resolve(WritePath(f)))
  {
    FilesAgreeIff(e, jobName, p, r, i, f);
    RelativeWalk([], f);
  }

  lemma ComingBackIsBelow(name: string, f: string, below: seq<string>)
    requires ComesBack(name, f) && below == if Climbs(f) == 0 then Descends(f) else Descends(f)[1..]
    ensures Up(QUARKS, Climbs(f)) + Descends(f) == QUARKS + below
    ensures Up(QUARKS + [name], Climbs(f)) + Descends(f) == QUARKS + [name] + below
  {
    if Climbs(f) == 1 {
      assert Descends(f) == ["quarks"] + below;
      assert Up(QUARKS, 1) == ["mnt"] && Up(QUARKS + [name], 1) == QUARKS;
    }
  }

  lemma BelowMeansComingBack(name: string, f: string, below: seq<string>)
    requires Up(QUARKS, Climbs(f)) + Descends(f) == QUARKS + below
    requires Up(QUARKS + [name], Climbs(f)) + Descends(f) == QUARKS + [name] + below
    ensures ComesBack(name, f)
  {
    var k, rest := Climbs(f), Descends(f);
    var w := Up(QUARKS, k) + rest;
    if k == 1 {
      assert w[1] == "quarks" && rest[0] == w[1];
      assert (QUARKS + rest)[2] == name;
    } else if k == 2 {
      assert Up(QUARKS, 2) + rest == rest && Up(QUARKS + [name], 2) == ["mnt"];
      TwoLevelsUp(name, rest, below);
      assert false;
    } else if k > 2 {
      assert false;
    }
  }

  lemma TwoLevelsUp(name: string, rest: seq<string>, below: seq<string>)
    requires rest == QUARKS + below
    ensures ["mnt"] + rest != QUARKS + [name] + below
  {
    assert (["mnt"] + rest)[1] == "mnt" && (QUARKS + [name] + below)[1] == "quarks";
    assert "mnt"[0] != "quarks"[0];
  }

  /** A file that writer and persistor share lies in the container's output volume. */
  lemma OneVolume(e: Setting, jobName: string, p: PodSpec, r: PodSpec, i: nat,
                  written: seq<string>, read: seq<string>, file: Location)
    requires IsRewritten(e, jobName, p, r) && i < |p.containers| && Ordinary(e, p) && MountsNameVolumes(p)
    requires SanitizeSeparates(e, p) && NewNamesAreNew(e, p) && e.accountMount.name == e.account.name
    requires MeansFile(r.containers[i].mounts, written, file)
    requires MeansFile(r.containers[|p.containers|].mounts, read, file)
    ensures written == QUARKS + file.below && read == QUARKS + [p.containers[i].name] + file.below
    ensures !Shadowed(p.containers[i], written)
  {
    var own, persistor := r.containers[i].mounts, r.containers[|p.containers|].mounts;
    var a := Decider(own, written, file);
    var b := Decider(persistor, read, file);
    OnlyOwnVolume(e, jobName, p, r, i, a, b);
    KnownPaths();
    NoShadow(p.containers[i], own, a, written);
    MountedPath(p.containers[i].name);
  }

  /** The mount that decides, and the path put together again. */
  lemma Decider(mounts: seq<Mount>, path: seq<string>, file: Location) returns (i: nat)
    requires MeansFile(mounts, path, file)
    ensures Decides(mounts, i, path) && mounts[i].name == file.volume && path == Resolve(mounts[i].path) + file.below
  {
    i :| Decides(mounts, i, path) && file == Location(mounts[i].name, path[|Resolve(mounts[i].path)|..]);
  }

  lemma NoShadow(c: ContainerSpec, mounts: seq<Mount>, a: nat, path: seq<string>)
    requires a == |c.mounts| < |mounts| && mounts[..a] == c.mounts && |Resolve(mounts[a].path)| == 2
    requires Decides(mounts, a, path)
    ensures !Shadowed(c, path)
  {
    forall j | 0 <= j < |c.mounts| ensures !(QUARKS <= Resolve(c.mounts[j].path) <= path) {
      assert mounts[j] == mounts[..a][j] == c.mounts[j];
      assert Covers(mounts[j], path) ==> |Resolve(mounts[j].path)| < 2;
    }
  }

  /** Only the two mounts of that volume name the same volume on both sides. */
  lemma OnlyOwnVolume(e: Setting, jobName: string, p: PodSpec, r: PodSpec, i: nat, a: nat, b: nat)
    requires IsRewritten(e, jobName, p, r) && i < |p.containers| && MountsNameVolumes(p)
    requires SanitizeSeparates(e, p) && NewNamesAreNew(e, p) && e.accountMount.name == e.account.name
    requires a < |r.containers[i].mounts| && b < |r.containers[|p.containers|].mounts|
    requires r.containers[i].mounts[a].name == r.containers[|p.containers|].mounts[b].name
    ensures a == |p.containers[i].mounts| && r.containers[i].mounts[a] == OwnMount(e, p.containers[i].name)
    ensures r.containers[|p.containers|].mounts[b] == PersistMount(e, p.containers[i].name)
  {
    var name := p.containers[i].name;
    assert a < |p.containers[i].mounts| ==> Named(p.volumes, p.containers[i].mounts[a].name);
    PersistorMountsAreNew(e, jobName, p, r, b);
    assert r.containers[i].mounts[a] == OwnMount(e, name);
    assert b != 0 && b - 1 == i;
    assert r.containers[|p.containers|].mounts[1 + i] == PersistMount(e, name);
  }

  lemma PersistorMountsAreNew(e: Setting, jobName: string, p: PodSpec, r: PodSpec, b: nat)
    requires IsRewritten(e, jobName, p, r) && NewNamesAreNew(e, p) && e.accountMount.name == e.account.name
    requires b <= |p.containers|
    ensures var name := r.containers[|p.containers|].mounts[b].name;
            !Named(p.volumes, name) && name == if b == 0 then e.account.name else VolumeName(e, p.containers[b - 1].name)
  {
    if b > 0 {
      assert r.containers[|p.containers|].mounts[1 + (b - 1)] == PersistMount(e, p.containers[b - 1].name);
    }
  }

  /** "../d/x". */
  function Climbing(d: string, x: string): string {
    ".." + "/" + (d + "/" + x)
  }

  /** The failing input: for container i the persistor reads ../d/x as the file x of container
      j, which is named d.  Container i, unless it is named quarks and so is j, never means
      that file, nor any other the persistor reads for it; and even then not if a mount of its
      own is in the way. */
  lemma ClimbingDisagrees(e: Setting, jobName: string, p: PodSpec, r: PodSpec, i: nat, j: nat, x: string)
    requires IsRewritten(e, jobName, p, r) && i < |p.containers| && j < |p.containers| && Ordinary(e, p)
    requires MountsNameVolumes(p) && SanitizeSeparates(e, p) && NewNamesAreNew(e, p)
    requires e.accountMount.name == e.account.name
    requires Plain(x)
    ensures var c, d := p.containers[i].name, p.containers[j].name;
            MeansFile(r.containers[|p.containers|].mounts, Resolve(ReadPath(c, Climbing(d, x))), Location(VolumeName(e, d), [x])) &&
            (Agree(p, r, i, Climbing(d, x)) <==>
             c == "quarks" && d == "quarks" && !Shadowed(p.containers[i], QUARKS + [x]))
  {
    var c, d := p.containers[i].name, p.containers[j].name;
    ClimbingIsNormal(d, x);
    ReadPathResolves(c, Climbing(d, x));
    assert Up(QUARKS + [c], 1) + [d, x] == QUARKS + [d] + [x];
    ReadSide(e, jobName, p, r, j, [x]);
    FilesAgreeIff(e, jobName, p, r, i, Climbing(d, x));
    WrittenPath(Climbing(d, x));
    assert d == "quarks" ==> Up(QUARKS, 1) + [d, x] == QUARKS + [x];
  }

  /** Such a pod exists: two containers a and b without mounts of their own, and the name
      ../b/x mapped for a. */
  const CLUSTER := Setting(Volume("token", OtherSource("")), Mount("token", ACCOUNT_PATH, true), s => s)
  const TWO := PodSpec([], [ContainerSpec("a", [], ""), ContainerSpec("b", [], "")], None)

  function TwoRewritten(): PodSpec {
    PodSpec(
      [CLUSTER.account, Volume(VolumeName(CLUSTER, "a"), EmptyDir), Volume(VolumeName(CLUSTER, "b"), EmptyDir)],
      [ContainerSpec("a", [OwnMount(CLUSTER, "a")], ""), ContainerSpec("b", [OwnMount(CLUSTER, "b")], ""),
       ContainerSpec(PERSIST, [CLUSTER.accountMount, PersistMount(CLUSTER, "a"), PersistMount(CLUSTER, "b")], "")],
      Some(map[LABEL_QJOB_NAME := "job"]))
  }

  lemma TwoAreRewritten()
    ensures IsRewritten(CLUSTER, "job", TWO, TwoRewritten())
  {
  }

  lemma TwoAreOrdinary()
    ensures Ordinary(CLUSTER, TWO) && SanitizeSeparates(CLUSTER, TWO) && NewNamesAreNew(CLUSTER, TWO)
  {
    assert VolumeName(CLUSTER, "a")[7] == 'a' && VolumeName(CLUSTER, "b")[7] == 'b';
    assert VolumeName(CLUSTER, "a")[0] == VolumeName(CLUSTER, "b")[0] == 'o' && CLUSTER.account.name[0] == 't';
    assert "a"[0] != "b"[0];
  }

  lemma ClimbingInput()
    ensures MeansFile(TwoRewritten().containers[2].mounts, Resolve(ReadPath("a", Climbing("b", "x"))),
                      Location(VolumeName(CLUSTER, "b"), ["x"]))
    ensures !Agree(TWO, TwoRewritten(), 0, Climbing("b", "x"))
  {
    TwoAreRewritten();
    TwoAreOrdinary();
    assert "a" != "quarks" by { assert |"a"| != |"quarks"|; }
    ClimbingDisagrees(CLUSTER, "job", TWO, TwoRewritten(), 0, 1, "x");
  }

  // a mount of the container's own in the way

  const DATA := Mount("data", Unparse(QUARKS + ["sub"]), false)
  const SHADED := PodSpec([Volume("data", EmptyDir)], [ContainerSpec("a", [DATA], "")], None)

  function ShadedRewritten(): PodSpec {
    PodSpec(
      [Volume("data", EmptyDir), CLUSTER.account, Volume(VolumeName(CLUSTER, "a"), EmptyDir)],
      [ContainerSpec("a", [DATA, OwnMount(CLUSTER, "a")], ""),
       ContainerSpec(PERSIST, [CLUSTER.accountMount, PersistMount(CLUSTER, "a")], "")],
      Some(map[LABEL_QJOB_NAME := "job"]))
  }

  lemma ShadedIsRewritten()
    ensures IsRewritten(CLUSTER, "job", SHADED, ShadedRewritten())
  {
    assert ShadedRewritten().volumes[..1] == SHADED.volumes;
  }

  lemma ShadedIsOrdinary()
    ensures Ordinary(CLUSTER, SHADED) && MountsNameVolumes(SHADED) && NewNamesAreNew(CLUSTER, SHADED)
  {
    assert VolumeName(CLUSTER, "a")[0] == 'o' && CLUSTER.account.name[0] == 't';
    assert SHADED.volumes[0].name == "data" && "data"[0] == 'd';
  }

  /** The other failing input: container a has a volume of its own at /mnt/quarks/sub, and the
      name sub/x, which does not climb, is mapped for it. */
  lemma ShadowInput()
    ensures Stays(0, Split("sub" + "/" + "x")) && !Agree(SHADED, ShadedRewritten(), 0, "sub" + "/" + "x")
  {
    ShadedIsRewritten();
    ShadedIsOrdinary();
    WrittenBelow("sub", "x");
    ShadedIsShadowed(Resolve(WritePath("sub" + "/" + "x")), "x");
    FilesAgreeIff(CLUSTER, "job", SHADED, ShadedRewritten(), 0, "sub" + "/" + "x");
  }

  lemma ShadedIsShadowed(path: seq<string>, x: string)
    requires path == QUARKS + ["sub"] + [x]
    ensures Shadowed(SHADED.containers[0], path)
  {
    ResolveUnparse(QUARKS + ["sub"]);
    assert SHADED.containers[0].mounts[0] == DATA;
  }

  lemma WrittenBelow(d: string, x: string)
    requires Plain(d) && Plain(x)
    ensures Stays(0, Split(d + "/" + x)) && Resolve(WritePath(d + "/" + x)) == QUARKS + [d] + [x]
  {
    TwoPlain(d, x);
    RelativeWalk([], d + "/" + x);
    WrittenPath(d + "/" + x);
    assert QUARKS + [d, x] == QUARKS + [d] + [x];
  }

  lemma TwoPlain(d: string, x: string)
    requires Plain(d) && Plain(x)
    ensures Stays(0, Split(d + "/" + x)) && Walk([], Split(d + "/" + x)) == [d, x]
  {
    SplitPlain(d);
    SplitPlain(x);
    SplitConcat(d, x);
    assert Split(d + "/" + x) == [d, x];
    assert [d, x][1..] == [x] && [x][1..] == [] && [] + [d] == [d] && [d] + [x] == [d, x];
    assert Stays(0, [d, x]) <==> Stays(1, [x]);
    assert Walk([], [d, x]) == Walk([d], [x]) == Walk([d, x], []);
  }

  lemma ClimbingIsNormal(d: string, x: string)
    requires Plain(d) && Plain(x)
    ensures Climbs(Climbing(d, x)) == 1 && Descends(Climbing(d, x)) == [d, x]
  {
    SplitPlain(d);
    SplitPlain(x);
    SplitPlain("..");
    SplitConcat(d, x);
    SplitConcat("..", d + "/" + x);
    assert Split(Climbing(d, x)) == ["..", d, x];
    assert Normal(0, [], ["..", d, x]) == Normal(1, [], ["..", d, x][1..]);
    assert ["..", d, x][1..] == [d, x] && [d, x][1..] == [x] && [] + [d] == [d] && [d] + [x] == [d, x];
    assert Normal(1, [], [d, x]) == Normal(1, [d], [x]) == Normal(1, [d, x], [x][1..]) == (1, [d, x]);
  }
}
