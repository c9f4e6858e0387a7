/** Which changes of a QuarksJob enqueue an errand: errand_controller.go. */
module ErrandController {
  import opened Types

  /** What the versioned secret store reads off a secret's name.  A name that carries no
      version has `ok == false` and some version number below every real one. */
  datatype Version = Version(number: int, ok: bool)
  datatype Naming = Naming(base: string -> string, version: string -> Version)

  /** Some versioned new secret is older than an old secret whose name merely starts with
      the new secret's base name. */
  ghost predicate Downgrades(n: Naming, olds: set<string>, news: set<string>) {
    exists a, b :: a in news && b in olds && Older(n, a, b)
  }

  predicate Older(n: Naming, a: string, b: string) {
    n.version(a).ok && n.base(a) <= b && n.version(a).number < n.version(b).number
  }

  /** The decision as a statement about sets of names. */
  ghost predicate ConfigsChanged(n: Naming, prev: ConfigNames, next: ConfigNames) {
    prev != next && !Downgrades(n, prev.secrets, next.secrets)
  }

  /** isLowerVersion: a search loop over an unordered set, with early return. */
  method IsLowerVersion(n: Naming, oldSecrets: set<string>, prefix: string, newVersion: int)
    returns (lower: bool)
    ensures lower <==> exists b :: b in oldSecrets && prefix <= b && newVersion < n.version(b).number
  {
    var rest := oldSecrets;
    while rest != {}
      invariant rest <= oldSecrets
      invariant forall b :: b in oldSecrets - rest && prefix <= b ==> newVersion >= n.version(b).number
    {
      var b :| b in rest;
      if prefix <= b && newVersion < n.version(b).number {
        return true;
      }
      rest := rest - {b};
    }
    return false;
  }

  /** hasConfigsChanged: whatever order Go ranges over the maps in, the answer is the set
      statement above. */
  method HasConfigsChanged(n: Naming, prev: ConfigNames, next: ConfigNames) returns (changed: bool)
    ensures changed <==> ConfigsChanged(n, prev, next)
  {
    if prev.configMaps == next.configMaps && prev.secrets == next.secrets {
      return false;
    }
    var rest := next.secrets;
    while rest != {}
      invariant rest <= next.secrets
      invariant forall a, b :: a in next.secrets - rest && b in prev.secrets ==> !Older(n, a, b)
    {
      var a :| a in rest;
      rest := rest - {a};
      if !n.version(a).ok {
        continue;
      }
      var lower := IsLowerVersion(n, prev.secrets, n.base(a), n.version(a).number);
      if lower {
        assert exists b :: b in prev.secrets && Older(n, a, b);
        return false;
      }
    }
    return true;
  }

  // ----- what the prefix test means -----

  /** The comparison one would expect: versions of the same secret. */
  predicate OlderSameBase(n: Naming, a: string, b: string) {
    n.version(a).ok && n.version(b).ok && n.base(a) == n.base(b) &&
    n.version(a).number < n.version(b).number
  }

  ghost predicate ConfigsChangedExactly(n: Naming, prev: ConfigNames, next: ConfigNames) {
    prev != next &&
    !exists a, b :: a in next.secrets && b in prev.secrets && OlderSameBase(n, a, b)
  }

  /** The naming contract of the versioned secret store, on the given names. */
  ghost predicate NamingContract(n: Naming, names: set<string>) {
    forall s :: s in names ==>
      n.base(s) <= s && (if n.version(s).ok then n.version(s).number >= 0 else n.version(s).number <= 0)
  }

  /** No base name of a versioned secret starts with that of another. */
  ghost predicate PrefixFree(n: Naming, names: set<string>) {
    forall a, b :: a in names && b in names && n.version(a).ok && n.version(b).ok && n.base(a) <= n.base(b) ==>
      n.base(a) == n.base(b)
  }

  /** No versioned name is older than a name that its base name is a prefix of, unless that
      is a version of the same secret. */
  ghost predicate NoCollision(n: Naming, names: set<string>) {
    forall a, b :: a in names && b in names && Older(n, a, b) ==> n.base(a) == n.base(b)
  }

  ghost predicate DecisionsAgree(n: Naming, prev: ConfigNames, next: ConfigNames) {
    ConfigsChanged(n, prev, next) <==> ConfigsChangedExactly(n, prev, next)
  }

  /** The prefix test compares versions of the same secret, for all changes among the names in
      use, if and only if no two of these names collide. */
  lemma PrefixTestIsExactIff(n: Naming, names: set<string>)
    requires NamingContract(n, names)
    ensures NoCollision(n, names) <==>
            (forall prev: ConfigNames, next: ConfigNames ::
               prev.secrets <= names && next.secrets <= names ==> DecisionsAgree(n, prev, next))
  {
    if NoCollision(n, names) {
      forall prev: ConfigNames, next: ConfigNames | prev.secrets <= names && next.secrets <= names
        ensures DecisionsAgree(n, prev, next)
      {
        OlderMeansSameBase(n, names);
      }
    } else {
      var a, b :| a in names && b in names && Older(n, a, b) && n.base(a) != n.base(b);
      CollisionDisagrees(n, a, b);
      assert {a} <= names && {b} <= names;
    }
  }

  lemma OlderMeansSameBase(n: Naming, names: set<string>)
    requires NamingContract(n, names) && NoCollision(n, names)
    ensures forall a, b :: a in names && b in names ==> (Older(n, a, b) <==> OlderSameBase(n, a, b))
  {
    forall a, b | a in names && b in names ensures Older(n, a, b) <==> OlderSameBase(n, a, b) {
      assert n.base(b) <= b;
    }
  }

  /** Replacing b by a is dropped, although a is no older version of b. */
  lemma CollisionDisagrees(n: Naming, a: string, b: string)
    requires Older(n, a, b) && n.base(a) != n.base(b)
    ensures !DecisionsAgree(n, ConfigNames({}, {b}), ConfigNames({}, {a}))
  {
    var prev, next := ConfigNames({}, {b}), ConfigNames({}, {a});
    assert a in next.secrets && b in prev.secrets;
    assert prev != next by { assert a !in prev.secrets; }
  }

  /** Prefix-free base names never collide. */
  lemma PrefixTestIsExact(n: Naming, prev: ConfigNames, next: ConfigNames)
    requires NamingContract(n, prev.secrets + next.secrets)
    requires PrefixFree(n, prev.secrets + next.secrets)
    ensures ConfigsChanged(n, prev, next) <==> ConfigsChangedExactly(n, prev, next)
  {
  }

  /** Without prefix-free base names a genuine change is dropped: adding "nats-v1" next to
      "nats-tls-v2" is read as a downgrade of the latter, because "nats" is a prefix of its
      name. */
  lemma PrefixCollisionDropsAChange()
    ensures exists n: Naming, prev: ConfigNames, next: ConfigNames ::
              NamingContract(n, prev.secrets + next.secrets) &&
              ConfigsChangedExactly(n, prev, next) && !ConfigsChanged(n, prev, next)
  {
    var n := Naming(
      s => if s == "nats-v1" then "nats" else if s == "nats-tls-v2" then "nats-tls" else s,
      s => if s == "nats-v1" then Version(1, true) else if s == "nats-tls-v2" then Version(2, true) else Version(-1, false));
    var prev := ConfigNames({}, {"nats-tls-v2"});
    var next := ConfigNames({}, {"nats-tls-v2", "nats-v1"});
    var a, b := "nats-v1", "nats-tls-v2";
    assert a != b by { assert a[5] != b[5]; }
    assert "nats" != "nats-tls" by { assert |"nats"| != |"nats-tls"|; }
    assert n.base(a) == "nats" && n.base(b) == "nats-tls";
    assert Older(n, a, b);
    assert prev.secrets + next.secrets == {a, b};
    assert NamingContract(n, prev.secrets + next.secrets);
    assert prev != next by { assert a in next.secrets && a !in prev.secrets; }
    assert ConfigsChangedExactly(n, prev, next);
  }

  // ----- the watch predicates -----

  /** CreateFunc (errand_controller.go:50-63). */
  predicate CreatePasses(q: QuarksJob) {
    q.spec.strategy == Now || q.spec.strategy == Once
  }

  /** UpdateFunc (errand_controller.go:70-90). */
  ghost predicate UpdatePasses(n: Naming, prev: QuarksJob, next: QuarksJob) {
    (next.spec.strategy == Now && prev.spec.strategy == Manual) ||
    (next.IsAutoErrand() && next.spec.updateOnConfigChange && ConfigsChanged(n, prev.spec.config, next.spec.config))
  }

  /** The event the informer derives from two consecutive cached states of the object;
      deletions are filtered out. */
  ghost predicate EventPasses(n: Naming, prev: Option<QuarksJob>, next: Option<QuarksJob>) {
    match (prev, next)
    case (None, Some(q)) => CreatePasses(q)
    case (Some(p), Some(q)) => UpdatePasses(n, p, q)
    case (_, None) => false
  }
}
