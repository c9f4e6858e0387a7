/** Secrets as the persistor writes them: output_persistor.go:307-380. */
module Secrets {
  import opened Types

  datatype Secret = Secret(labels: map<string, string>, annotations: map<string, string>, data: map<string, string>)

  /** A plain secret is one object; a versioned one is every version ever created. */
  datatype Dest = Plain(name: string) | Versioned(name: string)
  type Store = map<Dest, seq<Secret>>
  datatype Upsert = Upsert(dest: Dest, secret: Secret)

  function Slot(st: Store, d: Dest): seq<Secret> {
    if d in st then st[d] else []
  }

  /** Create-or-update replaces; a versioned create appends, unless the latest version holds
      the same data. */
  function Filled(d: Dest, held: seq<Secret>, s: Secret): seq<Secret> {
    if d.Plain? then [s]
    else if held != [] && held[|held| - 1].data == s.data then held
    else held + [s]
  }

  function Put(st: Store, u: Upsert): Store {
    st[u.dest := Filled(u.dest, Slot(st, u.dest), u.secret)]
  }

  // ----- what a set of upserts leaves, whatever the order -----

  /** Upserts that share a destination carry the same secret. */
  ghost predicate Consistent(us: set<Upsert>) {
    forall u, v :: u in us && v in us && u.dest == v.dest ==> u == v
  }

  ghost predicate Targets(us: set<Upsert>, d: Dest) {
    exists u :: u in us && u.dest == d
  }

  ghost function SecretFor(us: set<Upsert>, d: Dest): Secret
    requires Targets(us, d)
  {
    var u :| u in us && u.dest == d;
    u.secret
  }

  /** The store after all of `us`: each destination is filled once from what it held, every
      other secret is as it was. */
  ghost function Persisted(st: Store, us: set<Upsert>): Store {
    map d | d in st.Keys + (set u | u in us :: u.dest) ::
      if Targets(us, d) then Filled(d, Slot(st, d), SecretFor(us, d)) else Slot(st, d)
  }

  lemma PersistedAt(st: Store, us: set<Upsert>, d: Dest)
    ensures d in Persisted(st, us) <==> d in st || Targets(us, d)
    ensures Slot(Persisted(st, us), d) == if Targets(us, d) then Filled(d, Slot(st, d), SecretFor(us, d)) else Slot(st, d)
  {
  }

  lemma PersistOneMore(st: Store, us: set<Upsert>, u: Upsert)
    requires Consistent(us + {u})
    ensures Put(Persisted(st, us), u) == Persisted(st, us + {u})
  {
    var a, b := Put(Persisted(st, us), u), Persisted(st, us + {u});
    forall d ensures (d in a <==> d in b) && (d in b ==> a[d] == b[d]) {
      OneDestination(st, us, u, d);
    }
  }

  lemma OneDestination(st: Store, us: set<Upsert>, u: Upsert, d: Dest)
    requires Consistent(us + {u})
    ensures d in Put(Persisted(st, us), u) <==> d in Persisted(st, us + {u})
    ensures d in Persisted(st, us + {u}) ==> Put(Persisted(st, us), u)[d] == Persisted(st, us + {u})[d]
  {
    PersistedAt(st, us, d);
    PersistedAt(st, us + {u}, d);
    assert u in us + {u};
    assert Targets(us + {u}, d) <==> d == u.dest || Targets(us, d);
    if Targets(us, d) {
      assert SecretFor(us, d) == SecretFor(us + {u}, d);
    }
  }

  /** What was stored before does no harm: some upserts first, others after them, come to the
      same as all of them at once, whatever the store held. */
  lemma PersistMore(st: Store, us: set<Upsert>, vs: set<Upsert>)
    requires Consistent(us + vs)
    ensures Persisted(Persisted(st, us), vs) == Persisted(st, us + vs)
  {
    var a, b := Persisted(Persisted(st, us), vs), Persisted(st, us + vs);
    forall d ensures (d in a <==> d in b) && Slot(a, d) == Slot(b, d) {
      MoreAtOne(st, us, vs, d);
    }
    forall d | d in b ensures a[d] == b[d] {
      assert Slot(a, d) == Slot(b, d);
    }
  }

  lemma MoreAtOne(st: Store, us: set<Upsert>, vs: set<Upsert>, d: Dest)
    requires Consistent(us + vs)
    ensures var a, b := Persisted(Persisted(st, us), vs), Persisted(st, us + vs); (d in a <==> d in b) && Slot(a, d) == Slot(b, d)
  {
    PersistedAt(st, us, d);
    PersistedAt(Persisted(st, us), vs, d);
    PersistedAt(st, us + vs, d);
    assert forall u :: u in us || u in vs ==> u in us + vs;
    assert Targets(us + vs, d) <==> Targets(us, d) || Targets(vs, d);
    if Targets(us, d) {
      assert SecretFor(us, d) == SecretFor(us + vs, d);
    }
    if Targets(vs, d) {
      assert SecretFor(vs, d) == SecretFor(us + vs, d);
    }
  }

  // ----- the API -----

  datatype Reply = Stored | AlreadyExists | Identical | Failed

  /** Any call may fail, and then does nothing but count as a fault. */
  class SecretClient {
    var store: Store
    ghost var faults: nat

    constructor (store: Store)
      ensures this.store == store && faults == 0
    {
      this.store, faults := store, 0;
    }

    method CreatePlain(name: string, s: Secret) returns (r: Reply)
      modifies this
      ensures r == Failed || (r == AlreadyExists && Plain(name) in store) || (r == Stored && Plain(name) !in old(store))
      ensures store == if r == Stored then old(store)[Plain(name) := [s]] else old(store)
      ensures faults == old(faults) + if r == Failed then 1 else 0
    {
      var broken: bool := *;
      if broken {
        faults := faults + 1;
        return Failed;
      }
      if Plain(name) in store {
        return AlreadyExists;
      }
      store := store[Plain(name) := [s]];
      return Stored;
    }

    method UpdatePlain(name: string, s: Secret) returns (r: Reply)
      modifies this
      ensures r == Failed || r == Stored
      ensures store == if r == Stored then old(store)[Plain(name) := [s]] else old(store)
      ensures faults == old(faults) + if r == Failed then 1 else 0
    {
      var broken: bool := *;
      if broken {
        faults := faults + 1;
        return Failed;
      }
      store := store[Plain(name) := [s]];
      return Stored;
    }

    method CreateVersion(name: string, s: Secret) returns (r: Reply)
      modifies this
      ensures r == Failed || r == Stored || r == Identical
      ensures var d := Versioned(name);
              r == Identical ==> d in store && store[d] != [] && store[d][|store[d]| - 1].data == s.data
      ensures r == Stored ==> store == Put(old(store), Upsert(Versioned(name), s))
      ensures r != Stored ==> store == old(store)
      ensures faults == old(faults) + if r == Failed then 1 else 0
    {
      var broken: bool := *;
      if broken {
        faults := faults + 1;
        return Failed;
      }
      var versions := Slot(store, Versioned(name));
      if versions != [] && versions[|versions| - 1].data == s.data {
        return Identical;
      }
      store := store[Versioned(name) := versions + [s]];
      return Stored;
    }

    /** createSecret: create, and update if the secret exists. */
    method CreateSecret(name: string, s: Secret) returns (ok: bool)
      modifies this
      ensures store == if ok then Put(old(store), Upsert(Plain(name), s)) else old(store)
      ensures faults == old(faults) + if ok then 0 else 1
    {
      var r := CreatePlain(name, s);
      if r == AlreadyExists {
        r := UpdatePlain(name, s);
      }
      return r == Stored;
    }

    /** createVersionedSecret: an identical latest version is as good as a new one. */
    method CreateVersionedSecret(name: string, s: Secret) returns (ok: bool)
      modifies this
      ensures store == if ok then Put(old(store), Upsert(Versioned(name), s)) else old(store)
      ensures faults == old(faults) + if ok then 0 else 1
    {
      var r := CreateVersion(name, s);
      if r == Identical {
        assert store == store[Versioned(name) := store[Versioned(name)]];
      }
      return r == Stored || r == Identical;
    }
  }

  // ----- labels -----

  const LABEL_CONTAINER := "quarks.cloudfoundry.org/container-name"
  const LABEL_REMOTE_ID := "quarks.cloudfoundry.org/remote-id"

  ghost function Sanitized(sanitize: string -> string, m: map<string, string>): map<string, string> {
    map k | k in m :: sanitize(m[k])
  }

  ghost function Labels(sanitize: string -> string, general: map<string, string>, additional: map<string, string>,
                        container: string, remoteID: Option<string>): map<string, string> {
    Sanitized(sanitize, general) + Sanitized(sanitize, additional) + map[LABEL_CONTAINER := sanitize(container)] +
    (if remoteID.Some? then map[LABEL_REMOTE_ID := remoteID.value] else map[])
  }

  /** newLabels: two loops over maps in any order, then two fixed keys. */
  method NewLabels(sanitize: string -> string, general: map<string, string>, additional: map<string, string>,
                   container: string, remoteID: Option<string>) returns (labels: map<string, string>)
    ensures labels == Labels(sanitize, general, additional, container, remoteID)
  {
    labels := AddSanitized(sanitize, map[], general);
    assert labels == Sanitized(sanitize, general);
    labels := AddSanitized(sanitize, labels, additional);
    AddOne(labels, LABEL_CONTAINER, sanitize(container));
    labels := labels[LABEL_CONTAINER := sanitize(container)];
    if remoteID.Some? {
      AddOne(labels, LABEL_REMOTE_ID, remoteID.value);
      labels := labels[LABEL_REMOTE_ID := remoteID.value];
    } else {
      assert labels + map[] == labels;
    }
  }

  lemma AddOne(m: map<string, string>, k: string, v: string)
    ensures m[k := v] == m + map[k := v]
  {
  }

  method AddSanitized(sanitize: string -> string, labels: map<string, string>, more: map<string, string>)
    returns (r: map<string, string>)
    ensures r == labels + Sanitized(sanitize, more)
  {
    r := labels;
    var rest := more.Keys;
    while rest != {}
      invariant rest <= more.Keys
      invariant r == labels + (map k | k in more && k !in rest :: sanitize(more[k]))
    {
      var k :| k in rest;
      r := r[k := sanitize(more[k])];
      rest := rest - {k};
    }
  }

  /** Who wins: the remote id over the container name over the file's own labels over the
      general ones; a remote id is taken as it is. */
  lemma LabelPrecedence(sanitize: string -> string, general: map<string, string>, additional: map<string, string>,
                        container: string, remoteID: Option<string>, k: string)
    ensures var labels := Labels(sanitize, general, additional, container, remoteID);
            (k in labels <==> k in general || k in additional || k == LABEL_CONTAINER || (k == LABEL_REMOTE_ID && remoteID.Some?)) &&
            (k in labels ==>
              labels[k] == (if k == LABEL_REMOTE_ID && remoteID.Some? then remoteID.value
                            else if k == LABEL_CONTAINER then sanitize(container)
                            else if k in additional then sanitize(additional[k])
                            else sanitize(general[k])))
  {
  }
}
