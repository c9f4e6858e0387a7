/** Which QuarksJobs a changed ConfigMap or Secret enqueues: pkg/kube/util/reference/reconciles.go. */
module Reconciles {
  import opened Types

  datatype Object =
    | ConfigMap(namespace: string, name: string, version: string)
    | Secret(namespace: string, name: string, version: string, versioned: bool)
    | OtherObject(namespace: string, name: string, version: string)

  /** A QuarksJob in the cluster, with its namespaced name. */
  datatype Item = Item(namespace: string, name: string, q: QuarksJob)
  datatype Request = Request(namespace: string, name: string)

  /** The versioned store's idea of two names being versions of one secret. */
  type SameSecret = (string, string) -> bool

  /** The QuarksJob refers to the object: by exact name, or for a versioned secret by any
      version of it. */
  ghost predicate RefersTo(same: SameSecret, config: ConfigNames, o: Object) {
    match o
    case ConfigMap(_, name, _) => name in config.configMaps
    case Secret(_, name, _, false) => name in config.secrets
    case Secret(_, name, _, true) => exists k :: k in config.secrets && same(k, name)
    case OtherObject(_, _, _) => false
  }

  predicate Candidate(item: Item) {
    item.q.spec.updateOnConfigChange && item.q.IsAutoErrand()
  }

  /** An auto-errand in the object's namespace that follows its configs. */
  ghost predicate Follows(o: Object, item: Item) {
    item.namespace == o.namespace && item.q.spec.updateOnConfigChange &&
    (item.q.spec.strategy == Once || item.q.spec.strategy == Done)
  }

  ghost predicate Wanted(same: SameSecret, o: Object, item: Item) {
    Follows(o, item) && RefersTo(same, item.q.spec.config, o)
  }

  /** The requests for the listed QuarksJobs that are wanted, in list order. */
  ghost function Requests(same: SameSecret, o: Object, items: seq<Item>): seq<Request> {
    if items == [] then []
    else
      var last := items[|items| - 1];
      Requests(same, o, items[..|items| - 1]) + (if Wanted(same, o, last) then [Request(last.namespace, last.name)] else [])
  }

  /** The keys slice is made with the size of the set and filled by index. */
  method KeysOf(names: set<string>) returns (keys: array<string>)
    ensures fresh(keys) && keys.Length == |names| && forall n :: n in keys[..] <==> n in names
  {
    keys := new string[|names|](_ => "");
    var rest, i := names, 0;
    while rest != {}
      invariant rest <= names && i + |rest| == |names| && 0 <= i
      invariant forall n :: n in keys[..i] <==> n in names && n !in rest
    {
      var n :| n in rest;
      keys[i] := n;
      assert keys[..i + 1] == keys[..i] + [n];
      rest, i := rest - {n}, i + 1;
    }
    assert keys[..i] == keys[..];
  }

  /** The closure objReferencedBy. */
  method ReferencedBy(same: SameSecret, o: Object, config: ConfigNames) returns (r: Option<bool>)
    ensures o.OtherObject? <==> r.None?
    ensures r.Some? ==> (r.value <==> RefersTo(same, config, o))
  {
    match o
    case ConfigMap(_, name, _) => return Some(name in config.configMaps);
    case Secret(_, name, _, false) => return Some(name in config.secrets);
    case Secret(_, name, _, true) =>
      var keys := KeysOf(config.secrets);
      for i := 0 to keys.Length
        invariant forall j :: 0 <= j < i ==> !same(keys[j], name)
      {
        if same(keys[i], name) {
          assert keys[i] in keys[..];
          return Some(true);
        }
      }
      assert forall k :: k in keys[..] ==> !same(k, name);
      return Some(false);
    case OtherObject(_, _, _) => return None;
  }

  /** GetReconciles over a cluster whose list call returns the items of one namespace, or
      fails. */
  method GetReconciles(same: SameSecret, o: Object, cluster: seq<Item>, listed: bool) returns (r: Option<seq<Request>>)
    ensures r.Some? ==> r.value == Requests(same, o, cluster)
    ensures r.None? <==>
              (!listed || (o.OtherObject? && exists i :: 0 <= i < |cluster| && Follows(o, cluster[i])))
  {
    if !listed {
      return None;
    }
    var result: seq<Request> := [];
    for i := 0 to |cluster|
      invariant result == Requests(same, o, cluster[..i])
      invariant o.OtherObject? ==> forall j :: 0 <= j < i ==> !Follows(o, cluster[j])
    {
      var item := cluster[i];
      assert cluster[..i + 1][..i] == cluster[..i];
      if item.namespace == o.namespace && Candidate(item) {
        var referenced := ReferencedBy(same, o, item.q.spec.config);
        if referenced.None? {
          return None;
        }
        if referenced.value {
          result := result + [Request(item.namespace, item.name)];
        }
      }
    }
    assert cluster[..|cluster|] == cluster;
    return Some(result);
  }

  ghost predicate UniqueItems(items: seq<Item>) {
    forall i, j :: 0 <= i < j < |items| ==> (items[i].namespace, items[i].name) != (items[j].namespace, items[j].name)
  }

  /** The position in the list that the k-th request comes from. */
  ghost function Origin(same: SameSecret, o: Object, items: seq<Item>, k: nat): nat
    requires k < |Requests(same, o, items)|
  {
    if k < |Requests(same, o, items[..|items| - 1])| then Origin(same, o, items[..|items| - 1], k) else |items| - 1
  }

  /** The requests are exact: each comes from a wanted item, later requests from later items,
      and every wanted item has its request. */
  lemma {:induction false} RequestsAreExact(same: SameSecret, o: Object, items: seq<Item>)
    ensures var rs := Requests(same, o, items);
            (forall k :: 0 <= k < |rs| ==>
              var i := Origin(same, o, items, k);
              i < |items| && Wanted(same, o, items[i]) && rs[k] == Request(items[i].namespace, items[i].name)) &&
            (forall k, l :: 0 <= k < l < |rs| ==> Origin(same, o, items, k) < Origin(same, o, items, l)) &&
            (forall i :: 0 <= i < |items| && Wanted(same, o, items[i]) ==> Request(items[i].namespace, items[i].name) in rs)
  {
    if items != [] {
      var n := |items| - 1;
      RequestsAreExact(same, o, items[..n]);
      var rs, before := Requests(same, o, items), Requests(same, o, items[..n]);
      assert before <= rs;
      forall i | 0 <= i < |items| && Wanted(same, o, items[i])
        ensures Request(items[i].namespace, items[i].name) in rs
      {
        if i < n {
          assert items[..n][i] == items[i];
          assert Request(items[i].namespace, items[i].name) in before;
        } else {
          assert rs[|before|] == Request(items[n].namespace, items[n].name);
        }
      }
    }
  }

  /** No QuarksJob is requested twice. */
  lemma RequestsAreUnique(same: SameSecret, o: Object, items: seq<Item>)
    requires UniqueItems(items)
    ensures var rs := Requests(same, o, items); forall k, l :: 0 <= k < l < |rs| ==> rs[k] != rs[l]
  {
    RequestsAreExact(same, o, items);
    var rs := Requests(same, o, items);
    forall k, l | 0 <= k < l < |rs| ensures rs[k] != rs[l] {
      var i, j := Origin(same, o, items, k), Origin(same, o, items, l);
      assert (items[i].namespace, items[i].name) != (items[j].namespace, items[j].name);
    }
  }

  /** SkipReconciles: a config that cannot be read or has moved on is not looked at; `current`
      is the version the server returns. */
  method SkipReconciles(o: Object, current: Option<string>) returns (skip: bool)
    ensures skip <==> !o.OtherObject? && current != Some(o.version)
  {
    if o.OtherObject? {
      return false;
    }
    if current.None? {
      return true;
    }
    var newVersion := current.value;
    return o.version != newVersion;
  }
}
