/** Reconcile of job_reconciler.go, the second writer of the QuarksJob's status. */
module JobReconciler {
  import opened Types
  import ErrandReconciler
  import ErrandSystem

  datatype Owner = Owner(name: string, controller: bool)
  datatype Pod = Pod(name: string, created: Time)

  /** The Job as read; `deleteLabel` is its pod template's label "delete". */
  datatype BatchJob = BatchJob(name: string, owners: seq<Owner>, succeeded: int, deleteLabel: Option<string>)

  datatype Lookup<+T> = Found(value: T) | NotFound | Failed

  /** What the API server answers to one reconcile. */
  datatype World = World(job: Lookup<BatchJob>, parent: Lookup<QuarksJob>, pods: Option<seq<Pod>>)

  datatype Call = DeleteJob(job: string) | DeletePod(pod: string) | StatusUpdate(sent: QuarksJob)

  /** The last controller among the owners. */
  ghost predicate IsParent(owners: seq<Owner>, name: string) {
    exists i :: 0 <= i < |owners| && owners[i].controller && owners[i].name == name &&
                forall j :: i < j < |owners| ==> !owners[j].controller
  }

  method ParentName(owners: seq<Owner>) returns (name: string)
    ensures IsParent(owners, name) || (name == "" && forall i :: 0 <= i < |owners| ==> !owners[i].controller)
  {
    name := "";
    for i := 0 to |owners|
      invariant (exists k :: 0 <= k < i && owners[k].controller && owners[k].name == name &&
                             forall j :: k < j < i ==> !owners[j].controller) ||
                (name == "" && forall j :: 0 <= j < i ==> !owners[j].controller)
    {
      if owners[i].controller {
        name := owners[i].name;
      }
    }
  }

  ghost predicate IsLatest(pods: seq<Pod>, latest: Pod) {
    exists i :: 0 <= i < |pods| && latest == pods[i] &&
                (forall j :: 0 <= j < |pods| ==> pods[j].created <= latest.created) &&
                (forall j :: 0 <= j < i ==> pods[j].created < latest.created)
  }

  /** jobPod: the latest pod, the first of those created at the same time. */
  method JobPod(pods: seq<Pod>) returns (latest: Pod)
    requires pods != []
    ensures IsLatest(pods, latest)
  {
    latest := pods[0];
    if |pods| > 1 {
      var latestTime := pods[0].created;
      ghost var at := 0;
      for i := 0 to |pods|
        invariant 0 <= at < |pods| && latest == pods[at] && latestTime == latest.created
        invariant forall j :: 0 <= j < i ==> pods[j].created <= latestTime
        invariant forall j :: 0 <= j < at ==> pods[j].created < latestTime
        invariant at == 0 || at < i
      {
        if latestTime < pods[i].created {
          latestTime := pods[i].created;
          latest := pods[i];
          at := i;
        }
      }
    }
  }

  /** The last controlling owner has a name, and could be read. */
  ghost predicate ParentRead(w: World)
    requires w.job.Found?
  {
    w.parent.Found? && exists name :: name != "" && IsParent(w.job.value.owners, name)
  }

  /** The Job succeeded and its QuarksJob could be read. */
  ghost predicate Collects(w: World) {
    w.job.Found? && ParentRead(w) && w.job.value.succeeded == 1
  }

  /** The pod is to be deleted as well. */
  predicate WantsPod(w: World)
    requires w.job.Found?
  {
    w.job.value.deleteLabel == Some("pod")
  }

  /** But it cannot be found. */
  predicate PodMissing(w: World) {
    w.pods.None? || w.pods.value == []
  }

  /** One reconcile: the writes it makes, in order, and its result.  It marks the QuarksJob
      completed exactly when the Job succeeded, unless the pod to delete is missing; what it
      sends is the object it read with `completed` set. */
  method Reconcile(w: World) returns (calls: seq<Call>, result: ErrandReconciler.Result)
    ensures result == if w.job.Failed? || (w.job.Found? && !ParentRead(w)) then ErrandReconciler.Failure else ErrandReconciler.Nothing
    ensures !Collects(w) ==> calls == []
    ensures Collects(w) && !WantsPod(w) ==>
              calls == [DeleteJob(w.job.value.name), StatusUpdate(ErrandSystem.Completed(w.parent.value))]
    ensures Collects(w) && WantsPod(w) && PodMissing(w) ==> calls == [DeleteJob(w.job.value.name)]
    ensures Collects(w) && WantsPod(w) && !PodMissing(w) ==>
              exists pod :: IsLatest(w.pods.value, pod) &&
                            calls == [DeleteJob(w.job.value.name), DeletePod(pod.name),
                                      StatusUpdate(ErrandSystem.Completed(w.parent.value))]
  {
    calls := [];
    if w.job.NotFound? {
      return [], ErrandReconciler.Nothing;
    }
    if w.job.Failed? {
      return [], ErrandReconciler.Failure;
    }
    var job := w.job.value;
    var parentName := ParentName(job.owners);
    if parentName == "" {
      return [], ErrandReconciler.Failure;
    }
    if !w.parent.Found? {
      return [], ErrandReconciler.Failure;
    }
    var q := w.parent.value;
    if job.succeeded == 1 {
      calls := [DeleteJob(job.name)];
      if job.deleteLabel == Some("pod") {
        if w.pods.None? || w.pods.value == [] {
          return calls, ErrandReconciler.Nothing;
        }
        var pod := JobPod(w.pods.value);
        calls := calls + [DeletePod(pod.name)];
      }
      q := q.(status := q.status.(completed := true));
      calls := calls + [StatusUpdate(q)];
    }
    return calls, ErrandReconciler.Nothing;
  }
}
