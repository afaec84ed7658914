/** The discovery half of one iteration of the tracker's main loop
    (main.go): walk the namespace listing, skip namespaces that do not carry
    the prefix, and enqueue every started pod that is not yet logged. The
    Kubernetes lister is replaced by its result: a listing of namespaces,
    each with the pods it holds. */
module Discovery {
  import opened Wrappers
  import opened Pods
  import opened JobQueues
  import opened Namespaces

  /** A listed pod; `startTime` is `pod.Status.StartTime`, which is nil
      until the kubelet has started the pod. */
  datatype PodListing = PodListing(name: string, startTime: Option<int>)

  datatype NamespaceListing = NamespaceListing(name: string, pods: seq<PodListing>)

  /** The `PodInfo` built for a started pod. */
  function ToPodInfo(namespace: string, pod: PodListing): PodInfo
    requires pod.startTime.Some?
  {
    PodInfo(namespace, pod.name, pod.startTime.value)
  }

  /** The three conditions under which a pod is enqueued. */
  predicate Selected(namespacePrefix: string, logged: set<string>, namespace: string, pod: PodListing) {
    && IsTargetNamespace(namespace, namespacePrefix)
    && pod.startTime.Some?
    && Key(namespace, pod.name) !in logged
  }

  /** Reference: the pods one namespace contributes, in listing order. */
  function NamespaceEnqueued(namespacePrefix: string, logged: set<string>, namespace: string, pods: seq<PodListing>): seq<PodInfo>
    decreases |pods|
  {
    if |pods| == 0 then []
    else
      var j := |pods| - 1;
      NamespaceEnqueued(namespacePrefix, logged, namespace, pods[..j])
        + (if Selected(namespacePrefix, logged, namespace, pods[j]) then [ToPodInfo(namespace, pods[j])] else [])
  }

  /** Reference: the pods a whole pass enqueues, namespace by namespace. */
  function Enqueued(namespacePrefix: string, logged: set<string>, listing: seq<NamespaceListing>): seq<PodInfo>
    decreases |listing|
  {
    if |listing| == 0 then []
    else
      var i := |listing| - 1;
      Enqueued(namespacePrefix, logged, listing[..i])
        + NamespaceEnqueued(namespacePrefix, logged, listing[i].name, listing[i].pods)
  }

  /** One discovery pass, loop for loop as in the Go code. */
  method DiscoveryPass(q: JobQueue, namespacePrefix: string, listing: seq<NamespaceListing>) returns (q': JobQueue)
    ensures q'.podInfoQueue == q.podInfoQueue + Enqueued(namespacePrefix, q.loggedPods, listing)
    ensures q'.loggedPods == q.loggedPods
  {
    q' := q;
    var i := 0;
    while i < |listing|
      invariant 0 <= i <= |listing|
      invariant q'.podInfoQueue == q.podInfoQueue + Enqueued(namespacePrefix, q.loggedPods, listing[..i])
      invariant q'.loggedPods == q.loggedPods
    {
      var namespace := listing[i];
      assert listing[..i + 1][..i] == listing[..i];
      if !IsTargetNamespace(namespace.name, namespacePrefix) {
        NotTargetEnqueuesNothing(namespacePrefix, q.loggedPods, namespace.name, namespace.pods);
        i := i + 1;
        continue;
      }
      var pods := namespace.pods;
      var start := q'.podInfoQueue;
      var j := 0;
      while j < |pods|
        invariant 0 <= j <= |pods|
        invariant q'.podInfoQueue == start + NamespaceEnqueued(namespacePrefix, q.loggedPods, namespace.name, pods[..j])
        invariant q'.loggedPods == q.loggedPods
      {
        var pod := pods[j];
        assert pods[..j + 1][..j] == pods[..j];
        if pod.startTime.Some? && !IsPodLogged(q', PodInfo(namespace.name, pod.name, pod.startTime.value)) {
          var podInfo := PodInfo(namespace.name, pod.name, pod.startTime.value);
          q' := AddPodToQueue(q', podInfo);
        }
        j := j + 1;
      }
      assert pods[..j] == pods;
      i := i + 1;
    }
    assert listing[..i] == listing;
  }

  /** A namespace without the prefix contributes nothing. */
  lemma {:induction false} NotTargetEnqueuesNothing(namespacePrefix: string, logged: set<string>, namespace: string, pods: seq<PodListing>)
    requires !IsTargetNamespace(namespace, namespacePrefix)
    ensures NamespaceEnqueued(namespacePrefix, logged, namespace, pods) == []
    decreases |pods|
  {
    if |pods| > 0 {
      NotTargetEnqueuesNothing(namespacePrefix, logged, namespace, pods[..|pods| - 1]);
    }
  }

  /** Membership in one namespace's contribution. */
  lemma {:induction false} NamespaceEnqueuedExactly(namespacePrefix: string, logged: set<string>, namespace: string, pods: seq<PodListing>, x: PodInfo)
    ensures x in NamespaceEnqueued(namespacePrefix, logged, namespace, pods) <==>
      exists j :: 0 <= j < |pods| && Selected(namespacePrefix, logged, namespace, pods[j]) && x == ToPodInfo(namespace, pods[j])
    decreases |pods|
  {
    if |pods| > 0 {
      var j := |pods| - 1;
      NamespaceEnqueuedExactly(namespacePrefix, logged, namespace, pods[..j], x);
      if exists k :: 0 <= k < |pods| && Selected(namespacePrefix, logged, namespace, pods[k]) && x == ToPodInfo(namespace, pods[k]) {
        var k :| 0 <= k < |pods| && Selected(namespacePrefix, logged, namespace, pods[k]) && x == ToPodInfo(namespace, pods[k]);
        if k < j {
          assert pods[..j][k] == pods[k];
        }
      }
    }
  }

  /** A pass enqueues exactly the started, not-yet-logged pods of the
      namespaces carrying the prefix. */
  lemma {:induction false} EnqueuedExactly(namespacePrefix: string, logged: set<string>, listing: seq<NamespaceListing>, x: PodInfo)
    ensures x in Enqueued(namespacePrefix, logged, listing) <==>
      exists i, j :: 0 <= i < |listing| && 0 <= j < |listing[i].pods|
        && Selected(namespacePrefix, logged, listing[i].name, listing[i].pods[j])
        && x == ToPodInfo(listing[i].name, listing[i].pods[j])
    decreases |listing|
  {
    if |listing| > 0 {
      var i := |listing| - 1;
      EnqueuedExactly(namespacePrefix, logged, listing[..i], x);
      NamespaceEnqueuedExactly(namespacePrefix, logged, listing[i].name, listing[i].pods, x);
      if (exists k, j :: 0 <= k < |listing| && 0 <= j < |listing[k].pods|
            && Selected(namespacePrefix, logged, listing[k].name, listing[k].pods[j])
            && x == ToPodInfo(listing[k].name, listing[k].pods[j])) {
        var k, j :| 0 <= k < |listing| && 0 <= j < |listing[k].pods|
          && Selected(namespacePrefix, logged, listing[k].name, listing[k].pods[j])
          && x == ToPodInfo(listing[k].name, listing[k].pods[j]);
        if k < i {
          assert listing[..i][k] == listing[k];
        }
      }
    }
  }

  /** A logged pod is never enqueued again, whatever its start time, and a
      namespace without the prefix never yields a pod. */
  lemma EnqueuedNeverLoggedOrForeign(namespacePrefix: string, logged: set<string>, listing: seq<NamespaceListing>, x: PodInfo)
    requires x in Enqueued(namespacePrefix, logged, listing)
    ensures PodKey(x) !in logged
    ensures IsTargetNamespace(x.namespace, namespacePrefix)
  {
    EnqueuedExactly(namespacePrefix, logged, listing, x);
  }
}
