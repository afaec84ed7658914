/** One iteration of the tracker's main loop (main.go): a discovery pass
    followed by a drain. The signal check that ends the loop is not
    modelled. Across iterations the tracker keeps one invariant: every
    recorded sample's pod is marked logged, and no pod is sampled twice.
    It holds at the start (`InitiallyTracked`) and survives every iteration
    whose listing has unique, slash-free namespace names and unique pod
    names per namespace, as Kubernetes guarantees (`CyclePreservesTracked`).
    A listing that names the same pod twice gets it sampled twice. */
module Engine {
  import opened Pods
  import opened JobQueues
  import opened Discovery
  import opened Drain
  import opened Wrappers
  import Loki
  import Namespaces

  /** What Kubernetes guarantees of a listing: namespace names are unique
      and slash-free, and pod names are unique within a namespace. */
  predicate WellFormedListing(listing: seq<NamespaceListing>) {
    && (forall i, k :: 0 <= i < k < |listing| ==> listing[i].name != listing[k].name)
    && (forall i :: 0 <= i < |listing| ==> NoSlash(listing[i].name))
    && (forall i, j, k :: 0 <= i < |listing| && 0 <= j < k < |listing[i].pods| ==>
          listing[i].pods[j].name != listing[i].pods[k].name)
  }

  predicate DistinctPodKeys(ps: seq<PodInfo>) {
    forall i, j :: 0 <= i < j < |ps| ==> PodKey(ps[i]) != PodKey(ps[j])
  }

  predicate DistinctSampleKeys(ss: seq<LoggedPodInfo>) {
    forall i, j :: 0 <= i < j < |ss| ==> SampleKey(ss[i]) != SampleKey(ss[j])
  }

  /** The tracker's state between iterations: the queue is drained, every
      sample's pod is logged, and each pod has at most one sample. */
  predicate Tracked(q: JobQueue, loggedPods: seq<LoggedPodInfo>) {
    && |q.podInfoQueue| == 0
    && (forall i :: 0 <= i < |loggedPods| ==> SampleKey(loggedPods[i]) in q.loggedPods)
    && DistinctSampleKeys(loggedPods)
  }

  /** The invariant holds in the state the tracker starts from: an empty
      queue, an empty logged set and no samples. */
  lemma InitiallyTracked()
    ensures Tracked(EmptyQueue(), [])
  {
  }

  /** One iteration: discover, then drain. */
  method Cycle(q: JobQueue, loggedPods: seq<LoggedPodInfo>, namespacePrefix: string,
               listing: seq<NamespaceListing>, observe: nat -> Observation)
    returns (q': JobQueue, loggedPods': seq<LoggedPodInfo>)
    ensures |q'.podInfoQueue| == 0
    ensures q.loggedPods <= q'.loggedPods
    ensures loggedPods' == loggedPods + Samples(q.podInfoQueue + Enqueued(namespacePrefix, q.loggedPods, listing), observe)
    ensures loggedPods'[..|loggedPods|] == loggedPods
    ensures Tracked(q, loggedPods) && WellFormedListing(listing) ==> Tracked(q', loggedPods')
  {
    var discovered := DiscoveryPass(q, namespacePrefix, listing);
    q', loggedPods' := DrainQueue(discovered, loggedPods, observe);
    if Tracked(q, loggedPods) && WellFormedListing(listing) {
      CyclePreservesTracked(q, loggedPods, namespacePrefix, listing, observe);
    }
  }

  /** Keys of pods from one namespace differ when their names differ. */
  lemma SameNamespaceKeys(namespace: string, a: string, b: string)
    requires a != b
    ensures Key(namespace, a) != Key(namespace, b)
  {
  }

  lemma DistinctConcat(a: seq<PodInfo>, b: seq<PodInfo>)
    requires DistinctPodKeys(a) && DistinctPodKeys(b)
    requires forall i, j :: 0 <= i < |a| && 0 <= j < |b| ==> PodKey(a[i]) != PodKey(b[j])
    ensures DistinctPodKeys(a + b)
  {
  }

  /** One namespace's contribution has pairwise different keys when its pod
      names are unique. */
  lemma {:induction false} NamespaceEnqueuedDistinct(namespacePrefix: string, logged: set<string>,
                                                     namespace: string, pods: seq<PodListing>)
    requires forall j, k :: 0 <= j < k < |pods| ==> pods[j].name != pods[k].name
    ensures DistinctPodKeys(NamespaceEnqueued(namespacePrefix, logged, namespace, pods))
    decreases |pods|
  {
    if |pods| > 0 {
      var j := |pods| - 1;
      var init := pods[..j];
      var front := NamespaceEnqueued(namespacePrefix, logged, namespace, init);
      NamespaceEnqueuedDistinct(namespacePrefix, logged, namespace, init);
      if Selected(namespacePrefix, logged, namespace, pods[j]) {
        var last := ToPodInfo(namespace, pods[j]);
        forall i | 0 <= i < |front|
          ensures PodKey(front[i]) != PodKey(last)
        {
          NamespaceEnqueuedExactly(namespacePrefix, logged, namespace, init, front[i]);
          var k :| 0 <= k < |init| && Selected(namespacePrefix, logged, namespace, init[k])
            && front[i] == ToPodInfo(namespace, init[k]);
          assert init[k] == pods[k];
          SameNamespaceKeys(namespace, init[k].name, pods[j].name);
        }
        DistinctConcat(front, [last]);
      }
    }
  }

  /** Every pod a pass enqueues belongs to some listed namespace. */
  lemma EnqueuedNamespace(namespacePrefix: string, logged: set<string>, listing: seq<NamespaceListing>, x: PodInfo)
    requires x in Enqueued(namespacePrefix, logged, listing)
    ensures exists i :: 0 <= i < |listing| && x.namespace == listing[i].name
  {
    EnqueuedExactly(namespacePrefix, logged, listing, x);
  }

  /** A pass over a well-formed listing enqueues each pod key at most once. */
  lemma {:induction false} EnqueuedDistinct(namespacePrefix: string, logged: set<string>, listing: seq<NamespaceListing>)
    requires WellFormedListing(listing)
    ensures DistinctPodKeys(Enqueued(namespacePrefix, logged, listing))
    decreases |listing|
  {
    if |listing| > 0 {
      var i := |listing| - 1;
      var init := listing[..i];
      assert WellFormedListing(init) by {
        forall k | 0 <= k < |init| ensures init[k] == listing[k] { }
      }
      EnqueuedDistinct(namespacePrefix, logged, init);
      var front := Enqueued(namespacePrefix, logged, init);
      var back := NamespaceEnqueued(namespacePrefix, logged, listing[i].name, listing[i].pods);
      NamespaceEnqueuedDistinct(namespacePrefix, logged, listing[i].name, listing[i].pods);
      forall a, b | 0 <= a < |front| && 0 <= b < |back|
        ensures PodKey(front[a]) != PodKey(back[b])
      {
        EnqueuedNamespace(namespacePrefix, logged, init, front[a]);
        var k :| 0 <= k < |init| && front[a].namespace == init[k].name;
        assert init[k] == listing[k];
        NamespaceEnqueuedExactly(namespacePrefix, logged, listing[i].name, listing[i].pods, back[b]);
        KeyInjective(front[a].namespace, front[a].podName, back[b].namespace, back[b].podName);
      }
      DistinctConcat(front, back);
    }
  }

  /** A drain of pods with pairwise different keys records samples with
      pairwise different keys, each the key of a drained pod. */
  lemma {:induction false} SamplesDistinct(pods: seq<PodInfo>, observe: nat -> Observation)
    requires DistinctPodKeys(pods)
    ensures DistinctSampleKeys(Samples(pods, observe))
    ensures forall s :: s in Samples(pods, observe) ==> exists i :: 0 <= i < |pods| && SampleKey(s) == PodKey(pods[i])
    decreases |pods|
  {
    SamplesFromSuccesses(pods, observe);
    if |pods| > 0 {
      var j := |pods| - 1;
      var init := pods[..j];
      SamplesDistinct(init, observe);
      var front := Samples(init, observe);
      match ProbeAt(pods, j, observe)
      case Failed(_) =>
      case Found(last) =>
        var all := front + [last];
        forall a, b | 0 <= a < b < |all|
          ensures SampleKey(all[a]) != SampleKey(all[b])
        {
          if b == |front| {
            assert all[a] in front;
            var k :| 0 <= k < |init| && SampleKey(all[a]) == PodKey(init[k]);
            assert init[k] == pods[k];
          }
        }
    }
  }

  /** Appending samples with fresh, pairwise different keys to a tracked
      sample list, and logging those keys, keeps it tracked. */
  lemma AppendFreshSamples(logged: set<string>, resolved: set<string>,
                           before: seq<LoggedPodInfo>, after: seq<LoggedPodInfo>)
    requires forall i :: 0 <= i < |before| ==> SampleKey(before[i]) in logged
    requires DistinctSampleKeys(before) && DistinctSampleKeys(after)
    requires forall i :: 0 <= i < |after| ==> SampleKey(after[i]) in resolved && SampleKey(after[i]) !in logged
    ensures forall i :: 0 <= i < |before + after| ==> SampleKey((before + after)[i]) in logged + resolved
    ensures DistinctSampleKeys(before + after)
  {
    var all := before + after;
    forall a, b | 0 <= a < b < |all|
      ensures SampleKey(all[a]) != SampleKey(all[b])
    {
      if b >= |before| {
        assert all[b] == after[b - |before|];
        if a >= |before| {
          assert all[a] == after[a - |before|];
        }
      }
    }
  }

  /** Draining fresh pods with pairwise different keys keeps the sample list
      tracked. */
  lemma DrainKeepsTracked(q: JobQueue, loggedPods: seq<LoggedPodInfo>, pods: seq<PodInfo>, observe: nat -> Observation)
    requires Tracked(q, loggedPods)
    requires DistinctPodKeys(pods)
    requires forall i :: 0 <= i < |pods| ==> PodKey(pods[i]) !in q.loggedPods
    ensures Tracked(JobQueue([], q.loggedPods + ResolvedKeys(pods, observe)), loggedPods + Samples(pods, observe))
  {
    var recorded := Samples(pods, observe);
    var resolved := ResolvedKeys(pods, observe);
    SamplesDistinct(pods, observe);
    ResolvedKeysAreSampleKeys(pods, observe);
    forall i | 0 <= i < |recorded|
      ensures SampleKey(recorded[i]) in resolved && SampleKey(recorded[i]) !in q.loggedPods
    {
      assert recorded[i] in recorded;
    }
    AppendFreshSamples(q.loggedPods, resolved, loggedPods, recorded);
  }

  /** The invariant survives an iteration over a well-formed listing,
      starting from a drained queue. */
  lemma CyclePreservesTracked(q: JobQueue, loggedPods: seq<LoggedPodInfo>, namespacePrefix: string,
                              listing: seq<NamespaceListing>, observe: nat -> Observation)
    requires Tracked(q, loggedPods)
    requires WellFormedListing(listing)
    ensures Tracked(JobQueue([], q.loggedPods + ResolvedKeys(q.podInfoQueue + Enqueued(namespacePrefix, q.loggedPods, listing), observe)),
                    loggedPods + Samples(q.podInfoQueue + Enqueued(namespacePrefix, q.loggedPods, listing), observe))
  {
    var pods := Enqueued(namespacePrefix, q.loggedPods, listing);
    assert q.podInfoQueue + pods == pods;
    EnqueuedDistinct(namespacePrefix, q.loggedPods, listing);
    forall i | 0 <= i < |pods|
      ensures PodKey(pods[i]) !in q.loggedPods
    {
      EnqueuedNeverLoggedOrForeign(namespacePrefix, q.loggedPods, listing, pods[i]);
    }
    DrainKeepsTracked(q, loggedPods, pods, observe);
  }

  /** A pod in `logger-ns-a` started at `t0`: the probe one second later
      finds no logs, so nothing is recorded and the pod stays unlogged; the
      next pass rediscovers it, the probe at five seconds finds logs and
      records a five-second latency; a third pass no longer enqueues it. */
  lemma RetryScenario(t0: int)
    ensures var listing := [NamespaceListing("logger-ns-a", [PodListing("job-1", Some(t0))])];
      var pod := PodInfo("logger-ns-a", "job-1", t0);
      var noLogs := (n: nat) => Observation(Loki.Response(200, Some(0)), t0 + 1_000_000_000);
      var logs := (n: nat) => Observation(Loki.Response(200, Some(1)), t0 + 5_000_000_000);
      && Enqueued("logger-ns", {}, listing) == [pod]
      && Samples([pod], noLogs) == []
      && ResolvedKeys([pod], noLogs) == {}
      && Samples([pod], logs) == [LoggedPodInfo("logger-ns-a", "job-1", 5_000_000_000)]
      && ResolvedKeys([pod], logs) == {"logger-ns-a/job-1"}
      && Enqueued("logger-ns", {"logger-ns-a/job-1"}, listing) == []
  {
    var listing := [NamespaceListing("logger-ns-a", [PodListing("job-1", Some(t0))])];
    var pods := listing[0].pods;
    assert listing[..0] == [] && pods[..0] == [];
    Namespaces.ExtensionIsTarget("logger-ns", "-a");
    assert "logger-ns" + "-a" == "logger-ns-a";
    assert Key("logger-ns-a", "job-1") == "logger-ns-a/job-1";
    assert Selected("logger-ns", {}, "logger-ns-a", pods[0]);
    assert !Selected("logger-ns", {"logger-ns-a/job-1"}, "logger-ns-a", pods[0]);
    assert NamespaceEnqueued("logger-ns", {}, "logger-ns-a", pods) == [PodInfo("logger-ns-a", "job-1", t0)];
    assert NamespaceEnqueued("logger-ns", {"logger-ns-a/job-1"}, "logger-ns-a", pods) == [];
  }

  /** Without unique pod names the invariant can break: a listing naming
      `job-1` twice enqueues it twice, and two successful probes record two
      samples with the same key. */
  lemma DuplicateListingSampledTwice()
    ensures var listing := [NamespaceListing("logger-ns-a", [PodListing("job-1", Some(0)), PodListing("job-1", Some(0))])];
      var pod := PodInfo("logger-ns-a", "job-1", 0);
      var logs := (n: nat) => Observation(Loki.Response(200, Some(1)), 1);
      && !WellFormedListing(listing)
      && Enqueued("logger-ns", {}, listing) == [pod, pod]
      && !DistinctSampleKeys(Samples([pod, pod], logs))
  {
    var pod := PodInfo("logger-ns-a", "job-1", 0);
    var logs := (n: nat) => Observation(Loki.Response(200, Some(1)), 1);
    DuplicateListingEnqueuedTwice();
    var s := LoggedPodInfo("logger-ns-a", "job-1", 1);
    assert ProbeAt([pod, pod], 0, logs) == Loki.Found(s);
    assert ProbeAt([pod, pod], 1, logs) == Loki.Found(s);
    assert [pod, pod][..1] == [pod] && [pod][..0] == [];
    assert Samples([pod], logs) == [s];
    var ss := Samples([pod, pod], logs);
    assert ss == [s, s];
    assert SampleKey(ss[0]) == SampleKey(ss[1]);
  }

  /** The enqueue half of `DuplicateListingSampledTwice`. */
  lemma DuplicateListingEnqueuedTwice()
    ensures var listing := [NamespaceListing("logger-ns-a", [PodListing("job-1", Some(0)), PodListing("job-1", Some(0))])];
      && !WellFormedListing(listing)
      && Enqueued("logger-ns", {}, listing) == [PodInfo("logger-ns-a", "job-1", 0), PodInfo("logger-ns-a", "job-1", 0)]
  {
    var listing := [NamespaceListing("logger-ns-a", [PodListing("job-1", Some(0)), PodListing("job-1", Some(0))])];
    var pods := listing[0].pods;
    var pod := PodInfo("logger-ns-a", "job-1", 0);
    assert listing[0].pods[0].name == listing[0].pods[1].name;
    assert listing[..0] == [] && pods[..1] == [pods[0]] && pods[..1][..0] == [];
    Namespaces.ExtensionIsTarget("logger-ns", "-a");
    assert "logger-ns" + "-a" == "logger-ns-a";
    assert Selected("logger-ns", {}, "logger-ns-a", pods[0]);
    assert NamespaceEnqueued("logger-ns", {}, "logger-ns-a", pods[..1]) == [pod];
    assert NamespaceEnqueued("logger-ns", {}, "logger-ns-a", pods) == [pod, pod];
  }
}
