/** The drain half of one iteration of the tracker's main loop (main.go):
    pop pods until the queue is empty, probe each, and on success mark the
    pod logged and record its latency sample. The network is an oracle:
    `observe(n)` is what the n-th probe of this drain saw, the reply and
    the clock reading. */
module Drain {
  import opened Pods
  import opened JobQueues
  import opened Loki

  /** What the n-th probe of a drain observed. */
  datatype Observation = Observation(reply: QueryReply, now: int)

  /** The outcome of probing `pods[i]` as the i-th probe. */
  function ProbeAt(pods: seq<PodInfo>, i: nat, observe: nat -> Observation): ProbeResult
    requires i < |pods|
  {
    GetLokiLogs(pods[i], observe(i).reply, observe(i).now)
  }

  /** Reference: the samples a drain of `pods` records, one per successful
      probe, in pop order. */
  function Samples(pods: seq<PodInfo>, observe: nat -> Observation): seq<LoggedPodInfo>
    decreases |pods|
  {
    if |pods| == 0 then []
    else
      var i := |pods| - 1;
      Samples(pods[..i], observe) + (match ProbeAt(pods, i, observe)
                                     case Found(s) => [s]
                                     case Failed(_) => [])
  }

  /** Reference: the keys a drain of `pods` marks as logged. */
  function ResolvedKeys(pods: seq<PodInfo>, observe: nat -> Observation): set<string>
    decreases |pods|
  {
    if |pods| == 0 then {}
    else
      var i := |pods| - 1;
      ResolvedKeys(pods[..i], observe) + (if ProbeAt(pods, i, observe).Found? then {PodKey(pods[i])} else {})
  }

  /** The drain loop. Returns the (empty) queue and the sample list extended
      with this drain's samples. */
  method DrainQueue(q: JobQueue, loggedPods: seq<LoggedPodInfo>, observe: nat -> Observation)
    returns (q': JobQueue, loggedPods': seq<LoggedPodInfo>)
    ensures |q'.podInfoQueue| == 0
    ensures q'.loggedPods == q.loggedPods + ResolvedKeys(q.podInfoQueue, observe)
    ensures loggedPods' == loggedPods + Samples(q.podInfoQueue, observe)
  {
    q' := q;
    loggedPods' := loggedPods;
    var n := 0;
    while true
      invariant 0 <= n <= |q.podInfoQueue|
      invariant q'.podInfoQueue == q.podInfoQueue[n..]
      invariant q'.loggedPods == q.loggedPods + ResolvedKeys(q.podInfoQueue[..n], observe)
      invariant loggedPods' == loggedPods + Samples(q.podInfoQueue[..n], observe)
      decreases |q'.podInfoQueue|
    {
      var popped := GetPodFromQueue(q');
      if popped.pod.None? {
        break;
      }
      var podInfo := popped.pod.value;
      var result := GetLokiLogs(podInfo, observe(n).reply, observe(n).now);
      q' := popped.rest;
      assert q.podInfoQueue[..n + 1][..n] == q.podInfoQueue[..n];
      if result.Found? {
        q' := MarkPodAsLogged(q', podInfo);
        loggedPods' := loggedPods' + [result.sample];
      }
      n := n + 1;
    }
    assert q.podInfoQueue[..n] == q.podInfoQueue;
  }

  /** Each sample of a drain comes from a successful probe of one of the
      drained pods, so there are never more samples than pods. */
  lemma {:induction false} SamplesFromSuccesses(pods: seq<PodInfo>, observe: nat -> Observation)
    ensures |Samples(pods, observe)| <= |pods|
    ensures forall s :: s in Samples(pods, observe) ==>
      exists i :: 0 <= i < |pods| && ProbeAt(pods, i, observe) == Found(s)
    decreases |pods|
  {
    if |pods| > 0 {
      var i := |pods| - 1;
      var init := pods[..i];
      SamplesFromSuccesses(init, observe);
      forall s | s in Samples(init, observe)
        ensures exists j :: 0 <= j < |pods| && ProbeAt(pods, j, observe) == Found(s)
      {
        var j :| 0 <= j < |init| && ProbeAt(init, j, observe) == Found(s);
        assert init[j] == pods[j];
        assert ProbeAt(pods, j, observe) == Found(s);
      }
    }
  }

  /** The keys a drain marks are exactly those of the pods whose probe
      succeeded. */
  lemma {:induction false} ResolvedKeysExactly(pods: seq<PodInfo>, observe: nat -> Observation, k: string)
    ensures k in ResolvedKeys(pods, observe) <==>
      exists i :: 0 <= i < |pods| && ProbeAt(pods, i, observe).Found? && PodKey(pods[i]) == k
    decreases |pods|
  {
    if |pods| > 0 {
      var i := |pods| - 1;
      var init := pods[..i];
      ResolvedKeysExactly(init, observe, k);
      forall j | 0 <= j < i
        ensures init[j] == pods[j] && ProbeAt(init, j, observe) == ProbeAt(pods, j, observe)
      {
      }
    }
  }

  /** The keys a drain marks are exactly the keys of the samples it records. */
  lemma {:induction false} ResolvedKeysAreSampleKeys(pods: seq<PodInfo>, observe: nat -> Observation)
    ensures ResolvedKeys(pods, observe) == set s | s in Samples(pods, observe) :: SampleKey(s)
    decreases |pods|
  {
    if |pods| > 0 {
      ResolvedKeysAreSampleKeys(pods[..|pods| - 1], observe);
    }
  }
}
