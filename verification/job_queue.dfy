/** The tracker's `JobQueue` (main.go): a FIFO of pods waiting to be probed
    and the set of keys of pods whose logs have already been seen. The Go
    methods mutate the receiver; here each returns the new queue. */
module JobQueues {
  import opened Wrappers
  import opened Pods

  datatype JobQueue = JobQueue(podInfoQueue: seq<PodInfo>, loggedPods: set<string>)

  /** The queue the tracker starts with: nothing pending, nothing logged. */
  function EmptyQueue(): (q: JobQueue)
    ensures |q.podInfoQueue| == 0 && q.loggedPods == {}
  {
    JobQueue([], {})
  }

  /** `AddPodToQueue`: append at the tail; the logged set is untouched. */
  function AddPodToQueue(q: JobQueue, p: PodInfo): (r: JobQueue)
    ensures |r.podInfoQueue| == |q.podInfoQueue| + 1
    ensures r.podInfoQueue[..|q.podInfoQueue|] == q.podInfoQueue
    ensures r.podInfoQueue[|q.podInfoQueue|] == p
    ensures r.loggedPods == q.loggedPods
  {
    q.(podInfoQueue := q.podInfoQueue + [p])
  }

  /** The result of `GetPodFromQueue`: the popped pod, absent when the queue
      was empty (the Go code then returns the zero `PodInfo` and `false`),
      and the queue afterwards. */
  datatype Popped = Popped(pod: Option<PodInfo>, rest: JobQueue)

  /** `GetPodFromQueue`: take the head, or report that there is none. */
  function GetPodFromQueue(q: JobQueue): (r: Popped)
    ensures |q.podInfoQueue| == 0 <==> r.pod.None?
    ensures r.pod.None? ==> r.rest == q
    ensures r.pod.Some? ==>
      && q.podInfoQueue == [r.pod.value] + r.rest.podInfoQueue
      && r.rest.loggedPods == q.loggedPods
  {
    if |q.podInfoQueue| == 0 then Popped(None, q)
    else Popped(Some(q.podInfoQueue[0]), q.(podInfoQueue := q.podInfoQueue[1..]))
  }

  /** `MarkPodAsLogged`: remember the pod's key; the pending pods are untouched. */
  function MarkPodAsLogged(q: JobQueue, p: PodInfo): (r: JobQueue)
    ensures r.loggedPods == q.loggedPods + {PodKey(p)}
    ensures r.podInfoQueue == q.podInfoQueue
  {
    q.(loggedPods := q.loggedPods + {PodKey(p)})
  }

  /** `IsPodLogged`: has a pod with this namespace and name been marked? */
  predicate IsPodLogged(q: JobQueue, p: PodInfo) {
    PodKey(p) in q.loggedPods
  }

  /** Append several pods, one `AddPodToQueue` at a time. */
  function AddAll(q: JobQueue, ps: seq<PodInfo>): (r: JobQueue)
    decreases |ps|
  {
    if |ps| == 0 then q else AddAll(AddPodToQueue(q, ps[0]), ps[1..])
  }

  /** Pop `n` times, collecting what comes out, in order. */
  function PopN(q: JobQueue, n: nat): (seq<PodInfo>, JobQueue)
    decreases n
  {
    if n == 0 then ([], q)
    else
      var r := GetPodFromQueue(q);
      match r.pod
      case None => ([], r.rest)
      case Some(p) =>
        var (more, last) := PopN(r.rest, n - 1);
        ([p] + more, last)
  }

  /** The queue is always its old contents followed by what was appended. */
  lemma {:induction false} AddAllAppends(q: JobQueue, ps: seq<PodInfo>)
    ensures AddAll(q, ps).podInfoQueue == q.podInfoQueue + ps
    ensures AddAll(q, ps).loggedPods == q.loggedPods
    decreases |ps|
  {
    if |ps| > 0 {
      AddAllAppends(AddPodToQueue(q, ps[0]), ps[1..]);
      assert [ps[0]] + ps[1..] == ps;
      assert q.podInfoQueue + [ps[0]] + ps[1..] == q.podInfoQueue + ps;
    }
  }

  /** Popping a queue as many times as it is long yields its contents in
      order and leaves it empty. */
  lemma {:induction false} PopAllInOrder(q: JobQueue)
    ensures PopN(q, |q.podInfoQueue|).0 == q.podInfoQueue
    ensures PopN(q, |q.podInfoQueue|).1 == q.(podInfoQueue := [])
    decreases |q.podInfoQueue|
  {
    if |q.podInfoQueue| > 0 {
      var r := GetPodFromQueue(q);
      PopAllInOrder(r.rest);
    }
  }

  /** FIFO: whatever was pending comes out first, then the appended pods in
      the order they were added. */
  lemma FifoOrder(q: JobQueue, ps: seq<PodInfo>)
    ensures PopN(AddAll(q, ps), |q.podInfoQueue| + |ps|).0 == q.podInfoQueue + ps
  {
    AddAllAppends(q, ps);
    PopAllInOrder(AddAll(q, ps));
  }

  /** The two-pod case: after adding `a` then `b` to an empty queue, the
      first pop yields `a` and the second `b`. */
  lemma FifoTwo(q: JobQueue, a: PodInfo, b: PodInfo)
    requires |q.podInfoQueue| == 0
    ensures GetPodFromQueue(AddPodToQueue(AddPodToQueue(q, a), b)).pod == Some(a)
    ensures GetPodFromQueue(GetPodFromQueue(AddPodToQueue(AddPodToQueue(q, a), b)).rest).pod == Some(b)
  {
  }

  /** After marking `p`, every pod with the same namespace and name counts as
      logged, whatever its start time; what was logged stays logged; and a
      slash-free namespace means nothing else becomes logged. */
  lemma MarkThenLogged(q: JobQueue, p: PodInfo, x: PodInfo)
    ensures x.namespace == p.namespace && x.podName == p.podName ==> IsPodLogged(MarkPodAsLogged(q, p), x)
    ensures IsPodLogged(q, x) ==> IsPodLogged(MarkPodAsLogged(q, p), x)
    ensures NoSlash(x.namespace) && NoSlash(p.namespace) ==>
      (IsPodLogged(MarkPodAsLogged(q, p), x) <==>
        IsPodLogged(q, x) || (x.namespace == p.namespace && x.podName == p.podName))
  {
  }
}
