# k8s-loki-duration-tracker, modelled in Dafny

The tracker measures how long a pod runs before its first log line can be
queried in Loki. Its main loop does three things. It lists the namespaces
whose names start with a configured prefix. It queues every started pod that
has not been logged yet. Then it drains the queue: it asks Loki's
`query_range` endpoint, pod by pod, whether any log streams exist. When one
does, it marks the pod as logged and records the latency, which is the time
of the answer minus the pod's start time. On shutdown it reports the
smallest, largest and mean latency.

This project models that core of `main.go` as pure functions over immutable
data:

- `pods.dfy` (`Pods`): `PodInfo`, `LoggedPodInfo`, and the `namespace/name` key. The key is injective for slash-free namespaces.
- `job_queue.dfy` (`JobQueues`): `JobQueue` with `AddPodToQueue`, `GetPodFromQueue`, `MarkPodAsLogged` and `IsPodLogged`, plus FIFO laws.
- `namespaces.dfy` (`Namespaces`): `isTargetNamespace` and its equivalence with the sequence-prefix relation.
- `loki.dfy` (`Loki`): the success/latency decision of `getLokiLogs`. It works on an abstract reply: transport error, or HTTP status plus the decoded result count.
- `discovery.dfy` (`Discovery`): one discovery pass over a namespace/pod listing. A reference definition says which pods it enqueues, and a loop-for-loop method matches it.
- `drain.dfy` (`Drain`): the drain loop. It is driven by an oracle `observe(n)`, which gives the reply and clock reading of the n-th probe.
- `stats.dfy` (`Stats`): the max, min and mean of `printLoggedPodsWithTimeDiffStats`, including Go's truncating division.
- `engine.dfy` (`Engine`): one loop iteration (discover, then drain). It keeps a run-level invariant: every sample's pod is logged, and no pod is sampled twice. The invariant holds in the starting state. It survives every iteration whose listing has unique, slash-free namespace names and unique pod names per namespace, as Kubernetes guarantees. A listing that names the same pod twice gets it enqueued, probed and sampled twice, exactly as main.go:192-203 would.

Timestamps are Unix nanoseconds and durations are nanoseconds, both as
unbounded `int`. The Go `map[string]bool` of logged pods is a `set<string>`.
Its values are always `true`, and only key presence is ever read.

What `main.go` does and does not do:
- `AddPodToQueue` appends unconditionally (main.go:59-61). The only dedup is the `IsPodLogged` test in discovery (main.go:193).
- The drain pops one pod at a time until `GetPodFromQueue` reports an empty queue (main.go:208-212).
- Probes run one after another on the loop's own goroutine, and the loop ends only on a signal (main.go:223-231).
- A pod is keyed by namespace and name only (main.go:73, 77). A restarted pod with the same name is never probed again (`MarkThenLogged`, `EnqueuedNeverLoggedOrForeign`).

## Model

| member | source | states |
|---|---|---|
| Pods.KeyInjective | main.go:72-79 | for slash-free namespaces, two pods share a logged key iff they have the same namespace and name |
| Pods.KeyCollision | main.go:73-77 | without that restriction, two different pods (`a/b`,`c`) and (`a`,`b/c`) share the key `a/b/c` |
| JobQueues.EmptyQueue | main.go:166-168 | the tracker starts with nothing pending and nothing logged |
| JobQueues.AddPodToQueue | main.go:59-61 | the old queue is a prefix of the new one, the new pod is the last element, and the logged set is unchanged |
| JobQueues.GetPodFromQueue | main.go:63-70 | an empty queue reports no pod and is left unchanged; otherwise the head is returned, the rest of the queue remains, and the logged set is unchanged |
| JobQueues.MarkPodAsLogged | main.go:72-74 | the pod's key is added to the logged set and the pending pods are untouched |
| JobQueues.AddAllAppends | main.go:59-61 | after any run of appends the queue is the old contents followed by the appended pods, in order |
| JobQueues.PopAllInOrder | main.go:63-70 | popping a queue as many times as it is long yields its contents in order and leaves it empty |
| JobQueues.FifoOrder | main.go:59-70 | FIFO: popped pods come out as the old contents followed by the appended pods in append order |
| JobQueues.FifoTwo | main.go:59-70 | adding `a` then `b` to an empty queue pops `a` first and `b` second |
| JobQueues.MarkThenLogged | main.go:72-79 | after marking `p`, any pod with `p`'s namespace and name is logged whatever its start time, and logged pods stay logged; with slash-free namespaces nothing else becomes logged |
| Namespaces.TargetIffPrefix | main.go:235-237 | the length-and-slice test holds iff the prefix is a sequence prefix of the name, that is, iff the name is the prefix plus a suffix |
| Namespaces.ExtensionIsTarget | main.go:235-237 | every name formed by extending the prefix is accepted |
| Namespaces.TargetEdgeCases | main.go:235-237 | the empty prefix accepts every name; a name shorter than the prefix, or one differing from it inside the prefix's length, is rejected |
| Namespaces.DefaultPrefixExamples | main.go:148-150 | under the default prefix `logger-ns`, `logger-ns-a` is watched and `other-ns` and `logger` are not |
| Loki.GetLokiLogs | main.go:98-129 | a probe succeeds iff the request went through, the status is 200, the body decoded and the result list is non-empty; a success carries the pod's namespace and name with latency now minus start time; a non-200 status yields that status as the error and an empty result yields the no-logs error |
| Discovery.DiscoveryPass | main.go:182-206 | the queue becomes the old queue followed by exactly the reference sequence of pods to enqueue, in namespace-then-pod listing order, and the logged set is unchanged |
| Discovery.NotTargetEnqueuesNothing | main.go:183-185 | a namespace without the prefix contributes no pods |
| Discovery.NamespaceEnqueuedExactly | main.go:192-205 | a pod is enqueued from a namespace iff it is listed there with a start time, the namespace carries the prefix, and its key is not logged |
| Discovery.EnqueuedExactly | main.go:182-206 | a pass enqueues exactly the listed pods of prefixed namespaces that have a start time and are not logged |
| Discovery.EnqueuedNeverLoggedOrForeign | main.go:182-206 | no enqueued pod is already logged, and every enqueued pod lies in a namespace carrying the prefix |
| Drain.DrainQueue | main.go:208-221 | after the drain the queue is empty; the logged set grows by exactly the keys of successfully probed pods; the sample list grows by one sample per success, in pop order |
| Drain.SamplesFromSuccesses | main.go:214-220 | there are no more samples than drained pods, and each sample is the result of a successful probe of a drained pod |
| Drain.ResolvedKeysExactly | main.go:214-219 | a key is marked by a drain iff some drained pod with that key was probed successfully |
| Drain.ResolvedKeysAreSampleKeys | main.go:217-219 | the keys a drain marks are exactly the keys of the samples it records |
| Engine.Cycle | main.go:176-221 | after one discover-and-drain iteration the queue is empty, the logged set has only grown, old samples are kept as a prefix, and the dedup invariant is preserved for well-formed listings |
| Engine.NamespaceEnqueuedDistinct | main.go:192-205 | with unique pod names, one namespace's contribution has pairwise different keys |
| Engine.EnqueuedDistinct | main.go:182-206 | a pass over a listing with unique, slash-free namespace names and unique pod names enqueues each key at most once |
| Engine.SamplesDistinct | main.go:208-221 | draining pods with distinct keys records samples with distinct keys, each the key of a drained pod |
| Engine.InitiallyTracked | main.go:166-170 | the run-level invariant holds in the state the loop starts from: an empty queue, an empty logged set and no samples |
| Engine.DrainKeepsTracked | main.go:208-221 | draining unlogged pods with pairwise different keys keeps every sample's pod logged and keeps sample keys unique |
| Engine.CyclePreservesTracked | main.go:176-221 | for a well-formed listing (unique, slash-free namespace names and unique pod names per namespace), starting from a drained queue in which every sample's pod is logged and no key repeats among samples, the same holds after the iteration |
| Engine.RetryScenario | main.go:176-221 | a pod whose first probe finds no logs gets no sample and stays unlogged; a later pass requeues it and its successful probe records the five-second latency; after that it is never enqueued again |
| Engine.DuplicateListingSampledTwice | main.go:192-220 | a listing that names the same pod twice is not well-formed; the pass enqueues the pod twice, and two successful probes record two samples with the same key, so the well-formedness hypothesis of `CyclePreservesTracked` is needed |
| Stats.TruncDiv | main.go:267 | the quotient is rounded toward zero: the remainder lies in `[0, b)` for a non-negative dividend and in `(-b, 0]` for a negative one |
| Stats.MinOf | main.go:262-264 | the running minimum is an element of the list and no larger than any element |
| Stats.MaxOf | main.go:259-261 | the running maximum is an element of the list and no smaller than any element |
| Stats.Summarize | main.go:245-267 | with no samples the outcome is "no logged pods" and there is no division; otherwise min and max are latencies of some samples, bound every latency, and the mean is the truncated quotient of the total by the count |
| Stats.ComputeTimeDiffStats | main.go:245-268 | the Go loop computes the same statistics as the reference `Summarize` |
| Stats.SumBounds | main.go:256-258 | a lower and upper bound on every latency bound the total by count times the bound |
| Stats.TruncDivBetween | main.go:267 | a truncated quotient of a total lying between `lo*n` and `hi*n` lies between `lo` and `hi` |
| Stats.MeanBetweenExtremes | main.go:251-267 | the mean lies between the minimum and the maximum |
| Stats.ThreeSamplesExample | main.go:245-267 | latencies of 2s, 4s and 6s give min 2s, max 6s and mean 4s |

## Left out

- Configuration loading and defaulting (main.go:133-154): file I/O and a YAML decoder. The defaulting of an empty prefix to `logger-ns` (main.go:148-150) is not modelled: `DiscoveryPass` takes the prefix as given. The default value appears only in the examples `DefaultPrefixExamples` and `RetryScenario`.
- Kubernetes client construction and the namespace and pod `List` calls (main.go:156-164, 177-180, 187-190). Their results are the `listing` input. The `log.Fatalf` exits on listing failure end the process and are not modelled.
- HTTP request building and sending in `getLokiLogs` (main.go:82-116): the LogQL query text, URL parameters, the `X-Scope-OrgID` header, and the client call. Their outcome is a `QueryReply`. The wall-clock read for the window end (main.go:88) goes only into the request, so it is not modelled.
- `time.Now()` at main.go:119 is the `now` field of each `Observation`, so the clock is an input.
- Signal handling and the non-blocking `select` that ends the loop (main.go:172-174, 223-231): OS signals. `Engine.Cycle` models one iteration; the signal decides only how many iterations run.
- All printing and logging: `printLoggedPods` (main.go:239-243), the per-sample lines and the summary lines of the stats printer, and `log.Printf` calls. Only the computed values are modelled.
- Loki.GetLokiLogs: latency is `now - startTime` as an unbounded integer. Go's `Time.Sub` saturates at the int64 `Duration` range, and that saturation is not modelled.
- Stats.Summarize: the total is an unbounded sum. The int64 overflow of `totalTimeDiff` (main.go:258) for huge totals is not modelled.
- Stats.ComputeTimeDiffStats: same unbounded-total assumption as `Summarize`.
- Go strings are byte strings and the prefix test compares bytes. Names here are sequences of characters, compared element-wise.
- `time.Time` values (wall clock plus monotonic reading) are reduced to Unix nanoseconds.
