/** The two records the tracker passes around (main.go, `PodInfo` and
    `LoggedPodInfo`) and the string key under which a pod is remembered as
    logged.

    Timestamps are nanoseconds since the Unix epoch and durations are
    nanoseconds, both as unbounded integers. */
module Pods {

  /** A pod waiting to be probed: where it runs, its name, and when it started. */
  datatype PodInfo = PodInfo(namespace: string, podName: string, startTime: int)

  /** One latency sample: the pod, and how long after its start its first log
      line was seen. */
  datatype LoggedPodInfo = LoggedPodInfo(namespace: string, podName: string, timeDiff: int)

  /** The key `fmt.Sprintf("%s/%s", namespace, name)`. */
  function Key(namespace: string, name: string): (k: string)
    ensures |k| == |namespace| + 1 + |name|
    ensures k[..|namespace|] == namespace && k[|namespace|] == '/'
    ensures k[|namespace| + 1..] == name
  {
    namespace + "/" + name
  }

  function PodKey(p: PodInfo): string {
    Key(p.namespace, p.podName)
  }

  function SampleKey(s: LoggedPodInfo): string {
    Key(s.namespace, s.podName)
  }

  /** Kubernetes namespace names are DNS labels, so they never contain '/'. */
  predicate NoSlash(s: string) {
    forall i :: 0 <= i < |s| ==> s[i] != '/'
  }

  /** With a slash-free namespace the key determines both of its parts: the
      first '/' of the key is the separator. */
  lemma KeyInjective(ns1: string, n1: string, ns2: string, n2: string)
    requires NoSlash(ns1) && NoSlash(ns2)
    ensures Key(ns1, n1) == Key(ns2, n2) <==> ns1 == ns2 && n1 == n2
  {
  }

  /** Without that restriction two different pods can share a key. */
  lemma KeyCollision()
    ensures Key("a/b", "c") == Key("a", "b/c")
    ensures PodInfo("a/b", "c", 0) != PodInfo("a", "b/c", 0)
  {
  }
}
