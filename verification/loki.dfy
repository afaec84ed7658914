/** The decision at the end of `getLokiLogs` (main.go): a probe of the Loki
    `query_range` endpoint succeeds only when the request went through, the
    status is 200, the body decoded, and the decoded result list is
    non-empty. Building and sending the HTTP request is not modelled: its
    outcome arrives here as a `QueryReply`. */
module Loki {
  import opened Wrappers
  import opened Pods

  /** `http.StatusOK`. */
  const StatusOK: int := 200

  /** What one query_range call came back with. `RequestFailed` covers
      `http.NewRequest` and `http.DefaultClient.Do` returning an error. A
      `Response` carries the HTTP status and, when the body was read and
      unmarshalled, the length of `data.result`. */
  datatype QueryReply =
    | RequestFailed
    | Response(statusCode: int, resultCount: Option<nat>)

  /** Why a probe did not produce a sample. */
  datatype ProbeError =
    | RequestError
    | BadStatus(statusCode: int)
    | BodyError
    | NoLogsFound(podName: string)

  datatype ProbeResult = Found(sample: LoggedPodInfo) | Failed(err: ProbeError)

  /** `getLokiLogs` given the reply and the clock reading `now` taken once
      logs were seen: the sample's latency is `now` minus the pod's start. */
  function GetLokiLogs(pod: PodInfo, reply: QueryReply, now: int): (r: ProbeResult)
    ensures r.Found? <==>
      reply.Response? && reply.statusCode == StatusOK && reply.resultCount.Some? && reply.resultCount.value > 0
    ensures r.Found? ==>
      && r.sample.namespace == pod.namespace
      && r.sample.podName == pod.podName
      && r.sample.timeDiff == now - pod.startTime
      && SampleKey(r.sample) == PodKey(pod)
    ensures r.Failed? && reply.Response? && reply.statusCode != StatusOK ==> r.err == BadStatus(reply.statusCode)
    ensures r.Failed? && reply == Response(StatusOK, Some(0)) ==> r.err == NoLogsFound(pod.podName)
  {
    match reply
    case RequestFailed => Failed(RequestError)
    case Response(status, count) =>
      if status != StatusOK then Failed(BadStatus(status))
      else match count
        case None => Failed(BodyError)
        case Some(n) =>
          if n > 0 then Found(LoggedPodInfo(pod.namespace, pod.podName, now - pod.startTime))
          else Failed(NoLogsFound(pod.podName))
  }
}
