/**
  A supervised experiment: its points are scheduled one at a time by the client and the
  experiment is marked as complete by it. The HTTP exchange is not modelled: each method returns
  the requests it sends and is given the responses the service answers them with, in the order
  they are sent; a response carries whether `Client.ValidateResponseStatus` accepts it.
*/
module Supervised {
  import opened Wrappers
  import opened Scalarm
  import opened ValuesMaps
  import opened Rest

  /** `SchedulePointResult` together with the HTTP-level validation of its response. */
  datatype SchedulePointResponse = SchedulePointResponse(validation: Option<Error>, status: string, index: Int32)

  /** `ScalarmStatus` together with the HTTP-level validation of its response. */
  datatype StatusResponse = StatusResponse(validation: Option<Error>, status: string)

  /**
    `HandleSchedulePointResponse`: a rejected response raises its validation error; otherwise
    status "ok" yields the index, "error" is a `SchedulePointException` and any other status an
    `InvalidResponseException`.
  */
  function HandleSchedulePointResponse(response: SchedulePointResponse): (r: Result<Int32, Error>)
    ensures r.Success? <==> response.validation.None? && response.status == "ok"
    ensures r.Success? ==> r.value == response.index
    ensures response.validation.Some? ==> r == Failure(response.validation.value)
    ensures response.validation.None? && response.status == "error" ==> r == Failure(SchedulePointFailed)
    ensures response.validation.None? && response.status !in {"ok", "error"} ==> r == Failure(InvalidResponse)
  {
    match response.validation
    case Some(e) => Failure(e)
    case None =>
      if response.status == "ok" then Success(response.index)
      else if response.status == "error" then Failure(SchedulePointFailed)
      else Failure(InvalidResponse)
  }

  /** The request `SchedulePoint` sends: a POST to the experiment's schedule_point path, carrying only the point. */
  function SchedulePointRequest(experimentId: string, pointJson: string): (d: RequestData)
    ensures d.resource == "experiments/" + experimentId + "/schedule_point" && d.httpMethod == POST
    ensures |d.parameters| == 1 && d.parameters[0] == Parameter(GetOrPost, "point", pointJson)
  {
    RequestData("experiments/" + experimentId + "/schedule_point", POST, [Parameter(GetOrPost, "point", pointJson)])
  }

  /**
    The request `MarkAsComplete` sends: the status says whether the run succeeded, the results
    always follow, and a reason is the third parameter exactly when one is given.
  */
  function MarkAsCompleteRequest(experimentId: string, results: string, success: bool, errorReason: Option<string>): (d: RequestData)
    ensures d.resource == "experiments/" + experimentId + "/mark_as_complete" && d.httpMethod == POST
    ensures 2 <= |d.parameters| && (|d.parameters| == 3 <==> errorReason.Some?)
    ensures d.parameters[0].name == "status" && (d.parameters[0].value == "ok" <==> success)
    ensures d.parameters[0].value == "error" <==> !success
    ensures d.parameters[1] == Parameter(GetOrPost, "results", results)
    ensures errorReason.None? ==> |d.parameters| == 2
    ensures errorReason.Some? ==> d.parameters[2] == Parameter(GetOrPost, "reason", errorReason.value)
    ensures forall i :: 0 <= i < |d.parameters| ==> d.parameters[i].kind == GetOrPost
  {
    var reason := if errorReason.Some? then [Parameter(GetOrPost, "reason", errorReason.value)] else [];
    RequestData("experiments/" + experimentId + "/mark_as_complete", POST,
      [Parameter(GetOrPost, "status", if success then "ok" else "error"), Parameter(GetOrPost, "results", results)] + reason)
  }

  /** How a mark-as-complete response ends the call: normally iff it is valid and its status is "ok". */
  function MarkAsCompleteOutcome(response: StatusResponse): (o: Outcome<Error>)
    ensures o.Pass? <==> response.validation.None? && response.status == "ok"
    ensures response.validation.Some? ==> o == Fail(response.validation.value)
    ensures response.validation.None? && response.status != "ok" ==> o == Fail(MarkAsCompleteFailed)
  {
    match response.validation
    case Some(e) => Fail(e)
    case None => if response.status == "ok" then Pass else Fail(MarkAsCompleteFailed)
  }

  class SupervisedExperiment {
    const id: string

    constructor (id: string)
      ensures this.id == id
    {
      this.id := id;
    }

    /**
      `SchedulePoint`: sends the point as JSON to the schedule_point path and returns what
      `HandleSchedulePointResponse` makes of the service's `response`.
    */
    method SchedulePoint(point: ValuesMap, toJson: seq<Entry> -> string, response: SchedulePointResponse)
      returns (sent: RequestData, r: Result<Int32, Error>)
      ensures sent == SchedulePointRequest(id, toJson(point.entries))
      ensures r == HandleSchedulePointResponse(response)
    {
      var request := new RestRequest("experiments/" + id + "/schedule_point", POST);
      request.AddParameter("point", toJson(point.entries));
      sent := request.Data();
      r := HandleSchedulePointResponse(response);
    }

    /**
      `SchedulePoints`: schedules the points one after the other, `responses[i]` being the
      service's answer to the i-th request. On success there is one index per point, the i-th
      being the index Scalarm gave the i-th point; the first point that fails ends the loop with
      its error, and no later point is sent.
    */
    method SchedulePoints(points: seq<ValuesMap>, toJson: seq<Entry> -> string, responses: seq<SchedulePointResponse>)
      returns (sent: seq<RequestData>, r: Result<seq<Int32>, Error>)
      requires |points| <= |responses|
      ensures 0 <= |sent| <= |points|
      ensures forall i :: 0 <= i < |sent| ==> sent[i] == SchedulePointRequest(id, toJson(points[i].entries))
      ensures r.Success? ==> (|sent| == |points| && |r.value| == |points|
        && forall i :: 0 <= i < |points| ==> HandleSchedulePointResponse(responses[i]) == Success(r.value[i]))
      ensures r.Failure? ==> (|sent| >= 1
        && HandleSchedulePointResponse(responses[|sent| - 1]) == Failure(r.error)
        && forall i :: 0 <= i < |sent| - 1 ==> HandleSchedulePointResponse(responses[i]).Success?)
      ensures r.Success? <==> forall i :: 0 <= i < |points| ==> HandleSchedulePointResponse(responses[i]).Success?
    {
      var indexes: seq<Int32> := [];
      sent := [];
      for n := 0 to |points|
        invariant |sent| == n && |indexes| == n
        invariant forall i :: 0 <= i < n ==> sent[i] == SchedulePointRequest(id, toJson(points[i].entries))
        invariant forall i :: 0 <= i < n ==> HandleSchedulePointResponse(responses[i]) == Success(indexes[i])
      {
        var request, index := SchedulePoint(points[n], toJson, responses[n]);
        sent := sent + [request];
        if index.Failure? {
          return sent, Failure(index.error);
        }
        indexes := indexes + [index.value];
      }
      return sent, Success(indexes);
    }

    /**
      `MarkAsComplete`: posts status "ok" or "error", the results and, when given, the reason,
      then ends normally iff the service's `response` is valid and says "ok".
    */
    method MarkAsComplete(results: string, success: bool, errorReason: Option<string>, response: StatusResponse)
      returns (sent: RequestData, outcome: Outcome<Error>)
      ensures sent == MarkAsCompleteRequest(id, results, success, errorReason)
      ensures outcome == MarkAsCompleteOutcome(response)
    {
      var request := new RestRequest("experiments/" + id + "/mark_as_complete", POST);
      request.AddParameter("status", if success then "ok" else "error");
      request.AddParameter("results", results);
      if errorReason.Some? {
        request.AddParameter("reason", errorReason.value);
      }
      sent := request.Data();
      outcome := MarkAsCompleteOutcome(response);
    }
  }
}
