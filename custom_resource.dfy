/**
 * The custom-resource envelope of tasks/common.py: the response dict a
 * CloudFormation custom-resource handler fills in, the conversion of a raised
 * exception into a FAILED response, and the single PUT of the response to the
 * pre-signed URL CloudFormation supplied.
 */
module CustomResource {
  import opened Wrappers

  /** A value of the response dict: a string or JSON null. */
  datatype JVal = JNull | JStr(s: string)

  type Response = map<string, JVal>

  /** The fields of the custom-resource request event; an absent key is absent. */
  type Event = map<string, string>

  /** A raised Python exception: its class name, str() of it, and whether its
      class derives from Exception (KeyboardInterrupt, SystemExit and
      GeneratorExit derive from BaseException only). */
  datatype Exc = Exc(typeName: string, message: string, isException: bool)

  /** The KeyError a dict lookup of a missing key raises; str() quotes the key. */
  function KeyError(key: string): Exc
  {
    Exc("KeyError", "'" + key + "'", true)
  }

  /** What the body of the `with` block did with the response dict it was given. */
  datatype Outcome = Completed(resource: Response) | Raised(resource: Response, exc: Exc)

  /** The HTTP request sent to CloudFormation. The body is the JSON of
      `payload`; the serialisation itself is not modelled. */
  datatype Request = Request(httpMethod: string, url: string, payload: Response, headers: map<string, string>)

  /** The dict created on entry: SUCCESS, the three identifiers copied from the
      event (KeyError for the first one missing) and the event's
      PhysicalResourceId, or null. */
  function InitialResponse(event: Event): Result<Response, Exc>
  {
    if "LogicalResourceId" !in event then Failure(KeyError("LogicalResourceId"))
    else if "RequestId" !in event then Failure(KeyError("RequestId"))
    else if "StackId" !in event then Failure(KeyError("StackId"))
    else Success(map[
      "Status" := JStr("SUCCESS"),
      "LogicalResourceId" := JStr(event["LogicalResourceId"]),
      "RequestId" := JStr(event["RequestId"]),
      "StackId" := JStr(event["StackId"]),
      "PhysicalResourceId" := if "PhysicalResourceId" in event then JStr(event["PhysicalResourceId"]) else JNull])
  }

  /** resource.update on failure: Status FAILED and Reason "<Type>: <message>". */
  function Failed(resource: Response, e: Exc): Response
  {
    resource["Status" := JStr("FAILED")]["Reason" := JStr(e.typeName + ": " + e.message)]
  }

  /** The dict once the `with` block has finished: an Exception is turned into
      FAILED, a BaseException escapes. */
  function AfterBody(outcome: Outcome): Result<Response, Exc>
  {
    match outcome
    case Completed(r) => Success(r)
    case Raised(r, e) => if e.isException then Success(Failed(r, e)) else Failure(e)
  }

  function Put(event: Event, payload: Response): Request
    requires "ResponseURL" in event
  {
    Request("PUT", event["ResponseURL"], payload, map["Content-Type" := ""])
  }

  /** One invocation: whether the handler returns or raises, and the requests
      it sends. A handler written as a `with` block around the envelope returns
      None: the dict the generator returns is dropped by the context manager,
      so the response only leaves through the PUT. */
  function Invocation(event: Event, body: Response -> Outcome): (Result<(), Exc>, seq<Request>)
  {
    match InitialResponse(event)
    case Failure(e) => (Failure(e), [])
    case Success(r0) =>
      match AfterBody(body(r0))
      case Failure(e) => (Failure(e), [])
      case Success(r) =>
        if "ResponseURL" in event then (Success(()), [Put(event, r)])
        else (Failure(KeyError("ResponseURL")), [])
  }

  /** The connection to CloudFormation: the requests sent so far. */
  class ResponseChannel {
    var sent: seq<Request>

    constructor ()
      ensures sent == []
    {
      sent := [];
    }

    /** urllib.request.urlopen of one request. */
    method Send(request: Request)
      modifies this
      ensures sent == old(sent) + [request]
    {
      sent := sent + [request];
    }
  }

  /** cloudformation_custom_resource wrapped around a handler body. */
  method CloudFormationCustomResource(event: Event, body: Response -> Outcome, channel: ResponseChannel)
    returns (result: Result<(), Exc>)
    modifies channel
    ensures result == Invocation(event, body).0
    ensures channel.sent == old(channel.sent) + Invocation(event, body).1
  {
    var initial := InitialResponse(event);
    if initial.Failure? {
      return Failure(initial.error);
    }
    var resource := initial.value;
    var outcome := body(resource);
    resource := outcome.resource;
    if outcome.Raised? {
      if !outcome.exc.isException {
        return Failure(outcome.exc);
      }
      resource := resource["Status" := JStr("FAILED")]["Reason" := JStr(outcome.exc.typeName + ": " + outcome.exc.message)];
    }
    if "ResponseURL" !in event {
      return Failure(KeyError("ResponseURL"));
    }
    channel.Send(Request("PUT", event["ResponseURL"], resource, map["Content-Type" := ""]));
    result := Success(());
  }

  /** The envelope starts as SUCCESS with the event's identifiers copied
      verbatim, exactly when the event carries all three. */
  lemma InitialResponseFields(event: Event)
    ensures InitialResponse(event).Success? <==>
            "LogicalResourceId" in event && "RequestId" in event && "StackId" in event
    ensures InitialResponse(event).Success? ==>
              var r := InitialResponse(event).value;
              r.Keys == {"Status", "LogicalResourceId", "RequestId", "StackId", "PhysicalResourceId"} &&
              r["Status"] == JStr("SUCCESS") &&
              r["LogicalResourceId"] == JStr(event["LogicalResourceId"]) &&
              r["RequestId"] == JStr(event["RequestId"]) &&
              r["StackId"] == JStr(event["StackId"]) &&
              r["PhysicalResourceId"] == (if "PhysicalResourceId" in event then JStr(event["PhysicalResourceId"]) else JNull)
    ensures InitialResponse(event).Failure? ==>
              InitialResponse(event).error.typeName == "KeyError" &&
              InitialResponse(event).error.message in {"'LogicalResourceId'", "'RequestId'", "'StackId'"}
  {
    assert "'" + "LogicalResourceId" + "'" == "'LogicalResourceId'";
    assert "'" + "RequestId" + "'" == "'RequestId'";
    assert "'" + "StackId" + "'" == "'StackId'";
  }

  /** An Exception raised by the body is not raised again: the response is
      the dict as the body left it, with Status FAILED and the reason, and
      every other field, a PhysicalResourceId the body set included, kept. */
  lemma ExceptionBecomesFailed(event: Event, body: Response -> Outcome)
    requires InitialResponse(event).Success? && "ResponseURL" in event
    requires body(InitialResponse(event).value).Raised? && body(InitialResponse(event).value).exc.isException
    ensures var out := body(InitialResponse(event).value);
            var (r, sent) := Invocation(event, body);
            r.Success? && |sent| == 1 &&
            var p := sent[0].payload;
            p["Status"] == JStr("FAILED") &&
            p["Reason"] == JStr(out.exc.typeName + ": " + out.exc.message) &&
            p.Keys == out.resource.Keys + {"Status", "Reason"} &&
            forall k :: k in out.resource && k != "Status" && k != "Reason" ==> p[k] == out.resource[k]
  {
  }

  /** Exactly one response is sent unless the envelope cannot be built, a
      BaseException escapes the body or the event has no ResponseURL; the
      response sent is the PUT to ResponseURL of the dict as the body left it,
      made FAILED when the body raised an Exception. */
  lemma OneResponse(event: Event, body: Response -> Outcome)
    ensures var (r, sent) := Invocation(event, body);
            |sent| <= 1 && (|sent| == 1 <==> r.Success?) &&
            (|sent| == 1 ==>
              InitialResponse(event).Success? && "ResponseURL" in event &&
              AfterBody(body(InitialResponse(event).value)).Success? &&
              sent[0] == Request("PUT", event["ResponseURL"], AfterBody(body(InitialResponse(event).value)).value, map["Content-Type" := ""]))
    ensures (Invocation(event, body).1 != []) <==>
            InitialResponse(event).Success? && "ResponseURL" in event &&
            !(body(InitialResponse(event).value).Raised? && !body(InitialResponse(event).value).exc.isException)
  {
  }

  /** The body leaves Status and Reason as it found them. */
  predicate KeepsStatus(before: Response, after: Response)
  {
    ("Status" in before <==> "Status" in after) &&
    ("Status" in before ==> after["Status"] == before["Status"]) &&
    ("Reason" in before <==> "Reason" in after)
  }

  /** For a body that leaves Status and Reason alone, the response sent is
      SUCCESS or FAILED, with a Reason exactly when it is FAILED. */
  lemma StatusIsSuccessOrFailed(event: Event, body: Response -> Outcome)
    requires InitialResponse(event).Success?
    requires KeepsStatus(InitialResponse(event).value, body(InitialResponse(event).value).resource)
    ensures forall q :: q in Invocation(event, body).1 ==>
              "Status" in q.payload &&
              (q.payload["Status"] == JStr("SUCCESS") || q.payload["Status"] == JStr("FAILED")) &&
              ("Reason" in q.payload <==> q.payload["Status"] == JStr("FAILED"))
  {
    var r0 := InitialResponse(event).value;
    assert "Reason" !in r0;
  }
}
