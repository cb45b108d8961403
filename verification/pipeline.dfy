/** The tracing interceptor `SQSXRayPipelineHandler`: for each instrumented
    queue call it opens a subsegment, injects the trace header, runs the next
    pipeline stage, records a failure of that stage, and in its `finally` step
    fills in the subsegment's attributes and ends it. */
module Pipeline {
  import opened Common
  import opened HttpStatusCodes
  import opened Int32Text
  import opened Names
  import opened Models
  import opened Extraction
  import opened TraceHeaderInjection
  import opened Tracing

  const S3RequestIdHeaderKey: string := "x-amz-request-id"
  const S3ExtendedRequestIdHeaderKey: string := "x-amz-id-2"
  const ExtendedRequestIdSegmentKey: string := "id_2"
  const RequestIdHeaderKey: string := "x-amzn-RequestId"

  /** The client configuration, reduced to `RegionEndpoint?.SystemName`. */
  datatype ClientConfig = ClientConfig(regionSystemName: Option<string>)

  datatype ResponseMetadata = ResponseMetadata(requestId: Option<string>)

  /** The unmarshalled service response: its properties and its (nullable) metadata. */
  datatype Response = Response(body: Object, metadata: Option<ResponseMetadata>)

  datatype WebResponseData = WebResponseData(statusCode: int, contentLength: int)

  /** The response context as the next stage leaves it; both parts may be null. */
  datatype ResponseContext = ResponseContext(response: Option<Response>, httpResponse: Option<WebResponseData>)

  /** The rest of the pipeline, as seen from the interceptor: the exception it
      throws, if any, and the response context it leaves behind. */
  datatype NextStage = NextStage(thrown: Option<Exception>, responseContext: Option<ResponseContext>)

  /** A nullable string stored into a span. */
  function OptionalStr(s: Option<string>): (v: Value)
    ensures s.Some? <==> v.Str?
    ensures s.Some? ==> v == Str(s.value)
  {
    if s.Some? then Str(s.value) else Null
  }

  /** `RemoveSuffix(typeName, "Request")`: the operation name of a request object. */
  function OperationName(originalRequest: Object): (operation: string)
    ensures EndsWith(originalRequest.typeName, "Request") ==> operation + "Request" == originalRequest.typeName
    ensures !EndsWith(originalRequest.typeName, "Request") ==> operation == originalRequest.typeName
  {
    RemoveSuffix(Some(originalRequest.typeName), Some("Request")).value
  }

  /** The flag marking of `AddHttpInformation` and `ProcessException`: a non-2xx
      status marks an error, 429 also a throttle; the fault arm sits behind an
      `else` and so only sees 2xx statuses. */
  function Classified(e: Entity, statusCode: int): (r: Entity)
    ensures r.hasError == (e.hasError || !IsSuccessStatusCode(statusCode))
    ensures r.isThrottled == (e.isThrottled || statusCode == 429)
    ensures r.hasFault == e.hasFault
    ensures r.(hasError := e.hasError, isThrottled := e.isThrottled) == e
  {
    if !IsSuccessStatusCode(statusCode) then
      var marked := e.(hasError := true);
      if IsTooManyRequests(statusCode) then marked.(isThrottled := true) else marked
    else if IsFault(statusCode) then e.(hasFault := true)
    else e
  }

  /** The current entity after `AddHttpInformation(httpResponse)`. */
  function HttpRecorded(e: Entity, httpResponse: WebResponseData): Entity {
    var marked := Classified(e, httpResponse.statusCode);
    marked.(http := marked.http["response" := map["status" := Int(httpResponse.statusCode),
                                                  "content_length" := Int(httpResponse.contentLength)]])
  }

  /** The current entity after `ProcessException` for a service exception. */
  function ExceptionRecorded(e: Entity, statusCode: int, requestId: Option<string>): Entity {
    var marked := Classified(e, statusCode);
    var withHttp := marked.(http := marked.http["response" := map["status" := Int(statusCode)]]);
    withHttp.(aws := withHttp.aws["request_id" := OptionalStr(requestId)])
  }

  /** The recorder after `PopulateException(ex)`. */
  function ExceptionCaptured(st: TraceState, ex: Exception): (r: TraceState)
    ensures r.closed == st.closed && |r.open| == |st.open|
    ensures r.missingReports == st.missingReports + (if st.open == [] then 1 else 0)
  {
    if st.open == [] then st.(missingReports := st.missingReports + 1)
    else
      var e := Top(st.open);
      var withException := e.(exceptions := e.exceptions + [ex]);
      var recorded := if ex.ServiceException? then ExceptionRecorded(withException, ex.statusCode, ex.requestId)
                      else withException;
      st.(open := WithTop(st.open, recorded))
  }

  /** The request id attributes read from the request headers when there is no
      response object: "x-amzn-RequestId", or else the S3 pair. */
  function RequestIdFromHeaders(aws: map<string, Value>, headers: map<string, string>): map<string, Value> {
    if RequestIdHeaderKey in headers then aws["request_id" := Str(headers[RequestIdHeaderKey])]
    else
      var withId := if S3RequestIdHeaderKey in headers then aws["request_id" := Str(headers[S3RequestIdHeaderKey])] else aws;
      if S3ExtendedRequestIdHeaderKey in headers then
        withId[ExtendedRequestIdSegmentKey := Str(headers[S3ExtendedRequestIdHeaderKey])]
      else withId
  }

  /** What `AddResponseSpecificInformation` makes of `aws` with non-null arguments. */
  function ResponseInformation(snake: string -> string, table: ServiceHandler, operation: string,
                               response: Object, aws: map<string, Value>): map<string, Value> {
    if operation in table.operations then ResponseSide(snake, table.operations[operation], response, aws) else aws
  }

  /** What `AddRequestSpecificInformation` makes of `aws` with non-null arguments. */
  function RequestInformation(snake: string -> string, table: ServiceHandler, operation: string,
                              request: Object, aws: map<string, Value>): (map<string, Value>, Option<Exception>) {
    if operation in table.operations then RequestSide(snake, table.operations[operation], request, aws) else (aws, None)
  }

  /** The entity with the region and the operation written to its `aws` bag. */
  function WithRegionAndOperation(sub: Entity, operation: string, clientConfig: ClientConfig): (e: Entity)
    ensures e.aws.Keys == sub.aws.Keys + {"region", "operation"} && e.aws["operation"] == Str(operation)
    ensures e.(aws := sub.aws) == sub
  {
    sub.(aws := sub.aws["region" := OptionalStr(clientConfig.regionSystemName)]["operation" := Str(operation)])
  }

  /** The entity after the request id (from the request headers when there is no
      response object, from the response metadata otherwise), the response fields
      and the HTTP outcome are recorded. */
  function ResponseRecorded(snake: string -> string, table: ServiceHandler, e: Entity, operation: string,
                            headers: map<string, string>, rc: ResponseContext): Entity
    requires rc.response.Some? ==> rc.response.value.metadata.Some?
  {
    var withResponse :=
      if rc.response.None? then RequestIdFromHeaders(e.aws, headers)
      else ResponseInformation(snake, table, operation, rc.response.value.body,
                               e.aws["request_id" := OptionalStr(rc.response.value.metadata.value.requestId)]);
    if rc.httpResponse.Some? then HttpRecorded(e.(aws := withResponse), rc.httpResponse.value)
    else e.(aws := withResponse)
  }

  /** The current entity after `ProcessEndRequest` has written its attributes, and
      what it throws while writing them: region and operation, then the request id
      and the response fields (a null response metadata throws), then the HTTP
      outcome, then the request fields. */
  function AttributesRecorded(snake: string -> string, table: ServiceHandler, sub: Entity, operation: string,
                              headers: map<string, string>, originalRequest: Object, clientConfig: ClientConfig,
                              rc: ResponseContext): (r: (Entity, Option<Exception>))
    ensures r.0.name == sub.name && r.0.ns == sub.ns && r.0.exceptions == sub.exceptions && r.0.hasFault == sub.hasFault
    ensures rc.response.Some? && rc.response.value.metadata.None? ==> r == (WithRegionAndOperation(sub, operation, clientConfig), Some(NullReference))
    ensures rc.httpResponse.Some? && !(rc.response.Some? && rc.response.value.metadata.None?) ==>
              && "response" in r.0.http
              && r.0.http["response"] == map["status" := Int(rc.httpResponse.value.statusCode),
                                             "content_length" := Int(rc.httpResponse.value.contentLength)]
              && r.0.hasError == (sub.hasError || !IsSuccessStatusCode(rc.httpResponse.value.statusCode))
  {
    var e := WithRegionAndOperation(sub, operation, clientConfig);
    if rc.response.Some? && rc.response.value.metadata.None? then (e, Some(NullReference))
    else
      var withHttp := ResponseRecorded(snake, table, e, operation, headers, rc);
      var (finalAws, err) := RequestInformation(snake, table, operation, originalRequest, withHttp.aws);
      (withHttp.(aws := finalAws), err)
  }

  /** The recorder after `ProcessEndRequest`, and what it throws: the subsegment is
      ended only when writing its attributes did not throw. */
  function EndRequest(snake: string -> string, table: ServiceHandler, st: TraceState,
                      serviceName: Option<string>, headers: map<string, string>, originalRequest: Option<Object>,
                      clientConfig: Option<ClientConfig>, responseContext: Option<ResponseContext>)
    : (r: (TraceState, Option<Exception>))
    ensures r.0.missingReports == st.missingReports + (if st.open == [] then 1 else 0)
    ensures |st.closed| <= |r.0.closed| <= |st.closed| + 1 && r.0.closed[..|st.closed|] == st.closed
    ensures |r.0.open| + |r.0.closed| == |st.open| + |st.closed|
    ensures st.open != [] ==> |r.0.open| >= |st.open| - 1 && r.0.open[..|st.open| - 1] == st.open[..|st.open| - 1]
    ensures |r.0.closed| == |st.closed| + 1 ==>
              && r.1.None?
              && r.0.closed[|st.closed|].name == Top(st.open).name
              && r.0.closed[|st.closed|].exceptions == Top(st.open).exceptions
  {
    if st.open == [] then (st.(missingReports := st.missingReports + 1), None)
    else if responseContext.None? || clientConfig.None? then (st, None)
    else match RemoveAmazonPrefixFromServiceName(serviceName)
      case Err(e) => (st, Some(e))
      case Ok(_) =>
        if originalRequest.None? then (st, Some(NullReference))
        else
          var (ended, err) := AttributesRecorded(snake, table, Top(st.open), OperationName(originalRequest.value), headers,
                                                 originalRequest.value, clientConfig.value, responseContext.value);
          if err.Some? then (st.(open := WithTop(st.open, ended)), err)
          else (st.(open := st.open[..|st.open| - 1], closed := st.closed + [ended]), None)
  }

  /** The effect of `ProcessBeginRequest`: recorder, request headers, request
      parameters, and what it throws. */
  datatype BeginOutcome = BeginOutcome(
    state: TraceState,
    headers: map<string, string>,
    parameters: map<string, string>,
    error: Option<Exception>)

  /** The effect of `InvokeSync`: recorder, request headers and parameters, what
      the call throws, and whether the next stage ran. */
  datatype InvokeOutcome = InvokeOutcome(
    state: TraceState,
    headers: map<string, string>,
    parameters: map<string, string>,
    thrown: Option<Exception>,
    nextInvoked: bool)

  /** The operation names of the table written as request type names. */
  lemma OperationOfTypeName(typeName: string)
    ensures OperationName(Object(typeName, map[])) in InitializeServiceHandler().operations <==>
              typeName in {"SendMessage", "SendMessageRequest", "SendMessageBatch", "SendMessageBatchRequest"}
  {
    var operation := OperationName(Object(typeName, map[]));
    assert operation in InitializeServiceHandler().operations <==>
             operation == "SendMessage" || operation == "SendMessageBatch";
    LastCharsDiffer("SendMessage", "Request");
    LastCharsDiffer("SendMessageBatch", "Request");
    OperationNameIs(typeName, "SendMessage");
    OperationNameIs(typeName, "SendMessageBatch");
    assert "SendMessage" + "Request" == "SendMessageRequest";
    assert "SendMessageBatch" + "Request" == "SendMessageBatchRequest";
  }

  /** A string does not end with a suffix whose last character differs from its own. */
  lemma LastCharsDiffer(s: string, suffix: string)
    requires s != [] && suffix != [] && s[|s| - 1] != suffix[|suffix| - 1]
    ensures !EndsWith(s, suffix)
  {
  }

  /** The request type names whose operation is `x`, for an `x` without the suffix. */
  lemma OperationNameIs(typeName: string, x: string)
    requires !EndsWith(x, "Request")
    ensures OperationName(Object(typeName, map[])) == x <==> typeName == x || typeName == x + "Request"
  {
    RemoveSuffixPreimage(typeName, "Request", x);
  }

  /** Every 5xx status marks an error and never a fault. */
  lemma FaultStatusMarksErrorNotFault(e: Entity, statusCode: int)
    requires IsFault(statusCode) && !e.hasFault
    ensures Classified(e, statusCode).hasError
    ensures !Classified(e, statusCode).hasFault
  {
  }

  /** `AddHttpInformation` always records the status and the content length. */
  lemma HttpStatusRecorded(e: Entity, httpResponse: WebResponseData)
    ensures "response" in HttpRecorded(e, httpResponse).http
    ensures HttpRecorded(e, httpResponse).http["response"]["status"] == Int(httpResponse.statusCode)
    ensures HttpRecorded(e, httpResponse).http["response"]["content_length"] == Int(httpResponse.contentLength)
    ensures HttpRecorded(e, httpResponse).aws == e.aws && HttpRecorded(e, httpResponse).exceptions == e.exceptions
  {
  }

  /** Capturing an exception appends it to the current entity, and for a service
      exception records its status and request id; without an entity only a
      report is made. */
  lemma ExceptionCapturedEffect(st: TraceState, ex: Exception)
    ensures st.open == [] ==> ExceptionCaptured(st, ex) == st.(missingReports := st.missingReports + 1)
    ensures st.open != [] ==>
              var after := ExceptionCaptured(st, ex);
              && after.closed == st.closed && after.missingReports == st.missingReports
              && |after.open| == |st.open| && after.open[..|st.open| - 1] == st.open[..|st.open| - 1]
              && Top(after.open).exceptions == Top(st.open).exceptions + [ex]
              && (ex.ServiceException? ==>
                    && Top(after.open).aws["request_id"] == OptionalStr(ex.requestId)
                    && Top(after.open).http["response"] == map["status" := Int(ex.statusCode)]
                    && Top(after.open).hasError == (Top(st.open).hasError || !IsSuccessStatusCode(ex.statusCode)))
              && (!ex.ServiceException? ==> Top(after.open) == Top(st.open).(exceptions := Top(st.open).exceptions + [ex]))
  {
  }

  /** Without a current entity `ProcessEndRequest` only reports. */
  lemma EndRequestWithoutEntity(snake: string -> string, table: ServiceHandler, st: TraceState,
                                serviceName: Option<string>, headers: map<string, string>, originalRequest: Option<Object>,
                                clientConfig: Option<ClientConfig>, responseContext: Option<ResponseContext>)
    requires st.open == []
    ensures EndRequest(snake, table, st, serviceName, headers, originalRequest, clientConfig, responseContext) ==
              (st.(missingReports := st.missingReports + 1), None)
  {
  }

  /** A null response context or client configuration returns before anything is
      written and leaves the subsegment open. */
  lemma EndRequestEarlyReturn(snake: string -> string, table: ServiceHandler, st: TraceState,
                              serviceName: Option<string>, headers: map<string, string>, originalRequest: Option<Object>,
                              clientConfig: Option<ClientConfig>, responseContext: Option<ResponseContext>)
    requires st.open != [] && (responseContext.None? || clientConfig.None?)
    ensures EndRequest(snake, table, st, serviceName, headers, originalRequest, clientConfig, responseContext) == (st, None)
  {
  }

  /** `ProcessEndRequest` ends the subsegment exactly when it does not throw (and
      got past its early returns); a throw leaves the subsegment open. */
  lemma EndRequestClosesUnlessThrown(snake: string -> string, table: ServiceHandler, st: TraceState,
                                     serviceName: Option<string>, headers: map<string, string>, originalRequest: Option<Object>,
                                     clientConfig: Option<ClientConfig>, responseContext: Option<ResponseContext>)
    requires st.open != [] && responseContext.Some? && clientConfig.Some?
    ensures var (after, err) := EndRequest(snake, table, st, serviceName, headers, originalRequest, clientConfig, responseContext);
            && after.missingReports == st.missingReports
            && (err.None? ==> after.open == st.open[..|st.open| - 1] && |after.closed| == |st.closed| + 1
                              && after.closed[..|st.closed|] == st.closed)
            && (err.Some? ==> |after.open| == |st.open| && after.open[..|st.open| - 1] == st.open[..|st.open| - 1]
                              && after.closed == st.closed)
  {
  }

  /** For a `SendMessage` call the request side always throws: the operation has
      request descriptors but no response descriptors, and the loop dereferences
      the missing ones. So, once a response context and a client configuration are
      present and the response metadata is not null, `ProcessEndRequest` throws
      `NullReferenceException` and leaves the subsegment open. */
  lemma SendMessageEndAlwaysThrows(snake: string -> string, st: TraceState, serviceName: Option<string>,
                                   headers: map<string, string>, originalRequest: Object,
                                   clientConfig: ClientConfig, responseContext: ResponseContext)
    requires st.open != [] && RemoveAmazonPrefixFromServiceName(serviceName).Ok?
    requires OperationName(originalRequest) == "SendMessage"
    requires responseContext.response.Some? ==> responseContext.response.value.metadata.Some?
    ensures var (after, err) := EndRequest(snake, InitializeServiceHandler(), st, serviceName, headers,
                                           Some(originalRequest), Some(clientConfig), Some(responseContext));
            && err == Some(NullReference)
            && after.closed == st.closed && |after.open| == |st.open|
            && after.open[..|st.open| - 1] == st.open[..|st.open| - 1]
  {
    var table := InitializeServiceHandler();
    assert table.operations["SendMessage"] == SendMessageHandler();
  }

  /** Before it throws, the `SendMessage` request side has written the delay and the
      queue URL to the subsegment that stays open. */
  lemma SendMessageEndRecordsFields(snake: string -> string, st: TraceState, serviceName: Option<string>,
                                    headers: map<string, string>, originalRequest: Object,
                                    clientConfig: ClientConfig, responseContext: ResponseContext)
    requires st.open != [] && RemoveAmazonPrefixFromServiceName(serviceName).Ok?
    requires OperationName(originalRequest) == "SendMessage"
    requires responseContext.response.Some? ==> responseContext.response.value.metadata.Some?
    requires "DelaySeconds" in originalRequest.properties && "QueueUrl" in originalRequest.properties
    requires snake("DelaySeconds") != snake("QueueUrl")
    ensures var (after, err) := EndRequest(snake, InitializeServiceHandler(), st, serviceName, headers,
                                           Some(originalRequest), Some(clientConfig), Some(responseContext));
            && after.open != []
            && snake("QueueUrl") in Top(after.open).aws && snake("DelaySeconds") in Top(after.open).aws
            && Top(after.open).aws[snake("QueueUrl")] == originalRequest.properties["QueueUrl"]
            && Top(after.open).aws[snake("DelaySeconds")] == originalRequest.properties["DelaySeconds"]
  {
    var table := InitializeServiceHandler();
    assert table.operations["SendMessage"] == SendMessageHandler();
    var operation := "SendMessage";
    var sub := Top(st.open);
    var rc := responseContext;
    var withHttp := ResponseRecorded(snake, table, WithRegionAndOperation(sub, operation, clientConfig), operation, headers, rc);
    SendMessageRequestSide(snake, originalRequest, withHttp.aws);
    var (finalAws, err) := RequestInformation(snake, table, operation, originalRequest, withHttp.aws);
    assert AttributesRecorded(snake, table, sub, operation, headers, originalRequest, clientConfig, rc)
        == (withHttp.(aws := finalAws), err);
  }

  /** For a `SendMessageBatch` call the request side writes only the queue URL and
      does not throw, so `ProcessEndRequest` ends the subsegment. */
  lemma SendMessageBatchEndCloses(snake: string -> string, st: TraceState, serviceName: Option<string>,
                                  headers: map<string, string>, originalRequest: Object,
                                  clientConfig: ClientConfig, responseContext: ResponseContext)
    requires st.open != [] && RemoveAmazonPrefixFromServiceName(serviceName).Ok?
    requires OperationName(originalRequest) == "SendMessageBatch"
    requires responseContext.response.Some? ==> responseContext.response.value.metadata.Some?
    requires "Failed" !in originalRequest.properties && "Successful" !in originalRequest.properties
    ensures var (after, err) := EndRequest(snake, InitializeServiceHandler(), st, serviceName, headers,
                                           Some(originalRequest), Some(clientConfig), Some(responseContext));
            && err.None?
            && after.open == st.open[..|st.open| - 1]
            && |after.closed| == |st.closed| + 1 && after.closed[..|st.closed|] == st.closed
  {
    var table := InitializeServiceHandler();
    assert table.operations["SendMessageBatch"] == SendMessageBatchHandler();
    var operation := "SendMessageBatch";
    var sub := Top(st.open);
    var rc := responseContext;
    var withHttp := ResponseRecorded(snake, table, WithRegionAndOperation(sub, operation, clientConfig), operation, headers, rc);
    SendMessageBatchRequestSide(snake, originalRequest, withHttp.aws);
    var (finalAws, err) := RequestInformation(snake, table, operation, originalRequest, withHttp.aws);
    assert AttributesRecorded(snake, table, sub, operation, headers, originalRequest, clientConfig, rc)
        == (withHttp.(aws := finalAws), err);
  }

  /** The `SendMessageBatch` attributes: the response side counts the failed and
      successful entries, and neither the HTTP outcome nor the request side, which
      writes only the queue URL, overwrites the counts. */
  lemma SendMessageBatchAttributesCounts(snake: string -> string, sub: Entity, headers: map<string, string>,
                                         originalRequest: Object, clientConfig: ClientConfig, rc: ResponseContext,
                                         failed: nat, successful: nat)
    requires "Failed" !in originalRequest.properties && "Successful" !in originalRequest.properties
    requires rc.response.Some? && rc.response.value.metadata.Some?
    requires var body := rc.response.value.body;
             && "Failed" in body.properties && body.properties["Failed"] == List(failed)
             && "Successful" in body.properties && body.properties["Successful"] == List(successful)
    requires snake("failed_count") != snake("successful_count")
    requires snake("QueueUrl") != snake("failed_count") && snake("QueueUrl") != snake("successful_count")
    ensures var (ended, err) := AttributesRecorded(snake, InitializeServiceHandler(), sub, "SendMessageBatch", headers,
                                                   originalRequest, clientConfig, rc);
            && snake("failed_count") in ended.aws && ended.aws[snake("failed_count")] == Int(failed)
            && snake("successful_count") in ended.aws && ended.aws[snake("successful_count")] == Int(successful)
  {
    var table := InitializeServiceHandler();
    assert table.operations["SendMessageBatch"] == SendMessageBatchHandler();
    var operation := "SendMessageBatch";
    var idAws := WithRegionAndOperation(sub, operation, clientConfig).aws["request_id" := OptionalStr(rc.response.value.metadata.value.requestId)];
    SendMessageBatchCountsSurvive(snake, originalRequest, rc.response.value.body, idAws, failed, successful);
    AttributesOfResponse(snake, table, sub, operation, headers, originalRequest, clientConfig, rc);
  }

  /** With a response and its metadata, the attributes written are the request side
      applied over the response side applied over the region, operation and
      request id. */
  lemma AttributesOfResponse(snake: string -> string, table: ServiceHandler, sub: Entity, operation: string,
                             headers: map<string, string>, originalRequest: Object, clientConfig: ClientConfig,
                             rc: ResponseContext)
    requires rc.response.Some? && rc.response.value.metadata.Some?
    ensures var idAws := WithRegionAndOperation(sub, operation, clientConfig).aws["request_id" := OptionalStr(rc.response.value.metadata.value.requestId)];
            AttributesRecorded(snake, table, sub, operation, headers, originalRequest, clientConfig, rc).0.aws ==
              RequestInformation(snake, table, operation, originalRequest,
                                 ResponseInformation(snake, table, operation, rc.response.value.body, idAws)).0
  {
    var e := WithRegionAndOperation(sub, operation, clientConfig);
    if rc.httpResponse.Some? {
      var idAws := e.aws["request_id" := OptionalStr(rc.response.value.metadata.value.requestId)];
      var responseAws := ResponseInformation(snake, table, operation, rc.response.value.body, idAws);
      HttpStatusRecorded(e.(aws := responseAws), rc.httpResponse.value);
    }
  }

  /** For a `SendMessageBatch` call whose response lists `failed` failed and
      `successful` successful entries, the subsegment that `ProcessEndRequest`
      ends carries both counts. */
  lemma SendMessageBatchEndRecordsCounts(snake: string -> string, st: TraceState, serviceName: Option<string>,
                                         headers: map<string, string>, originalRequest: Object,
                                         clientConfig: ClientConfig, responseContext: ResponseContext,
                                         failed: nat, successful: nat)
    requires st.open != [] && RemoveAmazonPrefixFromServiceName(serviceName).Ok?
    requires OperationName(originalRequest) == "SendMessageBatch"
    requires "Failed" !in originalRequest.properties && "Successful" !in originalRequest.properties
    requires responseContext.response.Some? && responseContext.response.value.metadata.Some?
    requires var body := responseContext.response.value.body;
             && "Failed" in body.properties && body.properties["Failed"] == List(failed)
             && "Successful" in body.properties && body.properties["Successful"] == List(successful)
    requires snake("failed_count") != snake("successful_count")
    requires snake("QueueUrl") != snake("failed_count") && snake("QueueUrl") != snake("successful_count")
    ensures var (after, err) := EndRequest(snake, InitializeServiceHandler(), st, serviceName, headers,
                                           Some(originalRequest), Some(clientConfig), Some(responseContext));
            && |after.closed| == |st.closed| + 1
            && snake("failed_count") in after.closed[|st.closed|].aws
            && after.closed[|st.closed|].aws[snake("failed_count")] == Int(failed)
            && snake("successful_count") in after.closed[|st.closed|].aws
            && after.closed[|st.closed|].aws[snake("successful_count")] == Int(successful)
  {
    SendMessageBatchEndCloses(snake, st, serviceName, headers, originalRequest, clientConfig, responseContext);
    SendMessageBatchAttributesCounts(snake, Top(st.open), headers, originalRequest, clientConfig, responseContext,
                                     failed, successful);
  }

  /** The interceptor. `recorder` is the X-Ray recorder instance; `snake` is the
      `FromCamelCaseToSnakeCase` conversion; `traceHeaderOf` is
      `TraceHeader.TryParse` followed by `ToString()`, a function of the open
      entities. */
  class SqsXRayPipelineHandler {
    const recorder: Recorder
    const snake: string -> string
    const traceHeaderOf: seq<Entity> -> Option<string>
    const serviceHandler: ServiceHandler := InitializeServiceHandler()

    constructor (recorder: Recorder, snake: string -> string, traceHeaderOf: seq<Entity> -> Option<string>)
      ensures this.recorder == recorder && this.snake == snake && this.traceHeaderOf == traceHeaderOf
    {
      this.recorder := recorder;
      this.snake := snake;
      this.traceHeaderOf := traceHeaderOf;
    }

    /** `ExcludeServiceOperation`: whether the call bypasses tracing. A null service
        name throws from `RemovePrefix`, a null original request from `GetType()`. */
    function ExcludeServiceOperation(serviceName: Option<string>, originalRequest: Option<Object>): (r: Result<bool>)
      ensures r.Ok? <==> serviceName.Some? && originalRequest.Some?
      ensures serviceName.None? ==> r == Err(ArgumentNull("originalString"))
      ensures serviceName.Some? && originalRequest.None? ==> r == Err(NullReference)
    {
      match RemoveAmazonPrefixFromServiceName(serviceName)
      case Err(e) => Err(e)
      case Ok(service) =>
        if originalRequest.None? then Err(NullReference)
        else Ok(!(service == "SQS" && OperationName(originalRequest.value) in serviceHandler.operations))
    }

    /** Instrumented are exactly the calls whose service name is one of the four
        spellings of SQS and whose request type is one of the four spellings of the
        two operations; the type name is compared case-sensitively. */
    lemma InstrumentationGate(serviceName: string, originalRequest: Object)
      ensures ExcludeServiceOperation(Some(serviceName), Some(originalRequest)) == Ok(false) <==>
                serviceName in {"SQS", ".SQS", "AmazonSQS", "Amazon.SQS"} &&
                originalRequest.typeName in {"SendMessage", "SendMessageRequest", "SendMessageBatch", "SendMessageBatchRequest"}
    {
      ServiceNameIsSqs(serviceName);
      OperationOfTypeName(originalRequest.typeName);
      assert OperationName(originalRequest) == OperationName(Object(originalRequest.typeName, map[]));
    }

    /** The effect of `ProcessBeginRequest`. */
    ghost function BeginRequest(st: TraceState, serviceName: Option<string>, headers: map<string, string>,
                                parameters: map<string, string>): (r: BeginOutcome)
      ensures r.state.closed == st.closed
      ensures r.state.missingReports == st.missingReports + (if st.open == [] then 1 else 0)
      ensures |st.open| <= |r.state.open| <= |st.open| + 1 && r.state.open[..|st.open|] == st.open
      ensures forall k :: k in headers && k != TraceHeaderKey ==> k in r.headers && r.headers[k] == headers[k]
      ensures forall k :: k in parameters ==> k in r.parameters && r.parameters[k] == parameters[k]
      ensures forall k :: k in r.parameters && k !in parameters ==> IsSystemAttributeKey(k)
      ensures r.error.Some? ==> r.error == Some(ArgumentNull("originalString")) || r.error == Some(IndexOutOfRange) || r.error.value.DuplicateKey?
    {
      var reported := if st.open == [] then st.(missingReports := st.missingReports + 1) else st;
      match RemoveAmazonPrefixFromServiceName(serviceName)
      case Err(e) => BeginOutcome(reported, headers, parameters, Some(e))
      case Ok(name) =>
        if st.open == [] then BeginOutcome(reported, headers, parameters, None)
        else
          var begun := st.(open := st.open + [NewSubsegment(name).(ns := Some("aws"))]);
          match traceHeaderOf(begun.open)
          case None => BeginOutcome(begun, headers, parameters, None)
          case Some(header) =>
            var (injected, err) := InjectedParameters(parameters, header);
            BeginOutcome(begun, headers[TraceHeaderKey := header], injected, err)
    }

    /** With a current entity and a service name, `ProcessBeginRequest` opens one
        subsegment named after the service in namespace "aws". */
    lemma BeginOpensSubsegment(st: TraceState, serviceName: string, headers: map<string, string>,
                               parameters: map<string, string>)
      requires st.open != []
      ensures var b := BeginRequest(st, Some(serviceName), headers, parameters);
              && b.state.open[..|st.open|] == st.open && |b.state.open| == |st.open| + 1
              && Top(b.state.open).name == RemoveAmazonPrefixFromServiceName(Some(serviceName)).value
              && Top(b.state.open).ns == Some("aws") && Top(b.state.open).exceptions == []
              && b.state.closed == st.closed && b.state.missingReports == st.missingReports
    {
      assert (st.open + [NewSubsegment(RemoveAmazonPrefixFromServiceName(Some(serviceName)).value).(ns := Some("aws"))])[..|st.open|] == st.open;
    }

    /** Without a current entity nothing is opened or injected; the missing entity
        is reported once. */
    lemma BeginWithoutEntity(st: TraceState, serviceName: Option<string>, headers: map<string, string>,
                             parameters: map<string, string>)
      requires st.open == []
      ensures var b := BeginRequest(st, serviceName, headers, parameters);
              && b.state == st.(missingReports := st.missingReports + 1)
              && b.headers == headers && b.parameters == parameters
              && (b.error.Some? <==> serviceName.None?)
    {
    }

    /** When a trace header is obtained it is always set as a transport header;
        a parameter whose value is already "AWSTraceHeader" leaves the parameters
        alone. */
    lemma BeginInjectionGuard(st: TraceState, serviceName: string, headers: map<string, string>,
                              parameters: map<string, string>)
      requires st.open != []
      requires traceHeaderOf(st.open + [NewSubsegment(RemoveAmazonPrefixFromServiceName(Some(serviceName)).value).(ns := Some("aws"))]).Some?
      ensures var b := BeginRequest(st, Some(serviceName), headers, parameters);
              var header := traceHeaderOf(b.state.open).value;
              && b.headers == headers[TraceHeaderKey := header]
              && (TraceHeaderAttributeName in parameters.Values ==> b.parameters == parameters && b.error.None?)
    {
    }

    /** Without a system-attribute parameter the header goes in at index 1: three
        new parameters, and no other entry changes. */
    lemma BeginInjectsAtIndexOne(st: TraceState, serviceName: string, headers: map<string, string>,
                                 parameters: map<string, string>)
      requires st.open != []
      requires traceHeaderOf(st.open + [NewSubsegment(RemoveAmazonPrefixFromServiceName(Some(serviceName)).value).(ns := Some("aws"))]).Some?
      requires TraceHeaderAttributeName !in parameters.Values
      requires forall k :: k in parameters ==> !IsSystemAttributeKey(k)
      ensures var b := BeginRequest(st, Some(serviceName), headers, parameters);
              var header := traceHeaderOf(b.state.open).value;
              && b.error.None?
              && b.parameters.Keys == parameters.Keys + {ParameterKey(1, "Name"), ParameterKey(1, "Value.DataType"),
                                                         ParameterKey(1, "Value.StringValue")}
              && b.parameters[ParameterKey(1, "Name")] == "AWSTraceHeader"
              && b.parameters[ParameterKey(1, "Value.DataType")] == "String"
              && b.parameters[ParameterKey(1, "Value.StringValue")] == header
              && forall k :: k in parameters ==> b.parameters[k] == parameters[k]
    {
      var name := RemoveAmazonPrefixFromServiceName(Some(serviceName)).value;
      var header := traceHeaderOf(st.open + [NewSubsegment(name).(ns := Some("aws"))]).value;
      var b := BeginRequest(st, Some(serviceName), headers, parameters);
      assert (b.parameters, b.error) == InjectedParameters(parameters, header);
      InjectionAtIndexOne(parameters, header);
      InjectionAddsExactlyThree(parameters, 1, header);
    }

    /** The effect of `InvokeSync`. */
    ghost function Invoke(st: TraceState, serviceName: Option<string>, headers: map<string, string>,
                          parameters: map<string, string>, originalRequest: Option<Object>,
                          clientConfig: Option<ClientConfig>, next: NextStage): (r: InvokeOutcome)
      ensures |st.closed| <= |r.state.closed| <= |st.closed| + 1 && r.state.closed[..|st.closed|] == st.closed
      ensures forall k :: k in headers && k != TraceHeaderKey ==> k in r.headers && r.headers[k] == headers[k]
      ensures forall k :: k in parameters ==> k in r.parameters && r.parameters[k] == parameters[k]
      ensures forall k :: k in r.parameters && k !in parameters ==> IsSystemAttributeKey(k)
      ensures !r.nextInvoked ==> r.thrown.Some?
      ensures r.nextInvoked && next.thrown.Some? ==> r.thrown.Some?
    {
      if recorder.tracingDisabled then InvokeOutcome(st, headers, parameters, next.thrown, true)
      else match ExcludeServiceOperation(serviceName, originalRequest)
        case Err(e) => InvokeOutcome(st, headers, parameters, Some(e), false)
        case Ok(true) => InvokeOutcome(st, headers, parameters, next.thrown, true)
        case Ok(false) =>
          var b := BeginRequest(st, serviceName, headers, parameters);
          if b.error.Some? then InvokeOutcome(b.state, b.headers, b.parameters, b.error, false)
          else
            var captured := if next.thrown.Some? then ExceptionCaptured(b.state, next.thrown.value) else b.state;
            var (ended, endError) := EndRequest(snake, serviceHandler, captured, serviceName, b.headers,
                                                originalRequest, clientConfig, next.responseContext);
            InvokeOutcome(ended, b.headers, b.parameters, if endError.Some? then endError else next.thrown, true)
    }

    /** A call that is not instrumented only runs the next stage: no subsegment,
        header, parameter or attribute, and the next stage's outcome unchanged. */
    lemma TransparentWhenNotInstrumented(st: TraceState, serviceName: Option<string>, headers: map<string, string>,
                                         parameters: map<string, string>, originalRequest: Option<Object>,
                                         clientConfig: Option<ClientConfig>, next: NextStage)
      requires recorder.tracingDisabled || ExcludeServiceOperation(serviceName, originalRequest) == Ok(true)
      ensures Invoke(st, serviceName, headers, parameters, originalRequest, clientConfig, next) ==
                InvokeOutcome(st, headers, parameters, next.thrown, true)
    {
    }

    /** An instrumented call whose end step does not throw re-throws exactly what
        the next stage threw (and nothing when it succeeded). */
    lemma OutcomePreserved(st: TraceState, serviceName: Option<string>, headers: map<string, string>,
                           parameters: map<string, string>, originalRequest: Option<Object>,
                           clientConfig: Option<ClientConfig>, next: NextStage)
      requires !recorder.tracingDisabled && ExcludeServiceOperation(serviceName, originalRequest) == Ok(false)
      requires BeginRequest(st, serviceName, headers, parameters).error.None?
      ensures var r := Invoke(st, serviceName, headers, parameters, originalRequest, clientConfig, next);
              var b := BeginRequest(st, serviceName, headers, parameters);
              var captured := if next.thrown.Some? then ExceptionCaptured(b.state, next.thrown.value) else b.state;
              && r.nextInvoked
              && (EndRequest(snake, serviceHandler, captured, serviceName, b.headers, originalRequest, clientConfig,
                             next.responseContext).1.None?
                  ==> r.thrown == next.thrown)
              && r.state == EndRequest(snake, serviceHandler, captured, serviceName, b.headers, originalRequest,
                                       clientConfig, next.responseContext).0
    {
    }

    /** Tracing an SQS `SendMessage` call with a current entity, a response context
        and a client configuration always fails with `NullReferenceException`, even
        when the message was sent; the subsegment is never ended. */
    lemma SendMessageCallAlwaysFails(st: TraceState, headers: map<string, string>, parameters: map<string, string>,
                                     originalRequest: Object, clientConfig: ClientConfig, next: NextStage)
      requires !recorder.tracingDisabled && st.open != []
      requires originalRequest.typeName == "SendMessageRequest"
      requires next.responseContext.Some?
      requires next.responseContext.value.response.Some? ==> next.responseContext.value.response.value.metadata.Some?
      requires BeginRequest(st, Some("Amazon.SQS"), headers, parameters).error.None?
      ensures var r := Invoke(st, Some("Amazon.SQS"), headers, parameters, Some(originalRequest), Some(clientConfig), next);
              r.thrown == Some(NullReference) && r.nextInvoked && r.state.closed == st.closed
    {
      InstrumentationGate("Amazon.SQS", originalRequest);
      ServiceNameIsSqs("Amazon.SQS");
      assert OperationName(originalRequest) == "SendMessage" by {
        assert "SendMessage" + "Request" == "SendMessageRequest";
        RemoveSuffixPreimage("SendMessageRequest", "Request", "SendMessage");
      }
      var b := BeginRequest(st, Some("Amazon.SQS"), headers, parameters);
      BeginOpensSubsegment(st, "Amazon.SQS", headers, parameters);
      var captured := if next.thrown.Some? then ExceptionCaptured(b.state, next.thrown.value) else b.state;
      if next.thrown.Some? {
        ExceptionCapturedEffect(b.state, next.thrown.value);
      }
      SendMessageEndAlwaysThrows(snake, captured, Some("Amazon.SQS"), b.headers, originalRequest, clientConfig, next.responseContext.value);
    }

    /** Tracing an SQS `SendMessageBatch` call whose next stage throws `ex` re-throws
        `ex` and ends the subsegment with `ex` as its only exception. */
    lemma SendMessageBatchFailureCaptured(st: TraceState, headers: map<string, string>, parameters: map<string, string>,
                                          originalRequest: Object, clientConfig: ClientConfig, next: NextStage,
                                          ex: Exception)
      requires !recorder.tracingDisabled && st.open != []
      requires originalRequest.typeName == "SendMessageBatchRequest"
      requires "Failed" !in originalRequest.properties && "Successful" !in originalRequest.properties
      requires next.thrown == Some(ex)
      requires next.responseContext.Some?
      requires next.responseContext.value.response.Some? ==> next.responseContext.value.response.value.metadata.Some?
      requires BeginRequest(st, Some("Amazon.SQS"), headers, parameters).error.None?
      ensures var r := Invoke(st, Some("Amazon.SQS"), headers, parameters, Some(originalRequest), Some(clientConfig), next);
              && r.thrown == Some(ex) && r.nextInvoked
              && |r.state.closed| == |st.closed| + 1 && r.state.closed[|st.closed|].exceptions == [ex]
    {
      InstrumentationGate("Amazon.SQS", originalRequest);
      ServiceNameIsSqs("Amazon.SQS");
      assert OperationName(originalRequest) == "SendMessageBatch" by {
        assert "SendMessageBatch" + "Request" == "SendMessageBatchRequest";
        RemoveSuffixPreimage("SendMessageBatchRequest", "Request", "SendMessageBatch");
      }
      var b := BeginRequest(st, Some("Amazon.SQS"), headers, parameters);
      BeginOpensSubsegment(st, "Amazon.SQS", headers, parameters);
      var captured := ExceptionCaptured(b.state, ex);
      ExceptionCapturedEffect(b.state, ex);
      SendMessageBatchEndCloses(snake, captured, Some("Amazon.SQS"), b.headers, originalRequest, clientConfig,
                                next.responseContext.value);
    }

    /** An instrumented call made while no entity is open only reports: once when
        beginning, once when recording a failure of the next stage, once when
        ending; headers and parameters are untouched and the next stage's outcome
        is the call's outcome. */
    lemma InvokeWithoutEntity(st: TraceState, serviceName: Option<string>, headers: map<string, string>,
                              parameters: map<string, string>, originalRequest: Option<Object>,
                              clientConfig: Option<ClientConfig>, next: NextStage)
      requires st.open == []
      requires !recorder.tracingDisabled && ExcludeServiceOperation(serviceName, originalRequest) == Ok(false)
      ensures var r := Invoke(st, serviceName, headers, parameters, originalRequest, clientConfig, next);
              && r.state == st.(missingReports := st.missingReports + (if next.thrown.Some? then 3 else 2))
              && r.headers == headers && r.parameters == parameters
              && r.thrown == next.thrown && r.nextInvoked
    {
    }

    /** `AddHttpInformation`: marks the current entity and records the status and
        the content length under "response". */
    method AddHttpInformation(httpResponse: WebResponseData)
      modifies recorder`open
      ensures old(recorder.open) == [] ==> recorder.open == []
      ensures old(recorder.open) != [] ==>
                recorder.open == WithTop(old(recorder.open), HttpRecorded(Top(old(recorder.open)), httpResponse))
    {
      var statusCode := httpResponse.statusCode;
      if !IsSuccessStatusCode(statusCode) {
        recorder.MarkError();
        if IsTooManyRequests(statusCode) {
          recorder.MarkThrottle();
        }
      } else if IsFault(statusCode) {
        // `MarkFault()`: a 5xx status is never a 2xx one.
        assert false;
      }
      var responseAttributes := map["status" := Int(statusCode), "content_length" := Int(httpResponse.contentLength)];
      recorder.AddHttpInformation("response", responseAttributes);
    }

    /** `ProcessException` for a service exception, on the current entity (the
        subsegment `PopulateException` obtained). */
    method ProcessException(ex: Exception)
      requires ex.ServiceException? && recorder.open != []
      modifies recorder`open
      ensures recorder.open == WithTop(old(recorder.open), ExceptionRecorded(Top(old(recorder.open)), ex.statusCode, ex.requestId))
    {
      var statusCode := ex.statusCode;
      if !IsSuccessStatusCode(statusCode) {
        recorder.MarkError();
        if IsTooManyRequests(statusCode) {
          recorder.MarkThrottle();
        }
      } else if IsFault(statusCode) {
        // `MarkFault()`: a 5xx status is never a 2xx one.
        assert false;
      }
      var responseAttributes := map["status" := Int(statusCode)];
      recorder.AddHttpInformation("response", responseAttributes);
      recorder.SetAws("request_id", OptionalStr(ex.requestId));
    }

    /** `PopulateException`: records a failure of the next stage. */
    method PopulateException(ex: Exception)
      modifies recorder`open, recorder`missingReports
      ensures recorder.State() == ExceptionCaptured(old(recorder.State()), ex)
    {
      var subSegment := recorder.GetEntity();
      if subSegment.None? {
        recorder.HandleEntityMissing();
        return;
      }
      recorder.AddException(ex);
      if ex.ServiceException? {
        ProcessException(ex);
      }
    }

    /** The three `Parameters.Add` calls at `index`; the first duplicate key throws
        and the parameters added before it stay. */
    method AddSystemAttributes(request: Request, index: int, header: string) returns (err: Option<Exception>)
      modifies request`parameters
      ensures (request.parameters, err) == AddAll(old(request.parameters), SystemAttributeEntries(index, header))
    {
      ghost var e0 := SystemAttributeEntries(index, header);
      ghost var before := request.parameters;
      assert e0[0] == (ParameterKey(index, "Name"), TraceHeaderAttributeName);
      err := request.AddParameter(ParameterKey(index, "Name"), TraceHeaderAttributeName);
      if err.Some? {
        return;
      }
      ghost var e1 := e0[1..];
      assert AddAll(before, e0) == AddAll(request.parameters, e1);
      assert e1[0] == (ParameterKey(index, "Value.DataType"), "String");
      ghost var p1 := request.parameters;
      err := request.AddParameter(ParameterKey(index, "Value.DataType"), "String");
      if err.Some? {
        assert AddAll(p1, e1) == (request.parameters, err);
        return;
      }
      ghost var e2 := e1[1..];
      assert AddAll(p1, e1) == AddAll(request.parameters, e2);
      assert e2[0] == (ParameterKey(index, "Value.StringValue"), header);
      ghost var p2 := request.parameters;
      err := request.AddParameter(ParameterKey(index, "Value.StringValue"), header);
      if err.Some? {
        assert AddAll(p2, e2) == (request.parameters, err);
        return;
      }
      assert e2[1..] == [];
      assert AddAll(p2, e2) == AddAll(request.parameters, e2[1..]);
    }

    /** The parameter side of the injection: skipped when some value is already
        "AWSTraceHeader", otherwise the three parameters at `Max() + 1`. */
    method InjectTraceHeader(request: Request, header: string) returns (err: Option<Exception>)
      modifies request`parameters
      ensures (request.parameters, err) == InjectedParameters(old(request.parameters), header)
    {
      if TraceHeaderAttributeName in request.parameters.Values {
        return None;
      }
      var max := MaxSystemAttributeIndex(request.parameters);
      if max.Err? {
        return Some(max.error);
      }
      var index := Int32Increment(max.value);
      err := AddSystemAttributes(request, index, header);
    }

    /** `ProcessBeginRequest`: opens the subsegment and injects the trace header into
        the request's headers and message system attributes. */
    method ProcessBeginRequest(request: Request) returns (err: Option<Exception>)
      modifies recorder`open, recorder`missingReports, request`headers, request`parameters
      ensures BeginOutcome(recorder.State(), request.headers, request.parameters, err) ==
                BeginRequest(old(recorder.State()), request.serviceName, old(request.headers), old(request.parameters))
    {
      var entity := recorder.GetEntity();
      if entity.None? {
        recorder.HandleEntityMissing();
      }
      var name := RemoveAmazonPrefixFromServiceName(request.serviceName);
      if name.Err? {
        return Some(name.error);
      }
      recorder.BeginSubsegment(name.value);
      recorder.SetNamespace("aws");
      if entity.Some? {
        entity := recorder.GetEntity();
      }
      var traceHeader := if entity.Some? then traceHeaderOf(recorder.open) else None;
      if traceHeader.None? {
        return None;
      }
      request.headers := request.headers[TraceHeaderKey := traceHeader.value];
      err := InjectTraceHeader(request, traceHeader.value);
    }

    /** The request id attributes taken from the request headers. */
    method RecordHeaderRequestIds(headers: map<string, string>)
      requires recorder.open != []
      modifies recorder`open
      ensures recorder.open ==
                WithTop(old(recorder.open), Top(old(recorder.open)).(aws := RequestIdFromHeaders(Top(old(recorder.open)).aws, headers)))
    {
      if RequestIdHeaderKey in headers {
        recorder.SetAws("request_id", Str(headers[RequestIdHeaderKey]));
      } else {
        if S3RequestIdHeaderKey in headers {
          recorder.SetAws("request_id", Str(headers[S3RequestIdHeaderKey]));
        }
        if S3ExtendedRequestIdHeaderKey in headers {
          recorder.SetAws(ExtendedRequestIdSegmentKey, Str(headers[S3ExtendedRequestIdHeaderKey]));
        }
      }
    }

    /** The request id of the response metadata, then the response fields. */
    method RecordResponse(serviceName: string, operation: string, response: Response)
      requires recorder.open != [] && response.metadata.Some?
      modifies recorder`open
      ensures recorder.open ==
                WithTop(old(recorder.open), Top(old(recorder.open)).(aws :=
                  ResponseInformation(snake, serviceHandler, operation, response.body,
                                      Top(old(recorder.open)).aws["request_id" := OptionalStr(response.metadata.value.requestId)])))
    {
      recorder.SetAws("request_id", OptionalStr(response.metadata.value.requestId));
      var aws, _ := AddResponseSpecificInformation(snake, serviceHandler, Some(serviceName), Some(operation),
                                                   Some(response.body), Some(Top(recorder.open).aws));
      recorder.UpdateCurrent(Top(recorder.open).(aws := aws));
    }

    /** The request fields; a throw keeps the fields written before it. */
    method RecordRequest(serviceName: string, operation: string, originalRequest: Object) returns (err: Option<Exception>)
      requires recorder.open != []
      modifies recorder`open
      ensures var (aws, requestError) := RequestInformation(snake, serviceHandler, operation, originalRequest,
                                                            Top(old(recorder.open)).aws);
              recorder.open == WithTop(old(recorder.open), Top(old(recorder.open)).(aws := aws)) && err == requestError
    {
      var aws;
      aws, err := AddRequestSpecificInformation(snake, serviceHandler, Some(serviceName), Some(operation),
                                                Some(originalRequest), Some(Top(recorder.open).aws));
      recorder.UpdateCurrent(Top(recorder.open).(aws := aws));
    }

    /** The request id, the response fields and the HTTP outcome, on the current entity. */
    method RecordResponseSide(headers: map<string, string>, serviceName: string, operation: string, rc: ResponseContext)
      requires recorder.open != [] && (rc.response.Some? ==> rc.response.value.metadata.Some?)
      modifies recorder`open
      ensures recorder.open ==
                WithTop(old(recorder.open), ResponseRecorded(snake, serviceHandler, Top(old(recorder.open)), operation, headers, rc))
    {
      ghost var open0 := recorder.open;
      if rc.response.None? {
        RecordHeaderRequestIds(headers);
      } else {
        RecordResponse(serviceName, operation, rc.response.value);
      }
      ghost var withResponse := Top(recorder.open);
      assert recorder.open == WithTop(open0, withResponse);
      if rc.httpResponse.Some? {
        AddHttpInformation(rc.httpResponse.value);
      }
    }

    /** The attribute writes of `ProcessEndRequest`, on the current entity. */
    method RecordAttributes(request: Request, serviceName: string, operation: string, originalRequest: Object,
                            clientConfig: ClientConfig, rc: ResponseContext) returns (err: Option<Exception>)
      requires recorder.open != []
      modifies recorder`open
      ensures var (recorded, recordError) := AttributesRecorded(snake, serviceHandler, Top(old(recorder.open)), operation,
                                                                request.headers, originalRequest, clientConfig, rc);
              recorder.open == WithTop(old(recorder.open), recorded) && err == recordError
    {
      ghost var open0 := recorder.open;
      recorder.SetAws("region", OptionalStr(clientConfig.regionSystemName));
      recorder.SetAws("operation", Str(operation));
      ghost var e := WithRegionAndOperation(Top(open0), operation, clientConfig);
      assert recorder.open == WithTop(open0, e);
      if rc.response.Some? && rc.response.value.metadata.None? {
        return Some(NullReference);
      }
      RecordResponseSide(request.headers, serviceName, operation, rc);
      assert recorder.open == WithTop(open0, ResponseRecorded(snake, serviceHandler, e, operation, request.headers, rc));
      err := RecordRequest(serviceName, operation, originalRequest);
    }

    /** `ProcessEndRequest`: fills in the subsegment's attributes and ends it. */
    method ProcessEndRequest(request: Request, originalRequest: Option<Object>, clientConfig: Option<ClientConfig>,
                             responseContext: Option<ResponseContext>) returns (err: Option<Exception>)
      modifies recorder`open, recorder`closed, recorder`missingReports
      ensures (recorder.State(), err) ==
                EndRequest(snake, serviceHandler, old(recorder.State()), request.serviceName, request.headers,
                           originalRequest, clientConfig, responseContext)
    {
      var subSegment := recorder.GetEntity();
      if subSegment.None? {
        recorder.HandleEntityMissing();
        return None;
      }
      if responseContext.None? || clientConfig.None? {
        return None;
      }
      var serviceName := RemoveAmazonPrefixFromServiceName(request.serviceName);
      if serviceName.Err? {
        return Some(serviceName.error);
      }
      if originalRequest.None? {
        return Some(NullReference);
      }
      var operation := OperationName(originalRequest.value);
      err := RecordAndEnd(request, serviceName.value, operation, originalRequest.value, clientConfig.value,
                          responseContext.value);
    }

    /** The tail of `ProcessEndRequest`: write the attributes, then end the
        subsegment unless writing them threw. */
    method RecordAndEnd(request: Request, serviceName: string, operation: string, originalRequest: Object,
                        clientConfig: ClientConfig, rc: ResponseContext) returns (err: Option<Exception>)
      requires recorder.open != []
      modifies recorder`open, recorder`closed
      ensures var (recorded, recordError) := AttributesRecorded(snake, serviceHandler, Top(old(recorder.open)), operation,
                                                                request.headers, originalRequest, clientConfig, rc);
              && err == recordError
              && (err.Some? ==> recorder.open == WithTop(old(recorder.open), recorded) && recorder.closed == old(recorder.closed))
              && (err.None? ==> recorder.open == old(recorder.open)[..|old(recorder.open)| - 1]
                                && recorder.closed == old(recorder.closed) + [recorded])
    {
      err := RecordAttributes(request, serviceName, operation, originalRequest, clientConfig, rc);
      if err.Some? {
        return;
      }
      recorder.EndSubsegment();
    }

    /** `InvokeSync`: runs the next stage, traced when the call is instrumented; the
        end step runs once whatever the next stage did, and a throw from it replaces
        the call's own outcome. */
    method InvokeSync(request: Request, originalRequest: Option<Object>, clientConfig: Option<ClientConfig>,
                      next: NextStage) returns (thrown: Option<Exception>, nextInvoked: bool)
      modifies recorder`open, recorder`closed, recorder`missingReports, request`headers, request`parameters
      ensures InvokeOutcome(recorder.State(), request.headers, request.parameters, thrown, nextInvoked) ==
                Invoke(old(recorder.State()), request.serviceName, old(request.headers), old(request.parameters),
                       originalRequest, clientConfig, next)
    {
      if recorder.tracingDisabled {
        return next.thrown, true;
      }
      var excluded := ExcludeServiceOperation(request.serviceName, originalRequest);
      if excluded.Err? {
        return Some(excluded.error), false;
      }
      if excluded.value {
        return next.thrown, true;
      }
      var beginError := ProcessBeginRequest(request);
      if beginError.Some? {
        return beginError, false;
      }
      nextInvoked := true;
      thrown := next.thrown;
      if thrown.Some? {
        PopulateException(thrown.value);
      }
      var endError := ProcessEndRequest(request, originalRequest, clientConfig, next.responseContext);
      if endError.Some? {
        thrown := endError;
      }
    }
  }
}
