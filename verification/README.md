# SQS X-Ray publisher interceptor: a Dafny model

This project models the tracing interceptor of the `AWSXRay.SQS.Publisher.Extensions`
package: `SQSXRayPipelineHandler`, a stage of the AWS SDK pipeline. It wraps every call to
the queue service (SQS) in an X-Ray subsegment. On each `SendMessage` or `SendMessageBatch`
call it does four things:

- It propagates the trace header, both as the `X-Amzn-Trace-Id` transport header and as an
  `AWSTraceHeader` message system attribute.
- It records the HTTP outcome as error, throttle and fault flags.
- It records a failure of the call.
- It copies request and response fields into the subsegment's `aws` attributes, as a
  per-operation descriptor table directs.

The model also covers the three status-code predicates of `HttpStatusCodeExtensions`.

Layout (one module per file):

- `common.dfy` (`Common`): nullable values, results, and the exceptions that can cross
  the interceptor.
- `status_codes.dfy` (`HttpStatusCodes`): the success, throttle and fault predicates.
- `int32_text.dfy` (`Int32Text`): the .NET pieces that index allocation depends on:
  `int.TryParse`, `Int32.ToString()`, and unchecked `+ 1`.
- `names.dfy` (`Names`): `RemovePrefix`, `RemoveSuffix` and
  `RemoveAmazonPrefixFromServiceName`.
- `models.dfy` (`Models`): field values, SDK objects, the descriptor records, the operation
  table, and the outgoing request. The request is a class whose headers and parameters
  are updated in place.
- `extraction.dfy` (`Extraction`): reading properties, the map and list summarisers, and
  the request-side and response-side extraction loops.
- `trace_header.dfy` (`TraceHeaderInjection`): allocating the system-attribute index and
  adding the three parameters.
- `recorder.dfy` (`Tracing`): the recorder state the interceptor drives. This is a stack
  of open entities, the ended subsegments, and a count of missing-context reports.
- `pipeline.dfy` (`Pipeline`): the handler class. It has begin, end, exception capture,
  the instrumentation gate and `InvokeSync`. Each method is proved equal to a
  specification function of the old state, and lemmas state the promised behaviour about
  those functions.

Foreign pieces are parameters of the model:

- The snake-case conversion `FromCamelCaseToSnakeCase` is the handler's `snake` function.
- `TraceHeader.TryParse` followed by `ToString()` is `traceHeaderOf`, a function of the
  open entities.
- The next pipeline stage is a `NextStage` value: the exception it throws, and the
  response context it leaves behind.
- `IsTracingDisabled()` is the recorder's `tracingDisabled` flag.

## Behaviour worth knowing

The model follows the code, and these consequences of it are proved:

- **Index source.** The system-attribute index is read from the parameter *values*
  (`x.Value.Split('.')[1]`), not from the keys. Keys `.1.Name`/`.3.Name` whose values are
  attribute names without a '.' make the computation throw `IndexOutOfRangeException`.
  Taking `Max() + 1` over the key indices would have given 4 instead
  (`TraceHeaderInjection.UnsplittableValueThrows`). The
  allocated index can also collide with an existing key, and then `Parameters.Add` throws
  (`TraceHeaderInjection.AllocatedIndexCanCollide`). Either throw happens in
  `ProcessBeginRequest`, before the `try` of `InvokeSync`. So the next stage never runs,
  and the subsegment just opened stays open (`Pipeline.SqsXRayPipelineHandler.Invoke`).
- **Index wrap-around.** `Max() + 1` is unchecked. A value holding `Int32.MaxValue` puts
  the parameters at `Int32.MinValue` (`TraceHeaderInjection.SingleValueIndex`).
- **Request-side descriptor loop.** The loop is guarded by `RequestDescriptors` but
  iterates `ResponseDescriptors`, with two effects:
  - For `SendMessage` that table is null. When an entity is open and the response
    context and client configuration are present (and the response metadata is not
    null), the end step therefore always throws `NullReferenceException` from the
    `finally` block, replacing the call's own outcome and leaving the subsegment open
    (`Pipeline.SqsXRayPipelineHandler.SendMessageCallAlwaysFails`). With no open entity
    the end step only reports, and with a null response context or client configuration
    it returns early; in neither case does it throw.
  - For `SendMessageBatch` the request's entry count is never recorded; only the
    response's failed and successful counts are.
- **Operation lookup.** The operation table is built as a plain `Dictionary`, so lookup is
  case-sensitive. This overrides the case-insensitive default of `ServiceHandler`.
- **Fault flag.** The interceptor itself never calls `MarkFault`, because the
  `else if IsFault` arm only sees 2xx statuses.

## Model

| member | source | states |
|---|---|---|
| HttpStatusCodes.IsSuccessStatusCode | AWSXRay.SQS.Publisher.Extensions/Extensions/HttpStatusCodeExtensions.cs:7-10 | a status is a success exactly when it lies in the 2xx class |
| HttpStatusCodes.IsFault | AWSXRay.SQS.Publisher.Extensions/Extensions/HttpStatusCodeExtensions.cs:17-20 | a status is a fault exactly when it lies in the 5xx class; a fault is never a success |
| HttpStatusCodes.IsTooManyRequests | AWSXRay.SQS.Publisher.Extensions/Extensions/HttpStatusCodeExtensions.cs:12-15 | 429 is neither a success nor a fault and lies in the 4xx class |
| Int32Text.Int32Increment | AWSXRay.SQS.Publisher.Extensions/SQSXRayPipelineHandler.cs:256 | unchecked `+ 1` yields an Int32 congruent to n + 1 modulo 2^32 |
| Int32Text.ParseInt32 | AWSXRay.SQS.Publisher.Extensions/SQSXRayPipelineHandler.cs:254 | `int.TryParse` succeeds only with an Int32 |
| Int32Text.FormatInt | AWSXRay.SQS.Publisher.Extensions/SQSXRayPipelineHandler.cs:258 | the text of an index is non-empty, has no surrounding white space, and starts with '-' exactly for negatives |
| Int32Text.ParseFormatRoundTrip | AWSXRay.SQS.Publisher.Extensions/SQSXRayPipelineHandler.cs:254-258 | parsing the text `ToString` writes for an Int32 gives that Int32 back |
| Int32Text.DigitsValueOfNatDigits | AWSXRay.SQS.Publisher.Extensions/SQSXRayPipelineHandler.cs:254-258 | the decimal digits of n read back as n |
| Names.RemovePrefix | AWSXRay.SQS.Publisher.Extensions/SQSXRayPipelineHandler.cs:149-165 | a null prefix, then a null string, throw ArgumentNullException; when the string starts with the prefix, prefix + result is the string; otherwise the string is returned unchanged |
| Names.RemoveSuffix | AWSXRay.SQS.Publisher.Extensions/SQSXRayPipelineHandler.cs:167-183 | a null suffix, then a null string, throw; when the string ends with the suffix, result + suffix is the string; otherwise it is unchanged |
| Names.RemovePrefixPreimage | AWSXRay.SQS.Publisher.Extensions/SQSXRayPipelineHandler.cs:149-165 | RemovePrefix maps s to x exactly when s is prefix + x, or s is x and x does not start with the prefix |
| Names.RemoveSuffixPreimage | AWSXRay.SQS.Publisher.Extensions/SQSXRayPipelineHandler.cs:167-183 | RemoveSuffix maps s to x exactly when s is x + suffix, or s is x and x does not end with the suffix |
| Names.RemoveAmazonPrefixFromServiceName | AWSXRay.SQS.Publisher.Extensions/SQSXRayPipelineHandler.cs:144-147 | succeeds exactly for a non-null name; a null name throws ArgumentNullException for `originalString`; the name is the result with "Amazon" and then "." possibly in front |
| Names.AmazonPrefixPreimage | AWSXRay.SQS.Publisher.Extensions/SQSXRayPipelineHandler.cs:144-147 | the stripped name is x exactly when the name is "Amazon." + x, "Amazon" + x with x not starting with ".", "." + x, or x itself starting with neither "Amazon" nor "." |
| Names.ServiceNameIsSqs | AWSXRay.SQS.Publisher.Extensions/SQSXRayPipelineHandler.cs:144-147 | the stripped name is "SQS" exactly for "SQS", ".SQS", "AmazonSQS" and "Amazon.SQS" |
| Models.InitializeServiceHandler | AWSXRay.SQS.Publisher.Extensions/SQSXRayPipelineHandler.cs:29-104 | the table has exactly the keys SendMessage and SendMessageBatch, both with request descriptors; SendMessage has no response descriptors |
| Models.Request.AddParameter | AWSXRay.SQS.Publisher.Extensions/SQSXRayPipelineHandler.cs:258-263 | `Parameters.Add` throws on a key already present and then changes nothing; otherwise the key is added with its value |
| Extraction.TryReadPropertyValue | AWSXRay.SQS.Publisher.Extensions/SQSXRayPipelineHandler.cs:112-142 | found exactly when object and name are non-null and the object has the property; the value is the property's |
| Extraction.AddMapKeyProperty | AWSXRay.SQS.Publisher.Extensions/SQSXRayPipelineHandler.cs:185-202 | a dictionary property writes its key collection under the snake-cased rename target (or property name when the target is null or empty); other entries are unchanged; anything else leaves `aws` as it was |
| Extraction.AddListLengthProperty | AWSXRay.SQS.Publisher.Extensions/SQSXRayPipelineHandler.cs:204-221 | a list property writes its count under the snake-cased rename target or property name; anything else leaves `aws` as it was |
| Extraction.CopyPlainParameters | AWSXRay.SQS.Publisher.Extensions/SQSXRayPipelineHandler.cs:412-421 | the plain-parameter loop computes the in-order fold of single-field copies |
| Extraction.ApplyDescriptorLoop | AWSXRay.SQS.Publisher.Extensions/SQSXRayPipelineHandler.cs:423-439 | the descriptor loop computes the in-order fold: map-and-keys before list-and-count, neither does nothing |
| Extraction.AddRequestSpecificInformation | AWSXRay.SQS.Publisher.Extensions/SQSXRayPipelineHandler.cs:385-440 | null arguments throw ArgumentNullException in order service name, operation, request, aws; an unknown operation leaves aws unchanged; otherwise plain fields, then the loop over the response descriptors, which throws NullReferenceException when that table is null, keeping earlier writes |
| Extraction.AddResponseSpecificInformation | AWSXRay.SQS.Publisher.Extensions/SQSXRayPipelineHandler.cs:442-497 | null arguments throw in order; an unknown operation leaves aws unchanged; otherwise plain response fields then response descriptors, never throwing |
| Extraction.ApplyPlainFrame | AWSXRay.SQS.Publisher.Extensions/SQSXRayPipelineHandler.cs:412-421 | a key no parameter snake-cases to is untouched by the plain loop |
| Extraction.ApplyPlainCopies | AWSXRay.SQS.Publisher.Extensions/SQSXRayPipelineHandler.cs:412-421 | every readable parameter not overwritten later ends up under its snake-case name with its value |
| Extraction.ApplyDescriptorEffect | AWSXRay.SQS.Publisher.Extensions/SQSXRayPipelineHandler.cs:430-437 | a descriptor step writes its summary under its attribute name, or changes nothing when there is no summary |
| Extraction.ApplyDescriptorsFrame | AWSXRay.SQS.Publisher.Extensions/SQSXRayPipelineHandler.cs:423-439 | a key no descriptor names is untouched by the descriptor loop |
| Extraction.ApplyDescriptorsSummarise | AWSXRay.SQS.Publisher.Extensions/SQSXRayPipelineHandler.cs:480-496 | every descriptor with a summary, not overwritten later, leaves its summary in the result |
| Extraction.SendMessageRequestSide | AWSXRay.SQS.Publisher.Extensions/SQSXRayPipelineHandler.cs:412-425 | for SendMessage both plain fields are copied and the descriptor loop throws NullReferenceException |
| Extraction.SendMessageBatchRequestSide | AWSXRay.SQS.Publisher.Extensions/SQSXRayPipelineHandler.cs:412-439 | for SendMessageBatch only the queue URL is written and nothing is thrown; the entry count is never recorded |
| Extraction.SendMessageBatchCountsSurvive | AWSXRay.SQS.Publisher.Extensions/SQSXRayPipelineHandler.cs:412-496 | for SendMessageBatch the counts written by the response side are still there after the request side |
| Extraction.SendMessageBatchResponseSide | AWSXRay.SQS.Publisher.Extensions/SQSXRayPipelineHandler.cs:480-496 | the failed and successful lists are recorded as their counts |
| TraceHeaderInjection.SecondSegment | AWSXRay.SQS.Publisher.Extensions/SQSXRayPipelineHandler.cs:254 | `Split('.')[1]` fails exactly when the value has no '.'; otherwise the result is the text between the first '.' and the next '.' (or the end), so it contains no '.' |
| TraceHeaderInjection.SecondSegmentOfJoin | AWSXRay.SQS.Publisher.Extensions/SQSXRayPipelineHandler.cs:254 | for a first segment a without '.', a middle b without '.' and a rest that is empty or starts with '.', `Split('.')[1]` of a.b + rest is b |
| TraceHeaderInjection.AddAll | AWSXRay.SQS.Publisher.Extensions/SQSXRayPipelineHandler.cs:258-263 | successive `Add`s keep every existing entry, add only entries from the list, and fail only with a duplicate of a listed key |
| TraceHeaderInjection.InjectedParameters | AWSXRay.SQS.Publisher.Extensions/SQSXRayPipelineHandler.cs:246-263 | injection keeps every existing parameter, adds only system-attribute keys, and throws only IndexOutOfRangeException or a duplicate-key error |
| TraceHeaderInjection.IndexCandidates | AWSXRay.SQS.Publisher.Extensions/SQSXRayPipelineHandler.cs:251-255 | the numbers the maximum is taken over include 0 and are all Int32 |
| TraceHeaderInjection.MaxSystemAttributeIndex | AWSXRay.SQS.Publisher.Extensions/SQSXRayPipelineHandler.cs:251-256 | throws IndexOutOfRangeException exactly when some system-attribute value has no '.'; otherwise returns the largest candidate |
| TraceHeaderInjection.EntryKeysDistinct | AWSXRay.SQS.Publisher.Extensions/SQSXRayPipelineHandler.cs:258-263 | the three keys written at one index are distinct |
| TraceHeaderInjection.InjectionAtIndexOne | AWSXRay.SQS.Publisher.Extensions/SQSXRayPipelineHandler.cs:246-263 | with no trace header name among the values and no system-attribute key, the injection is the three adds at index 1, whose keys are all absent |
| TraceHeaderInjection.InjectionAddsExactlyThree | AWSXRay.SQS.Publisher.Extensions/SQSXRayPipelineHandler.cs:258-263 | with the three keys absent, exactly those three are added (name AWSTraceHeader, data type String, the header) and no other entry changes |
| TraceHeaderInjection.NoSystemAttributesGivesIndexOne | AWSXRay.SQS.Publisher.Extensions/SQSXRayPipelineHandler.cs:251-256 | without system-attribute keys the computation does not throw and the index is 1 |
| TraceHeaderInjection.NextIndexBounds | AWSXRay.SQS.Publisher.Extensions/SQSXRayPipelineHandler.cs:251-256 | the index is at least 1 unless the maximum is Int32.MaxValue, where it wraps to Int32.MinValue |
| TraceHeaderInjection.IndexReadFromValue | AWSXRay.SQS.Publisher.Extensions/SQSXRayPipelineHandler.cs:254 | a value "a.n" with no '.' in a contributes n |
| TraceHeaderInjection.SingleValueIndex | AWSXRay.SQS.Publisher.Extensions/SQSXRayPipelineHandler.cs:251-256 | one system-attribute parameter with value "a.n" gives index n + 1 wrapped to 32 bits, which is Int32.MinValue for Int32.MaxValue |
| TraceHeaderInjection.UnsplittableValueThrows | AWSXRay.SQS.Publisher.Extensions/SQSXRayPipelineHandler.cs:251-256 | a system-attribute value without '.' makes injection throw and add nothing |
| TraceHeaderInjection.AllocatedIndexCanCollide | AWSXRay.SQS.Publisher.Extensions/SQSXRayPipelineHandler.cs:251-259 | the key "MessageSystemAttribute.(n+1).Name" holding "a.n" makes the first Add throw a duplicate-key error |
| Tracing.Recorder.GetEntity | AWSXRay.SQS.Publisher.Extensions/SQSXRayPipelineHandler.cs:228-235 | yields the current entity, and fails exactly when none is open |
| Tracing.Recorder.BeginSubsegment | AWSXRay.SQS.Publisher.Extensions/SQSXRayPipelineHandler.cs:237 | pushes a fresh subsegment when an entity is open |
| Tracing.Recorder.EndSubsegment | AWSXRay.SQS.Publisher.Extensions/SQSXRayPipelineHandler.cs:334 | pops the current entity onto the ended list |
| Tracing.Recorder.HandleEntityMissing | AWSXRay.SQS.Publisher.Extensions/SQSXRayPipelineHandler.cs:277 | the missing-context handler records one report and never throws |
| Tracing.Recorder.MarkError | AWSXRay.SQS.Publisher.Extensions/SQSXRayPipelineHandler.cs:344 | sets the error flag on the current entity only |
| Tracing.Recorder.MarkThrottle | AWSXRay.SQS.Publisher.Extensions/SQSXRayPipelineHandler.cs:348 | sets the throttle flag on the current entity only |
| Tracing.Recorder.MarkFault | AWSXRay.SQS.Publisher.Extensions/SQSXRayPipelineHandler.cs:353 | sets the fault flag on the current entity only |
| Tracing.Recorder.AddHttpInformation | AWSXRay.SQS.Publisher.Extensions/SQSXRayPipelineHandler.cs:358 | stores the attribute bag under the key in the current entity's http attributes |
| Tracing.Recorder.SetAws | AWSXRay.SQS.Publisher.Extensions/SQSXRayPipelineHandler.cs:298-299 | writes one aws attribute of the current entity |
| Tracing.Recorder.SetNamespace | AWSXRay.SQS.Publisher.Extensions/SQSXRayPipelineHandler.cs:238 | sets the namespace of the current entity only, and does nothing without one |
| Tracing.Recorder.AddException | AWSXRay.SQS.Publisher.Extensions/SQSXRayPipelineHandler.cs:550 | appends the exception to the current entity |
| Pipeline.OperationName | AWSXRay.SQS.Publisher.Extensions/SQSXRayPipelineHandler.cs:296 | the request type name with a trailing "Request" removed |
| Pipeline.OperationOfTypeName | AWSXRay.SQS.Publisher.Extensions/SQSXRayPipelineHandler.cs:558-566 | the operation is in the table exactly for type names SendMessage, SendMessageRequest, SendMessageBatch, SendMessageBatchRequest (case-sensitive) |
| Pipeline.Classified | AWSXRay.SQS.Publisher.Extensions/SQSXRayPipelineHandler.cs:342-354 | marking sets error exactly for non-2xx, throttle exactly for 429, never changes the fault flag, and changes nothing else |
| Pipeline.FaultStatusMarksErrorNotFault | AWSXRay.SQS.Publisher.Extensions/SQSXRayPipelineHandler.cs:342-354 | a 5xx status marks an error and never a fault |
| Pipeline.HttpStatusRecorded | AWSXRay.SQS.Publisher.Extensions/SQSXRayPipelineHandler.cs:356-358 | status and content length are always recorded under "response"; aws and exceptions are untouched |
| Pipeline.ExceptionCapturedEffect | AWSXRay.SQS.Publisher.Extensions/SQSXRayPipelineHandler.cs:528-556 | without an entity one report and nothing else; otherwise the exception is appended, and a service exception also records its status, its request id and the error flag |
| Pipeline.ExceptionCaptured | AWSXRay.SQS.Publisher.Extensions/SQSXRayPipelineHandler.cs:528-556 | capturing an exception ends nothing and opens nothing; it reports once exactly when no entity is open |
| Pipeline.AttributesRecorded | AWSXRay.SQS.Publisher.Extensions/SQSXRayPipelineHandler.cs:295-332 | writing the attributes keeps the entity's name, namespace, exceptions and fault flag; a null response metadata throws NullReferenceException after only region and operation; otherwise an HTTP response's status and content length are recorded and mark an error exactly for non-2xx |
| Pipeline.EndRequest | AWSXRay.SQS.Publisher.Extensions/SQSXRayPipelineHandler.cs:267-335 | the end step ends at most the current subsegment and keeps every other entity; it reports once exactly when no entity is open; a subsegment is ended only when nothing is thrown, and keeps its name and exceptions |
| Pipeline.EndRequestWithoutEntity | AWSXRay.SQS.Publisher.Extensions/SQSXRayPipelineHandler.cs:271-279 | without an entity the end step reports once and does nothing else |
| Pipeline.EndRequestEarlyReturn | AWSXRay.SQS.Publisher.Extensions/SQSXRayPipelineHandler.cs:284-293 | a null response context or client configuration returns before any write, leaving the subsegment open |
| Pipeline.EndRequestClosesUnlessThrown | AWSXRay.SQS.Publisher.Extensions/SQSXRayPipelineHandler.cs:295-335 | past the early returns, the subsegment is ended exactly when the end step does not throw |
| Pipeline.SendMessageEndAlwaysThrows | AWSXRay.SQS.Publisher.Extensions/SQSXRayPipelineHandler.cs:332-334 | for SendMessage, past the early returns, the end step throws NullReferenceException and the subsegment stays open |
| Pipeline.SendMessageEndRecordsFields | AWSXRay.SQS.Publisher.Extensions/SQSXRayPipelineHandler.cs:332 | before throwing, the SendMessage end step has written DelaySeconds and QueueUrl to the open subsegment |
| Pipeline.SendMessageBatchEndCloses | AWSXRay.SQS.Publisher.Extensions/SQSXRayPipelineHandler.cs:332-334 | for SendMessageBatch the end step does not throw and ends the subsegment |
| Pipeline.SendMessageBatchAttributesCounts | AWSXRay.SQS.Publisher.Extensions/SQSXRayPipelineHandler.cs:321-332 | for SendMessageBatch the failed and successful counts of the response survive the HTTP outcome and the request side |
| Pipeline.SendMessageBatchEndRecordsCounts | AWSXRay.SQS.Publisher.Extensions/SQSXRayPipelineHandler.cs:321-334 | for SendMessageBatch the ended subsegment carries "failed_count" and "successful_count" equal to the response's list lengths |
| Pipeline.SqsXRayPipelineHandler.ExcludeServiceOperation | AWSXRay.SQS.Publisher.Extensions/SQSXRayPipelineHandler.cs:558-566 | a null service name throws ArgumentNullException, then a null original request throws NullReferenceException; otherwise a verdict |
| Pipeline.SqsXRayPipelineHandler.InstrumentationGate | AWSXRay.SQS.Publisher.Extensions/SQSXRayPipelineHandler.cs:558-566 | a call is instrumented exactly for the four SQS service names and the four request type names |
| Pipeline.SqsXRayPipelineHandler.BeginRequest | AWSXRay.SQS.Publisher.Extensions/SQSXRayPipelineHandler.cs:223-265 | the begin step ends nothing, opens at most one subsegment above the open ones, reports once exactly when no entity is open, keeps every header but the trace header and every parameter, adds only system-attribute parameters, and throws only for a null service name or from the injection |
| Pipeline.SqsXRayPipelineHandler.BeginOpensSubsegment | AWSXRay.SQS.Publisher.Extensions/SQSXRayPipelineHandler.cs:237-238 | with an entity, one subsegment named after the stripped service name is opened in namespace "aws", with no exceptions |
| Pipeline.SqsXRayPipelineHandler.BeginWithoutEntity | AWSXRay.SQS.Publisher.Extensions/SQSXRayPipelineHandler.cs:228-242 | without an entity, one report is made, nothing is opened or injected, and only a null service name throws |
| Pipeline.SqsXRayPipelineHandler.BeginInjectionGuard | AWSXRay.SQS.Publisher.Extensions/SQSXRayPipelineHandler.cs:242-249 | the transport header is always set when a header is obtained; a value already equal to "AWSTraceHeader" leaves the parameters unchanged |
| Pipeline.SqsXRayPipelineHandler.BeginInjectsAtIndexOne | AWSXRay.SQS.Publisher.Extensions/SQSXRayPipelineHandler.cs:251-263 | with no system-attribute parameter, exactly three parameters are added at index 1 and no other entry changes |
| Pipeline.SqsXRayPipelineHandler.Invoke | AWSXRay.SQS.Publisher.Extensions/SQSXRayPipelineHandler.cs:499-526 | a call ends at most one subsegment, keeps every header but the trace header and every parameter, adds only system-attribute parameters; the next stage is skipped only when the call throws, and a failure of the next stage is never swallowed |
| Pipeline.SqsXRayPipelineHandler.TransparentWhenNotInstrumented | AWSXRay.SQS.Publisher.Extensions/SQSXRayPipelineHandler.cs:501-504 | a call not instrumented only runs the next stage and has its outcome, changing nothing else |
| Pipeline.SqsXRayPipelineHandler.OutcomePreserved | AWSXRay.SQS.Publisher.Extensions/SQSXRayPipelineHandler.cs:506-524 | an instrumented call runs the next stage, runs the end step once on the state after capture, and re-throws the next stage's exception unchanged when the end step does not throw |
| Pipeline.SqsXRayPipelineHandler.SendMessageCallAlwaysFails | AWSXRay.SQS.Publisher.Extensions/SQSXRayPipelineHandler.cs:506-524 | a traced SQS SendMessage call fails with NullReferenceException even when sent, and no subsegment is ended |
| Pipeline.SqsXRayPipelineHandler.SendMessageBatchFailureCaptured | AWSXRay.SQS.Publisher.Extensions/SQSXRayPipelineHandler.cs:506-524 | a traced SQS SendMessageBatch call whose next stage throws re-throws that exception and ends the subsegment with it as its only exception |
| Pipeline.SqsXRayPipelineHandler.InvokeWithoutEntity | AWSXRay.SQS.Publisher.Extensions/SQSXRayPipelineHandler.cs:499-526 | with no entity open, an instrumented call only reports (two or three times) and returns the next stage's outcome |
| Pipeline.SqsXRayPipelineHandler.AddHttpInformation | AWSXRay.SQS.Publisher.Extensions/SQSXRayPipelineHandler.cs:337-359 | the current entity becomes the marked entity with status and content length recorded |
| Pipeline.SqsXRayPipelineHandler.ProcessException | AWSXRay.SQS.Publisher.Extensions/SQSXRayPipelineHandler.cs:361-383 | the current entity is marked by the exception's status, which is recorded under "response", and its request id is written |
| Pipeline.SqsXRayPipelineHandler.PopulateException | AWSXRay.SQS.Publisher.Extensions/SQSXRayPipelineHandler.cs:528-556 | the recorder becomes the captured state of the exception |
| Pipeline.SqsXRayPipelineHandler.AddSystemAttributes | AWSXRay.SQS.Publisher.Extensions/SQSXRayPipelineHandler.cs:258-263 | the three Adds give the sequential-add result, keeping adds before a duplicate |
| Pipeline.SqsXRayPipelineHandler.InjectTraceHeader | AWSXRay.SQS.Publisher.Extensions/SQSXRayPipelineHandler.cs:246-263 | the parameters become the injected parameters for the header |
| Pipeline.SqsXRayPipelineHandler.ProcessBeginRequest | AWSXRay.SQS.Publisher.Extensions/SQSXRayPipelineHandler.cs:223-265 | recorder, headers and parameters become the begin outcome of the old state |
| Pipeline.SqsXRayPipelineHandler.RecordHeaderRequestIds | AWSXRay.SQS.Publisher.Extensions/SQSXRayPipelineHandler.cs:301-319 | request ids come from the request headers "x-amzn-RequestId", or else "x-amz-request-id" and "x-amz-id-2" |
| Pipeline.SqsXRayPipelineHandler.RecordResponse | AWSXRay.SQS.Publisher.Extensions/SQSXRayPipelineHandler.cs:321-325 | the metadata request id, then the response fields, are written to the current entity |
| Pipeline.SqsXRayPipelineHandler.RecordResponseSide | AWSXRay.SQS.Publisher.Extensions/SQSXRayPipelineHandler.cs:301-330 | the current entity gets its request id, its response fields and its HTTP outcome, as the recorded-response entity of the old one |
| Pipeline.SqsXRayPipelineHandler.RecordRequest | AWSXRay.SQS.Publisher.Extensions/SQSXRayPipelineHandler.cs:332 | the request fields are written to the current entity, with what the request side throws |
| Pipeline.SqsXRayPipelineHandler.RecordAttributes | AWSXRay.SQS.Publisher.Extensions/SQSXRayPipelineHandler.cs:295-332 | the current entity becomes the recorded entity, with its exception |
| Pipeline.SqsXRayPipelineHandler.RecordAndEnd | AWSXRay.SQS.Publisher.Extensions/SQSXRayPipelineHandler.cs:295-335 | the attributes are written, and the subsegment is ended exactly when writing them did not throw |
| Pipeline.SqsXRayPipelineHandler.ProcessEndRequest | AWSXRay.SQS.Publisher.Extensions/SQSXRayPipelineHandler.cs:267-335 | recorder state and thrown exception are the end outcome of the old state |
| Pipeline.SqsXRayPipelineHandler.InvokeSync | AWSXRay.SQS.Publisher.Extensions/SQSXRayPipelineHandler.cs:499-526 | recorder, headers, parameters, outcome and whether the next stage ran are the invoke outcome of the old state |

## Left out

- `InvokeAsync` is not modelled. Its begin, catch-and-rethrow and end shape is that of
  `InvokeSync`; only the task mechanics differ.
- Reflection is a lookup in a property map, so `AmbiguousMatchException` cannot arise.
  The runtime type test `is IDictionary` / `is IList` is the `Dict` / `List` value shape.
- `Int32Text.FormatInt` writes '-' for a negative index, where `Int32.ToString()` uses the
  current culture's `NegativeSign`; culture settings are not modelled.
- `StartsWith` and `EndsWith` are ordinal comparisons here. The source calls the
  culture-sensitive overloads, and culture rules are not modelled.
- `Int32Text.ParseInt32` accepts the default integer style with invariant culture.
  Culture-specific signs and trailing NUL characters are not modelled.
- `FromCamelCaseToSnakeCase`, `TraceHeader.TryParse`/`ToString` and `StringUtils.FromString`
  are foreign code. The first two are parameters of the handler. The third is the identity
  on the string.
- `Tracing.Recorder.AddException` only appends the exception to the current entity. The
  recorder's own bookkeeping in `Entity.AddException` is not modelled: the fault flag and
  the cause it may set. So the model promises nothing about the fault flag or the cause
  of an entity that has captured an exception.
- Recorder internals are reduced to the stack, the ended list and the report count.
  Sampling, emission, the trace context's storage, and the recorder's own handling of a
  missing entity inside `BeginSubsegment` and the mark calls are not modelled; those calls
  do nothing when no entity is open. `HandleEntityMissing` never throws.
- Header lookups are exact. The SDK request's header dictionary and its key comparer are
  not part of this model.
- A parameter's value is never null in this model, so `x.Value.Split('.')` never throws
  a null dereference.
- Entities are values on the recorder's stack. The `subSegment` reference the source keeps
  is always the current entity, so writes through it are writes to the top of the stack.
- Changes the next pipeline stage makes to the request (signing, marshalling) are not
  modelled; the next stage is given by its outcome and its response context.
- Region, content length and request ids are opaque values copied from the inputs.
