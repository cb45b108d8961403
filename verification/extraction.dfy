/** Descriptor-driven extraction of request and response fields into a span's
    `aws` attribute bag. Field access by reflection becomes a lookup in the
    object's property map; the snake-case conversion of attribute names is a
    parameter `snake`. */
module Extraction {
  import opened Common
  import opened Models

  /** `TryReadPropertyValue`: a null object, a null name or a missing property is "not found". */
  function TryReadPropertyValue(obj: Option<Object>, propertyName: Option<string>): (r: Option<Value>)
    ensures r.Some? <==> obj.Some? && propertyName.Some? && propertyName.value in obj.value.properties
    ensures r.Some? ==> r.value == obj.value.properties[propertyName.value]
  {
    if obj.None? || propertyName.None? then None
    else if propertyName.value !in obj.value.properties then None
    else Some(obj.value.properties[propertyName.value])
  }

  predicate IsNullOrEmpty(s: Option<string>) {
    s.None? || s.value == []
  }

  /** The attribute name a summariser writes: the snake-case form of `renameTo`,
      or of the property name when `renameTo` is null or empty. */
  function SummaryName(snake: string -> string, propertyName: string, renameTo: Option<string>): string {
    snake(if IsNullOrEmpty(renameTo) then propertyName else renameTo.value)
  }

  /** `AddMapKeyProperty`: a property holding a dictionary is summarised to its key
      collection; anything else leaves `aws` as it was. */
  function AddMapKeyProperty(snake: string -> string, aws: map<string, Value>, obj: Option<Object>,
                             propertyName: Option<string>, renameTo: Option<string>): (r: map<string, Value>)
    ensures match TryReadPropertyValue(obj, propertyName)
            case Some(Dict(keys)) =>
              r.Keys == aws.Keys + {SummaryName(snake, propertyName.value, renameTo)} &&
              r[SummaryName(snake, propertyName.value, renameTo)] == KeyCollection(keys) &&
              forall k :: k in aws && k != SummaryName(snake, propertyName.value, renameTo) ==> r[k] == aws[k]
            case _ => r == aws
  {
    match TryReadPropertyValue(obj, propertyName)
    case Some(Dict(keys)) => aws[SummaryName(snake, propertyName.value, renameTo) := KeyCollection(keys)]
    case _ => aws
  }

  /** `AddListLengthProperty`: a property holding a list is summarised to its count;
      anything else leaves `aws` as it was. */
  function AddListLengthProperty(snake: string -> string, aws: map<string, Value>, obj: Option<Object>,
                                 propertyName: Option<string>, renameTo: Option<string>): (r: map<string, Value>)
    ensures match TryReadPropertyValue(obj, propertyName)
            case Some(List(n)) =>
              r.Keys == aws.Keys + {SummaryName(snake, propertyName.value, renameTo)} &&
              r[SummaryName(snake, propertyName.value, renameTo)] == Int(n) &&
              forall k :: k in aws && k != SummaryName(snake, propertyName.value, renameTo) ==> r[k] == aws[k]
            case _ => r == aws
  {
    match TryReadPropertyValue(obj, propertyName)
    case Some(List(n)) => aws[SummaryName(snake, propertyName.value, renameTo) := Int(n)]
    case _ => aws
  }

  /** One step of a plain-parameter loop: a readable property is copied under its snake-case name. */
  function WritePlain(snake: string -> string, aws: map<string, Value>, obj: Object, parameter: string): map<string, Value> {
    match TryReadPropertyValue(Some(obj), Some(parameter))
    case Some(v) => aws[snake(parameter) := v]
    case None => aws
  }

  /** A whole plain-parameter loop, in list order. */
  function ApplyPlain(snake: string -> string, aws: map<string, Value>, obj: Object, parameters: seq<string>): map<string, Value>
    decreases |parameters|
  {
    if parameters == [] then aws
    else ApplyPlain(snake, WritePlain(snake, aws, obj, parameters[0]), obj, parameters[1..])
  }

  /** One step of a descriptor loop: map-and-keys takes priority over list-and-count;
      a descriptor with neither does nothing. */
  function ApplyDescriptor(snake: string -> string, aws: map<string, Value>, obj: Object,
                           entry: (string, ParameterDescriptor)): map<string, Value> {
    var (propertyName, descriptor) := entry;
    if descriptor.isMap && descriptor.getKeys then
      AddMapKeyProperty(snake, aws, Some(obj), Some(propertyName), descriptor.renameTo)
    else if descriptor.isList && descriptor.getCount then
      AddListLengthProperty(snake, aws, Some(obj), Some(propertyName), descriptor.renameTo)
    else aws
  }

  /** A whole descriptor loop, in the dictionary's enumeration order. */
  function ApplyDescriptors(snake: string -> string, aws: map<string, Value>, obj: Object, entries: Descriptors): map<string, Value>
    decreases |entries|
  {
    if entries == [] then aws
    else ApplyDescriptors(snake, ApplyDescriptor(snake, aws, obj, entries[0]), obj, entries[1..])
  }

  /** The request side for a known operation: plain request parameters, then (when
      `RequestDescriptors` is not null) a loop over `ResponseDescriptors`, which throws
      `NullReferenceException` when that table is null. */
  function RequestSide(snake: string -> string, h: OperationHandler, request: Object, aws: map<string, Value>)
    : (map<string, Value>, Option<Exception>)
  {
    var plain := if h.requestParameters.Some? then ApplyPlain(snake, aws, request, h.requestParameters.value) else aws;
    if h.requestDescriptors.None? then (plain, None)
    else if h.responseDescriptors.None? then (plain, Some(NullReference))
    else (ApplyDescriptors(snake, plain, request, h.responseDescriptors.value), None)
  }

  /** The response side for a known operation: plain response parameters, then the
      response descriptors when present. */
  function ResponseSide(snake: string -> string, h: OperationHandler, response: Object, aws: map<string, Value>)
    : map<string, Value>
  {
    var plain := if h.responseParameters.Some? then ApplyPlain(snake, aws, response, h.responseParameters.value) else aws;
    if h.responseDescriptors.None? then plain
    else ApplyDescriptors(snake, plain, response, h.responseDescriptors.value)
  }

  /** The first null among the four arguments, in the order they are checked. */
  function NullArgument<A, B, C, D>(serviceName: Option<A>, operation: Option<B>, objName: string,
                                    obj: Option<C>, aws: Option<D>): Option<Exception>
  {
    if serviceName.None? then Some(ArgumentNull("serviceName"))
    else if operation.None? then Some(ArgumentNull("operation"))
    else if obj.None? then Some(ArgumentNull(objName))
    else if aws.None? then Some(ArgumentNull("aws"))
    else None
  }

  function AwsOrEmpty(aws: Option<map<string, Value>>): map<string, Value> {
    if aws.Some? then aws.value else map[]
  }

  /** The plain-parameter loop, writing into `aws` step by step. */
  method CopyPlainParameters(snake: string -> string, aws: map<string, Value>, obj: Object, parameters: seq<string>)
    returns (result: map<string, Value>)
    ensures result == ApplyPlain(snake, aws, obj, parameters)
  {
    result := aws;
    var i := 0;
    while i < |parameters|
      invariant 0 <= i <= |parameters|
      invariant ApplyPlain(snake, result, obj, parameters[i..]) == ApplyPlain(snake, aws, obj, parameters)
    {
      assert parameters[i..][1..] == parameters[i + 1..];
      var parameter := parameters[i];
      var propertyValue := TryReadPropertyValue(Some(obj), Some(parameter));
      if propertyValue.Some? {
        result := result[snake(parameter) := propertyValue.value];
      }
      i := i + 1;
    }
    assert parameters[i..] == [];
  }

  /** The descriptor loop, writing into `aws` step by step. */
  method ApplyDescriptorLoop(snake: string -> string, aws: map<string, Value>, obj: Object, entries: Descriptors)
    returns (result: map<string, Value>)
    ensures result == ApplyDescriptors(snake, aws, obj, entries)
  {
    result := aws;
    var i := 0;
    while i < |entries|
      invariant 0 <= i <= |entries|
      invariant ApplyDescriptors(snake, result, obj, entries[i..]) == ApplyDescriptors(snake, aws, obj, entries)
    {
      assert entries[i..][1..] == entries[i + 1..];
      var (propertyName, descriptor) := entries[i];
      if descriptor.isMap && descriptor.getKeys {
        result := AddMapKeyProperty(snake, result, Some(obj), Some(propertyName), descriptor.renameTo);
      } else if descriptor.isList && descriptor.getCount {
        result := AddListLengthProperty(snake, result, Some(obj), Some(propertyName), descriptor.renameTo);
      }
      i := i + 1;
    }
    assert entries[i..] == [];
  }

  /** `AddRequestSpecificInformation`. Null arguments throw `ArgumentNullException`; an
      unknown operation leaves `aws` unchanged; otherwise `aws` is updated as
      `RequestSide` says, including the entries written before a throw. */
  method AddRequestSpecificInformation(snake: string -> string, table: ServiceHandler,
                                       serviceName: Option<string>, operation: Option<string>,
                                       request: Option<Object>, aws: Option<map<string, Value>>)
    returns (result: map<string, Value>, err: Option<Exception>)
    ensures NullArgument(serviceName, operation, "request", request, aws).Some? ==>
              err == NullArgument(serviceName, operation, "request", request, aws) && result == AwsOrEmpty(aws)
    ensures NullArgument(serviceName, operation, "request", request, aws).None? && operation.value !in table.operations ==>
              err.None? && result == aws.value
    ensures NullArgument(serviceName, operation, "request", request, aws).None? && operation.value in table.operations ==>
              (result, err) == RequestSide(snake, table.operations[operation.value], request.value, aws.value)
  {
    err := NullArgument(serviceName, operation, "request", request, aws);
    result := AwsOrEmpty(aws);
    if err.Some? || operation.value !in table.operations {
      return;
    }
    var h := table.operations[operation.value];
    if h.requestParameters.Some? {
      result := CopyPlainParameters(snake, result, request.value, h.requestParameters.value);
    }
    if h.requestDescriptors.Some? {
      if h.responseDescriptors.None? {
        err := Some(NullReference);
        return;
      }
      result := ApplyDescriptorLoop(snake, result, request.value, h.responseDescriptors.value);
    }
  }

  /** `AddResponseSpecificInformation`: as the request side, over the response
      parameters and the response descriptors; it never dereferences a null table. */
  method AddResponseSpecificInformation(snake: string -> string, table: ServiceHandler,
                                        serviceName: Option<string>, operation: Option<string>,
                                        response: Option<Object>, aws: Option<map<string, Value>>)
    returns (result: map<string, Value>, err: Option<Exception>)
    ensures NullArgument(serviceName, operation, "response", response, aws).Some? ==>
              err == NullArgument(serviceName, operation, "response", response, aws) && result == AwsOrEmpty(aws)
    ensures NullArgument(serviceName, operation, "response", response, aws).None? ==> err.None?
    ensures NullArgument(serviceName, operation, "response", response, aws).None? && operation.value !in table.operations ==>
              result == aws.value
    ensures NullArgument(serviceName, operation, "response", response, aws).None? && operation.value in table.operations ==>
              result == ResponseSide(snake, table.operations[operation.value], response.value, aws.value)
  {
    err := NullArgument(serviceName, operation, "response", response, aws);
    result := AwsOrEmpty(aws);
    if err.Some? || operation.value !in table.operations {
      return;
    }
    var h := table.operations[operation.value];
    if h.responseParameters.Some? {
      result := CopyPlainParameters(snake, result, response.value, h.responseParameters.value);
    }
    if h.responseDescriptors.Some? {
      result := ApplyDescriptorLoop(snake, result, response.value, h.responseDescriptors.value);
    }
  }

  /** What a descriptor writes for `obj`, if anything. */
  function Summary(obj: Object, entry: (string, ParameterDescriptor)): Option<Value> {
    var (propertyName, descriptor) := entry;
    if descriptor.isMap && descriptor.getKeys then
      match TryReadPropertyValue(Some(obj), Some(propertyName))
      case Some(Dict(keys)) => Some(KeyCollection(keys))
      case _ => None
    else if descriptor.isList && descriptor.getCount then
      match TryReadPropertyValue(Some(obj), Some(propertyName))
      case Some(List(n)) => Some(Int(n))
      case _ => None
    else None
  }

  function EntryName(snake: string -> string, entry: (string, ParameterDescriptor)): string {
    SummaryName(snake, entry.0, entry.1.renameTo)
  }

  /** A plain-parameter loop leaves every key it does not write as it was. */
  lemma {:induction false} ApplyPlainFrame(snake: string -> string, aws: map<string, Value>, obj: Object,
                                           parameters: seq<string>, k: string)
    requires forall j :: 0 <= j < |parameters| ==> snake(parameters[j]) != k
    ensures k in ApplyPlain(snake, aws, obj, parameters) <==> k in aws
    ensures k in aws ==> ApplyPlain(snake, aws, obj, parameters)[k] == aws[k]
    decreases |parameters|
  {
    if parameters != [] {
      ApplyPlainFrame(snake, WritePlain(snake, aws, obj, parameters[0]), obj, parameters[1..], k);
    }
  }

  /** A readable plain parameter ends up under its snake-case name, unless a later
      parameter of the list writes the same name. */
  lemma {:induction false} ApplyPlainCopies(snake: string -> string, aws: map<string, Value>, obj: Object,
                                            parameters: seq<string>, i: nat)
    requires i < |parameters| && parameters[i] in obj.properties
    requires forall j :: i < j < |parameters| ==> snake(parameters[j]) != snake(parameters[i])
    ensures snake(parameters[i]) in ApplyPlain(snake, aws, obj, parameters)
    ensures ApplyPlain(snake, aws, obj, parameters)[snake(parameters[i])] == obj.properties[parameters[i]]
    decreases |parameters|
  {
    var next := WritePlain(snake, aws, obj, parameters[0]);
    if i == 0 {
      ApplyPlainFrame(snake, next, obj, parameters[1..], snake(parameters[0]));
    } else {
      ApplyPlainCopies(snake, next, obj, parameters[1..], i - 1);
    }
  }

  /** A descriptor writes its summary under its name and nothing else. */
  lemma ApplyDescriptorEffect(snake: string -> string, aws: map<string, Value>, obj: Object,
                              entry: (string, ParameterDescriptor))
    ensures Summary(obj, entry).None? ==> ApplyDescriptor(snake, aws, obj, entry) == aws
    ensures Summary(obj, entry).Some? ==>
              ApplyDescriptor(snake, aws, obj, entry) == aws[EntryName(snake, entry) := Summary(obj, entry).value]
  {
  }

  /** A descriptor loop leaves every key it does not write as it was. */
  lemma {:induction false} ApplyDescriptorsFrame(snake: string -> string, aws: map<string, Value>, obj: Object,
                                                 entries: Descriptors, k: string)
    requires forall j :: 0 <= j < |entries| ==> EntryName(snake, entries[j]) != k
    ensures k in ApplyDescriptors(snake, aws, obj, entries) <==> k in aws
    ensures k in aws ==> ApplyDescriptors(snake, aws, obj, entries)[k] == aws[k]
    decreases |entries|
  {
    if entries != [] {
      ApplyDescriptorEffect(snake, aws, obj, entries[0]);
      ApplyDescriptorsFrame(snake, ApplyDescriptor(snake, aws, obj, entries[0]), obj, entries[1..], k);
    }
  }

  /** A descriptor whose field has the right shape ends up under its attribute name,
      unless a later descriptor writes the same name. */
  lemma {:induction false} ApplyDescriptorsSummarise(snake: string -> string, aws: map<string, Value>, obj: Object,
                                                     entries: Descriptors, i: nat)
    requires i < |entries| && Summary(obj, entries[i]).Some?
    requires forall j :: i < j < |entries| ==> EntryName(snake, entries[j]) != EntryName(snake, entries[i])
    ensures EntryName(snake, entries[i]) in ApplyDescriptors(snake, aws, obj, entries)
    ensures ApplyDescriptors(snake, aws, obj, entries)[EntryName(snake, entries[i])] == Summary(obj, entries[i]).value
    decreases |entries|
  {
    ApplyDescriptorEffect(snake, aws, obj, entries[0]);
    var next := ApplyDescriptor(snake, aws, obj, entries[0]);
    if i == 0 {
      ApplyDescriptorsFrame(snake, next, obj, entries[1..], EntryName(snake, entries[0]));
    } else {
      ApplyDescriptorsSummarise(snake, next, obj, entries[1..], i - 1);
    }
  }

  /** `SendMessage`, request side: both plain fields are copied, then the loop over the
      null `ResponseDescriptors` throws `NullReferenceException`, so the message
      attribute names are never recorded. */
  lemma SendMessageRequestSide(snake: string -> string, request: Object, aws: map<string, Value>)
    requires "DelaySeconds" in request.properties && "QueueUrl" in request.properties
    requires snake("DelaySeconds") != snake("QueueUrl")
    ensures var (result, err) := RequestSide(snake, SendMessageHandler(), request, aws);
            && err == Some(NullReference)
            && snake("QueueUrl") in result && result[snake("QueueUrl")] == request.properties["QueueUrl"]
            && snake("DelaySeconds") in result && result[snake("DelaySeconds")] == request.properties["DelaySeconds"]
  {
    var ps := ["DelaySeconds", "QueueUrl"];
    ApplyPlainCopies(snake, aws, request, ps, 0);
    ApplyPlainCopies(snake, aws, request, ps, 1);
  }

  /** `SendMessageBatch`, request side: the loop runs over the response descriptors
      ("Failed", "Successful"), so on a request object, which has no such fields, only
      the queue URL is written and the entry count is never recorded. */
  lemma SendMessageBatchRequestSide(snake: string -> string, request: Object, aws: map<string, Value>)
    requires "Failed" !in request.properties && "Successful" !in request.properties
    ensures var (result, err) := RequestSide(snake, SendMessageBatchHandler(), request, aws);
            && err.None?
            && (forall k :: k in result && k != snake("QueueUrl") ==> k in aws && result[k] == aws[k])
            && ("QueueUrl" in request.properties ==>
                  snake("QueueUrl") in result && result[snake("QueueUrl")] == request.properties["QueueUrl"])
  {
    var ps := ["QueueUrl"];
    var es := SendMessageBatchHandler().responseDescriptors.value;
    var plain := ApplyPlain(snake, aws, request, ps);
    forall k | k != snake("QueueUrl")
      ensures k in ApplyDescriptors(snake, plain, request, es) <==> k in aws
      ensures k in aws ==> ApplyDescriptors(snake, plain, request, es)[k] == aws[k]
    {
      ApplyPlainFrame(snake, aws, request, ps, k);
      ApplyDescriptorEffect(snake, plain, request, es[0]);
      ApplyDescriptorEffect(snake, plain, request, es[1]);
      assert ApplyDescriptors(snake, plain, request, es) == plain by {
        assert es[1..][1..] == [];
      }
    }
    if "QueueUrl" in request.properties {
      ApplyPlainCopies(snake, aws, request, ps, 0);
      ApplyDescriptorEffect(snake, plain, request, es[0]);
      ApplyDescriptorEffect(snake, plain, request, es[1]);
      assert ApplyDescriptors(snake, plain, request, es) == plain by {
        assert es[1..][1..] == [];
      }
    }
  }

  /** `SendMessageBatch`, response side: the failed and successful lists are
      recorded as their counts. */
  lemma SendMessageBatchResponseSide(snake: string -> string, response: Object, aws: map<string, Value>, failed: nat, successful: nat)
    requires "Failed" in response.properties && response.properties["Failed"] == List(failed)
    requires "Successful" in response.properties && response.properties["Successful"] == List(successful)
    requires snake("failed_count") != snake("successful_count")
    ensures var result := ResponseSide(snake, SendMessageBatchHandler(), response, aws);
            && snake("failed_count") in result && result[snake("failed_count")] == Int(failed)
            && snake("successful_count") in result && result[snake("successful_count")] == Int(successful)
  {
    var es := SendMessageBatchHandler().responseDescriptors.value;
    ApplyDescriptorsSummarise(snake, aws, response, es, 0);
    ApplyDescriptorsSummarise(snake, aws, response, es, 1);
  }

  /** For `SendMessageBatch`, the counts the response side writes survive the request
      side, which writes only the queue URL. */
  lemma SendMessageBatchCountsSurvive(snake: string -> string, request: Object, response: Object, aws: map<string, Value>,
                                      failed: nat, successful: nat)
    requires "Failed" !in request.properties && "Successful" !in request.properties
    requires "Failed" in response.properties && response.properties["Failed"] == List(failed)
    requires "Successful" in response.properties && response.properties["Successful"] == List(successful)
    requires snake("failed_count") != snake("successful_count")
    requires snake("QueueUrl") != snake("failed_count") && snake("QueueUrl") != snake("successful_count")
    ensures var result := RequestSide(snake, SendMessageBatchHandler(), request,
                                      ResponseSide(snake, SendMessageBatchHandler(), response, aws)).0;
            && snake("failed_count") in result && result[snake("failed_count")] == Int(failed)
            && snake("successful_count") in result && result[snake("successful_count")] == Int(successful)
  {
    SendMessageBatchResponseSide(snake, response, aws, failed, successful);
    SendMessageBatchRequestSide(snake, request, ResponseSide(snake, SendMessageBatchHandler(), response, aws));
  }
}
