/** The data the interceptor works on: field values of SDK request and response
    objects, the per-operation descriptor table, and the outgoing request whose
    headers and parameters the interceptor updates in place. */
module Models {
  import opened Common

  /** A field value as the interceptor sees it through reflection. */
  datatype Value =
    | Null
    | Str(s: string)
    | Int(i: int)
    /** An object implementing `IDictionary`, given by its keys in enumeration order. */
    | Dict(keys: seq<string>)
    /** An object implementing `IList`, given by its `Count`. */
    | List(count: nat)
    /** The `Keys` collection of a dictionary, as stored into a span. */
    | KeyCollection(keys: seq<string>)
    /** Any other object. */
    | Other

  /** An SDK request or response object: its runtime type name and its public properties. */
  datatype Object = Object(typeName: string, properties: map<string, Value>)

  /** How a compound field is summarised into the span. */
  datatype ParameterDescriptor = ParameterDescriptor(
    renameTo: Option<string>,
    isMap: bool,
    getKeys: bool,
    isList: bool,
    getCount: bool)

  /** A dictionary of descriptors, in its enumeration (insertion) order. */
  type Descriptors = seq<(string, ParameterDescriptor)>

  /** What to extract for one operation; each part may be null. */
  datatype OperationHandler = OperationHandler(
    requestParameters: Option<seq<string>>,
    responseParameters: Option<seq<string>>,
    requestDescriptors: Option<Descriptors>,
    responseDescriptors: Option<Descriptors>)

  /** The operation table. Keys are compared exactly: the table is built as a plain
      `Dictionary`, which replaces the case-insensitive default of `ServiceHandler`. */
  datatype ServiceHandler = ServiceHandler(operations: map<string, OperationHandler>)

  function SendMessageHandler(): OperationHandler {
    OperationHandler(
      requestParameters := Some(["DelaySeconds", "QueueUrl"]),
      responseParameters := Some(["MessageId"]),
      requestDescriptors := Some([("MessageAttributes",
        ParameterDescriptor(Some("message_attribute_names"), true, true, false, false))]),
      responseDescriptors := None)
  }

  function SendMessageBatchHandler(): OperationHandler {
    OperationHandler(
      requestParameters := Some(["QueueUrl"]),
      responseParameters := None,
      requestDescriptors := Some([("Entries",
        ParameterDescriptor(Some("message_count"), false, false, true, true))]),
      responseDescriptors := Some([
        ("Failed", ParameterDescriptor(Some("failed_count"), false, false, true, true)),
        ("Successful", ParameterDescriptor(Some("successful_count"), false, false, true, true))]))
  }

  /** `InitializeServiceHandler`: the two instrumented operations. */
  function InitializeServiceHandler(): (h: ServiceHandler)
    ensures h.operations.Keys == {"SendMessage", "SendMessageBatch"}
    ensures forall op :: op in h.operations ==> h.operations[op].requestDescriptors.Some?
    ensures h.operations["SendMessage"].responseDescriptors.None?
  {
    ServiceHandler(map["SendMessage" := SendMessageHandler(), "SendMessageBatch" := SendMessageBatchHandler()])
  }

  /** The outgoing request (`IRequest`): the interceptor writes its headers and adds
      to its parameters. */
  class Request {
    const serviceName: Option<string>
    var headers: map<string, string>
    var parameters: map<string, string>

    constructor (serviceName: Option<string>, headers: map<string, string>, parameters: map<string, string>)
      ensures this.serviceName == serviceName
      ensures this.headers == headers && this.parameters == parameters
    {
      this.serviceName := serviceName;
      this.headers := headers;
      this.parameters := parameters;
    }

    /** `Parameters.Add`: throws on a key already present, and then changes nothing. */
    method AddParameter(key: string, value: string) returns (err: Option<Exception>)
      modifies this`parameters
      ensures key in old(parameters) ==> err == Some(DuplicateKey(key)) && parameters == old(parameters)
      ensures key !in old(parameters) ==> err == None && parameters == old(parameters)[key := value]
    {
      if key in parameters {
        return Some(DuplicateKey(key));
      }
      parameters := parameters[key := value];
      return None;
    }
  }
}
