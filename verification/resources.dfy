/** The resource types the action controller reads and writes: the Step it reconciles,
    the Action a Step refers to, and the reserved parameter keys.  Their Go definitions
    live in pkg/resource and pkg/common, which are not part of this model; only the
    fields the controller touches are kept. */
module Resources {

  /** Go's `int32`, the type of a Step's retry count. */
  newtype int32 = x: int | -0x8000_0000 <= x < 0x8000_0000

  /** Go's `int64`, the type of resource versions and of `time.Duration`. */
  newtype int64 = x: int | -0x8000_0000_0000_0000 <= x < 0x8000_0000_0000_0000

  /** A failure reported by a collaborator; only its message is observable. */
  datatype Error = Error(message: string)

  /** A Step's invocation parameters.  Values are kept as strings: the controller only
      ever writes strings into this map and passes the rest through untouched. */
  type Params = map<string, string>

  const StepKind: string := "Step"

  // The four keys the controller injects into every validated Step's parameters.
  const FlowIdKey: string := "flowID"
  const StepNameKey: string := "stepName"
  const AckStateKey: string := "ackState"
  const UuidKey: string := "uuid"

  const ReservedKeys: set<string> := {FlowIdKey, StepNameKey, AckStateKey, UuidKey}

  /** How an Action is served.  Any tag other than HTTP and GRPC falls through the
      controller's dispatch switch. */
  datatype ServeType = HTTP | GRPC | Unrecognized(tag: string)

  /** An Action as the store returns it: its declared parameters, how it is served,
      the endpoint of an HTTP action and the acknowledgement states it may report. */
  datatype Action = Action(params: seq<string>, serveType: ServeType, endpoint: string,
                           returnStates: seq<string>)

  /** The value of a Step object: what the decoder fills in, and what the controller
      observes of it. */
  datatype StepRecord = StepRecord(
    kind: string,
    name: string,
    uuid: string,
    resourceVersion: int64,
    flowId: string,
    actionName: string,
    actionParams: Params,
    done: bool,
    retryCount: int32)

  /** A Step object in memory.  The controller only ever writes its parameter map, so that
      map is the one mutable field; everything else is fixed when the object is decoded. */
  class Step {
    const kind: string
    const name: string
    const uuid: string
    const resourceVersion: int64
    const flowId: string
    const actionName: string
    const done: bool
    const retryCount: int32
    var actionParams: Params

    /** The current value of this Step. */
    function Record(): StepRecord
      reads this
    {
      StepRecord(kind, name, uuid, resourceVersion, flowId, actionName, actionParams, done,
                 retryCount)
    }

    /** A Step object holding the decoded value `r`. */
    constructor (r: StepRecord)
      ensures Record() == r
    {
      kind, name, uuid := r.kind, r.name, r.uuid;
      resourceVersion, flowId, actionName := r.resourceVersion, r.flowId, r.actionName;
      done, retryCount := r.done, r.retryCount;
      actionParams := r.actionParams;
    }
  }

  /** Go's `strings.Join`: the parts, in order, with `sep` between neighbours. */
  function Join(parts: seq<string>, sep: string): string
    decreases |parts|
  {
    if parts == [] then []
    else if |parts| == 1 then parts[0]
    else Join(parts[..|parts| - 1], sep) + sep + parts[|parts| - 1]
  }
}
