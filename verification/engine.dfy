/** The boundary to the OpenFGA authorization engine: the request and response
    shapes the DSL builds and reads, and the errors that reach its callers.

    The engine itself is not modelled. Every call into it (`Write`, `Check`,
    `BatchCheck`, `ListObjects`) appears in the other modules as a function
    parameter from request to `Reply`, so a property proved there holds
    whatever the engine answers. A cancelled call is a reply that threw. */
module Engine {
  import opened Wrappers

  /** The `OpenFgaClient` handle; only its presence matters to the model. */
  datatype Client = Client(storeId: string)

  /** A `RelationshipCondition` as produced by a condition selector: carried to
      the engine untouched, never inspected locally. */
  datatype Condition = Condition(name: string, context: seq<(string, string)>)

  /** `ClientTupleKey` / `TupleKey`: a relationship tuple on the wire. */
  datatype TupleKey = TupleKey(user: string, relation: string, obj: string, condition: Option<Condition>)

  /** `ClientTupleKeyWithoutCondition`: what a delete names. */
  datatype DeleteKey = DeleteKey(user: string, relation: string, obj: string)

  /** `ClientWriteRequest` plus the `TransactionOptions.Disable` flag of its
      write options; an absent list is a property left unset (null). */
  datatype WriteRequest = WriteRequest(
    writes: Option<seq<TupleKey>>,
    deletes: Option<seq<DeleteKey>>,
    disableTransactions: bool)

  datatype WriteStatus = Written | Rejected

  /** One entry of the write response; only its tuple key is read. */
  datatype WriteResult = WriteResult(tupleKey: TupleKey, status: WriteStatus)

  datatype WriteResponse = WriteResponse(writes: Option<seq<WriteResult>>, deletes: Option<seq<WriteResult>>)

  /** `ClientCheckRequest` without contextual tuples or context. */
  datatype CheckRequest = CheckRequest(user: string, relation: string, obj: string)

  /** `CheckResponse.Allowed` is nullable. */
  datatype CheckResponse = CheckResponse(allowed: Option<bool>)

  datatype BatchCheckItem = BatchCheckItem(allowed: bool, request: CheckRequest)

  datatype BatchCheckResponse = BatchCheckResponse(responses: seq<BatchCheckItem>)

  /** `ClientListObjectsRequest`. */
  datatype ListObjectsRequest = ListObjectsRequest(user: string, relation: string, objectType: string)

  datatype ListObjectsResponse = ListObjectsResponse(objects: seq<string>)

  /** How an engine call can fail: an API or transport error, or cancellation. */
  datatype Fault = ApiError(message: string) | Cancelled

  /** The outcome of one engine call. */
  datatype Reply<+T> = Replied(response: T) | Threw(fault: Fault)

  /** Errors surfacing to a DSL caller. `InvalidOperation` and `Security` are
      raised locally; `EngineFault` is the engine's failure passed on unchanged. */
  datatype Error =
    | InvalidOperation(message: string)
    | Security(message: string)
    | EngineFault(fault: Fault)

  /** The tuple keys of a write-response list; a null list reads as empty. */
  function KeysOrEmpty(results: Option<seq<WriteResult>>): (keys: seq<TupleKey>)
    ensures results.None? ==> keys == []
    ensures results.Some? ==> |keys| == |results.value|
    ensures results.Some? ==> forall i :: 0 <= i < |keys| ==> keys[i] == results.value[i].tupleKey
  {
    match results
    case None => []
    case Some(rs) => seq(|rs|, i requires 0 <= i < |rs| => rs[i].tupleKey)
  }
}
