/** `RemoveNodeUseCase`: removing cloud nodes, one at a time or as a batch over handles,
    with the node lookup and the SDK's response to a removal given as oracles. */
module RemoveNode {
  import opened Common

  /** `MegaError` codes. */
  const API_OK: int := 0
  const API_EMASTERONLY: int := -27

  /** The errors a removal can end with. */
  datatype RemoveError =
    | NodeDoesNotExists
    | IllegalState
    | MegaException(code: int)

  /** What a `Completable` subscriber receives; `NoSignal` when the result arrives after
      the subscriber has disposed. */
  datatype Signal = Complete | Failed(error: RemoveError) | NoSignal

  /** A removal: whether `megaApi.remove` was called, and the signal. */
  datatype RemoveCall = RemoveCall(issued: bool, signal: Signal)

  /** `RemoveRequestResult(count, errorCount)`. */
  datatype RemoveRequestResult = RemoveRequestResult(count: nat, errorCount: nat)

  /** The SDK code an error stands for, when it stands for one. */
  function ErrorCode(e: RemoveError): Option<int> {
    match e
    case NodeDoesNotExists => None
    case IllegalState => Some(API_EMASTERONLY)
    case MegaException(code) => Some(code)
  }

  /** `remove(node)`: a missing node fails without calling the SDK; otherwise the removal
      is issued, API_OK completes, and any other code fails with an error that keeps that
      code. A subscriber that has disposed receives nothing. */
  function Remove(nodeExists: bool, responseCode: int, disposed: bool): (call: RemoveCall)
    ensures !nodeExists ==> !call.issued && call.signal == (if disposed then NoSignal else Failed(NodeDoesNotExists))
    ensures nodeExists ==> call.issued
    ensures nodeExists && disposed ==> call.signal.NoSignal?
    ensures nodeExists && !disposed ==>
      (call.signal.Complete? <==> responseCode == API_OK)
      && (call.signal.Failed? ==> ErrorCode(call.signal.error) == Some(responseCode))
      && (call.signal.Failed? ==> (call.signal.error.IllegalState? <==> responseCode == API_EMASTERONLY))
  {
    if !nodeExists then RemoveCall(false, if disposed then NoSignal else Failed(NodeDoesNotExists))
    else if disposed then RemoveCall(true, NoSignal)
    else if responseCode == API_OK then RemoveCall(true, Complete)
    else if responseCode == API_EMASTERONLY then RemoveCall(true, Failed(IllegalState))
    else RemoveCall(true, Failed(MegaException(responseCode)))
  }

  /** A handle of the batch counts as an error: no node, or a removal that failed. */
  predicate Fails(handle: int, nodeExists: int -> bool, responseOf: int -> int) {
    Remove(nodeExists(handle), responseOf(handle), false).signal.Failed?
  }

  /** Number of failing handles. */
  function FailureCount(handles: seq<int>, nodeExists: int -> bool, responseOf: int -> int): (n: nat)
    ensures n <= |handles|
  {
    if handles == [] then 0
    else
      var last := handles[|handles| - 1];
      FailureCount(handles[..|handles| - 1], nodeExists, responseOf) + (if Fails(last, nodeExists, responseOf) then 1 else 0)
  }

  /** Number of handles without a node. */
  function MissingCount(handles: seq<int>, nodeExists: int -> bool): nat {
    if handles == [] then 0
    else
      var last := handles[|handles| - 1];
      MissingCount(handles[..|handles| - 1], nodeExists) + (if nodeExists(last) then 0 else 1)
  }

  /** Number of handles with a node whose removal the SDK refused. */
  function RefusedCount(handles: seq<int>, nodeExists: int -> bool, responseOf: int -> int): nat {
    if handles == [] then 0
    else
      var last := handles[|handles| - 1];
      var refused := nodeExists(last) && responseOf(last) != API_OK;
      RefusedCount(handles[..|handles| - 1], nodeExists, responseOf) + (if refused then 1 else 0)
  }

  /** `remove(handles)`: every handle is visited, each failure is counted, and the batch
      always succeeds with `count` the number of handles. */
  method RemoveHandles(handles: seq<int>, nodeExists: int -> bool, responseOf: int -> int)
    returns (result: RemoveRequestResult)
    ensures result.count == |handles|
    ensures result.errorCount == FailureCount(handles, nodeExists, responseOf)
    ensures result.errorCount <= result.count
  {
    var errorCount := 0;
    var i := 0;
    while i < |handles|
      invariant 0 <= i <= |handles|
      invariant errorCount == FailureCount(handles[..i], nodeExists, responseOf)
    {
      assert handles[..i + 1][..i] == handles[..i];
      var handle := handles[i];
      if !nodeExists(handle) {
        errorCount := errorCount + 1;
      } else {
        var call := Remove(true, responseOf(handle), false);
        if call.signal.Failed? {
          errorCount := errorCount + 1;
        }
      }
      i := i + 1;
    }
    assert handles[..i] == handles;
    result := RemoveRequestResult(|handles|, errorCount);
  }

  /** The batch's error count is the missing nodes plus the refused removals. */
  lemma {:induction false} FailuresAreMissingPlusRefused(handles: seq<int>, nodeExists: int -> bool, responseOf: int -> int)
    ensures FailureCount(handles, nodeExists, responseOf)
      == MissingCount(handles, nodeExists) + RefusedCount(handles, nodeExists, responseOf)
  {
    if handles != [] {
      FailuresAreMissingPlusRefused(handles[..|handles| - 1], nodeExists, responseOf);
    }
  }
}
