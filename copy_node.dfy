/** `CopyNodeUseCase`: copying cloud nodes, one at a time or in batches, with the SDK, the
    node lookups, the chat-message lookups and the rubbish-bin move given as a `Backend`
    of pure oracles. A batch tolerates "soft" failures, which it counts, and stops at the
    first "hard" one (over quota, not enough quota, foreign node), which it reports. */
module CopyNode {
  import opened Common
  import opened CollisionData

  /** `MegaError` codes. */
  const API_OK: int := 0
  const API_EOVERQUOTA: int := -17
  const API_EGOINGOVERQUOTA: int := -24

  /** A node as the use case sees it. */
  datatype Node = Node(handle: int, isFile: bool)

  /** The errors a copy can end with. `KindMismatch` is the cast failure of a collision
      that is neither a copy nor an import. */
  datatype CopyError =
    | NodeDoesNotExists
    | ParentDoesNotExist
    | ForeignNode
    | QuotaExceeded
    | NotEnoughQuota
    | MegaError(code: int)
    | KindMismatch
    | RubbishBinFailure(code: int)

  /** The outside world: node lookups by handle, the nodes attached to a chat message,
      the outcome of moving a node to the rubbish bin (`None` when it succeeds), the SDK
      response code to copying a node under a parent, and whether a handle is foreign. */
  datatype Backend = Backend(
    getNode: int -> Option<Node>,
    chatNodes: (int, int) -> Option<seq<Node>>,
    moveToRubbishBin: int -> Option<CopyError>,
    copyResponse: (int, int) -> int,
    isForeign: int -> bool)

  /** The request `copyNode` is given: with a new name, or keeping the original one. */
  datatype CopyRequest = CopyRequest(node: Node, parent: Node, newName: Option<string>)

  /** What a `Completable` subscriber receives; `NoSignal` after disposal. */
  datatype Signal = Complete | Failed(error: CopyError) | NoSignal

  datatype CopyCall = CopyCall(request: Option<CopyRequest>, signal: Signal)

  /** `CopyRequestResult(count, errorCount)`. */
  datatype CopyRequestResult = CopyRequestResult(count: nat, errorCount: nat)

  /** What a `Single` subscriber receives. */
  datatype SingleSignal = Succeeded(result: CopyRequestResult) | Errored(error: CopyError) | Silent

  /** `shouldEmmitError`: the hard errors, which a batch reports instead of counting. */
  predicate ShouldEmitError(e: CopyError): (hard: bool)
    ensures hard ==> ErrorCode(e) == Some(API_EOVERQUOTA) || ErrorCode(e) == Some(API_EGOINGOVERQUOTA)
    ensures hard ==> !e.MegaError? && !e.RubbishBinFailure?
  {
    e.QuotaExceeded? || e.NotEnoughQuota? || e.ForeignNode?
  }

  /** `toMegaException`: the two quota codes get their own exception types. */
  function ToMegaException(code: int): (e: CopyError)
    ensures ShouldEmitError(e) <==> code == API_EOVERQUOTA || code == API_EGOINGOVERQUOTA
    ensures !e.ForeignNode?
  {
    if code == API_EOVERQUOTA then QuotaExceeded
    else if code == API_EGOINGOVERQUOTA then NotEnoughQuota
    else MegaError(code)
  }

  /** The SDK code an error stands for, when it stands for one. */
  function ErrorCode(e: CopyError): Option<int> {
    match e
    case QuotaExceeded => Some(API_EOVERQUOTA)
    case ForeignNode => Some(API_EOVERQUOTA)
    case NotEnoughQuota => Some(API_EGOINGOVERQUOTA)
    case MegaError(code) => Some(code)
    case _ => None
  }

  /** `copy(node, parentNode, newName)`: a missing node fails before the parent is looked
      at, a missing parent fails next, and neither issues a copy; otherwise the copy is
      issued and its response code decides the signal. A failure keeps the SDK code, and
      it is hard exactly for the two quota codes. */
  function CopyNode(node: Option<Node>, parent: Option<Node>, newName: Option<string>,
                    b: Backend, disposed: bool): (call: CopyCall)
    ensures node.None? ==> call == CopyCall(None, if disposed then NoSignal else Failed(NodeDoesNotExists))
    ensures node.Some? && parent.None? ==>
      call == CopyCall(None, if disposed then NoSignal else Failed(ParentDoesNotExist))
    ensures node.Some? && parent.Some? ==>
      call.request == Some(CopyRequest(node.value, parent.value, newName))
    ensures disposed ==> call.signal.NoSignal?
    ensures node.Some? && parent.Some? && !disposed ==>
      var code := b.copyResponse(node.value.handle, parent.value.handle);
      (call.signal.Complete? <==> code == API_OK) &&
      (call.signal.Failed? ==>
        ErrorCode(call.signal.error) == Some(code)
        && (ShouldEmitError(call.signal.error) <==> code == API_EOVERQUOTA || code == API_EGOINGOVERQUOTA)
        && (call.signal.error.ForeignNode? <==>
              code == API_EOVERQUOTA && b.isForeign(parent.value.handle)))
  {
    if node.None? then CopyCall(None, if disposed then NoSignal else Failed(NodeDoesNotExists))
    else if parent.None? then CopyCall(None, if disposed then NoSignal else Failed(ParentDoesNotExist))
    else
      var request := CopyRequest(node.value, parent.value, newName);
      var code := b.copyResponse(node.value.handle, parent.value.handle);
      var signal :=
        if disposed then NoSignal
        else if code == API_OK then Complete
        else if code == API_EOVERQUOTA && b.isForeign(parent.value.handle) then Failed(ForeignNode)
        else Failed(ToMegaException(code));
      CopyCall(Some(request), signal)
  }

  /** `copy(handle, parentHandle)` and `copy(node, parentHandle)`: look the nodes up, then
      copy keeping the name. A copy is issued only when both lookups find a node. */
  function CopyByHandles(handle: int, parentHandle: int, b: Backend, disposed: bool): (call: CopyCall)
    ensures call.request.Some? <==> b.getNode(handle).Some? && b.getNode(parentHandle).Some?
    ensures call.request.Some? ==> call.request.value.newName.None?
  {
    CopyNode(b.getNode(handle), b.getNode(parentHandle), None, b, disposed)
  }

  // ---------------------------------------------------------------------------
  // Copying after a name collision
  // ---------------------------------------------------------------------------

  /** The first node of a chat message carrying the wanted handle. */
  function FirstWithHandle(nodes: seq<Node>, handle: int): (found: Option<Node>)
    ensures found.Some? ==> found.value in nodes && found.value.handle == handle
    ensures found.None? <==> forall i :: 0 <= i < |nodes| ==> nodes[i].handle != handle
    ensures found.Some? ==>
      exists k :: 0 <= k < |nodes| && nodes[k] == found.value && forall j :: 0 <= j < k ==> nodes[j].handle != handle
  {
    if nodes == [] then None
    else if nodes[0].handle == handle then Some(nodes[0])
    else
      var rest := FirstWithHandle(nodes[1..], handle);
      if rest.Some? then
        var k :| 0 <= k < |nodes[1..]| && nodes[1..][k] == rest.value
          && forall j :: 0 <= j < k ==> nodes[1..][j].handle != handle;
        assert nodes[k + 1] == rest.value;
        assert forall j :: 0 <= j < k + 1 ==> nodes[j].handle != handle by {
          forall j | 0 <= j < k + 1 ensures nodes[j].handle != handle {
            if j > 0 { assert nodes[j] == nodes[1..][j - 1]; }
          }
        }
        rest
      else rest
  }

  /** The `for … break` search of the chat message's nodes. */
  method FindChatNode(nodes: seq<Node>, handle: int) returns (found: Option<Node>)
    ensures found == FirstWithHandle(nodes, handle)
  {
    found := None;
    var i := 0;
    while i < |nodes|
      invariant 0 <= i <= |nodes|
      invariant FirstWithHandle(nodes, handle) == FirstWithHandle(nodes[i..], handle)
    {
      assert nodes[i..][1..] == nodes[i + 1..];
      if nodes[i].handle == handle {
        found := Some(nodes[i]);
        break;
      }
      i := i + 1;
    }
  }

  /** The node a collision copies: found among the chat message's nodes for an import,
      looked up by handle for a copy. */
  function CollisionNode(c: NameCollision, b: Backend): (node: Option<Node>)
    requires c.Import? || c.Copy?
    ensures c.Import? && node.Some? ==>
      b.chatNodes(c.chatId, c.messageId).Some?
      && node.value in b.chatNodes(c.chatId, c.messageId).value && node.value.handle == c.nodeHandle
    ensures c.Import? && node.Some? && b.chatNodes(c.chatId, c.messageId).Some? ==>
      var nodes := b.chatNodes(c.chatId, c.messageId).value;
      exists k :: 0 <= k < |nodes| && nodes[k] == node.value && forall j :: 0 <= j < k ==> nodes[j].handle != c.nodeHandle
    ensures c.Import? && b.chatNodes(c.chatId, c.messageId).Some? ==>
      (exists n :: n in b.chatNodes(c.chatId, c.messageId).value && n.handle == c.nodeHandle) ==> node.Some?
    ensures c.Copy? ==> node == b.getNode(c.nodeHandle)
  {
    if c.Import? then
      var nodes := b.chatNodes(c.chatId, c.messageId);
      if nodes.None? then None else FirstWithHandle(nodes.value, c.nodeHandle)
    else b.getNode(c.nodeHandle)
  }

  /** What copying one resolved collision does: the node moved to the rubbish bin first
      (if any), the copy request issued (if any), and the signal. */
  datatype CollisionCopy = CollisionCopy(
    rubbishBinMove: Option<int>, request: Option<CopyRequest>, signal: SingleSignal)

  function Deliver(disposed: bool, s: SingleSignal): SingleSignal {
    if disposed then Silent else s
  }

  /** `copy(collisionResult, rename)`. */
  function CollisionCopyOf(r: NameCollisionResult, rename: bool, b: Backend, disposed: bool)
    : (out: CollisionCopy)
    ensures disposed ==> out.signal.Silent? && out.request.None?
    ensures out.request.Some? ==> out.request.value.newName == (if rename then r.renameName else None)
    ensures out.rubbishBinMove.Some? ==> !rename && out.rubbishBinMove.value == r.nameCollision.collisionHandle
    ensures out.request.Some? && !rename && out.request.value.node.isFile ==> out.rubbishBinMove.Some?
    ensures out.request.Some? ==>
      (r.nameCollision.Copy? || r.nameCollision.Import?)
      && Some(out.request.value.node) == CollisionNode(r.nameCollision, b)
    ensures out.signal.Succeeded? ==> out.signal.result.count == 1 && out.signal.result.errorCount <= 1
    ensures out.signal.Succeeded? ==> out.request.Some?
    ensures !disposed ==> !out.signal.Silent?
    ensures !disposed && !(r.nameCollision.Copy? || r.nameCollision.Import?) ==>
      out == CollisionCopy(None, None, Errored(KindMismatch))
    ensures !disposed && (r.nameCollision.Copy? || r.nameCollision.Import?) && CollisionNode(r.nameCollision, b).None? ==>
      out == CollisionCopy(None, None, Errored(NodeDoesNotExists))
    ensures !disposed && (r.nameCollision.Copy? || r.nameCollision.Import?) ==>
      CollisionNode(r.nameCollision, b).Some? && b.getNode(r.nameCollision.parentHandle).None? ==>
      out == CollisionCopy(None, None, Errored(ParentDoesNotExist))
    ensures !disposed && out.rubbishBinMove.Some? && b.moveToRubbishBin(out.rubbishBinMove.value).Some? ==>
      out.request.None? && out.signal == Errored(b.moveToRubbishBin(out.rubbishBinMove.value).value)
    ensures !disposed && out.request.Some? ==>
      var code := b.copyResponse(out.request.value.node.handle, out.request.value.parent.handle);
      (out.signal == Succeeded(CopyRequestResult(1, 0)) <==> code == API_OK)
      && (out.signal == Succeeded(CopyRequestResult(1, 1)) <==>
            code != API_OK && code != API_EOVERQUOTA && code != API_EGOINGOVERQUOTA)
      && (out.signal.Errored? <==> code == API_EOVERQUOTA || code == API_EGOINGOVERQUOTA)
      && (out.signal.Errored? ==> ShouldEmitError(out.signal.error) && ErrorCode(out.signal.error) == Some(code))
  {
    var c := r.nameCollision;
    if !(c.Import? || c.Copy?) then CollisionCopy(None, None, Deliver(disposed, Errored(KindMismatch)))
    else
      var node := CollisionNode(c, b);
      if node.None? then CollisionCopy(None, None, Deliver(disposed, Errored(NodeDoesNotExists)))
      else
        var parent := b.getNode(c.parentHandle);
        if parent.None? then CollisionCopy(None, None, Deliver(disposed, Errored(ParentDoesNotExist)))
        else
          var binMove := if !rename && node.value.isFile then Some(c.collisionHandle) else None;
          var binError := if binMove.Some? then b.moveToRubbishBin(c.collisionHandle) else None;
          if binError.Some? then CollisionCopy(binMove, None, Deliver(disposed, Errored(binError.value)))
          else if disposed then CollisionCopy(binMove, None, Silent)
          else
            var call := CopyNode(node, parent, if rename then r.renameName else None, b, false);
            var signal :=
              match call.signal
              case Failed(e) =>
                if ShouldEmitError(e) then Errored(e) else Succeeded(CopyRequestResult(1, 1))
              case _ => Succeeded(CopyRequestResult(1, 0));
            CollisionCopy(binMove, call.request, signal)
  }

  // ---------------------------------------------------------------------------
  // Batches
  // ---------------------------------------------------------------------------

  /** How one item ends, as the batch loop sees it. */
  datatype ItemOutcome = ItemOk | ItemSoft | ItemHard(error: CopyError)

  function Classify(e: CopyError): (o: ItemOutcome)
    ensures o.ItemHard? <==> ShouldEmitError(e)
    ensures o.ItemHard? ==> o.error == e
    ensures !o.ItemOk?
  {
    if ShouldEmitError(e) then ItemHard(e) else ItemSoft
  }

  /** The subscriber has disposed by the `isDisposed` check before item `i`. */
  predicate CancelledBy(cancelAt: Option<nat>, i: nat) {
    cancelAt.Some? && cancelAt.value <= i
  }

  /** The batch loop as a value: visit the items from `i` on, `errorCount` soft failures
      so far; stop silently once disposed, report the first hard failure, and succeed
      with the input size and the soft-failure count after the last item. */
  function Run(outcomes: seq<ItemOutcome>, cancelAt: Option<nat>, i: nat, errorCount: nat): (r: SingleSignal)
    requires i <= |outcomes|
    ensures r.Silent? ==> cancelAt.Some?
    ensures r.Succeeded? ==>
      r.result.count == |outcomes| && errorCount <= r.result.errorCount <= errorCount + |outcomes| - i
    ensures r.Errored? ==> exists k :: i <= k < |outcomes| && outcomes[k] == ItemHard(r.error)
    decreases |outcomes| - i
  {
    if CancelledBy(cancelAt, i) then Silent
    else if i == |outcomes| then Succeeded(CopyRequestResult(|outcomes|, errorCount))
    else match outcomes[i]
      case ItemHard(e) => Errored(e)
      case ItemSoft => Run(outcomes, cancelAt, i + 1, errorCount + 1)
      case ItemOk => Run(outcomes, cancelAt, i + 1, errorCount)
  }

  /** Number of soft failures. */
  function SoftCount(outcomes: seq<ItemOutcome>): (n: nat)
    ensures n <= |outcomes|
  {
    if outcomes == [] then 0
    else (if outcomes[0].ItemSoft? then 1 else 0) + SoftCount(outcomes[1..])
  }

  predicate HardAt(outcomes: seq<ItemOutcome>, k: int) {
    0 <= k < |outcomes| && outcomes[k].ItemHard?
  }

  /** A successful batch reports every item in `count` and exactly the soft failures in
      `errorCount`, so `errorCount <= count`. */
  lemma {:induction false} RunSuccessCounts(outcomes: seq<ItemOutcome>, cancelAt: Option<nat>, i: nat, errorCount: nat)
    requires i <= |outcomes|
    ensures Run(outcomes, cancelAt, i, errorCount).Succeeded? ==>
      Run(outcomes, cancelAt, i, errorCount).result
        == CopyRequestResult(|outcomes|, errorCount + SoftCount(outcomes[i..]))
    decreases |outcomes| - i
  {
    if !CancelledBy(cancelAt, i) && i < |outcomes| {
      assert outcomes[i..][1..] == outcomes[i + 1..];
      match outcomes[i]
      case ItemHard(e) =>
      case ItemSoft => RunSuccessCounts(outcomes, cancelAt, i + 1, errorCount + 1);
      case ItemOk => RunSuccessCounts(outcomes, cancelAt, i + 1, errorCount);
    }
  }

  /** A batch that fails reports the first hard failure, and no item before it was hard. */
  lemma {:induction false} RunErrorIsFirstHard(outcomes: seq<ItemOutcome>, cancelAt: Option<nat>, i: nat, errorCount: nat)
    requires i <= |outcomes|
    ensures Run(outcomes, cancelAt, i, errorCount).Errored? ==>
      exists k :: i <= k < |outcomes| && HardAt(outcomes, k)
        && outcomes[k].error == Run(outcomes, cancelAt, i, errorCount).error
        && (forall j :: i <= j < k ==> !HardAt(outcomes, j))
    decreases |outcomes| - i
  {
    if !CancelledBy(cancelAt, i) && i < |outcomes| {
      match outcomes[i]
      case ItemHard(e) =>
        assert HardAt(outcomes, i);
      case ItemSoft => RunErrorIsFirstHard(outcomes, cancelAt, i + 1, errorCount + 1);
      case ItemOk => RunErrorIsFirstHard(outcomes, cancelAt, i + 1, errorCount);
    }
  }

  /** Without disposal and without hard failures, a batch always succeeds. */
  lemma {:induction false} RunWithoutHardSucceeds(outcomes: seq<ItemOutcome>, i: nat, errorCount: nat)
    requires i <= |outcomes|
    requires forall j :: i <= j < |outcomes| ==> !HardAt(outcomes, j)
    ensures Run(outcomes, None, i, errorCount).Succeeded?
    decreases |outcomes| - i
  {
    if i < |outcomes| {
      assert !HardAt(outcomes, i);
      RunWithoutHardSucceeds(outcomes, i + 1, if outcomes[i].ItemSoft? then errorCount + 1 else errorCount);
    }
  }

  /** How the batch loop reads the signal of one copy. */
  function OfCall(call: CopyCall): (o: ItemOutcome)
    ensures o.ItemHard? ==> ShouldEmitError(o.error)
  {
    if call.signal.Failed? then Classify(call.signal.error) else ItemOk
  }

  function OfCollision(out: CollisionCopy): (o: ItemOutcome)
    ensures o.ItemHard? ==> ShouldEmitError(o.error)
  {
    if out.signal.Errored? then Classify(out.signal.error) else ItemOk
  }

  function CollisionOutcomes(collisions: seq<NameCollisionResult>, rename: bool, b: Backend): (os: seq<ItemOutcome>)
    ensures |os| == |collisions|
  {
    seq(|collisions|, k requires 0 <= k < |collisions| => OfCollision(CollisionCopyOf(collisions[k], rename, b, false)))
  }

  function NodeOutcomes(nodes: seq<Node>, parent: Node, b: Backend): (os: seq<ItemOutcome>)
    ensures |os| == |nodes|
  {
    seq(|nodes|, k requires 0 <= k < |nodes| => OfCall(CopyNode(Some(nodes[k]), Some(parent), None, b, false)))
  }

  function HandleOutcomes(handles: seq<int>, parent: Node, b: Backend): (os: seq<ItemOutcome>)
    ensures |os| == |handles|
  {
    seq(|handles|, k requires 0 <= k < |handles| => OfCall(CopyNode(b.getNode(handles[k]), Some(parent), None, b, false)))
  }

  /** `copy(collisions, rename)`: one collision copy per item; a hard error is reported
      and stops the loop, any other error is counted. A collision copy that turned a
      soft failure into success(1, 1) is not counted again. */
  method CopyCollisions(collisions: seq<NameCollisionResult>, rename: bool, b: Backend, cancelAt: Option<nat>)
    returns (signal: SingleSignal)
    ensures signal == Run(CollisionOutcomes(collisions, rename, b), cancelAt, 0, 0)
  {
    ghost var outcomes := CollisionOutcomes(collisions, rename, b);
    var errorCount := 0;
    var disposed := false;
    signal := Silent;
    var i := 0;
    while i < |collisions|
      invariant 0 <= i <= |collisions|
      invariant disposed ==> signal == Run(outcomes, cancelAt, 0, 0)
      invariant !disposed ==> signal == Silent && Run(outcomes, cancelAt, 0, 0) == Run(outcomes, cancelAt, i, errorCount)
    {
      if disposed || CancelledBy(cancelAt, i) {
        break;
      }
      var out := CollisionCopyOf(collisions[i], rename, b, false);
      if out.signal.Errored? {
        if ShouldEmitError(out.signal.error) {
          signal := Errored(out.signal.error);
          disposed := true;
        } else {
          errorCount := errorCount + 1;
        }
      }
      i := i + 1;
    }
    if !disposed && !CancelledBy(cancelAt, i) {
      signal := Succeeded(CopyRequestResult(|collisions|, errorCount));
    }
  }

  /** `copy(nodes, parentHandle)`: a missing parent fails before any copy; then one copy
      per node, as for collisions. */
  method CopyNodes(nodes: seq<Node>, parentHandle: int, b: Backend, cancelAt: Option<nat>)
    returns (signal: SingleSignal)
    ensures b.getNode(parentHandle).None? ==> signal == Deliver(CancelledBy(cancelAt, 0), Errored(ParentDoesNotExist))
    ensures b.getNode(parentHandle).Some? ==>
      signal == Run(NodeOutcomes(nodes, b.getNode(parentHandle).value, b), cancelAt, 0, 0)
  {
    var parentNode := b.getNode(parentHandle);
    if parentNode.None? {
      return Deliver(CancelledBy(cancelAt, 0), Errored(ParentDoesNotExist));
    }
    ghost var outcomes := NodeOutcomes(nodes, parentNode.value, b);
    var errorCount := 0;
    var disposed := false;
    signal := Silent;
    var i := 0;
    while i < |nodes|
      invariant 0 <= i <= |nodes|
      invariant disposed ==> signal == Run(outcomes, cancelAt, 0, 0)
      invariant !disposed ==> signal == Silent && Run(outcomes, cancelAt, 0, 0) == Run(outcomes, cancelAt, i, errorCount)
    {
      if disposed || CancelledBy(cancelAt, i) {
        break;
      }
      var call := CopyNode(Some(nodes[i]), parentNode, None, b, false);
      if call.signal.Failed? {
        if ShouldEmitError(call.signal.error) {
          signal := Errored(call.signal.error);
          disposed := true;
        } else {
          errorCount := errorCount + 1;
        }
      }
      i := i + 1;
    }
    if !disposed && !CancelledBy(cancelAt, i) {
      signal := Succeeded(CopyRequestResult(|nodes|, errorCount));
    }
  }

  /** `copy(handles, newParentHandle)`: a missing parent fails before any copy; a handle
      without a node is counted as an error and no copy is issued for it. */
  method CopyHandles(handles: seq<int>, newParentHandle: int, b: Backend, cancelAt: Option<nat>)
    returns (signal: SingleSignal)
    ensures b.getNode(newParentHandle).None? ==> signal == Deliver(CancelledBy(cancelAt, 0), Errored(ParentDoesNotExist))
    ensures b.getNode(newParentHandle).Some? ==>
      signal == Run(HandleOutcomes(handles, b.getNode(newParentHandle).value, b), cancelAt, 0, 0)
  {
    var parentNode := b.getNode(newParentHandle);
    if parentNode.None? {
      return Deliver(CancelledBy(cancelAt, 0), Errored(ParentDoesNotExist));
    }
    ghost var outcomes := HandleOutcomes(handles, parentNode.value, b);
    var errorCount := 0;
    var disposed := false;
    signal := Silent;
    var i := 0;
    while i < |handles|
      invariant 0 <= i <= |handles|
      invariant disposed ==> signal == Run(outcomes, cancelAt, 0, 0)
      invariant !disposed ==> signal == Silent && Run(outcomes, cancelAt, 0, 0) == Run(outcomes, cancelAt, i, errorCount)
    {
      if disposed || CancelledBy(cancelAt, i) {
        break;
      }
      var node := b.getNode(handles[i]);
      if node.None? {
        errorCount := errorCount + 1;
      } else {
        var call := CopyNode(node, parentNode, None, b, false);
        if call.signal.Failed? {
          if ShouldEmitError(call.signal.error) {
            signal := Errored(call.signal.error);
            disposed := true;
          } else {
            errorCount := errorCount + 1;
          }
        }
      }
      i := i + 1;
    }
    if !disposed && !CancelledBy(cancelAt, i) {
      signal := Succeeded(CopyRequestResult(|handles|, errorCount));
    }
  }

  /** The batch guarantees, for any of the three batch copies: success reports every
      item and only soft failures (`errorCount <= count`); failure reports a hard error
      that is the first hard outcome; with no hard outcome and no disposal it succeeds. */
  lemma BatchGuarantees(outcomes: seq<ItemOutcome>, cancelAt: Option<nat>)
    requires forall k :: 0 <= k < |outcomes| && outcomes[k].ItemHard? ==> ShouldEmitError(outcomes[k].error)
    ensures Run(outcomes, cancelAt, 0, 0).Succeeded? ==>
      Run(outcomes, cancelAt, 0, 0).result.count == |outcomes|
      && Run(outcomes, cancelAt, 0, 0).result.errorCount == SoftCount(outcomes)
      && Run(outcomes, cancelAt, 0, 0).result.errorCount <= Run(outcomes, cancelAt, 0, 0).result.count
    ensures Run(outcomes, cancelAt, 0, 0).Errored? ==> ShouldEmitError(Run(outcomes, cancelAt, 0, 0).error)
    ensures cancelAt.None? && (forall k :: 0 <= k < |outcomes| ==> !HardAt(outcomes, k)) ==>
      Run(outcomes, cancelAt, 0, 0).Succeeded?
  {
    RunSuccessCounts(outcomes, cancelAt, 0, 0);
    assert outcomes[0..] == outcomes;
    RunErrorIsFirstHard(outcomes, cancelAt, 0, 0);
    if cancelAt.None? && (forall k :: 0 <= k < |outcomes| ==> !HardAt(outcomes, k)) {
      RunWithoutHardSucceeds(outcomes, 0, 0);
    }
  }
}
