/** `FileBrowserViewModel`: the cloud-drive browser state (current folder, its children and
    its parent), the stack of list positions saved when entering a folder, and the test for
    opening a folder straight in media-discovery mode. */
module FileBrowser {
  import opened Common

  /** `MegaApiJava.INVALID_HANDLE` read as a signed 64-bit value. */
  const INVALID_HANDLE: int := -1

  /** Ordinals of `MediaDiscoveryViewSettings`. */
  const INITIAL: int := 0
  const ENABLED: int := 1
  const DISABLED: int := 2

  /** A child node as the predicate sees it: whether it is a folder, and what the MIME
      type table says about its name. */
  datatype Node = Node(handle: int, isFolder: bool, isImage: bool, isVideoReproducible: bool)

  /** A node that media discovery can show: a file that is an image or a playable video. */
  predicate IsMedia(n: Node) {
    !n.isFolder && (n.isImage || n.isVideoReproducible)
  }

  /** When the folder opens in media-discovery mode: it has children, the setting is
      ENABLED or INITIAL, and every child is media. */
  predicate EntersMediaDiscovery(nodes: seq<Node>, setting: int) {
    |nodes| > 0 && (setting == ENABLED || setting == INITIAL) &&
    forall i :: 0 <= i < |nodes| ==> IsMedia(nodes[i])
  }

  class FileBrowserViewModel {
    var fileBrowserHandle: int
    var mediaHandle: int
    var nodes: seq<Node>
    var parentHandle: Option<int>
    var mediaDiscoveryViewSettings: int
    /** `lastPositionStack`, top at the end. */
    var lastPositionStack: seq<int>

    /** The initial `FileBrowserState` (both handles INVALID_HANDLE, setting INITIAL, an
        empty stack), followed by the first `refreshNodes` of `init`, which reads the
        children and the parent of INVALID_HANDLE. */
    constructor (childrenOf: int -> Option<seq<Node>>, parentOf: int -> Option<int>)
      ensures fileBrowserHandle == INVALID_HANDLE && mediaHandle == INVALID_HANDLE
      ensures nodes == (if childrenOf(INVALID_HANDLE).Some? then childrenOf(INVALID_HANDLE).value else [])
      ensures parentHandle == parentOf(INVALID_HANDLE)
      ensures mediaDiscoveryViewSettings == INITIAL && lastPositionStack == []
    {
      fileBrowserHandle := INVALID_HANDLE;
      mediaHandle := INVALID_HANDLE;
      nodes := [];
      parentHandle := None;
      mediaDiscoveryViewSettings := INITIAL;
      lastPositionStack := [];
      new;
      RefreshNodes(childrenOf, parentOf);
    }

    /** `monitorMediaDiscovery`: a null setting is stored as INITIAL. */
    method OnMediaDiscoverySetting(setting: Option<int>)
      modifies this
      ensures mediaDiscoveryViewSettings == (if setting.Some? then setting.value else INITIAL)
      ensures fileBrowserHandle == old(fileBrowserHandle) && mediaHandle == old(mediaHandle)
      ensures nodes == old(nodes) && parentHandle == old(parentHandle)
      ensures lastPositionStack == old(lastPositionStack)
    {
      mediaDiscoveryViewSettings := if setting.Some? then setting.value else INITIAL;
    }

    /** `refreshNodes`: the children of the current folder (none when the lookup gives
        null) and its parent, both read from the node tree for the current handle. */
    method RefreshNodes(childrenOf: int -> Option<seq<Node>>, parentOf: int -> Option<int>)
      modifies this
      ensures nodes == (if childrenOf(fileBrowserHandle).Some? then childrenOf(fileBrowserHandle).value else [])
      ensures parentHandle == parentOf(fileBrowserHandle)
      ensures fileBrowserHandle == old(fileBrowserHandle) && mediaHandle == old(mediaHandle)
      ensures mediaDiscoveryViewSettings == old(mediaDiscoveryViewSettings)
      ensures lastPositionStack == old(lastPositionStack)
    {
      var children := childrenOf(fileBrowserHandle);
      nodes := if children.Some? then children.value else [];
      parentHandle := parentOf(fileBrowserHandle);
    }

    /** `setBrowserParentHandle`: both handles become `handle`, then the children and the
        parent are refreshed for it; the setting and the position stack are untouched. */
    method SetBrowserParentHandle(handle: int, childrenOf: int -> Option<seq<Node>>, parentOf: int -> Option<int>)
      modifies this
      ensures fileBrowserHandle == handle && mediaHandle == handle
      ensures nodes == (if childrenOf(handle).Some? then childrenOf(handle).value else [])
      ensures parentHandle == parentOf(handle)
      ensures mediaDiscoveryViewSettings == old(mediaDiscoveryViewSettings)
      ensures lastPositionStack == old(lastPositionStack)
    {
      fileBrowserHandle := handle;
      mediaHandle := handle;
      RefreshNodes(childrenOf, parentOf);
    }

    /** `getSafeBrowserParentHandle`: an unset handle is first set to the root folder's
        handle, or to INVALID_HANDLE when there is no root. */
    method GetSafeBrowserParentHandle(root: Option<int>, childrenOf: int -> Option<seq<Node>>, parentOf: int -> Option<int>)
      returns (handle: int)
      modifies this
      ensures old(fileBrowserHandle) != INVALID_HANDLE ==>
        handle == old(fileBrowserHandle) && mediaHandle == old(mediaHandle)
        && nodes == old(nodes) && parentHandle == old(parentHandle)
      ensures old(fileBrowserHandle) == INVALID_HANDLE ==>
        handle == (if root.Some? then root.value else INVALID_HANDLE) && mediaHandle == handle
        && nodes == (if childrenOf(handle).Some? then childrenOf(handle).value else [])
        && parentHandle == parentOf(handle)
      ensures fileBrowserHandle == handle
      ensures mediaDiscoveryViewSettings == old(mediaDiscoveryViewSettings)
      ensures lastPositionStack == old(lastPositionStack)
    {
      if fileBrowserHandle == INVALID_HANDLE {
        SetBrowserParentHandle(if root.Some? then root.value else INVALID_HANDLE, childrenOf, parentOf);
      }
      handle := fileBrowserHandle;
    }

    /** `onBackPressed`: go to the parent folder when there is one; with no parent
        nothing changes. */
    method OnBackPressed(childrenOf: int -> Option<seq<Node>>, parentOf: int -> Option<int>)
      modifies this
      ensures old(parentHandle).None? ==>
        fileBrowserHandle == old(fileBrowserHandle) && mediaHandle == old(mediaHandle)
        && nodes == old(nodes) && parentHandle == old(parentHandle)
      ensures old(parentHandle).Some? ==>
        fileBrowserHandle == old(parentHandle).value && mediaHandle == old(parentHandle).value
        && nodes == (if childrenOf(fileBrowserHandle).Some? then childrenOf(fileBrowserHandle).value else [])
        && parentHandle == parentOf(fileBrowserHandle)
      ensures mediaDiscoveryViewSettings == old(mediaDiscoveryViewSettings)
      ensures lastPositionStack == old(lastPositionStack)
    {
      if parentHandle.Some? {
        SetBrowserParentHandle(parentHandle.value, childrenOf, parentOf);
      }
    }

    /** `popLastPositionStack`: the most recently pushed position, removed; 0 and no
        change when the stack is empty. */
    method PopLastPositionStack() returns (position: int)
      modifies this
      ensures old(lastPositionStack) == [] ==> position == 0 && lastPositionStack == []
      ensures old(lastPositionStack) != [] ==>
        old(lastPositionStack) == lastPositionStack + [position]
      ensures fileBrowserHandle == old(fileBrowserHandle) && mediaHandle == old(mediaHandle)
      ensures nodes == old(nodes) && parentHandle == old(parentHandle)
      ensures mediaDiscoveryViewSettings == old(mediaDiscoveryViewSettings)
    {
      if lastPositionStack == [] {
        position := 0;
      } else {
        position := lastPositionStack[|lastPositionStack| - 1];
        lastPositionStack := lastPositionStack[..|lastPositionStack| - 1];
      }
    }

    /** `onFolderItemClicked`: save the list position, then open the folder. */
    method OnFolderItemClicked(lastFirstVisiblePosition: int, handle: int,
                               childrenOf: int -> Option<seq<Node>>, parentOf: int -> Option<int>)
      modifies this
      ensures lastPositionStack == old(lastPositionStack) + [lastFirstVisiblePosition]
      ensures fileBrowserHandle == handle && mediaHandle == handle
      ensures nodes == (if childrenOf(handle).Some? then childrenOf(handle).value else [])
      ensures parentHandle == parentOf(handle)
      ensures mediaDiscoveryViewSettings == old(mediaDiscoveryViewSettings)
    {
      lastPositionStack := lastPositionStack + [lastFirstVisiblePosition];
      SetBrowserParentHandle(handle, childrenOf, parentOf);
    }

    /** Opening a folder and then popping gives back the saved position and the stack
        as it was before (last in, first out). */
    method EnterThenPop(lastFirstVisiblePosition: int, handle: int,
                        childrenOf: int -> Option<seq<Node>>, parentOf: int -> Option<int>)
      returns (position: int)
      modifies this
      ensures position == lastFirstVisiblePosition
      ensures lastPositionStack == old(lastPositionStack)
      ensures fileBrowserHandle == handle
    {
      var pushed := lastPositionStack + [lastFirstVisiblePosition];
      OnFolderItemClicked(lastFirstVisiblePosition, handle, childrenOf, parentOf);
      position := PopLastPositionStack();
      assert pushed == lastPositionStack + [position];
      assert pushed[..|pushed| - 1] == lastPositionStack;
    }

    /** `shouldEnterMDMode`: the loop with early exits decides `EntersMediaDiscovery`. */
    method ShouldEnterMDMode(setting: int) returns (enter: bool)
      ensures enter <==> EntersMediaDiscovery(nodes, setting)
    {
      if |nodes| == 0 {
        return false;
      }
      var isMediaDiscoveryEnable := setting == ENABLED || setting == INITIAL;
      if !isMediaDiscoveryEnable {
        return false;
      }
      var i := 0;
      while i < |nodes|
        invariant 0 <= i <= |nodes|
        invariant forall j :: 0 <= j < i ==> IsMedia(nodes[j])
      {
        var node := nodes[i];
        if node.isFolder || (!node.isImage && !node.isVideoReproducible) {
          return false;
        }
        i := i + 1;
      }
      return true;
    }
  }
}
