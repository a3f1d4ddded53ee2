/** `MediaPlayerServiceViewModel`: the playlist behind the audio and video players. The
    canonical items (`playlistItems`, in play-source order) are projected into the
    displayed list: reordered along the player's shuffle order around the playing item,
    tagged as previous, playing or next, with headers and a scroll target, or filtered by
    a search query. The displayed list can also be edited: removal, selection, swapping. */
module MediaPlayer {
  import opened Common

  const INVALID_HANDLE: int := -1
  /** `C.INDEX_UNSET`: no previous or next index in a shuffle order. */
  const INDEX_UNSET: int := -1
  const MAX_RETRY: int := 6
  const TYPE_PREVIOUS: int := 1
  const TYPE_PLAYING: int := 2
  const TYPE_NEXT: int := 3
  /** `MegaError.API_ENOENT`. */
  const API_ENOENT: int := -9

  /** The fields of `PlaylistItem` this model uses. */
  datatype PlaylistItem = PlaylistItem(
    nodeHandle: int,
    nodeName: string,
    index: int,
    itemType: int,
    isSelected: bool,
    headerIsVisible: bool)

  /** `finalizeItem`: the item at a given position with a given type and selection and its
      header hidden. */
  function Finalize(item: PlaylistItem, index: int, itemType: int, isSelected: bool): (r: PlaylistItem)
    ensures r.nodeHandle == item.nodeHandle && r.nodeName == item.nodeName
    ensures !r.headerIsVisible
  {
    item.(index := index, itemType := itemType, isSelected := isSelected, headerIsVisible := false)
  }

  // ---------------------------------------------------------------------------
  // Permutations and the shuffle order
  // ---------------------------------------------------------------------------

  /** 0, 1, …, n - 1. */
  function Range(n: nat): seq<int> {
    seq(n, i => i)
  }

  predicate Distinct(p: seq<int>) {
    forall i, j :: 0 <= i < j < |p| ==> p[i] != p[j]
  }

  /** `p` lists 0, …, n - 1, each once, in some order. */
  predicate IsPermutation(p: seq<int>, n: nat) {
    multiset(p) == multiset(Range(n))
  }

  /** No number occurs twice in 0, …, n - 1. */
  lemma {:induction false} RangeCount(n: nat, x: int)
    ensures multiset(Range(n))[x] <= 1
    ensures x !in multiset(Range(n)) <==> !(0 <= x < n)
  {
    if n > 0 {
      assert Range(n) == Range(n - 1) + [n - 1];
      RangeCount(n - 1, x);
    }
  }

  /** A value at two positions is counted twice. */
  lemma CountPair(p: seq<int>, i: nat, j: nat)
    requires i < j < |p|
    ensures p[i] == p[j] ==> multiset(p)[p[i]] >= 2
  {
    if p[i] == p[j] {
      assert p == p[..i] + [p[i]] + p[i + 1..j] + [p[j]] + p[j + 1..];
    }
  }

  /** A permutation repeats nothing. */
  lemma PermutationDistinct(p: seq<int>, n: nat)
    requires IsPermutation(p, n)
    ensures Distinct(p)
  {
    forall i, j | 0 <= i < j < |p| ensures p[i] != p[j] {
      RangeCount(n, p[i]);
      CountPair(p, i, j);
    }
  }

  /** The items at the positions `p` lists. */
  function Pick<T>(p: seq<int>, a: seq<T>): (picked: seq<T>)
    requires forall j :: 0 <= j < |p| ==> 0 <= p[j] < |a|
    ensures |picked| == |p|
    ensures forall j :: 0 <= j < |p| ==> picked[j] == a[p[j]]
  {
    seq(|p|, j requires 0 <= j < |p| => a[p[j]])
  }

  /** A permutation of 0, …, n - 1 has n entries, all below n. */
  lemma PermutationInRange(p: seq<int>, n: nat)
    requires multiset(p) == multiset(Range(n))
    ensures |p| == n
    ensures forall j :: 0 <= j < |p| ==> 0 <= p[j] < n
  {
    assert |multiset(p)| == |multiset(Range(n))|;
    forall j | 0 <= j < |p| ensures 0 <= p[j] < n {
      assert p[j] in multiset(p);
      assert p[j] in Range(n);
    }
  }

  /** Taking the last position out of a permutation leaves a permutation of the others. */
  lemma WithoutLast(p: seq<int>, n: nat, t: nat)
    requires multiset(p) == multiset(Range(n + 1)) && t < |p| && p[t] == n
    ensures multiset(p[..t] + p[t + 1..]) == multiset(Range(n))
  {
    assert p == p[..t] + [n] + p[t + 1..];
    assert Range(n + 1) == Range(n) + [n];
    calc {
      multiset(p[..t] + p[t + 1..]);
    ==
      multiset(p) - multiset{n};
    ==
      multiset(Range(n + 1)) - multiset{n};
    ==
      multiset(Range(n));
    }
  }

  /** Picking along `p` is picking along `p` without its last position, with the last
      item put back where that position was. */
  lemma PickAround<T>(p: seq<int>, a: seq<T>, t: nat, rest: seq<int>)
    requires |a| > 0 && t < |p| && p[t] == |a| - 1
    requires forall j :: 0 <= j < |p| && j != t ==> 0 <= p[j] < |a| - 1
    requires rest == p[..t] + p[t + 1..]
    requires forall j :: 0 <= j < |rest| ==> 0 <= rest[j] < |a| - 1
    ensures forall j :: 0 <= j < |p| ==> 0 <= p[j] < |a|
    ensures var q := Pick(rest, a[..|a| - 1]);
      Pick(p, a) == q[..t] + [a[|a| - 1]] + q[t..]
  {
    assert forall j :: 0 <= j < |rest| ==> rest[j] == (if j < t then p[j] else p[j + 1]);
    var q := Pick(rest, a[..|a| - 1]);
    var picked := Pick(p, a);
    assert picked == q[..t] + [a[|a| - 1]] + q[t..] by {
      forall j | 0 <= j < |picked| ensures picked[j] == (q[..t] + [a[|a| - 1]] + q[t..])[j] {
        if j < t {
          assert picked[j] == a[p[j]] == q[j];
        } else if j > t {
          assert picked[j] == a[p[j]] == q[j - 1];
        }
      }
    }
  }

  /** Putting `x` back into `q` at `t` adds one `x`. */
  lemma InsertCounts<T>(q: seq<T>, t: nat, x: T)
    requires t <= |q|
    ensures multiset(q[..t] + [x] + q[t..]) == multiset(q) + multiset{x}
  {
    assert q == q[..t] + q[t..];
  }

  /** Picking the items of `a` along a permutation of its positions rearranges `a`: the
      same items, as many times each. */
  lemma {:induction false} PickPermutes<T>(p: seq<int>, a: seq<T>)
    requires multiset(p) == multiset(Range(|a|))
    ensures forall j :: 0 <= j < |p| ==> 0 <= p[j] < |a|
    ensures multiset(Pick(p, a)) == multiset(a)
    decreases |a|
  {
    PermutationInRange(p, |a|);
    if |a| > 0 {
      var m := |a| - 1;
      assert m in multiset(p) by {
        assert Range(|a|)[m] == m;
      }
      var t :| 0 <= t < |p| && p[t] == m;
      var rest := p[..t] + p[t + 1..];
      assert multiset(rest) == multiset(Range(m)) by {
        WithoutLast(p, m, t);
      }
      assert forall j :: 0 <= j < |rest| ==> 0 <= rest[j] < m by {
        PermutationInRange(rest, m);
      }
      assert forall j :: 0 <= j < |p| && j != t ==> 0 <= p[j] < m by {
        forall j | 0 <= j < |p| && j != t ensures 0 <= p[j] < m {
          if j < t { assert rest[j] == p[j]; } else { assert rest[j - 1] == p[j]; }
        }
      }
      PickPermutes(rest, a[..m]);
      PickPutsBackLast(p, a, t, rest);
    }
  }

  /** The induction step of `PickPermutes`. */
  lemma PickPutsBackLast<T>(p: seq<int>, a: seq<T>, t: nat, rest: seq<int>)
    requires |a| > 0 && t < |p| && p[t] == |a| - 1
    requires forall j :: 0 <= j < |p| && j != t ==> 0 <= p[j] < |a| - 1
    requires rest == p[..t] + p[t + 1..]
    requires forall j :: 0 <= j < |rest| ==> 0 <= rest[j] < |a| - 1
    requires multiset(Pick(rest, a[..|a| - 1])) == multiset(a[..|a| - 1])
    ensures forall j :: 0 <= j < |p| ==> 0 <= p[j] < |a|
    ensures multiset(Pick(p, a)) == multiset(a)
  {
    var m := |a| - 1;
    PickAround(p, a, t, rest);
    InsertCounts(Pick(rest, a[..m]), t, a[m]);
    assert a == a[..m] + [a[m]];
  }

  /** First position of `x` in `s`, or `|s|` when it does not occur. */
  function PositionIn(s: seq<int>, x: int): (k: nat)
    ensures k <= |s|
    ensures k < |s| ==> s[k] == x
  {
    if s == [] then 0
    else if s[0] == x then 0
    else 1 + PositionIn(s[1..], x)
  }

  /** In a list without repeats every entry is found where it is. */
  lemma PositionOfEntry(s: seq<int>, j: nat)
    requires Distinct(s) && j < |s|
    ensures PositionIn(s, s[j]) == j
  {
    if j > 0 {
      PositionOfEntry(s[1..], j - 1);
    }
  }

  /** An entry that occurs is found. */
  lemma {:induction false} PositionOfMember(s: seq<int>, x: int)
    requires x in s
    ensures PositionIn(s, x) < |s|
  {
    if s[0] != x {
      PositionOfMember(s[1..], x);
    }
  }

  /** An ExoPlayer `ShuffleOrder`: the play order as a list of positions. */
  datatype ShuffleOrder = ShuffleOrder(shuffled: seq<int>) {
    /** What ExoPlayer promises of a shuffle order: a permutation of its positions. */
    predicate Valid() {
      IsPermutation(shuffled, |shuffled|)
    }

    function Length(): nat {
      |shuffled|
    }

    /** `getNextIndex`: the position played after `i`, or `INDEX_UNSET` after the last. */
    function GetNextIndex(i: int): int
    {
      var k := PositionIn(shuffled, i);
      if k + 1 < |shuffled| then shuffled[k + 1] else INDEX_UNSET
    }

    /** `getPreviousIndex`: the position played before `i`, or `INDEX_UNSET` before the
        first. */
    function GetPreviousIndex(i: int): int
    {
      var k := PositionIn(shuffled, i);
      if 0 < k < |shuffled| then shuffled[k - 1] else INDEX_UNSET
    }
  }

  // ---------------------------------------------------------------------------
  // Projection of the playlist
  // ---------------------------------------------------------------------------

  /** First position of an item with this handle. */
  function IndexOfHandle(items: seq<PlaylistItem>, handle: int): (r: Option<nat>)
    ensures r.Some? ==> r.value < |items| && items[r.value].nodeHandle == handle
    ensures r.Some? ==> forall j :: 0 <= j < r.value ==> items[j].nodeHandle != handle
    ensures r.None? ==> forall j :: 0 <= j < |items| ==> items[j].nodeHandle != handle
  {
    if items == [] then None
    else if items[0].nodeHandle == handle then Some(0)
    else
      var r := IndexOfHandle(items[1..], handle);
      if r.None? then None else Some(r.value + 1)
  }

  /** The playing position: the first item with the playing handle, or 0 without one. */
  function PlayingPositionOf(items: seq<PlaylistItem>, playingHandle: int): (pos: nat)
    requires items != []
    ensures pos < |items|
    ensures items[pos].nodeHandle == playingHandle || (pos == 0 && forall j :: 0 <= j < |items| ==> items[j].nodeHandle != playingHandle)
  {
    var r := IndexOfHandle(items, playingHandle);
    if r.Some? then r.value else 0
  }

  /** The list `recreateAndUpdatePlaylistItems` rebuilds and the new playing position:
      with `shuffle`, the items in the order of the shuffle order and the playing item's
      place in it; otherwise the items as they are. */
  function Arrange(items: seq<PlaylistItem>, playingHandle: int, shuffle: bool, order: ShuffleOrder)
    : (r: (seq<PlaylistItem>, nat))
    requires items != [] && order.Valid()
    requires shuffle ==> order.Length() == |items|
    ensures |r.0| == |items| && r.1 < |items|
    ensures r.0[r.1] == items[PlayingPositionOf(items, playingHandle)]
    ensures multiset(r.0) == multiset(items)
    ensures !shuffle ==> r == (items, PlayingPositionOf(items, playingHandle))
    ensures shuffle ==> forall j :: 0 <= j < |items| ==>
      0 <= order.shuffled[j] < |items| && r.0[j] == items[order.shuffled[j]]
  {
    var pos := PlayingPositionOf(items, playingHandle);
    if shuffle then
      PickPermutes(order.shuffled, items);
      assert Range(|items|)[pos] == pos;
      assert pos in multiset(Range(|items|));
      PositionOfMember(order.shuffled, pos);
      var k := PositionIn(order.shuffled, pos);
      (Pick(order.shuffled, items), k)
    else (items, pos)
  }

  /** Along a shuffle order, the arranged list is the items picked in play order. */
  lemma ArrangeAlongOrder(items: seq<PlaylistItem>, playingHandle: int, order: ShuffleOrder)
    requires items != [] && order.Valid() && order.Length() == |items|
    ensures forall j :: 0 <= j < |order.shuffled| ==> 0 <= order.shuffled[j] < |items|
    ensures Arrange(items, playingHandle, true, order)
      == (Pick(order.shuffled, items), PositionIn(order.shuffled, PlayingPositionOf(items, playingHandle)))
  {
    PermutationInRange(order.shuffled, |items|);
  }

  /** The type of the item at `index`. */
  function TypeFor(index: int, playingPosition: int): int {
    if index < playingPosition then TYPE_PREVIOUS
    else if index == playingPosition then TYPE_PLAYING
    else TYPE_NEXT
  }

  /** The tagged list: each item at its position, previous before the playing one, next
      after it, and a header on the first item (when something was played before) and on
      the playing item. */
  function Projection(items: seq<PlaylistItem>, playingPosition: nat): (shown: seq<PlaylistItem>)
    ensures |shown| == |items|
    ensures forall j :: 0 <= j < |items| ==>
      shown[j].nodeHandle == items[j].nodeHandle && shown[j].nodeName == items[j].nodeName
      && shown[j].isSelected == items[j].isSelected && shown[j].index == j
    ensures forall j :: 0 <= j < |items| ==>
      (shown[j].itemType == TYPE_PREVIOUS <==> j < playingPosition)
      && (shown[j].itemType == TYPE_PLAYING <==> j == playingPosition)
      && (shown[j].itemType == TYPE_NEXT <==> j > playingPosition)
    ensures forall j :: 0 <= j < |items| ==>
      (shown[j].headerIsVisible <==> j == playingPosition || (j == 0 && playingPosition > 0))
  {
    seq(|items|, j requires 0 <= j < |items| =>
      Finalize(items[j], j, TypeFor(j, playingPosition), items[j].isSelected)
        .(headerIsVisible := j == playingPosition || (j == 0 && playingPosition > 0)))
  }

  /** The query is not null or empty. */
  predicate SearchActive(query: Option<string>) {
    query.Some? && query.value != ""
  }

  /** The name matches the query, ignoring case. */
  predicate NameMatches(item: PlaylistItem, filter: string) {
    ContainsIgnoreCase(item.nodeName, filter)
  }

  /** `filterPlaylistItems` over the first `n` items: those whose name contains the filter,
      in order, each marked previous and keeping its position before filtering. */
  function Filtered(items: seq<PlaylistItem>, filter: string, n: nat): (kept: seq<PlaylistItem>)
    requires n <= |items|
    ensures |kept| <= n
    ensures forall j :: 0 <= j < |kept| ==>
      0 <= kept[j].index < n && NameMatches(items[kept[j].index], filter)
      && kept[j] == Finalize(items[kept[j].index], kept[j].index, TYPE_PREVIOUS, false)
  {
    if n == 0 then []
    else
      var before := Filtered(items, filter, n - 1);
      if NameMatches(items[n - 1], filter) then
        var kept := before + [Finalize(items[n - 1], n - 1, TYPE_PREVIOUS, false)];
        assert kept[|before|].index == n - 1;
        assert forall j :: 0 <= j < |before| ==> kept[j] == before[j];
        kept
      else before
  }

  /** The kept items are in the order of the list: their indices strictly increase. */
  lemma {:induction false} FilteredInOrder(items: seq<PlaylistItem>, filter: string, n: nat)
    requires n <= |items|
    ensures forall j, k :: 0 <= j < k < |Filtered(items, filter, n)| ==>
      Filtered(items, filter, n)[j].index < Filtered(items, filter, n)[k].index
  {
    if n > 0 {
      FilteredInOrder(items, filter, n - 1);
      var before := Filtered(items, filter, n - 1);
      var kept := Filtered(items, filter, n);
      if NameMatches(items[n - 1], filter) {
        var last := Finalize(items[n - 1], n - 1, TYPE_PREVIOUS, false);
        assert kept == before + [last];
        forall j, k | 0 <= j < k < |kept| ensures kept[j].index < kept[k].index {
          assert kept[j] == before[j];
          if k < |before| {
            assert kept[k] == before[k];
          } else {
            assert kept[k] == last && before[j].index < n - 1;
          }
        }
      } else {
        assert kept == before;
      }
    }
  }

  /** Some kept item came from position `i` of the list. */
  predicate IndexKept(kept: seq<PlaylistItem>, i: int) {
    exists j :: 0 <= j < |kept| && kept[j].index == i
  }

  /** Every item whose name matches is kept. */
  lemma {:induction false} FilteredKeepsEveryMatch(items: seq<PlaylistItem>, filter: string, n: nat)
    requires n <= |items|
    ensures forall i :: 0 <= i < n && NameMatches(items[i], filter) ==> IndexKept(Filtered(items, filter, n), i)
  {
    if n > 0 {
      FilteredKeepsEveryMatch(items, filter, n - 1);
      var before := Filtered(items, filter, n - 1);
      var kept := Filtered(items, filter, n);
      var last := Finalize(items[n - 1], n - 1, TYPE_PREVIOUS, false);
      assert kept == if NameMatches(items[n - 1], filter) then before + [last] else before;
      forall i | 0 <= i < n && NameMatches(items[i], filter)
        ensures IndexKept(Filtered(items, filter, n), i)
      {
        if i < n - 1 {
          var j :| 0 <= j < |before| && before[j].index == i;
          assert kept[j] == before[j];
        } else {
          assert kept[|before|] == last;
        }
      }
    }
  }

  /** The two `while` loops over the shuffle chain: walking back from the playing position
      and putting each item in front, then walking forward and appending. The result is the
      whole shuffle order, with the playing item at the number of its predecessors. */
  method WalkShuffleChain(items: seq<PlaylistItem>, order: ShuffleOrder, playingPosition: nat)
    returns (recreated: seq<PlaylistItem>, newPlayingIndex: nat)
    requires order.Valid() && order.Length() == |items| && playingPosition < |items|
    ensures forall j :: 0 <= j < |order.shuffled| ==> 0 <= order.shuffled[j] < |items|
    ensures recreated == Pick(order.shuffled, items)
    ensures newPlayingIndex == PositionIn(order.shuffled, playingPosition) && newPlayingIndex < |recreated|
  {
    var s := order.shuffled;
    assert forall j :: 0 <= j < |s| ==> 0 <= s[j] < |items| by {
      PermutationInRange(s, |s|);
    }
    assert playingPosition in s by {
      assert Range(|s|)[playingPosition] == playingPosition;
      assert playingPosition in multiset(Range(|s|));
    }
    PositionOfMember(s, playingPosition);
    recreated, newPlayingIndex := WalkBack(items, order, playingPosition);
    recreated := WalkForward(items, order, playingPosition, recreated);
  }

  /** The first loop: the playing item with everything played before it in front. */
  method WalkBack(items: seq<PlaylistItem>, order: ShuffleOrder, playingPosition: nat)
    returns (recreated: seq<PlaylistItem>, newPlayingIndex: nat)
    requires order.Valid() && order.Length() == |items| && playingPosition < |items|
    requires forall j :: 0 <= j < |order.shuffled| ==> 0 <= order.shuffled[j] < |items|
    requires PositionIn(order.shuffled, playingPosition) < |items|
    ensures newPlayingIndex == PositionIn(order.shuffled, playingPosition)
    ensures recreated == Pick(order.shuffled, items)[..newPlayingIndex + 1]
  {
    var s := order.shuffled;
    var k := PositionIn(s, playingPosition);
    ghost var all := Pick(s, items);
    recreated := [items[playingPosition]];
    assert recreated == all[k..k + 1];
    newPlayingIndex := 0;
    StepBack(order, k);
    var index := order.GetPreviousIndex(playingPosition);
    while index != INDEX_UNSET
      invariant 0 <= newPlayingIndex <= k
      invariant index == (if newPlayingIndex < k then s[k - newPlayingIndex - 1] else INDEX_UNSET)
      invariant recreated == all[k - newPlayingIndex..k + 1]
      decreases k - newPlayingIndex
    {
      var j := k - newPlayingIndex - 1;
      SliceCons(all, j, k + 1);
      recreated := [items[index]] + recreated;
      StepBack(order, j);
      index := order.GetPreviousIndex(index);
      newPlayingIndex := newPlayingIndex + 1;
    }
  }

  /** The second loop: everything played after the playing item appended. */
  method WalkForward(items: seq<PlaylistItem>, order: ShuffleOrder, playingPosition: nat, front: seq<PlaylistItem>)
    returns (recreated: seq<PlaylistItem>)
    requires order.Valid() && order.Length() == |items| && playingPosition < |items|
    requires forall j :: 0 <= j < |order.shuffled| ==> 0 <= order.shuffled[j] < |items|
    requires PositionIn(order.shuffled, playingPosition) < |items|
    requires front == Pick(order.shuffled, items)[..PositionIn(order.shuffled, playingPosition) + 1]
    ensures recreated == Pick(order.shuffled, items)
  {
    var s := order.shuffled;
    var k := PositionIn(s, playingPosition);
    ghost var all := Pick(s, items);
    recreated := front;
    StepForward(order, k);
    var index := order.GetNextIndex(playingPosition);
    while index != INDEX_UNSET
      invariant k + 1 <= |recreated| <= |s|
      invariant index == (if |recreated| < |s| then s[|recreated|] else INDEX_UNSET)
      invariant recreated == all[..|recreated|]
      decreases |s| - |recreated|
    {
      var j := |recreated|;
      SliceSnoc(all, j);
      recreated := recreated + [items[index]];
      StepForward(order, j);
      index := order.GetNextIndex(index);
    }
    assert all[..|s|] == all;
  }

  lemma SliceCons<T>(s: seq<T>, j: nat, e: nat)
    requires j < e <= |s|
    ensures s[j..e] == [s[j]] + s[j + 1..e]
  {
  }

  lemma SliceSnoc<T>(s: seq<T>, j: nat)
    requires j < |s|
    ensures s[..j + 1] == s[..j] + [s[j]]
  {
  }

  /** In a valid order the entry before position `j` is played before `s[j]`. */
  lemma StepBack(order: ShuffleOrder, j: nat)
    requires order.Valid() && j < order.Length()
    ensures order.GetPreviousIndex(order.shuffled[j]) == (if j > 0 then order.shuffled[j - 1] else INDEX_UNSET)
  {
    PermutationDistinct(order.shuffled, |order.shuffled|);
    PositionOfEntry(order.shuffled, j);
  }

  /** In a valid order the entry after position `j` is played after `s[j]`. */
  lemma StepForward(order: ShuffleOrder, j: nat)
    requires order.Valid() && j < order.Length()
    ensures order.GetNextIndex(order.shuffled[j]) == (if j + 1 < order.Length() then order.shuffled[j + 1] else INDEX_UNSET)
  {
    PermutationDistinct(order.shuffled, |order.shuffled|);
    PositionOfEntry(order.shuffled, j);
  }

  /** The tagging `for` loop and the two header updates of `recreateAndUpdatePlaylistItems`. */
  method ProjectPlaylist(recreated: seq<PlaylistItem>, playingPosition: nat) returns (shown: seq<PlaylistItem>)
    requires playingPosition < |recreated|
    ensures shown == Projection(recreated, playingPosition)
  {
    shown := recreated;
    for index := 0 to |shown|
      invariant |shown| == |recreated|
      invariant forall j :: 0 <= j < index ==>
        shown[j] == Finalize(recreated[j], j, TypeFor(j, playingPosition), recreated[j].isSelected)
      invariant forall j :: index <= j < |shown| ==> shown[j] == recreated[j]
    {
      var item := shown[index];
      var itemType := TypeFor(index, playingPosition);
      shown := shown[index := Finalize(item, index, itemType, item.isSelected)];
    }
    var hasPrevious := playingPosition > 0;
    if hasPrevious {
      shown := shown[0 := shown[0].(headerIsVisible := true)];
    }
    shown := shown[playingPosition := shown[playingPosition].(headerIsVisible := true)];
  }

  /** The `forEachIndexed` loop of `filterPlaylistItems`. */
  method FilterItems(items: seq<PlaylistItem>, filter: string) returns (filteredItems: seq<PlaylistItem>)
    ensures filteredItems == Filtered(items, filter, |items|)
  {
    filteredItems := [];
    for index := 0 to |items|
      invariant filteredItems == Filtered(items, filter, index)
    {
      var item := items[index];
      if NameMatches(item, filter) {
        filteredItems := filteredItems + [Finalize(item, index, TYPE_PREVIOUS, false)];
      }
    }
  }

  // ---------------------------------------------------------------------------
  // Editing
  // ---------------------------------------------------------------------------

  /** `removeIf { nodeHandle == handle }`: the other items, in order. */
  function RemoveHandle(items: seq<PlaylistItem>, handle: int): (rest: seq<PlaylistItem>)
    ensures |rest| <= |items|
    ensures forall x :: x in rest <==> x in items && x.nodeHandle != handle
    ensures (forall j :: 0 <= j < |items| ==> items[j].nodeHandle != handle) ==> rest == items
    ensures forall x {:trigger multiset(rest)[x]} :: multiset(rest)[x] == if x.nodeHandle == handle then 0 else multiset(items)[x]
  {
    if items == [] then []
    else
      assert items == [items[0]] + items[1..];
      (if items[0].nodeHandle == handle then [] else [items[0]]) + RemoveHandle(items[1..], handle)
  }

  /** The removal works item by item and keeps the order: it distributes over
      concatenation, and a single item stays exactly when its handle differs
      (`RemoveHandleSingle`). */
  lemma {:induction false} RemoveHandleConcat(a: seq<PlaylistItem>, b: seq<PlaylistItem>, handle: int)
    ensures RemoveHandle(a + b, handle) == RemoveHandle(a, handle) + RemoveHandle(b, handle)
  {
    if a == [] {
      assert a + b == b;
    } else {
      var ab := a + b;
      assert ab[0] == a[0];
      assert ab[1..] == a[1..] + b;
      RemoveHandleConcat(a[1..], b, handle);
    }
  }

  lemma RemoveHandleSingle(x: PlaylistItem, handle: int)
    ensures RemoveHandle([x], handle) == if x.nodeHandle == handle then [] else [x]
  {
    assert [x][1..] == [];
  }

  /** `removeIf { mediaId == handle }` on the play source, whose media items are known by
      their ids. */
  function RemoveMedia(mediaIds: seq<int>, handle: int): (rest: seq<int>)
    ensures |rest| <= |mediaIds|
    ensures forall x :: x in rest <==> x in mediaIds && x != handle
    ensures forall x :: multiset(rest)[x] == if x == handle then 0 else multiset(mediaIds)[x]
  {
    if mediaIds == [] then []
    else
      assert mediaIds == [mediaIds[0]] + mediaIds[1..];
      (if mediaIds[0] == handle then [] else [mediaIds[0]]) + RemoveMedia(mediaIds[1..], handle)
  }

  /** The play-source removal keeps the order of the other media items: it distributes
      over concatenation, and a single id stays exactly when it differs from the handle
      (`RemoveMediaSingle`). */
  lemma {:induction false} RemoveMediaConcat(a: seq<int>, b: seq<int>, handle: int)
    ensures RemoveMedia(a + b, handle) == RemoveMedia(a, handle) + RemoveMedia(b, handle)
  {
    if a == [] {
      assert a + b == b;
    } else {
      var ab := a + b;
      assert ab[0] == a[0];
      assert ab[1..] == a[1..] + b;
      RemoveMediaConcat(a[1..], b, handle);
    }
  }

  lemma RemoveMediaSingle(x: int, handle: int)
    ensures RemoveMedia([x], handle) == if x == handle then [] else [x]
  {
    assert [x][1..] == [];
  }

  /** The displayed items left by `removeSingleItem`: the removal only happens when the
      displayed position of the handle is also a position of the canonical list. */
  function Remaining(displayed: seq<PlaylistItem>, playlistItems: seq<PlaylistItem>, handle: int): seq<PlaylistItem> {
    var idx := IndexOfHandle(displayed, handle);
    if idx.Some? && idx.value < |playlistItems| then RemoveHandle(displayed, handle) else displayed
  }

  /** `item.copy(isSelected = !isSelected)` at position `i`. */
  function ToggleAt(items: seq<PlaylistItem>, i: nat): (toggled: seq<PlaylistItem>)
    requires i < |items|
    ensures |toggled| == |items| && toggled[i].isSelected == !items[i].isSelected
    ensures toggled[i] == items[i].(isSelected := toggled[i].isSelected)
    ensures forall j :: 0 <= j < |items| && j != i ==> toggled[j] == items[j]
  {
    items[i := items[i].(isSelected := !items[i].isSelected)]
  }

  /** Selecting an item twice leaves the list as it was. */
  lemma ToggleTwice(items: seq<PlaylistItem>, i: nat)
    requires i < |items|
    ensures ToggleAt(ToggleAt(items, i), i) == items
  {
  }

  /** `swapItems` on the edited list: the two items change places, but each position keeps
      its `index` field. */
  function SwapKeepingIndex(items: seq<PlaylistItem>, c: nat, t: nat): (swapped: seq<PlaylistItem>)
    requires c < |items| && t < |items|
    ensures |swapped| == |items|
    ensures forall j :: 0 <= j < |items| ==> swapped[j].index == items[j].index
    ensures swapped[c] == items[t].(index := items[c].index)
    ensures swapped[t] == items[c].(index := items[t].index)
    ensures forall j :: 0 <= j < |items| && j != c && j != t ==> swapped[j] == items[j]
  {
    seq(|items|, j requires 0 <= j < |items| =>
      if j == c then items[t].(index := items[c].index)
      else if j == t then items[c].(index := items[t].index)
      else items[j])
  }

  /** Swapping the same two positions again restores the list. */
  lemma SwapTwice(items: seq<PlaylistItem>, c: nat, t: nat)
    requires c < |items| && t < |items|
    ensures SwapKeepingIndex(SwapKeepingIndex(items, c, t), c, t) == items
  {
    var back := SwapKeepingIndex(SwapKeepingIndex(items, c, t), c, t);
    forall j | 0 <= j < |items| ensures back[j] == items[j] {
    }
  }

  /** `Collections.swap`. */
  function Swap<T>(s: seq<T>, c: nat, t: nat): (swapped: seq<T>)
    requires c < |s| && t < |s|
    ensures |swapped| == |s| && swapped[c] == s[t] && swapped[t] == s[c]
    ensures forall j :: 0 <= j < |s| && j != c && j != t ==> swapped[j] == s[j]
    ensures multiset(swapped) == multiset(s)
  {
    s[c := s[t]][t := s[c]]
  }

  /** `RepeatToggleMode`, in declaration order. */
  datatype RepeatToggleMode = REPEAT_NONE | REPEAT_ONE | REPEAT_ALL

  function Ordinal(mode: RepeatToggleMode): int {
    match mode
    case REPEAT_NONE => 0
    case REPEAT_ONE => 1
    case REPEAT_ALL => 2
  }

  /** `convertToRepeatToggleMode`: the mode with that ordinal, and "repeat all" for any
      ordinal that is not one of the first two. */
  function ConvertToRepeatToggleMode(ordinal: int): (mode: RepeatToggleMode)
    ensures mode == REPEAT_NONE <==> ordinal == Ordinal(REPEAT_NONE)
    ensures mode == REPEAT_ONE <==> ordinal == Ordinal(REPEAT_ONE)
    ensures mode == REPEAT_ALL <==> ordinal != Ordinal(REPEAT_NONE) && ordinal != Ordinal(REPEAT_ONE)
  {
    if ordinal == Ordinal(REPEAT_NONE) then REPEAT_NONE
    else if ordinal == Ordinal(REPEAT_ONE) then REPEAT_ONE
    else REPEAT_ALL
  }

  /** A saved mode reads back as itself. */
  lemma RepeatModeRoundTrip(mode: RepeatToggleMode)
    ensures ConvertToRepeatToggleMode(Ordinal(mode)) == mode
  {
  }

  /** What `recreateAndUpdatePlaylistItems` publishes for a non-empty list: the displayed
      items, the scroll target and the new playing position. */
  function Rebuild(items: seq<PlaylistItem>, playingHandle: int, shuffle: bool, order: ShuffleOrder,
                   query: Option<string>, isScroll: bool): (r: (seq<PlaylistItem>, int, nat))
    requires items != [] && order.Valid() && (shuffle ==> order.Length() == |items|)
    ensures r.2 < |items|
  {
    var (arranged, pos) := Arrange(items, playingHandle, shuffle, order);
    if SearchActive(query) then (Filtered(arranged, query.value, |arranged|), 0, pos)
    else (Projection(arranged, pos), if isScroll then pos else -1, pos)
  }

  /** Without a search the rebuilt list shows every item once, the playing item (the first
      with the playing handle, or the first item) is the only one marked playing, and the
      scroll target is its position. */
  lemma RebuildShowsPlaying(items: seq<PlaylistItem>, playingHandle: int, shuffle: bool, order: ShuffleOrder,
                            query: Option<string>, isScroll: bool)
    requires items != [] && order.Valid() && (shuffle ==> order.Length() == |items|)
    requires !SearchActive(query)
    ensures var (shown, scroll, pos) := Rebuild(items, playingHandle, shuffle, order, query, isScroll);
      |shown| == |items|
      && shown[pos].nodeHandle == items[PlayingPositionOf(items, playingHandle)].nodeHandle
      && (forall j :: 0 <= j < |shown| ==> (shown[j].itemType == TYPE_PLAYING <==> j == pos))
      && scroll == (if isScroll then pos else -1)
      && (forall i :: 0 <= i < |items| ==> exists j :: 0 <= j < |shown| && shown[j].nodeHandle == items[i].nodeHandle)
  {
    var (arranged, pos) := Arrange(items, playingHandle, shuffle, order);
    var shown := Projection(arranged, pos);
    forall i | 0 <= i < |items| ensures exists j :: 0 <= j < |shown| && shown[j].nodeHandle == items[i].nodeHandle {
      assert items[i] in multiset(arranged);
      var t :| 0 <= t < |arranged| && arranged[t] == items[i];
      assert shown[t].nodeHandle == items[i].nodeHandle;
    }
  }

  /** A rebuilt list shows no handle that the items did not have. */
  lemma RebuildKeepsOut(items: seq<PlaylistItem>, playingHandle: int, shuffle: bool, order: ShuffleOrder,
                        query: Option<string>, isScroll: bool, handle: int)
    requires items != [] && order.Valid() && (shuffle ==> order.Length() == |items|)
    requires forall x :: x in items ==> x.nodeHandle != handle
    ensures var shown := Rebuild(items, playingHandle, shuffle, order, query, isScroll).0;
      forall j :: 0 <= j < |shown| ==> shown[j].nodeHandle != handle
  {
    var (arranged, pos) := Arrange(items, playingHandle, shuffle, order);
    forall x | x in arranged ensures x.nodeHandle != handle {
      assert x in multiset(arranged);
    }
    if SearchActive(query) {
      var kept := Filtered(arranged, query.value, |arranged|);
      forall j | 0 <= j < |kept| ensures kept[j].nodeHandle != handle {
        assert arranged[kept[j].index] in arranged;
      }
    }
  }

  /** After a removal that happened, the rebuilt list shows the removed handle nowhere. */
  lemma RemovedHandleNotShown(displayed: seq<PlaylistItem>, playlistItems: seq<PlaylistItem>, handle: int,
                              playingHandle: int, shuffle: bool, order: ShuffleOrder, query: Option<string>)
    requires var idx := IndexOfHandle(displayed, handle); idx.Some? && idx.value < |playlistItems|
    requires var rest := Remaining(displayed, playlistItems, handle);
      rest != [] && order.Valid() && (shuffle ==> order.Length() == |rest|)
    ensures var shown := Rebuild(Remaining(displayed, playlistItems, handle), playingHandle, shuffle, order, query, true).0;
      forall j :: 0 <= j < |shown| ==> shown[j].nodeHandle != handle
  {
    RebuildKeepsOut(Remaining(displayed, playlistItems, handle), playingHandle, shuffle, order, query, true, handle);
  }

  /** Each item is selected exactly when its handle is in the selection map, and every
      handle in the map belongs to an item. */
  predicate SelectionMatches(items: seq<PlaylistItem>, selected: map<int, PlaylistItem>) {
    (forall j :: 0 <= j < |items| ==> (items[j].nodeHandle in selected <==> items[j].isSelected))
    && (forall h :: h in selected ==> exists j :: 0 <= j < |items| && items[j].nodeHandle == h)
  }

  /** Toggling one item and adding its handle to the map (when it becomes selected) or
      removing it (when it stops being selected) keeps list and map in step, as long as no
      two items share a handle. */
  lemma ToggleKeepsSelectionMatched(items: seq<PlaylistItem>, selected: map<int, PlaylistItem>, i: nat)
    requires i < |items| && HandlesDistinct(items) && SelectionMatches(items, selected)
    ensures var handle := items[i].nodeHandle;
      SelectionMatches(ToggleAt(items, i),
        if !items[i].isSelected then selected[handle := items[i]] else selected - {handle})
  {
    var handle := items[i].nodeHandle;
    var toggled := ToggleAt(items, i);
    var after := if !items[i].isSelected then selected[handle := items[i]] else selected - {handle};
    forall h | h in after ensures exists j :: 0 <= j < |toggled| && toggled[j].nodeHandle == h {
      if h == handle {
        assert toggled[i].nodeHandle == h;
      } else {
        var j :| 0 <= j < |items| && items[j].nodeHandle == h;
        assert toggled[j].nodeHandle == h;
      }
    }
  }

  class MediaPlayerServiceViewModel {
    /** The canonical items, in play-source order. */
    var playlistItems: seq<PlaylistItem>
    /** `playlistItemsFlow`: the displayed items and the position to scroll to. */
    var displayed: seq<PlaylistItem>
    var scrollPosition: int
    var playingHandle: int
    var playingPosition: int
    var shuffleEnabled: bool
    var shuffleOrder: ShuffleOrder
    var playlistSearchQuery: Option<string>
    var itemsSelectedMap: map<int, PlaylistItem>
    var itemsSelectedCount: int
    var playerRetry: int
    var retry: Option<bool>
    /** The media ids of the current play source, when there is one. */
    var playerSource: Option<seq<int>>
    var playSourceChanged: seq<int>
    var playlistItemsChanged: seq<PlaylistItem>
    /** The last position emitted on `mediaItemToRemove`. */
    var mediaItemToRemove: Option<int>
    var error: Option<int>

    /** Each displayed item is selected exactly when its handle is in the selection map,
        and every handle in the map is displayed. */
    predicate SelectionConsistent()
      reads this
    {
      SelectionMatches(displayed, itemsSelectedMap)
    }

    constructor (shuffleEnabled: bool)
      ensures playlistItems == [] && displayed == [] && scrollPosition == 0
      ensures playingHandle == INVALID_HANDLE && playingPosition == 0
      ensures this.shuffleEnabled == shuffleEnabled && shuffleOrder == ShuffleOrder([]) && shuffleOrder.Valid()
      ensures playlistSearchQuery.None? && itemsSelectedMap == map[] && playerRetry == 0 && retry.None?
      ensures SelectionConsistent()
    {
      playlistItems := [];
      displayed := [];
      scrollPosition := 0;
      playingHandle := INVALID_HANDLE;
      playingPosition := 0;
      this.shuffleEnabled := shuffleEnabled;
      shuffleOrder := ShuffleOrder([]);
      playlistSearchQuery := None;
      itemsSelectedMap := map[];
      itemsSelectedCount := 0;
      playerRetry := 0;
      retry := None;
      playerSource := None;
      playSourceChanged := [];
      playlistItemsChanged := [];
      mediaItemToRemove := None;
      error := None;
      assert Range(0) == [];
    }

    /** `recreateAndUpdatePlaylistItems`: nothing for an empty list; otherwise the list is
        arranged (along the shuffle order only when asked to build play sources, shuffle is
        on and the order covers the list), then either filtered by the active query with
        scroll target 0, or tagged, with the playing position as scroll target (or -1 when
        not scrolling). */
    method RecreateAndUpdatePlaylistItems(items: seq<PlaylistItem>, isScroll: bool, isBuildPlaySources: bool)
      requires shuffleOrder.Valid()
      modifies this`displayed, this`scrollPosition, this`playingPosition
      ensures items == [] ==>
        displayed == old(displayed) && scrollPosition == old(scrollPosition) && playingPosition == old(playingPosition)
      ensures items != [] ==>
        (displayed, scrollPosition, playingPosition) == Rebuild(items, playingHandle,
          isBuildPlaySources && shuffleEnabled && shuffleOrder.Length() == |items|, shuffleOrder, playlistSearchQuery, isScroll)
    {
      if items == [] {
        return;
      }
      playingPosition := PlayingPositionOf(items, playingHandle);
      var recreatedItems: seq<PlaylistItem>;
      if isBuildPlaySources && shuffleEnabled && shuffleOrder.Length() == |items| {
        var newPlayingIndex;
        recreatedItems, newPlayingIndex := WalkShuffleChain(items, shuffleOrder, playingPosition);
        ArrangeAlongOrder(items, playingHandle, shuffleOrder);
        playingPosition := newPlayingIndex;
      } else {
        recreatedItems := items;
      }
      var searchQuery := playlistSearchQuery;
      if SearchActive(searchQuery) {
        FilterPlaylistItems(recreatedItems, searchQuery.value);
        return;
      }
      recreatedItems := ProjectPlaylist(recreatedItems, playingPosition);
      var scroll := playingPosition;
      if !isScroll {
        scroll := -1;
      }
      displayed := recreatedItems;
      scrollPosition := scroll;
    }

    /** `filterPlaylistItems`: publishes the matching items with scroll target 0. */
    method FilterPlaylistItems(items: seq<PlaylistItem>, filter: string)
      modifies this`displayed, this`scrollPosition
      ensures items == [] ==> displayed == old(displayed) && scrollPosition == old(scrollPosition)
      ensures items != [] ==> displayed == Filtered(items, filter, |items|) && scrollPosition == 0
    {
      if items == [] {
        return;
      }
      var filteredItems := FilterItems(items, filter);
      displayed := filteredItems;
      scrollPosition := 0;
    }

    /** `searchQueryUpdate`: the new query, applied to the displayed list without
        rebuilding the play order. */
    method SearchQueryUpdate(newText: Option<string>)
      requires shuffleOrder.Valid()
      modifies this`playlistSearchQuery, this`displayed, this`scrollPosition, this`playingPosition
      ensures playlistSearchQuery == newText
      ensures old(displayed) == [] ==> displayed == [] && unchanged(this`scrollPosition, this`playingPosition)
      ensures old(displayed) != [] ==>
        (displayed, scrollPosition, playingPosition) == Rebuild(old(displayed), playingHandle, false, shuffleOrder, newText, true)
    {
      playlistSearchQuery := newText;
      RecreateAndUpdatePlaylistItems(displayed, true, false);
    }

    /** `initPlayerSourceChanged`: start the edited play source from the current one. */
    method InitPlayerSourceChanged()
      modifies this`playSourceChanged
      ensures playSourceChanged ==
        (if old(playSourceChanged) == [] && playerSource.Some? then playerSource.value else old(playSourceChanged))
    {
      if playSourceChanged == [] {
        if playerSource.Some? {
          playSourceChanged := playerSource.value;
        }
      }
    }

    /** `removeSingleItem`: when the handle's displayed position is also a position of the
        canonical list, the position is emitted for removal and every entry with that
        handle leaves the displayed copy, the canonical list and the edited play source.
        Returns the displayed items left. */
    method RemoveSingleItem(handle: int) returns (newItems: seq<PlaylistItem>)
      modifies this`playlistItems, this`playSourceChanged, this`mediaItemToRemove
      ensures newItems == Remaining(old(displayed), old(playlistItems), handle)
      ensures var idx := IndexOfHandle(displayed, handle);
        if idx.Some? && idx.value < |old(playlistItems)| then
          playlistItems == RemoveHandle(old(playlistItems), handle)
          && playSourceChanged == RemoveMedia(old(playSourceChanged), handle)
          && mediaItemToRemove == Some(idx.value)
        else
          playlistItems == old(playlistItems) && playSourceChanged == old(playSourceChanged)
          && mediaItemToRemove == old(mediaItemToRemove)
    {
      var items := displayed;
      newItems := items;
      var idx := IndexOfHandle(items, handle);
      if idx.Some? && idx.value < |playlistItems| {
        mediaItemToRemove := Some(idx.value);
        newItems := RemoveHandle(newItems, handle);
        playlistItems := RemoveHandle(playlistItems, handle);
        playSourceChanged := RemoveMedia(playSourceChanged, handle);
      }
    }

    /** The end of `removeItem`, once the handle has left the lists: with items left the
        retry state is reset and the playlist rebuilt from them; with none left the
        displayed list is emptied and `API_ENOENT` is posted. */
    method ShowRemaining(newItems: seq<PlaylistItem>)
      requires shuffleOrder.Valid()
      modifies this`displayed, this`scrollPosition, this`playingPosition, this`playerRetry, this`retry, this`error
      ensures newItems == [] ==>
        displayed == [] && scrollPosition == 0 && error == Some(API_ENOENT)
        && playerRetry == old(playerRetry) && retry == old(retry) && playingPosition == old(playingPosition)
      ensures newItems != [] ==>
        playerRetry == 0 && retry == Some(true) && error == old(error)
        && (displayed, scrollPosition, playingPosition) == Rebuild(newItems, playingHandle,
             shuffleEnabled && shuffleOrder.Length() == |newItems|, shuffleOrder, playlistSearchQuery, true)
    {
      if newItems != [] {
        ResetRetryState();
        RecreateAndUpdatePlaylistItems(newItems, true, true);
      } else {
        displayed := [];
        scrollPosition := 0;
        error := Some(API_ENOENT);
      }
    }

    /** `removeItem`: with items left the retry state is reset and the playlist is
        rebuilt from them; with none left the displayed list is emptied and `API_ENOENT`
        is posted. A removed handle is displayed nowhere afterwards. */
    method RemoveItem(handle: int)
      requires shuffleOrder.Valid()
      modifies this`playlistItems, this`playSourceChanged, this`mediaItemToRemove, this`displayed,
        this`scrollPosition, this`playingPosition, this`playerRetry, this`retry, this`error
      ensures var rest := Remaining(old(displayed), old(playlistItems), handle);
        (rest == [] ==> displayed == [] && scrollPosition == 0 && error == Some(API_ENOENT))
        && (rest == [] ==>
              playerRetry == old(playerRetry) && retry == old(retry) && playingPosition == old(playingPosition))
        && (rest != [] ==>
              playerRetry == 0 && retry == Some(true) && error == old(error)
              && (displayed, scrollPosition, playingPosition) == Rebuild(rest, playingHandle,
                   shuffleEnabled && shuffleOrder.Length() == |rest|, shuffleOrder, playlistSearchQuery, true))
      ensures var source :=
          if old(playSourceChanged) == [] && playerSource.Some? then playerSource.value else old(playSourceChanged);
        var idx := IndexOfHandle(old(displayed), handle);
        if idx.Some? && idx.value < |old(playlistItems)| then
          playlistItems == RemoveHandle(old(playlistItems), handle)
          && playSourceChanged == RemoveMedia(source, handle)
          && mediaItemToRemove == Some(idx.value)
        else
          playlistItems == old(playlistItems) && playSourceChanged == source
          && mediaItemToRemove == old(mediaItemToRemove)
    {
      ghost var rest := Remaining(displayed, playlistItems, handle);
      ghost var idx := IndexOfHandle(displayed, handle);
      ghost var canonical, pending := playlistItems, mediaItemToRemove;
      InitPlayerSourceChanged();
      ghost var source := playSourceChanged;
      var newItems := RemoveSingleItem(handle);
      assert newItems == rest;
      ghost var removed := (playlistItems, playSourceChanged, mediaItemToRemove);
      assert idx.Some? && idx.value < |canonical| ==>
        removed.0 == RemoveHandle(canonical, handle) && removed.1 == RemoveMedia(source, handle)
        && removed.2.Some? && removed.2.value == idx.value;
      assert !(idx.Some? && idx.value < |canonical|) ==>
        removed.0 == canonical && removed.1 == source && removed.2 == pending;
      ShowRemaining(newItems);
      assert (playlistItems, playSourceChanged, mediaItemToRemove) == removed;
    }

    /** `itemSelected`: toggles the selection of the first displayed item with that handle;
        the handle is in the selection map exactly when that item is now selected (the map
        keeps the item as it was before the toggle), and the count is the map's size. */
    method ItemSelected(handle: int)
      modifies this`displayed, this`itemsSelectedMap, this`itemsSelectedCount
      ensures var idx := IndexOfHandle(old(displayed), handle);
        if idx.None? then
          displayed == old(displayed) && itemsSelectedMap == old(itemsSelectedMap)
          && itemsSelectedCount == old(itemsSelectedCount)
        else
          var i := idx.value;
          displayed == ToggleAt(old(displayed), i)
          && itemsSelectedMap == (if displayed[i].isSelected then old(itemsSelectedMap)[handle := old(displayed)[i]]
                                  else old(itemsSelectedMap) - {handle})
          && (handle in itemsSelectedMap <==> displayed[i].isSelected)
          && itemsSelectedCount == |itemsSelectedMap|
      ensures old(SelectionConsistent()) && HandlesDistinct(old(displayed)) ==> SelectionConsistent()
    {
      var idx := IndexOfHandle(displayed, handle);
      if idx.Some? {
        var selectedIndex := idx.value;
        var item := displayed[selectedIndex];
        var items := ToggleAt(displayed, selectedIndex);
        ghost var oldMap := itemsSelectedMap;
        if items[selectedIndex].isSelected {
          itemsSelectedMap := itemsSelectedMap[handle := item];
        } else {
          itemsSelectedMap := itemsSelectedMap - {handle};
        }
        itemsSelectedCount := |itemsSelectedMap|;
        assert itemsSelectedMap == (if items[selectedIndex].isSelected then oldMap[handle := item] else oldMap - {handle});
        assert handle in itemsSelectedMap <==> items[selectedIndex].isSelected;
        if SelectionMatches(displayed, oldMap) && HandlesDistinct(displayed) {
          ToggleKeepsSelectionMatched(displayed, oldMap, selectedIndex);
        }
        displayed := items;
      }
    }

    /** `swapItems`: the edited list (started from the displayed one) and the edited play
        source (started from the current one) swap the two positions; each position of the
        edited list keeps its `index` field. */
    method SwapItems(current: nat, target: nat)
      requires var list := if playlistItemsChanged == [] then displayed else playlistItemsChanged;
        current < |list| && target < |list|
      requires var source := if playSourceChanged == [] && playerSource.Some? then playerSource.value else playSourceChanged;
        current < |source| && target < |source|
      modifies this`playlistItemsChanged, this`playSourceChanged
      ensures playlistItemsChanged ==
        SwapKeepingIndex(if old(playlistItemsChanged) == [] then displayed else old(playlistItemsChanged), current, target)
      ensures playSourceChanged == Swap(
        if old(playSourceChanged) == [] && playerSource.Some? then playerSource.value else old(playSourceChanged),
        current, target)
    {
      if playlistItemsChanged == [] {
        playlistItemsChanged := displayed;
      }
      ghost var before := playlistItemsChanged;
      playlistItemsChanged := Swap(playlistItemsChanged, current, target);
      var index := playlistItemsChanged[current].index;
      playlistItemsChanged := playlistItemsChanged[current := playlistItemsChanged[current].(index := playlistItemsChanged[target].index)];
      playlistItemsChanged := playlistItemsChanged[target := playlistItemsChanged[target].(index := index)];
      assert playlistItemsChanged == SwapKeepingIndex(before, current, target);
      InitPlayerSourceChanged();
      playSourceChanged := Swap(playSourceChanged, current, target);
    }

    /** `onPlayerError`: one more error; retrying is allowed up to `MAX_RETRY` errors. */
    method OnPlayerError()
      modifies this`playerRetry, this`retry
      ensures playerRetry == old(playerRetry) + 1
      ensures retry == Some(playerRetry <= MAX_RETRY)
    {
      playerRetry := playerRetry + 1;
      retry := Some(playerRetry <= MAX_RETRY);
    }

    /** `resetRetryState`. */
    method ResetRetryState()
      modifies this`playerRetry, this`retry
      ensures playerRetry == 0 && retry == Some(true)
    {
      playerRetry := 0;
      retry := Some(true);
    }

    /** `onShuffleChanged`: the new order is kept, and the playlist is rebuilt along it when
        shuffle is on and the order covers the canonical list. */
    method OnShuffleChanged(newShuffle: ShuffleOrder)
      requires newShuffle.Valid()
      modifies this`shuffleOrder, this`displayed, this`scrollPosition, this`playingPosition
      ensures shuffleOrder == newShuffle
      ensures !(shuffleEnabled && newShuffle.Length() != 0 && newShuffle.Length() == |playlistItems|) ==>
        displayed == old(displayed) && scrollPosition == old(scrollPosition) && playingPosition == old(playingPosition)
      ensures shuffleEnabled && newShuffle.Length() != 0 && newShuffle.Length() == |playlistItems| ==>
        (displayed, scrollPosition, playingPosition) == Rebuild(playlistItems, playingHandle, true, newShuffle, playlistSearchQuery, true)
    {
      shuffleOrder := newShuffle;
      if shuffleEnabled && shuffleOrder.Length() != 0 && shuffleOrder.Length() == |playlistItems| {
        RecreateAndUpdatePlaylistItems(playlistItems, true, true);
      }
    }
  }

  /** No two items share a handle. */
  predicate HandlesDistinct(items: seq<PlaylistItem>) {
    forall i, j :: 0 <= i < j < |items| ==> items[i].nodeHandle != items[j].nodeHandle
  }

  /** After a reset, `n` player errors leave the retry flag set exactly when `n` is at
      most `MAX_RETRY`. */
  method ErrorsAfterReset(vm: MediaPlayerServiceViewModel, n: nat)
    modifies vm`playerRetry, vm`retry
    ensures vm.playerRetry == n && vm.retry == Some(n <= MAX_RETRY)
  {
    vm.ResetRetryState();
    var i := 0;
    while i < n
      invariant 0 <= i <= n && vm.playerRetry == i && vm.retry == Some(i <= MAX_RETRY)
    {
      vm.OnPlayerError();
      i := i + 1;
    }
  }
}
