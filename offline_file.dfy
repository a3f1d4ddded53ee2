/** `DefaultGetOfflineFile`: the local path of a node saved for offline use, built by
    joining a root directory and the node's path components with the file separator. */
module OfflineFile {
  import opened Common

  /** `File.separator` on Android. */
  const SEPARATOR: string := "/"

  /** The three kinds of offline node information, each with the components it joins. */
  datatype OfflineNodeInformation =
    | InboxOfflineNodeInformation(path: string, name: string)
    | IncomingShareOfflineNodeInformation(incomingHandle: string, path: string, name: string)
    | OtherOfflineNodeInformation(path: string, name: string)

  /** `c` contains no separator character. */
  predicate NoSeparator(c: string) {
    forall i :: 0 <= i < |c| ==> c[i] != '/'
  }

  /** `filterNot { it == File.separator }`: drops the components that are exactly the
      separator and keeps every other one, empty ones included, in order. */
  function DropSeparators(paths: seq<string>): (kept: seq<string>)
    ensures |kept| <= |paths|
    ensures forall c :: c in kept <==> c in paths && c != SEPARATOR
    ensures (forall i :: 0 <= i < |paths| ==> paths[i] != SEPARATOR) ==> kept == paths
    ensures forall c {:trigger multiset(kept)[c]} ::
      multiset(kept)[c] == if c == SEPARATOR then 0 else multiset(paths)[c]
  {
    if paths == [] then []
    else
      assert paths == [paths[0]] + paths[1..];
      (if paths[0] == SEPARATOR then [] else [paths[0]]) + DropSeparators(paths[1..])
  }

  /** The filter keeps the order of the components: it distributes over concatenation,
      and a single component stays exactly when it is not the separator
      (`DropSeparatorsSingle`). */
  lemma {:induction false} DropSeparatorsConcat(a: seq<string>, b: seq<string>)
    ensures DropSeparators(a + b) == DropSeparators(a) + DropSeparators(b)
  {
    if a == [] {
      assert a + b == b;
    } else {
      var ab := a + b;
      assert ab[0] == a[0];
      assert ab[1..] == a[1..] + b;
      DropSeparatorsConcat(a[1..], b);
    }
  }

  lemma DropSeparatorsSingle(c: string)
    ensures DropSeparators([c]) == if c == SEPARATOR then [] else [c]
  {
    assert [c][1..] == [];
  }

  /** `getFile(vararg paths)`: the path string handed to `java.io.File`: the kept
      components joined by the separator, so it starts with the first kept component and
      ends with the last one, and is empty when none is kept. */
  function GetFile(paths: seq<string>): (path: string)
    ensures DropSeparators(paths) == [] ==> path == ""
    ensures var kept := DropSeparators(paths);
      kept != [] ==> |kept[0]| <= |path| && path[..|kept[0]|] == kept[0]
    ensures var kept := DropSeparators(paths);
      kept != [] ==> |kept[|kept| - 1]| <= |path| && path[|path| - |kept[|kept| - 1]|..] == kept[|kept| - 1]
  {
    var kept := DropSeparators(paths);
    JoinEndsWithLast(kept, SEPARATOR);
    Join(kept, SEPARATOR)
  }

  /** The path built from a root, middle components and a name, none of the root and name
      being the separator itself: it starts with the root and ends with the name. */
  lemma {:induction false} GetFileEnds(root: string, middle: seq<string>, name: string)
    ensures var path := GetFile([root] + middle + [name]);
      root != SEPARATOR ==> |root| <= |path| && path[..|root|] == root
    ensures var path := GetFile([root] + middle + [name]);
      name != SEPARATOR ==> |name| <= |path| && path[|path| - |name|..] == name
  {
    DropSeparatorsConcat([root] + middle, [name]);
    DropSeparatorsConcat([root], middle);
    DropSeparatorsSingle(root);
    DropSeparatorsSingle(name);
  }

  /** `invoke`: dispatch on the kind of offline node information. The path starts with
      the inbox root for inbox nodes and with the offline root otherwise, and ends with
      the node's name (each when it is not the bare separator, which the filter drops). */
  function GetOfflineFile(info: OfflineNodeInformation, offlinePath: string, offlineInboxPath: string)
    : (path: string)
    ensures info.InboxOfflineNodeInformation? && offlineInboxPath != SEPARATOR ==>
      |offlineInboxPath| <= |path| && path[..|offlineInboxPath|] == offlineInboxPath
    ensures !info.InboxOfflineNodeInformation? && offlinePath != SEPARATOR ==>
      |offlinePath| <= |path| && path[..|offlinePath|] == offlinePath
    ensures info.name != SEPARATOR ==>
      |info.name| <= |path| && path[|path| - |info.name|..] == info.name
  {
    match info
    case InboxOfflineNodeInformation(path, name) =>
      assert [offlineInboxPath, path, name] == [offlineInboxPath] + [path] + [name];
      GetFileEnds(offlineInboxPath, [path], name);
      GetFile([offlineInboxPath, path, name])
    case IncomingShareOfflineNodeInformation(handle, path, name) =>
      assert [offlinePath, handle, path, name] == [offlinePath] + [handle, path] + [name];
      GetFileEnds(offlinePath, [handle, path], name);
      GetFile([offlinePath, handle, path, name])
    case OtherOfflineNodeInformation(path, name) =>
      assert [offlinePath, path, name] == [offlinePath] + [path] + [name];
      GetFileEnds(offlinePath, [path], name);
      GetFile([offlinePath, path, name])
  }

  /** The inbox case joins the inbox root, path and name; the incoming-share case joins
      the offline root, the incoming handle, path and name; every other case joins the
      offline root, path and name: in that order, one separator between each. */
  lemma GetOfflineFileOrder(info: OfflineNodeInformation, offlinePath: string, offlineInboxPath: string)
    requires offlinePath != SEPARATOR && offlineInboxPath != SEPARATOR
    requires info.path != SEPARATOR && info.name != SEPARATOR
    requires info.IncomingShareOfflineNodeInformation? ==> info.incomingHandle != SEPARATOR
    ensures info.InboxOfflineNodeInformation? ==>
      GetOfflineFile(info, offlinePath, offlineInboxPath)
        == offlineInboxPath + "/" + info.path + "/" + info.name
    ensures info.IncomingShareOfflineNodeInformation? ==>
      GetOfflineFile(info, offlinePath, offlineInboxPath)
        == offlinePath + "/" + info.incomingHandle + "/" + info.path + "/" + info.name
    ensures info.OtherOfflineNodeInformation? ==>
      GetOfflineFile(info, offlinePath, offlineInboxPath)
        == offlinePath + "/" + info.path + "/" + info.name
  {
    match info
    case InboxOfflineNodeInformation(path, name) => GetFileThree(offlineInboxPath, path, name);
    case IncomingShareOfflineNodeInformation(handle, path, name) =>
      GetFileFour(offlinePath, handle, path, name);
    case OtherOfflineNodeInformation(path, name) => GetFileThree(offlinePath, path, name);
  }

  /** With no component equal to the separator, the three-component cases put exactly
      one separator between consecutive components, in order. */
  lemma GetFileThree(a: string, b: string, c: string)
    requires a != SEPARATOR && b != SEPARATOR && c != SEPARATOR
    ensures GetFile([a, b, c]) == a + "/" + b + "/" + c
  {
    var xs := [a, b, c];
    assert forall i :: 0 <= i < |xs| ==> xs[i] != SEPARATOR;
    assert DropSeparators(xs) == xs;
    JoinTwo(b, c);
    assert xs[1..] == [b, c];
    calc {
      Join(xs, "/");
      a + "/" + Join([b, c], "/");
      a + "/" + (b + "/" + c);
    }
  }

  lemma GetFileFour(a: string, b: string, c: string, d: string)
    requires a != SEPARATOR && b != SEPARATOR && c != SEPARATOR && d != SEPARATOR
    ensures GetFile([a, b, c, d]) == a + "/" + b + "/" + c + "/" + d
  {
    var xs, rest := [a, b, c, d], [b, c, d];
    assert forall i :: 0 <= i < |xs| ==> xs[i] != SEPARATOR;
    assert forall i :: 0 <= i < |rest| ==> rest[i] != SEPARATOR;
    assert DropSeparators(xs) == xs;
    assert DropSeparators(rest) == rest;
    assert xs == [a] + rest;
    GetFileThree(b, c, d);
    var tail := b + "/" + c + "/" + d;
    assert Join(rest, "/") == tail;
    JoinCons(a, rest);
    assert Join(xs, "/") == a + "/" + tail;
  }

  /** A component in front of a non-empty list: one separator after it. */
  lemma JoinCons(a: string, rest: seq<string>)
    requires rest != []
    ensures Join([a] + rest, "/") == a + "/" + Join(rest, "/")
  {
    assert ([a] + rest)[1..] == rest;
  }

  /** Two components joined: one separator between them. */
  lemma JoinTwo(b: string, c: string)
    ensures Join([b, c], "/") == b + "/" + c
  {
    assert [b, c][1..] == [c];
  }

  /** A component that is exactly the separator is dropped, not doubled. */
  lemma GetFileDropsSeparator(a: string, b: string)
    requires a != SEPARATOR && b != SEPARATOR
    ensures GetFile([a, SEPARATOR, b]) == a + "/" + b
  {
    assert [a, SEPARATOR, b][1..] == [SEPARATOR, b];
    assert [SEPARATOR, b][1..] == [b];
    assert DropSeparators([a, SEPARATOR, b]) == [a, b];
    assert [a, b][1..] == [b];
    assert Join([b], "/") == b;
  }

  /** Splitting `a + "/" + rest` at '/' when `a` holds no '/' yields `a`, then `rest`'s pieces. */
  lemma SplitAtFirstSeparator(a: string, rest: string)
    requires NoSeparator(a)
    ensures Split(a + "/" + rest, "/") == [a] + Split(rest, "/")
  {
    var s := a + "/" + rest;
    assert OccursAt(s, "/", |a|) by { assert s[|a|..|a| + 1] == "/"; }
    var r := IndexOf(s, "/");
    assert r.Some?;
    forall j | 0 <= j < |a| ensures !OccursAt(s, "/", j) {
      assert s[j..j + 1][0] == s[j] == a[j];
    }
    assert r.value == |a|;
    assert s[..|a|] == a;
    assert s[|a| + 1..] == rest;
  }

  /** The joined path can be split back into its components, as long as none of them
      contains the separator: `getFile` loses nothing for such components. */
  lemma {:induction false} GetFileSplits(paths: seq<string>)
    requires 0 < |paths|
    requires forall i :: 0 <= i < |paths| ==> NoSeparator(paths[i])
    ensures Split(GetFile(paths), "/") == paths
    decreases |paths|
  {
    forall i | 0 <= i < |paths| ensures paths[i] != SEPARATOR {
      assert NoSeparator(paths[i]);
      assert SEPARATOR[0] == '/' && !NoSeparator(SEPARATOR);
    }
    assert DropSeparators(paths) == paths;
    if |paths| == 1 {
      var s := paths[0];
      forall j | 0 <= j < |s| ensures !OccursAt(s, "/", j) {
        assert NoSeparator(s);
        if j + 1 <= |s| { assert s[j..j + 1][0] == s[j]; }
      }
      assert IndexOf(s, "/").None?;
    } else {
      var tail := paths[1..];
      forall i | 0 <= i < |tail| ensures NoSeparator(tail[i]) {
        assert tail[i] == paths[i + 1];
      }
      GetFileSplits(tail);
      forall i | 0 <= i < |tail| ensures tail[i] != SEPARATOR {
        assert tail[i] == paths[i + 1];
      }
      assert DropSeparators(tail) == tail;
      assert GetFile(paths) == paths[0] + "/" + GetFile(tail);
      SplitAtFirstSeparator(paths[0], GetFile(tail));
      assert [paths[0]] + tail == paths;
    }
  }
}
