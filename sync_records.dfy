/** `DefaultSaveSyncRecordsToDB`: before camera uploads start, each candidate record is
    checked against the database (an older record with the same fingerprint is replaced,
    a newer or equal one wins), records whose local file vanished are dropped, and the
    rest get a cloud file name that is free both under the upload folder and in the
    database, plus a temporary path, and are saved. */
module SyncRecords {
  import opened Common

  /** The fields of `SyncRecord` this use case reads or writes. */
  datatype SyncRecord = SyncRecord(
    localPath: Option<string>,
    newPath: Option<string>,
    originFingerprint: Option<string>,
    fileName: Option<string>,
    timestamp: Option<int>,
    isSecondary: bool,
    isCopyOnly: bool)

  // ---------------------------------------------------------------------------
  // Device file names with an index
  // ---------------------------------------------------------------------------

  /** `String.lastIndexOf(c)`: -1 when `c` does not occur. */
  function LastIndexOf(s: string, c: char): (pos: int)
    ensures -1 <= pos < |s|
    ensures pos >= 0 ==> s[pos] == c
    ensures forall j :: pos < j < |s| ==> s[j] != c
  {
    if s == [] then -1
    else if s[|s| - 1] == c then |s| - 1
    else LastIndexOf(s[..|s| - 1], c)
  }

  /** The last occurrence is pinned down by its two properties. */
  lemma LastIndexOfUnique(s: string, c: char, pos: int)
    requires -1 <= pos < |s|
    requires pos >= 0 ==> s[pos] == c
    requires forall j :: pos < j < |s| ==> s[j] != c
    ensures LastIndexOf(s, c) == pos
  {
  }

  /** Position of the last '.' of a nullable name, -1 for none or null. */
  function DotPosition(fileName: Option<string>): int {
    if fileName.None? then -1 else LastIndexOf(fileName.value, '.')
  }

  /** `getNoneDuplicatedDeviceFileName`: index 0 keeps the name (null included); any other
      index is inserted as `_index` before the extension, which starts at the last '.'.
      When that '.' is missing or first, or the name is null, only `_index` is left. */
  function NoneDuplicatedDeviceFileName(fileName: Option<string>, index: nat): (r: Option<string>)
    ensures index == 0 ==> r == fileName
    ensures index > 0 ==> r.Some?
    ensures index > 0 && DotPosition(fileName) <= 0 ==> r == Some("_" + NatToString(index))
    ensures index > 0 && DotPosition(fileName) > 0 ==>
      |r.value| == |fileName.value| + 1 + |NatToString(index)|
    ensures index > 0 && DotPosition(fileName) > 0 ==>
      var pos := DotPosition(fileName);
      r.value[..pos] == fileName.value[..pos]
      && r.value[pos..pos + 1 + |NatToString(index)|] == "_" + NatToString(index)
      && r.value[pos + 1 + |NatToString(index)|..] == fileName.value[pos..]
  {
    if index == 0 then fileName
    else
      var pos := DotPosition(fileName);
      var name := if pos > 0 then fileName.value[..pos] else "";
      var extension := if pos > 0 then fileName.value[pos..] else "";
      var r := name + "_" + NatToString(index) + extension;
      assert pos > 0 ==> r[pos..pos + 1 + |NatToString(index)|] == "_" + NatToString(index);
      assert pos <= 0 ==> r == "_" + NatToString(index);
      Some(r)
  }

  /** The indexed name of a file with an extension: taking `_index` out gives back the
      original name, and the extension is still the part from the last '.'. */
  lemma IndexedNameRoundTrip(fileName: string, index: nat)
    requires index > 0 && LastIndexOf(fileName, '.') > 0
    ensures var r := NoneDuplicatedDeviceFileName(Some(fileName), index).value;
      var pos := LastIndexOf(fileName, '.');
      var digits := NatToString(index);
      r[..pos] + r[pos + 1 + |digits|..] == fileName
      && LastIndexOf(r, '.') == pos + 1 + |digits|
  {
    var r := NoneDuplicatedDeviceFileName(Some(fileName), index).value;
    var pos := LastIndexOf(fileName, '.');
    SpliceBeforeLastDot(fileName, r, pos, pos + 1 + |NatToString(index)|);
  }

  /** A name whose head up to the last '.' and whose tail from it are kept around some
      inserted text: dropping that text gives the name back, and the '.' is still last. */
  lemma SpliceBeforeLastDot(f: string, r: string, pos: int, k: int)
    requires 0 <= pos < |f| && f[pos] == '.'
    requires forall j :: pos < j < |f| ==> f[j] != '.'
    requires pos <= k <= |r| && r[..pos] == f[..pos] && r[k..] == f[pos..]
    ensures r[..pos] + r[k..] == f && LastIndexOf(r, '.') == k
  {
    assert f[..pos] + f[pos..] == f;
    assert r[k] == '.' by {
      assert r[k..][0] == f[pos..][0];
    }
    forall j | k < j < |r| ensures r[j] != '.' {
      assert r[j] == r[k..][j - k] == f[pos..][j - k];
    }
    LastIndexOfUnique(r, '.', k);
  }

  /** `_index` with the name's stem and extension around it, for any index. */
  function IndexedCandidate(fileName: Option<string>, index: nat): string {
    var pos := DotPosition(fileName);
    var name := if pos > 0 then fileName.value[..pos] else "";
    var extension := if pos > 0 then fileName.value[pos..] else "";
    name + "_" + NatToString(index) + extension
  }

  /** Different indices above 0 give different names: the probe loop never tries the same
      name twice. */
  lemma IndexedNamesDistinct(fileName: Option<string>, i: nat, j: nat)
    requires i != j
    ensures IndexedCandidate(fileName, i) != IndexedCandidate(fileName, j)
  {
    var pos := DotPosition(fileName);
    var name := if pos > 0 then fileName.value[..pos] else "";
    var extension := if pos > 0 then fileName.value[pos..] else "";
    var a := NatToString(i);
    var b := NatToString(j);
    var ra := name + "_" + a + extension;
    var rb := name + "_" + b + extension;
    if ra == rb {
      assert |a| == |b|;
      assert ra[|name| + 1..|name| + 1 + |a|] == a;
      assert rb[|name| + 1..|name| + 1 + |b|] == b;
      NatToStringInjective(i, j);
    }
  }

  // ---------------------------------------------------------------------------
  // Extension and temporary path
  // ---------------------------------------------------------------------------

  /** The Kotlin literal "\\.", a backslash then a dot, used as a plain split delimiter. */
  const EXTENSION_DELIMITER: string := "\\."

  /** The "extension": the last piece of the name split at the literal backslash-dot; ""
      for a null name. */
  function Extension(fileName: Option<string>): (extension: string)
    ensures fileName.None? ==> extension == ""
    ensures fileName.Some? ==> forall j :: !OccursAt(extension, EXTENSION_DELIMITER, j)
    ensures fileName.Some? ==>
      |extension| <= |fileName.value| && fileName.value[|fileName.value| - |extension|..] == extension
  {
    if fileName.None? then ""
    else
      var splitName := Split(fileName.value, EXTENSION_DELIMITER);
      SplitPiecesFree(fileName.value, EXTENSION_DELIMITER, |splitName| - 1);
      SplitJoin(fileName.value, EXTENSION_DELIMITER);
      JoinEndsWithLast(splitName, EXTENSION_DELIMITER);
      splitName[|splitName| - 1]
  }

  /** An ordinary name (no backslash-dot) is its own "extension". */
  lemma ExtensionOfOrdinaryName(fileName: string)
    requires IndexOf(fileName, EXTENSION_DELIMITER).None?
    ensures Extension(Some(fileName)) == fileName
  {
    SplitHead(fileName, EXTENSION_DELIMITER);
  }

  /** `"$rootPath"`: a null root renders as "null". */
  function RenderPath(rootPath: Option<string>): string {
    if rootPath.None? then "null" else rootPath.value
  }

  /** `newPath`: root path, the clock reading, a dot, and the "extension". */
  function NewPath(rootPath: Option<string>, nanoTime: int, fileName: Option<string>): (path: string)
    ensures |path| > |RenderPath(rootPath)| + 1
    ensures path[..|RenderPath(rootPath)|] == RenderPath(rootPath)
    ensures var extension := Extension(fileName);
      |path| > |extension| && path[|path| - |extension| - 1..] == "." + extension
  {
    var root, tail := RenderPath(rootPath), "." + Extension(fileName);
    var head := root + IntToString(nanoTime);
    assert head[..|root|] == root;
    head + tail
  }

  /** For an ordinary name, the temporary path ends with "." and the whole name. */
  lemma NewPathOfOrdinaryName(rootPath: Option<string>, nanoTime: int, fileName: string)
    requires IndexOf(fileName, EXTENSION_DELIMITER).None?
    ensures NewPath(rootPath, nanoTime, Some(fileName))
      == RenderPath(rootPath) + IntToString(nanoTime) + "." + fileName
  {
    ExtensionOfOrdinaryName(fileName);
    ConcatAssoc(RenderPath(rootPath) + IntToString(nanoTime), ".", fileName);
  }

  // ---------------------------------------------------------------------------
  // Duplicate records
  // ---------------------------------------------------------------------------

  /** What the fingerprint check decides: go on, possibly deleting the older record found
      (by its local path, on its own side), or skip the new record. */
  datatype Dedup = Proceed(deletePath: Option<string>, deleteSecondary: bool) | Skip

  /** The timestamp rule. With both timestamps known, an older existing record is
      replaced and an equal or newer one wins; with either unknown there is no conflict. */
  function DedupDecision(exist: Option<SyncRecord>, file: SyncRecord): (d: Dedup)
    ensures d.Skip? <==>
      exist.Some? && exist.value.timestamp.Some? && file.timestamp.Some?
      && exist.value.timestamp.value >= file.timestamp.value
    ensures d.Proceed? && d.deletePath.Some? ==>
      exist.Some? && exist.value.timestamp.Some? && file.timestamp.Some?
      && exist.value.timestamp.value < file.timestamp.value
      && d.deletePath == exist.value.localPath && d.deleteSecondary == exist.value.isSecondary
    ensures (d.Proceed? && exist.Some? && exist.value.localPath.Some?
             && exist.value.timestamp.Some? && file.timestamp.Some?) ==> d.deletePath.Some?
  {
    if exist.None? || exist.value.timestamp.None? || file.timestamp.None? then Proceed(None, false)
    else if exist.value.timestamp.value < file.timestamp.value then
      Proceed(exist.value.localPath, exist.value.isSecondary)
    else Skip
  }

  // ---------------------------------------------------------------------------
  // The database
  // ---------------------------------------------------------------------------

  /** A row with this fingerprint, on this side and of this copy kind. */
  predicate SameKey(r: SyncRecord, fingerprint: Option<string>, isSecondary: bool, isCopyOnly: bool) {
    r.originFingerprint == fingerprint && r.isSecondary == isSecondary && r.isCopyOnly == isCopyOnly
  }

  /** The first row with this fingerprint on this side and of this copy kind: none exactly
      when no row has that key, and otherwise a row with the key before which no row has
      it. */
  function FirstByFingerprint(rows: seq<SyncRecord>, fingerprint: Option<string>, isSecondary: bool, isCopyOnly: bool)
    : (found: Option<SyncRecord>)
    ensures found.Some? ==>
      found.value in rows && found.value.originFingerprint == fingerprint
      && found.value.isSecondary == isSecondary && found.value.isCopyOnly == isCopyOnly
    ensures found.None? <==> forall i :: 0 <= i < |rows| ==> !SameKey(rows[i], fingerprint, isSecondary, isCopyOnly)
    ensures found.Some? ==>
      exists k :: 0 <= k < |rows| && rows[k] == found.value
        && forall j :: 0 <= j < k ==> !SameKey(rows[j], fingerprint, isSecondary, isCopyOnly)
  {
    if rows == [] then None
    else if SameKey(rows[0], fingerprint, isSecondary, isCopyOnly) then Some(rows[0])
    else
      var found := FirstByFingerprint(rows[1..], fingerprint, isSecondary, isCopyOnly);
      assert found.Some? ==>
        exists k :: 1 <= k < |rows| && rows[k] == found.value
          && forall j :: 0 <= j < k ==> !SameKey(rows[j], fingerprint, isSecondary, isCopyOnly) by {
        if found.Some? {
          var k :| 0 <= k < |rows[1..]| && rows[1..][k] == found.value
            && forall j :: 0 <= j < k ==> !SameKey(rows[1..][j], fingerprint, isSecondary, isCopyOnly);
          assert rows[k + 1] == found.value;
          assert forall j :: 0 <= j < k + 1 ==> !SameKey(rows[j], fingerprint, isSecondary, isCopyOnly) by {
            forall j | 0 <= j < k + 1 ensures !SameKey(rows[j], fingerprint, isSecondary, isCopyOnly) {
              if j > 0 {
                assert rows[j] == rows[1..][j - 1];
              }
            }
          }
        }
      }
      found
  }

  /** The rows deleted by `deleteSyncRecordByLocalPath`. */
  predicate OnPath(r: SyncRecord, path: string, isSecondary: bool) {
    r.localPath == Some(path) && r.isSecondary == isSecondary
  }

  /** The rows left after deleting those with this local path on this side: every other
      row, as often as it was there. */
  function WithoutPath(rows: seq<SyncRecord>, path: string, isSecondary: bool): (kept: seq<SyncRecord>)
    ensures forall r :: r in kept <==> r in rows && !(r.localPath == Some(path) && r.isSecondary == isSecondary)
    ensures |kept| <= |rows|
    ensures forall r {:trigger multiset(kept)[r]} ::
      multiset(kept)[r] == if OnPath(r, path, isSecondary) then 0 else multiset(rows)[r]
  {
    if rows == [] then []
    else
      assert rows == [rows[0]] + rows[1..];
      var head := if OnPath(rows[0], path, isSecondary) then [] else [rows[0]];
      head + WithoutPath(rows[1..], path, isSecondary)
  }

  /** The deletion keeps the order of the other rows: it distributes over concatenation
      (a single row stays exactly when it is not on the path, `WithoutPathSingle`). */
  lemma {:induction false} WithoutPathConcat(a: seq<SyncRecord>, b: seq<SyncRecord>, path: string, isSecondary: bool)
    ensures WithoutPath(a + b, path, isSecondary) == WithoutPath(a, path, isSecondary) + WithoutPath(b, path, isSecondary)
  {
    if a == [] {
      assert a + b == b;
    } else {
      var ab := a + b;
      assert ab[0] == a[0];
      assert ab[1..] == a[1..] + b;
      WithoutPathConcat(a[1..], b, path, isSecondary);
    }
  }

  lemma WithoutPathSingle(r: SyncRecord, path: string, isSecondary: bool)
    ensures WithoutPath([r], path, isSecondary) == if OnPath(r, path, isSecondary) then [] else [r]
  {
    assert [r][1..] == [];
  }

  /** The file names recorded on one side. */
  function DbNames(rows: seq<SyncRecord>, isSecondary: bool): set<string> {
    set i | 0 <= i < |rows| && rows[i].isSecondary == isSecondary && rows[i].fileName.Some? :: rows[i].fileName.value
  }

  /** The sync-record table, behind the `getSyncRecordByFingerprint`,
      `deleteSyncRecordByLocalPath`, `fileNameExists` and `saveSyncRecord` use cases. */
  class SyncRecordStore {
    var rows: seq<SyncRecord>

    constructor (initial: seq<SyncRecord>)
      ensures rows == initial
    {
      rows := initial;
    }

    function GetSyncRecordByFingerprint(fingerprint: Option<string>, isSecondary: bool, isCopyOnly: bool)
      : (found: Option<SyncRecord>)
      reads this
      ensures found.Some? ==> found.value in rows && SameKey(found.value, fingerprint, isSecondary, isCopyOnly)
      ensures found.None? <==> forall i :: 0 <= i < |rows| ==> !SameKey(rows[i], fingerprint, isSecondary, isCopyOnly)
    {
      FirstByFingerprint(rows, fingerprint, isSecondary, isCopyOnly)
    }

    method DeleteSyncRecordByLocalPath(path: string, isSecondary: bool)
      modifies this
      ensures rows == WithoutPath(old(rows), path, isSecondary)
    {
      rows := WithoutPath(rows, path, isSecondary);
    }

    method SaveSyncRecord(record: SyncRecord)
      modifies this
      ensures rows == old(rows) + [record]
    {
      rows := rows + [record];
    }
  }

  // ---------------------------------------------------------------------------
  // Probing for a free name
  // ---------------------------------------------------------------------------

  /** `getChildMegaNode(parent, name) != null`: the upload folder has a child of that
      name; with no folder or no name there is none. */
  predicate InCloud(cloudChildren: int -> set<string>, parent: Option<int>, name: Option<string>) {
    parent.Some? && name.Some? && name.value in cloudChildren(parent.value)
  }

  /** Every name a probe can collide with. */
  function TakenNames(rows: seq<SyncRecord>, cloudChildren: int -> set<string>, parent: Option<int>, isSecondary: bool)
    : set<string>
  {
    DbNames(rows, isSecondary) + (if parent.Some? then cloudChildren(parent.value) else {})
  }

  /** Index `k` of the device-name probe is taken: in the cloud, or (for a non-null name)
      in the database. */
  predicate DeviceNameTaken(fileName: Option<string>, k: nat, rows: seq<SyncRecord>,
                            cloudChildren: int -> set<string>, parent: Option<int>, isSecondary: bool)
  {
    var name := NoneDuplicatedDeviceFileName(fileName, k);
    InCloud(cloudChildren, parent, name) || (name.Some? && name.value in DbNames(rows, isSecondary))
  }

  /** Index `k` of the MEGA-name probe is taken. */
  predicate MegaNameTaken(megaName: nat -> string, k: nat, rows: seq<SyncRecord>,
                          cloudChildren: int -> set<string>, parent: Option<int>, isSecondary: bool)
  {
    InCloud(cloudChildren, parent, Some(megaName(k))) || megaName(k) in DbNames(rows, isSecondary)
  }

  /** A map that never repeats a value on `lo, lo + 1, …, lo + n - 1` has `n` values there. */
  lemma {:induction false} InjectiveImageSize(f: nat -> string, lo: nat, n: nat)
    requires forall i: nat, j: nat :: lo <= i < j ==> f(i) != f(j)
    ensures |set k: nat | lo <= k < lo + n :: f(k)| == n
  {
    if n > 0 {
      InjectiveImageSize(f, lo, n - 1);
      var smaller := set k: nat | lo <= k < lo + n - 1 :: f(k);
      var all := set k: nat | lo <= k < lo + n :: f(k);
      assert all == smaller + {f(lo + n - 1)};
      assert f(lo + n - 1) !in smaller;
    }
  }

  /** Pigeonhole: a map that never repeats a value leaves some index among the first
      `|taken| + 1` from `lo` outside any finite set of taken names. */
  lemma FreeIndexExists(f: nat -> string, lo: nat, taken: set<string>)
    requires forall i: nat, j: nat :: lo <= i < j ==> f(i) != f(j)
    ensures exists k: nat :: lo <= k <= lo + |taken| && f(k) !in taken
  {
    if forall k: nat :: lo <= k <= lo + |taken| ==> f(k) in taken {
      var n := |taken| + 1;
      var image := set k: nat | lo <= k < lo + n :: f(k);
      InjectiveImageSize(f, lo, n);
      SubsetSize(image, taken);
      assert false;
    }
  }

  lemma {:induction false} SubsetSize(a: set<string>, b: set<string>)
    requires a <= b
    ensures |a| <= |b|
  {
    if a != {} {
      var x :| x in a;
      SubsetSize(a - {x}, b - {x});
    }
  }

  /** Some device-name index is free. */
  lemma FreeDeviceIndex(fileName: Option<string>, rows: seq<SyncRecord>,
                        cloudChildren: int -> set<string>, parent: Option<int>, isSecondary: bool)
    returns (w: nat)
    ensures !DeviceNameTaken(fileName, w, rows, cloudChildren, parent, isSecondary)
  {
    var f: nat -> string := (k: nat) => IndexedCandidate(fileName, k);
    forall i: nat, j: nat | 1 <= i < j ensures f(i) != f(j) {
      IndexedNamesDistinct(fileName, i, j);
    }
    var taken := TakenNames(rows, cloudChildren, parent, isSecondary);
    FreeIndexExists(f, 1, taken);
    w :| 1 <= w <= 1 + |taken| && f(w) !in taken;
    assert NoneDuplicatedDeviceFileName(fileName, w) == Some(f(w));
  }

  /** The keep-device-names `do … while` loop: it tries 0, 1, 2, … and stops at the first
      index whose name is free in the cloud folder and in the database. */
  method ProbeDeviceName(fileName: Option<string>, rows: seq<SyncRecord>,
                         cloudChildren: int -> set<string>, parent: Option<int>, isSecondary: bool)
    returns (name: Option<string>, index: nat)
    ensures name == NoneDuplicatedDeviceFileName(fileName, index)
    ensures !DeviceNameTaken(fileName, index, rows, cloudChildren, parent, isSecondary)
    ensures forall k :: 0 <= k < index ==> DeviceNameTaken(fileName, k, rows, cloudChildren, parent, isSecondary)
  {
    ghost var w := FreeDeviceIndex(fileName, rows, cloudChildren, parent, isSecondary);
    var inDatabase := false;
    var photoIndex := 0;
    name := NoneDuplicatedDeviceFileName(fileName, photoIndex);
    photoIndex := photoIndex + 1;
    var inCloud := InCloud(cloudChildren, parent, name);
    if name.Some? {
      inDatabase := name.value in DbNames(rows, isSecondary);
    }
    while inCloud || inDatabase
      invariant 1 <= photoIndex <= w + 1
      invariant name == NoneDuplicatedDeviceFileName(fileName, photoIndex - 1)
      invariant (inCloud || inDatabase) == DeviceNameTaken(fileName, photoIndex - 1, rows, cloudChildren, parent, isSecondary)
      invariant forall k :: 0 <= k < photoIndex - 1 ==> DeviceNameTaken(fileName, k, rows, cloudChildren, parent, isSecondary)
      decreases w + 1 - photoIndex
    {
      name := NoneDuplicatedDeviceFileName(fileName, photoIndex);
      photoIndex := photoIndex + 1;
      inCloud := InCloud(cloudChildren, parent, name);
      if name.Some? {
        inDatabase := name.value in DbNames(rows, isSecondary);
      }
    }
    index := photoIndex - 1;
  }

  /** The MEGA-name `do … while` loop, over `getPhotoSyncNameWithIndex`. */
  method ProbeMegaName(megaName: nat -> string, rows: seq<SyncRecord>,
                       cloudChildren: int -> set<string>, parent: Option<int>, isSecondary: bool)
    returns (name: string, index: nat)
    requires forall i: nat, j: nat :: i < j ==> megaName(i) != megaName(j)
    ensures name == megaName(index)
    ensures !MegaNameTaken(megaName, index, rows, cloudChildren, parent, isSecondary)
    ensures forall k :: 0 <= k < index ==> MegaNameTaken(megaName, k, rows, cloudChildren, parent, isSecondary)
  {
    var taken := TakenNames(rows, cloudChildren, parent, isSecondary);
    FreeIndexExists(megaName, 0, taken);
    ghost var w: nat :| w <= |taken| && megaName(w) !in taken;
    var photoIndex := 0;
    name := megaName(photoIndex);
    photoIndex := photoIndex + 1;
    var inCloud := InCloud(cloudChildren, parent, Some(name));
    var inDatabase := name in DbNames(rows, isSecondary);
    while inCloud || inDatabase
      invariant 1 <= photoIndex <= w + 1
      invariant name == megaName(photoIndex - 1)
      invariant (inCloud || inDatabase) == MegaNameTaken(megaName, photoIndex - 1, rows, cloudChildren, parent, isSecondary)
      invariant forall k :: 0 <= k < photoIndex - 1 ==> MegaNameTaken(megaName, k, rows, cloudChildren, parent, isSecondary)
      decreases w + 1 - photoIndex
    {
      name := megaName(photoIndex);
      photoIndex := photoIndex + 1;
      inCloud := InCloud(cloudChildren, parent, Some(name));
      inDatabase := name in DbNames(rows, isSecondary);
    }
    index := photoIndex - 1;
  }

  // ---------------------------------------------------------------------------
  // One record, and the list
  // ---------------------------------------------------------------------------

  /** The device and the clock: whether a local file exists, its last-modified time, the
      names under each cloud folder, `Util.getPhotoSyncNameWithIndex`, the
      keep-file-names preference, and `nanoTime` for the i-th record. */
  datatype Device = Device(
    fileExists: string -> bool,
    lastModified: string -> int,
    cloudChildren: int -> set<string>,
    megaName: (int, Option<string>, nat) -> string,
    keepFileNames: bool,
    nanoTime: nat -> int)

  /** `Util.getPhotoSyncNameWithIndex` never gives the same name for two indices. */
  ghost predicate MegaNamesDistinct(dev: Device) {
    forall t: int, p: Option<string>, i: nat, j: nat :: i < j ==> dev.megaName(t, p, i) != dev.megaName(t, p, j)
  }

  /** `getLastModifiedTime`: 0 without a local path. */
  function LastModifiedTime(file: SyncRecord, dev: Device): int {
    if file.localPath.None? then 0 else dev.lastModified(file.localPath.value)
  }

  /** The upload folder: the secondary one exactly for secondary records. */
  function UploadParent(file: SyncRecord, primary: Option<int>, secondary: Option<int>): (parent: Option<int>)
    ensures file.isSecondary ==> parent == secondary
    ensures !file.isSecondary ==> parent == primary
  {
    if file.isSecondary then secondary else primary
  }

  /** The rows once the fingerprint check has deleted an older record, if it did. */
  function AfterDedup(rows: seq<SyncRecord>, file: SyncRecord): seq<SyncRecord> {
    var d := DedupDecision(FirstByFingerprint(rows, file.originFingerprint, file.isSecondary, file.isCopyOnly), file);
    if d.Proceed? && d.deletePath.Some? then WithoutPath(rows, d.deletePath.value, d.deleteSecondary) else rows
  }

  /** A record that is not copy-only and whose local file is gone. */
  predicate LocalFileMissing(file: SyncRecord, dev: Device) {
    !file.isCopyOnly && file.localPath.Some? && !dev.fileExists(file.localPath.value)
  }

  datatype RecordOutcome = Skipped | Removed | Saved(record: SyncRecord, index: nat)

  /** What the list-level contract keeps of one record's outcome: a saved record is the
      candidate with its new name and temporary path, and a removed one had lost its file. */
  predicate OutcomeAgrees(outcome: RecordOutcome, file: SyncRecord, position: nat,
                          rootPath: Option<string>, dev: Device)
  {
    (outcome.Saved? ==>
      outcome.record == file.(fileName := outcome.record.fileName,
                              newPath := Some(NewPath(rootPath, dev.nanoTime(position), outcome.record.fileName))))
    && (outcome.Removed? ==> LocalFileMissing(file, dev))
  }

  /** The name a record is saved under: with "keep file names" the first free indexed
      device name, otherwise the first free name from `getPhotoSyncNameWithIndex`; free
      means neither in the upload folder nor in the database on the record's side. */
  predicate NameChosen(file: SyncRecord, rows: seq<SyncRecord>, primary: Option<int>, secondary: Option<int>,
                       dev: Device, fileName: Option<string>, index: nat)
  {
    var parent := UploadParent(file, primary, secondary);
    if dev.keepFileNames then
      fileName == NoneDuplicatedDeviceFileName(file.fileName, index)
      && !DeviceNameTaken(file.fileName, index, rows, dev.cloudChildren, parent, file.isSecondary)
      && forall k :: 0 <= k < index ==>
           DeviceNameTaken(file.fileName, k, rows, dev.cloudChildren, parent, file.isSecondary)
    else
      var megaName := (k: nat) => dev.megaName(LastModifiedTime(file, dev), file.localPath, k);
      fileName == Some(megaName(index))
      && !MegaNameTaken(megaName, index, rows, dev.cloudChildren, parent, file.isSecondary)
      && forall k :: 0 <= k < index ==>
           MegaNameTaken(megaName, k, rows, dev.cloudChildren, parent, file.isSecondary)
  }

  /** The naming step of the loop body, against the rows the record is checked against. */
  method ChooseName(file: SyncRecord, rows: seq<SyncRecord>, primary: Option<int>, secondary: Option<int>,
                    dev: Device)
    returns (fileName: Option<string>, index: nat)
    requires !dev.keepFileNames ==> MegaNamesDistinct(dev)
    ensures NameChosen(file, rows, primary, secondary, dev, fileName, index)
  {
    var parent := if file.isSecondary then secondary else primary;
    if dev.keepFileNames {
      fileName, index := ProbeDeviceName(file.fileName, rows, dev.cloudChildren, parent, file.isSecondary);
    } else {
      var lastModified := LastModifiedTime(file, dev);
      var megaName: nat -> string := (k: nat) => dev.megaName(lastModified, file.localPath, k);
      var name;
      name, index := ProbeMegaName(megaName, rows, dev.cloudChildren, parent, file.isSecondary);
      fileName := Some(name);
    }
  }

  /** The body of the loop over records, for the record at `position`. */
  method SaveRecord(file: SyncRecord, position: nat, primary: Option<int>, secondary: Option<int>,
                    rootPath: Option<string>, dev: Device, store: SyncRecordStore)
    returns (outcome: RecordOutcome)
    requires !dev.keepFileNames ==> MegaNamesDistinct(dev)
    modifies store
    ensures outcome.Skipped? <==>
      DedupDecision(FirstByFingerprint(old(store.rows), file.originFingerprint, file.isSecondary, file.isCopyOnly), file).Skip?
    ensures outcome.Skipped? ==> store.rows == old(store.rows)
    ensures OutcomeAgrees(outcome, file, position, rootPath, dev)
    ensures |store.rows| <= |old(store.rows)| + 1
    ensures outcome.Removed? <==> !outcome.Skipped? && LocalFileMissing(file, dev)
    ensures outcome.Removed? ==>
      store.rows == WithoutPath(AfterDedup(old(store.rows), file), file.localPath.value, file.isSecondary)
    ensures outcome.Saved? ==>
      store.rows == AfterDedup(old(store.rows), file) + [outcome.record]
      && outcome.record == file.(fileName := outcome.record.fileName,
                                 newPath := Some(NewPath(rootPath, dev.nanoTime(position), outcome.record.fileName)))
    ensures outcome.Saved? ==>
      NameChosen(file, AfterDedup(old(store.rows), file), primary, secondary, dev,
                 outcome.record.fileName, outcome.index)
  {
    var exist := store.GetSyncRecordByFingerprint(file.originFingerprint, file.isSecondary, file.isCopyOnly);
    var d := DedupDecision(exist, file);
    if d.Skip? {
      return Skipped;
    }
    if d.deletePath.Some? {
      store.DeleteSyncRecordByLocalPath(d.deletePath.value, d.deleteSecondary);
    }
    if !file.isCopyOnly {
      if file.localPath.Some? && !dev.fileExists(file.localPath.value) {
        store.DeleteSyncRecordByLocalPath(file.localPath.value, file.isSecondary);
        return Removed;
      }
    }
    assert store.rows == AfterDedup(old(store.rows), file);
    var fileName, index := ChooseName(file, store.rows, primary, secondary, dev);
    var saved := file.(fileName := fileName, newPath := Some(NewPath(rootPath, dev.nanoTime(position), fileName)));
    store.SaveSyncRecord(saved);
    return Saved(saved, index);
  }

  /** `invoke`: every record of the list in order, each against the database as the
      records before it left it. */
  method SaveSyncRecordsToDB(list: seq<SyncRecord>, primary: Option<int>, secondary: Option<int>,
                             rootPath: Option<string>, dev: Device, store: SyncRecordStore)
    returns (outcomes: seq<RecordOutcome>)
    requires !dev.keepFileNames ==> MegaNamesDistinct(dev)
    modifies store
    ensures |outcomes| == |list|
    ensures forall i :: 0 <= i < |list| && outcomes[i].Saved? ==>
      outcomes[i].record == list[i].(fileName := outcomes[i].record.fileName,
                                     newPath := Some(NewPath(rootPath, dev.nanoTime(i), outcomes[i].record.fileName)))
    ensures forall i :: 0 <= i < |list| && outcomes[i].Removed? ==> LocalFileMissing(list[i], dev)
    ensures |store.rows| <= |old(store.rows)| + |list|
  {
    outcomes := [];
    var i := 0;
    while i < |list|
      invariant 0 <= i <= |list|
      invariant |outcomes| == i
      invariant forall j :: 0 <= j < i ==> OutcomeAgrees(outcomes[j], list[j], j, rootPath, dev)
      invariant |store.rows| <= |old(store.rows)| + i
    {
      var outcome := SaveRecord(list[i], i, primary, secondary, rootPath, dev, store);
      outcomes := outcomes + [outcome];
      i := i + 1;
    }
  }
}
