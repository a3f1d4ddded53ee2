/** `NameCollisionViewModel`: the screen that walks the user through a queue of name
    collisions. One collision is current; the rest wait in `pending`, files before folders,
    with a counter per kind. Each choice resolves the current one (and, with "apply on next",
    the files or everything after it), then the next one becomes current. In a folder-upload
    context the choices are only logged in `resolved` and published as a whole. */
module NameCollision {
  import opened Common
  import opened CollisionData

  // ---------------------------------------------------------------------------
  // Counting and sweeping the pending list
  // ---------------------------------------------------------------------------

  /** Number of file collisions in `s`. */
  function FileCount(s: seq<NameCollisionResult>): nat {
    if s == [] then 0 else (if s[0].nameCollision.isFile then 1 else 0) + FileCount(s[1..])
  }

  /** Number of folder collisions in `s`. */
  function FolderCount(s: seq<NameCollisionResult>): nat {
    if s == [] then 0 else (if s[0].nameCollision.isFile then 0 else 1) + FolderCount(s[1..])
  }

  /** Both counts add up over a concatenation. */
  lemma {:induction false} CountsAppend(a: seq<NameCollisionResult>, b: seq<NameCollisionResult>)
    ensures FileCount(a + b) == FileCount(a) + FileCount(b)
    ensures FolderCount(a + b) == FolderCount(a) + FolderCount(b)
  {
    if a == [] {
      assert a + b == b;
    } else {
      CountsAppend(a[1..], b);
      assert (a + b)[1..] == a[1..] + b;
    }
  }

  /** Every collision is a file or a folder. */
  lemma {:induction false} CountsPartition(s: seq<NameCollisionResult>)
    ensures FileCount(s) + FolderCount(s) == |s|
  {
    if s != [] {
      CountsPartition(s[1..]);
    }
  }

  /** Taking the head off the list lowers the count of its kind by one and leaves the
      other count alone. */
  lemma HeadCounts(s: seq<NameCollisionResult>)
    requires s != []
    ensures s[0].nameCollision.isFile ==> FileCount(s[1..]) == FileCount(s) - 1 && FolderCount(s[1..]) == FolderCount(s)
    ensures !s[0].nameCollision.isFile ==> FolderCount(s[1..]) == FolderCount(s) - 1 && FileCount(s[1..]) == FileCount(s)
  {
  }

  /** How many pending items the files-only sweep takes: it stops at the item that brings
      the file counter from `files` to 0. */
  function FilesPrefixLength(s: seq<NameCollisionResult>, files: int): (n: nat)
    requires files <= FileCount(s)
    ensures n <= |s|
    ensures files <= 0 ==> n == 0
    ensures files > 0 ==> 0 < n && FileCount(s[..n]) == files && s[n - 1].nameCollision.isFile
    ensures files > 0 ==> FileCount(s[..n - 1]) == files - 1
    decreases |s|
  {
    if files <= 0 then 0
    else
      var isFile := s[0].nameCollision.isFile;
      var m := FilesPrefixLength(s[1..], if isFile then files - 1 else files);
      assert s[..m + 1][1..] == s[1..][..m];
      assert m > 0 ==> s[..m][1..] == s[1..][..m - 1];
      m + 1
  }

  /** Sweeping exactly as many files as the list holds leaves only folders. */
  lemma SweepLeavesFolders(s: seq<NameCollisionResult>)
    ensures var n := FilesPrefixLength(s, FileCount(s));
      FileCount(s[n..]) == 0 && FolderCount(s[n..]) == |s| - n
  {
    var n := FilesPrefixLength(s, FileCount(s));
    CountsSplit(s, n);
    CountsPartition(s[n..]);
  }

  /** Both counts add up over a split of the list. */
  lemma CountsSplit(s: seq<NameCollisionResult>, n: nat)
    requires n <= |s|
    ensures FileCount(s) == FileCount(s[..n]) + FileCount(s[n..])
    ensures FolderCount(s) == FolderCount(s[..n]) + FolderCount(s[n..])
  {
    var a, b := s[..n], s[n..];
    assert a + b == s;
    CountsAppend(a, b);
  }

  /** All files come before all folders, the order the reorder step produces. */
  predicate FilesFirst(s: seq<NameCollisionResult>) {
    forall i, j :: 0 <= i < j < |s| && !s[i].nameCollision.isFile ==> !s[j].nameCollision.isFile
  }

  /** On a files-first list the sweep takes exactly the files and no folder. */
  lemma {:induction false} SweepTakesTheFiles(s: seq<NameCollisionResult>)
    requires FilesFirst(s)
    ensures FilesPrefixLength(s, FileCount(s)) == FileCount(s)
    ensures FolderCount(s[..FileCount(s)]) == 0
    decreases |s|
  {
    if s != [] {
      var t := s[1..];
      assert FilesFirst(t) by {
        forall i, j | 0 <= i < j < |t| && !t[i].nameCollision.isFile ensures !t[j].nameCollision.isFile {
          assert t[i] == s[i + 1] && t[j] == s[j + 1];
        }
      }
      SweepTakesTheFiles(t);
      if s[0].nameCollision.isFile {
        assert s[..FileCount(s)][1..] == t[..FileCount(t)];
      } else {
        AllFolders(s);
      }
    }
  }

  /** A files-first list that starts with a folder has no file at all. */
  lemma {:induction false} AllFolders(s: seq<NameCollisionResult>)
    requires FilesFirst(s) && s != [] && !s[0].nameCollision.isFile
    ensures FileCount(s) == 0
    decreases |s|
  {
    var t := s[1..];
    if t != [] {
      assert !t[0].nameCollision.isFile by { assert t[0] == s[1]; }
      assert FilesFirst(t) by {
        forall i, j | 0 <= i < j < |t| && !t[i].nameCollision.isFile ensures !t[j].nameCollision.isFile {
          assert t[i] == s[i + 1] && t[j] == s[j + 1];
        }
      }
      AllFolders(t);
    }
  }

  /** Each collision of `list` with its choice set to `choice`. */
  function TagAll(list: seq<NameCollisionResult>, choice: NameCollisionChoice): (tagged: seq<NameCollisionResult>)
    ensures |tagged| == |list|
    ensures forall i :: 0 <= i < |list| ==>
      tagged[i].nameCollision == list[i].nameCollision && tagged[i].renameName == list[i].renameName
      && tagged[i].choice == Some(choice)
  {
    seq(|list|, i requires 0 <= i < |list| => WithChoice(list[i], choice))
  }

  lemma TagAllConcat(a: seq<NameCollisionResult>, b: seq<NameCollisionResult>, choice: NameCollisionChoice)
    ensures TagAll(a + b, choice) == TagAll(a, choice) + TagAll(b, choice)
  {
    var x := TagAll(a + b, choice);
    var y := TagAll(a, choice) + TagAll(b, choice);
    assert |x| == |y|;
    forall i | 0 <= i < |x| ensures x[i] == y[i] {
      if i < |a| {
        assert (a + b)[i] == a[i];
      } else {
        assert (a + b)[i] == b[i - |a|];
      }
    }
  }

  // ---------------------------------------------------------------------------
  // The queue and its steps
  // ---------------------------------------------------------------------------

  /** The part of the screen's state that `continueWithNext` works on: the current
      collision, the pending list, the two counters, the log of resolved collisions and the
      last published log. */
  datatype Queue = Queue(
    current: Option<NameCollisionResult>,
    pending: seq<NameCollisionResult>,
    files: int,
    folders: int,
    resolved: seq<NameCollisionResult>,
    published: Option<seq<NameCollisionResult>>)

  /** Each counter is the number of pending collisions of its kind. */
  predicate CountsMatch(q: Queue) {
    q.files == FileCount(q.pending) && q.folders == FolderCount(q.pending)
  }

  /** What `continueWithNext` does to the queue: at most the head leaves the pending list,
      and the log only grows, and only in a folder-upload context. */
  function Next(q: Queue, folderContext: bool, choice: NameCollisionChoice): (r: Queue)
    ensures r.pending == q.pending || (q.pending != [] && r.pending == q.pending[1..])
    ensures q.resolved <= r.resolved
    ensures !folderContext ==> r.resolved == q.resolved && r.published == q.published
  {
    if folderContext && q.current.None? then q
    else
      var logged := if folderContext then q.resolved + [WithChoice(q.current.value, choice)] else q.resolved;
      if q.pending == [] then
        (if folderContext then q.(resolved := logged, published := Some(logged)) else q.(current := None))
      else
        var head := q.pending[0];
        q.(current := Some(head), pending := q.pending[1..], resolved := logged,
           files := if head.nameCollision.isFile then q.files - 1 else q.files,
           folders := if head.nameCollision.isFile then q.folders else q.folders - 1)
  }

  /** With something pending, the head becomes current and leaves the list, and the counter
      of its kind drops by exactly one while the other stays. */
  lemma NextAdvances(q: Queue, folderContext: bool, choice: NameCollisionChoice)
    requires q.pending != [] && (q.current.Some? || !folderContext)
    ensures var r := Next(q, folderContext, choice);
      r.current == Some(q.pending[0]) && r.pending == q.pending[1..] && r.published == q.published
      && (q.pending[0].nameCollision.isFile ==> r.files == q.files - 1 && r.folders == q.folders)
      && (!q.pending[0].nameCollision.isFile ==> r.folders == q.folders - 1 && r.files == q.files)
  {
  }

  /** With nothing pending, outside a folder-upload context the current collision is
      cleared; inside one the current collision is logged with the choice, the log is
      published, and the current collision stays. */
  lemma NextOnEmptyQueue(q: Queue, folderContext: bool, choice: NameCollisionChoice)
    requires q.pending == []
    ensures var r := Next(q, folderContext, choice);
      r.pending == [] && r.files == q.files && r.folders == q.folders
      && (!folderContext ==> r.current.None? && r.resolved == q.resolved && r.published == q.published)
      && (folderContext && q.current.Some? ==>
            r.current == q.current && r.resolved == q.resolved + [WithChoice(q.current.value, choice)]
            && r.published == Some(r.resolved))
  {
  }

  /** Moving on keeps the counters equal to what is pending. */
  lemma NextKeepsCountersMatch(q: Queue, folderContext: bool, choice: NameCollisionChoice)
    requires CountsMatch(q)
    ensures CountsMatch(Next(q, folderContext, choice))
  {
    if q.pending != [] {
      HeadCounts(q.pending);
    }
  }

  /** The files-only sweep of `proceedWithAllFiles`: while the file counter is positive,
      collect the head and move on. Gives the collected heads and the final queue, whose
      file counter is spent and which still shows a collision (`SweepTakes`,
      `SweepCounters` and `SweepLogs` give the rest). */
  function Sweep(q: Queue, folderContext: bool, choice: NameCollisionChoice): (r: (seq<NameCollisionResult>, Queue))
    requires q.current.Some? && q.files <= FileCount(q.pending)
    ensures r.1.files <= 0 && r.1.current.Some?
    ensures |r.0| <= |q.pending|
    decreases |q.pending|
  {
    if q.files <= 0 then ([], q)
    else
      HeadCounts(q.pending);
      var rest := Sweep(Next(q, folderContext, choice), folderContext, choice);
      ([q.pending[0]] + rest.0, rest.1)
  }

  /** One step of the sweep moves the queue on by its head: the head becomes current, its
      counter goes down by one, and the current collision is logged in a folder-upload
      context. */
  lemma NextStep(q: Queue, folderContext: bool, choice: NameCollisionChoice)
    requires q.current.Some? && 0 < q.files <= FileCount(q.pending)
    ensures q.pending != []
    ensures var q1 := Next(q, folderContext, choice);
      q1.current == Some(q.pending[0]) && q1.pending == q.pending[1..]
      && q1.resolved == q.resolved + (if folderContext then [WithChoice(q.current.value, choice)] else [])
      && q1.published == q.published
      && q1.files == (if q.pending[0].nameCollision.isFile then q.files - 1 else q.files)
      && q1.folders == (if q.pending[0].nameCollision.isFile then q.folders else q.folders - 1)
  {
  }

  /** One step of the sweep: the head is collected and the rest is the sweep from the
      next queue. */
  lemma SweepStep(q: Queue, folderContext: bool, choice: NameCollisionChoice)
    requires q.current.Some? && 0 < q.files <= FileCount(q.pending)
    ensures q.pending != []
    ensures var q1 := Next(q, folderContext, choice);
      q1.current.Some? && q1.files <= FileCount(q1.pending)
      && FilesPrefixLength(q.pending, q.files) == FilesPrefixLength(q1.pending, q1.files) + 1
      && Sweep(q, folderContext, choice).0 == [q.pending[0]] + Sweep(q1, folderContext, choice).0
      && Sweep(q, folderContext, choice).1 == Sweep(q1, folderContext, choice).1
  {
    HeadCounts(q.pending);
  }

  /** A sweep split after `taken` stays split after one more step. */
  lemma SweepAdvance(goal: (seq<NameCollisionResult>, Queue), taken: seq<NameCollisionResult>,
                     q: Queue, folderContext: bool, choice: NameCollisionChoice)
    requires q.current.Some? && 0 < q.files <= FileCount(q.pending)
    requires goal == (taken + Sweep(q, folderContext, choice).0, Sweep(q, folderContext, choice).1)
    ensures q.pending != []
    ensures var q1 := Next(q, folderContext, choice);
      q1.current.Some? && q1.files <= FileCount(q1.pending)
      && goal == ((taken + [q.pending[0]]) + Sweep(q1, folderContext, choice).0, Sweep(q1, folderContext, choice).1)
  {
    SweepStep(q, folderContext, choice);
    var rest := Sweep(Next(q, folderContext, choice), folderContext, choice).0;
    ConcatAssoc(taken, [q.pending[0]], rest);
  }

  /** The sweep collects exactly the pending items up to the one that brings the file
      counter to 0, leaves the rest pending, and leaves the last collected item as the
      current one. */
  lemma {:induction false} SweepTakes(q: Queue, folderContext: bool, choice: NameCollisionChoice)
    requires q.current.Some? && q.files <= FileCount(q.pending)
    ensures var n := FilesPrefixLength(q.pending, q.files);
      var r := Sweep(q, folderContext, choice);
      r.0 == q.pending[..n] && r.1.pending == q.pending[n..]
      && r.1.current == (if n == 0 then q.current else Some(q.pending[n - 1]))
    decreases |q.pending|
  {
    if q.files > 0 {
      var p := q.pending;
      var n := FilesPrefixLength(p, q.files);
      SweepStep(q, folderContext, choice);
      NextStep(q, folderContext, choice);
      var q1 := Next(q, folderContext, choice);
      SweepTakes(q1, folderContext, choice);
      var m := FilesPrefixLength(q1.pending, q1.files);
      assert p[..n] == [p[0]] + q1.pending[..m];
      assert p[n..] == q1.pending[m..];
      assert m > 0 ==> q1.pending[m - 1] == p[n - 1];
    }
  }

  /** The sweep brings the file counter to 0 and lowers the folder counter by the folders
      it passed. */
  lemma {:induction false} SweepCounters(q: Queue, folderContext: bool, choice: NameCollisionChoice)
    requires q.current.Some? && q.files <= FileCount(q.pending)
    ensures var n := FilesPrefixLength(q.pending, q.files);
      var r := Sweep(q, folderContext, choice).1;
      r.files == (if q.files > 0 then 0 else q.files)
      && r.folders == q.folders - FolderCount(q.pending[..n])
    decreases |q.pending|
  {
    if q.files > 0 {
      var p := q.pending;
      var n := FilesPrefixLength(p, q.files);
      SweepStep(q, folderContext, choice);
      NextStep(q, folderContext, choice);
      var q1 := Next(q, folderContext, choice);
      SweepCounters(q1, folderContext, choice);
      var m := FilesPrefixLength(q1.pending, q1.files);
      assert p[..n][1..] == q1.pending[..m];
      HeadCounts(p[..n]);
    }
  }

  /** Logging the first current collision and then the window the next step logs is
      logging the window one longer. */
  lemma LogPrepend(c0: NameCollisionResult, p: seq<NameCollisionResult>, m: nat, choice: NameCollisionChoice)
    requires 0 < |p| && m <= |p|
    ensures TagAll(([c0] + p)[..m + 1], choice) == [WithChoice(c0, choice)] + TagAll(([p[0]] + p[1..])[..m], choice)
  {
    assert [p[0]] + p[1..] == p;
    assert ([c0] + p)[..m + 1] == [c0] + p[..m];
    TagAllConcat([c0], p[..m], choice);
    assert TagAll([c0], choice) == [WithChoice(c0, choice)];
  }

  /** In a folder-upload context the sweep logs, with the choice, every collision it moved
      past (the first current one and all collected but the last); outside one it logs
      nothing. It publishes nothing. */
  lemma {:induction false} SweepLogs(q: Queue, folderContext: bool, choice: NameCollisionChoice)
    requires q.current.Some? && q.files <= FileCount(q.pending)
    ensures var n := FilesPrefixLength(q.pending, q.files);
      var r := Sweep(q, folderContext, choice).1;
      r.resolved == q.resolved + (if folderContext then TagAll(([q.current.value] + q.pending)[..n], choice) else [])
      && r.published == q.published
    decreases |q.pending|
  {
    if q.files > 0 {
      var p := q.pending;
      var n := FilesPrefixLength(p, q.files);
      SweepStep(q, folderContext, choice);
      NextStep(q, folderContext, choice);
      var q1 := Next(q, folderContext, choice);
      SweepLogs(q1, folderContext, choice);
      var m := FilesPrefixLength(q1.pending, q1.files);
      if folderContext {
        var c0 := q.current.value;
        var w := WithChoice(c0, choice);
        var later := TagAll(([p[0]] + p[1..])[..m], choice);
        LogPrepend(c0, p, m, choice);
        ConcatAssoc(q.resolved, [w], later);
      }
    }
  }

  // ---------------------------------------------------------------------------
  // Pure decisions
  // ---------------------------------------------------------------------------

  /** `getCollisionType`: copies and chat imports are copies, movements are moves, and
      uploads (or no current collision) are uploads. */
  function CollisionType(current: Option<NameCollisionResult>): (t: NameCollisionType)
    ensures t == COPY <==> current.Some? && (current.value.nameCollision.Copy? || current.value.nameCollision.Import?)
    ensures t == MOVE <==> current.Some? && current.value.nameCollision.Movement?
    ensures t == UPLOAD <==> current.None? || current.value.nameCollision.Upload?
  {
    if current.None? then UPLOAD
    else match current.value.nameCollision
      case Copy(_, _, _, _) => COPY
      case Import(_, _, _, _, _, _) => COPY
      case Movement(_, _, _, _) => MOVE
      case Upload(_, _, _) => UPLOAD
  }

  /** Which part of the queue a choice applies to. */
  datatype Reach = FilesOnly | Everything | Single

  /** The three-way split of `cancel` and `proceedWithAction`: "apply on next" with both
      kinds pending sweeps the files only, "apply on next" otherwise takes everything, and
      without it only the current collision is resolved. */
  function ReachOf(applyOnNext: bool, pendingFiles: int, pendingFolders: int): (reach: Reach)
    ensures reach == FilesOnly <==> applyOnNext && pendingFiles > 0 && pendingFolders > 0
    ensures reach == Everything <==> applyOnNext && !(pendingFiles > 0 && pendingFolders > 0)
    ensures reach == Single <==> !applyOnNext
  {
    if applyOnNext && pendingFiles > 0 && pendingFolders > 0 then FilesOnly
    else if applyOnNext then Everything
    else Single
  }

  /** The message of an action result: uploads started (with their number), or the text of
      a move or copy result. */
  datatype ResultMessage = UploadBegan(quantity: int) | MovementText | CopyText

  /** `NameCollisionActionResult`. */
  datatype ActionResult = ActionResult(message: ResultMessage, shouldFinish: bool)

  /** How an upload, move or copy use case ends. */
  datatype Outcome = Done | Error

  // ---------------------------------------------------------------------------
  // The whole screen state and what each action does to it
  // ---------------------------------------------------------------------------

  /** Everything the screen's actions change (the rename names aside): the queue, whether
      all collisions were taken at once, the last action result, and whether a move or copy
      error was posted. */
  datatype Screen = Screen(queue: Queue, allProcessed: bool, actionResult: Option<ActionResult>, thrown: bool)

  /** The message a move or copy result carries; uploads report a quantity instead. */
  function TransferMessage(kind: NameCollisionType): (message: ResultMessage)
    ensures message.UploadBegan? <==> kind == UPLOAD
  {
    match kind
    case UPLOAD => UploadBegan(0)
    case MOVE => MovementText
    case COPY => CopyText
  }

  /** `setUploadResult`, `setMovementResult`, `setCopyResult`. */
  function WithResult(s: Screen, message: ResultMessage): Screen {
    s.(actionResult := Some(ActionResult(message, s.queue.pending == [])))
  }

  /** `continueWithNext` on the screen. */
  function Advance(s: Screen, folderContext: bool, choice: NameCollisionChoice): Screen {
    s.(queue := Next(s.queue, folderContext, choice))
  }

  /** What `getAllPendingCollisions` leaves: nothing pending, everything processed. */
  function TakeAll(s: Screen): Screen {
    s.(queue := s.queue.(pending := []), allProcessed := true)
  }

  /** `cancelAll`. */
  function CancelAllEffect(s: Screen, folderContext: bool): Screen
    requires folderContext ==> s.queue.current.Some?
  {
    if folderContext then
      var log := s.queue.resolved + TagAll([s.queue.current.value] + s.queue.pending, CANCEL);
      s.(queue := s.queue.(pending := [], resolved := log, published := Some(log)), allProcessed := true)
    else s.(queue := s.queue.(current := None))
  }

  /** `upload(list)`: logged (and published once nothing is pending) in a folder-upload
      context; otherwise a started upload sets the result. */
  function UploadEffect(s: Screen, list: seq<NameCollisionResult>, choice: NameCollisionChoice,
                        folderContext: bool, outcome: Outcome): Screen
  {
    if folderContext then
      var log := s.queue.resolved + TagAll(list, choice);
      s.(queue := s.queue.(resolved := log,
                           published := if s.queue.pending == [] then Some(log) else s.queue.published))
    else if outcome == Done then WithResult(s, UploadBegan(|list|))
    else s
  }

  /** `move(list)` and `copy(list)`. */
  function TransferEffect(s: Screen, message: ResultMessage, outcome: Outcome): Screen {
    if outcome == Done then WithResult(s, message) else s.(thrown := true)
  }

  /** `singleUpload`. */
  function SingleUploadEffect(s: Screen, choice: NameCollisionChoice, folderContext: bool, outcome: Outcome): Screen {
    if folderContext then Advance(s, true, choice)
    else if outcome == Done then Advance(WithResult(s, UploadBegan(1)), false, choice)
    else s
  }

  /** `singleMovement` and `singleCopy`. */
  function SingleTransferEffect(s: Screen, message: ResultMessage, choice: NameCollisionChoice,
                                folderContext: bool, outcome: Outcome): Screen
  {
    if outcome == Done then Advance(WithResult(s, message), folderContext, choice)
    else s.(thrown := true)
  }

  /** The batch step of `proceedWithAction`: upload, move or copy of `list`. */
  function BatchEffect(s: Screen, list: seq<NameCollisionResult>, kind: NameCollisionType,
                       choice: NameCollisionChoice, folderContext: bool, outcome: Outcome): Screen
  {
    if kind == UPLOAD then UploadEffect(s, list, choice, folderContext, outcome)
    else TransferEffect(s, TransferMessage(kind), outcome)
  }

  /** What `proceedWithAction` may be called on: a current collision, except for the single
      step of a folder upload, which tolerates none; and a file counter the sweep can meet. */
  predicate ProceedAllowed(s: Screen, folderContext: bool, applyOnNext: bool) {
    (s.queue.current.Some? || (folderContext && !applyOnNext))
    && (ReachOf(applyOnNext, s.queue.files, s.queue.folders) == FilesOnly ==> s.queue.files <= FileCount(s.queue.pending))
  }

  /** `proceedWithAction`: the collision type picks upload, move or copy, and the reach
      picks the file sweep, all pending collisions, or the current one alone. */
  function ProceedEffect(s: Screen, folderContext: bool, applyOnNext: bool, rename: bool, outcome: Outcome): Screen
    requires ProceedAllowed(s, folderContext, applyOnNext)
  {
    var choice := ChoiceFor(rename);
    var kind := CollisionType(s.queue.current);
    match ReachOf(applyOnNext, s.queue.files, s.queue.folders)
    case FilesOnly =>
      var swept := Sweep(s.queue, folderContext, choice);
      BatchEffect(s.(queue := swept.1), [s.queue.current.value] + swept.0, kind, choice, folderContext, outcome)
    case Everything =>
      BatchEffect(TakeAll(s), [s.queue.current.value] + s.queue.pending, kind, choice, folderContext, outcome)
    case Single =>
      if kind == UPLOAD then SingleUploadEffect(s, choice, folderContext, outcome)
      else SingleTransferEffect(s, TransferMessage(kind), choice, folderContext, outcome)
  }

  /** What `cancel` may be called on. */
  predicate CancelAllowed(s: Screen, folderContext: bool, applyOnNext: bool) {
    (ReachOf(applyOnNext, s.queue.files, s.queue.folders) == FilesOnly ==>
       s.queue.current.Some? && s.queue.files <= FileCount(s.queue.pending))
    && (ReachOf(applyOnNext, s.queue.files, s.queue.folders) == Everything ==>
       (folderContext ==> s.queue.current.Some?))
  }

  /** `cancel`. */
  function CancelEffect(s: Screen, folderContext: bool, applyOnNext: bool): Screen
    requires CancelAllowed(s, folderContext, applyOnNext)
  {
    match ReachOf(applyOnNext, s.queue.files, s.queue.folders)
    case FilesOnly => s.(queue := Sweep(s.queue, folderContext, CANCEL).1)
    case Everything => CancelAllEffect(s, folderContext)
    case Single => Advance(s, folderContext, CANCEL)
  }

  /** With "apply on next" and both kinds pending, a proceed sweeps the pending prefix up
      to the last counted file: the rest stay pending, the file counter is 0, the folder
      counter drops by the folders passed, and the last swept collision is current. */
  lemma ProceedSweepsFiles(s: Screen, folderContext: bool, applyOnNext: bool, rename: bool, outcome: Outcome)
    requires ProceedAllowed(s, folderContext, applyOnNext)
    requires ReachOf(applyOnNext, s.queue.files, s.queue.folders) == FilesOnly
    ensures var n := FilesPrefixLength(s.queue.pending, s.queue.files);
      var r := ProceedEffect(s, folderContext, applyOnNext, rename, outcome).queue;
      0 < n && r.pending == s.queue.pending[n..] && r.current == Some(s.queue.pending[n - 1])
      && r.files == 0 && r.folders == s.queue.folders - FolderCount(s.queue.pending[..n])
  {
    var choice := ChoiceFor(rename);
    SweepTakes(s.queue, folderContext, choice);
    SweepCounters(s.queue, folderContext, choice);
  }

  /** Outside a folder upload, a proceed that succeeds posts a result: for a batch, the
      number of uploads or the move or copy text, finishing exactly when nothing is left
      pending; for the single step, one upload or the text, finishing exactly when nothing
      was pending before the step. A failed upload posts nothing; a failed move or copy
      posts its error. */
  lemma ProceedPostsResult(s: Screen, folderContext: bool, applyOnNext: bool, rename: bool, outcome: Outcome)
    requires ProceedAllowed(s, folderContext, applyOnNext) && !folderContext
    ensures var reach := ReachOf(applyOnNext, s.queue.files, s.queue.folders);
      var kind := CollisionType(s.queue.current);
      var r := ProceedEffect(s, folderContext, applyOnNext, rename, outcome);
      var n := if reach == FilesOnly then FilesPrefixLength(s.queue.pending, s.queue.files) + 1
               else |s.queue.pending| + 1;
      var message := if kind == UPLOAD then UploadBegan(if reach == Single then 1 else n) else TransferMessage(kind);
      (outcome == Done ==>
         r.actionResult == Some(ActionResult(message,
           if reach == Single then s.queue.pending == [] else r.queue.pending == []))
         && r.thrown == s.thrown)
      && (outcome == Error ==> r.actionResult == s.actionResult && r.thrown == (s.thrown || kind != UPLOAD))
  {
    var choice := ChoiceFor(rename);
    if ReachOf(applyOnNext, s.queue.files, s.queue.folders) == FilesOnly {
      SweepTakes(s.queue, folderContext, choice);
    }
  }

  /** In a folder upload, "apply on next" over both kinds logs the swept collisions twice:
      the sweep logs each one it moves past, and the upload then logs the whole batch
      again. Nothing is published while folders are still pending. */
  lemma FolderUploadLogsSweptTwice(s: Screen, applyOnNext: bool, rename: bool, outcome: Outcome)
    requires ProceedAllowed(s, true, applyOnNext)
    requires ReachOf(applyOnNext, s.queue.files, s.queue.folders) == FilesOnly
    requires CollisionType(s.queue.current) == UPLOAD
    ensures var n := FilesPrefixLength(s.queue.pending, s.queue.files);
      var choice := ChoiceFor(rename);
      var batch := [s.queue.current.value] + s.queue.pending[..n];
      var r := ProceedEffect(s, true, applyOnNext, rename, outcome);
      r.queue.resolved == s.queue.resolved + TagAll(batch[..n], choice) + TagAll(batch, choice)
      && (r.queue.pending != [] ==> r.queue.published == s.queue.published)
  {
    var choice := ChoiceFor(rename);
    var n := FilesPrefixLength(s.queue.pending, s.queue.files);
    SweepTakes(s.queue, true, choice);
    SweepLogs(s.queue, true, choice);
    assert ([s.queue.current.value] + s.queue.pending)[..n] == ([s.queue.current.value] + s.queue.pending[..n])[..n];
  }

  /** "Apply on next" over one kind only takes everything: nothing is left pending and all
      collisions count as processed, whatever the use case answers. */
  lemma ProceedTakesEverything(s: Screen, folderContext: bool, applyOnNext: bool, rename: bool, outcome: Outcome)
    requires ProceedAllowed(s, folderContext, applyOnNext)
    requires ReachOf(applyOnNext, s.queue.files, s.queue.folders) == Everything
    ensures var r := ProceedEffect(s, folderContext, applyOnNext, rename, outcome);
      r.queue.pending == [] && r.allProcessed && r.queue.current == s.queue.current
      && r.queue.files == s.queue.files && r.queue.folders == s.queue.folders
  {
  }

  /** Proceeding keeps the counters equal to what is pending, except when everything is
      taken at once, which empties the list but leaves the counters alone. */
  lemma ProceedKeepsCountersMatch(s: Screen, folderContext: bool, applyOnNext: bool, rename: bool, outcome: Outcome)
    requires ProceedAllowed(s, folderContext, applyOnNext) && CountsMatch(s.queue)
    requires ReachOf(applyOnNext, s.queue.files, s.queue.folders) != Everything
    ensures CountsMatch(ProceedEffect(s, folderContext, applyOnNext, rename, outcome).queue)
  {
    var choice := ChoiceFor(rename);
    var q := s.queue;
    if ReachOf(applyOnNext, q.files, q.folders) == FilesOnly {
      SweepKeepsCountersMatch(q, folderContext, choice);
    } else {
      NextKeepsCountersMatch(q, folderContext, choice);
    }
  }

  /** A sweep from matching counters takes every pending file and keeps the counters
      matching: none is left, and the folder counter still counts the pending folders. */
  lemma SweepKeepsCountersMatch(q: Queue, folderContext: bool, choice: NameCollisionChoice)
    requires q.current.Some? && CountsMatch(q)
    ensures CountsMatch(Sweep(q, folderContext, choice).1)
    ensures FileCount(Sweep(q, folderContext, choice).1.pending) == 0
  {
    var n := FilesPrefixLength(q.pending, q.files);
    SweepTakes(q, folderContext, choice);
    SweepCounters(q, folderContext, choice);
    SweepLeavesFolders(q.pending);
    CountsSplit(q.pending, n);
  }

  /** Cancelling with "apply on next" over both kinds sweeps the files as proceeding does
      and posts nothing; cancelling one collision steps on; cancelling everything in a
      folder upload logs all remaining collisions as cancelled and publishes the log. */
  lemma CancelOutcomes(s: Screen, folderContext: bool, applyOnNext: bool)
    requires CancelAllowed(s, folderContext, applyOnNext)
    ensures var r := CancelEffect(s, folderContext, applyOnNext);
      r.actionResult == s.actionResult && r.thrown == s.thrown
    ensures var r := CancelEffect(s, folderContext, applyOnNext);
      ReachOf(applyOnNext, s.queue.files, s.queue.folders) == FilesOnly ==>
        var n := FilesPrefixLength(s.queue.pending, s.queue.files);
        r.queue.pending == s.queue.pending[n..] && r.queue.files == 0
        && r.queue.resolved == s.queue.resolved
             + (if folderContext then TagAll(([s.queue.current.value] + s.queue.pending)[..n], CANCEL) else [])
    ensures var r := CancelEffect(s, folderContext, applyOnNext);
      ReachOf(applyOnNext, s.queue.files, s.queue.folders) == Everything && folderContext ==>
        r.queue.pending == [] && r.allProcessed
        && r.queue.resolved == s.queue.resolved + TagAll([s.queue.current.value] + s.queue.pending, CANCEL)
        && r.queue.published == Some(r.queue.resolved)
    ensures var r := CancelEffect(s, folderContext, applyOnNext);
      CountsMatch(s.queue) && ReachOf(applyOnNext, s.queue.files, s.queue.folders) != Everything ==>
        CountsMatch(r.queue)
  {
    if ReachOf(applyOnNext, s.queue.files, s.queue.folders) == FilesOnly {
      SweepTakes(s.queue, folderContext, CANCEL);
      SweepCounters(s.queue, folderContext, CANCEL);
      SweepLogs(s.queue, folderContext, CANCEL);
      if CountsMatch(s.queue) {
        SweepKeepsCountersMatch(s.queue, folderContext, CANCEL);
      }
    } else if CountsMatch(s.queue) {
      NextKeepsCountersMatch(s.queue, folderContext, CANCEL);
    }
  }

  class NameCollisionViewModel {
    var current: Option<NameCollisionResult>
    var pending: seq<NameCollisionResult>
    var pendingFileCollisions: int
    var pendingFolderCollisions: int
    var resolved: seq<NameCollisionResult>
    /** The last list published on `collisionsResolution`. */
    var collisionsResolution: Option<seq<NameCollisionResult>>
    var allCollisionsProcessed: bool
    var isFolderUploadContext: bool
    var renameNames: seq<string>
    var actionResult: Option<ActionResult>
    /** Whether a move or copy error was posted on `throwable`. */
    var thrown: bool

    /** The queue part of the state. */
    function Snapshot(): Queue
      reads this
    {
      Queue(current, pending, pendingFileCollisions, pendingFolderCollisions, resolved, collisionsResolution)
    }

    /** The whole state the actions change, the rename names aside. */
    function State(): Screen
      reads this
    {
      Screen(Snapshot(), allCollisionsProcessed, actionResult, thrown)
    }

    predicate CountersMatch()
      reads this
    {
      CountsMatch(Snapshot())
    }

    constructor (isFolderUploadContext: bool)
      ensures current.None? && pending == [] && resolved == [] && renameNames == []
      ensures pendingFileCollisions == 0 && pendingFolderCollisions == 0
      ensures collisionsResolution.None? && actionResult.None? && !thrown && !allCollisionsProcessed
      ensures this.isFolderUploadContext == isFolderUploadContext
      ensures CountersMatch()
    {
      current := None;
      pending := [];
      pendingFileCollisions := 0;
      pendingFolderCollisions := 0;
      resolved := [];
      collisionsResolution := None;
      allCollisionsProcessed := false;
      this.isFolderUploadContext := isFolderUploadContext;
      renameNames := [];
      actionResult := None;
      thrown := false;
    }

    /** `setData`, given what the reorder step produced: the reordered collisions and the
        number of files and folders, or `None` when it failed. The first collision becomes
        current; the others, when there are any, replace the pending list. */
    method SetData(reordered: Option<(seq<NameCollisionResult>, int, int)>)
      requires reordered.Some? ==> |reordered.value.0| > 0
      modifies this
      ensures reordered.None? ==> current.None? && pending == old(pending)
      ensures reordered.None? ==>
        pendingFileCollisions == old(pendingFileCollisions) && pendingFolderCollisions == old(pendingFolderCollisions)
      ensures reordered.Some? ==>
        var (list, files, folders) := reordered.value;
        current == Some(list[0])
        && pendingFileCollisions == files && pendingFolderCollisions == folders
        && pending == (if |list| > 1 then list[1..] else old(pending))
      ensures resolved == old(resolved) && collisionsResolution == old(collisionsResolution)
      ensures renameNames == old(renameNames) && actionResult == old(actionResult) && thrown == old(thrown)
      ensures isFolderUploadContext == old(isFolderUploadContext)
      ensures allCollisionsProcessed == old(allCollisionsProcessed)
    {
      if reordered.None? {
        current := None;
        return;
      }
      var (list, files, folders) := reordered.value;
      pendingFileCollisions := files;
      pendingFolderCollisions := folders;
      current := Some(list[0]);
      var rest := list[1..];
      if |rest| > 0 {
        pending := rest;
      }
    }

    /** `continueWithNext`: the queue takes the step `Next`; nothing else changes. */
    method ContinueWithNext(choice: NameCollisionChoice)
      modifies this`current, this`pending, this`pendingFileCollisions, this`pendingFolderCollisions,
               this`resolved, this`collisionsResolution
      ensures Snapshot() == Next(old(Snapshot()), isFolderUploadContext, choice)
    {
      if isFolderUploadContext {
        if current.None? {
          return;
        }
        resolved := resolved + [WithChoice(current.value, choice)];
        if pending == [] {
          collisionsResolution := Some(resolved);
          return;
        }
      }
      if pending == [] {
        current := None;
        return;
      }
      var nextCollision := pending[0];
      pending := pending[1..];
      if nextCollision.nameCollision.isFile {
        pendingFileCollisions := pendingFileCollisions - 1;
      } else {
        pendingFolderCollisions := pendingFolderCollisions - 1;
      }
      current := Some(nextCollision);
    }

    /** `proceedWithAllFiles`: collects the current collision and then one pending head per
        step, moving on each time, until the file counter is 0 (`SweepMeaning` says what
        that amounts to). */
    method ProceedWithAllFiles(choice: NameCollisionChoice) returns (fileCollisions: seq<NameCollisionResult>)
      requires current.Some? && pendingFileCollisions <= FileCount(pending)
      modifies this`current, this`pending, this`pendingFileCollisions, this`pendingFolderCollisions,
               this`resolved, this`collisionsResolution
      ensures var (taken, after) := Sweep(old(Snapshot()), isFolderUploadContext, choice);
        fileCollisions == [old(current).value] + taken && Snapshot() == after
    {
      ghost var goal := Sweep(Snapshot(), isFolderUploadContext, choice);
      ghost var taken: seq<NameCollisionResult> := [];
      fileCollisions := [current.value];
      assert taken + goal.0 == goal.0;
      while pendingFileCollisions > 0
        invariant current.Some? && pendingFileCollisions <= FileCount(pending)
        invariant fileCollisions == [old(current).value] + taken
        invariant goal == (taken + Sweep(Snapshot(), isFolderUploadContext, choice).0,
                           Sweep(Snapshot(), isFolderUploadContext, choice).1)
        decreases |pending|
      {
        SweepAdvance(goal, taken, Snapshot(), isFolderUploadContext, choice);
        var head := pending[0];
        fileCollisions := fileCollisions + [head];
        taken := taken + [head];
        ContinueWithNext(choice);
      }
    }

    /** `getAllPendingCollisions`: the current collision followed by every pending one, in
        order; the pending list is emptied and the counters are left alone. */
    method GetAllPendingCollisions() returns (all: seq<NameCollisionResult>)
      requires current.Some?
      modifies this
      ensures all == [old(current).value] + old(pending)
      ensures State() == TakeAll(old(State()))
      ensures pending == [] && allCollisionsProcessed
      ensures pendingFileCollisions == old(pendingFileCollisions)
      ensures pendingFolderCollisions == old(pendingFolderCollisions)
      ensures current == old(current) && resolved == old(resolved)
      ensures collisionsResolution == old(collisionsResolution) && isFolderUploadContext == old(isFolderUploadContext)
      ensures renameNames == old(renameNames) && actionResult == old(actionResult) && thrown == old(thrown)
    {
      all := [current.value] + pending;
      allCollisionsProcessed := true;
      pending := [];
    }

    /** `cancelAll`: in a folder-upload context every remaining collision is logged as
        cancelled and the log is published; otherwise the current collision is cleared. */
    method CancelAll()
      requires isFolderUploadContext ==> current.Some?
      modifies this
      ensures State() == CancelAllEffect(old(State()), old(isFolderUploadContext))
      ensures old(isFolderUploadContext) ==>
        resolved == old(resolved) + TagAll([old(current).value] + old(pending), CANCEL)
        && collisionsResolution == Some(resolved) && pending == [] && allCollisionsProcessed
        && current == old(current)
      ensures !old(isFolderUploadContext) ==>
        current.None? && pending == old(pending) && resolved == old(resolved)
        && collisionsResolution == old(collisionsResolution)
        && allCollisionsProcessed == old(allCollisionsProcessed)
      ensures pendingFileCollisions == old(pendingFileCollisions)
      ensures pendingFolderCollisions == old(pendingFolderCollisions)
      ensures isFolderUploadContext == old(isFolderUploadContext) && renameNames == old(renameNames)
      ensures actionResult == old(actionResult) && thrown == old(thrown)
    {
      if isFolderUploadContext {
        var all := GetAllPendingCollisions();
        resolved := resolved + TagAll(all, CANCEL);
        collisionsResolution := Some(resolved);
      } else {
        current := None;
      }
    }

    /** `cancel`: the three-way split on "apply on next". */
    method Cancel(applyOnNext: bool)
      requires ReachOf(applyOnNext, pendingFileCollisions, pendingFolderCollisions) == FilesOnly ==>
        current.Some? && pendingFileCollisions <= FileCount(pending)
      requires ReachOf(applyOnNext, pendingFileCollisions, pendingFolderCollisions) == Everything ==>
        (isFolderUploadContext ==> current.Some?)
      modifies this
      ensures State() == CancelEffect(old(State()), old(isFolderUploadContext), applyOnNext)
      ensures renameNames == old(renameNames)
      ensures ReachOf(applyOnNext, old(pendingFileCollisions), old(pendingFolderCollisions)) == FilesOnly ==>
        pendingFileCollisions == 0
        && pending == old(pending)[FilesPrefixLength(old(pending), old(pendingFileCollisions))..]
      ensures ReachOf(applyOnNext, old(pendingFileCollisions), old(pendingFolderCollisions)) == Everything ==>
        (if old(isFolderUploadContext) then pending == [] && collisionsResolution == Some(resolved)
         else current.None? && pending == old(pending))
      ensures !applyOnNext && old(pending) != [] && (old(current).Some? || !old(isFolderUploadContext)) ==>
        current == Some(old(pending)[0]) && pending == old(pending)[1..]
      ensures old(CountersMatch()) && !applyOnNext ==> CountersMatch()
      ensures isFolderUploadContext == old(isFolderUploadContext)
      ensures actionResult == old(actionResult) && thrown == old(thrown)
    {
      var reach := ReachOf(applyOnNext, pendingFileCollisions, pendingFolderCollisions);
      match reach
      case FilesOnly =>
        ghost var q := Snapshot();
        var _ := ProceedWithAllFiles(CANCEL);
        SweepTakes(q, isFolderUploadContext, CANCEL);
        SweepCounters(q, isFolderUploadContext, CANCEL);
      case Everything =>
        CancelAll();
      case Single =>
        ContinueWithNext(CANCEL);
    }

    /** `setUploadResult`, `setMovementResult`, `setCopyResult`: the screen should finish
        exactly when nothing is pending. */
    method SetActionResult(message: ResultMessage)
      modifies this
      ensures actionResult == Some(ActionResult(message, pending == []))
      ensures State() == WithResult(old(State()), message)
      ensures current == old(current) && pending == old(pending) && resolved == old(resolved)
      ensures pendingFileCollisions == old(pendingFileCollisions)
      ensures pendingFolderCollisions == old(pendingFolderCollisions)
      ensures collisionsResolution == old(collisionsResolution)
      ensures allCollisionsProcessed == old(allCollisionsProcessed)
      ensures isFolderUploadContext == old(isFolderUploadContext)
      ensures renameNames == old(renameNames) && thrown == old(thrown)
    {
      actionResult := Some(ActionResult(message, pending == []));
    }

    /** `upload(list)`: in a folder-upload context the list is logged with the choice and
        the log is published once nothing is pending; otherwise the uploads start and, when
        they do, the result reports how many. */
    method Upload(list: seq<NameCollisionResult>, rename: bool, outcome: Outcome)
      modifies this
      ensures State() == UploadEffect(old(State()), list, ChoiceFor(rename), old(isFolderUploadContext), outcome)
      ensures old(isFolderUploadContext) ==>
        resolved == old(resolved) + TagAll(list, ChoiceFor(rename))
        && actionResult == old(actionResult)
        && collisionsResolution == (if pending == [] then Some(resolved) else old(collisionsResolution))
      ensures !old(isFolderUploadContext) ==>
        resolved == old(resolved) && collisionsResolution == old(collisionsResolution)
        && actionResult == (if outcome == Done then Some(ActionResult(UploadBegan(|list|), pending == []))
                            else old(actionResult))
      ensures current == old(current) && pending == old(pending)
      ensures pendingFileCollisions == old(pendingFileCollisions)
      ensures pendingFolderCollisions == old(pendingFolderCollisions)
      ensures allCollisionsProcessed == old(allCollisionsProcessed)
      ensures isFolderUploadContext == old(isFolderUploadContext)
      ensures renameNames == old(renameNames) && thrown == old(thrown)
    {
      if isFolderUploadContext {
        resolved := resolved + TagAll(list, ChoiceFor(rename));
        if pending == [] {
          collisionsResolution := Some(resolved);
        }
        return;
      }
      if outcome == Done {
        SetActionResult(UploadBegan(|list|));
      }
    }

    /** `singleUpload`: in a folder-upload context the choice only moves the queue on;
        otherwise the upload starts, and once it has the result is set and the queue moves
        on (a failed upload changes nothing). */
    method SingleUpload(rename: bool, outcome: Outcome)
      requires !isFolderUploadContext ==> current.Some?
      modifies this
      ensures State() == SingleUploadEffect(old(State()), ChoiceFor(rename), old(isFolderUploadContext), outcome)
      ensures !old(isFolderUploadContext) && outcome == Done ==>
        actionResult == Some(ActionResult(UploadBegan(1), old(pending) == []))
      ensures !old(isFolderUploadContext) && outcome == Error ==>
        current == old(current) && pending == old(pending) && actionResult == old(actionResult)
      ensures (old(isFolderUploadContext) || outcome == Done) && old(pending) != [] && old(current).Some? ==>
        current == Some(old(pending)[0]) && pending == old(pending)[1..]
      ensures old(CountersMatch()) ==> CountersMatch()
      ensures isFolderUploadContext == old(isFolderUploadContext) && thrown == old(thrown)
      ensures renameNames == old(renameNames)
    {
      var choice := ChoiceFor(rename);
      if isFolderUploadContext {
        ContinueWithNext(choice);
        return;
      }
      if outcome == Done {
        SetActionResult(UploadBegan(1));
        ContinueWithNext(choice);
      }
    }

    /** `singleMovement` and `singleCopy`: success sets the result and moves the queue on;
        an error is posted and the queue stays where it is. */
    method SingleTransfer(message: ResultMessage, rename: bool, outcome: Outcome)
      requires current.Some?
      modifies this
      ensures State() == SingleTransferEffect(old(State()), message, ChoiceFor(rename), old(isFolderUploadContext), outcome)
      ensures outcome == Done ==>
        actionResult == Some(ActionResult(message, old(pending) == [])) && thrown == old(thrown)
      ensures outcome == Done && old(pending) != [] ==>
        current == Some(old(pending)[0]) && pending == old(pending)[1..]
      ensures outcome == Error ==>
        thrown && current == old(current) && pending == old(pending) && actionResult == old(actionResult)
        && pendingFileCollisions == old(pendingFileCollisions)
        && pendingFolderCollisions == old(pendingFolderCollisions)
        && resolved == old(resolved)
      ensures old(CountersMatch()) ==> CountersMatch()
      ensures isFolderUploadContext == old(isFolderUploadContext) && renameNames == old(renameNames)
    {
      var choice := ChoiceFor(rename);
      if outcome == Done {
        SetActionResult(message);
        ContinueWithNext(choice);
      } else {
        thrown := true;
      }
    }

    /** `move(list)` and `copy(list)`: success sets the result, an error is posted. */
    method Transfer(message: ResultMessage, outcome: Outcome)
      modifies this
      ensures State() == TransferEffect(old(State()), message, outcome)
      ensures outcome == Done ==> actionResult == Some(ActionResult(message, pending == [])) && thrown == old(thrown)
      ensures outcome == Error ==> thrown && actionResult == old(actionResult)
      ensures current == old(current) && pending == old(pending) && resolved == old(resolved)
      ensures pendingFileCollisions == old(pendingFileCollisions)
      ensures pendingFolderCollisions == old(pendingFolderCollisions)
      ensures collisionsResolution == old(collisionsResolution)
      ensures allCollisionsProcessed == old(allCollisionsProcessed)
      ensures isFolderUploadContext == old(isFolderUploadContext) && renameNames == old(renameNames)
    {
      if outcome == Done {
        SetActionResult(message);
      } else {
        thrown := true;
      }
    }

    /** `proceedWithAction`: the choice is a rename or a replace/update/merge, the collision
        type picks upload, move or copy, and "apply on next" picks how far it reaches. */
    method ProceedWithAction(applyOnNext: bool, rename: bool, outcome: Outcome)
      requires ProceedAllowed(State(), isFolderUploadContext, applyOnNext)
      modifies this
      ensures State() == ProceedEffect(old(State()), old(isFolderUploadContext), applyOnNext, rename, outcome)
      ensures ReachOf(applyOnNext, old(pendingFileCollisions), old(pendingFolderCollisions)) == FilesOnly ==>
        pendingFileCollisions == 0
        && pending == old(pending)[FilesPrefixLength(old(pending), old(pendingFileCollisions))..]
      ensures ReachOf(applyOnNext, old(pendingFileCollisions), old(pendingFolderCollisions)) == Everything ==>
        pending == [] && allCollisionsProcessed
      ensures !applyOnNext && CollisionType(old(current)) != UPLOAD && outcome == Error ==>
        thrown && current == old(current) && pending == old(pending)
      ensures !applyOnNext && outcome == Done && old(pending) != [] && old(current).Some? ==>
        current == Some(old(pending)[0]) && pending == old(pending)[1..]
      ensures old(CountersMatch()) && !applyOnNext ==> CountersMatch()
      ensures isFolderUploadContext == old(isFolderUploadContext) && renameNames == old(renameNames)
    {
      var choice := ChoiceFor(rename);
      var reach := ReachOf(applyOnNext, pendingFileCollisions, pendingFolderCollisions);
      var kind := CollisionType(current);
      var message := TransferMessage(kind);
      match reach
      case FilesOnly =>
        ghost var q := Snapshot();
        var list := ProceedWithAllFiles(choice);
        SweepTakes(q, isFolderUploadContext, choice);
        SweepCounters(q, isFolderUploadContext, choice);
        if kind == UPLOAD {
          Upload(list, rename, outcome);
        } else {
          Transfer(message, outcome);
        }
      case Everything =>
        var list := GetAllPendingCollisions();
        if kind == UPLOAD {
          Upload(list, rename, outcome);
        } else {
          Transfer(message, outcome);
        }
      case Single =>
        if kind == UPLOAD {
          SingleUpload(rename, outcome);
        } else {
          SingleTransfer(message, rename, outcome);
        }
    }

    /** `rename`: the current collision's rename name is remembered and, once the pending
        names have been updated, the action proceeds as a rename. */
    method Rename(applyOnNext: bool, updated: bool, outcome: Outcome)
      requires current.Some? && current.value.renameName.Some?
      requires updated ==> ProceedAllowed(State(), isFolderUploadContext, applyOnNext)
      modifies this
      ensures renameNames == old(renameNames) + [old(current).value.renameName.value]
      ensures !updated ==> State() == old(State())
      ensures updated ==> State() == ProceedEffect(old(State()), old(isFolderUploadContext), applyOnNext, true, outcome)
      ensures !updated ==> current == old(current) && pending == old(pending) && actionResult == old(actionResult)
      ensures updated && ReachOf(applyOnNext, old(pendingFileCollisions), old(pendingFolderCollisions)) == Everything ==>
        pending == [] && allCollisionsProcessed
      ensures updated && !applyOnNext && outcome == Done && old(pending) != [] ==>
        current == Some(old(pending)[0]) && pending == old(pending)[1..]
      ensures isFolderUploadContext == old(isFolderUploadContext)
    {
      renameNames := renameNames + [current.value.renameName.value];
      if updated {
        ProceedWithAction(applyOnNext, true, outcome);
      }
    }
  }
}
