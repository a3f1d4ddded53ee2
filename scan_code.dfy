/** `ScanCodeFragment`: the QR scanner screen. A scanned contact link is split at "C!" and
    the handle after the MEGA prefix is queried; a camera preview that fails to start is
    restarted a bounded number of times. */
module ScanCode {
  import opened Common

  /** The prefix a contact link must carry before its first "C!". */
  const LINK_PREFIX: string := "https://mega.nz/"
  const CONTACT_MARK: string := "C!"
  /** `START_PREVIEW_RETRY`. */
  const START_PREVIEW_RETRY: int := 5

  /** What `invite` does with a scanned text: show the invalid-code label, or query the
      contact link handle. */
  datatype InviteOutcome = Invalid | Query(handle: string)

  /** The text after the first "C!" up to the next "C!", or to the end. */
  function SecondPiece(text: string, k: nat): string
    requires k + |CONTACT_MARK| <= |text|
  {
    var rest := text[k + |CONTACT_MARK|..];
    match IndexOf(rest, CONTACT_MARK)
    case None => rest
    case Some(j) => rest[..j]
  }

  /** `invite`'s branching on `split("C!")`: no "C!" at all, or a first piece other than
      the MEGA prefix, is invalid; otherwise the second piece (possibly empty) is queried. */
  function ParseInvite(text: string): (r: InviteOutcome)
    ensures IndexOf(text, CONTACT_MARK).None? ==> r.Invalid?
    ensures r.Query? <==>
      IndexOf(text, CONTACT_MARK).Some? && text[..IndexOf(text, CONTACT_MARK).value] == LINK_PREFIX
    ensures r.Query? ==> r.handle == SecondPiece(text, IndexOf(text, CONTACT_MARK).value)
  {
    var s := Split(text, CONTACT_MARK);
    SplitHead(text, CONTACT_MARK);
    if |s| <= 1 then Invalid
    else if s[0] != LINK_PREFIX then Invalid
    else
      var k := IndexOf(text, CONTACT_MARK).value;
      SplitHead(text[k + |CONTACT_MARK|..], CONTACT_MARK);
      Query(s[1])
  }

  /** A link made of the MEGA prefix, "C!" and a handle without "C!" parses back to that handle. */
  lemma InviteRoundTrip(handle: string)
    requires IndexOf(handle, CONTACT_MARK).None?
    ensures ParseInvite(LINK_PREFIX + CONTACT_MARK + handle) == Query(handle)
  {
    var text := LINK_PREFIX + CONTACT_MARK + handle;
    var k := |LINK_PREFIX|;
    forall j | 0 <= j < k ensures !OccursAt(text, CONTACT_MARK, j) {
      assert text[j] == LINK_PREFIX[j];
      assert LINK_PREFIX[j] != 'C';
    }
    assert OccursAt(text, CONTACT_MARK, k) by {
      assert text[k..k + 2] == CONTACT_MARK;
    }
    assert IndexOf(text, CONTACT_MARK) == Some(k);
    assert text[..k] == LINK_PREFIX;
    assert text[k + |CONTACT_MARK|..] == handle;
  }

  /** The fragment state the scanner callbacks touch. */
  class ScanCodeScreen {
    /** `mStartPreviewRetried`: preview errors seen so far; never reset. */
    var startPreviewRetried: int
    /** How many times `startPreview` has been asked for. */
    var previewStarts: nat
    /** Restarts scheduled after a preview error. */
    var scheduledRetries: nat
    /** `inviteAlertDialog != null` and `requestedAlertDialog != null`. */
    var inviteDialogShowing: bool
    var requestedDialogShowing: bool
    /** Visibility of the invalid-code label. */
    var invalidCodeVisible: bool
    /** Handles passed to `queryContactLink`, oldest first. */
    var queried: seq<string>

    constructor ()
      ensures startPreviewRetried == 0 && previewStarts == 0 && scheduledRetries == 0
      ensures !inviteDialogShowing && !requestedDialogShowing && !invalidCodeVisible
      ensures queried == []
    {
      startPreviewRetried := 0;
      previewStarts := 0;
      scheduledRetries := 0;
      inviteDialogShowing := false;
      requestedDialogShowing := false;
      invalidCodeVisible := false;
      queried := [];
    }

    /** The error callback: the n-th error (counting from the first) schedules a restart
        iff n <= START_PREVIEW_RETRY; the counter only grows. */
    method OnPreviewError() returns (retry: bool)
      modifies this
      ensures startPreviewRetried == old(startPreviewRetried) + 1
      ensures retry <==> startPreviewRetried <= START_PREVIEW_RETRY
      ensures scheduledRetries == old(scheduledRetries) + (if retry then 1 else 0)
      ensures previewStarts == old(previewStarts) && queried == old(queried)
      ensures invalidCodeVisible == old(invalidCodeVisible)
      ensures inviteDialogShowing == old(inviteDialogShowing)
      ensures requestedDialogShowing == old(requestedDialogShowing)
    {
      retry := startPreviewRetried < START_PREVIEW_RETRY;
      startPreviewRetried := startPreviewRetried + 1;
      if retry {
        scheduledRetries := scheduledRetries + 1;
      }
    }

    /** `invite`: the preview is restarted first, whatever the text; then the label and
        the query follow `ParseInvite`. */
    method Invite(text: string)
      modifies this
      ensures previewStarts == old(previewStarts) + 1
      ensures invalidCodeVisible <==> ParseInvite(text).Invalid?
      ensures queried == old(queried) + (if ParseInvite(text).Query? then [ParseInvite(text).handle] else [])
      ensures startPreviewRetried == old(startPreviewRetried)
      ensures scheduledRetries == old(scheduledRetries)
      ensures inviteDialogShowing == old(inviteDialogShowing)
      ensures requestedDialogShowing == old(requestedDialogShowing)
    {
      previewStarts := previewStarts + 1;
      match ParseInvite(text)
      case Invalid =>
        invalidCodeVisible := true;
      case Query(handle) =>
        invalidCodeVisible := false;
        queried := queried + [handle];
    }

    /** The decode callback: a result is acted on only when neither dialog is showing. */
    method OnDecoded(text: string)
      modifies this
      ensures inviteDialogShowing || requestedDialogShowing ==>
        previewStarts == old(previewStarts) && queried == old(queried)
        && invalidCodeVisible == old(invalidCodeVisible)
      ensures !inviteDialogShowing && !requestedDialogShowing ==>
        previewStarts == old(previewStarts) + 1
        && (invalidCodeVisible <==> ParseInvite(text).Invalid?)
        && queried == old(queried) + (if ParseInvite(text).Query? then [ParseInvite(text).handle] else [])
      ensures startPreviewRetried == old(startPreviewRetried)
      ensures scheduledRetries == old(scheduledRetries)
      ensures inviteDialogShowing == old(inviteDialogShowing)
      ensures requestedDialogShowing == old(requestedDialogShowing)
    {
      if !inviteDialogShowing && !requestedDialogShowing {
        Invite(text);
      }
    }
  }

  /** Starting from a fresh screen, after n preview errors the counter is n, and exactly
      min(n, START_PREVIEW_RETRY) restarts have been scheduled. */
  method PreviewErrors(n: nat) returns (screen: ScanCodeScreen)
    ensures screen.startPreviewRetried == n
    ensures screen.scheduledRetries == if n <= START_PREVIEW_RETRY then n else START_PREVIEW_RETRY
  {
    screen := new ScanCodeScreen();
    var i := 0;
    while i < n
      invariant 0 <= i <= n
      invariant screen.startPreviewRetried == i
      invariant screen.scheduledRetries == if i <= START_PREVIEW_RETRY then i else START_PREVIEW_RETRY
    {
      var _ := screen.OnPreviewError();
      i := i + 1;
    }
  }
}
