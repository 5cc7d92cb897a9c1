/** The editor's document state and the three file handlers as transitions:
    each takes the state and what the file gateway answered, and gives the new
    state, the gateway requests issued in order, and the notice shown. */
module Document {
  import opened Nullable

  /** The two pieces of state: the editable text and the file path. */
  datatype Doc = Doc(text: string, filePath: Option<string>)

  /** State at start-up: empty text, no path. */
  const NewDoc := Doc("", None)

  /** What the `open_file` command answered: the content and path it read, or
      an exception (any failure, including a dismissed picker). */
  datatype OpenResult = OpenOk(content: string, path: string) | OpenError(reason: string)

  /** What the save dialog answered: a selected path, `null`, or an exception. */
  datatype DialogResult = Picked(path: string) | Dismissed | DialogError(reason: string)

  /** What the `save_file` command answered: the path written, or an exception. */
  datatype WriteResult = WriteOk(path: string) | WriteError(reason: string)

  /** A request to the gateway. */
  datatype Request = OpenFileReq | SaveDialogReq | SaveFileReq(content: string, path: string)

  /** Kind of alert shown at the end of a handler, with what it reports. */
  datatype Notice = FileOpened(path: string) | FileSaved(path: string) | SaveCancelled | ErrorNotice(reason: string)

  /** Outcome of one handler. */
  datatype Step = Step(doc: Doc, requests: seq<Request>, notice: Notice)

  /** `if (selectedPath)`: the dialog gave a non-empty path. */
  predicate Selected(dialog: DialogResult)
  {
    dialog.Picked? && dialog.path != ""
  }

  /** `handleOpenFile`: commit both fields from the gateway's answer, or keep
      everything when it throws. The notice reports the opened path exactly
      when the open succeeded. */
  function OpenFile(d: Doc, result: OpenResult): (r: Step)
    ensures r.requests == [OpenFileReq]
    ensures r.notice.FileOpened? <==> result.OpenOk?
    ensures r.notice.FileOpened? ==> r.doc.filePath == Some(r.notice.path)
    ensures result.OpenError? ==> r.doc == d && r.notice == ErrorNotice(result.reason)
  {
    match result
    case OpenOk(content, path) => Step(Doc(content, Some(path)), [OpenFileReq], FileOpened(path))
    case OpenError(reason) => Step(d, [OpenFileReq], ErrorNotice(reason))
  }

  /** The `save_file` call both save handlers end with: write the text to
      `target` after the requests already issued, and adopt the path the
      gateway confirms. */
  function WriteText(d: Doc, target: string, write: WriteResult, before: seq<Request>): (r: Step)
    ensures r.requests == before + [SaveFileReq(d.text, target)]
    ensures r.doc.text == d.text
    ensures write.WriteOk? ==> r.doc.filePath == Some(write.path) && r.notice == FileSaved(write.path)
    ensures write.WriteError? ==> r.doc == d && r.notice == ErrorNotice(write.reason)
  {
    var requests := before + [SaveFileReq(d.text, target)];
    match write
    case WriteOk(path) => Step(d.(filePath := Some(path)), requests, FileSaved(path))
    case WriteError(reason) => Step(d, requests, ErrorNotice(reason))
  }

  /** `handleSaveFile`: write to the current path when it is truthy, otherwise
      ask the save dialog first. The text never changes; the path changes only
      when the notice reports a saved file, and then to the path it reports.
      A dismissed dialog gives the cancellation notice, a throwing dialog or
      write the error notice with its reason. */
  function SaveFile(d: Doc, dialog: DialogResult, write: WriteResult): (r: Step)
    ensures r.doc.text == d.text
    ensures r.notice.FileSaved? ==> r.doc == d.(filePath := Some(r.notice.path))
    ensures !r.notice.FileSaved? ==> r.doc == d
    ensures !Truthy(d.filePath) && (dialog.Dismissed? || dialog == Picked("")) ==> r.notice == SaveCancelled
    ensures !Truthy(d.filePath) && dialog.DialogError? ==> r.notice == ErrorNotice(dialog.reason)
    ensures (Truthy(d.filePath) || Selected(dialog)) && write.WriteOk? ==> r.notice == FileSaved(write.path)
    ensures (Truthy(d.filePath) || Selected(dialog)) && write.WriteError? ==> r.notice == ErrorNotice(write.reason)
    ensures r.notice == SaveCancelled <==> !Truthy(d.filePath) && !Selected(dialog) && !dialog.DialogError?
  {
    if Truthy(d.filePath) then
      WriteText(d, d.filePath.value, write, [])
    else
      match dialog
      case DialogError(reason) => Step(d, [SaveDialogReq], ErrorNotice(reason))
      case Dismissed => Step(d, [SaveDialogReq], SaveCancelled)
      case Picked(path) =>
        if path == "" then Step(d, [SaveDialogReq], SaveCancelled)
        else WriteText(d, path, write, [SaveDialogReq])
  }

  /** `handleSaveFileAs`: always ask the save dialog, then write to the
      selection. Its notices follow the same rules as those of `SaveFile`. */
  function SaveFileAs(d: Doc, dialog: DialogResult, write: WriteResult): (r: Step)
    ensures r.doc.text == d.text
    ensures r.notice.FileSaved? ==> r.doc == d.(filePath := Some(r.notice.path))
    ensures !r.notice.FileSaved? ==> r.doc == d
    ensures (dialog.Dismissed? || dialog == Picked("")) ==> r.notice == SaveCancelled
    ensures dialog.DialogError? ==> r.notice == ErrorNotice(dialog.reason)
    ensures Selected(dialog) && write.WriteOk? ==> r.notice == FileSaved(write.path)
    ensures Selected(dialog) && write.WriteError? ==> r.notice == ErrorNotice(write.reason)
    ensures r.notice == SaveCancelled <==> !Selected(dialog) && !dialog.DialogError?
  {
    match dialog
    case DialogError(reason) => Step(d, [SaveDialogReq], ErrorNotice(reason))
    case Dismissed => Step(d, [SaveDialogReq], SaveCancelled)
    case Picked(path) =>
      if path != "" then WriteText(d, path, write, [SaveDialogReq])
      else Step(d, [SaveDialogReq], SaveCancelled)
  }

  /** The textarea's `onChange`: the text becomes what the user typed. */
  function Edit(d: Doc, value: string): (r: Doc)
    ensures r.text == value
    ensures r.filePath == d.filePath
  {
    d.(text := value)
  }

  // ----- Open -----

  /** A successful open commits both fields at once, and the result does not
      depend on the previous state at all. */
  lemma OpenReplacesAtomically(d: Doc, other: Doc, result: OpenResult)
    requires result.OpenOk?
    ensures OpenFile(d, result).doc == Doc(result.content, Some(result.path))
    ensures OpenFile(d, result).doc == OpenFile(other, result).doc
    ensures OpenFile(d, result).notice == FileOpened(result.path)
  {
  }

  /** A failed open leaves text and path as they were. */
  lemma FailedOpenChangesNothing(d: Doc, result: OpenResult)
    requires result.OpenError?
    ensures OpenFile(d, result).doc == d
    ensures OpenFile(d, result).notice == ErrorNotice(result.reason)
  {
  }

  /** Open commits everything or nothing, and issues exactly one request. */
  lemma OpenIsAllOrNothing(d: Doc, result: OpenResult)
    ensures var r := OpenFile(d, result);
      r.requests == [OpenFileReq] &&
      (r.doc == d || (result.OpenOk? && r.doc == Doc(result.content, Some(result.path))))
  {
  }

  // ----- Save -----

  /** Save on a document with a truthy path asks no dialog, writes the current
      text to that path once, and adopts the path the write confirms. */
  lemma SaveWithPathWritesInPlace(d: Doc, dialog: DialogResult, write: WriteResult)
    requires Truthy(d.filePath)
    ensures SaveFile(d, dialog, write).requests == [SaveFileReq(d.text, d.filePath.value)]
    ensures SaveDialogReq !in SaveFile(d, dialog, write).requests
    ensures write.WriteOk? ==> SaveFile(d, dialog, write).doc == Doc(d.text, Some(write.path))
  {
  }

  /** Save on a document whose path is `null` or empty asks the dialog exactly
      once, before any write; when the dialog gives no path nothing is written
      and nothing changes. */
  lemma SaveWithoutPathAsksFirst(d: Doc, dialog: DialogResult, write: WriteResult)
    requires !Truthy(d.filePath)
    ensures var r := SaveFile(d, dialog, write);
      |r.requests| >= 1 && r.requests[0] == SaveDialogReq && SaveDialogReq !in r.requests[1..]
    ensures !Selected(dialog) ==>
      SaveFile(d, dialog, write).requests == [SaveDialogReq] && SaveFile(d, dialog, write).doc == d
    ensures Selected(dialog) ==>
      SaveFile(d, dialog, write).requests == [SaveDialogReq, SaveFileReq(d.text, dialog.path)]
  {
  }

  /** On a new document, Save behaves exactly as Save As. */
  lemma SaveOnNewDocumentIsSaveAs(d: Doc, dialog: DialogResult, write: WriteResult)
    requires !Truthy(d.filePath)
    ensures SaveFile(d, dialog, write) == SaveFileAs(d, dialog, write)
  {
  }

  // ----- Save As -----

  /** Save As asks the dialog even when a path is set; a dismissed dialog
      writes nothing and changes nothing; a successful write adopts the path
      the gateway confirms, not the raw selection. */
  lemma SaveAsAlwaysAsks(d: Doc, dialog: DialogResult, write: WriteResult)
    ensures var r := SaveFileAs(d, dialog, write);
      |r.requests| >= 1 && r.requests[0] == SaveDialogReq
    ensures !Selected(dialog) ==>
      SaveFileAs(d, dialog, write).requests == [SaveDialogReq] &&
      SaveFileAs(d, dialog, write).doc == d
    ensures Selected(dialog) ==>
      SaveFileAs(d, dialog, write).requests == [SaveDialogReq, SaveFileReq(d.text, dialog.path)]
    ensures Selected(dialog) && write.WriteOk? ==>
      SaveFileAs(d, dialog, write).doc.filePath == Some(write.path)
  {
  }

  // ----- Properties shared by both save handlers -----

  /** A failed write never changes the path: in particular the path chosen in
      the dialog is not adopted. */
  lemma FailedWriteKeepsPath(d: Doc, dialog: DialogResult, write: WriteResult)
    requires write.WriteError?
    ensures SaveFile(d, dialog, write).doc == d
    ensures SaveFileAs(d, dialog, write).doc == d
  {
  }

  /** Saving never changes the text, and every write carries that text. */
  lemma SavesKeepText(d: Doc, dialog: DialogResult, write: WriteResult)
    ensures SaveFile(d, dialog, write).doc.text == d.text
    ensures SaveFileAs(d, dialog, write).doc.text == d.text
    ensures forall q :: q in SaveFile(d, dialog, write).requests && q.SaveFileReq? ==> q.content == d.text
    ensures forall q :: q in SaveFileAs(d, dialog, write).requests && q.SaveFileReq? ==> q.content == d.text
  {
  }

  /** A save changes the path only to a path the gateway confirmed. */
  lemma SavesAdoptOnlyConfirmedPaths(d: Doc, dialog: DialogResult, write: WriteResult)
    ensures SaveFile(d, dialog, write).doc == d ||
            (write.WriteOk? && SaveFile(d, dialog, write).doc == d.(filePath := Some(write.path)))
    ensures SaveFileAs(d, dialog, write).doc == d ||
            (write.WriteOk? && SaveFileAs(d, dialog, write).doc == d.(filePath := Some(write.path)))
  {
  }

  /** Saving to the path already set, when the gateway confirms that same path,
      leaves the document as it was. */
  lemma SaveIsIdempotent(d: Doc, dialog: DialogResult)
    requires Truthy(d.filePath)
    ensures SaveFile(d, dialog, WriteOk(d.filePath.value)).doc == d
  {
  }
}
