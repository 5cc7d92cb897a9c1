/** Sequences of user actions on one document: what they leave in the state,
    which requests they send, and where the path can come from. */
module Sessions {
  import opened Nullable
  import opened Document
  import WindowTitle

  /** One user action, with the gateway's answers it will receive. */
  datatype Action =
    | Open(result: OpenResult)
    | Save(dialog: DialogResult, write: WriteResult)
    | SaveAs(dialog: DialogResult, write: WriteResult)
    | Type(value: string)

  /** State after one action. */
  function After(d: Doc, a: Action): Doc
  {
    match a
    case Open(result) => OpenFile(d, result).doc
    case Save(dialog, write) => SaveFile(d, dialog, write).doc
    case SaveAs(dialog, write) => SaveFileAs(d, dialog, write).doc
    case Type(value) => Edit(d, value)
  }

  /** Requests one action sends; typing sends none. */
  function Sent(d: Doc, a: Action): seq<Request>
  {
    match a
    case Open(result) => OpenFile(d, result).requests
    case Save(dialog, write) => SaveFile(d, dialog, write).requests
    case SaveAs(dialog, write) => SaveFileAs(d, dialog, write).requests
    case Type(_) => []
  }

  /** State after performing `actions` in order. */
  function Run(d: Doc, actions: seq<Action>): Doc
    decreases |actions|
  {
    if actions == [] then d else Run(After(d, actions[0]), actions[1..])
  }

  /** Requests sent while performing `actions` in order. */
  function Log(d: Doc, actions: seq<Action>): seq<Request>
    decreases |actions|
  {
    if actions == [] then []
    else Sent(d, actions[0]) + Log(After(d, actions[0]), actions[1..])
  }

  predicate IsSave(a: Action)
  {
    a.Save? || a.SaveAs?
  }

  /** The path the gateway handed back to one action on `d`: the path an
      open returned, or the path a write that was actually sent confirmed. */
  function Returned(d: Doc, a: Action): set<string>
  {
    match a
    case Open(OpenOk(_, path)) => {path}
    case Save(dialog, WriteOk(path)) => if Truthy(d.filePath) || Selected(dialog) then {path} else {}
    case SaveAs(dialog, WriteOk(path)) => if Selected(dialog) then {path} else {}
    case _ => {}
  }

  /** The paths the gateway handed back while performing `actions` from `d`. */
  function ConfirmedPaths(d: Doc, actions: seq<Action>): set<string>
    decreases |actions|
  {
    if actions == [] then {}
    else Returned(d, actions[0]) + ConfirmedPaths(After(d, actions[0]), actions[1..])
  }

  /** The action on `d` gets no successful answer from the gateway: the open
      throws, or the save's dialog gives no path, or its write throws. */
  predicate Unsuccessful(d: Doc, a: Action)
  {
    match a
    case Open(result) => result.OpenError?
    case Save(dialog, write) => write.WriteError? || (!Truthy(d.filePath) && !Selected(dialog))
    case SaveAs(dialog, write) => write.WriteError? || !Selected(dialog)
    case Type(_) => false
  }

  /** Any number of saves leaves the text alone, and every write they send
      carries that text. */
  lemma {:induction false} SavesNeverTouchText(d: Doc, actions: seq<Action>)
    requires forall i :: 0 <= i < |actions| ==> IsSave(actions[i])
    ensures Run(d, actions).text == d.text
    ensures forall q :: q in Log(d, actions) && q.SaveFileReq? ==> q.content == d.text
    decreases |actions|
  {
    if actions != [] {
      var next := After(d, actions[0]);
      SavesKeepText(d, actions[0].dialog, actions[0].write);
      SavesNeverTouchText(next, actions[1..]);
    }
  }

  /** The path after any session is the initial one or one the gateway
      confirmed; a path typed into the dialog is never adopted on its own. */
  lemma {:induction false} PathComesFromGateway(d: Doc, actions: seq<Action>)
    ensures Run(d, actions).filePath == d.filePath ||
            (Run(d, actions).filePath.Some? && Run(d, actions).filePath.value in ConfirmedPaths(d, actions))
    decreases |actions|
  {
    if actions != [] {
      var next := After(d, actions[0]);
      PathComesFromGateway(next, actions[1..]);
      match actions[0]
      case Open(result) =>
      case Save(dialog, write) => SavesAdoptOnlyConfirmedPaths(d, dialog, write);
      case SaveAs(dialog, write) => SavesAdoptOnlyConfirmedPaths(d, dialog, write);
      case Type(_) =>
    }
  }

  /** Once a document has a path it never goes back to having none. */
  lemma {:induction false} PathIsNeverCleared(d: Doc, actions: seq<Action>)
    requires d.filePath.Some?
    ensures Run(d, actions).filePath.Some?
    decreases |actions|
  {
    if actions != [] {
      PathIsNeverCleared(After(d, actions[0]), actions[1..]);
    }
  }

  /** A session in which every gateway call fails or its dialog is dismissed,
      and nothing is typed, leaves the document exactly as it was, whatever the
      unused answers would have been. */
  lemma {:induction false} FailuresChangeNothing(d: Doc, actions: seq<Action>)
    requires forall i :: 0 <= i < |actions| ==> Unsuccessful(d, actions[i])
    ensures Run(d, actions) == d
    decreases |actions|
  {
    if actions != [] {
      match actions[0] {
        case Open(result) =>
        case Save(dialog, write) =>
          if write.WriteError? {
            FailedWriteKeepsPath(d, dialog, write);
          } else {
            SaveWithoutPathAsksFirst(d, dialog, write);
          }
        case SaveAs(dialog, write) =>
          if write.WriteError? {
            FailedWriteKeepsPath(d, dialog, write);
          } else {
            SaveAsAlwaysAsks(d, dialog, write);
          }
      }
      FailuresChangeNothing(d, actions[1..]);
    }
  }

  /** After a first Save of a new document is confirmed at a non-empty path,
      the next Save asks no dialog and writes straight to that path. */
  lemma SecondSaveAsksNoDialog(d: Doc, dialog1: DialogResult, confirmed: string,
                               dialog2: DialogResult, write2: WriteResult)
    requires Selected(dialog1) && confirmed != ""
    ensures var saved := SaveFile(d, dialog1, WriteOk(confirmed)).doc;
      saved.filePath == Some(confirmed) &&
      SaveFile(saved, dialog2, write2).requests == [SaveFileReq(d.text, confirmed)]
  {
  }

  /** A new document, "hello" typed, Save, the dialog picks `path` and the
      write confirms it: the path is set, the title names the file, and the
      session asked the dialog once and wrote "hello" once. Shown for the path
      /tmp/a.txt. */
  lemma NewDocumentSaveScenario(path: string)
    requires path == "/tmp/a.txt"
    ensures var actions := [Type("hello"), Save(Picked(path), WriteOk(path))];
      Run(NewDoc, actions) == Doc("hello", Some(path)) &&
      WindowTitle.Title(Some(path)) == WindowTitle.Prefix + "a.txt" &&
      Log(NewDoc, actions) == [SaveDialogReq, SaveFileReq("hello", path)]
  {
    var save := Save(Picked(path), WriteOk(path));
    var typed := Doc("hello", None);
    var saved := SaveFile(typed, save.dialog, save.write);
    assert saved.doc == Doc("hello", Some(path));
    assert saved.requests == [SaveDialogReq, SaveFileReq("hello", path)];
    assert [Type("hello"), save][1..] == [save];
    assert Run(typed, [save]) == saved.doc;
    assert Log(typed, [save]) == saved.requests;
    assert path[|path| - 5..] == "a.txt";
    assert WindowTitle.IsFinalSegment(path, "a.txt");
    WindowTitle.FileNameCharacterized(path, "a.txt");
  }
}
