/** The `App` component's state as an object: the two state cells the
    handlers set, and a ghost log of the requests it sent to the gateway. */
module Editor {
  import opened Nullable
  import opened Document
  import WindowTitle

  class App {
    var text: string
    var filePath: Option<string>
    /** Every gateway request issued so far, oldest first. */
    ghost var requests: seq<Request>

    /** The state as a value. */
    function Current(): Doc
      reads this
    {
      Doc(text, filePath)
    }

    /** The title the window shows for the current path. */
    function Title(): string
      reads this
    {
      WindowTitle.Title(filePath)
    }

    constructor ()
      ensures Current() == NewDoc
      ensures requests == []
      ensures Title() == WindowTitle.NewFileTitle
    {
      text := "";
      filePath := None;
      requests := [];
    }

    /** `handleOpenFile`, given what `open_file` answered. */
    method HandleOpenFile(result: OpenResult) returns (notice: Notice)
      modifies this
      ensures Current() == OpenFile(old(Current()), result).doc
      ensures requests == old(requests) + OpenFile(old(Current()), result).requests
      ensures notice == OpenFile(old(Current()), result).notice
    {
      requests := requests + [OpenFileReq];
      match result
      case OpenOk(content, path) =>
        text := content;
        filePath := Some(path);
        notice := FileOpened(path);
      case OpenError(reason) =>
        notice := ErrorNotice(reason);
    }

    /** `handleSaveFile`, given what the save dialog (if asked) and
        `save_file` (if called) answered. */
    method HandleSaveFile(dialog: DialogResult, write: WriteResult) returns (notice: Notice)
      modifies this
      ensures text == old(text)
      ensures Current() == SaveFile(old(Current()), dialog, write).doc
      ensures requests == old(requests) + SaveFile(old(Current()), dialog, write).requests
      ensures notice == SaveFile(old(Current()), dialog, write).notice
    {
      var currentPath := filePath;
      if !Truthy(currentPath) {
        requests := requests + [SaveDialogReq];
        match dialog
        case DialogError(reason) =>
          return ErrorNotice(reason);
        case Dismissed =>
          return SaveCancelled;
        case Picked(path) =>
          if path == "" {
            return SaveCancelled;
          }
          currentPath := Some(path);
      }
      notice := Write(currentPath.value, write);
    }

    /** `handleSaveFileAs`, given what the save dialog and, after a
        selection, `save_file` answered. */
    method HandleSaveFileAs(dialog: DialogResult, write: WriteResult) returns (notice: Notice)
      modifies this
      ensures text == old(text)
      ensures Current() == SaveFileAs(old(Current()), dialog, write).doc
      ensures requests == old(requests) + SaveFileAs(old(Current()), dialog, write).requests
      ensures notice == SaveFileAs(old(Current()), dialog, write).notice
    {
      requests := requests + [SaveDialogReq];
      match dialog
      case DialogError(reason) =>
        notice := ErrorNotice(reason);
      case Dismissed =>
        notice := SaveCancelled;
      case Picked(path) =>
        if path != "" {
          notice := Write(path, write);
        } else {
          notice := SaveCancelled;
        }
    }

    /** The `save_file` call and the path update after it. */
    method Write(target: string, write: WriteResult) returns (notice: Notice)
      modifies this
      ensures Current() == WriteText(old(Current()), target, write, []).doc
      ensures requests == old(requests) + [SaveFileReq(old(text), target)]
      ensures notice == WriteText(old(Current()), target, write, []).notice
    {
      requests := requests + [SaveFileReq(text, target)];
      match write
      case WriteOk(path) =>
        filePath := Some(path);
        notice := FileSaved(path);
      case WriteError(reason) =>
        notice := ErrorNotice(reason);
    }

    /** The textarea's `onChange`. */
    method OnChange(value: string)
      modifies this`text
      ensures Current() == Edit(old(Current()), value)
      ensures filePath == old(filePath) && requests == old(requests)
    {
      text := value;
    }
  }
}
