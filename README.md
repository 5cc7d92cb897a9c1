# txt-editor document model

A Dafny model of the document logic inside the `App` component of txt-editor, a minimal Tauri
text editor. The component keeps two pieces of state, the editable `text` and the `filePath`
(`string | null`). It derives the window title from the path and has three file handlers:
Open, Save and Save As. Each handler asks the Rust side or the native save dialog, then either
commits a change to the two fields or leaves them alone.

Modules:

- `Nullable`: `Option` for `string | null`, and `Truthy`, JavaScript's `if (p)` on such a value.
  `null` and `""` are both falsy.
- `WindowTitle`: `path.split(/[\\/]/).pop()` as `Split` and `FileName`, the title built from
  them, and the proof that the file name is exactly the text after the last `/` or `\`.
- `Document`: the state as a value `Doc(text, filePath)` and the handlers as pure transitions.
  `OpenFile`, `SaveFile` and `SaveFileAs` each give the new state, the gateway requests sent in
  order, and the kind of alert shown. `Edit` gives the new state only. The gateway's answers are
  inputs:
  - `OpenResult`: content and path, or an exception.
  - `DialogResult`: a picked path, `null`, or an exception.
  - `WriteResult`: the confirmed path, or an exception.
- `Editor`: the component as a class `App` with fields `text` and `filePath`, plus a ghost log
  of the requests sent. Its handler methods update the fields step by step, as the source does.
  Each method is proved equal to the matching `Document` transition.
- `Sessions`: runs of user actions (open, save, save as, typing) and properties of whole runs.

## Model

| member | source | states |
|---|---|---|
| `WindowTitle.Split` | txt-editor.tsx:17 | splitting on `/` or `\` gives one piece more than there are separators; no piece contains a separator; joining the pieces with the path's separators, in order, gives the path back; there is a single piece exactly when the path has no separator, and then that piece is the whole path |
| `WindowTitle.FileName` | txt-editor.tsx:17 | the last piece holds no separator, and it is the whole path exactly when the path has no separator |
| `WindowTitle.FileNameIsFinalSegment` | txt-editor.tsx:17 | the piece `pop()` returns is a separator-free suffix of the path that is either the whole path or starts right after a separator |
| `WindowTitle.FileNameCharacterized` | txt-editor.tsx:17 | a string is the file name if and only if it is the final segment of the path (the file name is unique) |
| `WindowTitle.EmptyNameAfterTrailingSeparator` | txt-editor.tsx:17 | a path that ends in `/` or `\` has an empty file name |
| `WindowTitle.Title` | txt-editor.tsx:15-22 | a null or empty path gives `"Редактор - Новый файл"`; any other path gives `"Редактор - "` followed by the path's final segment |
| `Document.OpenFile` | txt-editor.tsx:25-35 | open sends one request; the notice reports an opened file exactly when the open succeeded, and then names the new path; when the open throws, the document is unchanged and the error notice carries the reason |
| `Document.WriteText` | txt-editor.tsx:55-60 | one write of the current text to the target follows the earlier requests; the text is kept; a successful write adopts the returned path and reports it, a failed one changes nothing and reports the reason |
| `Document.SaveFile` | txt-editor.tsx:38-62 | the text is kept; the path changes only when the notice reports a saved file, and then to the reported path; with no path, a dismissed or empty dialog result gives the cancellation notice and a throwing dialog the error notice; when a write is sent, its success gives the saved notice with the returned path and its failure the error notice with the reason; the cancellation notice appears exactly when the dialog was asked and gave no path |
| `Document.SaveFileAs` | txt-editor.tsx:65-81 | the text is kept; the path changes only when the notice reports a saved file, and then to the reported path; a dismissed or empty dialog result gives the cancellation notice, a throwing dialog the error notice; after a selection, a successful write gives the saved notice with the returned path and a failed one the error notice with the reason |
| `Document.Edit` | txt-editor.tsx:100 | an edit sets the text to the typed value and never changes the path |
| `Document.OpenReplacesAtomically` | txt-editor.tsx:28-31 | a successful open sets the text to exactly the returned content and the path to exactly the returned path; the result does not depend on the previous state |
| `Document.FailedOpenChangesNothing` | txt-editor.tsx:26-34 | when `open_file` throws, text and path keep their values and the error is reported |
| `Document.OpenIsAllOrNothing` | txt-editor.tsx:25-35 | open sends one request and either commits both fields together or changes nothing |
| `Document.SaveWithPathWritesInPlace` | txt-editor.tsx:40-57 | Save with a truthy path sends no dialog request and exactly one write of the current text to that path; on success the path becomes the returned path |
| `Document.SaveWithoutPathAsksFirst` | txt-editor.tsx:40-57 | Save with a null or empty path first sends exactly one dialog request; if the dialog gives no path, nothing is written and nothing changes; otherwise exactly one write of the text to the selection follows |
| `Document.SaveOnNewDocumentIsSaveAs` | txt-editor.tsx:38-81 | with a null or empty path, Save and Save As have the same outcome in every case |
| `Document.SaveAsAlwaysAsks` | txt-editor.tsx:65-81 | Save As always starts with a dialog request, even when a path is set; a cancelled dialog writes nothing and changes nothing; after a successful write the path is the gateway's returned path, not the raw selection |
| `Document.FailedWriteKeepsPath` | txt-editor.tsx:55-80 | when the write throws, in Save or in Save As, the document is unchanged: the selected path is never adopted |
| `Document.SavesKeepText` | txt-editor.tsx:56-73 | neither save handler changes the text, and every write they send carries the current text |
| `Document.SavesAdoptOnlyConfirmedPaths` | txt-editor.tsx:56-73 | a save either changes nothing or changes only the path, and then only to the path a successful write returned |
| `Document.SaveIsIdempotent` | txt-editor.tsx:40-57 | saving to a set path, when the gateway confirms that same path, leaves the document as it was |
| `Editor.App.constructor` | txt-editor.tsx:11-22 | the component starts with empty text, no path, no requests and the new-file title |
| `Editor.App.HandleOpenFile` | txt-editor.tsx:25-35 | the handler's new fields, logged requests and alert are those of the `OpenFile` transition |
| `Editor.App.HandleSaveFile` | txt-editor.tsx:38-62 | the handler keeps the text; its new fields, logged requests and alert are those of the `SaveFile` transition |
| `Editor.App.HandleSaveFileAs` | txt-editor.tsx:65-81 | the handler keeps the text; its new fields, logged requests and alert are those of the `SaveFileAs` transition |
| `Editor.App.Write` | txt-editor.tsx:56-58 | one write of the current text to the target is logged, and the path becomes the returned path only if the write succeeds |
| `Editor.App.OnChange` | txt-editor.tsx:100 | the text becomes the typed value; the path and the request log are unchanged |
| `Sessions.SavesNeverTouchText` | txt-editor.tsx:38-81 | any sequence of saves and saves-as leaves the text unchanged, and every write in it carries that text |
| `Sessions.PathComesFromGateway` | txt-editor.tsx:25-81 | after any sequence of actions the path is the initial one or a path the gateway returned from an open or from a write that was actually sent and succeeded |
| `Sessions.PathIsNeverCleared` | txt-editor.tsx:25-81 | once a path is set, no sequence of actions sets it back to null |
| `Sessions.FailuresChangeNothing` | txt-editor.tsx:25-81 | a sequence of opens and saves in which every open throws and every save's dialog gives no path or its write throws leaves the document exactly as it was, whatever the unused gateway answers are |
| `Sessions.SecondSaveAsksNoDialog` | txt-editor.tsx:40-57 | once a new document's Save is confirmed at a non-empty path, the next Save asks no dialog and writes straight to that path |
| `Sessions.NewDocumentSaveScenario` | txt-editor.tsx:11-62 | typing "hello" into a new document and saving to /tmp/a.txt sets the path, gives the title `"Редактор - a.txt"`, and sends one dialog request and one write of "hello" |

## Left out

- Rendering, JSX, the stylesheet import and the button wiring (txt-editor.tsx:89-106): presentation only.
- The behaviour of `open_file`, `save_file` and the save dialog, including the dialog's extension filters: these are calls into Rust and the OS. Their answers are inputs to the model.
- `Window.setTitle` and the effect's scheduling: the title is a pure function of the path. Skipping the update when the path has not changed is React's dependency check, and it is not modelled.
- The text of the `alert` messages: each handler returns only the kind of notice and the path or reason it reports.
- Overlapping handler calls while one is awaiting the gateway: the source has no guard against them, and the model runs each handler to completion.
- The clipboard and undo comment (txt-editor.tsx:83-87): it holds no code.
- Open has one `catch` for every failure, so a dismissed open picker is reported like any other error (txt-editor.tsx:32-34).
- The code does not keep the path non-empty: a gateway that returns `""` sets the path to `""` (txt-editor.tsx:30, 57, 73). The title then falls back to the new-file label, and the next Save asks the dialog again.
