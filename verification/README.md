# Paper notes: a verified model of the todo panel and the note store

This project models the two file-backed stores of the "Paper" VS Code
extension, and proves properties about them, in Dafny:

- **The todo panel** (`TodoPanelProvider`). The list of `{text, done}`
  entries lives in `todos.json` in the extension's global storage. The
  constructor creates the directory and a `[]` file when they are missing.
  Each `add` or `toggle` message from the panel's page does four things:
  - reads the whole file,
  - changes the list,
  - writes the whole list back as `JSON.stringify(todos, null, 2)`,
  - re-renders the page with `getHtml`.
- **The note store** (`NotesTreeDataProvider` and the `paper.deleteNote`
  command).
  - The tree shows the regular files of the notes directory, leaving out
    the reserved todo file name, in enumeration order.
  - `createNewNote` writes an empty `note-<timestamp>.txt` file, with `:`
    and `.` in the timestamp replaced by `-`, then fires the change event.
  - The delete command removes a note only after the user answers
    "Delete". It fires a refresh only when the removal succeeds.

Modules, one per concern:

| file | module | what it holds |
|---|---|---|
| `wrappers.dfy` | `Wrappers` | `Option` and `Result` |
| `path.dfy` | `Path` | `path.join(dir, name)` and `split("/").pop()`, with their split/join lemmas |
| `fs.dfy` | `Fs` | the `fs` calls used, over a map from directory path to listing (names in order, plus what each name is), the consistency invariant of that tree, and a `FileSystem` object holding the map |
| `todo_list.dfy` | `TodoList` | the entry type and the in-place toggle |
| `todo_json.dfy` | `TodoJson` | the exact text `JSON.stringify(todos, null, 2)` produces for a list of entries, a parser for it, and the round trip |
| `todo_html.dfy` | `TodoHtml` | the exact markup of `getHtml`, a reader for one entry's fragment, and the per-entry structure of the page |
| `todo_panel.dfy` | `TodoPanel` | the `TodoPanelProvider` class: construction, `readTodos`, `saveTodos`, `resolveWebviewView` and the message handler |
| `notes_tree_data.dfy` | `NotesTreeData` | the `NotesTreeDataProvider` class: construction, `refresh`, `getChildren`, `createNewNote`, and how the listing changes under a write or an unlink |
| `extension.dfy` | `Extension` | the `paper.deleteNote` handler |

The filesystem, the clock and the user are inputs:
- The filesystem is a `Fs.FileSystem` object shared by both providers.
- `new Date().toISOString()` is a string parameter of `CreateNewNote`.
- The item's `fsPath` and the answer to the modal dialog are parameters of
  `DeleteNote`.
- The messages a command shows are returned as a sequence, in the order it
  shows them.
- The change event is a counter.

The filesystem keeps one invariant, `Fs.WellFormed`:
- every listing has distinct, valid names;
- every known directory's parent is known and records it as a directory;
- every directory entry is a known directory.

Every operation preserves it.

A source constructor that can throw is modelled as a static `Create` method
returning a `Result`, with `Err` where the source throws.

## Model

| member | source | states |
|---|---|---|
| Path.BaseName | src/extension.ts:57 | the name has no `/` and is a suffix of the path: the last `/`-separated segment |
| Path.SplitJoin | src/notesTreeData.ts:42 | joining a directory and a name without `/`, then splitting at the last `/`, gives back the directory and the name |
| Path.SplitInjective | src/notesTreeData.ts:38 | two paths with the same directory and the same last segment are the same path |
| Fs.ReadFile | src/todoPanel.ts:45 | reading succeeds exactly when the path names a regular file, and returns that file's content |
| Fs.Write | src/todoPanel.ts:50 | succeeds exactly when the parent directory exists and the path is not a directory; afterwards reading gives the written content, no other path's entry changes, the set of directories is the same, and well-formedness is kept |
| Fs.Unlink | src/extension.ts:63 | succeeds exactly when the path names a regular file in a known directory; afterwards `existsSync` is false for the path, no other path's entry changes, and the tree stays consistent |
| Fs.MakeDir | src/notesTreeData.ts:24 | an existing directory is left as it is; anything else at the path fails with EEXIST; a missing path whose parent is known is always made, as an empty directory; only the path and its ancestors are added, no existing entry changes, new entries are directories at the path or an ancestor, and every directory other than the parent is unchanged when the parent was known; in a consistent tree the result is consistent and records the path as a directory in its parent |
| Fs.MakeDirSucceeds | src/notesTreeData.ts:24 | in a consistent tree, making a path succeeds whenever nothing but directories stands at the path and at its ancestors, however many of them are missing |
| Fs.ReadDir | src/notesTreeData.ts:37-39 | succeeds exactly for a known directory; each name it lists is what `statSync(join(dir, name))` finds |
| Fs.MissingDirNotDir | src/extension.ts:63-66 | in a consistent tree, the error for a missing directory with a regular file at it or at any ancestor is ENOTDIR |
| Fs.UnlinkBelowFile | src/extension.ts:63-66 | in a consistent tree, removing a path below a regular file, at any depth, fails with ENOTDIR |
| Fs.Without | src/extension.ts:63 | removing a name from a listing keeps every other name and drops that one; a name not listed leaves the list as it is |
| Fs.WithoutAt | src/extension.ts:63 | removing the name at position `i` of distinct names keeps the names before and after it, in order |
| Fs.ReadableIsWritable | src/todoPanel.ts:45-50 | a file that can be read can be overwritten |
| Fs.FileSystem.WriteFile | src/todoPanel.ts:50 | the new state is `Write` of the old one, or unchanged with the error returned |
| Fs.FileSystem.UnlinkFile | src/extension.ts:63-64 | the new state is `Unlink` of the old one, or unchanged with the error passed on |
| Fs.FileSystem.MkdirRecursive | src/notesTreeData.ts:24 | the new state is `MakeDir` of the old one, or unchanged with the error thrown |
| TodoList.Toggled | src/todoPanel.ts:37 | entry `i` keeps its text and has `done` flipped; the length and every other entry are unchanged |
| TodoList.ToggledTwice | src/todoPanel.ts:37 | toggling the same entry twice restores the list |
| TodoList.ToggledCommute | src/todoPanel.ts:37 | toggles of two entries can be done in either order |
| TodoJson.EscapeRoundTrip | src/todoPanel.ts:50 | the parser reads back every string escaped as `JSON.stringify` escapes it, stopping at the closing quote |
| TodoJson.TodoRoundTrip | src/todoPanel.ts:50 | one entry written as an indented object reads back as that entry, leaving the text after it |
| TodoJson.ItemsRoundTrip | src/todoPanel.ts:50 | a non-empty list of entries written as comma-separated objects reads back as that list |
| TodoJson.DecodeEncode | src/todoPanel.ts:44-51 | parsing the file `saveTodos` writes gives back exactly the list it was given |
| TodoJson.EncodeInjective | src/todoPanel.ts:50 | different lists are written as different files |
| TodoJson.DecodeEmptyFile | src/todoPanel.ts:17 | the initial file `[]` reads as the empty list |
| TodoHtml.Decimal | src/todoPanel.ts:58 | `${i}` is a non-empty string of decimal digits |
| TodoHtml.DecimalRoundTrip | src/todoPanel.ts:89 | `parseInt` of the rendered index gives the index back |
| TodoHtml.TakeDigitsOf | src/todoPanel.ts:89 | reading the digits of `data-index` stops exactly at the closing quote |
| TodoHtml.ParseItemHtml | src/todoPanel.ts:56-63 | entry `i`'s fragment carries `checked` exactly when done, `data-index` reading back as `i`, `line-through` exactly when done, and the entry's text |
| TodoHtml.JoinConcat | src/todoPanel.ts:65 | joining the fragments of two lists one after the other gives the two joined strings, concatenated |
| TodoHtml.ItemsConcat | src/todoPanel.ts:54-65 | the markup of a concatenated list is the two markups concatenated, the second numbered after the first |
| TodoHtml.ItemsAt | src/todoPanel.ts:54-65 | the `<ul>` content is the fragments of the entries before `i`, then entry `i`'s fragment, then the fragments of the entries after it: one `<li>` per entry, in list order |
| TodoHtml.RenderAppended | src/todoPanel.ts:32-34 | after an `add`, the list markup gains exactly the new entry's fragment at the end |
| TodoHtml.RenderToggled | src/todoPanel.ts:37-39 | after a `toggle` of entry `i`, only entry `i`'s fragment changes, and it is the toggled entry's fragment |
| TodoPanel.SaveThenRead | src/todoPanel.ts:44-51 | after `saveTodos(L)` succeeds, `readTodos()` returns `L` |
| TodoPanel.Apply | src/todoPanel.ts:29-40 | `add` appends `{text, done: false}` at the end and keeps all earlier entries; `toggle(i)` succeeds exactly when `0 <= i < length`, then flips entry `i` only; otherwise the error names the index |
| TodoPanel.Initialized | src/todoPanel.ts:10-19 | after construction the todo file exists and the tree stays consistent; when the file was absent, the first read gives the empty list; construction succeeds whenever the storage directory already exists, or is missing with a known parent |
| TodoPanel.WithTodoFile | src/todoPanel.ts:15-18 | afterwards the todo file exists; a newly created file reads as the empty list; it succeeds whenever the storage directory is known, and keeps the tree consistent |
| TodoPanel.InitializedSucceeds | src/todoPanel.ts:11-18 | in a consistent tree, construction succeeds whenever nothing but directories stands at the storage path and at its ancestors |
| TodoPanel.TodoPanelProvider.Create | src/todoPanel.ts:10-19 | the new filesystem is `Initialized` of the old one, and the provider's file path is `join(globalStorage, "todos.json")` with no handler attached yet; on failure nothing changes |
| TodoPanel.TodoPanelProvider.SaveTodos | src/todoPanel.ts:49-51 | the file is overwritten with the encoded list, and `readTodos()` then returns that list |
| TodoPanel.TodoPanelProvider.ResolveWebviewView | src/todoPanel.ts:21-29 | the view passed in replaces the old one: when the file can be read and parsed it shows the markup of the list and gets the message handler; otherwise the error is passed on, the new view's markup is empty and no handler is attached |
| TodoPanel.TodoPanelProvider.OnDidReceiveMessage | src/todoPanel.ts:29-41 | without an attached handler every message is dropped; a handled message leaves the file holding the changed list, and the panel showing that same list; a failed read, an unknown message or an out-of-range toggle changes nothing |
| TodoPanel.ToggleTwice | src/todoPanel.ts:35-38 | two `toggle` messages for the same index leave the list in the file as it was |
| NotesTreeData.Children | src/notesTreeData.ts:37-44 | an item is produced for a name exactly when the name is a regular file other than the reserved name, and the item's path is `join(notesDir, name)` |
| NotesTreeData.ListedIff | src/notesTreeData.ts:37-44 | a note's item is listed if and only if its name is a regular file of the directory other than the reserved name |
| NotesTreeData.ChildrenConcat | src/notesTreeData.ts:37-44 | the items follow the directory's enumeration order |
| NotesTreeData.SanitizeTimestamp | src/notesTreeData.ts:49 | same length; every `:` and `.` becomes `-` and every other character is kept |
| NotesTreeData.SanitizeTimestampClean | src/notesTreeData.ts:49 | the result has no `:` or `.`, and sanitising twice is the same as sanitising once |
| NotesTreeData.NoteFileName | src/notesTreeData.ts:50 | the name is `note-`, then the sanitised timestamp, then `.txt`; it is a valid file name when the timestamp has no `/` |
| NotesTreeData.NotesTreeDataProvider.Create | src/notesTreeData.ts:16-26 | an unset or empty setting fails with "Notes directory not set." and changes nothing; an existing path is used as it is; a missing one is made with `MakeDir`, and a failed `mkdir` fails construction with that error's message and changes nothing |
| NotesTreeData.NotesTreeDataProvider.Refresh | src/notesTreeData.ts:28-30 | fires the change event exactly once |
| NotesTreeData.NotesTreeDataProvider.GetChildren | src/notesTreeData.ts:36-46 | succeeds exactly when the notes directory is known; every listed note is among the items, and every item is a note of the directory |
| NotesTreeData.NotesTreeDataProvider.CreateNewNote | src/notesTreeData.ts:48-53 | writes an empty file at `join(notesDir, note-<sanitised>.txt)`, then fires one change event; if the write fails, nothing changes and no event fires |
| NotesTreeData.ListAfterWrite | src/notesTreeData.ts:52 | writing a new note adds exactly its item at the end of the listing; overwriting an existing note leaves the listing as it was |
| NotesTreeData.ListAfterUnlink | src/extension.ts:63-70 | after a note is removed, the listing holds exactly the items it held before, minus that note's item |
| Extension.PromptNamesListedNote | src/extension.ts:57-61 | for a note of the tree, the confirmation names the note's own file name |
| Extension.DeleteNote | src/extension.ts:49-76 | an item without a URI or with an empty path: "No note selected.", nothing changes. Otherwise the confirmation is shown, and any answer other than "Delete" changes nothing. A failed removal shows "Failed to delete note: " plus the error's message, changes nothing and fires no refresh. A successful one removes exactly that file, shows "Note deleted." and fires exactly one refresh |

## Left out

- `JSON.parse` is modelled only on what `JSON.stringify(todos, null, 2)` writes for a list of entries: a list of objects with the keys `text` then `done`, with any JSON whitespace between tokens. Any other file is `Unparsable`, including one holding valid JSON of another shape. A `\u` escape naming a surrogate code unit is refused, because Dafny characters are Unicode scalar values, so `JSON.stringify` never writes one for a list the model can hold.
- TodoPanel.TodoPanelProvider.OnDidReceiveMessage: the source indexes without a bounds check and throws a `TypeError` on an out-of-range `toggle`, before `saveTodos` runs. The model returns `Failed(IndexOutOfRange(i))` and changes nothing, which is the same observable outcome. A non-integer index such as `1.5` is not modelled; the page only sends `parseInt` results.
- The `add` handler stores `message.text` as it arrives, without trimming. Only the page's script trims and skips empty input (src/todoPanel.ts:76-92), and that browser-side script is not modelled. `message.text` is taken to be a string.
- A file that cannot be read or parsed makes the handler stop, as the source's exception does. It is not replaced by an empty list. Writes are not atomic.
- The todo file lives in global storage, not in the notes directory. `INTERNAL_TODO_FILENAME` is defined in `src/constants.ts`, which is not part of this model, so it is a parameter.
- The task entries' text is inserted into the markup unescaped. The per-entry structure of `getHtml` is therefore stated over fragments (`ItemsAt`), and an entry's fragment is read back on its own (`ParseItemHtml`), rather than by parsing the whole page.
- `path.join` normalisation (`..`, `.`, repeated or trailing separators) is not modelled. `Path.Join` is `dir + "/" + name`, which is what `path.join` gives for a normalised directory and a plain file name. `path.join(dir)` with a single argument is taken to be `dir`.
- `mkdirSync(p, { recursive: true })` fails with EEXIST when a file is at `p`, and with ENOTDIR when a file is at one of its ancestors. A path whose last segment is empty (a trailing `/`) is made as a directory of its own, because normalisation is not modelled. Permissions (`EACCES`) and other I/O errors are not modelled.
- The order `readdirSync` returns is modelled as the order in which names were created.
- A call on a path below a missing directory fails with ENOTDIR when a regular file stands at that directory or at one of its missing ancestors, and with ENOENT otherwise, as POSIX path resolution does (`Fs.MissingDir`). Symbolic links are not modelled.
- `Fs.Message` follows Node's `err.message` form (`ENOENT: no such file or directory, unlink '<path>'`) for the four codes modelled.
- The panel has one view. A later `resolveWebviewView` replaces it: the handler is attached again only when that resolve renders the page.
- Extension.DeleteNote: the handler is always given a tree item. Invoked without one (from the command palette, say), src/extension.ts:52 throws a `TypeError` on `item.resourceUri` before any message is shown; that invocation is not modelled.
- `fs.unlink` is asynchronous. The model runs its callback right after the removal, with no other command in between.
- `vscode.workspace.openTextDocument` and `showTextDocument` after `createNewNote`, `getTreeItem`, the `NoteItem` command wiring, webview options, command registration, the hello-world command and `src/paperStartupView.ts` are editor glue with no state to verify.
- There is no rename operation in the source, so none is modelled.
- Concurrency between windows and processes is out of scope.
