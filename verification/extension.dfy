/**
 * The `paper.deleteNote` command: confirm with the user, remove the note's
 * file, then report the outcome and refresh the tree on success. The user's
 * answer to the modal dialog is an input; the messages the command shows are
 * its output, in the order it shows them.
 */
module Extension {
  import opened Wrappers
  import Path
  import Fs
  import NotesTreeData

  /** A message shown through `showErrorMessage`, `showWarningMessage` or `showInformationMessage`. */
  datatype Notification = Error(text: string) | Warning(text: string) | Info(text: string)

  const NoNoteSelected := "No note selected."
  const DeleteButton := "Delete"

  /** The modal question, naming the last `/`-separated segment of the note's path. */
  function ConfirmPrompt(fsPath: string): string
  {
    "Delete \"" + Path.BaseName(fsPath) + "\"?"
  }

  /** For a note the tree lists, the question names the note's own file. */
  lemma PromptNamesListedNote(dir: string, name: string)
    requires '/' !in name
    ensures ConfirmPrompt(Path.Join(dir, name)) == "Delete \"" + name + "\"?"
  {
    Path.SplitJoin(dir, name);
  }

  /**
   * The handler for a tree item whose URI has path `fsPath` (`None` for an
   * item without a URI; the handler is always given an item), when the user
   * answers the dialog with `answer`
   * (`None` when the dialog is dismissed). Nothing changes unless the answer
   * is "Delete" and the removal succeeds; then the file is gone and exactly
   * one refresh fires.
   */
  method DeleteNote(notes: NotesTreeData.NotesTreeDataProvider, fsPath: Option<string>, answer: Option<string>)
    returns (shown: seq<Notification>)
    requires notes.fs.Valid()
    modifies notes, notes.fs
    ensures notes.fs.Valid()
    ensures fsPath.None? || fsPath.value == "" ==>
              shown == [Error(NoNoteSelected)]
    ensures fsPath.Some? && fsPath.value != "" && answer != Some(DeleteButton) ==>
              shown == [Warning(ConfirmPrompt(fsPath.value))]
    ensures fsPath.Some? && fsPath.value != "" && answer == Some(DeleteButton) && Fs.Unlink(old(notes.fs.dirs), fsPath.value).Err? ==>
              shown == [Warning(ConfirmPrompt(fsPath.value)),
                        Error("Failed to delete note: " + Fs.Message(Fs.Unlink(old(notes.fs.dirs), fsPath.value).error))]
    ensures fsPath.Some? && fsPath.value != "" && answer == Some(DeleteButton) && Fs.Unlink(old(notes.fs.dirs), fsPath.value).Ok? ==>
              && shown == [Warning(ConfirmPrompt(fsPath.value)), Info("Note deleted.")]
              && Fs.Unlink(old(notes.fs.dirs), fsPath.value) == Ok(notes.fs.dirs)
              && notes.changeEvents == old(notes.changeEvents) + 1
    ensures shown[|shown| - 1] != Info("Note deleted.") ==>
              notes.fs.dirs == old(notes.fs.dirs) && notes.changeEvents == old(notes.changeEvents)
  {
    if fsPath.None? || fsPath.value == "" {
      return [Error(NoNoteSelected)];
    }
    var path := fsPath.value;
    var fileName := Path.BaseName(path);
    shown := [Warning("Delete \"" + fileName + "\"?")];
    if answer == Some(DeleteButton) {
      var removed := notes.fs.UnlinkFile(path);
      if removed.Err? {
        shown := shown + [Error("Failed to delete note: " + Fs.Message(removed.error))];
      } else {
        shown := shown + [Info("Note deleted.")];
        notes.Refresh();
      }
    }
  }
}
