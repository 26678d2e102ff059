/**
 * The todo panel (`TodoPanelProvider`): the list lives in one JSON file in the
 * extension's global storage; every message from the panel's page reads the
 * whole list, changes it, writes the whole list back and re-renders the page.
 */
module TodoPanel {
  import opened Wrappers
  import Path
  import Fs
  import opened TodoList
  import TodoJson
  import TodoHtml

  const TodoFileName := "todos.json"

  /** A message the panel's page posts: `{type: "add", text}`, `{type: "toggle", index}` or anything else. */
  datatype Message = Add(text: string) | Toggle(index: int) | Other

  /** Why a message left everything as it was (the source throws at that point). */
  datatype Failure = Unreadable(error: Fs.FsError) | Unparsable | IndexOutOfRange(index: int)

  datatype Outcome = Handled | Ignored | Failed(failure: Failure)

  /** `readTodos()`: read the file, then `JSON.parse` it. */
  function ReadTodosFrom(d: Fs.Dirs, p: string): Result<seq<Todo>, Failure>
  {
    match Fs.ReadFile(d, p)
    case Err(e) => Err(Unreadable(e))
    case Ok(raw) =>
      match TodoJson.Decode(raw)
      case None => Err(Unparsable)
      case Some(todos) => Ok(todos)
  }

  /** After `saveTodos(todos)` succeeds, `readTodos()` returns `todos`. */
  lemma SaveThenRead(d: Fs.Dirs, p: string, todos: seq<Todo>)
    requires Fs.Write(d, p, TodoJson.Encode(todos)).Ok?
    ensures ReadTodosFrom(Fs.Write(d, p, TodoJson.Encode(todos)).value, p) == Ok(todos)
  {
    TodoJson.DecodeEncode(todos);
  }

  /** The change a message asks for, applied to the list read from the file. */
  function Apply(m: Message, todos: seq<Todo>): (r: Result<seq<Todo>, Failure>)
    requires !m.Other?
    ensures m.Add? ==> r.Ok? && |r.value| == |todos| + 1
                       && r.value[..|todos|] == todos && r.value[|todos|] == Todo(m.text, false)
    ensures m.Toggle? ==> (r.Ok? <==> 0 <= m.index < |todos|)
    ensures m.Toggle? && r.Ok? ==> |r.value| == |todos|
                                   && r.value[m.index] == Todo(todos[m.index].text, !todos[m.index].done)
                                   && forall j :: 0 <= j < |todos| && j != m.index ==> r.value[j] == todos[j]
    ensures m.Toggle? && r.Err? ==> r.error == IndexOutOfRange(m.index)
  {
    match m
    case Add(text) => Ok(todos + [Todo(text, false)])
    case Toggle(i) => if 0 <= i < |todos| then Ok(Toggled(todos, i)) else Err(IndexOutOfRange(i))
  }

  /**
   * The filesystem once the constructor has run: the storage directory made
   * if missing, then the todo file created as `[]` if missing.
   */
  function Initialized(d: Fs.Dirs, storage: string): (r: Result<Fs.Dirs, Fs.FsError>)
    ensures r.Ok? ==> Fs.Exists(r.value, Path.Join(storage, TodoFileName))
    ensures r.Ok? && !Fs.Exists(d, Path.Join(storage, TodoFileName))
            ==> ReadTodosFrom(r.value, Path.Join(storage, TodoFileName)) == Ok([])
    ensures storage in d ==> r.Ok?
    ensures !Fs.Exists(d, storage) && (Path.HasDir(storage) ==> Path.DirName(storage) in d) ==> r.Ok?
    ensures r.Ok? && Fs.WellFormed(d) ==> Fs.WellFormed(r.value) && storage in r.value
  {
    var d1 :- if Fs.Exists(d, storage) then Ok(d) else Fs.MakeDir(d, storage);
    MakeDirLeavesTodoFile(d, storage);
    WithTodoFile(d1, storage)
  }

  /** The second half of the constructor: the todo file created as `[]` in `storage` if missing. */
  function WithTodoFile(d: Fs.Dirs, storage: string): (r: Result<Fs.Dirs, Fs.FsError>)
    ensures r.Ok? ==> Fs.Exists(r.value, Path.Join(storage, TodoFileName))
    ensures r.Ok? && !Fs.Exists(d, Path.Join(storage, TodoFileName))
            ==> ReadTodosFrom(r.value, Path.Join(storage, TodoFileName)) == Ok([])
    ensures storage in d ==> r.Ok?
    ensures r.Ok? && Fs.WellFormed(d) ==> Fs.WellFormed(r.value) && storage in r.value
  {
    var p := Path.Join(storage, TodoFileName);
    Path.SplitJoin(storage, TodoFileName);
    TodoJson.DecodeEmptyFile();
    if Fs.Exists(d, p) then
      assert Fs.WellFormed(d) ==> storage in d by {
        if Fs.WellFormed(d) && p !in d {
          assert Fs.EntryAt(d, p).Some?;
        }
      }
      Ok(d)
    else Fs.Write(d, p, "[]")
  }

  /** Making the storage directory puts nothing at the todo file's path. */
  lemma MakeDirLeavesTodoFile(d: Fs.Dirs, storage: string)
    ensures var p := Path.Join(storage, TodoFileName);
            Fs.MakeDir(d, storage).Ok? && !Fs.Exists(d, p) ==> !Fs.Exists(Fs.MakeDir(d, storage).value, p)
  {
    var p := Path.Join(storage, TodoFileName);
    assert p != storage && !(p + "/" <= storage);
  }

  /**
   * The constructor succeeds whenever nothing but directories stands at the
   * storage path and at its ancestors, however many of them are missing.
   */
  lemma InitializedSucceeds(d: Fs.Dirs, storage: string)
    requires Fs.WellFormed(d)
    requires forall q :: (q == storage || q + "/" <= storage) && q !in d ==> Fs.EntryAt(d, q) == None
    ensures Initialized(d, storage).Ok?
  {
    if !Fs.Exists(d, storage) {
      Fs.MakeDirSucceeds(d, storage);
    }
  }

  class TodoPanelProvider {
    const fs: Fs.FileSystem
    const todoFilePath: string
    /** `view.webview.html`: the markup the current view shows ("" until a resolve renders it). */
    var html: string
    /** Whether the view has the message handler attached: only a resolve that rendered the page attaches it. */
    var listening: bool

    constructor Init(fs: Fs.FileSystem, todoFilePath: string)
      ensures this.fs == fs && this.todoFilePath == todoFilePath && html == "" && !listening
    {
      this.fs := fs;
      this.todoFilePath := todoFilePath;
      html := "";
      listening := false;
    }

    /**
     * `new TodoPanelProvider(context)` for a global storage directory; the
     * source's constructor throws where this returns `Err`.
     */
    static method Create(fs: Fs.FileSystem, globalStorage: string) returns (r: Result<TodoPanelProvider, Fs.FsError>)
      requires fs.Valid()
      modifies fs
      ensures fs.Valid()
      ensures Initialized(old(fs.dirs), globalStorage).Ok? ==>
                && r.Ok? && fresh(r.value)
                && Initialized(old(fs.dirs), globalStorage) == Ok(fs.dirs)
                && r.value.fs == fs && r.value.html == "" && !r.value.listening
                && r.value.todoFilePath == Path.Join(globalStorage, TodoFileName)
      ensures Initialized(old(fs.dirs), globalStorage).Err? ==>
                r == Err(Initialized(old(fs.dirs), globalStorage).error) && fs.dirs == old(fs.dirs)
    {
      var dir := globalStorage;
      var p := Path.Join(dir, TodoFileName);
      Path.SplitJoin(dir, TodoFileName);
      if !Fs.Exists(fs.dirs, dir) {
        var made := fs.MkdirRecursive(dir);
        if made.Err? {
          return Err(made.error);
        }
        assert dir in fs.dirs;
      }
      if !Fs.Exists(fs.dirs, p) {
        var written := fs.WriteFile(p, "[]");
        if written.Err? {
          assert dir !in fs.dirs;
          return Err(written.error);
        }
      }
      var provider := new TodoPanelProvider.Init(fs, p);
      r := Ok(provider);
    }

    /** `this.readTodos()`. */
    function ReadTodos(): Result<seq<Todo>, Failure>
      reads fs
    {
      ReadTodosFrom(fs.dirs, todoFilePath)
    }

    /** The list in the file is the list the panel shows. */
    ghost predicate InSync()
      reads this, fs
    {
      ReadTodos().Ok? && html == TodoHtml.GetHtml(ReadTodos().value)
    }

    /** `this.saveTodos(todos)`: overwrite the file with the whole list. */
    method SaveTodos(todos: seq<Todo>) returns (r: Result<(), Fs.FsError>)
      requires fs.Valid()
      modifies fs
      ensures fs.Valid()
      ensures Fs.Write(old(fs.dirs), todoFilePath, TodoJson.Encode(todos)).Ok? ==>
                r.Ok? && Fs.Write(old(fs.dirs), todoFilePath, TodoJson.Encode(todos)) == Ok(fs.dirs)
                && ReadTodos() == Ok(todos)
      ensures Fs.Write(old(fs.dirs), todoFilePath, TodoJson.Encode(todos)).Err? ==> r.Err? && fs.dirs == old(fs.dirs)
    {
      if Fs.Write(fs.dirs, todoFilePath, TodoJson.Encode(todos)).Ok? {
        SaveThenRead(fs.dirs, todoFilePath, todos);
      }
      r := fs.WriteFile(todoFilePath, TodoJson.Encode(todos));
    }

    /**
     * `resolveWebviewView`: render the list in the file into the new view,
     * then attach the message handler. When the file cannot be read, the
     * source throws before the handler is attached.
     */
    method ResolveWebviewView() returns (r: Result<(), Failure>)
      modifies this
      ensures listening <==> r.Ok?
      ensures ReadTodos().Ok? ==> r.Ok? && html == TodoHtml.GetHtml(ReadTodos().value) && InSync()
      ensures ReadTodos().Err? ==> r == Err(ReadTodos().error) && html == ""
    {
      var read := ReadTodos();
      if read.Err? {
        // the new view's markup is never assigned
        html := "";
        listening := false;
        return Err(read.error);
      }
      html := TodoHtml.GetHtml(read.value);
      listening := true;
      r := Ok(());
    }

    /**
     * The `onDidReceiveMessage` handler. A message that is handled leaves the
     * file holding the changed list and the panel showing that same list;
     * any other outcome changes nothing. Without a handler attached, every
     * message is dropped.
     */
    method OnDidReceiveMessage(m: Message) returns (r: Outcome)
      requires fs.Valid()
      modifies this, fs
      ensures fs.Valid() && listening == old(listening)
      ensures !listening || m.Other? ==> r == Ignored
      ensures listening && !m.Other? && old(ReadTodos()).Err? ==> r == Failed(old(ReadTodos()).error)
      ensures listening && !m.Other? && old(ReadTodos()).Ok? && Apply(m, old(ReadTodos()).value).Err? ==>
                r == Failed(Apply(m, old(ReadTodos()).value).error)
      ensures listening && !m.Other? && old(ReadTodos()).Ok? && Apply(m, old(ReadTodos()).value).Ok? ==>
                var todos := Apply(m, old(ReadTodos()).value).value;
                && r == Handled
                && Fs.Write(old(fs.dirs), todoFilePath, TodoJson.Encode(todos)) == Ok(fs.dirs)
                && ReadTodos() == Ok(todos)
                && html == TodoHtml.GetHtml(todos)
      ensures r == Handled ==> InSync()
      ensures r != Handled ==> fs.dirs == old(fs.dirs) && html == old(html)
    {
      if !listening || m.Other? {
        return Ignored;
      }
      var read := ReadTodos();
      if read.Err? {
        return Failed(read.error);
      }
      var todos := read.value;
      if m.Add? {
        todos := todos + [Todo(m.text, false)];
      } else {
        var i := m.index;
        if !(0 <= i < |todos|) {
          return Failed(IndexOutOfRange(i));
        }
        todos := todos[i := Todo(todos[i].text, !todos[i].done)];
      }
      assert Apply(m, read.value) == Ok(todos);
      Fs.ReadableIsWritable(fs.dirs, todoFilePath, TodoJson.Encode(todos));
      var saved := SaveTodos(todos);
      html := TodoHtml.GetHtml(todos);
      r := Handled;
    }
  }

  /** Two toggles of the same entry leave the list in the file as it was. */
  method ToggleTwice(panel: TodoPanelProvider, i: int) returns (first: Outcome, second: Outcome)
    requires panel.fs.Valid()
    modifies panel, panel.fs
    ensures first == Handled ==> second == Handled && panel.ReadTodos() == old(panel.ReadTodos())
    ensures first != Handled ==> second == first && panel.fs.dirs == old(panel.fs.dirs)
  {
    ghost var before := panel.ReadTodos();
    first := panel.OnDidReceiveMessage(Toggle(i));
    ghost var between := panel.ReadTodos();
    if first == Handled {
      var todos := before.value;
      assert 0 <= i < |todos| && Apply(Toggle(i), todos) == Ok(Toggled(todos, i));
      assert between == Ok(Toggled(todos, i));
      assert Apply(Toggle(i), Toggled(todos, i)) == Ok(Toggled(Toggled(todos, i), i));
      ToggledTwice(todos, i);
    } else {
      assert between == before;
    }
    second := panel.OnDidReceiveMessage(Toggle(i));
  }
}
