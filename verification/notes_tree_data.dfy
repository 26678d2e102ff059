/**
 * The notes tree (`NotesTreeDataProvider`): the regular files of the notes
 * directory, except the reserved todo file, in enumeration order; and the
 * creation of a new, empty, timestamp-named note.
 */
module NotesTreeData {
  import opened Wrappers
  import Path
  import Fs

  const NotesDirNotSet := "Notes directory not set."

  /** A tree item for one note, identified by its file path. */
  datatype NoteItem = NoteItem(resourceUri: string)

  /** Whether an entry of the listing is shown: a regular file that is not the reserved one. */
  predicate IsNote(l: Fs.Listing, name: string, reserved: string)
  {
    name in l.entries && l.entries[name].File? && name != reserved
  }

  /** The filter and map of `getChildren`, over the names `names` of listing `l` of directory `dir`. */
  function Children(dir: string, l: Fs.Listing, names: seq<string>, reserved: string): (items: seq<NoteItem>)
    ensures |items| <= |names|
    ensures forall n :: n in names && IsNote(l, n, reserved) ==> NoteItem(Path.Join(dir, n)) in items
    ensures forall it :: it in items ==> exists n :: n in names && IsNote(l, n, reserved) && it == NoteItem(Path.Join(dir, n))
  {
    if names == [] then []
    else
      (if IsNote(l, names[0], reserved) then [NoteItem(Path.Join(dir, names[0]))] else [])
      + Children(dir, l, names[1..], reserved)
  }

  /** The items `getChildren` resolves to for listing `l` of `dir`. */
  function ListNotes(dir: string, l: Fs.Listing, reserved: string): seq<NoteItem>
  {
    Children(dir, l, l.names, reserved)
  }

  /** A note is listed exactly when its name is a regular file of the directory other than the reserved one. */
  lemma {:induction false} ListedIff(dir: string, l: Fs.Listing, reserved: string, name: string)
    requires Fs.WellFormedListing(l)
    ensures NoteItem(Path.Join(dir, name)) in ListNotes(dir, l, reserved) <==> IsNote(l, name, reserved)
  {
    if NoteItem(Path.Join(dir, name)) in ListNotes(dir, l, reserved) {
      var n :| n in l.names && IsNote(l, n, reserved) && NoteItem(Path.Join(dir, name)) == NoteItem(Path.Join(dir, n));
      assert Path.Join(dir, name)[|dir| + 1..] == name;
      assert Path.Join(dir, n)[|dir| + 1..] == n;
    }
  }

  /** The items keep the enumeration order: the items of a concatenation are concatenated. */
  lemma {:induction false} ChildrenConcat(dir: string, l: Fs.Listing, a: seq<string>, b: seq<string>, reserved: string)
    ensures Children(dir, l, a + b, reserved) == Children(dir, l, a, reserved) + Children(dir, l, b, reserved)
  {
    if a == [] {
      assert a + b == b;
    } else {
      assert (a + b)[1..] == a[1..] + b;
      ChildrenConcat(dir, l, a[1..], b, reserved);
    }
  }

  /** Changing entries without changing which names are notes does not change the items. */
  lemma {:induction false} ChildrenSameNotes(dir: string, l: Fs.Listing, l': Fs.Listing, names: seq<string>, reserved: string)
    requires forall n :: n in names ==> (IsNote(l, n, reserved) <==> IsNote(l', n, reserved))
    ensures Children(dir, l, names, reserved) == Children(dir, l', names, reserved)
  {
    if names != [] {
      ChildrenSameNotes(dir, l, l', names[1..], reserved);
    }
  }

  /** `new Date().toISOString().replace(/[:.]/g, "-")`. */
  function SanitizeTimestamp(ts: string): (r: string)
    ensures |r| == |ts|
    ensures forall i :: 0 <= i < |ts| ==> r[i] == (if ts[i] == ':' || ts[i] == '.' then '-' else ts[i])
  {
    if ts == [] then []
    else [if ts[0] == ':' || ts[0] == '.' then '-' else ts[0]] + SanitizeTimestamp(ts[1..])
  }

  /** The sanitised timestamp has no ':' or '.', and sanitising again changes nothing. */
  lemma SanitizeTimestampClean(ts: string)
    ensures ':' !in SanitizeTimestamp(ts) && '.' !in SanitizeTimestamp(ts)
    ensures SanitizeTimestamp(SanitizeTimestamp(ts)) == SanitizeTimestamp(ts)
  {
    var r := SanitizeTimestamp(ts);
    assert forall i :: 0 <= i < |r| ==> r[i] != ':' && r[i] != '.';
  }

  /** `note-${timestamp}.txt`. */
  function NoteFileName(ts: string): (name: string)
    ensures |name| == |ts| + 9
    ensures name[..5] == "note-" && name[|name| - 4..] == ".txt"
    ensures name[5..|name| - 4] == SanitizeTimestamp(ts)
    ensures '/' !in ts ==> Fs.ValidName(name)
  {
    var s := SanitizeTimestamp(ts);
    var name := "note-" + s + ".txt";
    assert name[5..|name| - 4] == s;
    assert '/' !in ts ==> '/' !in s by {
      if '/' in s {
        var i :| 0 <= i < |s| && s[i] == '/';
        assert ts[i] == '/';
      }
    }
    name
  }

  class NotesTreeDataProvider {
    const fs: Fs.FileSystem
    const notesDir: string
    /** `INTERNAL_TODO_FILENAME`, defined outside the files modelled here. */
    const internalTodoFileName: string
    /** How many times `onDidChangeTreeData` has fired. */
    var changeEvents: nat

    constructor Init(fs: Fs.FileSystem, notesDir: string, internalTodoFileName: string)
      ensures this.fs == fs && this.notesDir == notesDir
      ensures this.internalTodoFileName == internalTodoFileName && changeEvents == 0
    {
      this.fs := fs;
      this.notesDir := notesDir;
      this.internalTodoFileName := internalTodoFileName;
      changeEvents := 0;
    }

    /**
     * `new NotesTreeDataProvider(context)` given the stored `notesDirectory`
     * setting; the source's constructor throws where this returns `Err`,
     * with the thrown error's message.
     */
    static method Create(fs: Fs.FileSystem, setting: Option<string>, internalTodoFileName: string)
      returns (r: Result<NotesTreeDataProvider, string>)
      requires fs.Valid()
      modifies fs
      ensures fs.Valid()
      ensures setting.None? || setting.value == "" ==> r == Err(NotesDirNotSet) && fs.dirs == old(fs.dirs)
      ensures setting.Some? && setting.value != "" && Fs.Exists(old(fs.dirs), setting.value) ==>
                r.Ok? && fs.dirs == old(fs.dirs)
      ensures setting.Some? && setting.value != "" && !Fs.Exists(old(fs.dirs), setting.value) ==>
                if Fs.MakeDir(old(fs.dirs), setting.value).Ok? then
                  r.Ok? && fs.dirs == Fs.MakeDir(old(fs.dirs), setting.value).value && setting.value in fs.dirs
                else
                  r == Err(Fs.Message(Fs.MakeDir(old(fs.dirs), setting.value).error)) && fs.dirs == old(fs.dirs)
      ensures r.Ok? ==>
                && fresh(r.value) && Fs.Exists(fs.dirs, setting.value)
                && r.value.fs == fs && r.value.notesDir == setting.value
                && r.value.internalTodoFileName == internalTodoFileName && r.value.changeEvents == 0
    {
      if setting.None? || setting.value == "" {
        return Err(NotesDirNotSet);
      }
      var notesDir := setting.value;
      if !Fs.Exists(fs.dirs, notesDir) {
        var made := fs.MkdirRecursive(notesDir);
        if made.Err? {
          return Err(Fs.Message(made.error));
        }
      }
      var provider := new NotesTreeDataProvider.Init(fs, notesDir, internalTodoFileName);
      r := Ok(provider);
    }

    /** `refresh()`: fire the change event once. */
    method Refresh()
      modifies this
      ensures changeEvents == old(changeEvents) + 1
    {
      changeEvents := changeEvents + 1;
    }

    /** `getChildren()`: throws (here `Err`) when the notes directory cannot be read. */
    function GetChildren(): (r: Result<seq<NoteItem>, Fs.FsError>)
      reads fs
      ensures r.Ok? <==> notesDir in fs.dirs
      ensures r.Ok? ==> forall n :: IsNote(fs.dirs[notesDir], n, internalTodoFileName) && n in fs.dirs[notesDir].names
                                    ==> NoteItem(Path.Join(notesDir, n)) in r.value
      ensures r.Ok? ==> forall it :: it in r.value ==> exists n :: IsNote(fs.dirs[notesDir], n, internalTodoFileName)
                                                             && it == NoteItem(Path.Join(notesDir, n))
    {
      match Fs.ReadDir(fs.dirs, notesDir)
      case Err(e) => Err(e)
      case Ok(l) => Ok(ListNotes(notesDir, l, internalTodoFileName))
    }

    /**
     * `createNewNote()` at the moment whose ISO form is `timestamp`: write an
     * empty note file, then fire the change event. Opening the new note in an
     * editor is not modelled.
     */
    method CreateNewNote(timestamp: string) returns (r: Result<string, Fs.FsError>)
      requires fs.Valid()
      modifies this, fs
      ensures fs.Valid()
      ensures var p := Path.Join(notesDir, NoteFileName(timestamp));
              Fs.Write(old(fs.dirs), p, "").Ok? ==>
                r == Ok(p) && Fs.Write(old(fs.dirs), p, "") == Ok(fs.dirs) && changeEvents == old(changeEvents) + 1
      ensures var p := Path.Join(notesDir, NoteFileName(timestamp));
              Fs.Write(old(fs.dirs), p, "").Err? ==>
                r == Err(Fs.Write(old(fs.dirs), p, "").error) && fs.dirs == old(fs.dirs) && changeEvents == old(changeEvents)
    {
      var fileName := NoteFileName(timestamp);
      var filePath := Path.Join(notesDir, fileName);
      var written := fs.WriteFile(filePath, "");
      if written.Err? {
        return Err(written.error);
      }
      Refresh();
      r := Ok(filePath);
    }
  }

  /** Recording a regular file under a name adds its item at the end if the name is new. */
  lemma {:induction false} ListAfterPut(dir: string, l: Fs.Listing, name: string, content: string, reserved: string)
    requires Fs.WellFormedListing(l)
    requires name != reserved
    requires name in l.entries ==> l.entries[name].File?
    ensures name !in l.entries ==>
              ListNotes(dir, Fs.Put(l, name, Fs.File(content)), reserved)
              == ListNotes(dir, l, reserved) + [NoteItem(Path.Join(dir, name))]
    ensures name in l.entries ==> ListNotes(dir, Fs.Put(l, name, Fs.File(content)), reserved) == ListNotes(dir, l, reserved)
  {
    var l' := Fs.Put(l, name, Fs.File(content));
    assert forall n :: n in l.names ==> (IsNote(l, n, reserved) <==> IsNote(l', n, reserved));
    ChildrenSameNotes(dir, l, l', l.names, reserved);
    if name !in l.entries {
      assert l'.names == l.names + [name];
      ChildrenConcat(dir, l', l.names, [name], reserved);
      assert Children(dir, l', [name], reserved) == [NoteItem(Path.Join(dir, name))] by {
        assert IsNote(l', name, reserved);
        assert [name][1..] == [];
      }
    }
  }

  /**
   * Writing a new note into the notes directory adds exactly its item at the
   * end of the listing; overwriting an existing note leaves the listing as it was.
   */
  lemma {:induction false} ListAfterWrite(d: Fs.Dirs, dir: string, name: string, reserved: string, d': Fs.Dirs)
    requires Fs.WellFormed(d) && dir in d
    requires '/' !in name && name != reserved
    requires Fs.Write(d, Path.Join(dir, name), "") == Ok(d')
    ensures name !in d[dir].entries ==>
              ListNotes(dir, d'[dir], reserved) == ListNotes(dir, d[dir], reserved) + [NoteItem(Path.Join(dir, name))]
    ensures name in d[dir].entries ==> ListNotes(dir, d'[dir], reserved) == ListNotes(dir, d[dir], reserved)
  {
    Path.SplitJoin(dir, name);
    assert d'[dir] == Fs.Put(d[dir], name, Fs.File(""));
    assert Fs.WellFormedListing(d[dir]);
    ListAfterPut(dir, d[dir], name, "", reserved);
  }

  /** Removing a note from the notes directory drops exactly its item from the listing. */
  lemma {:induction false} ListAfterUnlink(d: Fs.Dirs, dir: string, name: string, reserved: string, d': Fs.Dirs, it: NoteItem)
    requires Fs.WellFormed(d) && dir in d
    requires '/' !in name
    requires Fs.Unlink(d, Path.Join(dir, name)) == Ok(d')
    ensures it in ListNotes(dir, d'[dir], reserved) <==>
              it in ListNotes(dir, d[dir], reserved) && it != NoteItem(Path.Join(dir, name))
  {
    Path.SplitJoin(dir, name);
    var l, l' := d[dir], d'[dir];
    assert Fs.WellFormedListing(l);
    assert Fs.WellFormed(d');
    assert Fs.WellFormedListing(l');
    if it in ListNotes(dir, l', reserved) {
      var n :| n in l'.names && IsNote(l', n, reserved) && it == NoteItem(Path.Join(dir, n));
      ListedIff(dir, l, reserved, n);
      ListedIff(dir, l', reserved, name);
    }
    if it in ListNotes(dir, l, reserved) && it != NoteItem(Path.Join(dir, name)) {
      var n :| n in l.names && IsNote(l, n, reserved) && it == NoteItem(Path.Join(dir, n));
      assert n != name;
      ListedIff(dir, l', reserved, n);
    }
  }
}
