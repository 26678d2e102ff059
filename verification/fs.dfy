/**
 * The part of Node's `fs` module the extension uses, over an in-memory
 * directory tree. Every directory the model knows is a key of a `Dirs` map
 * from its path to its `Listing`: the names it holds in enumeration order
 * (what `readdirSync` returns) and what each name is (what `statSync` says).
 */
module Fs {
  import opened Wrappers
  import Path

  datatype Entry = File(content: string) | Directory

  datatype Listing = Listing(names: seq<string>, entries: map<string, Entry>)

  type Dirs = map<string, Listing>

  const EmptyListing := Listing([], map[])

  datatype Errno = ENOENT | ENOTDIR | EISDIR | EEXIST

  /** A failed system call: the code, the call and the path it was given. */
  datatype FsError = FsError(code: Errno, syscall: string, path: string)

  /** Node's `err.message` for a failed call, e.g. `ENOENT: no such file or directory, unlink '/a/b'`. */
  function Message(e: FsError): string
  {
    var description :=
      match e.code
      case ENOENT => "ENOENT: no such file or directory"
      case ENOTDIR => "ENOTDIR: not a directory"
      case EISDIR => "EISDIR: illegal operation on a directory"
      case EEXIST => "EEXIST: file already exists";
    description + ", " + e.syscall + " '" + e.path + "'"
  }

  /** A name a directory can hold. */
  predicate ValidName(n: string)
  {
    n != "" && '/' !in n
  }

  predicate Distinct(names: seq<string>)
  {
    forall i, j :: 0 <= i < j < |names| ==> names[i] != names[j]
  }

  /** Names are distinct, are exactly the keys of the entries, and are valid. */
  ghost predicate WellFormedListing(l: Listing)
  {
    && Distinct(l.names)
    && (forall n :: n in l.entries <==> n in l.names)
    && (forall n :: n in l.entries ==> ValidName(n))
  }

  /** What `statSync(p)` finds: the entry its directory records under its last segment. */
  function EntryAt(d: Dirs, p: string): Option<Entry>
  {
    var dir, name := Path.DirName(p), Path.BaseName(p);
    if Path.HasDir(p) && dir in d && name in d[dir].entries then Some(d[dir].entries[name]) else None
  }

  /** `existsSync(p)`. */
  predicate Exists(d: Dirs, p: string)
  {
    p in d || EntryAt(d, p).Some?
  }

  ghost predicate ListingsWellFormed(d: Dirs)
  {
    forall p :: p in d ==> WellFormedListing(d[p])
  }

  /** Every known directory with a separator lies inside a known directory. */
  ghost predicate ParentsKnown(d: Dirs)
  {
    forall p :: p in d && Path.HasDir(p) ==> Path.DirName(p) in d
  }

  /** Every known directory is recorded as a directory in its parent. */
  ghost predicate KeysRecorded(d: Dirs)
  {
    forall p :: p in d && Path.HasDir(p) && Path.BaseName(p) != "" ==> EntryAt(d, p) == Some(Directory)
  }

  /** Every directory entry is a known directory. */
  ghost predicate DirectoriesKnown(d: Dirs)
  {
    forall dir, n :: dir in d && n in d[dir].entries && d[dir].entries[n].Directory? ==> Path.Join(dir, n) in d
  }

  /** The tree is consistent: what a directory's parent records and what the map knows agree. */
  ghost predicate WellFormed(d: Dirs)
  {
    ListingsWellFormed(d) && ParentsKnown(d) && KeysRecorded(d) && DirectoriesKnown(d)
  }

  /**
   * The error a call on something inside `dir` gets when `dir` is not a known
   * directory: ENOTDIR when a regular file stands at `dir` or at one of its
   * missing ancestors, ENOENT otherwise (`MissingDirNotDir` gives the converse).
   */
  function MissingDir(d: Dirs, dir: string, syscall: string, p: string): (e: FsError)
    ensures e.syscall == syscall && e.path == p && (e.code == ENOTDIR || e.code == ENOENT)
    ensures e.code == ENOTDIR ==>
              exists q :: (q == dir || q + "/" <= dir) && EntryAt(d, q).Some? && EntryAt(d, q).value.File?
    decreases |dir|
  {
    if EntryAt(d, dir).Some? && EntryAt(d, dir).value.File? then FsError(ENOTDIR, syscall, p)
    else if dir !in d && Path.HasDir(dir) then
      var parent := Path.DirName(dir);
      Path.DirNamePrefix(dir);
      var e := MissingDir(d, parent, syscall, p);
      assert e.code == ENOTDIR ==>
               exists q :: (q == dir || q + "/" <= dir) && EntryAt(d, q).Some? && EntryAt(d, q).value.File? by {
        if e.code == ENOTDIR {
          var q :| (q == parent || q + "/" <= parent) && EntryAt(d, q).Some? && EntryAt(d, q).value.File?;
          if q != parent {
            PrefixTrans(q + "/", parent, dir);
          }
        }
      }
      e
    else FsError(ENOENT, syscall, p)
  }

  /** In a consistent tree, the ancestors of a known directory are known. */
  lemma {:induction false} KnownAncestors(d: Dirs, m: string, q: string)
    requires ParentsKnown(d)
    requires m in d && q + "/" <= m
    ensures q in d
    decreases |m|
  {
    Path.AncestorOfDirName(q, m);
    if q != Path.DirName(m) {
      Path.DirNamePrefix(m);
      KnownAncestors(d, Path.DirName(m), q);
    }
  }

  /** In a consistent tree, a regular file at `dir` or above it makes the error ENOTDIR. */
  lemma {:induction false} MissingDirNotDir(d: Dirs, dir: string, q: string, syscall: string, p: string)
    requires WellFormed(d)
    requires q == dir || q + "/" <= dir
    requires EntryAt(d, q).Some? && EntryAt(d, q).value.File?
    ensures MissingDir(d, dir, syscall, p).code == ENOTDIR
    decreases |dir|
  {
    if !(EntryAt(d, dir).Some? && EntryAt(d, dir).value.File?) {
      if dir in d {
        KnownAncestors(d, dir, q);
        assert false;
      }
      Path.AncestorOfDirName(q, dir);
      MissingDirNotDir(d, Path.DirName(dir), q, syscall, p);
    }
  }

  /** Records `e` under `n`; a new name goes to the end of the enumeration order. */
  function Put(l: Listing, n: string, e: Entry): Listing
  {
    Listing(if n in l.entries then l.names else l.names + [n], l.entries[n := e])
  }

  /** `names` without `n`; the other names keep their order (`WithoutAt`). */
  function Without(names: seq<string>, n: string): (r: seq<string>)
    ensures forall m :: m in r <==> m in names && m != n
    ensures |r| <= |names|
    ensures n !in names ==> r == names
  {
    if names == [] then []
    else (if names[0] == n then [] else [names[0]]) + Without(names[1..], n)
  }

  /** `l` without the name `n`. */
  function Removed(l: Listing, n: string): Listing
  {
    Listing(Without(l.names, n), l.entries - {n})
  }

  /** `readFileSync(p, "utf8")`. */
  function ReadFile(d: Dirs, p: string): (r: Result<string, FsError>)
    ensures r.Ok? <==> EntryAt(d, p).Some? && EntryAt(d, p).value.File?
    ensures r.Ok? ==> EntryAt(d, p) == Some(File(r.value))
  {
    var dir := Path.DirName(p);
    if !Path.HasDir(p) || dir !in d then Err(MissingDir(d, dir, "open", p))
    else match EntryAt(d, p)
      case None => Err(FsError(ENOENT, "open", p))
      case Some(Directory) => Err(FsError(EISDIR, "read", p))
      case Some(File(content)) => Ok(content)
  }

  /**
   * `writeFileSync(p, content)`: creates or overwrites a regular file. It
   * fails when the directory is missing or `p` names a directory.
   */
  function Write(d: Dirs, p: string, content: string): (r: Result<Dirs, FsError>)
    ensures r.Ok? <==> Path.HasDir(p) && Path.DirName(p) in d && Path.BaseName(p) != ""
                       && EntryAt(d, p) != Some(Directory)
    ensures r.Ok? ==> ReadFile(r.value, p) == Ok(content)
    ensures r.Ok? ==> r.value.Keys == d.Keys
    ensures r.Ok? ==> forall q :: q != p ==> EntryAt(r.value, q) == EntryAt(d, q)
    ensures r.Ok? && WellFormed(d) ==> WellFormed(r.value)
  {
    var dir, name := Path.DirName(p), Path.BaseName(p);
    if !Path.HasDir(p) || dir !in d then Err(MissingDir(d, dir, "open", p))
    else if name == "" || EntryAt(d, p) == Some(Directory) then Err(FsError(EISDIR, "open", p))
    else
      var l' := Put(d[dir], name, File(content));
      ReplaceFrame(d, p, l');
      WriteWellFormed(d, p, content);
      Ok(d[dir := l'])
  }

  /**
   * `unlink(p)`: removes a regular file. It fails when there is nothing at
   * `p` or `p` is a directory.
   */
  function Unlink(d: Dirs, p: string): (r: Result<Dirs, FsError>)
    ensures r.Ok? <==> Path.HasDir(p) && Path.DirName(p) in d && EntryAt(d, p).Some? && EntryAt(d, p).value.File?
    ensures r.Ok? ==> EntryAt(r.value, p) == None
    ensures r.Ok? && WellFormed(d) ==> !Exists(r.value, p)
    ensures r.Ok? ==> r.value.Keys == d.Keys
    ensures r.Ok? ==> forall q :: q != p ==> EntryAt(r.value, q) == EntryAt(d, q)
    ensures r.Ok? && WellFormed(d) ==> WellFormed(r.value)
  {
    var dir, name := Path.DirName(p), Path.BaseName(p);
    if !Path.HasDir(p) || dir !in d then Err(MissingDir(d, dir, "unlink", p))
    else match EntryAt(d, p)
      case None => Err(FsError(ENOENT, "unlink", p))
      case Some(Directory) => Err(FsError(EISDIR, "unlink", p))
      case Some(File(_)) =>
        var l' := Removed(d[dir], name);
        ReplaceFrame(d, p, l');
        UnlinkWellFormed(d, p);
        Ok(d[dir := l'])
  }

  /**
   * A new directory `p` with an empty listing, recorded in its parent when
   * `p` has a parent and a non-empty last segment.
   */
  function AddDir(d: Dirs, p: string): (r: Dirs)
    requires p !in d && EntryAt(d, p) == None
    requires Path.HasDir(p) ==> Path.DirName(p) in d
    ensures forall q :: q in r <==> q in d || q == p
    ensures r[p] == EmptyListing
    ensures Path.HasDir(p) && Path.BaseName(p) != "" ==>
              r[Path.DirName(p)] == Put(d[Path.DirName(p)], Path.BaseName(p), Directory)
    ensures forall q :: q in d && !(Path.HasDir(p) && Path.BaseName(p) != "" && q == Path.DirName(p)) ==> r[q] == d[q]
    ensures forall q :: q != p ==> EntryAt(r, q) == EntryAt(d, q)
    ensures EntryAt(r, p) == (if Path.HasDir(p) && Path.BaseName(p) != "" then Some(Directory) else None)
  {
    var d1 := d[p := EmptyListing];
    assert forall q :: EntryAt(d1, q) == EntryAt(d, q);
    if Path.HasDir(p) && Path.BaseName(p) != "" then
      var dir := Path.DirName(p);
      Path.DirNamePrefix(p);
      var l' := Put(d[dir], Path.BaseName(p), Directory);
      ReplaceFrame(d1, p, l');
      d1[dir := l']
    else d1
  }

  /**
   * `mkdirSync(p, { recursive: true })`: makes `p` and every missing
   * directory above it. It fails with EEXIST when something other than a
   * directory is at `p`, and with ENOTDIR when one is above it.
   */
  function MakeDir(d: Dirs, p: string): (r: Result<Dirs, FsError>)
    ensures p in d ==> r == Ok(d)
    ensures p !in d && EntryAt(d, p).Some? ==> r == Err(FsError(EEXIST, "mkdir", p))
    ensures !Exists(d, p) && (Path.HasDir(p) ==> Path.DirName(p) in d) ==> r.Ok?
    ensures r.Ok? ==> p in r.value && (p !in d ==> r.value[p] == EmptyListing)
    ensures r.Ok? ==> forall q :: q in d ==> q in r.value
    ensures r.Ok? ==> forall q :: q in r.value && q !in d ==> q == p || q + "/" <= p
    ensures r.Ok? ==> forall q, n :: q in d && n in d[q].entries ==>
                        n in r.value[q].entries && r.value[q].entries[n] == d[q].entries[n]
    ensures r.Ok? ==> forall q :: EntryAt(r.value, q) != EntryAt(d, q) ==>
                        EntryAt(r.value, q) == Some(Directory) && (q == p || q + "/" <= p)
    ensures r.Ok? && Path.HasDir(p) && Path.DirName(p) in d ==>
              forall q :: q in d && q != Path.DirName(p) ==> r.value[q] == d[q]
    ensures r.Ok? && WellFormed(d) ==> WellFormed(r.value)
    ensures r.Ok? && WellFormed(d) && Path.HasDir(p) && Path.BaseName(p) != "" ==> EntryAt(r.value, p) == Some(Directory)
    decreases |p|
  {
    if p in d then Ok(d)
    else if EntryAt(d, p).Some? then Err(FsError(EEXIST, "mkdir", p))
    else if !Path.HasDir(p) then
      AddDirWellFormed(d, p);
      Ok(AddDir(d, p))
    else
      var parent := Path.DirName(p);
      Path.DirNamePrefix(p);
      match MakeDir(d, parent)
      case Err(_) => Err(FsError(ENOTDIR, "mkdir", p))
      case Ok(d1) =>
        MakeDirStep(d, p, d1);
        AddDirWellFormed(d1, p);
        Ok(AddDir(d1, p))
  }

  /**
   * Once the directories above `p` exist (`d1`, made from `d`), adding `p`
   * changes only `p` and what was added above it.
   */
  lemma MakeDirStep(d: Dirs, p: string, d1: Dirs)
    requires p !in d && EntryAt(d, p) == None && Path.HasDir(p)
    requires Path.DirName(p) in d1
    requires forall q :: q in d ==> q in d1
    requires forall q :: q in d1 && q !in d ==> q == Path.DirName(p) || q + "/" <= Path.DirName(p)
    requires forall q, n :: q in d && n in d[q].entries ==> n in d1[q].entries && d1[q].entries[n] == d[q].entries[n]
    requires forall q :: EntryAt(d1, q) != EntryAt(d, q) ==>
               EntryAt(d1, q) == Some(Directory) && (q == Path.DirName(p) || q + "/" <= Path.DirName(p))
    ensures p !in d1 && EntryAt(d1, p) == None
    ensures forall q :: q in AddDir(d1, p) && q !in d ==> q == p || q + "/" <= p
    ensures forall q, n :: q in d && n in d[q].entries ==>
              n in AddDir(d1, p)[q].entries && AddDir(d1, p)[q].entries[n] == d[q].entries[n]
    ensures forall q :: EntryAt(AddDir(d1, p), q) != EntryAt(d, q) ==>
              EntryAt(AddDir(d1, p), q) == Some(Directory) && (q == p || q + "/" <= p)
  {
    var parent := Path.DirName(p);
    Path.DirNamePrefix(p);
    assert p != parent && !(p + "/" <= parent);
    var r := AddDir(d1, p);
    forall q | q in r && q !in d && q != p ensures q + "/" <= p {
      if q != parent {
        PrefixTrans(q + "/", parent, p);
      }
    }
    AddDirKeepsEntries(d, p, d1);
    forall q | EntryAt(r, q) != EntryAt(d, q) && q != p ensures EntryAt(r, q) == Some(Directory) && q + "/" <= p {
      assert EntryAt(r, q) == EntryAt(d1, q);
      if q != parent {
        PrefixTrans(q + "/", parent, p);
      }
    }
  }

  /** Adding `p` to `d1` keeps every entry `d1` took over from `d`. */
  lemma AddDirKeepsEntries(d: Dirs, p: string, d1: Dirs)
    requires p !in d && EntryAt(d, p) == None && Path.HasDir(p)
    requires p !in d1 && EntryAt(d1, p) == None && Path.DirName(p) in d1
    requires forall q :: q in d ==> q in d1
    requires forall q, n :: q in d && n in d[q].entries ==> n in d1[q].entries && d1[q].entries[n] == d[q].entries[n]
    ensures forall q, n :: q in d && n in d[q].entries ==>
              n in AddDir(d1, p)[q].entries && AddDir(d1, p)[q].entries[n] == d[q].entries[n]
  {
    var parent, r := Path.DirName(p), AddDir(d1, p);
    forall q, n | q in d && n in d[q].entries ensures n in r[q].entries && r[q].entries[n] == d[q].entries[n] {
      if Path.BaseName(p) != "" && q == parent {
        assert n != Path.BaseName(p);
      } else {
        assert r[q] == d1[q];
      }
    }
  }

  /**
   * `mkdirSync(p, { recursive: true })` succeeds whenever nothing but
   * directories stands at `p` and at its ancestors: every missing one is made.
   */
  lemma {:induction false} MakeDirSucceeds(d: Dirs, p: string)
    requires WellFormed(d)
    requires forall q :: (q == p || q + "/" <= p) && q !in d ==> EntryAt(d, q) == None
    ensures MakeDir(d, p).Ok?
    decreases |p|
  {
    if p !in d && Path.HasDir(p) {
      var parent := Path.DirName(p);
      Path.DirNamePrefix(p);
      forall q | (q == parent || q + "/" <= parent) && q !in d ensures EntryAt(d, q) == None {
        if q != parent {
          PrefixTrans(q + "/", parent, p);
        }
      }
      MakeDirSucceeds(d, parent);
    }
  }

  /** In a consistent tree, removing a path below a regular file fails with ENOTDIR, at any depth. */
  lemma UnlinkBelowFile(d: Dirs, p: string, q: string)
    requires WellFormed(d)
    requires q + "/" <= p
    requires EntryAt(d, q).Some? && EntryAt(d, q).value.File?
    ensures Unlink(d, p) == Err(FsError(ENOTDIR, "unlink", p))
  {
    var dir := Path.DirName(p);
    Path.AncestorOfDirName(q, p);
    if dir in d {
      if q != dir {
        KnownAncestors(d, dir, q);
      }
      assert false;
    }
    MissingDirNotDir(d, dir, q, "unlink", p);
  }

  /** `readdirSync(p)`: the listing of a known directory, which is what `statSync` sees inside it. */
  function ReadDir(d: Dirs, p: string): (r: Result<Listing, FsError>)
    ensures r.Ok? <==> p in d
    ensures r.Ok? ==> r.value == d[p]
    ensures r.Ok? ==> forall n :: n in r.value.entries && '/' !in n ==> EntryAt(d, Path.Join(p, n)) == Some(r.value.entries[n])
  {
    if p in d then
      assert forall n :: n in d[p].entries && '/' !in n ==> EntryAt(d, Path.Join(p, n)) == Some(d[p].entries[n]) by {
        forall n | n in d[p].entries && '/' !in n ensures EntryAt(d, Path.Join(p, n)) == Some(d[p].entries[n]) {
          Path.SplitJoin(p, n);
        }
      }
      Ok(d[p])
    else Err(MissingDir(d, p, "scandir", p))
  }

  lemma PrefixTrans(a: string, b: string, c: string)
    requires a <= b && b + "/" <= c
    ensures a <= c
  {
    assert b <= c by {
      assert c[..|b|] == (b + "/")[..|b|];
    }
  }

  /** Replacing the listing of `p`'s directory by one that agrees on every other name changes what no other path finds. */
  lemma ReplaceFrame(d: Dirs, p: string, l': Listing)
    requires Path.HasDir(p) && Path.DirName(p) in d
    requires forall n :: n != Path.BaseName(p) ==> (n in l'.entries <==> n in d[Path.DirName(p)].entries)
    requires forall n :: n != Path.BaseName(p) && n in l'.entries ==> l'.entries[n] == d[Path.DirName(p)].entries[n]
    ensures forall q :: q != p ==> EntryAt(d[Path.DirName(p) := l'], q) == EntryAt(d, q)
  {
    var dir, name := Path.DirName(p), Path.BaseName(p);
    var d' := d[dir := l'];
    forall q | q != p ensures EntryAt(d', q) == EntryAt(d, q) {
      if Path.HasDir(q) && Path.DirName(q) == dir && Path.BaseName(q) == name {
        Path.SplitInjective(p, q);
      }
    }
  }

  lemma PutWellFormed(l: Listing, n: string, e: Entry)
    requires WellFormedListing(l) && ValidName(n)
    ensures WellFormedListing(Put(l, n, e))
  {
    if n !in l.entries {
      var names := l.names + [n];
      forall i, j | 0 <= i < j < |names| ensures names[i] != names[j] {
        if j == |l.names| {
          assert names[i] == l.names[i] && names[i] in l.names;
        } else {
          assert names[i] == l.names[i] && names[j] == l.names[j];
        }
      }
    }
  }

  /**
   * Changing the entry at `p` to a regular file, or removing a regular file
   * there, leaves the tree consistent.
   */
  lemma ReplaceWellFormed(d: Dirs, p: string, l': Listing)
    requires WellFormed(d) && Path.HasDir(p) && Path.DirName(p) in d && p !in d
    requires WellFormedListing(l')
    requires forall n :: n != Path.BaseName(p) ==> (n in l'.entries <==> n in d[Path.DirName(p)].entries)
    requires forall n :: n != Path.BaseName(p) && n in l'.entries ==> l'.entries[n] == d[Path.DirName(p)].entries[n]
    requires Path.BaseName(p) in l'.entries ==> l'.entries[Path.BaseName(p)].File?
    ensures WellFormed(d[Path.DirName(p) := l'])
  {
    var dir, name := Path.DirName(p), Path.BaseName(p);
    var d' := d[dir := l'];
    ReplaceFrame(d, p, l');
    assert d'.Keys == d.Keys;
    assert KeysRecorded(d') by {
      forall q | q in d' && Path.HasDir(q) && Path.BaseName(q) != "" ensures EntryAt(d', q) == Some(Directory) {
        assert q != p;
      }
    }
    assert DirectoriesKnown(d') by {
      forall dir2, n | dir2 in d' && n in d'[dir2].entries && d'[dir2].entries[n].Directory?
        ensures Path.Join(dir2, n) in d'
      {
        if dir2 == dir {
          assert n != name;
          assert d[dir].entries[n].Directory?;
        }
      }
    }
  }

  lemma WriteWellFormed(d: Dirs, p: string, content: string)
    requires Path.HasDir(p) && Path.DirName(p) in d && Path.BaseName(p) != "" && EntryAt(d, p) != Some(Directory)
    ensures WellFormed(d) ==>
              WellFormed(d[Path.DirName(p) := Put(d[Path.DirName(p)], Path.BaseName(p), File(content))])
  {
    if WellFormed(d) {
      var dir, name := Path.DirName(p), Path.BaseName(p);
      assert p !in d;
      assert WellFormedListing(d[dir]);
      PutWellFormed(d[dir], name, File(content));
      ReplaceWellFormed(d, p, Put(d[dir], name, File(content)));
    }
  }

  lemma UnlinkWellFormed(d: Dirs, p: string)
    requires Path.HasDir(p) && Path.DirName(p) in d && EntryAt(d, p).Some? && EntryAt(d, p).value.File?
    ensures WellFormed(d) ==> p !in d && WellFormed(d[Path.DirName(p) := Removed(d[Path.DirName(p)], Path.BaseName(p))])
  {
    if WellFormed(d) {
      var dir, name := Path.DirName(p), Path.BaseName(p);
      var l := d[dir];
      assert WellFormedListing(l);
      assert name != "";
      assert p !in d;
      WithoutDistinct(l.names, name);
      assert WellFormedListing(Removed(l, name));
      ReplaceWellFormed(d, p, Removed(l, name));
    }
  }

  lemma AddDirWellFormed(d: Dirs, p: string)
    requires p !in d && EntryAt(d, p) == None
    requires Path.HasDir(p) ==> Path.DirName(p) in d
    ensures WellFormed(d) ==> WellFormed(AddDir(d, p))
  {
    if WellFormed(d) {
      AddDirListings(d, p);
      AddDirKeys(d, p);
      AddDirDirectories(d, p);
    }
  }

  lemma AddDirListings(d: Dirs, p: string)
    requires p !in d && EntryAt(d, p) == None
    requires Path.HasDir(p) ==> Path.DirName(p) in d
    requires ListingsWellFormed(d)
    ensures ListingsWellFormed(AddDir(d, p))
  {
    var r := AddDir(d, p);
    forall q | q in r ensures WellFormedListing(r[q]) {
      if q == p {
        assert r[q] == EmptyListing;
      } else if Path.HasDir(p) && Path.BaseName(p) != "" && q == Path.DirName(p) {
        assert WellFormedListing(d[q]);
        PutWellFormed(d[q], Path.BaseName(p), Directory);
      } else {
        assert r[q] == d[q];
      }
    }
  }

  lemma AddDirKeys(d: Dirs, p: string)
    requires p !in d && EntryAt(d, p) == None
    requires Path.HasDir(p) ==> Path.DirName(p) in d
    requires ParentsKnown(d) && KeysRecorded(d)
    ensures ParentsKnown(AddDir(d, p)) && KeysRecorded(AddDir(d, p))
  {
    var r := AddDir(d, p);
    forall q | q in r && Path.HasDir(q) ensures Path.DirName(q) in r {
      if q != p {
        assert q in d;
      }
    }
    forall q | q in r && Path.HasDir(q) && Path.BaseName(q) != "" ensures EntryAt(r, q) == Some(Directory) {
      if q != p {
        assert q in d;
        assert EntryAt(r, q) == EntryAt(d, q);
      }
    }
  }

  lemma AddDirDirectories(d: Dirs, p: string)
    requires p !in d && EntryAt(d, p) == None
    requires Path.HasDir(p) ==> Path.DirName(p) in d
    requires DirectoriesKnown(d)
    ensures DirectoriesKnown(AddDir(d, p))
  {
    var r := AddDir(d, p);
    var recorded := Path.HasDir(p) && Path.BaseName(p) != "";
    forall dir, n | dir in r && n in r[dir].entries && r[dir].entries[n].Directory?
      ensures Path.Join(dir, n) in r
    {
      if recorded && dir == Path.DirName(p) && n == Path.BaseName(p) {
        Path.JoinSplit(p);
      } else if recorded && dir == Path.DirName(p) {
        assert r[dir] == Put(d[dir], Path.BaseName(p), Directory);
        assert n in d[dir].entries && d[dir].entries[n].Directory?;
      } else {
        assert r[dir] == d[dir];
      }
    }
  }

  lemma WithoutDistinct(names: seq<string>, n: string)
    requires Distinct(names)
    ensures Distinct(Without(names, n))
  {
    if names != [] {
      WithoutDistinct(names[1..], n);
      assert names[0] !in names[1..] by {
        forall k | 0 <= k < |names[1..]| ensures names[1..][k] != names[0] {
          assert names[1..][k] == names[k + 1];
        }
      }
    }
  }

  /** Removing the name at position `i` of distinct names leaves the names before it, then those after it, in order. */
  lemma {:induction false} WithoutAt(names: seq<string>, i: nat)
    requires Distinct(names) && i < |names|
    ensures Without(names, names[i]) == names[..i] + names[i + 1..]
  {
    var tail := names[1..];
    assert Distinct(tail) by {
      forall a, b | 0 <= a < b < |tail| ensures tail[a] != tail[b] {
        assert tail[a] == names[a + 1] && tail[b] == names[b + 1];
      }
    }
    if i == 0 {
      assert names[0] !in tail by {
        forall k | 0 <= k < |tail| ensures tail[k] != names[0] {
          assert tail[k] == names[k + 1];
        }
      }
    } else {
      assert tail[i - 1] == names[i];
      WithoutAt(tail, i - 1);
      assert names[..i] == [names[0]] + tail[..i - 1];
      assert names[i + 1..] == tail[i..];
    }
  }

  /** Reading a file that exists means that writing it succeeds. */
  lemma ReadableIsWritable(d: Dirs, p: string, content: string)
    requires WellFormed(d) && ReadFile(d, p).Ok?
    ensures Write(d, p, content).Ok?
  {
    assert ListingsWellFormed(d);
  }

  /**
   * The process's filesystem: the one object every `fs.*` call of the
   * extension acts on.
   */
  class FileSystem {
    var dirs: Dirs

    ghost predicate Valid()
      reads this
    {
      WellFormed(dirs)
    }

    constructor (initial: Dirs)
      requires WellFormed(initial)
      ensures Valid() && dirs == initial
    {
      dirs := initial;
    }

    /** `fs.writeFileSync(p, content, "utf8")`, which throws on failure. */
    method WriteFile(p: string, content: string) returns (r: Result<(), FsError>)
      requires Valid()
      modifies this
      ensures Valid()
      ensures Write(old(dirs), p, content).Ok? ==> r.Ok? && dirs == Write(old(dirs), p, content).value
      ensures Write(old(dirs), p, content).Err? ==> r == Err(Write(old(dirs), p, content).error) && dirs == old(dirs)
    {
      var w := Write(dirs, p, content);
      if w.Ok? {
        dirs := w.value;
        r := Ok(());
      } else {
        r := Err(w.error);
      }
    }

    /** `fs.unlink(p, callback)`; the callback receives the error, if any. */
    method UnlinkFile(p: string) returns (r: Result<(), FsError>)
      requires Valid()
      modifies this
      ensures Valid()
      ensures Unlink(old(dirs), p).Ok? ==> r.Ok? && dirs == Unlink(old(dirs), p).value
      ensures Unlink(old(dirs), p).Err? ==> r == Err(Unlink(old(dirs), p).error) && dirs == old(dirs)
    {
      var u := Unlink(dirs, p);
      if u.Ok? {
        dirs := u.value;
        r := Ok(());
      } else {
        r := Err(u.error);
      }
    }

    /** `fs.mkdirSync(p, { recursive: true })`, which throws on failure. */
    method MkdirRecursive(p: string) returns (r: Result<(), FsError>)
      requires Valid()
      modifies this
      ensures Valid()
      ensures MakeDir(old(dirs), p).Ok? ==> r.Ok? && dirs == MakeDir(old(dirs), p).value
      ensures MakeDir(old(dirs), p).Err? ==> r == Err(MakeDir(old(dirs), p).error) && dirs == old(dirs)
    {
      var m := MakeDir(dirs, p);
      if m.Err? {
        return Err(m.error);
      }
      dirs := m.value;
      r := Ok(());
    }
  }
}
