/**
 * The adapters over the browser's origin-private file system. The storage is
 * modelled in memory: a map from directory path to a directory, each
 * directory an ordered list of distinct entry names with the text of each
 * entry. Every storage call an adapter makes is appended to an access log, so
 * that a contract can say which calls happened, in which order, and that none
 * happened at all.
 */
module Opfs {

  import opened Wrappers
  import opened Errors
  import opened Json

  /** The root directory of the application in the private store. */
  const MAIN_OPFS_DIRECTORY: string := "postmaiden.com"

  /** A subdirectory name may hold neither the path separator nor the joiner. */
  predicate ValidSubdir(subdir: string) {
    '/' !in subdir && '_' !in subdir
  }

  /** The directory an adapter works in; an empty subdir stands for none. */
  function DirPath(subdir: string): string {
    if subdir == "" then MAIN_OPFS_DIRECTORY else MAIN_OPFS_DIRECTORY + "__" + subdir
  }

  /** Distinct subdirectories live in distinct directories. */
  lemma DirPathInjective(a: string, b: string)
    requires DirPath(a) == DirPath(b)
    ensures a == b
  {
    var prefix := MAIN_OPFS_DIRECTORY + "__";
    if a != "" && b != "" {
      assert a == (prefix + a)[|prefix|..];
      assert b == (prefix + b)[|prefix|..];
    }
  }

  /** Only the absent subdirectory maps to the main directory. */
  lemma DirPathIsMainOnlyWithoutSubdir(subdir: string)
    ensures DirPath(subdir) == MAIN_OPFS_DIRECTORY <==> subdir == ""
  {
    if subdir != "" {
      assert |DirPath(subdir)| > |MAIN_OPFS_DIRECTORY|;
    }
  }

  // --------------------------------------------------------- directory values

  ghost predicate Distinct(names: seq<string>) {
    forall i, j :: 0 <= i < j < |names| ==> names[i] != names[j]
  }

  /**
   * The elements other than `x`, in their original order. The store uses it
   * for the entry names left by a removal; the projects kernel's name
   * sanitiser uses it for the text left by `replaceAll('"', "")`.
   */
  function Without<T(==,!new)>(xs: seq<T>, x: T): (r: seq<T>)
    ensures forall y :: y in r <==> y in xs && y != x
    decreases |xs|
  {
    if xs == [] then []
    else (if xs[0] == x then [] else [xs[0]]) + Without(xs[1..], x)
  }

  /** Removing a name keeps the relative order of the rest. */
  lemma {:induction false} WithoutConcat<T(!new)>(a: seq<T>, b: seq<T>, n: T)
    ensures Without(a + b, n) == Without(a, n) + Without(b, n)
    decreases |a|
  {
    if a == [] {
      assert a + b == b;
    } else {
      assert (a + b)[0] == a[0];
      assert (a + b)[1..] == a[1..] + b;
      WithoutConcat(a[1..], b, n);
    }
  }

  /** Removing an absent name changes nothing. */
  lemma {:induction false} WithoutAbsent<T(!new)>(names: seq<T>, n: T)
    requires n !in names
    ensures Without(names, n) == names
    decreases |names|
  {
    if names != [] {
      WithoutAbsent(names[1..], n);
      assert [names[0]] + names[1..] == names;
    }
  }

  lemma {:induction false} WithoutDistinct(names: seq<string>, n: string)
    requires Distinct(names)
    ensures Distinct(Without(names, n))
    decreases |names|
  {
    if names != [] {
      WithoutDistinct(names[1..], n);
      var tail := Without(names[1..], n);
      assert names[0] !in tail by {
        assert names[0] !in names[1..] by {
          forall k | 0 <= k < |names[1..]| ensures names[1..][k] != names[0] {
            assert names[1..][k] == names[k + 1];
          }
        }
      }
    }
  }

  /** One directory: its entry names in storage order and the text of each. */
  datatype Directory = Directory(names: seq<string>, texts: map<string, string>) {

    ghost predicate Valid() {
      Distinct(names) && forall n :: n in names <==> n in texts
    }

    /** `getFileHandle(name, {create: true})`: a missing entry is created empty, at the end. */
    function Touch(name: string): Directory {
      if name in texts then this else Directory(names + [name], texts[name := ""])
    }

    function Write(name: string, text: string): Directory {
      this.(texts := texts[name := text])
    }

    function Delete(name: string): Directory {
      Directory(Without(names, name), texts - {name})
    }
  }

  const EmptyDirectory: Directory := Directory([], map[])

  lemma TouchValid(d: Directory, name: string)
    requires d.Valid()
    ensures d.Touch(name).Valid()
    ensures d.Touch(name).texts.Keys == d.texts.Keys + {name}
  {
    if name !in d.texts {
      var ns := d.names + [name];
      forall i, j | 0 <= i < j < |ns| ensures ns[i] != ns[j] {
        if j == |d.names| {
          assert ns[i] == d.names[i];
        }
      }
    }
  }

  lemma DeleteValid(d: Directory, name: string)
    requires d.Valid()
    ensures d.Delete(name).Valid()
  {
    WithoutDistinct(d.names, name);
  }

  // -------------------------------------------------------------- whole store

  ghost predicate ValidDirs(dirs: map<string, Directory>) {
    forall p :: p in dirs ==> dirs[p].Valid()
  }

  function DirAt(dirs: map<string, Directory>, path: string): Directory {
    if path in dirs then dirs[path] else EmptyDirectory
  }

  /** The text of an entry, or `None` when the directory or the entry is missing. */
  function TextAt(dirs: map<string, Directory>, path: string, name: string): Option<string> {
    if path in dirs && name in dirs[path].texts then Some(dirs[path].texts[name]) else None
  }

  /** `getDirectoryHandle(path, {create: true})`. */
  function WithDir(dirs: map<string, Directory>, path: string): map<string, Directory> {
    dirs[path := DirAt(dirs, path)]
  }

  /** The directory and then the file created when missing. */
  function WithFile(dirs: map<string, Directory>, path: string, name: string): map<string, Directory> {
    dirs[path := DirAt(dirs, path).Touch(name)]
  }

  function Written(dirs: map<string, Directory>, path: string, name: string, text: string): map<string, Directory> {
    dirs[path := DirAt(dirs, path).Write(name, text)]
  }

  function Deleted(dirs: map<string, Directory>, path: string, name: string): map<string, Directory> {
    dirs[path := DirAt(dirs, path).Delete(name)]
  }

  lemma WithDirValid(dirs: map<string, Directory>, path: string)
    requires ValidDirs(dirs)
    ensures ValidDirs(WithDir(dirs, path)) && DirAt(WithDir(dirs, path), path) == DirAt(dirs, path)
  {
  }

  /** Opening the directory first changes nothing that opening the file in it would not. */
  lemma WithFileAfterWithDir(dirs: map<string, Directory>, path: string, name: string)
    ensures WithFile(WithDir(dirs, path), path, name) == WithFile(dirs, path, name)
  { }

  lemma WithFileValid(dirs: map<string, Directory>, path: string, name: string)
    requires ValidDirs(dirs)
    ensures ValidDirs(WithFile(dirs, path, name))
    ensures TextAt(WithFile(dirs, path, name), path, name) ==
            (if TextAt(dirs, path, name).Some? then TextAt(dirs, path, name) else Some(""))
  {
    TouchValid(DirAt(dirs, path), name);
  }

  /** Creating a file leaves every existing text untouched and only adds this one. */
  lemma WithFileKeepsTexts(dirs: map<string, Directory>, path: string, name: string, p: string, n: string)
    requires ValidDirs(dirs)
    requires (p, n) != (path, name)
    ensures TextAt(WithFile(dirs, path, name), p, n) == TextAt(dirs, p, n)
  {
  }

  // ---------------------------------------------------------------- the store

  /** One call made on the storage. */
  datatype Access =
    | OpenDirectory(path: string)                     // getDirectory, getDirectoryHandle(path, {create: true})
    | OpenFile(path: string, name: string)            // getFileHandle(name, {create: true})
    | ReadFile(path: string, name: string)            // getFile, text
    | OpenWritable(path: string, name: string)        // createWritable
    | WriteFile(path: string, name: string, text: string)
    | CloseWritable(path: string, name: string)
    | ListEntries(path: string)                       // entries
    | RemoveEntry(path: string, name: string)         // removeEntry

  /** The calls `persist` makes on a file that exists: open, write, close. */
  function WriteCalls(path: string, name: string, text: string): seq<Access> {
    [OpenWritable(path, name), WriteFile(path, name, text), CloseWritable(path, name)]
  }

  /** The origin-private storage of the browser. */
  class Store {
    var dirs: map<string, Directory>
    var log: seq<Access>

    ghost predicate Valid()
      reads this
    {
      ValidDirs(dirs)
    }

    constructor ()
      ensures Valid() && dirs == map[] && log == []
    {
      dirs := map[];
      log := [];
    }
  }

  // ------------------------------------------------------------- file adapter

  /** What `retrieve` yields for the text it read (`None`: no such file). */
  function Decoded<T>(text: Option<string>, codec: Codec<T>): Result<Option<T>, Error> {
    match text
    case None => Failure(EntryNotFound)
    case Some(t) =>
      if t == "" then Success(None)
      else match codec.decode(t)
        case Some(v) => Success(Some(v))
        case None => Failure(ParseError)
  }

  /** `retrieve` yields null exactly for an empty file. */
  lemma DecodedNullIffEmpty<T>(text: Option<string>, codec: Codec<T>)
    ensures Decoded(text, codec) == Success(None) <==> text == Some("")
  {
  }

  /** Reading back what `persist` wrote gives the persisted value. */
  lemma DecodedRoundTrip<T(!new)>(x: T, codec: Codec<T>)
    requires Lawful(codec)
    ensures Decoded(Some(codec.encode(x)), codec) == Success(Some(x))
  {
  }

  /** One file of the store, read and written as one serialised value. */
  class FileAdapter<T> {
    const store: Store
    const dirPath: string
    const filename: string
    const codec: Codec<T>

    constructor (store: Store, dirPath: string, filename: string, codec: Codec<T>)
      ensures this.store == store && this.dirPath == dirPath
      ensures this.filename == filename && this.codec == codec
    {
      this.store := store;
      this.dirPath := dirPath;
      this.filename := filename;
      this.codec := codec;
    }

    /** Empty text gives null; other text is parsed. */
    method Retrieve() returns (r: Result<Option<T>, Error>)
      requires store.Valid()
      modifies store
      ensures store.Valid() && store.dirs == old(store.dirs)
      ensures store.log == old(store.log) + [ReadFile(dirPath, filename)]
      ensures r == Decoded(TextAt(old(store.dirs), dirPath, filename), codec)
    {
      store.log := store.log + [ReadFile(dirPath, filename)];
      var text := TextAt(store.dirs, dirPath, filename);
      if text.None? {
        r := Failure(EntryNotFound);
      } else if text.value == "" {
        r := Success(None);
      } else {
        var parsed := codec.decode(text.value);
        if parsed.Some? {
          r := Success(Some(parsed.value));
        } else {
          r := Failure(ParseError);
        }
      }
    }

    /**
     * Writes the serialised value as the whole content. The writable is
     * closed whether or not the write succeeds, and a failed write is
     * reported; `writeOk` is the outcome of the storage write.
     */
    method Persist(data: T, writeOk: bool) returns (r: Outcome<Error>)
      requires store.Valid()
      modifies store
      ensures store.Valid()
      ensures TextAt(old(store.dirs), dirPath, filename).None? ==>
        && r == Fail(EntryNotFound)
        && store.dirs == old(store.dirs)
        && store.log == old(store.log) + [OpenWritable(dirPath, filename)]
      ensures TextAt(old(store.dirs), dirPath, filename).Some? ==>
        && store.log == old(store.log) + WriteCalls(dirPath, filename, codec.encode(data))
        && (writeOk ==> r == Pass && store.dirs == Written(old(store.dirs), dirPath, filename, codec.encode(data)))
        && (!writeOk ==> r == Fail(WriteError) && store.dirs == old(store.dirs))
    {
      store.log := store.log + [OpenWritable(dirPath, filename)];
      if TextAt(store.dirs, dirPath, filename).None? {
        return Fail(EntryNotFound);
      }
      var text := codec.encode(data);
      store.log := store.log + [WriteFile(dirPath, filename, text)];
      if writeOk {
        store.dirs := Written(store.dirs, dirPath, filename, text);
      }
      store.log := store.log + [CloseWritable(dirPath, filename)];
      r := if writeOk then Pass else Fail(WriteError);
    }

    /** Deletes the file's entry from its directory. */
    method Remove() returns (r: Outcome<Error>)
      requires store.Valid()
      modifies store
      ensures store.Valid()
      ensures store.log == old(store.log) + [RemoveEntry(dirPath, filename)]
      ensures TextAt(old(store.dirs), dirPath, filename).Some? ==>
        r == Pass && store.dirs == Deleted(old(store.dirs), dirPath, filename)
      ensures TextAt(old(store.dirs), dirPath, filename).None? ==>
        r == Fail(EntryNotFound) && store.dirs == old(store.dirs)
    {
      store.log := store.log + [RemoveEntry(dirPath, filename)];
      if TextAt(store.dirs, dirPath, filename).None? {
        return Fail(EntryNotFound);
      }
      DeleteValid(store.dirs[dirPath], filename);
      store.dirs := Deleted(store.dirs, dirPath, filename);
      r := Pass;
    }
  }

  /**
   * Builds a file adapter: checks the subdirectory name before touching the
   * storage, then creates the directory and the file when missing.
   */
  method MakeFileAdapter<T>(store: Store, filename: string, subdir: string, codec: Codec<T>)
    returns (r: Result<FileAdapter<T>, Error>)
    requires store.Valid()
    modifies store
    ensures store.Valid()
    ensures !ValidSubdir(subdir) ==>
      r == Failure(InvalidSubdir) && store.dirs == old(store.dirs) && store.log == old(store.log)
    ensures ValidSubdir(subdir) ==>
      && r.Success? && fresh(r.value)
      && r.value.store == store && r.value.dirPath == DirPath(subdir)
      && r.value.filename == filename && r.value.codec == codec
      && store.dirs == WithFile(old(store.dirs), DirPath(subdir), filename)
      && store.log == old(store.log) + [OpenDirectory(DirPath(subdir)), OpenFile(DirPath(subdir), filename)]
  {
    if !ValidSubdir(subdir) {
      return Failure(InvalidSubdir);
    }
    var dirPath := DirPath(subdir);
    WithFileValid(store.dirs, dirPath, filename);
    WithFileAfterWithDir(store.dirs, dirPath, filename);
    store.log := store.log + [OpenDirectory(dirPath)];
    store.dirs := WithDir(store.dirs, dirPath);
    store.log := store.log + [OpenFile(dirPath, filename)];
    store.dirs := WithFile(store.dirs, dirPath, filename);
    var adapter := new FileAdapter(store, dirPath, filename, codec);
    r := Success(adapter);
  }

  // -------------------------------------------------------- directory adapter

  /** One directory of the store: its entry names and removal by name. */
  class DirAdapter {
    const store: Store
    const dirPath: string

    constructor (store: Store, dirPath: string)
      ensures this.store == store && this.dirPath == dirPath
    {
      this.store := store;
      this.dirPath := dirPath;
    }

    /** Every entry name, in the order the storage lists them. */
    method RetrieveFilenames() returns (r: Result<seq<string>, Error>)
      requires store.Valid()
      modifies store
      ensures store.Valid() && store.dirs == old(store.dirs)
      ensures store.log == old(store.log) + [ListEntries(dirPath)]
      ensures dirPath in old(store.dirs) ==> r == Success(old(store.dirs)[dirPath].names)
      ensures dirPath !in old(store.dirs) ==> r == Failure(EntryNotFound)
    {
      store.log := store.log + [ListEntries(dirPath)];
      if dirPath !in store.dirs {
        return Failure(EntryNotFound);
      }
      var entries := store.dirs[dirPath].names;
      var filenames: seq<string> := [];
      var i := 0;
      while i < |entries|
        invariant 0 <= i <= |entries|
        invariant filenames == entries[..i]
      {
        filenames := filenames + [entries[i]];
        i := i + 1;
      }
      assert entries[..|entries|] == entries;
      r := Success(filenames);
    }

    /** Deletes the named entry; a missing entry is an error. */
    method RemoveByFilename(filename: string) returns (r: Outcome<Error>)
      requires store.Valid()
      modifies store
      ensures store.Valid()
      ensures store.log == old(store.log) + [RemoveEntry(dirPath, filename)]
      ensures TextAt(old(store.dirs), dirPath, filename).Some? ==>
        r == Pass && store.dirs == Deleted(old(store.dirs), dirPath, filename)
      ensures TextAt(old(store.dirs), dirPath, filename).None? ==>
        r == Fail(EntryNotFound) && store.dirs == old(store.dirs)
    {
      store.log := store.log + [RemoveEntry(dirPath, filename)];
      if TextAt(store.dirs, dirPath, filename).None? {
        return Fail(EntryNotFound);
      }
      DeleteValid(store.dirs[dirPath], filename);
      store.dirs := Deleted(store.dirs, dirPath, filename);
      r := Pass;
    }
  }

  /** Builds a directory adapter, creating the directory when missing. */
  method MakeDirAdapter(store: Store, subdir: string) returns (r: Result<DirAdapter, Error>)
    requires store.Valid()
    modifies store
    ensures store.Valid()
    ensures !ValidSubdir(subdir) ==>
      r == Failure(InvalidSubdir) && store.dirs == old(store.dirs) && store.log == old(store.log)
    ensures ValidSubdir(subdir) ==>
      && r.Success? && fresh(r.value)
      && r.value.store == store && r.value.dirPath == DirPath(subdir)
      && store.dirs == WithDir(old(store.dirs), DirPath(subdir))
      && store.log == old(store.log) + [OpenDirectory(DirPath(subdir))]
  {
    if !ValidSubdir(subdir) {
      return Failure(InvalidSubdir);
    }
    var dirPath := DirPath(subdir);
    store.log := store.log + [OpenDirectory(dirPath)];
    store.dirs := WithDir(store.dirs, dirPath);
    var adapter := new DirAdapter(store, dirPath);
    r := Success(adapter);
  }

  // ---------------------------------------------------------------- singleton

  /** A getter that builds its file adapter on first use and returns it ever after. */
  class FileAdapterSingleton<T> {
    const store: Store
    const filename: string
    const subdir: string
    const codec: Codec<T>
    var cached: FileAdapter?<T>

    ghost predicate Valid()
      reads this
    {
      cached != null ==>
        cached.store == store && cached.dirPath == DirPath(subdir) &&
        cached.filename == filename && cached.codec == codec
    }

    /** Creating the getter makes no storage call. */
    constructor (store: Store, filename: string, subdir: string, codec: Codec<T>)
      ensures Valid() && cached == null
      ensures this.store == store && this.filename == filename
      ensures this.subdir == subdir && this.codec == codec
    {
      this.store := store;
      this.filename := filename;
      this.subdir := subdir;
      this.codec := codec;
      cached := null;
    }

    method Get() returns (r: Result<FileAdapter<T>, Error>)
      requires Valid() && store.Valid()
      modifies this, store
      ensures Valid() && store.Valid()
      ensures old(cached) != null ==>
        && r == Success(old(cached)) && cached == old(cached)
        && store.dirs == old(store.dirs) && store.log == old(store.log)
      ensures old(cached) == null && !ValidSubdir(subdir) ==>
        && r == Failure(InvalidSubdir) && cached == null
        && store.dirs == old(store.dirs) && store.log == old(store.log)
      ensures old(cached) == null && ValidSubdir(subdir) ==>
        && r.Success? && fresh(r.value) && cached == r.value
        && store.dirs == WithFile(old(store.dirs), DirPath(subdir), filename)
        && store.log == old(store.log) + [OpenDirectory(DirPath(subdir)), OpenFile(DirPath(subdir), filename)]
    {
      if cached == null {
        var made := MakeFileAdapter(store, filename, subdir, codec);
        if made.Failure? {
          return Failure(made.error);
        }
        cached := made.value;
      }
      r := Success(cached);
    }
  }

  /**
   * Example with two getters over two files in the main directory: the two
   * hand out different adapters, and one getter always the same one.
   */
  method SingletonGetters(store: Store) returns (a1: FileAdapter<string>, a2: FileAdapter<string>, b: FileAdapter<string>)
    requires store.Valid()
    modifies store
    ensures a1 == a2 && a1 != b
  {
    var first := new FileAdapterSingleton(store, "the-man-who-sold-the-world.txt", "", StringCodec);
    var second := new FileAdapterSingleton(store, "i-never-lost-control.txt", "", StringCodec);
    var r1 := first.Get();
    var r2 := first.Get();
    var r3 := second.Get();
    a1, a2, b := r1.value, r2.value, r3.value;
  }
}
