/**
 * The projects listing: the projects as the filenames of the projects
 * directory describe them, and creating, removing and renaming projects.
 */
module ListingService {

  import opened Wrappers
  import opened Errors
  import opened Uuid
  import opened Entities
  import opened Json
  import opened Opfs
  import opened ProjectsKernel

  /** This service's own name for the projects subdirectory; the kernel uses the same one. */
  const LISTING_OPFS_SUBDIRECTORY: string := "projects"

  // ---------------------------------------------------------------- listing

  /** The items the filenames encode, in directory order; filenames that do not match are skipped. */
  function Listing(names: seq<string>): (items: seq<ListingItem>)
    ensures |items| <= |names|
    ensures forall it :: it in items <==> exists n :: n in names && ListingItemFromFilename(n) == Some(it)
    decreases |names|
  {
    if names == [] then []
    else
      var rest := Listing(names[1..]);
      assert forall n :: n in names <==> n == names[0] || n in names[1..];
      match ListingItemFromFilename(names[0])
      case Some(it) => [it] + rest
      case None => rest
  }

  /** An entry whose name does not decode adds nothing to the listing, wherever it stands. */
  lemma MalformedFilenameNotListed(before: seq<string>, f: string, after: seq<string>)
    requires |f| < 36 || !IsLowerUuid(f[..36])
    ensures Listing(before + [f] + after) == Listing(before + after)
  {
    MalformedFilenameIsSkipped(f);
    assert Listing([f]) == [] by {
      assert [f][1..] == [];
      assert Listing([f]) == Listing([f][1..]);
    }
    ListingConcat(before + [f], after);
    ListingConcat(before, [f]);
    ListingConcat(before, after);
    var lb, la := Listing(before), Listing(after);
    assert Listing(before + [f]) == lb + [] == lb;
    assert Listing(before + [f] + after) == lb + la;
  }

  /** The listing of two runs of entries is the listing of the first followed by that of the second. */
  lemma {:induction false} ListingConcat(a: seq<string>, b: seq<string>)
    ensures Listing(a + b) == Listing(a) + Listing(b)
    decreases |a|
  {
    if a == [] {
      assert a + b == b;
    } else {
      assert (a + b)[0] == a[0];
      assert (a + b)[1..] == a[1..] + b;
      ListingConcat(a[1..], b);
    }
  }

  /** Lists the projects without opening any project file. */
  method RetrieveProjectsListing(store: Store) returns (r: Result<seq<ListingItem>, Error>)
    requires store.Valid()
    modifies store
    ensures store.Valid()
    ensures store.dirs == WithDir(old(store.dirs), ProjectsDir)
    ensures store.log == old(store.log) + [OpenDirectory(ProjectsDir), ListEntries(ProjectsDir)]
    ensures r == Success(Listing(DirAt(old(store.dirs), ProjectsDir).names))
  {
    assert LISTING_OPFS_SUBDIRECTORY == PROJECTS_OPFS_SUBDIRECTORY;
    ProjectsDirIsSubdirectory();
    var made := MakeDirAdapter(store, LISTING_OPFS_SUBDIRECTORY);
    var dir := made.value;
    var filenames := dir.RetrieveFilenames();
    r := Success(Listing(filenames.value));
  }

  // --------------------------------------------------------------- creation

  /** A new project: no sections and one default request spec. */
  function NewProject(uuid: string, name: string, specUuid: string): (p: Project)
    ensures p.uuid == uuid && p.name == name && p.sections == []
    ensures p.specs == [MakeDefaultRequestSpec(specUuid)]
  {
    Project(uuid, name, [], [MakeDefaultRequestSpec(specUuid)])
  }

  /**
   * Creates a project file for `name`; `newUuid` and `specUuid` are the
   * identifiers generated for the project and its first request spec, and
   * `writeOk` the outcome of the write. The item answered carries the name
   * as given, not as sanitised for the filename.
   */
  method PersistNewProjectListingItem(store: Store, name: string, newUuid: string, specUuid: string, writeOk: bool)
    returns (r: Result<ListingItem, Error>)
    requires store.Valid()
    modifies store
    ensures store.Valid()
    ensures name == "" ==>
      r == Failure(EmptyProjectName) && store.dirs == old(store.dirs) && store.log == old(store.log)
    ensures name != "" ==>
      && store.dirs == PersistedDirs(old(store.dirs), NewProject(newUuid, name, specUuid), writeOk)
      && store.log == old(store.log) + PersistCalls(NewProject(newUuid, name, specUuid))
      && r == if writeOk then Success(ListingItem(newUuid, name)) else Failure(WriteError)
  {
    if name == "" {
      return Failure(EmptyProjectName);
    }
    var item := ListingItem(newUuid, name);
    var persisted := PersistProject(store, NewProject(item.uuid, item.name, specUuid), writeOk);
    if persisted.Fail? {
      return Failure(persisted.error);
    }
    r := Success(item);
  }

  /**
   * A project created under a fresh uuid appears at the end of the listing
   * with its sanitised name, and reads back as the project created.
   */
  lemma CreatedProjectIsListedAndRetrievable(dirs: map<string, Directory>, uuid: string, name: string, specUuid: string)
    requires ValidDirs(dirs)
    requires IsLowerUuid(uuid) && NoLineTerminators(name)
    requires forall n :: n in DirAt(dirs, ProjectsDir).names ==> !HasUuid(n, uuid)
    ensures var after := DirAt(PersistedDirs(dirs, NewProject(uuid, name, specUuid), true), ProjectsDir);
      && Listing(after.names) == Listing(DirAt(dirs, ProjectsDir).names) + [ListingItem(uuid, Sanitise(name))]
      && LookupProject(after, uuid) == Success(NewProject(uuid, name, specUuid))
  {
    var p := NewProject(uuid, name, specUuid);
    PersistAppendsToListing(dirs, p);
    PersistThenLookup(dirs, p);
  }

  /** Persisting a project under a fresh uuid appends its item to the listing. */
  lemma PersistAppendsToListing(dirs: map<string, Directory>, p: Project)
    requires ValidDirs(dirs)
    requires IsLowerUuid(p.uuid) && NoLineTerminators(p.name)
    requires forall n :: n in DirAt(dirs, ProjectsDir).names ==> !HasUuid(n, p.uuid)
    ensures Listing(DirAt(PersistedDirs(dirs, p, true), ProjectsDir).names)
         == Listing(DirAt(dirs, ProjectsDir).names) + [ListingItem(p.uuid, Sanitise(p.name))]
  {
    var f := ProjectFilename(p.uuid, p.name);
    var names := DirAt(dirs, ProjectsDir).names;
    SanitisePreservesLines(p.name);
    FilenameRoundTrip(p.uuid, p.name);
    assert HasUuid(f, p.uuid);
    PersistedDirsEffect(dirs, p, ProjectsDir, f);
    ListingConcat(names, [f]);
    assert Listing([f]) == [ListingItem(p.uuid, Sanitise(p.name))] by {
      assert [f][1..] == [];
    }
  }

  // ---------------------------------------------------------------- removal

  /** Removes the project file the item's uuid and name select. */
  method RemoveProjectListingItem(store: Store, project: ListingItem) returns (r: Result<string, Error>)
    requires store.Valid()
    modifies store
    ensures store.Valid()
    ensures store.dirs == RemovedDirs(old(store.dirs), project)
    ensures store.log == old(store.log) + RemoveCalls(project)
    ensures r == Success(project.uuid)
  {
    r := RemoveProject(store, project);
  }

  /** A removed project whose file was the only one of its uuid no longer appears in the listing. */
  lemma RemovedProjectLeavesListing(dirs: map<string, Directory>, item: ListingItem)
    requires ValidDirs(dirs)
    requires forall n :: n in DirAt(dirs, ProjectsDir).names && HasUuid(n, item.uuid) ==>
      n == ProjectFilename(item.uuid, item.name)
    ensures forall it :: it in Listing(DirAt(RemovedDirs(dirs, item), ProjectsDir).names) ==> it.uuid != item.uuid
  {
    var f := ProjectFilename(item.uuid, item.name);
    RemovedDirsEffect(dirs, item, ProjectsDir, f);
    var names := DirAt(dirs, ProjectsDir).names;
    var left := DirAt(RemovedDirs(dirs, item), ProjectsDir).names;
    forall it | it in Listing(left) ensures it.uuid != item.uuid {
      var n :| n in left && ListingItemFromFilename(n) == Some(it);
      assert n in names && n != f;
    }
  }

  // ---------------------------------------------------------------- renaming

  /** The existing project with the uuid and name of the update laid over it. */
  function Renamed(existing: Project, updating: ListingItem): (p: Project)
    ensures p.uuid == updating.uuid && p.name == updating.name
    ensures p.sections == existing.sections && p.specs == existing.specs
  {
    existing.(uuid := updating.uuid, name := updating.name)
  }

  function ItemOf(p: Project): ListingItem {
    ListingItem(p.uuid, p.name)
  }

  /**
   * The store after a successful rename as written: the updated project is
   * persisted under its new filename and then the file of the existing
   * project is removed, whatever that filename is.
   */
  function RenameDirs(dirs: map<string, Directory>, existing: Project, updating: ListingItem): map<string, Directory> {
    RemovedDirs(PersistedDirs(WithDir(dirs, ProjectsDir), Renamed(existing, updating), true), ItemOf(existing))
  }

  /**
   * Copies the project found by the update's uuid under the new name and
   * then removes the original file; `writeOk` is the outcome of the write.
   */
  method UpdateProjectListingItem(store: Store, updating: ListingItem, writeOk: bool) returns (r: Result<Project, Error>)
    requires store.Valid()
    modifies store
    ensures store.Valid()
    ensures updating.uuid == "" ==>
      r == Failure(EmptyProjectUuid) && store.dirs == old(store.dirs) && store.log == old(store.log)
    ensures updating.uuid != "" && updating.name == "" ==>
      r == Failure(EmptyProjectName) && store.dirs == old(store.dirs) && store.log == old(store.log)
    ensures updating.uuid != "" && updating.name != "" ==>
      var found := LookupProject(DirAt(old(store.dirs), ProjectsDir), updating.uuid);
      && (found.Failure? ==>
            r == Failure(found.error) && store.dirs == WithDir(old(store.dirs), ProjectsDir))
      && (found.Success? && !writeOk ==>
            && r == Failure(WriteError)
            && store.dirs == PersistedDirs(WithDir(old(store.dirs), ProjectsDir), Renamed(found.value, updating), false))
      && (found.Success? && writeOk ==>
            && r == Success(Renamed(found.value, updating))
            && store.dirs == RenameDirs(old(store.dirs), found.value, updating)
            && store.log == old(store.log)
                 + RetrieveCalls(DirAt(old(store.dirs), ProjectsDir), updating.uuid)
                 + PersistCalls(Renamed(found.value, updating))
                 + RemoveCalls(ItemOf(found.value)))
  {
    if updating.uuid == "" {
      return Failure(EmptyProjectUuid);
    }
    if updating.name == "" {
      return Failure(EmptyProjectName);
    }
    var existing :- RetrieveProject(store, updating.uuid);
    var updated := Renamed(existing, updating);
    var persisted := PersistProject(store, updated, writeOk);
    if persisted.Fail? {
      return Failure(persisted.error);
    }
    var removed := RemoveProjectListingItem(store, ItemOf(existing));
    r := Success(updated);
  }

  /**
   * When the new filename equals the old one (the name is unchanged, or
   * differs only in what sanitising drops) the rename as written removes the
   * file it has just written: the project is gone.
   */
  lemma RenameToSameFilenameLosesProject(dirs: map<string, Directory>, existing: Project, updating: ListingItem)
    requires ValidDirs(dirs)
    requires ProjectFilename(updating.uuid, updating.name) == ProjectFilename(existing.uuid, existing.name)
    requires forall n :: n in DirAt(dirs, ProjectsDir).names && HasUuid(n, updating.uuid) ==>
      n == ProjectFilename(existing.uuid, existing.name)
    ensures TextAt(RenameDirs(dirs, existing, updating), ProjectsDir, ProjectFilename(updating.uuid, updating.name)).None?
    ensures LookupProject(DirAt(RenameDirs(dirs, existing, updating), ProjectsDir), updating.uuid)
         == Failure(ProjectFilenameNotFound)
  {
    var f := ProjectFilename(updating.uuid, updating.name);
    var d0 := WithDir(dirs, ProjectsDir);
    WithDirValid(dirs, ProjectsDir);
    var text := SerialiseProject(Renamed(existing, updating));
    RenameToSameFilenameDirs(dirs, existing, updating);
    WriteThenDeleteLeavesNoMatch(d0, f, text, updating.uuid);
  }

  /** With the old and new filenames equal, the rename is a write and then a delete of that one file. */
  lemma RenameToSameFilenameDirs(dirs: map<string, Directory>, existing: Project, updating: ListingItem)
    requires ProjectFilename(updating.uuid, updating.name) == ProjectFilename(existing.uuid, existing.name)
    ensures var f := ProjectFilename(updating.uuid, updating.name);
      var d1 := Written(WithFile(WithDir(dirs, ProjectsDir), ProjectsDir, f), ProjectsDir, f,
                        SerialiseProject(Renamed(existing, updating)));
      RenameDirs(dirs, existing, updating) == Deleted(WithFile(d1, ProjectsDir, f), ProjectsDir, f)
  {
    var renamed := Renamed(existing, updating);
    var d0 := WithDir(dirs, ProjectsDir);
    PersistedDirsUnfold(d0, renamed, updating);
    RemovedDirsUnfold(PersistedDirs(d0, renamed, true), ItemOf(existing), existing);
  }

  lemma PersistedDirsUnfold(dirs: map<string, Directory>, p: Project, item: ListingItem)
    requires p.uuid == item.uuid && p.name == item.name
    ensures var f := ProjectFilename(item.uuid, item.name);
      PersistedDirs(dirs, p, true) == Written(WithFile(dirs, ProjectsDir, f), ProjectsDir, f, SerialiseProject(p))
  { }

  lemma RemovedDirsUnfold(dirs: map<string, Directory>, item: ListingItem, p: Project)
    requires p.uuid == item.uuid && p.name == item.name
    ensures var f := ProjectFilename(p.uuid, p.name);
      RemovedDirs(dirs, item) == Deleted(WithFile(dirs, ProjectsDir, f), ProjectsDir, f)
  { }

  /** Writing a file and then opening and deleting that same file leaves no file of the uuid it held. */
  lemma WriteThenDeleteLeavesNoMatch(dirs: map<string, Directory>, f: string, text: string, uuid: string)
    requires ValidDirs(dirs)
    requires forall n :: n in DirAt(dirs, ProjectsDir).names && HasUuid(n, uuid) ==> n == f
    ensures var d2 := Deleted(WithFile(Written(WithFile(dirs, ProjectsDir, f), ProjectsDir, f, text), ProjectsDir, f), ProjectsDir, f);
      && TextAt(d2, ProjectsDir, f).None?
      && LookupProject(DirAt(d2, ProjectsDir), uuid) == Failure(ProjectFilenameNotFound)
  {
    OpenThenWriteEffect(dirs, ProjectsDir, f, text, ProjectsDir, f);
    var d1 := Written(WithFile(dirs, ProjectsDir, f), ProjectsDir, f, text);
    OpenThenDeleteEffect(d1, ProjectsDir, f, ProjectsDir, f);
    var names0 := DirAt(dirs, ProjectsDir).names;
    var names1 := DirAt(d1, ProjectsDir).names;
    var names2 := Without(names1, f);
    forall n | n in names2 ensures !HasUuid(n, uuid) {
      assert n in names1 && n != f;
      assert n in names0;
    }
    assert FirstFilenameWithUuid(names2, uuid).None?;
  }

  /** Renaming a project to its own name deletes it. */
  lemma RenameToSameNameLosesProject(dirs: map<string, Directory>, existing: Project)
    requires ValidDirs(dirs)
    requires forall n :: n in DirAt(dirs, ProjectsDir).names && HasUuid(n, existing.uuid) ==>
      n == ProjectFilename(existing.uuid, existing.name)
    ensures LookupProject(DirAt(RenameDirs(dirs, existing, ItemOf(existing)), ProjectsDir), existing.uuid)
         == Failure(ProjectFilenameNotFound)
  {
    RenameToSameFilenameLosesProject(dirs, existing, ItemOf(existing));
  }

  /** The store after a successful rename that removes the old file only when it is a different file. */
  function FixedRenameDirs(dirs: map<string, Directory>, existing: Project, updating: ListingItem): map<string, Directory> {
    var persisted := PersistedDirs(WithDir(dirs, ProjectsDir), Renamed(existing, updating), true);
    if ProjectFilename(updating.uuid, updating.name) == ProjectFilename(existing.uuid, existing.name) then persisted
    else RemovedDirs(persisted, ItemOf(existing))
  }

  /** The rename with the old file removed only when the new filename differs from it. */
  method UpdateProjectListingItemFixed(store: Store, updating: ListingItem, writeOk: bool) returns (r: Result<Project, Error>)
    requires store.Valid()
    modifies store
    ensures store.Valid()
    ensures updating.uuid == "" ==>
      r == Failure(EmptyProjectUuid) && store.dirs == old(store.dirs) && store.log == old(store.log)
    ensures updating.uuid != "" && updating.name == "" ==>
      r == Failure(EmptyProjectName) && store.dirs == old(store.dirs) && store.log == old(store.log)
    ensures updating.uuid != "" && updating.name != "" ==>
      var found := LookupProject(DirAt(old(store.dirs), ProjectsDir), updating.uuid);
      && (found.Failure? ==>
            r == Failure(found.error) && store.dirs == WithDir(old(store.dirs), ProjectsDir))
      && (found.Success? && !writeOk ==>
            && r == Failure(WriteError)
            && store.dirs == PersistedDirs(WithDir(old(store.dirs), ProjectsDir), Renamed(found.value, updating), false))
      && (found.Success? && writeOk ==>
            r == Success(Renamed(found.value, updating)) && store.dirs == FixedRenameDirs(old(store.dirs), found.value, updating))
  {
    if updating.uuid == "" {
      return Failure(EmptyProjectUuid);
    }
    if updating.name == "" {
      return Failure(EmptyProjectName);
    }
    var existing :- RetrieveProject(store, updating.uuid);
    var updated := Renamed(existing, updating);
    var persisted := PersistProject(store, updated, writeOk);
    if persisted.Fail? {
      return Failure(persisted.error);
    }
    if ProjectFilename(updated.uuid, updated.name) != ProjectFilename(existing.uuid, existing.name) {
      var removed := RemoveProjectListingItem(store, ItemOf(existing));
    }
    r := Success(updated);
  }

  /**
   * After the corrected rename the project is found by its uuid and reads
   * back as the renamed project, and the old file is gone when it was a
   * different file.
   */
  lemma FixedRenameKeepsProject(dirs: map<string, Directory>, existing: Project, updating: ListingItem)
    requires ValidDirs(dirs)
    requires IsLowerUuid(updating.uuid) && NoLineTerminators(updating.name)
    requires forall n :: n in DirAt(dirs, ProjectsDir).names && HasUuid(n, updating.uuid) ==>
      n == ProjectFilename(existing.uuid, existing.name)
    ensures LookupProject(DirAt(FixedRenameDirs(dirs, existing, updating), ProjectsDir), updating.uuid)
         == Success(Renamed(existing, updating))
    ensures ProjectFilename(updating.uuid, updating.name) != ProjectFilename(existing.uuid, existing.name) ==>
      TextAt(FixedRenameDirs(dirs, existing, updating), ProjectsDir, ProjectFilename(existing.uuid, existing.name)).None?
  {
    var f := ProjectFilename(updating.uuid, updating.name);
    var g := ProjectFilename(existing.uuid, existing.name);
    var u := updating.uuid;
    var updated := Renamed(existing, updating);
    SanitisePreservesLines(updating.name);
    FilenameRoundTrip(u, updating.name);
    WithDirValid(dirs, ProjectsDir);
    var d0 := WithDir(dirs, ProjectsDir);
    var d1 := PersistedDirs(d0, updated, true);
    assert d1 == Written(WithFile(d0, ProjectsDir, f), ProjectsDir, f, SerialiseProject(updated));
    WrittenAlongside(d0, f, SerialiseProject(updated), g, u);
    if f == g {
      LookupOnlyMatch(DirAt(d1, ProjectsDir), u, f, updated);
    } else {
      OldFileRemoved(d1, ItemOf(existing), f, u, updated);
    }
  }

  /**
   * Writing the file `f` in a directory where only the file `g` carries
   * `uuid` leaves `f` and `g` the only ones, with `f` holding the text.
   */
  lemma WrittenAlongside(dirs: map<string, Directory>, f: string, text: string, g: string, uuid: string)
    requires ValidDirs(dirs)
    requires forall n :: n in DirAt(dirs, ProjectsDir).names && HasUuid(n, uuid) ==> n == g
    ensures var d := DirAt(Written(WithFile(dirs, ProjectsDir, f), ProjectsDir, f, text), ProjectsDir);
      && ValidDirs(Written(WithFile(dirs, ProjectsDir, f), ProjectsDir, f, text))
      && d.Valid() && f in d.names && d.texts[f] == text
      && forall n :: n in d.names && HasUuid(n, uuid) ==> n == f || n == g
  {
    OpenThenWriteEffect(dirs, ProjectsDir, f, text, ProjectsDir, f);
    var before := DirAt(dirs, ProjectsDir).names;
    var d := DirAt(Written(WithFile(dirs, ProjectsDir, f), ProjectsDir, f, text), ProjectsDir);
    assert d.names == before || d.names == before + [f];
    forall n | n in d.names && HasUuid(n, uuid) ensures n == f || n == g {
      assert n in before || n == f;
    }
  }

  /**
   * Removing the old file `item` names, other than the new file `f`, leaves
   * `f` as the only file of the uuid, so the lookup finds `p` in it.
   */
  lemma OldFileRemoved(dirs: map<string, Directory>, item: ListingItem, f: string, uuid: string, p: Project)
    requires ValidDirs(dirs) && f != ProjectFilename(item.uuid, item.name) && HasUuid(f, uuid)
    requires f in DirAt(dirs, ProjectsDir).names && DirAt(dirs, ProjectsDir).texts[f] == SerialiseProject(p)
    requires forall n :: n in DirAt(dirs, ProjectsDir).names && HasUuid(n, uuid) ==>
      n == f || n == ProjectFilename(item.uuid, item.name)
    ensures LookupProject(DirAt(RemovedDirs(dirs, item), ProjectsDir), uuid) == Success(p)
    ensures TextAt(RemovedDirs(dirs, item), ProjectsDir, ProjectFilename(item.uuid, item.name)).None?
  {
    RemovedDirsEffect(dirs, item, ProjectsDir, f);
    var d := DirAt(RemovedDirs(dirs, item), ProjectsDir);
    assert d.Valid();
    LookupOnlyMatch(d, uuid, f, p);
  }

  /** A directory whose only file carrying `uuid` holds the serialised `p` yields `p` for that uuid. */
  lemma LookupOnlyMatch(d: Directory, uuid: string, f: string, p: Project)
    requires d.Valid() && f in d.names && HasUuid(f, uuid)
    requires forall n :: n in d.names && HasUuid(n, uuid) ==> n == f
    requires d.texts[f] == SerialiseProject(p)
    ensures LookupProject(d, uuid) == Success(p)
  {
    ProjectCodecLawful();
    assert DeserialiseProject(SerialiseProject(p)) == Some(p);
  }
}
