/**
 * The workspace of one project: adding, removing and patching its request
 * specs, each as retrieve, change and persist of the whole project.
 */
module ProjectService {

  import opened Wrappers
  import opened Errors
  import opened Entities
  import opened Opfs
  import opened ProjectsKernel

  // ------------------------------------------------------------ spec lists

  /** The specs whose uuid is not `uuid`, in their order. */
  function WithoutSpec(specs: seq<RequestSpec>, uuid: string): (r: seq<RequestSpec>)
    ensures |r| <= |specs|
    decreases |specs|
  {
    if specs == [] then []
    else (if specs[0].uuid == uuid then [] else [specs[0]]) + WithoutSpec(specs[1..], uuid)
  }

  /** A spec is kept exactly when it was there and its uuid is not the removed one. */
  lemma {:induction false} WithoutSpecContents(specs: seq<RequestSpec>, uuid: string)
    ensures forall s :: s in WithoutSpec(specs, uuid) <==> s in specs && s.uuid != uuid
    decreases |specs|
  {
    if specs != [] {
      WithoutSpecContents(specs[1..], uuid);
      assert specs == [specs[0]] + specs[1..];
    }
  }

  lemma {:induction false} WithoutSpecConcat(a: seq<RequestSpec>, b: seq<RequestSpec>, uuid: string)
    ensures WithoutSpec(a + b, uuid) == WithoutSpec(a, uuid) + WithoutSpec(b, uuid)
    decreases |a|
  {
    if a == [] {
      assert a + b == b;
    } else {
      assert (a + b)[0] == a[0];
      assert (a + b)[1..] == a[1..] + b;
      WithoutSpecConcat(a[1..], b, uuid);
    }
  }

  /** Removing a uuid no spec carries changes nothing. */
  lemma {:induction false} WithoutAbsentSpec(specs: seq<RequestSpec>, uuid: string)
    requires forall s :: s in specs ==> s.uuid != uuid
    ensures WithoutSpec(specs, uuid) == specs
    decreases |specs|
  {
    if specs != [] {
      assert specs[0] in specs;
      WithoutAbsentSpec(specs[1..], uuid);
      assert specs == [specs[0]] + specs[1..];
    }
  }

  /** Removing a spec just created under a fresh uuid gives back the specs before. */
  lemma RemoveUndoesCreate(specs: seq<RequestSpec>, specUuid: string)
    requires forall s :: s in specs ==> s.uuid != specUuid
    ensures WithoutSpec(specs + [MakeDefaultRequestSpec(specUuid)], specUuid) == specs
  {
    WithoutSpecConcat(specs, [MakeDefaultRequestSpec(specUuid)], specUuid);
    WithoutAbsentSpec(specs, specUuid);
    assert WithoutSpec([MakeDefaultRequestSpec(specUuid)], specUuid) == [];
  }

  // ---------------------------------------------------------------- patches

  /** A partial request spec: `None` marks a key the patch leaves out. */
  datatype SpecPatch = SpecPatch(
    uuid: Option<string>,
    url: Option<string>,
    httpMethod: Option<Method>,
    headers: Option<seq<Header>>,
    body: Option<string>)

  function Or<T>(o: Option<T>, default: T): T {
    if o.Some? then o.value else default
  }

  /** The keys of the patch laid over the spec; left-out keys keep their value. */
  function Merge(s: RequestSpec, patch: SpecPatch): RequestSpec {
    RequestSpec(
      Or(patch.uuid, s.uuid), Or(patch.url, s.url), Or(patch.httpMethod, s.httpMethod),
      Or(patch.headers, s.headers), Or(patch.body, s.body))
  }

  /** The patch that carries every key of `t`. */
  function FullPatch(t: RequestSpec): SpecPatch {
    SpecPatch(Some(t.uuid), Some(t.url), Some(t.httpMethod), Some(t.headers), Some(t.body))
  }

  const EmptyPatch: SpecPatch := SpecPatch(None, None, None, None, None)

  /**
   * A patch with no keys changes nothing, a patch with every key replaces
   * the spec, and applying the same patch twice is applying it once.
   */
  lemma MergeLaws(s: RequestSpec, t: RequestSpec, patch: SpecPatch)
    ensures Merge(s, EmptyPatch) == s
    ensures Merge(s, FullPatch(t)) == t
    ensures Merge(Merge(s, patch), patch) == Merge(s, patch)
  {
  }

  /** A patch applies to the specs whose uuid it names; one without a uuid applies to none. */
  predicate Matches(s: RequestSpec, patch: SpecPatch) {
    patch.uuid == Some(s.uuid)
  }

  /** Every spec the patch names is merged with it, the others are kept. */
  function PatchSpecs(specs: seq<RequestSpec>, patch: SpecPatch): (r: seq<RequestSpec>)
    ensures |r| == |specs|
    ensures forall i :: 0 <= i < |specs| ==> Matches(specs[i], patch) ==> Matches(r[i], patch)
    ensures forall i :: 0 <= i < |specs| ==> !Matches(specs[i], patch) ==> r[i] == specs[i]
  {
    seq(|specs|, i requires 0 <= i < |specs| => if Matches(specs[i], patch) then Merge(specs[i], patch) else specs[i])
  }

  /** A patch that names no spec leaves the specs as they were. */
  lemma PatchWithoutMatchIsIdentity(specs: seq<RequestSpec>, patch: SpecPatch)
    requires forall s :: s in specs ==> !Matches(s, patch)
    ensures PatchSpecs(specs, patch) == specs
  {
    forall i | 0 <= i < |specs| ensures PatchSpecs(specs, patch)[i] == specs[i] {
      assert specs[i] in specs;
    }
  }

  /** `Array.prototype.find` by uuid: the first spec the uuid names. */
  function FindSpec(specs: seq<RequestSpec>, uuid: Option<string>): (r: Option<RequestSpec>)
    ensures r.Some? ==> r.value in specs && Some(r.value.uuid) == uuid
    ensures r.None? <==> forall s :: s in specs ==> Some(s.uuid) != uuid
    decreases |specs|
  {
    if specs == [] then None
    else if Some(specs[0].uuid) == uuid then Some(specs[0])
    else
      assert forall s :: s in specs <==> s == specs[0] || s in specs[1..];
      FindSpec(specs[1..], uuid)
  }

  /** The spec found after a patch is the first spec the patch names, merged with it. */
  lemma {:induction false} FindAfterPatch(specs: seq<RequestSpec>, patch: SpecPatch)
    ensures FindSpec(PatchSpecs(specs, patch), patch.uuid) ==
      match FindSpec(specs, patch.uuid)
      case Some(s) => Some(Merge(s, patch))
      case None => None
    decreases |specs|
  {
    if specs != [] {
      var r := PatchSpecs(specs, patch);
      assert r[0] == if Matches(specs[0], patch) then Merge(specs[0], patch) else specs[0];
      assert r[1..] == PatchSpecs(specs[1..], patch);
      FindAfterPatch(specs[1..], patch);
    }
  }

  // --------------------------------------------------------- project edits

  function SpecAdded(p: Project, spec: RequestSpec): Project {
    p.(specs := p.specs + [spec])
  }

  function SpecRemoved(p: Project, uuid: string): Project {
    p.(specs := WithoutSpec(p.specs, uuid))
  }

  function SpecPatched(p: Project, patch: SpecPatch): Project {
    p.(specs := PatchSpecs(p.specs, patch))
  }

  /**
   * Adds a default request spec, with the generated `specUuid`, at the end
   * of the project's specs and answers with it; `writeOk` is the outcome of
   * the write.
   */
  method CreateRequestSpec(store: Store, projectUuid: string, specUuid: string, writeOk: bool)
    returns (r: Result<RequestSpec, Error>)
    requires store.Valid()
    modifies store
    ensures store.Valid()
    ensures var found := LookupProject(DirAt(old(store.dirs), ProjectsDir), projectUuid);
      && (found.Failure? ==> r == Failure(found.error) && store.dirs == WithDir(old(store.dirs), ProjectsDir))
      && (found.Success? ==>
            && store.dirs == PersistedDirs(WithDir(old(store.dirs), ProjectsDir),
                                           SpecAdded(found.value, MakeDefaultRequestSpec(specUuid)), writeOk)
            && r == if writeOk then Success(MakeDefaultRequestSpec(specUuid)) else Failure(WriteError))
  {
    var creating := MakeDefaultRequestSpec(specUuid);
    var project :- RetrieveProject(store, projectUuid);
    var updated := SpecAdded(project, creating);
    :- PersistProject(store, updated, writeOk);
    r := Success(creating);
  }

  /** Drops every spec with the given uuid and answers with that uuid. */
  method RemoveRequestSpec(store: Store, projectUuid: string, removing: string, writeOk: bool)
    returns (r: Result<string, Error>)
    requires store.Valid()
    modifies store
    ensures store.Valid()
    ensures var found := LookupProject(DirAt(old(store.dirs), ProjectsDir), projectUuid);
      && (found.Failure? ==> r == Failure(found.error) && store.dirs == WithDir(old(store.dirs), ProjectsDir))
      && (found.Success? ==>
            && store.dirs == PersistedDirs(WithDir(old(store.dirs), ProjectsDir), SpecRemoved(found.value, removing), writeOk)
            && r == if writeOk then Success(removing) else Failure(WriteError))
  {
    var project :- RetrieveProject(store, projectUuid);
    var updated := SpecRemoved(project, removing);
    :- PersistProject(store, updated, writeOk);
    r := Success(removing);
  }

  /**
   * Merges the patch into every spec it names, persists the project, and
   * answers with the first of them; when it names none the project is still
   * persisted and then the patch fails.
   */
  method PatchRequestSpec(store: Store, projectUuid: string, patching: SpecPatch, writeOk: bool)
    returns (r: Result<RequestSpec, Error>)
    requires store.Valid()
    modifies store
    ensures store.Valid()
    ensures var found := LookupProject(DirAt(old(store.dirs), ProjectsDir), projectUuid);
      && (found.Failure? ==> r == Failure(found.error) && store.dirs == WithDir(old(store.dirs), ProjectsDir))
      && (found.Success? ==>
            && store.dirs == PersistedDirs(WithDir(old(store.dirs), ProjectsDir), SpecPatched(found.value, patching), writeOk)
            && (!writeOk ==> r == Failure(WriteError))
            && (writeOk ==> r == match FindSpec(found.value.specs, patching.uuid)
                                 case Some(s) => Success(Merge(s, patching))
                                 case None => Failure(SpecNotFound)))
  {
    var project :- RetrieveProject(store, projectUuid);
    var updated := SpecPatched(project, patching);
    :- PersistProject(store, updated, writeOk);
    FindAfterPatch(project.specs, patching);
    var updatedSpec := FindSpec(updated.specs, patching.uuid);
    if updatedSpec.None? {
      return Failure(SpecNotFound);
    }
    r := Success(updatedSpec.value);
  }

  /**
   * An edit of a project whose file is named after its content is durable:
   * looking the project up again reads back the edited project, with the
   * created spec last, the removed specs gone, the patched spec merged.
   */
  lemma EditsReadBack(dirs: map<string, Directory>, p: Project, spec: RequestSpec, removing: string, patch: SpecPatch)
    requires ValidDirs(dirs)
    requires FirstFilenameWithUuid(DirAt(dirs, ProjectsDir).names, p.uuid) == Some(ProjectFilename(p.uuid, p.name))
    ensures LookupProject(DirAt(PersistedDirs(dirs, SpecAdded(p, spec), true), ProjectsDir), p.uuid)
         == Success(SpecAdded(p, spec))
    ensures LookupProject(DirAt(PersistedDirs(dirs, SpecRemoved(p, removing), true), ProjectsDir), p.uuid)
         == Success(SpecRemoved(p, removing))
    ensures LookupProject(DirAt(PersistedDirs(dirs, SpecPatched(p, patch), true), ProjectsDir), p.uuid)
         == Success(SpecPatched(p, patch))
  {
    PersistInPlaceThenLookup(dirs, SpecAdded(p, spec));
    PersistInPlaceThenLookup(dirs, SpecRemoved(p, removing));
    PersistInPlaceThenLookup(dirs, SpecPatched(p, patch));
  }
}
