/**
 * The single client session: its uuid kept as a JSON string in one file of
 * the main private directory.
 */
module ClientSession {

  import opened Wrappers
  import opened Errors
  import opened Uuid
  import opened Json
  import opened Opfs

  const CLIENT_SESSION_FILENAME: string := "client-session.txt"

  /** What a retrieve answers for the decoded content: the uuid when it is a valid one, otherwise "". */
  function SessionUuidOf(content: Option<string>): (r: string)
    ensures r == "" || ValidUuid(r)
    ensures r != "" ==> content == Some(r)
    ensures content.Some? && ValidUuid(content.value) ==> r == content.value
  {
    if content.Some? && content.value != "" && ValidUuid(content.value) then content.value else ""
  }

  /** What a retrieve answers when the store holds `dirs` once the file is open. */
  function SessionRead(dirs: map<string, Directory>): Result<string, Error> {
    match Decoded(TextAt(dirs, MAIN_OPFS_DIRECTORY, CLIENT_SESSION_FILENAME), StringCodec)
    case Failure(e) => Failure(e)
    case Success(content) => Success(SessionUuidOf(content))
  }

  /** The store after the session file is ready, which creates it the first time. */
  function SessionOpened(dirs: map<string, Directory>): map<string, Directory> {
    WithFile(dirs, MAIN_OPFS_DIRECTORY, CLIENT_SESSION_FILENAME)
  }

  /**
   * A persisted session reads back as the same uuid, a freshly created
   * (empty) file as no session, and a stored string that is not a uuid as
   * no session either.
   */
  lemma SessionRoundTrip(dirs: map<string, Directory>, uuid: string, other: string)
    requires ValidDirs(dirs)
    requires ValidUuid(uuid) && !ValidUuid(other)
    ensures SessionRead(Written(SessionOpened(dirs), MAIN_OPFS_DIRECTORY, CLIENT_SESSION_FILENAME, SerialiseString(uuid)))
         == Success(uuid)
    ensures SessionRead(Written(SessionOpened(dirs), MAIN_OPFS_DIRECTORY, CLIENT_SESSION_FILENAME, SerialiseString(other)))
         == Success("")
    ensures TextAt(dirs, MAIN_OPFS_DIRECTORY, CLIENT_SESSION_FILENAME).None? ==> SessionRead(SessionOpened(dirs)) == Success("")
  {
    StringCodecLawful();
    DecodedRoundTrip(uuid, StringCodec);
    DecodedRoundTrip(other, StringCodec);
    WithFileValid(dirs, MAIN_OPFS_DIRECTORY, CLIENT_SESSION_FILENAME);
  }

  /** Reads and writes the session uuid through one lazily created file adapter. */
  class ClientSessionService {
    const store: Store
    const getOpfsAdapter: FileAdapterSingleton<string>

    ghost predicate Valid()
      reads this, getOpfsAdapter
    {
      && getOpfsAdapter.Valid() && getOpfsAdapter.store == store
      && getOpfsAdapter.filename == CLIENT_SESSION_FILENAME && getOpfsAdapter.subdir == ""
      && getOpfsAdapter.codec == StringCodec
    }

    /** Setting the service up makes no storage call. */
    constructor (store: Store)
      ensures Valid() && this.store == store && fresh(getOpfsAdapter) && getOpfsAdapter.cached == null
    {
      this.store := store;
      getOpfsAdapter := new FileAdapterSingleton(store, CLIENT_SESSION_FILENAME, "", StringCodec);
    }

    /** The stored session uuid, or "" when there is none or it is not a valid uuid. */
    method RetrieveClientSessionUuid() returns (r: Result<string, Error>)
      requires Valid() && store.Valid()
      modifies getOpfsAdapter, store
      ensures Valid() && store.Valid() && getOpfsAdapter.cached != null
      ensures store.dirs == if old(getOpfsAdapter.cached) == null then SessionOpened(old(store.dirs)) else old(store.dirs)
      ensures r == SessionRead(store.dirs)
    {
      var got := getOpfsAdapter.Get();
      var opfs := got.value;
      var uuid :- opfs.Retrieve();
      r := Success(SessionUuidOf(uuid));
    }

    /** Stores a valid session uuid; anything else is refused before the storage is touched. */
    method PersistClientSessionUuid(uuid: string, writeOk: bool) returns (r: Outcome<Error>)
      requires Valid() && store.Valid()
      modifies getOpfsAdapter, store
      ensures Valid() && store.Valid()
      ensures uuid == "" || !ValidUuid(uuid) ==>
        && r == Fail(InvalidSessionUuid) && getOpfsAdapter.cached == old(getOpfsAdapter.cached)
        && store.dirs == old(store.dirs) && store.log == old(store.log)
      ensures uuid != "" && ValidUuid(uuid) ==>
        var ready := if old(getOpfsAdapter.cached) == null then SessionOpened(old(store.dirs)) else old(store.dirs);
        && getOpfsAdapter.cached != null
        && (TextAt(ready, MAIN_OPFS_DIRECTORY, CLIENT_SESSION_FILENAME).None? ==>
              r == Fail(EntryNotFound) && store.dirs == ready)
        && (TextAt(ready, MAIN_OPFS_DIRECTORY, CLIENT_SESSION_FILENAME).Some? ==>
              && r == (if writeOk then Pass else Fail(WriteError))
              && store.dirs == if writeOk
                 then Written(ready, MAIN_OPFS_DIRECTORY, CLIENT_SESSION_FILENAME, SerialiseString(uuid))
                 else ready)
    {
      if uuid == "" || !ValidUuid(uuid) {
        return Fail(InvalidSessionUuid);
      }
      var got := getOpfsAdapter.Get();
      var opfs := got.value;
      r := opfs.Persist(uuid, writeOk);
    }
  }

  /**
   * A session persisted by one page load is what the next page load, with
   * a service of its own, retrieves.
   */
  method SessionSurvivesReload(store: Store, uuid: string) returns (first: Outcome<Error>, second: Result<string, Error>)
    requires store.Valid() && ValidUuid(uuid)
    modifies store
    ensures first == Pass && second == Success(uuid)
  {
    ghost var dirs0 := store.dirs;
    var before := new ClientSessionService(store);
    first := before.PersistClientSessionUuid(uuid, true);
    WithFileValid(dirs0, MAIN_OPFS_DIRECTORY, CLIENT_SESSION_FILENAME);
    ghost var written := store.dirs;
    var after := new ClientSessionService(store);
    second := after.RetrieveClientSessionUuid();
    SessionRoundTrip(dirs0, uuid, "");
    assert store.dirs == SessionOpened(written);
    WithFileValid(written, MAIN_OPFS_DIRECTORY, CLIENT_SESSION_FILENAME);
  }
}
