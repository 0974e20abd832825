# postmaiden persistence core, modelled in Dafny

Postmaiden is a browser application for composing HTTP requests. It keeps all
of its data in the browser's Origin Private File System (OPFS). This project
models the part of Postmaiden that reads and writes that storage:

- **The OPFS shim** (`Opfs`). The store is a map from directory path to a
  directory. A directory holds its entry names in storage order and the text
  of each entry. The store also keeps a log of every storage call.
  - The file adapter opens its directory and file, creating them when missing.
    It reads text and parses it, or answers null for an empty file. It writes
    serialised data and closes the writable, and it removes its file.
  - The directory adapter lists entry names and removes an entry by name.
  - The singleton getter builds its file adapter once and reuses it.
- **The serialised form** (`Json`). This is a JSON-shaped text for projects
  and for bare strings. Parsing it is proved to undo serialising it.
- **The projects kernel** (`ProjectsKernel`).
  - A project lives in one file, `<uuid>_<sanitised name>.json`, in the
    `postmaiden.com__projects` directory.
  - A filename is decoded back into a `{uuid, name}` listing item.
  - It provides retrieve, persist and remove of whole projects.
- **The listing service** (`ListingService`): the project listing, and creating,
  removing and renaming projects.
- **The project service** (`ProjectService`): creating, removing and patching
  request specs inside one project.
- **The client session** (`ClientSession`): one uuid kept in
  `client-session.txt` in the main directory.
- **HTTP helpers** (`HttpForDummies`):
  - local-URL detection;
  - which methods may carry a body;
  - the method and status-code explanation tables.

How the model stands in for the browser and the source's loose ends:

- **Browser effects.** The uuid generator and the outcome of a storage write
  come from the browser. They are parameters (`newUuid`, `specUuid`,
  `writeOk`).
- **Errors.** Where the source throws, the model returns a `Failure` of the
  `Errors.Error` datatype.
- **Tests that disagree with the code.** The model follows the code:
  - The repository's tests expect a new project to have no request specs. The
    code gives it one default spec.
  - The tests expect removal to find the file through the directory listing.
    The code builds the filename from the uuid and the name.
  - The tests expect a malformed filename to make the listing fail. The code
    skips such a filename.

## Model

| member | source | states |
|---|---|---|
| Entities.MethodFromName | src/entities/project-entities.ts:19 | a name is accepted only as the stored name of the method it yields |
| Entities.MethodNameRoundTrip | src/entities/project-entities.ts:19 | a request method's stored name reads back as the same method |
| Json.ParseStringOf | src/services/origin-private-file-system.ts:60-66 | a serialised string parses back to itself, and the text after it is returned untouched |
| Json.ParseItemsOf | src/entities/project-entities.ts:5-6 | a non-empty list of records serialised element by element parses back to the same list |
| Json.ParseHeaderOf | src/entities/project-entities.ts:25-29 | a header record serialised as `{"key","value","isEnabled"}` parses back to the same header |
| Json.ParseProjectOf | src/entities/project-entities.ts:2-7 | a project serialised with its sections and specs parses back to the same project |
| Json.ProjectCodecLawful | src/services/origin-private-file-system.ts:57-70 | what persist writes for a project, retrieve parses back to the same project, and the text is never empty, so it is never mistaken for null |
| Json.StringCodecLawful | src/services/origin-private-file-system.ts:57-70 | the same round trip for a bare string |
| Json.DeserialiseProjectExactly | src/services/origin-private-file-system.ts:60-66 | a project file's text parses to a project if and only if it is exactly what persisting that project writes |
| Json.DeserialiseStringExactly | src/services/origin-private-file-system.ts:60-66 | a string file's text parses to a string if and only if it is exactly what persisting that string writes |
| Json.GarbageIsRefused | src/services/origin-private-file-system.ts:60 | any text that opens with neither `{` nor `"`, such as `42` or `not json`, is refused by both the project and the string codec; the source's `JSON.parse` accepts `42` |
| Opfs.DirPathInjective | src/services/origin-private-file-system.ts:41-49 | different subdirectory names resolve to different directories |
| Opfs.DirPathIsMainOnlyWithoutSubdir | src/services/origin-private-file-system.ts:47-49 | the main directory is used exactly when no subdirectory is given |
| Opfs.ValidSubdir | src/services/origin-private-file-system.ts:41-43 | a subdirectory name holding `/` or `_` is refused; MakeFileAdapter and MakeDirAdapter check it before any storage call |
| Opfs.DirPath | src/services/origin-private-file-system.ts:47-49 | `postmaiden.com__<subdir>`, or `postmaiden.com` for no subdirectory; DirPathInjective and DirPathIsMainOnlyWithoutSubdir prove it is one-to-one and picks the main directory only for no subdirectory |
| Opfs.DecodedNullIffEmpty | src/services/origin-private-file-system.ts:57-61 | retrieve answers null exactly when the file's text is empty |
| Opfs.DecodedRoundTrip | src/services/origin-private-file-system.ts:57-70 | with a lawful codec, retrieve after persist gives back the value persisted |
| Opfs.FileAdapter.Retrieve | src/services/origin-private-file-system.ts:57-61 | reads the file and leaves the store unchanged. It answers null for empty text, the parsed value otherwise, and an error for a missing file or unparsable text |
| Opfs.FileAdapter.Persist | src/services/origin-private-file-system.ts:63-70 | writes the serialised value as the file's whole text. It always closes the writable after the write, reports a failed write and then leaves the text unchanged |
| Opfs.FileAdapter.Remove | src/services/origin-private-file-system.ts:72-74 | deletes the file's entry and keeps the order of the other entries. A missing entry is an error that changes nothing |
| Opfs.MakeFileAdapter | src/services/origin-private-file-system.ts:35-56 | a subdirectory containing `/` or `_` is refused before any storage call. Otherwise the directory and then the file are created when missing, and nothing else changes |
| Opfs.DirAdapter.RetrieveFilenames | src/services/origin-private-file-system.ts:108-119 | the loop collects exactly the directory's entry names, in storage order |
| Opfs.DirAdapter.RemoveByFilename | src/services/origin-private-file-system.ts:121-123 | deletes the named entry, or fails with no change when it is missing |
| Opfs.MakeDirAdapter | src/services/origin-private-file-system.ts:92-106 | the same subdirectory check, then the directory is created when missing |
| Opfs.FileAdapterSingleton.Get | src/services/origin-private-file-system.ts:21-33 | the first successful call builds an adapter and caches it. Later calls return that same adapter and make no storage call. A failed build caches nothing |
| Opfs.SingletonGetters | src/services/origin-private-file-system.ts:21-33 | example with two getters: one getter always hands out the same adapter; two getters hand out different ones |
| ProjectsKernel.ProjectsDirIsSubdirectory | src/services/opfs-projects-shared-internals.ts:121 | the projects subdirectory name is valid and resolves to `postmaiden.com__projects`, not the main directory |
| ProjectsKernel.TrimStart | src/services/opfs-projects-shared-internals.ts:143 | the result is a suffix of the input. Everything removed is white space or a line terminator, and the result does not start with either |
| ProjectsKernel.TrimEnd | src/services/opfs-projects-shared-internals.ts:143 | the mirror image of TrimStart at the end of the text |
| Opfs.Without | src/services/opfs-projects-shared-internals.ts:147 | the result holds exactly the input's elements other than the removed one; it is what `replaceAll('"', "")` leaves of a name in the kernel's sanitiser, and also what a removal leaves of a directory's entries |
| ProjectsKernel.ReplaceAll | src/services/opfs-projects-shared-internals.ts:149 | same length. Each position holds the replacement where the input had the replaced character, and the input character elsewhere |
| ProjectsKernel.Sanitise | src/services/opfs-projects-shared-internals.ts:139-151 | a sanitised name contains no `"` and no `/` |
| ProjectsKernel.SanitisePreservesLines | src/services/opfs-projects-shared-internals.ts:139-151 | sanitising introduces no line terminator, so a single-line name stays readable by the filename pattern |
| ProjectsKernel.ProjectFilename | src/services/opfs-projects-shared-internals.ts:89-93 | the filename is the uuid, `_`, the sanitised name and `.json`; FilenameRoundTrip proves that it decodes back to the uuid and sanitised name, and exactly when |
| ProjectsKernel.SanitiseStripsAnyCharBeforeJson | src/services/opfs-projects-shared-internals.ts:143-145 | the unescaped `.` in `/.json$/gi` matches any one code unit but a line terminator: a name ending in such a character and `json`, in any letter case, loses all five, so `myjson` sanitises as `m` and `m.JSON` as `m` |
| ProjectsKernel.StripTrailingJson | src/services/opfs-projects-shared-internals.ts:145 | removes the last five characters exactly when they are a non-line-terminator followed by `json` in any letter case, otherwise nothing; StripTrailingJsonDropsAnyChar proves the removal for every such ending |
| ProjectsKernel.StripTrailingJsonDropsAnyChar | src/services/opfs-projects-shared-internals.ts:145 | whatever precedes a non-line-terminator and `json` in any letter case is what stripping leaves |
| ProjectsKernel.TrimPadded | src/services/opfs-projects-shared-internals.ts:143 | trimming removes exactly the white space and line terminators around a text that has another character at each end |
| ProjectsKernel.SanitiseTrimsSurroundingSpace | src/services/opfs-projects-shared-internals.ts:141-151 | white space and line terminators added around a name that starts and ends with another character do not change its sanitised form |
| ProjectsKernel.DropQuotesAndSlashesContents | src/services/opfs-projects-shared-internals.ts:146-149 | a character occurs in the result if and only if it occurred in the name and is neither `"` nor `/`, or it is a space and the name held a space or a slash; no `"` or `/` is left |
| ProjectsKernel.SanitiseKeepsPlainName | src/services/opfs-projects-shared-internals.ts:139-151 | a name with nothing around it to trim, no trailing `json` match, no `"` and no `/` is its own sanitised form |
| ProjectsKernel.DecodeJoined | src/services/opfs-projects-shared-internals.ts:101-116 | `uuid_name.json` decodes to exactly `{uuid, name}` if and only if the uuid is lower-case 8-4-4-4-12 hexadecimal and the name has no line terminator |
| ProjectsKernel.FilenameRoundTrip | src/services/opfs-projects-shared-internals.ts:89-116 | the filename of a project decodes to its uuid and sanitised name if and only if the uuid is in lower-case form and the sanitised name is a single line |
| ProjectsKernel.DecodedFilenameShape | src/services/opfs-projects-shared-internals.ts:101-116 | every filename that decodes is exactly `uuid + "_" + name + ".json"` of what it decodes to |
| ProjectsKernel.ListingItemFromFilename | src/services/opfs-projects-shared-internals.ts:101-116 | the filename pattern: a lower-case uuid, `_`, a name without line terminators, `.json` at the end, or nothing; DecodeJoined and DecodedFilenameShape prove that it takes apart exactly what ProjectFilename puts together |
| ProjectsKernel.MalformedFilenameIsSkipped | src/services/opfs-projects-shared-internals.ts:104-110 | every filename shorter than a uuid, or whose first 36 characters are not a lower-case uuid, decodes to nothing |
| ProjectsKernel.FirstFilenameWithUuid | src/services/opfs-projects-shared-internals.ts:153-164 | the result is a directory entry whose decoded uuid is the one asked for. Nothing is found if and only if no entry carries that uuid |
| ProjectsKernel.FirstFilenameConcat | src/services/opfs-projects-shared-internals.ts:155-157 | the earliest entry wins: an entry added after existing ones is found only when none of those matches |
| ProjectsKernel.MakeDefaultRequestSpec | src/services/opfs-projects-shared-internals.ts:124-137 | a new spec is a GET with empty url and body. It has the two default headers: Content-Type disabled, then Accept enabled |
| ProjectsKernel.PersistedDirsEffect | src/services/opfs-projects-shared-internals.ts:42-49 | persisting writes the serialised project to the file its uuid and name select. A new file goes at the end; every other file keeps its text |
| ProjectsKernel.RemovedDirsEffect | src/services/opfs-projects-shared-internals.ts:60-71 | removing deletes exactly the file named from the uuid and name, whether or not it existed. The other entries keep their text and their order |
| ProjectsKernel.PersistThenLookup | src/services/opfs-projects-shared-internals.ts:21-49 | a project persisted under a fresh lower-case uuid is retrieved by that uuid as the same project |
| ProjectsKernel.PersistInPlaceThenLookup | src/services/opfs-projects-shared-internals.ts:21-49 | persisting a project whose file is the one its uuid is found by rewrites that file in place. Retrieving then gives the new content |
| ProjectsKernel.LookupProject | src/services/opfs-projects-shared-internals.ts:21-35 | the project in the first file whose name carries the uuid, or the failure retrieve throws; PersistThenLookup and PersistInPlaceThenLookup prove that it reads back what persist wrote |
| ProjectsKernel.RetrieveProjectsFilenames | src/services/opfs-projects-shared-internals.ts:76-82 | answers all raw entry names of the projects directory, in order |
| ProjectsKernel.RetrieveProject | src/services/opfs-projects-shared-internals.ts:21-35 | the result is the project in the first file carrying the uuid. It fails when no file carries the uuid, when that file is empty, or when its text does not parse |
| ProjectsKernel.PersistProject | src/services/opfs-projects-shared-internals.ts:42-49 | creates the file when missing, writes the whole project, and reports a failed write |
| ProjectsKernel.RemoveProject | src/services/opfs-projects-shared-internals.ts:60-71 | opens (so creates) and then deletes the file named from the uuid and name, and answers with the uuid |
| ListingService.Listing | src/features/projects-management/opfs-projects-listing-service.ts:37-44 | an item is listed if and only if some filename decodes to it. Filenames that do not decode are skipped |
| ListingService.ListingConcat | src/features/projects-management/opfs-projects-listing-service.ts:38-43 | the listing keeps directory order: the listing of two runs of entries is the two listings joined |
| ListingService.MalformedFilenameNotListed | src/features/projects-management/opfs-projects-listing-service.ts:38-43 | an entry whose uuid segment is malformed adds nothing to the listing, wherever it stands among the other entries |
| ListingService.RetrieveProjectsListing | src/features/projects-management/opfs-projects-listing-service.ts:32-45 | lists the projects directory and reads no project file |
| ListingService.PersistNewProjectListingItem | src/features/projects-management/opfs-projects-listing-service.ts:50-70 | an empty name is refused with no storage call. Otherwise it persists a project with no sections and one default spec, and answers the uuid with the name as given |
| ListingService.PersistAppendsToListing | src/features/projects-management/opfs-projects-listing-service.ts:32-70 | persisting a project under a fresh lower-case uuid appends exactly its item, with the sanitised name, to the end of the listing |
| ListingService.CreatedProjectIsListedAndRetrievable | src/features/projects-management/opfs-projects-listing-service.ts:32-70 | after creating under a fresh uuid, the listing is the old listing plus the new item with its sanitised name. Retrieving by that uuid gives the created project |
| ListingService.RemoveProjectListingItem | src/features/projects-management/opfs-projects-listing-service.ts:76-80 | delegates to the kernel's remove |
| ListingService.RemovedProjectLeavesListing | src/features/projects-management/opfs-projects-listing-service.ts:76-80 | once the only file of a uuid is removed, no listed item carries that uuid |
| ListingService.UpdateProjectListingItem | src/features/projects-management/opfs-projects-listing-service.ts:89-114 | an empty uuid, then an empty name, is refused with no storage call. Otherwise it retrieves the project, persists it with the new uuid and name laid over it, then removes the file of the old uuid and name |
| ListingService.Renamed | src/features/projects-management/opfs-projects-listing-service.ts:105-108 | `{...existing, ...updating}`: the uuid and name of the update, the sections and specs of the existing project |
| ListingService.RenameToSameFilenameLosesProject | src/features/projects-management/opfs-projects-listing-service.ts:105-111 | when the new filename equals the old one, the rename deletes the file it has just written, and the project can no longer be retrieved |
| ListingService.RenameToSameNameLosesProject | src/features/projects-management/opfs-projects-listing-service.ts:89-114 | renaming a project to its own name deletes it |
| ListingService.UpdateProjectListingItemFixed | src/features/projects-management/opfs-projects-listing-service.ts:89-114 | the rename with the old file removed only when it is a different file |
| ListingService.FixedRenameKeepsProject | src/features/projects-management/opfs-projects-listing-service.ts:82-114 | after the corrected rename, retrieving by uuid gives the renamed project. The old file is gone when it differed from the new one |
| ProjectService.WithoutSpec | src/features/project-workspace/opfs-project-service.ts:55-58 | the specs whose uuid is not the removed one, in their order, never more than before; WithoutSpecContents, WithoutSpecConcat and RemoveUndoesCreate state which are kept |
| ProjectService.WithoutSpecContents | src/features/project-workspace/opfs-project-service.ts:57 | a spec is kept if and only if its uuid differs from the removed one |
| ProjectService.WithoutSpecConcat | src/features/project-workspace/opfs-project-service.ts:57 | filtering keeps order: filtering two runs of specs is filtering each and joining them |
| ProjectService.RemoveUndoesCreate | src/features/project-workspace/opfs-project-service.ts:27-62 | removing a spec just created under a fresh uuid gives back the specs as they were |
| ProjectService.MergeLaws | src/features/project-workspace/opfs-project-service.ts:82 | a patch with no keys changes nothing, a patch with every key replaces the spec, and patching twice with the same patch is patching once |
| ProjectService.Merge | src/features/project-workspace/opfs-project-service.ts:82 | `{...existing, ...patch}`: each key the patch holds replaces the spec's value, the others keep theirs; MergeLaws proves identity, full replacement and idempotence |
| ProjectService.PatchSpecs | src/features/project-workspace/opfs-project-service.ts:80-84 | same number of specs. Specs the patch does not name are kept as they were; named ones stay named |
| ProjectService.PatchWithoutMatchIsIdentity | src/features/project-workspace/opfs-project-service.ts:80-84 | a patch that names no spec leaves the specs unchanged |
| ProjectService.FindSpec | src/features/project-workspace/opfs-project-service.ts:88-90 | the result is a spec with the uuid asked for. Nothing is found if and only if no spec has that uuid |
| ProjectService.FindAfterPatch | src/features/project-workspace/opfs-project-service.ts:78-95 | the spec found after patching is the first spec the patch names, merged with the patch |
| ProjectService.CreateRequestSpec | src/features/project-workspace/opfs-project-service.ts:27-40 | appends a default spec with the generated uuid and persists the project. It answers the new spec, or the retrieve or write failure |
| ProjectService.RemoveRequestSpec | src/features/project-workspace/opfs-project-service.ts:51-62 | drops the specs with that uuid, persists the project and answers the uuid |
| ProjectService.PatchRequestSpec | src/features/project-workspace/opfs-project-service.ts:74-96 | persists the patched project first. It then answers the first named spec merged with the patch, or fails when the patch names none |
| ProjectService.EditsReadBack | src/features/project-workspace/opfs-project-service.ts:27-96 | after a create, remove or patch, retrieving the project gives the edited project |
| ClientSession.SessionUuidOf | src/services/opfs-client-session.ts:15 | the answer is "" or a valid uuid. A non-empty answer is the stored text, and a stored valid uuid is answered as is |
| ClientSession.SessionRoundTrip | src/services/opfs-client-session.ts:12-25 | a persisted valid uuid reads back unchanged. A new (empty) file, or a stored string that is not a uuid, reads as "" |
| ClientSession.ClientSessionService.RetrieveClientSessionUuid | src/services/opfs-client-session.ts:12-16 | opens the session file through the singleton adapter, creating it the first time, and answers the stored uuid or "" |
| ClientSession.ClientSessionService.PersistClientSessionUuid | src/services/opfs-client-session.ts:18-25 | an empty or invalid uuid is refused before any storage call. Otherwise the uuid is written as the file's whole content |
| ClientSession.SessionSurvivesReload | src/services/opfs-client-session.ts:8-25 | a uuid persisted by one service is what a second, freshly created service retrieves |
| HttpForDummies.StartsWithAny | src/entities/http-for-dummies.ts:9-14 | true if and only if some listed beginning is a prefix of the URL |
| HttpForDummies.IsRequestingToLocalhost | src/entities/http-for-dummies.ts:8-15 | true if and only if the URL begins with one of the four local beginnings |
| HttpForDummies.LocalhostPrefixes | src/entities/http-for-dummies.ts:8-15 | examples: a port or path after the beginning is accepted, and so is a host that merely starts with `localhost` |
| HttpForDummies.RemoteUrls | src/entities/http-for-dummies.ts:8-15 | examples: another host is not local, and an upper-case scheme does not match |
| HttpForDummies.KnownMethodsAndBodies | src/entities/http-for-dummies.ts:17-30 | every request-spec method is known, and of the known methods exactly GET and HEAD cannot carry a body |
| HttpForDummies.CanMethodHaveBody | src/entities/http-for-dummies.ts:17-19 | every method but GET and HEAD may carry a body; KnownMethodsAndBodies proves that of the seven known methods exactly those two are refused |
| HttpForDummies.ListedMethodExplanation | src/entities/http-for-dummies.ts:36-55 | the explanation of each of the seven known methods opens with that method's name followed by " requests " |
| HttpForDummies.MethodExplanation | src/entities/http-for-dummies.ts:36-57 | the explanation is non-empty if and only if the method is one of the seven known ones, and then it names the method first |
| HttpForDummies.ListedStatusText | src/entities/http-for-dummies.ts:63-192 | every listed code has a non-empty reason phrase |
| HttpForDummies.ListedStatusExplanation | src/entities/http-for-dummies.ts:198-327 | the explanation text of each of the 62 listed codes, as the table gives it; ListedStatusExplained proves none is the unknown-code text |
| HttpForDummies.StatusText | src/entities/http-for-dummies.ts:63-192 | the phrase is non-empty if and only if the code is listed, and a listed code lies between 100 and 599 |
| HttpForDummies.StatusExplanation | src/entities/http-for-dummies.ts:198-327 | an unlisted code gets "Unknown status code" |
| HttpForDummies.ListedStatusExplained | src/entities/http-for-dummies.ts:198-327 | no listed code is explained with the fixed text for unknown codes |
| HttpForDummies.StatusTablesAgree | src/entities/http-for-dummies.ts:63-327 | the two tables cover the same codes: a code has a reason phrase if and only if its explanation is not "Unknown status code" |
| HttpForDummies.UnlistedStatus | src/entities/http-for-dummies.ts:63-327 | an unlisted code has no reason phrase and the fixed explanation |
| HttpForDummies.ListedStatusRange | src/entities/http-for-dummies.ts:63-192 | reason phrases exist only between 100 and 511, for example "OK" for 200 and "I'm a teapot" for 418 |

## Left out

- `isPersistenceSupported` (src/services/origin-private-file-system.ts:131-135) is left out. It only probes the browser for a feature and touches no stored data.
- Browser handles, `async`/`await` and interleaving between concurrent calls are left out. Each operation runs to completion on the modelled store.
- The order of new entries is assumed. OPFS does not fix the order in which it lists entries; the model appends a new entry at the end.
- The JSON model escapes only `"` and `\`. `JSON.stringify` escapes control characters too, and `JSON.parse` also accepts white space, other escapes and numbers. The model keeps only what the round trip of the stored values needs.
- Json.GarbageIsRefused: the model's parsers accept only the exact texts its serialisers write. `JSON.parse` also accepts other JSON, such as `42`, `null` or an object with white space inside; the model refuses all of them.
- ProjectsKernel.SanitiseStripsAnyCharBeforeJson: strings here are sequences of Unicode code points, not UTF-16 code units. Before a trailing `json`, the source's `.` matches one code unit, so for a character outside the Basic Multilingual Plane it removes only the low surrogate and keeps the high one. The model removes the whole character, so the lemma is stated for BMP characters only.
- ProjectsKernel.StripTrailingJson: for the same reason, for a non-BMP character before `json` it removes the whole character where the source leaves a lone high surrogate.
- ClientSession.ClientSessionService.RetrieveClientSessionUuid: a session file holding JSON that is not a string, such as `42`, is a parse error here. The source parses it and then answers "".
- Uuid.ValidUuid: accepts any 8-4-4-4-12 hexadecimal text in either case. The uuid library's `validate` also checks the version and variant digits.
- Write failures are modelled only as the `writeOk` parameter. A failed write leaves the file's text unchanged. Other storage failures, such as quota or permission errors, are not modelled.
- The uuid generator is left out: `uuidv4()` results arrive as parameters.
- Logging is left out: `console.error` for a malformed filename is an I/O side effect, and the model only skips the entry.
- ProjectService.PatchSpecs: the contract says only that unnamed specs are kept and named specs stay named. That a named spec becomes the spec merged with the patch is proved for the first one only, by ProjectService.FindAfterPatch.
- ProjectService.PatchRequestSpec: a patch key present with the value `undefined` overwrites the field in the source's object spread. The model treats such a key as absent.
- HttpForDummies.IsRequestingToLocalhost: takes the URL rather than a whole request snapshot, because the source reads only the URL.
- HttpForDummies.StatusText: status codes are integers. A non-integer number falls to the default in the source.
- The listing service declares its own projects subdirectory (src/features/projects-management/opfs-projects-listing-service.ts:116). It is `ListingService.LISTING_OPFS_SUBDIRECTORY`, equal to the kernel's.
- Project entities are compared structurally, so the source's TypeScript type mismatches do not arise. One such mismatch is the method list typed as request-spec methods while it includes HEAD and OPTIONS.
- UI components, hooks and contexts are not part of this model.

## Findings

| source | as written | input that shows it | evidently intended | confidence | as-written member | corrected member |
|---|---|---|---|---|---|---|
| src/features/projects-management/opfs-projects-listing-service.ts:105-111 | persists the renamed project under its new filename, then always removes the file of the old uuid and name | `updateProjectListingItem({uuid, name})` with the project's current name, or any name that sanitises to the same filename | renaming keeps the project: the old file is removed only when it is a different file | not executed | ListingService.RenameToSameFilenameLosesProject | ListingService.FixedRenameKeepsProject |
