/**
 * The shared kernel of the project services: how a project's identity is
 * encoded in its filename, the default request spec, and retrieve, persist
 * and remove of whole projects in the `projects` subdirectory.
 */
module ProjectsKernel {

  import opened Wrappers
  import opened Errors
  import opened Uuid
  import opened Entities
  import opened Json
  import opened Opfs

  /** The private subdirectory where all projects are stored. */
  const PROJECTS_OPFS_SUBDIRECTORY: string := "projects"

  /** The directory that subdirectory resolves to. */
  const ProjectsDir: string := DirPath(PROJECTS_OPFS_SUBDIRECTORY)

  lemma ProjectsDirIsSubdirectory()
    ensures ValidSubdir(PROJECTS_OPFS_SUBDIRECTORY)
    ensures ProjectsDir == "postmaiden.com__projects"
    ensures ProjectsDir != MAIN_OPFS_DIRECTORY
  {
    DirPathIsMainOnlyWithoutSubdir(PROJECTS_OPFS_SUBDIRECTORY);
  }

  // ------------------------------------------------------------ characters

  /** The characters a regular-expression `.` does not match. */
  predicate IsLineTerminator(c: char) {
    c == '\n' || c == '\r' || c == '\U{2028}' || c == '\U{2029}'
  }

  predicate NoLineTerminators(s: string) {
    forall i :: 0 <= i < |s| ==> !IsLineTerminator(s[i])
  }

  /** The characters `String.prototype.trim` removes: white space and line terminators. */
  predicate IsTrimmable(c: char) {
    || c == '\t' || c == '\U{000B}' || c == '\U{000C}' || c == ' '
    || c == '\U{00A0}' || c == '\U{1680}' || ('\U{2000}' <= c <= '\U{200A}')
    || c == '\U{202F}' || c == '\U{205F}' || c == '\U{3000}' || c == '\U{FEFF}'
    || IsLineTerminator(c)
  }

  // ---------------------------------------------------------- sanitisation

  function TrimStart(s: string): (r: string)
    ensures |r| <= |s| && r == s[|s| - |r|..]
    ensures forall i :: 0 <= i < |s| - |r| ==> IsTrimmable(s[i])
    ensures r != [] ==> !IsTrimmable(r[0])
    decreases |s|
  {
    if s != [] && IsTrimmable(s[0]) then TrimStart(s[1..]) else s
  }

  function TrimEnd(s: string): (r: string)
    ensures |r| <= |s| && r == s[..|r|]
    ensures forall i :: |r| <= i < |s| ==> IsTrimmable(s[i])
    ensures r != [] ==> !IsTrimmable(r[|r| - 1])
    decreases |s|
  {
    if s != [] && IsTrimmable(s[|s| - 1]) then TrimEnd(s[..|s| - 1]) else s
  }

  /** `String.prototype.trim`. */
  function Trim(s: string): string {
    TrimEnd(TrimStart(s))
  }

  /** ASCII letters compared without regard to case, as a case-insensitive regular expression does. */
  function AsciiLower(c: char): char {
    if 'A' <= c <= 'Z' then (c as int + 32) as char else c
  }

  /**
   * The regular expression `/.json$/i`: any character but a line terminator,
   * then `json` in any letter case, at the very end.
   */
  predicate EndsWithAnyCharJson(s: string) {
    |s| >= 5 && !IsLineTerminator(s[|s| - 5]) &&
    AsciiLower(s[|s| - 4]) == 'j' && AsciiLower(s[|s| - 3]) == 's' &&
    AsciiLower(s[|s| - 2]) == 'o' && AsciiLower(s[|s| - 1]) == 'n'
  }

  /** `replaceAll(/.json$/gi, "")`: the anchored pattern matches at most once. */
  function StripTrailingJson(s: string): string {
    if EndsWithAnyCharJson(s) then s[..|s| - 5] else s
  }

  /** `replaceAll(c, d)` for one-character strings. */
  function ReplaceAll(s: string, c: char, d: char): (r: string)
    ensures |r| == |s|
    ensures forall i :: 0 <= i < |s| ==> r[i] == if s[i] == c then d else s[i]
    decreases |s|
  {
    if s == [] then [] else [if s[0] == c then d else s[0]] + ReplaceAll(s[1..], c, d)
  }

  /** `replaceAll('"', "")` and then `replaceAll("/", " ")`. */
  function DropQuotesAndSlashes(s: string): (r: string)
    ensures '"' !in r && '/' !in r
  {
    var q := Without(s, '"');
    var r := ReplaceAll(q, '/', ' ');
    assert '"' !in r && '/' !in r by {
      forall i | 0 <= i < |r| ensures r[i] != '"' && r[i] != '/' {
        assert q[i] in q;
      }
    }
    r
  }

  /**
   * Every character but a quote and a slash is kept, and a space appears
   * exactly where the name had one or a slash.
   */
  lemma DropQuotesAndSlashesContents(s: string)
    ensures forall c :: c in DropQuotesAndSlashes(s) <==> (c in s && c != '"' && c != '/') || (c == ' ' && '/' in s)
  {
    var q := Without(s, '"');
    var r := DropQuotesAndSlashes(s);
    assert r == ReplaceAll(q, '/', ' ');
    assert forall i :: 0 <= i < |r| ==> r[i] == if q[i] == '/' then ' ' else q[i];
    forall c | c in r ensures (c in s && c != '"' && c != '/') || (c == ' ' && '/' in s) {
      var i :| 0 <= i < |r| && r[i] == c;
      assert q[i] in q;
    }
    forall c | (c in s && c != '"' && c != '/') || (c == ' ' && '/' in s) ensures c in r {
      if c in s && c != '"' && c != '/' {
        assert c in q;
        var i :| 0 <= i < |q| && q[i] == c;
        assert r[i] == c;
      } else {
        assert '/' in q;
        var i :| 0 <= i < |q| && q[i] == '/';
        assert r[i] == ' ';
      }
    }
  }

  /** A name without quotes and slashes is left as it is. */
  lemma DropQuotesAndSlashesOfPlain(s: string)
    requires '"' !in s && '/' !in s
    ensures DropQuotesAndSlashes(s) == s
  {
    WithoutAbsent(s, '"');
  }

  /**
   * The project name as it appears in the filename: trimmed, one trailing
   * "any character + json" removed, double quotes dropped and slashes turned
   * into spaces.
   */
  function Sanitise(name: string): (r: string)
    ensures '"' !in r && '/' !in r
  {
    DropQuotesAndSlashes(StripTrailingJson(Trim(name)))
  }

  /** A slice of a single-line text is a single line. */
  lemma SliceKeepsLines(s: string, i: int, j: int)
    requires NoLineTerminators(s) && 0 <= i <= j <= |s|
    ensures NoLineTerminators(s[i..j])
  {
    forall k | 0 <= k < j - i ensures !IsLineTerminator(s[i..j][k]) {
      assert s[i..j][k] == s[i + k];
    }
  }

  lemma TrimKeepsLines(s: string)
    requires NoLineTerminators(s)
    ensures NoLineTerminators(Trim(s))
  {
    var ts := TrimStart(s);
    SliceKeepsLines(s, |s| - |ts|, |s|);
    SliceKeepsLines(ts, 0, |TrimEnd(ts)|);
  }

  lemma DropQuotesAndSlashesKeepsLines(s: string)
    requires NoLineTerminators(s)
    ensures NoLineTerminators(DropQuotesAndSlashes(s))
  {
    var q := Without(s, '"');
    assert NoLineTerminators(q) by {
      forall i | 0 <= i < |q| ensures !IsLineTerminator(q[i]) {
        assert q[i] in s;
      }
    }
    var r := ReplaceAll(q, '/', ' ');
    forall i | 0 <= i < |r| ensures !IsLineTerminator(r[i]) {
      assert r[i] == q[i] || r[i] == ' ';
    }
  }

  /** Sanitising introduces no line terminator. */
  lemma SanitisePreservesLines(name: string)
    requires NoLineTerminators(name)
    ensures NoLineTerminators(Sanitise(name))
  {
    TrimKeepsLines(name);
    var t := Trim(name);
    SliceKeepsLines(t, 0, |StripTrailingJson(t)|);
    DropQuotesAndSlashesKeepsLines(StripTrailingJson(t));
  }

  /** White space in front of a text that starts with none is trimmed away. */
  lemma {:induction false} TrimStartPadded(pre: string, rest: string)
    requires forall i :: 0 <= i < |pre| ==> IsTrimmable(pre[i])
    requires rest != [] && !IsTrimmable(rest[0])
    ensures TrimStart(pre + rest) == rest
    decreases |pre|
  {
    if pre == [] {
      assert pre + rest == rest;
    } else {
      assert (pre + rest)[0] == pre[0];
      assert (pre + rest)[1..] == pre[1..] + rest;
      TrimStartPadded(pre[1..], rest);
    }
  }

  /** White space after a text that ends with none is trimmed away. */
  lemma {:induction false} TrimEndPadded(rest: string, post: string)
    requires forall i :: 0 <= i < |post| ==> IsTrimmable(post[i])
    requires rest != [] && !IsTrimmable(rest[|rest| - 1])
    ensures TrimEnd(rest + post) == rest
    decreases |post|
  {
    if post == [] {
      assert rest + post == rest;
    } else {
      var s := rest + post;
      assert s[|s| - 1] == post[|post| - 1];
      assert s[..|s| - 1] == rest + post[..|post| - 1];
      TrimEndPadded(rest, post[..|post| - 1]);
    }
  }

  /** Trimming removes exactly the white space around a text that has some non-blank character at each end. */
  lemma TrimPadded(pre: string, name: string, post: string)
    requires forall i :: 0 <= i < |pre| ==> IsTrimmable(pre[i])
    requires forall i :: 0 <= i < |post| ==> IsTrimmable(post[i])
    requires name != [] && !IsTrimmable(name[0]) && !IsTrimmable(name[|name| - 1])
    ensures Trim(pre + name + post) == name
  {
    assert pre + name + post == pre + (name + post);
    assert (name + post)[0] == name[0];
    TrimStartPadded(pre, name + post);
    TrimEndPadded(name, post);
  }

  /**
   * Sanitising ignores white space and line terminators around a name: the
   * padded name sanitises as the name itself does.
   */
  lemma SanitiseTrimsSurroundingSpace(pre: string, name: string, post: string)
    requires forall i :: 0 <= i < |pre| ==> IsTrimmable(pre[i])
    requires forall i :: 0 <= i < |post| ==> IsTrimmable(post[i])
    requires name != [] && !IsTrimmable(name[0]) && !IsTrimmable(name[|name| - 1])
    ensures Sanitise(pre + name + post) == Sanitise(name)
  {
    TrimPadded(pre, name, post);
    TrimPadded([], name, []);
    assert [] + name + [] == name;
  }

  /** A text that neither starts nor ends with white space is its own trim. */
  lemma TrimKeeps(s: string)
    requires s != [] && !IsTrimmable(s[0]) && !IsTrimmable(s[|s| - 1])
    ensures Trim(s) == s
  {
    TrimPadded([], s, []);
    assert [] + s + [] == s;
  }

  /**
   * The unescaped `.` of `/.json$/gi` matches any character but a line
   * terminator: that character goes with the `json` after it, in any case.
   */
  lemma StripTrailingJsonDropsAnyChar(x: string, c: char, ext: string)
    requires !IsLineTerminator(c)
    requires |ext| == 4 && AsciiLower(ext[0]) == 'j' && AsciiLower(ext[1]) == 's'
    requires AsciiLower(ext[2]) == 'o' && AsciiLower(ext[3]) == 'n'
    ensures StripTrailingJson(x + [c] + ext) == x
  {
    var s := x + [c] + ext;
    assert s[|s| - 5] == c;
    assert forall i :: 0 <= i < 4 ==> s[|s| - 4 + i] == ext[i];
    assert s[..|s| - 5] == x;
  }

  /**
   * A name ending in any one character (not a line terminator) and `json`
   * in any letter case loses both: `myjson` sanitises as `m` does, and so
   * does `m.JSON`. The character is one UTF-16 code unit, as the pattern's
   * `.` matches one.
   */
  lemma SanitiseStripsAnyCharBeforeJson(x: string, c: char, ext: string)
    requires x != [] && !IsTrimmable(x[0]) && !IsLineTerminator(c) && (c as int) < 0x1_0000
    requires |ext| == 4 && AsciiLower(ext[0]) == 'j' && AsciiLower(ext[1]) == 's'
    requires AsciiLower(ext[2]) == 'o' && AsciiLower(ext[3]) == 'n'
    ensures Sanitise(x + [c] + ext) == DropQuotesAndSlashes(x)
  {
    var s := x + [c] + ext;
    assert s[0] == x[0] && s[|s| - 1] == ext[3];
    assert !IsTrimmable(ext[3]) by {
      assert ext[3] == 'n' || ext[3] == 'N';
    }
    TrimKeeps(s);
    StripTrailingJsonDropsAnyChar(x, c, ext);
  }

  /** A name with no surrounding white space, no trailing `json`, no quote and no slash is kept as it is. */
  lemma SanitiseKeepsPlainName(name: string)
    requires name != [] && !IsTrimmable(name[0]) && !IsTrimmable(name[|name| - 1])
    requires !EndsWithAnyCharJson(name) && '"' !in name && '/' !in name
    ensures Sanitise(name) == name
  {
    TrimKeeps(name);
    DropQuotesAndSlashesOfPlain(name);
  }

  // ------------------------------------------------------------- filenames

  /** The filename of a project: uuid, underscore, sanitised name, `.json`. */
  function ProjectFilename(uuid: string, name: string): string {
    uuid + "_" + Sanitise(name) + ".json"
  }

  /**
   * The listing item a filename encodes, after the pattern
   * `^([a-f0-9]{8}-[a-f0-9]{4}-[a-f0-9]{4}-[a-f0-9]{4}-[a-f0-9]{12})_(.*)\.json$`;
   * `None` when the filename does not match.
   */
  function ListingItemFromFilename(filename: string): Option<ListingItem> {
    var f := filename;
    if |f| >= 42 && IsLowerUuid(f[..36]) && f[36] == '_' && f[|f| - 5..] == ".json"
       && NoLineTerminators(f[37..|f| - 5])
    then Some(ListingItem(f[..36], f[37..|f| - 5]))
    else None
  }

  /** A decodable filename is exactly the encoding of what it decodes to. */
  lemma DecodedFilenameShape(filename: string)
    requires ListingItemFromFilename(filename).Some?
    ensures var it := ListingItemFromFilename(filename).value;
      && IsLowerUuid(it.uuid) && NoLineTerminators(it.name)
      && filename == it.uuid + "_" + it.name + ".json"
  {
    var f := filename;
    assert f == f[..36] + "_" + f[37..|f| - 5] + ".json";
  }

  /** The pattern takes apart exactly what the filename was put together from. */
  lemma DecodeJoined(uuid: string, name: string)
    ensures ListingItemFromFilename(uuid + "_" + name + ".json") == Some(ListingItem(uuid, name))
        <==> IsLowerUuid(uuid) && NoLineTerminators(name)
  {
    var f := uuid + "_" + name + ".json";
    if IsLowerUuid(uuid) {
      assert f[..36] == uuid;
      assert f[36] == '_';
      assert f[|f| - 5..] == ".json";
      assert f[37..|f| - 5] == name;
    }
  }

  /**
   * Decoding the filename of a project gives back its uuid and sanitised
   * name exactly when the uuid is in the generator's lower-case form and the
   * sanitised name has no line terminator.
   */
  lemma FilenameRoundTrip(uuid: string, name: string)
    ensures ListingItemFromFilename(ProjectFilename(uuid, name)) == Some(ListingItem(uuid, Sanitise(name)))
        <==> IsLowerUuid(uuid) && NoLineTerminators(Sanitise(name))
  {
    DecodeJoined(uuid, Sanitise(name));
  }

  /**
   * A filename whose first 36 characters are not a lower-case uuid decodes to
   * nothing, such as `91599476-833d-invaliduuid-826b-8fe768fad0bf_My cool API.json`.
   */
  lemma MalformedFilenameIsSkipped(f: string)
    requires |f| < 36 || !IsLowerUuid(f[..36])
    ensures ListingItemFromFilename(f) == None
  {
  }

  /** The filename's uuid, when it has one, is `uuid`. */
  predicate HasUuid(filename: string, uuid: string) {
    var it := ListingItemFromFilename(filename);
    it.Some? && it.value.uuid == uuid
  }

  /** `Array.prototype.find`: the first filename in directory order holding `uuid`. */
  function FirstFilenameWithUuid(names: seq<string>, uuid: string): (r: Option<string>)
    ensures r.Some? ==> r.value in names && HasUuid(r.value, uuid)
    ensures r.None? <==> forall n :: n in names ==> !HasUuid(n, uuid)
    decreases |names|
  {
    if names == [] then None
    else if HasUuid(names[0], uuid) then Some(names[0])
    else FirstFilenameWithUuid(names[1..], uuid)
  }

  /** A match in the front part wins over any in the back part. */
  lemma {:induction false} FirstFilenameConcat(a: seq<string>, b: seq<string>, uuid: string)
    ensures FirstFilenameWithUuid(a + b, uuid) ==
      if FirstFilenameWithUuid(a, uuid).Some? then FirstFilenameWithUuid(a, uuid)
      else FirstFilenameWithUuid(b, uuid)
    decreases |a|
  {
    if a == [] {
      assert a + b == b;
    } else {
      assert (a + b)[0] == a[0];
      assert (a + b)[1..] == a[1..] + b;
      FirstFilenameConcat(a[1..], b, uuid);
    }
  }

  // ------------------------------------------------------------ default spec

  const DEFAULT_REQUEST_SPEC_HEADERS: seq<Header> := [
    Header("Content-Type", "application/json", false),
    Header("Accept", "application/json", true)
  ]

  /** A new request spec; `uuid` is the freshly generated identifier. */
  function MakeDefaultRequestSpec(uuid: string): (s: RequestSpec)
    ensures s.uuid == uuid && s.httpMethod == GET && s.url == "" && s.body == ""
    ensures |s.headers| == 2
    ensures s.headers[0] == Header("Content-Type", "application/json", false)
    ensures s.headers[1] == Header("Accept", "application/json", true)
  {
    RequestSpec(uuid, "", GET, DEFAULT_REQUEST_SPEC_HEADERS, "")
  }

  // ------------------------------------------------- the projects directory

  /** What `retrieveProject` finds in the projects directory `d`. */
  function LookupProject(d: Directory, uuid: string): Result<Project, Error> {
    match FirstFilenameWithUuid(d.names, uuid)
    case None => Failure(ProjectFilenameNotFound)
    case Some(f) =>
      var text := if f in d.texts then d.texts[f] else "";
      if text == "" then Failure(ProjectContentNotFound)
      else match DeserialiseProject(text)
        case Some(p) => Success(p)
        case None => Failure(ParseError)
  }

  /** The storage calls of `retrieveProject`. */
  function RetrieveCalls(d: Directory, uuid: string): seq<Access> {
    [OpenDirectory(ProjectsDir), ListEntries(ProjectsDir)] +
    match FirstFilenameWithUuid(d.names, uuid)
    case None => []
    case Some(f) => [OpenDirectory(ProjectsDir), OpenFile(ProjectsDir, f), ReadFile(ProjectsDir, f)]
  }

  /** The store after `persistProject(p)`; `writeOk` is the outcome of the write. */
  function PersistedDirs(dirs: map<string, Directory>, p: Project, writeOk: bool): map<string, Directory> {
    var f := ProjectFilename(p.uuid, p.name);
    var touched := WithFile(dirs, ProjectsDir, f);
    if writeOk then Written(touched, ProjectsDir, f, SerialiseProject(p)) else touched
  }

  function PersistCalls(p: Project): seq<Access> {
    var f := ProjectFilename(p.uuid, p.name);
    [OpenDirectory(ProjectsDir), OpenFile(ProjectsDir, f)] + WriteCalls(ProjectsDir, f, SerialiseProject(p))
  }

  /** The store after `removeProject(item)`: the file is opened (so created) and then deleted. */
  function RemovedDirs(dirs: map<string, Directory>, item: ListingItem): map<string, Directory> {
    var f := ProjectFilename(item.uuid, item.name);
    Deleted(WithFile(dirs, ProjectsDir, f), ProjectsDir, f)
  }

  function RemoveCalls(item: ListingItem): seq<Access> {
    var f := ProjectFilename(item.uuid, item.name);
    [OpenDirectory(ProjectsDir), OpenFile(ProjectsDir, f), RemoveEntry(ProjectsDir, f)]
  }

  /**
   * Persisting writes the serialised project to the file its current uuid
   * and name select, creating it at the end of the directory when new; every
   * other file keeps its text, an older file of the same uuid included.
   */
  lemma PersistedDirsEffect(dirs: map<string, Directory>, p: Project, path: string, name: string)
    requires ValidDirs(dirs)
    ensures ValidDirs(PersistedDirs(dirs, p, true))
    ensures var f := ProjectFilename(p.uuid, p.name);
      && TextAt(PersistedDirs(dirs, p, true), ProjectsDir, f) == Some(SerialiseProject(p))
      && DirAt(PersistedDirs(dirs, p, true), ProjectsDir).names ==
         (if f in DirAt(dirs, ProjectsDir).names then DirAt(dirs, ProjectsDir).names
          else DirAt(dirs, ProjectsDir).names + [f])
      && ((path, name) != (ProjectsDir, f) ==> TextAt(PersistedDirs(dirs, p, true), path, name) == TextAt(dirs, path, name))
  {
    OpenThenWriteEffect(dirs, ProjectsDir, ProjectFilename(p.uuid, p.name), SerialiseProject(p), path, name);
  }

  /** Opening a file (so creating it) and writing it: only that file's text changes. */
  lemma OpenThenWriteEffect(dirs: map<string, Directory>, dir: string, f: string, text: string, path: string, name: string)
    requires ValidDirs(dirs)
    ensures ValidDirs(Written(WithFile(dirs, dir, f), dir, f, text))
    ensures TextAt(Written(WithFile(dirs, dir, f), dir, f, text), dir, f) == Some(text)
    ensures DirAt(Written(WithFile(dirs, dir, f), dir, f, text), dir).names ==
      (if f in DirAt(dirs, dir).names then DirAt(dirs, dir).names else DirAt(dirs, dir).names + [f])
    ensures (path, name) != (dir, f) ==> TextAt(Written(WithFile(dirs, dir, f), dir, f, text), path, name) == TextAt(dirs, path, name)
  {
    var d := DirAt(dirs, dir);
    TouchValid(d, f);
    var d3 := d.Touch(f).Write(f, text);
    assert d3.names == d.Touch(f).names && d3.Valid();
    var m := dirs[dir := d3];
    assert Written(WithFile(dirs, dir, f), dir, f, text) == m;
    assert ValidDirs(m) by {
      forall q | q in m ensures m[q].Valid() {
        if q != dir {
          assert m[q] == dirs[q];
        }
      }
    }
    if path == dir && name != f {
      assert name in d3.texts <==> name in d.texts;
      if name in d.texts {
        assert d3.texts[name] == d.texts[name];
      }
    }
  }

  /** Creating a file and then deleting it leaves the directory as if only the delete had run. */
  lemma TouchThenDelete(d: Directory, f: string)
    requires d.Valid()
    ensures d.Touch(f).Delete(f) == d.Delete(f)
  {
    if f !in d.texts {
      WithoutConcat(d.names, [f], f);
      assert Without([f], f) == [];
      assert d.names + [] == d.names;
      assert d.texts[f := ""] - {f} == d.texts - {f};
    }
  }

  /**
   * Removing deletes exactly the file named from the uuid and name, whether
   * or not it existed; the other entries keep their text and their order.
   */
  lemma RemovedDirsEffect(dirs: map<string, Directory>, item: ListingItem, path: string, name: string)
    requires ValidDirs(dirs)
    ensures ValidDirs(RemovedDirs(dirs, item))
    ensures var f := ProjectFilename(item.uuid, item.name);
      && TextAt(RemovedDirs(dirs, item), ProjectsDir, f).None?
      && DirAt(RemovedDirs(dirs, item), ProjectsDir).names == Without(DirAt(dirs, ProjectsDir).names, f)
      && ((path, name) != (ProjectsDir, f) ==> TextAt(RemovedDirs(dirs, item), path, name) == TextAt(dirs, path, name))
  {
    OpenThenDeleteEffect(dirs, ProjectsDir, ProjectFilename(item.uuid, item.name), path, name);
  }

  /** Opening a file (so creating it) and deleting it is the same as deleting it. */
  lemma OpenThenDeleteEffect(dirs: map<string, Directory>, dir: string, f: string, path: string, name: string)
    requires ValidDirs(dirs)
    ensures ValidDirs(Deleted(WithFile(dirs, dir, f), dir, f))
    ensures TextAt(Deleted(WithFile(dirs, dir, f), dir, f), dir, f).None?
    ensures DirAt(Deleted(WithFile(dirs, dir, f), dir, f), dir).names == Without(DirAt(dirs, dir).names, f)
    ensures (path, name) != (dir, f) ==> TextAt(Deleted(WithFile(dirs, dir, f), dir, f), path, name) == TextAt(dirs, path, name)
  {
    var d := DirAt(dirs, dir);
    TouchThenDelete(d, f);
    DeleteValid(d, f);
    var m := dirs[dir := d.Delete(f)];
    assert Deleted(WithFile(dirs, dir, f), dir, f) == m;
    assert ValidDirs(m) by {
      forall q | q in m ensures m[q].Valid() {
        if q != dir {
          assert m[q] == dirs[q];
        }
      }
    }
    if (path, name) != (dir, f) && path == dir {
      assert name in m[dir].texts <==> name in d.texts;
    }
  }

  /**
   * A project persisted under a fresh uuid is found again by that uuid and
   * reads back as the same project.
   */
  lemma PersistThenLookup(dirs: map<string, Directory>, p: Project)
    requires ValidDirs(dirs)
    requires IsLowerUuid(p.uuid) && NoLineTerminators(p.name)
    requires forall n :: n in DirAt(dirs, ProjectsDir).names ==> !HasUuid(n, p.uuid)
    ensures LookupProject(DirAt(PersistedDirs(dirs, p, true), ProjectsDir), p.uuid) == Success(p)
  {
    var f := ProjectFilename(p.uuid, p.name);
    var names := DirAt(dirs, ProjectsDir).names;
    SanitisePreservesLines(p.name);
    FilenameRoundTrip(p.uuid, p.name);
    assert HasUuid(f, p.uuid);
    assert f !in names;
    PersistedDirsEffect(dirs, p, ProjectsDir, f);
    FirstFilenameConcat(names, [f], p.uuid);
    ProjectCodecLawful();
    assert DeserialiseProject(SerialiseProject(p)) == Some(p);
  }

  /**
   * Persisting a project whose file is the one its uuid is looked up by
   * (same uuid, same name) rewrites that file in place: the lookup then
   * reads back the project persisted.
   */
  lemma PersistInPlaceThenLookup(dirs: map<string, Directory>, p: Project)
    requires ValidDirs(dirs)
    requires FirstFilenameWithUuid(DirAt(dirs, ProjectsDir).names, p.uuid) == Some(ProjectFilename(p.uuid, p.name))
    ensures DirAt(PersistedDirs(dirs, p, true), ProjectsDir).names == DirAt(dirs, ProjectsDir).names
    ensures LookupProject(DirAt(PersistedDirs(dirs, p, true), ProjectsDir), p.uuid) == Success(p)
  {
    var f := ProjectFilename(p.uuid, p.name);
    PersistedDirsEffect(dirs, p, ProjectsDir, f);
    ProjectCodecLawful();
    assert DeserialiseProject(SerialiseProject(p)) == Some(p);
  }

  // ------------------------------------------------------ storage operations

  /** All raw filenames of the projects directory, in directory order. */
  method RetrieveProjectsFilenames(store: Store) returns (r: Result<seq<string>, Error>)
    requires store.Valid()
    modifies store
    ensures store.Valid()
    ensures store.dirs == WithDir(old(store.dirs), ProjectsDir)
    ensures store.log == old(store.log) + [OpenDirectory(ProjectsDir), ListEntries(ProjectsDir)]
    ensures r == Success(DirAt(old(store.dirs), ProjectsDir).names)
  {
    ProjectsDirIsSubdirectory();
    var made := MakeDirAdapter(store, PROJECTS_OPFS_SUBDIRECTORY);
    var dir := made.value;
    r := dir.RetrieveFilenames();
  }

  /**
   * The project whose filename is the first in directory order to carry
   * `uuid`; fails when none does and when that file is empty.
   */
  method RetrieveProject(store: Store, uuid: string) returns (r: Result<Project, Error>)
    requires store.Valid()
    modifies store
    ensures store.Valid()
    ensures store.dirs == WithDir(old(store.dirs), ProjectsDir)
    ensures store.log == old(store.log) + RetrieveCalls(DirAt(old(store.dirs), ProjectsDir), uuid)
    ensures r == LookupProject(DirAt(old(store.dirs), ProjectsDir), uuid)
  {
    var listed := RetrieveProjectsFilenames(store);
    var names := listed.value;
    var found := FirstFilenameWithUuid(names, uuid);
    if found.None? {
      return Failure(ProjectFilenameNotFound);
    }
    var f := found.value;
    assert f in store.dirs[ProjectsDir].texts;
    var content :- RetrieveProjectFile(store, f);
    if content.None? {
      return Failure(ProjectContentNotFound);
    }
    r := Success(content.value);
  }

  /** Opens the projects directory and its existing file `f`, then reads and decodes that file. */
  method RetrieveProjectFile(store: Store, f: string) returns (r: Result<Option<Project>, Error>)
    requires store.Valid() && TextAt(store.dirs, ProjectsDir, f).Some?
    modifies store
    ensures store.Valid() && store.dirs == old(store.dirs)
    ensures store.log == old(store.log) + [OpenDirectory(ProjectsDir), OpenFile(ProjectsDir, f), ReadFile(ProjectsDir, f)]
    ensures r == Decoded(TextAt(store.dirs, ProjectsDir, f), ProjectCodec)
  {
    ghost var d := store.dirs[ProjectsDir];
    ProjectsDirIsSubdirectory();
    var made := MakeFileAdapter(store, f, PROJECTS_OPFS_SUBDIRECTORY, ProjectCodec);
    assert store.dirs == old(store.dirs) by {
      assert d.Touch(f) == d;
    }
    var file := made.value;
    r := file.Retrieve();
  }

  /** Writes the whole project to the file named by its current uuid and name. */
  method PersistProject(store: Store, project: Project, writeOk: bool) returns (r: Outcome<Error>)
    requires store.Valid()
    modifies store
    ensures store.Valid()
    ensures store.dirs == PersistedDirs(old(store.dirs), project, writeOk)
    ensures store.log == old(store.log) + PersistCalls(project)
    ensures r == if writeOk then Pass else Fail(WriteError)
  {
    var f := ProjectFilename(project.uuid, project.name);
    r := PersistProjectFile(store, f, project, writeOk);
  }

  /** Opens the projects directory and the file `f` in it, then writes the project to that file. */
  method PersistProjectFile(store: Store, f: string, project: Project, writeOk: bool) returns (r: Outcome<Error>)
    requires store.Valid()
    modifies store
    ensures store.Valid()
    ensures var touched := WithFile(old(store.dirs), ProjectsDir, f);
      store.dirs == if writeOk then Written(touched, ProjectsDir, f, SerialiseProject(project)) else touched
    ensures store.log == old(store.log) + [OpenDirectory(ProjectsDir), OpenFile(ProjectsDir, f)]
                                         + WriteCalls(ProjectsDir, f, SerialiseProject(project))
    ensures r == if writeOk then Pass else Fail(WriteError)
  {
    WithFileValid(store.dirs, ProjectsDir, f);
    ProjectsDirIsSubdirectory();
    var made := MakeFileAdapter(store, f, PROJECTS_OPFS_SUBDIRECTORY, ProjectCodec);
    var file := made.value;
    r := file.Persist(project, writeOk);
  }

  /** Deletes the file named from the given uuid and name and answers with the uuid. */
  method RemoveProject(store: Store, item: ListingItem) returns (r: Result<string, Error>)
    requires store.Valid()
    modifies store
    ensures store.Valid()
    ensures store.dirs == RemovedDirs(old(store.dirs), item)
    ensures store.log == old(store.log) + RemoveCalls(item)
    ensures r == Success(item.uuid)
  {
    var f := ProjectFilename(item.uuid, item.name);
    RemoveProjectFile(store, f);
    r := Success(item.uuid);
  }

  /** Opens the projects directory and the file `f` in it, then deletes that file. */
  method RemoveProjectFile(store: Store, f: string)
    requires store.Valid()
    modifies store
    ensures store.Valid()
    ensures store.dirs == Deleted(WithFile(old(store.dirs), ProjectsDir, f), ProjectsDir, f)
    ensures store.log == old(store.log) + [OpenDirectory(ProjectsDir), OpenFile(ProjectsDir, f), RemoveEntry(ProjectsDir, f)]
  {
    WithFileValid(store.dirs, ProjectsDir, f);
    ProjectsDirIsSubdirectory();
    var made := MakeFileAdapter(store, f, PROJECTS_OPFS_SUBDIRECTORY, ProjectCodec);
    var file := made.value;
    var removed := file.Remove();
  }
}
