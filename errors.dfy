/** The errors the persistence layer throws, one per throw site of the source. */
module Errors {

  datatype Error =
    | InvalidSubdir            // subdirectory name holds '/' or '_'
    | EntryNotFound            // the storage has no such directory or file
    | ParseError               // stored text is not a serialised value
    | WriteError               // the writable stream failed to write
    | ProjectFilenameNotFound  // no project filename decodes to the requested uuid
    | ProjectContentNotFound   // the project file exists but is empty
    | EmptyProjectName         // a project name is required
    | EmptyProjectUuid         // a project uuid is required for update
    | SpecNotFound             // no request spec has the patched uuid
    | InvalidSessionUuid       // a client session uuid must be a valid uuid
}
