/** The persisted records of a project and its listing projection. */
module Entities {

  import opened Wrappers

  /** A header of a request spec; disabled headers are kept but not sent. */
  datatype Header = Header(key: string, value: string, isEnabled: bool)

  /** The methods a request spec may hold. */
  datatype Method = GET | POST | PUT | PATCH | DELETE

  /** A saved description of one HTTP request. */
  datatype RequestSpec = RequestSpec(
    uuid: string,
    url: string,
    httpMethod: Method,
    headers: seq<Header>,
    body: string)

  /** Reserved grouping of specs; never populated, preserved verbatim. */
  datatype Section = Section(uuid: string, name: string)

  /** The root aggregate stored as one file. */
  datatype Project = Project(
    uuid: string,
    name: string,
    sections: seq<Section>,
    specs: seq<RequestSpec>)

  /** The `{uuid, name}` pair a project filename encodes. */
  datatype ListingItem = ListingItem(uuid: string, name: string)

  /** The name under which a method is written in storage and on the wire. */
  function MethodName(m: Method): string {
    match m
    case GET => "GET"
    case POST => "POST"
    case PUT => "PUT"
    case PATCH => "PATCH"
    case DELETE => "DELETE"
  }

  function MethodFromName(s: string): (r: Option<Method>)
    ensures r.Some? ==> MethodName(r.value) == s
  {
    if s == "GET" then Some(GET)
    else if s == "POST" then Some(POST)
    else if s == "PUT" then Some(PUT)
    else if s == "PATCH" then Some(PATCH)
    else if s == "DELETE" then Some(DELETE)
    else None
  }

  lemma MethodNameRoundTrip(m: Method)
    ensures MethodFromName(MethodName(m)) == Some(m)
  {
  }
}
