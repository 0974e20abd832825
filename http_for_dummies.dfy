/**
 * Small HTTP helpers shown next to a request: whether it targets the local
 * machine, whether its method may carry a body, and the explanation and
 * reason phrase of methods and status codes.
 */
module HttpForDummies {

  import opened Entities

  // ---------------------------------------------------------------- requests

  /** The URL beginnings that denote the local machine. */
  const LOCAL_BEGINNINGS: seq<string> := ["http://localhost", "https://localhost", "http://127.0.0.1", "https://127.0.0.1"]

  /** `Array.prototype.some` with `startsWith`: some beginning is a prefix of `url`. */
  function StartsWithAny(url: string, beginnings: seq<string>): (r: bool)
    ensures r <==> exists b :: b in beginnings && b <= url
    decreases |beginnings|
  {
    if beginnings == [] then false
    else
      assert forall b :: b in beginnings <==> b == beginnings[0] || b in beginnings[1..];
      if beginnings[0] <= url then
        assert beginnings[0] in beginnings;
        true
      else StartsWithAny(url, beginnings[1..])
  }

  /** Whether the request goes to this machine; only the request's URL is consulted. */
  function IsRequestingToLocalhost(url: string): (r: bool)
    ensures r <==> exists b :: b in LOCAL_BEGINNINGS && b <= url
  {
    StartsWithAny(url, LOCAL_BEGINNINGS)
  }

  /**
   * Examples: the match is on the beginning of the URL only, so a port or a
   * path is accepted, and so is a host that merely starts with `localhost`.
   */
  lemma LocalhostPrefixes()
    ensures IsRequestingToLocalhost("http://localhost:5173/api")
    ensures IsRequestingToLocalhost("https://127.0.0.1/")
    ensures IsRequestingToLocalhost("http://localhost.example.com")
  {
    assert LOCAL_BEGINNINGS[0] <= "http://localhost:5173/api";
    assert LOCAL_BEGINNINGS[3] <= "https://127.0.0.1/";
    assert LOCAL_BEGINNINGS[0] <= "http://localhost.example.com";
  }

  /** Examples: another host is not local, and the scheme is compared with its letter case. */
  lemma RemoteUrls()
    ensures !IsRequestingToLocalhost("https://example.com")
    ensures !IsRequestingToLocalhost("HTTP://localhost")
  {
    var remote := "https://example.com";
    assert remote[4] != LOCAL_BEGINNINGS[0][4] && remote[4] != LOCAL_BEGINNINGS[2][4];
    assert remote[8] != LOCAL_BEGINNINGS[1][8] && remote[8] != LOCAL_BEGINNINGS[3][8];
    var upper := "HTTP://localhost";
    assert forall i :: 0 <= i < 4 ==> upper[0] != LOCAL_BEGINNINGS[i][0];
  }

  /** Every method but GET and HEAD may carry a body. */
  function CanMethodHaveBody(name: string): bool {
    name != "GET" && name != "HEAD"
  }

  // ----------------------------------------------------------------- methods

  /** The methods the helpers know about: those of a request spec, HEAD and OPTIONS. */
  const HTTP_METHODS: seq<string> := ["GET", "POST", "PUT", "PATCH", "DELETE", "HEAD", "OPTIONS"]

  /**
   * Every method of a request spec is among the known methods, and of all
   * the known methods exactly GET and HEAD cannot carry a body.
   */
  lemma KnownMethodsAndBodies(m: Method)
    ensures MethodName(m) in HTTP_METHODS
    ensures CanMethodHaveBody(MethodName(m)) <==> m != GET
    ensures forall i :: 0 <= i < |HTTP_METHODS| ==> (!CanMethodHaveBody(HTTP_METHODS[i]) <==> i == 0 || i == 5)
  {
  }

  /** What the table says of each known method after its opening "<method> requests ". */
  function MethodExplanationBody(name: string): string
    requires name in HTTP_METHODS
  {
    match name
    case "GET" => "are used to retrieve data from a specified resource. They should not change the state of the resource, making them safe and idempotent."
    case "POST" => "are used to submit data to be processed to a specified resource. They can change the state and are not idempotent."
    case "PUT" => "are used to send data to a server to create/update a resource. The difference between PUT and POST is that PUT requests are idempotent, meaning that multiple identical requests should have the same effect as a single one."
    case "PATCH" => "are used to apply partial modifications to a resource. Unlike PUT, PATCH is not idempotent, which means successive identical requests may have different effects."
    case "DELETE" => "are used to delete the specified resource. They change the state of the resource and are idempotent, as multiple identical requests will have the same effect."
    case "HEAD" => "are similar to GET requests, but without the response body. It is used to retrieve the headers for a specific resource, useful for checking if the resource exists before downloading it."
    case "OPTIONS" => "are used to describe the communication options for the target resource. It allows the client to determine the options and/or requirements associated with a resource, or the capabilities of a server, without implying a resource action."
  }

  /**
   * The explanation the table gives for each known method: every text opens
   * with the method's name and the word "requests".
   */
  function ListedMethodExplanation(name: string): (r: string)
    requires name in HTTP_METHODS
    ensures name + " requests " <= r
  {
    var opening := name + " requests ";
    var body := MethodExplanationBody(name);
    assert (opening + body)[..|opening|] == opening;
    opening + body
  }

  /**
   * A brief explanation of a method: the table's own, which names the
   * method, for a known method, and "" for any other.
   */
  function MethodExplanation(name: string): (r: string)
    ensures r != "" <==> name in HTTP_METHODS
    ensures name in HTTP_METHODS ==> name <= r
  {
    if name in HTTP_METHODS then
      var r := ListedMethodExplanation(name);
      assert r[..|name|] == name by {
        assert (name + " requests ")[..|name|] == name;
      }
      r
    else ""
  }

  // ------------------------------------------------------------ status codes

  /** The status codes both tables describe. */
  predicate IsKnownStatus(status: int) {
    || 100 <= status <= 103
    || 200 <= status <= 208 || status == 226
    || 300 <= status <= 305 || status == 307 || status == 308
    || 400 <= status <= 418 || 421 <= status <= 426 || status == 428 || status == 429
    || status == 431 || status == 451
    || 500 <= status <= 508 || status == 510 || status == 511
  }

  const UNKNOWN_STATUS_EXPLANATION: string := "Unknown status code"

  /** The reason phrase the table gives for each code it lists. */
  function ListedStatusText(status: int): (r: string)
    requires IsKnownStatus(status)
    ensures r != ""
  {
    match status
    case 100 => "Continue"
    case 101 => "Switching Protocols"
    case 102 => "Processing"
    case 103 => "Early Hints"
    case 200 => "OK"
    case 201 => "Created"
    case 202 => "Accepted"
    case 203 => "Non-Authoritative Information"
    case 204 => "No Content"
    case 205 => "Reset Content"
    case 206 => "Partial Content"
    case 207 => "Multi-Status"
    case 208 => "Already Reported"
    case 226 => "IM Used"
    case 300 => "Multiple Choices"
    case 301 => "Moved Permanently"
    case 302 => "Found"
    case 303 => "See Other"
    case 304 => "Not Modified"
    case 305 => "Use Proxy"
    case 307 => "Temporary Redirect"
    case 308 => "Permanent Redirect"
    case 400 => "Bad Request"
    case 401 => "Unauthorized"
    case 402 => "Payment Required"
    case 403 => "Forbidden"
    case 404 => "Not Found"
    case 405 => "Method Not Allowed"
    case 406 => "Not Acceptable"
    case 407 => "Proxy Authentication Required"
    case 408 => "Request Timeout"
    case 409 => "Conflict"
    case 410 => "Gone"
    case 411 => "Length Required"
    case 412 => "Precondition Failed"
    case 413 => "Payload Too Large"
    case 414 => "URI Too Long"
    case 415 => "Unsupported Media Type"
    case 416 => "Range Not Satisfiable"
    case 417 => "Expectation Failed"
    case 418 => "I'm a teapot"
    case 421 => "Misdirected Request"
    case 422 => "Unprocessable Entity"
    case 423 => "Locked"
    case 424 => "Failed Dependency"
    case 425 => "Too Early"
    case 426 => "Upgrade Required"
    case 428 => "Precondition Required"
    case 429 => "Too Many Requests"
    case 431 => "Request Header Fields Too Large"
    case 451 => "Unavailable For Legal Reasons"
    case 500 => "Internal Server Error"
    case 501 => "Not Implemented"
    case 502 => "Bad Gateway"
    case 503 => "Service Unavailable"
    case 504 => "Gateway Timeout"
    case 505 => "HTTP Version Not Supported"
    case 506 => "Variant Also Negotiates"
    case 507 => "Insufficient Storage"
    case 508 => "Loop Detected"
    case 510 => "Not Extended"
    case 511 => "Network Authentication Required"
  }

  /** The reason phrase of a status code; "" for a code the table does not list. */
  function StatusText(status: int): (r: string)
    ensures r != "" <==> IsKnownStatus(status)
    ensures r != "" ==> 100 <= status < 600
  {
    if IsKnownStatus(status) then ListedStatusText(status) else ""
  }

  /** The explanation the table gives for each code it lists. */
  function ListedStatusExplanation(status: int): string
    requires IsKnownStatus(status)
  {
    match status
    case 100 => "The initial part of a request has been received and has not yet been rejected by the server."
    case 101 => "The server understands and is willing to comply with the client's request, via the Upgrade message header field, for a change in the application protocol being used on this connection."
    case 102 => "Processing (WebDAV); the server has received and is processing the request, but no response is available yet."
    case 103 => "Early hints that the server is likely to send a final response with the header fields included in the informational response."
    case 200 => "The request has succeeded."
    case 201 => "The request has been fulfilled and has resulted in one or more new resources being created."
    case 202 => "The request has been accepted for processing, but the processing has not been completed."
    case 203 => "The request was successful but the enclosed payload has been modified from that of the origin server's 200 OK response by a transforming proxy."
    case 204 => "The server has successfully fulfilled the request and that there is no additional content to send in the response payload body."
    case 205 => "The server has fulfilled the request and desires that the user agent reset the 'document view', which caused the request to be sent, to its original state as received from the origin server."
    case 206 => "The server is delivering only part of the resource due to a range header sent by the client."
    case 207 => "Provides status for multiple independent operations (WebDAV)."
    case 208 => "Used inside a DAV: propstat response element to avoid enumerating the internal members of multiple bindings to the same collection repeatedly."
    case 226 => "The server has fulfilled a GET request for the resource, and the response is a representation of the result of one or more instance-manipulations applied to the current instance."
    case 300 => "The request has more than one possible response. The user-agent or user should choose one of them."
    case 301 => "The URI of the requested resource has been changed permanently. The new URI is given in the response."
    case 302 => "The URI of requested resource has been changed temporarily. New changes in the URI might be made in the future."
    case 303 => "The server sent this response to direct the client to get the requested resource at another URI with a GET request."
    case 304 => "This is used for caching purposes. It tells the client that the response has not been modified, so the client can continue to use the same cached version of the response."
    case 305 => "Defined by a previous version of the HTTP specification to indicate that a requested response must be accessed by a proxy. It has been deprecated due to security concerns regarding in-band configuration of a proxy."
    case 307 => "The server is sending this response to direct the client to get the requested resource at another URI with same method that was used in the prior request."
    case 308 => "This means that the resource is now permanently located at another URI, specified by the Location: HTTP Response header. This has the same semantics as the 301 Moved Permanently HTTP response code, with the exception that the user agent must not change the HTTP method used: if a POST was used in the first request, a POST must be used in the second request."
    case 400 => "The server cannot or will not process the request due to something that is perceived to be a client error (e.g., malformed request syntax, invalid request message framing, or deceptive request routing)."
    case 401 => "The request has not been applied because it lacks valid authentication credentials for the target resource."
    case 402 => "The initial aim for creating this code was using it for digital payment systems, however this status code is used very rarely and no standard convention exists."
    case 403 => "The server understood the request but refuses to authorize it."
    case 404 => "The server can't find the requested resource. Links which lead to a 404 page are often called broken or dead links."
    case 405 => "The request method is known by the server but has been disabled and cannot be used."
    case 406 => "The server cannot produce a response matching the list of acceptable values defined in the request's proactive content negotiation headers, and the server is unwilling to supply a default representation."
    case 407 => "Similar to 401 Unauthorized, but it indicates that the client needs to authenticate itself in order to use a proxy."
    case 408 => "The server would like to shut down this unused connection. It is sent on an idle connection by some servers, even without any previous request by the client."
    case 409 => "This response is sent when a request conflicts with the current state of the server."
    case 410 => "This response is sent when the requested content has been permanently deleted from server, with no forwarding address."
    case 411 => "The request did not specify the length of its content, which is required by the requested resource."
    case 412 => "The server does not meet one of the preconditions that the requester put on the request header fields."
    case 413 => "The request entity is larger than limits defined by server; the server might close the connection or return an Retry-After header field."
    case 414 => "The URI requested by the client is longer than the server is willing to interpret."
    case 415 => "The media format of the requested data is not supported by the server, so the server is rejecting the request."
    case 416 => "The range specified by the Range header field in the request can't be fulfilled; it's possible that the range is outside the size of the target URI's data."
    case 417 => "This response code means the expectation indicated by the Expect request header field can't be met by the server."
    case 418 => "The server refuses the attempt to brew coffee with a teapot."
    case 421 => "The request was directed at a server that is not able to produce a response. This can be sent by a server that is not configured to produce responses for the combination of scheme and authority that are included in the request URI."
    case 422 => "The request was well-formed but was unable to be followed due to semantic errors."
    case 423 => "The resource that is being accessed is locked."
    case 424 => "The request failed due to failure of a previous request."
    case 425 => "Indicates that the server is unwilling to risk processing a request that might be replayed."
    case 426 => "The server refuses to perform the request using the current protocol but might be willing to do so after the client upgrades to a different protocol."
    case 428 => "The origin server requires the request to be conditional."
    case 429 => "The user has sent too many requests in a given amount of time (\"rate limiting\")."
    case 431 => "The server is unwilling to process the request because its header fields are too large. The request MAY be resubmitted after reducing the size of the request header fields."
    case 451 => "The server is denying access to the resource as a consequence of a legal demand."
    case 500 => "The server encountered an unexpected condition that prevented it from fulfilling the request."
    case 501 => "The server does not support the functionality required to fulfill the request."
    case 502 => "The server, while acting as a gateway or proxy, received an invalid response from an inbound server it accessed in attempting to fulfill the request."
    case 503 => "The server is not ready to handle the request. Common causes are a server that is down for maintenance or that is overloaded."
    case 504 => "The server, while acting as a gateway or proxy, did not receive a timely response from an upstream server or some other auxiliary server it needed to access in order to complete the request."
    case 505 => "The server does not support, or refuses to support, the major version of HTTP that was used in the request message."
    case 506 => "The server has an internal configuration error: the chosen variant resource is configured to engage in transparent content negotiation itself, and is therefore not a proper end point in the negotiation process."
    case 507 => "The server is unable to store the representation needed to complete the request."
    case 508 => "The server detected an infinite loop while processing the request (sent in lieu of 208 Already Reported)."
    case 510 => "Further extensions to the request are required for the server to fulfill it."
    case 511 => "The client needs to authenticate to gain network access."
  }

  /**
   * A brief explanation of a status code: the table's own for a listed code,
   * a fixed text for any other.
   */
  function StatusExplanation(status: int): (r: string)
    ensures !IsKnownStatus(status) ==> r == UNKNOWN_STATUS_EXPLANATION
  {
    if IsKnownStatus(status) then ListedStatusExplanation(status) else UNKNOWN_STATUS_EXPLANATION
  }

  /**
   * The two status tables list the same codes: a code has a reason phrase
   * exactly when its explanation is not the fixed text for unknown codes.
   */
  lemma StatusTablesAgree(status: int)
    ensures StatusText(status) != "" <==> StatusExplanation(status) != UNKNOWN_STATUS_EXPLANATION
  {
    if IsKnownStatus(status) {
      ListedStatusExplained(status);
    }
  }

  /** No listed code is explained with the fixed text for unknown codes. */
  lemma ListedStatusExplained(status: int)
    requires IsKnownStatus(status)
    ensures ListedStatusExplanation(status) != UNKNOWN_STATUS_EXPLANATION
  {
    if status < 400 {
      ExplainedBelow400(status);
    } else if status < 420 {
      ExplainedFrom400To418(status);
    } else if status < 500 {
      ExplainedFrom421To451(status);
    } else {
      Explained5xx(status);
    }
  }

  /** The explanations of the 1xx, 2xx and 3xx codes, one by one. */
  lemma ExplainedBelow400(status: int)
    requires IsKnownStatus(status) && 100 <= status < 400
    ensures ListedStatusExplanation(status) != UNKNOWN_STATUS_EXPLANATION
  {
    match status
    case 100 => assert ListedStatusExplanation(100) != UNKNOWN_STATUS_EXPLANATION;
    case 101 => assert ListedStatusExplanation(101) != UNKNOWN_STATUS_EXPLANATION;
    case 102 => assert ListedStatusExplanation(102) != UNKNOWN_STATUS_EXPLANATION;
    case 103 => assert ListedStatusExplanation(103) != UNKNOWN_STATUS_EXPLANATION;
    case 200 => assert ListedStatusExplanation(200) != UNKNOWN_STATUS_EXPLANATION;
    case 201 => assert ListedStatusExplanation(201) != UNKNOWN_STATUS_EXPLANATION;
    case 202 => assert ListedStatusExplanation(202) != UNKNOWN_STATUS_EXPLANATION;
    case 203 => assert ListedStatusExplanation(203) != UNKNOWN_STATUS_EXPLANATION;
    case 204 => assert ListedStatusExplanation(204) != UNKNOWN_STATUS_EXPLANATION;
    case 205 => assert ListedStatusExplanation(205) != UNKNOWN_STATUS_EXPLANATION;
    case 206 => assert ListedStatusExplanation(206) != UNKNOWN_STATUS_EXPLANATION;
    case 207 => assert ListedStatusExplanation(207) != UNKNOWN_STATUS_EXPLANATION;
    case 208 => assert ListedStatusExplanation(208) != UNKNOWN_STATUS_EXPLANATION;
    case 226 => assert ListedStatusExplanation(226) != UNKNOWN_STATUS_EXPLANATION;
    case 300 => assert ListedStatusExplanation(300) != UNKNOWN_STATUS_EXPLANATION;
    case 301 => assert ListedStatusExplanation(301) != UNKNOWN_STATUS_EXPLANATION;
    case 302 => assert ListedStatusExplanation(302) != UNKNOWN_STATUS_EXPLANATION;
    case 303 => assert ListedStatusExplanation(303) != UNKNOWN_STATUS_EXPLANATION;
    case 304 => assert ListedStatusExplanation(304) != UNKNOWN_STATUS_EXPLANATION;
    case 305 => assert ListedStatusExplanation(305) != UNKNOWN_STATUS_EXPLANATION;
    case 307 => assert ListedStatusExplanation(307) != UNKNOWN_STATUS_EXPLANATION;
    case 308 => assert ListedStatusExplanation(308) != UNKNOWN_STATUS_EXPLANATION;
  }

  /** The explanations of the 4xx codes up to 418, one by one. */
  lemma ExplainedFrom400To418(status: int)
    requires IsKnownStatus(status) && 400 <= status < 420
    ensures ListedStatusExplanation(status) != UNKNOWN_STATUS_EXPLANATION
  {
    match status
    case 400 => assert ListedStatusExplanation(400) != UNKNOWN_STATUS_EXPLANATION;
    case 401 => assert ListedStatusExplanation(401) != UNKNOWN_STATUS_EXPLANATION;
    case 402 => assert ListedStatusExplanation(402) != UNKNOWN_STATUS_EXPLANATION;
    case 403 => assert ListedStatusExplanation(403) != UNKNOWN_STATUS_EXPLANATION;
    case 404 => assert ListedStatusExplanation(404) != UNKNOWN_STATUS_EXPLANATION;
    case 405 => assert ListedStatusExplanation(405) != UNKNOWN_STATUS_EXPLANATION;
    case 406 => assert ListedStatusExplanation(406) != UNKNOWN_STATUS_EXPLANATION;
    case 407 => assert ListedStatusExplanation(407) != UNKNOWN_STATUS_EXPLANATION;
    case 408 => assert ListedStatusExplanation(408) != UNKNOWN_STATUS_EXPLANATION;
    case 409 => assert ListedStatusExplanation(409) != UNKNOWN_STATUS_EXPLANATION;
    case 410 => assert ListedStatusExplanation(410) != UNKNOWN_STATUS_EXPLANATION;
    case 411 => assert ListedStatusExplanation(411) != UNKNOWN_STATUS_EXPLANATION;
    case 412 => assert ListedStatusExplanation(412) != UNKNOWN_STATUS_EXPLANATION;
    case 413 => assert ListedStatusExplanation(413) != UNKNOWN_STATUS_EXPLANATION;
    case 414 => assert ListedStatusExplanation(414) != UNKNOWN_STATUS_EXPLANATION;
    case 415 => assert ListedStatusExplanation(415) != UNKNOWN_STATUS_EXPLANATION;
    case 416 => assert ListedStatusExplanation(416) != UNKNOWN_STATUS_EXPLANATION;
    case 417 => assert ListedStatusExplanation(417) != UNKNOWN_STATUS_EXPLANATION;
    case 418 => assert ListedStatusExplanation(418) != UNKNOWN_STATUS_EXPLANATION;
  }

  /** The explanations of the 4xx codes from 421, one by one. */
  lemma ExplainedFrom421To451(status: int)
    requires IsKnownStatus(status) && 420 <= status < 500
    ensures ListedStatusExplanation(status) != UNKNOWN_STATUS_EXPLANATION
  {
    match status
    case 421 => assert ListedStatusExplanation(421) != UNKNOWN_STATUS_EXPLANATION;
    case 422 => assert ListedStatusExplanation(422) != UNKNOWN_STATUS_EXPLANATION;
    case 423 => assert ListedStatusExplanation(423) != UNKNOWN_STATUS_EXPLANATION;
    case 424 => assert ListedStatusExplanation(424) != UNKNOWN_STATUS_EXPLANATION;
    case 425 => assert ListedStatusExplanation(425) != UNKNOWN_STATUS_EXPLANATION;
    case 426 => assert ListedStatusExplanation(426) != UNKNOWN_STATUS_EXPLANATION;
    case 428 => assert ListedStatusExplanation(428) != UNKNOWN_STATUS_EXPLANATION;
    case 429 => assert ListedStatusExplanation(429) != UNKNOWN_STATUS_EXPLANATION;
    case 431 => assert ListedStatusExplanation(431) != UNKNOWN_STATUS_EXPLANATION;
    case 451 => assert ListedStatusExplanation(451) != UNKNOWN_STATUS_EXPLANATION;
  }

  /** The explanations of the 5xx codes, one by one. */
  lemma Explained5xx(status: int)
    requires IsKnownStatus(status) && 500 <= status < 600
    ensures ListedStatusExplanation(status) != UNKNOWN_STATUS_EXPLANATION
  {
    match status
    case 500 => assert ListedStatusExplanation(500) != UNKNOWN_STATUS_EXPLANATION;
    case 501 => assert ListedStatusExplanation(501) != UNKNOWN_STATUS_EXPLANATION;
    case 502 => assert ListedStatusExplanation(502) != UNKNOWN_STATUS_EXPLANATION;
    case 503 => assert ListedStatusExplanation(503) != UNKNOWN_STATUS_EXPLANATION;
    case 504 => assert ListedStatusExplanation(504) != UNKNOWN_STATUS_EXPLANATION;
    case 505 => assert ListedStatusExplanation(505) != UNKNOWN_STATUS_EXPLANATION;
    case 506 => assert ListedStatusExplanation(506) != UNKNOWN_STATUS_EXPLANATION;
    case 507 => assert ListedStatusExplanation(507) != UNKNOWN_STATUS_EXPLANATION;
    case 508 => assert ListedStatusExplanation(508) != UNKNOWN_STATUS_EXPLANATION;
    case 510 => assert ListedStatusExplanation(510) != UNKNOWN_STATUS_EXPLANATION;
    case 511 => assert ListedStatusExplanation(511) != UNKNOWN_STATUS_EXPLANATION;
  }

  /** A code the tables do not list has no reason phrase and the fixed explanation. */
  lemma UnlistedStatus(status: int)
    requires !IsKnownStatus(status)
    ensures StatusText(status) == "" && StatusExplanation(status) == UNKNOWN_STATUS_EXPLANATION
  {
  }

  /** Reason phrases exist exactly for the listed codes, all of them between 100 and 511. */
  lemma ListedStatusRange(status: int)
    ensures StatusText(status) != "" ==> 100 <= status <= 511
    ensures StatusText(200) == "OK" && StatusText(418) == "I'm a teapot" && StatusText(299) == ""
  {
  }
}
