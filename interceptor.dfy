/**
 * The SOAP audit interceptor: four hooks around each dispatched request that
 * share one per-request slot holding the audit record being built.
 */
module Interceptor {
  import opened Wrappers
  import opened JavaText
  import opened Exceptions
  import opened AuditLog

  // ----- What the hooks can observe of a request -----

  /** The DOM root of a request payload; `localName` is null for nodes created without a namespace. */
  datatype DomNode = DomNode(localName: Option<string>)

  /** `SoapBody.getPayloadSource()`: a DOMSource (whose node may be null) or another Source kind. */
  datatype PayloadSource = DomSource(node: Option<DomNode>) | OtherSource

  /** A SOAP fault in a body, with its `getFaultStringOrReason()`. */
  datatype SoapFaultView = SoapFaultView(faultStringOrReason: Option<string>)

  datatype SoapBody = SoapBody(payloadSource: PayloadSource, fault: Option<SoapFaultView>)

  /**
   * A WebServiceMessage: the text `writeTo` produces (decoded as UTF-8), or the
   * exception it throws; and its body when the message is a SoapMessage whose
   * `getSoapBody()` is non-null (`None` otherwise).
   */
  datatype WsMessage = WsMessage(written: Call<string>, soapBody: Option<SoapBody>)

  /** The MessageContext: `getRequest()` and `getResponse()`, each of which may throw. */
  datatype MessageContext = MessageContext(request: Call<WsMessage>, response: Call<WsMessage>)

  /** The endpoint object passed to the hooks; a MethodEndpoint knows its method's declaring class. */
  datatype Endpoint = NullEndpoint | MethodEndpoint(declaringClassSimpleName: string) | OtherEndpoint

  /** The servlet request bound to the current thread: header fields in arrival order and the remote address. */
  datatype HttpRequest = HttpRequest(headers: seq<(string, string)>, remoteAddr: string)

  // ----- Client-IP resolution -----

  /** The proxy headers consulted, in order. */
  const ProxyHeaders: seq<string> :=
    ["X-Forwarded-For", "X-Real-IP", "Proxy-Client-IP", "WL-Proxy-Client-IP", "HTTP_CLIENT_IP", "HTTP_X_FORWARDED_FOR"]

  /** `getHeader(name)`: the first field whose name matches ignoring case, or null. */
  function GetHeader(headers: seq<(string, string)>, name: string): (v: Option<string>)
    ensures v.Some? ==> exists i :: 0 <= i < |headers| && EqualsIgnoreCase(headers[i].0, name) && headers[i].1 == v.value
                                   && forall j :: 0 <= j < i ==> !EqualsIgnoreCase(headers[j].0, name)
    ensures v.None? <==> forall i :: 0 <= i < |headers| ==> !EqualsIgnoreCase(headers[i].0, name)
  {
    if |headers| == 0 then None
    else if EqualsIgnoreCase(headers[0].0, name) then Some(headers[0].1)
    else GetHeader(headers[1..], name)
  }

  /** A header value that the scan accepts: present, non-empty, and not "unknown" in any case. */
  predicate Usable(v: Option<string>) {
    v.Some? && |v.value| > 0 && !EqualsIgnoreCase("unknown", v.value)
  }

  function ProxyValue(h: HttpRequest, i: nat): Option<string>
    requires i < |ProxyHeaders|
  {
    GetHeader(h.headers, ProxyHeaders[i])
  }

  /** The index of the first usable proxy header at or after `from`. */
  function FirstUsable(h: HttpRequest, from: nat): (r: Option<nat>)
    requires from <= |ProxyHeaders|
    ensures r.Some? ==> from <= r.value < |ProxyHeaders| && Usable(ProxyValue(h, r.value))
    ensures r.Some? ==> forall j :: from <= j < r.value ==> !Usable(ProxyValue(h, j))
    ensures r.None? ==> forall j :: from <= j < |ProxyHeaders| ==> !Usable(ProxyValue(h, j))
    decreases |ProxyHeaders| - from
  {
    if from == |ProxyHeaders| then None
    else if Usable(ProxyValue(h, from)) then Some(from)
    else FirstUsable(h, from + 1)
  }

  /** The text before the first comma (all of `s` when it has none). */
  function BeforeFirstComma(s: string): (r: string)
    ensures |r| <= |s| && r == s[..|r|]
    ensures forall i :: 0 <= i < |r| ==> r[i] != ','
    ensures |r| < |s| ==> s[|r|] == ','
  {
    if |s| == 0 || s[0] == ',' then "" else [s[0]] + BeforeFirstComma(s[1..])
  }

  predicate OnlyCommas(s: string) {
    forall i :: 0 <= i < |s| ==> s[i] == ','
  }

  /**
   * `ip.split(",")[0].trim()`. `split` drops trailing empty strings, so a
   * non-empty value made only of commas gives an empty array and the indexing
   * throws (`None`); the empty string splits into `[""]`; otherwise element 0
   * is the text before the first comma.
   */
  function FirstToken(ip: string): (r: Option<string>)
    ensures r.None? <==> |ip| > 0 && OnlyCommas(ip)
    ensures |ip| == 0 ==> r == Some("")
  {
    if |ip| > 0 && OnlyCommas(ip) then None else Some(Trim(BeforeFirstComma(ip)))
  }

  /**
   * `extractClientIp()`, as a value: `None` when it throws (no request bound
   * to the thread, or a comma-only header value), else the resolved address.
   */
  function ClientIp(http: Option<HttpRequest>): Option<string> {
    match http
    case None => None
    case Some(h) =>
      match FirstUsable(h, 0)
      case Some(i) => FirstToken(ProxyValue(h, i).value)
      case None => Some(h.remoteAddr)
  }

  /**
   * Client-IP resolution: with no bound request it throws; otherwise the first
   * usable proxy header in the fixed order decides, through its first
   * comma-separated token, and the remote address is the fallback.
   */
  lemma {:induction false} ClientIpResolution(h: HttpRequest, i: nat)
    ensures ClientIp(None).None?
    ensures (forall j :: 0 <= j < |ProxyHeaders| ==> !Usable(ProxyValue(h, j))) ==> ClientIp(Some(h)) == Some(h.remoteAddr)
    ensures i < |ProxyHeaders| && Usable(ProxyValue(h, i)) && (forall j :: 0 <= j < i ==> !Usable(ProxyValue(h, j)))
            ==> ClientIp(Some(h)) == FirstToken(ProxyValue(h, i).value)
  {
    if i < |ProxyHeaders| && Usable(ProxyValue(h, i)) && (forall j :: 0 <= j < i ==> !Usable(ProxyValue(h, j))) {
      FirstUsableIs(h, 0, i);
    }
  }

  /** The scan from `from` stops at `i` when `i` is the first usable header from there. */
  lemma {:induction false} FirstUsableIs(h: HttpRequest, from: nat, i: nat)
    requires from <= i < |ProxyHeaders| && Usable(ProxyValue(h, i))
    requires forall j :: from <= j < i ==> !Usable(ProxyValue(h, j))
    ensures FirstUsable(h, from) == Some(i)
    decreases i - from
  {
    if from < i {
      FirstUsableIs(h, from + 1, i);
    }
  }

  /** The scan over the proxy headers with its early return. */
  method ExtractClientIp(http: Option<HttpRequest>) returns (ip: Option<string>)
    ensures ip == ClientIp(http)
  {
    if http.None? {
      return None;
    }
    var h := http.value;
    var i := 0;
    while i < |ProxyHeaders|
      invariant 0 <= i <= |ProxyHeaders|
      invariant forall j :: 0 <= j < i ==> !Usable(ProxyValue(h, j))
      invariant FirstUsable(h, i) == FirstUsable(h, 0)
    {
      var value := GetHeader(h.headers, ProxyHeaders[i]);
      if value.Some? && |value.value| > 0 && !EqualsIgnoreCase("unknown", value.value) {
        return FirstToken(value.value);
      }
      i := i + 1;
    }
    return Some(h.remoteAddr);
  }

  // ----- Payload capture -----

  const MaxPayloadLength := 10000
  const TruncationMarker := "... [TRUNCATED]"
  const PayloadErrorPrefix := "Error extracting payload: "

  /** The length cap applied to a captured payload. */
  function Truncate(p: string): (r: string)
    ensures |p| <= MaxPayloadLength ==> r == p
    ensures |p| > MaxPayloadLength ==> r == p[..MaxPayloadLength] + TruncationMarker
    ensures |r| <= MaxPayloadLength + |TruncationMarker|
  {
    if |p| > MaxPayloadLength then p[..MaxPayloadLength] + TruncationMarker else p
  }

  /** Capping an already capped payload changes nothing. */
  lemma TruncateIdempotent(p: string)
    ensures Truncate(Truncate(p)) == Truncate(p)
  {
    if |p| > MaxPayloadLength {
      var r := Truncate(p);
      assert r[..MaxPayloadLength] == p[..MaxPayloadLength];
    }
  }

  /** `extractPayload(message)`: never throws; a failed `writeTo` yields a diagnostic text. */
  function ExtractPayload(m: WsMessage): (r: string)
    ensures m.written.Returns? ==> r == Truncate(m.written.value)
    ensures m.written.Throws? ==> r == PayloadErrorPrefix + JavaString(m.written.ex.Message())
  {
    match m.written
    case Returns(p) => Truncate(p)
    case Throws(e) => PayloadErrorPrefix + JavaString(e.Message())
  }

  // ----- Request information -----

  /** `findHandlerMethod(endpoint)`, reduced to the simple name of the method's declaring class. */
  function FindHandlerMethod(endpoint: Endpoint): (r: Option<string>)
    ensures r.Some? <==> endpoint.MethodEndpoint?
  {
    match endpoint
    case MethodEndpoint(c) => Some(c)
    case _ => None
  }

  /** The DOM root node of a SOAP request body, when the payload source is a DOMSource with a node. */
  function PayloadRoot(m: WsMessage): Option<DomNode> {
    if m.soapBody.Some? && m.soapBody.value.payloadSource.DomSource? then m.soapBody.value.payloadSource.node
    else None
  }

  /** `extractSoapInfo`: the operation name from the payload root, the endpoint class from the handler. */
  function ExtractSoapInfo(m: WsMessage, log: SoapAuditLog, endpoint: Endpoint): (r: SoapAuditLog)
    ensures r.soapMethod == if PayloadRoot(m).Some? then PayloadRoot(m).value.localName else log.soapMethod
    ensures r.endpointClass == if endpoint.MethodEndpoint? then Some(endpoint.declaringClassSimpleName) else log.endpointClass
    ensures r.(soapMethod := log.soapMethod, endpointClass := log.endpointClass) == log
  {
    var withMethod := if PayloadRoot(m).Some? then log.(soapMethod := PayloadRoot(m).value.localName) else log;
    var method_ := FindHandlerMethod(endpoint);
    if method_.Some? then withMethod.(endpointClass := method_) else withMethod
  }

  /**
   * The record `handleRequest` builds, or `None` when a step throws before the
   * record is stored (client-IP resolution or `getRequest()`).
   */
  function OpenRecord(ctx: MessageContext, endpoint: Endpoint, http: Option<HttpRequest>, dateTime: int, now: int)
    : (r: Option<SoapAuditLog>)
    ensures r.Some? <==> ClientIp(http).Some? && ctx.request.Returns?
  {
    var ip := ClientIp(http);
    if ip.None? || ctx.request.Throws? then None
    else
      var log := EmptyLog.(ipOrigin := ip, requestDate := Some(dateTime), startTime := Some(now),
                           requestPayload := Some(ExtractPayload(ctx.request.value)));
      Some(ExtractSoapInfo(ctx.request.value, log, endpoint))
  }

  /**
   * What an opened record holds: the IP, the request date, the start time, the
   * captured request payload, soapMethod and endpointClass; and no status,
   * duration, response payload or error message yet.
   */
  lemma OpenRecordContents(ctx: MessageContext, endpoint: Endpoint, http: Option<HttpRequest>, dateTime: int, now: int)
    requires OpenRecord(ctx, endpoint, http, dateTime, now).Some?
    ensures var r := OpenRecord(ctx, endpoint, http, dateTime, now).value;
      && r.ipOrigin == ClientIp(http)
      && r.startTime == Some(now)
      && r.requestDate == Some(dateTime)
      && r.requestPayload == Some(ExtractPayload(ctx.request.value))
      && r.status.None? && r.durationMs.None?
      && r.responsePayload.None? && r.errorMessage.None?
      && r.endpointClass == FindHandlerMethod(endpoint)
      && r.soapMethod == (if PayloadRoot(ctx.request.value).Some? then PayloadRoot(ctx.request.value).value.localName else None)
  {
  }

  // ----- The hooks as transitions of the slot -----

  /** `handleResponse`: with a record, store the response payload and mark SUCCESS. */
  function Responded(slot: Option<SoapAuditLog>, response: Call<WsMessage>): (s: Option<SoapAuditLog>)
    ensures slot.None? ==> s.None?
    ensures response.Throws? ==> s == slot
    ensures slot.Some? && response.Returns? ==>
              s == Some(slot.value.(responsePayload := Some(ExtractPayload(response.value)), status := Some(SUCCESS)))
  {
    match slot
    case None => None
    case Some(log) =>
      match response
      case Throws(_) => slot
      case Returns(m) => Some(log.(responsePayload := Some(ExtractPayload(m))).(status := Some(SUCCESS)))
  }

  /** The fault reason of a response, when it is a SOAP message whose body holds a fault. */
  function FaultReason(m: WsMessage): Option<Option<string>> {
    if m.soapBody.Some? && m.soapBody.value.fault.Some? then Some(m.soapBody.value.fault.value.faultStringOrReason)
    else None
  }

  /**
   * `handleFault`: with a record, mark FAULT first, then store the response
   * payload, then copy the fault reason when the response carries a SOAP fault.
   * If `getResponse()` throws, only the FAULT mark has happened.
   */
  function Faulted(slot: Option<SoapAuditLog>, response: Call<WsMessage>): (s: Option<SoapAuditLog>)
    ensures slot.None? ==> s.None?
    ensures slot.Some? ==> s.Some? && s.value.status == Some(FAULT)
    ensures slot.Some? && response.Throws? ==> s == Some(slot.value.(status := Some(FAULT)))
    ensures slot.Some? && response.Returns? ==>
              && s.value.responsePayload == Some(ExtractPayload(response.value))
              && s.value.errorMessage == FaultReason(response.value).GetOr(slot.value.errorMessage)
  {
    match slot
    case None => None
    case Some(log) =>
      var marked := log.(status := Some(FAULT));
      match response
      case Throws(_) => Some(marked)
      case Returns(m) =>
        var captured := marked.(responsePayload := Some(ExtractPayload(m)));
        match FaultReason(m)
        case Some(reason) => Some(captured.(errorMessage := reason))
        case None => Some(captured)
  }

  /**
   * The record `afterCompletion` hands to the audit service: the duration is
   * filled in and a passed exception overrides status and message. `None` when
   * the record has no start time (the subtraction would throw).
   */
  function Completed(log: SoapAuditLog, ex: Option<JavaException>, now: int): (r: Option<SoapAuditLog>)
    ensures r.Some? <==> log.startTime.Some?
    ensures r.Some? ==> r.value.durationMs == Some(now - log.startTime.value)
    ensures r.Some? && ex.Some? ==> r.value.status == Some(ERROR) && r.value.errorMessage == ex.value.Message()
    ensures r.Some? && ex.Some? ==>
              r.value == log.(durationMs := r.value.durationMs, status := Some(ERROR), errorMessage := ex.value.Message())
    ensures r.Some? && ex.None? ==> r.value == log.(durationMs := r.value.durationMs)
  {
    match log.startTime
    case None => None
    case Some(start) =>
      var timed := log.(durationMs := Some(now - start));
      match ex
      case None => Some(timed)
      case Some(e) => Some(timed.(status := Some(ERROR)).(errorMessage := e.Message()))
  }

  /** What one `afterCompletion` call submits: at most one record, none when the hand-off is rejected. */
  function HandOff(slot: Option<SoapAuditLog>, ex: Option<JavaException>, now: int, rejected: bool)
    : (out: seq<SoapAuditLog>)
    ensures |out| <= 1
    ensures |out| == 1 <==> slot.Some? && slot.value.startTime.Some? && !rejected
    ensures |out| == 1 ==> Some(out[0]) == Completed(slot.value, ex, now)
  {
    if slot.Some? && !rejected then
      match Completed(slot.value, ex, now)
      case Some(log) => [log]
      case None => []
    else []
  }

  // ----- The interceptor object -----

  /**
   * The interceptor. `slot` is the thread-local record of the request in
   * flight; `submitted` is every record handed to the audit service so far.
   */
  class SoapAuditInterceptor {
    var slot: Option<SoapAuditLog>
    ghost var submitted: seq<SoapAuditLog>

    constructor ()
      ensures slot.None? && submitted == []
    {
      slot := None;
      submitted := [];
    }

    /** `handleRequest`: open a record; any internal exception is swallowed and the chain proceeds. */
    method HandleRequest(ctx: MessageContext, endpoint: Endpoint, http: Option<HttpRequest>, dateTime: int, now: int)
      returns (proceed: bool)
      modifies this
      ensures proceed
      ensures slot == if OpenRecord(ctx, endpoint, http, dateTime, now).Some?
                      then OpenRecord(ctx, endpoint, http, dateTime, now) else old(slot)
      ensures submitted == old(submitted)
    {
      var ip := ExtractClientIp(http);
      if ip.None? {
        return true;
      }
      if ctx.request.Throws? {
        return true;
      }
      var log := EmptyLog.(ipOrigin := ip);
      log := log.(requestDate := Some(dateTime));
      log := log.(startTime := Some(now));
      log := log.(requestPayload := Some(ExtractPayload(ctx.request.value)));
      log := ExtractSoapInfo(ctx.request.value, log, endpoint);
      slot := Some(log);
      return true;
    }

    /** `handleResponse`. */
    method HandleResponse(ctx: MessageContext) returns (proceed: bool)
      modifies this
      ensures proceed
      ensures slot == Responded(old(slot), ctx.response)
      ensures submitted == old(submitted)
    {
      if slot.Some? {
        if ctx.response.Throws? {
          return true;
        }
        var log := slot.value;
        log := log.(responsePayload := Some(ExtractPayload(ctx.response.value)));
        log := log.(status := Some(SUCCESS));
        slot := Some(log);
      }
      return true;
    }

    /** `handleFault`. */
    method HandleFault(ctx: MessageContext) returns (proceed: bool)
      modifies this
      ensures proceed
      ensures slot == Faulted(old(slot), ctx.response)
      ensures submitted == old(submitted)
    {
      if slot.Some? {
        slot := Some(slot.value.(status := Some(FAULT)));
        if ctx.response.Throws? {
          return true;
        }
        var m := ctx.response.value;
        slot := Some(slot.value.(responsePayload := Some(ExtractPayload(m))));
        if m.soapBody.Some? && m.soapBody.value.fault.Some? {
          slot := Some(slot.value.(errorMessage := m.soapBody.value.fault.value.faultStringOrReason));
        }
      }
      return true;
    }

    /**
     * `afterCompletion`: complete and submit the record, if any; `rejected`
     * says whether the asynchronous hand-off throws. Every exception is caught
     * and the slot is cleared on every path.
     */
    method AfterCompletion(ex: Option<JavaException>, now: int, rejected: bool)
      modifies this
      ensures slot.None?
      ensures submitted == old(submitted) + HandOff(old(slot), ex, now, rejected)
    {
      if slot.Some? {
        var log := slot.value;
        if log.startTime.Some? {
          log := log.(durationMs := Some(now - log.startTime.value));
          if ex.Some? {
            log := log.(status := Some(ERROR));
            log := log.(errorMessage := ex.value.Message());
          }
          if !rejected {
            submitted := submitted + [log];
          }
        }
      }
      slot := None;
    }
  }

  // ----- One request, end to end -----

  /** Which hook the dispatcher runs after the endpoint: response, fault, or neither (the endpoint threw). */
  datatype Outcome = ResponseHook | FaultHook | NoHook

  function AfterEndpoint(slot: Option<SoapAuditLog>, outcome: Outcome, response: Call<WsMessage>): Option<SoapAuditLog> {
    match outcome
    case ResponseHook => Responded(slot, response)
    case FaultHook => Faulted(slot, response)
    case NoHook => slot
  }

  /**
   * What one request submits, from the slot it starts with and the record
   * `handleRequest` opens (if any): then at most one of the response and fault
   * hooks runs, then `afterCompletion`.
   */
  function Lifecycle(slot0: Option<SoapAuditLog>, openedNow: Option<SoapAuditLog>, outcome: Outcome,
                     response: Call<WsMessage>, ex: Option<JavaException>, end: int, rejected: bool)
    : (out: seq<SoapAuditLog>)
  {
    var slot1 := if openedNow.Some? then openedNow else slot0;
    HandOff(AfterEndpoint(slot1, outcome, response), ex, end, rejected)
  }

  /** The response and fault hooks keep what the request hook recorded. */
  lemma AfterEndpointKeepsRequestFields(log: SoapAuditLog, outcome: Outcome, response: Call<WsMessage>)
    ensures AfterEndpoint(Some(log), outcome, response).Some?
    ensures var r := AfterEndpoint(Some(log), outcome, response).value;
      && r.ipOrigin == log.ipOrigin && r.requestDate == log.requestDate && r.startTime == log.startTime
      && r.requestPayload == log.requestPayload && r.soapMethod == log.soapMethod
      && r.endpointClass == log.endpointClass && r.durationMs == log.durationMs
  {
    match outcome
    case ResponseHook =>
    case NoHook =>
    case FaultHook =>
      var marked := log.(status := Some(FAULT));
      match response
      case Throws(_) =>
      case Returns(m) =>
        var captured := marked.(responsePayload := Some(ExtractPayload(m)));
        assert Faulted(Some(log), response) == Some(captured) || Faulted(Some(log), response) == Some(captured.(errorMessage := FaultReason(m).value));
  }

  /**
   * Exactly-once auditing: a request whose record was opened on a clean thread
   * submits one record unless the hand-off is rejected; a request whose record
   * could not be opened submits nothing.
   */
  lemma {:induction false} OnePerRequest(ctx: MessageContext, endpoint: Endpoint, http: Option<HttpRequest>,
                                         dateTime: int, start: int, outcome: Outcome, ex: Option<JavaException>,
                                         end: int, rejected: bool)
    ensures var openedLog := OpenRecord(ctx, endpoint, http, dateTime, start);
      |Lifecycle(None, openedLog, outcome, ctx.response, ex, end, rejected)| == (if openedLog.Some? && !rejected then 1 else 0)
  {
    var openedLog := OpenRecord(ctx, endpoint, http, dateTime, start);
    if openedLog.Some? {
      AfterEndpointKeepsRequestFields(openedLog.value, outcome, ctx.response);
    }
  }

  /**
   * The record submitted for an opened record `log`: it keeps the request-side
   * fields, gets the elapsed time, and its status follows the path taken (an
   * exception wins over the hooks; a response hook whose `getResponse()`
   * throws leaves the status unset).
   */
  lemma {:induction false} CompletedAfterHooks(log: SoapAuditLog, outcome: Outcome, response: Call<WsMessage>,
                                               ex: Option<JavaException>, end: int)
    requires log.status.None? && log.startTime.Some?
    ensures var out := HandOff(AfterEndpoint(Some(log), outcome, response), ex, end, false);
      && |out| == 1
      && out[0].ipOrigin == log.ipOrigin && out[0].requestPayload == log.requestPayload
      && out[0].soapMethod == log.soapMethod && out[0].endpointClass == log.endpointClass
      && out[0].startTime == log.startTime && out[0].durationMs == Some(end - log.startTime.value)
      && (end >= log.startTime.value ==> out[0].durationMs.value >= 0)
      && (ex.Some? ==> out[0].status == Some(ERROR) && out[0].errorMessage == ex.value.Message())
      && (ex.None? && outcome == FaultHook ==> out[0].status == Some(FAULT))
      && (ex.None? && outcome == ResponseHook ==> out[0].status == (if response.Returns? then Some(SUCCESS) else None))
      && (ex.None? && outcome == NoHook ==> out[0].status.None?)
  {
    AfterEndpointKeepsRequestFields(log, outcome, response);
    var hooked := AfterEndpoint(Some(log), outcome, response).value;
    var done := Completed(hooked, ex, end).value;
    assert HandOff(Some(hooked), ex, end, false) == [done];
  }

  /** Runs one request through the hooks on an interceptor. */
  method Exchange(a: SoapAuditInterceptor, ctx: MessageContext, endpoint: Endpoint, http: Option<HttpRequest>,
                  dateTime: int, start: int, outcome: Outcome, ex: Option<JavaException>, end: int, rejected: bool)
    modifies a
    ensures a.slot.None?
    ensures a.submitted == old(a.submitted) + Lifecycle(old(a.slot), OpenRecord(ctx, endpoint, http, dateTime, start), outcome, ctx.response, ex, end, rejected)
  {
    var _ := a.HandleRequest(ctx, endpoint, http, dateTime, start);
    match outcome {
      case ResponseHook =>
        var _ := a.HandleResponse(ctx);
      case FaultHook =>
        var _ := a.HandleFault(ctx);
      case NoHook =>
    }
    a.AfterCompletion(ex, end, rejected);
  }
}
