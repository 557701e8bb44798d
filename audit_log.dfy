/** The per-request audit record the interceptor fills in (the `SoapAuditLog` domain model). */
module AuditLog {
  import opened Wrappers

  /** Outcome classes of one SOAP exchange. */
  datatype RequestStatus = SUCCESS | FAULT | ERROR

  /**
   * One audit record. Every Java field is a nullable reference, so each is an
   * `Option`; the storage-assigned `id` is not part of the core and is omitted.
   * Times are milliseconds; `requestDate` is an abstract local date-time reading.
   */
  datatype SoapAuditLog = SoapAuditLog(
    ipOrigin: Option<string>,
    requestDate: Option<int>,
    soapMethod: Option<string>,
    startTime: Option<int>,
    durationMs: Option<int>,
    requestPayload: Option<string>,
    responsePayload: Option<string>,
    status: Option<RequestStatus>,
    errorMessage: Option<string>,
    endpointClass: Option<string>)

  /** `SoapAuditLog.builder().build()`: every field null. */
  const EmptyLog: SoapAuditLog :=
    SoapAuditLog(None, None, None, None, None, None, None, None, None, None)
}
