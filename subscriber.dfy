/**
 * The kernel listener around the service: a gate on every request and a
 * recorder on every exception.
 */
module Subscriber {
  import opened Wrappers
  import opened Cache
  import opened Detection
  import opened Http
  import opened Service

  /** Whether the request gate turns away `request` when the cache is in state `s`. */
  predicate Rejects(s: Store, request: Request) {
    request.clientIp.Some? && Detection.IsIPBlocked(s, request.clientIp.value)
  }

  /** Whether an exception event reaches the service: a not-found exception with a client address. */
  predicate IsScanAttempt(event: ExceptionEvent) {
    event.throwable.NotFoundHttpException? && event.request.clientIp.Some?
  }

  /**
   * The effect of the exception listener on the cache: a not-found outcome
   * from a known, non-safe address adds one to its count and blocks it for
   * 300 seconds as soon as the new count exceeds the threshold; anything
   * else leaves the cache alone. No other address's keys change.
   */
  function ExceptionOutcome(s: Store, event: ExceptionEvent, thresholdOverride: Option<int>): (r: Store)
    ensures !IsScanAttempt(event) || IsSafeIP(event.request.clientIp) ==> r == s
    ensures IsScanAttempt(event) && !IsSafeIP(event.request.clientIp) ==>
      var ip := event.request.clientIp.value;
      var newCount := GetErrorCount(s, ip) + 1;
      r.now == s.now &&
      r.entries - {CountKey(ip), BlockKey(ip)} == s.entries - {CountKey(ip), BlockKey(ip)} &&
      GetErrorCount(r, ip) == newCount &&
      CountKey(ip) in r.entries &&
      r.entries[CountKey(ip)].expiresAt == s.now + COUNT_WINDOW_SECONDS &&
      (Detection.IsIPBlocked(r, ip) <==> Detection.IsIPBlocked(s, ip) || MaxAttempts(thresholdOverride) < newCount) &&
      (MaxAttempts(thresholdOverride) < newCount ==>
        r.entries[BlockKey(ip)] == Entry(s.now, s.now + BLOCK_DURATION_SECONDS)) &&
      (newCount <= MaxAttempts(thresholdOverride) ==>
        r.entries - {CountKey(ip)} == s.entries - {CountKey(ip)})
  {
    if !event.throwable.NotFoundHttpException? then s
    else if event.request.clientIp.None? then s
    else
      var ip := event.request.clientIp.value;
      var recorded := Detection.RecordScanAttempt(s, event.request.clientIp);
      KeyNamespacesDisjoint(ip, ip);
      Detection.CheckAndBlockIP(recorded, ip, thresholdOverride).after
  }

  /** The cache calls of the exception listener: those of `recordScanAttempt`, then those of `checkAndBlockIP`. */
  function ExceptionCalls(s: Store, event: ExceptionEvent, thresholdOverride: Option<int>): seq<CacheCall> {
    if !IsScanAttempt(event) then []
    else
      var ip := event.request.clientIp;
      RecordCalls(s, ip) + CheckCalls(Detection.RecordScanAttempt(s, ip), ip.value, thresholdOverride)
  }

  class ScanDetect404Subscriber {
    const service: ScanDetectService

    constructor (service: ScanDetectService)
      ensures this.service == service
    {
      this.service := service;
    }

    /**
     * The gate: a request without a client address is let through without
     * asking the service; a blocked address gets the 403 `ScanForbidden`
     * response and stops propagation; any other request is left as it is.
     */
    method OnKernelRequest(event: RequestEvent)
      modifies event`response, event`propagationStopped, service.cache`calls
      ensures Rejects(service.cache.State(), event.request) ==>
        event.response == Some(SCAN_FORBIDDEN) && event.propagationStopped
      ensures !Rejects(service.cache.State(), event.request) ==>
        event.response == old(event.response) && event.propagationStopped == old(event.propagationStopped)
      ensures service.cache.calls == old(service.cache.calls) +
        if event.request.clientIp.None? then [] else IsIPBlockedCalls(event.request.clientIp.value)
    {
      var ipAddress := event.request.clientIp;
      if ipAddress.None? {
        return;
      }
      var blocked := service.IsIPBlocked(ipAddress.value);
      if blocked {
        var response := Response(403, "ScanForbidden");
        event.SetResponse(response);
        event.StopPropagation();
      }
    }

    /**
     * The recorder: only a not-found exception with a client address is
     * passed on, first to `recordScanAttempt` (with status 404) and then to
     * `checkAndBlockIP` for the same address.
     */
    method OnKernelException(event: ExceptionEvent, thresholdOverride: Option<int>)
      modifies service.cache`entries, service.cache`calls
      ensures service.cache.State() == ExceptionOutcome(old(service.cache.State()), event, thresholdOverride)
      ensures service.cache.calls ==
        old(service.cache.calls) + ExceptionCalls(old(service.cache.State()), event, thresholdOverride)
    {
      if !event.throwable.NotFoundHttpException? {
        return;
      }
      var ipAddress := event.request.clientIp;
      if ipAddress.None? {
        return;
      }
      service.RecordScanAttempt(event.request, 404);
      var _ := service.CheckAndBlockIP(ipAddress.value, thresholdOverride);
    }
  }
}
