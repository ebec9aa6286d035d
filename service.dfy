/**
 * The scan detection service: the object that owns the cache and carries
 * out each operation as a short sequence of cache calls. Every method is
 * proved against the effect the Detection module gives it, and states the
 * exact calls it makes on the cache (which call, which key, which TTL, in
 * which order, or none at all).
 */
module Service {
  import opened Wrappers
  import opened Cache
  import opened Detection
  import opened Http

  /** `isIPBlocked`: no call for a safe address, otherwise one `has` on the block key. */
  function IsIPBlockedCalls(ip: string): seq<CacheCall> {
    if IsSafeIP(Some(ip)) then [] else [HasCall(BlockKey(ip))]
  }

  /** `recordScanAttempt`: nothing for a missing or safe address, otherwise `get` then `set` of the counter. */
  function RecordCalls(s: Store, ip: Option<string>): seq<CacheCall> {
    if ip.None? || IsSafeIP(ip) then []
    else
      var key := CountKey(ip.value);
      [GetCall(key, 0), SetCall(key, s.Get(key, 0) + 1, COUNT_WINDOW_SECONDS)]
  }

  /** `checkAndBlockIP`: nothing for a safe address, otherwise `get` of the counter, then `set` of the block marker when it blocks. */
  function CheckCalls(s: Store, ip: string, thresholdOverride: Option<int>): seq<CacheCall> {
    if IsSafeIP(Some(ip)) then []
    else
      [GetCall(CountKey(ip), 0)] +
      if CheckAndBlockIP(s, ip, thresholdOverride).blocked
      then [SetCall(BlockKey(ip), s.now, BLOCK_DURATION_SECONDS)]
      else []
  }

  /** `getErrorCount`: no call for a safe address, otherwise one `get` of the counter. */
  function GetErrorCountCalls(ip: string): seq<CacheCall> {
    if IsSafeIP(Some(ip)) then [] else [GetCall(CountKey(ip), 0)]
  }

  class ScanDetectService {
    const cache: ExpiringCache

    constructor (cache: ExpiringCache)
      ensures this.cache == cache
    {
      this.cache := cache;
    }

    method IsIPBlocked(ipAddress: string) returns (blocked: bool)
      modifies cache`calls
      ensures blocked == Detection.IsIPBlocked(cache.State(), ipAddress)
      ensures cache.calls == old(cache.calls) + IsIPBlockedCalls(ipAddress)
    {
      if IsSafeIP(Some(ipAddress)) {
        return false;
      }
      var key := BlockKey(ipAddress);
      blocked := cache.Has(key);
    }

    /** The status code is accepted and ignored, as in the service. */
    method RecordScanAttempt(request: Request, statusCode: int)
      modifies cache`entries, cache`calls
      ensures cache.State() == Detection.RecordScanAttempt(old(cache.State()), request.clientIp)
      ensures cache.calls == old(cache.calls) + RecordCalls(old(cache.State()), request.clientIp)
    {
      var ipAddress := request.clientIp;
      if IsSafeIP(ipAddress) {
        return;
      }
      if ipAddress.None? {
        return;
      }
      var key := CountKey(ipAddress.value);
      var currentCount := cache.Get(key, 0);
      var newCount := currentCount + 1;
      cache.Set(key, newCount, COUNT_WINDOW_SECONDS);
    }

    /** `thresholdOverride` is the numeric value of the threshold setting at the time of the call, if any. */
    method CheckAndBlockIP(ipAddress: string, thresholdOverride: Option<int>) returns (blocked: bool)
      modifies cache`entries, cache`calls
      ensures Detection.CheckAndBlockIP(old(cache.State()), ipAddress, thresholdOverride)
              == Checked(cache.State(), blocked)
      ensures cache.calls == old(cache.calls) + CheckCalls(old(cache.State()), ipAddress, thresholdOverride)
    {
      if IsSafeIP(Some(ipAddress)) {
        return false;
      }
      var maxAttempts := MaxAttempts(thresholdOverride);
      var key := CountKey(ipAddress);
      var errorCount := cache.Get(key, 0);
      if errorCount > maxAttempts {
        var blockKey := BlockKey(ipAddress);
        cache.Set(blockKey, cache.now, BLOCK_DURATION_SECONDS);
        return true;
      }
      return false;
    }

    /** No whitelist check: the block marker is deleted for any address. */
    method UnblockIP(ipAddress: string) returns (success: bool)
      modifies cache`entries, cache`calls
      ensures cache.State() == Detection.UnblockIP(old(cache.State()), ipAddress)
      ensures cache.calls == old(cache.calls) + [DeleteCall(BlockKey(ipAddress))]
      ensures success
    {
      var key := BlockKey(ipAddress);
      success := cache.Delete(key);
    }

    method GetErrorCount(ipAddress: string) returns (count: int)
      modifies cache`calls
      ensures count == Detection.GetErrorCount(cache.State(), ipAddress)
      ensures cache.calls == old(cache.calls) + GetErrorCountCalls(ipAddress)
    {
      if IsSafeIP(Some(ipAddress)) {
        return 0;
      }
      var key := CountKey(ipAddress);
      count := cache.Get(key, 0);
    }

    /** No whitelist check: the counter is deleted for any address. */
    method ResetErrorCount(ipAddress: string) returns (success: bool)
      modifies cache`entries, cache`calls
      ensures cache.State() == Detection.ResetErrorCount(old(cache.State()), ipAddress)
      ensures cache.calls == old(cache.calls) + [DeleteCall(CountKey(ipAddress))]
      ensures success
    {
      var key := CountKey(ipAddress);
      success := cache.Delete(key);
    }

    /** Legacy maintenance entry point: expiry is the cache's job, so nothing is removed. */
    function CleanupExpiredBlocks(): (removed: int)
      ensures removed == 0
    {
      0
    }

    /** Legacy maintenance entry point: nothing is stored persistently, so nothing is removed. */
    function CleanupOldRecords(days: int := 30): (removed: int)
      ensures removed == 0
    {
      0
    }
  }
}
