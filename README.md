# Scan detection: a verified model

This project models the per-IP scan detector of the Symfony scan-detect bundle.
Each "not found" outcome of a request adds one to a per-address counter in an
expiring cache, under the key `scan_detect_count_<ip>`. The counter lives 60
seconds from its last write. When a check finds the counter strictly above
the threshold, the address is blocked: a marker `scan_detect_blocked_<ip>`
holding the current time is written for 300 seconds. Every incoming request
from a blocked address is answered with status 403 and body `ScanForbidden`,
and the request event stops propagating. The loopback addresses `127.0.0.1`
and `::1` are never counted, checked or blocked. The threshold defaults to 20
and can be overridden by a numeric configuration value.

Layout, one module per file:

- `wrappers.dfy` (`Wrappers`): `Option`.
- `cache.dfy` (`Cache`): the PSR-16 cache as a value `Store` (entries with
  expiry instants, plus the clock) and as the shared object `ExpiringCache`.
  The object records, as ghost state, every `has`/`get`/`set`/`delete` call
  made on it, so the service's contracts can say which keys it touches, with
  which TTL, in which order, or that it touches none.
- `detection.dfy` (`Detection`): the key prefixes, the whitelist, the
  threshold, and the effect of each service operation on a `Store`.
- `http.dfy` (`Http`): request, response, throwable kinds, the exception
  event (read only) and the request event (whose response and propagation
  flag a listener sets).
- `service.dfy` (`Service`): the class `ScanDetectService`. Its methods make
  the cache calls in the source's order. Each is proved against its
  `Detection` function and states its exact call sequence.
- `subscriber.dfy` (`Subscriber`): the class `ScanDetect404Subscriber` with
  the request gate and the not-found recorder, and the recorder's combined
  effect on the cache.
- `scenarios.dfy` (`Scenarios`): properties across several calls. These cover
  the threshold scenario end to end (as lemmas and as a method driving the
  objects), block and counter lifetimes, namespace and address independence,
  and the loopback exemption.

Time is the cache's clock `now`. The timestamp the service writes into a
block marker reads that clock. Time passes only through `Advance`. The
threshold override is passed to each call that needs it, as `Option<int>`.
It stands for the numeric setting read when the call is made.

## Model

| member | source | states |
|---|---|---|
| `Detection.KeyNamespacesDisjoint` | src/Service/ScanDetectService.php:18-19 | no block key equals any count key, because the two prefixes differ |
| `Detection.KeysInjective` | src/Service/ScanDetectService.php:38 | different addresses get different block keys and different count keys |
| `Detection.KeyLegality` | src/Service/ScanDetectService.php:59 | a block key and a count key are legal PSR-16 keys exactly when the address contains none of the reserved characters `{}()/\@:` |
| `Detection.Ipv4KeysLegal` | src/Service/ScanDetectService.php:38 | the keys of the IPv4 address `192.168.1.100` are legal PSR-16 keys |
| `Detection.Ipv6KeysIllegal` | src/Service/ScanDetectService.php:38 | the keys of the IPv6 address `2001:0db8:85a3:0000:0000:8a2e:0370:7334` are not legal PSR-16 keys |
| `Detection.IsSafeIP` | src/Service/ScanDetectService.php:146-152 | an address is safe exactly when it is `127.0.0.1` or `::1`; a missing address is not safe |
| `Detection.MaxAttempts` | src/Service/ScanDetectService.php:157-166 | the threshold is the numeric override when one is given, 20 otherwise |
| `Detection.RecordScanAttempt` | src/Service/ScanDetectService.php:46-65 | a missing or safe address leaves the cache unchanged; otherwise only the count key changes, it is live, the reported count is the old one (0 when absent or expired) plus one, and it expires 60 s from now |
| `Detection.CheckAndBlockIP` | src/Service/ScanDetectService.php:70-89 | blocks exactly when the address is not safe and its count strictly exceeds the threshold; if it blocks, only the block key changes, to the current time with expiry now + 300, and the address is then blocked; otherwise the cache is unchanged |
| `Detection.UnblockIP` | src/Service/ScanDetectService.php:94-99 | only the block key changes, and it is deleted for every address, loopback included (no whitelist check), so the address is no longer blocked |
| `Detection.ResetErrorCount` | src/Service/ScanDetectService.php:118-123 | only the count key changes, and it is deleted for every address, loopback included (no whitelist check), so the reported count becomes 0 |
| `Service.ScanDetectService.IsIPBlocked` | src/Service/ScanDetectService.php:32-41 | returns whether the address is blocked; makes no cache call for a safe address, otherwise exactly one `has` on the block key; the cache contents are unchanged |
| `Service.ScanDetectService.RecordScanAttempt` | src/Service/ScanDetectService.php:46-65 | the new cache state is the `Detection.RecordScanAttempt` effect; makes no call for a missing or safe address, otherwise a `get` of the count key with default 0, then a `set` of old + 1 with TTL 60 |
| `Service.ScanDetectService.CheckAndBlockIP` | src/Service/ScanDetectService.php:70-89 | result and new state are those of `Detection.CheckAndBlockIP`; makes no call for a safe address, otherwise a `get` of the count key, then, only when blocking, a `set` of the block key to the current time with TTL 300 |
| `Service.ScanDetectService.UnblockIP` | src/Service/ScanDetectService.php:94-99 | makes exactly one `delete`, of the block key, and returns the cache's success flag (true) |
| `Service.ScanDetectService.GetErrorCount` | src/Service/ScanDetectService.php:104-113 | returns 0 for a safe address without a cache call; otherwise makes one `get` of the count key and returns the stored count, or 0 when absent |
| `Service.ScanDetectService.ResetErrorCount` | src/Service/ScanDetectService.php:118-123 | makes exactly one `delete`, of the count key, and returns the cache's success flag (true) |
| `Service.ScanDetectService.CleanupExpiredBlocks` | src/Service/ScanDetectService.php:128-132 | always returns 0; as a function without a reads clause it cannot read or change the cache |
| `Service.ScanDetectService.CleanupOldRecords` | src/Service/ScanDetectService.php:137-141 | always returns 0 for any number of days (30 when omitted), and cannot read or change the cache |
| `Subscriber.ExceptionOutcome` | src/EventSubscriber/ScanDetect404Subscriber.php:43-61 | another exception kind, a missing address or a safe address leaves the cache unchanged; otherwise the count goes up by one with a fresh 60 s window, the address ends up blocked iff it already was or the new count exceeds the threshold, a new block expires 300 s from now, a check below the threshold leaves every entry but the count exactly as it was (an existing block included), and no other address's key changes |
| `Subscriber.ScanDetect404Subscriber.OnKernelRequest` | src/EventSubscriber/ScanDetect404Subscriber.php:26-40 | with a missing address, asks nothing and changes nothing; with a blocked address, sets the 403 `ScanForbidden` response and stops propagation; otherwise leaves the response and the propagation flag as they were |
| `Subscriber.ScanDetect404Subscriber.OnKernelException` | src/EventSubscriber/ScanDetect404Subscriber.php:43-61 | the new cache state is `ExceptionOutcome`; the calls made are none unless the event is a not-found exception with an address, and then those of recording followed by those of the threshold check on the same address |
| `Scenarios.BurstCountsAndBlocks` | src/Service/ScanDetectService.php:58-88 | after n not-found outcomes from a clean, non-safe address, with any idle time before the first and every later pause under 60 s, the count is n, the address is blocked iff n > 0 and n > threshold, the counter expires 60 s after the last outcome, and a block expires 300 s after it |
| `Scenarios.GateAfterBurst` | src/EventSubscriber/ScanDetect404Subscriber.php:35-39 | after such a burst, the next request from that address is turned away iff n > 0 and n > threshold |
| `Scenarios.ThresholdScenario` | src/Service/ScanDetectService.php:80-85 | with a threshold T ≥ 0, T outcomes do not block the next request and T + 1 outcomes do |
| `Scenarios.DefaultThresholdExample` | src/Service/ScanDetectService.php:20 | with the default threshold, `192.168.1.100` is still admitted after 20 back-to-back outcomes and rejected after 21 |
| `Scenarios.SafeAddressNeverRecorded` | src/Service/ScanDetectService.php:49-51 | any number of not-found outcomes from a loopback address neither writes nor removes any cache entry |
| `Scenarios.OtherAddressUnaffected` | src/Service/ScanDetectService.php:77-83 | a not-found outcome from one address changes neither the count nor the block state of any other address |
| `Scenarios.BlockLifetime` | src/Service/ScanDetectService.php:81-83 | a block written by a check stays in force for exactly the next 300 s |
| `Scenarios.CountWindow` | src/Service/ScanDetectService.php:63-64 | after a recorded attempt the count is old + 1 for the next 60 s and 0 afterwards |
| `Scenarios.ThresholdBoundary` | src/Service/ScanDetectService.php:80 | a count equal to the threshold does not block; a count of threshold + 1 does |
| `Scenarios.UnblockKeepsOthers` | src/Service/ScanDetectService.php:94-99 | unblocking leaves every count and every other address's block unchanged |
| `Scenarios.ResetKeepsOthers` | src/Service/ScanDetectService.php:118-123 | resetting a count leaves every block and every other address's count unchanged |
| `Scenarios.RepeatedNotFoundThenRequest` | src/EventSubscriber/ScanDetect404Subscriber.php:26-61 | driving the listener objects through n not-found outcomes and then one request gives that request the 403 response and stopped propagation iff n > 0 and n > threshold, and no response otherwise |

## Left out

- Client address resolution (remote address, forwarded headers, trusted proxies) belongs to the framework's request object; a request carries its resolved address or none.
- The threshold setting is read from the process environment in the service. Here it is an `Option<int>` parameter holding the value after the numeric test and integer conversion. Conversions of strings such as "3.5" or "1e3" are not modelled.
- The cache backend's eviction strategy and the real wall clock are not modelled. An item is visible while the clock is strictly before its expiry instant, and the clock is an explicit `now`.
- Cache failures are not modelled. The service has no error handling around its cache calls, so no fail-open path is added. For the same reason `delete` always reports success, and `UnblockIP` and `ResetErrorCount` return true whether or not the key existed.
- Key legality is stated (`LegalKey`, `KeyLegality`) but not enforced: the model's cache accepts every key. PSR-16 reserves `:`, so for a non-loopback IPv6 client a conforming backend rejects the keys and its `has`/`get`/`set`/`delete` throw an invalid-argument exception. The service does not catch it, so it would leave the request and exception listeners. The model instead counts and blocks IPv6 clients like any other. Whether a given backend enforces the rule is outside the model.
- `RecordScanAttempt` does not model PHP integer overflow: at the largest platform integer, `count + 1` becomes a float in PHP, while here the count is an unbounded integer.
- The lost update between concurrent read-then-write calls of `RecordScanAttempt` is a concurrency matter; the model is sequential.
- The legacy cleanup console command only prints fixed text and calls the two cleanup operations, so it is not modelled; the bundle class and the dependency-injection extension are framework wiring and are not modelled either.
- The status code argument of `RecordScanAttempt` is accepted and ignored, as in the service.
