/**
 * What the detector promises across several calls: the threshold scenario
 * end to end, the lifetime of a block and of a counter, the independence of
 * the two namespaces and of different addresses, and the exemption of the
 * loopback addresses.
 */
module Scenarios {
  import opened Wrappers
  import opened Cache
  import opened Detection
  import opened Http
  import opened Subscriber

  /** The not-found exception event of a request from `ip`. */
  function NotFound(ip: string): ExceptionEvent {
    ExceptionEvent(Request(Some(ip)), NotFoundHttpException)
  }

  /** Neither a counter nor a block marker is live for `ip`. */
  predicate Clean(s: Store, ip: string) {
    !s.Has(CountKey(ip)) && !s.Has(BlockKey(ip))
  }

  /**
   * Every pause between two consecutive not-found outcomes is shorter than
   * the counting window; the idle time before the first one is unrestricted.
   */
  predicate WithinWindow(gaps: seq<nat>) {
    forall i :: 1 <= i < |gaps| ==> gaps[i] < COUNT_WINDOW_SECONDS
  }

  /**
   * The cache after a burst of not-found outcomes from `ip`: before the
   * k-th outcome the clock moves on by `gaps[k]` seconds.
   */
  function Burst(s: Store, ip: string, thresholdOverride: Option<int>, gaps: seq<nat>): Store
    decreases |gaps|
  {
    if |gaps| == 0 then s
    else
      var before := Burst(s, ip, thresholdOverride, gaps[..|gaps| - 1]);
      ExceptionOutcome(before.Advance(gaps[|gaps| - 1]), NotFound(ip), thresholdOverride)
  }

  /**
   * The counting scheme: as long as no pause reaches the window, every
   * outcome adds one to the count (each write restarts the window), and the
   * address is blocked exactly once the count exceeds the threshold, the
   * block being refreshed by every later outcome.
   */
  lemma {:induction false} BurstCountsAndBlocks(s: Store, ip: string, thresholdOverride: Option<int>, gaps: seq<nat>)
    requires !IsSafeIP(Some(ip)) && Clean(s, ip) && WithinWindow(gaps)
    ensures var r := Burst(s, ip, thresholdOverride, gaps);
      GetErrorCount(r, ip) == |gaps| &&
      (Detection.IsIPBlocked(r, ip) <==> 0 < |gaps| && MaxAttempts(thresholdOverride) < |gaps|) &&
      (0 < |gaps| ==> r.entries[CountKey(ip)].expiresAt == r.now + COUNT_WINDOW_SECONDS) &&
      (Detection.IsIPBlocked(r, ip) ==> r.entries[BlockKey(ip)].expiresAt == r.now + BLOCK_DURATION_SECONDS)
  {
    if |gaps| > 0 {
      var prefix := gaps[..|gaps| - 1];
      var gap := gaps[|gaps| - 1];
      assert WithinWindow(prefix);
      BurstCountsAndBlocks(s, ip, thresholdOverride, prefix);
      var before := Burst(s, ip, thresholdOverride, prefix);
      var advanced := before.Advance(gap);
      assert GetErrorCount(advanced, ip) == |prefix|;
      assert Detection.IsIPBlocked(advanced, ip) <==> Detection.IsIPBlocked(before, ip);
    }
  }

  /** The gate after a burst: the next request from `ip` is turned away exactly when the count exceeds the threshold. */
  lemma GateAfterBurst(s: Store, ip: string, thresholdOverride: Option<int>, gaps: seq<nat>)
    requires !IsSafeIP(Some(ip)) && Clean(s, ip) && WithinWindow(gaps)
    ensures Rejects(Burst(s, ip, thresholdOverride, gaps), Request(Some(ip)))
            <==> 0 < |gaps| && MaxAttempts(thresholdOverride) < |gaps|
  {
    BurstCountsAndBlocks(s, ip, thresholdOverride, gaps);
  }

  /** With a threshold T of at least 0: T outcomes do not block, T + 1 outcomes do. */
  lemma ThresholdScenario(s: Store, ip: string, thresholdOverride: Option<int>, gaps: seq<nat>)
    requires !IsSafeIP(Some(ip)) && Clean(s, ip) && WithinWindow(gaps)
    requires 0 <= MaxAttempts(thresholdOverride)
    ensures |gaps| == MaxAttempts(thresholdOverride) ==>
      !Rejects(Burst(s, ip, thresholdOverride, gaps), Request(Some(ip)))
    ensures |gaps| == MaxAttempts(thresholdOverride) + 1 ==>
      Rejects(Burst(s, ip, thresholdOverride, gaps), Request(Some(ip)))
  {
    GateAfterBurst(s, ip, thresholdOverride, gaps);
  }

  /** The default threshold: after 20 back-to-back not-found outcomes 192.168.1.100 is still let in, after 21 it is not. */
  lemma DefaultThresholdExample(s: Store)
    requires Clean(s, "192.168.1.100")
    ensures !Rejects(Burst(s, "192.168.1.100", None, seq(20, _ => 0)), Request(Some("192.168.1.100")))
    ensures Rejects(Burst(s, "192.168.1.100", None, seq(21, _ => 0)), Request(Some("192.168.1.100")))
  {
    GateAfterBurst(s, "192.168.1.100", None, seq(20, _ => 0));
    GateAfterBurst(s, "192.168.1.100", None, seq(21, _ => 0));
  }

  /** However many not-found outcomes a loopback address has, no cache entry is written or removed. */
  lemma {:induction false} SafeAddressNeverRecorded(s: Store, ip: string, thresholdOverride: Option<int>, gaps: seq<nat>)
    requires IsSafeIP(Some(ip))
    ensures Burst(s, ip, thresholdOverride, gaps).entries == s.entries
  {
    if |gaps| > 0 {
      SafeAddressNeverRecorded(s, ip, thresholdOverride, gaps[..|gaps| - 1]);
    }
  }

  /** A not-found outcome from one address changes neither the count nor the block of any other address. */
  lemma OtherAddressUnaffected(s: Store, ip: string, other: string, thresholdOverride: Option<int>)
    requires ip != other
    ensures var r := ExceptionOutcome(s, NotFound(other), thresholdOverride);
      GetErrorCount(r, ip) == GetErrorCount(s, ip) &&
      (Detection.IsIPBlocked(r, ip) <==> Detection.IsIPBlocked(s, ip))
  {
    KeysInjective(ip, other);
    KeyNamespacesDisjoint(ip, other);
    KeyNamespacesDisjoint(other, ip);
    var r := ExceptionOutcome(s, NotFound(other), thresholdOverride);
    var touched := {CountKey(other), BlockKey(other)};
    if !IsSafeIP(Some(other)) {
      assert CountKey(ip) !in touched && BlockKey(ip) !in touched;
      assert s.Has(CountKey(ip)) <==> r.Has(CountKey(ip)) by {
        assert CountKey(ip) in s.entries <==> CountKey(ip) in s.entries - touched;
        assert CountKey(ip) in r.entries <==> CountKey(ip) in r.entries - touched;
      }
      assert s.Has(BlockKey(ip)) <==> r.Has(BlockKey(ip)) by {
        assert BlockKey(ip) in s.entries <==> BlockKey(ip) in s.entries - touched;
        assert BlockKey(ip) in r.entries <==> BlockKey(ip) in r.entries - touched;
      }
      if s.Has(CountKey(ip)) {
        assert (s.entries - touched)[CountKey(ip)] == s.entries[CountKey(ip)];
        assert (r.entries - touched)[CountKey(ip)] == r.entries[CountKey(ip)];
      }
    }
  }

  /** A block lasts 300 seconds from the check that wrote it, and no longer. */
  lemma BlockLifetime(s: Store, ip: string, thresholdOverride: Option<int>, dt: nat)
    requires CheckAndBlockIP(s, ip, thresholdOverride).blocked
    ensures Detection.IsIPBlocked(CheckAndBlockIP(s, ip, thresholdOverride).after.Advance(dt), ip)
            <==> dt < BLOCK_DURATION_SECONDS
  {
  }

  /** A counter lives 60 seconds from its last write: a later outcome continues it, an outcome after that starts again from 1. */
  lemma CountWindow(s: Store, ip: string, dt: nat)
    requires !IsSafeIP(Some(ip))
    ensures GetErrorCount(RecordScanAttempt(s, Some(ip)).Advance(dt), ip)
            == if dt < COUNT_WINDOW_SECONDS then GetErrorCount(s, ip) + 1 else 0
  {
  }

  /** The threshold is strict: a count equal to it does not block, one more does. */
  lemma ThresholdBoundary(s: Store, ip: string, thresholdOverride: Option<int>)
    requires !IsSafeIP(Some(ip))
    ensures GetErrorCount(s, ip) == MaxAttempts(thresholdOverride) ==>
      !CheckAndBlockIP(s, ip, thresholdOverride).blocked
    ensures GetErrorCount(s, ip) == MaxAttempts(thresholdOverride) + 1 ==>
      CheckAndBlockIP(s, ip, thresholdOverride).blocked
  {
  }

  /** Unblocking removes only the block: every count, and every other address's block, stay as they were. */
  lemma UnblockKeepsOthers(s: Store, ip: string, other: string)
    ensures GetErrorCount(UnblockIP(s, ip), other) == GetErrorCount(s, other)
    ensures other != ip ==>
      (Detection.IsIPBlocked(UnblockIP(s, ip), other) <==> Detection.IsIPBlocked(s, other))
  {
    KeyNamespacesDisjoint(ip, other);
    KeysInjective(ip, other);
    var r := UnblockIP(s, ip);
    assert CountKey(other) in s.entries <==> CountKey(other) in s.entries - {BlockKey(ip)};
    assert CountKey(other) in r.entries <==> CountKey(other) in r.entries - {BlockKey(ip)};
    if other != ip {
      assert BlockKey(other) in s.entries <==> BlockKey(other) in s.entries - {BlockKey(ip)};
      assert BlockKey(other) in r.entries <==> BlockKey(other) in r.entries - {BlockKey(ip)};
    }
  }

  /** Resetting removes only the count: every block, and every other address's count, stay as they were. */
  lemma ResetKeepsOthers(s: Store, ip: string, other: string)
    ensures Detection.IsIPBlocked(ResetErrorCount(s, ip), other) <==> Detection.IsIPBlocked(s, other)
    ensures other != ip ==> GetErrorCount(ResetErrorCount(s, ip), other) == GetErrorCount(s, other)
  {
    KeyNamespacesDisjoint(other, ip);
    KeysInjective(ip, other);
    var r := ResetErrorCount(s, ip);
    assert BlockKey(other) in s.entries <==> BlockKey(other) in s.entries - {CountKey(ip)};
    assert BlockKey(other) in r.entries <==> BlockKey(other) in r.entries - {CountKey(ip)};
    if other != ip {
      assert CountKey(other) in s.entries <==> CountKey(other) in s.entries - {CountKey(ip)};
      assert CountKey(other) in r.entries <==> CountKey(other) in r.entries - {CountKey(ip)};
    }
  }

  /**
   * The end-to-end flow through the listener and the service objects:
   * `|gaps|` not-found outcomes from `ip`, each after the first following a pause shorter than
   * the window, then one more request from `ip`, which is answered with the
   * 403 rejection exactly when the count exceeded the threshold.
   */
  method RepeatedNotFoundThenRequest(subscriber: ScanDetect404Subscriber, ip: string,
                                     thresholdOverride: Option<int>, gaps: seq<nat>)
    returns (event: RequestEvent)
    requires !IsSafeIP(Some(ip)) && Clean(subscriber.service.cache.State(), ip) && WithinWindow(gaps)
    modifies subscriber.service.cache
    ensures fresh(event) && event.request == Request(Some(ip))
    ensures event.response ==
      if 0 < |gaps| && MaxAttempts(thresholdOverride) < |gaps| then Some(SCAN_FORBIDDEN) else None
    ensures event.propagationStopped <==> 0 < |gaps| && MaxAttempts(thresholdOverride) < |gaps|
  {
    var cache := subscriber.service.cache;
    ghost var start := cache.State();
    var i := 0;
    while i < |gaps|
      invariant 0 <= i <= |gaps|
      invariant cache.State() == Burst(start, ip, thresholdOverride, gaps[..i])
    {
      cache.Advance(gaps[i]);
      subscriber.OnKernelException(NotFound(ip), thresholdOverride);
      assert gaps[..i + 1][..i] == gaps[..i];
      i := i + 1;
    }
    assert gaps[..i] == gaps;
    GateAfterBurst(start, ip, thresholdOverride, gaps);
    event := new RequestEvent(Request(Some(ip)));
    subscriber.OnKernelRequest(event);
  }
}
