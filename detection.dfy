/**
 * The detector's policy on values: the two key namespaces, the loopback
 * whitelist, the threshold, and the effect each operation of the scan
 * detection service has on the cache's state.
 */
module Detection {
  import opened Wrappers
  import opened Cache

  const BLOCK_PREFIX: string := "scan_detect_blocked_"
  const COUNT_PREFIX: string := "scan_detect_count_"
  const DEFAULT_MAX_ATTEMPTS: int := 20
  /** How long a block lasts, in seconds. */
  const BLOCK_DURATION_SECONDS: nat := 300
  /** How long a counter lives after its last write, in seconds. */
  const COUNT_WINDOW_SECONDS: nat := 60

  /** Addresses that are never counted, never checked and never blocked. */
  const SAFE_IPS: seq<string> := ["127.0.0.1", "::1"]

  function BlockKey(ip: string): string {
    BLOCK_PREFIX + ip
  }

  function CountKey(ip: string): string {
    COUNT_PREFIX + ip
  }

  /** The two namespaces never meet: the prefixes differ at their 13th character. */
  lemma KeyNamespacesDisjoint(a: string, b: string)
    ensures BlockKey(a) != CountKey(b)
  {
    assert BlockKey(a)[12] == 'b';
    assert CountKey(b)[12] == 'c';
  }

  /** Within a namespace, distinct addresses get distinct keys. */
  lemma KeysInjective(a: string, b: string)
    ensures BlockKey(a) == BlockKey(b) ==> a == b
    ensures CountKey(a) == CountKey(b) ==> a == b
  {
    assert BlockKey(a)[|BLOCK_PREFIX|..] == a && BlockKey(b)[|BLOCK_PREFIX|..] == b;
    assert CountKey(a)[|COUNT_PREFIX|..] == a && CountKey(b)[|COUNT_PREFIX|..] == b;
  }

  /**
   * A key is legal for a PSR-16 cache exactly when the address in it has
   * no reserved character: the prefixes themselves are legal.
   */
  lemma {:induction false} KeyLegality(ip: string)
    ensures LegalKey(BlockKey(ip)) <==> NoReservedCharacter(ip)
    ensures LegalKey(CountKey(ip)) <==> NoReservedCharacter(ip)
  {
    assert NoReservedCharacter(BLOCK_PREFIX) && NoReservedCharacter(COUNT_PREFIX);
    forall i | 0 <= i < |ip| ensures BlockKey(ip)[|BLOCK_PREFIX| + i] == ip[i] && CountKey(ip)[|COUNT_PREFIX| + i] == ip[i] {
    }
    if NoReservedCharacter(ip) {
      forall i | 0 <= i < |BlockKey(ip)| ensures BlockKey(ip)[i] !in RESERVED_KEY_CHARACTERS {
        if i >= |BLOCK_PREFIX| {
          assert BlockKey(ip)[i] == ip[i - |BLOCK_PREFIX|];
        }
      }
      forall i | 0 <= i < |CountKey(ip)| ensures CountKey(ip)[i] !in RESERVED_KEY_CHARACTERS {
        if i >= |COUNT_PREFIX| {
          assert CountKey(ip)[i] == ip[i - |COUNT_PREFIX|];
        }
      }
    }
  }

  /** An IPv4 address gives keys every PSR-16 cache accepts. */
  lemma Ipv4KeysLegal()
    ensures LegalKey(BlockKey("192.168.1.100")) && LegalKey(CountKey("192.168.1.100"))
  {
    var v4 := "192.168.1.100";
    forall i | 0 <= i < |v4| ensures v4[i] !in RESERVED_KEY_CHARACTERS {
      assert v4[i] == '.' || '0' <= v4[i] <= '9';
    }
    KeyLegality(v4);
  }

  /** A non-loopback IPv6 address, whose colons are reserved, gives keys a conforming cache rejects. */
  lemma Ipv6KeysIllegal()
    ensures !LegalKey(BlockKey("2001:0db8:85a3:0000:0000:8a2e:0370:7334"))
    ensures !LegalKey(CountKey("2001:0db8:85a3:0000:0000:8a2e:0370:7334"))
  {
    var v6 := "2001:0db8:85a3:0000:0000:8a2e:0370:7334";
    assert v6[4] == ':';
    KeyLegality(v6);
  }

  /** Strict membership of a possibly missing address in the whitelist: a missing address is not safe. */
  function IsSafeIP(ip: Option<string>): (safe: bool)
    ensures safe ==> ip.Some?
    ensures safe <==> ip == Some("127.0.0.1") || ip == Some("::1")
  {
    ip.Some? && ip.value in SAFE_IPS
  }

  /**
   * The threshold: the configured override when there is a numeric one
   * (already converted to an integer), the default 20 otherwise.
   */
  function MaxAttempts(thresholdOverride: Option<int>): (threshold: int)
    ensures thresholdOverride.Some? ==> threshold == thresholdOverride.value
    ensures thresholdOverride.None? ==> threshold == DEFAULT_MAX_ATTEMPTS
  {
    match thresholdOverride
    case Some(t) => t
    case None => DEFAULT_MAX_ATTEMPTS
  }

  /** Whether the service reports `ip` as blocked in state `s`. */
  predicate IsIPBlocked(s: Store, ip: string) {
    !IsSafeIP(Some(ip)) && s.Has(BlockKey(ip))
  }

  /** The error count the service reports for `ip` in state `s`. */
  function GetErrorCount(s: Store, ip: string): int {
    if IsSafeIP(Some(ip)) then 0 else s.Get(CountKey(ip), 0)
  }

  /**
   * Recording a not-found outcome: nothing for a missing or safe address;
   * otherwise the counter becomes its previous value plus one (a missing or
   * expired counter counts as 0), with the window restarted from now.
   */
  function RecordScanAttempt(s: Store, ip: Option<string>): (r: Store)
    ensures ip.None? || IsSafeIP(ip) ==> r == s
    ensures ip.Some? && !IsSafeIP(ip) ==>
      OnlyKeyChanged(s, r, CountKey(ip.value)) &&
      r.Has(CountKey(ip.value)) &&
      GetErrorCount(r, ip.value) == GetErrorCount(s, ip.value) + 1 &&
      r.entries[CountKey(ip.value)].expiresAt == s.now + COUNT_WINDOW_SECONDS
  {
    if IsSafeIP(ip) then s
    else if ip.None? then s
    else
      var key := CountKey(ip.value);
      var currentCount := s.Get(key, 0);
      s.Set(key, currentCount + 1, COUNT_WINDOW_SECONDS)
  }

  /** The state after a threshold check and whether it blocked. */
  datatype Checked = Checked(after: Store, blocked: bool)

  /**
   * Promotion to blocked: when the stored count strictly exceeds the
   * threshold, a block marker holding the current time is written for 300
   * seconds; otherwise nothing is written.
   */
  function CheckAndBlockIP(s: Store, ip: string, thresholdOverride: Option<int>): (r: Checked)
    ensures r.blocked <==> !IsSafeIP(Some(ip)) && GetErrorCount(s, ip) > MaxAttempts(thresholdOverride)
    ensures !r.blocked ==> r.after == s
    ensures r.blocked ==>
      OnlyKeyChanged(s, r.after, BlockKey(ip)) &&
      IsIPBlocked(r.after, ip) &&
      r.after.entries[BlockKey(ip)] == Entry(s.now, s.now + BLOCK_DURATION_SECONDS)
  {
    if IsSafeIP(Some(ip)) then Checked(s, false)
    else
      var maxAttempts := MaxAttempts(thresholdOverride);
      var errorCount := s.Get(CountKey(ip), 0);
      if errorCount > maxAttempts then
        Checked(s.Set(BlockKey(ip), s.now, BLOCK_DURATION_SECONDS), true)
      else
        Checked(s, false)
  }

  /** Manual unblock: removes the block marker, whatever the address. */
  function UnblockIP(s: Store, ip: string): (r: Store)
    ensures OnlyKeyChanged(s, r, BlockKey(ip))
    ensures BlockKey(ip) !in r.entries
    ensures !IsIPBlocked(r, ip)
  {
    s.Delete(BlockKey(ip))
  }

  /** Manual reset: removes the counter, whatever the address. */
  function ResetErrorCount(s: Store, ip: string): (r: Store)
    ensures OnlyKeyChanged(s, r, CountKey(ip))
    ensures CountKey(ip) !in r.entries
    ensures GetErrorCount(r, ip) == 0
  {
    s.Delete(CountKey(ip))
  }
}
