/** The fixed-window rate limiter and the request-size guard. A rejected
    request gets 429 Too Many Requests (section 4 of RFC 6585) with a
    Retry-After header in delay-seconds (section 10.2.3 of RFC 9110); an
    oversized body gets 413 Content Too Large (section 15.5.14 of RFC 9110). */
module Security {
  import opened Wrappers
  import opened Text

  /** A limiter's configuration. */
  datatype Config = Config(windowMs: int, maxRequests: int)

  /** One key's counter and the moment its window opened. */
  datatype RateRecord = RateRecord(count: int, lastReset: int)

  /** The decision for one request: allowed with the record to store, or
      rejected with the seconds to wait. */
  datatype Verdict = Allow(record: RateRecord) | Reject(retryAfter: int)

  /** `Math.ceil(x / d)` for a positive divisor. */
  function CeilDiv(x: int, d: int): (q: int)
    requires d > 0
    ensures (q - 1) * d < x <= q * d
  {
    -((-x) / d)
  }

  /** The client address: `x-forwarded-for`, else `x-real-ip`, else "unknown"
      (an empty header counts as absent). */
  function ClientIp(forwardedFor: string, realIp: string): (ip: string)
    ensures forwardedFor != "" ==> ip == forwardedFor
    ensures forwardedFor == "" && realIp != "" ==> ip == realIp
    ensures forwardedFor == "" && realIp == "" ==> ip == "unknown"
  {
    if forwardedFor != "" then forwardedFor else if realIp != "" then realIp else "unknown"
  }

  /** The store key: address and path joined by a colon. */
  function Key(ip: string, pathname: string): (k: string)
    ensures |k| == |ip| + 1 + |pathname| && k[..|ip|] == ip && k[|ip|] == ':' && k[|ip| + 1..] == pathname
  {
    ip + ":" + pathname
  }

  /** For one address, different paths have different keys, so each path is
      limited on its own. */
  lemma KeySeparatesPaths(ip: string, p: string, q: string)
    ensures Key(ip, p) == Key(ip, q) <==> p == q
  {
    if Key(ip, p) == Key(ip, q) {
      assert p == Key(ip, p)[|ip| + 1..];
    }
  }

  /** The decision for a key given its record. A window expires strictly after
      `windowMs`; at the limit the record is left as it was. */
  function Decide(record: Option<RateRecord>, cfg: Config, now: int): (v: Verdict)
    ensures (record.None? || now - record.value.lastReset > cfg.windowMs) ==> v == Allow(RateRecord(1, now))
    ensures record.Some? && now - record.value.lastReset <= cfg.windowMs ==>
      if record.value.count >= cfg.maxRequests
      then v.Reject? && (v.retryAfter - 1) * 1000 < cfg.windowMs - (now - record.value.lastReset) <= v.retryAfter * 1000
      else v == Allow(record.value.(count := record.value.count + 1))
    ensures v.Reject? ==> v.retryAfter >= 0
  {
    if record.None? || now - record.value.lastReset > cfg.windowMs then Allow(RateRecord(1, now))
    else if record.value.count >= cfg.maxRequests then
      Reject(CeilDiv(cfg.windowMs - (now - record.value.lastReset), 1000))
    else Allow(record.value.(count := record.value.count + 1))
  }

  /** The 429 response: status, the body's `error` and `retryAfter`, and the
      `Retry-After` header text. */
  datatype TooManyRequests = TooManyRequests(code: int, error: string, retryAfter: int, retryAfterHeader: string)

  function Rejection(retryAfter: int): (t: TooManyRequests)
    ensures t.code == 429 && t.error == "Too Many Requests" && t.retryAfter == retryAfter
    ensures t.retryAfterHeader == IntToString(retryAfter)
  {
    TooManyRequests(429, "Too Many Requests", retryAfter, IntToString(retryAfter))
  }

  /** The `Retry-After` header is a decimal numeral that reads back as the
      body's `retryAfter`. */
  lemma RetryAfterHeaderAgrees(record: Option<RateRecord>, cfg: Config, now: int)
    requires Decide(record, cfg, now).Reject?
    ensures var t := Rejection(Decide(record, cfg, now).retryAfter);
      AllDigits(t.retryAfterHeader) && ParseInt(t.retryAfterHeader) == Some(t.retryAfter)
  {
    ParseIntToString(Decide(record, cfg, now).retryAfter);
  }

  /** Every stored count is between 1 and `limit`. */
  ghost predicate Bounded(store: map<string, RateRecord>, limit: int) {
    forall k :: k in store ==> 1 <= store[k].count <= limit
  }

  /** The module-level map shared by every limiter. */
  class RateLimiter {
    var store: map<string, RateRecord>

    constructor ()
      ensures store == map[]
    {
      store := map[];
    }

    /** One request through a limiter with configuration `cfg`; a rejection
        is the 429 response with the seconds to wait. Only the request's own key is read or
        written. */
    method Check(cfg: Config, forwardedFor: string, realIp: string, pathname: string, now: int)
      returns (rejected: Option<TooManyRequests>)
      modifies this
      ensures var key := Key(ClientIp(forwardedFor, realIp), pathname);
        var v := Decide(if key in old(store) then Some(old(store)[key]) else None, cfg, now);
        && (v.Allow? ==> rejected.None? && store == old(store)[key := v.record])
        && (v.Reject? ==> rejected == Some(Rejection(v.retryAfter)) && store == old(store))
      ensures forall k :: k != Key(ClientIp(forwardedFor, realIp), pathname) ==>
        (k in store <==> k in old(store)) && (k in store ==> store[k] == old(store)[k])
      ensures forall limit :: limit >= 1 && cfg.maxRequests <= limit && old(Bounded(store, limit)) ==> Bounded(store, limit)
    {
      var ip := ClientIp(forwardedFor, realIp);
      var key := Key(ip, pathname);
      var record := if key in store then Some(store[key]) else None;
      if record.None? || now - record.value.lastReset > cfg.windowMs {
        store := store[key := RateRecord(1, now)];
        return None;
      }
      if record.value.count >= cfg.maxRequests {
        return Some(Rejection(CeilDiv(cfg.windowMs - (now - record.value.lastReset), 1000)));
      }
      store := store[key := record.value.(count := record.value.count + 1)];
      return None;
    }
  }

  /** How many of a key's successive requests are allowed, starting from its
      record. */
  function AllowedCount(record: Option<RateRecord>, cfg: Config, times: seq<int>): nat
    decreases |times|
  {
    if |times| == 0 then 0
    else match Decide(record, cfg, times[0])
      case Allow(r) => 1 + AllowedCount(Some(r), cfg, times[1..])
      case Reject(_) => AllowedCount(record, cfg, times[1..])
  }

  /** Inside one window a key that has used `count` requests gets at most
      `maxRequests - count` more. */
  lemma {:induction false} WithinWindowBound(count: int, lastReset: int, cfg: Config, times: seq<int>)
    requires count >= 1
    requires forall i :: 0 <= i < |times| ==> times[i] - lastReset <= cfg.windowMs
    ensures AllowedCount(Some(RateRecord(count, lastReset)), cfg, times) <=
      if cfg.maxRequests > count then cfg.maxRequests - count else 0
    decreases |times|
  {
    if |times| > 0 {
      assert forall i :: 0 <= i < |times[1..]| ==> times[1..][i] == times[i + 1];
      if count < cfg.maxRequests {
        WithinWindowBound(count + 1, lastReset, cfg, times[1..]);
      } else {
        WithinWindowBound(count, lastReset, cfg, times[1..]);
      }
    }
  }

  /** A fresh key whose later requests all fall in the window opened by its
      first request is allowed at most `maxRequests` of them (and always the
      first). */
  lemma FirstWindowBound(cfg: Config, times: seq<int>)
    requires |times| >= 1
    requires forall i :: 1 <= i < |times| ==> times[i] - times[0] <= cfg.windowMs
    ensures 1 <= AllowedCount(None, cfg, times) <= if cfg.maxRequests >= 1 then cfg.maxRequests else 1
  {
    assert forall i :: 0 <= i < |times[1..]| ==> times[1..][i] == times[i + 1];
    WithinWindowBound(1, times[0], cfg, times[1..]);
  }

  /** The default body limit, 1 MiB, used when no limit is given. */
  const DefaultMaxSize := 1024 * 1024

  /** A 413 rejection: status and the message naming the limit. */
  datatype TooLarge = TooLarge(code: int, message: string)

  /** `validateContentLength(maxSize)`: reject exactly when the header is
      present and its integer value exceeds the limit; `None` for `maxSize`
      is the omitted argument. */
  function ValidateContentLength(contentLength: string, maxSize: Option<int>): (r: Option<TooLarge>)
    ensures var limit := if maxSize.Some? then maxSize.value else DefaultMaxSize;
      && (r.Some? <==> contentLength != "" && ParseInt(contentLength).Some? && ParseInt(contentLength).value > limit)
      && (r.Some? ==> r.value.code == 413)
      && (r.Some? ==> r.value.message == "Request body exceeds maximum size of " + IntToString(limit) + " bytes")
  {
    var limit := if maxSize.Some? then maxSize.value else DefaultMaxSize;
    var n := ParseInt(contentLength);
    if contentLength != "" && n.Some? && n.value > limit
    then Some(TooLarge(413, "Request body exceeds maximum size of " + IntToString(limit) + " bytes"))
    else None
  }

  /** A declared length is rejected exactly when it is above the limit; the
      limit itself is allowed. */
  lemma DeclaredLengthAgainstLimit(n: int, maxSize: int)
    ensures ValidateContentLength(IntToString(n), Some(maxSize)).Some? <==> n > maxSize
  {
    ParseIntToString(n);
  }

  /** Without an explicit limit a body of one mebibyte passes and one byte more
      is refused. */
  lemma DefaultLimitIsOneMebibyte()
    ensures ValidateContentLength(IntToString(1048576), None).None?
    ensures ValidateContentLength(IntToString(1048577), None).Some?
  {
    ParseIntToString(1048576);
    ParseIntToString(1048577);
  }
}
