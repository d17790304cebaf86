/**
 * The Python backend's audit trail: a newest-first log of at most 1000
 * entries and the dashboard's windowed counters over it. The entry id (a
 * fresh uuid), the clock and the ISO-8601 parser are parameters.
 */
module AuditService {
  import opened Wrappers
  import opened Text
  import opened BoundedLog

  const MAX_LOGS: nat := 1000
  const DEFAULT_SOURCE := "SYSTEM"
  const DEFAULT_LIMIT: int := 100
  const HOUR: real := 3600.0
  const DAY: real := 86400.0

  /** Event types that count as an authentication attempt. */
  const AUTH_TYPES: seq<string> := ["VERIFY_SUCCESS", "VERIFY_FAIL", "AUTH_SUCCESS", "AUTH_FAILURE"]
  /** Event types that count as a denial. */
  const DENIAL_TYPES: seq<string> := ["VERIFY_FAIL", "ACCESS_DENIED", "AUTH_FAILURE"]

  /** `t in AUTH_TYPES`. */
  predicate IsAuthType(t: string) {
    t in AUTH_TYPES
  }

  /** `t in DENIAL_TYPES`. */
  predicate IsDenialType(t: string) {
    t in DENIAL_TYPES
  }

  datatype LogEntry = LogEntry(id: string, timestamp: string, severity: string, eventType: string,
                               username: Option<string>, sourceIp: string, details: string)

  /** The dashboard cards; the timeline is always empty, so its buckets are not modelled. */
  datatype MetricSummary = MetricSummary(totalAuths1h: nat, accessDenied24h: nat, activeThreats: nat,
                                         threatsDetected24h: nat, timeline: seq<string>)

  /** `datetime.fromisoformat(ts).timestamp()`, `None` where it raises `ValueError`. */
  type Parser = string -> Option<real>

  /** Python's `s[:limit]`: a negative `limit` counts back from the end. */
  function SlicePrefix<T>(s: seq<T>, limit: int): (r: seq<T>)
    ensures |r| <= |s| && r == s[..|r|]
    ensures limit >= 0 ==> |r| == Min(limit, |s|)
    ensures limit < 0 ==> |r| == (if |s| + limit > 0 then |s| + limit else 0)
  {
    if limit >= |s| then s
    else if limit >= 0 then s[..limit]
    else if |s| + limit > 0 then s[..|s| + limit]
    else []
  }

  /** The stamp lies in the window of `width` seconds that ends at `now`. */
  predicate Within(stamp: Option<real>, now: real, width: real) {
    stamp.Some? && stamp.value > now - width
  }

  /** The entry's timestamp parses and lies within the last day. */
  predicate OfLastDay(e: LogEntry, parse: Parser, now: real) {
    Within(parse(e.timestamp), now, DAY)
  }

  /** Counted in `total_auths_1h`: an authentication type within the last day and the last hour. */
  predicate IsRecentAuth(e: LogEntry, parse: Parser, now: real) {
    Within(parse(e.timestamp), now, DAY) && IsAuthType(e.eventType) && Within(parse(e.timestamp), now, HOUR)
  }

  /** Counted in `access_denied_24h`. */
  predicate IsRecentDenial(e: LogEntry, parse: Parser, now: real) {
    Within(parse(e.timestamp), now, DAY) && IsDenialType(e.eventType)
  }

  /** Counted in `threats_detected_24h`: critical, an attack type, or a detail mentioning a threat. */
  predicate IsRecentThreat(e: LogEntry, parse: Parser, now: real) {
    Within(parse(e.timestamp), now, DAY) && LooksLikeThreat(e)
  }

  /** `severity == "CRITICAL" or "ATTACK" in eventType or "Threat" in details`. */
  predicate LooksLikeThreat(e: LogEntry) {
    e.severity == "CRITICAL" || Contains(e.eventType, "ATTACK") || Contains(e.details, "Threat")
  }

  /** The three filters as values, for counting. */
  function AuthFilter(parse: Parser, now: real): LogEntry -> bool {
    e => IsRecentAuth(e, parse, now)
  }

  function DenialFilter(parse: Parser, now: real): LogEntry -> bool {
    e => IsRecentDenial(e, parse, now)
  }

  function ThreatFilter(parse: Parser, now: real): LogEntry -> bool {
    e => IsRecentThreat(e, parse, now)
  }

  /** The number of entries of `s` that satisfy `p`. */
  function Count(s: seq<LogEntry>, p: LogEntry -> bool): (n: nat)
    ensures n <= |s|
    decreases |s|
  {
    if s == [] then 0 else Count(s[..|s| - 1], p) + (if p(s[|s| - 1]) then 1 else 0)
  }

  /** Nothing is counted exactly when no entry satisfies `p`. */
  lemma {:induction false} CountZeroIff(s: seq<LogEntry>, p: LogEntry -> bool)
    ensures Count(s, p) == 0 <==> forall i :: 0 <= i < |s| ==> !p(s[i])
    decreases |s|
  {
    if s != [] {
      var init := s[..|s| - 1];
      CountZeroIff(init, p);
      assert forall i :: 0 <= i < |init| ==> init[i] == s[i];
    }
  }

  /** Extending the counted prefix by one entry adds one exactly when that entry satisfies `p`. */
  lemma CountStep(s: seq<LogEntry>, i: nat, p: LogEntry -> bool)
    requires i < |s|
    ensures Count(s[..i + 1], p) == Count(s[..i], p) + (if p(s[i]) then 1 else 0)
  {
    assert s[..i + 1][..i] == s[..i];
  }

  /** A weaker filter counts at least as many entries. */
  lemma {:induction false} CountMonotone(s: seq<LogEntry>, p: LogEntry -> bool, q: LogEntry -> bool)
    requires forall e :: p(e) ==> q(e)
    ensures Count(s, p) <= Count(s, q)
    decreases |s|
  {
    if s != [] {
      CountMonotone(s[..|s| - 1], p, q);
    }
  }

  /** The authentications of the last hour are among the day's entries that parse. */
  lemma AuthsWithinDay(s: seq<LogEntry>, parse: Parser, now: real)
    ensures Count(s, AuthFilter(parse, now)) <= Count(s, e => OfLastDay(e, parse, now))
  {
    CountMonotone(s, AuthFilter(parse, now), e => OfLastDay(e, parse, now));
  }

  /** An entry whose timestamp does not parse is never counted. */
  lemma UnparseableNeverCounted(e: LogEntry, parse: Parser, now: real)
    requires parse(e.timestamp).None?
    ensures !IsRecentAuth(e, parse, now) && !IsRecentDenial(e, parse, now) && !IsRecentThreat(e, parse, now)
  {
  }

  /** The singleton `audit_logger`. */
  class Service {
    var logs: seq<LogEntry>

    ghost predicate Valid()
      reads this
    {
      |logs| <= MAX_LOGS
    }

    constructor ()
      ensures Valid() && logs == []
    {
      logs := [];
    }

    /**
     * `log`: builds the entry with the given fields, puts it first, drops
     * the oldest when the log has outgrown 1000, and returns that entry.
     * `id` is the fresh uuid and `timestamp` the ISO-8601 clock reading.
     */
    method Log(id: string, timestamp: string, eventType: string, severity: string, details: string,
               username: Option<string> := None, sourceIp: string := DEFAULT_SOURCE)
      returns (entry: LogEntry)
      requires Valid()
      modifies this`logs
      ensures Valid()
      ensures entry == LogEntry(id, timestamp, severity, eventType, username, sourceIp, details)
      ensures logs == InsertPop(entry, old(logs), MAX_LOGS)
      ensures logs[0] == entry && logs[1..] == old(logs)[..Min(|old(logs)|, MAX_LOGS - 1)]
    {
      entry := LogEntry(id, timestamp, severity, eventType, username, sourceIp, details);
      logs := [entry] + logs;
      if |logs| > MAX_LOGS {
        logs := logs[..|logs| - 1];
      }
      InsertPopKeepsOrder(entry, old(logs), MAX_LOGS);
    }

    /** `get_logs(limit)`: the newest `limit` entries (Python slice semantics). */
    function GetLogs(limit: int := DEFAULT_LIMIT): (r: seq<LogEntry>)
      reads this
      ensures |r| <= |logs| && r == logs[..|r|]
      ensures limit >= 0 ==> |r| == Min(limit, |logs|)
    {
      SlicePrefix(logs, limit)
    }

    /**
     * `get_metric_summary` at clock reading `now` (seconds): the three
     * windowed counts over the log, no active threats and an empty timeline.
     */
    method GetMetricSummary(now: real, parse: Parser) returns (m: MetricSummary)
      ensures m.totalAuths1h == Count(logs, AuthFilter(parse, now))
      ensures m.accessDenied24h == Count(logs, DenialFilter(parse, now))
      ensures m.threatsDetected24h == Count(logs, ThreatFilter(parse, now))
      ensures m.activeThreats == 0 && m.timeline == []
      ensures m.totalAuths1h <= |logs| && m.accessDenied24h <= |logs| && m.threatsDetected24h <= |logs|
    {
      var oneHourAgo := now - HOUR;
      var oneDayAgo := now - DAY;
      var totalAuths, deniedCount, threatCount := 0, 0, 0;
      var i := 0;
      while i < |logs|
        invariant 0 <= i <= |logs|
        invariant totalAuths == Count(logs[..i], AuthFilter(parse, now))
        invariant deniedCount == Count(logs[..i], DenialFilter(parse, now))
        invariant threatCount == Count(logs[..i], ThreatFilter(parse, now))
      {
        var log := logs[i];
        CountStep(logs, i, AuthFilter(parse, now));
        CountStep(logs, i, DenialFilter(parse, now));
        CountStep(logs, i, ThreatFilter(parse, now));
        var parsed := parse(log.timestamp);
        if parsed.Some? {
          var logTime := parsed.value;
          if logTime > oneDayAgo {
            if IsAuthType(log.eventType) {
              if logTime > oneHourAgo {
                totalAuths := totalAuths + 1;
              }
            }
            if IsDenialType(log.eventType) {
              deniedCount := deniedCount + 1;
            }
            if LooksLikeThreat(log) {
              threatCount := threatCount + 1;
            }
          }
        }
        i := i + 1;
      }
      assert logs[..i] == logs;
      m := MetricSummary(totalAuths, deniedCount, 0, threatCount, []);
    }
  }
}
