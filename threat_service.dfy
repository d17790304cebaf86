/**
 * The Python backend's attack simulator: the security posture alone
 * decides whether a simulated attack succeeds, and every run leaves an
 * audit trail (a start entry, at most one detection or anomaly entry, and a
 * result entry) in the shared audit log. The sleeps are not modelled.
 */
module ThreatService {
  import opened Wrappers
  import opened BoundedLog
  import AuditService

  type LogEntry = AuditService.LogEntry

  const HIGH := "HIGH"
  const SIMULATOR := "admin_simulator"

  // The messages, event types and details the simulator reports.
  const START_PREFIX := "SIMULATION_START:"
  const RESULT_PREFIX := "SIMULATION_RESULT:"
  const ATTACK_DETECTED := "ATTACK_DETECTED"
  const TRAFFIC_ANOMALY := "TRAFFIC_ANOMALY"
  const REPLAY_DETECTED_PREFIX := "REPLAY ATTACK BLOCKED: Stale Nonce from "
  const START_DETAILS_PREFIX := "Adversary Emulation Started against "
  const NOT_IMPLEMENTED_PREFIX := "Simulation for "
  const NOT_IMPLEMENTED_SUFFIX := " not implemented."
  const DEFAULT_MESSAGE := "Attack Blocked"
  const REPLAY_BLOCKED := "Replay Blocked: Nonce validation rejected reuse of old packet."
  const REPLAY_SUCCEEDED := "Replay Successful: System processed stale packet (Low Security)."
  const HIJACK_BLOCKED := "Hijack Blocked: IP Mismatch detected (Geo-binding active)."
  const HIJACK_SUCCEEDED := "Session Hijacked: Token accepted from new IP."
  const BRUTE_FORCE_BLOCKED := "Brute Force Throttled: Zero Trust Rate Limit engaged."
  const BRUTE_FORCE_SUCCEEDED := "Brute Force: 12 weak passwords attempted successfully."
  const INJECTION_BLOCKED := "Injection Blocked: Input sanitization stripped SQL vectors."
  const INJECTION_SUCCEEDED := "Injection Success: Database returned unrestricted records."
  const HIJACK_DETECTED := "SESSION HIJACK BLOCKED: Token used from unexpected IP"
  const ANOMALY_DETAILS := "High velocity auth requests detected (>100 req/s)"
  const INJECTION_DETECTED := "SQL INJECTION ATTEMPT: payload=' OR 1=1;--"

  /** The `if`/`elif` chain's classification of the attack type string. */
  datatype Kind = Replay | SessionHijacking | BruteForce | Injection | Unknown

  function KindOf(attackType: string): Kind {
    if attackType == "REPLAY" then Replay
    else if attackType == "SESSION_HIJACKING" then SessionHijacking
    else if attackType == "BRUTE_FORCE" then BruteForce
    else if attackType == "INJECTION" then Injection
    else Unknown
  }

  /** The `success`/`message` pair a run ends with. */
  datatype Decision = Decision(success: bool, message: string)

  /** The returned dict: `success`, `message`, `attackType`. */
  datatype SimulationResult = SimulationResult(success: bool, message: string, attackType: string)

  /** The decision table of `execute_simulation`. */
  function Decide(attackType: string, securityLevel: string): Decision {
    var high := securityLevel == HIGH;
    match KindOf(attackType)
    case Replay =>
      if high then Decision(false, REPLAY_BLOCKED)
      else Decision(true, REPLAY_SUCCEEDED)
    case SessionHijacking =>
      if high then Decision(false, HIJACK_BLOCKED)
      else Decision(true, HIJACK_SUCCEEDED)
    case BruteForce =>
      if high then Decision(false, BRUTE_FORCE_BLOCKED)
      else Decision(true, BRUTE_FORCE_SUCCEEDED)
    case Injection =>
      if high then Decision(false, INJECTION_BLOCKED)
      else Decision(true, INJECTION_SUCCEEDED)
    case Unknown => Decision(false, NOT_IMPLEMENTED_PREFIX + attackType + NOT_IMPLEMENTED_SUFFIX)
  }

  /** Under the HIGH profile no simulated attack succeeds, whatever its type. */
  lemma HighNeverSucceeds(attackType: string)
    ensures !Decide(attackType, HIGH).success
  {
  }

  /** An implemented attack succeeds exactly when the profile is not HIGH. */
  lemma ImplementedSucceedsIffNotHigh(attackType: string, securityLevel: string)
    requires attackType in ["REPLAY", "SESSION_HIJACKING", "BRUTE_FORCE", "INJECTION"]
    ensures Decide(attackType, securityLevel).success <==> securityLevel != HIGH
  {
  }

  /** An unknown type never succeeds and says it is not implemented. */
  lemma UnknownTypeNotImplemented(attackType: string, securityLevel: string)
    requires attackType !in ["REPLAY", "SESSION_HIJACKING", "BRUTE_FORCE", "INJECTION"]
    ensures Decide(attackType, securityLevel) == Decision(false, NOT_IMPLEMENTED_PREFIX + attackType + NOT_IMPLEMENTED_SUFFIX)
  {
  }

  /** The entry that opens every run. */
  function StartEntry(id: string, at: string, attackType: string, targetUser: string, securityLevel: string,
                      sourceIp: string): LogEntry
  {
    AuditService.LogEntry(id, at, "INFO", START_PREFIX + attackType,
                          Some(SIMULATOR), sourceIp,
                          START_DETAILS_PREFIX + targetUser + ". Profile: " + securityLevel)
  }

  /** The entry a run logs between start and result: a detection under HIGH, or the brute-force anomaly. */
  function ExtraEntries(id: string, at: string, attackType: string, targetUser: string, securityLevel: string,
                        sourceIp: string): seq<LogEntry>
  {
    var high := securityLevel == HIGH;
    match KindOf(attackType)
    case Replay =>
      if high then [AuditService.LogEntry(id, at, "CRITICAL", ATTACK_DETECTED, Some(targetUser), sourceIp,
                                          REPLAY_DETECTED_PREFIX + sourceIp)]
      else []
    case SessionHijacking =>
      if high then [AuditService.LogEntry(id, at, "CRITICAL", ATTACK_DETECTED, Some(targetUser), sourceIp,
                                          HIJACK_DETECTED)]
      else []
    case BruteForce =>
      [AuditService.LogEntry(id, at, "WARNING", TRAFFIC_ANOMALY, Some(targetUser), sourceIp,
                             ANOMALY_DETAILS)]
    case Injection =>
      if high then [AuditService.LogEntry(id, at, "CRITICAL", ATTACK_DETECTED, Some(targetUser), sourceIp,
                                          INJECTION_DETECTED)]
      else []
    case Unknown => []
  }

  /** The entry that closes every run: WARNING when the attack succeeded, INFO otherwise. */
  function ResultEntry(id: string, at: string, attackType: string, targetUser: string, sourceIp: string,
                       d: Decision): LogEntry
  {
    AuditService.LogEntry(id, at, if !d.success then "INFO" else "WARNING", RESULT_PREFIX + attackType,
                          Some(targetUser), sourceIp, "Result: " + d.message)
  }

  /**
   * The entries one run logs, oldest first; the `k`-th log call of the run
   * gets the fresh id `ids[k]` and the clock reading `times[k]`.
   */
  function Trail(ids: seq<string>, times: seq<string>, attackType: string, targetUser: string,
                 securityLevel: string, sourceIp: string): (t: seq<LogEntry>)
    requires |ids| >= 3 && |times| >= 3
    ensures 2 <= |t| <= 3
  {
    var extras := ExtraEntries(ids[1], times[1], attackType, targetUser, securityLevel, sourceIp);
    [StartEntry(ids[0], times[0], attackType, targetUser, securityLevel, sourceIp)]
    + extras
    + [ResultEntry(ids[1 + |extras|], times[1 + |extras|], attackType, targetUser, sourceIp,
                   Decide(attackType, securityLevel))]
  }

  /**
   * The shape of every trail: it starts with the start entry and ends with
   * the result entry, whose severity is INFO exactly when the attack failed;
   * in between there is one CRITICAL `ATTACK_DETECTED` for a blocked replay,
   * hijack or injection, one WARNING `TRAFFIC_ANOMALY` for brute force at any
   * level, and nothing otherwise.
   */
  lemma TrailShape(ids: seq<string>, times: seq<string>, attackType: string, targetUser: string,
                   securityLevel: string, sourceIp: string)
    requires |ids| >= 3 && |times| >= 3
    ensures var t := Trail(ids, times, attackType, targetUser, securityLevel, sourceIp);
            var d := Decide(attackType, securityLevel);
            && t[0].eventType == START_PREFIX + attackType
            && t[|t| - 1].eventType == RESULT_PREFIX + attackType
            && (t[|t| - 1].severity == "INFO" <==> !d.success)
            && t[|t| - 1].details == "Result: " + d.message
            && (KindOf(attackType) in {Replay, SessionHijacking, Injection} && securityLevel == HIGH ==>
                  |t| == 3 && t[1].severity == "CRITICAL" && t[1].eventType == ATTACK_DETECTED)
            && (KindOf(attackType) == BruteForce ==>
                  |t| == 3 && t[1].severity == "WARNING" && t[1].eventType == TRAFFIC_ANOMALY)
            && (KindOf(attackType) == Unknown || (securityLevel != HIGH && KindOf(attackType) != BruteForce) ==> |t| == 2)
  {
  }

  /** Three entries fit the audit log, so a run leaves its trail at the head of the log, newest first. */
  lemma TrailAtHead(logs: seq<LogEntry>, trail: seq<LogEntry>)
    requires |logs| <= AuditService.MAX_LOGS && |trail| <= 3
    ensures |InsertAll(logs, trail, AuditService.MAX_LOGS)| >= |trail|
    ensures InsertAll(logs, trail, AuditService.MAX_LOGS)[..|trail|] == Reverse(trail)
  {
    InsertAllNewestFirst(logs, trail, AuditService.MAX_LOGS);
  }

  /** The service, bound to the shared audit logger. */
  class Simulator {
    const audit: AuditService.Service

    constructor (audit: AuditService.Service)
      ensures this.audit == audit
    {
      this.audit := audit;
    }

    /**
     * `execute_simulation`: the result the table decides, echoing the
     * attack type, and the run's trail inserted into the audit log in order.
     */
    method ExecuteSimulation(attackType: string, targetUser: string, securityLevel: string, sourceIp: string,
                             ids: seq<string>, times: seq<string>)
      returns (r: SimulationResult)
      requires audit.Valid()
      requires |ids| >= 3 && |times| >= 3
      modifies audit`logs
      ensures audit.Valid()
      ensures r == SimulationResult(Decide(attackType, securityLevel).success,
                                    Decide(attackType, securityLevel).message, attackType)
      ensures audit.logs == InsertAll(old(audit.logs),
                                      Trail(ids, times, attackType, targetUser, securityLevel, sourceIp),
                                      AuditService.MAX_LOGS)
    {
      ghost var logs0 := audit.logs;
      ghost var extras := ExtraEntries(ids[1], times[1], attackType, targetUser, securityLevel, sourceIp);
      var entry := audit.Log(ids[0], times[0], START_PREFIX + attackType, "INFO",
                             START_DETAILS_PREFIX + targetUser + ". Profile: " + securityLevel,
                             Some(SIMULATOR), sourceIp);
      ghost var written := [entry];
      assert audit.logs == InsertAll(logs0, written, AuditService.MAX_LOGS);
      var next := 1;

      var success := false;
      var message := DEFAULT_MESSAGE;

      var high := securityLevel == HIGH;
      match KindOf(attackType) {
      case Replay =>
        if high {
          success := false;
          message := REPLAY_BLOCKED;
          entry := audit.Log(ids[next], times[next], ATTACK_DETECTED, "CRITICAL",
                             REPLAY_DETECTED_PREFIX + sourceIp, Some(targetUser), sourceIp);
          InsertAllSnoc(logs0, written, entry, AuditService.MAX_LOGS);
          written, next := written + [entry], next + 1;
        } else {
          success := true;
          message := REPLAY_SUCCEEDED;
        }
      case SessionHijacking =>
        if high {
          success := false;
          message := HIJACK_BLOCKED;
          entry := audit.Log(ids[next], times[next], ATTACK_DETECTED, "CRITICAL",
                             HIJACK_DETECTED, Some(targetUser), sourceIp);
          InsertAllSnoc(logs0, written, entry, AuditService.MAX_LOGS);
          written, next := written + [entry], next + 1;
        } else {
          success := true;
          message := HIJACK_SUCCEEDED;
        }
      case BruteForce =>
        entry := audit.Log(ids[next], times[next], TRAFFIC_ANOMALY, "WARNING",
                           ANOMALY_DETAILS, Some(targetUser), sourceIp);
        InsertAllSnoc(logs0, written, entry, AuditService.MAX_LOGS);
        written, next := written + [entry], next + 1;
        if high {
          success := false;
          message := BRUTE_FORCE_BLOCKED;
        } else {
          success := true;
          message := BRUTE_FORCE_SUCCEEDED;
        }
      case Injection =>
        if high {
          success := false;
          message := INJECTION_BLOCKED;
          entry := audit.Log(ids[next], times[next], ATTACK_DETECTED, "CRITICAL",
                             INJECTION_DETECTED, Some(targetUser), sourceIp);
          InsertAllSnoc(logs0, written, entry, AuditService.MAX_LOGS);
          written, next := written + [entry], next + 1;
        } else {
          success := true;
          message := INJECTION_SUCCEEDED;
        }
      case Unknown =>
        message := NOT_IMPLEMENTED_PREFIX + attackType + NOT_IMPLEMENTED_SUFFIX;
      }
      assert written == [StartEntry(ids[0], times[0], attackType, targetUser, securityLevel, sourceIp)] + extras;
      assert next == 1 + |extras| && Decision(success, message) == Decide(attackType, securityLevel);

      entry := audit.Log(ids[next], times[next], RESULT_PREFIX + attackType,
                         if !success then "INFO" else "WARNING", "Result: " + message, Some(targetUser), sourceIp);
      InsertAllSnoc(logs0, written, entry, AuditService.MAX_LOGS);
      written := written + [entry];
      assert written == Trail(ids, times, attackType, targetUser, securityLevel, sourceIp);
      r := SimulationResult(success, message, attackType);
    }
  }
}
