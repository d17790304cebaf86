/**
 * The simulated biometric engine: identity registration and enrollment with
 * salted, hashed templates; the verification pipeline (rate limit, identity,
 * sample, liveness, integrity, similarity, threshold, session); FAR/FRR
 * bookkeeping; a capped newest-first audit log; and the six scripted attack
 * scenarios that probe these defenses.
 */
module MockBackend {
  import opened Wrappers
  import opened Text
  import opened Types
  import opened Metrics
  import SecureHash
  import RateLimit
  import BoundedLog

  // --- Configuration ---

  const TOKEN_EXPIRY_MS: nat := 15 * 60 * 1000
  const INITIAL_THRESHOLD: real := 0.94
  const LOG_CAPACITY: nat := 100
  /** Enrollment demands a higher-quality capture than live verification. */
  const ENROLL_MIN_VARIANCE: real := 0.05
  const LIVENESS_MIN_VARIANCE: real := 0.02
  const UNSAFE_THRESHOLD: real := 0.5
  const DEFAULT_CONTEXT_IP: string := "192.168.1.10"
  const ATTACKER_IP: string := "10.0.66.6"
  const HIJACKER_IP: string := "203.0.113.55"
  const CORRUPTED_HASH: string := "0xCORRUPTED_HASH"
  const REPLAY_WINDOW_MS: int := 5000
  const BRUTE_FORCE_ATTEMPTS: nat := 20
  const BRUTE_FORCE_THRESHOLD: real := 0.98
  const MANIPULATED_THRESHOLD: real := 0.1
  const HIGH: string := "HIGH"

  /**
   * The numeric and formatting capabilities the engine relies on but whose
   * floating-point details are not modelled: `calculateVariance`, the cosine
   * ratio of `calculateSimilarity` for equal-length non-zero vectors,
   * `JSON.stringify` of an embedding, `toFixed`, the default rendering of a
   * number in a template string, and `toISOString` of an instant.
   */
  datatype Host = Host(
    variance: seq<real> -> real,
    cosine: (seq<real>, seq<real>) -> real,
    serialize: seq<real> -> string,
    toFixed: (real, nat) -> string,
    numberText: real -> string,
    isoTime: nat -> string)

  /** An issued access token's binding. */
  datatype Session = Session(userId: string, ip: string, expires: nat, role: string)

  /** A sniffed verification request. */
  datatype Packet = Packet(userId: string, embedding: seq<real>, timestamp: nat, nonce: string)

  /** The hash restore that the tampering scenario schedules for later. */
  datatype Restore = Restore(userId: string, dataHash: string)

  // --- Lookups ---

  /** `users.find(u => u.id === id)`, as the index of the first match. */
  function FindById(users: seq<User>, id: string): (r: Option<nat>)
    ensures r.Some? ==> r.value < |users| && users[r.value].id == id
    decreases |users|
  {
    if users == [] then None
    else if users[0].id == id then Some(0)
    else match FindById(users[1..], id)
      case None => None
      case Some(i) => Some(i + 1)
  }

  /** The lookup finds the first user with that id, and fails only when there is none. */
  lemma {:induction false} FindByIdIsFirst(users: seq<User>, id: string)
    ensures FindById(users, id).Some? ==> forall j :: 0 <= j < FindById(users, id).value ==> users[j].id != id
    ensures FindById(users, id).None? ==> forall j :: 0 <= j < |users| ==> users[j].id != id
    decreases |users|
  {
    if users != [] {
      FindByIdIsFirst(users[1..], id);
      assert forall j :: 1 <= j < |users| ==> users[j] == users[1..][j - 1];
    }
  }

  /** Replacing a user by one with the same id leaves every lookup where it was. */
  lemma {:induction false} FindByIdStable(users: seq<User>, i: nat, u: User, id: string)
    requires i < |users| && u.id == users[i].id
    ensures FindById(users[i := u], id) == FindById(users, id)
    decreases |users|
  {
    if i == 0 {
      assert users[i := u][1..] == users[1..];
    } else {
      assert users[i := u][1..] == users[1..][i - 1 := u];
      FindByIdStable(users[1..], i - 1, u, id);
    }
  }

  /** Appending a user leaves every lookup that already succeeded where it was. */
  lemma {:induction false} FindByIdAppend(users: seq<User>, u: User, id: string)
    requires FindById(users, id).Some?
    ensures FindById(users + [u], id) == FindById(users, id)
    decreases |users|
  {
    if users[0].id != id {
      assert (users + [u])[1..] == users[1..] + [u];
      FindByIdAppend(users[1..], u, id);
    }
  }

  predicate UsernameTaken(users: seq<User>, username: string) {
    exists i :: 0 <= i < |users| && users[i].username == username
  }

  /** The user stored under `id`, when there is one. */
  function UserById(users: seq<User>, id: string): Option<User> {
    match FindById(users, id)
    case None => None
    case Some(i) => Some(users[i])
  }

  // --- Matching ---

  function SumSquares(v: seq<real>): (r: real)
    ensures r >= 0.0
    decreases |v|
  {
    if v == [] then 0.0 else v[0] * v[0] + SumSquares(v[1..])
  }

  /**
   * `calculateSimilarity`: 0 for vectors of different lengths or with a zero
   * magnitude (a square root is zero exactly when its sum of squares is),
   * the cosine ratio otherwise.
   */
  function Similarity(host: Host, a: seq<real>, b: seq<real>): (r: real)
    ensures |a| != |b| ==> r == 0.0
    ensures SumSquares(a) == 0.0 || SumSquares(b) == 0.0 ==> r == 0.0
    ensures |a| == |b| && SumSquares(a) != 0.0 && SumSquares(b) != 0.0 ==> r == host.cosine(a, b)
  {
    if |a| != |b| then 0.0
    else if SumSquares(a) == 0.0 || SumSquares(b) == 0.0 then 0.0
    else host.cosine(a, b)
  }

  /** The integrity law of a template: its hash is that of its embedding and salt. */
  predicate Intact(host: Host, t: BiometricTemplate) {
    t.dataHash == SecureHash.Digest(host.serialize(t.embedding) + t.salt)
  }

  /** The stage at which a verification attempt stops, with what it found. */
  datatype Outcome =
    | RateLimited
    | NotEnrolled
    | NoSample
    | Spoofed(user: User)
    | IntegrityViolation(user: User)
    | Scored(user: User, score: real, isMatch: bool)

  /**
   * The verification pipeline as a decision on the state it starts from:
   * each gate is consulted only when every earlier one has passed.
   */
  function Evaluate(host: Host, allowed: bool, users: seq<User>, userId: string,
                    sample: Option<seq<real>>, threshold: real): Outcome
  {
    var user := UserById(users, userId);
    if !allowed then RateLimited
    else if user.None? || user.value.biometricTemplate.None? then NotEnrolled
    else if sample.None? then NoSample
    else Judge(host, user.value, sample.value, threshold)
  }

  /** The liveness, integrity and similarity gates, for an enrolled user and a present sample. */
  function Judge(host: Host, user: User, sample: seq<real>, threshold: real): Outcome
    requires user.biometricTemplate.Some?
  {
    if host.variance(sample) < LIVENESS_MIN_VARIANCE then Spoofed(user)
    else if !Intact(host, user.biometricTemplate.value) then IntegrityViolation(user)
    else
      var score := Similarity(host, sample, user.biometricTemplate.value.embedding);
      Scored(user, score, score >= threshold)
  }

  /** A scored attempt has passed every gate, in order, and matched iff the score reached the threshold. */
  lemma ScoredPassedEveryGate(host: Host, allowed: bool, users: seq<User>, userId: string,
                              sample: Option<seq<real>>, threshold: real)
    requires Evaluate(host, allowed, users, userId, sample, threshold).Scored?
    ensures var o := Evaluate(host, allowed, users, userId, sample, threshold);
            && allowed
            && FindById(users, userId).Some?
            && o.user == users[FindById(users, userId).value]
            && o.user.biometricTemplate.Some?
            && sample.Some?
            && host.variance(sample.value) >= LIVENESS_MIN_VARIANCE
            && Intact(host, o.user.biometricTemplate.value)
            && o.score == Similarity(host, sample.value, o.user.biometricTemplate.value.embedding)
            && (o.isMatch <==> o.score >= threshold)
  {
  }

  /**
   * A template whose hash was overwritten with the tampering marker can never
   * be scored: the marker is 16 characters long, every digest 64.
   */
  lemma CorruptedNeverPassesIntegrity(host: Host, t: BiometricTemplate)
    requires t.dataHash == CORRUPTED_HASH
    ensures !Intact(host, t)
  {
    SecureHash.DigestLength(host.serialize(t.embedding) + t.salt);
  }

  /**
   * A corrupted template whose embedding passed the enrollment quality gate,
   * verified against its own embedding, stops at the integrity check as soon
   * as the rate limiter lets the attempt through.
   */
  lemma CorruptedTemplateIsIntegrityViolation(host: Host, users: seq<User>, userId: string, threshold: real)
    requires UserById(users, userId).Some?
    requires UserById(users, userId).value.biometricTemplate.Some?
    requires UserById(users, userId).value.biometricTemplate.value.dataHash == CORRUPTED_HASH
    requires host.variance(UserById(users, userId).value.biometricTemplate.value.embedding) >= ENROLL_MIN_VARIANCE
    ensures var emb := UserById(users, userId).value.biometricTemplate.value.embedding;
            Evaluate(host, true, users, userId, Some(emb), threshold)
              == IntegrityViolation(UserById(users, userId).value)
  {
    CorruptedNeverPassesIntegrity(host, UserById(users, userId).value.biometricTemplate.value);
  }

  // --- Responses and log entries ---

  function RateLimitMessage(): string {
    "Too many attempts. Access blocked for " + NatToString(RateLimit.RATE_LIMIT_WINDOW_MS / 1000) + "s."
  }

  const INTEGRITY_MESSAGE: string := "CRITICAL: Data Integrity Violation. Account Locked."
  const THROTTLE_MARKER: string := "Too many attempts"

  /** The rate-limit message is the one the brute-force loop recognises. */
  lemma RateLimitMessageIsRecognised()
    ensures Contains(RateLimitMessage(), THROTTLE_MARKER)
  {
    assert RateLimitMessage()[..|THROTTLE_MARKER|] == THROTTLE_MARKER;
  }

  function AccessToken(now: nat, nonce: string): string {
    "jwt_access_" + NatToString(now) + "_" + nonce
  }

  function RefreshToken(now: nat, nonce: string): string {
    "jwt_refresh_" + NatToString(now) + "_" + nonce
  }

  /** A response without score or tokens, as the attack scenarios return. */
  function Verdict(success: bool, message: string): AuthResponse {
    AuthResponse(success, None, None, None, message, None)
  }

  function Failure(message: string, score: real): AuthResponse {
    AuthResponse(false, None, None, None, message, Some(score))
  }

  /** What `verifyUser` returns for each outcome. */
  function Respond(o: Outcome, now: nat, accessNonce: string, refreshNonce: string): (r: AuthResponse)
    ensures r.success <==> o.Scored? && o.isMatch
    ensures r.success ==> r.accessToken == Some(AccessToken(now, accessNonce))
                          && r.expiresIn == Some(TOKEN_EXPIRY_MS / 1000)
    ensures o.Scored? ==> r.similarityScore == Some(o.score)
    ensures !o.Scored? ==> r.similarityScore == Some(0.0) && r.accessToken.None?
  {
    match o
    case RateLimited => Failure(RateLimitMessage(), 0.0)
    case NotEnrolled => Failure("Identity not found or not enrolled", 0.0)
    case NoSample => Failure("No biometric data", 0.0)
    case Spoofed(_) => Failure("Liveness Check Failed", 0.0)
    case IntegrityViolation(_) => Failure(INTEGRITY_MESSAGE, 0.0)
    case Scored(_, score, isMatch) =>
      if isMatch then
        AuthResponse(true, Some(AccessToken(now, accessNonce)), Some(RefreshToken(now, refreshNonce)),
                     Some(TOKEN_EXPIRY_MS / 1000), "Identity Verified", Some(score))
      else Failure("Identity Verification Failed", score)
  }

  /** The counters after an attempt with outcome `o`: only a scored attempt is recorded. */
  function StatsAfter(stats: Stats, o: Outcome, isAttack: bool): Stats {
    if o.Scored? then Record(stats, o.isMatch, isAttack) else stats
  }

  /** The session table after an attempt with outcome `o`. */
  function SessionsAfter(sessions: map<string, Session>, o: Outcome, contextIp: string,
                         now: nat, accessNonce: string): map<string, Session>
  {
    if o.Scored? && o.isMatch then
      sessions[AccessToken(now, accessNonce) := Session(o.user.id, contextIp, now + TOKEN_EXPIRY_MS, o.user.role.Name())]
    else sessions
  }

  /**
   * A successful response carries a token that opens a session for the
   * matched user, bound to the requesting IP and the user's role, expiring
   * 900 000 ms later, and counts one more attempt; any other response leaves
   * the sessions alone, and one stopped before scoring also the counters.
   */
  lemma SuccessOpensBoundSession(o: Outcome, stats: Stats, isAttack: bool, sessions: map<string, Session>,
                                 contextIp: string, now: nat, accessNonce: string, refreshNonce: string)
    ensures var r := Respond(o, now, accessNonce, refreshNonce);
            var after := SessionsAfter(sessions, o, contextIp, now, accessNonce);
            r.success ==> && r.accessToken.Some?
                          && r.accessToken.value in after
                          && after[r.accessToken.value]
                               == Session(o.user.id, contextIp, now + TOKEN_EXPIRY_MS, o.user.role.Name())
                          && r.expiresIn == Some(900)
                          && Total(StatsAfter(stats, o, isAttack)) == Total(stats) + 1
    ensures !Respond(o, now, accessNonce, refreshNonce).success ==>
              SessionsAfter(sessions, o, contextIp, now, accessNonce) == sessions
    ensures !o.Scored? ==> StatsAfter(stats, o, isAttack) == stats
  {
  }

  function RateLimitEntry(ip: string, at: string): SecurityLog {
    SecurityLog(at, RateLimitExceeded, Warning,
                "IP " + ip + " throttled. Too many authentication attempts.", ip, None, None)
  }

  /** The entry `verifyUser` logs once the rate limiter has let the attempt through. */
  function OutcomeEntries(host: Host, o: Outcome, userId: string, ip: string, at: string): (r: seq<SecurityLog>)
    ensures |r| <= 1
    ensures o.IntegrityViolation? ==> r != [] && r[0].severity == Critical
  {
    match o
    case RateLimited => []
    case NoSample => []
    case NotEnrolled =>
      [SecurityLog(at, AuthFailure, Warning, "Identity Check Failed: " + userId, ip, Some(userId), None)]
    case Spoofed(u) =>
      [SecurityLog(at, AuthFailure, Warning, "Spoof Detected: Low variance", ip, Some(u.id), Some(u.username))]
    case IntegrityViolation(u) =>
      [SecurityLog(at, SystemAlert, Critical,
                   "DATA INTEGRITY VIOLATION: Template for " + u.username + " modified externally.",
                   "SYSTEM_INTERNAL", Some(u.id), Some(u.username))]
    case Scored(u, score, isMatch) =>
      if isMatch then
        [SecurityLog(at, AuthSuccess, Info,
                     "Access Granted: " + u.username + " (Score: " + host.toFixed(score, 4) + ")",
                     ip, Some(u.id), Some(u.username))]
      else
        [SecurityLog(at, AuthFailure, Warning,
                     "Biometric Mismatch: " + u.username + " (Score: " + host.toFixed(score, 4) + ")",
                     ip, Some(u.id), Some(u.username))]
  }

  /** Several `logEvent` calls in order: the last entry ends up at index 0. */
  function Logged(logs: seq<SecurityLog>, entries: seq<SecurityLog>): (r: seq<SecurityLog>)
    ensures |logs| <= LOG_CAPACITY ==> |r| <= LOG_CAPACITY
    ensures entries != [] ==> |r| > 0 && r[0] == entries[|entries| - 1]
    decreases |entries|
  {
    if entries == [] then logs
    else Logged(BoundedLog.PrependCapped(entries[0], logs, LOG_CAPACITY), entries[1..])
  }

  /** Logging two batches one after the other is logging them in sequence. */
  lemma {:induction false} LoggedConcat(logs: seq<SecurityLog>, first: seq<SecurityLog>, second: seq<SecurityLog>)
    ensures Logged(Logged(logs, first), second) == Logged(logs, first + second)
    decreases |first|
  {
    if first == [] {
      assert first + second == second;
    } else {
      assert (first + second)[1..] == first[1..] + second;
      LoggedConcat(BoundedLog.PrependCapped(first[0], logs, LOG_CAPACITY), first[1..], second);
    }
  }

  /** `logEvent`: the new entry comes first; the log keeps at most the 99 entries before it. */
  lemma LogEventShape(logs: seq<SecurityLog>, e: SecurityLog)
    ensures |Logged(logs, [e])| == BoundedLog.Min(|logs| + 1, LOG_CAPACITY)
    ensures Logged(logs, [e])[0] == e
    ensures Logged(logs, [e])[1..] == logs[..BoundedLog.Min(|logs|, LOG_CAPACITY - 1)]
  {
    assert Logged(logs, [e]) == BoundedLog.PrependCapped(e, logs, LOG_CAPACITY);
  }

  function Rendered(host: Host, rate: Option<real>): string {
    match rate
    case Some(v) => host.toFixed(v, 2)
    case None => "0.00"
  }

  function NewTemplate(host: Host, user: User, embedding: seq<real>, salt: string, now: nat): BiometricTemplate {
    var hash := SecureHash.Digest(host.serialize(embedding) + salt);
    BiometricTemplate("tmpl_" + NatToString(now), user.id, FaceIdV4, hash, salt,
                      "AES256::" + hash[..BoundedLog.Min(8, |hash|)] + "...", embedding, host.isoTime(now))
  }

  /** A freshly built template satisfies the integrity law and belongs to its user. */
  lemma NewTemplateIsIntact(host: Host, user: User, embedding: seq<real>, salt: string, now: nat)
    ensures Intact(host, NewTemplate(host, user, embedding, salt, now))
    ensures NewTemplate(host, user, embedding, salt, now).userId == user.id
    ensures |NewTemplate(host, user, embedding, salt, now).dataHash| == SecureHash.DIGEST_LENGTH
  {
    SecureHash.DigestLength(host.serialize(embedding) + salt);
  }

  // --- Attack scenarios ---

  const THROTTLED_MESSAGE: string := "Brute Force Throttled (Rate Limit Active)"
  const BRUTE_FORCE_SUCCESS: string := "Brute Force SUCCESS"

  /** `user?.biometricTemplate?.embedding` for the user stored under `id`. */
  function TemplateEmbedding(users: seq<User>, id: string): (r: Option<seq<real>>)
    ensures r.Some? <==> UserById(users, id).Some? && UserById(users, id).value.biometricTemplate.Some?
  {
    match UserById(users, id)
    case None => None
    case Some(u) => if u.biometricTemplate.Some? then Some(u.biometricTemplate.value.embedding) else None
  }

  /** `user?.username` for the user stored under `id`. */
  function UsernameOf(users: seq<User>, id: string): Option<string>
    decreases |users|
  {
    if users == [] then None
    else if users[0].id == id then Some(users[0].username)
    else UsernameOf(users[1..], id)
  }

  /** The username lookup agrees with the user lookup. */
  lemma {:induction false} UsernameOfIsLookup(users: seq<User>, id: string)
    ensures UsernameOf(users, id) == (if UserById(users, id).Some? then Some(UserById(users, id).value.username) else None)
    decreases |users|
  {
    if users != [] && users[0].id != id {
      UsernameOfIsLookup(users[1..], id);
    }
  }

  function ReplayBlockedEntry(age: int, target: string, username: Option<string>, at: string): SecurityLog {
    SecurityLog(at, AttackDetected, Critical, "REPLAY BLOCKED: Stale Packet (Age: " + IntToString(age) + "ms).",
                ATTACKER_IP, Some(target), username)
  }

  function EnrollmentBlockedEntry(at: string): SecurityLog {
    SecurityLog(at, AttackDetected, Critical, "BOLA Exploitation Blocked: Enrollment checks failed.",
                ATTACKER_IP, None, Some("shadow_admin"))
  }

  function HijackBlockedEntry(boundIp: string, target: string, username: Option<string>, at: string): SecurityLog {
    SecurityLog(at, AttackDetected, Critical,
                "Session Hijacking Blocked: Token bound to " + boundIp + ", used by " + HIJACKER_IP,
                HIJACKER_IP, Some(target), username)
  }

  /**
   * What the brute-force loop makes of one response: a throttling message
   * (recognised by its text) or a success ends the run with a verdict;
   * anything else lets it carry on.
   */
  function BruteForceStop(v: AuthResponse): (r: Option<AuthResponse>)
    ensures r.Some? <==> v.success || Contains(v.message, THROTTLE_MARKER)
    ensures r.Some? ==> (r.value.success <==> v.success)
  {
    if !v.success && Contains(v.message, THROTTLE_MARKER) then Some(Verdict(false, THROTTLED_MESSAGE))
    else if v.success then Some(Verdict(true, BRUTE_FORCE_SUCCESS))
    else None
  }

  /** `result.similarityScore || 0`: an absent score reads as 0. */
  function ScoreOrZero(v: AuthResponse): real {
    v.similarityScore.GetOr(0.0)
  }

  /** The best score seen, starting from 0, kept by strict improvement as the loop does. */
  function BestScore(responses: seq<AuthResponse>): (m: real)
    ensures m >= 0.0
    ensures forall i :: 0 <= i < |responses| ==> ScoreOrZero(responses[i]) <= m
    ensures m == 0.0 || exists i :: 0 <= i < |responses| && m == ScoreOrZero(responses[i])
    decreases |responses|
  {
    if responses == [] then 0.0
    else
      var m := BestScore(responses[..|responses| - 1]);
      var s := ScoreOrZero(responses[|responses| - 1]);
      if s > m then s else m
  }

  /** Under the HIGH profile, the last captured packet is older than the replay window allows. */
  /** What a replay does with the capture buffer: nothing, refuse a stale packet, or resend the last one. */
  datatype Replay = NoPackets | StalePacket(age: int) | Resend(embedding: seq<real>)

  function ReplayPlan(packets: seq<Packet>, securityLevel: string, now: nat): (p: Replay)
    ensures p.NoPackets? <==> packets == []
    ensures p.StalePacket? <==> packets != [] && securityLevel == HIGH
                                && now - packets[|packets| - 1].timestamp > REPLAY_WINDOW_MS
    ensures p.StalePacket? ==> p.age == now - packets[|packets| - 1].timestamp
    ensures p.Resend? ==> p.embedding == packets[|packets| - 1].embedding
  {
    if packets == [] then NoPackets
    else
      var last := packets[|packets| - 1];
      if securityLevel == HIGH && now - last.timestamp > REPLAY_WINDOW_MS then StalePacket(now - last.timestamp)
      else Resend(last.embedding)
  }

  /** Every instant of `clock` lies in the rate-limit window that opens at its first instant. */
  predicate Burst(clock: seq<nat>) {
    forall i :: 0 <= i < |clock| ==> clock[0] <= clock[i] < clock[0] + RateLimit.RATE_LIMIT_WINDOW_MS
  }

  /** Usernames identify users. */
  ghost predicate UniqueUsernames(users: seq<User>) {
    forall i, j :: 0 <= i < j < |users| ==> users[i].username != users[j].username
  }

  /**
   * Every user is enrolled exactly when it owns a template; that template
   * belongs to it and passed the enrollment quality gate.
   */
  ghost predicate TemplatesWellFormed(host: Host, users: seq<User>) {
    forall i :: 0 <= i < |users| ==>
      && (users[i].enrolled <==> users[i].biometricTemplate.Some?)
      && (users[i].biometricTemplate.Some? ==>
            && users[i].biometricTemplate.value.userId == users[i].id
            && host.variance(users[i].biometricTemplate.value.embedding) >= ENROLL_MIN_VARIANCE)
  }

  /** Every session references a known identity. */
  ghost predicate SessionsReferToUsers(users: seq<User>, sessions: map<string, Session>) {
    forall t :: t in sessions ==> FindById(users, sessions[t].userId).Some?
  }

  /** The state of the engine. */
  class Engine {
    const host: Host
    var users: seq<User>
    var logs: seq<SecurityLog>
    var rateLimitStore: map<string, seq<int>>
    var stats: Stats
    var activeSessions: map<string, Session>
    var capturedPackets: seq<Packet>
    var globalThreshold: real

    ghost predicate Valid()
      reads this
    {
      && |logs| <= LOG_CAPACITY
      && RateLimit.Bounded(rateLimitStore)
      && UniqueUsernames(users)
      && TemplatesWellFormed(host, users)
      && SessionsReferToUsers(users, activeSessions)
    }

    /** The engine at process start: no users, no logs, zero counters, threshold 0.94. */
    constructor (host: Host)
      ensures Valid()
      ensures this.host == host
      ensures users == [] && logs == [] && rateLimitStore == map[] && stats == ZERO_STATS
      ensures activeSessions == map[] && capturedPackets == [] && globalThreshold == INITIAL_THRESHOLD
    {
      this.host := host;
      users := [];
      logs := [];
      rateLimitStore := map[];
      stats := ZERO_STATS;
      activeSessions := map[];
      capturedPackets := [];
      globalThreshold := INITIAL_THRESHOLD;
    }

    /** `logEvent`: stamps the entry with the current instant and prepends it, keeping 100. */
    method LogEvent(eventType: EventType, severity: Severity, details: string, sourceIp: string,
                    userId: Option<string>, username: Option<string>, now: nat)
      modifies this`logs
      ensures logs == Logged(old(logs),
                             [SecurityLog(host.isoTime(now), eventType, severity, details, sourceIp, userId, username)])
    {
      var entry := SecurityLog(host.isoTime(now), eventType, severity, details, sourceIp, userId, username);
      logs := ([entry] + logs)[..BoundedLog.Min(|logs| + 1, LOG_CAPACITY)];
    }

    /** `checkRateLimit`: the sliding-window decision for `ip`, stored back and logged on the first block. */
    method CheckRateLimit(ip: string, now: nat) returns (allowed: bool)
      requires Valid()
      modifies this`rateLimitStore, this`logs
      ensures Valid()
      ensures var d := RateLimit.Check(RateLimit.AttemptsOf(old(rateLimitStore), ip), now);
              && allowed == d.allowed
              && rateLimitStore == old(rateLimitStore)[ip := d.stored]
              && logs == Logged(old(logs), if d.alert then [RateLimitEntry(ip, host.isoTime(now))] else [])
    {
      var attempts := RateLimit.AttemptsOf(rateLimitStore, ip);
      var recent := RateLimit.Recent(attempts, now);
      if |recent| >= RateLimit.MAX_ATTEMPTS_PER_WINDOW {
        if |recent| == RateLimit.MAX_ATTEMPTS_PER_WINDOW {
          LogEvent(RateLimitExceeded, Warning, "IP " + ip + " throttled. Too many authentication attempts.",
                   ip, None, None, now);
        }
        rateLimitStore := rateLimitStore[ip := recent];
        return false;
      }
      recent := recent + [now];
      rateLimitStore := rateLimitStore[ip := recent];
      allowed := true;
    }

    /** `setThreshold`: always applied and logged; a value below 0.5 is flagged first but not refused. */
    method SetThreshold(newThreshold: real, now: nat)
      requires Valid()
      modifies this`globalThreshold, this`logs
      ensures Valid()
      ensures globalThreshold == newThreshold
      ensures logs == Logged(old(logs), ThresholdEntries(newThreshold, now))
    {
      if newThreshold < UNSAFE_THRESHOLD {
        LogEvent(SystemAlert, Critical,
                 "Unsafe configuration attempt detected. Threshold " + host.numberText(newThreshold) + " is too low.",
                 "ADMIN_CONSOLE", None, Some("admin_alice"), now);
      }
      globalThreshold := newThreshold;
      LogEvent(ConfigChange, Warning,
               "Biometric Matching Threshold adjusted to " + host.toFixed(newThreshold * 100.0, 1) + "%",
               "ADMIN_CONSOLE", None, Some("admin_alice"), now);
    }

    /** The entries `setThreshold` logs, oldest first. */
    function ThresholdEntries(newThreshold: real, now: nat): (r: seq<SecurityLog>)
      ensures |r| == (if newThreshold < UNSAFE_THRESHOLD then 2 else 1)
      ensures r[|r| - 1].eventType == ConfigChange && r[|r| - 1].severity == Warning
      ensures newThreshold < UNSAFE_THRESHOLD ==> r[0].eventType == SystemAlert && r[0].severity == Critical
    {
      var change := SecurityLog(host.isoTime(now), ConfigChange, Warning,
                                "Biometric Matching Threshold adjusted to " + host.toFixed(newThreshold * 100.0, 1) + "%",
                                "ADMIN_CONSOLE", None, Some("admin_alice"));
      if newThreshold < UNSAFE_THRESHOLD then
        [SecurityLog(host.isoTime(now), SystemAlert, Critical,
                     "Unsafe configuration attempt detected. Threshold " + host.numberText(newThreshold) + " is too low.",
                     "ADMIN_CONSOLE", None, Some("admin_alice")), change]
      else [change]
    }

    /**
     * `getMetrics`: the derived rates rendered with two decimals, "0.00" for
     * an empty denominator, and the raw counters.
     */
    function GetMetrics(): (m: BiometricMetrics)
      reads this
      ensures m.totalAttempts == Total(stats)
      ensures m.threshold == globalThreshold
      ensures m.falseAccepts == stats.falseAccepts && m.falseRejects == stats.falseRejects
      ensures stats.trueAccepts + stats.falseRejects == 0 ==> m.frr == "0.00"
      ensures stats.trueRejects + stats.falseAccepts == 0 ==> m.far == "0.00"
      ensures stats.trueAccepts + stats.falseRejects > 0 ==> m.frr == host.toFixed(FrrRate(stats).value, 2)
      ensures stats.trueRejects + stats.falseAccepts > 0 ==> m.far == host.toFixed(FarRate(stats).value, 2)
    {
      var validUserAttempts := stats.trueAccepts + stats.falseRejects;
      var imposterAttempts := stats.trueRejects + stats.falseAccepts;
      BiometricMetrics(Rendered(host, FarRate(stats)), Rendered(host, FrrRate(stats)), globalThreshold,
                       validUserAttempts + imposterAttempts, stats.falseAccepts, stats.falseRejects)
    }

    /** `registerUser`: a taken username throws and changes nothing; otherwise one unenrolled user is appended. */
    method RegisterUser(username: string, role: Role, now: nat) returns (r: Result<User, string>)
      requires Valid()
      modifies this`users, this`logs
      ensures Valid()
      ensures UsernameTaken(old(users), username) ==>
                r == Err("Username '" + username + "' is already taken.")
                && users == old(users) && logs == old(logs)
      ensures !UsernameTaken(old(users), username) ==>
                var u := User("u_" + NatToString(now), username, role, false, None);
                && r == Ok(u)
                && users == old(users) + [u]
                && logs == Logged(old(logs), [RegisteredEntry(u, now)])
    {
      if UsernameTaken(users, username) {
        return Err("Username '" + username + "' is already taken.");
      }
      var newUser := User("u_" + NatToString(now), username, role, false, None);
      forall t | t in activeSessions
        ensures FindById(users + [newUser], activeSessions[t].userId).Some?
      {
        FindByIdAppend(users, newUser, activeSessions[t].userId);
      }
      users := users + [newUser];
      LogEvent(SystemAlert, Info, "New Identity Registered: " + username + " [" + role.Name() + "]",
               "INTERNAL_REGISTRY", Some(newUser.id), Some(newUser.username), now);
      r := Ok(newUser);
    }

    function RegisteredEntry(u: User, now: nat): SecurityLog {
      SecurityLog(host.isoTime(now), SystemAlert, Info, "New Identity Registered: " + u.username + " [" + u.role.Name() + "]",
                  "INTERNAL_REGISTRY", Some(u.id), Some(u.username))
    }

    function EnrolledEntry(u: User, now: nat): SecurityLog {
      SecurityLog(host.isoTime(now), Enrollment, Info, "User " + u.username + " enrolled. Template Hashed & Salted.",
                  DEFAULT_CONTEXT_IP, Some(u.id), Some(u.username))
    }

    /**
     * `enrollUser`: an unknown id or a low-quality embedding throws and changes
     * nothing; otherwise the user gets an intact template and is marked enrolled.
     * `generated` stands for the random embedding used when none is supplied.
     */
    method EnrollUser(userId: string, customEmbedding: Option<seq<real>>, generated: seq<real>,
                      salt: string, now: nat) returns (r: Result<BiometricTemplate, string>)
      requires Valid()
      modifies this`users, this`logs
      ensures Valid()
      ensures FindById(old(users), userId).None? ==>
                r == Err("User not found") && users == old(users) && logs == old(logs)
      ensures FindById(old(users), userId).Some? && host.variance(customEmbedding.GetOr(generated)) < ENROLL_MIN_VARIANCE ==>
                r == Err("Biometric Quality Low: Image too uniform.") && users == old(users) && logs == old(logs)
      ensures FindById(old(users), userId).Some? && host.variance(customEmbedding.GetOr(generated)) >= ENROLL_MIN_VARIANCE ==>
                var i := FindById(old(users), userId).value;
                var t := NewTemplate(host, old(users)[i], customEmbedding.GetOr(generated), salt, now);
                && r == Ok(t)
                && Intact(host, t)
                && users == old(users)[i := old(users)[i].(enrolled := true, biometricTemplate := Some(t))]
                && logs == Logged(old(logs), [EnrolledEntry(old(users)[i], now)])
    {
      var found := FindById(users, userId);
      if found.None? {
        return Err("User not found");
      }
      var i := found.value;
      var user := users[i];
      var embedding := customEmbedding.GetOr(generated);
      if host.variance(embedding) < ENROLL_MIN_VARIANCE {
        return Err("Biometric Quality Low: Image too uniform.");
      }
      var hash := SecureHash.Hash(host.serialize(embedding), salt);
      var template := BiometricTemplate("tmpl_" + NatToString(now), user.id, FaceIdV4, hash, salt,
                                        "AES256::" + hash[..8] + "...", embedding, host.isoTime(now));
      assert template == NewTemplate(host, user, embedding, salt, now);
      NewTemplateIsIntact(host, user, embedding, salt, now);
      var enrolledUser := user.(enrolled := true, biometricTemplate := Some(template));
      forall t | t in activeSessions
        ensures FindById(users[i := enrolledUser], activeSessions[t].userId).Some?
      {
        FindByIdStable(users, i, enrolledUser, activeSessions[t].userId);
      }
      users := users[i := enrolledUser];
      LogEvent(Enrollment, Info, "User " + user.username + " enrolled. Template Hashed & Salted.",
               DEFAULT_CONTEXT_IP, Some(user.id), Some(user.username), now);
      r := Ok(template);
    }

    /** The pipeline's outcome for an attempt made in the state before (`old`). */
    twostate function AttemptOutcome(userId: string, sample: Option<seq<real>>, thresholdOverride: Option<real>,
                                     contextIp: string, now: nat): Outcome
      reads this`users, this`rateLimitStore, this`globalThreshold
    {
      var d := RateLimit.Check(RateLimit.AttemptsOf(old(rateLimitStore), contextIp), now);
      Evaluate(host, d.allowed, old(users), userId, sample, thresholdOverride.GetOr(old(globalThreshold)))
    }

    /** The log after such an attempt: the throttling alert, if any, then the outcome's entry. */
    twostate function AttemptLog(userId: string, sample: Option<seq<real>>, thresholdOverride: Option<real>,
                                 contextIp: string, now: nat): seq<SecurityLog>
      reads this`users, this`rateLimitStore, this`globalThreshold, this`logs
    {
      var d := RateLimit.Check(RateLimit.AttemptsOf(old(rateLimitStore), contextIp), now);
      var o := AttemptOutcome(userId, sample, thresholdOverride, contextIp, now);
      Logged(old(logs), (if d.alert then [RateLimitEntry(contextIp, host.isoTime(now))] else [])
                        + OutcomeEntries(host, o, userId, contextIp, host.isoTime(now)))
    }

    /** The effect of one `verifyUser` call on the response, the limiter, the counters and the sessions. */
    twostate predicate VerifyEffectExceptLog(userId: string, sample: Option<seq<real>>, thresholdOverride: Option<real>,
                                             contextIp: string, isAttack: bool, now: nat,
                                             accessNonce: string, refreshNonce: string, r: AuthResponse)
      reads this`users, this`rateLimitStore, this`globalThreshold, this`stats, this`activeSessions
    {
      var d := RateLimit.Check(RateLimit.AttemptsOf(old(rateLimitStore), contextIp), now);
      var o := AttemptOutcome(userId, sample, thresholdOverride, contextIp, now);
      && r == Respond(o, now, accessNonce, refreshNonce)
      && rateLimitStore == old(rateLimitStore)[contextIp := d.stored]
      && stats == StatsAfter(old(stats), o, isAttack)
      && activeSessions == SessionsAfter(old(activeSessions), o, contextIp, now, accessNonce)
    }

    /**
     * The whole effect of one `verifyUser` call on the fields it may change,
     * relating the state before (`old`) to the state after and to the
     * response `r`; users, captured packets and the threshold are outside
     * its frame and so stay as they were.
     */
    twostate predicate VerifyEffect(userId: string, sample: Option<seq<real>>, thresholdOverride: Option<real>,
                                    contextIp: string, isAttack: bool, now: nat,
                                    accessNonce: string, refreshNonce: string, r: AuthResponse)
      reads this
    {
      && VerifyEffectExceptLog(userId, sample, thresholdOverride, contextIp, isAttack, now, accessNonce, refreshNonce, r)
      && logs == AttemptLog(userId, sample, thresholdOverride, contextIp, now)
    }

    /**
     * `verifyUser`: the short-circuiting pipeline. An attempt stopped before
     * scoring leaves the counters and the sessions alone; a scored attempt
     * bumps exactly one counter; a match opens a session bound to `contextIp`.
     * `now` is the instant of the call; the nonces stand for the random
     * suffixes of the two tokens.
     */
    method VerifyUser(userId: string, inputEmbedding: Option<seq<real>>, thresholdOverride: Option<real>,
                      contextIp: string, isAttack: bool, now: nat,
                      accessNonce: string, refreshNonce: string) returns (r: AuthResponse)
      requires Valid()
      modifies this`rateLimitStore, this`stats, this`activeSessions, this`logs
      ensures Valid()
      ensures VerifyEffect(userId, inputEmbedding, thresholdOverride, contextIp, isAttack, now,
                           accessNonce, refreshNonce, r)
    {
      ghost var logs0 := logs;
      ghost var d := RateLimit.Check(RateLimit.AttemptsOf(rateLimitStore, contextIp), now);
      ghost var alerts := if d.alert then [RateLimitEntry(contextIp, host.isoTime(now))] else [];
      var allowed := CheckRateLimit(contextIp, now);
      if !allowed {
        assert Evaluate(host, false, users, userId, inputEmbedding, thresholdOverride.GetOr(globalThreshold)) == RateLimited;
        assert alerts + [] == alerts;
        return Failure(RateLimitMessage(), 0.0);
      }
      ghost var entries := OutcomeEntries(host, Evaluate(host, true, users, userId, inputEmbedding, thresholdOverride.GetOr(globalThreshold)),
                                          userId, contextIp, host.isoTime(now));
      LoggedConcat(logs0, alerts, entries);
      r := Authenticate(userId, inputEmbedding, thresholdOverride.GetOr(globalThreshold), contextIp, isAttack, now,
                        accessNonce, refreshNonce);
    }

    /**
     * What a verification attempt that reached the stages after the rate
     * limiter does once its outcome `o` is known: the response, the counters,
     * the sessions and the log.
     */
    twostate predicate Applied(o: Outcome, userId: string, contextIp: string, isAttack: bool, now: nat,
                               accessNonce: string, refreshNonce: string, r: AuthResponse)
      reads this
    {
      && r == Respond(o, now, accessNonce, refreshNonce)
      && stats == StatsAfter(old(stats), o, isAttack)
      && activeSessions == SessionsAfter(old(activeSessions), o, contextIp, now, accessNonce)
      && logs == Logged(old(logs), OutcomeEntries(host, o, userId, contextIp, host.isoTime(now)))
    }

    /** The identity and sample stages of an attempt the rate limiter let through. */
    method Authenticate(userId: string, inputEmbedding: Option<seq<real>>, threshold: real,
                        contextIp: string, isAttack: bool, now: nat,
                        accessNonce: string, refreshNonce: string) returns (r: AuthResponse)
      requires Valid()
      modifies this`stats, this`activeSessions, this`logs
      ensures Valid()
      ensures Applied(Evaluate(host, true, users, userId, inputEmbedding, threshold),
                      userId, contextIp, isAttack, now, accessNonce, refreshNonce, r)
    {
      var found := FindById(users, userId);
      if found.None? || users[found.value].biometricTemplate.None? {
        LogEvent(AuthFailure, Warning, "Identity Check Failed: " + userId, contextIp, Some(userId), None, now);
        return Failure("Identity not found or not enrolled", 0.0);
      }
      var user := users[found.value];
      if inputEmbedding.None? {
        return Failure("No biometric data", 0.0);
      }
      r := Inspect(user, inputEmbedding.value, threshold, contextIp, isAttack, now, accessNonce, refreshNonce);
    }

    /** The liveness and integrity stages, then scoring; `user` is a known, enrolled identity. */
    method Inspect(user: User, sample: seq<real>, threshold: real, contextIp: string, isAttack: bool, now: nat,
                   accessNonce: string, refreshNonce: string) returns (r: AuthResponse)
      requires Valid()
      requires user.biometricTemplate.Some? && FindById(users, user.id).Some?
      modifies this`stats, this`activeSessions, this`logs
      ensures Valid()
      ensures Applied(Judge(host, user, sample, threshold), user.id, contextIp, isAttack, now,
                      accessNonce, refreshNonce, r)
    {
      var template := user.biometricTemplate.value;
      if host.variance(sample) < LIVENESS_MIN_VARIANCE {
        assert Judge(host, user, sample, threshold) == Spoofed(user);
        LogEvent(AuthFailure, Warning, "Spoof Detected: Low variance", contextIp, Some(user.id), Some(user.username), now);
        return Failure("Liveness Check Failed", 0.0);
      }
      var computedHash := SecureHash.Hash(host.serialize(template.embedding), template.salt);
      if computedHash != template.dataHash {
        assert Judge(host, user, sample, threshold) == IntegrityViolation(user);
        LogEvent(SystemAlert, Critical, "DATA INTEGRITY VIOLATION: Template for " + user.username + " modified externally.",
                 "SYSTEM_INTERNAL", Some(user.id), Some(user.username), now);
        return Failure(INTEGRITY_MESSAGE, 0.0);
      }
      assert Judge(host, user, sample, threshold).Scored?;
      r := Score(user, sample, threshold, contextIp, isAttack, now, accessNonce, refreshNonce);
    }

    /** Matching, metrics, and on a match the session. */
    method Score(user: User, sample: seq<real>, threshold: real, contextIp: string, isAttack: bool, now: nat,
                 accessNonce: string, refreshNonce: string) returns (r: AuthResponse)
      requires Valid()
      requires user.biometricTemplate.Some? && FindById(users, user.id).Some?
      modifies this`stats, this`activeSessions, this`logs
      ensures Valid()
      ensures var score := Similarity(host, sample, user.biometricTemplate.value.embedding);
              Applied(Scored(user, score, score >= threshold), user.id, contextIp, isAttack, now,
                      accessNonce, refreshNonce, r)
    {
      var score := Similarity(host, sample, user.biometricTemplate.value.embedding);
      var isMatch := score >= threshold;
      ghost var at := host.isoTime(now);
      stats := Record(stats, isMatch, isAttack);
      if isMatch {
        var accessToken := AccessToken(now, accessNonce);
        var refreshToken := RefreshToken(now, refreshNonce);
        activeSessions := activeSessions[accessToken := Session(user.id, contextIp, now + TOKEN_EXPIRY_MS, user.role.Name())];
        var details := "Access Granted: " + user.username + " (Score: " + host.toFixed(score, 4) + ")";
        assert OutcomeEntries(host, Scored(user, score, true), user.id, contextIp, at)
            == [SecurityLog(at, AuthSuccess, Info, details, contextIp, Some(user.id), Some(user.username))];
        LogEvent(AuthSuccess, Info, details, contextIp, Some(user.id), Some(user.username), now);
        r := AuthResponse(true, Some(accessToken), Some(refreshToken), Some(TOKEN_EXPIRY_MS / 1000),
                          "Identity Verified", Some(score));
      } else {
        var details := "Biometric Mismatch: " + user.username + " (Score: " + host.toFixed(score, 4) + ")";
        assert OutcomeEntries(host, Scored(user, score, false), user.id, contextIp, at)
            == [SecurityLog(at, AuthFailure, Warning, details, contextIp, Some(user.id), Some(user.username))];
        LogEvent(AuthFailure, Warning, details, contextIp, Some(user.id), Some(user.username), now);
        r := Failure("Identity Verification Failed", score);
      }
    }

    /** `captureTraffic`: records a sniffed request and returns how many are held. */
    method CaptureTraffic(userId: string, embedding: seq<real>, now: nat, nonce: string) returns (count: nat)
      requires Valid()
      modifies this`capturedPackets
      ensures Valid()
      ensures capturedPackets == old(capturedPackets) + [Packet(userId, embedding, now, nonce)]
      ensures count == |capturedPackets|
    {
      capturedPackets := capturedPackets + [Packet(userId, embedding, now, nonce)];
      count := |capturedPackets|;
    }

    /**
     * The delayed callback of the tampering scenario, run as an explicit later
     * step: writes the saved hash back into the user's current template, if any.
     */
    method RestoreHash(pending: Restore)
      requires Valid()
      modifies this`users
      ensures Valid()
      ensures match FindById(old(users), pending.userId)
              case None => users == old(users)
              case Some(i) =>
                match old(users)[i].biometricTemplate
                case None => users == old(users)
                case Some(t) =>
                  users == old(users)[i := old(users)[i].(biometricTemplate := Some(t.(dataHash := pending.dataHash)))]
    {
      var found := FindById(users, pending.userId);
      if found.Some? && users[found.value].biometricTemplate.Some? {
        var i := found.value;
        var t := users[i].biometricTemplate.value;
        var restored := users[i].(biometricTemplate := Some(t.(dataHash := pending.dataHash)));
        forall s | s in activeSessions
          ensures FindById(users[i := restored], activeSessions[s].userId).Some?
        {
          FindByIdStable(users, i, restored, activeSessions[s].userId);
        }
        users := users[i := restored];
      }
    }

    /** The fields an attack may change besides the log and the users are as they were. */
    twostate predicate NoAttemptMade()
      reads this
    {
      rateLimitStore == old(rateLimitStore) && stats == old(stats) && activeSessions == old(activeSessions)
    }

    /** What one REPLAY scenario does, by the plan the captured packets give. */
    twostate predicate ReplayEffect(target: string, securityLevel: string, now: nat,
                                    accessNonce: string, refreshNonce: string, r: AuthResponse)
      reads this
    {
      match ReplayPlan(old(capturedPackets), securityLevel, now)
      case NoPackets =>
        r == Verdict(false, "No packets captured.") && logs == old(logs) && NoAttemptMade()
      case StalePacket(age) =>
        && r == Verdict(false, "Replay Detected: Timestamp expired.")
        && logs == Logged(old(logs), [ReplayBlockedEntry(age, target, UsernameOf(old(users), target), host.isoTime(now))])
        && NoAttemptMade()
      case Resend(embedding) =>
        VerifyEffect(target, Some(embedding), None, ATTACKER_IP, true, now, accessNonce, refreshNonce, r)
    }

    /**
     * REPLAY: resends the last captured packet from the attacker's IP. Under
     * the HIGH profile a packet older than 5000 ms is refused and logged
     * without reaching the pipeline.
     */
    method ReplayAttack(target: string, securityLevel: string, now: nat,
                        accessNonce: string, refreshNonce: string) returns (r: AuthResponse)
      requires Valid()
      modifies this`rateLimitStore, this`stats, this`activeSessions, this`logs
      ensures Valid()
      ensures ReplayEffect(target, securityLevel, now, accessNonce, refreshNonce, r)
    {
      var plan := ReplayPlan(capturedPackets, securityLevel, now);
      match plan
      case NoPackets =>
        r := Verdict(false, "No packets captured.");
      case StalePacket(age) =>
        r := RefuseStaleReplay(age, target, UsernameOf(users, target), now);
      case Resend(embedding) =>
        r := VerifyUser(target, Some(embedding), None, ATTACKER_IP, true, now, accessNonce, refreshNonce);
    }

    /** The HIGH profile's refusal of a stale packet: logged, and nothing else changes. */
    method RefuseStaleReplay(age: int, target: string, username: Option<string>, now: nat) returns (r: AuthResponse)
      requires Valid()
      modifies this`logs
      ensures Valid()
      ensures r == Verdict(false, "Replay Detected: Timestamp expired.")
      ensures logs == Logged(old(logs), [ReplayBlockedEntry(age, target, username, host.isoTime(now))])
    {
      LogEvent(AttackDetected, Critical, "REPLAY BLOCKED: Stale Packet (Age: " + IntToString(age) + "ms).",
               ATTACKER_IP, Some(target), username, now);
      r := Verdict(false, "Replay Detected: Timestamp expired.");
    }

    /**
     * What one TAMPERING scenario does: without a template nothing changes;
     * otherwise the hash becomes the marker, the restore is returned, and the
     * attempt is throttled or refused at the integrity check.
     */
    twostate predicate TamperingEffect(target: string, now: nat, r: AuthResponse, new pending: Option<Restore>)
      reads this
    {
      && !r.success
      && (TemplateEmbedding(old(users), target).None? ==>
            && r == Verdict(false, "No template.") && pending.None?
            && users == old(users) && logs == old(logs) && NoAttemptMade())
      && (TemplateEmbedding(old(users), target).Some? ==>
            var i := FindById(old(users), target).value;
            var t := old(users)[i].biometricTemplate.value;
            var d := RateLimit.Check(RateLimit.AttemptsOf(old(rateLimitStore), ATTACKER_IP), now);
            && users == old(users)[i := old(users)[i].(biometricTemplate := Some(t.(dataHash := CORRUPTED_HASH)))]
            && pending == Some(Restore(target, t.dataHash))
            && rateLimitStore == old(rateLimitStore)[ATTACKER_IP := d.stored]
            && stats == old(stats) && activeSessions == old(activeSessions)
            && (d.allowed ==>
                  && r == Failure(INTEGRITY_MESSAGE, 0.0)
                  && logs == Logged(old(logs), OutcomeEntries(host, IntegrityViolation(users[i]), target,
                                                              ATTACKER_IP, host.isoTime(now))))
            && (!d.allowed ==>
                  && r == Failure(RateLimitMessage(), 0.0)
                  && logs == Logged(old(logs), if d.alert then [RateLimitEntry(ATTACKER_IP, host.isoTime(now))] else [])))
    }

    /**
     * TAMPERING: overwrites the target's stored hash with a marker and
     * verifies the template's own embedding from the attacker's IP; the
     * restore of the original hash is returned for a later `RestoreHash`.
     * The attempt never succeeds: past the rate limiter it stops at the
     * integrity check.
     */
    method TamperingAttack(target: string, now: nat, accessNonce: string, refreshNonce: string)
      returns (r: AuthResponse, pending: Option<Restore>)
      requires Valid()
      modifies this`users, this`rateLimitStore, this`stats, this`activeSessions, this`logs
      ensures Valid()
      ensures TamperingEffect(target, now, r, pending)
    {
      var found := FindById(users, target);
      if found.None? || users[found.value].biometricTemplate.None? {
        return Verdict(false, "No template."), None;
      }
      var i := found.value;
      var template := users[i].biometricTemplate.value;
      CorruptHash(i);
      CorruptedTemplateIsIntegrityViolation(host, users, target, globalThreshold);
      r := VerifyUser(target, Some(template.embedding), None, ATTACKER_IP, true, now, accessNonce, refreshNonce);
      pending := Some(Restore(target, template.dataHash));
    }

    /** Overwrites the stored hash of the `i`-th user's template with the marker. */
    method CorruptHash(i: nat)
      requires Valid() && i < |users| && users[i].biometricTemplate.Some?
      modifies this`users
      ensures Valid()
      ensures users == old(users)[i := old(users)[i].(biometricTemplate :=
                                          Some(old(users)[i].biometricTemplate.value.(dataHash := CORRUPTED_HASH)))]
      ensures FindById(users, users[i].id) == FindById(old(users), users[i].id)
    {
      var corrupted := users[i].(biometricTemplate := Some(users[i].biometricTemplate.value.(dataHash := CORRUPTED_HASH)));
      forall s | s in activeSessions
        ensures FindById(users[i := corrupted], activeSessions[s].userId).Some?
      {
        FindByIdStable(users, i, corrupted, activeSessions[s].userId);
      }
      FindByIdStable(users, i, corrupted, users[i].id);
      users := users[i := corrupted];
    }

    /**
     * What one BRUTE_FORCE run reports, given the pipeline's answers to its
     * attempts in order: it stops at the first answer that ends the run, and
     * otherwise makes all 20 attempts and reports the best score.
     */
    ghost predicate BruteForceEffect(clock: seq<nat>, r: AuthResponse, responses: seq<AuthResponse>) {
      && 1 <= |responses| <= BRUTE_FORCE_ATTEMPTS
      && (forall j :: 0 <= j < |responses| - 1 ==> BruteForceStop(responses[j]).None?)
      && (BruteForceStop(responses[|responses| - 1]).Some? ==> r == BruteForceStop(responses[|responses| - 1]).value)
      && (BruteForceStop(responses[|responses| - 1]).None? ==>
            && |responses| == BRUTE_FORCE_ATTEMPTS
            && r == Verdict(false, "Brute Force Failed. Best Score: " + host.toFixed(BestScore(responses), 4)))
      && (Burst(clock) ==> |responses| <= RateLimit.MAX_ATTEMPTS_PER_WINDOW + 1
                           && BruteForceStop(responses[|responses| - 1]).Some?)
    }

    /**
     * BRUTE_FORCE: up to 20 attempts with random embeddings against a 0.98
     * threshold from the attacker's IP, stopping at the first throttling
     * message or success; `draws` are the embeddings and `clock` the instants
     * of the 20 attempts, and `responses` are the pipeline's answers in order.
     * When all the attempts fall within one rate-limit window, the sixth at
     * the latest is throttled, so the run never reports a best score.
     */
    method BruteForceAttack(target: string, draws: seq<seq<real>>, clock: seq<nat>,
                            accessNonce: string, refreshNonce: string)
      returns (r: AuthResponse, ghost responses: seq<AuthResponse>)
      requires Valid()
      requires |draws| == BRUTE_FORCE_ATTEMPTS && |clock| == BRUTE_FORCE_ATTEMPTS
      modifies this`rateLimitStore, this`stats, this`activeSessions, this`logs
      ensures Valid()
      ensures BruteForceEffect(clock, r, responses)
    {
      RateLimitMessageIsRecognised();
      var maxScore := 0.0;
      responses := [];
      var i := 0;
      while i < BRUTE_FORCE_ATTEMPTS
        invariant 0 <= i <= BRUTE_FORCE_ATTEMPTS && |responses| == i
        invariant Valid()
        invariant forall j :: 0 <= j < i ==> BruteForceStop(responses[j]).None?
        invariant maxScore == BestScore(responses)
        invariant Burst(clock) ==>
                    i <= RateLimit.MAX_ATTEMPTS_PER_WINDOW
                    && |RateLimit.Since(RateLimit.AttemptsOf(rateLimitStore, ATTACKER_IP), clock[0])| >= i
      {
        var result := BruteForceTry(target, draws[i], clock[i], clock[0], accessNonce, refreshNonce);
        assert (responses + [result])[..i] == responses;
        responses := responses + [result];
        if !result.success && Contains(result.message, THROTTLE_MARKER) {
          return Verdict(false, THROTTLED_MESSAGE), responses;
        }
        if result.success {
          return Verdict(true, BRUTE_FORCE_SUCCESS), responses;
        }
        var score := result.similarityScore.GetOr(0.0);
        if score > maxScore {
          maxScore := score;
        }
        i := i + 1;
      }
      r := Verdict(false, "Brute Force Failed. Best Score: " + host.toFixed(maxScore, 4));
    }

    /**
     * One attempt of the brute-force run. Within the window opening at `lo`,
     * an attempt that is not throttled adds one to the attacker's attempts
     * since `lo`, and once there are five of them the attempt is throttled.
     */
    method BruteForceTry(target: string, draw: seq<real>, at: nat, lo: nat,
                         accessNonce: string, refreshNonce: string) returns (result: AuthResponse)
      requires Valid()
      modifies this`rateLimitStore, this`stats, this`activeSessions, this`logs
      ensures Valid()
      ensures lo <= at < lo + RateLimit.RATE_LIMIT_WINDOW_MS ==>
                var before := |RateLimit.Since(RateLimit.AttemptsOf(old(rateLimitStore), ATTACKER_IP), lo)|;
                && (before >= RateLimit.MAX_ATTEMPTS_PER_WINDOW ==> result == Failure(RateLimitMessage(), 0.0))
                && (result != Failure(RateLimitMessage(), 0.0) ==>
                      |RateLimit.Since(RateLimit.AttemptsOf(rateLimitStore, ATTACKER_IP), lo)| == before + 1)
    {
      ghost var d := RateLimit.Check(RateLimit.AttemptsOf(rateLimitStore, ATTACKER_IP), at);
      if lo <= at < lo + RateLimit.RATE_LIMIT_WINDOW_MS {
        RateLimit.BurstIsThrottled(RateLimit.AttemptsOf(rateLimitStore, ATTACKER_IP), lo, at);
      }
      result := VerifyUser(target, Some(draw), Some(BRUTE_FORCE_THRESHOLD), ATTACKER_IP, true, at,
                           accessNonce, refreshNonce);
      assert !d.allowed ==> result == Failure(RateLimitMessage(), 0.0);
    }

    /** What one UNAUTHORIZED_ENROLLMENT scenario does to the response and the log. */
    twostate predicate EnrollmentAttackEffect(securityLevel: string, now: nat, r: AuthResponse)
      reads this`logs
    {
      && (securityLevel == HIGH ==>
            && r == Verdict(false, "Enrollment Rejected: Invalid Identity Reference.")
            && logs == Logged(old(logs), [EnrollmentBlockedEntry(host.isoTime(now))]))
      && (securityLevel != HIGH ==>
            r == Verdict(true, "Vulnerability Exploited: Shadow Admin Enrolled.") && logs == old(logs))
    }

    /**
     * UNAUTHORIZED_ENROLLMENT: refused and logged under HIGH, reported as
     * exploited otherwise; the users are never touched either way.
     */
    method UnauthorizedEnrollmentAttack(securityLevel: string, now: nat) returns (r: AuthResponse)
      requires Valid()
      modifies this`logs
      ensures Valid()
      ensures EnrollmentAttackEffect(securityLevel, now, r)
    {
      if securityLevel == HIGH {
        LogEvent(AttackDetected, Critical, "BOLA Exploitation Blocked: Enrollment checks failed.",
                 ATTACKER_IP, None, Some("shadow_admin"), now);
        return Verdict(false, "Enrollment Rejected: Invalid Identity Reference.");
      }
      return Verdict(true, "Vulnerability Exploited: Shadow Admin Enrolled.");
    }

    /**
     * What one SESSION_HIJACKING scenario does: the victim's own verification
     * from the default IP, then the outcome of presenting its token.
     */
    twostate predicate HijackEffect(target: string, securityLevel: string, now: nat,
                                    accessNonce: string, refreshNonce: string, r: AuthResponse)
      reads this
    {
      var sample := TemplateEmbedding(old(users), target);
      var victim := Respond(AttemptOutcome(target, sample, None, DEFAULT_CONTEXT_IP, now),
                            now, accessNonce, refreshNonce);
      var verified := AttemptLog(target, sample, None, DEFAULT_CONTEXT_IP, now);
      && VerifyEffectExceptLog(target, sample, None, DEFAULT_CONTEXT_IP, false, now,
                               accessNonce, refreshNonce, victim)
      && StolenTokenOutcome(victim, verified, target, securityLevel, UsernameOf(old(users), target), now, r, logs)
    }

    /**
     * The outcome of presenting the victim's token from the hijacker's IP,
     * from the log `before` to the log `after`: no token, the HIGH profile's
     * refusal, or the hijack.
     */
    predicate StolenTokenOutcome(victim: AuthResponse, before: seq<SecurityLog>, target: string, securityLevel: string,
                                 username: Option<string>, now: nat, r: AuthResponse, after: seq<SecurityLog>)
    {
      && (victim.accessToken.None? ==>
            r == Verdict(false, "Could not establish victim session.") && after == before)
      && (victim.accessToken.Some? && securityLevel == HIGH ==>
            && r == Verdict(false, "Token Invalid: IP Mismatch (Geo-binding active).")
            && after == Logged(before, [HijackBlockedEntry(DEFAULT_CONTEXT_IP, target, username, host.isoTime(now))]))
      && (victim.accessToken.Some? && securityLevel != HIGH ==>
            r == Verdict(true, "Session Hijacked! Access granted.") && after == before)
    }

    /**
     * SESSION_HIJACKING: the victim is verified with their own template from
     * the default IP; the stolen token is then presented from the hijacker's
     * IP. Under HIGH the token's session is bound to the victim's IP, which
     * differs from the hijacker's, so the attack is always refused.
     */
    method SessionHijackingAttack(target: string, securityLevel: string, now: nat,
                                  accessNonce: string, refreshNonce: string) returns (r: AuthResponse)
      requires Valid()
      modifies this`rateLimitStore, this`stats, this`activeSessions, this`logs
      ensures Valid()
      ensures securityLevel == HIGH ==> !r.success
      ensures HijackEffect(target, securityLevel, now, accessNonce, refreshNonce, r)
    {
      var username := UsernameOf(users, target);
      var victimAuth := VictimLogin(target, now, accessNonce, refreshNonce);
      r := UseStolenToken(victimAuth, target, securityLevel, username, now);
    }

    /**
     * The victim's half of the scenario: verification with their own
     * template from the default IP. A token issued here names a session
     * bound to that IP.
     */
    method VictimLogin(target: string, now: nat, accessNonce: string, refreshNonce: string)
      returns (victimAuth: AuthResponse)
      requires Valid()
      modifies this`rateLimitStore, this`stats, this`activeSessions, this`logs
      ensures Valid()
      ensures VerifyEffect(target, TemplateEmbedding(old(users), target), None, DEFAULT_CONTEXT_IP, false, now,
                           accessNonce, refreshNonce, victimAuth)
      ensures victimAuth.accessToken.Some? ==>
                victimAuth.accessToken.value in activeSessions
                && activeSessions[victimAuth.accessToken.value].ip == DEFAULT_CONTEXT_IP
    {
      var sample := TemplateEmbedding(users, target);
      victimAuth := VerifyUser(target, sample, None, DEFAULT_CONTEXT_IP, false, now, accessNonce, refreshNonce);
    }

    /**
     * The hijacker's half of the scenario: the victim's access token, if one
     * was issued, is presented from the hijacker's IP. Under HIGH the session's
     * IP binding refuses it.
     */
    method UseStolenToken(victimAuth: AuthResponse, target: string, securityLevel: string,
                          username: Option<string>, now: nat) returns (r: AuthResponse)
      requires Valid()
      requires victimAuth.accessToken.Some? ==>
                 victimAuth.accessToken.value in activeSessions
                 && activeSessions[victimAuth.accessToken.value].ip == DEFAULT_CONTEXT_IP
      modifies this`logs
      ensures Valid()
      ensures StolenTokenOutcome(victimAuth, old(logs), target, securityLevel, username, now, r, logs)
    {
      if victimAuth.accessToken.None? {
        return Verdict(false, "Could not establish victim session.");
      }
      var stolenToken := victimAuth.accessToken.value;
      if securityLevel == HIGH {
        assert DEFAULT_CONTEXT_IP[0] != HIJACKER_IP[0];
        if stolenToken in activeSessions && activeSessions[stolenToken].ip != HIJACKER_IP {
          r := RefuseHijack(activeSessions[stolenToken].ip, target, username, now);
          return;
        }
      }
      return Verdict(true, "Session Hijacked! Access granted.");
    }

    /** The HIGH profile's refusal of a token presented from an IP it is not bound to. */
    method RefuseHijack(boundIp: string, target: string, username: Option<string>, now: nat) returns (r: AuthResponse)
      requires Valid()
      modifies this`logs
      ensures Valid()
      ensures r == Verdict(false, "Token Invalid: IP Mismatch (Geo-binding active).")
      ensures logs == Logged(old(logs), [HijackBlockedEntry(boundIp, target, username, host.isoTime(now))])
    {
      LogEvent(AttackDetected, Critical,
               "Session Hijacking Blocked: Token bound to " + boundIp + ", used by " + HIJACKER_IP,
               HIJACKER_IP, Some(target), username, now);
      r := Verdict(false, "Token Invalid: IP Mismatch (Geo-binding active).");
    }

    /**
     * What one THRESHOLD_MANIPULATION scenario does: nothing under HIGH,
     * otherwise one attempt against the 0.1 threshold.
     */
    twostate predicate ManipulationEffect(target: string, securityLevel: string, draw: seq<real>, now: nat,
                                          accessNonce: string, refreshNonce: string, r: AuthResponse)
      reads this
    {
      && (securityLevel == HIGH ==>
            r == Verdict(false, "Config Locked. Write access denied.") && logs == old(logs) && NoAttemptMade())
      && (securityLevel != HIGH ==>
            VerifyEffect(target, Some(draw), Some(MANIPULATED_THRESHOLD), ATTACKER_IP, true, now,
                         accessNonce, refreshNonce, r))
    }

    /**
     * THRESHOLD_MANIPULATION: refused under HIGH without any effect;
     * otherwise one attempt with a random embedding against a threshold of
     * 0.1. The global threshold is outside the frame: it is never written.
     */
    method ThresholdManipulationAttack(target: string, securityLevel: string, draw: seq<real>, now: nat,
                                       accessNonce: string, refreshNonce: string) returns (r: AuthResponse)
      requires Valid()
      modifies this`rateLimitStore, this`stats, this`activeSessions, this`logs
      ensures Valid()
      ensures ManipulationEffect(target, securityLevel, draw, now, accessNonce, refreshNonce, r)
    {
      if securityLevel == HIGH {
        return Verdict(false, "Config Locked. Write access denied.");
      }
      r := VerifyUser(target, Some(draw), Some(MANIPULATED_THRESHOLD), ATTACKER_IP, true, now, accessNonce, refreshNonce);
    }

    /**
     * The three scenarios that send a probe through `verifyUser` from the
     * attacker's IP: REPLAY, TAMPERING and BRUTE_FORCE.
     */
    method SimulateProbeAttack(kind: AttackType, target: string, securityLevel: string,
                               draws: seq<seq<real>>, clock: seq<nat>, now: nat,
                               accessNonce: string, refreshNonce: string)
      returns (r: AuthResponse, pending: Option<Restore>, ghost responses: seq<AuthResponse>)
      requires Valid()
      requires kind.Replay? || kind.Tampering? || kind.BruteForce?
      requires |draws| == BRUTE_FORCE_ATTEMPTS && |clock| == BRUTE_FORCE_ATTEMPTS
      modifies this`users, this`rateLimitStore, this`stats, this`activeSessions, this`logs
      ensures Valid()
      ensures kind.Replay? ==> ReplayEffect(target, securityLevel, now, accessNonce, refreshNonce, r)
      ensures kind.Tampering? ==> TamperingEffect(target, now, r, pending) && !r.success
      ensures kind.BruteForce? ==> BruteForceEffect(clock, r, responses)
      ensures !kind.Tampering? ==> users == old(users) && pending.None?
      ensures kind.BruteForce? && Burst(clock) ==>
                r == Verdict(true, BRUTE_FORCE_SUCCESS) || r == Verdict(false, THROTTLED_MESSAGE)
    {
      pending, responses := None, [];
      match kind
      case Replay =>
        r := ReplayAttack(target, securityLevel, now, accessNonce, refreshNonce);
      case Tampering =>
        r, pending := TamperingAttack(target, now, accessNonce, refreshNonce);
      case BruteForce =>
        r, responses := BruteForceAttack(target, draws, clock, accessNonce, refreshNonce);
    }

    /**
     * The three scenarios the HIGH profile refuses outright:
     * UNAUTHORIZED_ENROLLMENT, SESSION_HIJACKING and THRESHOLD_MANIPULATION.
     */
    method SimulatePolicyAttack(kind: AttackType, target: string, securityLevel: string, draw: seq<real>,
                                now: nat, accessNonce: string, refreshNonce: string) returns (r: AuthResponse)
      requires Valid()
      requires kind.UnauthorizedEnrollment? || kind.SessionHijacking? || kind.ThresholdManipulation?
      modifies this`rateLimitStore, this`stats, this`activeSessions, this`logs
      ensures Valid()
      ensures kind.UnauthorizedEnrollment? ==> EnrollmentAttackEffect(securityLevel, now, r) && NoAttemptMade()
      ensures kind.SessionHijacking? ==> HijackEffect(target, securityLevel, now, accessNonce, refreshNonce, r)
      ensures kind.ThresholdManipulation? ==>
                ManipulationEffect(target, securityLevel, draw, now, accessNonce, refreshNonce, r)
      ensures securityLevel == HIGH ==> !r.success
    {
      match kind
      case UnauthorizedEnrollment =>
        r := UnauthorizedEnrollmentAttack(securityLevel, now);
      case SessionHijacking =>
        r := SessionHijackingAttack(target, securityLevel, now, accessNonce, refreshNonce);
      case ThresholdManipulation =>
        r := ThresholdManipulationAttack(target, securityLevel, draw, now, accessNonce, refreshNonce);
    }

    /**
     * `simulateAttack`: dispatches on the attack kind, and each kind has the
     * effect its scenario states. `now` is the instant of the scenario,
     * `clock` those of the brute-force attempts, `draws` the random
     * embeddings it would generate; `responses` are the brute-force run's
     * answers, empty for the other kinds.
     */
    method SimulateAttack(kind: AttackType, target: string, securityLevel: string,
                          draws: seq<seq<real>>, clock: seq<nat>, now: nat,
                          accessNonce: string, refreshNonce: string)
      returns (r: AuthResponse, pending: Option<Restore>, ghost responses: seq<AuthResponse>)
      requires Valid()
      requires |draws| == BRUTE_FORCE_ATTEMPTS && |clock| == BRUTE_FORCE_ATTEMPTS
      modifies this`users, this`rateLimitStore, this`stats, this`activeSessions, this`logs
      ensures Valid()
      ensures kind.Replay? ==> ReplayEffect(target, securityLevel, now, accessNonce, refreshNonce, r)
      ensures kind.Tampering? ==> TamperingEffect(target, now, r, pending)
      ensures kind.BruteForce? ==> BruteForceEffect(clock, r, responses)
      ensures kind.UnauthorizedEnrollment? ==> EnrollmentAttackEffect(securityLevel, now, r)
      ensures kind.SessionHijacking? ==> HijackEffect(target, securityLevel, now, accessNonce, refreshNonce, r)
      ensures kind.ThresholdManipulation? ==>
                ManipulationEffect(target, securityLevel, draws[0], now, accessNonce, refreshNonce, r)
      ensures !kind.Tampering? ==> users == old(users) && pending.None?
      ensures kind.Tampering? ==> !r.success
      ensures kind.UnauthorizedEnrollment? ==> rateLimitStore == old(rateLimitStore) && NoAttemptMade()
      ensures securityLevel == HIGH ==>
                (kind.UnauthorizedEnrollment? || kind.ThresholdManipulation? || kind.SessionHijacking?) ==> !r.success
      ensures kind.BruteForce? && Burst(clock) ==>
                r == Verdict(true, BRUTE_FORCE_SUCCESS) || r == Verdict(false, THROTTLED_MESSAGE)
    {
      if kind.Replay? || kind.Tampering? || kind.BruteForce? {
        r, pending, responses := SimulateProbeAttack(kind, target, securityLevel, draws, clock, now,
                                                     accessNonce, refreshNonce);
      } else {
        r := SimulatePolicyAttack(kind, target, securityLevel, draws[0], now, accessNonce, refreshNonce);
        pending, responses := None, [];
      }
    }
  }
}
