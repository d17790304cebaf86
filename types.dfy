/**
 * The records shared by the simulated biometric engine and the log viewer:
 * identities and their templates, audit entries, authentication responses,
 * the metrics view and the catalogue of attack scenarios.
 */
module Types {
  import opened Wrappers

  datatype Role = EndUser | Admin | SecurityEngineer {
    /** The role as the source spells it. */
    function Name(): string {
      match this
      case EndUser => "USER"
      case Admin => "ADMIN"
      case SecurityEngineer => "SECURITY_ENGINEER"
    }
  }

  datatype Algorithm = FaceIdV4 | FingerprintSha256

  /** An enrolled biometric template; `dataHash` protects `embedding` and `salt`. */
  datatype BiometricTemplate = BiometricTemplate(
    id: string,
    userId: string,
    algorithm: Algorithm,
    dataHash: string,
    salt: string,
    encryptedData: string,
    embedding: seq<real>,
    createdAt: string)

  /** An identity; it owns at most one template. */
  datatype User = User(
    id: string,
    username: string,
    role: Role,
    enrolled: bool,
    biometricTemplate: Option<BiometricTemplate>)

  datatype EventType =
    | AuthSuccess | AuthFailure | Enrollment | AttackDetected
    | SystemAlert | ConfigChange | RateLimitExceeded
  {
    /** The event type as the source spells it. */
    function Name(): string {
      match this
      case AuthSuccess => "AUTH_SUCCESS"
      case AuthFailure => "AUTH_FAILURE"
      case Enrollment => "ENROLLMENT"
      case AttackDetected => "ATTACK_DETECTED"
      case SystemAlert => "SYSTEM_ALERT"
      case ConfigChange => "CONFIG_CHANGE"
      case RateLimitExceeded => "RATE_LIMIT_EXCEEDED"
    }
  }

  datatype Severity = Info | Warning | Critical {
    /** The severity as the source spells it. */
    function Name(): string {
      match this
      case Info => "INFO"
      case Warning => "WARNING"
      case Critical => "CRITICAL"
    }
  }

  /** One audit entry (the random entry id and the metadata bag are not modelled). */
  datatype SecurityLog = SecurityLog(
    timestamp: string,
    eventType: EventType,
    severity: Severity,
    details: string,
    sourceIp: string,
    userId: Option<string>,
    username: Option<string>)

  /** What a verification attempt (or an attack scenario) reports to its caller. */
  datatype AuthResponse = AuthResponse(
    success: bool,
    accessToken: Option<string>,
    refreshToken: Option<string>,
    expiresIn: Option<nat>,
    message: string,
    similarityScore: Option<real>)

  /** The metrics view: FAR and FRR as percentages rendered with two decimals. */
  datatype BiometricMetrics = BiometricMetrics(
    far: string,
    frr: string,
    threshold: real,
    totalAttempts: nat,
    falseAccepts: nat,
    falseRejects: nat)

  datatype AttackType =
    | Replay | Tampering | BruteForce | ThresholdManipulation
    | UnauthorizedEnrollment | SessionHijacking
}
