/** The values the platform stores and exchanges: identifiers, the symbolic
    model of the tenant-scoped cryptography, and the records kept in Redis and
    Postgres. */
module Types {

  datatype Option<+T> = None | Some(value: T) {
    function GetOr(default: T): T {
      match this
      case Some(v) => v
      case None => default
    }
  }

  datatype Result<+T, +E> = Success(value: T) | Failure(error: E)

  type Number = string
  type Region = string
  type Tenant = string
  type Phone = string
  type Sid = string
  type EventId = string

  /** A member of one of the region's pool keys `pool:{region}:*`. */
  type Slot = (Region, Number)

  // ---------------------------------------------------------------- crypto

  /** HMAC of a phone keyed by the tenant, taken to be injective in both. */
  datatype PhoneHash = PhoneHash(tenant: Tenant, phone: Phone)

  /** AES-256-GCM ciphertext under the tenant's derived key. */
  datatype Cipher = Cipher(tenant: Tenant, phone: Phone)

  function HashPhone(phone: Phone, tenant: Tenant): PhoneHash {
    PhoneHash(tenant, phone)
  }

  function Encrypt(phone: Phone, tenant: Tenant): Cipher {
    Cipher(tenant, phone)
  }

  /** Authentication fails under any key but the one that encrypted. */
  function Decrypt(cipher: Cipher, tenant: Tenant): Option<Phone> {
    if cipher.tenant == tenant then Some(cipher.phone) else None
  }

  /** `+`, a digit 1-9, then 7 to 14 digits. */
  predicate IsE164(phone: Phone) {
    && 9 <= |phone| <= 16
    && phone[0] == '+'
    && '1' <= phone[1] <= '9'
    && forall i :: 2 <= i < |phone| ==> '0' <= phone[i] <= '9'
  }

  // --------------------------------------------------------------- records

  datatype SessionState = PENDING | ACTIVE | GRACE_PERIOD | EXPIRED | FAILED
  datatype DirectionMode = BIDIRECTIONAL | A_TO_B_ONLY | B_TO_A_ONLY
  datatype ConsentPrompt = DEFAULT | CUSTOM | NO_PROMPT
  datatype Mode = Sandbox | Live
  datatype NumberStatus = AVAILABLE | IN_USE | COOLDOWN | QUARANTINED
  datatype ExpiredBehavior = DEAD_LINE | REDIRECT_SUPPORT | PLAY_MESSAGE

  predicate IsLive(state: SessionState) {
    state == ACTIVE || state == GRACE_PERIOD
  }

  /** The Redis hash `session:{sid}`. Every field is optional: a hash whose TTL
      ran out can be re-created by a later HSET holding only some of them. */
  datatype SessionHash = SessionHash(
    id: Option<Sid>,
    tenant: Option<Tenant>,
    partyA: Option<PhoneHash>,
    partyB: Option<PhoneHash>,
    proxy: Option<Number>,
    state: Option<SessionState>,
    direction: Option<DirectionMode>,
    mode: Option<Mode>,
    recording: Option<bool>,
    consent: Option<ConsentPrompt>,
    lastCallAt: Option<int>,
    callCount: int)

  const EMPTY_HASH := SessionHash(None, None, None, None, None, None, None, None, None, None, None, 0)

  /** A row of the Postgres table `sessions`. */
  datatype SessionRow = SessionRow(
    tenant: Tenant,
    partyAEnc: Cipher,
    partyBEnc: Cipher,
    partyAHash: PhoneHash,
    partyBHash: PhoneHash,
    proxy: Number,
    state: SessionState,
    direction: DirectionMode,
    graceMin: int,
    recording: bool,
    consent: ConsentPrompt,
    mode: Mode,
    expiresAt: int,
    createdAt: int,
    lastCallAt: Option<int>,
    callCount: int)

  /** A row of the Postgres table `proxy_numbers`. */
  datatype NumberRow = NumberRow(region: Option<Region>, status: NumberStatus, cooldownUntil: Option<int>)

  /** The columns of a `tenants` row that routing reads. */
  datatype TenantRow = TenantRow(
    expiredBehavior: ExpiredBehavior,
    supportPhone: Option<Phone>,
    consentAudio: Option<string>,
    expiredAudio: Option<string>)

  datatype CallDirection = A_TO_B | B_TO_A

  datatype CallStatus = Ringing | Answered | Completed | Missed | Failed

  /** A row of `call_records`, written when a call was routed. */
  datatype CallRecord = CallRecord(
    session: Sid,
    event: EventId,
    direction: CallDirection,
    partyB: Option<PhoneHash>,
    consentPlayed: bool,
    simulated: bool,
    at: int,
    status: CallStatus)

  /** A row of `sms_records`. */
  datatype SmsRecord = SmsRecord(session: Sid, direction: CallDirection, text: Cipher, at: int)

  // ------------------------------------------------------------- decisions

  datatype RouteAction = FORWARD | CONSENT_THEN_FORWARD | DEAD | REDIRECT | PLAY

  datatype RouteDecision = RouteDecision(
    action: RouteAction,
    destination: Option<Phone>,
    callerId: Option<Number>,
    audioUrl: Option<string>,
    message: Option<string>,
    session: Option<Sid>,
    tenant: Option<Tenant>)

  datatype DropReason = NO_SESSION | DIRECTION_REJECTED | DESTINATION_UNAVAILABLE

  datatype SmsDecision =
    | Drop(reason: DropReason, matched: Option<(Sid, Tenant)>)
    | Forward(destination: Phone, body: string, session: Sid, tenant: Tenant)

  /** What `webhook:dedup:{eventId}` holds, with the time its TTL runs out. */
  datatype Cached =
    | CallCached(call: RouteDecision, until: int)
    | SmsCached(sms: SmsDecision, until: int)
    | StatusCached(until: int)
}
