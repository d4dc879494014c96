/** Identity's domain values, the rows that hold them, and the checks of both. */
module IdentityRows {
  import opened Results
  import Ids

  type Id = Ids.Id

  const MAX_TIME_MS := 253402300799999
  const MAX_VERSION := 2147483647
  const MAX_TICKET_MS := 30_000
  const I64_MAX := 0x7FFF_FFFF_FFFF_FFFF

  predicate TimeInRange(at: int) {
    0 <= at <= MAX_TIME_MS
  }

  predicate VersionInRange(version: int) {
    1 <= version <= MAX_VERSION
  }

  datatype Purpose = SessionToken | EmailVerification | PasswordReset | WebSocketUpgrade

  datatype Digest = Digest(purpose: Purpose, bytes: seq<int>)

  // ---- Sessions ---------------------------------------------------------------------------------------

  datatype Session = Session(
    principal: Id, digest: Digest, epoch: int, issued: int, lastSeen: int, absolute: int, idle: int,
    revoked: Option<int>)

  const SESSION_INVALID := "identity.session_invalid"
  const SESSION_REJECTED := "identity.session_rejected"

  function RestoreSession(s: Session): Result<Session> {
    if s.digest.purpose != SessionToken || !VersionInRange(s.epoch)
       || !TimeInRange(s.issued) || !TimeInRange(s.lastSeen) || !TimeInRange(s.absolute) || !TimeInRange(s.idle)
       || s.lastSeen < s.issued || s.absolute <= s.issued || s.idle <= s.issued || s.idle > s.absolute
       || s.lastSeen > s.idle || s.lastSeen >= s.absolute
       || (s.revoked.Some? && (!TimeInRange(s.revoked.value) || s.revoked.value < s.issued))
    then Err(SESSION_INVALID)
    else Ok(s)
  }

  /** `Session::check`: local validity at one moment. */
  function CheckSession(s: Session, now: int): Result<bool> {
    if !TimeInRange(now) then Err(SESSION_INVALID)
    else if s.revoked.Some? || now < s.lastSeen || now >= s.idle || now >= s.absolute then Err(SESSION_REJECTED)
    else Ok(true)
  }

  function TouchSession(s: Session, now: int, idleTtl: int): Result<Session> {
    var live :- CheckSession(s, now);
    if idleTtl < 1 || now + idleTtl > I64_MAX then Err(SESSION_INVALID)
    else Ok(s.(lastSeen := now, idle := if now + idleTtl < s.absolute then now + idleTtl else s.absolute))
  }

  function RevokeSession(s: Session, now: int): Result<Session> {
    if !TimeInRange(now) || now < s.lastSeen then Err(SESSION_INVALID)
    else Ok(if s.revoked.None? then s.(revoked := Some(now)) else s)
  }

  /** The session table's own constraints. */
  predicate SessionChecked(s: Session) {
    && 1 <= s.epoch <= 2147483647 && 0 <= s.issued <= 253402300799999 && s.absolute <= 253402300799999
    && s.issued <= s.lastSeen < s.absolute && s.lastSeen <= s.idle <= s.absolute && s.idle > s.issued
    && (s.revoked.Some? ==> s.issued <= s.revoked.value <= 253402300799999)
  }

  /** The table admits exactly the rows the domain restores. */
  lemma SessionRows(s: Session)
    requires s.digest.purpose == SessionToken
    ensures SessionChecked(s) <==> RestoreSession(s) == Ok(s)
  {
  }

  /** Touching and revoking need no validation of their own: a restorable session stays one. */
  lemma SessionMoves(s: Session, now: int, idleTtl: int)
    requires RestoreSession(s).Ok?
    ensures TouchSession(s, now, idleTtl).Ok? ==>
              var t := TouchSession(s, now, idleTtl).value;
              && RestoreSession(t) == Ok(t) && t.absolute == s.absolute && t.issued == s.issued
              && s.lastSeen <= t.lastSeen == now && t.idle <= t.absolute && t.idle <= now + idleTtl
    ensures RevokeSession(s, now).Ok? ==>
              var r := RevokeSession(s, now).value;
              RestoreSession(r) == Ok(r) && r.revoked.Some? && (s.revoked.Some? ==> r == s)
  {
  }

  /**
   * A session that may be used now is touched, and may then be used exactly for the idle
   * time from now, up to its absolute deadline. Nothing else about it changes.
   */
  lemma TouchesExactly(s: Session, now: int, idleTtl: int, t: int)
    requires RestoreSession(s).Ok? && 1 <= idleTtl <= MAX_TIME_MS
    ensures TouchSession(s, now, idleTtl).Ok? <==>
              s.revoked.None? && s.lastSeen <= now < s.idle && now < s.absolute
    ensures TouchSession(s, now, idleTtl).Ok? ==>
              var touched := TouchSession(s, now, idleTtl).value;
              && (CheckSession(touched, t).Ok? <==> now <= t < now + idleTtl && t < s.absolute)
              && touched == s.(lastSeen := now, idle := touched.idle)
  {
  }

  // ---- Challenges --------------------------------------------------------------------------------------

  datatype Challenge = Challenge(
    principal: Id, digest: Digest, version: int, issued: int, expires: int, consumed: Option<int>,
    invalidated: Option<int>)
  {
    predicate Outstanding() {
      consumed.None? && invalidated.None?
    }
  }

  function RestoreChallenge(c: Challenge): Result<Challenge> {
    if c.digest.purpose !in {EmailVerification, PasswordReset} || !VersionInRange(c.version)
       || !TimeInRange(c.issued) || !TimeInRange(c.expires) || c.expires <= c.issued
       || (c.consumed.Some?
           && (!TimeInRange(c.consumed.value) || c.consumed.value < c.issued || c.consumed.value >= c.expires))
       || (c.invalidated.Some? && (!TimeInRange(c.invalidated.value) || c.invalidated.value < c.issued))
    then Err("identity.challenge_invalid")
    else Ok(c)
  }

  function ConsumeChallenge(c: Challenge, purpose: Purpose, version: int, now: int): Result<Challenge> {
    if !TimeInRange(now) then Err("identity.challenge_invalid")
    else if purpose != c.digest.purpose || version != c.version || !c.Outstanding() || now < c.issued
         || now >= c.expires
    then Err("identity.challenge_rejected")
    else Ok(c.(consumed := Some(now)))
  }

  function InvalidateChallenge(c: Challenge, now: int): Result<Challenge> {
    if !TimeInRange(now) || now < c.issued then Err("identity.challenge_invalid")
    else Ok(if c.invalidated.None? then c.(invalidated := Some(now)) else c)
  }

  predicate ChallengeChecked(c: Challenge) {
    && c.digest.purpose in {EmailVerification, PasswordReset}
    && 1 <= c.version <= 2147483647 && 0 <= c.issued < c.expires <= 253402300799999
    && (c.consumed.Some? ==> c.issued <= c.consumed.value < c.expires)
    && (c.invalidated.Some? ==> c.issued <= c.invalidated.value <= 253402300799999)
  }

  lemma ChallengeRows(c: Challenge)
    ensures ChallengeChecked(c) <==> RestoreChallenge(c) == Ok(c)
  {
  }

  lemma ChallengeMoves(c: Challenge, purpose: Purpose, version: int, now: int)
    requires RestoreChallenge(c).Ok?
    ensures ConsumeChallenge(c, purpose, version, now).Ok? ==>
              var used := ConsumeChallenge(c, purpose, version, now).value;
              RestoreChallenge(used) == Ok(used) && ConsumeChallenge(used, purpose, version, now).Err?
    ensures InvalidateChallenge(c, now).Ok? ==>
              var out := InvalidateChallenge(c, now).value;
              && RestoreChallenge(out) == Ok(out) && out.consumed == c.consumed && out.invalidated.Some?
              && (c.invalidated.Some? ==> out == c)
              && ConsumeChallenge(out, purpose, version, now).Err?
  {
  }

  // ---- Upgrade tickets -----------------------------------------------------------------------------------

  datatype Ticket = Ticket(session: Id, digest: Digest, issued: int, expires: int, consumed: Option<int>)

  function RestoreTicket(t: Ticket): Result<Ticket> {
    if t.digest.purpose != WebSocketUpgrade || !TimeInRange(t.issued) || !TimeInRange(t.expires)
       || t.expires <= t.issued || t.expires - t.issued > MAX_TICKET_MS
       || (t.consumed.Some?
           && (!TimeInRange(t.consumed.value) || t.consumed.value < t.issued || t.consumed.value >= t.expires))
    then Err("identity.upgrade_ticket_invalid")
    else Ok(t)
  }

  function ConsumeTicket(t: Ticket, now: int): Result<Ticket> {
    if !TimeInRange(now) then Err("identity.upgrade_ticket_invalid")
    else if t.consumed.Some? || now < t.issued || now >= t.expires then Err("identity.upgrade_ticket_rejected")
    else Ok(t.(consumed := Some(now)))
  }

  predicate TicketChecked(t: Ticket) {
    && 0 <= t.issued < t.expires <= 253402300799999 && t.expires - t.issued <= 30_000
    && (t.consumed.Some? ==> t.issued <= t.consumed.value < t.expires)
  }

  lemma TicketRows(t: Ticket)
    requires t.digest.purpose == WebSocketUpgrade
    ensures TicketChecked(t) <==> RestoreTicket(t) == Ok(t)
  {
  }

  lemma TicketMoves(t: Ticket, now: int, again: int)
    requires RestoreTicket(t).Ok? && ConsumeTicket(t, now).Ok?
    ensures var used := ConsumeTicket(t, now).value;
            RestoreTicket(used) == Ok(used) && ConsumeTicket(used, again).Err?
  {
  }

  // ---- Epochs ---------------------------------------------------------------------------------------------

  /** `AuthState::invalidate`: the next epoch, unless the caller's is stale or there is none left. */
  function NextEpoch(epoch: int, expected: int): Result<int> {
    if !VersionInRange(epoch) then Err("identity.auth_state_invalid")
    else if expected != epoch then Err("identity.version_conflict")
    else if epoch == MAX_VERSION then Err("identity.version_exhausted")
    else Ok(epoch + 1)
  }

  /** The next epoch, and which refusal there is otherwise. */
  lemma EpochsExactly(epoch: int, expected: int)
    ensures NextEpoch(epoch, expected)
         == if !(1 <= epoch <= 2147483647) then Err("identity.auth_state_invalid")
            else if epoch != expected then Err("identity.version_conflict")
            else if epoch < 2147483647 then Ok(epoch + 1)
            else Err("identity.version_exhausted")
  {
  }

  function NextVersion(version: int): Result<int> {
    if version >= MAX_VERSION then Err("identity.version_exhausted") else Ok(version + 1)
  }

  function Deadline(now: int, ttl: int): Result<int> {
    if TimeInRange(now + ttl) then Ok(now + ttl) else Err("identity.auth_dependency_failed")
  }

  datatype Config = Config(sessionAbsolute: int, sessionIdle: int, verification: int, reset: int) {
    predicate Valid() {
      && 1 <= sessionAbsolute <= MAX_TIME_MS && 1 <= sessionIdle <= sessionAbsolute
      && 1 <= verification <= MAX_TIME_MS && 1 <= reset <= MAX_TIME_MS
    }
  }
}
