/** The identity store's transactions, each one atomic step that commits or leaves nothing. */
module IdentityStore {
  import opened Results
  import opened IdentityRows

  const STALE := "identity.store.stale"
  const DUPLICATE := "identity.store.duplicate_email"
  const CONFLICT := "database.conflict"
  const REFUSED := "database.failed"

  datatype Status = Active | Suspended

  /** A principal with its credential and auth state, which are inserted and locked together. */
  datatype Account = Account(
    status: Status, email: string, epoch: int, version: int, hash: string, verified: Option<int>, created: int,
    changed: int)

  predicate AccountChecked(a: Account) {
    && VersionInRange(a.epoch) && VersionInRange(a.version)
    && 3 <= |a.email| <= 254 && 1 <= |a.hash| <= 512
    && TimeInRange(a.created) && a.created <= a.changed <= MAX_TIME_MS
    && (a.verified.Some? ==> a.created <= a.verified.value <= MAX_TIME_MS)
  }

  /** What an outbox event says. */
  datatype Fact =
    | Registered(principal: Id)
    | EmailVerified(principal: Id, challenge: Id)
    | SessionCreated(principal: Id, session: Id, epoch: int)
    | SessionRevoked(principal: Id, session: Id)
    | SessionsRevoked(principal: Id, epoch: int, reason: string)
    | PasswordChanged(principal: Id, version: int, reason: string)

  datatype Event = Event(id: Id, fact: Fact, at: int)

  datatype Data = Data(
    accounts: map<Id, Account>, sessions: map<Id, Session>, challenges: map<Id, Challenge>, tickets: map<Id, Ticket>,
    outbox: map<Id, Event>)

  const NOTHING := Data(map[], map[], map[], map[], map[])

  // ---- Statements -------------------------------------------------------------------------------------

  /** The outbox insert: a repeat of the very same event is accepted, another under its ID is not. */
  function Enqueue(outbox: map<Id, Event>, e: Event): Result<map<Id, Event>> {
    if e.id !in outbox then Ok(outbox[e.id := e])
    else if outbox[e.id] == e then Ok(outbox)
    else Err("events.id_reused")
  }

  function Emit(d: Data, e: Event): Result<Data> {
    var outbox :- Enqueue(d.outbox, e);
    Ok(d.(outbox := outbox))
  }

  function PutAccount(d: Data, p: Id, a: Account): Result<Data> {
    if AccountChecked(a) then Ok(d.(accounts := d.accounts[p := a])) else Err(REFUSED)
  }

  function InsertSession(d: Data, id: Id, s: Session): Result<Data> {
    if !SessionChecked(s) then Err(REFUSED)
    else if id in d.sessions || exists k :: k in d.sessions && d.sessions[k].digest == s.digest then Err(CONFLICT)
    else Ok(d.(sessions := d.sessions[id := s]))
  }

  function UpdateSession(d: Data, id: Id, s: Session): Result<Data> {
    if SessionChecked(s) then Ok(d.(sessions := d.sessions[id := s])) else Err(REFUSED)
  }

  function InsertChallenge(d: Data, id: Id, c: Challenge): Result<Data> {
    if !ChallengeChecked(c) then Err(REFUSED)
    else if id in d.challenges || exists k :: k in d.challenges && d.challenges[k].digest == c.digest then Err(CONFLICT)
    else Ok(d.(challenges := d.challenges[id := c]))
  }

  /** Outstanding challenges of a principal, of one purpose or of any. */
  predicate Touched(c: Challenge, principal: Id, purpose: Option<Purpose>) {
    c.principal == principal && c.Outstanding() && (purpose.Some? ==> c.digest.purpose == purpose.value)
  }

  function Invalidated(challenges: map<Id, Challenge>, principal: Id, purpose: Option<Purpose>, at: int)
    : map<Id, Challenge>
  {
    map id | id in challenges ::
      if Touched(challenges[id], principal, purpose) then challenges[id].(invalidated := Some(at)) else challenges[id]
  }

  predicate AllChecked(challenges: map<Id, Challenge>) {
    forall id :: id in challenges ==> ChallengeChecked(challenges[id])
  }

  /** `invalidate_outstanding`; the table refuses a time before a row's issue. */
  function InvalidateOutstanding(d: Data, principal: Id, purpose: Option<Purpose>, at: int): Result<Data> {
    var challenges := Invalidated(d.challenges, principal, purpose, at);
    if AllChecked(challenges) then Ok(d.(challenges := challenges)) else Err(REFUSED)
  }

  /** `consume_challenge`: one guarded update. */
  predicate Consumable(d: Data, id: Id, principal: Id, purpose: Purpose, at: int) {
    && id in d.challenges
    && var c := d.challenges[id];
       c.principal == principal && c.digest.purpose == purpose && c.Outstanding() && c.issued <= at < c.expires
  }

  function Consume(d: Data, id: Id, principal: Id, purpose: Purpose, at: int): Result<Data> {
    if Consumable(d, id, principal, purpose, at)
    then Ok(d.(challenges := d.challenges[id := d.challenges[id].(consumed := Some(at))]))
    else Err(STALE)
  }

  /** `replace_password`: version and epoch move on together, and no challenge outlives it. */
  function ReplacePassword(d: Data, p: Id, hash: string, at: int, setVerified: bool): Result<Data>
    requires p in d.accounts
  {
    var a := d.accounts[p];
    if a.version >= MAX_VERSION then Err("identity.version_exhausted")
    else
      var epoch :- NextEpoch(a.epoch, a.epoch);
      var verified := if setVerified && a.verified.None? then Some(at) else a.verified;
      var next := a.(hash := hash, version := a.version + 1, changed := at, verified := verified, epoch := epoch);
      var replaced :- PutAccount(d, p, next);
      InvalidateOutstanding(replaced, p, None, at)
  }

  // ---- Transactions ---------------------------------------------------------------------------------------

  function Register(d: Data, p: Id, a: Account, challengeId: Id, c: Challenge, e: Event): Result<Data> {
    if p in d.accounts then Err(CONFLICT)
    else
      var created :- PutAccount(d, p, a);
      if exists q :: q in d.accounts && d.accounts[q].email == a.email then Err(DUPLICATE)
      else
        var challenged :- InsertChallenge(created, challengeId, c);
        Emit(challenged, e)
  }

  function CommitLogin(d: Data, id: Id, s: Session, version: int, epoch: int, e: Event): Result<Data> {
    if s.principal !in d.accounts then Err(STALE)
    else
      var a := d.accounts[s.principal];
      if a.status != Active || a.verified.None? || a.version != version || a.epoch != epoch || s.epoch != a.epoch
      then Err(STALE)
      else
        var admitted :- InsertSession(d, id, s);
        Emit(admitted, e)
  }

  datatype RevokeOutcome = Revoked | AlreadyInactive | NoSession

  function RevokeOutcomeOf(d: Data, id: Id, p: Id): RevokeOutcome {
    if p !in d.accounts || id !in d.sessions || d.sessions[id].principal != p then NoSession
    else if d.sessions[id].revoked.Some? then AlreadyInactive
    else Revoked
  }

  /** A live session is revoked and the event enqueued; an absent or inactive one costs neither. */
  function RevokeOne(d: Data, id: Id, p: Id, now: int, e: Event): Result<Data> {
    if !RevokeOutcomeOf(d, id, p).Revoked? then Ok(d)
    else
      var revoked :- RevokeSession(d.sessions[id], now);
      var updated :- UpdateSession(d, id, revoked);
      Emit(updated, e)
  }

  function RevokeAll(d: Data, p: Id, expected: int, e: Event): Result<Data> {
    if p !in d.accounts || d.accounts[p].epoch != expected then Err(STALE)
    else
      var epoch :- NextEpoch(d.accounts[p].epoch, expected);
      var moved :- PutAccount(d, p, d.accounts[p].(epoch := epoch));
      Emit(moved, e)
  }

  function IssueChallenge(d: Data, id: Id, c: Challenge, version: int): Result<Data> {
    if c.principal !in d.accounts || d.accounts[c.principal].version != version then Err(STALE)
    else
      var cleared :- InvalidateOutstanding(d, c.principal, Some(c.digest.purpose), c.issued);
      InsertChallenge(cleared, id, c)
  }

  function VerifyEmail(d: Data, id: Id, p: Id, at: int, version: int, e: Event): Result<Data> {
    if p !in d.accounts || d.accounts[p].version != version then Err(STALE)
    else
      var consumed :- Consume(d, id, p, EmailVerification, at);
      var a := d.accounts[p];
      var verified :- PutAccount(consumed, p, a.(verified := if a.verified.None? then Some(at) else a.verified));
      Emit(verified, e)
  }

  function ChangePassword(
      d: Data, p: Id, hash: string, version: int, epoch: int, at: int, changed: Event, revoked: Event)
    : Result<Data>
  {
    if p !in d.accounts || d.accounts[p].version != version || d.accounts[p].epoch != epoch then Err(STALE)
    else
      var replaced :- ReplacePassword(d, p, hash, at, false);
      var first :- Emit(replaced, changed);
      Emit(first, revoked)
  }

  function ResetPassword(
    d: Data, id: Id, p: Id, hash: string, version: int, epoch: int, at: int, setVerified: bool, changed: Event,
    revoked: Event)
    : Result<Data>
  {
    if p !in d.accounts || d.accounts[p].version != version || d.accounts[p].epoch != epoch then Err(STALE)
    else
      var consumed :- Consume(d, id, p, PasswordReset, at);
      var replaced :- ReplacePassword(consumed, p, hash, at, setVerified);
      var first :- Emit(replaced, changed);
      Emit(first, revoked)
  }

  /** Whether a session's principal, credential and epoch let it act. */
  predicate Eligible(d: Data, s: Session) {
    && s.principal in d.accounts
    && d.accounts[s.principal].status.Active? && d.accounts[s.principal].verified.Some?
    && s.epoch == d.accounts[s.principal].epoch
  }

  function IssueTicket(d: Data, id: Id, t: Ticket, epoch: int): Result<Data> {
    if t.session !in d.sessions then Err(STALE)
    else
      var s := d.sessions[t.session];
      if !Eligible(d, s) || s.epoch != epoch || CheckSession(s, t.issued).Err? then Err(STALE)
      else
        if RestoreTicket(t).Err? then Err("identity.record_corrupt")
        else if !TicketChecked(t) then Err(REFUSED)
        else if id in d.tickets || exists k :: k in d.tickets && d.tickets[k].digest == t.digest then Err(CONFLICT)
        else Ok(d.(tickets := d.tickets[id := t]))
  }

  /** The session a redeemed ticket admits, if any; the ticket is used up. */
  function RedeemTicket(d: Data, id: Option<Id>, now: int): (Result<Data>, Option<Id>) {
    if id.None? || id.value !in d.tickets || d.tickets[id.value].session !in d.sessions then (Ok(d), None)
    else
      var t := d.tickets[id.value];
      var s := d.sessions[t.session];
      if !Eligible(d, s) || CheckSession(s, now).Err? then (Ok(d), None)
      else
        match ConsumeTicket(t, now)
        case Ok(used) => (Ok(d.(tickets := d.tickets[id.value := used])), Some(t.session))
        case Err(code) => if code == "identity.upgrade_ticket_rejected" then (Ok(d), None) else (Err(code), None)
  }

  datatype Resolution = Admitted(principal: Id, session: Id, epoch: int) | Rejected | Absent

  /** `resolve`, for the session found under the digest. An observed deadline is latched as a revocation. */
  function Resolve(d: Data, id: Option<Id>, now: int, idleTtl: int): (Result<Data>, Resolution) {
    if id.None? || id.value !in d.sessions then (Ok(d), Absent)
    else
      var s := d.sessions[id.value];
      if s.principal !in d.accounts then (Err("identity.record_corrupt"), Rejected)
      else if now < s.lastSeen then (Ok(d), Rejected)
      else
        match CheckSession(s, now)
        case Err(code) =>
          if code != SESSION_REJECTED then (Err(code), Rejected)
          else if s.revoked.None? then (UpdateSession(d, id.value, s.(revoked := Some(now))), Rejected)
          else (Ok(d), Rejected)
        case Ok(_) =>
          if !Eligible(d, s) then (Ok(d), Rejected)
          else
            match TouchSession(s, now, idleTtl)
            case Err(code) => (Err(code), Rejected)
            case Ok(touched) =>
              var updated := UpdateSession(d, id.value, touched);
              (updated, if updated.Ok? then Admitted(s.principal, id.value, s.epoch) else Rejected)
  }

  // ---- What a committed transaction did ------------------------------------------------------------------

  predicate Enqueued(outbox: map<Id, Event>, e: Event, after: map<Id, Event>) {
    after == outbox[e.id := e] && (e.id in outbox ==> outbox[e.id] == e)
  }

  predicate NewDigest(challenges: map<Id, Challenge>, digest: Digest) {
    forall k :: k in challenges ==> challenges[k].digest != digest
  }

  predicate NewSessionDigest(sessions: map<Id, Session>, digest: Digest) {
    forall k :: k in sessions ==> sessions[k].digest != digest
  }

  predicate NewEmail(accounts: map<Id, Account>, email: string) {
    forall q :: q in accounts ==> accounts[q].email != email
  }

  lemma RegisterDid(d: Data, p: Id, a: Account, challengeId: Id, c: Challenge, e: Event)
    requires Register(d, p, a, challengeId, c, e).Ok?
    ensures var after := Register(d, p, a, challengeId, c, e).value;
            && p !in d.accounts && AccountChecked(a) && NewEmail(d.accounts, a.email)
            && challengeId !in d.challenges && ChallengeChecked(c) && NewDigest(d.challenges, c.digest)
            && after == d.(accounts := d.accounts[p := a], challenges := d.challenges[challengeId := c],
                           outbox := after.outbox)
            && Enqueued(d.outbox, e, after.outbox)
  {
  }

  lemma LoginDid(d: Data, id: Id, s: Session, version: int, epoch: int, e: Event)
    requires CommitLogin(d, id, s, version, epoch, e).Ok?
    ensures var after := CommitLogin(d, id, s, version, epoch, e).value;
            && Eligible(d, s) && d.accounts[s.principal].version == version
            && id !in d.sessions && SessionChecked(s) && NewSessionDigest(d.sessions, s.digest)
            && after == d.(sessions := d.sessions[id := s], outbox := after.outbox)
            && Enqueued(d.outbox, e, after.outbox)
  {
  }

  lemma RevokeOneDid(d: Data, id: Id, p: Id, now: int, e: Event)
    requires RevokeOne(d, id, p, now, e).Ok?
    ensures var after := RevokeOne(d, id, p, now, e).value;
            if RevokeOutcomeOf(d, id, p).Revoked? then
              && id in d.sessions && TimeInRange(now) && d.sessions[id].lastSeen <= now
              && after
                 == d.(sessions := d.sessions[id := d.sessions[id].(revoked := Some(now))], outbox := after.outbox)
              && Enqueued(d.outbox, e, after.outbox)
            else after == d
  {
  }

  lemma RevokeAllDid(d: Data, p: Id, expected: int, e: Event)
    requires RevokeAll(d, p, expected, e).Ok?
    ensures var after := RevokeAll(d, p, expected, e).value;
            && p in d.accounts && d.accounts[p].epoch == expected < MAX_VERSION
            && after == d.(accounts := d.accounts[p := d.accounts[p].(epoch := expected + 1)], outbox := after.outbox)
            && AccountChecked(after.accounts[p])
            && Enqueued(d.outbox, e, after.outbox)
  {
  }

  lemma IssueChallengeDid(d: Data, id: Id, c: Challenge, version: int)
    requires IssueChallenge(d, id, c, version).Ok?
    ensures var after := IssueChallenge(d, id, c, version).value;
            var cleared := Invalidated(d.challenges, c.principal, Some(c.digest.purpose), c.issued);
            && c.principal in d.accounts && d.accounts[c.principal].version == version
            && AllChecked(cleared) && id !in d.challenges && ChallengeChecked(c) && NewDigest(cleared, c.digest)
            && after == d.(challenges := cleared[id := c])
  {
  }

  lemma VerifyEmailDid(d: Data, id: Id, p: Id, at: int, version: int, e: Event)
    requires VerifyEmail(d, id, p, at, version, e).Ok?
    ensures var after := VerifyEmail(d, id, p, at, version, e).value;
            && p in d.accounts && d.accounts[p].version == version
            && Consumable(d, id, p, EmailVerification, at)
            && p in after.accounts && AccountChecked(after.accounts[p])
            && after.accounts[p] == d.accounts[p].(verified := after.accounts[p].verified)
            && after.accounts[p].verified == (if d.accounts[p].verified.None? then Some(at) else d.accounts[p].verified)
            && after == d.(accounts := d.accounts[p := after.accounts[p]],
                           challenges := d.challenges[id := d.challenges[id].(consumed := Some(at))],
                           outbox := after.outbox)
            && Enqueued(d.outbox, e, after.outbox)
  {
  }

  /** The account after a replacement: version and epoch one on, under the new hash; a reset may verify it too. */
  predicate ReplacedBy(a: Account, after: Account, hash: string, at: int, setVerified: bool) {
    && after.version == a.version + 1 && after.epoch == a.epoch + 1 && after.hash == hash && after.changed == at
    && after.status == a.status && after.email == a.email && after.created == a.created
    && after.verified == (if a.verified.None? && setVerified then Some(at) else a.verified)
    && AccountChecked(after)
  }

  predicate EnqueuedBoth(outbox: map<Id, Event>, first: Event, second: Event, after: map<Id, Event>) {
    Enqueued(outbox, first, outbox[first.id := first]) && Enqueued(outbox[first.id := first], second, after)
  }

  lemma ReplacePasswordDid(d: Data, p: Id, hash: string, at: int, setVerified: bool)
    requires p in d.accounts && ReplacePassword(d, p, hash, at, setVerified).Ok?
    ensures var after := ReplacePassword(d, p, hash, at, setVerified).value;
            && p in after.accounts && ReplacedBy(d.accounts[p], after.accounts[p], hash, at, setVerified)
            && after == d.(accounts := d.accounts[p := after.accounts[p]],
                           challenges := Invalidated(d.challenges, p, None, at))
            && AllChecked(after.challenges)
  {
  }

  lemma ChangePasswordDid(
      d: Data, p: Id, hash: string, version: int, epoch: int, at: int, changed: Event, revoked: Event)
    requires ChangePassword(d, p, hash, version, epoch, at, changed, revoked).Ok?
    ensures var after := ChangePassword(d, p, hash, version, epoch, at, changed, revoked).value;
            && p in d.accounts && d.accounts[p].version == version && d.accounts[p].epoch == epoch
            && p in after.accounts && ReplacedBy(d.accounts[p], after.accounts[p], hash, at, false)
            && after == d.(accounts := d.accounts[p := after.accounts[p]],
                           challenges := Invalidated(d.challenges, p, None, at),
                           outbox := after.outbox)
            && AllChecked(after.challenges)
            && EnqueuedBoth(d.outbox, changed, revoked, after.outbox)
  {
    ReplacePasswordDid(d, p, hash, at, false);
    hide ReplacePassword, ReplacedBy;
  }

  lemma ResetPasswordDid(
    d: Data, id: Id, p: Id, hash: string, version: int, epoch: int, at: int, setVerified: bool, changed: Event,
    revoked: Event)
    requires ResetPassword(d, id, p, hash, version, epoch, at, setVerified, changed, revoked).Ok?
    ensures var after := ResetPassword(d, id, p, hash, version, epoch, at, setVerified, changed, revoked).value;
            && p in d.accounts && d.accounts[p].version == version && d.accounts[p].epoch == epoch
            && Consumable(d, id, p, PasswordReset, at)
            && p in after.accounts && ReplacedBy(d.accounts[p], after.accounts[p], hash, at, setVerified)
            && after == d.(accounts := d.accounts[p := after.accounts[p]],
                           challenges :=
                             Invalidated(d.challenges[id := d.challenges[id].(consumed := Some(at))], p, None, at),
                           outbox := after.outbox)
            && AllChecked(after.challenges)
            && EnqueuedBoth(d.outbox, changed, revoked, after.outbox)
  {
    ReplacePasswordDid(Consume(d, id, p, PasswordReset, at).value, p, hash, at, setVerified);
    hide ReplacePassword, ReplacedBy;
  }

  lemma IssueTicketDid(d: Data, id: Id, t: Ticket, epoch: int)
    requires IssueTicket(d, id, t, epoch).Ok?
    ensures var after := IssueTicket(d, id, t, epoch).value;
            && t.session in d.sessions && Eligible(d, d.sessions[t.session]) && d.sessions[t.session].epoch == epoch
            && CheckSession(d.sessions[t.session], t.issued).Ok?
            && RestoreTicket(t).Ok? && id !in d.tickets
            && after == d.(tickets := d.tickets[id := t])
  {
  }

  lemma RedeemTicketDid(d: Data, id: Option<Id>, now: int)
    requires RedeemTicket(d, id, now).0.Ok?
    ensures var (after, session) := RedeemTicket(d, id, now);
            if session.Some? then
              && id.Some? && id.value in d.tickets && session.value in d.sessions
              && d.tickets[id.value].session == session.value
              && Eligible(d, d.sessions[session.value]) && CheckSession(d.sessions[session.value], now).Ok?
              && ConsumeTicket(d.tickets[id.value], now).Ok?
              && after.value == d.(tickets := d.tickets[id.value := d.tickets[id.value].(consumed := Some(now))])
            else after.value == d
  {
  }

  /** A resolve admits and moves the activity on, or latches a deadline, or changes nothing. */
  lemma ResolveDid(d: Data, id: Option<Id>, now: int, idleTtl: int)
    requires Resolve(d, id, now, idleTtl).0.Ok?
    ensures var (after, resolution) := Resolve(d, id, now, idleTtl);
            match resolution
            case Admitted(principal, session, epoch) =>
              && id == Some(session) && session in d.sessions && d.sessions[session].principal == principal
              && Eligible(d, d.sessions[session]) && d.sessions[session].epoch == epoch
              && CheckSession(d.sessions[session], now).Ok?
              && session in after.value.sessions
              && TouchSession(d.sessions[session], now, idleTtl) == Ok(after.value.sessions[session])
              && SessionChecked(after.value.sessions[session])
              && after.value == d.(sessions := d.sessions[session := after.value.sessions[session]])
            case _ =>
              || after.value == d
              || (&& id.Some? && id.value in d.sessions && d.sessions[id.value].revoked.None? && TimeInRange(now)
                  && d.sessions[id.value].lastSeen <= now
                  && after.value == d.(sessions := d.sessions[id.value := d.sessions[id.value].(revoked := Some(now))]))
  {
  }
}
