/**
 * Identity commands against the store, each split where the code splits it: a read
 * without locks, work on what was read, and a guarded commit that other commands may
 * come before.
 */
module IdentityRuns {
  import opened Results
  import opened IdentityRows
  import opened IdentityStore

  /** Who an earlier admission says is calling. */
  datatype Caller = Caller(principal: Id, session: Id, epoch: int)

  /** A password to be set: whether policy and blocklist admit it, and the hasher's reply. */
  datatype NewPassword = NewPassword(admitted: bool, hash: Result<string>)

  /** A command with what its clock, generator, codec and hasher gave it, and what its lookups found. */
  datatype Command =
    | SignUp(
        principal: Id, email: string, password: NewPassword, now: int, challengeId: Id, secret: seq<int>, eventId: Id)
    | SignIn(found: Option<Id>, matched: bool, now: int, sessionId: Id, secret: seq<int>, eventId: Id)
    | SignOut(caller: Caller, now: int, eventId: Id)
    | SignOutAll(caller: Caller, now: int, eventId: Id)
    | RequestChallenge(found: Option<Id>, purpose: Purpose, now: int, challengeId: Id, secret: seq<int>)
    | Confirm(found: Option<Id>, matched: bool, now: int, eventId: Id)
    | Replace(caller: Caller, matched: bool, password: NewPassword, now: int, changedId: Id, revokedId: Id)
    | Recover(found: Option<Id>, password: NewPassword, now: int, changedId: Id, revokedId: Id)
    | AskTicket(caller: Caller, now: int, ticketId: Id, secret: seq<int>)

  /** The record a command hands to its store port. */
  datatype Request =
    | RegisterRecord(principal: Id, account: Account, challengeId: Id, challenge: Challenge, event: Event)
    | LoginRecord(sessionId: Id, session: Session, version: int, epoch: int, event: Event)
    | RevokeRecord(sessionId: Id, principal: Id, at: int, event: Event)
    | EpochRecord(principal: Id, epoch: int, event: Event)
    | IssueRecord(challengeId: Id, challenge: Challenge, version: int)
    | VerifyRecord(challengeId: Id, principal: Id, at: int, version: int, event: Event)
    | ChangeRecord(principal: Id, hash: string, version: int, epoch: int, at: int, changed: Event, revoked: Event)
    | ResetRecord(
        challengeId: Id, principal: Id, hash: string, version: int, epoch: int, at: int, setVerified: bool,
        changed: Event, revoked: Event)
    | TicketRecord(ticketId: Id, ticket: Ticket, epoch: int)

  const REJECTED := "identity.credentials_rejected"
  const NO_CHALLENGE := "identity.challenge_rejected"
  const NO_SESSION := "identity.session_rejected"
  const PASSWORD_INVALID := "identity.password_invalid"

  // ---- The read half ------------------------------------------------------------------------------------

  /** `enrol` before anything is hashed. */
  function Enrol(password: NewPassword): Result<()> {
    if password.admitted then Ok(()) else Err(PASSWORD_INVALID)
  }

  function NewChallenge(p: Id, purpose: Purpose, secret: seq<int>, version: int, now: int, ttl: int)
    : Result<Challenge>
  {
    var expires :- Deadline(now, ttl);
    RestoreChallenge(Challenge(p, Digest(purpose, secret), version, now, expires, None, None))
  }

  function ReadSignUp(config: Config, c: Command): Result<Request>
    requires c.SignUp?
  {
    var _ :- Enrol(c.password);
    var hash :- c.password.hash;
    var account := Account(Active, c.email, 1, 1, hash, None, c.now, c.now);
    var challenge :- NewChallenge(c.principal, EmailVerification, c.secret, 1, c.now, config.verification);
    Ok(RegisterRecord(c.principal, account, c.challengeId, challenge, Event(c.eventId, Registered(c.principal), c.now)))
  }

  function ReadSignIn(config: Config, d: Data, c: Command): Result<Request>
    requires c.SignIn?
  {
    if c.found.None? || c.found.value !in d.accounts then Err(REJECTED)
    else
      var p := c.found.value;
      var a := d.accounts[p];
      if !c.matched || a.verified.None? || a.status != Active then Err(REJECTED)
      else
        var absolute :- Deadline(c.now, config.sessionAbsolute);
        var idle :- Deadline(c.now, config.sessionIdle);
        var digest := Digest(SessionToken, c.secret);
        var session :- RestoreSession(Session(p, digest, a.epoch, c.now, c.now, absolute, idle, None));
        var event := Event(c.eventId, SessionCreated(p, c.sessionId, a.epoch), c.now);
        Ok(LoginRecord(c.sessionId, session, a.version, a.epoch, event))
  }

  function ReadSignOutAll(c: Command): Result<Request>
    requires c.SignOutAll?
  {
    var epoch :- NextEpoch(c.caller.epoch, c.caller.epoch);
    var event := RevokedEvent(c.eventId, c.caller.principal, epoch, "logout_all", c.now);
    Ok(EpochRecord(c.caller.principal, c.caller.epoch, event))
  }

  function ReadRequestChallenge(config: Config, d: Data, c: Command): Result<Request>
    requires c.RequestChallenge?
  {
    if c.found.None? || c.found.value !in d.accounts then Err(NO_CHALLENGE)
    else
      var p := c.found.value;
      var a := d.accounts[p];
      if a.status != Active || (c.purpose.EmailVerification? && a.verified.Some?) then Err(NO_CHALLENGE)
      else
        var ttl := if c.purpose.PasswordReset? then config.reset else config.verification;
        var challenge :- NewChallenge(p, c.purpose, c.secret, a.version, c.now, ttl);
        Ok(IssueRecord(c.challengeId, challenge, a.version))
  }

  /** `find_challenge`: the challenge a token finds, of an active principal. */
  function FindChallenge(d: Data, found: Option<Id>): Result<Id> {
    if found.None? || found.value !in d.challenges || d.challenges[found.value].principal !in d.accounts
    then Err(NO_CHALLENGE)
    else if !d.accounts[d.challenges[found.value].principal].status.Active? then Err(NO_CHALLENGE)
    else Ok(found.value)
  }

  /** `consume`: it can be consumed now, under the version read now. */
  function Consuming(d: Data, id: Id, purpose: Purpose, now: int): Result<()>
    requires id in d.challenges && d.challenges[id].principal in d.accounts
  {
    var c := d.challenges[id];
    if ConsumeChallenge(c, purpose, d.accounts[c.principal].version, now).Err? then Err(NO_CHALLENGE) else Ok(())
  }

  function ReadConfirm(d: Data, c: Command): Result<Request>
    requires c.Confirm?
  {
    var id :- FindChallenge(d, c.found);
    if !c.matched then Err(NO_CHALLENGE)
    else
      var _ :- Consuming(d, id, EmailVerification, c.now);
      var p := d.challenges[id].principal;
      Ok(VerifyRecord(id, p, c.now, d.accounts[p].version, Event(c.eventId, EmailVerified(p, id), c.now)))
  }

  function ChangedEvent(id: Id, p: Id, version: int, reason: string, now: int): Event {
    Event(id, PasswordChanged(p, version, reason), now)
  }

  function RevokedEvent(id: Id, p: Id, epoch: int, reason: string, now: int): Event {
    Event(id, SessionsRevoked(p, epoch, reason), now)
  }

  function ReadReplace(d: Data, c: Command): Result<Request>
    requires c.Replace?
  {
    var p := c.caller.principal;
    if p !in d.accounts then Err(NO_SESSION)
    else
      var a := d.accounts[p];
      if a.epoch != c.caller.epoch || a.status != Active then Err(NO_SESSION)
      else if !c.matched then Err(REJECTED)
      else
        var _ :- Enrol(c.password);
        var version :- NextVersion(a.version);
        var epoch :- NextEpoch(a.epoch, a.epoch);
        var hash :- c.password.hash;
        Ok(ChangeRecord(p, hash, a.version, a.epoch, c.now, ChangedEvent(c.changedId, p, version, "change", c.now),
                        RevokedEvent(c.revokedId, p, epoch, "password_change", c.now)))
  }

  function ReadRecover(d: Data, c: Command): Result<Request>
    requires c.Recover?
  {
    var id :- FindChallenge(d, c.found);
    var _ :- Enrol(c.password);
    var _ :- Consuming(d, id, PasswordReset, c.now);
    var p := d.challenges[id].principal;
    var a := d.accounts[p];
    var version :- NextVersion(a.version);
    var epoch :- NextEpoch(a.epoch, a.epoch);
    var hash :- c.password.hash;
    Ok(ResetRecord(id, p, hash, a.version, a.epoch, c.now, a.verified.None?,
                   ChangedEvent(c.changedId, p, version, "reset", c.now),
                   RevokedEvent(c.revokedId, p, epoch, "password_reset", c.now)))
  }

  function ReadAskTicket(c: Command): Result<Request>
    requires c.AskTicket?
  {
    if c.caller.epoch == 0 then Err(NO_SESSION)
    else
      var expires :- Deadline(c.now, MAX_TICKET_MS);
      var ticket :- RestoreTicket(Ticket(c.caller.session, Digest(WebSocketUpgrade, c.secret), c.now, expires, None));
      Ok(TicketRecord(c.ticketId, ticket, c.caller.epoch))
  }

  function Read(config: Config, d: Data, c: Command): Result<Request> {
    match c
    case SignUp(_, _, _, _, _, _, _) => ReadSignUp(config, c)
    case SignIn(_, _, _, _, _, _) => ReadSignIn(config, d, c)
    case SignOut(caller, now, eventId) =>
      var event := Event(eventId, SessionRevoked(caller.principal, caller.session), now);
      Ok(RevokeRecord(caller.session, caller.principal, now, event))
    case SignOutAll(_, _, _) => ReadSignOutAll(c)
    case RequestChallenge(_, _, _, _, _) => ReadRequestChallenge(config, d, c)
    case Confirm(_, _, _, _) => ReadConfirm(d, c)
    case Replace(_, _, _, _, _, _) => ReadReplace(d, c)
    case Recover(_, _, _, _, _) => ReadRecover(d, c)
    case AskTicket(_, _, _, _) => ReadAskTicket(c)
  }

  // ---- When a command goes on to commit ---------------------------------------------------------------------

  /** A login goes on exactly for a matched password of an active, verified principal, in range of its deadlines. */
  lemma SignInProceeds(config: Config, d: Data, c: Command)
    requires config.Valid() && c.SignIn? && TimeInRange(c.now)
    requires c.found.Some? && c.found.value in d.accounts ==> AccountChecked(d.accounts[c.found.value])
    ensures Read(config, d, c).Ok? <==>
              && c.found.Some? && c.found.value in d.accounts && c.matched
              && d.accounts[c.found.value].verified.Some? && d.accounts[c.found.value].status.Active?
              && c.now + config.sessionAbsolute <= MAX_TIME_MS
  {
  }

  /** A request issues a challenge exactly for an active principal, and a verification only while unverified. */
  lemma RequestProceeds(config: Config, d: Data, c: Command)
    requires config.Valid() && c.RequestChallenge? && TimeInRange(c.now)
    requires c.purpose in {EmailVerification, PasswordReset}
    requires c.found.Some? && c.found.value in d.accounts ==> AccountChecked(d.accounts[c.found.value])
    ensures Read(config, d, c).Ok? <==>
              && c.found.Some? && c.found.value in d.accounts && d.accounts[c.found.value].status.Active?
              && (c.purpose.EmailVerification? ==> d.accounts[c.found.value].verified.None?)
              && c.now + (if c.purpose.PasswordReset? then config.reset else config.verification) <= MAX_TIME_MS
  {
  }

  /** The challenge a token found may be used now: of an active principal, of the purpose, unused, in time, current. */
  predicate Usable(d: Data, found: Option<Id>, purpose: Purpose, now: int) {
    && found.Some? && found.value in d.challenges && d.challenges[found.value].principal in d.accounts
    && var c, a := d.challenges[found.value], d.accounts[d.challenges[found.value].principal];
       && a.status.Active? && c.digest.purpose == purpose && c.Outstanding()
       && c.issued <= now < c.expires && c.version == a.version
  }

  /** A verification goes on exactly with a usable challenge and the password. */
  lemma ConfirmProceeds(config: Config, d: Data, c: Command)
    requires c.Confirm? && TimeInRange(c.now)
    ensures Read(config, d, c).Ok? <==> Usable(d, c.found, EmailVerification, c.now) && c.matched
  {
  }

  /** A reset goes on exactly with a usable challenge and an admitted password, while version and epoch can move. */
  lemma RecoverProceeds(config: Config, d: Data, c: Command)
    requires c.Recover? && TimeInRange(c.now)
    requires forall p :: p in d.accounts ==> AccountChecked(d.accounts[p])
    ensures Read(config, d, c).Ok? <==>
              && Usable(d, c.found, PasswordReset, c.now) && c.password.admitted && c.password.hash.Ok?
              && d.accounts[d.challenges[c.found.value].principal].version < MAX_VERSION
              && d.accounts[d.challenges[c.found.value].principal].epoch < MAX_VERSION
  {
  }

  /** A change goes on exactly for the caller's own epoch and password and such a new one, while both can still move. */
  lemma ReplaceProceeds(config: Config, d: Data, c: Command)
    requires c.Replace?
    requires forall p :: p in d.accounts ==> AccountChecked(d.accounts[p])
    ensures Read(config, d, c).Ok? <==>
              && c.caller.principal in d.accounts && c.matched && c.password.admitted && c.password.hash.Ok?
              && var a := d.accounts[c.caller.principal];
                 a.status.Active? && a.epoch == c.caller.epoch && a.epoch < MAX_VERSION && a.version < MAX_VERSION
  {
  }

  // ---- The commit half -----------------------------------------------------------------------------------

  function Apply(d: Data, r: Request): Result<Data> {
    match r
    case RegisterRecord(p, account, challengeId, challenge, event) =>
      Register(d, p, account, challengeId, challenge, event)
    case LoginRecord(id, session, version, epoch, event) => CommitLogin(d, id, session, version, epoch, event)
    case RevokeRecord(id, p, at, event) => RevokeOne(d, id, p, at, event)
    case EpochRecord(p, epoch, event) => RevokeAll(d, p, epoch, event)
    case IssueRecord(id, challenge, version) => IssueChallenge(d, id, challenge, version)
    case VerifyRecord(id, p, at, version, event) => VerifyEmail(d, id, p, at, version, event)
    case ChangeRecord(p, hash, version, epoch, at, changed, revoked) =>
      ChangePassword(d, p, hash, version, epoch, at, changed, revoked)
    case ResetRecord(id, p, hash, version, epoch, at, setVerified, changed, revoked) =>
      ResetPassword(d, id, p, hash, version, epoch, at, setVerified, changed, revoked)
    case TicketRecord(id, ticket, epoch) => IssueTicket(d, id, ticket, epoch)
  }

  /** A committed consumption of a challenge: when, and the password version then in force. */
  datatype Use = Use(challenge: Id, at: int, current: int)

  /**
   * The store, the commands between read and commit, and what has happened: the password
   * version each session was opened against, when each was admitted, the challenges
   * consumed and the tickets redeemed.
   */
  datatype System = System(
    data: Data, flights: map<nat, Request>, openedAt: map<Id, int>, admissions: map<Id, seq<int>>, uses: seq<Use>,
    redeemed: seq<Id>)

  const START := System(NOTHING, map[], map[], map[], [], [])

  datatype Step =
    | Begin(task: nat, command: Command)
    | Commit(task: nat, applied: bool)
    | Resolving(session: Option<Id>, now: int, applied: bool)
    | Redeeming(ticket: Option<Id>, now: int, applied: bool)
    | SetStatus(principal: Id, status: Status)

  predicate Enabled(s: System, step: Step) {
    match step
    case Begin(task, _) => task !in s.flights
    case Commit(task, _) => task in s.flights
    case SetStatus(p, _) => p in s.data.accounts
    case _ => true
  }

  /** What a committed request adds to the history. */
  function Recorded(s: System, r: Request): System {
    match r
    case LoginRecord(id, _, version, _, _) =>
      s.(openedAt := s.openedAt[id := version], admissions := s.admissions[id := []])
    case VerifyRecord(id, p, at, _, _) =>
      if p in s.data.accounts then s.(uses := s.uses + [Use(id, at, s.data.accounts[p].version)]) else s
    case ResetRecord(id, p, _, _, _, at, _, _, _) =>
      if p in s.data.accounts then s.(uses := s.uses + [Use(id, at, s.data.accounts[p].version)]) else s
    case _ => s
  }

  function Committed(s: System, task: nat, applied: bool): System
    requires task in s.flights
  {
    var landed := s.(flights := s.flights - {task});
    var r := s.flights[task];
    if applied && Apply(s.data, r).Ok? then Recorded(landed, r).(data := Apply(s.data, r).value) else landed
  }

  function Resolved(config: Config, s: System, id: Option<Id>, now: int): System {
    var (after, resolution) := Resolve(s.data, id, now, config.sessionIdle);
    if after.Err? then s
    else if resolution.Admitted? then
      var before := if resolution.session in s.admissions then s.admissions[resolution.session] else [];
      s.(data := after.value, admissions := s.admissions[resolution.session := before + [now]])
    else s.(data := after.value)
  }

  function Redeemed(s: System, id: Option<Id>, now: int): System {
    var (after, session) := RedeemTicket(s.data, id, now);
    if after.Err? then s
    else if session.Some? && id.Some? then s.(data := after.value, redeemed := s.redeemed + [id.value])
    else s.(data := after.value)
  }

  function Next(config: Config, s: System, step: Step): System
    requires Enabled(s, step)
  {
    match step
    case Begin(task, command) =>
      var r := Read(config, s.data, command);
      if r.Ok? then s.(flights := s.flights[task := r.value]) else s
    case Commit(task, applied) => Committed(s, task, applied)
    case Resolving(session, now, applied) => if applied then Resolved(config, s, session, now) else s
    case Redeeming(ticket, now, applied) => if applied then Redeemed(s, ticket, now) else s
    case SetStatus(p, status) =>
      s.(data := s.data.(accounts := s.data.accounts[p := s.data.accounts[p].(status := status)]))
  }

  /** The system after any interleaving; steps that are not ready do not happen. */
  function Run(config: Config, s: System, steps: seq<Step>): System {
    if steps == [] then s
    else
      var n := |steps| - 1;
      var before := Run(config, s, steps[..n]);
      if Enabled(before, steps[n]) then Next(config, before, steps[n]) else before
  }
}
