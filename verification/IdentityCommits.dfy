/** Exactly when each identity transaction commits, and what each command asks of it. */
module IdentityCommits {
  import opened Results
  import opened IdentityRows
  import opened IdentityStore
  import opened IdentityRuns

  // ---- Exactly when a transaction commits ---------------------------------------------------------------

  /** The outbox takes the event: its ID is free, or holds this very event. */
  predicate Free(outbox: map<Id, Event>, e: Event) {
    e.id in outbox ==> outbox[e.id] == e
  }

  /** The rows of the tables are within the tables' constraints. */
  predicate Stored(d: Data) {
    && (forall p :: p in d.accounts ==> AccountChecked(d.accounts[p]))
    && (forall k :: k in d.sessions ==> SessionChecked(d.sessions[k]))
    && AllChecked(d.challenges)
  }

  lemma RegisterCommits(d: Data, p: Id, a: Account, challengeId: Id, c: Challenge, e: Event)
    ensures var r := Register(d, p, a, challengeId, c, e);
            && (r.Ok? <==>
                  && p !in d.accounts && AccountChecked(a) && NewEmail(d.accounts, a.email)
                  && ChallengeChecked(c) && challengeId !in d.challenges && NewDigest(d.challenges, c.digest)
                  && Free(d.outbox, e))
            && (r == Err(DUPLICATE) <==> p !in d.accounts && AccountChecked(a) && !NewEmail(d.accounts, a.email))
  {
    hide AccountChecked, ChallengeChecked;
  }

  lemma LoginCommits(d: Data, id: Id, s: Session, version: int, epoch: int, e: Event)
    ensures CommitLogin(d, id, s, version, epoch, e).Ok? <==>
              && s.principal in d.accounts
              && var a := d.accounts[s.principal];
                 && a.status == Active && a.verified.Some? && a.version == version && a.epoch == epoch == s.epoch
                 && SessionChecked(s) && id !in d.sessions && NewSessionDigest(d.sessions, s.digest)
                 && Free(d.outbox, e)
  {
    hide SessionChecked;
  }

  /** A logout of a live session takes effect from its last activity on; of any other it does nothing. */
  lemma LogoutCommits(d: Data, id: Id, p: Id, now: int, e: Event)
    requires Stored(d)
    ensures var r := RevokeOne(d, id, p, now, e);
            if p in d.accounts && id in d.sessions && d.sessions[id].principal == p && d.sessions[id].revoked.None?
            then r.Ok? <==> d.sessions[id].lastSeen <= now <= MAX_TIME_MS && Free(d.outbox, e)
            else r == Ok(d)
  {
  }

  /** What a logout is told of the session it names. */
  lemma LogoutAnswers(d: Data, id: Id, p: Id)
    ensures var r := RevokeOutcomeOf(d, id, p);
            var own := p in d.accounts && id in d.sessions && d.sessions[id].principal == p;
            && (r == Revoked <==> own && d.sessions[id].revoked == None)
            && (r == AlreadyInactive <==> own && d.sessions[id].revoked != None)
            && (r == NoSession <==> !own)
  {
  }

  lemma LogoutAllCommits(d: Data, p: Id, expected: int, e: Event)
    requires Stored(d)
    ensures RevokeAll(d, p, expected, e).Ok? <==>
              p in d.accounts && d.accounts[p].epoch == expected < MAX_VERSION && Free(d.outbox, e)
  {
  }

  /** An unused challenge of the principal, of one purpose or of any. */
  predicate Concerns(c: Challenge, p: Id, purpose: Option<Purpose>) {
    && c.principal == p && c.consumed.None? && c.invalidated.None?
    && (purpose.Some? ==> c.digest.purpose == purpose.value)
  }

  /** Challenges that would be invalidated were all issued by then. */
  predicate ClearableAt(challenges: map<Id, Challenge>, p: Id, purpose: Option<Purpose>, at: int) {
    forall k :: k in challenges && Concerns(challenges[k], p, purpose) ==> challenges[k].issued <= at
  }

  lemma ClearsExactly(d: Data, p: Id, purpose: Option<Purpose>, at: int)
    requires AllChecked(d.challenges) && TimeInRange(at)
    ensures InvalidateOutstanding(d, p, purpose, at).Ok? <==> ClearableAt(d.challenges, p, purpose, at)
  {
    var after := Invalidated(d.challenges, p, purpose, at);
    if AllChecked(after) {
      forall k | k in d.challenges && Touched(d.challenges[k], p, purpose) ensures d.challenges[k].issued <= at {
        assert ChallengeChecked(after[k]);
      }
    }
  }

  lemma IssueCommits(d: Data, id: Id, c: Challenge, version: int)
    requires Stored(d) && TimeInRange(c.issued)
    ensures IssueChallenge(d, id, c, version).Ok? <==>
              && c.principal in d.accounts && d.accounts[c.principal].version == version
              && ClearableAt(d.challenges, c.principal, Some(c.digest.purpose), c.issued)
              && ChallengeChecked(c) && id !in d.challenges && NewDigest(d.challenges, c.digest)
  {
    ClearsExactly(d, c.principal, Some(c.digest.purpose), c.issued);
    var cleared := Invalidated(d.challenges, c.principal, Some(c.digest.purpose), c.issued);
    assert forall k :: k in d.challenges ==> cleared[k].digest == d.challenges[k].digest;
    hide ChallengeChecked, ClearableAt, AllChecked, Touched;
    assert NewDigest(cleared, c.digest) <==> NewDigest(d.challenges, c.digest) by {
      if NewDigest(cleared, c.digest) {
        forall k | k in d.challenges ensures d.challenges[k].digest != c.digest { assert k in cleared; }
      }
    }
  }

  lemma VerifyCommits(d: Data, id: Id, p: Id, at: int, version: int, e: Event)
    requires Stored(d)
    ensures VerifyEmail(d, id, p, at, version, e).Ok? <==>
              && p in d.accounts && d.accounts[p].version == version
              && id in d.challenges && d.challenges[id].principal == p
              && d.challenges[id].digest.purpose == EmailVerification
              && d.challenges[id].consumed.None? && d.challenges[id].invalidated.None?
              && d.challenges[id].issued <= at < d.challenges[id].expires
              && (d.accounts[p].verified.None? ==> d.accounts[p].created <= at)
              && Free(d.outbox, e)
  {
  }

  /** The account's password can be replaced now: version and epoch as expected and not at their end. */
  predicate Replaceable(d: Data, p: Id, hash: string, version: int, epoch: int, at: int) {
    && p in d.accounts && d.accounts[p].version == version < MAX_VERSION && d.accounts[p].epoch == epoch < MAX_VERSION
    && 1 <= |hash| <= 512 && d.accounts[p].created <= at <= MAX_TIME_MS
  }

  lemma ReplaceCommits(d: Data, p: Id, hash: string, at: int, setVerified: bool)
    requires Stored(d) && p in d.accounts
    ensures ReplacePassword(d, p, hash, at, setVerified).Ok? <==>
              && Replaceable(d, p, hash, d.accounts[p].version, d.accounts[p].epoch, at)
              && ClearableAt(d.challenges, p, None, at)
  {
    if Replaceable(d, p, hash, d.accounts[p].version, d.accounts[p].epoch, at) {
      var a := d.accounts[p];
      var verified := if setVerified && a.verified.None? then Some(at) else a.verified;
      var next := a.(hash := hash, version := a.version + 1, changed := at, verified := verified, epoch := a.epoch + 1);
      ClearsExactly(d.(accounts := d.accounts[p := next]), p, None, at);
    }
    hide ClearableAt, InvalidateOutstanding;
  }

  lemma ChangeCommits(
      d: Data, p: Id, hash: string, version: int, epoch: int, at: int, changed: Event, revoked: Event)
    requires Stored(d)
    ensures ChangePassword(d, p, hash, version, epoch, at, changed, revoked).Ok? <==>
              && Replaceable(d, p, hash, version, epoch, at) && ClearableAt(d.challenges, p, None, at)
              && Free(d.outbox, changed) && Free(d.outbox[changed.id := changed], revoked)
  {
    if p in d.accounts { ReplaceCommits(d, p, hash, at, false); }
    if p in d.accounts && ReplacePassword(d, p, hash, at, false).Ok? { ReplacePasswordDid(d, p, hash, at, false); }
    hide ReplacePassword, ClearableAt, Stored, ReplacedBy;
  }

  lemma ResetCommits(
    d: Data, id: Id, p: Id, hash: string, version: int, epoch: int, at: int, setVerified: bool, changed: Event,
    revoked: Event)
    requires Stored(d)
    ensures ResetPassword(d, id, p, hash, version, epoch, at, setVerified, changed, revoked).Ok? <==>
              && Replaceable(d, p, hash, version, epoch, at)
              && id in d.challenges && d.challenges[id].principal == p
              && d.challenges[id].digest.purpose == PasswordReset
              && d.challenges[id].consumed.None? && d.challenges[id].invalidated.None?
              && d.challenges[id].issued <= at < d.challenges[id].expires
              && ClearableAt(d.challenges, p, None, at)
              && Free(d.outbox, changed) && Free(d.outbox[changed.id := changed], revoked)
  {
    hide ReplacePassword, ClearableAt, Stored, ReplacedBy;
    if p in d.accounts && Consumable(d, id, p, PasswordReset, at) {
      var consumed := Consume(d, id, p, PasswordReset, at).value;
      ConsumedClears(d, id, p, at);
      ReplaceCommits(consumed, p, hash, at, setVerified);
      if ReplacePassword(consumed, p, hash, at, setVerified).Ok? {
        ReplacePasswordDid(consumed, p, hash, at, setVerified);
      }
    }
  }

  /** Consuming one challenge leaves the others to be cleared as before, and it was itself issued by then. */
  lemma ConsumedClears(d: Data, id: Id, p: Id, at: int)
    requires Stored(d) && Consumable(d, id, p, PasswordReset, at)
    ensures Stored(Consume(d, id, p, PasswordReset, at).value)
    ensures ClearableAt(Consume(d, id, p, PasswordReset, at).value.challenges, p, None, at)
       <==> ClearableAt(d.challenges, p, None, at)
  {
    var after := Consume(d, id, p, PasswordReset, at).value.challenges;
    forall k | k in d.challenges && k != id ensures after[k] == d.challenges[k] {}
    if ClearableAt(after, p, None, at) {
      forall k | k in d.challenges && d.challenges[k].principal == p && d.challenges[k].Outstanding()
        ensures d.challenges[k].issued <= at
      {
        if k != id { assert after[k].issued <= at; }
      }
    }
  }

  lemma TicketCommits(d: Data, id: Id, t: Ticket, epoch: int)
    ensures IssueTicket(d, id, t, epoch).Ok? <==>
              && t.session in d.sessions && Eligible(d, d.sessions[t.session]) && d.sessions[t.session].epoch == epoch
              && CheckSession(d.sessions[t.session], t.issued).Ok?
              && RestoreTicket(t).Ok? && id !in d.tickets
              && forall k :: k in d.tickets ==> d.tickets[k].digest != t.digest
  {
    hide CheckSession, Eligible;
  }

  /**
   * What one resolve does: an active, verified principal's live session of the current
   * epoch is admitted and touched; an unrevoked one past a deadline is revoked there and
   * then, whoever's it is; nothing else changes anything.
   */
  lemma ResolvesExactly(d: Data, id: Id, now: int, idleTtl: int)
    requires Stored(d) && 1 <= idleTtl <= MAX_TIME_MS
    requires id in d.sessions && d.sessions[id].principal in d.accounts && TimeInRange(now)
    ensures var (after, resolution), s := Resolve(d, Some(id), now, idleTtl), d.sessions[id];
            var a := d.accounts[s.principal];
            var late := now >= s.idle || now >= s.absolute;
            && (resolution.Admitted? <==>
                  && a.status == Active && a.verified.Some? && a.epoch == s.epoch && s.revoked.None?
                  && s.lastSeen <= now && !late)
            && (resolution.Admitted? ==> resolution == Admitted(s.principal, id, s.epoch))
            && !resolution.Absent?
            && (!resolution.Admitted? ==>
                  after == Ok(if s.revoked.None? && s.lastSeen <= now && late
                              then d.(sessions := d.sessions[id := s.(revoked := Some(now))]) else d))
  {
  }

  /** What a resolve answers otherwise: no session, a session without its principal, or a clock out of range. */
  lemma ResolvesNothing(d: Data, id: Id, now: int, idleTtl: int)
    ensures Resolve(d, None, now, idleTtl) == (Ok(d), Absent)
    ensures id !in d.sessions ==> Resolve(d, Some(id), now, idleTtl) == (Ok(d), Absent)
    ensures id in d.sessions && d.sessions[id].principal !in d.accounts ==>
              Resolve(d, Some(id), now, idleTtl) == (Err("identity.record_corrupt"), Rejected)
    ensures id in d.sessions && d.sessions[id].principal in d.accounts && d.sessions[id].lastSeen <= now
            && MAX_TIME_MS < now
            ==> Resolve(d, Some(id), now, idleTtl) == (Err("identity.session_invalid"), Rejected)
  {
  }

  /**
   * A ticket redeems exactly while it is unused and in time and its session is live, of
   * its principal's epoch, and that principal active and verified; it is then used up, and
   * at any refusal nothing is written.
   */
  lemma RedeemsExactly(d: Data, ticket: Id, now: int)
    requires Stored(d) && ticket in d.tickets && d.tickets[ticket].session in d.sessions
    requires d.sessions[d.tickets[ticket].session].principal in d.accounts
    ensures var t, s := d.tickets[ticket], d.sessions[d.tickets[ticket].session];
            var a := d.accounts[s.principal];
            RedeemTicket(d, Some(ticket), now)
            == if a.status == Active && a.verified.Some? && a.epoch == s.epoch && s.revoked.None?
                  && s.lastSeen <= now < s.idle && now < s.absolute
                  && t.consumed.None? && t.issued <= now < t.expires
               then (Ok(d.(tickets := d.tickets[ticket := t.(consumed := Some(now))])), Some(t.session))
               else (Ok(d), None)
  {
  }

  // ---- What each command asks for -------------------------------------------------------------------------

  /** A registration asks for an active, unverified account and a challenge to verify it. */
  lemma SignUpAsks(config: Config, d: Data, c: Command)
    requires c.SignUp? && Read(config, d, c).Ok?
    ensures var r := Read(config, d, c).value;
            && r.RegisterRecord? && r.principal == c.principal && r.challengeId == c.challengeId
            && c.password.admitted && c.password.hash.Ok?
            && r.account == Account(Active, c.email, 1, 1, c.password.hash.value, None, c.now, c.now)
            && r.challenge == Challenge(c.principal, Digest(EmailVerification, c.secret), 1, c.now,
                                        c.now + config.verification, None, None)
            && r.event == Event(c.eventId, Registered(c.principal), c.now)
  {
  }

  /** A login asks for a session of the principal's epoch that lives for the configured times from now. */
  lemma SignInAsks(config: Config, d: Data, c: Command)
    requires c.SignIn? && Read(config, d, c).Ok?
    ensures var r := Read(config, d, c).value;
            && r.LoginRecord? && c.found.Some? && c.found.value in d.accounts && r.sessionId == c.sessionId
            && var p, a := c.found.value, d.accounts[c.found.value];
               && r.version == a.version && r.epoch == a.epoch
               && r.session == Session(p, Digest(SessionToken, c.secret), a.epoch, c.now, c.now,
                                       c.now + config.sessionAbsolute, c.now + config.sessionIdle, None)
               && r.event == Event(c.eventId, SessionCreated(p, c.sessionId, a.epoch), c.now)
  {
  }

  /** Logouts ask for the caller's own session, or for the epoch after the caller's. */
  lemma SignOutsAsk(config: Config, d: Data, c: Command)
    requires (c.SignOut? || c.SignOutAll?) && Read(config, d, c).Ok?
    ensures var r, p := Read(config, d, c).value, c.caller.principal;
            && (c.SignOut? ==>
                  r == RevokeRecord(c.caller.session, p, c.now,
                                    Event(c.eventId, SessionRevoked(p, c.caller.session), c.now)))
            && (c.SignOutAll? ==>
                  r == EpochRecord(p, c.caller.epoch,
                                   Event(c.eventId, SessionsRevoked(p, c.caller.epoch + 1, "logout_all"), c.now)))
  {
  }

  /** A challenge is asked for under the current password version and for its purpose's own time. */
  lemma RequestAsks(config: Config, d: Data, c: Command)
    requires c.RequestChallenge? && Read(config, d, c).Ok?
    ensures var r := Read(config, d, c).value;
            && r.IssueRecord? && c.found.Some? && c.found.value in d.accounts && r.challengeId == c.challengeId
            && var version := d.accounts[c.found.value].version;
               && r.version == version
               && r.challenge == Challenge(c.found.value, Digest(c.purpose, c.secret), version, c.now,
                                           c.now + (if c.purpose == PasswordReset then config.reset
                                                    else config.verification), None, None)
  {
  }

  lemma ConfirmAsks(config: Config, d: Data, c: Command)
    requires c.Confirm? && Read(config, d, c).Ok?
    ensures var r := Read(config, d, c).value;
            && c.found.Some? && c.found.value in d.challenges && d.challenges[c.found.value].principal in d.accounts
            && var id, p := c.found.value, d.challenges[c.found.value].principal;
               r == VerifyRecord(id, p, c.now, d.accounts[p].version, Event(c.eventId, EmailVerified(p, id), c.now))
  {
  }

  /** A change asks for the next version and epoch, and reports both. */
  lemma ReplaceAsks(config: Config, d: Data, c: Command)
    requires c.Replace? && Read(config, d, c).Ok?
    ensures var r, p := Read(config, d, c).value, c.caller.principal;
            && p in d.accounts && c.password.hash.Ok?
            && var a := d.accounts[p];
               r == ChangeRecord(
                      p, c.password.hash.value, a.version, a.epoch, c.now,
                      Event(c.changedId, PasswordChanged(p, a.version + 1, "change"), c.now),
                      Event(c.revokedId, SessionsRevoked(p, a.epoch + 1, "password_change"), c.now))
  {
  }

  /** So does a reset, which also verifies an account that is not verified yet. */
  lemma RecoverAsks(config: Config, d: Data, c: Command)
    requires c.Recover? && Read(config, d, c).Ok?
    ensures var r := Read(config, d, c).value;
            && c.found.Some? && c.found.value in d.challenges && d.challenges[c.found.value].principal in d.accounts
            && c.password.hash.Ok?
            && var id, p := c.found.value, d.challenges[c.found.value].principal;
               var a := d.accounts[p];
               r == ResetRecord(
                      id, p, c.password.hash.value, a.version, a.epoch, c.now, a.verified.None?,
                      Event(c.changedId, PasswordChanged(p, a.version + 1, "reset"), c.now),
                      Event(c.revokedId, SessionsRevoked(p, a.epoch + 1, "password_reset"), c.now))
  {
  }

  /** A ticket is asked for the caller's session and epoch, for thirty seconds. */
  lemma TicketAsks(config: Config, d: Data, c: Command)
    requires c.AskTicket? && TimeInRange(c.now)
    ensures Read(config, d, c).Ok? <==> c.caller.epoch != 0 && c.now + 30_000 <= MAX_TIME_MS
    ensures Read(config, d, c).Ok? ==>
              Read(config, d, c).value
              == TicketRecord(c.ticketId, Ticket(c.caller.session, Digest(WebSocketUpgrade, c.secret), c.now,
                                                 c.now + 30_000, None), c.caller.epoch)
  {
  }

  /** A registration commits exactly for a new principal, email, challenge and event, with texts of storable length. */
  lemma SignUpCommits(config: Config, d: Data, c: Command)
    requires config.Valid() && c.SignUp? && TimeInRange(c.now) && Read(config, d, c).Ok?
    ensures Apply(d, Read(config, d, c).value).Ok? <==>
              && c.principal !in d.accounts && NewEmail(d.accounts, c.email)
              && 3 <= |c.email| <= 254 && 1 <= |c.password.hash.value| <= 512
              && c.challengeId !in d.challenges && NewDigest(d.challenges, Digest(EmailVerification, c.secret))
              && Free(d.outbox, Event(c.eventId, Registered(c.principal), c.now))
  {
    SignUpAsks(config, d, c);
    var r := Read(config, d, c).value;
    RegisterCommits(d, r.principal, r.account, r.challengeId, r.challenge, r.event);
    assert r.challenge.expires <= MAX_TIME_MS;
    hide Read, Register, NewEmail, NewDigest;
  }

  /**
   * What a refused caller is told does not say why: an unknown email, a wrong password and an
   * unverified or suspended account look alike, and so do all unusable challenges.
   */
  lemma RefusalsAlike(config: Config, d: Data, c: Command)
    requires Read(config, d, c).Err?
    ensures c.SignIn? && (c.found.None? || c.found.value !in d.accounts || !c.matched
                          || d.accounts[c.found.value].verified.None? || d.accounts[c.found.value].status != Active)
            ==> Read(config, d, c).code == "identity.credentials_rejected"
    ensures c.RequestChallenge? && (c.found.None? || c.found.value !in d.accounts
                                    || d.accounts[c.found.value].status != Active
                                    || (c.purpose == EmailVerification && d.accounts[c.found.value].verified.Some?))
            ==> Read(config, d, c).code == "identity.challenge_rejected"
    ensures c.Confirm? ==> Read(config, d, c).code == "identity.challenge_rejected"
    ensures c.Recover? && c.password.admitted && !Usable(d, c.found, PasswordReset, c.now)
            ==> Read(config, d, c).code == "identity.challenge_rejected"
  {
  }

  // ---- What a user gets -------------------------------------------------------------------------------------

  /** What a caller is told whose new password or session does not do, in the order they are found. */
  lemma PasswordRefusals(config: Config, d: Data, c: Command)
    requires Read(config, d, c).Err?
    ensures c.SignUp? && !c.password.admitted ==> Read(config, d, c).code == "identity.password_invalid"
    ensures c.Replace? ==>
              var p, code := c.caller.principal, Read(config, d, c).code;
              if p !in d.accounts || d.accounts[p].epoch != c.caller.epoch || d.accounts[p].status != Active
              then code == "identity.session_rejected"
              else if !c.matched then code == "identity.credentials_rejected"
              else !c.password.admitted ==> code == "identity.password_invalid"
    ensures c.Recover? && !c.password.admitted && Usable(d, c.found, PasswordReset, c.now) ==>
              Read(config, d, c).code == "identity.password_invalid"
    ensures c.AskTicket? && c.caller.epoch == 0 ==> Read(config, d, c).code == "identity.session_rejected"
  {
  }

  /**
   * A login that commits opens a session that is admitted at every time from then on up to
   * the idle time, and from any such admission for the idle time again.
   */
  lemma LoginAdmits(config: Config, d: Data, c: Command, at: int)
    requires config.Valid() && Stored(d) && c.SignIn?
    requires Read(config, d, c).Ok? && Apply(d, Read(config, d, c).value).Ok?
    requires c.now <= at < c.now + config.sessionIdle && TimeInRange(at)
    ensures var after := Apply(d, Read(config, d, c).value).value;
            && c.sessionId in after.sessions
            && Resolve(after, Some(c.sessionId), at, config.sessionIdle).1
               == Admitted(c.found.value, c.sessionId, d.accounts[c.found.value].epoch)
  {
    SignInAsks(config, d, c);
    var r := Read(config, d, c).value;
    LoginDid(d, r.sessionId, r.session, r.version, r.epoch, r.event);
    hide Read, CommitLogin;
    var after := Apply(d, r).value;
    ResolvesExactly(after, c.sessionId, at, config.sessionIdle);
    hide Resolve;
  }

  /**
   * A challenge that is issued can be used at every time from its issue up to its expiry,
   * while its principal is active and the password has not changed.
   */
  lemma ChallengeServes(config: Config, d: Data, c: Command, later: Data, at: int)
    requires c.RequestChallenge? && Read(config, d, c).Ok? && Apply(d, Read(config, d, c).value).Ok?
    requires var after := Apply(d, Read(config, d, c).value).value;
             && c.challengeId in after.challenges && c.challengeId in later.challenges
             && later.challenges[c.challengeId] == after.challenges[c.challengeId]
    requires c.found.value in later.accounts
    ensures Usable(later, Some(c.challengeId), c.purpose, at) <==>
              && later.accounts[c.found.value].status == Active
              && later.accounts[c.found.value].version == d.accounts[c.found.value].version
              && c.now <= at < c.now + (if c.purpose == PasswordReset then config.reset else config.verification)
  {
    RequestAsks(config, d, c);
    var r := Read(config, d, c).value;
    IssueChallengeDid(d, r.challengeId, r.challenge, r.version);
    hide Read, IssueChallenge;
  }
}
