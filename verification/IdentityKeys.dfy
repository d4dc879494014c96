/** The keys identity looks rows up by: in every run each finds at most one row. */
module IdentityKeys {
  import opened Results
  import opened IdentityRows
  import opened IdentityStore
  import opened IdentityRuns

  predicate EmailsApart(accounts: map<Id, Account>) {
    forall p, q :: p in accounts && q in accounts && p != q ==> accounts[p].email != accounts[q].email
  }

  predicate SessionsApart(sessions: map<Id, Session>) {
    forall i, j :: i in sessions && j in sessions && i != j ==> sessions[i].digest != sessions[j].digest
  }

  predicate ChallengesApart(challenges: map<Id, Challenge>) {
    forall i, j :: i in challenges && j in challenges && i != j ==> challenges[i].digest != challenges[j].digest
  }

  predicate TicketsApart(tickets: map<Id, Ticket>) {
    forall i, j :: i in tickets && j in tickets && i != j ==> tickets[i].digest != tickets[j].digest
  }

  predicate KeysApart(d: Data) {
    EmailsApart(d.accounts) && SessionsApart(d.sessions) && ChallengesApart(d.challenges) && TicketsApart(d.tickets)
  }

  /** Accounts changed in place keep their emails. */
  lemma SameEmail(accounts: map<Id, Account>, p: Id, a: Account)
    requires EmailsApart(accounts) && p in accounts && a.email == accounts[p].email
    ensures EmailsApart(accounts[p := a])
  {
  }

  lemma SameSessionDigest(sessions: map<Id, Session>, id: Id, s: Session)
    requires SessionsApart(sessions) && id in sessions && s.digest == sessions[id].digest
    ensures SessionsApart(sessions[id := s])
  {
  }

  lemma SameChallengeDigest(challenges: map<Id, Challenge>, id: Id, c: Challenge)
    requires ChallengesApart(challenges) && id in challenges && c.digest == challenges[id].digest
    ensures ChallengesApart(challenges[id := c])
  {
  }

  lemma ClearedApart(challenges: map<Id, Challenge>, p: Id, purpose: Option<Purpose>, at: int)
    requires ChallengesApart(challenges)
    ensures ChallengesApart(Invalidated(challenges, p, purpose, at))
  {
  }

  lemma AddedApart(challenges: map<Id, Challenge>, id: Id, c: Challenge)
    requires ChallengesApart(challenges) && id !in challenges && NewDigest(challenges, c.digest)
    ensures ChallengesApart(challenges[id := c])
  {
  }

  lemma AddedSession(sessions: map<Id, Session>, id: Id, s: Session)
    requires SessionsApart(sessions) && id !in sessions && NewSessionDigest(sessions, s.digest)
    ensures SessionsApart(sessions[id := s])
  {
  }

  lemma AddedTicket(d: Data, id: Id, t: Ticket, epoch: int)
    requires TicketsApart(d.tickets) && IssueTicket(d, id, t, epoch).Ok?
    ensures TicketsApart(IssueTicket(d, id, t, epoch).value.tickets)
  {
    hide CheckSession, Eligible, RestoreTicket;
  }

  lemma ReplacingApart(d: Data, r: Request)
    requires KeysApart(d) && (r.ChangeRecord? || r.ResetRecord?) && Apply(d, r).Ok?
    ensures KeysApart(Apply(d, r).value)
  {
    hide ChangePassword, ResetPassword, EmailsApart, SessionsApart, ChallengesApart, TicketsApart, AllChecked,
      EnqueuedBoth, AccountChecked, Invalidated;
    match r {
      case ChangeRecord(p, hash, version, epoch, at, changed, revoked) =>
        ChangePasswordDid(d, p, hash, version, epoch, at, changed, revoked);
        SameEmail(d.accounts, p, Apply(d, r).value.accounts[p]);
        ClearedApart(d.challenges, p, None, at);
      case ResetRecord(id, p, hash, version, epoch, at, setVerified, changed, revoked) =>
        ResetPasswordDid(d, id, p, hash, version, epoch, at, setVerified, changed, revoked);
        SameEmail(d.accounts, p, Apply(d, r).value.accounts[p]);
        var consumed := d.challenges[id].(consumed := Some(at));
        SameChallengeDigest(d.challenges, id, consumed);
        ClearedApart(d.challenges[id := consumed], p, None, at);
    }
  }

  lemma RequestApart(d: Data, r: Request)
    requires KeysApart(d) && Apply(d, r).Ok?
    ensures KeysApart(Apply(d, r).value)
  {
    hide Register, CommitLogin, RevokeOne, RevokeAll, IssueChallenge, VerifyEmail, ChangePassword, ResetPassword,
      IssueTicket, AllChecked, EnqueuedBoth, Enqueued, AccountChecked, SessionChecked, ChallengeChecked, Eligible,
      CheckSession, RestoreTicket, SessionsApart, ChallengesApart, TicketsApart, Invalidated;
    match r
    case RegisterRecord(p, a, k, c, e) =>
      RegisterDid(d, p, a, k, c, e);
      AddedApart(d.challenges, k, c);
    case LoginRecord(id, x, version, epoch, e) =>
      LoginDid(d, id, x, version, epoch, e);
      AddedSession(d.sessions, id, x);
    case RevokeRecord(id, p, at, e) =>
      RevokeOneDid(d, id, p, at, e);
      if RevokeOutcomeOf(d, id, p).Revoked? { SameSessionDigest(d.sessions, id, d.sessions[id].(revoked := Some(at))); }
    case EpochRecord(p, epoch, e) =>
      RevokeAllDid(d, p, epoch, e);
      SameEmail(d.accounts, p, Apply(d, r).value.accounts[p]);
    case IssueRecord(id, c, version) =>
      IssueChallengeDid(d, id, c, version);
      ClearedApart(d.challenges, c.principal, Some(c.digest.purpose), c.issued);
      SameKeys(d.challenges, c.principal, Some(c.digest.purpose), c.issued);
      AddedApart(Invalidated(d.challenges, c.principal, Some(c.digest.purpose), c.issued), id, c);
    case VerifyRecord(id, p, at, version, e) =>
      VerifyEmailDid(d, id, p, at, version, e);
      SameEmail(d.accounts, p, Apply(d, r).value.accounts[p]);
      SameChallengeDigest(d.challenges, id, d.challenges[id].(consumed := Some(at)));
    case TicketRecord(id, t, epoch) =>
      IssueTicketDid(d, id, t, epoch);
      AddedTicket(d, id, t, epoch);
    case _ => ReplacingApart(d, r);
  }

  lemma SameKeys(challenges: map<Id, Challenge>, p: Id, purpose: Option<Purpose>, at: int)
    ensures Invalidated(challenges, p, purpose, at).Keys == challenges.Keys
  {
  }

  lemma StepApart(config: Config, s: System, step: Step)
    requires KeysApart(s.data) && Enabled(s, step)
    ensures KeysApart(Next(config, s, step).data)
  {
    hide Apply, Read, Resolve, RedeemTicket, SessionsApart, ChallengesApart, Eligible, CheckSession, SessionChecked;
    match step
    case Commit(task, applied) =>
      if applied && Apply(s.data, s.flights[task]).Ok? { RequestApart(s.data, s.flights[task]); }
    case Resolving(id, now, _) =>
      if Resolve(s.data, id, now, config.sessionIdle).0.Ok? {
        ResolveDid(s.data, id, now, config.sessionIdle);
        var after := Resolve(s.data, id, now, config.sessionIdle).0.value;
        if after != s.data { SameSessionDigest(s.data.sessions, id.value, after.sessions[id.value]); }
      }
    case Redeeming(id, now, _) =>
      if RedeemTicket(s.data, id, now).0.Ok? { RedeemTicketDid(s.data, id, now); }
    case _ =>
  }

  /**
   * In every run no two principals share an email, and no two sessions, challenges or
   * tickets share a token digest: a lookup by any of them finds one row or none.
   */
  lemma {:induction false} KeysUnique(config: Config, steps: seq<Step>)
    ensures KeysApart(Run(config, START, steps).data)
  {
    if steps != [] {
      hide KeysApart, Enabled, Next;
      var n := |steps| - 1;
      KeysUnique(config, steps[..n]);
      var before := Run(config, START, steps[..n]);
      if Enabled(before, steps[n]) { StepApart(config, before, steps[n]); }
    }
  }
}
