/** The identity store's transactions as they run: statements in order, rolled back on refusal. */
module IdentityDatabase {
  import opened Results
  import opened IdentityRows
  import opened IdentityStore

  type Refusal = Option<string>

  function Outcome(r: Result<Data>): Refusal {
    if r.Ok? then None else Some(r.code)
  }

  function Left(r: Result<Data>, before: Data): Data {
    if r.Ok? then r.value else before
  }

  class Store {
    var accounts: map<Id, Account>
    var sessions: map<Id, Session>
    var challenges: map<Id, Challenge>
    var tickets: map<Id, Ticket>
    var outbox: map<Id, Event>

    function View(): Data
      reads this
    {
      Data(accounts, sessions, challenges, tickets, outbox)
    }

    constructor ()
      ensures View() == NOTHING
    {
      accounts, sessions, challenges, tickets, outbox := map[], map[], map[], map[], map[];
    }

    // ---- Statements ------------------------------------------------------------------------------------

    method Rollback(saved: Data)
      modifies this
      ensures View() == saved
    {
      accounts, sessions, challenges, tickets, outbox :=
        saved.accounts, saved.sessions, saved.challenges, saved.tickets, saved.outbox;
    }

    method EnqueueEvent(e: Event) returns (refused: Refusal)
      modifies this`outbox
      ensures var r := Emit(old(View()), e); refused == Outcome(r) && View() == Left(r, old(View()))
    {
      if e.id in outbox && outbox[e.id] != e { return Some("events.id_reused"); }
      outbox := outbox[e.id := e];
      assert old(outbox)[e.id := e] == if e.id in old(outbox) then old(outbox) else outbox;
      return None;
    }

    method WriteAccount(p: Id, a: Account) returns (refused: Refusal)
      modifies this`accounts
      ensures var r := PutAccount(old(View()), p, a); refused == Outcome(r) && View() == Left(r, old(View()))
    {
      if !AccountChecked(a) { return Some(REFUSED); }
      accounts := accounts[p := a];
      return None;
    }

    method AddChallenge(id: Id, c: Challenge) returns (refused: Refusal)
      modifies this`challenges
      ensures var r := InsertChallenge(old(View()), id, c); refused == Outcome(r) && View() == Left(r, old(View()))
    {
      if !ChallengeChecked(c) { return Some(REFUSED); }
      if id in challenges || exists k :: k in challenges && challenges[k].digest == c.digest { return Some(CONFLICT); }
      challenges := challenges[id := c];
      return None;
    }

    method AddSession(id: Id, s: Session) returns (refused: Refusal)
      modifies this`sessions
      ensures var r := InsertSession(old(View()), id, s); refused == Outcome(r) && View() == Left(r, old(View()))
    {
      if !SessionChecked(s) { return Some(REFUSED); }
      if id in sessions || exists k :: k in sessions && sessions[k].digest == s.digest { return Some(CONFLICT); }
      sessions := sessions[id := s];
      return None;
    }

    method WriteSession(id: Id, s: Session) returns (refused: Refusal)
      modifies this`sessions
      ensures var r := UpdateSession(old(View()), id, s); refused == Outcome(r) && View() == Left(r, old(View()))
    {
      if !SessionChecked(s) { return Some(REFUSED); }
      sessions := sessions[id := s];
      return None;
    }

    method ClearOutstanding(p: Id, purpose: Option<Purpose>, at: int) returns (refused: Refusal)
      modifies this`challenges
      ensures var r := InvalidateOutstanding(old(View()), p, purpose, at);
              refused == Outcome(r) && View() == Left(r, old(View()))
    {
      var cleared := map id | id in challenges ::
        if challenges[id].principal == p && challenges[id].consumed.None? && challenges[id].invalidated.None?
           && (purpose.None? || challenges[id].digest.purpose == purpose.value)
        then challenges[id].(invalidated := Some(at)) else challenges[id];
      assert cleared == Invalidated(challenges, p, purpose, at);
      if !AllChecked(cleared) { return Some(REFUSED); }
      challenges := cleared;
      return None;
    }

    method ConsumeOne(id: Id, p: Id, purpose: Purpose, at: int) returns (refused: Refusal)
      modifies this`challenges
      ensures var r := Consume(old(View()), id, p, purpose, at); refused == Outcome(r) && View() == Left(r, old(View()))
    {
      if id !in challenges { return Some(STALE); }
      var c := challenges[id];
      if c.principal != p || c.digest.purpose != purpose || c.consumed.Some? || c.invalidated.Some?
         || at < c.issued || c.expires <= at {
        return Some(STALE);
      }
      challenges := challenges[id := c.(consumed := Some(at))];
      return None;
    }

    method Replace(p: Id, hash: string, at: int, setVerified: bool) returns (refused: Refusal)
      requires p in accounts
      modifies this
      ensures refused == Outcome(ReplacePassword(old(View()), p, hash, at, setVerified))
      ensures refused.None? ==> View() == ReplacePassword(old(View()), p, hash, at, setVerified).value
    {
      var a := accounts[p];
      if a.version >= MAX_VERSION { return Some("identity.version_exhausted"); }
      var epoch := NextEpoch(a.epoch, a.epoch);
      if epoch.Err? { return Some(epoch.code); }
      var verified := if setVerified && a.verified.None? then Some(at) else a.verified;
      refused := WriteAccount(
        p, a.(hash := hash, version := a.version + 1, changed := at, verified := verified, epoch := epoch.value));
      if refused.Some? { return; }
      refused := ClearOutstanding(p, None, at);
    }

    // ---- Transactions -----------------------------------------------------------------------------------

    method RegisterPrincipal(p: Id, a: Account, challengeId: Id, c: Challenge, e: Event) returns (refused: Refusal)
      modifies this
      ensures var r := Register(old(View()), p, a, challengeId, c, e);
              refused == Outcome(r) && View() == Left(r, old(View()))
    {
      var saved := View();
      if p in accounts { return Some(CONFLICT); }
      refused := WriteAccount(p, a);
      if refused.None? && exists q :: q in saved.accounts && saved.accounts[q].email == a.email {
        refused := Some(DUPLICATE);
      }
      if refused.None? { refused := AddChallenge(challengeId, c); }
      if refused.None? { refused := EnqueueEvent(e); }
      if refused.Some? { Rollback(saved); }
    }

    method Login(id: Id, s: Session, version: int, epoch: int, e: Event) returns (refused: Refusal)
      modifies this
      ensures var r := CommitLogin(old(View()), id, s, version, epoch, e);
              refused == Outcome(r) && View() == Left(r, old(View()))
    {
      var saved := View();
      if s.principal !in accounts { return Some(STALE); }
      var a := accounts[s.principal];
      if a.status != Active || a.verified.None? || a.version != version || a.epoch != epoch || s.epoch != a.epoch {
        return Some(STALE);
      }
      refused := AddSession(id, s);
      if refused.None? { refused := EnqueueEvent(e); }
      if refused.Some? { Rollback(saved); }
    }

    method Logout(id: Id, p: Id, now: int, e: Event) returns (refused: Refusal, outcome: RevokeOutcome)
      modifies this
      ensures var r := RevokeOne(old(View()), id, p, now, e); refused == Outcome(r) && View() == Left(r, old(View()))
      ensures refused.None? ==> outcome == RevokeOutcomeOf(old(View()), id, p)
    {
      var saved := View();
      outcome := NoSession;
      if p !in accounts || id !in sessions || sessions[id].principal != p { return None, NoSession; }
      if sessions[id].revoked.Some? { return None, AlreadyInactive; }
      var revoked := RevokeSession(sessions[id], now);
      if revoked.Err? { return Some(revoked.code), outcome; }
      refused := WriteSession(id, revoked.value);
      if refused.None? { refused := EnqueueEvent(e); }
      if refused.Some? { Rollback(saved); } else { outcome := Revoked; }
    }

    method LogoutAll(p: Id, expected: int, e: Event) returns (refused: Refusal)
      modifies this
      ensures var r := RevokeAll(old(View()), p, expected, e); refused == Outcome(r) && View() == Left(r, old(View()))
    {
      var saved := View();
      if p !in accounts || accounts[p].epoch != expected { return Some(STALE); }
      var epoch := NextEpoch(accounts[p].epoch, expected);
      if epoch.Err? { return Some(epoch.code); }
      refused := WriteAccount(p, accounts[p].(epoch := epoch.value));
      if refused.None? { refused := EnqueueEvent(e); }
      if refused.Some? { Rollback(saved); }
    }

    method Issue(id: Id, c: Challenge, version: int) returns (refused: Refusal)
      modifies this
      ensures var r := IssueChallenge(old(View()), id, c, version);
              refused == Outcome(r) && View() == Left(r, old(View()))
    {
      var saved := View();
      if c.principal !in accounts || accounts[c.principal].version != version { return Some(STALE); }
      refused := ClearOutstanding(c.principal, Some(c.digest.purpose), c.issued);
      if refused.None? { refused := AddChallenge(id, c); }
      if refused.Some? { Rollback(saved); }
    }

    method Verify(id: Id, p: Id, at: int, version: int, e: Event) returns (refused: Refusal)
      modifies this
      ensures var r := VerifyEmail(old(View()), id, p, at, version, e);
              refused == Outcome(r) && View() == Left(r, old(View()))
    {
      var saved := View();
      if p !in accounts || accounts[p].version != version { return Some(STALE); }
      refused := ConsumeOne(id, p, EmailVerification, at);
      if refused.None? {
        var a := accounts[p];
        refused := WriteAccount(p, a.(verified := if a.verified.None? then Some(at) else a.verified));
      }
      if refused.None? { refused := EnqueueEvent(e); }
      if refused.Some? { Rollback(saved); }
    }

    method Change(p: Id, hash: string, version: int, epoch: int, at: int, changed: Event, revoked: Event)
      returns (refused: Refusal)
      modifies this
      ensures var r := ChangePassword(old(View()), p, hash, version, epoch, at, changed, revoked);
              refused == Outcome(r) && View() == Left(r, old(View()))
    {
      hide AccountChecked, AllChecked, Invalidated;
      var saved := View();
      if p !in accounts || accounts[p].version != version || accounts[p].epoch != epoch { return Some(STALE); }
      refused := Replace(p, hash, at, false);
      if refused.None? { refused := EnqueueEvent(changed); }
      if refused.None? { refused := EnqueueEvent(revoked); }
      if refused.Some? { Rollback(saved); }
    }

    method Reset(
      id: Id, p: Id, hash: string, version: int, epoch: int, at: int, setVerified: bool, changed: Event, revoked: Event)
      returns (refused: Refusal)
      modifies this
      ensures var r := ResetPassword(old(View()), id, p, hash, version, epoch, at, setVerified, changed, revoked);
              refused == Outcome(r) && View() == Left(r, old(View()))
    {
      hide AccountChecked, AllChecked, Invalidated;
      var saved := View();
      if p !in accounts || accounts[p].version != version || accounts[p].epoch != epoch { return Some(STALE); }
      refused := ConsumeOne(id, p, PasswordReset, at);
      if refused.None? { refused := Replace(p, hash, at, setVerified); }
      if refused.None? { refused := EnqueueEvent(changed); }
      if refused.None? { refused := EnqueueEvent(revoked); }
      if refused.Some? { Rollback(saved); }
    }

    method AddTicket(id: Id, t: Ticket, epoch: int) returns (refused: Refusal)
      modifies this
      ensures var r := IssueTicket(old(View()), id, t, epoch); refused == Outcome(r) && View() == Left(r, old(View()))
    {
      if t.session !in sessions { return Some(STALE); }
      var s := sessions[t.session];
      if s.principal !in accounts { return Some(STALE); }
      var a := accounts[s.principal];
      if a.epoch != epoch || a.status != Active || a.verified.None? { return Some(STALE); }
      if s.epoch != a.epoch || CheckSession(s, t.issued).Err? { return Some(STALE); }
      if RestoreTicket(t).Err? { return Some("identity.record_corrupt"); }
      if !TicketChecked(t) { return Some(REFUSED); }
      if id in tickets || exists k :: k in tickets && tickets[k].digest == t.digest { return Some(CONFLICT); }
      tickets := tickets[id := t];
      return None;
    }

    method UseTicket(id: Option<Id>, now: int) returns (refused: Refusal, session: Option<Id>)
      modifies this
      ensures var (r, admitted) := RedeemTicket(old(View()), id, now);
              refused == Outcome(r) && session == admitted && View() == Left(r, old(View()))
    {
      if id.None? || id.value !in tickets { return None, None; }
      var t := tickets[id.value];
      if t.session !in sessions { return None, None; }
      var s := sessions[t.session];
      if !Eligible(View(), s) { return None, None; }
      if CheckSession(s, now).Err? { return None, None; }
      var used := ConsumeTicket(t, now);
      if used.Err? {
        if used.code == "identity.upgrade_ticket_rejected" { return None, None; }
        return Some(used.code), None;
      }
      tickets := tickets[id.value := used.value];
      return None, Some(t.session);
    }

    method ResolveSession(id: Option<Id>, now: int, idleTtl: int) returns (refused: Refusal, resolution: Resolution)
      modifies this
      ensures var (r, resolved) := Resolve(old(View()), id, now, idleTtl);
              refused == Outcome(r) && resolution == resolved && View() == Left(r, old(View()))
    {
      if id.None? || id.value !in sessions { return None, Absent; }
      var s := sessions[id.value];
      if s.principal !in accounts { return Some("identity.record_corrupt"), Rejected; }
      if now < s.lastSeen { return None, Rejected; }
      var live := CheckSession(s, now);
      if live.Err? {
        if live.code != SESSION_REJECTED { return Some(live.code), Rejected; }
        if s.revoked.None? { refused := WriteSession(id.value, s.(revoked := Some(now))); } else { refused := None; }
        return refused, Rejected;
      }
      var a := accounts[s.principal];
      if a.status != Active || a.verified.None? || s.epoch != a.epoch { return None, Rejected; }
      var touched := TouchSession(s, now, idleTtl);
      if touched.Err? { return Some(touched.code), Rejected; }
      refused := WriteSession(id.value, touched.value);
      resolution := if refused.None? then Admitted(s.principal, id.value, s.epoch) else Rejected;
    }
  }
}
