/** Who a session admits, when, and for how long, over every interleaving of commands. */
module IdentityAccess {
  import opened Results
  import opened IdentityRows
  import opened IdentityStore
  import opened IdentityRuns

  // ---- What every step keeps ----------------------------------------------------------------------------

  predicate AccountSound(a: Account) {
    AccountChecked(a) && a.version <= a.epoch
  }

  predicate AccountsSound(accounts: map<Id, Account>) {
    forall p :: p in accounts ==> AccountSound(accounts[p])
  }

  function Previous(times: seq<int>, i: nat, issued: int): int
    requires i <= |times|
  {
    if i == 0 then issued else times[i - 1]
  }

  predicate Follows(times: seq<int>, i: nat, issued: int, idleTtl: int)
    requires i < |times|
  {
    Previous(times, i, issued) <= times[i] < Previous(times, i, issued) + idleTtl
  }

  /** Each admission follows the one before it, or the issue, within the idle time. */
  predicate Spaced(times: seq<int>, issued: int, idleTtl: int) {
    forall i :: 0 <= i < |times| ==> Follows(times, i, issued, idleTtl)
  }

  predicate Within(times: seq<int>, issued: int, absolute: int) {
    forall i :: 0 <= i < |times| ==> issued <= times[i] < absolute
  }

  predicate AdmissionsFit(times: seq<int>, x: Session, idleTtl: int) {
    && Within(times, x.issued, x.absolute)
    && Spaced(times, x.issued, idleTtl)
    && x.lastSeen == Previous(times, |times|, x.issued)
  }

  function Sooner(a: int, b: int): int {
    if a <= b then a else b
  }

  predicate SessionSound(config: Config, accounts: map<Id, Account>, x: Session, openedAt: int, times: seq<int>) {
    && SessionChecked(x) && x.digest.purpose == SessionToken
    && x.principal in accounts && x.epoch <= accounts[x.principal].epoch
    && (x.epoch == accounts[x.principal].epoch ==> openedAt == accounts[x.principal].version)
    && x.absolute == x.issued + config.sessionAbsolute
    && x.idle == Sooner(x.lastSeen + config.sessionIdle, x.absolute)
    && AdmissionsFit(times, x, config.sessionIdle)
  }

  predicate SessionsSound(config: Config, s: System) {
    forall id :: id in s.data.sessions ==>
      id in s.openedAt && id in s.admissions
      && SessionSound(config, s.data.accounts, s.data.sessions[id], s.openedAt[id], s.admissions[id])
  }

  /** What a command's read half promises its commit half. */
  predicate RequestSound(config: Config, r: Request) {
    match r
    case RegisterRecord(_, a, _, _, _) => a.version == 1 && a.epoch == 1
    case LoginRecord(_, x, _, _, _) =>
      && x.digest.purpose == SessionToken && x.lastSeen == x.issued && x.revoked.None?
      && x.absolute == x.issued + config.sessionAbsolute && x.idle == x.issued + config.sessionIdle
    case _ => true
  }

  predicate FlightsSound(config: Config, flights: map<nat, Request>) {
    forall t :: t in flights ==> RequestSound(config, flights[t])
  }

  predicate Sound(config: Config, s: System) {
    AccountsSound(s.data.accounts) && SessionsSound(config, s) && FlightsSound(config, s.flights)
  }

  /**
   * An account moves on: the same epoch means the same password version, and an email, a
   * creation and a verification once made stay.
   */
  predicate Onward(a: Account, later: Account) {
    && ((later.epoch == a.epoch && later.version == a.version) || (later.epoch > a.epoch && later.version >= a.version))
    && later.email == a.email && later.created == a.created
    && (a.verified.Some? ==> later.verified == a.verified)
  }

  predicate AllOnward(accounts: map<Id, Account>, later: map<Id, Account>) {
    forall p :: p in accounts ==> p in later && Onward(accounts[p], later[p])
  }

  lemma AccountsMove(config: Config, s: System, after: System)
    requires SessionsSound(config, s) && AllOnward(s.data.accounts, after.data.accounts)
    requires after.data.sessions == s.data.sessions && after.openedAt == s.openedAt && after.admissions == s.admissions
    ensures SessionsSound(config, after)
  {
    hide AdmissionsFit, SessionChecked;
  }

  lemma SessionMoves(config: Config, s: System, after: System, id: Id)
    requires SessionsSound(config, s) && after.data.accounts == s.data.accounts && id in after.data.sessions
    requires after.data.sessions == s.data.sessions[id := after.data.sessions[id]]
    requires forall k :: k in s.data.sessions && k != id ==>
               && k in s.openedAt && k in after.openedAt && after.openedAt[k] == s.openedAt[k]
               && k in s.admissions && k in after.admissions && after.admissions[k] == s.admissions[k]
    requires id in after.openedAt && id in after.admissions
    requires SessionSound(config, s.data.accounts, after.data.sessions[id], after.openedAt[id], after.admissions[id])
    ensures SessionsSound(config, after)
  {
    hide SessionSound;
  }

  lemma ReadSound(config: Config, d: Data, c: Command)
    requires Read(config, d, c).Ok?
    ensures RequestSound(config, Read(config, d, c).value)
  {
    hide RestoreChallenge, Consuming, FindChallenge, NewChallenge, NextEpoch, NextVersion;
  }

  lemma LoginKeeps(config: Config, s: System, task: nat)
    requires config.Valid() && Sound(config, s) && task in s.flights && s.flights[task].LoginRecord?
    ensures Sound(config, Committed(s, task, true))
  {
    var r := s.flights[task];
    if Apply(s.data, r).Ok? {
      LoginDid(s.data, r.sessionId, r.session, r.version, r.epoch, r.event);
      SessionMoves(config, s, Committed(s, task, true), r.sessionId);
    }
    hide CommitLogin, SessionsSound;
  }

  lemma RevokeKeeps(config: Config, s: System, task: nat)
    requires Sound(config, s) && task in s.flights && s.flights[task].RevokeRecord?
    ensures Sound(config, Committed(s, task, true))
  {
    var r := s.flights[task];
    if Apply(s.data, r).Ok? {
      RevokeOneDid(s.data, r.sessionId, r.principal, r.at, r.event);
      if RevokeOutcomeOf(s.data, r.sessionId, r.principal).Revoked? {
        SessionMoves(config, s, Committed(s, task, true), r.sessionId);
      }
    }
    hide RevokeOne;
  }

  /** The requests that move accounts and leave sessions alone. */
  lemma AccountRequestKeeps(config: Config, s: System, task: nat)
    requires Sound(config, s) && task in s.flights && !s.flights[task].LoginRecord? && !s.flights[task].RevokeRecord?
    ensures Sound(config, Committed(s, task, true))
  {
    if Apply(s.data, s.flights[task]).Ok? {
      RequestMoves(config, s.data, s.flights[task]);
      AccountsMove(config, s, Committed(s, task, true));
    }
    hide Apply, SessionsSound, AllOnward;
  }

  /** One account changed or added, in a sound way, moves the accounts on. */
  lemma OneAccountMoves(accounts: map<Id, Account>, later: map<Id, Account>, p: Id)
    requires AccountsSound(accounts) && p in later && later == accounts[p := later[p]]
    requires AccountSound(later[p]) && (p in accounts ==> Onward(accounts[p], later[p]))
    ensures AllOnward(accounts, later) && AccountsSound(later)
  {
    hide AccountSound;
  }

  lemma ReplacingMoves(d: Data, r: Request)
    requires AccountsSound(d.accounts) && (r.ChangeRecord? || r.ResetRecord?) && Apply(d, r).Ok?
    ensures var after := Apply(d, r).value;
            AllOnward(d.accounts, after.accounts) && AccountsSound(after.accounts) && after.sessions == d.sessions
  {
    hide ChangePassword, ResetPassword, AllOnward;
    match r {
      case ChangeRecord(p, hash, version, epoch, at, changed, revoked) =>
        ChangePasswordDid(d, p, hash, version, epoch, at, changed, revoked);
      case ResetRecord(id, p, hash, version, epoch, at, setVerified, changed, revoked) =>
        ResetPasswordDid(d, id, p, hash, version, epoch, at, setVerified, changed, revoked);
    }
    OneAccountMoves(d.accounts, Apply(d, r).value.accounts, r.principal);
  }

  lemma RequestMoves(config: Config, d: Data, r: Request)
    requires AccountsSound(d.accounts) && RequestSound(config, r) && !r.LoginRecord? && !r.RevokeRecord?
    requires Apply(d, r).Ok?
    ensures var after := Apply(d, r).value;
            AllOnward(d.accounts, after.accounts) && AccountsSound(after.accounts) && after.sessions == d.sessions
  {
    hide Register, RevokeAll, IssueChallenge, VerifyEmail, ChangePassword, ResetPassword, IssueTicket, AllChecked;
    match r
    case RegisterRecord(p, account, challengeId, challenge, event) =>
      RegisterDid(d, p, account, challengeId, challenge, event);
      OneAccountMoves(d.accounts, Apply(d, r).value.accounts, p);
    case EpochRecord(p, epoch, event) =>
      RevokeAllDid(d, p, epoch, event);
      OneAccountMoves(d.accounts, Apply(d, r).value.accounts, p);
    case VerifyRecord(id, p, at, version, event) =>
      VerifyEmailDid(d, id, p, at, version, event);
      OneAccountMoves(d.accounts, Apply(d, r).value.accounts, p);
    case IssueRecord(id, challenge, version) => IssueChallengeDid(d, id, challenge, version);
    case TicketRecord(id, ticket, epoch) => IssueTicketDid(d, id, ticket, epoch);
    case _ => ReplacingMoves(d, r);
  }

  lemma SpacedOneMore(times: seq<int>, issued: int, idleTtl: int, now: int)
    requires Spaced(times, issued, idleTtl)
    requires Previous(times, |times|, issued) <= now < Previous(times, |times|, issued) + idleTtl
    ensures Spaced(times + [now], issued, idleTtl)
  {
    forall i | 0 <= i < |times + [now]| ensures Follows(times + [now], i, issued, idleTtl) {
      if i < |times| { assert Follows(times, i, issued, idleTtl); }
    }
  }

  lemma FitOneMore(times: seq<int>, x: Session, now: int, idleTtl: int, y: Session)
    requires AdmissionsFit(times, x, idleTtl) && x.lastSeen <= now < x.absolute && now < x.lastSeen + idleTtl
    requires x.issued <= now
    requires y.issued == x.issued && y.absolute == x.absolute && y.lastSeen == now
    ensures AdmissionsFit(times + [now], y, idleTtl)
  {
    SpacedOneMore(times, x.issued, idleTtl, now);
    hide Spaced;
  }

  lemma ResolvingKeeps(config: Config, s: System, id: Option<Id>, now: int)
    requires config.Valid() && Sound(config, s)
    ensures Sound(config, Resolved(config, s, id, now))
  {
    var (after, resolution) := Resolve(s.data, id, now, config.sessionIdle);
    if after.Ok? {
      ResolveDid(s.data, id, now, config.sessionIdle);
      if resolution.Admitted? {
        Admits(config, s, resolution.session, now, after.value.sessions[resolution.session]);
        SessionMoves(config, s, Resolved(config, s, id, now), resolution.session);
      } else if after.value != s.data {
        SessionMoves(config, s, Resolved(config, s, id, now), id.value);
      }
    }
    hide Resolve, TouchSession, CheckSession;
  }

  /** A touched session is as sound as before, with one admission more. */
  lemma Admits(config: Config, s: System, id: Id, now: int, touched: Session)
    requires config.Valid() && Sound(config, s) && id in s.data.sessions
    requires TouchSession(s.data.sessions[id], now, config.sessionIdle) == Ok(touched)
    ensures id in s.openedAt && id in s.admissions
    ensures SessionSound(config, s.data.accounts, touched, s.openedAt[id], s.admissions[id] + [now])
  {
    FitOneMore(s.admissions[id], s.data.sessions[id], now, config.sessionIdle, touched);
    hide AdmissionsFit;
  }

  lemma StepKeeps(config: Config, s: System, step: Step)
    requires config.Valid() && Sound(config, s) && Enabled(s, step)
    ensures Sound(config, Next(config, s, step))
  {
    match step
    case Begin(_, command) =>
      if Read(config, s.data, command).Ok? { ReadSound(config, s.data, command); }
      hide Read, SessionSound, RequestSound;
    case Commit(task, applied) =>
      if applied {
        match s.flights[task]
        case LoginRecord(_, _, _, _, _) => LoginKeeps(config, s, task);
        case RevokeRecord(_, _, _, _) => RevokeKeeps(config, s, task);
        case _ => AccountRequestKeeps(config, s, task);
      }
      hide Apply, SessionSound;
    case Resolving(id, now, applied) =>
      if applied { ResolvingKeeps(config, s, id, now); }
      hide Resolved;
    case Redeeming(id, now, _) =>
      if RedeemTicket(s.data, id, now).0.Ok? { RedeemTicketDid(s.data, id, now); }
      hide RedeemTicket, SessionSound;
    case SetStatus(_, _) =>
      AccountsMove(config, s, Next(config, s, step));
      hide SessionsSound;
  }

  lemma {:induction false} RunSound(config: Config, s: System, steps: seq<Step>)
    requires config.Valid() && Sound(config, s)
    ensures Sound(config, Run(config, s, steps))
  {
    hide Sound, Enabled, Next;
    if steps != [] {
      var n := |steps| - 1;
      RunSound(config, s, steps[..n]);
      var before := Run(config, s, steps[..n]);
      if Enabled(before, steps[n]) { StepKeeps(config, before, steps[n]); }
    }
  }

  lemma StartSound(config: Config)
    ensures Sound(config, START)
  {
  }

  lemma StepOnward(config: Config, s: System, step: Step)
    requires Sound(config, s) && Enabled(s, step)
    ensures AllOnward(s.data.accounts, Next(config, s, step).data.accounts)
  {
    hide Apply, Read, Resolve, RedeemTicket, SessionsSound, TouchSession, SessionChecked;
    match step
    case Commit(task, applied) =>
      if applied && Apply(s.data, s.flights[task]).Ok? { RequestOnward(config, s.data, s.flights[task]); }
      hide Onward;
    case Resolving(id, now, _) =>
      if Resolve(s.data, id, now, config.sessionIdle).0.Ok? { ResolveDid(s.data, id, now, config.sessionIdle); }
    case Redeeming(id, now, _) =>
      if RedeemTicket(s.data, id, now).0.Ok? { RedeemTicketDid(s.data, id, now); }
    case _ =>
  }

  lemma RequestOnward(config: Config, d: Data, r: Request)
    requires AccountsSound(d.accounts) && RequestSound(config, r) && Apply(d, r).Ok?
    ensures AllOnward(d.accounts, Apply(d, r).value.accounts)
  {
    hide CommitLogin, RevokeOne, SessionChecked;
    match r
    case LoginRecord(id, x, version, epoch, e) => LoginDid(d, id, x, version, epoch, e);
    case RevokeRecord(id, p, at, e) => RevokeOneDid(d, id, p, at, e);
    case _ => RequestMoves(config, d, r);
  }

  /**
   * Through any further steps a principal keeps its email, its creation and a verification
   * once made, and its epoch and password version never fall, the version never without
   * the epoch.
   */
  lemma {:induction false} AccountsOnward(config: Config, s: System, steps: seq<Step>, p: Id)
    requires config.Valid() && Sound(config, s) && p in s.data.accounts
    ensures p in Run(config, s, steps).data.accounts
    ensures Onward(s.data.accounts[p], Run(config, s, steps).data.accounts[p])
  {
    hide Sound, Enabled, Next;
    if steps != [] {
      var n := |steps| - 1;
      AccountsOnward(config, s, steps[..n], p);
      RunSound(config, s, steps[..n]);
      var before := Run(config, s, steps[..n]);
      if Enabled(before, steps[n]) { StepOnward(config, before, steps[n]); }
    }
  }

  // ---- Who is admitted -----------------------------------------------------------------------------------

  /**
   * However logins, changes, resets and logout-alls interleave, a session that is
   * admitted was opened against the password version in force now, and its principal is
   * active and verified.
   */
  lemma AdmittedUnderCurrentPassword(config: Config, steps: seq<Step>, id: Option<Id>, now: int)
    requires config.Valid()
    requires var d := Run(config, START, steps).data;
             Resolve(d, id, now, config.sessionIdle).0.Ok? && Resolve(d, id, now, config.sessionIdle).1.Admitted?
    ensures var s := Run(config, START, steps);
            var a := Resolve(s.data, id, now, config.sessionIdle).1;
            && a.session in s.openedAt && a.principal in s.data.accounts
            && s.openedAt[a.session] == s.data.accounts[a.principal].version
            && a.epoch == s.data.accounts[a.principal].epoch
            && s.data.accounts[a.principal].status.Active? && s.data.accounts[a.principal].verified.Some?
  {
    StartSound(config);
    RunSound(config, START, steps);
    ResolveDid(Run(config, START, steps).data, id, now, config.sessionIdle);
    hide Run, Resolve, TouchSession, AdmissionsFit;
  }

  /** And so was a session that a ticket redeems. */
  lemma RedeemedUnderCurrentPassword(config: Config, steps: seq<Step>, ticket: Option<Id>, now: int)
    requires config.Valid()
    requires RedeemTicket(Run(config, START, steps).data, ticket, now).1.Some?
    ensures var s := Run(config, START, steps);
            var session := RedeemTicket(s.data, ticket, now).1.value;
            && session in s.data.sessions && session in s.openedAt
            && var x := s.data.sessions[session];
               && x.principal in s.data.accounts && s.openedAt[session] == s.data.accounts[x.principal].version
               && x.epoch == s.data.accounts[x.principal].epoch && x.revoked.None?
               && s.data.accounts[x.principal].status.Active? && s.data.accounts[x.principal].verified.Some?
               && x.lastSeen <= now < x.idle && now < x.absolute
  {
    StartSound(config);
    RunSound(config, START, steps);
    var s := Run(config, START, steps);
    var session := RedeemTicket(s.data, ticket, now).1.value;
    assert SessionSound(config, s.data.accounts, s.data.sessions[session], s.openedAt[session], s.admissions[session]);
    hide Run, SessionsSound, AdmissionsFit;
  }

  // ---- Who is shut out -------------------------------------------------------------------------------------

  /** A session that is revoked, or of an earlier epoch. */
  predicate Shut(d: Data, id: Id) {
    && id in d.sessions && d.sessions[id].principal in d.accounts
    && (d.sessions[id].revoked.Some? || d.sessions[id].epoch < d.accounts[d.sessions[id].principal].epoch)
  }

  lemma ShutRefuses(d: Data, id: Id, ticket: Option<Id>, now: int, idleTtl: int)
    requires Shut(d, id)
    ensures !(Resolve(d, Some(id), now, idleTtl).0.Ok? && Resolve(d, Some(id), now, idleTtl).1.Admitted?)
    ensures RedeemTicket(d, ticket, now).1 != Some(id)
  {
  }

  lemma AccountsShut(d: Data, after: Data, id: Id)
    requires Shut(d, id) && AllOnward(d.accounts, after.accounts) && after.sessions == d.sessions
    ensures Shut(after, id)
  {
  }

  lemma CommitShut(config: Config, s: System, task: nat, id: Id)
    requires Sound(config, s) && task in s.flights && Shut(s.data, id) && id in s.admissions
    ensures var after := Committed(s, task, true);
            Shut(after.data, id) && id in after.admissions && after.admissions[id] == s.admissions[id]
  {
    var r := s.flights[task];
    if Apply(s.data, r).Ok? {
      match r
      case LoginRecord(k, x, version, epoch, event) => LoginDid(s.data, k, x, version, epoch, event);
      case RevokeRecord(k, p, at, event) => RevokeOneDid(s.data, k, p, at, event);
      case _ => RequestMoves(config, s.data, r); AccountsShut(s.data, Apply(s.data, r).value, id);
    }
    hide Apply, Sound, AllOnward, SessionChecked;
  }

  lemma ResolvingShut(config: Config, s: System, found: Option<Id>, now: int, id: Id)
    requires Shut(s.data, id) && id in s.admissions
    ensures var after := Resolved(config, s, found, now);
            Shut(after.data, id) && id in after.admissions && after.admissions[id] == s.admissions[id]
  {
    var (after, resolution) := Resolve(s.data, found, now, config.sessionIdle);
    if after.Ok? {
      ResolveDid(s.data, found, now, config.sessionIdle);
      ShutRefuses(s.data, id, None, now, config.sessionIdle);
    }
    hide Resolve, SessionChecked;
  }

  lemma StepShut(config: Config, s: System, step: Step, id: Id)
    requires Sound(config, s) && Enabled(s, step) && Shut(s.data, id) && id in s.admissions
    ensures var after := Next(config, s, step);
            Shut(after.data, id) && id in after.admissions && after.admissions[id] == s.admissions[id]
  {
    match step
    case Begin(_, _) => hide Read;
    case Commit(task, applied) =>
      if applied { CommitShut(config, s, task, id); }
      hide Apply;
    case Resolving(found, now, applied) =>
      if applied { ResolvingShut(config, s, found, now, id); }
      hide Resolved;
    case Redeeming(ticket, now, _) =>
      if RedeemTicket(s.data, ticket, now).0.Ok? { RedeemTicketDid(s.data, ticket, now); }
      hide RedeemTicket;
    case SetStatus(_, _) =>
  }

  /** A session once shut out stays shut out: nothing is added to its admissions, ever. */
  lemma {:induction false} ShutForever(config: Config, s: System, steps: seq<Step>, id: Id)
    requires config.Valid() && Sound(config, s) && Shut(s.data, id) && id in s.admissions
    ensures var after := Run(config, s, steps);
            Shut(after.data, id) && id in after.admissions && after.admissions[id] == s.admissions[id]
  {
    hide Sound, Enabled, Next, Shut;
    if steps != [] {
      var n := |steps| - 1;
      ShutForever(config, s, steps[..n], id);
      RunSound(config, s, steps[..n]);
      var before := Run(config, s, steps[..n]);
      if Enabled(before, steps[n]) { StepShut(config, before, steps[n], id); }
    }
  }

  /** The requests that close every session of a principal. */
  predicate Closes(r: Request, p: Id) {
    (r.ChangeRecord? || r.ResetRecord? || r.EpochRecord?) && r.principal == p
  }

  lemma ClosingShuts(config: Config, s: System, task: nat, p: Id, id: Id)
    requires Sound(config, s) && task in s.flights && Closes(s.flights[task], p) && Apply(s.data, s.flights[task]).Ok?
    requires id in s.data.sessions && s.data.sessions[id].principal == p
    ensures Shut(Committed(s, task, true).data, id) && id in s.admissions
    ensures Committed(s, task, true).admissions == s.admissions
  {
    hide RevokeAll, ChangePassword, ResetPassword, SessionChecked, AdmissionsFit, AccountSound;
    var r := s.flights[task];
    match r
    case EpochRecord(_, epoch, event) => RevokeAllDid(s.data, p, epoch, event);
    case ChangeRecord(_, hash, version, epoch, at, changed, revoked) =>
      ChangePasswordDid(s.data, p, hash, version, epoch, at, changed, revoked);
    case ResetRecord(k, _, hash, version, epoch, at, setVerified, changed, revoked) =>
      ResetPasswordDid(s.data, k, p, hash, version, epoch, at, setVerified, changed, revoked);
  }

  /**
   * After a committed password change, reset or logout-all, no session opened before it is
   * ever admitted again, whatever was in flight: its admissions stay what they were, and
   * neither its token nor a ticket of it gets in.
   */
  lemma EarlierSessionsNeverReturn(
    config: Config, steps: seq<Step>, task: nat, p: Id, later: seq<Step>, id: Id, ticket: Option<Id>, now: int)
    requires config.Valid()
    requires var s := Run(config, START, steps);
             && task in s.flights && Closes(s.flights[task], p) && Apply(s.data, s.flights[task]).Ok?
             && id in s.data.sessions && s.data.sessions[id].principal == p
    ensures var s := Run(config, START, steps);
            var final := Run(config, Committed(s, task, true), later);
            && id in s.admissions && id in final.admissions && final.admissions[id] == s.admissions[id]
            && !(Resolve(final.data, Some(id), now, config.sessionIdle).0.Ok?
                 && Resolve(final.data, Some(id), now, config.sessionIdle).1.Admitted?)
            && RedeemTicket(final.data, ticket, now).1 != Some(id)
  {
    StartSound(config);
    RunSound(config, START, steps);
    var s := Run(config, START, steps);
    ClosingShuts(config, s, task, p, id);
    StepKeeps(config, s, Commit(task, true));
    var after := Committed(s, task, true);
    ShutForever(config, after, later, id);
    ShutRefuses(Run(config, after, later).data, id, ticket, now, config.sessionIdle);
    hide Run, Resolve, RedeemTicket, Apply, Committed, Shut, Sound;
  }

  /** A session logged out, even one already expired, is shut out for good; the reply says whether it was live. */
  lemma LoggedOutNeverReturns(
    config: Config, steps: seq<Step>, task: nat, later: seq<Step>, id: Id, ticket: Option<Id>, now: int)
    requires config.Valid()
    requires var s := Run(config, START, steps);
             && task in s.flights && s.flights[task].RevokeRecord? && s.flights[task].sessionId == id
             && Apply(s.data, s.flights[task]).Ok?
             && RevokeOutcomeOf(s.data, id, s.flights[task].principal) != NoSession
    ensures var s := Run(config, START, steps);
            var final := Run(config, Committed(s, task, true), later);
            && id in s.admissions && id in final.admissions && final.admissions[id] == s.admissions[id]
            && !(Resolve(final.data, Some(id), now, config.sessionIdle).0.Ok?
                 && Resolve(final.data, Some(id), now, config.sessionIdle).1.Admitted?)
            && RedeemTicket(final.data, ticket, now).1 != Some(id)
  {
    StartSound(config);
    RunSound(config, START, steps);
    var s := Run(config, START, steps);
    LogoutShuts(config, s, task, id);
    StepKeeps(config, s, Commit(task, true));
    var after := Committed(s, task, true);
    ShutForever(config, after, later, id);
    ShutRefuses(Run(config, after, later).data, id, ticket, now, config.sessionIdle);
    hide Run, Resolve, RedeemTicket, Apply, Committed, Shut, Sound;
  }

  lemma LogoutShuts(config: Config, s: System, task: nat, id: Id)
    requires Sound(config, s) && task in s.flights && s.flights[task].RevokeRecord? && s.flights[task].sessionId == id
    requires Apply(s.data, s.flights[task]).Ok? && RevokeOutcomeOf(s.data, id, s.flights[task].principal) != NoSession
    ensures Shut(Committed(s, task, true).data, id) && id in s.admissions
    ensures Committed(s, task, true).admissions == s.admissions
  {
    hide RevokeOne, AdmissionsFit, SessionChecked, AccountSound;
    var r := s.flights[task];
    RevokeOneDid(s.data, id, r.principal, r.at, r.event);
  }

  // ---- Who is let in -------------------------------------------------------------------------------------------

  /** When a session was last admitted, or was issued. */
  function LastActive(s: System, id: Id): int
    requires id in s.data.sessions && id in s.admissions
  {
    var times := s.admissions[id];
    if times == [] then s.data.sessions[id].issued else times[|times| - 1]
  }

  /**
   * In every run a session is admitted exactly when it is not revoked, its principal is
   * active, verified and of its epoch, and the time is within the idle time of its last
   * admission and within its absolute lifetime.
   */
  lemma AdmittedExactly(config: Config, steps: seq<Step>, id: Id, now: int)
    requires config.Valid() && TimeInRange(now) && id in Run(config, START, steps).data.sessions
    ensures var s := Run(config, START, steps);
            && id in s.admissions && s.data.sessions[id].principal in s.data.accounts
            && var x := s.data.sessions[id];
               var a := s.data.accounts[x.principal];
               Resolve(s.data, Some(id), now, config.sessionIdle).1.Admitted? <==>
                 && x.revoked.None? && a.status.Active? && a.verified.Some? && a.epoch == x.epoch
                 && LastActive(s, id) <= now < LastActive(s, id) + config.sessionIdle
                 && now < x.issued + config.sessionAbsolute
  {
    StartSound(config);
    RunSound(config, START, steps);
    var s := Run(config, START, steps);
    assert SessionSound(config, s.data.accounts, s.data.sessions[id], s.openedAt[id], s.admissions[id]);
    hide Run, SessionsSound, AccountsSound, FlightsSound, Within, Spaced;
  }

  /** The step may end a session, or move its deadline: a logout, a closing request, a resolve, or a new status. */
  predicate Disturbs(s: System, step: Step, id: Id, p: Id) {
    match step
    case Commit(task, applied) =>
      applied && task in s.flights
      && (Closes(s.flights[task], p) || (s.flights[task].RevokeRecord? && s.flights[task].sessionId == id))
    case Resolving(found, _, applied) => applied && found == Some(id)
    case SetStatus(q, _) => q == p
    case _ => false
  }

  predicate Undisturbed(config: Config, s: System, steps: seq<Step>, id: Id, p: Id) {
    forall n :: 0 <= n < |steps| ==> !Disturbs(Run(config, s, steps[..n]), steps[n], id, p)
  }

  /** What a session's admission depends on is as it was. */
  predicate SameStanding(s: System, after: System, id: Id, p: Id) {
    && id in s.data.sessions && id in after.data.sessions && after.data.sessions[id] == s.data.sessions[id]
    && p in s.data.accounts && p in after.data.accounts
    && after.data.accounts[p].status == s.data.accounts[p].status
    && after.data.accounts[p].epoch == s.data.accounts[p].epoch
    && (s.data.accounts[p].verified.Some? ==> after.data.accounts[p].verified.Some?)
  }

  lemma CommitStands(s: System, task: nat, id: Id, p: Id)
    requires task in s.flights && id in s.data.sessions && p in s.data.accounts
    requires !Disturbs(s, Commit(task, true), id, p)
    ensures SameStanding(s, Committed(s, task, true), id, p)
  {
    hide Register, CommitLogin, RevokeOne, RevokeAll, IssueChallenge, VerifyEmail, ChangePassword, ResetPassword,
      IssueTicket, AllChecked, SessionChecked, ChallengeChecked, Eligible, Invalidated, Recorded, AccountChecked;
    var r, d := s.flights[task], s.data;
    if Apply(d, r).Ok? {
      match r {
        case RegisterRecord(q, a, k, c, e) => RegisterDid(d, q, a, k, c, e);
        case LoginRecord(k, x, version, epoch, e) => LoginDid(d, k, x, version, epoch, e);
        case RevokeRecord(k, q, at, e) => RevokeOneDid(d, k, q, at, e);
        case EpochRecord(q, epoch, e) => RevokeAllDid(d, q, epoch, e);
        case IssueRecord(k, c, version) => IssueChallengeDid(d, k, c, version);
        case VerifyRecord(k, q, at, version, e) => VerifyEmailDid(d, k, q, at, version, e);
        case ChangeRecord(q, hash, version, epoch, at, changed, revoked) =>
          ChangePasswordDid(d, q, hash, version, epoch, at, changed, revoked);
        case ResetRecord(k, q, hash, version, epoch, at, setVerified, changed, revoked) =>
          ResetPasswordDid(d, k, q, hash, version, epoch, at, setVerified, changed, revoked);
        case TicketRecord(k, t, epoch) => IssueTicketDid(d, k, t, epoch);
      }
    }
  }

  lemma StepStands(config: Config, s: System, step: Step, id: Id, p: Id)
    requires Enabled(s, step) && id in s.data.sessions && p in s.data.accounts && !Disturbs(s, step, id, p)
    ensures SameStanding(s, Next(config, s, step), id, p)
  {
    match step
    case Begin(_, _) => hide Read;
    case Commit(task, applied) =>
      if applied { CommitStands(s, task, id, p); }
      hide Apply, Recorded;
    case Resolving(found, at, applied) =>
      if applied { ResolvingStands(config, s, found, at, id, p); }
      hide Resolved;
    case Redeeming(ticket, at, _) =>
      if RedeemTicket(s.data, ticket, at).0.Ok? { RedeemTicketDid(s.data, ticket, at); }
      hide RedeemTicket;
    case SetStatus(_, _) =>
  }

  lemma ResolvingStands(config: Config, s: System, found: Option<Id>, at: int, id: Id, p: Id)
    requires id in s.data.sessions && p in s.data.accounts && found != Some(id)
    ensures SameStanding(s, Resolved(config, s, found, at), id, p)
  {
    hide Resolve, TouchSession, CheckSession, Eligible, SessionChecked;
    if Resolve(s.data, found, at, config.sessionIdle).0.Ok? { ResolveDid(s.data, found, at, config.sessionIdle); }
  }

  lemma {:induction false} RunStands(config: Config, s: System, steps: seq<Step>, id: Id, p: Id)
    requires id in s.data.sessions && p in s.data.accounts && Undisturbed(config, s, steps, id, p)
    ensures SameStanding(s, Run(config, s, steps), id, p)
  {
    if steps != [] {
      hide Enabled, Next, Disturbs;
      var n := |steps| - 1;
      assert forall m :: 0 <= m < n ==> steps[..n][..m] == steps[..m];
      RunStands(config, s, steps[..n], id, p);
      var before := Run(config, s, steps[..n]);
      if Enabled(before, steps[n]) { StepStands(config, before, steps[n], id, p); }
    }
  }

  /**
   * An active user stays in: after an admission, whatever else goes on that neither logs
   * out, closes nor suspends, the session is admitted again at every time within the idle
   * time and its absolute lifetime.
   */
  lemma ActiveStaysIn(config: Config, steps: seq<Step>, id: Id, now: int, later: seq<Step>, at: int)
    requires config.Valid() && TimeInRange(at)
    requires var s := Run(config, START, steps);
             && id in s.data.sessions && Resolve(s.data, Some(id), now, config.sessionIdle).1.Admitted?
             && Undisturbed(config, Resolved(config, s, Some(id), now), later, id, s.data.sessions[id].principal)
             && now <= at < now + config.sessionIdle && at < s.data.sessions[id].issued + config.sessionAbsolute
    ensures var final := Run(config, Resolved(config, Run(config, START, steps), Some(id), now), later);
            Resolve(final.data, Some(id), at, config.sessionIdle).1.Admitted?
  {
    StartSound(config);
    RunSound(config, START, steps);
    var s := Run(config, START, steps);
    var after := Resolved(config, s, Some(id), now);
    JustAdmitted(config, s, id, now, at);
    RunStands(config, after, later, id, s.data.sessions[id].principal);
    StandsAdmitted(after, Run(config, after, later), id, at, config.sessionIdle);
    hide Run, Resolve, Resolved, SameStanding, Undisturbed, Sound;
  }

  /** What an admission leaves is admitted for the idle time. */
  lemma JustAdmitted(config: Config, s: System, id: Id, now: int, at: int)
    requires config.Valid() && Sound(config, s) && id in s.data.sessions && TimeInRange(at)
    requires Resolve(s.data, Some(id), now, config.sessionIdle).1.Admitted?
    requires now <= at < now + config.sessionIdle && at < s.data.sessions[id].issued + config.sessionAbsolute
    ensures var after := Resolved(config, s, Some(id), now);
            && id in after.data.sessions && after.data.sessions[id].principal == s.data.sessions[id].principal
            && s.data.sessions[id].principal in after.data.accounts
            && Resolve(after.data, Some(id), at, config.sessionIdle).1.Admitted?
  {
    assert SessionSound(config, s.data.accounts, s.data.sessions[id], s.openedAt[id], s.admissions[id]);
    AdmitsAgain(s.data, id, now, at, config.sessionIdle);
    hide AccountsSound, SessionsSound, FlightsSound, AdmissionsFit, Resolve, SessionChecked;
  }

  lemma AdmitsAgain(d: Data, id: Id, now: int, at: int, idleTtl: int)
    requires id in d.sessions && SessionChecked(d.sessions[id]) && TimeInRange(at) && 1 <= idleTtl <= MAX_TIME_MS
    requires Resolve(d, Some(id), now, idleTtl).1.Admitted? && now <= at < now + idleTtl && at < d.sessions[id].absolute
    ensures var after := Resolve(d, Some(id), now, idleTtl).0;
            && after.Ok? && id in after.value.sessions
            && after.value.sessions[id].principal == d.sessions[id].principal
            && d.sessions[id].principal in after.value.accounts
            && Resolve(after.value, Some(id), at, idleTtl).1.Admitted?
  {
  }

  /** Whether a resolve admits depends on the session's standing alone. */
  lemma StandsAdmitted(s: System, after: System, id: Id, at: int, idleTtl: int)
    requires id in s.data.sessions && SameStanding(s, after, id, s.data.sessions[id].principal)
    requires Resolve(s.data, Some(id), at, idleTtl).1.Admitted?
    ensures Resolve(after.data, Some(id), at, idleTtl).1.Admitted?
  {
  }

  // ---- Deadlines ---------------------------------------------------------------------------------------------

  /** A session turned away for a deadline is revoked there and then. */
  lemma DeadlineLatches(config: Config, s: System, id: Id, now: int)
    requires config.Valid() && Sound(config, s) && id in s.data.sessions && TimeInRange(now)
    requires now >= s.data.sessions[id].lastSeen
    requires now >= s.data.sessions[id].idle || now >= s.data.sessions[id].absolute
    ensures var after := Resolved(config, s, Some(id), now);
            && Shut(after.data, id) && after.data.sessions[id].revoked.Some?
            && id in s.admissions && after.admissions == s.admissions
  {
    assert SessionSound(config, s.data.accounts, s.data.sessions[id], s.openedAt[id], s.admissions[id]);
    hide AdmissionsFit, SessionsSound, AccountsSound, FlightsSound;
  }

  /** Turned away once for a deadline, never admitted again by token or ticket, even if the clock steps back. */
  lemma ExpiredNeverReturns(
    config: Config, steps: seq<Step>, id: Id, now: int, later: seq<Step>, ticket: Option<Id>, retry: int)
    requires config.Valid() && TimeInRange(now)
    requires var d := Run(config, START, steps).data;
             && id in d.sessions && now >= d.sessions[id].lastSeen
             && (now >= d.sessions[id].idle || now >= d.sessions[id].absolute)
    ensures var s := Run(config, START, steps);
            var final := Run(config, Resolved(config, s, Some(id), now), later);
            && id in s.admissions && id in final.admissions && final.admissions[id] == s.admissions[id]
            && !(Resolve(final.data, Some(id), retry, config.sessionIdle).0.Ok?
                 && Resolve(final.data, Some(id), retry, config.sessionIdle).1.Admitted?)
            && RedeemTicket(final.data, ticket, retry).1 != Some(id)
  {
    StartSound(config);
    RunSound(config, START, steps);
    var s := Run(config, START, steps);
    DeadlineLatches(config, s, id, now);
    StepKeeps(config, s, Resolving(Some(id), now, true));
    var after := Resolved(config, s, Some(id), now);
    ShutForever(config, after, later, id);
    ShutRefuses(Run(config, after, later).data, id, ticket, retry, config.sessionIdle);
    hide Run, Resolve, RedeemTicket, Resolved, Shut, Sound;
  }

  /** A ticket redeems its session at a time. */
  predicate Redeemable(d: Data, ticket: Id, now: int) {
    && ticket in d.tickets && d.tickets[ticket].session in d.sessions
    && var t, x := d.tickets[ticket], d.sessions[d.tickets[ticket].session];
       && Eligible(d, x) && x.revoked.None? && t.consumed.None?
       && Later(x.lastSeen, t.issued) <= now && now < x.idle && now < x.absolute && now < t.expires
  }

  function Later(a: int, b: int): int {
    if a <= b then b else a
  }

  /**
   * A ticket presented past its session's deadline is turned away but nothing is written,
   * so it redeems at another time exactly if it would have redeemed then before; that takes
   * a clock that has stepped back below the deadline.
   */
  lemma TicketDeadlineExactly(config: Config, steps: seq<Step>, ticket: Id, now: int, retry: int)
    requires config.Valid()
    requires var d := Run(config, START, steps).data;
             && ticket in d.tickets && d.tickets[ticket].session in d.sessions
             && Past(d, d.tickets[ticket].session, now)
    ensures var s := Run(config, START, steps);
            && RedeemTicket(s.data, Some(ticket), now).1.None? && Redeemed(s, Some(ticket), now) == s
            && (RedeemTicket(s.data, Some(ticket), retry).1.Some? <==> Redeemable(s.data, ticket, retry))
            && (Redeemable(s.data, ticket, retry) ==> retry < now)
  {
    StartSound(config);
    RunSound(config, START, steps);
    var s := Run(config, START, steps);
    var id := s.data.tickets[ticket].session;
    assert SessionSound(config, s.data.accounts, s.data.sessions[id], s.openedAt[id], s.admissions[id]);
    hide Run, SessionsSound, AccountsSound, FlightsSound, AdmissionsFit;
  }

  /** A deadline of the session is reached. */
  predicate Past(d: Data, id: Id, now: int) {
    id in d.sessions && (d.sessions[id].idle <= now || d.sessions[id].absolute <= now)
  }

  /** The step does not read a clock earlier than this. */
  predicate NotBefore(step: Step, now: int) {
    match step
    case Resolving(_, at, _) => now <= at
    case Redeeming(_, at, _) => now <= at
    case _ => true
  }

  lemma PastRefuses(d: Data, id: Id, ticket: Option<Id>, now: int, at: int, idleTtl: int)
    requires Past(d, id, now) && now <= at
    ensures !(Resolve(d, Some(id), at, idleTtl).0.Ok? && Resolve(d, Some(id), at, idleTtl).1.Admitted?)
    ensures RedeemTicket(d, ticket, at).1 != Some(id)
  {
  }

  lemma CommitPast(config: Config, s: System, task: nat, id: Id, now: int)
    requires Sound(config, s) && task in s.flights && Past(s.data, id, now) && id in s.admissions
    ensures var after := Committed(s, task, true);
            Past(after.data, id, now) && id in after.admissions && after.admissions[id] == s.admissions[id]
  {
    var r := s.flights[task];
    if Apply(s.data, r).Ok? {
      match r
      case LoginRecord(k, x, version, epoch, event) => LoginDid(s.data, k, x, version, epoch, event);
      case RevokeRecord(k, p, at, event) => RevokeOneDid(s.data, k, p, at, event);
      case _ => RequestMoves(config, s.data, r);
    }
    hide Apply, Sound, AllOnward, SessionChecked;
  }

  lemma ResolvingPast(config: Config, s: System, found: Option<Id>, at: int, id: Id, now: int)
    requires Past(s.data, id, now) && id in s.admissions && now <= at
    ensures var after := Resolved(config, s, found, at);
            Past(after.data, id, now) && id in after.admissions && after.admissions[id] == s.admissions[id]
  {
    var (after, resolution) := Resolve(s.data, found, at, config.sessionIdle);
    if after.Ok? {
      ResolveDid(s.data, found, at, config.sessionIdle);
      PastRefuses(s.data, id, None, now, at, config.sessionIdle);
    }
    hide Resolve, SessionChecked;
  }

  lemma StepPast(config: Config, s: System, step: Step, id: Id, now: int)
    requires Sound(config, s) && Enabled(s, step) && NotBefore(step, now) && Past(s.data, id, now) && id in s.admissions
    ensures var after := Next(config, s, step);
            Past(after.data, id, now) && id in after.admissions && after.admissions[id] == s.admissions[id]
  {
    match step
    case Begin(_, _) => hide Read;
    case Commit(task, applied) =>
      if applied { CommitPast(config, s, task, id, now); }
      hide Apply;
    case Resolving(found, at, applied) =>
      if applied { ResolvingPast(config, s, found, at, id, now); }
      hide Resolved;
    case Redeeming(ticket, at, _) =>
      if RedeemTicket(s.data, ticket, at).0.Ok? { RedeemTicketDid(s.data, ticket, at); }
      hide RedeemTicket;
    case SetStatus(_, _) =>
  }

  lemma {:induction false} PastForever(config: Config, s: System, steps: seq<Step>, id: Id, now: int)
    requires config.Valid() && Sound(config, s) && Past(s.data, id, now) && id in s.admissions
    requires forall i :: 0 <= i < |steps| ==> NotBefore(steps[i], now)
    ensures var after := Run(config, s, steps);
            Past(after.data, id, now) && id in after.admissions && after.admissions[id] == s.admissions[id]
  {
    hide Sound, Enabled, Next, Past, NotBefore;
    if steps != [] {
      var n := |steps| - 1;
      PastForever(config, s, steps[..n], id, now);
      RunSound(config, s, steps[..n]);
      var before := Run(config, s, steps[..n]);
      if Enabled(before, steps[n]) { StepPast(config, before, steps[n], id, now); }
    }
  }

  /**
   * Past a deadline, whether anybody was turned away for it or not, a session is never
   * admitted again by token or ticket while no clock reads earlier than that.
   */
  lemma PastNeverReturns(
    config: Config, steps: seq<Step>, id: Id, now: int, later: seq<Step>, ticket: Option<Id>, at: int)
    requires config.Valid() && Past(Run(config, START, steps).data, id, now) && now <= at
    requires forall i :: 0 <= i < |later| ==> NotBefore(later[i], now)
    ensures var s := Run(config, START, steps);
            var final := Run(config, s, later);
            && id in s.admissions && id in final.admissions && final.admissions[id] == s.admissions[id]
            && !(Resolve(final.data, Some(id), at, config.sessionIdle).0.Ok?
                 && Resolve(final.data, Some(id), at, config.sessionIdle).1.Admitted?)
            && RedeemTicket(final.data, ticket, at).1 != Some(id)
  {
    StartSound(config);
    RunSound(config, START, steps);
    var s := Run(config, START, steps);
    PastForever(config, s, later, id, now);
    PastRefuses(Run(config, s, later).data, id, ticket, now, at, config.sessionIdle);
    hide Run, Resolve, RedeemTicket, Past, NotBefore;
  }

  /**
   * Over any run, a session's admissions never go back in time, all fall from its issue
   * up to its absolute lifetime, and each follows the one before it, or the issue, within
   * the idle time.
   */
  lemma AdmissionTimes(config: Config, steps: seq<Step>, id: Id, i: nat, j: nat)
    requires config.Valid() && id in Run(config, START, steps).data.sessions
    requires id in Run(config, START, steps).admissions ==> i <= j < |Run(config, START, steps).admissions[id]|
    ensures var s := Run(config, START, steps);
            var x := s.data.sessions[id];
            && id in s.admissions
            && x.issued <= s.admissions[id][i] <= s.admissions[id][j] < x.issued + config.sessionAbsolute
            && s.admissions[id][i] < Previous(s.admissions[id], i, x.issued) + config.sessionIdle
  {
    StartSound(config);
    RunSound(config, START, steps);
    var s := Run(config, START, steps);
    assert SessionSound(config, s.data.accounts, s.data.sessions[id], s.openedAt[id], s.admissions[id]);
    hide Run, SessionsSound, AccountsSound, FlightsSound;
    Ascending(s.admissions[id], s.data.sessions[id].issued, config.sessionIdle, i, j);
    assert Follows(s.admissions[id], i, s.data.sessions[id].issued, config.sessionIdle);
  }

  /** Every stored session can be restored, whatever the clocks did. */
  lemma SessionsRestore(config: Config, steps: seq<Step>, id: Id)
    requires config.Valid() && id in Run(config, START, steps).data.sessions
    ensures var x := Run(config, START, steps).data.sessions[id]; RestoreSession(x) == Ok(x)
  {
    StartSound(config);
    RunSound(config, START, steps);
    var s := Run(config, START, steps);
    assert SessionSound(config, s.data.accounts, s.data.sessions[id], s.openedAt[id], s.admissions[id]);
    SessionRows(s.data.sessions[id]);
    hide Run, RestoreSession, SessionChecked;
  }

  lemma {:induction false} Ascending(times: seq<int>, issued: int, idleTtl: int, i: nat, j: nat)
    requires Spaced(times, issued, idleTtl) && i <= j < |times|
    ensures times[i] <= times[j]
    decreases j - i
  {
    if i < j {
      Ascending(times, issued, idleTtl, i, j - 1);
      assert Follows(times, j, issued, idleTtl);
    }
  }

  /** The password version never outgrows the epoch, so the epoch's ceiling is always met first. */
  lemma VersionWithinEpoch(config: Config, steps: seq<Step>, p: Id)
    requires config.Valid() && p in Run(config, START, steps).data.accounts
    ensures var a := Run(config, START, steps).data.accounts[p];
            && 1 <= a.version <= a.epoch <= MAX_VERSION
            && (NextVersion(a.version).Err? ==> NextEpoch(a.epoch, a.epoch).Err?)
  {
    StartSound(config);
    RunSound(config, START, steps);
    hide Run, SessionsSound, FlightsSound;
  }
}
