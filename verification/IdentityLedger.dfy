/** The outbox as a ledger of identity: which facts it holds, against the accounts as they stand. */
module IdentityLedger {
  import opened IdentityRows
  import opened IdentityStore
  import opened IdentityRuns

  predicate IsChange(f: Fact, p: Id, version: int) {
    f.PasswordChanged? && f.principal == p && f.version == version
  }

  predicate IsRevocation(f: Fact, p: Id, epoch: int) {
    f.SessionsRevoked? && f.principal == p && f.epoch == epoch
  }

  function Changes(outbox: map<Id, Event>, p: Id, version: int): set<Id> {
    set id | id in outbox && IsChange(outbox[id].fact, p, version)
  }

  function Revocations(outbox: map<Id, Event>, p: Id, epoch: int): set<Id> {
    set id | id in outbox && IsRevocation(outbox[id].fact, p, epoch)
  }

  /** One fact for each step the account has taken since it began at 1, and none beyond. */
  function Due(accounts: map<Id, Account>, p: Id, k: int, reached: Account -> int): nat {
    if p in accounts && 2 <= k <= reached(accounts[p]) then 1 else 0
  }

  predicate ChangesTell(d: Data, p: Id, k: int) {
    |Changes(d.outbox, p, k)| == Due(d.accounts, p, k, (a: Account) => a.version)
  }

  predicate RevocationsTell(d: Data, p: Id, k: int) {
    |Revocations(d.outbox, p, k)| == Due(d.accounts, p, k, (a: Account) => a.epoch)
  }

  ghost predicate Ledger(d: Data) {
    && (forall p, k :: ChangesTell(d, p, k))
    && (forall p, k :: RevocationsTell(d, p, k))
  }

  /** Facts of neither kind leave the ledger as it is. */
  predicate Neutral(f: Fact) {
    !f.PasswordChanged? && !f.SessionsRevoked?
  }

  /** The facts a request carries match the versions it was computed from. */
  predicate RequestTells(r: Request) {
    match r
    case RegisterRecord(_, a, _, _, e) => a.version == 1 && a.epoch == 1 && Neutral(e.fact)
    case LoginRecord(_, _, _, _, e) => Neutral(e.fact)
    case RevokeRecord(_, _, _, e) => Neutral(e.fact)
    case EpochRecord(p, epoch, e) => IsRevocation(e.fact, p, epoch + 1)
    case VerifyRecord(_, _, _, _, e) => Neutral(e.fact)
    case ChangeRecord(p, _, version, epoch, _, changed, revoked) =>
      IsChange(changed.fact, p, version + 1) && IsRevocation(revoked.fact, p, epoch + 1)
    case ResetRecord(_, p, _, version, epoch, _, _, changed, revoked) =>
      IsChange(changed.fact, p, version + 1) && IsRevocation(revoked.fact, p, epoch + 1)
    case _ => true
  }

  predicate FlightsTell(flights: map<nat, Request>) {
    forall t :: t in flights ==> RequestTells(flights[t])
  }

  ghost predicate Sound(s: System) {
    Ledger(s.data) && FlightsTell(s.flights) && BeganAtOne(s.data.accounts)
  }

  predicate BeganAtOne(accounts: map<Id, Account>) {
    forall p :: p in accounts ==> accounts[p].version >= 1 && accounts[p].epoch >= 1
  }

  // ---- Enqueueing ------------------------------------------------------------------------------------------

  lemma ChangesGrow(outbox: map<Id, Event>, e: Event, p: Id, k: int)
    requires e.id in outbox ==> outbox[e.id] == e
    ensures Changes(outbox[e.id := e], p, k)
         == if IsChange(e.fact, p, k) then Changes(outbox, p, k) + {e.id} else Changes(outbox, p, k)
  {
  }

  lemma RevocationsGrow(outbox: map<Id, Event>, e: Event, p: Id, k: int)
    requires e.id in outbox ==> outbox[e.id] == e
    ensures Revocations(outbox[e.id := e], p, k)
         == if IsRevocation(e.fact, p, k) then Revocations(outbox, p, k) + {e.id} else Revocations(outbox, p, k)
  {
  }

  /** A neutral fact, and accounts whose versions and epochs stand, keep the ledger. */
  lemma NeutralKeeps(d: Data, after: Data, e: Event)
    requires Ledger(d) && Neutral(e.fact) && Enqueued(d.outbox, e, after.outbox)
    requires SameSteps(d.accounts, after.accounts)
    ensures Ledger(after)
  {
    hide Changes, Revocations;
    forall p, k ensures ChangesTell(after, p, k) && RevocationsTell(after, p, k) {
      assert ChangesTell(d, p, k) && RevocationsTell(d, p, k);
      ChangesGrow(d.outbox, e, p, k);
      RevocationsGrow(d.outbox, e, p, k);
    }
  }

  /** Accounts stand where they stood, and new ones begin at 1. */
  predicate SameSteps(accounts: map<Id, Account>, after: map<Id, Account>) {
    && (forall p :: p in accounts ==>
          p in after && after[p].version == accounts[p].version && after[p].epoch == accounts[p].epoch)
    && (forall p :: p in after && p !in accounts ==> after[p].version == 1 && after[p].epoch == 1)
  }

  lemma SameOutboxKeeps(d: Data, after: Data)
    requires Ledger(d) && after.outbox == d.outbox && SameSteps(d.accounts, after.accounts)
    ensures Ledger(after)
  {
    hide Changes, Revocations;
    forall p, k ensures ChangesTell(after, p, k) && RevocationsTell(after, p, k) {
      assert ChangesTell(d, p, k) && RevocationsTell(d, p, k);
    }
  }

  /** The next revocation fact with the next epoch. */
  lemma EpochKeeps(d: Data, after: Data, p: Id, e: Event)
    requires Ledger(d) && p in d.accounts && d.accounts[p].epoch >= 1
    requires IsRevocation(e.fact, p, d.accounts[p].epoch + 1)
    requires Enqueued(d.outbox, e, after.outbox)
    requires p in after.accounts && after.accounts == d.accounts[p := after.accounts[p]]
    requires after.accounts[p].epoch == d.accounts[p].epoch + 1 && after.accounts[p].version == d.accounts[p].version
    ensures Ledger(after)
  {
    hide Changes, Revocations;
    forall q, k ensures ChangesTell(after, q, k) && RevocationsTell(after, q, k) {
      assert ChangesTell(d, q, k) && RevocationsTell(d, q, k);
      ChangesGrow(d.outbox, e, q, k);
      RevocationsGrow(d.outbox, e, q, k);
      if q == p && k == d.accounts[p].epoch + 1 { OnlyOne(Revocations(d.outbox, q, k), e.id); }
    }
  }

  lemma OnlyOne(none: set<Id>, id: Id)
    requires |none| == 0
    ensures |none + {id}| == 1
  {
    assert none + {id} == {id};
  }

  /** The next change and revocation facts with the next version and epoch. */
  lemma ReplacementKeeps(d: Data, after: Data, p: Id, changed: Event, revoked: Event)
    requires Ledger(d) && p in d.accounts && d.accounts[p].version >= 1 && d.accounts[p].epoch >= 1
    requires IsChange(changed.fact, p, d.accounts[p].version + 1)
    requires IsRevocation(revoked.fact, p, d.accounts[p].epoch + 1)
    requires EnqueuedBoth(d.outbox, changed, revoked, after.outbox)
    requires p in after.accounts && after.accounts == d.accounts[p := after.accounts[p]]
    requires after.accounts[p].epoch == d.accounts[p].epoch + 1
    requires after.accounts[p].version == d.accounts[p].version + 1
    ensures Ledger(after)
  {
    var a := d.accounts[p];
    var middle :=
      d.(accounts := d.accounts[p := a.(version := a.version + 1)], outbox := d.outbox[changed.id := changed]);
    ChangeKeeps(d, middle, p, changed);
    EpochKeeps(middle, after, p, revoked);
  }

  lemma ChangeKeeps(d: Data, after: Data, p: Id, e: Event)
    requires Ledger(d) && p in d.accounts && d.accounts[p].version >= 1
    requires IsChange(e.fact, p, d.accounts[p].version + 1)
    requires Enqueued(d.outbox, e, after.outbox)
    requires p in after.accounts && after.accounts == d.accounts[p := after.accounts[p]]
    requires after.accounts[p].version == d.accounts[p].version + 1 && after.accounts[p].epoch == d.accounts[p].epoch
    ensures Ledger(after)
  {
    hide Changes, Revocations;
    forall q, k ensures ChangesTell(after, q, k) && RevocationsTell(after, q, k) {
      assert ChangesTell(d, q, k) && RevocationsTell(d, q, k);
      ChangesGrow(d.outbox, e, q, k);
      RevocationsGrow(d.outbox, e, q, k);
      if q == p && k == d.accounts[p].version + 1 { OnlyOne(Changes(d.outbox, q, k), e.id); }
    }
  }

  // ---- Every run -----------------------------------------------------------------------------------------------

  lemma ReadTells(config: Config, d: Data, c: Command)
    requires Read(config, d, c).Ok?
    ensures RequestTells(Read(config, d, c).value)
  {
    hide RestoreChallenge, RestoreSession, RestoreTicket, ConsumeChallenge, NewChallenge, Deadline;
  }

  lemma ReplacingKeeps(d: Data, r: Request)
    requires Ledger(d) && BeganAtOne(d.accounts) && RequestTells(r) && Apply(d, r).Ok?
    requires r.ChangeRecord? || r.ResetRecord?
    ensures Ledger(Apply(d, r).value) && BeganAtOne(Apply(d, r).value.accounts)
  {
    hide ChangePassword, ResetPassword, Ledger, EnqueuedBoth, AllChecked;
    match r {
      case ChangeRecord(p, hash, version, epoch, at, changed, revoked) =>
        ChangePasswordDid(d, p, hash, version, epoch, at, changed, revoked);
      case ResetRecord(id, p, hash, version, epoch, at, setVerified, changed, revoked) =>
        ResetPasswordDid(d, id, p, hash, version, epoch, at, setVerified, changed, revoked);
    }
    ReplacementKeeps(d, Apply(d, r).value, r.principal, r.changed, r.revoked);
  }

  lemma NeutralRequestKeeps(d: Data, r: Request)
    requires Ledger(d) && BeganAtOne(d.accounts) && RequestTells(r) && Apply(d, r).Ok?
    requires r.RegisterRecord? || r.LoginRecord? || r.RevokeRecord? || r.VerifyRecord?
    ensures Ledger(Apply(d, r).value) && BeganAtOne(Apply(d, r).value.accounts)
  {
    hide Register, CommitLogin, RevokeOne, VerifyEmail, Ledger, Enqueued, AllChecked, SessionChecked;
    var after := Apply(d, r).value;
    match r
    case RegisterRecord(p, account, challengeId, challenge, e) =>
      RegisterDid(d, p, account, challengeId, challenge, e);
      NeutralKeeps(d, after, e);
    case LoginRecord(id, session, version, epoch, e) =>
      LoginDid(d, id, session, version, epoch, e);
      NeutralKeeps(d, after, e);
    case RevokeRecord(id, p, at, e) =>
      RevokeOneDid(d, id, p, at, e);
      if RevokeOutcomeOf(d, id, p).Revoked? { NeutralKeeps(d, after, e); }
    case VerifyRecord(id, p, at, version, e) =>
      VerifyEmailDid(d, id, p, at, version, e);
      NeutralKeeps(d, after, e);
  }

  lemma RequestKeeps(d: Data, r: Request)
    requires Ledger(d) && BeganAtOne(d.accounts) && RequestTells(r) && Apply(d, r).Ok?
    ensures Ledger(Apply(d, r).value) && BeganAtOne(Apply(d, r).value.accounts)
  {
    hide RevokeAll, IssueChallenge, ChangePassword, ResetPassword, IssueTicket, Ledger, Enqueued, AllChecked;
    var after := Apply(d, r).value;
    match r
    case EpochRecord(p, epoch, e) =>
      RevokeAllDid(d, p, epoch, e);
      EpochKeeps(d, after, p, e);
    case IssueRecord(id, challenge, version) =>
      IssueChallengeDid(d, id, challenge, version);
      SameOutboxKeeps(d, after);
    case TicketRecord(id, ticket, epoch) =>
      IssueTicketDid(d, id, ticket, epoch);
      SameOutboxKeeps(d, after);
    case ChangeRecord(_, _, _, _, _, _, _) => ReplacingKeeps(d, r);
    case ResetRecord(_, _, _, _, _, _, _, _, _) => ReplacingKeeps(d, r);
    case _ => NeutralRequestKeeps(d, r);
  }

  lemma StepKeeps(config: Config, s: System, step: Step)
    requires Sound(s) && Enabled(s, step)
    ensures Sound(Next(config, s, step))
  {
    match step
    case Begin(_, command) =>
      if Read(config, s.data, command).Ok? { ReadTells(config, s.data, command); }
      hide Read, RequestTells, Ledger;
    case Commit(task, applied) =>
      if applied && Apply(s.data, s.flights[task]).Ok? { RequestKeeps(s.data, s.flights[task]); }
      hide Apply, RequestTells, Ledger, BeganAtOne;
    case Resolving(id, now, _) =>
      if Resolve(s.data, id, now, config.sessionIdle).0.Ok? {
        ResolveDid(s.data, id, now, config.sessionIdle);
        SameOutboxKeeps(s.data, Resolve(s.data, id, now, config.sessionIdle).0.value);
      }
      hide Resolve, Ledger, TouchSession;
    case Redeeming(id, now, _) =>
      if RedeemTicket(s.data, id, now).0.Ok? {
        RedeemTicketDid(s.data, id, now);
        SameOutboxKeeps(s.data, RedeemTicket(s.data, id, now).0.value);
      }
      hide RedeemTicket, Ledger;
    case SetStatus(_, _) =>
      SameOutboxKeeps(s.data, Next(config, s, step).data);
      hide Ledger;
  }

  lemma {:induction false} RunSound(config: Config, steps: seq<Step>)
    ensures Sound(Run(config, START, steps))
  {
    if steps == [] {
      assert forall p, k :: ChangesTell(NOTHING, p, k) && RevocationsTell(NOTHING, p, k);
    } else {
      hide Sound, Enabled, Next;
      var n := |steps| - 1;
      RunSound(config, steps[..n]);
      var before := Run(config, START, steps[..n]);
      if Enabled(before, steps[n]) { StepKeeps(config, before, steps[n]); }
    }
  }

  /**
   * The outbox is a faithful ledger: per principal the password-changed facts carry the
   * versions 2 up to the current one and the sessions-revoked facts the epochs 2 up to
   * the current one, each once and none besides, although each was computed from an
   * earlier read without locks.
   */
  lemma FaithfulLedger(config: Config, steps: seq<Step>, p: Id, k: int)
    ensures var d := Run(config, START, steps).data;
            && |Changes(d.outbox, p, k)| == (if p in d.accounts && 2 <= k <= d.accounts[p].version then 1 else 0)
            && |Revocations(d.outbox, p, k)| == (if p in d.accounts && 2 <= k <= d.accounts[p].epoch then 1 else 0)
  {
    RunSound(config, steps);
    var d := Run(config, START, steps).data;
    assert ChangesTell(d, p, k) && RevocationsTell(d, p, k);
    hide Run, Changes, Revocations;
  }
}
