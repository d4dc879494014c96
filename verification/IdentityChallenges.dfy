/** Single use: challenges and upgrade tickets over every interleaving of commands. */
module IdentityChallenges {
  import opened Results
  import opened IdentityRows
  import opened IdentityStore
  import opened IdentityRuns

  // ---- What every step keeps ------------------------------------------------------------------------------

  /** A stored challenge can be restored, and is outstanding only under the current password version. */
  predicate ChallengeSound(accounts: map<Id, Account>, c: Challenge) {
    && ChallengeChecked(c) && c.principal in accounts && c.version <= accounts[c.principal].version
    && (c.Outstanding() ==> c.version == accounts[c.principal].version)
  }

  predicate ChallengesSound(accounts: map<Id, Account>, challenges: map<Id, Challenge>) {
    forall id :: id in challenges ==> ChallengeSound(accounts, challenges[id])
  }

  predicate Rivals(a: Challenge, b: Challenge) {
    a.principal == b.principal && a.digest.purpose == b.digest.purpose && a.Outstanding() && b.Outstanding()
  }

  predicate OneOutstanding(challenges: map<Id, Challenge>) {
    forall i, j :: i in challenges && j in challenges && i != j ==> !Rivals(challenges[i], challenges[j])
  }

  function CountUses(uses: seq<Use>, id: Id): nat {
    if uses == [] then 0 else CountUses(uses[..|uses| - 1], id) + if uses[|uses| - 1].challenge == id then 1 else 0
  }

  function CountRedeemed(redeemed: seq<Id>, id: Id): nat {
    if redeemed == [] then 0
    else CountRedeemed(redeemed[..|redeemed| - 1], id) + if redeemed[|redeemed| - 1] == id then 1 else 0
  }

  predicate UsesCounted(challenges: map<Id, Challenge>, uses: seq<Use>, id: Id) {
    CountUses(uses, id) == if id in challenges && challenges[id].consumed.Some? then 1 else 0
  }

  predicate UseFits(challenges: map<Id, Challenge>, use: Use) {
    && use.challenge in challenges && challenges[use.challenge].consumed == Some(use.at)
    && challenges[use.challenge].version == use.current
  }

  ghost predicate UsesSound(challenges: map<Id, Challenge>, uses: seq<Use>) {
    && (forall id :: UsesCounted(challenges, uses, id))
    && (forall i :: 0 <= i < |uses| ==> UseFits(challenges, uses[i]))
  }

  predicate TicketsSound(tickets: map<Id, Ticket>) {
    forall id :: id in tickets ==> RestoreTicket(tickets[id]).Ok?
  }

  predicate RedeemedCounted(tickets: map<Id, Ticket>, redeemed: seq<Id>, id: Id) {
    CountRedeemed(redeemed, id) == if id in tickets && tickets[id].consumed.Some? then 1 else 0
  }

  ghost predicate RedeemedSound(tickets: map<Id, Ticket>, redeemed: seq<Id>) {
    TicketsSound(tickets) && forall id :: RedeemedCounted(tickets, redeemed, id)
  }

  /** What a command's read half promises about the challenge it names or brings. */
  predicate RequestFits(challenges: map<Id, Challenge>, r: Request) {
    match r
    case RegisterRecord(p, a, _, c, _) => c.principal == p && c.version == a.version && c.Outstanding()
    case IssueRecord(_, c, version) => c.version == version && c.Outstanding()
    case VerifyRecord(id, _, _, version, _) => id in challenges && challenges[id].version == version
    case ResetRecord(id, _, _, version, _, _, _, _, _) => id in challenges && challenges[id].version == version
    case TicketRecord(_, t, _) => t.consumed.None?
    case _ => true
  }

  predicate FlightsFit(challenges: map<Id, Challenge>, flights: map<nat, Request>) {
    forall t :: t in flights ==> RequestFits(challenges, flights[t])
  }

  /** Principals come with their first challenge, so a new one has no challenges yet. */
  ghost predicate Sound(s: System) {
    && ChallengesSound(s.data.accounts, s.data.challenges)
    && OneOutstanding(s.data.challenges)
    && UsesSound(s.data.challenges, s.uses)
    && RedeemedSound(s.data.tickets, s.redeemed)
    && FlightsFit(s.data.challenges, s.flights)
  }

  /** Challenges are never dropped and keep what they were issued with. */
  predicate SameIssue(challenges: map<Id, Challenge>, after: map<Id, Challenge>) {
    forall id :: id in challenges ==> id in after && after[id].version == challenges[id].version
  }

  lemma FlightsStay(challenges: map<Id, Challenge>, after: map<Id, Challenge>, flights: map<nat, Request>, task: nat)
    requires FlightsFit(challenges, flights) && SameIssue(challenges, after)
    ensures FlightsFit(after, flights) && FlightsFit(after, flights - {task})
  {
  }

  // ---- Clearing, inserting, consuming -----------------------------------------------------------------------

  /** What was consumed, and what was not, stays so. */
  lemma UsesStay(challenges: map<Id, Challenge>, after: map<Id, Challenge>, uses: seq<Use>)
    requires UsesSound(challenges, uses) && SameIssue(challenges, after)
    requires forall id :: id in challenges ==> after[id].consumed == challenges[id].consumed
    requires forall id :: id in after && id !in challenges ==> after[id].consumed.None?
    ensures UsesSound(after, uses)
  {
    hide CountUses;
    forall id ensures UsesCounted(after, uses, id) { assert UsesCounted(challenges, uses, id); }
    forall i | 0 <= i < |uses| ensures UseFits(after, uses[i]) { assert UseFits(challenges, uses[i]); }
  }

  lemma ClearKeeps(d: Data, uses: seq<Use>, p: Id, purpose: Option<Purpose>, at: int)
    requires ChallengesSound(d.accounts, d.challenges) && OneOutstanding(d.challenges) && UsesSound(d.challenges, uses)
    requires AllChecked(Invalidated(d.challenges, p, purpose, at))
    ensures var cleared := Invalidated(d.challenges, p, purpose, at);
            && ChallengesSound(d.accounts, cleared) && OneOutstanding(cleared) && UsesSound(cleared, uses)
            && SameIssue(d.challenges, cleared)
            && (forall id :: id in cleared ==> !Touched(cleared[id], p, purpose))
  {
    hide ChallengeChecked, CountUses;
    UsesStay(d.challenges, Invalidated(d.challenges, p, purpose, at), uses);
  }

  /** A new outstanding challenge, where none of its principal and purpose is. */
  lemma InsertKeeps(accounts: map<Id, Account>, challenges: map<Id, Challenge>, uses: seq<Use>, id: Id, c: Challenge)
    requires ChallengesSound(accounts, challenges) && OneOutstanding(challenges) && UsesSound(challenges, uses)
    requires id !in challenges && ChallengeSound(accounts, c) && c.Outstanding()
    requires forall k :: k in challenges ==> !Touched(challenges[k], c.principal, Some(c.digest.purpose))
    ensures var after := challenges[id := c];
            && ChallengesSound(accounts, after) && OneOutstanding(after) && UsesSound(after, uses)
            && SameIssue(challenges, after)
  {
    hide ChallengeSound, CountUses;
    UsesStay(challenges, challenges[id := c], uses);
  }

  lemma UseGrows(uses: seq<Use>, use: Use, id: Id)
    ensures CountUses(uses + [use], id) == CountUses(uses, id) + if use.challenge == id then 1 else 0
  {
    assert (uses + [use])[..|uses|] == uses;
  }

  lemma ConsumeKeeps(d: Data, uses: seq<Use>, id: Id, p: Id, purpose: Purpose, at: int)
    requires ChallengesSound(d.accounts, d.challenges) && OneOutstanding(d.challenges) && UsesSound(d.challenges, uses)
    requires Consumable(d, id, p, purpose, at) && p in d.accounts
    ensures var after := d.challenges[id := d.challenges[id].(consumed := Some(at))];
            && ChallengesSound(d.accounts, after) && OneOutstanding(after) && SameIssue(d.challenges, after)
            && UsesSound(after, uses + [Use(id, at, d.accounts[p].version)])
  {
    hide CountUses;
    var use := Use(id, at, d.accounts[p].version);
    var after := d.challenges[id := d.challenges[id].(consumed := Some(at))];
    assert ChallengeSound(d.accounts, d.challenges[id]);
    forall k ensures UsesCounted(after, uses + [use], k) {
      UseGrows(uses, use, k);
      assert UsesCounted(d.challenges, uses, k);
    }
    forall i | 0 <= i < |uses + [use]| ensures UseFits(after, (uses + [use])[i]) {
      if i < |uses| { assert UseFits(d.challenges, uses[i]); }
    }
  }

  /** Accounts whose password versions stand keep the challenges sound. */
  lemma VersionsStand(accounts: map<Id, Account>, after: map<Id, Account>, challenges: map<Id, Challenge>)
    requires ChallengesSound(accounts, challenges)
    requires forall p :: p in accounts ==> p in after && after[p].version == accounts[p].version
    ensures ChallengesSound(after, challenges)
  {
    hide ChallengeChecked;
  }

  /** A version moves on only when no challenge of its principal is outstanding. */
  lemma VersionMoves(accounts: map<Id, Account>, after: map<Id, Account>, challenges: map<Id, Challenge>, p: Id)
    requires ChallengesSound(accounts, challenges) && p in accounts && p in after && after == accounts[p := after[p]]
    requires after[p].version == accounts[p].version + 1
    requires forall id :: id in challenges ==> !Touched(challenges[id], p, None)
    ensures ChallengesSound(after, challenges)
  {
    hide ChallengeChecked;
  }

  // ---- Each request ---------------------------------------------------------------------------------------------

  lemma ReadFits(config: Config, d: Data, c: Command)
    requires Read(config, d, c).Ok?
    ensures RequestFits(d.challenges, Read(config, d, c).value)
  {
    hide RestoreSession, Deadline, NextEpoch, NextVersion, ChangedEvent, RevokedEvent;
  }

  lemma RegisterKeeps(s: System, task: nat)
    requires Sound(s) && task in s.flights && s.flights[task].RegisterRecord?
    ensures Sound(Committed(s, task, true))
  {
    var r := s.flights[task];
    if Apply(s.data, r).Ok? {
      RegisterDid(s.data, r.principal, r.account, r.challengeId, r.challenge, r.event);
      var after := Apply(s.data, r).value;
      VersionsStand(s.data.accounts, after.accounts, s.data.challenges);
      InsertKeeps(after.accounts, s.data.challenges, s.uses, r.challengeId, r.challenge);
      FlightsStay(s.data.challenges, after.challenges, s.flights, task);
    } else {
      FlightsStay(s.data.challenges, s.data.challenges, s.flights, task);
    }
    hide Register, UsesSound, RedeemedSound, OneOutstanding, FlightsFit, ChallengesSound;
  }

  lemma IssueKeeps(s: System, task: nat)
    requires Sound(s) && task in s.flights && s.flights[task].IssueRecord?
    ensures Sound(Committed(s, task, true))
  {
    var r := s.flights[task];
    var d := s.data;
    if Apply(d, r).Ok? {
      var c := r.challenge;
      IssueChallengeDid(d, r.challengeId, c, r.version);
      ClearKeeps(d, s.uses, c.principal, Some(c.digest.purpose), c.issued);
      var cleared := Invalidated(d.challenges, c.principal, Some(c.digest.purpose), c.issued);
      InsertKeeps(d.accounts, cleared, s.uses, r.challengeId, c);
      FlightsStay(d.challenges, Apply(d, r).value.challenges, s.flights, task);
    } else {
      FlightsStay(d.challenges, d.challenges, s.flights, task);
    }
    hide IssueChallenge, UsesSound, RedeemedSound, OneOutstanding, FlightsFit, ChallengesSound, Invalidated,
      AllChecked;
  }

  lemma VerifyKeeps(s: System, task: nat)
    requires Sound(s) && task in s.flights && s.flights[task].VerifyRecord?
    ensures Sound(Committed(s, task, true))
  {
    var r := s.flights[task];
    var d := s.data;
    if Apply(d, r).Ok? {
      VerifyEmailDid(d, r.challengeId, r.principal, r.at, r.version, r.event);
      ConsumeKeeps(d, s.uses, r.challengeId, r.principal, EmailVerification, r.at);
      var after := Apply(d, r).value;
      VersionsStand(d.accounts, after.accounts, after.challenges);
      FlightsStay(d.challenges, after.challenges, s.flights, task);
    } else {
      FlightsStay(d.challenges, d.challenges, s.flights, task);
    }
    hide VerifyEmail, UsesSound, RedeemedSound, OneOutstanding, FlightsFit, ChallengesSound;
  }

  lemma ChangeKeeps(s: System, task: nat)
    requires Sound(s) && task in s.flights && s.flights[task].ChangeRecord?
    ensures Sound(Committed(s, task, true))
  {
    var r := s.flights[task];
    var d := s.data;
    if Apply(d, r).Ok? {
      ChangePasswordDid(d, r.principal, r.hash, r.version, r.epoch, r.at, r.changed, r.revoked);
      ClearKeeps(d, s.uses, r.principal, None, r.at);
      var after := Apply(d, r).value;
      VersionMoves(d.accounts, after.accounts, after.challenges, r.principal);
      FlightsStay(d.challenges, after.challenges, s.flights, task);
    } else {
      FlightsStay(d.challenges, d.challenges, s.flights, task);
    }
    hide ChangePassword, UsesSound, RedeemedSound, OneOutstanding, FlightsFit, ChallengesSound, Invalidated,
      AllChecked;
  }

  lemma ResetKeeps(s: System, task: nat)
    requires Sound(s) && task in s.flights && s.flights[task].ResetRecord?
    ensures Sound(Committed(s, task, true))
  {
    var r := s.flights[task];
    var d := s.data;
    if Apply(d, r).Ok? {
      ResetPasswordDid(
        d, r.challengeId, r.principal, r.hash, r.version, r.epoch, r.at, r.setVerified, r.changed, r.revoked);
      ConsumeKeeps(d, s.uses, r.challengeId, r.principal, PasswordReset, r.at);
      var used := d.(challenges := d.challenges[r.challengeId := d.challenges[r.challengeId].(consumed := Some(r.at))]);
      var uses := s.uses + [Use(r.challengeId, r.at, d.accounts[r.principal].version)];
      ClearKeeps(used, uses, r.principal, None, r.at);
      var after := Apply(d, r).value;
      VersionMoves(d.accounts, after.accounts, after.challenges, r.principal);
      FlightsStay(d.challenges, after.challenges, s.flights, task);
    } else {
      FlightsStay(d.challenges, d.challenges, s.flights, task);
    }
    hide ResetPassword, UsesSound, RedeemedSound, OneOutstanding, FlightsFit, ChallengesSound, Invalidated,
      AllChecked;
  }

  lemma TicketIn(tickets: map<Id, Ticket>, redeemed: seq<Id>, id: Id, t: Ticket)
    requires RedeemedSound(tickets, redeemed) && id !in tickets && RestoreTicket(t).Ok? && t.consumed.None?
    ensures RedeemedSound(tickets[id := t], redeemed)
  {
    hide CountRedeemed;
    var after := tickets[id := t];
    forall k ensures RedeemedCounted(after, redeemed, k) { assert RedeemedCounted(tickets, redeemed, k); }
  }

  /** The requests that leave challenges and their accounts' versions alone. */
  lemma OtherKeeps(s: System, task: nat)
    requires Sound(s) && task in s.flights
    requires var r := s.flights[task]; r.LoginRecord? || r.RevokeRecord? || r.EpochRecord? || r.TicketRecord?
    ensures Sound(Committed(s, task, true))
  {
    hide CommitLogin, RevokeOne, RevokeAll, IssueTicket, UsesSound, RedeemedSound, OneOutstanding, FlightsFit,
      ChallengesSound, SessionChecked, Eligible;
    var r := s.flights[task];
    var d := s.data;
    FlightsStay(d.challenges, d.challenges, s.flights, task);
    if Apply(d, r).Ok? {
      match r {
        case LoginRecord(id, x, version, epoch, event) => LoginDid(d, id, x, version, epoch, event);
        case RevokeRecord(id, p, at, event) => RevokeOneDid(d, id, p, at, event);
        case EpochRecord(p, epoch, event) =>
          RevokeAllDid(d, p, epoch, event);
          VersionsStand(d.accounts, Apply(d, r).value.accounts, d.challenges);
        case TicketRecord(id, t, epoch) =>
          IssueTicketDid(d, id, t, epoch);
          Fits(d.challenges, s.flights, task);
          TicketIn(d.tickets, s.redeemed, id, t);
      }
    }
  }

  lemma Fits(challenges: map<Id, Challenge>, flights: map<nat, Request>, task: nat)
    requires FlightsFit(challenges, flights) && task in flights
    ensures RequestFits(challenges, flights[task])
  {
  }

  lemma RedeemGrows(redeemed: seq<Id>, last: Id, id: Id)
    ensures CountRedeemed(redeemed + [last], id) == CountRedeemed(redeemed, id) + if last == id then 1 else 0
  {
    assert (redeemed + [last])[..|redeemed|] == redeemed;
  }

  lemma TicketUsed(tickets: map<Id, Ticket>, redeemed: seq<Id>, id: Id, now: int)
    requires RedeemedSound(tickets, redeemed) && id in tickets && ConsumeTicket(tickets[id], now).Ok?
    ensures RedeemedSound(tickets[id := tickets[id].(consumed := Some(now))], redeemed + [id])
  {
    hide CountRedeemed;
    var after := tickets[id := tickets[id].(consumed := Some(now))];
    forall k ensures RedeemedCounted(after, redeemed + [id], k) {
      RedeemGrows(redeemed, id, k);
      assert RedeemedCounted(tickets, redeemed, k);
    }
  }

  lemma RedeemingKeeps(s: System, id: Option<Id>, now: int)
    requires Sound(s)
    ensures Sound(Redeemed(s, id, now))
  {
    hide RedeemTicket, UsesSound, RedeemedSound, OneOutstanding, FlightsFit, ChallengesSound, ConsumeTicket,
      CheckSession, Eligible;
    if RedeemTicket(s.data, id, now).0.Ok? {
      RedeemTicketDid(s.data, id, now);
      if RedeemTicket(s.data, id, now).1.Some? {
        TicketUsed(s.data.tickets, s.redeemed, id.value, now);
        var used := s.data.tickets[id.value].(consumed := Some(now));
        assert RedeemTicket(s.data, id, now).0.value.tickets == s.data.tickets[id.value := used];
      }
    }
  }

  lemma StepKeeps(config: Config, s: System, step: Step)
    requires Sound(s) && Enabled(s, step)
    ensures Sound(Next(config, s, step))
  {
    hide Apply, Read, Resolve, Redeemed, TouchSession, UsesSound, RedeemedSound, OneOutstanding, ChallengesSound,
      RequestFits;
    match step
    case Begin(_, command) =>
      if Read(config, s.data, command).Ok? { ReadFits(config, s.data, command); }
    case Commit(task, applied) =>
      if applied {
        match s.flights[task] {
          case RegisterRecord(_, _, _, _, _) => RegisterKeeps(s, task);
          case IssueRecord(_, _, _) => IssueKeeps(s, task);
          case VerifyRecord(_, _, _, _, _) => VerifyKeeps(s, task);
          case ChangeRecord(_, _, _, _, _, _, _) => ChangeKeeps(s, task);
          case ResetRecord(_, _, _, _, _, _, _, _, _) => ResetKeeps(s, task);
          case _ => OtherKeeps(s, task);
        }
      }
    case Resolving(id, now, _) =>
      if Resolve(s.data, id, now, config.sessionIdle).0.Ok? { ResolveDid(s.data, id, now, config.sessionIdle); }
    case Redeeming(id, now, applied) =>
      if applied { RedeemingKeeps(s, id, now); }
    case SetStatus(_, _) =>
      VersionsStand(s.data.accounts, Next(config, s, step).data.accounts, s.data.challenges);
  }

  lemma StartSound()
    ensures Sound(START)
  {
    assert forall id :: UsesCounted(map[], [], id) && RedeemedCounted(map[], [], id);
  }

  lemma {:induction false} RunSound(config: Config, s: System, steps: seq<Step>)
    requires Sound(s)
    ensures Sound(Run(config, s, steps))
  {
    hide Sound, Enabled, Next;
    if steps != [] {
      var n := |steps| - 1;
      RunSound(config, s, steps[..n]);
      var before := Run(config, s, steps[..n]);
      if Enabled(before, steps[n]) { StepKeeps(config, before, steps[n]); }
    }
  }

  // ---- Single use ---------------------------------------------------------------------------------------------

  /**
   * In every run each principal has at most one outstanding challenge of a purpose, and
   * every challenge and ticket row can be restored.
   */
  lemma OneAtATime(config: Config, steps: seq<Step>, i: Id, j: Id, t: Id)
    ensures var d := Run(config, START, steps).data;
            && (i in d.challenges && j in d.challenges && i != j ==> !Rivals(d.challenges[i], d.challenges[j]))
            && (i in d.challenges ==> RestoreChallenge(d.challenges[i]).Ok?)
            && (t in d.tickets ==> RestoreTicket(d.tickets[t]).Ok?)
  {
    StartSound();
    RunSound(config, START, steps);
    hide Run, Rivals, UsesSound;
  }

  /**
   * A challenge is consumed by at most one committed verification or reset, at a time from
   * its issue up to its expiry, while its password version is the current one; a ticket is
   * redeemed at most once, from its issue and within its thirty seconds.
   */
  lemma SingleUse(config: Config, steps: seq<Step>, id: Id, k: nat, ticket: Id, again: int)
    ensures var s := Run(config, START, steps);
            && CountUses(s.uses, id) <= 1 && CountRedeemed(s.redeemed, ticket) <= 1
            && (CountRedeemed(s.redeemed, ticket) == 1 ==>
                  && ticket in s.data.tickets && s.data.tickets[ticket].consumed.Some?
                  && var t := s.data.tickets[ticket];
                     t.issued <= t.consumed.value < t.issued + MAX_TICKET_MS && ConsumeTicket(t, again).Err?)
            && (k < |s.uses| ==>
                  && var use := s.uses[k];
                     && use.challenge in s.data.challenges
                     && var c := s.data.challenges[use.challenge];
                        c.issued <= use.at < c.expires && use.current == c.version && c.consumed == Some(use.at))
  {
    StartSound();
    RunSound(config, START, steps);
    var s := Run(config, START, steps);
    assert UsesCounted(s.data.challenges, s.uses, id) && (k < |s.uses| ==> UseFits(s.data.challenges, s.uses[k]));
    assert RedeemedCounted(s.data.tickets, s.redeemed, ticket);
    hide Run, CountUses, CountRedeemed, ConsumeTicket;
    if CountRedeemed(s.redeemed, ticket) == 1 {
      var t := s.data.tickets[ticket];
      TicketMoves(t.(consumed := None), t.consumed.value, again);
    }
  }

  /** A challenge no longer outstanding. */
  predicate Settled(d: Data, id: Id) {
    id in d.challenges && !d.challenges[id].Outstanding()
  }

  predicate SettledAs(d: Data, after: Data, id: Id) {
    id in d.challenges && Settled(after, id) && after.challenges[id].consumed == d.challenges[id].consumed
  }

  lemma CommitSettled(s: System, task: nat, id: Id)
    requires task in s.flights && Settled(s.data, id)
    ensures SettledAs(s.data, Committed(s, task, true).data, id)
  {
    hide Register, CommitLogin, RevokeOne, RevokeAll, IssueChallenge, VerifyEmail, ChangePassword, ResetPassword,
      IssueTicket, AllChecked, SessionChecked, ChallengeChecked, Eligible;
    var r := s.flights[task];
    var d := s.data;
    if Apply(d, r).Ok? {
      match r {
        case RegisterRecord(p, a, k, c, e) => RegisterDid(d, p, a, k, c, e);
        case LoginRecord(k, x, version, epoch, e) => LoginDid(d, k, x, version, epoch, e);
        case RevokeRecord(k, p, at, e) => RevokeOneDid(d, k, p, at, e);
        case EpochRecord(p, epoch, e) => RevokeAllDid(d, p, epoch, e);
        case IssueRecord(k, c, version) => IssueChallengeDid(d, k, c, version);
        case VerifyRecord(k, p, at, version, e) => VerifyEmailDid(d, k, p, at, version, e);
        case ChangeRecord(p, hash, version, epoch, at, changed, revoked) =>
          ChangePasswordDid(d, p, hash, version, epoch, at, changed, revoked);
        case ResetRecord(k, p, hash, version, epoch, at, setVerified, changed, revoked) =>
          ResetPasswordDid(d, k, p, hash, version, epoch, at, setVerified, changed, revoked);
        case TicketRecord(k, t, epoch) => IssueTicketDid(d, k, t, epoch);
      }
    }
  }

  lemma StepSettled(config: Config, s: System, step: Step, id: Id)
    requires Enabled(s, step) && Settled(s.data, id)
    ensures SettledAs(s.data, Next(config, s, step).data, id)
  {
    hide Apply, Read, Resolve, RedeemTicket, TouchSession, SessionChecked;
    match step
    case Commit(task, applied) => if applied { CommitSettled(s, task, id); }
    case Resolving(found, now, _) =>
      if Resolve(s.data, found, now, config.sessionIdle).0.Ok? { ResolveDid(s.data, found, now, config.sessionIdle); }
    case Redeeming(found, now, _) =>
      if RedeemTicket(s.data, found, now).0.Ok? { RedeemTicketDid(s.data, found, now); }
    case _ =>
  }

  lemma {:induction false} SettledForever(config: Config, s: System, steps: seq<Step>, id: Id)
    requires Settled(s.data, id)
    ensures SettledAs(s.data, Run(config, s, steps).data, id)
  {
    hide Enabled, Next;
    if steps != [] {
      var n := |steps| - 1;
      SettledForever(config, s, steps[..n], id);
      var before := Run(config, s, steps[..n]);
      if Enabled(before, steps[n]) { StepSettled(config, before, steps[n], id); }
    }
  }

  lemma ReplacementSettles(s: System, task: nat, id: Id)
    requires task in s.flights && (s.flights[task].ChangeRecord? || s.flights[task].ResetRecord?)
    requires Apply(s.data, s.flights[task]).Ok?
    requires id in s.data.challenges && s.data.challenges[id].principal == s.flights[task].principal
    ensures Settled(Committed(s, task, true).data, id)
  {
    hide ChangePassword, ResetPassword, AllChecked, ChallengeChecked;
    var r := s.flights[task];
    var d := s.data;
    match r {
      case ChangeRecord(p, hash, version, epoch, at, changed, revoked) =>
        ChangePasswordDid(d, p, hash, version, epoch, at, changed, revoked);
      case ResetRecord(k, p, hash, version, epoch, at, setVerified, changed, revoked) =>
        ResetPasswordDid(d, k, p, hash, version, epoch, at, setVerified, changed, revoked);
    }
  }

  /**
   * No challenge issued before a committed password replacement is consumed after it,
   * whatever was in flight when it committed.
   */
  lemma NoneOutlivesReplacement(config: Config, steps: seq<Step>, task: nat, later: seq<Step>, id: Id)
    requires var s := Run(config, START, steps);
             && task in s.flights && (s.flights[task].ChangeRecord? || s.flights[task].ResetRecord?)
             && Apply(s.data, s.flights[task]).Ok?
             && id in s.data.challenges && s.data.challenges[id].principal == s.flights[task].principal
    ensures var after := Committed(Run(config, START, steps), task, true);
            var final := Run(config, after, later);
            && id in after.data.challenges && id in final.data.challenges
            && final.data.challenges[id].consumed == after.data.challenges[id].consumed
            && CountUses(final.uses, id) == CountUses(after.uses, id)
  {
    StartSound();
    RunSound(config, START, steps);
    var s := Run(config, START, steps);
    ReplacementSettles(s, task, id);
    StepKeeps(config, s, Commit(task, true));
    var after := Committed(s, task, true);
    SettledForever(config, after, later, id);
    RunSound(config, after, later);
    assert UsesCounted(after.data.challenges, after.uses, id);
    assert UsesCounted(Run(config, after, later).data.challenges, Run(config, after, later).uses, id);
    hide Run, Committed, Apply, CountUses, ChallengesSound, OneOutstanding, RedeemedSound, FlightsFit;
  }
}
