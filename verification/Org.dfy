/** Organizations: ownership, membership and invitations over whole runs. */
module Org {
  import opened Results
  import Ids

  type Id = Ids.Id

  const MAX_TIME_MS := 253402300799999
  const INVITATION_TTL_MS := 7 * 24 * 60 * 60 * 1000
  const INVALID_RECORD := "org.store_invalid_record"
  const CONFLICT := "database.conflict"

  // ---- Values -------------------------------------------------------------------------------------------

  datatype Role = Owner | Admin | Member

  datatype Organization = Organization(name: string, created: int)

  datatype Membership = Membership(org: Id, principal: Id, role: Role, created: int)

  datatype InvitationStatus = Pending | Accepted | Revoked

  datatype Invitation = Invitation(
    org: Id, inviter: Id, invitee: Id, role: Role, status: InvitationStatus, created: int, expires: int,
    resolved: Option<int>)

  predicate Zero(id: Id) {
    id.bytes == seq(16, _ => 0)
  }

  predicate TimeInRange(at: int) {
    0 <= at <= MAX_TIME_MS
  }

  /** 1 to 100 characters, none of them a control character and not all of them spaces. */
  predicate ValidName(name: string) {
    && 1 <= |name| <= 100
    && (exists i :: 0 <= i < |name| && name[i] != ' ')
    && forall i :: 0 <= i < |name| ==> name[i] as int >= 32 && name[i] as int != 127
  }

  predicate ValidOrganization(id: Id, o: Organization) {
    !Zero(id) && ValidName(o.name) && TimeInRange(o.created)
  }

  predicate ValidMembership(id: Id, m: Membership) {
    !Zero(id) && !Zero(m.org) && !Zero(m.principal) && TimeInRange(m.created)
  }

  function RestoreInvitation(id: Id, v: Invitation): Result<Invitation> {
    if v.role.Owner? then Err("org.role_invalid")
    else if Zero(id) || Zero(v.org) || Zero(v.inviter) || Zero(v.invitee) || v.inviter == v.invitee
         || !TimeInRange(v.created) || v.expires <= v.created || v.expires > MAX_TIME_MS
         || (if v.status.Pending? then v.resolved.Some?
             else v.resolved.None? || v.resolved.value < v.created || v.resolved.value > MAX_TIME_MS)
    then Err("org.invitation_invalid")
    else Ok(v)
  }

  function AcceptedAt(id: Id, v: Invitation, at: int): Result<Invitation> {
    if !v.status.Pending? then Err("org.invitation_state_invalid")
    else if at < v.created || at >= v.expires then Err("org.invitation_expired")
    else RestoreInvitation(id, v.(status := Accepted, resolved := Some(at)))
  }

  function RevokedAt(id: Id, v: Invitation, at: int): Result<Invitation> {
    if !v.status.Pending? then Err("org.invitation_state_invalid")
    else if at < v.created || at > MAX_TIME_MS then Err("org.invitation_invalid")
    else RestoreInvitation(id, v.(status := Revoked, resolved := Some(at)))
  }

  // ---- The store's transactions ---------------------------------------------------------------------------

  datatype Data = Data(orgs: map<Id, Organization>, members: map<Id, Membership>, invitations: map<Id, Invitation>)

  predicate Belongs(d: Data, org: Id, principal: Id) {
    exists k :: k in d.members && d.members[k].org == org && d.members[k].principal == principal
  }

  /** Which membership a query by organization and principal finds. */
  predicate Finds(d: Data, org: Id, principal: Id, found: Option<Id>) {
    match found
    case None => !Belongs(d, org, principal)
    case Some(k) => k in d.members && d.members[k].org == org && d.members[k].principal == principal
  }

  datatype CreateOutcome = Created | AlreadyThere

  function CreateOrganization(d: Data, id: Id, o: Organization, membershipId: Id, m: Membership)
    : Result<(Data, CreateOutcome)>
  {
    if !ValidOrganization(id, o) || !ValidMembership(membershipId, m) || m.org != id || !m.role.Owner?
    then Err(INVALID_RECORD)
    else if id in d.orgs || membershipId in d.members then Ok((d, AlreadyThere))
    else if Belongs(d, id, m.principal) then Err(CONFLICT)
    else Ok((d.(orgs := d.orgs[id := o], members := d.members[membershipId := m]), Created))
  }

  datatype InviteOutcome = Invited | InvitationExists | MemberExists | Unauthorized

  /** Only an owner may do everything; an admin may do all but make admins. */
  predicate MayGrant(actor: Option<Role>, role: Role) {
    actor == Some(Owner) || (actor == Some(Admin) && role != Admin)
  }

  predicate PendingFor(d: Data, org: Id, invitee: Id) {
    exists k :: k in d.invitations
      && d.invitations[k].org == org && d.invitations[k].invitee == invitee && d.invitations[k].status.Pending?
  }

  function FoundRole(d: Data, found: Option<Id>): Option<Role>
    requires found.Some? ==> found.value in d.members
  {
    if found.Some? then Some(d.members[found.value].role) else None
  }

  /** The first statements of an invite: what refuses it before its insert; nothing if it goes on. */
  function CheckInvitation(d: Data, id: Id, v: Invitation, actor: Option<Id>): Result<Option<InviteOutcome>>
    requires Finds(d, v.org, v.inviter, actor)
  {
    if RestoreInvitation(id, v).Err? then Err(INVALID_RECORD)
    else if !MayGrant(FoundRole(d, actor), v.role) then Ok(Some(Unauthorized))
    else if Belongs(d, v.org, v.invitee) then Ok(Some(MemberExists))
    else Ok(None)
  }

  /** Its insert, which does nothing for an invitee with a pending invitation. */
  function InsertInvitation(d: Data, id: Id, v: Invitation): Result<(Data, InviteOutcome)> {
    if v.status.Pending? && PendingFor(d, v.org, v.invitee) then Ok((d, InvitationExists))
    else if id in d.invitations then Err(CONFLICT)
    else Ok((d.(invitations := d.invitations[id := v]), Invited))
  }

  datatype AcceptOutcome = Joined | AlreadyAccepted | Expired | NotFound | NotForPrincipal | AlreadyMember

  function AcceptInvitation(d: Data, id: Id, invitee: Id, now: int, membershipId: Id): Result<(Data, AcceptOutcome)> {
    if id !in d.invitations then Ok((d, NotFound))
    else if RestoreInvitation(id, d.invitations[id]).Err? then Err(INVALID_RECORD)
    else
      var v := d.invitations[id];
      if v.invitee != invitee then Ok((d, NotForPrincipal))
      else if v.status.Accepted? then Ok((d, AlreadyAccepted))
      else if !v.status.Pending? then Ok((d, Expired))
      else if now >= v.expires then
        match RevokedAt(id, v, now)
        case Err(_) => Err(INVALID_RECORD)
        case Ok(revoked) => Ok((d.(invitations := d.invitations[id := revoked]), Expired))
      else if Belongs(d, v.org, v.invitee) then Ok((d, AlreadyMember))
      else
        var m := Membership(v.org, v.invitee, v.role, now);
        if !ValidMembership(membershipId, m) then Err("org.membership_invalid")
        else if membershipId in d.members then Err(CONFLICT)
        else
          match AcceptedAt(id, v, now)
          case Err(_) => Err(INVALID_RECORD)
          case Ok(accepted) =>
            Ok((d.(members := d.members[membershipId := m], invitations := d.invitations[id := accepted]), Joined))
  }

  datatype RoleOutcome = Changed | Unchanged | TargetNotFound | NotPermitted | OwnerTarget

  function ChangeRole(d: Data, role: Role, actor: Option<Id>, target: Option<Id>): (Data, RoleOutcome)
    requires (actor.Some? ==> actor.value in d.members) && (target.Some? ==> target.value in d.members)
  {
    if !MayGrant(FoundRole(d, actor), role) then (d, NotPermitted)
    else if target.None? then (d, TargetNotFound)
    else
      var m := d.members[target.value];
      if m.role.Owner? then (d, OwnerTarget)
      else if m.role == role then (d, Unchanged)
      else (d.(members := d.members[target.value := m.(role := role)]), Changed)
  }

  // ---- The commands -------------------------------------------------------------------------------------------

  /**
   * A command with what its ports gave it: eligibility, the clock in range, new IDs, and the
   * rows its queries find. An invite checks that its invitee is no member without locking
   * it, so other commands may commit before its insert.
   */
  datatype Command =
    | Found(name: string, owner: Id, eligible: bool, now: int, id: Id, membershipId: Id)
    | Check(
        task: nat, org: Id, inviter: Id, invitee: Id, role: Role, eligible: bool, now: int, id: Id, actor: Option<Id>)
    | Insert(task: nat)
    | Accept(id: Id, invitee: Id, now: int, membershipId: Id)
    | Promote(org: Id, granter: Id, target: Id, role: Role, actor: Option<Id>, member: Option<Id>)

  predicate InviteRole(role: Role) {
    role.Admin? || role.Member?
  }

  function NewInvitation(org: Id, inviter: Id, invitee: Id, role: Role, now: int): Invitation {
    Invitation(org, inviter, invitee, role, Pending, now, now + INVITATION_TTL_MS, None)
  }

  function ExecuteFound(d: Data, c: Command): Result<Data>
    requires c.Found?
  {
    if !c.eligible then Err("org.principal_ineligible")
    else if !TimeInRange(c.now) then Err("org.create_dependency_failed")
    else
      var o, m := Organization(c.name, c.now), Membership(c.id, c.owner, Owner, c.now);
      if !ValidOrganization(c.id, o) then Err("org.organization_invalid")
      else if !ValidMembership(c.membershipId, m) then Err("org.membership_invalid")
      else
        var (after, outcome) :- CreateOrganization(d, c.id, o, c.membershipId, m);
        if outcome.Created? then Ok(after) else Err("org.organization_exists")
  }

  /** The invitation an invite goes on to insert. */
  function ExecuteCheck(d: Data, c: Command): Result<Invitation>
    requires c.Check? && Finds(d, c.org, c.inviter, c.actor)
  {
    if Zero(c.org) || Zero(c.inviter) || Zero(c.invitee) || c.inviter == c.invitee || !InviteRole(c.role)
    then Err("org.membership_invalid_input")
    else if !c.eligible then Err("org.invitee_ineligible")
    else if !TimeInRange(c.now) || c.now + INVITATION_TTL_MS > MAX_TIME_MS then Err("org.membership_dependency_failed")
    else
      var v :- RestoreInvitation(c.id, NewInvitation(c.org, c.inviter, c.invitee, c.role, c.now));
      var refused :- CheckInvitation(d, c.id, v, c.actor);
      match refused
      case None => Ok(v)
      case Some(MemberExists) => Err("org.member_exists")
      case Some(_) => Err("org.membership_forbidden")
  }

  function ExecuteAccept(d: Data, c: Command): Result<(Data, AcceptOutcome)>
    requires c.Accept?
  {
    if Zero(c.id) || Zero(c.invitee) then Err("org.membership_invalid_input")
    else if !TimeInRange(c.now) then Err("org.membership_dependency_failed")
    else AcceptInvitation(d, c.id, c.invitee, c.now, c.membershipId)
  }

  function ExecutePromote(d: Data, c: Command): Result<(Data, RoleOutcome)>
    requires c.Promote? && Finds(d, c.org, c.granter, c.actor) && Finds(d, c.org, c.target, c.member)
  {
    if Zero(c.org) || Zero(c.granter) || Zero(c.target) || c.granter == c.target || !InviteRole(c.role)
    then Err("org.role_transition_invalid")
    else Ok(ChangeRole(d, c.role, c.actor, c.member))
  }

  // ---- Exactly who may do what ----------------------------------------------------------------------------------

  /** The invitation table's own constraints. */
  predicate InvitationChecked(v: Invitation) {
    && v.role in {Admin, Member} && v.inviter != v.invitee
    && 0 <= v.created < v.expires <= 253402300799999 && (v.status == Pending <==> v.resolved == None)
    && (v.resolved.Some? ==> v.created <= v.resolved.value <= 253402300799999)
  }

  /** The domain restores exactly the rows the table admits, apart from those with a zero ID. */
  lemma InvitationRows(id: Id, v: Invitation)
    ensures RestoreInvitation(id, v) == Ok(v)
       <==> InvitationChecked(v) && !Zero(id) && !Zero(v.org) && !Zero(v.inviter) && !Zero(v.invitee)
  {
    hide Zero;
  }

  /**
   * The domain takes the organizations and memberships their tables admit, apart from zero
   * IDs and from names with control characters or of spaces only.
   */
  lemma OrganizationRows(id: Id, o: Organization, k: Id, m: Membership)
    ensures ValidOrganization(id, o) <==>
              && 1 <= |o.name| <= 100 && 0 <= o.created <= 253402300799999
              && !Zero(id) && (forall c :: c in o.name ==> c >= ' ' && c as int != 127)
              && exists c :: c in o.name && c != ' '
    ensures ValidMembership(k, m) <==>
              0 <= m.created <= 253402300799999 && !Zero(k) && !Zero(m.org) && !Zero(m.principal)
  {
    hide Zero;
    assert forall i :: 0 <= i < |o.name| ==> o.name[i] in o.name;
  }

  /**
   * A new organization is stored with its owner exactly when both are valid and belong
   * together, neither ID is taken and the owner has no membership in it.
   */
  lemma CreatesExactly(d: Data, id: Id, o: Organization, k: Id, m: Membership)
    ensures var r := CreateOrganization(d, id, o, k, m);
            var valid := ValidOrganization(id, o) && ValidMembership(k, m) && m.org == id && m.role == Owner;
            && (r == Ok((d.(orgs := d.orgs[id := o], members := d.members[k := m]), Created)) <==>
                  valid && id !in d.orgs && k !in d.members && !Belongs(d, id, m.principal))
            && (r == Ok((d, AlreadyThere)) <==> valid && (id in d.orgs || k in d.members))
            && (r.Err? <==> !valid || (id !in d.orgs && k !in d.members && Belongs(d, id, m.principal)))
  {
    hide ValidName, Zero, Belongs;
  }

  /** Who has which role in an organization, as a query found it. */
  predicate Has(d: Data, found: Option<Id>, role: Role) {
    found.Some? && found.value in d.members && d.members[found.value].role == role
  }

  /**
   * An invite's check goes on exactly when the invitation is well formed, its invitee is no
   * member, and the inviter is an owner, or an admin inviting to be a member; otherwise it
   * says which of the three failed.
   */
  lemma ChecksExactly(d: Data, id: Id, v: Invitation, actor: Option<Id>)
    requires Finds(d, v.org, v.inviter, actor)
    ensures var r := CheckInvitation(d, id, v, actor);
            var formed := RestoreInvitation(id, v).Ok?;
            var allowed := Has(d, actor, Owner) || (Has(d, actor, Admin) && v.role == Member);
            && (r == Ok(None) <==> formed && allowed && !Belongs(d, v.org, v.invitee))
            && (r == Err(INVALID_RECORD) <==> !formed)
            && (r == Ok(Some(Unauthorized)) <==> formed && !allowed)
            && (r == Ok(Some(MemberExists)) <==> formed && allowed && Belongs(d, v.org, v.invitee))
  {
    hide Zero, Belongs;
    InvitationRows(id, v);
  }

  /** An invite's insert adds its row exactly when no other pending invitation or row is in its way. */
  lemma InsertsExactly(d: Data, id: Id, v: Invitation)
    ensures var r := InsertInvitation(d, id, v);
            var taken := v.status == Pending && PendingFor(d, v.org, v.invitee);
            && (r == Ok((d.(invitations := d.invitations[id := v]), Invited)) <==> !taken && id !in d.invitations)
            && (r == Ok((d, InvitationExists)) <==> taken)
            && (r == Err(CONFLICT) <==> !taken && id in d.invitations)
  {
    hide PendingFor;
  }

  /**
   * A role changes exactly when the target is a member, is not the owner and has another
   * role, and the actor is an owner, or an admin who does not make admins.
   */
  lemma ChangesExactly(d: Data, role: Role, actor: Option<Id>, target: Option<Id>)
    requires (actor.Some? ==> actor.value in d.members) && (target.Some? ==> target.value in d.members)
    ensures var (after, outcome) := ChangeRole(d, role, actor, target);
            var allowed := Has(d, actor, Owner) || (Has(d, actor, Admin) && role != Admin);
            && (outcome == Changed <==>
                  allowed && target.Some? && !Has(d, target, Owner) && !Has(d, target, role))
            && (outcome == NotPermitted <==> !allowed)
            && (outcome == TargetNotFound <==> allowed && target.None?)
            && (outcome == OwnerTarget <==> allowed && Has(d, target, Owner))
            && (outcome == Unchanged <==> allowed && target.Some? && !Has(d, target, Owner) && Has(d, target, role))
            && after == (if outcome == Changed
                         then d.(members := d.members[target.value := d.members[target.value].(role := role)])
                         else d)
  {
  }

  /** A whole invite goes on, with seven days to accept, exactly under these conditions. */
  lemma InvitesExactly(d: Data, c: Command)
    requires c.Check? && Finds(d, c.org, c.inviter, c.actor)
    ensures ExecuteCheck(d, c).Ok? <==>
              && !Zero(c.org) && !Zero(c.inviter) && !Zero(c.invitee) && !Zero(c.id) && c.inviter != c.invitee
              && c.role in {Admin, Member} && c.eligible && 0 <= c.now && c.now + 604_800_000 <= 253402300799999
              && (Has(d, c.actor, Owner) || (Has(d, c.actor, Admin) && c.role == Member))
              && !Belongs(d, c.org, c.invitee)
    ensures ExecuteCheck(d, c).Ok? ==>
              var v := ExecuteCheck(d, c).value;
              && v.org == c.org && v.inviter == c.inviter && v.invitee == c.invitee && v.role == c.role
              && v.status == Pending && v.created == c.now && v.expires == c.now + 604_800_000 && v.resolved == None
  {
    hide Zero, Belongs;
  }

  /** Which refusal a caller of an invite that does not go on is told, in the order they are found. */
  lemma InviteRefusals(d: Data, c: Command)
    requires c.Check? && Finds(d, c.org, c.inviter, c.actor) && ExecuteCheck(d, c).Err?
    ensures ExecuteCheck(d, c).code
         == if Zero(c.org) || Zero(c.inviter) || Zero(c.invitee) || c.inviter == c.invitee || c.role == Owner
            then "org.membership_invalid_input"
            else if !c.eligible then "org.invitee_ineligible"
            else if c.now < 0 || c.now + 604_800_000 > 253402300799999 then "org.membership_dependency_failed"
            else if Zero(c.id) then "org.invitation_invalid"
            else if !Has(d, c.actor, Owner) && (!Has(d, c.actor, Admin) || c.role == Admin)
            then "org.membership_forbidden"
            else "org.member_exists"
  {
    hide Zero, Belongs;
  }

  /** Which answer an invitee that does not join is given, in the order they are found. */
  lemma AcceptAnswers(d: Data, id: Id, invitee: Id, now: int, membershipId: Id)
    requires id in d.invitations && RestoreInvitation(id, d.invitations[id]).Ok?
    ensures var v, r := d.invitations[id], AcceptInvitation(d, id, invitee, now, membershipId);
            && (r == Ok((d, NotForPrincipal)) <==> v.invitee != invitee)
            && (r == Ok((d, AlreadyAccepted)) <==> v.invitee == invitee && v.status == Accepted)
            && (v.invitee == invitee && v.status == Revoked ==> r == Ok((d, Expired)))
            && (r == Ok((d, AlreadyMember)) <==>
                  && v.invitee == invitee && v.status == Pending && now < v.expires
                  && Belongs(d, v.org, v.invitee))
    ensures forall other :: other !in d.invitations ==>
              AcceptInvitation(d, other, invitee, now, membershipId) == Ok((d, NotFound))
  {
    hide Zero, Belongs;
  }

  /** An organization is founded exactly for an eligible owner, with both records valid and their IDs free. */
  lemma FoundsExactly(d: Data, c: Command)
    requires c.Found?
    ensures ExecuteFound(d, c).Ok? <==>
              && c.eligible && TimeInRange(c.now) && ValidName(c.name)
              && !Zero(c.id) && !Zero(c.membershipId) && !Zero(c.owner)
              && c.id !in d.orgs && c.membershipId !in d.members && !Belongs(d, c.id, c.owner)
    ensures ExecuteFound(d, c).Ok? ==>
              ExecuteFound(d, c).value
              == d.(orgs := d.orgs[c.id := Organization(c.name, c.now)],
                    members := d.members[c.membershipId := Membership(c.id, c.owner, Owner, c.now)])
  {
    hide ValidName, Zero, Belongs;
  }

  /** Which refusal a founder is told before anything is stored, in the order they are found. */
  lemma FoundRefusals(d: Data, c: Command)
    requires c.Found?
    ensures !c.eligible ==> ExecuteFound(d, c) == Err("org.principal_ineligible")
    ensures c.eligible && !(0 <= c.now <= 253402300799999) ==> ExecuteFound(d, c) == Err("org.create_dependency_failed")
    ensures c.eligible && TimeInRange(c.now) && (Zero(c.id) || !ValidName(c.name)) ==>
              ExecuteFound(d, c) == Err("org.organization_invalid")
    ensures c.eligible && TimeInRange(c.now) && !Zero(c.id) && ValidName(c.name) && !Zero(c.membershipId)
            && !Zero(c.owner) && (c.id in d.orgs || c.membershipId in d.members)
            ==> ExecuteFound(d, c) == Err("org.organization_exists")
  {
    hide ValidName, Zero, Belongs;
  }

  /** An acceptance is refused unread exactly for a missing ID, then for a clock out of range. */
  lemma AcceptRefusals(d: Data, c: Command)
    requires c.Accept?
    ensures ExecuteAccept(d, c)
         == if Zero(c.id) || Zero(c.invitee) then Err("org.membership_invalid_input")
            else if !(0 <= c.now <= 253402300799999) then Err("org.membership_dependency_failed")
            else AcceptInvitation(d, c.id, c.invitee, c.now, c.membershipId)
  {
    hide Zero, AcceptInvitation;
  }

  /** An invitation is accepted or revoked only while pending: accepted up to its expiry, revoked also after it. */
  lemma ResolvesExactly(id: Id, v: Invitation, at: int)
    requires RestoreInvitation(id, v).Ok?
    ensures AcceptedAt(id, v, at)
         == if v.status != Pending then Err("org.invitation_state_invalid")
            else if v.created <= at < v.expires then Ok(v.(status := Accepted, resolved := Some(at)))
            else Err("org.invitation_expired")
    ensures RevokedAt(id, v, at)
         == if v.status != Pending then Err("org.invitation_state_invalid")
            else if v.created <= at <= 253402300799999 then Ok(v.(status := Revoked, resolved := Some(at)))
            else Err("org.invitation_invalid")
    ensures RestoreInvitation(id, v.(role := Owner)) == Err("org.role_invalid")
  {
    hide Zero;
  }

  /** A promotion is refused unread exactly for a missing ID, for oneself, or for making an owner. */
  lemma PromotesExactly(d: Data, c: Command)
    requires c.Promote? && Finds(d, c.org, c.granter, c.actor) && Finds(d, c.org, c.target, c.member)
    ensures ExecutePromote(d, c).Err? <==>
              Zero(c.org) || Zero(c.granter) || Zero(c.target) || c.granter == c.target || c.role == Owner
    ensures ExecutePromote(d, c).Ok? ==> ExecutePromote(d, c).value == ChangeRole(d, c.role, c.actor, c.member)
  {
    hide Zero, ChangeRole;
  }

  // ---- Whole runs ----------------------------------------------------------------------------------------------

  /** An act that gives a role: an invitation sent, or a role changed. */
  datatype Act = Act(org: Id, granter: Id, to: Id, role: Role)

  /** The first owner of an organization, and the membership it was given. */
  datatype Founder = Founder(membership: Id, principal: Id)

  datatype Place = Place(org: Id, principal: Id)

  /** An invite between its check and its insert, and how many acceptances its check had behind it. */
  datatype Waiting = Waiting(id: Id, invitation: Invitation, checked: nat)

  /** How many acceptances had committed at an invitation's check and at its insert. */
  datatype Sent = Sent(checked: nat, inserted: nat)

  /**
   * The database, the invites under way, and what has happened: founders, acts that gave a
   * role, acceptances in the order they committed, and when each invitation was sent.
   */
  datatype World = World(
    data: Data, waiting: map<nat, Waiting>, founders: map<Id, Founder>, acts: set<Act>, joins: seq<Place>,
    sent: map<Id, Sent>)

  const START := World(Data(map[], map[], map[]), map[], map[], {}, [], map[])

  /** The queries of a command find what they ask for, and an insert has its check behind it. */
  predicate Ready(w: World, c: Command) {
    match c
    case Check(task, org, inviter, _, _, _, _, _, actor) => task !in w.waiting && Finds(w.data, org, inviter, actor)
    case Insert(task) => task in w.waiting
    case Promote(org, granter, target, _, actor, member) =>
      Finds(w.data, org, granter, actor) && Finds(w.data, org, target, member)
    case _ => true
  }

  function NextFound(w: World, c: Command): World
    requires c.Found?
  {
    var r := ExecuteFound(w.data, c);
    if r.Err? then w
    else w.(data := r.value, founders := w.founders[c.id := Founder(c.membershipId, c.owner)])
  }

  function NextCheck(w: World, c: Command): World
    requires c.Check? && Ready(w, c)
  {
    var r := ExecuteCheck(w.data, c);
    if r.Err? then w else w.(waiting := w.waiting[c.task := Waiting(c.id, r.value, |w.joins|)])
  }

  function NextInsert(w: World, task: nat): World
    requires task in w.waiting
  {
    var landed := w.(waiting := w.waiting - {task});
    var q := w.waiting[task];
    var r := InsertInvitation(w.data, q.id, q.invitation);
    if r.Err? || !r.value.1.Invited? then landed
    else
      var v := q.invitation;
      landed.(data := r.value.0, acts := w.acts + {Act(v.org, v.inviter, v.invitee, v.role)},
              sent := w.sent[q.id := Sent(q.checked, |w.joins|)])
  }

  function NextAccept(w: World, c: Command): World
    requires c.Accept?
  {
    var r := ExecuteAccept(w.data, c);
    if r.Err? then w
    else if r.value.1.Joined? && c.id in w.data.invitations then
      var v := w.data.invitations[c.id];
      w.(data := r.value.0, joins := w.joins + [Place(v.org, v.invitee)])
    else w.(data := r.value.0)
  }

  function NextPromote(w: World, c: Command): World
    requires c.Promote? && Ready(w, c)
  {
    var r := ExecutePromote(w.data, c);
    if r.Ok? && r.value.1.Changed? then
      w.(data := r.value.0, acts := w.acts + {Act(c.org, c.granter, c.target, c.role)})
    else w
  }

  /** A command whose transaction commits; one that is refused changes nothing. */
  function Next(w: World, c: Command): World
    requires Ready(w, c)
  {
    match c
    case Found(_, _, _, _, _, _) => NextFound(w, c)
    case Check(_, _, _, _, _, _, _, _, _) => NextCheck(w, c)
    case Insert(task) => NextInsert(w, task)
    case Accept(_, _, _, _) => NextAccept(w, c)
    case Promote(_, _, _, _, _, _) => NextPromote(w, c)
  }

  /** The world after any interleaving; what is not ready does not happen, nor what is lost with its transaction. */
  function Run(commands: seq<Command>): World {
    if commands == [] then START
    else
      var n := |commands| - 1;
      var before := Run(commands[..n]);
      if Ready(before, commands[n]) then Next(before, commands[n]) else before
  }

  // ---- What every run keeps ---------------------------------------------------------------------------------

  predicate FounderStands(w: World, org: Id) {
    && org in w.founders && w.founders[org].membership in w.data.members
    && var m := w.data.members[w.founders[org].membership];
       m.org == org && m.principal == w.founders[org].principal && m.role.Owner?
  }

  predicate MemberSound(w: World, k: Id) {
    && k in w.data.members
    && var m := w.data.members[k];
       && m.org in w.data.orgs && m.org in w.founders
       && (m.role.Owner? ==> k == w.founders[m.org].membership)
       && (m.role.Admin? ==> Act(m.org, w.founders[m.org].principal, m.principal, Admin) in w.acts)
  }

  predicate JoinedBetween(joins: seq<Place>, from: nat, to: nat, place: Place) {
    from <= to <= |joins| && place in joins[from..to]
  }

  /** An acceptance for the same organization and invitee committed between the invitation's check and its insert. */
  predicate Overtaken(w: World, k: Id)
    requires k in w.data.invitations
  {
    && k in w.sent
    && JoinedBetween(w.joins, w.sent[k].checked, w.sent[k].inserted,
                     Place(w.data.invitations[k].org, w.data.invitations[k].invitee))
  }

  /** An invitation's organization exists, and an admin's is the founder's. */
  predicate Backed(w: World, v: Invitation) {
    v.org in w.data.orgs && v.org in w.founders && (v.role.Admin? ==> v.inviter == w.founders[v.org].principal)
  }

  predicate InvitationSound(w: World, k: Id) {
    && k in w.data.invitations && k in w.sent && w.sent[k].checked <= w.sent[k].inserted <= |w.joins|
    && var v := w.data.invitations[k];
       && RestoreInvitation(k, v).Ok? && Backed(w, v)
       && (v.role.Admin? ==> Act(v.org, v.inviter, v.invitee, Admin) in w.acts)
       && (v.status.Accepted? ==> Belongs(w.data, v.org, v.invitee))
       && (v.status.Pending? ==> (Belongs(w.data, v.org, v.invitee) <==> Overtaken(w, k)))
  }

  /** An invite under way has an invitee that was no member at its check, and is one now only if it joined since. */
  predicate WaitingSound(w: World, t: nat) {
    && t in w.waiting && w.waiting[t].checked <= |w.joins|
    && var v := w.waiting[t].invitation;
       && RestoreInvitation(w.waiting[t].id, v).Ok? && v.status.Pending? && Backed(w, v)
       && (Belongs(w.data, v.org, v.invitee)
           <==> JoinedBetween(w.joins, w.waiting[t].checked, |w.joins|, Place(v.org, v.invitee)))
  }

  predicate OneEach(members: map<Id, Membership>) {
    forall i, j :: i in members && j in members && i != j ==>
      !(members[i].org == members[j].org && members[i].principal == members[j].principal)
  }

  predicate Competing(a: Invitation, b: Invitation) {
    a.org == b.org && a.invitee == b.invitee && a.status.Pending? && b.status.Pending?
  }

  predicate OnePending(invitations: map<Id, Invitation>) {
    forall i, j :: i in invitations && j in invitations && i != j ==> !Competing(invitations[i], invitations[j])
  }

  predicate FoundersStand(w: World) {
    forall o :: o in w.data.orgs ==> FounderStands(w, o)
  }

  predicate MembersSound(w: World) {
    forall k :: k in w.data.members ==> MemberSound(w, k)
  }

  predicate InvitationsSound(w: World) {
    forall k :: k in w.data.invitations ==> InvitationSound(w, k)
  }

  predicate AllWaitingSound(w: World) {
    forall t :: t in w.waiting ==> WaitingSound(w, t)
  }

  predicate Sound(w: World) {
    && FoundersStand(w) && MembersSound(w) && InvitationsSound(w) && AllWaitingSound(w)
    && OneEach(w.data.members) && OnePending(w.data.invitations)
  }

  // ---- What stands when something else changes ------------------------------------------------------------

  /** Founders, organizations and the histories only grow. */
  predicate Grows(w: World, after: World) {
    && (forall o :: o in w.data.orgs ==> o in after.data.orgs)
    && (forall o :: o in w.data.orgs && o in w.founders ==> o in after.founders && after.founders[o] == w.founders[o])
    && (forall k :: k in w.data.invitations && k in w.sent ==> k in after.sent && after.sent[k] == w.sent[k])
    && w.acts <= after.acts
    && w.joins <= after.joins
  }

  predicate SameMembers(w: World, after: World) {
    after.data.members == w.data.members && after.data.orgs == w.data.orgs && after.founders == w.founders
  }

  lemma MembersStand(w: World, after: World)
    requires FoundersStand(w) && MembersSound(w) && SameMembers(w, after) && w.acts <= after.acts
    ensures FoundersStand(after) && MembersSound(after)
  {
    forall o | o in after.data.orgs ensures FounderStands(after, o) { assert FounderStands(w, o); }
    forall k | k in after.data.members ensures MemberSound(after, k) { assert MemberSound(w, k); }
  }

  /** A membership changed or added, other than a founder's, leaves the founders standing. */
  lemma FoundersStay(w: World, after: World, k: Id)
    requires FoundersStand(w) && Grows(w, after) && after.data.orgs == w.data.orgs
    requires k in after.data.members && after.data.members == w.data.members[k := after.data.members[k]]
    requires k in w.data.members ==> !w.data.members[k].role.Owner?
    ensures FoundersStand(after)
  {
    forall o | o in after.data.orgs ensures FounderStands(after, o) { assert FounderStands(w, o); }
  }

  lemma MembersStay(w: World, after: World, k: Id)
    requires MembersSound(w) && Grows(w, after)
    requires k in after.data.members && after.data.members == w.data.members[k := after.data.members[k]]
    requires MemberSound(after, k)
    ensures MembersSound(after)
  {
    forall i | i in after.data.members ensures MemberSound(after, i) {
      if i != k { assert MemberSound(w, i); }
    }
  }

  lemma OneEachMore(d: Data, after: map<Id, Membership>, k: Id)
    requires OneEach(d.members) && k in after && after == d.members[k := after[k]]
    requires if k in d.members then after[k].org == d.members[k].org && after[k].principal == d.members[k].principal
             else !Belongs(d, after[k].org, after[k].principal)
    ensures OneEach(after)
  {
  }

  /** Who joined in a stretch of the history does not depend on what comes later. */
  lemma JoinsStand(joins: seq<Place>, longer: seq<Place>, from: nat, to: nat, place: Place)
    requires from <= to <= |joins| && joins <= longer
    ensures JoinedBetween(longer, from, to, place) <==> JoinedBetween(joins, from, to, place)
  {
    assert longer[from..to] == joins[from..to];
  }

  lemma JoinsMore(joins: seq<Place>, more: Place, from: nat, place: Place)
    requires from <= |joins|
    ensures JoinedBetween(joins + [more], from, |joins| + 1, place)
            <==> JoinedBetween(joins, from, |joins|, place) || more == place
  {
    assert (joins + [more])[from..|joins| + 1] == joins[from..|joins|] + [more];
  }

  lemma InvitationStands(w: World, after: World, k: Id)
    requires InvitationSound(w, k) && k in after.data.invitations && after.data.invitations[k] == w.data.invitations[k]
    requires Grows(w, after)
    requires var v := w.data.invitations[k];
             v.status.Revoked? || (Belongs(after.data, v.org, v.invitee) <==> Belongs(w.data, v.org, v.invitee))
    ensures InvitationSound(after, k)
  {
    hide RestoreInvitation, Belongs, JoinedBetween;
    var v := w.data.invitations[k];
    JoinsStand(w.joins, after.joins, w.sent[k].checked, w.sent[k].inserted, Place(v.org, v.invitee));
  }

  lemma WaitingStands(w: World, after: World, t: nat)
    requires WaitingSound(w, t) && Grows(w, after) && t in after.waiting && after.waiting[t] == w.waiting[t]
    requires var v := w.waiting[t].invitation;
             if after.joins == w.joins then Belongs(after.data, v.org, v.invitee) <==> Belongs(w.data, v.org, v.invitee)
             else
               && |after.joins| == |w.joins| + 1
               && (Belongs(after.data, v.org, v.invitee)
                   <==> Belongs(w.data, v.org, v.invitee) || after.joins[|w.joins|] == Place(v.org, v.invitee))
    ensures WaitingSound(after, t)
  {
    hide RestoreInvitation, Belongs, JoinedBetween;
    var v := w.waiting[t].invitation;
    if after.joins != w.joins {
      assert after.joins == w.joins + [after.joins[|w.joins|]];
      JoinsMore(w.joins, after.joins[|w.joins|], w.waiting[t].checked, Place(v.org, v.invitee));
    }
  }

  /** Invites under way stand when memberships and the history of acceptances do. */
  lemma AllWaitingStand(w: World, after: World)
    requires AllWaitingSound(w) && Grows(w, after) && after.joins == w.joins && after.data.members == w.data.members
    requires forall t :: t in after.waiting ==> t in w.waiting && after.waiting[t] == w.waiting[t]
    ensures AllWaitingSound(after)
  {
    hide Belongs, Grows, WaitingSound;
    forall t | t in after.waiting ensures WaitingSound(after, t) {
      var v := w.waiting[t].invitation;
      SameBelongs(w.data, after.data, v.org, v.invitee);
      WaitingStands(w, after, t);
    }
  }

  /** A step that changes no membership, starts no invite and adds nothing but invitations. */
  predicate SameOutside(w: World, after: World) {
    && Grows(w, after) && SameMembers(w, after) && after.joins == w.joins
    && forall t :: t in after.waiting ==> t in w.waiting && after.waiting[t] == w.waiting[t]
  }

  lemma OnlyInvitations(w: World, after: World)
    requires Sound(w) && SameOutside(w, after) && InvitationsSound(after) && OnePending(after.data.invitations)
    ensures Sound(after)
  {
    assert FoundersStand(after) && MembersSound(after) by {
      hide AllWaitingSound, InvitationsSound, OnePending, OneEach;
      MembersStand(w, after);
    }
    assert AllWaitingSound(after) by {
      hide FoundersStand, MembersSound, InvitationsSound, OnePending, OneEach;
      AllWaitingStand(w, after);
    }
    hide FoundersStand, MembersSound, InvitationsSound, AllWaitingSound, OnePending, OneEach;
  }

  /** One membership added: everyone who belonged still does, and only its principal is new. */
  lemma BelongsGrows(d: Data, after: Data, added: Id, org: Id, principal: Id)
    requires added !in d.members && added in after.members && after.members == d.members[added := after.members[added]]
    ensures Belongs(after, org, principal) <==>
              || Belongs(d, org, principal)
              || (after.members[added].org == org && after.members[added].principal == principal)
  {
    if Belongs(d, org, principal) {
      var k :| k in d.members && d.members[k].org == org && d.members[k].principal == principal;
      assert after.members[k] == d.members[k];
    }
    if after.members[added].org == org && after.members[added].principal == principal {
      assert added in after.members;
    }
  }

  lemma SameBelongs(d: Data, after: Data, org: Id, principal: Id)
    requires after.members == d.members
    ensures Belongs(after, org, principal) <==> Belongs(d, org, principal)
  {
  }

  // ---- Founding ---------------------------------------------------------------------------------------------

  lemma FoundDid(w: World, c: Command)
    requires c.Found? && ExecuteFound(w.data, c).Ok?
    ensures c.id !in w.data.orgs && c.membershipId !in w.data.members && !Belongs(w.data, c.id, c.owner)
    ensures Next(w, c) == w.(
              data := w.data.(orgs := w.data.orgs[c.id := Organization(c.name, c.now)],
                              members := w.data.members[c.membershipId := Membership(c.id, c.owner, Owner, c.now)]),
              founders := w.founders[c.id := Founder(c.membershipId, c.owner)])
  {
    hide ValidName, Zero, Belongs;
  }

  lemma FoundFounders(w: World, c: Command)
    requires FoundersStand(w) && c.Found? && ExecuteFound(w.data, c).Ok?
    ensures FoundersStand(Next(w, c))
  {
    FoundDid(w, c);
    hide ExecuteFound, Next;
    var after := Next(w, c);
    forall o | o in after.data.orgs ensures FounderStands(after, o) {
      if o != c.id { assert FounderStands(w, o); }
    }
  }

  lemma FoundInvitations(w: World, after: World, org: Id, added: Id)
    requires InvitationsSound(w) && AllWaitingSound(w) && Grows(w, after)
    requires after.waiting == w.waiting && after.joins == w.joins && after.data.invitations == w.data.invitations
    requires org !in w.data.orgs && added !in w.data.members && added in after.data.members
    requires after.data.members == w.data.members[added := after.data.members[added]]
    requires after.data.members[added].org == org
    ensures InvitationsSound(after) && AllWaitingSound(after)
  {
    hide Belongs, Grows, RestoreInvitation, Overtaken;
    forall k | k in after.data.invitations ensures InvitationSound(after, k) {
      assert InvitationSound(w, k);
      var v := w.data.invitations[k];
      BelongsGrows(w.data, after.data, added, v.org, v.invitee);
      InvitationStands(w, after, k);
    }
    forall t | t in after.waiting ensures WaitingSound(after, t) {
      assert WaitingSound(w, t);
      var v := w.waiting[t].invitation;
      BelongsGrows(w.data, after.data, added, v.org, v.invitee);
      WaitingStands(w, after, t);
    }
  }

  lemma FoundMembers(w: World, c: Command)
    requires Sound(w) && c.Found? && ExecuteFound(w.data, c).Ok?
    ensures MembersSound(Next(w, c)) && OneEach(Next(w, c).data.members)
  {
    FoundDid(w, c);
    hide ExecuteFound, Next, Belongs, InvitationsSound, AllWaitingSound, OnePending;
    MembersStay(w, Next(w, c), c.membershipId);
    OneEachMore(w.data, Next(w, c).data.members, c.membershipId);
  }

  lemma FoundOthers(w: World, c: Command)
    requires Sound(w) && c.Found? && ExecuteFound(w.data, c).Ok?
    ensures InvitationsSound(Next(w, c)) && AllWaitingSound(Next(w, c)) && OnePending(Next(w, c).data.invitations)
  {
    FoundDid(w, c);
    hide ExecuteFound, Next, Belongs, FoundersStand, MembersSound, OneEach, OnePending, InvitationsSound,
      AllWaitingSound;
    FoundInvitations(w, Next(w, c), c.id, c.membershipId);
  }

  lemma FoundKeeps(w: World, c: Command)
    requires Sound(w) && c.Found? && ExecuteFound(w.data, c).Ok?
    ensures Sound(Next(w, c))
  {
    FoundFounders(w, c);
    FoundMembers(w, c);
    FoundOthers(w, c);
    hide ExecuteFound, Next, FoundersStand, MembersSound, OneEach, OnePending, InvitationsSound, AllWaitingSound;
  }

  // ---- Inviting ----------------------------------------------------------------------------------------------

  /** The role a query found is backed by the run: whoever may make admins is the founder. */
  lemma GranterIsFounder(w: World, org: Id, granter: Id, actor: Option<Id>)
    requires Sound(w) && Finds(w.data, org, granter, actor) && MayGrant(FoundRole(w.data, actor), Admin)
    ensures org in w.founders && granter == w.founders[org].principal
  {
    hide RestoreInvitation;
    assert MemberSound(w, actor.value);
    assert FounderStands(w, org);
  }

  lemma CheckDid(w: World, c: Command)
    requires c.Check? && Ready(w, c) && ExecuteCheck(w.data, c).Ok?
    ensures var v := NewInvitation(c.org, c.inviter, c.invitee, c.role, c.now);
            && RestoreInvitation(c.id, v).Ok? && MayGrant(FoundRole(w.data, c.actor), c.role)
            && !Belongs(w.data, c.org, c.invitee)
            && Next(w, c) == w.(waiting := w.waiting[c.task := Waiting(c.id, v, |w.joins|)])
  {
    hide Zero, Belongs, MayGrant;
  }

  lemma CheckKeeps(w: World, c: Command)
    requires Sound(w) && Ready(w, c) && c.Check? && ExecuteCheck(w.data, c).Ok?
    ensures Sound(Next(w, c))
  {
    CheckDid(w, c);
    hide ExecuteCheck, Next, RestoreInvitation, Belongs;
    var after := Next(w, c);
    MembersStand(w, after);
    assert MemberSound(w, c.actor.value);
    if c.role.Admin? { GranterIsFounder(w, c.org, c.inviter, c.actor); }
    hide FoundersStand, MembersSound, OneEach, OnePending, InvitationSound, WaitingSound;
    CheckWaits(w, after, c.task);
    InvitationsStand(w, after);
  }

  /** Nothing about invitations changes while the database and the histories stay. */
  lemma InvitationsStand(w: World, after: World)
    requires InvitationsSound(w) && after.data == w.data && after.founders == w.founders && after.acts == w.acts
    requires after.joins == w.joins && after.sent == w.sent
    ensures InvitationsSound(after)
  {
    forall k | k in after.data.invitations ensures InvitationSound(after, k) { assert InvitationSound(w, k); }
  }

  lemma CheckWaits(w: World, after: World, task: nat)
    requires AllWaitingSound(w) && task in after.waiting
    requires after == w.(waiting := w.waiting[task := after.waiting[task]])
    requires var q := after.waiting[task];
             && RestoreInvitation(q.id, q.invitation).Ok? && q.invitation.status.Pending? && Backed(w, q.invitation)
             && !Belongs(w.data, q.invitation.org, q.invitation.invitee) && q.checked == |w.joins|
    ensures AllWaitingSound(after)
  {
    hide Belongs, RestoreInvitation;
    forall t | t in after.waiting ensures WaitingSound(after, t) {
      if t != task { assert WaitingSound(w, t); }
    }
  }

  lemma InsertDid(w: World, task: nat)
    requires task in w.waiting
    ensures var q := w.waiting[task];
            var v := q.invitation;
            var landed := w.(waiting := w.waiting - {task});
            || Next(w, Insert(task)) == landed
            || ((v.status.Pending? ==> !PendingFor(w.data, v.org, v.invitee)) && q.id !in w.data.invitations
                && Next(w, Insert(task)) == landed.(
                     data := w.data.(invitations := w.data.invitations[q.id := v]),
                     acts := w.acts + {Act(v.org, v.inviter, v.invitee, v.role)},
                     sent := w.sent[q.id := Sent(q.checked, |w.joins|)]))
  {
    hide PendingFor;
  }

  lemma InsertInvitations(w: World, after: World, q: Waiting)
    requires InvitationsSound(w) && q.checked <= |w.joins| && q.id !in w.data.invitations
    requires var v := q.invitation;
             && RestoreInvitation(q.id, v).Ok? && v.status.Pending? && Backed(w, v)
             && (Belongs(w.data, v.org, v.invitee)
                 <==> JoinedBetween(w.joins, q.checked, |w.joins|, Place(v.org, v.invitee)))
             && after == w.(
                  waiting := after.waiting,
                  data := w.data.(invitations := w.data.invitations[q.id := v]),
                  acts := w.acts + {Act(v.org, v.inviter, v.invitee, v.role)},
                  sent := w.sent[q.id := Sent(q.checked, |w.joins|)])
    ensures InvitationsSound(after)
  {
    hide RestoreInvitation, Belongs, JoinedBetween, InvitationSound;
    SameBelongs(w.data, after.data, q.invitation.org, q.invitation.invitee);
    assert InvitationSound(after, q.id) by { InsertedSound(w, after, q); }
    forall k | k in w.data.invitations ensures InvitationSound(after, k) {
      assert InvitationSound(w, k);
      SameBelongs(w.data, after.data, w.data.invitations[k].org, w.data.invitations[k].invitee);
      InvitationStands(w, after, k);
    }
  }

  lemma InsertedSound(w: World, after: World, q: Waiting)
    requires q.id in after.data.invitations && after.data.invitations[q.id] == q.invitation
    requires q.id in after.sent && after.sent[q.id] == Sent(q.checked, |w.joins|) && after.joins == w.joins
    requires q.checked <= |w.joins| && Backed(after, q.invitation)
    requires var v := q.invitation;
             && RestoreInvitation(q.id, v).Ok? && v.status.Pending?
             && Act(v.org, v.inviter, v.invitee, v.role) in after.acts
             && (Belongs(after.data, v.org, v.invitee)
                 <==> JoinedBetween(w.joins, q.checked, |w.joins|, Place(v.org, v.invitee)))
    ensures InvitationSound(after, q.id)
  {
    hide RestoreInvitation, Belongs, JoinedBetween;
  }

  lemma InsertRows(w: World, task: nat)
    requires Sound(w) && task in w.waiting
    ensures InvitationsSound(Next(w, Insert(task))) && OnePending(Next(w, Insert(task)).data.invitations)
  {
    InsertDid(w, task);
    hide Next, RestoreInvitation, Belongs, PendingFor, JoinedBetween, FoundersStand, MembersSound, OneEach, MayGrant;
    var after := Next(w, Insert(task));
    assert WaitingSound(w, task);
    hide AllWaitingSound;
    if after.data == w.data {
      InvitationsStand(w, after);
    } else {
      var q := w.waiting[task];
      OnePendingMore(w.data, q.id, q.invitation);
      hide OnePending, InvitationsSound;
      InsertInvitations(w, after, q);
    }
  }

  lemma InsertOutside(w: World, task: nat)
    requires task in w.waiting
    ensures SameOutside(w, Next(w, Insert(task)))
  {
    InsertDid(w, task);
    hide Next, PendingFor;
  }

  lemma InsertKeeps(w: World, task: nat)
    requires Sound(w) && task in w.waiting
    ensures Sound(Next(w, Insert(task)))
  {
    InsertRows(w, task);
    InsertOutside(w, task);
    hide Next, Sound, InvitationsSound, OnePending, SameOutside;
    OnlyInvitations(w, Next(w, Insert(task)));
  }

  lemma OnePendingMore(d: Data, id: Id, v: Invitation)
    requires OnePending(d.invitations) && id !in d.invitations
    requires v.status.Pending? ==> !PendingFor(d, v.org, v.invitee)
    ensures OnePending(d.invitations[id := v])
  {
  }

  /** A pending invitation resolved competes with none. */
  lemma OnePendingFewer(d: Data, id: Id, v: Invitation)
    requires OnePending(d.invitations) && id in d.invitations && !v.status.Pending?
    ensures OnePending(d.invitations[id := v])
  {
  }

  // ---- Accepting ----------------------------------------------------------------------------------------------

  /** The command joins its caller to the organization of the invitation. */
  predicate Joins(w: World, c: Command) {
    c.Accept? && ExecuteAccept(w.data, c).Ok? && ExecuteAccept(w.data, c).value.1.Joined?
  }

  lemma JoinDid(w: World, c: Command)
    requires Joins(w, c)
    ensures c.id in w.data.invitations && c.membershipId !in w.data.members
    ensures var v := w.data.invitations[c.id];
            && v.status.Pending? && !v.role.Owner? && v.invitee == c.invitee && v.created <= c.now < v.expires
            && !Belongs(w.data, v.org, v.invitee)
            && RestoreInvitation(c.id, v.(status := Accepted, resolved := Some(c.now))).Ok?
            && Next(w, c) == w.(
                 data := w.data.(
                   members := w.data.members[c.membershipId := Membership(v.org, v.invitee, v.role, c.now)],
                   invitations := w.data.invitations[c.id := v.(status := Accepted, resolved := Some(c.now))]),
                 joins := w.joins + [Place(v.org, v.invitee)])
  {
    hide Zero, Belongs;
  }

  lemma JoinMembers(w: World, c: Command)
    requires Sound(w) && Joins(w, c)
    ensures FoundersStand(Next(w, c)) && MembersSound(Next(w, c))
    ensures OneEach(Next(w, c).data.members) && OnePending(Next(w, c).data.invitations)
  {
    JoinDid(w, c);
    hide Joins, Next, RestoreInvitation, Belongs, Zero;
    var after := Next(w, c);
    assert InvitationSound(w, c.id);
    FoundersStay(w, after, c.membershipId);
    MembersStay(w, after, c.membershipId);
    OneEachMore(w.data, after.data.members, c.membershipId);
    OnePendingFewer(w.data, c.id, after.data.invitations[c.id]);
    hide FoundersStand, MembersSound, OneEach, OnePending;
  }

  /** One membership more in the database, at the place the history of acceptances gained. */
  predicate Adds(w: World, after: World, added: Id, place: Place) {
    && added !in w.data.members && added in after.data.members
    && after.data.members == w.data.members[added := after.data.members[added]]
    && after.data.members[added].org == place.org && after.data.members[added].principal == place.principal
    && after.joins == w.joins + [place]
  }

  lemma JoinInvitations(w: World, after: World, added: Id, id: Id, at: int)
    requires InvitationsSound(w) && OnePending(w.data.invitations) && Grows(w, after)
    requires id in w.data.invitations && w.data.invitations[id].status.Pending?
    requires var accepted := w.data.invitations[id].(status := Accepted, resolved := Some(at));
             RestoreInvitation(id, accepted).Ok? && after.data.invitations == w.data.invitations[id := accepted]
    requires Adds(w, after, added, Place(w.data.invitations[id].org, w.data.invitations[id].invitee))
    ensures InvitationsSound(after)
  {
    hide Belongs, RestoreInvitation, Zero, OnePending;
    forall k | k in after.data.invitations ensures InvitationSound(after, k) {
      assert InvitationSound(w, k);
      JoinBelongs(w, after, added, id, k);
      if k != id { InvitationStands(w, after, k); }
    }
  }

  lemma JoinWaits(w: World, after: World, added: Id, place: Place)
    requires AllWaitingSound(w) && Grows(w, after) && after.waiting == w.waiting && Adds(w, after, added, place)
    ensures AllWaitingSound(after)
  {
    hide Belongs, Grows;
    forall t | t in after.waiting ensures WaitingSound(after, t) {
      assert WaitingSound(w, t);
      var v := w.waiting[t].invitation;
      BelongsGrows(w.data, after.data, added, v.org, v.invitee);
      hide WaitingSound;
      WaitingStands(w, after, t);
    }
  }

  lemma JoinAdds(w: World, c: Command)
    requires Joins(w, c)
    ensures c.id in w.data.invitations && Grows(w, Next(w, c)) && Next(w, c).waiting == w.waiting
    ensures var v := w.data.invitations[c.id];
            Adds(w, Next(w, c), c.membershipId, Place(v.org, v.invitee))
  {
    JoinDid(w, c);
    hide Joins, Next, RestoreInvitation, Belongs, Zero;
  }

  lemma JoinOthers(w: World, c: Command)
    requires Sound(w) && Joins(w, c)
    ensures InvitationsSound(Next(w, c)) && AllWaitingSound(Next(w, c))
  {
    JoinDid(w, c);
    JoinAdds(w, c);
    hide Joins, Next, RestoreInvitation, Belongs, Zero, FoundersStand, MembersSound, OneEach, OnePending,
      InvitationsSound, AllWaitingSound, Grows, Adds;
    var v := w.data.invitations[c.id];
    JoinInvitations(w, Next(w, c), c.membershipId, c.id, c.now);
    JoinWaits(w, Next(w, c), c.membershipId, Place(v.org, v.invitee));
  }

  lemma JoinKeeps(w: World, c: Command)
    requires Sound(w) && Joins(w, c)
    ensures Sound(Next(w, c))
  {
    JoinMembers(w, c);
    JoinOthers(w, c);
    hide Joins, Next, FoundersStand, MembersSound, OneEach, OnePending, InvitationsSound, AllWaitingSound;
  }

  /** By joining, only the invitee comes to belong; no other pending invitation is for it. */
  lemma JoinBelongs(w: World, after: World, added: Id, id: Id, k: Id)
    requires OnePending(w.data.invitations) && id in w.data.invitations && k in w.data.invitations
    requires w.data.invitations[id].status.Pending? && InvitationSound(w, k)
    requires Adds(w, after, added, Place(w.data.invitations[id].org, w.data.invitations[id].invitee))
    ensures var v := w.data.invitations[k];
            && (k == id ==> Belongs(after.data, v.org, v.invitee))
            && (k != id && !v.status.Revoked? ==>
                  (Belongs(after.data, v.org, v.invitee) <==> Belongs(w.data, v.org, v.invitee)))
  {
    hide RestoreInvitation, Belongs;
    var v := w.data.invitations[k];
    BelongsGrows(w.data, after.data, added, v.org, v.invitee);
    if k != id && v.status.Pending? { assert !Competing(v, w.data.invitations[id]); }
  }

  /** An acceptance that does not join leaves everything, or revokes an invitation past its expiry. */
  lemma ExpireDid(w: World, c: Command)
    requires c.Accept? && !Joins(w, c)
    ensures || Next(w, c) == w
            || (c.id in w.data.invitations && w.data.invitations[c.id].status.Pending?
                && var revoked := w.data.invitations[c.id].(status := Revoked, resolved := Some(c.now));
                   && RestoreInvitation(c.id, revoked).Ok?
                   && Next(w, c) == w.(data := w.data.(invitations := w.data.invitations[c.id := revoked])))
  {
    hide Zero, Belongs;
  }

  lemma ExpireInvitations(w: World, after: World, id: Id, at: int)
    requires InvitationsSound(w) && id in w.data.invitations
    requires var revoked := w.data.invitations[id].(status := Revoked, resolved := Some(at));
             && RestoreInvitation(id, revoked).Ok?
             && after == w.(data := w.data.(invitations := w.data.invitations[id := revoked]))
    ensures InvitationsSound(after)
  {
    hide RestoreInvitation, Belongs, JoinedBetween;
    assert InvitationSound(w, id);
    forall k | k in after.data.invitations ensures InvitationSound(after, k) {
      assert InvitationSound(w, k);
      SameBelongs(w.data, after.data, w.data.invitations[k].org, w.data.invitations[k].invitee);
      if k != id { InvitationStands(w, after, k); }
    }
  }

  lemma ExpireRows(w: World, c: Command)
    requires Sound(w) && c.Accept? && !Joins(w, c)
    ensures InvitationsSound(Next(w, c)) && OnePending(Next(w, c).data.invitations)
  {
    ExpireDid(w, c);
    hide Next, Joins, RestoreInvitation, FoundersStand, MembersSound, AllWaitingSound, OneEach, InvitationsSound;
    var after := Next(w, c);
    if after != w {
      OnePendingFewer(w.data, c.id, after.data.invitations[c.id]);
      hide OnePending;
      ExpireInvitations(w, after, c.id, c.now);
    }
  }

  lemma ExpireOutside(w: World, c: Command)
    requires c.Accept? && !Joins(w, c)
    ensures SameOutside(w, Next(w, c))
  {
    ExpireDid(w, c);
    hide Next, Joins, RestoreInvitation;
  }

  lemma ExpireKeeps(w: World, c: Command)
    requires Sound(w) && c.Accept? && !Joins(w, c)
    ensures Sound(Next(w, c))
  {
    ExpireRows(w, c);
    ExpireOutside(w, c);
    hide Next, Joins, Sound, InvitationsSound, OnePending, SameOutside;
    OnlyInvitations(w, Next(w, c));
  }

  // ---- Promoting ----------------------------------------------------------------------------------------------

  lemma PromoteDid(w: World, c: Command)
    requires c.Promote? && Ready(w, c) && Next(w, c) != w
    ensures c.member.Some? && c.member.value in w.data.members
    ensures var m := w.data.members[c.member.value];
            && m.org == c.org && m.principal == c.target && !m.role.Owner? && !c.role.Owner?
            && MayGrant(FoundRole(w.data, c.actor), c.role)
            && Next(w, c) == w.(data := w.data.(members := w.data.members[c.member.value := m.(role := c.role)]),
                                acts := w.acts + {Act(c.org, c.granter, c.target, c.role)})
  {
    hide Zero;
  }

  /** A role changed in place moves nobody in or out. */
  lemma BelongsAsBefore(d: Data, after: Data, t: Id, role: Role, org: Id, principal: Id)
    requires t in d.members && after.members == d.members[t := d.members[t].(role := role)]
    ensures Belongs(after, org, principal) <==> Belongs(d, org, principal)
  {
    assert after.members.Keys == d.members.Keys;
    assert forall k :: k in d.members ==>
      after.members[k].org == d.members[k].org && after.members[k].principal == d.members[k].principal;
    if Belongs(d, org, principal) {
      var k :| k in d.members && d.members[k].org == org && d.members[k].principal == principal;
      assert k in after.members && after.members[k].org == org;
    }
  }

  lemma PromoteMembers(w: World, c: Command)
    requires Sound(w) && Ready(w, c) && c.Promote? && Next(w, c) != w
    ensures FoundersStand(Next(w, c)) && MembersSound(Next(w, c)) && OneEach(Next(w, c).data.members)
  {
    PromoteDid(w, c);
    hide Next, InvitationSound, WaitingSound, Belongs, OnePending, Zero;
    var after := Next(w, c);
    var t := c.member.value;
    assert MemberSound(w, t);
    if c.role.Admin? { GranterIsFounder(w, c.org, c.granter, c.actor); }
    FoundersStay(w, after, t);
    MembersStay(w, after, t);
    OneEachMore(w.data, after.data.members, t);
    hide FoundersStand, MembersSound, OneEach;
  }

  lemma RoleMovesNobody(w: World, after: World, t: Id, role: Role)
    requires InvitationsSound(w) && AllWaitingSound(w) && Grows(w, after)
    requires after.data.invitations == w.data.invitations && after.waiting == w.waiting && after.joins == w.joins
    requires t in w.data.members && after.data.members == w.data.members[t := w.data.members[t].(role := role)]
    ensures InvitationsSound(after) && AllWaitingSound(after)
  {
    hide Belongs, Grows, InvitationSound, WaitingSound, RestoreInvitation, Zero;
    forall k | k in after.data.invitations ensures InvitationSound(after, k) {
      assert InvitationSound(w, k);
      BelongsAsBefore(w.data, after.data, t, role, w.data.invitations[k].org, w.data.invitations[k].invitee);
      InvitationStands(w, after, k);
    }
    forall q | q in after.waiting ensures WaitingSound(after, q) {
      var v := w.waiting[q].invitation;
      BelongsAsBefore(w.data, after.data, t, role, v.org, v.invitee);
      WaitingStands(w, after, q);
    }
  }

  lemma PromoteOthers(w: World, c: Command)
    requires Sound(w) && Ready(w, c) && c.Promote? && Next(w, c) != w
    ensures InvitationsSound(Next(w, c)) && AllWaitingSound(Next(w, c)) && OnePending(Next(w, c).data.invitations)
  {
    PromoteDid(w, c);
    hide Next, Ready, RestoreInvitation, Belongs, Zero, FoundersStand, MembersSound, OneEach, OnePending,
      InvitationsSound, AllWaitingSound;
    RoleMovesNobody(w, Next(w, c), c.member.value, c.role);
  }

  lemma PromoteKeeps(w: World, c: Command)
    requires Sound(w) && Ready(w, c) && c.Promote? && Next(w, c) != w
    ensures Sound(Next(w, c))
  {
    PromoteMembers(w, c);
    PromoteOthers(w, c);
    hide Next, Ready, FoundersStand, MembersSound, OneEach, OnePending, InvitationsSound, AllWaitingSound;
  }

  // ---- Every run -------------------------------------------------------------------------------------------------

  lemma StepKeeps(w: World, c: Command)
    requires Sound(w) && Ready(w, c)
    ensures Sound(Next(w, c))
  {
    hide Sound, Ready, ExecuteFound, ExecuteCheck, ExecuteAccept, ExecutePromote, Joins;
    match c
    case Found(_, _, _, _, _, _) =>
      if ExecuteFound(w.data, c).Ok? { FoundKeeps(w, c); }
    case Check(_, _, _, _, _, _, _, _, _) =>
      CheckReady(w, c);
      if ExecuteCheck(w.data, c).Ok? { CheckKeeps(w, c); }
    case Insert(task) => InsertReady(w, task); InsertKeeps(w, task);
    case Accept(_, _, _, _) =>
      if Joins(w, c) { JoinKeeps(w, c); } else { ExpireKeeps(w, c); }
    case Promote(_, _, _, _, _, _) =>
      if Next(w, c) != w { PromoteKeeps(w, c); }
  }

  lemma CheckReady(w: World, c: Command)
    requires c.Check? && Ready(w, c)
    ensures Finds(w.data, c.org, c.inviter, c.actor)
  {
  }

  lemma InsertReady(w: World, task: nat)
    requires Ready(w, Insert(task))
    ensures task in w.waiting
  {
  }

  lemma {:induction false} RunSound(commands: seq<Command>)
    ensures Sound(Run(commands))
  {
    if commands != [] {
      hide Sound, Ready, Next;
      var n := |commands| - 1;
      RunSound(commands[..n]);
      var w := Run(commands[..n]);
      if Ready(w, commands[n]) { StepKeeps(w, commands[n]); }
    }
  }

  lemma RunOne(commands: seq<Command>, c: Command)
    ensures var w := Run(commands);
            Run(commands + [c]) == if Ready(w, c) then Next(w, c) else w
  {
    assert (commands + [c])[..|commands|] == commands;
  }

  // ---- Ownership -------------------------------------------------------------------------------------------------

  /** Once founded, an organization keeps its founder through any further commands. */
  lemma {:induction false} FounderForever(commands: seq<Command>, n: nat, org: Id)
    requires n <= |commands| && org in Run(commands[..n]).data.orgs
    ensures org in Run(commands).data.orgs && org in Run(commands).founders && org in Run(commands[..n]).founders
    ensures Run(commands).founders[org] == Run(commands[..n]).founders[org]
    decreases |commands|
  {
    RunSound(commands[..n]);
    assert FounderStands(Run(commands[..n]), org);
    if n < |commands| {
      var m := |commands| - 1;
      assert commands[..m][..n] == commands[..n];
      FounderForever(commands[..m], n, org);
      StepFounder(Run(commands[..m]), commands[m], org);
      hide Run, Next;
      assert commands[..m] + [commands[m]] == commands;
      RunOne(commands[..m], commands[m]);
    } else {
      assert commands[..n] == commands;
    }
  }

  lemma StepFounder(w: World, c: Command, org: Id)
    requires org in w.data.orgs && org in w.founders
    ensures Ready(w, c) ==>
              && org in Next(w, c).data.orgs && org in Next(w, c).founders
              && Next(w, c).founders[org] == w.founders[org]
  {
    hide Zero, ValidName, Belongs, PendingFor;
  }

  /**
   * In every run each organization has exactly one owner: the founder, who never changes
   * while commands go on.
   */
  lemma OneOwner(commands: seq<Command>, n: nat, org: Id, k: Id)
    requires n <= |commands| && org in Run(commands[..n]).data.orgs
    ensures var w := Run(commands);
            && org in w.data.orgs && org in w.founders && org in Run(commands[..n]).founders
            && FounderStands(w, org)
            && w.founders[org] == Run(commands[..n]).founders[org]
            && (k in w.data.members && w.data.members[k].org == org && w.data.members[k].role.Owner?
                ==> k == w.founders[org].membership)
  {
    FounderForever(commands, n, org);
    RunSound(commands);
    var w := Run(commands);
    assert FounderStands(w, org);
    if k in w.data.members { assert MemberSound(w, k); }
    hide Run;
  }

  /** Every admin was made one by the owner: by an invitation it sent, or a role it changed. */
  lemma AdminsFromOwner(commands: seq<Command>, k: Id)
    requires k in Run(commands).data.members && Run(commands).data.members[k].role.Admin?
    ensures var w := Run(commands);
            var m := w.data.members[k];
            m.org in w.founders && Act(m.org, w.founders[m.org].principal, m.principal, Admin) in w.acts
  {
    RunSound(commands);
    assert MemberSound(Run(commands), k);
    hide Run;
  }

  // ---- Membership and invitations ----------------------------------------------------------------------------------

  /**
   * In every run a principal has at most one membership and at most one pending invitation
   * in an organization; an accepted invitation has its membership; and a pending one is for
   * a member exactly when an acceptance overtook it between its check and its insert.
   */
  lemma Tidy(commands: seq<Command>, i: Id, j: Id, v: Id)
    ensures var w := Run(commands);
            var d := w.data;
            && (i in d.members && j in d.members && i != j ==>
                  !(d.members[i].org == d.members[j].org && d.members[i].principal == d.members[j].principal))
            && (i in d.invitations && j in d.invitations && i != j ==> !Competing(d.invitations[i], d.invitations[j]))
            && (v in d.invitations ==>
                  var x := d.invitations[v];
                  && RestoreInvitation(v, x).Ok?
                  && (x.status.Accepted? ==> Belongs(d, x.org, x.invitee))
                  && (x.status.Pending? ==> (Belongs(d, x.org, x.invitee) <==> Overtaken(w, v))))
  {
    RunSound(commands);
    var w := Run(commands);
    if v in w.data.invitations { assert InvitationSound(w, v); }
    hide Run, RestoreInvitation, Belongs, Competing, FounderStands, MemberSound, WaitingSound, Overtaken;
  }

  /**
   * In a run, accepting an invitation succeeds exactly when it is the caller's, pending, not
   * overtaken, and the time is from its creation up to its expiry; an overtaken one answers
   * that the caller is a member. Past expiry it is revoked, and before its creation nothing
   * happens, except that an overtaken one still answers.
   */
  lemma AcceptExactly(commands: seq<Command>, id: Id, invitee: Id, now: int, membershipId: Id)
    requires var d := Run(commands).data;
             id in d.invitations && TimeInRange(now) && membershipId !in d.members && !Zero(membershipId)
    ensures var w := Run(commands);
            var d := w.data;
            var v := d.invitations[id];
            var r := AcceptInvitation(d, id, invitee, now, membershipId);
            var mine := v.invitee == invitee && v.status.Pending?;
            && (r.Ok? && r.value.1.Joined? <==> mine && v.created <= now < v.expires && !Overtaken(w, id))
            && (r.Ok? && r.value.1.Joined? ==>
                  && !Belongs(d, v.org, v.invitee)
                  && r.value.0 == d.(
                       members := d.members[membershipId := Membership(v.org, invitee, v.role, now)],
                       invitations := d.invitations[id := v.(status := Accepted, resolved := Some(now))]))
            && (mine && now < v.expires && Overtaken(w, id) ==> r == Ok((d, AlreadyMember)))
            && (mine && now >= v.expires ==>
                  r.Ok? && r.value.1.Expired? && r.value.0.invitations[id].status.Revoked?)
            && (mine && now < v.created && !Overtaken(w, id) ==> r == Err(INVALID_RECORD))
  {
    RunSound(commands);
    var w := Run(commands);
    assert InvitationSound(w, id);
    hide Run, Sound, Belongs, Zero, Overtaken;
  }

  // ---- How an invitation is overtaken -------------------------------------------------------------------------------

  /**
   * From any run with an invite under way for somebody who has a pending invitation: once
   * that one is accepted, the insert leaves a pending invitation for a member, which can
   * only be answered by saying so.
   */
  lemma OvertakenShows(commands: seq<Command>, task: nat, p: Id, now: int, membershipId: Id, later: int, other: Id)
    requires var w := Run(commands);
             && task in w.waiting && w.waiting[task].id !in w.data.invitations
             && p in w.data.invitations && membershipId !in w.data.members && !Zero(membershipId) && TimeInRange(now)
             && var v, q := w.data.invitations[p], w.waiting[task].invitation;
                && v.org == q.org && v.invitee == q.invitee && v.status.Pending? && v.created <= now < v.expires
                && !Belongs(w.data, v.org, v.invitee) && later < q.expires
    ensures var w := Run(commands);
            var k, q := w.waiting[task].id, w.waiting[task].invitation;
            var after := Run(commands + [Accept(p, q.invitee, now, membershipId)] + [Insert(task)]);
            && k in after.data.invitations && after.data.invitations[k] == q && q.status.Pending?
            && Overtaken(after, k) && Belongs(after.data, q.org, q.invitee)
            && AcceptInvitation(after.data, k, q.invitee, later, other) == Ok((after.data, AlreadyMember))
  {
    hide Run, Sound, Joins, Next, Belongs, RestoreInvitation, Zero, AcceptInvitation, Overtaken;
    var w := Run(commands);
    var accept := Accept(p, w.waiting[task].invitation.invitee, now, membershipId);
    PendingJoins(commands, p, now, membershipId);
    RunOne(commands, accept);
    RunOne(commands + [accept], Insert(task));
    RunSound(commands);
    InsertsAfterJoin(w, accept, task);
    SentIsOvertaken(commands + [accept] + [Insert(task)], w.waiting[task].id);
  }

  /** A pending invitation in time, for somebody who is no member, can be accepted. */
  lemma PendingJoins(commands: seq<Command>, p: Id, now: int, membershipId: Id)
    requires var w := Run(commands);
             && p in w.data.invitations && membershipId !in w.data.members && !Zero(membershipId) && TimeInRange(now)
             && var v := w.data.invitations[p];
                v.status.Pending? && v.created <= now < v.expires && !Belongs(w.data, v.org, v.invitee)
    ensures var w := Run(commands);
            && Joins(w, Accept(p, w.data.invitations[p].invitee, now, membershipId))
            && !Overtaken(w, p)
  {
    var w := Run(commands);
    RunSound(commands);
    assert InvitationSound(w, p);
    AcceptExactly(commands, p, w.data.invitations[p].invitee, now, membershipId);
    hide Run, Sound, Belongs, Overtaken, AcceptInvitation;
  }

  lemma InsertsAfterJoin(w: World, c: Command, task: nat)
    requires Sound(w) && Joins(w, c) && task in w.waiting && w.waiting[task].id !in w.data.invitations
    requires c.id in w.data.invitations && w.data.invitations[c.id].status.Pending?
    requires w.waiting[task].invitation.org == w.data.invitations[c.id].org
          && w.waiting[task].invitation.invitee == w.data.invitations[c.id].invitee
    ensures var after := Next(w, c);
            && task in after.waiting
            && var k := w.waiting[task].id;
               var last := Next(after, Insert(task));
               && k in last.data.invitations && last.data.invitations[k] == w.waiting[task].invitation
               && last.data.invitations[k].status.Pending?
               && Belongs(last.data, last.data.invitations[k].org, last.data.invitations[k].invitee)
  {
    JoinDid(w, c);
    assert WaitingSound(w, task);
    var after := Next(w, c);
    var q := w.waiting[task].invitation;
    hide Joins, Next, RestoreInvitation, Zero, Belongs, FoundersStand, MembersSound, InvitationsSound,
      AllWaitingSound;
    assert !PendingFor(after.data, q.org, q.invitee) by {
      forall k | k in after.data.invitations && k != c.id
        ensures !Competing(w.data.invitations[k], w.data.invitations[c.id])
      {
      }
    }
    InsertLands(after, task);
    BelongsGrows(w.data, after.data, c.membershipId, q.org, q.invitee);
    SameBelongs(after.data, Next(after, Insert(task)).data, q.org, q.invitee);
  }

  lemma InsertLands(w: World, task: nat)
    requires task in w.waiting && w.waiting[task].id !in w.data.invitations
    requires var v := w.waiting[task].invitation;
             !PendingFor(w.data, v.org, v.invitee)
    ensures var q := w.waiting[task];
            Next(w, Insert(task)).data == w.data.(invitations := w.data.invitations[q.id := q.invitation])
  {
  }

  lemma SentIsOvertaken(commands: seq<Command>, k: Id)
    requires var w := Run(commands);
             && k in w.data.invitations && w.data.invitations[k].status.Pending?
             && Belongs(w.data, w.data.invitations[k].org, w.data.invitations[k].invitee)
    ensures var w := Run(commands);
            && Overtaken(w, k)
            && forall later, other :: later < w.data.invitations[k].expires ==>
                 AcceptInvitation(w.data, k, w.data.invitations[k].invitee, later, other) == Ok((w.data, AlreadyMember))
  {
    RunSound(commands);
    assert InvitationSound(Run(commands), k);
    hide Run, Sound, Belongs, Overtaken, Zero, RestoreInvitation;
  }

  /** A founder's two invites to the same principal, the first inserted and the second checked. */
  function TwoInvites(org: Id, founder: Id, invitee: Id, membership: Id, p: Id, q: Id, name: string, now: int)
    : seq<Command>
  {
    [Found(name, founder, true, now, org, membership)]
    + [Check(0, org, founder, invitee, Member, true, now, p, Some(membership))]
    + [Insert(0)]
    + [Check(1, org, founder, invitee, Member, true, now, q, Some(membership))]
  }

  /** Such runs exist: a member is left holding a pending invitation it cannot accept. */
  lemma MemberLeftInvited(
      org: Id, founder: Id, invitee: Id, membership: Id, p: Id, q: Id, name: string, now: int, joined: Id)
    requires !Zero(org) && !Zero(founder) && !Zero(invitee) && !Zero(membership) && !Zero(p) && !Zero(q)
    requires !Zero(joined)
    requires founder != invitee && p != q && membership != joined
    requires ValidName(name) && 0 <= now && now + INVITATION_TTL_MS <= MAX_TIME_MS
    ensures var commands := TwoInvites(org, founder, invitee, membership, p, q, name, now)
              + [Accept(p, invitee, now, joined)] + [Insert(1)];
            var w := Run(commands);
            && q in w.data.invitations && w.data.invitations[q].status.Pending? && Overtaken(w, q)
            && Belongs(w.data, org, invitee)
            && AcceptInvitation(w.data, q, invitee, now, joined) == Ok((w.data, AlreadyMember))
  {
    TwoInvitesRun(org, founder, invitee, membership, p, q, name, now);
    hide Run, Belongs, ValidName, AcceptInvitation;
    OvertakenShows(TwoInvites(org, founder, invitee, membership, p, q, name, now), 1, p, now, joined, now, joined);
  }

  lemma CheckGoesOn(w: World, c: Command, k: Id)
    requires c.Check? && c.task !in w.waiting && c.actor == Some(k) && k in w.data.members && c.eligible
    requires c.role.Member?
    requires w.data.members[k].org == c.org && w.data.members[k].principal == c.inviter && w.data.members[k].role.Owner?
    requires !Zero(c.org) && !Zero(c.inviter) && !Zero(c.invitee) && !Zero(c.id) && c.inviter != c.invitee
    requires 0 <= c.now && c.now + INVITATION_TTL_MS <= MAX_TIME_MS && !Belongs(w.data, c.org, c.invitee)
    ensures Ready(w, c)
    ensures Next(w, c) == w.(waiting := w.waiting[c.task :=
              Waiting(c.id, NewInvitation(c.org, c.inviter, c.invitee, c.role, c.now), |w.joins|)])
  {
    hide Zero, Belongs;
  }

  lemma NobodyElse(d: Data, k: Id, org: Id, principal: Id)
    requires d.members.Keys == {k} && d.members[k].principal != principal
    ensures !Belongs(d, org, principal)
  {
    assert forall i :: i in d.members ==> i in d.members.Keys;
  }

  lemma TwoInvitesRun(org: Id, founder: Id, invitee: Id, membership: Id, p: Id, q: Id, name: string, now: int)
    requires !Zero(org) && !Zero(founder) && !Zero(invitee) && !Zero(membership) && !Zero(p) && !Zero(q)
    requires founder != invitee && p != q
    requires ValidName(name) && 0 <= now && now + INVITATION_TTL_MS <= MAX_TIME_MS
    ensures var w := Run(TwoInvites(org, founder, invitee, membership, p, q, name, now));
            var v := NewInvitation(org, founder, invitee, Member, now);
            && 1 in w.waiting && w.waiting[1].id == q && w.waiting[1].invitation == v
            && w.data.invitations == map[p := v] && w.data.members.Keys == {membership}
            && !Belongs(w.data, org, invitee)
  {
    var found := Found(name, founder, true, now, org, membership);
    var first := Check(0, org, founder, invitee, Member, true, now, p, Some(membership));
    var second := Check(1, org, founder, invitee, Member, true, now, q, Some(membership));
    var v := NewInvitation(org, founder, invitee, Member, now);
    RunOne([], found);
    RunOne([found], first);
    RunOne([found] + [first], Insert(0));
    RunOne([found] + [first] + [Insert(0)], second);
    assert [] + [found] == [found];
    var w1, w2, w3 := Run([found]), Run([found] + [first]), Run([found] + [first] + [Insert(0)]);
    assert w1 == START.(
             data := Data(
               map[org := Organization(name, now)], map[membership := Membership(org, founder, Owner, now)], map[]),
             founders := map[org := Founder(membership, founder)]) by {
      FoundDid(START, found);
    }
    hide Run, ValidName, Zero, ExecuteFound, NextCheck, Belongs;
    assert !Belongs(w1.data, org, invitee) by { NobodyElse(w1.data, membership, org, invitee); }
    CheckGoesOn(w1, first, membership);
    InsertLands(w2, 0);
    SameBelongs(w1.data, w3.data, org, invitee);
    CheckGoesOn(w3, second, membership);
  }

  // ---- The store, changed in place ---------------------------------------------------------------------------------

  class Store {
    var orgs: map<Id, Organization>
    var members: map<Id, Membership>
    var invitations: map<Id, Invitation>

    function View(): Data
      reads this
    {
      Data(orgs, members, invitations)
    }

    constructor ()
      ensures View() == START.data
    {
      orgs, members, invitations := map[], map[], map[];
    }

    method FindMember(org: Id, principal: Id) returns (found: Option<Id>)
      ensures Finds(View(), org, principal, found)
    {
      if k :| k in members && members[k].org == org && members[k].principal == principal { return Some(k); }
      return None;
    }

    method Create(id: Id, o: Organization, membershipId: Id, m: Membership) returns (r: Result<CreateOutcome>)
      modifies this
      ensures match CreateOrganization(old(View()), id, o, membershipId, m)
              case Ok((after, outcome)) => r == Ok(outcome) && View() == after
              case Err(code) => r == Err(code) && View() == old(View())
    {
      hide ValidName, Zero;
      if !ValidOrganization(id, o) || !ValidMembership(membershipId, m) || m.org != id || m.role != Owner {
        return Err(INVALID_RECORD);
      }
      if id in orgs { return Ok(AlreadyThere); }
      var saved := orgs;
      orgs := orgs[id := o];
      if membershipId in members { orgs := saved; return Ok(AlreadyThere); }
      var taken := FindMember(id, m.principal);
      if taken.Some? { orgs := saved; return Err(CONFLICT); }
      members := members[membershipId := m];
      return Ok(Created);
    }

    /** The statements of an invite before its insert. */
    method Check(id: Id, v: Invitation) returns (r: Result<Option<InviteOutcome>>, ghost actor: Option<Id>)
      ensures Finds(View(), v.org, v.inviter, actor)
      ensures r == CheckInvitation(View(), id, v, actor)
    {
      hide RestoreInvitation;
      var found := FindMember(v.org, v.inviter);
      actor := found;
      if RestoreInvitation(id, v).Err? { return Err(INVALID_RECORD), actor; }
      var role := if found.Some? then Some(members[found.value].role) else None;
      if role.None? || role.value.Member? || (role.value.Admin? && v.role.Admin?) {
        return Ok(Some(Unauthorized)), actor;
      }
      var member := FindMember(v.org, v.invitee);
      if member.Some? { return Ok(Some(MemberExists)), actor; }
      return Ok(None), actor;
    }

    method Insert(id: Id, v: Invitation) returns (r: Result<InviteOutcome>)
      modifies this`invitations
      ensures match InsertInvitation(old(View()), id, v)
              case Ok((after, outcome)) => r == Ok(outcome) && View() == after
              case Err(code) => r == Err(code) && View() == old(View())
    {
      if v.status.Pending? && PendingFor(View(), v.org, v.invitee) { return Ok(InvitationExists); }
      if id in invitations { return Err(CONFLICT); }
      invitations := invitations[id := v];
      return Ok(Invited);
    }

    method Accept(id: Id, invitee: Id, now: int, membershipId: Id) returns (r: Result<AcceptOutcome>)
      modifies this
      ensures match AcceptInvitation(old(View()), id, invitee, now, membershipId)
              case Ok((after, outcome)) => r == Ok(outcome) && View() == after
              case Err(code) => r == Err(code) && View() == old(View())
    {
      hide Zero;
      if id !in invitations { return Ok(NotFound); }
      var v := invitations[id];
      if RestoreInvitation(id, v).Err? { return Err(INVALID_RECORD); }
      if v.invitee != invitee { return Ok(NotForPrincipal); }
      if v.status == Accepted { return Ok(AlreadyAccepted); }
      if v.status != Pending { return Ok(Expired); }
      if now >= v.expires {
        var revoked := RevokedAt(id, v, now);
        if revoked.Err? { return Err(INVALID_RECORD); }
        invitations := invitations[id := revoked.value];
        return Ok(Expired);
      }
      var member := FindMember(v.org, v.invitee);
      if member.Some? { return Ok(AlreadyMember); }
      var m := Membership(v.org, v.invitee, v.role, now);
      if !ValidMembership(membershipId, m) { return Err("org.membership_invalid"); }
      if membershipId in members { return Err(CONFLICT); }
      var saved := members;
      members := members[membershipId := m];
      var accepted := AcceptedAt(id, v, now);
      if accepted.Err? { members := saved; return Err(INVALID_RECORD); }
      invitations := invitations[id := accepted.value];
      return Ok(Joined);
    }

    method Change(org: Id, granter: Id, target: Id, role: Role)
      returns (outcome: RoleOutcome, ghost actor: Option<Id>, ghost member: Option<Id>)
      modifies this`members
      ensures Finds(old(View()), org, granter, actor) && Finds(old(View()), org, target, member)
      ensures (View(), outcome) == ChangeRole(old(View()), role, actor, member)
    {
      var found := FindMember(org, granter);
      var other := FindMember(org, target);
      actor, member := found, other;
      var has := if found.Some? then Some(members[found.value].role) else None;
      if has.None? || has.value.Member? || (has.value.Admin? && role.Admin?) { return NotPermitted, actor, member; }
      if other.None? { return TargetNotFound, actor, member; }
      var m := members[other.value];
      if m.role == Owner { return OwnerTarget, actor, member; }
      if m.role == role { return Unchanged, actor, member; }
      members := members[other.value := m.(role := role)];
      return Changed, actor, member;
    }
  }
}
