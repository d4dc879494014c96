/** Provenance: logical work, its executions, and how each derives from the one before. */
module Provenance {
  import opened Results
  import Ids

  const U32_MAX := 0xFFFF_FFFF
  const NANOS_PER_MS := 1_000_000
  const GENERATED := "provenance.invalid_generated_id"

  type Id = id: Ids.Id | id.WellFormed() witness Ids.Id([0, 0, 0, 0, 0, 0, 0, 0, 128, 0, 0, 0, 0, 0, 0, 0])
  type u32 = n: int | 0 <= n <= U32_MAX

  // ---- Actors, attributions and names ------------------------------------------------------------

  datatype ActorKind = Anonymous | User | Service | System

  datatype ActorData = ActorData(kind: ActorKind, identity: string) {
    predicate Valid() {
      if kind.Anonymous? then identity == "" else IdentityValid(identity)
    }
    predicate Named() {
      !kind.Anonymous?
    }
  }

  type Actor = a: ActorData | a.Valid() witness ActorData(Anonymous, "")

  predicate IdentityChar(c: char) {
    'a' <= c <= 'z' || 'A' <= c <= 'Z' || '0' <= c <= '9' || c in "._:/-"
  }

  predicate IdentityValid(s: string) {
    0 < |s| <= 128 && forall i :: 0 <= i < |s| ==> IdentityChar(s[i])
  }

  function NewActor(kind: ActorKind, identity: string): Result<Actor> {
    var actor := ActorData(kind, identity);
    if actor.Valid() then Ok(actor) else Err("provenance.invalid_actor")
  }

  datatype AttributionData = AttributionData(
    initiator: Option<Actor>, onBehalfOf: Option<Actor>, tenant: Option<string>)
  {
    predicate Valid() {
      && (onBehalfOf.Some? ==>
            && onBehalfOf.value.Named()
            && initiator.Some? && initiator.value.Named() && initiator.value != onBehalfOf.value)
      && (tenant.Some? ==> IdentityValid(tenant.value))
    }
  }

  type Attribution = a: AttributionData | a.Valid() witness AttributionData(None, None, None)

  function NewAttribution(data: AttributionData): Result<Attribution> {
    if data.Valid() then Ok(data) else Err("provenance.invalid_attribution")
  }

  predicate OperationValid(s: string) {
    && 0 < |s| <= 128
    && 'a' <= s[0] <= 'z'
    && forall i :: 0 <= i < |s| ==> 'a' <= s[i] <= 'z' || '0' <= s[i] <= '9' || s[i] in "_.:-"
  }

  type Operation = s: string | OperationValid(s) witness "a"

  function NewOperation(s: string): Result<Operation> {
    if OperationValid(s) then Ok(s) else Err("provenance.invalid_operation")
  }

  datatype ReferenceKind = ToScope | ToWork | ToEvent

  datatype Reference = Reference(kind: ReferenceKind, id: Id)

  // ---- Work ---------------------------------------------------------------------------------------

  datatype Origin = Request | Schedule | Replay | Backfill | Startup

  datatype CorrelationSource = Local | External

  datatype ReplayInfo = ReplayInfo(runId: Id, source: Reference)

  datatype Work = Work(
    workId: Id, correlationId: Id, correlationSource: CorrelationSource, causation: Option<Reference>,
    origin: Option<Origin>, operation: Operation, attribution: Attribution, depth: Option<u32>,
    replay: Option<ReplayInfo>)

  /** What `validate_work` objects to first; a work ID not yet generated is not looked at. */
  function Objection(w: Work, knownWork: bool): Option<string> {
    if w.replay.Some? != (w.origin == Some(Replay)) then Some("provenance.invalid_origin")
    else if knownWork && w.causation == Some(Reference(ToWork, w.workId)) then Some("provenance.invalid_work")
    else if w.depth.Some?
         && ((w.correlationSource.Local? && w.depth.value == 0 && w.causation.Some?)
             || (w.depth.value > 0 && w.causation.None?))
    then Some("provenance.invalid_depth")
    else if knownWork && w.replay.Some? && w.replay.value.source == Reference(ToWork, w.workId)
    then Some("provenance.invalid_work")
    else None
  }

  predicate Consistent(w: Work) {
    Objection(w, true).None?
  }

  function RestoreWork(w: Work): Result<Work> {
    match Objection(w, true)
    case Some(code) => Err(code)
    case None => Ok(w)
  }

  // ---- Executions -----------------------------------------------------------------------------------

  /** Times are nanoseconds since 1970; an execution keeps whole milliseconds. */
  datatype Scope = Scope(
    work: Work, scopeId: Id, startedAt: int, executor: Actor, attempt: u32, previousAttempt: Option<Id>)

  function NormalizedTime(t: int): Result<int> {
    if t < 0 || t / NANOS_PER_MS > Ids.MAX_UNIX_MS then Err("provenance.invalid_time")
    else Ok(t / NANOS_PER_MS * NANOS_PER_MS)
  }

  function RestoreScope(s: Scope): Result<Scope> {
    var work :- RestoreWork(s.work);
    if !s.executor.Named() then Err("provenance.invalid_actor")
    else if s.attempt == 0 then Err("provenance.invalid_attempt")
    else if (s.previousAttempt.Some? && (s.previousAttempt.value == s.scopeId || s.attempt == 1))
         || s.work.causation == Some(Reference(ToScope, s.scopeId))
    then Err("provenance.invalid_scope")
    else
      var startedAt :- NormalizedTime(s.startedAt);
      Ok(s.(startedAt := startedAt))
  }

  /** A scope the module itself handed out: restoring it changes nothing. */
  predicate Whole(s: Scope) {
    RestoreScope(s) == Ok(s)
  }

  // ---- Transitions ----------------------------------------------------------------------------------

  /** What one opening finds: the clock's reading and the generator's reply. */
  datatype Supply = Supply(now: int, id: Result<Id>)

  /** The reply, and how often the clock was read and an ID drawn for it. */
  datatype Opening = Opening(scope: Result<Scope>, readings: nat, draws: nat)

  function Emit(
      executor: Actor, attempt: u32, previous: Option<Id>, forbidden: set<Id>, build: Id -> Work, supply: Supply)
    : Opening
  {
    if !executor.Named() then Opening(Err("provenance.invalid_actor"), 0, 0)
    else if attempt == 0 then Opening(Err("provenance.invalid_attempt"), 0, 0)
    else
      match NormalizedTime(supply.now)
      case Err(code) => Opening(Err(code), 1, 0)
      case Ok(startedAt) =>
        match supply.id
        case Err(code) => Opening(Err(code), 1, 1)
        case Ok(id) =>
          var restored := RestoreScope(Scope(build(id), id, startedAt, executor, attempt, previous));
          Opening(if id in forbidden || restored.Err? then Err(GENERATED) else restored, 1, 1)
  }

  function Refused(code: string): Opening {
    Opening(Err(code), 0, 0)
  }

  datatype RootSpec = RootSpec(
    workId: Option<Id>, origin: Origin, operation: Operation, attribution: Attribution, executor: Actor)
  datatype StepSpec = StepSpec(workId: Option<Id>, operation: Operation, executor: Actor, cause: Option<Reference>)
  datatype WorkSpec = WorkSpec(workId: Id, operation: Operation, cause: Option<Reference>)
  datatype ExecutionSpec = ExecutionSpec(executor: Actor, attempt: u32)
  datatype ReplaySpec = ReplaySpec(
    source: Reference, runId: Option<Id>, workId: Option<Id>, operation: Operation, attribution: Attribution,
    executor: Actor)

  /** What inspection of public hints concluded: an admitted correlation with its cause, or none. */
  datatype Incoming = NotContinued | Continued(correlation: Id, cause: Option<Reference>)

  function Or(given: Option<Id>, otherwise: Id): Id {
    if given.Some? then given.value else otherwise
  }

  function OpenOf(spec: RootSpec, supply: Supply): Opening {
    if spec.origin.Replay? then Refused("provenance.invalid_origin")
    else
      Emit(spec.executor, 1, None, {},
           (id: Id) =>
             Work(Or(spec.workId, id), id, Local, None, Some(spec.origin), spec.operation, spec.attribution, Some(0),
                  None),
           supply)
  }

  /** The work of a child or of prepared work; a child without a work ID still carries its parent's. */
  function ChildWork(parent: Scope, workId: Option<Id>, operation: Operation, cause: Option<Reference>): Result<Work> {
    var w := parent.work;
    if workId == Some(w.workId) then Err("provenance.invalid_work")
    else if w.depth == Some(U32_MAX) then Err("provenance.depth_exhausted")
    else
      var child := w.(
        workId := Or(workId, w.workId),
        operation := operation,
        depth := if w.depth.Some? then Some(w.depth.value + 1) else None,
        causation := Some(if cause.Some? then cause.value else Reference(ToScope, parent.scopeId)));
      match Objection(child, workId.Some?)
      case Some(code) => Err(code)
      case None => Ok(child)
  }

  function Prepare(parent: Scope, spec: WorkSpec): Result<Work> {
    var work :- ChildWork(parent, Some(spec.workId), spec.operation, spec.cause);
    RestoreWork(work)
  }

  function ChildOf(parent: Scope, spec: StepSpec, supply: Supply): Opening {
    match ChildWork(parent, spec.workId, spec.operation, spec.cause)
    case Err(code) => Refused(code)
    case Ok(work) =>
      Emit(spec.executor, 1, None, {parent.scopeId} + (if spec.workId.None? then {parent.work.workId} else {}),
           (id: Id) => work.(workId := if spec.workId.None? then id else work.workId), supply)
  }

  function ExecuteOf(work: Work, spec: ExecutionSpec, supply: Supply): Opening {
    Emit(spec.executor, spec.attempt, None, {}, (id: Id) => work, supply)
  }

  function RetryOf(previous: Scope, executor: Actor, supply: Supply): Opening {
    if previous.attempt == U32_MAX then Refused("provenance.attempt_exhausted")
    else Emit(executor, previous.attempt + 1, Some(previous.scopeId), {previous.scopeId},
              (id: Id) => previous.work, supply)
  }

  function ReplayOf(spec: ReplaySpec, supply: Supply): Opening {
    if spec.source.kind.ToWork? && spec.workId == Some(spec.source.id) then Refused("provenance.invalid_work")
    else
      Emit(spec.executor, 1, None, if spec.source.kind.ToScope? then {spec.source.id} else {},
           (id: Id) =>
             Work(Or(spec.workId, id), id, Local, None, Some(Replay), spec.operation, spec.attribution, Some(0),
                            Some(ReplayInfo(Or(spec.runId, id), spec.source))),
           supply)
  }

  function EnterOf(spec: RootSpec, incoming: Incoming, supply: Supply): Opening {
    if incoming.NotContinued? then OpenOf(spec, supply)
    else if spec.origin.Replay? then Refused("provenance.invalid_origin")
    else if incoming.cause.Some? && incoming.cause.value.kind.ToWork? && spec.workId == Some(incoming.cause.value.id)
    then Refused("provenance.invalid_work")
    else
      Emit(spec.executor, 1, None, {},
           (id: Id) => Work(Or(spec.workId, id), incoming.correlation, External, incoming.cause, None, spec.operation,
                            spec.attribution, None, None),
           supply)
  }

  /** A factory over a clock and a generator it owns; each reading and each draw moves on. */
  class Factory {
    const clock: nat -> int
    const ids: nat -> Result<Id>
    var readings: nat
    var draws: nat

    function Next(): Supply
      reads this
    {
      Supply(clock(readings), ids(draws))
    }

    twostate predicate Consumed(opening: Opening)
      reads this
    {
      readings == old(readings) + opening.readings && draws == old(draws) + opening.draws
    }

    constructor (clock: nat -> int, ids: nat -> Result<Id>)
      ensures this.clock == clock && this.ids == ids && readings == 0 && draws == 0
    {
      this.clock, this.ids := clock, ids;
      readings, draws := 0, 0;
    }

    method EmitScope(executor: Actor, attempt: u32, previous: Option<Id>, forbidden: set<Id>, build: Id -> Work)
      returns (r: Result<Scope>)
      modifies this
      ensures var opening := Emit(executor, attempt, previous, forbidden, build, old(Next()));
              r == opening.scope && Consumed(opening)
    {
      if !executor.Named() { return Err("provenance.invalid_actor"); }
      if attempt == 0 { return Err("provenance.invalid_attempt"); }
      var now := clock(readings);
      readings := readings + 1;
      var startedAt := NormalizedTime(now);
      if startedAt.Err? { return Err(startedAt.code); }
      var scopeId := ids(draws);
      draws := draws + 1;
      if scopeId.Err? { return Err(scopeId.code); }
      if scopeId.value in forbidden { return Err(GENERATED); }
      r := RestoreScope(Scope(build(scopeId.value), scopeId.value, startedAt.value, executor, attempt, previous));
      if r.Err? { r := Err(GENERATED); }
    }

    method Open(spec: RootSpec) returns (r: Result<Scope>)
      modifies this
      ensures var opening := OpenOf(spec, old(Next())); r == opening.scope && Consumed(opening)
    {
      if spec.origin.Replay? { return Err("provenance.invalid_origin"); }
      r := EmitScope(spec.executor, 1, None, {},
                     (id: Id) => Work(Or(spec.workId, id), id, Local, None, Some(spec.origin), spec.operation,
                                      spec.attribution, Some(0), None));
    }

    method Child(parent: Scope, spec: StepSpec) returns (r: Result<Scope>)
      modifies this
      ensures var opening := ChildOf(parent, spec, old(Next())); r == opening.scope && Consumed(opening)
    {
      var child := ChildWork(parent, spec.workId, spec.operation, spec.cause);
      if child.Err? { return Err(child.code); }
      var work := child.value;
      var forbidden: set<Id> := {parent.scopeId};
      if spec.workId.None? { forbidden := forbidden + {parent.work.workId}; }
      assert forbidden == {parent.scopeId} + if spec.workId.None? then {parent.work.workId} else {};
      r := EmitScope(spec.executor, 1, None, forbidden,
                     (id: Id) => work.(workId := if spec.workId.None? then id else work.workId));
    }

    method Retry(previous: Scope, executor: Actor) returns (r: Result<Scope>)
      modifies this
      ensures var opening := RetryOf(previous, executor, old(Next())); r == opening.scope && Consumed(opening)
    {
      if previous.attempt == U32_MAX { return Err("provenance.attempt_exhausted"); }
      r := EmitScope(executor, previous.attempt + 1, Some(previous.scopeId), {previous.scopeId},
                     (id: Id) => previous.work);
    }

    method Execute(work: Work, spec: ExecutionSpec) returns (r: Result<Scope>)
      modifies this
      ensures var opening := ExecuteOf(work, spec, old(Next())); r == opening.scope && Consumed(opening)
    {
      r := EmitScope(spec.executor, spec.attempt, None, {}, (id: Id) => work);
    }

    method ReplayFrom(spec: ReplaySpec) returns (r: Result<Scope>)
      modifies this
      ensures var opening := ReplayOf(spec, old(Next())); r == opening.scope && Consumed(opening)
    {
      if spec.source.kind.ToWork? && spec.workId == Some(spec.source.id) { return Err("provenance.invalid_work"); }
      r := EmitScope(spec.executor, 1, None, if spec.source.kind.ToScope? then {spec.source.id} else {},
                     (id: Id) =>
                       Work(Or(spec.workId, id), id, Local, None, Some(Replay), spec.operation, spec.attribution,
                                      Some(0), Some(ReplayInfo(Or(spec.runId, id), spec.source))));
    }

    method Enter(spec: RootSpec, incoming: Incoming) returns (r: Result<Scope>)
      modifies this
      ensures var opening := EnterOf(spec, incoming, old(Next())); r == opening.scope && Consumed(opening)
    {
      if incoming.NotContinued? {
        r := Open(spec);
        return;
      }
      if spec.origin.Replay? { return Err("provenance.invalid_origin"); }
      if incoming.cause.Some? && incoming.cause.value.kind.ToWork? && spec.workId == Some(incoming.cause.value.id) {
        return Err("provenance.invalid_work");
      }
      r := EmitScope(spec.executor, 1, None, {},
                     (id: Id) => Work(Or(spec.workId, id), incoming.correlation, External, incoming.cause, None,
                                      spec.operation, spec.attribution, None, None));
    }
  }

  // ---- What a transition hands out -------------------------------------------------------------------

  lemma NormalTime(now: int)
    requires NormalizedTime(now).Ok?
    ensures NormalizedTime(NormalizedTime(now).value) == NormalizedTime(now)
  {
  }

  /** An emitted scope is whole, is the generated one, and is new to the identities it must not repeat. */
  lemma EmitMakes(
      executor: Actor, attempt: u32, previous: Option<Id>, forbidden: set<Id>, build: Id -> Work, supply: Supply)
    requires Emit(executor, attempt, previous, forbidden, build, supply).scope.Ok?
    ensures var s := Emit(executor, attempt, previous, forbidden, build, supply).scope.value;
            && Whole(s)
            && supply.id == Ok(s.scopeId) && s.scopeId !in forbidden
            && s.work == build(s.scopeId) && s.executor == executor && s.attempt == attempt
            && s.previousAttempt == previous
  {
  }

  /**
   * A root opens exactly when its origin is not the replay constructor's, its executor
   * is named, the clock is in range and the generator replies; no generated ID is ever
   * blamed.
   */
  lemma RootOpens(spec: RootSpec, supply: Supply)
    ensures OpenOf(spec, supply).scope.Ok?
       <==> !spec.origin.Replay? && spec.executor.Named() && NormalizedTime(supply.now).Ok? && supply.id.Ok?
    ensures OpenOf(spec, supply).scope != Err(GENERATED) || supply.id == Err(GENERATED)
  {
  }

  /** When a child's generated ID is blamed: it repeats an identity the child must not share. */
  predicate Collides(parent: Scope, spec: StepSpec, id: Id) {
    || id == parent.scopeId
    || spec.cause == Some(Reference(ToScope, id))
    || (spec.workId.None?
        && (id == parent.work.workId
            || spec.cause == Some(Reference(ToWork, id))
            || (parent.work.replay.Some? && parent.work.replay.value.source == Reference(ToWork, id))))
  }

  lemma ChildBlamed(parent: Scope, spec: StepSpec, supply: Supply)
    requires Whole(parent) && supply.id.Ok? && NormalizedTime(supply.now).Ok? && spec.executor.Named()
    requires ChildWork(parent, spec.workId, spec.operation, spec.cause).Ok?
    ensures ChildOf(parent, spec, supply).scope == Err(GENERATED) <==> Collides(parent, spec, supply.id.value)
    ensures ChildOf(parent, spec, supply).scope.Ok? <==> !Collides(parent, spec, supply.id.value)
  {
  }

  /** A retry is blamed on its generated ID exactly when that names the attempt before, or the work's scope cause. */
  lemma RetryBlamed(previous: Scope, executor: Actor, supply: Supply)
    requires Whole(previous) && previous.attempt < U32_MAX
    requires supply.id.Ok? && NormalizedTime(supply.now).Ok? && executor.Named()
    ensures RetryOf(previous, executor, supply).scope.Ok?
       <==> supply.id.value != previous.scopeId && previous.work.causation != Some(Reference(ToScope, supply.id.value))
  {
  }

  /** What may be judged without the clock or the generator costs neither; a bad time costs no ID. */
  lemma RefusalsCostNothing(parent: Scope, spec: StepSpec, supply: Supply)
    ensures var o := ChildOf(parent, spec, supply);
            && (o.readings == 0
               <==> ChildWork(parent, spec.workId, spec.operation, spec.cause).Err? || !spec.executor.Named())
            && (o.draws == 1 <==> o.readings == 1 && NormalizedTime(supply.now).Ok?)
            && (o.draws == 0 ==> o.scope.Err?)
            && o.readings <= 1 && o.draws <= 1
  {
  }

  // ---- Histories ---------------------------------------------------------------------------------------

  /** Where a line of work stands: executing, or prepared and waiting for an execution. */
  datatype Stage = Running(scope: Scope) | Prepared(prepared: Work) {
    function Context(): Work {
      if Running? then scope.work else prepared
    }
  }

  datatype Link =
    | Child(step: StepSpec, supply: Supply)
    | Preparing(spec: WorkSpec)
    | Execute(execution: ExecutionSpec, supply: Supply)
    | Retry(executor: Actor, supply: Supply)

  predicate Sound(stage: Stage) {
    match stage
    case Running(scope) => Whole(scope)
    case Prepared(work) => Consistent(work)
  }

  function RunningIf(r: Result<Scope>): Option<Stage> {
    if r.Ok? then Some(Running(r.value)) else None
  }

  /** Where one link leads; nowhere when it is refused, or when nothing is executing to link from. */
  function Follow(stage: Stage, link: Link): Option<Stage> {
    match link
    case Child(spec, supply) => if stage.Running? then RunningIf(ChildOf(stage.scope, spec, supply).scope) else None
    case Preparing(spec) =>
      if stage.Running? && Prepare(stage.scope, spec).Ok? then Some(Prepared(Prepare(stage.scope, spec).value))
      else None
    case Execute(spec, supply) => RunningIf(ExecuteOf(stage.Context(), spec, supply).scope)
    case Retry(executor, supply) =>
      if stage.Running? then RunningIf(RetryOf(stage.scope, executor, supply).scope) else None
  }

  function Reach(root: Stage, links: seq<Link>): Option<Stage> {
    if links == [] then Some(root)
    else
      var n := |links| - 1;
      match Reach(root, links[..n])
      case None => None
      case Some(stage) => Follow(stage, links[n])
  }

  /** How many links lead to new logical work. */
  function Hops(links: seq<Link>): nat {
    if links == [] then 0
    else
      var n := |links| - 1;
      Hops(links[..n]) + if links[n].Child? || links[n].Preparing? then 1 else 0
  }

  /** How many retries end the line. */
  function TrailingRetries(links: seq<Link>): nat {
    if links == [] || !links[|links| - 1].Retry? then 0 else 1 + TrailingRetries(links[..|links| - 1])
  }

  /** The attempt the retry chain started from: the root's, an execution's own, or 1 for a child. */
  function ChainStart(root: Stage, links: seq<Link>): int {
    if links == [] then (if root.Running? then root.scope.attempt else 0)
    else
      match links[|links| - 1]
      case Child(_, _) => 1
      case Preparing(_) => 0
      case Execute(spec, _) => spec.attempt
      case Retry(_, _) => ChainStart(root, links[..|links| - 1])
  }

  /** What every derivation keeps. */
  predicate SameLine(root: Work, w: Work) {
    && w.correlationId == root.correlationId && w.correlationSource == root.correlationSource
    && w.origin == root.origin && w.attribution == root.attribution && w.replay == root.replay
  }

  function Deeper(depth: Option<u32>, hops: nat): Option<int> {
    match depth
    case None => None
    case Some(d) => Some(d + hops)
  }

  /** The links that stay with the same work. */
  lemma SameWork(stage: Stage, link: Link)
    requires Follow(stage, link).Some? && (link.Execute? || link.Retry?)
    ensures var next := Follow(stage, link).value;
            next.Running? && Whole(next.scope) && next.Context() == stage.Context()
  {
    if link.Execute? && NormalizedTime(link.supply.now).Ok? { NormalTime(link.supply.now); }
    if link.Retry? && NormalizedTime(link.supply.now).Ok? { NormalTime(link.supply.now); }
    hide NormalizedTime, Objection;
  }

  lemma ChildWorkKeeps(parent: Scope, workId: Option<Id>, operation: Operation, cause: Option<Reference>)
    requires ChildWork(parent, workId, operation, cause).Ok?
    ensures var w := ChildWork(parent, workId, operation, cause).value;
            SameLine(parent.work, w) && w.depth == Deeper(parent.work.depth, 1)
  {
    hide Objection;
  }

  lemma NewWork(stage: Stage, link: Link)
    requires Follow(stage, link).Some? && (link.Child? || link.Preparing?)
    ensures var next := Follow(stage, link).value;
            && Sound(next) && (next.Running? <==> link.Child?)
            && SameLine(stage.Context(), next.Context())
            && next.Context().depth == Deeper(stage.Context().depth, 1)
  {
    if link.Child? {
      ChildWorkKeeps(stage.scope, link.step.workId, link.step.operation, link.step.cause);
      NormalTime(link.supply.now);
      hide NormalizedTime, Objection, ChildWork, Deeper;
    } else {
      ChildWorkKeeps(stage.scope, Some(link.spec.workId), link.spec.operation, link.spec.cause);
      hide ChildWork, Deeper;
    }
  }

  lemma FollowKeeps(stage: Stage, link: Link)
    requires Sound(stage) && Follow(stage, link).Some?
    ensures var next := Follow(stage, link).value;
            && Sound(next)
            && SameLine(stage.Context(), next.Context())
            && next.Context().depth == Deeper(stage.Context().depth, if link.Child? || link.Preparing? then 1 else 0)
            && (next.Running? <==> !link.Preparing?)
  {
    if link.Child? || link.Preparing? {
      NewWork(stage, link);
    } else {
      SameWork(stage, link);
    }
    hide Follow, Whole, Consistent;
  }

  lemma FollowCounts(stage: Stage, link: Link)
    requires Sound(stage) && Follow(stage, link).Some? && !link.Preparing?
    ensures Follow(stage, link).value.Running?
    ensures var attempt := Follow(stage, link).value.scope.attempt;
            match link
            case Child(_, _) => attempt == 1
            case Execute(spec, _) => attempt == spec.attempt
            case Retry(_, _) => stage.Running? && attempt == stage.scope.attempt + 1
  {
  }

  /**
   * Every scope or prepared work reached from a root keeps the root's correlation,
   * origin, attribution and replay, stands as deep as there are child and prepare
   * links, counts its attempts from the start of its retry chain, and is whole.
   */
  lemma {:induction false} Lineage(root: Stage, links: seq<Link>)
    requires Sound(root) && Reach(root, links).Some?
    ensures var reached := Reach(root, links).value;
            && Sound(reached)
            && SameLine(root.Context(), reached.Context())
            && reached.Context().depth == Deeper(root.Context().depth, Hops(links))
            && (reached.Running? ==> reached.scope.attempt == ChainStart(root, links) + TrailingRetries(links))
  {
    hide Follow, Whole, Consistent;
    if links != [] {
      var n := |links| - 1;
      Lineage(root, links[..n]);
      var before := Reach(root, links[..n]).value;
      FollowKeeps(before, links[n]);
      if !links[n].Preparing? { FollowCounts(before, links[n]); }
    }
  }

  /** Where a history may begin: a root opened here, or a deliberate replay of a reference. */
  lemma Roots(spec: RootSpec, again: ReplaySpec, supply: Supply)
    ensures OpenOf(spec, supply).scope.Ok? ==>
              var s := OpenOf(spec, supply).scope.value;
              Whole(s) && s.attempt == 1 && s.work.depth == Some(0) && s.work.correlationId == s.scopeId
    ensures ReplayOf(again, supply).scope.Ok? ==>
              var s := ReplayOf(again, supply).scope.value;
              && Whole(s) && s.attempt == 1 && s.work.depth == Some(0) && s.work.replay.Some?
              && s.work.replay.value.source == again.source && again.source != Reference(ToWork, s.work.workId)
              && again.source != Reference(ToScope, s.scopeId)
  {
    if NormalizedTime(supply.now).Ok? { NormalTime(supply.now); }
    hide NormalizedTime;
  }

  /** A continued boundary adopts the admitted correlation and cause, and claims no origin or depth. */
  lemma Continues(spec: RootSpec, incoming: Incoming, supply: Supply)
    requires EnterOf(spec, incoming, supply).scope.Ok? && incoming.Continued?
    ensures var s := EnterOf(spec, incoming, supply).scope.value;
            && Whole(s) && s.attempt == 1 && s.work.depth == None && s.work.origin == None
            && s.work.correlationId == incoming.correlation && s.work.causation == incoming.cause
            && s.work.correlationSource.External?
  {
    if NormalizedTime(supply.now).Ok? { NormalTime(supply.now); }
    hide NormalizedTime;
  }

  // ---- What each opening says --------------------------------------------------------------------------

  /** A scope starts at its time's whole millisecond, under the executor it was opened with. */
  predicate Started(s: Scope, executor: Actor, supply: Supply) {
    && supply.id == Ok(s.scopeId) && s.executor == executor
    && s.startedAt <= supply.now < s.startedAt + NANOS_PER_MS && s.startedAt % NANOS_PER_MS == 0
  }

  /** A root's work is what its specification names; the generated ID stands in for what it leaves open. */
  lemma RootSays(spec: RootSpec, supply: Supply)
    requires OpenOf(spec, supply).scope.Ok?
    ensures var s := OpenOf(spec, supply).scope.value;
            && Started(s, spec.executor, supply) && s.attempt == 1 && s.previousAttempt.None?
            && s.work.workId == (if spec.workId.Some? then spec.workId.value else s.scopeId)
            && s.work.correlationId == s.scopeId && s.work.correlationSource.Local? && s.work.causation.None?
            && s.work.origin == Some(spec.origin) && s.work.operation == spec.operation
            && s.work.attribution == spec.attribution && s.work.depth == Some(0) && s.work.replay.None?
  {
  }

  /** A replay's work is new work under its own correlation, and says what it repeats and in which run. */
  lemma ReplaySays(spec: ReplaySpec, supply: Supply)
    requires ReplayOf(spec, supply).scope.Ok?
    ensures var s := ReplayOf(spec, supply).scope.value;
            && Started(s, spec.executor, supply) && s.attempt == 1 && s.previousAttempt.None?
            && s.work.workId == (if spec.workId.Some? then spec.workId.value else s.scopeId)
            && s.work.correlationId == s.scopeId && s.work.correlationSource.Local? && s.work.causation.None?
            && s.work.origin == Some(Replay) && s.work.operation == spec.operation
            && s.work.attribution == spec.attribution && s.work.depth == Some(0)
            && s.work.replay == Some(ReplayInfo(if spec.runId.Some? then spec.runId.value else s.scopeId, spec.source))
  {
  }

  /** An entered boundary's work is what its specification names, under the admitted correlation and cause. */
  lemma EntrySays(spec: RootSpec, incoming: Incoming, supply: Supply)
    requires incoming.Continued? && EnterOf(spec, incoming, supply).scope.Ok?
    ensures var s := EnterOf(spec, incoming, supply).scope.value;
            && Started(s, spec.executor, supply) && s.attempt == 1 && s.previousAttempt.None?
            && s.work.workId == (if spec.workId.Some? then spec.workId.value else s.scopeId)
            && s.work.correlationId == incoming.correlation && s.work.correlationSource.External?
            && s.work.causation == incoming.cause && s.work.origin.None? && s.work.operation == spec.operation
            && s.work.attribution == spec.attribution && s.work.depth.None? && s.work.replay.None?
  {
  }

  /** New work has its own operation and the cause it is given, or its parent's scope, and is otherwise its parent's. */
  predicate Derived(parent: Scope, w: Work, workId: Id, operation: Operation, cause: Option<Reference>) {
    && w.workId == workId && w.operation == operation
    && w.causation == Some(if cause.Some? then cause.value else Reference(ToScope, parent.scopeId))
    && SameLine(parent.work, w) && w.depth == Deeper(parent.work.depth, 1)
  }

  /** A child executes new work once, under the ID it is given or its own. */
  lemma ChildSays(parent: Scope, spec: StepSpec, supply: Supply)
    requires ChildOf(parent, spec, supply).scope.Ok?
    ensures var s := ChildOf(parent, spec, supply).scope.value;
            && Started(s, spec.executor, supply) && s.attempt == 1 && s.previousAttempt.None?
            && Derived(parent, s.work, if spec.workId.Some? then spec.workId.value else s.scopeId, spec.operation,
                       spec.cause)
  {
    hide Objection;
  }

  /** Prepared work is new work under the ID it is given. */
  lemma PreparedSays(parent: Scope, spec: WorkSpec)
    requires Prepare(parent, spec).Ok?
    ensures Derived(parent, Prepare(parent, spec).value, spec.workId, spec.operation, spec.cause)
  {
    hide Objection;
  }

  /** An execution takes the work as it is; a retry does too, one attempt on, and names the one before. */
  lemma RepeatsSay(work: Work, spec: ExecutionSpec, previous: Scope, executor: Actor, supply: Supply)
    ensures ExecuteOf(work, spec, supply).scope.Ok? ==>
              var s := ExecuteOf(work, spec, supply).scope.value;
              && Started(s, spec.executor, supply) && s.work == work && s.attempt == spec.attempt
              && s.previousAttempt.None?
    ensures RetryOf(previous, executor, supply).scope.Ok? ==>
              var s := RetryOf(previous, executor, supply).scope.value;
              && Started(s, executor, supply) && s.work == previous.work && s.attempt == previous.attempt + 1
              && s.previousAttempt == Some(previous.scopeId)
  {
    hide Objection;
  }

  /**
   * From work that is whole, new work can be derived exactly when its ID is not its
   * parent's, the depth can grow, and neither the cause nor a replayed source is that
   * work itself.
   */
  lemma DerivesExactly(parent: Scope, workId: Option<Id>, operation: Operation, cause: Option<Reference>)
    requires Whole(parent)
    ensures ChildWork(parent, workId, operation, cause).Ok?
       <==> && workId != Some(parent.work.workId)
            && (parent.work.depth.Some? ==> parent.work.depth.value < 0xFFFF_FFFF)
            && (workId.Some? ==>
                  && cause != Some(Reference(ToWork, workId.value))
                  && (parent.work.replay.Some? ==> parent.work.replay.value.source != Reference(ToWork, workId.value)))
  {
  }

  /** Times from 1970 on are accepted while their milliseconds fit 48 bits. */
  lemma AcceptsTimes(t: int)
    ensures NormalizedTime(t).Ok? <==> 0 <= t < 281_474_976_710_656 * 1_000_000
  {
  }

  // ---- What is valid ---------------------------------------------------------------------------------------

  predicate Letter(c: char) {
    97 <= c as int <= 122
  }

  predicate Digit(c: char) {
    48 <= c as int <= 57
  }

  /** A name is of one to 128 characters, and only nobody has none; capitals and slashes may occur. */
  lemma NamesExactly(kind: ActorKind, name: string)
    ensures NewActor(kind, name).Ok? <==>
              if kind == Anonymous then name == ""
              else 1 <= |name| <= 128
                   && forall c :: c in name ==> Letter(c) || 65 <= c as int <= 90 || Digit(c) || c in "-./:_"
    ensures NewActor(kind, name) == if NewActor(kind, name).Ok? then Ok(ActorData(kind, name))
                                    else Err("provenance.invalid_actor")
  {
    assert forall i :: 0 <= i < |name| ==> name[i] in name;
  }

  /** An operation is of one to 128 characters and starts with a letter; there are no capitals or slashes. */
  lemma OperationsExactly(s: string)
    ensures NewOperation(s).Ok? <==>
              1 <= |s| <= 128 && Letter(s[0]) && forall c :: c in s ==> Letter(c) || Digit(c) || c in "-.:_"
    ensures NewOperation(s) == if NewOperation(s).Ok? then Ok(s) else Err("provenance.invalid_operation")
  {
    assert forall i :: 0 <= i < |s| ==> s[i] in s;
  }

  /** Who acts for another is somebody else with a name, and so is that other; a tenant is named as actors are. */
  lemma AttributionsExactly(data: AttributionData)
    ensures NewAttribution(data).Ok? <==>
              && (data.onBehalfOf.Some? ==>
                    && data.onBehalfOf.value.kind != Anonymous
                    && exists a: Actor ::
                         data.initiator == Some(a) && a.kind != Anonymous && a != data.onBehalfOf.value)
              && (data.tenant.Some? ==> NewActor(User, data.tenant.value).Ok?)
    ensures NewAttribution(data).Err? ==> NewAttribution(data).code == "provenance.invalid_attribution"
  {
    hide IdentityValid;
  }

  /**
   * Work is consistent exactly when it names a replayed source just if its origin is a
   * replay, is neither its own cause nor that source, starts without a cause where it
   * starts here, and has a cause below that.
   */
  lemma ConsistentExactly(w: Work)
    ensures Consistent(w) <==>
              && (w.replay.Some? <==> w.origin == Some(Replay))
              && w.causation != Some(Reference(ToWork, w.workId))
              && (w.replay.Some? ==> w.replay.value.source != Reference(ToWork, w.workId))
              && (w.depth == Some(0) && w.correlationSource == Local ==> w.causation == None)
              && (w.depth.Some? && w.depth.value != 0 ==> w.causation.Some?)
  {
  }

  /** A scope restores exactly under these conditions, and then starts at its time's whole millisecond. */
  lemma ScopesExactly(s: Scope)
    ensures RestoreScope(s).Ok? <==>
              && Consistent(s.work) && s.executor.kind != Anonymous && 1 <= s.attempt
              && (s.previousAttempt.Some? ==> s.attempt >= 2 && s.previousAttempt.value != s.scopeId)
              && s.work.causation != Some(Reference(ToScope, s.scopeId))
              && 0 <= s.startedAt < 281_474_976_710_656 * 1_000_000
    ensures RestoreScope(s).Ok? ==> RestoreScope(s).value == s.(startedAt := s.startedAt - s.startedAt % NANOS_PER_MS)
  {
    hide Objection;
    AcceptsTimes(s.startedAt);
  }

  /** A continued boundary's refusals: for a replay's origin, for being its own cause, and for such a generated ID. */
  lemma EntersExactly(spec: RootSpec, incoming: Incoming, supply: Supply)
    requires incoming.Continued? && spec.executor.Named() && supply.id.Ok? && NormalizedTime(supply.now).Ok?
    ensures var id, r, cause := supply.id.value, EnterOf(spec, incoming, supply).scope, incoming.cause;
            var own := spec.workId.Some? && cause == Some(Reference(ToWork, spec.workId.value));
            && (r == Err("provenance.invalid_origin") <==> spec.origin == Replay)
            && (r == Err("provenance.invalid_work") <==> spec.origin != Replay && own)
            && (r == Err("provenance.invalid_generated_id") <==>
                  && spec.origin != Replay && !own
                  && (cause == Some(Reference(ToScope, id))
                      || (spec.workId.None? && cause == Some(Reference(ToWork, id)))))
            && (r.Err? ==>
                  r.code in {"provenance.invalid_origin", "provenance.invalid_work", "provenance.invalid_generated_id"})
  {
    NormalTime(supply.now);
    hide NormalizedTime;
  }

  /** A replay's refusals: for repeating itself, and for a generated ID that would make it do so. */
  lemma ReplaysExactly(spec: ReplaySpec, supply: Supply)
    requires spec.executor.Named() && supply.id.Ok? && NormalizedTime(supply.now).Ok?
    ensures var id, r := supply.id.value, ReplayOf(spec, supply).scope;
            var own := spec.workId.Some? && spec.source == Reference(ToWork, spec.workId.value);
            && (r == Err("provenance.invalid_work") <==> own)
            && (r == Err("provenance.invalid_generated_id") <==>
                  && !own
                  && (spec.source == Reference(ToScope, id)
                      || (spec.workId.None? && spec.source == Reference(ToWork, id))))
            && (r.Err? ==> r.code in {"provenance.invalid_work", "provenance.invalid_generated_id"})
  {
    NormalTime(supply.now);
    hide NormalizedTime;
  }
}
