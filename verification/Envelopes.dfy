/** Durable event envelopes: the wire record, and what decoding one accepts. */
module Envelopes {
  import opened Results
  import opened Provenance
  import Ids
  import Decimals = Text

  const MAX_TIME_MS := 253402300799999
  const MAX_BYTES := 65536
  const INVALID := "events.invalid"

  /** JSON values; a number remembers whether it was written as a float. */
  datatype Json =
    | Null
    | Boolean(b: bool)
    | Number(r: real, float: bool)
    | Text(s: string)
    | Array(items: seq<Json>)
    | Object(fields: map<string, Json>)

  datatype ActorWire = ActorWire(kind: string, identity: Option<string>)
  datatype RefWire = RefWire(kind: string, id: string)
  datatype AttrWire = AttrWire(initiator: Option<ActorWire>, onBehalfOf: Option<ActorWire>, tenant: Option<string>)
  datatype ReplayWire = ReplayWire(runId: string, source: RefWire)
  datatype WorkWire = WorkWire(
    workId: string, correlationId: string, correlationSource: string, causation: Option<RefWire>,
    origin: Option<string>,
    operation: string, attribution: AttrWire, depth: Option<u32>, replay: Option<ReplayWire>)
  datatype Wire = Wire(v: real, id: string, eventType: string, occurredAtMs: real, work: WorkWire, payload: Json)

  // ---- Work to the wire ------------------------------------------------------------------------------

  function KindOut(kind: ActorKind): string {
    match kind
    case Anonymous => "anonymous"
    case User => "user"
    case Service => "service"
    case System => "system"
  }

  function ActorOut(a: Actor): ActorWire {
    ActorWire(KindOut(a.kind), if a.identity == "" then None else Some(a.identity))
  }

  function RefOut(r: Reference): RefWire {
    RefWire(match r.kind { case ToScope => "scope" case ToWork => "work" case ToEvent => "event" }, Ids.Canonical(r.id))
  }

  function OriginOut(o: Origin): string {
    match o
    case Request => "request"
    case Schedule => "schedule"
    case Replay => "replay"
    case Backfill => "backfill"
    case Startup => "startup"
  }

  function ActorsOut(a: Option<Actor>): Option<ActorWire> {
    if a.Some? then Some(ActorOut(a.value)) else None
  }

  function WorkOut(w: Work): WorkWire {
    WorkWire(
      Ids.Canonical(w.workId),
      Ids.Canonical(w.correlationId),
      if w.correlationSource.Local? then "local" else "external",
      if w.causation.Some? then Some(RefOut(w.causation.value)) else None,
      if w.origin.Some? then Some(OriginOut(w.origin.value)) else None,
      w.operation,
      AttrWire(ActorsOut(w.attribution.initiator), ActorsOut(w.attribution.onBehalfOf), w.attribution.tenant),
      w.depth,
      if w.replay.Some? then Some(ReplayWire(Ids.Canonical(w.replay.value.runId), RefOut(w.replay.value.source)))
      else None)
  }

  // ---- Work from the wire ------------------------------------------------------------------------------

  function ParseId(text: string): (r: Result<Id>) {
    match Ids.Denoted(text)
    case Some(id) => Ids.DenotedBytes(text); Ok(id)
    case None => Err("id.invalid")
  }

  function KindIn(kind: string): Result<ActorKind> {
    if kind == "anonymous" then Ok(Anonymous)
    else if kind == "user" then Ok(User)
    else if kind == "service" then Ok(Service)
    else if kind == "system" then Ok(System)
    else Err(INVALID)
  }

  function ActorIn(a: ActorWire): Result<Actor> {
    var kind :- KindIn(a.kind);
    NewActor(kind, if a.identity.Some? then a.identity.value else "")
  }

  function RefKindIn(kind: string): Result<ReferenceKind> {
    if kind == "scope" then Ok(ToScope)
    else if kind == "work" then Ok(ToWork)
    else if kind == "event" then Ok(ToEvent)
    else Err(INVALID)
  }

  function RefIn(r: RefWire): Result<Reference> {
    var kind :- RefKindIn(r.kind);
    var id :- ParseId(r.id);
    Ok(Reference(kind, id))
  }

  function OriginIn(s: string): Result<Origin> {
    if s == "request" then Ok(Request)
    else if s == "schedule" then Ok(Schedule)
    else if s == "replay" then Ok(Replay)
    else if s == "backfill" then Ok(Backfill)
    else if s == "startup" then Ok(Startup)
    else Err(INVALID)
  }

  function SourceIn(s: string): Result<CorrelationSource> {
    if s == "local" then Ok(Local) else if s == "external" then Ok(External) else Err(INVALID)
  }

  function ReplayIn(r: ReplayWire): Result<ReplayInfo> {
    var runId :- ParseId(r.runId);
    var source :- RefIn(r.source);
    Ok(ReplayInfo(runId, source))
  }

  /** An optional field: absent stays absent, present must read. */
  function Optional<W, V>(field: Option<W>, read: W -> Result<V>): Result<Option<V>> {
    match field
    case None => Ok(None)
    case Some(w) => var v :- read(w); Ok(Some(v))
  }

  function AttributionIn(a: AttrWire): Result<Attribution> {
    var initiator :- Optional(a.initiator, ActorIn);
    var onBehalfOf :- Optional(a.onBehalfOf, ActorIn);
    NewAttribution(AttributionData(initiator, onBehalfOf, a.tenant))
  }

  function WorkIn(w: WorkWire): Result<Work> {
    var workId :- ParseId(w.workId);
    var correlationId :- ParseId(w.correlationId);
    var correlationSource :- SourceIn(w.correlationSource);
    var causation :- Optional(w.causation, RefIn);
    var origin :- Optional(w.origin, OriginIn);
    var operation :- NewOperation(w.operation);
    var attribution :- AttributionIn(w.attribution);
    var replay :- Optional(w.replay, ReplayIn);
    RestoreWork(
      Work(workId, correlationId, correlationSource, causation, origin, operation, attribution, w.depth, replay))
  }

  // ---- Names on the wire ----------------------------------------------------------------------------------

  /** Every name the wire record uses, in the order the values are declared. */
  lemma WireNames()
    ensures [KindOut(Anonymous), KindOut(User), KindOut(Service), KindOut(System)]
         == ["anonymous", "user", "service", "system"]
    ensures [OriginOut(Request), OriginOut(Schedule), OriginOut(Replay), OriginOut(Backfill), OriginOut(Startup)]
         == ["request", "schedule", "replay", "backfill", "startup"]
    ensures forall id: Id ::
              && RefOut(Reference(ToScope, id)).kind == "scope" && RefOut(Reference(ToWork, id)).kind == "work"
              && RefOut(Reference(ToEvent, id)).kind == "event"
    ensures forall w: Work :: WorkOut(w).correlationSource == if w.correlationSource.Local? then "local" else "external"
  {
    hide Ids.Canonical;
  }

  // ---- Round trips -----------------------------------------------------------------------------------------

  lemma IdSurvives(id: Id)
    ensures ParseId(Ids.Canonical(id)) == Ok(id)
  {
    Ids.PrintThenParse(id);
  }

  lemma ActorSurvives(a: Actor)
    ensures ActorIn(ActorOut(a)) == Ok(a)
  {
  }

  lemma RefSurvives(r: Reference)
    ensures RefIn(RefOut(r)) == Ok(r)
  {
    IdSurvives(r.id);
    hide ParseId, Ids.Canonical;
  }

  lemma AttributionSurvives(a: Attribution)
    ensures AttributionIn(AttrWire(ActorsOut(a.initiator), ActorsOut(a.onBehalfOf), a.tenant)) == Ok(a)
  {
    if a.initiator.Some? { ActorSurvives(a.initiator.value); }
    if a.onBehalfOf.Some? { ActorSurvives(a.onBehalfOf.value); }
    hide ActorIn, ActorOut;
  }

  lemma ReplaySurvives(r: ReplayInfo)
    ensures ReplayIn(ReplayWire(Ids.Canonical(r.runId), RefOut(r.source))) == Ok(r)
  {
    IdSurvives(r.runId);
    RefSurvives(r.source);
    hide ParseId, Ids.Canonical, RefIn, RefOut;
  }

  lemma CausationSurvives(c: Option<Reference>)
    ensures Optional(if c.Some? then Some(RefOut(c.value)) else None, RefIn) == Ok(c)
  {
    if c.Some? { RefSurvives(c.value); }
    hide RefOut;
  }

  lemma OriginSurvives(o: Option<Origin>)
    ensures Optional(if o.Some? then Some(OriginOut(o.value)) else None, OriginIn) == Ok(o)
  {
  }

  lemma ReplayFieldSurvives(r: Option<ReplayInfo>)
    ensures Optional(
              if r.Some? then Some(ReplayWire(Ids.Canonical(r.value.runId), RefOut(r.value.source))) else None,
              ReplayIn)
         == Ok(r)
  {
    if r.Some? { ReplaySurvives(r.value); }
    hide RefOut, Ids.Canonical;
  }

  /** Consistent work written to the wire and read back is the same work. */
  lemma WorkSurvives(w: Work)
    requires Consistent(w)
    ensures WorkIn(WorkOut(w)) == Ok(w)
  {
    IdSurvives(w.workId);
    IdSurvives(w.correlationId);
    CausationSurvives(w.causation);
    OriginSurvives(w.origin);
    AttributionSurvives(w.attribution);
    ReplayFieldSurvives(w.replay);
    hide ParseId, Ids.Canonical, RefIn, RefOut, ReplayIn, AttributionIn, ActorsOut, Objection, Optional, OriginIn,
      OriginOut;
  }

  /** Only consistent work comes off the wire. */
  lemma OnlyConsistent(w: WorkWire)
    requires WorkIn(w).Ok?
    ensures Consistent(WorkIn(w).value)
  {
    hide ParseId, RefIn, ReplayIn, AttributionIn;
  }

  // ---- What reading keeps of the wire -------------------------------------------------------------------

  function Lowered(s: string): string {
    seq(|s|, i requires 0 <= i < |s| => Ids.Lower(s[i]))
  }

  function NormalActor(a: ActorWire): ActorWire {
    if a.identity == Some("") then a.(identity := None) else a
  }

  function NormalActors(a: Option<ActorWire>): Option<ActorWire> {
    if a.Some? then Some(NormalActor(a.value)) else None
  }

  function NormalRef(r: RefWire): RefWire {
    r.(id := Lowered(r.id))
  }

  /** The same record with IDs in lower case and empty identities left out. */
  function NormalWork(w: WorkWire): WorkWire {
    w.(workId := Lowered(w.workId),
       correlationId := Lowered(w.correlationId),
       causation := if w.causation.Some? then Some(NormalRef(w.causation.value)) else None,
       attribution :=
         AttrWire(NormalActors(w.attribution.initiator), NormalActors(w.attribution.onBehalfOf), w.attribution.tenant),
       replay :=
         if w.replay.Some? then Some(ReplayWire(Lowered(w.replay.value.runId), NormalRef(w.replay.value.source)))
         else None)
  }

  lemma IdKept(text: string)
    requires ParseId(text).Ok?
    ensures Ids.Canonical(ParseId(text).value) == Lowered(text)
  {
    Ids.ParseThenPrint(text);
    Ids.DenotedBytes(text);
  }

  lemma RefKept(r: RefWire)
    requires RefIn(r).Ok?
    ensures RefOut(RefIn(r).value) == NormalRef(r)
  {
    IdKept(r.id);
    hide ParseId, Ids.Canonical, Lowered;
  }

  lemma ActorKept(a: ActorWire)
    requires ActorIn(a).Ok?
    ensures ActorOut(ActorIn(a).value) == NormalActor(a)
  {
  }

  lemma AttributionKept(a: AttrWire)
    requires AttributionIn(a).Ok?
    ensures var out := AttributionIn(a).value;
            && ActorsOut(out.initiator) == NormalActors(a.initiator)
            && ActorsOut(out.onBehalfOf) == NormalActors(a.onBehalfOf)
            && out.tenant == a.tenant
  {
    if a.initiator.Some? { ActorKept(a.initiator.value); }
    if a.onBehalfOf.Some? { ActorKept(a.onBehalfOf.value); }
    hide ActorIn, ActorOut, NormalActor;
  }

  lemma ReplayKept(r: ReplayWire)
    requires ReplayIn(r).Ok?
    ensures var out := ReplayIn(r).value;
            ReplayWire(Ids.Canonical(out.runId), RefOut(out.source))
              == ReplayWire(Lowered(r.runId), NormalRef(r.source))
  {
    IdKept(r.runId);
    RefKept(r.source);
    hide ParseId, RefIn, RefOut, Ids.Canonical, Lowered;
  }

  lemma OriginKept(s: string)
    requires OriginIn(s).Ok?
    ensures OriginOut(OriginIn(s).value) == s
  {
  }

  /**
   * Reading keeps everything the wire says: work that is accepted writes back as the same
   * record, with IDs in lower case and empty identities left out.
   */
  lemma WireKept(w: WorkWire)
    requires WorkIn(w).Ok?
    ensures WorkOut(WorkIn(w).value) == NormalWork(w)
  {
    IdKept(w.workId);
    IdKept(w.correlationId);
    if w.causation.Some? { RefKept(w.causation.value); }
    if w.origin.Some? { OriginKept(w.origin.value); }
    AttributionKept(w.attribution);
    if w.replay.Some? { ReplayKept(w.replay.value); }
    hide ParseId, Ids.Canonical, RefIn, RefOut, ReplayIn, AttributionIn, ActorsOut, NormalActors, NormalRef,
      Objection, Lowered, OriginIn, OriginOut;
  }

  lemma LoweredAlike(text: string)
    ensures ParseId(Lowered(text)) == ParseId(text)
  {
    Ids.LowerDenotes(text);
    hide Ids.Denoted, Ids.Lower;
  }

  lemma RefsAlike(r: RefWire)
    ensures RefIn(NormalRef(r)) == RefIn(r)
  {
    LoweredAlike(r.id);
    hide ParseId, Lowered;
  }

  lemma AttributionsAlike(a: AttrWire)
    ensures AttributionIn(AttrWire(NormalActors(a.initiator), NormalActors(a.onBehalfOf), a.tenant))
         == AttributionIn(a)
  {
    assert forall x: ActorWire :: ActorIn(NormalActor(x)) == ActorIn(x);
    hide ActorIn, NormalActor, NewAttribution;
  }

  lemma ReplaysAlike(r: ReplayWire)
    ensures ReplayIn(ReplayWire(Lowered(r.runId), NormalRef(r.source))) == ReplayIn(r)
  {
    LoweredAlike(r.runId);
    RefsAlike(r.source);
    hide ParseId, Lowered, RefIn, NormalRef;
  }

  /** A record reads as its normal form does, to the same work or the same refusal. */
  lemma NormalAlike(w: WorkWire)
    ensures WorkIn(NormalWork(w)) == WorkIn(w)
  {
    LoweredAlike(w.workId);
    LoweredAlike(w.correlationId);
    if w.causation.Some? { RefsAlike(w.causation.value); }
    AttributionsAlike(w.attribution);
    if w.replay.Some? { ReplaysAlike(w.replay.value); }
    hide ParseId, RefIn, ReplayIn, AttributionIn, NormalActors, NormalRef, Objection, Lowered, OriginIn, NewOperation;
  }

  /**
   * A record is accepted as some work exactly if that work is consistent and writes back
   * as the record, up to the case of IDs and empty identities.
   */
  lemma WorkExactly(w: WorkWire, work: Work)
    ensures WorkIn(w) == Ok(work) <==> Consistent(work) && WorkOut(work) == NormalWork(w)
  {
    if WorkIn(w) == Ok(work) {
      WireKept(w);
      OnlyConsistent(w);
    }
    if Consistent(work) {
      WorkSurvives(work);
      NormalAlike(w);
    }
    hide WorkIn, WorkOut, NormalWork, Consistent;
  }

  /** Everything a history reaches goes over the wire unchanged. */
  lemma LineageSurvives(root: Stage, links: seq<Link>)
    requires Sound(root) && Reach(root, links).Some?
    ensures var work := Reach(root, links).value.Context(); WorkIn(WorkOut(work)) == Ok(work)
  {
    Lineage(root, links);
    var reached := Reach(root, links).value;
    WorkSurvives(reached.Context());
    hide WorkIn, WorkOut;
  }

  // ---- Event types --------------------------------------------------------------------------------------------

  predicate TypeChar(c: char) {
    'a' <= c <= 'z' || '0' <= c <= '9' || c in "_.-"
  }

  predicate DigitChar(c: char) {
    '0' <= c <= '9'
  }

  predicate MarkAt(s: string, at: nat) {
    at + 2 <= |s| && s[at] == '.' && s[at + 1] == 'v'
  }

  /** Where the last ".v" before position `to` starts. */
  function LastMark(s: string, to: nat): (at: Option<nat>)
    requires to <= |s|
    ensures at.Some? ==> at.value + 2 <= to && MarkAt(s, at.value)
  {
    if to < 2 then None
    else if MarkAt(s, to - 2) then Some(to - 2)
    else LastMark(s, to - 1)
  }

  predicate ValidType(s: string) {
    match LastMark(s, |s|)
    case None => false
    case Some(at) => |s| <= 128 && PrefixAndVersion(s[..at], s[at + 2..])
  }

  predicate PrefixAndVersion(prefix: string, version: string) {
    && 0 < |prefix| <= 120 && (forall i :: 0 <= i < |prefix| ==> TypeChar(prefix[i]))
    && 0 < |version| <= 6 && version[0] != '0' && (forall i :: 0 <= i < |version| ==> DigitChar(version[i]))
  }

  /** The position is the last mark when no later one stands before `to`. */
  lemma {:induction false} LastMarkIs(s: string, to: nat, at: nat)
    requires at + 2 <= to <= |s| && MarkAt(s, at)
    requires forall k: nat :: at < k && k + 2 <= to ==> !MarkAt(s, k)
    ensures LastMark(s, to) == Some(at)
  {
    if !MarkAt(s, to - 2) { LastMarkIs(s, to - 1, at); }
  }

  /** Digits hold no mark, so the split is the only one: a type is a prefix, ".v" and a version. */
  lemma TypeIsVersioned(prefix: string, version: string)
    requires PrefixAndVersion(prefix, version)
    ensures ValidType(prefix + ".v" + version)
  {
    var s := prefix + ".v" + version;
    var at := |prefix|;
    assert s[..at] == prefix && s[at + 2..] == version && MarkAt(s, at);
    forall k: nat | at < k && k + 2 <= |s| ensures !MarkAt(s, k) {
      assert k == at + 1 || s[k] == version[k - at - 2];
    }
    LastMarkIs(s, |s|, at);
  }

  /** Accepted types are exactly those of the form prefix, ".v", version. */
  lemma ValidTypes(s: string)
    ensures ValidType(s)
            <==> exists prefix, version :: s == prefix + ".v" + version && PrefixAndVersion(prefix, version)
  {
    if ValidType(s) {
      var at := LastMark(s, |s|).value;
      assert s == s[..at] + ".v" + s[at + 2..];
    }
    if prefix, version :| s == prefix + ".v" + version && PrefixAndVersion(prefix, version) {
      TypeIsVersioned(prefix, version);
    }
  }

  /** A version is a number from 1 to 999999 in decimal, and a prefix has no capitals and no colons. */
  lemma TypesExactly(prefix: string, version: string)
    ensures PrefixAndVersion(prefix, version) <==>
              && 1 <= |prefix| <= 120
              && (forall c :: c in prefix ==> Letter(c) || Provenance.Digit(c) || c in "-._")
              && exists n: nat :: 1 <= n <= 999999 && version == Decimals.Decimal(n)
  {
    assert forall i :: 0 <= i < |prefix| ==> prefix[i] in prefix;
    assert Decimals.Pow10(6) == 1000000 by { assert Decimals.Pow10(3) == 1000; }
    if PrefixAndVersion(prefix, version) {
      Decimals.NumberPrints(version);
      Decimals.Pow10Grows(|version|, 6);
    }
    if n: nat :| 1 <= n <= 999999 && version == Decimals.Decimal(n) { Decimals.DecimalShape(n, 6); }
  }

  // ---- Envelopes ------------------------------------------------------------------------------------------------

  /** An envelope as the module holds one: its ID, its re-encoded record and its work. */
  datatype Envelope = Envelope(id: Id, wire: Wire, work: Work)

  predicate Integral(r: real) {
    r == r.Floor as real
  }

  /** The length of a record's text, which the JSON library decides. */
  type Sizing = Wire -> nat

  /** Decodes a text of a given length that holds a record. Both that text and the re-encoded one are limited. */
  function Decode(size: Sizing, length: nat, w: Wire): Result<Envelope> {
    if length > MAX_BYTES then Err(INVALID)
    else if w.v != 1.0 || !ValidType(w.eventType) || !(0.0 <= w.occurredAtMs <= MAX_TIME_MS as real)
         || !Integral(w.occurredAtMs) || !w.payload.Object?
    then Err(INVALID)
    else
      var id :- ParseId(w.id);
      var work :- WorkIn(w.work);
      var out := w.(work := WorkOut(work), id := Ids.Canonical(id));
      if size(out) > MAX_BYTES then Err(INVALID) else Ok(Envelope(id, out, work))
  }

  function NewRecord(id: Id, name: string, occurredAt: int, work: Work, payload: Json): Wire {
    Wire(1.0, Ids.Canonical(id), name, occurredAt as real, WorkOut(work), payload)
  }

  function NewEnvelope(size: Sizing, id: Id, name: string, occurredAt: int, work: Work, payload: Json)
    : Result<Envelope>
  {
    var w := NewRecord(id, name, occurredAt, work, payload);
    Decode(size, size(w), w)
  }

  /** Re-encoding settles at once: an envelope's own record decodes to that envelope. */
  lemma DecodeSettles(size: Sizing, length: nat, w: Wire)
    requires Decode(size, length, w).Ok?
    ensures var e := Decode(size, length, w).value;
            Decode(size, size(e.wire), e.wire) == Ok(e)
  {
    var e := Decode(size, length, w).value;
    IdSurvives(e.id);
    OnlyConsistent(w.work);
    WorkSurvives(e.work);
    hide ParseId, WorkIn, WorkOut, Ids.Canonical, ValidType, Consistent;
  }

  /**
   * A new envelope is accepted exactly for a versioned type, a time in range, an object and
   * a record within the limit, and keeps what it was given.
   */
  lemma NewKeeps(size: Sizing, id: Id, name: string, occurredAt: int, work: Work, payload: Json)
    requires Consistent(work)
    ensures var w := NewRecord(id, name, occurredAt, work, payload);
            var e := NewEnvelope(size, id, name, occurredAt, work, payload);
            && (e.Ok? <==>
                  && ValidType(name) && 0 <= occurredAt <= 253402300799999 && payload.Object?
                  && size(w) <= 65536)
            && (e.Ok? ==> e.value == Envelope(id, w, work))
  {
    IdSurvives(id);
    WorkSurvives(work);
    hide ParseId, WorkIn, WorkOut, Ids.Canonical, ValidType, Consistent;
  }

  /**
   * A record is decoded exactly if it is of version 1, within the limit before and after
   * re-encoding, of a valid type, at whole milliseconds in range, with an object for
   * payload, a valid ID and valid work; it is kept with its IDs in lower case and empty
   * identities left out.
   */
  lemma DecodesExactly(size: Sizing, length: nat, w: Wire)
    ensures var normal := w.(id := Lowered(w.id), work := NormalWork(w.work));
            && (Decode(size, length, w).Ok? <==>
                  && w.v == 1.0 && length <= 65536 && ValidType(w.eventType) && w.payload.Object?
                  && 0.0 <= w.occurredAtMs <= 253402300799999.0 && w.occurredAtMs.Floor as real == w.occurredAtMs
                  && ParseId(w.id).Ok? && WorkIn(w.work).Ok? && size(normal) <= 65536)
            && (Decode(size, length, w).Ok? ==>
                  var e := Decode(size, length, w).value;
                  e.wire == normal && ParseId(w.id) == Ok(e.id) && WorkIn(w.work) == Ok(e.work))
  {
    if ParseId(w.id).Ok? { IdKept(w.id); }
    if WorkIn(w.work).Ok? { WireKept(w.work); }
    hide ParseId, WorkIn, WorkOut, Ids.Canonical, ValidType, Lowered, NormalWork;
  }

  // ---- Stored events --------------------------------------------------------------------------------------------

  /** What the database compares: numbers by value, however they were written. */
  function Numeric(j: Json): Json {
    match j
    case Number(r, _) => Number(r, false)
    case Array(items) => Array(seq(|items|, i requires 0 <= i < |items| => Numeric(items[i])))
    case Object(fields) => Object(map k | k in fields :: Numeric(fields[k]))
    case _ => j
  }

  /** An envelope together with the text it is stored and sent as. */
  datatype Event = Event(envelope: Envelope, raw: string) {
    function Key(): Id {
      envelope.id
    }
    /** The database's equality of JSON values. */
    predicate Same(other: Event) {
      envelope.wire.(payload := Numeric(envelope.wire.payload))
      == other.envelope.wire.(payload := Numeric(other.envelope.wire.payload))
    }
    /** The JSON library's equality, which tells 1 from 1.0. */
    predicate Alike(other: Event) {
      envelope.wire == other.envelope.wire
    }
  }

  /** Equal as JSON values, part by part, where numbers are equal by value. */
  predicate Equal(a: Json, b: Json) {
    match a
    case Number(r, _) => b.Number? && b.r == r
    case Array(items) =>
      b.Array? && |items| == |b.items| && forall i :: 0 <= i < |items| ==> Equal(items[i], b.items[i])
    case Object(fields) =>
      b.Object? && fields.Keys == b.fields.Keys && forall k :: k in fields ==> Equal(fields[k], b.fields[k])
    case _ => a == b
  }

  lemma {:induction false} NumericExactly(a: Json, b: Json)
    ensures Numeric(a) == Numeric(b) <==> Equal(a, b)
  {
    if a.Array? && b.Array? {
      forall i | 0 <= i < |a.items| && i < |b.items|
        ensures Numeric(a.items[i]) == Numeric(b.items[i]) <==> Equal(a.items[i], b.items[i])
      {
        NumericExactly(a.items[i], b.items[i]);
      }
      ItemsNumeric(a.items, b.items);
    } else if a.Object? && b.Object? {
      forall k | k in a.fields && k in b.fields
        ensures Numeric(a.fields[k]) == Numeric(b.fields[k]) <==> Equal(a.fields[k], b.fields[k])
      {
        NumericExactly(a.fields[k], b.fields[k]);
      }
      FieldsNumeric(a.fields, b.fields);
    }
  }

  lemma ItemsNumeric(a: seq<Json>, b: seq<Json>)
    ensures Numeric(Array(a)) == Numeric(Array(b))
       <==> |a| == |b| && forall i :: 0 <= i < |a| ==> Numeric(a[i]) == Numeric(b[i])
  {
    var x, y := Numeric(Array(a)).items, Numeric(Array(b)).items;
    assert forall i :: 0 <= i < |a| ==> x[i] == Numeric(a[i]);
    assert forall i :: 0 <= i < |b| ==> y[i] == Numeric(b[i]);
    if |a| == |b| && forall i :: 0 <= i < |a| ==> Numeric(a[i]) == Numeric(b[i]) { assert x == y; }
  }

  lemma FieldsNumeric(a: map<string, Json>, b: map<string, Json>)
    ensures Numeric(Object(a)) == Numeric(Object(b))
       <==> a.Keys == b.Keys && forall k :: k in a ==> Numeric(a[k]) == Numeric(b[k])
  {
    var x, y := Numeric(Object(a)).fields, Numeric(Object(b)).fields;
    assert x.Keys == a.Keys && y.Keys == b.Keys;
    assert forall k :: k in a ==> x[k] == Numeric(a[k]);
    assert forall k :: k in b ==> y[k] == Numeric(b[k]);
    if a.Keys == b.Keys && forall k :: k in a ==> Numeric(a[k]) == Numeric(b[k]) { assert x == y; }
  }

  /**
   * The database takes records for the same exactly when they are equal part by part, with
   * numbers in the payload by value; the library also tells how those were written.
   */
  lemma SameExactly(a: Event, b: Event)
    ensures var x, y := a.envelope.wire, b.envelope.wire;
            && (a.Same(b) <==> x == y.(payload := x.payload) && Equal(x.payload, y.payload))
            && (a.Alike(b) <==> x == y)
  {
    NumericExactly(a.envelope.wire.payload, b.envelope.wire.payload);
  }

  /** `insert`: the first envelope under an ID stays; a repeat must be the same value. */
  function Merge(stored: map<Id, Event>, event: Event): Result<Event> {
    if event.Key() !in stored then Ok(event)
    else if stored[event.Key()].Same(event) then Ok(stored[event.Key()])
    else Err("events.id_reused")
  }
}
