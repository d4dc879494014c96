/** Audit: durable records of identity events, written as one consumer of the mailbox. */
module Audit {
  import opened Results
  import opened Provenance
  import opened Envelopes
  import opened Mailbox
  import Delivery
  import Dispatch
  import Ids

  const INVALID_EVENT := "audit.invalid_event"
  const INVALID_RECORD := "audit.invalid_record"

  datatype Record = Record(
    id: Id, eventId: Id, occurredAt: int, recordedAt: int, action: string, outcome: string, actorKind: string,
    actorIdentity: string, subjectId: Id, tenant: Option<string>, workId: Id, correlationId: Id,
    causationId: Option<Id>,
    origin: Option<string>, details: Json)

  type Records = map<Id, Record>

  predicate Supported(eventType: string) {
    eventType in {
      "identity.principal.registered.v1", "identity.email.verified.v1", "identity.session.created.v1",
      "identity.session.revoked.v1", "identity.sessions.revoked.v1", "identity.password.changed.v1"
    }
  }

  /** The payload's `principal_id`, if it is a text that reads as an ID. */
  function Subject(payload: Json): Option<Id> {
    if payload.Object? && "principal_id" in payload.fields && payload.fields["principal_id"].Text?
       && ParseId(payload.fields["principal_id"].s).Ok?
    then Some(ParseId(payload.fields["principal_id"].s).value)
    else None
  }

  function Translate(event: Event, recordedAt: int): Result<Option<Record>> {
    var wire := event.envelope.wire;
    var work := event.envelope.work;
    if ParseId(wire.id) != Ok(event.Key()) then Err(INVALID_EVENT)
    else if !Supported(wire.eventType) then Ok(None)
    else if !(0.0 <= wire.occurredAtMs <= MAX_TIME_MS as real) || !Integral(wire.occurredAtMs) then Err(INVALID_EVENT)
    else if Subject(wire.payload).None? then Err(INVALID_EVENT)
    else
      var initiator := work.attribution.initiator;
      Ok(Some(Record(
        event.Key(), event.Key(), wire.occurredAtMs.Floor, recordedAt, wire.eventType, "succeeded",
        if initiator.Some? then KindOut(initiator.value.kind) else "anonymous",
        if initiator.Some? then initiator.value.identity else "",
        Subject(wire.payload).value, work.attribution.tenant, work.workId, work.correlationId,
        if work.causation.Some? then Some(work.causation.value.id) else None,
        if work.origin.Some? then Some(OriginOut(work.origin.value)) else None,
        wire.payload)))
  }

  /** A record names the work it came from: its IDs, its tenant, its initiator, its cause and its origin. */
  predicate Attributed(r: Record, work: Work) {
    && r.workId == work.workId && r.correlationId == work.correlationId && r.tenant == work.attribution.tenant
    && KindIn(r.actorKind)
       == Ok(if work.attribution.initiator.Some? then work.attribution.initiator.value.kind else Anonymous)
    && r.actorIdentity == (if work.attribution.initiator.Some? then work.attribution.initiator.value.identity else "")
    && (r.causationId.Some? <==> work.causation.Some?)
    && (work.causation.Some? ==> r.causationId == Some(work.causation.value.id))
    && (r.origin.Some? <==> work.origin.Some?)
    && (work.origin.Some? ==> OriginIn(r.origin.value) == Ok(work.origin.value))
  }

  lemma RecordAttributed(event: Event, recordedAt: int)
    requires Translate(event, recordedAt).Ok? && Translate(event, recordedAt).value.Some?
    ensures Attributed(Translate(event, recordedAt).value.value, event.envelope.work)
  {
    hide ParseId, Supported, Subject, Ids.Id.WellFormed, Ids.Octets;
  }

  /** The six facts audited, and nothing else. */
  const AUDITED := [
    "identity.principal.registered.v1", "identity.email.verified.v1", "identity.session.created.v1",
    "identity.session.revoked.v1", "identity.sessions.revoked.v1", "identity.password.changed.v1"
  ]

  lemma AuditedSupported(eventType: string)
    ensures eventType in AUDITED <==> Supported(eventType)
  {
  }

  /**
   * What becomes of an event: of the six audited types a record if its time is whole
   * milliseconds in range and its payload names a principal, and a refusal if not; of any
   * other type nothing.
   */
  lemma TranslatesExactly(event: Event, recordedAt: int)
    ensures var wire, t := event.envelope.wire, Translate(event, recordedAt);
            && (t == Ok(None) <==> ParseId(wire.id) == Ok(event.Key()) && wire.eventType !in AUDITED)
            && (t.Ok? && t.value.Some? <==>
                  && ParseId(wire.id) == Ok(event.Key()) && wire.eventType in AUDITED
                  && 0.0 <= wire.occurredAtMs <= 253402300799999.0
                  && wire.occurredAtMs.Floor as real == wire.occurredAtMs
                  && wire.payload.Object? && "principal_id" in wire.payload.fields
                  && wire.payload.fields["principal_id"].Text? && ParseId(wire.payload.fields["principal_id"].s).Ok?)
            && (t.Err? ==> t.code == "audit.invalid_event")
  {
    hide ParseId;
    AuditedSupported(event.envelope.wire.eventType);
  }

  /**
   * What an event says survives into its record: a supported fact about a principal,
   * put into an envelope under some work, becomes a record of that principal, time and
   * work.
   */
  lemma RecordSays(
      size: Sizing, id: Id, name: string, at: int, work: Work, fields: map<string, Json>, subject: Id, raw: string,
      recordedAt: int)
    requires Consistent(work) && Supported(name) && 0 <= at <= MAX_TIME_MS
    requires "principal_id" in fields && fields["principal_id"] == Text(Ids.Canonical(subject))
    requires NewEnvelope(size, id, name, at, work, Object(fields)).Ok?
    ensures var e := Event(NewEnvelope(size, id, name, at, work, Object(fields)).value, raw);
            && Translate(e, recordedAt).Ok? && Translate(e, recordedAt).value.Some?
            && var r := Translate(e, recordedAt).value.value;
               && r.eventId == r.id == id && r.occurredAt == at && r.recordedAt == recordedAt
               && r.action == name && r.outcome == "succeeded" && r.subjectId == subject && r.details == Object(fields)
               && Attributed(r, work)
  {
    NewKeeps(size, id, name, at, work, Object(fields));
    IdSurvives(id);
    IdSurvives(subject);
    hide NewEnvelope, Supported, ParseId, Ids.Canonical, WorkOut, ValidType, Consistent, Ids.Id.WellFormed,
      Ids.Octets, Attributed, KindOut, OriginOut;
    RecordAttributed(Event(NewEnvelope(size, id, name, at, work, Object(fields)).value, raw), recordedAt);
  }

  /** The table's own checks, which the statement fails on. */
  predicate Checked(r: Record) {
    && 0 <= r.occurredAt <= MAX_TIME_MS && 0 <= r.recordedAt <= MAX_TIME_MS
    && 1 <= |r.action| <= 128 && r.outcome == "succeeded"
    && r.actorKind in {"anonymous", "user", "service", "system"}
    && r.details.Object?
  }

  /** `insert`: `ON CONFLICT DO NOTHING`, so a record once there stays. */
  function Insert(records: Records, r: Record): Result<Records> {
    if r.id != r.eventId || r.action == "" || r.outcome != "succeeded" || r.occurredAt < 0 || r.recordedAt < 0
       || !r.details.Object?
    then Err(INVALID_RECORD)
    else if !Checked(r) then Err("database.failed")
    else Ok(if r.eventId in records then records else records[r.eventId := r])
  }

  /** The audit consumer's callback, recording at one time. */
  function Handle(records: Records, event: Event, recordedAt: int): Ran<Records> {
    match Translate(event, recordedAt)
    case Err(code) => Ran(records, Some(code))
    case Ok(None) => Ran(records, None)
    case Ok(Some(record)) =>
      match Insert(records, record)
      case Err(code) => Ran(records, Some(code))
      case Ok(after) => Ran(after, None)
  }

  /** A record is refused exactly if a field is not as it must be; otherwise the first of its event stays. */
  lemma AddsExactly(records: Records, r: Record)
    ensures Insert(records, r).Ok? <==>
              && r.id == r.eventId && 1 <= |r.action| <= 128 && r.outcome == "succeeded" && r.details.Object?
              && 0 <= r.occurredAt <= 253402300799999 && 0 <= r.recordedAt <= 253402300799999
              && KindIn(r.actorKind).Ok?
    ensures Insert(records, r).Ok? ==>
              Insert(records, r).value == if r.eventId in records then records else records[r.eventId := r]
  {
  }

  /** The table takes the record of every translated event: at a time in range the callback refuses no other event. */
  lemma HandleAccepts(records: Records, event: Event, recordedAt: int)
    requires 0 <= recordedAt <= 253402300799999
    ensures Handle(records, event, recordedAt).rejected.Some? <==> Translate(event, recordedAt).Err?
  {
    hide ParseId;
  }

  class Table {
    var records: Records

    constructor ()
      ensures records == map[]
    {
      records := map[];
    }

    method Add(r: Record) returns (reply: Result<bool>)
      modifies this
      ensures match Insert(old(records), r)
              case Ok(after) => reply.Ok? && records == after
              case Err(code) => reply == Err(code) && records == old(records)
    {
      if r.id != r.eventId || r.action == "" || r.outcome != "succeeded" || r.occurredAt < 0 || r.recordedAt < 0
         || !r.details.Object?
      {
        return Err(INVALID_RECORD);
      }
      if !Checked(r) { return Err("database.failed"); }
      if r.eventId !in records { records := records[r.eventId := r]; }
      return Ok(true);
    }
  }

  // ---- The audit consumer among others ------------------------------------------------------------------

  /** The callback is the audit consumer's, at some recording time. */
  ghost predicate Auditing(handle: (Records, Event) -> Ran<Records>) {
    exists at: int {:trigger RecordsAt(handle, at)} :: RecordsAt(handle, at)
  }

  ghost predicate RecordsAt(handle: (Records, Event) -> Ran<Records>, at: int) {
    forall records, event :: handle(records, event) == Handle(records, event, at)
  }

  /** Another consumer's callback: it never writes audit records. */
  ghost predicate Elsewhere(handle: (Records, Event) -> Ran<Records>) {
    forall records, event :: handle(records, event).db == records
  }

  ghost predicate Fits(auditor: Consumer, consumer: Consumer, handle: (Records, Event) -> Ran<Records>) {
    if consumer == auditor then Auditing(handle) else Elsewhere(handle)
  }

  ghost predicate FaithfulStep(auditor: Consumer, s: Step<Records>) {
    s.Consume? ==> Fits(auditor, s.consumer, s.handle)
  }

  ghost predicate Faithful(auditor: Consumer, steps: seq<Step<Records>>) {
    forall i :: 0 <= i < |steps| ==> FaithfulStep(auditor, steps[i])
  }

  ghost predicate FaithfulRuns(auditor: Consumer, attempts: seq<Attempt<Records>>) {
    forall i :: 0 <= i < |attempts| ==> Fits(auditor, attempts[i].key.1, attempts[i].handle)
  }

  lemma {:induction false} RunsFaithful(auditor: Consumer, steps: seq<Step<Records>>)
    requires Faithful(auditor, steps)
    ensures FaithfulRuns(auditor, Run(map[], steps).attempts)
  {
    hide Enabled, Fits, Consumed, Published;
    if steps != [] {
      var n := |steps| - 1;
      RunsFaithful(auditor, steps[..n]);
      assert FaithfulStep(auditor, steps[n]);
    }
  }

  /** Whether an event becomes a record does not depend on when. */
  predicate Recordable(event: Event) {
    Translate(event, 0).Ok? && Translate(event, 0).value.Some?
  }

  predicate IsRecordOf(record: Record, event: Event) {
    Translate(event, record.recordedAt) == Ok(Some(record))
  }

  lemma HandleWrites(records: Records, event: Event, at: int)
    ensures var ran := Handle(records, event, at);
            && (forall id :: id in records ==> id in ran.db && ran.db[id] == records[id])
            && (forall id :: id in ran.db && id !in records ==>
                  id == event.Key() && ran.rejected.None? && Recordable(event) && IsRecordOf(ran.db[id], event))
            && (ran.rejected.None? && Recordable(event) ==> event.Key() in ran.db)
            && (ran.rejected.None? ==> Translate(event, at).Ok?)
  {
    hide Subject, Supported, ParseId, Ids.Id.WellFormed, Ids.Octets;
  }

  /** An accepted run of the audit consumer on an event that becomes a record. */
  predicate Wrote(a: Attempt<Records>, auditor: Consumer, id: Id) {
    a.accepted && a.key == (id, auditor) && a.event.Key() == id && Recordable(a.event)
  }

  predicate SomeWrote(attempts: seq<Attempt<Records>>, auditor: Consumer, id: Id) {
    exists i :: 0 <= i < |attempts| && Wrote(attempts[i], auditor, id)
  }

  predicate Keyed(attempts: seq<Attempt<Records>>, mail: map<Id, Event>) {
    forall i :: 0 <= i < |attempts| ==>
      && attempts[i].key.0 in mail && attempts[i].event == mail[attempts[i].key.0]
      && attempts[i].event.Key() == attempts[i].key.0
  }

  lemma SomeWroteGrows(front: seq<Attempt<Records>>, last: Attempt<Records>, auditor: Consumer, id: Id)
    ensures SomeWrote(front + [last], auditor, id) <==> SomeWrote(front, auditor, id) || Wrote(last, auditor, id)
  {
    hide Wrote;
    var all := front + [last];
    if SomeWrote(front, auditor, id) {
      var i :| 0 <= i < |front| && Wrote(front[i], auditor, id);
      assert Wrote(all[i], auditor, id);
    }
    if Wrote(last, auditor, id) { assert Wrote(all[|front|], auditor, id); }
  }

  /** The records are those of the accepted audit runs, each the translation of its event. */
  ghost predicate Match(records: Records, auditor: Consumer, attempts: seq<Attempt<Records>>, mail: map<Id, Event>) {
    && (forall id :: id in records <==> SomeWrote(attempts, auditor, id))
    && (forall id :: id in records ==> id in mail && IsRecordOf(records[id], mail[id]))
  }

  lemma LastRun(auditor: Consumer, last: Attempt<Records>, before: Records)
    requires Fits(auditor, last.key.1, last.handle) && last.event.Key() == last.key.0
    requires last.accepted == last.handle(before, last.event).rejected.None?
    ensures var after := if last.accepted then last.handle(before, last.event).db else before;
            && (forall id :: id in after <==> id in before || Wrote(last, auditor, id))
            && (forall id :: id in before ==> id in after && after[id] == before[id])
            && (forall id :: id in after && id !in before ==> id == last.key.0 && IsRecordOf(after[id], last.event))
  {
    if last.key.1 == auditor {
      var at: int :| RecordsAt(last.handle, at);
      HandleWrites(before, last.event, at);
    }
    hide Handle, Recordable, IsRecordOf, Ids.Id.WellFormed, Ids.Octets;
  }

  lemma MatchGrows(
      auditor: Consumer, front: seq<Attempt<Records>>, last: Attempt<Records>, mail: map<Id, Event>, before: Records)
    requires Match(before, auditor, front, mail)
    requires Fits(auditor, last.key.1, last.handle) && last.key.0 in mail && last.event == mail[last.key.0]
    requires last.event.Key() == last.key.0
    requires last.accepted == last.handle(before, last.event).rejected.None?
    ensures Match(if last.accepted then last.handle(before, last.event).db else before, auditor, front + [last], mail)
  {
    LastRun(auditor, last, before);
    forall id { SomeWroteGrows(front, last, auditor, id); }
    hide Fits, SomeWrote, Wrote, IsRecordOf, Ids.Id.WellFormed, Ids.Octets;
  }

  lemma {:induction false} RecordsAreRuns(auditor: Consumer, attempts: seq<Attempt<Records>>, mail: map<Id, Event>)
    requires FaithfulRuns(auditor, attempts) && Keyed(attempts, mail) && Truthful(map[], attempts)
    ensures Match(Replayed(map[], attempts), auditor, attempts, mail)
  {
    hide Fits, SomeWrote, IsRecordOf, Ids.Id.WellFormed, Ids.Octets;
    if attempts == [] {
      Nobody(auditor);
    } else {
      var n := |attempts| - 1;
      var front, last := attempts[..n], attempts[n];
      assert attempts == front + [last];
      TruthfulFront(map[], front, last);
      RecordsAreRuns(auditor, front, mail);
      MatchGrows(auditor, front, last, mail, Replayed(map[], front));
      hide Match;
    }
  }

  lemma Nobody(auditor: Consumer)
    ensures forall id :: !SomeWrote([], auditor, id)
  {
  }

  lemma {:induction false} CountedIsThere(attempts: seq<Attempt<Records>>, key: Key)
    ensures Count(attempts, key, true) > 0
            <==> exists i :: 0 <= i < |attempts| && attempts[i].key == key && attempts[i].accepted
  {
    if attempts != [] {
      var n := |attempts| - 1;
      CountedIsThere(attempts[..n], key);
      assert forall i :: 0 <= i < n ==> attempts[..n][i] == attempts[i];
    }
  }

  lemma WroteIff(auditor: Consumer, d: Desk<Records>, id: Id)
    requires Keyed(d.attempts, d.box.mail)
    ensures SomeWrote(d.attempts, auditor, id) <==>
              && (exists i :: 0 <= i < |d.attempts| && d.attempts[i].key == (id, auditor) && d.attempts[i].accepted)
              && id in d.box.mail && Recordable(d.box.mail[id])
  {
    hide Recordable, Ids.Id.WellFormed, Ids.Octets;
  }

  /** The record of an event is there exactly when its receipt is processed and it translates to one. */
  predicate Exact(auditor: Consumer, box: Box<Records>, id: Id) {
    var processed := (id, auditor) in box.receipts && box.receipts[(id, auditor)].state.Processed?;
    && (id in box.db <==> processed && id in box.mail && Recordable(box.mail[id]))
    && (id in box.db ==> IsRecordOf(box.db[id], box.mail[id]))
  }

  lemma SoundExact(auditor: Consumer, d: Desk<Records>, id: Id)
    requires Mailbox.Sound(map[], d) && FaithfulRuns(auditor, d.attempts)
    ensures Exact(auditor, d.box, id)
  {
    RecordsAreRuns(auditor, d.attempts, d.box.mail);
    SoundOnce(map[], d, (id, auditor));
    CountedIsThere(d.attempts, (id, auditor));
    WroteIff(auditor, d, id);
    hide Recordable, IsRecordOf, Replayed, Count, SomeWrote;
  }

  /**
   * For every run, with redelivery, rejected events and transactions that do not commit,
   * the audit records are exactly the translations of the events its receipts call
   * processed: one for each that translates to a record, and no other.
   */
  lemma RecordsExact(auditor: Consumer, steps: seq<Step<Records>>, id: Id)
    requires Faithful(auditor, steps)
    ensures Exact(auditor, Run(map[], steps).box, id)
  {
    RunSound(map[], steps);
    RunsFaithful(auditor, steps);
    SoundExact(auditor, Run(map[], steps), id);
    hide Run, Exact, Mailbox.Sound, FaithfulRuns;
  }

  // ---- From the outbox to the record -----------------------------------------------------------------------

  ghost function Delivered(steps: seq<Delivery.Step<Records>>): Delivery.World<Records> {
    Delivery.Run<Records>(map[], steps)
  }

  ghost predicate FaithfulReading(auditor: Consumer, s: Delivery.Step<Records>) {
    s.Reading? ==> FaithfulStep(auditor, s.reading)
  }

  lemma {:induction false} DeliveriesFaithful(auditor: Consumer, steps: seq<Delivery.Step<Records>>)
    requires forall i :: 0 <= i < |steps| ==> FaithfulReading(auditor, steps[i])
    ensures FaithfulRuns(auditor, Delivered(steps).box.attempts)
  {
    hide Delivery.Enabled, Mailbox.Enabled, Fits, Consumed, Published, Dispatch.Next;
    if steps != [] {
      var n := |steps| - 1;
      DeliveriesFaithful(auditor, steps[..n]);
      assert FaithfulReading(auditor, steps[n]);
    }
  }

  /**
   * Every audit record is the translation of the envelope that was enqueued under its
   * event ID, up to the spelling of equal JSON, whichever way the event travelled.
   */
  lemma RecordsOfEnqueued(auditor: Consumer, steps: seq<Delivery.Step<Records>>, id: Id)
    requires forall i :: 0 <= i < |steps| ==> FaithfulReading(auditor, steps[i])
    requires id in Delivered(steps).box.box.db
    ensures var w := Delivered(steps);
            && id in w.box.box.mail && IsRecordOf(w.box.box.db[id], w.box.box.mail[id])
            && id in w.desk.rows && w.box.box.mail[id] == w.desk.rows[id].event
  {
    Delivery.ReadersSound<Records>(map[], steps);
    DeliveriesFaithful(auditor, steps);
    SoundExact(auditor, Delivered(steps).box, id);
    Delivery.NoConflict<Records>(map[], steps, id, id);
    Delivery.NothingLost<Records>(map[], steps, id);
    hide Delivery.Run, IsRecordOf, Recordable, Delivery.Flying, Delivery.Arrived, Mailbox.Sound, FaithfulRuns,
      Ids.Id.WellFormed, Ids.Octets, Dispatch.Count, Merge, Delivery.InMail;
  }
}
