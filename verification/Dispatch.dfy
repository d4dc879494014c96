/**
 * Dispatchers over the outbox: claim, hand to the publisher, then acknowledge or
 * release, with crashes, lost replies and expired leases anywhere.
 */
module Dispatch {
  import opened Results
  import opened Provenance
  import opened Envelopes
  import opened Outbox
  import Ids

  /** How far a dispatcher holding a grant has come. */
  datatype Phase = Held | Accepted | Refused

  datatype Flight = Flight(event: Event, attempt: nat, phase: Phase)

  /** The outbox, the dispatchers in flight by token, every token used, and what has happened so far. */
  datatype Desk = Desk(rows: Rows, flights: map<Id, Flight>, tokens: set<Id>, claims: seq<Id>, publishes: seq<Id>)

  datatype Step =
    | Enqueue(event: Event, now: int)
    | Claim(token: Id, now: int, locked: set<Id>, pick: Option<Id>, told: bool)
    | Publish(token: Id, accepted: bool)
    | Finish(token: Id, now: int, applied: bool)
    | Crash(token: Id)

  const EMPTY := Desk(map[], map[], {}, [], [])

  /** Claims use new tokens and select as the query does; a dispatcher goes through its phases in order. */
  ghost predicate Enabled(d: Desk, s: Step) {
    match s
    case Enqueue(_, _) => true
    case Claim(token, now, locked, pick, _) => token !in d.tokens && Selects(Buried(d.rows, now), locked, now, pick)
    case Publish(token, _) => token in d.flights && d.flights[token].phase.Held?
    case Finish(token, _, _) => token in d.flights && !d.flights[token].phase.Held?
    case Crash(token) => token in d.flights
  }

  function OrElse(r: Result<Rows>, rows: Rows): Rows {
    if r.Ok? then r.value else rows
  }

  /** A claim may commit without its dispatcher learning of it; a finish may or may not commit. */
  ghost function Next(d: Desk, s: Step): Desk
    requires Enabled(d, s)
  {
    match s
    case Enqueue(event, now) => d.(rows := OrElse(Enqueued(d.rows, event, now), d.rows))
    case Claim(token, now, _, pick, told) =>
      var rows := Claimed(d.rows, pick, token, now);
      Desk(rows,
           if told && pick.Some?
           then d.flights[token := Flight(rows[pick.value].event, rows[pick.value].attempts, Held)]
           else d.flights,
           d.tokens + {token},
           if pick.Some? then d.claims + [pick.value] else d.claims,
           d.publishes)
    case Publish(token, accepted) =>
      var flight := d.flights[token];
      d.(flights := d.flights[token := flight.(phase := if accepted then Accepted else Refused)],
         publishes := d.publishes + [flight.event.Key()])
    case Finish(token, now, applied) =>
      var flight := d.flights[token];
      d.(flights := d.flights - {token},
         rows := if applied
                 then OrElse(Finished(d.rows, flight.event.Key(), token, flight.phase.Accepted?, now), d.rows)
                 else d.rows)
    case Crash(token) => d.(flights := d.flights - {token})
  }

  /** The state after any interleaving; steps that are not ready do not happen. */
  ghost function Run(d: Desk, steps: seq<Step>): Desk {
    if steps == [] then d
    else
      var n := |steps| - 1;
      var before := Run(d, steps[..n]);
      if Enabled(before, steps[n]) then Next(before, steps[n]) else before
  }

  // ---- What every step keeps --------------------------------------------------------------------------

  function Count(ids: seq<Id>, id: Id): nat {
    if ids == [] then 0
    else Count(ids[..|ids| - 1], id) + if ids[|ids| - 1] == id then 1 else 0
  }

  lemma CountGrows(ids: seq<Id>, last: Id, id: Id)
    ensures Count(ids + [last], id) == Count(ids, id) + if last == id then 1 else 0
  {
    assert (ids + [last])[..|ids|] == ids;
  }

  /** One row: its attempts are its claims, and its state fits them. */
  predicate RowSound(row: Row, id: Id, claims: nat, tokens: set<Id>) {
    && row.event.Key() == id
    && row.attempts == claims <= MAX_ATTEMPTS
    && (row.state.Pending? && row.attempts == MAX_ATTEMPTS ==> row.lease.Some?)
    && (!row.state.Pending? ==> row.lease.None?)
    && (row.state.Dead? ==> row.attempts == MAX_ATTEMPTS)
    && (row.state.Sent? ==> row.attempts > 0)
    && (row.lease.Some? ==> row.lease.value.token in tokens && row.attempts > 0)
  }

  predicate RowsSound(d: Desk) {
    forall id :: id in d.rows ==> RowSound(d.rows[id], id, Count(d.claims, id), d.tokens)
  }

  predicate FlightsSound(d: Desk) {
    forall t :: t in d.flights ==>
      && t in d.tokens && d.flights[t].event.Key() in d.rows
      && d.flights[t].event == d.rows[d.flights[t].event.Key()].event
  }

  predicate OneLeaseEach(rows: Rows) {
    forall i, j :: i in rows && j in rows && rows[i].lease.Some? && rows[j].lease.Some? && i != j ==>
      rows[i].lease.value.token != rows[j].lease.value.token
  }

  /** Dispatchers that hold a grant for an event and have not yet called the publisher. */
  function Holding(flights: map<Id, Flight>, id: Id): set<Id> {
    set t | t in flights && flights[t].phase.Held? && flights[t].event.Key() == id
  }

  ghost predicate PublishesBounded(d: Desk) {
    forall id :: Count(d.publishes, id) + |Holding(d.flights, id)| <= Count(d.claims, id)
  }

  predicate ClaimsKnown(d: Desk) {
    forall i :: 0 <= i < |d.claims| ==> d.claims[i] in d.rows
  }

  ghost predicate Sound(d: Desk) {
    RowsSound(d) && FlightsSound(d) && OneLeaseEach(d.rows) && PublishesBounded(d) && ClaimsKnown(d)
  }

  // ---- Rows -----------------------------------------------------------------------------------------------

  lemma {:induction false} CountNone(ids: seq<Id>, id: Id)
    requires id !in ids
    ensures Count(ids, id) == 0
  {
    if ids != [] { CountNone(ids[..|ids| - 1], id); }
  }

  lemma NotClaimedYet(d: Desk, id: Id)
    requires ClaimsKnown(d) && id !in d.rows
    ensures Count(d.claims, id) == 0
  {
    CountNone(d.claims, id);
  }

  lemma EnqueueRows(d: Desk, s: Step)
    requires Sound(d) && s.Enqueue?
    ensures RowsSound(Next(d, s)) && OneLeaseEach(Next(d, s).rows)
  {
    hide Ids.Id.WellFormed, Ids.Octets;
    if s.event.Key() !in d.rows { NotClaimedYet(d, s.event.Key()); }
    hide Count, PublishesBounded, FlightsSound, ClaimsKnown;
  }

  lemma EnqueueKeeps(d: Desk, s: Step)
    requires Sound(d) && s.Enqueue?
    ensures Sound(Next(d, s))
  {
    hide Ids.Id.WellFormed, Ids.Octets;
    EnqueueRows(d, s);
    hide Count, RowSound, OneLeaseEach, Holding;
  }

  lemma BuriedSound(d: Desk, now: int)
    requires RowsSound(d) && OneLeaseEach(d.rows)
    ensures RowsSound(d.(rows := Buried(d.rows, now))) && OneLeaseEach(Buried(d.rows, now))
  {
    hide Ids.Id.WellFormed, Ids.Octets;
    hide Count;
  }

  lemma LeasedSound(d: Desk, id: Id, token: Id, now: int)
    requires RowsSound(d) && OneLeaseEach(d.rows) && token !in d.tokens
    requires id in d.rows && d.rows[id].Claimable(now)
    ensures var rows := Leased(d.rows, Some(id), token, now);
            RowsSound(d.(rows := rows, claims := d.claims + [id], tokens := d.tokens + {token})) && OneLeaseEach(rows)
  {
    hide Ids.Id.WellFormed, Ids.Octets, Count;
    forall other { CountGrows(d.claims, id, other); }
  }

  lemma ClaimRows(d: Desk, s: Step)
    requires Sound(d) && s.Claim? && Enabled(d, s)
    ensures RowsSound(Next(d, s)) && OneLeaseEach(Next(d, s).rows)
  {
    hide Ids.Id.WellFormed, Ids.Octets, Count;
    BuriedSound(d, s.now);
    if s.pick.Some? { LeasedSound(d.(rows := Buried(d.rows, s.now)), s.pick.value, s.token, s.now); }
    hide PublishesBounded, FlightsSound, Leased, OneLeaseEach;
  }

  lemma ClaimedEvents(rows: Rows, pick: Option<Id>, token: Id, now: int)
    requires pick.Some? ==> pick.value in rows
    ensures Claimed(rows, pick, token, now).Keys == rows.Keys
    ensures forall id :: id in rows ==> Claimed(rows, pick, token, now)[id].event == rows[id].event
  {
    hide Ids.Id.WellFormed, Ids.Octets;
  }

  /** Flights stay sound when rows keep their events; a new one is sound if its event is a row's. */
  lemma FlightsJoin(d: Desk, after: Desk)
    requires FlightsSound(d) && d.tokens <= after.tokens
    requires forall id :: id in d.rows ==> id in after.rows && after.rows[id].event == d.rows[id].event
    requires forall t :: t in after.flights && t !in d.flights ==>
               var e := after.flights[t].event;
               t in after.tokens && e.Key() in after.rows && e == after.rows[e.Key()].event
    requires forall t :: t in after.flights && t in d.flights ==> after.flights[t].event == d.flights[t].event
    ensures FlightsSound(after)
  {
    hide Ids.Id.WellFormed, Ids.Octets;
  }

  lemma ClaimFlights(d: Desk, s: Step)
    requires Sound(d) && s.Claim? && Enabled(d, s)
    ensures FlightsSound(Next(d, s)) && ClaimsKnown(Next(d, s))
  {
    hide Ids.Id.WellFormed, Ids.Octets;
    ClaimedEvents(d.rows, s.pick, s.token, s.now);
    assert s.pick.Some? ==> RowSound(d.rows[s.pick.value], s.pick.value, Count(d.claims, s.pick.value), d.tokens);
    hide Count, PublishesBounded, OneLeaseEach, Claimed, RowsSound, Selects;
    FlightsJoin(d, Next(d, s));
    hide FlightsSound;
  }

  lemma ClaimBounded(d: Desk, s: Step)
    requires Sound(d) && s.Claim? && Enabled(d, s)
    ensures PublishesBounded(Next(d, s))
  {
    hide Ids.Id.WellFormed, Ids.Octets;
    var after := Next(d, s);
    forall id ensures Count(after.publishes, id) + |Holding(after.flights, id)| <= Count(after.claims, id) {
      if s.pick.Some? {
        CountGrows(d.claims, s.pick.value, id);
        Boarding(d, s, id);
      }
    }
  }

  lemma BoardsOne(flights: map<Id, Flight>, token: Id, flight: Flight, id: Id)
    requires token !in flights && flight.phase.Held?
    ensures |Holding(flights[token := flight], id)|
            == |Holding(flights, id)| + if flight.event.Key() == id then 1 else 0
  {
    hide Ids.Id.WellFormed, Ids.Octets;
    if flight.event.Key() == id {
      assert Holding(flights[token := flight], id) == Holding(flights, id) + {token};
    } else {
      assert Holding(flights[token := flight], id) == Holding(flights, id);
    }
  }

  /** A new flight adds at most itself to those holding its event. */
  lemma Boarding(d: Desk, s: Step, id: Id)
    requires Sound(d) && s.Claim? && Enabled(d, s) && s.pick.Some?
    ensures |Holding(Next(d, s).flights, id)| <= |Holding(d.flights, id)| + if s.pick.value == id then 1 else 0
  {
    var rows := Claimed(d.rows, s.pick, s.token, s.now);
    var flight := Flight(rows[s.pick.value].event, rows[s.pick.value].attempts, Held);
    assert flight.event.Key() == s.pick.value;
    assert s.token !in d.flights;
    BoardsOne(d.flights, s.token, flight, id);
    hide PublishesBounded, OneLeaseEach, Count, Claimed, Holding, RowsSound, FlightsSound, Selects;
  }

  /** A flight that has published holds its event no longer. */
  lemma LandsOne(flights: map<Id, Flight>, token: Id, phase: Phase, id: Id)
    requires token in flights && flights[token].phase.Held? && !phase.Held?
    ensures |Holding(flights[token := flights[token].(phase := phase)], id)|
            == |Holding(flights, id)| - if flights[token].event.Key() == id then 1 else 0
  {
    hide Ids.Id.WellFormed, Ids.Octets;
    var after := flights[token := flights[token].(phase := phase)];
    if flights[token].event.Key() == id {
      assert Holding(after, id) == Holding(flights, id) - {token};
    } else {
      assert Holding(after, id) == Holding(flights, id);
    }
  }

  lemma PublishBounded(d: Desk, s: Step)
    requires Sound(d) && s.Publish? && Enabled(d, s)
    ensures PublishesBounded(Next(d, s))
  {
    hide Ids.Id.WellFormed, Ids.Octets, Count, Holding, RowsSound, FlightsSound, OneLeaseEach, ClaimsKnown;
    var after := Next(d, s);
    var flight := d.flights[s.token];
    forall id ensures Count(after.publishes, id) + |Holding(after.flights, id)| <= Count(after.claims, id) {
      CountGrows(d.publishes, flight.event.Key(), id);
      LandsOne(d.flights, s.token, if s.accepted then Accepted else Refused, id);
    }
  }

  lemma PublishKeeps(d: Desk, s: Step)
    requires Sound(d) && s.Publish? && Enabled(d, s)
    ensures Sound(Next(d, s))
  {
    hide Ids.Id.WellFormed, Ids.Octets, Count, Holding, OneLeaseEach, RowSound;
    PublishBounded(d, s);
    hide PublishesBounded;
    FlightsJoin(d, Next(d, s));
    hide FlightsSound;
  }

  lemma Leaving(d: Desk, token: Id)
    requires PublishesBounded(d)
    ensures PublishesBounded(d.(flights := d.flights - {token}))
  {
    forall id ensures Count(d.publishes, id) + |Holding(d.flights - {token}, id)| <= Count(d.claims, id) {
      assert Holding(d.flights - {token}, id) == Holding(d.flights, id) - {token};
    }
  }

  lemma FinishRows(d: Desk, id: Id, token: Id, success: bool, now: int)
    requires RowsSound(d) && OneLeaseEach(d.rows)
    ensures var after := d.(rows := OrElse(Finished(d.rows, id, token, success, now), d.rows));
            && RowsSound(after) && OneLeaseEach(after.rows)
            && after.rows.Keys == d.rows.Keys && (forall i :: i in d.rows ==> after.rows[i].event == d.rows[i].event)
  {
    hide Ids.Id.WellFormed, Ids.Octets;
    hide Count;
  }

  lemma FinishKeeps(d: Desk, s: Step)
    requires Sound(d) && s.Finish? && Enabled(d, s)
    ensures Sound(Next(d, s))
  {
    hide Ids.Id.WellFormed, Ids.Octets;
    Leaving(d, s.token);
    var flight := d.flights[s.token];
    FinishRows(d, flight.event.Key(), s.token, flight.phase.Accepted?, s.now);
    hide Count, Holding, OneLeaseEach, RowSound, Finished;
  }

  lemma CrashKeeps(d: Desk, s: Step)
    requires Sound(d) && s.Crash? && Enabled(d, s)
    ensures Sound(Next(d, s))
  {
    Leaving(d, s.token);
    hide Count, Holding;
  }

  lemma StepKeeps(d: Desk, s: Step)
    requires Sound(d) && Enabled(d, s)
    ensures Sound(Next(d, s))
  {
    match s
    case Enqueue(_, _) => EnqueueKeeps(d, s);
    case Claim(_, _, _, _, _) => ClaimRows(d, s); ClaimFlights(d, s); ClaimBounded(d, s);
    case Publish(_, _) => PublishKeeps(d, s);
    case Finish(_, _, _) => FinishKeeps(d, s);
    case Crash(_) => CrashKeeps(d, s);
  }

  lemma {:induction false} RunSound(d: Desk, steps: seq<Step>)
    requires Sound(d)
    ensures Sound(Run(d, steps))
  {
    hide Sound, Enabled, Next;
    if steps != [] {
      var n := |steps| - 1;
      RunSound(d, steps[..n]);
      var before := Run(d, steps[..n]);
      if Enabled(before, steps[n]) { StepKeeps(before, steps[n]); }
    }
  }

  lemma EmptySound()
    ensures Sound(EMPTY)
  {
  }

  /**
   * For every interleaving of dispatchers, crashes, lost replies and expiries: an
   * enqueued event has been claimed as often as it has attempts, at most five times;
   * it went to the publisher no oftener; it is dead only after five claims; and while
   * pending with five it is under a lease.
   */
  lemma Budget(steps: seq<Step>, id: Id)
    requires id in Run(EMPTY, steps).rows
    ensures var d := Run(EMPTY, steps);
            var row := d.rows[id];
            && Count(d.publishes, id) <= row.attempts == Count(d.claims, id) <= 5
            && (row.state.Dead? ==> Count(d.claims, id) == 5)
            && (row.state.Sent? ==> 1 <= Count(d.claims, id))
            && (row.state.Pending? && row.attempts == 5 ==> row.lease.Some?)
            && (row.lease.Some? ==> row.state.Pending?)
  {
    EmptySound();
    RunSound(EMPTY, steps);
    hide Run, Count, Holding;
  }

  // ---- What is never undone ----------------------------------------------------------------------------------

  /** A later row: the same event, no fewer attempts, and settled once settled. */
  predicate Onward(row: Row, later: Row) {
    && later.event == row.event && row.attempts <= later.attempts
    && (!row.state.Pending? ==> later == row)
  }

  lemma StepOnward(d: Desk, s: Step, id: Id)
    requires Sound(d) && Enabled(d, s) && id in d.rows
    ensures id in Next(d, s).rows && Onward(d.rows[id], Next(d, s).rows[id])
  {
    hide Ids.Id.WellFormed, Ids.Octets;
    hide Count, Holding, PublishesBounded, OneLeaseEach, FlightsSound;
  }

  /** However a run goes on, an enqueued event stays as it was first stored, and sent or dead stays sent or dead. */
  lemma {:induction false} EventStays(d: Desk, steps: seq<Step>, id: Id)
    requires Sound(d) && id in d.rows
    ensures id in Run(d, steps).rows && Onward(d.rows[id], Run(d, steps).rows[id])
  {
    hide Sound, Enabled, Next;
    if steps != [] {
      var n := |steps| - 1;
      EventStays(d, steps[..n], id);
      RunSound(d, steps[..n]);
      var before := Run(d, steps[..n]);
      if Enabled(before, steps[n]) { StepOnward(before, steps[n], id); }
    }
  }

  // ---- Leases ---------------------------------------------------------------------------------------------------

  predicate Holds(rows: Rows, token: Id) {
    exists id :: id in rows && rows[id].lease.Some? && rows[id].lease.value.token == token
  }

  lemma StepStale(d: Desk, s: Step, token: Id)
    requires Enabled(d, s) && token in d.tokens && !Holds(d.rows, token)
    ensures token in Next(d, s).tokens && !Holds(Next(d, s).rows, token)
  {
  }

  /** A token that has lost its row never holds one again. */
  lemma {:induction false} StaleForever(d: Desk, steps: seq<Step>, token: Id)
    requires token in d.tokens && !Holds(d.rows, token)
    ensures token in Run(d, steps).tokens && !Holds(Run(d, steps).rows, token)
  {
    hide Holds, Enabled, Next;
    if steps != [] {
      var n := |steps| - 1;
      StaleForever(d, steps[..n], token);
      var before := Run(d, steps[..n]);
      if Enabled(before, steps[n]) { StepStale(before, steps[n], token); }
    }
  }

  /** After a lease is lost, no acknowledgement or release by its owner ever changes a row. */
  lemma StaleChangesNothing(d: Desk, steps: seq<Step>, token: Id, id: Id, success: bool, now: int)
    requires token in d.tokens && !Holds(d.rows, token)
    ensures Finished(Run(d, steps).rows, id, token, success, now) == Err("events.lease_lost")
  {
    StaleForever(d, steps, token);
    hide Run;
  }

  /** An expired lease cannot be used even before another takes it over, and a takeover ends it for good. */
  lemma ExpiryEndsLease(d: Desk, s: Step, id: Id, token: Id, success: bool, now: int)
    requires Sound(d) && id in d.rows && d.rows[id].lease.Some? && d.rows[id].lease.value.token == token
    ensures d.rows[id].lease.value.until <= now ==> Finished(d.rows, id, token, success, now).Err?
    ensures Enabled(d, s) && s.Claim? && s.pick == Some(id) ==> d.rows[id].Free(s.now) && !Holds(Next(d, s).rows, token)
  {
    hide Count, Holding, PublishesBounded, FlightsSound;
  }

  /** At any moment at most one dispatcher can settle an event, and it can settle no other. */
  lemma OneOwner(steps: seq<Step>, id: Id, other: Id, token: Id, rival: Id, now: int, success: bool)
    requires var rows := Run(EMPTY, steps).rows;
             Finished(rows, id, token, success, now).Ok? && Finished(rows, other, rival, success, now).Ok?
    ensures id == other <==> token == rival
  {
    EmptySound();
    RunSound(EMPTY, steps);
    hide Run, Count, Holding, PublishesBounded, FlightsSound, ClaimsKnown;
  }
}
