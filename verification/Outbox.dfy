/** The transactional outbox: claims under expiring leases, and a budget of five attempts. */
module Outbox {
  import opened Results
  import opened Provenance
  import opened Envelopes
  import opened Text
  import Ids

  const MAX_ATTEMPTS := 5
  const LEASE_MS := 30_000
  const RETRY_MS := 100

  datatype RowState = Pending | Sent | Dead

  datatype Lease = Lease(token: Id, until: int)

  datatype Row = Row(event: Event, state: RowState, attempts: nat, available: int, lease: Option<Lease>) {
    predicate Free(now: int) {
      lease.None? || lease.value.until <= now
    }
    /** All attempts used and the last lease gone. */
    predicate Overdue(now: int) {
      state.Pending? && attempts == MAX_ATTEMPTS && Free(now)
    }
    predicate Claimable(now: int) {
      state.Pending? && attempts < MAX_ATTEMPTS && available <= now && Free(now)
    }
    /** The lease may still be used by its owner. */
    predicate HeldBy(token: Id, now: int) {
      lease.Some? && lease.value.token == token && state.Pending? && lease.value.until > now
    }
  }

  type Rows = map<Id, Row>

  // ---- The four transactions ------------------------------------------------------------------------

  function EventsOf(rows: Rows): map<Id, Event> {
    map id | id in rows :: rows[id].event
  }

  function Enqueued(rows: Rows, event: Event, now: int): Result<Rows> {
    if event.Key() in rows then
      var kept :- Merge(EventsOf(rows), event);
      Ok(rows)
    else Ok(rows[event.Key() := Row(event, Pending, 0, now, None)])
  }

  function Buried(rows: Rows, now: int): Rows {
    map id | id in rows :: if rows[id].Overdue(now) then rows[id].(state := Dead, lease := None) else rows[id]
  }

  /** The order of `ORDER BY available_at, event_id`. */
  ghost predicate Before(a: Row, b: Row) {
    a.available < b.available || (a.available == b.available && Less(a.event.Key().bytes, b.event.Key().bytes))
  }

  /** What a claim selects: the first claimable row that no other transaction has locked, if there is one. */
  ghost predicate Selects(rows: Rows, locked: set<Id>, now: int, pick: Option<Id>) {
    match pick
    case None => forall id :: id in rows && id !in locked ==> !rows[id].Claimable(now)
    case Some(chosen) =>
      && chosen in rows && chosen !in locked && rows[chosen].Claimable(now)
      && forall id :: id in rows && id !in locked && rows[id].Claimable(now) ==> !Before(rows[id], rows[chosen])
  }

  function Leased(rows: Rows, pick: Option<Id>, token: Id, now: int): Rows
    requires pick.Some? ==> pick.value in rows
  {
    match pick
    case None => rows
    case Some(id) =>
      rows[id := rows[id].(lease := Some(Lease(token, now + LEASE_MS)), attempts := rows[id].attempts + 1)]
  }

  /** A whole claim: spent rows are buried first, then the selected one is leased. */
  function Claimed(rows: Rows, pick: Option<Id>, token: Id, now: int): Rows
    requires pick.Some? ==> pick.value in rows
  {
    Leased(Buried(rows, now), pick, token, now)
  }

  function Finished(rows: Rows, id: Id, token: Id, success: bool, now: int): Result<Rows> {
    if id in rows && rows[id].HeldBy(token, now) then
      var row := rows[id];
      var state := if success then Sent else if row.attempts >= MAX_ATTEMPTS then Dead else Pending;
      Ok(rows[id := row.(state := state, lease := None, available := now + RETRY_MS)])
    else Err("events.lease_lost")
  }

  /** Row by row, what a claim does: spent rows die, one row is leased and counted, the rest stay. */
  lemma ClaimEffect(rows: Rows, locked: set<Id>, pick: Option<Id>, token: Id, now: int, id: Id)
    requires Selects(Buried(rows, now), locked, now, pick)
    ensures pick.Some? ==> pick.value in rows && rows[pick.value].Claimable(now)
    ensures id in rows <==> id in Claimed(rows, pick, token, now)
    ensures id in rows ==>
              var row, after := rows[id], Claimed(rows, pick, token, now)[id];
              && after.event == row.event && after.available == row.available && !after.Overdue(now)
              && (row.Overdue(now) ==> after == row.(state := Dead, lease := None))
              && (pick == Some(id) ==>
                    && after.HeldBy(token, now) && !after.HeldBy(token, now + LEASE_MS)
                    && after.attempts == row.attempts + 1)
              && (!row.Overdue(now) && pick != Some(id) ==> after == row)
  {
  }

  /** A failed attempt waits its 100 milliseconds, or was the last: the row cannot be claimed before. */
  lemma FailureWaits(rows: Rows, id: Id, token: Id, now: int, later: int)
    requires Finished(rows, id, token, false, now).Ok? && id in rows && rows[id].attempts <= MAX_ATTEMPTS
    ensures var row := Finished(rows, id, token, false, now).value[id];
            && (row.state.Dead? <==> rows[id].attempts == 5)
            && (row.Claimable(later) <==> rows[id].attempts < 5 && later >= now + 100)
  {
  }

  // ---- When rows may be taken ---------------------------------------------------------------------------

  /** A new event may be claimed from the moment it is enqueued; one already there stays, if it is the same. */
  lemma EnqueuedIsClaimable(rows: Rows, event: Event, now: int, later: int, token: Id)
    ensures var id, r := event.Key(), Enqueued(rows, event, now);
            if id in rows then r == (if rows[id].event.Same(event) then Ok(rows) else Err("events.id_reused"))
            else
              && r.Ok? && id in r.value && r.value == rows[id := r.value[id]]
              && var row := r.value[id];
                 && row.event == event && row.state.Pending? && row.attempts == 0
                 && (row.Claimable(later) <==> now <= later) && !row.HeldBy(token, later) && !row.Overdue(later)
  {
  }

  /** A claim is exclusive for thirty seconds; then the row is free again, or due for burial after its fifth attempt. */
  lemma ClaimRunsOut(rows: Rows, id: Id, token: Id, now: int, other: Id, later: int)
    requires id in rows && rows[id].Claimable(now)
    ensures var row, after := rows[id], Claimed(rows, Some(id), token, now)[id];
            && (after.HeldBy(other, later) <==> other == token && later < now + 30_000)
            && (now <= later ==>
                  && (after.Claimable(later) <==> row.attempts < 4 && now + 30_000 <= later)
                  && (after.Overdue(later) <==> row.attempts == 4 && now + 30_000 <= later))
  {
  }

  /** Nothing is claimed exactly when every row is settled, spent, not yet due or leased. */
  lemma NothingToClaim(rows: Rows, now: int)
    requires forall id :: id in rows ==> rows[id].attempts <= 5
    ensures Selects(Buried(rows, now), {}, now, None)
       <==> forall id :: id in rows ==>
              || !rows[id].state.Pending? || rows[id].attempts == 5 || now < rows[id].available
              || (rows[id].lease.Some? && now < rows[id].lease.value.until)
  {
    var left := Buried(rows, now);
    forall id | id in rows
      ensures left[id].Claimable(now) <==>
                && rows[id].state.Pending? && rows[id].attempts < 5 && rows[id].available <= now
                && (rows[id].lease.Some? ==> rows[id].lease.value.until <= now)
    {
    }
  }

  /** The row claimed became available no later than any other, and of those as early has the smallest ID as text. */
  lemma ClaimsOldest(rows: Rows, locked: set<Id>, now: int, chosen: Id, id: Id)
    requires Selects(rows, locked, now, Some(chosen)) && rows[chosen].event.Key() == chosen
    requires id in rows && id !in locked && rows[id].Claimable(now) && rows[id].event.Key() == id && id != chosen
    ensures rows[chosen].available <= rows[id].available
    ensures rows[chosen].available == rows[id].available ==> TextLess(Ids.Canonical(chosen), Ids.Canonical(id))
  {
    assert chosen.bytes != id.bytes;
    LessTotal(chosen.bytes, id.bytes);
    if rows[chosen].available == rows[id].available { Ids.TextFollowsBytes(chosen, id); }
  }

  // ---- The store, changed in place --------------------------------------------------------------------

  datatype Grant = Grant(event: Event, token: Id, attempt: nat)

  lemma BeforeTransitive(a: Row, b: Row, c: Row)
    requires Before(a, b) && Before(b, c)
    ensures Before(a, c)
  {
    if a.available == b.available == c.available {
      LessTransitive(a.event.Key().bytes, b.event.Key().bytes, c.event.Key().bytes);
    }
  }

  lemma NotBeforeSelf(a: Row)
    ensures !Before(a, a)
  {
    LessIrreflexive(a.event.Key().bytes);
  }

  class Store {
    var rows: Rows

    constructor ()
      ensures rows == map[]
    {
      rows := map[];
    }

    method Enqueue(event: Event, now: int) returns (r: Result<bool>)
      modifies this
      ensures match Enqueued(old(rows), event, now)
              case Ok(after) => r.Ok? && rows == after
              case Err(code) => r == Err(code) && rows == old(rows)
    {
      if event.Key() !in rows {
        rows := rows[event.Key() := Row(event, Pending, 0, now, None)];
        return Ok(true);
      }
      if !rows[event.Key()].event.Same(event) { return Err("events.id_reused"); }
      return Ok(true);
    }

    /** `ORDER BY available_at, event_id FOR UPDATE SKIP LOCKED LIMIT 1`. */
    method Select(locked: set<Id>, now: int) returns (pick: Option<Id>)
      ensures Selects(rows, locked, now, pick)
    {
      pick := None;
      var rest := rows.Keys;
      while rest != {}
        invariant rest <= rows.Keys
        invariant Selects(map id | id in rows && id !in rest :: rows[id], locked, now, pick)
        decreases |rest|
      {
        var id :| id in rest;
        if rows[id].Claimable(now) && id !in locked {
          if pick.None? {
            pick := Some(id);
            NotBeforeSelf(rows[id]);
          } else {
            var best := rows[pick.value];
            var smaller := Precedes(rows[id].event.Key().bytes, best.event.Key().bytes);
            if rows[id].available < best.available || (rows[id].available == best.available && smaller) {
              forall other | other in rows && Before(rows[other], rows[id]) ensures Before(rows[other], best) {
                BeforeTransitive(rows[other], rows[id], best);
              }
              NotBeforeSelf(rows[id]);
              pick := Some(id);
            }
          }
        }
        rest := rest - {id};
      }
      assert (map id | id in rows && id !in rest :: rows[id]) == rows;
    }

    method Claim(token: Id, locked: set<Id>, now: int) returns (lease: Option<Grant>, ghost pick: Option<Id>)
      modifies this
      ensures Selects(Buried(old(rows), now), locked, now, pick)
      ensures pick.Some? ==> pick.value in old(rows)
      ensures rows == Claimed(old(rows), pick, token, now)
      ensures lease == (if pick.None? then None
                        else Some(Grant(rows[pick.value].event, token, rows[pick.value].attempts)))
    {
      rows := map id | id in rows ::
        if rows[id].Overdue(now) then rows[id].(state := Dead, lease := None) else rows[id];
      var chosen := Select(locked, now);
      pick := chosen;
      if chosen.None? { return None, pick; }
      var row := rows[chosen.value];
      var leased := row.(lease := Some(Lease(token, now + LEASE_MS)), attempts := row.attempts + 1);
      rows := rows[chosen.value := leased];
      lease := Some(Grant(leased.event, token, leased.attempts));
    }

    method Finish(grant: Grant, success: bool, now: int) returns (r: Result<bool>)
      modifies this
      ensures match Finished(old(rows), grant.event.Key(), grant.token, success, now)
              case Ok(after) => r.Ok? && rows == after
              case Err(code) => r == Err(code) && rows == old(rows)
    {
      var id := grant.event.Key();
      if id !in rows || !rows[id].HeldBy(grant.token, now) { return Err("events.lease_lost"); }
      var row := rows[id];
      var state := if success then Sent else if row.attempts >= MAX_ATTEMPTS then Dead else Pending;
      rows := rows[id := row.(state := state, lease := None, available := now + RETRY_MS)];
      return Ok(true);
    }
  }
}
