/** One dispatch and one transfer as they run: claim, publish and settle; pull, publish and acknowledge. */
module Relay {
  import opened Results
  import opened Provenance
  import opened Envelopes
  import Delivery
  import Mailbox
  import Outbox

  const UNAVAILABLE := "events.jetstream_unavailable"

  datatype Receipt = Receipt(eventId: Id, durable: bool)

  /** Only a durable receipt that names the event counts as delivery. */
  predicate Delivered(event: Event, reply: Result<Receipt>) {
    reply.Ok? && reply.value.durable && reply.value.eventId == event.Key()
  }

  /**
   * One dispatch. Nothing to claim changes nothing but burials; otherwise the claimed row
   * is settled by the publisher's reply, unless the lease has run out by then.
   */
  method Dispatch(
    store: Outbox.Store, publish: Event -> Result<Receipt>, token: Id, locked: set<Id>, claimAt: int, finishAt: int)
    returns (r: Result<bool>, ghost pick: Option<Id>)
    modifies store
    ensures Outbox.Selects(Outbox.Buried(old(store.rows), claimAt), locked, claimAt, pick)
    ensures pick.Some? ==> pick.value in old(store.rows) && old(store.rows)[pick.value].state.Pending?
    ensures pick.None? ==> r == Ok(false) && store.rows == Outbox.Buried(old(store.rows), claimAt)
    ensures pick.Some? ==>
              var claimed := Outbox.Claimed(old(store.rows), pick, token, claimAt);
              var event := claimed[pick.value].event;
              var reply := publish(event);
              match Outbox.Finished(claimed, event.Key(), token, Delivered(event, reply), finishAt)
              case Err(code) => r == Err(code) && store.rows == claimed
              case Ok(settled) =>
                store.rows == settled
                && r == (if Delivered(event, reply) then Ok(true)
                         else if reply.Err? then Err(reply.code) else Err("events.invalid_receipt"))
  {
    var lease;
    lease, pick := store.Claim(token, locked, claimAt);
    if lease.None? { return Ok(false), pick; }
    var grant := lease.value;
    var receipt := publish(grant.event);
    if receipt.Ok? && receipt.value.durable && receipt.value.eventId == grant.event.Key() {
      var acked := store.Finish(grant, true, finishAt);
      if acked.Err? { return Err(acked.code), pick; }
      return Ok(true), pick;
    }
    var released := store.Finish(grant, false, finishAt);
    if released.Err? { return Err(released.code), pick; }
    if receipt.Err? { return Err(receipt.code), pick; }
    return Err("events.invalid_receipt"), pick;
  }

  /** A row is sent by a dispatch only if its publication was delivered and the lease still ran. */
  lemma SentMeansDelivered(
      rows: Outbox.Rows, id: Id, token: Id, event: Event, reply: Result<Receipt>, claimAt: int, finishAt: int)
    requires id in rows && rows[id].Claimable(claimAt) && rows[id].event == event && event.Key() == id
    ensures var claimed := Outbox.Claimed(rows, Some(id), token, claimAt);
            var settled := Outbox.Finished(claimed, id, token, Delivered(event, reply), finishAt);
            && (settled.Ok? <==> finishAt < claimAt + Outbox.LEASE_MS)
            && (settled.Ok? && settled.value[id].state.Sent?
               <==> finishAt < claimAt + Outbox.LEASE_MS && Delivered(event, reply))
            && (settled.Ok? && settled.value[id].state.Dead? <==>
                  finishAt < claimAt + Outbox.LEASE_MS && !Delivered(event, reply) && rows[id].attempts == 4)
  {
  }

  /** The broker's client: a closed flag, and the stream and acknowledgements it works on. */
  class Broker {
    var closed: bool
    var stream: seq<Event>
    var acked: set<nat>

    constructor ()
      ensures !closed && stream == [] && acked == {}
    {
      closed, stream, acked := false, [], {};
    }

    method Close()
      modifies this`closed
      ensures closed
    {
      closed := true;
    }

    /** A duplicate is accepted only after reading what was stored and finding the same value. */
    method Publish(event: Event, reply: Delivery.BrokerReply) returns (r: Result<Receipt>)
      requires reply.Duplicate? ==> reply.of < |stream|
      modifies this`stream
      ensures closed ==> r == Err(UNAVAILABLE) && stream == old(stream)
      ensures !closed ==>
                stream == (if reply.Stored? || (reply.Silent? && reply.stored) then old(stream) + [event]
                           else old(stream))
      ensures !closed ==> (Delivered(event, r) <==> Delivery.BrokerAccepts(old(stream), event, reply))
      ensures r.Err? && !closed ==> r.code == if reply.Duplicate? then "events.id_reused" else UNAVAILABLE
    {
      if closed { return Err(UNAVAILABLE); }
      match reply {
        case Stored => stream := stream + [event];
        case Duplicate(of) =>
          var original := stream[of];
          if !original.Alike(event) { return Err("events.id_reused"); }
        case Silent(stored) =>
          if stored { stream := stream + [event]; }
          return Err(UNAVAILABLE);
      }
      return Ok(Receipt(event.Key(), true));
    }

    /** Pulls one delivery; it is acknowledged only once the mailbox holds its event. */
    method Transfer<Db>(sink: Mailbox.Store<Db>, delivery: Option<nat>, acknowledged: bool) returns (r: Result<bool>)
      requires delivery.Some? ==> delivery.value < |stream|
      modifies this`acked, sink
      ensures closed ==> r == Err(UNAVAILABLE)
      ensures closed || delivery.None? ==> acked == old(acked) && sink.View() == old(sink.View())
      ensures !closed && delivery.None? ==> r == Ok(false)
      ensures !closed && delivery.Some? ==>
                match Mailbox.Published(old(sink.View()), stream[delivery.value])
                case Err(code) => r == Err(code) && acked == old(acked) && sink.View() == old(sink.View())
                case Ok(after) =>
                  && sink.View() == after && Delivery.InMail(sink.mail, stream[delivery.value])
                  && acked == (if acknowledged then old(acked) + {delivery.value} else old(acked))
                  && r == (if acknowledged then Ok(true) else Err(UNAVAILABLE))
    {
      if closed { return Err(UNAVAILABLE); }
      if delivery.None? { return Ok(false); }
      var event := stream[delivery.value];
      var published := sink.Publish(event);
      if published.Err? { return Err(published.code); }
      if !acknowledged { return Err(UNAVAILABLE); }
      acked := acked + {delivery.value};
      return Ok(true);
    }
  }
}
