/**
 * From outbox to mailbox, directly or over a JetStream stream, as one system: what a
 * settled outbox row tells about where its event is.
 */
module Delivery {
  import opened Results
  import opened Provenance
  import opened Envelopes
  import Ids
  import Outbox
  import Dispatch
  import Mailbox

  /** A publication that had not taken effect when its publisher stopped waiting for it. */
  datatype Parcel = ToBroker(event: Event) | ToDatabase(event: Event)

  /**
   * The dispatchers' side, the mailbox side, the stream in order of storing, what its
   * consumer acknowledged, and the publications that may yet arrive.
   */
  datatype World<!Db> = World(
    desk: Dispatch.Desk, box: Mailbox.Desk<Db>, stream: seq<Event>, acked: set<nat>, afloat: set<Parcel>)

  /** The broker's answer to a publication: stored, recognised as stored before, or no answer. */
  datatype BrokerReply = Stored | Duplicate(of: nat) | Silent(stored: bool)

  datatype Step<!Db> =
    | Outside(act: Dispatch.Step)
    | ToMailbox(token: Id, committed: bool, replied: bool)
    | ToStream(token: Id, reply: BrokerReply)
    | Transfer(position: nat, committed: bool, replied: bool, acked: bool)
    | Late(parcel: Parcel)
    | Reading(reading: Mailbox.Step<Db>)

  function Flying(w: World, token: Id): Option<Event> {
    if token in w.desk.flights && w.desk.flights[token].phase.Held? then Some(w.desk.flights[token].event) else None
  }

  ghost predicate Enabled<Db>(w: World<Db>, s: Step<Db>) {
    match s
    case Outside(act) => !act.Publish? && Dispatch.Enabled(w.desk, act)
    case ToMailbox(token, _, _) => Flying(w, token).Some?
    case ToStream(token, reply) =>
      && Flying(w, token).Some?
      && (reply.Duplicate? ==> reply.of < |w.stream| && w.stream[reply.of].Key() == Flying(w, token).value.Key())
    case Transfer(position, _, _, _) => position < |w.stream|
    case Late(parcel) => parcel in w.afloat
    case Reading(reading) => reading.Consume? && Mailbox.Enabled(w.box, reading)
  }

  function Mailed<Db>(w: World<Db>, event: Event, committed: bool): World<Db> {
    var published := Mailbox.Published(w.box.box, event);
    if !committed then w.(afloat := w.afloat + {ToDatabase(event)})
    else if published.Ok? then w.(box := w.box.(box := published.value))
    else w
  }

  /** What the publisher tells the dispatcher when the broker has, or has not, answered. */
  predicate BrokerAccepts(stream: seq<Event>, event: Event, reply: BrokerReply) {
    match reply
    case Stored => true
    case Duplicate(of) => of < |stream| && stream[of].Alike(event)
    case Silent(_) => false
  }

  function Streamed<Db>(w: World<Db>, event: Event, reply: BrokerReply): World<Db> {
    match reply
    case Duplicate(_) => w
    case Stored => w.(stream := w.stream + [event])
    case Silent(stored) =>
      if stored then w.(stream := w.stream + [event]) else w.(afloat := w.afloat + {ToBroker(event)})
  }

  /** It may arrive at any later time, whatever has become of its row, and more than once. */
  function ArrivedLate<Db>(w: World<Db>, parcel: Parcel): World<Db> {
    match parcel
    case ToBroker(event) => w.(stream := w.stream + [event])
    case ToDatabase(event) => Mailed(w, event, true)
  }

  ghost function Next<Db(!new)>(w: World<Db>, s: Step<Db>): World<Db>
    requires Enabled(w, s)
  {
    match s
    case Outside(act) => w.(desk := Dispatch.Next(w.desk, act))
    case ToMailbox(token, committed, replied) =>
      var event := Flying(w, token).value;
      var accepted := committed && replied && Merge(w.box.box.mail, event).Ok?;
      Mailed(w, event, committed).(desk := Dispatch.Next(w.desk, Dispatch.Publish(token, accepted)))
    case ToStream(token, reply) =>
      var event := Flying(w, token).value;
      var accepted := BrokerAccepts(w.stream, event, reply);
      Streamed(w, event, reply).(desk := Dispatch.Next(w.desk, Dispatch.Publish(token, accepted)))
    case Transfer(position, committed, replied, acked) =>
      var event := w.stream[position];
      var accepted := committed && replied && Merge(w.box.box.mail, event).Ok?;
      Mailed(w, event, committed).(acked := if accepted && acked then w.acked + {position} else w.acked)
    case Late(parcel) => ArrivedLate(w, parcel)
    case Reading(reading) => w.(box := Mailbox.Next(w.box, reading))
  }

  ghost function Run<Db(!new)>(start: Db, steps: seq<Step<Db>>): World<Db> {
    if steps == [] then World(Dispatch.EMPTY, Mailbox.Desk(Mailbox.Box(map[], map[], start), []), [], {}, {})
    else
      var n := |steps| - 1;
      var before := Run(start, steps[..n]);
      if Enabled(before, steps[n]) then Next(before, steps[n]) else before
  }

  // ---- Where events are --------------------------------------------------------------------------------

  predicate InMail(mail: map<Id, Event>, event: Event) {
    event.Key() in mail && mail[event.Key()].Same(event)
  }

  predicate InStream(stream: seq<Event>, event: Event) {
    exists k :: 0 <= k < |stream| && stream[k] == event
  }

  predicate Arrived(w: World, event: Event) {
    InMail(w.box.box.mail, event) || InStream(w.stream, event)
  }

  /** An event somewhere downstream is an outbox row's, to the letter. */
  predicate Enqueued(rows: Outbox.Rows, event: Event) {
    event.Key() in rows && event == rows[event.Key()].event
  }

  predicate AcceptedArrived(w: World) {
    forall t :: t in w.desk.flights && w.desk.flights[t].phase.Accepted? ==> Arrived(w, w.desk.flights[t].event)
  }

  predicate SentArrived(w: World) {
    forall id :: id in w.desk.rows && w.desk.rows[id].state.Sent? ==> Arrived(w, w.desk.rows[id].event)
  }

  predicate AckedMailed(w: World) {
    forall k :: k in w.acked ==> k < |w.stream| && InMail(w.box.box.mail, w.stream[k])
  }

  predicate OnlyEnqueued(w: World) {
    && (forall id :: id in w.box.box.mail ==>
          w.box.box.mail[id].Key() == id && Enqueued(w.desk.rows, w.box.box.mail[id]))
    && (forall k :: 0 <= k < |w.stream| ==> Enqueued(w.desk.rows, w.stream[k]))
    && (forall p :: p in w.afloat ==> Enqueued(w.desk.rows, p.event))
  }

  ghost predicate Sound(w: World) {
    && Dispatch.Sound(w.desk)
    && AcceptedArrived(w) && SentArrived(w) && AckedMailed(w) && OnlyEnqueued(w)
  }

  /** What is in the mailbox or the stream stays there, and nothing else changed for the dispatchers. */
  predicate Spreads<Db>(w: World<Db>, after: World<Db>) {
    && (forall id :: id in w.box.box.mail ==> id in after.box.box.mail && after.box.box.mail[id] == w.box.box.mail[id])
    && w.stream <= after.stream
  }

  lemma SpreadKeeps<Db>(w: World<Db>, after: World<Db>, event: Event)
    requires Spreads(w, after) && Arrived(w, event)
    ensures Arrived(after, event)
  {
    if InStream(w.stream, event) {
      var k :| 0 <= k < |w.stream| && w.stream[k] == event;
      assert after.stream[k] == w.stream[k];
    }
  }

  /** Spreading keeps what is known of flights and rows that have not changed. */
  lemma SpreadSound<Db>(w: World<Db>, after: World<Db>)
    requires AcceptedArrived(w) && SentArrived(w) && Spreads(w, after)
    requires forall t :: t in after.desk.flights && after.desk.flights[t].phase.Accepted? ==>
               || (t in w.desk.flights && w.desk.flights[t] == after.desk.flights[t])
               || Arrived(after, after.desk.flights[t].event)
    requires after.desk.rows == w.desk.rows
    ensures AcceptedArrived(after) && SentArrived(after)
  {
    hide Arrived, Spreads, Ids.Id.WellFormed, Ids.Octets;
    forall t | t in w.desk.flights && w.desk.flights[t].phase.Accepted? {
      SpreadKeeps(w, after, w.desk.flights[t].event);
    }
    forall id | id in w.desk.rows && w.desk.rows[id].state.Sent? { SpreadKeeps(w, after, w.desk.rows[id].event); }
  }

  lemma MailedSpreads<Db>(w: World<Db>, event: Event, committed: bool)
    requires OnlyEnqueued(w) && Enqueued(w.desk.rows, event)
    ensures Spreads(w, Mailed(w, event, committed)) && OnlyEnqueued(Mailed(w, event, committed))
    ensures committed ==> InMail(Mailed(w, event, committed).box.box.mail, event)
    ensures Merge(w.box.box.mail, event).Ok?
  {
    hide Ids.Id.WellFormed, Ids.Octets;
  }

  lemma StreamedSpreads<Db>(w: World<Db>, event: Event, reply: BrokerReply)
    requires OnlyEnqueued(w) && Enqueued(w.desk.rows, event)
    requires reply.Duplicate? ==> reply.of < |w.stream| && w.stream[reply.of].Key() == event.Key()
    ensures Spreads(w, Streamed(w, event, reply)) && OnlyEnqueued(Streamed(w, event, reply))
    ensures BrokerAccepts(w.stream, event, reply) ==> InStream(Streamed(w, event, reply).stream, event)
  {
    hide Ids.Id.WellFormed, Ids.Octets;
    if reply.Stored? { assert Streamed(w, event, reply).stream[|w.stream|] == event; }
  }

  // ---- Each step -----------------------------------------------------------------------------------------

  /** A published flight has arrived if it was accepted. */
  lemma PublishSound<Db>(w: World<Db>, spread: World<Db>, token: Id, accepted: bool)
    requires Sound(w) && Flying(w, token).Some? && Spreads(w, spread) && spread.desk == w.desk
    requires OnlyEnqueued(spread) && AckedMailed(spread)
    requires accepted ==> Arrived(spread, Flying(w, token).value)
    ensures Sound(spread.(desk := Dispatch.Next(w.desk, Dispatch.Publish(token, accepted))))
  {
    hide Arrived, Spreads, Ids.Id.WellFormed, Ids.Octets, Enqueued, InMail;
    var step := Dispatch.Publish(token, accepted);
    Dispatch.StepKeeps(w.desk, step);
    var after := spread.(desk := Dispatch.Next(w.desk, step));
    SpreadsOn(w, spread, after);
    assert accepted ==> Arrived(after, Flying(w, token).value) by { SameArrival(spread, after); }
    SpreadSound(w, after);
    SameBoxes(spread, after);
    hide Dispatch.Sound;
  }

  lemma SpreadsOn<Db>(w: World<Db>, spread: World<Db>, after: World<Db>)
    requires Spreads(w, spread) && after.box == spread.box && after.stream == spread.stream
    ensures Spreads(w, after)
  {
  }

  lemma SameArrival<Db>(w: World<Db>, after: World<Db>)
    requires after.box == w.box && after.stream == w.stream
    ensures forall e :: Arrived(w, e) <==> Arrived(after, e)
  {
  }

  lemma SameBoxes<Db>(w: World<Db>, after: World<Db>)
    requires after.box == w.box && after.stream == w.stream && after.acked == w.acked && after.afloat == w.afloat
    requires forall id :: id in w.desk.rows ==>
             id in after.desk.rows && after.desk.rows[id].event == w.desk.rows[id].event
    requires OnlyEnqueued(w) && AckedMailed(w)
    ensures OnlyEnqueued(after) && AckedMailed(after)
  {
    hide Ids.Id.WellFormed, Ids.Octets;
  }

  lemma FlightEnqueued<Db>(w: World<Db>, token: Id)
    requires Sound(w) && Flying(w, token).Some?
    ensures Enqueued(w.desk.rows, Flying(w, token).value)
  {
  }

  lemma AckedSpreads<Db>(w: World<Db>, after: World<Db>)
    requires AckedMailed(w) && Spreads(w, after) && after.acked == w.acked
    ensures AckedMailed(after)
  {
    hide Ids.Id.WellFormed, Ids.Octets;
    assert forall k :: 0 <= k < |w.stream| ==> after.stream[k] == w.stream[k];
  }

  lemma ToMailboxKeeps<Db(!new)>(w: World<Db>, s: Step<Db>)
    requires Sound(w) && Enabled(w, s) && s.ToMailbox?
    ensures Sound(Next(w, s))
  {
    var event := Flying(w, s.token).value;
    FlightEnqueued(w, s.token);
    MailedSpreads(w, event, s.committed);
    AckedSpreads(w, Mailed(w, event, s.committed));
    var accepted := s.committed && s.replied && Merge(w.box.box.mail, event).Ok?;
    PublishSound(w, Mailed(w, event, s.committed), s.token, accepted);
    hide Sound, Dispatch.Next;
  }

  lemma ToStreamKeeps<Db(!new)>(w: World<Db>, s: Step<Db>)
    requires Sound(w) && Enabled(w, s) && s.ToStream?
    ensures Sound(Next(w, s))
  {
    var event := Flying(w, s.token).value;
    FlightEnqueued(w, s.token);
    StreamedSpreads(w, event, s.reply);
    AckedSpreads(w, Streamed(w, event, s.reply));
    PublishSound(w, Streamed(w, event, s.reply), s.token, BrokerAccepts(w.stream, event, s.reply));
    hide Sound, Dispatch.Next;
  }

  lemma TransferKeeps<Db(!new)>(w: World<Db>, s: Step<Db>)
    requires Sound(w) && Enabled(w, s) && s.Transfer?
    ensures Sound(Next(w, s))
  {
    hide Ids.Id.WellFormed, Ids.Octets, Dispatch.Sound, Arrived;
    var event := w.stream[s.position];
    var mailed := Mailed(w, event, s.committed);
    MailedSpreads(w, event, s.committed);
    AckedSpreads(w, mailed);
    SpreadSound(w, mailed);
    SameArrival(mailed, Next(w, s));
    hide Mailed, Enqueued, InMail;
  }

  /** A late arrival tells nobody anything and brings only what was enqueued. */
  lemma LateKeeps<Db(!new)>(w: World<Db>, s: Step<Db>)
    requires Sound(w) && Enabled(w, s) && s.Late?
    ensures Sound(Next(w, s))
  {
    hide Ids.Id.WellFormed, Ids.Octets, Dispatch.Sound, Arrived;
    var after := Next(w, s);
    match s.parcel {
      case ToBroker(event) => StreamedSpreads(w, event, Stored);
      case ToDatabase(event) => MailedSpreads(w, event, true);
    }
    AckedSpreads(w, after);
    SpreadSound(w, after);
    hide Mailed, Enqueued, InMail;
  }

  lemma ReadingKeeps<Db(!new)>(w: World<Db>, s: Step<Db>)
    requires Sound(w) && Enabled(w, s) && s.Reading?
    ensures Sound(Next(w, s))
  {
    hide Ids.Id.WellFormed, Ids.Octets, Dispatch.Sound, Mailbox.Selects;
    assert Next(w, s).box.box.mail == w.box.box.mail;
  }

  /** A dispatcher's own step moves no event; only a row or a flight changes. */
  lemma OutsideKeeps<Db(!new)>(w: World<Db>, s: Step<Db>)
    requires Sound(w) && Enabled(w, s) && s.Outside?
    ensures Sound(Next(w, s))
  {
    hide Ids.Id.WellFormed, Ids.Octets;
    var after := Next(w, s);
    Dispatch.StepKeeps(w.desk, s.act);
    forall id | id in w.desk.rows { Dispatch.StepOnward(w.desk, s.act, id); }
    SameBoxes(w, after);
    SameArrival(w, after);
    forall id | id in after.desk.rows && after.desk.rows[id].state.Sent?
      ensures Arrived(after, after.desk.rows[id].event)
    {
      WhySent(w.desk, s.act, id);
    }
    forall t | t in after.desk.flights && after.desk.flights[t].phase.Accepted?
      ensures Arrived(after, after.desk.flights[t].event)
    {
      WhyAccepted(w.desk, s.act, t);
    }
    hide Dispatch.Sound, Dispatch.Next, Arrived, Enqueued, InMail;
  }

  /** A row turns sent only by the acknowledgement of a dispatcher whose publication was accepted. */
  lemma WhySent(d: Dispatch.Desk, s: Dispatch.Step, id: Id)
    requires Dispatch.Sound(d) && Dispatch.Enabled(d, s)
    requires id in Dispatch.Next(d, s).rows && Dispatch.Next(d, s).rows[id].state.Sent?
    ensures id in d.rows && Dispatch.Next(d, s).rows[id].event == d.rows[id].event
    ensures || d.rows[id].state.Sent?
            || (s.Finish? && d.flights[s.token].phase.Accepted? && d.flights[s.token].event == d.rows[id].event)
  {
    hide Ids.Id.WellFormed, Ids.Octets, Dispatch.Count, Dispatch.PublishesBounded, Dispatch.OneLeaseEach,
      Dispatch.RowsSound;
  }

  lemma WhyAccepted(d: Dispatch.Desk, s: Dispatch.Step, t: Id)
    requires Dispatch.Enabled(d, s) && !s.Publish?
    requires t in Dispatch.Next(d, s).flights && Dispatch.Next(d, s).flights[t].phase.Accepted?
    ensures t in d.flights && Dispatch.Next(d, s).flights[t] == d.flights[t]
  {
    hide Ids.Id.WellFormed, Ids.Octets, Outbox.Claimed;
  }

  lemma StepKeeps<Db(!new)>(w: World<Db>, s: Step<Db>)
    requires Sound(w) && Enabled(w, s)
    ensures Sound(Next(w, s))
  {
    match s
    case Outside(_) => OutsideKeeps(w, s);
    case ToMailbox(_, _, _) => ToMailboxKeeps(w, s);
    case ToStream(_, _) => ToStreamKeeps(w, s);
    case Transfer(_, _, _, _) => TransferKeeps(w, s);
    case Late(_) => LateKeeps(w, s);
    case Reading(_) => ReadingKeeps(w, s);
  }

  lemma {:induction false} RunSound<Db(!new)>(start: Db, steps: seq<Step<Db>>)
    ensures Sound(Run(start, steps))
  {
    if steps == [] {
      Dispatch.EmptySound();
    } else {
      hide Sound, Enabled, Next;
      var n := |steps| - 1;
      RunSound(start, steps[..n]);
      var before := Run(start, steps[..n]);
      if Enabled(before, steps[n]) { StepKeeps(before, steps[n]); }
    }
  }

  /**
   * No event is lost or altered, whatever crashes, expires, repeats, stays unanswered or arrives late:
   * an enqueued event is pending, or sent and then in the mailbox or the stream, or dead
   * after exactly five claims; and what the stream's consumer acknowledged is in the mailbox.
   */
  lemma NothingLost<Db(!new)>(start: Db, steps: seq<Step<Db>>, id: Id)
    requires id in Run(start, steps).desk.rows
    ensures var w := Run(start, steps);
            var row := w.desk.rows[id];
            && (row.state.Sent? ==> Arrived(w, row.event))
            && (row.state.Dead? ==> Dispatch.Count(w.desk.claims, id) == 5)
            && (id in w.box.box.mail ==> w.box.box.mail[id] == row.event)
            && (forall k :: 0 <= k < |w.stream| && w.stream[k].Key() == id ==> w.stream[k] == row.event)
            && (forall p :: p in w.afloat && p.event.Key() == id ==> p.event == row.event)
            && (forall k :: k in w.acked && k < |w.stream| && w.stream[k].Key() == id ==>
                  InMail(w.box.box.mail, row.event))
  {
    RunSound(start, steps);
    hide Run, Arrived, Dispatch.Count, Dispatch.Holding, Ids.Id.WellFormed, Ids.Octets;
  }

  /** Nothing downstream comes from nowhere, and publishing an enqueued event conflicts with nothing there. */
  lemma NoConflict<Db(!new)>(start: Db, steps: seq<Step<Db>>, id: Id, token: Id)
    ensures var w := Run(start, steps);
            && (id in w.box.box.mail ==> id in w.desk.rows)
            && (Flying(w, token).Some? ==>
                  var event := Flying(w, token).value;
                  && Merge(w.box.box.mail, event).Ok?
                  && forall k: nat :: k < |w.stream| && w.stream[k].Key() == event.Key() ==>
                       BrokerAccepts(w.stream, event, Duplicate(k)))
  {
    RunSound(start, steps);
    hide Run, Arrived, Dispatch.Count, Dispatch.Holding, Ids.Id.WellFormed, Ids.Octets;
  }

  /** The mailbox side of any run is a run of the mailbox: its receipts and effects are as sound here. */
  lemma {:induction false} ReadersSound<Db(!new)>(start: Db, steps: seq<Step<Db>>)
    ensures Mailbox.Sound(start, Run(start, steps).box)
  {
    if steps == [] {
      hide Mailbox.Tells;
    } else {
      hide Mailbox.Sound, Mailbox.Enabled;
      var n := |steps| - 1;
      ReadersSound(start, steps[..n]);
      var w, s := Run(start, steps[..n]), steps[n];
      if Enabled(w, s) {
        if s.Reading? {
          ReadSound(start, w, s);
        } else if s.ToMailbox? || s.Transfer? || s.Late? {
          var event := if s.ToMailbox? then Flying(w, s.token).value
            else if s.Transfer? then w.stream[s.position] else s.parcel.event;
          if Mailbox.Published(w.box.box, event).Ok? { Mailbox.PublishKeeps(start, w.box, event); }
          hide Mailbox.Published;
        }
      }
    }
  }

  lemma ReadSound<Db(!new)>(start: Db, w: World<Db>, s: Step<Db>)
    requires Mailbox.Sound(start, w.box) && s.Reading? && Enabled(w, s)
    ensures Mailbox.Sound(start, Next(w, s).box)
  {
    hide Mailbox.Sound, Mailbox.Selects, Mailbox.Consumed;
    if s.reading.committed { Mailbox.ConsumeKeeps(start, w.box, s.reading); }
  }

  /** Which answers of the broker count: that it stored the event, or that what it stored before is equal JSON. */
  lemma AnswersCounted(stream: seq<Event>, event: Event, of: nat, stored: bool)
    ensures BrokerAccepts(stream, event, Stored) && !BrokerAccepts(stream, event, Silent(stored))
    ensures BrokerAccepts(stream, event, Duplicate(of))
       <==> of < |stream| && stream[of].envelope.wire == event.envelope.wire
  {
  }

  // ---- That delivery succeeds -----------------------------------------------------------------------------

  lemma RunOne<Db(!new)>(start: Db, steps: seq<Step<Db>>, s: Step<Db>)
    requires Enabled(Run(start, steps), s)
    ensures Run(start, steps + [s]) == Next(Run(start, steps), s)
  {
    assert (steps + [s])[..|steps|] == steps;
  }

  /** A publication that commits and is answered. */
  predicate Answered<Db>(s: Step<Db>, token: Id) {
    || (s.ToMailbox? && s.token == token && s.committed && s.replied)
    || (s.ToStream? && s.token == token && s.reply.Stored?)
  }

  lemma ClaimFlies<Db(!new)>(w: World<Db>, claim: Dispatch.Step)
    requires Sound(w) && claim.Claim? && claim.pick.Some? && claim.told && Dispatch.Enabled(w.desk, claim)
    ensures var id, after := claim.pick.value, Next(w, Outside(claim));
            && id in w.desk.rows && id in after.desk.rows && after.desk.rows[id].event == w.desk.rows[id].event
            && Flying(after, claim.token) == Some(w.desk.rows[id].event) && w.desk.rows[id].event.Key() == id
            && (forall later :: after.desk.rows[id].HeldBy(claim.token, later) <==> later < claim.now + Outbox.LEASE_MS)
            && after.box == w.box && after.stream == w.stream
  {
    hide Ids.Id.WellFormed, Ids.Octets, Dispatch.Count, Dispatch.PublishesBounded, Dispatch.OneLeaseEach, Enqueued;
  }

  lemma AnsweredLands<Db(!new)>(w: World<Db>, s: Step<Db>, token: Id)
    requires Sound(w) && Flying(w, token).Some? && Answered(s, token) && Enabled(w, s) && Sound(Next(w, s))
    ensures var event, after := Flying(w, token).value, Next(w, s);
            && after.desk.rows == w.desk.rows
            && token in after.desk.flights && after.desk.flights[token].event == event
            && after.desk.flights[token].phase.Accepted?
            && (s.ToMailbox? ==> event.Key() in after.box.box.mail && after.box.box.mail[event.Key()] == event)
            && (s.ToStream? ==> after.stream == w.stream + [event])
  {
    var event := Flying(w, token).value;
    FlightEnqueued(w, token);
    MailedSpreads(w, event, true);
    PublishAccepted(w.desk, token);
    if s.ToMailbox? { LandsWhole(w, s, event); }
    hide Sound, Spreads, Dispatch.Next, Ids.Id.WellFormed, Ids.Octets;
  }

  lemma PublishAccepted(d: Dispatch.Desk, token: Id)
    requires token in d.flights && d.flights[token].phase.Held?
    ensures var after := Dispatch.Next(d, Dispatch.Publish(token, true));
            && after.rows == d.rows && token in after.flights
            && after.flights[token] == d.flights[token].(phase := Dispatch.Accepted)
  {
  }

  lemma LandsWhole<Db(!new)>(w: World<Db>, s: Step<Db>, event: Event)
    requires Enabled(w, s) && Sound(Next(w, s)) && InMail(Next(w, s).box.box.mail, event)
    requires event.Key() in w.desk.rows && w.desk.rows[event.Key()].event == event
    requires Next(w, s).desk.rows == w.desk.rows
    ensures Next(w, s).box.box.mail[event.Key()] == event
  {
    AllEnqueued(Next(w, s), event.Key());
    hide Sound;
  }

  lemma AnsweredEnabled<Db(!new)>(w: World<Db>, s: Step<Db>, token: Id)
    requires Flying(w, token).Some? && Answered(s, token)
    ensures Enabled(w, s)
  {
  }

  /** What the mailbox holds under an ID is the row's envelope. */
  lemma AllEnqueued<Db>(w: World<Db>, id: Id)
    requires Sound(w) && id in w.box.box.mail
    ensures id in w.desk.rows && w.box.box.mail[id] == w.desk.rows[id].event
  {
    hide Dispatch.Sound, Arrived;
  }

  lemma FinishSettles(d: Dispatch.Desk, token: Id, now: int)
    requires token in d.flights && d.flights[token].phase.Accepted?
    requires var id := d.flights[token].event.Key();
             id in d.rows && d.rows[id].HeldBy(token, now)
    ensures var id, after := d.flights[token].event.Key(), Dispatch.Next(d, Dispatch.Finish(token, now, true));
            id in after.rows && after.rows[id].state.Sent? && after.rows[id].event == d.rows[id].event
  {
  }

  /**
   * From any reachable state: a row that is claimed, published with an answer and settled
   * within thirty seconds is sent, and its event is in the mailbox or last in the stream.
   */
  lemma DeliverySucceeds<Db(!new)>(
      start: Db, steps: seq<Step<Db>>, claim: Dispatch.Step, publish: Step<Db>, finishAt: int)
    requires claim.Claim? && claim.pick.Some? && claim.told && Dispatch.Enabled(Run(start, steps).desk, claim)
    requires Answered(publish, claim.token) && finishAt < claim.now + 30_000
    ensures var before, id := Run(start, steps), claim.pick.value;
            var finish := Dispatch.Finish(claim.token, finishAt, true);
            var w := Run(start, steps + [Outside(claim)] + [publish] + [Outside(finish)]);
            && id in before.desk.rows && id in w.desk.rows && w.desk.rows[id].state.Sent?
            && w.desk.rows[id].event == before.desk.rows[id].event
            && (publish.ToMailbox? ==> id in w.box.box.mail && w.box.box.mail[id] == w.desk.rows[id].event)
            && (publish.ToStream? ==> w.stream == before.stream + [w.desk.rows[id].event])
  {
    var w, finish := Run(start, steps), Dispatch.Finish(claim.token, finishAt, true);
    RunSound(start, steps);
    RunOne(start, steps, Outside(claim));
    ClaimFlies(w, claim);
    StepKeeps(w, Outside(claim));
    var claimed := Next(w, Outside(claim));
    AnsweredEnabled(claimed, publish, claim.token);
    StepKeeps(claimed, publish);
    AnsweredLands(claimed, publish, claim.token);
    hide Run, Sound, Next, Answered;
    RunOne(start, steps + [Outside(claim)], publish);
    var landed := Next(claimed, publish);
    FinishSettles(landed.desk, claim.token, finishAt);
    SettleStep(landed, finish);
    RunOne(start, steps + [Outside(claim)] + [publish], Outside(finish));
  }

  lemma SettleStep<Db(!new)>(w: World<Db>, finish: Dispatch.Step)
    requires finish.Finish? && finish.token in w.desk.flights && !w.desk.flights[finish.token].phase.Held?
    ensures Enabled(w, Outside(finish)) && Next(w, Outside(finish)) == w.(desk := Dispatch.Next(w.desk, finish))
  {
  }

  /** A publication that is not answered has taken effect, or may take effect later. */
  lemma SilenceLeaves<Db(!new)>(start: Db, steps: seq<Step<Db>>, token: Id, stored: bool)
    requires Flying(Run(start, steps), token).Some?
    ensures var event, before := Flying(Run(start, steps), token).value, Run(start, steps);
            var w := Run(start, steps + [ToStream(token, Silent(stored))]);
            if stored then w.stream == before.stream + [event]
            else w.stream == before.stream && ToBroker(event) in w.afloat
    ensures ToDatabase(Flying(Run(start, steps), token).value)
         in Run(start, steps + [ToMailbox(token, false, false)]).afloat
  {
    RunOne(start, steps, ToStream(token, Silent(stored)));
    RunOne(start, steps, ToMailbox(token, false, false));
    hide Run, Dispatch.Next, Flying;
  }

  lemma AfloatKeeps<Db(!new)>(w: World<Db>, s: Step<Db>, parcel: Parcel)
    requires parcel in w.afloat && Enabled(w, s)
    ensures parcel in Next(w, s).afloat
  {
    hide Dispatch.Next, Dispatch.Enabled, Mailbox.Next, Mailbox.Enabled, Mailbox.Published;
  }

  lemma {:induction false} AfloatStays<Db(!new)>(start: Db, steps: seq<Step<Db>>, later: seq<Step<Db>>, parcel: Parcel)
    requires parcel in Run(start, steps).afloat
    ensures parcel in Run(start, steps + later).afloat
  {
    hide Enabled, Next;
    if later == [] {
      assert steps + later == steps;
    } else {
      var n := |later| - 1;
      AfloatStays(start, steps, later[..n], parcel);
      var before := Run(start, steps + later[..n]);
      assert (steps + later)[..|steps| + n] == steps + later[..n];
      if Enabled(before, later[n]) { AfloatKeeps(before, later[n], parcel); }
    }
  }

  /** It may take effect at any later time, whatever else has happened: in the stream as its last, or in the mailbox. */
  lemma LateLands<Db(!new)>(start: Db, steps: seq<Step<Db>>, parcel: Parcel, later: seq<Step<Db>>)
    requires parcel in Run(start, steps).afloat
    ensures var before, w := Run(start, steps + later), Run(start, steps + later + [Late(parcel)]);
            var event := parcel.event;
            && (parcel.ToBroker? ==> w.stream == before.stream + [event])
            && (parcel.ToDatabase? ==> event.Key() in w.box.box.mail && w.box.box.mail[event.Key()] == event)
  {
    AfloatStays(start, steps, later, parcel);
    RunSound(start, steps + later);
    var before := Run(start, steps + later);
    RunOne(start, steps + later, Late(parcel));
    RunSound(start, steps + later + [Late(parcel)]);
    MailedSpreads(before, parcel.event, true);
    if parcel.ToDatabase? { AllEnqueued(Run(start, steps + later + [Late(parcel)]), parcel.event.Key()); }
    hide Run, Spreads, Ids.Id.WellFormed, Ids.Octets, Dispatch.Sound;
  }

  /** What stands in the stream reaches the mailbox by one transfer that commits. */
  lemma TransferSucceeds<Db(!new)>(start: Db, steps: seq<Step<Db>>, position: nat)
    requires position < |Run(start, steps).stream|
    ensures var before, w := Run(start, steps), Run(start, steps + [Transfer(position, true, true, true)]);
            var event := before.stream[position];
            event.Key() in w.box.box.mail && w.box.box.mail[event.Key()] == event && position in w.acked
  {
    RunSound(start, steps);
    var w := Run(start, steps);
    RunOne(start, steps, Transfer(position, true, true, true));
    MailedSpreads(w, w.stream[position], true);
    hide Run, Spreads, Ids.Id.WellFormed, Ids.Octets, Dispatch.Sound;
  }
}
