/**
 * The durable mailbox: one envelope per event ID, a receipt per event and consumer,
 * and a consumer's effects under a savepoint of the receipt's own transaction.
 */
module Mailbox {
  import opened Results
  import opened Provenance
  import opened Envelopes
  import opened Text
  import Ids

  const MAX_ATTEMPTS := 5
  const RETRY_MS := 100

  type Consumer = string
  type Key = (Id, Consumer)

  datatype ReceiptState = Pending | Processed | Dead

  datatype Receipt = Receipt(state: ReceiptState, attempts: nat, available: int) {
    predicate Due(now: int) {
      state.Pending? && attempts < MAX_ATTEMPTS && available <= now
    }
  }

  /** What a consumer's callback leaves: the database as it changed it, and its refusal if it refused. */
  datatype Ran<Db> = Ran(db: Db, rejected: Option<string>)

  /** The mailbox, the receipts, and the rest of the database, which callbacks change. */
  datatype Box<Db> = Box(mail: map<Id, Event>, receipts: map<Key, Receipt>, db: Db)

  predicate ConsumerChar(c: char) {
    'a' <= c <= 'z' || '0' <= c <= '9' || c in "_.-"
  }

  predicate ValidConsumer(consumer: Consumer) {
    0 < |consumer| <= 64 && forall i :: 0 <= i < |consumer| ==> ConsumerChar(consumer[i])
  }

  /** A consumer's name is of one to 64 letters, digits, dots, dashes and underscores. */
  lemma ConsumerNames(consumer: Consumer)
    ensures ValidConsumer(consumer) <==>
              && 1 <= |consumer| <= 64
              && forall c :: c in consumer ==> Letter(c) || Provenance.Digit(c) || c in "-._"
  {
    assert forall i :: 0 <= i < |consumer| ==> consumer[i] in consumer;
  }

  // ---- The two transactions ---------------------------------------------------------------------------

  function Published<Db>(box: Box<Db>, event: Event): Result<Box<Db>> {
    var kept :- Merge(box.mail, event);
    Ok(box.(mail := box.mail[event.Key() := kept]))
  }

  /** Every event in the mailbox has a receipt for this consumer. */
  function Registered<Db>(box: Box<Db>, consumer: Consumer, now: int): Box<Db> {
    var missing :=
      map id | id in box.mail && (id, consumer) !in box.receipts :: (id, consumer) := Receipt(Pending, 0, now);
    box.(receipts := missing + box.receipts)
  }

  ghost predicate Before(receipts: map<Key, Receipt>, a: Key, b: Key)
    requires a in receipts && b in receipts
  {
    || receipts[a].available < receipts[b].available
    || (receipts[a].available == receipts[b].available && Less(a.0.bytes, b.0.bytes))
  }

  predicate Open(
      receipts: map<Key, Receipt>, mail: map<Id, Event>, key: Key, consumer: Consumer, locked: set<Key>, now: int)
  {
    key in receipts && key.1 == consumer && key.0 in mail && key !in locked && receipts[key].Due(now)
  }

  /** What `consume` selects: this consumer's first due receipt that no other transaction has locked. */
  ghost predicate Selects<Db>(box: Box<Db>, consumer: Consumer, locked: set<Key>, now: int, pick: Option<Id>) {
    match pick
    case None => forall key :: !Open(box.receipts, box.mail, key, consumer, locked, now)
    case Some(id) =>
      && Open(box.receipts, box.mail, (id, consumer), consumer, locked, now)
      && forall key :: Open(box.receipts, box.mail, key, consumer, locked, now) ==>
          !Before(box.receipts, key, (id, consumer))
  }

  function Marked(receipt: Receipt, rejected: bool, now: int): Receipt {
    Receipt(if !rejected then Processed else if receipt.attempts + 1 >= MAX_ATTEMPTS then Dead else Pending,
            receipt.attempts + 1, now + RETRY_MS)
  }

  /** One committed consumption of the selected event. */
  function Handled<Db>(box: Box<Db>, key: Key, ran: Ran<Db>, now: int): Box<Db>
    requires key in box.receipts
  {
    box.(receipts := box.receipts[key := Marked(box.receipts[key], ran.rejected.Some?, now)],
         db := if ran.rejected.Some? then box.db else ran.db)
  }

  function Consumed<Db>(box: Box<Db>, consumer: Consumer, pick: Option<Id>, handle: (Db, Event) -> Ran<Db>, now: int)
    : Box<Db>
    requires pick.Some? ==> pick.value in box.mail
  {
    var ready := Registered(box, consumer, now);
    match pick
    case None => ready
    case Some(id) => Handled(ready, (id, consumer), handle(box.db, box.mail[id]), now)
  }

  // ---- The store, changed in place ----------------------------------------------------------------------

  class Store<Db> {
    var mail: map<Id, Event>
    var receipts: map<Key, Receipt>
    var db: Db

    function View(): Box<Db>
      reads this
    {
      Box(mail, receipts, db)
    }

    constructor (db: Db)
      ensures View() == Box(map[], map[], db)
    {
      this.mail, this.receipts, this.db := map[], map[], db;
    }

    method Publish(event: Event) returns (r: Result<Id>)
      modifies this
      ensures match Published(old(View()), event)
              case Ok(after) => r == Ok(event.Key()) && View() == after
              case Err(code) => r == Err(code) && View() == old(View())
    {
      if event.Key() !in mail {
        mail := mail[event.Key() := event];
      } else if !mail[event.Key()].Same(event) {
        return Err("events.id_reused");
      }
      assert mail == old(mail)[event.Key() := mail[event.Key()]];
      return Ok(event.Key());
    }

    /** `ORDER BY available_at, event_id FOR UPDATE SKIP LOCKED LIMIT 1`. */
    method Select(consumer: Consumer, locked: set<Key>, now: int) returns (pick: Option<Id>)
      ensures Selects(View(), consumer, locked, now, pick)
    {
      hide Ids.Id.WellFormed, Ids.Octets;
      pick := None;
      var rest: set<Key> := receipts.Keys;
      while rest != {}
        invariant rest <= receipts.Keys
        invariant pick.Some? ==> Open(receipts, mail, (pick.value, consumer), consumer, locked, now)
        invariant forall key :: key !in rest && Open(receipts, mail, key, consumer, locked, now) ==>
                    pick.Some? && !Before(receipts, key, (pick.value, consumer))
        decreases |rest|
      {
        var key: Key :| key in rest;
        if Open(receipts, mail, key, consumer, locked, now) {
          var sooner := true;
          if pick.Some? {
            var best: Key := (pick.value, consumer);
            var smaller := Precedes(key.0.bytes, best.0.bytes);
            sooner := receipts[key].available < receipts[best].available
                   || (receipts[key].available == receipts[best].available && smaller);
            if sooner { EarlierStays(receipts, key, best); }
          }
          if sooner {
            NotBeforeSelf(receipts, key);
            pick := Some(key.0);
          }
        }
        rest := rest - {key};
      }
    }

    /** Consumes one event; the callback's changes stand or fall as a whole, the receipt's mark always stands. */
    method Consume(consumer: Consumer, handle: (Db, Event) -> Ran<Db>, locked: set<Key>, now: int)
      returns (r: Result<bool>, ghost pick: Option<Id>)
      modifies this
      ensures !ValidConsumer(consumer) ==> r == Err("events.invalid_consumer") && View() == old(View())
      ensures ValidConsumer(consumer) ==>
                && Selects(Registered(old(View()), consumer, now), consumer, locked, now, pick)
                && (pick.Some? ==> pick.value in old(mail))
                && View() == Consumed(old(View()), consumer, pick, handle, now)
      ensures ValidConsumer(consumer) ==>
                match pick
                case None => r == Ok(false)
                case Some(id) =>
                  match handle(old(db), old(mail)[id]).rejected
                  case Some(code) => r == Err(code)
                  case None => r == Ok(true)
    {
      hide Ids.Id.WellFormed, Ids.Octets, Less;
      pick := None;
      if !ValidConsumer(consumer) { return Err("events.invalid_consumer"), None; }
      receipts :=
        (map id | id in mail && (id, consumer) !in receipts :: (id, consumer) := Receipt(Pending, 0, now)) + receipts;
      var chosen := Select(consumer, locked, now);
      pick := chosen;
      if chosen.None? { return Ok(false), pick; }
      var key := (chosen.value, consumer);
      var attempt := receipts[key].attempts;
      var savepoint := db;
      var ran := handle(db, mail[chosen.value]);
      db := ran.db;
      if ran.rejected.Some? { db := savepoint; }
      var state := if ran.rejected.None? then Processed else if attempt + 1 >= MAX_ATTEMPTS then Dead else Pending;
      receipts := receipts[key := Receipt(state, attempt + 1, now + RETRY_MS)];
      match ran.rejected {
        case Some(code) => return Err(code), pick;
        case None => return Ok(true), pick;
      }
    }
  }

  // ---- When mail is due -----------------------------------------------------------------------------------

  /** Consuming touches no other receipt, and gives every event without one a receipt that is due at once. */
  lemma ReceiptsStay<Db>(
      box: Box<Db>, consumer: Consumer, pick: Option<Id>, handle: (Db, Event) -> Ran<Db>, now: int, key: Key,
      later: int)
    requires pick.Some? ==> pick.value in box.mail
    requires pick.None? || key != (pick.value, consumer)
    ensures var after := Consumed(box, consumer, pick, handle, now);
            && after.mail == box.mail
            && (key in box.receipts ==> key in after.receipts && after.receipts[key] == box.receipts[key])
            && (key !in box.receipts ==> (key in after.receipts <==> key.1 == consumer && key.0 in box.mail))
            && (key !in box.receipts && key in after.receipts ==>
                  after.receipts[key].attempts == 0 && (after.receipts[key].Due(later) <==> now <= later))
  {
  }

  /** The attempts a consumer has made on an event so far. */
  function AttemptsBefore(receipts: map<Key, Receipt>, key: Key): nat {
    if key in receipts then receipts[key].attempts else 0
  }

  /**
   * An accepted run is the last; a rejected one is due again exactly 100 milliseconds
   * later, or was the fifth and leaves the receipt dead.
   */
  lemma RunWaits<Db>(
      box: Box<Db>, consumer: Consumer, id: Id, handle: (Db, Event) -> Ran<Db>, now: int, later: int)
    requires id in box.mail && AttemptsBefore(box.receipts, (id, consumer)) < 5
    ensures var key, before := (id, consumer), AttemptsBefore(box.receipts, (id, consumer));
            var after := Consumed(box, consumer, Some(id), handle, now);
            && key in after.receipts && after.receipts[key].attempts == before + 1
            && if handle(box.db, box.mail[id]).rejected.Some? then
                 && after.db == box.db
                 && (after.receipts[key].state.Dead? <==> before == 4)
                 && (after.receipts[key].Due(later) <==> before < 4 && now + 100 <= later)
               else
                 && after.db == handle(box.db, box.mail[id]).db
                 && after.receipts[key].state.Processed? && !after.receipts[key].Due(later)
  {
  }

  /** The event consumed was due no later than any other, and of those as early has the smallest ID as text. */
  lemma ConsumesOldest<Db>(box: Box<Db>, consumer: Consumer, locked: set<Key>, now: int, chosen: Id, id: Id)
    requires Selects(box, consumer, locked, now, Some(chosen)) && id != chosen
    requires Open(box.receipts, box.mail, (id, consumer), consumer, locked, now)
    ensures var key: Key, other: Key := (chosen, consumer), (id, consumer);
            && key in box.receipts && other in box.receipts
            && box.receipts[key].available <= box.receipts[other].available
            && (box.receipts[key].available == box.receipts[other].available ==>
                  TextLess(Ids.Canonical(chosen), Ids.Canonical(id)))
  {
    assert chosen.bytes != id.bytes;
    LessTotal(chosen.bytes, id.bytes);
    var key: Key, other: Key := (chosen, consumer), (id, consumer);
    assert !Before(box.receipts, other, key);
    if box.receipts[key].available == box.receipts[other].available { Ids.TextFollowsBytes(chosen, id); }
  }

  lemma EarlierStays(receipts: map<Key, Receipt>, key: Key, best: Key)
    requires key in receipts && best in receipts && Before(receipts, key, best)
    ensures forall other :: other in receipts && Before(receipts, other, key) ==> Before(receipts, other, best)
  {
    forall other | other in receipts && Before(receipts, other, key) ensures Before(receipts, other, best) {
      if receipts[other].available == receipts[key].available == receipts[best].available {
        LessTransitive(other.0.bytes, key.0.bytes, best.0.bytes);
      }
    }
  }

  lemma NotBeforeSelf(receipts: map<Key, Receipt>, key: Key)
    requires key in receipts
    ensures !Before(receipts, key, key)
  {
    LessIrreflexive(key.0.bytes);
  }

  // ---- Every run -------------------------------------------------------------------------------------------

  /** A committed consumption: whose it was, what it handled, and the callback. */
  datatype Attempt<!Db> = Attempt(key: Key, event: Event, accepted: bool, handle: (Db, Event) -> Ran<Db>)

  datatype Desk<!Db> = Desk(box: Box<Db>, attempts: seq<Attempt<Db>>)

  /** A consumption whose transaction does not commit leaves nothing; a publication refused leaves nothing. */
  datatype Step<!Db> =
    | Publish(event: Event, committed: bool)
    | Consume(
        consumer: Consumer, handle: (Db, Event) -> Ran<Db>, now: int, locked: set<Key>, pick: Option<Id>,
        committed: bool)

  ghost predicate Enabled<Db>(d: Desk<Db>, s: Step<Db>) {
    s.Consume? ==>
      ValidConsumer(s.consumer) && Selects(Registered(d.box, s.consumer, s.now), s.consumer, s.locked, s.now, s.pick)
  }

  ghost function Next<Db(!new)>(d: Desk<Db>, s: Step<Db>): Desk<Db>
    requires Enabled(d, s)
  {
    if !s.committed then d
    else
      match s
      case Publish(event, _) => if Published(d.box, event).Ok? then d.(box := Published(d.box, event).value) else d
      case Consume(consumer, handle, now, _, pick, _) =>
        Desk(Consumed(d.box, consumer, pick, handle, now),
             if pick.None? then d.attempts
             else
               var event := d.box.mail[pick.value];
               d.attempts + [Attempt((pick.value, consumer), event, handle(d.box.db, event).rejected.None?, handle)])
  }

  ghost function Run<Db(!new)>(start: Db, steps: seq<Step<Db>>): Desk<Db> {
    if steps == [] then Desk(Box(map[], map[], start), [])
    else
      var n := |steps| - 1;
      var before := Run(start, steps[..n]);
      if Enabled(before, steps[n]) then Next(before, steps[n]) else before
  }

  /** How many committed runs of a consumer on an event were accepted, or were rejected. */
  function Count<Db>(attempts: seq<Attempt<Db>>, key: Key, accepted: bool): nat {
    if attempts == [] then 0
    else
      var last := attempts[|attempts| - 1];
      Count(attempts[..|attempts| - 1], key, accepted) + if last.key == key && last.accepted == accepted then 1 else 0
  }

  /** The database that the accepted runs, in commit order and nothing else, would make of the start. */
  function Replayed<Db>(start: Db, attempts: seq<Attempt<Db>>): Db {
    if attempts == [] then start
    else
      var last := attempts[|attempts| - 1];
      var before := Replayed(start, attempts[..|attempts| - 1]);
      if last.accepted then last.handle(before, last.event).db else before
  }

  lemma CountGrows<Db>(attempts: seq<Attempt<Db>>, last: Attempt<Db>, key: Key, accepted: bool)
    ensures Count(attempts + [last], key, accepted)
         == Count(attempts, key, accepted) + if last.key == key && last.accepted == accepted then 1 else 0
  {
    assert (attempts + [last])[..|attempts|] == attempts;
  }

  lemma ReplayGrows<Db>(start: Db, attempts: seq<Attempt<Db>>, last: Attempt<Db>)
    ensures var before := Replayed(start, attempts);
            Replayed(start, attempts + [last]) == if last.accepted then last.handle(before, last.event).db else before
  {
    assert (attempts + [last])[..|attempts|] == attempts;
  }

  /** What a receipt says, in terms of the committed runs of its consumer on its event. */
  predicate Tells(receipt: Receipt, accepted: nat, rejected: nat) {
    && receipt.attempts == accepted + rejected
    && accepted == (if receipt.state.Processed? then 1 else 0)
    && (receipt.state.Dead? <==> rejected == MAX_ATTEMPTS)
    && rejected <= MAX_ATTEMPTS
    && (receipt.state.Processed? ==> rejected < MAX_ATTEMPTS)
  }

  predicate TellsOf<Db>(d: Desk<Db>, key: Key) {
    if key in d.box.receipts then
      key.0 in d.box.mail && Tells(d.box.receipts[key], Count(d.attempts, key, true), Count(d.attempts, key, false))
    else Count(d.attempts, key, true) == 0 && Count(d.attempts, key, false) == 0
  }

  ghost predicate ReceiptsTell<Db(!new)>(d: Desk<Db>) {
    forall key :: TellsOf(d, key)
  }

  predicate MailKeyed(mail: map<Id, Event>) {
    forall id :: id in mail ==> mail[id].Key() == id
  }

  predicate RunsOfMail<Db>(d: Desk<Db>) {
    forall i :: 0 <= i < |d.attempts| ==>
      d.attempts[i].key.0 in d.box.mail && d.attempts[i].event == d.box.mail[d.attempts[i].key.0]
  }

  /** A run counts as accepted exactly when its callback accepted, on the database the runs before it left. */
  ghost predicate Truthful<Db(!new)>(start: Db, attempts: seq<Attempt<Db>>) {
    forall n :: 0 <= n < |attempts| ==> TruthfulAt(start, attempts, n)
  }

  predicate TruthfulAt<Db>(start: Db, attempts: seq<Attempt<Db>>, n: nat)
    requires n < |attempts|
  {
    attempts[n].accepted == attempts[n].handle(Replayed(start, attempts[..n]), attempts[n].event).rejected.None?
  }

  lemma TruthfulFront<Db(!new)>(start: Db, front: seq<Attempt<Db>>, last: Attempt<Db>)
    ensures Truthful(start, front + [last]) <==>
              Truthful(start, front) && last.accepted == last.handle(Replayed(start, front), last.event).rejected.None?
  {
    var all := front + [last];
    assert forall n :: 0 <= n <= |front| ==> all[..n] == front[..n];
    assert all[..|front|] == front;
    assert TruthfulAt(start, all, |front|)
           <==> last.accepted == last.handle(Replayed(start, front), last.event).rejected.None?;
    forall n | 0 <= n < |front| ensures TruthfulAt(start, all, n) <==> TruthfulAt(start, front, n) {
      assert all[n] == front[n];
    }
  }

  ghost predicate Sound<Db(!new)>(start: Db, d: Desk<Db>) {
    && ReceiptsTell(d) && MailKeyed(d.box.mail) && RunsOfMail(d)
    && d.box.db == Replayed(start, d.attempts) && Truthful(start, d.attempts)
  }

  lemma PublishKeeps<Db(!new)>(start: Db, d: Desk<Db>, event: Event)
    requires Sound(start, d) && Published(d.box, event).Ok?
    ensures Sound(start, d.(box := Published(d.box, event).value))
  {
    hide Ids.Id.WellFormed, Ids.Octets;
    var after := d.(box := Published(d.box, event).value);
    forall key ensures TellsOf(after, key) { assert TellsOf(d, key); }
  }

  lemma RegisteredTells<Db(!new)>(d: Desk<Db>, consumer: Consumer, now: int, key: Key)
    requires ReceiptsTell(d)
    ensures TellsOf(d.(box := Registered(d.box, consumer, now)), key)
  {
    hide Ids.Id.WellFormed, Ids.Octets, Count;
    assert TellsOf(d, key);
  }

  lemma ConsumeTells<Db(!new)>(d: Desk<Db>, s: Step<Db>, key: Key)
    requires ReceiptsTell(d) && s.Consume? && s.committed && Enabled(d, s)
    ensures TellsOf(Next(d, s), key)
  {
    hide Ids.Id.WellFormed, Ids.Octets;
    RegisteredTells(d, s.consumer, s.now, key);
    if s.pick.Some? {
      var after := Next(d, s);
      var last := after.attempts[|d.attempts|];
      CountGrows(d.attempts, last, key, true);
      CountGrows(d.attempts, last, key, false);
      hide Count, Registered, ReceiptsTell;
    }
  }

  lemma ConsumeKeeps<Db(!new)>(start: Db, d: Desk<Db>, s: Step<Db>)
    requires Sound(start, d) && s.Consume? && s.committed && Enabled(d, s)
    ensures Sound(start, Next(d, s))
  {
    forall key { ConsumeTells(d, s, key); }
    if s.pick.Some? {
      ReplayGrows(start, d.attempts, Next(d, s).attempts[|d.attempts|]);
      TruthfulFront(start, d.attempts, Next(d, s).attempts[|d.attempts|]);
    }
    hide Truthful, Ids.Id.WellFormed, Ids.Octets, TellsOf, Registered, Selects, Replayed;
  }

  lemma {:induction false} RunSound<Db(!new)>(start: Db, steps: seq<Step<Db>>)
    ensures Sound(start, Run(start, steps))
  {
    hide Enabled, Selects, Registered;
    if steps != [] {
      var n := |steps| - 1;
      RunSound(start, steps[..n]);
      var before := Run(start, steps[..n]);
      if Enabled(before, steps[n]) && steps[n].committed {
        if steps[n].Consume? {
          ConsumeKeeps(start, before, steps[n]);
        } else if Published(before.box, steps[n].event).Ok? {
          PublishKeeps(start, before, steps[n].event);
        }
        hide Sound, Consumed, Published;
      }
    }
  }

  /** A consumer's effects of an event, as its receipt tells them. */
  predicate Once<Db>(d: Desk<Db>, key: Key) {
    && Count(d.attempts, key, true) <= 1
    && (Count(d.attempts, key, true) == 1 <==> key in d.box.receipts && d.box.receipts[key].state.Processed?)
    && (Count(d.attempts, key, false) == 5 <==> key in d.box.receipts && d.box.receipts[key].state.Dead?)
    && Count(d.attempts, key, false) <= 5
    && (Count(d.attempts, key, false) == 5 ==> Count(d.attempts, key, true) == 0)
  }

  lemma SoundOnce<Db(!new)>(start: Db, d: Desk<Db>, key: Key)
    requires Sound(start, d)
    ensures Once(d, key)
  {
    assert TellsOf(d, key);
    hide Count, Replayed;
  }

  /**
   * For every run with redelivery and transactions that do not commit: a consumer's
   * effects of an event are committed at most once, exactly when the receipt is
   * processed; it is dead exactly after five rejected runs, and then has no effect; and
   * the database is what the accepted runs alone make of it.
   */
  lemma EffectsOnce<Db(!new)>(start: Db, steps: seq<Step<Db>>, key: Key)
    ensures Once(Run(start, steps), key)
    ensures Run(start, steps).box.db == Replayed(start, Run(start, steps).attempts)
  {
    RunSound(start, steps);
    SoundOnce(start, Run(start, steps), key);
    hide Run, Once, Count, Replayed;
  }

  /** What a receipt leaves to wait for: nothing, ever or for now. */
  predicate Rests(receipts: map<Key, Receipt>, key: Key, now: int) {
    && key in receipts
    && (receipts[key].state.Processed? || receipts[key].state.Dead? || now < receipts[key].available)
  }

  /**
   * In any run, with nothing locked, a consumer finds nothing to do exactly when every
   * event in the mailbox has its receipt and that is processed, dead, or due only later.
   */
  lemma ConsumesUnlessDone<Db(!new)>(
      start: Db, steps: seq<Step<Db>>, consumer: Consumer, handle: (Db, Event) -> Ran<Db>, now: int, committed: bool)
    requires ValidConsumer(consumer)
    ensures var d := Run(start, steps);
            Enabled(d, Consume(consumer, handle, now, {}, None, committed))
            <==> forall id :: id in d.box.mail ==> Rests(d.box.receipts, (id, consumer), now)
  {
    RunSound(start, steps);
    var d := Run(start, steps);
    var ready := Registered(d.box, consumer, now);
    hide Run, Count, Truthful, Replayed, Ids.Id.WellFormed, Ids.Octets;
    forall id | id in d.box.mail
      ensures Open(ready.receipts, ready.mail, (id, consumer), consumer, {}, now)
         <==> !Rests(d.box.receipts, (id, consumer), now)
    {
      assert TellsOf(d, (id, consumer));
    }
  }
}
