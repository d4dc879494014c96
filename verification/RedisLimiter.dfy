/** The shared limiter: one atomic script over a sorted set of window ends and a hash of counts. */
module RedisLimiter {
  import opened Results
  import opened Limits
  import Local = LocalLimiter

  /** Numbers the script handles without rounding. */
  const EXACT := 0x20_0000_0000_0000

  // ---- Buckets of an operation -----------------------------------------------------------------

  function SubjectAttempts(operation: string): Option<nat> {
    if operation == "register" then Some(5)
    else if operation == "login" then Some(10)
    else if operation == "verification_request" || operation == "reset_request" then Some(3)
    else if operation == "verify" || operation == "reset" then Some(10)
    else if operation == "password_change" then Some(5)
    else None
  }

  function SubjectWindow(): nat {
    15 * 60 * 1000
  }

  function SourceLimits(operation: string): Option<Bucket> {
    if operation == "register" then Some(Bucket(30, SubjectWindow()))
    else if operation == "login" then Some(Bucket(100, SubjectWindow()))
    else if operation == "verification_request" || operation == "reset_request" then Some(Bucket(30, SubjectWindow()))
    else None
  }

  function HitsOf(keyOf: (string, string) -> Key, operation: string, subject: string, source: string)
    : Option<seq<Hit>>
  {
    match SubjectAttempts(operation)
    case None => None
    case Some(attempts) =>
      Some([Hit(keyOf(operation, subject), Bucket(attempts, SubjectWindow()))]
           + (if SourceLimits(operation).Some? && source != ""
              then [Hit(keyOf(operation, source), SourceLimits(operation).value)] else []))
  }

  /**
   * Both limiters count the same buckets for a call exactly when it names a source or
   * its operation has no source limit: an empty source is counted locally and not here.
   */
  lemma SameHits(keyOf: (string, string) -> Key, operation: string, subject: string, source: string)
    ensures HitsOf(keyOf, operation, subject, source)
            == Local.HitsOf(Local.Defaults(), keyOf, operation, subject, source)
       <==> source != "" || SourceLimits(operation).None?
  {
    var here := HitsOf(keyOf, operation, subject, source);
    var there := Local.HitsOf(Local.Defaults(), keyOf, operation, subject, source);
    if SubjectAttempts(operation).Some? {
      if source == "" && SourceLimits(operation).Some? {
        assert |here.value| == 1 && |there.value| == 2;
      }
    }
  }

  // ---- The script ----------------------------------------------------------------------------------

  datatype Store = Store(index: map<Key, int>, counts: map<Key, int>)

  function Expired(store: Store, now: int): set<Key> {
    set k | k in store.index && store.index[k] <= now
  }

  function Evicted(store: Store, now: int): Store {
    Store(store.index - Expired(store, now), store.counts - Expired(store, now))
  }

  /** Opens a window for the key if it has none, and counts the hit in it. */
  function CountHit(store: Store, hit: Hit, now: int): Store {
    var added := if hit.key in store.index then store
                  else Store(store.index[hit.key := now + hit.bucket.window], store.counts[hit.key := 0]);
    var count := if hit.key in added.counts then added.counts[hit.key] else 0;
    added.(counts := added.counts[hit.key := count + 1])
  }

  datatype Tally = Tally(denied: bool, retry: int) {
    function Add(wait: Option<int>): Tally {
      match wait
      case None => this
      case Some(remaining) => Tally(true, if remaining > retry then remaining else retry)
    }
  }

  function WaitOf(store: Store, hit: Hit, now: int): Option<int> {
    if hit.key in store.index && hit.key in store.counts then
      Wait(Window(store.index[hit.key], store.counts[hit.key]), hit.bucket.attempts, now)
    else None
  }

  datatype Counted = Counted(store: Store, tally: Tally)

  function CountAll(store: Store, hits: seq<Hit>, now: int, tally: Tally): Counted
    decreases |hits|
  {
    if hits == [] then Counted(store, tally)
    else
      var next := CountHit(store, hits[0], now);
      CountAll(next, hits[1..], now, tally.Add(WaitOf(next, hits[0], now)))
  }

  datatype ScriptResult = ScriptResult(store: Store, answer: Answer)

  function Script(store: Store, maxKeys: nat, hits: seq<Hit>, now: int): ScriptResult {
    var kept := Evicted(store, now);
    if |kept.index.Keys + Keys(hits)| > maxKeys then ScriptResult(kept, Unavailable)
    else
      var r := CountAll(kept, hits, now, Tally(false, 0));
      ScriptResult(r.store, if r.tally.denied then Refused(r.tally.retry) else Permitted)
  }

  class Redis {
    var index: map<Key, int>
    var counts: map<Key, int>

    constructor ()
      ensures index == map[] && counts == map[]
    {
      index, counts := map[], map[];
    }

    method RemoveExpired(now: int)
      modifies this
      ensures Store(index, counts) == Evicted(old(Store(index, counts)), now)
    {
      var expired := set k | k in index && index[k] <= now;
      ghost var all := expired;
      while expired != {}
        invariant expired <= all
        invariant index == old(index) - (all - expired)
        invariant counts == old(counts) - (all - expired)
        decreases |expired|
      {
        var field :| field in expired;
        index := index - {field};
        counts := counts - {field};
        expired := expired - {field};
      }
    }

    /** Whether an earlier hit of the call has the field of hit `i`. */
    static method Duplicate(hits: seq<Hit>, i: nat) returns (duplicate: bool)
      requires i < |hits|
      ensures duplicate <==> hits[i].key in Keys(hits[..i])
    {
      KeyAmong(hits[..i], hits[i].key);
      for j := 0 to i
        invariant forall k :: 0 <= k < j ==> hits[k].key != hits[i].key
      {
        if hits[j].key == hits[i].key {
          assert hits[..i][j].key == hits[i].key;
          return true;
        }
      }
      return false;
    }

    /** How many windows the call would open, counting a repeated field once. */
    method CountNew(hits: seq<Hit>) returns (added: nat)
      ensures added == |Keys(hits) - index.Keys|
    {
      added := 0;
      assert Keys(hits[..0]) == {};
      assert hits[..|hits|] == hits;
      hide Keys;
      for i := 0 to |hits|
        invariant added == |Keys(hits[..i]) - index.Keys|
      {
        KeysSnoc(hits, i);
        GrowDifference(Keys(hits[..i]), index.Keys, hits[i].key);
        if hits[i].key !in index {
          var duplicate := Duplicate(hits, i);
          if !duplicate { added := added + 1; }
        }
      }
    }

    method CountInTurn(hits: seq<Hit>, now: int) returns (denied: bool, retry: int)
      modifies this
      ensures CountAll(old(Store(index, counts)), hits, now, Tally(false, 0))
              == Counted(Store(index, counts), Tally(denied, retry))
    {
      denied, retry := false, 0;
      ghost var kept := Store(index, counts);
      assert hits[0..] == hits;
      for i := 0 to |hits|
        invariant CountAll(kept, hits, now, Tally(false, 0))
                  == CountAll(Store(index, counts), hits[i..], now, Tally(denied, retry))
      {
        assert hits[i..][0] == hits[i] && hits[i..][1..] == hits[i + 1..];
        denied, retry := CountOneHit(hits[i], now, denied, retry);
        hide CountHit, WaitOf;
      }
    }

    method CountOneHit(hit: Hit, now: int, denied: bool, retry: int) returns (denied': bool, retry': int)
      modifies this
      ensures Store(index, counts) == CountHit(old(Store(index, counts)), hit, now)
      ensures Tally(denied', retry') == Tally(denied, retry).Add(WaitOf(Store(index, counts), hit, now))
    {
      denied', retry' := denied, retry;
      var field := hit.key;
      if field !in index {
        index := index[field := now + hit.bucket.window];
        counts := counts[field := 0];
      }
      var end := index[field];
      var count := (if field in counts then counts[field] else 0) + 1;
      counts := counts[field := count];
      if count > hit.bucket.attempts {
        denied' := true;
        var remaining := end - now;
        if remaining > retry { retry' := remaining; }
      }
    }

    method Eval(maxKeys: nat, hits: seq<Hit>, now: int) returns (answer: Answer)
      modifies this
      ensures Script(old(Store(index, counts)), maxKeys, hits, now) == ScriptResult(Store(index, counts), answer)
    {
      RemoveExpired(now);
      var added := CountNew(hits);
      UnionSize(index.Keys, Keys(hits));
      if |index| + added > maxKeys { return Unavailable; }
      var denied, retry := CountInTurn(hits, now);
      return if denied then Refused(retry) else Permitted;
    }
  }

  lemma KeysSnoc(hits: seq<Hit>, i: int)
    requires 0 <= i < |hits|
    ensures Keys(hits[..i + 1]) == Keys(hits[..i]) + {hits[i].key}
  {
    assert hits[..i + 1] == hits[..i] + [hits[i]];
  }

  lemma KeyAmong(hits: seq<Hit>, key: Key)
    ensures key in Keys(hits) <==> exists k :: 0 <= k < |hits| && hits[k].key == key
  {
    if key in Keys(hits) {
      var h :| h in hits && h.key == key;
    }
  }

  lemma GrowDifference<T>(a: set<T>, b: set<T>, x: T)
    ensures |(a + {x}) - b| == |a - b| + if x in a || x in b then 0 else 1
  {
    if x in a || x in b {
      assert (a + {x}) - b == a - b;
    } else {
      assert (a + {x}) - b == (a - b) + {x};
    }
  }

  lemma UnionSize<T>(a: set<T>, b: set<T>)
    ensures |a + b| == |a| + |b - a|
  {
    assert a + b == a + (b - a);
  }

  // ---- Against the limiter that never forgets -------------------------------------------------------

  /** What is stored is true, and every window still running is stored. */
  ghost predicate Tracks(store: Store, history: seq<Stamped>, now: int) {
    && store.index.Keys == store.counts.Keys
    && (forall k :: k in store.index ==> LastWindow(history, k) == Some(Window(store.index[k], store.counts[k])))
    && forall k :: Live(history, k, now) ==> k in store.index
  }

  /** Nothing stored has run out. */
  predicate Current(store: Store, now: int) {
    forall k :: k in store.index ==> store.index[k] > now
  }

  /** Removing expired windows leaves exactly the running ones. */
  lemma EvictionExact(store: Store, history: seq<Stamped>, now: int)
    requires Tracks(store, history, now)
    ensures Tracks(Evicted(store, now), history, now) && Current(Evicted(store, now), now)
    ensures Evicted(store, now).index.Keys == LiveKeys(history, now)
  {
    var kept := Evicted(store, now);
    forall k ensures k in kept.index <==> Live(history, k, now) {
      if k in store.index { assert LastWindow(history, k) == Some(Window(store.index[k], store.counts[k])); }
    }
    forall k ensures k in kept.index.Keys <==> k in LiveKeys(history, now) {
      LiveIsSeen(history, k, now);
      assert k in kept.index <==> Live(history, k, now);
    }
  }

  lemma CountTracks(store: Store, history: seq<Stamped>, hit: Hit, now: int)
    requires Tracks(store, history, now) && Current(store, now) && 0 < hit.bucket.window
    ensures var next := CountHit(store, hit, now);
            var after := history + [Stamped(hit, now)];
            && Tracks(next, after, now) && Current(next, now)
            && WaitOf(next, hit, now) == Wait(LastWindow(after, hit.key).value, hit.bucket.attempts, now)
            && (WaitOf(next, hit, now).Some? ==> WaitOf(next, hit, now).value > 0)
  {
    CountOne(history, Stamped(hit, now));
    var next, after := CountHit(store, hit, now), history + [Stamped(hit, now)];
    hide LastWindow;
    assert Live(history, hit.key, now) <==> hit.key in store.index;
    assert forall k :: k != hit.key ==> Live(after, k, now) == Live(history, k, now);
  }

  lemma {:induction false} CountAllIdeal(store: Store, history: seq<Stamped>, hits: seq<Hit>, now: int, tally: Tally)
    requires Tracks(store, history, now) && Current(store, now) && ValidHits(hits) && Timed(hits)
    requires tally.retry >= 0 && (tally.denied || tally.retry == 0)
    ensures var r := CountAll(store, hits, now, tally);
            && Tracks(r.store, history + Stamp(hits, now), now)
            && r.tally == tally.Add(IdealRetry(history, hits, now))
    decreases |hits|
  {
    if hits == [] {
      assert history + Stamp(hits, now) == history;
    } else {
      var next, s := CountHit(store, hits[0], now), Stamped(hits[0], now);
      CountTracks(store, history, hits[0], now);
      TallyLonger(tally, WaitOf(next, hits[0], now), IdealRetry(history + [s], hits[1..], now));
      hide Tracks, CountHit, WaitOf, LastWindow, Current, Longer, Tally.Add;
      StampFirst(history, hits, now);
      hide Stamp;
      NextTally(tally, WaitOf(next, hits[0], now));
      CountAllIdeal(next, history + [s], hits[1..], now, tally.Add(WaitOf(next, hits[0], now)));
    }
  }

  lemma StampFirst(history: seq<Stamped>, hits: seq<Hit>, now: int)
    requires hits != []
    ensures history + Stamp(hits, now) == history + [Stamped(hits[0], now)] + Stamp(hits[1..], now)
  {
  }

  lemma TallyLonger(tally: Tally, a: Option<int>, b: Option<int>)
    ensures tally.Add(a).Add(b) == tally.Add(Longer(a, b))
  {
  }

  lemma NextTally(tally: Tally, wait: Option<int>)
    requires tally.retry >= 0 && (tally.denied || tally.retry == 0)
    ensures var next := tally.Add(wait);
            next.retry >= 0 && (next.denied || next.retry == 0)
  {
  }

  lemma {:induction false} IdealWaits(store: Store, history: seq<Stamped>, hits: seq<Hit>, now: int)
    requires Tracks(store, history, now) && Current(store, now) && ValidHits(hits) && Timed(hits)
    ensures IdealRetry(history, hits, now).Some? ==> IdealRetry(history, hits, now).value > 0
    decreases |hits|
  {
    if hits != [] {
      CountTracks(store, history, hits[0], now);
      IdealWaits(CountHit(store, hits[0], now), history + [Stamped(hits[0], now)], hits[1..], now);
    }
  }

  /** One run of the script from a store that tracks the history gives the ideal answer. */
  lemma ScriptIdeal(store: Store, history: seq<Stamped>, call: Call, maxKeys: nat)
    requires Tracks(store, history, call.now) && ValidHits(call.hits) && Timed(call.hits)
    ensures var r := Script(store, maxKeys, call.hits, call.now);
            && r.answer == IdealAnswer(history, call, maxKeys)
            && Tracks(
                 r.store, if r.answer.Unavailable? then history else history + Stamp(call.hits, call.now), call.now)
  {
    OverflowsAtOnce(history, call, maxKeys);
    EvictionExact(store, history, call.now);
    var kept := Evicted(store, call.now);
    CountAllIdeal(kept, history, call.hits, call.now, Tally(false, 0));
    IdealWaits(kept, history, call.hits, call.now);
  }

  // ---- Every sequence of calls -------------------------------------------------------------------------

  /** Calls as the limiter makes them: windows last, and their ends are handled without rounding. */
  predicate Exact(calls: seq<Call>) {
    Local.AllFit(calls, EXACT) && forall i :: 0 <= i < |calls| ==> Timed(calls[i].hits)
  }

  function StoreAfter(calls: seq<Call>, maxKeys: nat): Store
    decreases |calls|, 1
  {
    if calls == [] then Store(map[], map[]) else LastResult(calls, maxKeys).store
  }

  function LastResult(calls: seq<Call>, maxKeys: nat): ScriptResult
    requires calls != []
    decreases |calls|, 0
  {
    var n := |calls| - 1;
    Script(StoreAfter(calls[..n], maxKeys), maxKeys, calls[n].hits, calls[n].now)
  }

  // ---- What the script has dropped -----------------------------------------------------------------------

  function Ends(store: Store, now: int): map<Key, int> {
    map k | k in store.index && store.index[k] <= now :: store.index[k]
  }

  /** The ends of windows dropped and not begun again. */
  function DroppedAfter(calls: seq<Call>, maxKeys: nat): map<Key, int> {
    if calls == [] then map[]
    else
      var n := |calls| - 1;
      var more := DroppedAfter(calls[..n], maxKeys) + Ends(StoreAfter(calls[..n], maxKeys), calls[n].now);
      if LastResult(calls, maxKeys).answer.Unavailable? then more else more - Keys(calls[n].hits)
  }

  /** No call comes before the end of a window that an earlier call dropped. */
  predicate Timely(calls: seq<Call>, maxKeys: nat) {
    forall i :: 0 <= i < |calls| ==> Local.Quiet(DroppedAfter(calls[..i], maxKeys), calls[i].now)
  }

  /** A window ever begun is stored as it is, or among the dropped with its end. */
  predicate Recalled(store: Store, dropped: map<Key, int>, history: seq<Stamped>, k: Key) {
    var last := LastWindow(history, k);
    if k in store.index then
      k !in dropped && k in store.counts && last == Some(Window(store.index[k], store.counts[k]))
    else
      && k !in store.counts
      && if k in dropped then last.Some? && dropped[k] == last.value.end else last.None?
  }

  ghost predicate Remembers(store: Store, dropped: map<Key, int>, history: seq<Stamped>) {
    forall k :: Recalled(store, dropped, history, k)
  }

  /** The script knows every running window exactly at the times when nothing dropped would still run. */
  lemma RemembersTracks(store: Store, dropped: map<Key, int>, history: seq<Stamped>, now: int)
    requires Remembers(store, dropped, history)
    ensures Tracks(store, history, now) <==> Local.Quiet(dropped, now)
  {
    hide LastWindow;
    assert store.index.Keys == store.counts.Keys by {
      forall k ensures k in store.index.Keys <==> k in store.counts.Keys {
        assert Recalled(store, dropped, history, k);
      }
    }
    assert forall k :: k in store.index ==> Recalled(store, dropped, history, k);
    if Tracks(store, history, now) {
      forall k | k in dropped ensures dropped[k] <= now {
        assert Recalled(store, dropped, history, k);
        assert Live(history, k, now) ==> k in store.index;
      }
    } else if Local.Quiet(dropped, now) {
      forall k ensures Live(history, k, now) ==> k in store.index {
        assert Recalled(store, dropped, history, k);
      }
    }
  }

  lemma DroppingRemembers(store: Store, dropped: map<Key, int>, history: seq<Stamped>, now: int)
    requires Remembers(store, dropped, history) && Local.Quiet(dropped, now)
    ensures Remembers(Evicted(store, now), dropped + Ends(store, now), history)
    ensures Local.Quiet(dropped + Ends(store, now), now) && Current(Evicted(store, now), now)
  {
    hide LastWindow;
    var kept, more := Evicted(store, now), dropped + Ends(store, now);
    forall k ensures Recalled(kept, more, history, k) { assert Recalled(store, dropped, history, k); }
  }

  lemma CountRemembers(store: Store, dropped: map<Key, int>, history: seq<Stamped>, hit: Hit, now: int)
    requires Remembers(store, dropped, history) && Local.Quiet(dropped, now) && Current(store, now)
    requires 0 < hit.bucket.window
    ensures var next := CountHit(store, hit, now);
            && Remembers(next, dropped - {hit.key}, history + [Stamped(hit, now)])
            && Local.Quiet(dropped - {hit.key}, now) && Current(next, now)
  {
    CountOne(history, Stamped(hit, now));
    hide LastWindow;
    var next := CountHit(store, hit, now);
    assert Recalled(store, dropped, history, hit.key);
    forall k ensures Recalled(next, dropped - {hit.key}, history + [Stamped(hit, now)], k) {
      assert Recalled(store, dropped, history, k);
    }
  }

  lemma {:induction false} CountAllRemembers(
      store: Store, dropped: map<Key, int>, history: seq<Stamped>, hits: seq<Hit>, now: int, tally: Tally)
    requires Remembers(store, dropped, history) && Local.Quiet(dropped, now) && Current(store, now)
    requires ValidHits(hits) && Timed(hits)
    ensures Remembers(
              CountAll(store, hits, now, tally).store, dropped - Keys(hits), history + Stamp(hits, now))
    decreases |hits|
  {
    if hits == [] {
      assert history + Stamp(hits, now) == history && dropped - Keys(hits) == dropped;
    } else {
      var next, s := CountHit(store, hits[0], now), Stamped(hits[0], now);
      CountRemembers(store, dropped, history, hits[0], now);
      hide Remembers, CountHit, WaitOf, Current, Tally.Add, Local.Quiet;
      StampFirst(history, hits, now);
      KeysOfRest(hits);
      hide Stamp, Keys;
      CountAllRemembers(next, dropped - {hits[0].key}, history + [s], hits[1..], now,
                        tally.Add(WaitOf(next, hits[0], now)));
      assert dropped - Keys(hits) == dropped - {hits[0].key} - Keys(hits[1..]);
    }
  }

  lemma TimelyPrefix(calls: seq<Call>, maxKeys: nat)
    requires calls != [] && Timely(calls, maxKeys)
    ensures var n := |calls| - 1;
            Timely(calls[..n], maxKeys) && Local.Quiet(DroppedAfter(calls[..n], maxKeys), calls[n].now)
  {
    hide DroppedAfter, Local.Quiet;
    var n := |calls| - 1;
    forall i | 0 <= i < n ensures Local.Quiet(DroppedAfter(calls[..n][..i], maxKeys), calls[..n][i].now) {
      assert calls[..n][..i] == calls[..i];
    }
  }

  lemma ScriptRemembers(store: Store, dropped: map<Key, int>, history: seq<Stamped>, call: Call, maxKeys: nat)
    requires Remembers(store, dropped, history) && Local.Quiet(dropped, call.now)
    requires ValidHits(call.hits) && Timed(call.hits)
    requires !Script(store, maxKeys, call.hits, call.now).answer.Unavailable?
    ensures Remembers(
              Script(store, maxKeys, call.hits, call.now).store,
              dropped + Ends(store, call.now) - Keys(call.hits), history + Stamp(call.hits, call.now))
  {
    var kept, more := Evicted(store, call.now), dropped + Ends(store, call.now);
    DroppingRemembers(store, dropped, history, call.now);
    hide Remembers, Local.Quiet, Current, CountAll, Evicted, Ends, Keys, Stamp, Timed, ValidHits;
    CountAllRemembers(kept, more, history, call.hits, call.now, Tally(false, 0));
  }

  lemma ExactPrefix(calls: seq<Call>)
    requires calls != [] && Exact(calls)
    ensures var n := |calls| - 1;
            Exact(calls[..n]) && ValidHits(calls[n].hits) && Timed(calls[n].hits)
  {
  }

  lemma {:induction false} RunRemembers(calls: seq<Call>, maxKeys: nat)
    requires Timely(calls, maxKeys) && Exact(calls) && Local.Roomy(calls, maxKeys)
    ensures Remembers(StoreAfter(calls, maxKeys), DroppedAfter(calls, maxKeys), History(calls))
  {
    if calls != [] {
      var n := |calls| - 1;
      Local.RoomyPrefix(calls, maxKeys);
      TimelyPrefix(calls, maxKeys);
      ExactPrefix(calls);
      hide Local.Roomy, Timely, Exact, Tracks, Remembers, Overflows, Local.Quiet, Script, Ends, ValidHits, Timed, Stamp,
        Keys;
      RunRemembers(calls[..n], maxKeys);
      var store, dropped := StoreAfter(calls[..n], maxKeys), DroppedAfter(calls[..n], maxKeys);
      var history := History(calls[..n]);
      RemembersTracks(store, dropped, history, calls[n].now);
      ScriptIdeal(store, history, calls[n], maxKeys);
      assert !LastResult(calls, maxKeys).answer.Unavailable?;
      ScriptRemembers(store, dropped, history, calls[n], maxKeys);
    }
  }

  /** What the script has stored is all there is to know at a time exactly if nothing it dropped would still run. */
  lemma RunTracks(calls: seq<Call>, maxKeys: nat, now: int)
    requires Timely(calls, maxKeys) && Exact(calls) && Local.Roomy(calls, maxKeys)
    ensures Tracks(StoreAfter(calls, maxKeys), History(calls), now) <==> Local.Quiet(DroppedAfter(calls, maxKeys), now)
  {
    RunRemembers(calls, maxKeys);
    RemembersTracks(StoreAfter(calls, maxKeys), DroppedAfter(calls, maxKeys), History(calls), now);
  }

  lemma TimelyMore(calls: seq<Call>, maxKeys: nat)
    requires calls != []
    requires var n := |calls| - 1;
             Timely(calls[..n], maxKeys) && Local.Quiet(DroppedAfter(calls[..n], maxKeys), calls[n].now)
    ensures Timely(calls, maxKeys)
  {
    hide DroppedAfter, Local.Quiet;
    var n := |calls| - 1;
    forall i | 0 <= i < |calls| ensures Local.Quiet(DroppedAfter(calls[..i], maxKeys), calls[i].now) {
      if i < n {
        assert calls[..n][..i] == calls[..i] && calls[..n][i] == calls[i];
        assert Local.Quiet(DroppedAfter(calls[..n][..i], maxKeys), calls[..n][i].now);
      }
    }
  }

  lemma QuietLater(dropped: map<Key, int>, now: int, later: int)
    requires Local.Quiet(dropped, now) && now <= later
    ensures Local.Quiet(dropped, later)
  {
  }

  lemma DropsPast(calls: seq<Call>, maxKeys: nat)
    requires calls != []
    requires var n := |calls| - 1;
             Local.Quiet(DroppedAfter(calls[..n], maxKeys), calls[n].now)
    ensures Local.Quiet(DroppedAfter(calls, maxKeys), calls[|calls| - 1].now)
  {
    hide LastResult, StoreAfter, Keys;
  }

  /** Times that never step back are timely, whatever is dropped. */
  lemma {:induction false} InOrderTimely(calls: seq<Call>, maxKeys: nat, now: int)
    requires Local.InOrder(calls) && (calls != [] ==> calls[|calls| - 1].now <= now)
    ensures Timely(calls, maxKeys) && Local.Quiet(DroppedAfter(calls, maxKeys), now)
  {
    if calls != [] {
      hide DroppedAfter, Local.Quiet, Timely;
      var n := |calls| - 1;
      InOrderTimely(calls[..n], maxKeys, calls[n].now);
      DropsPast(calls, maxKeys);
      QuietLater(DroppedAfter(calls, maxKeys), calls[n].now, now);
      TimelyMore(calls, maxKeys);
    }
  }

  /**
   * The script answers every call as the ideal limiter does, up to and including the first
   * full store, as long as no call comes before the end of a window it has dropped. Times
   * that never step back meet that.
   */
  lemma RedisIsIdeal(calls: seq<Call>, maxKeys: nat)
    requires calls != [] && Timely(calls, maxKeys) && Exact(calls)
    requires Local.Roomy(calls[..|calls| - 1], maxKeys)
    ensures LastResult(calls, maxKeys).answer
         == IdealAnswer(History(calls[..|calls| - 1]), calls[|calls| - 1], maxKeys)
  {
    var n := |calls| - 1;
    TimelyPrefix(calls, maxKeys);
    RunTracks(calls[..n], maxKeys, calls[n].now);
    ScriptIdeal(StoreAfter(calls[..n], maxKeys), History(calls[..n]), calls[n], maxKeys);
  }

  /** A call the script permits is within every bucket it hits. */
  lemma PermittedCallWithin(calls: seq<Call>, maxKeys: nat, i: int)
    requires calls != [] && Timely(calls, maxKeys) && Exact(calls) && Local.Roomy(calls[..|calls| - 1], maxKeys)
    requires LastResult(calls, maxKeys).answer.Permitted? && 0 <= i < |calls[|calls| - 1].hits|
    ensures var n := |calls| - 1;
            LastWithin(History(calls[..n]) + Stamp(calls[n].hits, calls[n].now)[..i + 1])
  {
    var n := |calls| - 1;
    RedisIsIdeal(calls, maxKeys);
    hide LastResult, LastWithin, Timely, Exact, Overflows;
    PermittedWithin(History(calls[..n]), calls[n].hits, calls[n].now, i);
  }

  // ---- Both limiters on the same requests ------------------------------------------------------------------

  /** A request with its clock reading. */
  datatype Request = Request(operation: string, subject: string, source: string, now: int) {
    /** A known operation, and a source where the operation limits sources. */
    predicate Sourced() {
      SubjectAttempts(operation).Some? && (source != "" || SourceLimits(operation).None?)
    }
  }

  predicate Comparable(requests: seq<Request>) {
    && (forall i :: 0 <= i < |requests| ==>
          requests[i].Sourced() && 0 <= requests[i].now && requests[i].now + SubjectWindow() <= EXACT)
    && forall i, j :: 0 <= i < j < |requests| ==> requests[i].now <= requests[j].now
  }

  function LocalCalls(keyOf: (string, string) -> Key, requests: seq<Request>): seq<Call>
    requires Comparable(requests)
  {
    seq(|requests|, i requires 0 <= i < |requests| =>
      var r := requests[i];
      Call(Local.HitsOf(Local.Defaults(), keyOf, r.operation, r.subject, r.source).value, r.now))
  }

  function RedisCalls(keyOf: (string, string) -> Key, requests: seq<Request>): seq<Call>
    requires Comparable(requests)
  {
    seq(|requests|, i requires 0 <= i < |requests| =>
      var r := requests[i];
      Call(HitsOf(keyOf, r.operation, r.subject, r.source).value, r.now))
  }

  lemma HitsFit(keyOf: (string, string) -> Key, r: Request)
    requires r.Sourced()
    ensures HitsOf(keyOf, r.operation, r.subject, r.source).Some?
    ensures var hits := HitsOf(keyOf, r.operation, r.subject, r.source).value;
            && ValidHits(hits) && Enforceable(hits) && Timed(hits)
            && forall i :: 0 <= i < |hits| ==> hits[i].bucket.window == SubjectWindow()
  {
  }

  lemma SameCalls(keyOf: (string, string) -> Key, requests: seq<Request>)
    requires Comparable(requests)
    ensures LocalCalls(keyOf, requests) == RedisCalls(keyOf, requests)
    ensures var calls := RedisCalls(keyOf, requests);
            && Local.InOrder(calls) && Exact(calls) && Local.AllFit(calls, I64_MAX)
            && forall i :: 0 <= i < |calls| ==> Enforceable(calls[i].hits)
  {
    forall i | 0 <= i < |requests|
      ensures LocalCalls(keyOf, requests)[i] == RedisCalls(keyOf, requests)[i]
      ensures Enforceable(RedisCalls(keyOf, requests)[i].hits)
      ensures Fits(RedisCalls(keyOf, requests)[i], EXACT) && Timed(RedisCalls(keyOf, requests)[i].hits)
    {
      var r := requests[i];
      SameHits(keyOf, r.operation, r.subject, r.source);
      HitsFit(keyOf, r);
    }
  }

  /**
   * The two limiters and the ideal one give one answer to every request, with the same
   * time to wait, until the first request they all turn away because the store is full.
   */
  lemma AllAgree(keyOf: (string, string) -> Key, requests: seq<Request>, maxKeys: nat)
    requires requests != [] && Comparable(requests)
    requires var calls := RedisCalls(keyOf, requests);
             Local.Roomy(calls[..|calls| - 1], maxKeys)
    ensures var calls := RedisCalls(keyOf, requests);
            var ideal := IdealAnswer(History(calls[..|calls| - 1]), calls[|calls| - 1], maxKeys);
            && LastResult(calls, maxKeys).answer == ideal
            && Local.LastResult(LocalCalls(keyOf, requests), maxKeys).answer == ideal
  {
    SameCalls(keyOf, requests);
    var calls := RedisCalls(keyOf, requests);
    hide LocalCalls, RedisCalls;
    InOrderTimely(calls, maxKeys, calls[|calls| - 1].now);
    RedisIsIdeal(calls, maxKeys);
    var last := calls[|calls| - 1];
    Local.InOrderTimely(calls, maxKeys, last.now);
    Local.EnforceableCountable(History(calls[..|calls| - 1]), last.hits, last.now);
    Local.LocalIsIdeal(calls, maxKeys);
  }
}
