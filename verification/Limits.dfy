/**
 * Fixed-window attempt limits, and the limiter that never forgets a window.
 * The two running limiters are checked against it.
 */
module Limits {
  import opened Results

  /** A keyed digest of operation and subject or source. */
  type Key = string

  const U32_MAX := 0xFFFF_FFFF
  const U64_MAX := 0xFFFF_FFFF_FFFF_FFFF
  const I64_MAX := 0x7FFF_FFFF_FFFF_FFFF

  /** At most `attempts` in a window of `window` milliseconds. A window of none ends as it begins. */
  datatype Bucket = Bucket(attempts: nat, window: nat)

  datatype Window = Window(end: int, count: int)

  datatype Hit = Hit(key: Key, bucket: Bucket)

  datatype Stamped = Stamped(hit: Hit, now: int)

  datatype Call = Call(hits: seq<Hit>, now: int)

  datatype Answer = Permitted | Refused(retryAfter: int) | Unavailable

  predicate ValidHit(hit: Hit) {
    0 < hit.bucket.attempts <= U32_MAX && hit.bucket.window <= U64_MAX / 4
  }

  predicate ValidHits(hits: seq<Hit>) {
    forall i :: 0 <= i < |hits| ==> ValidHit(hits[i])
  }

  /** Every window lasts a millisecond at least. */
  predicate Timed(hits: seq<Hit>) {
    forall i :: 0 <= i < |hits| ==> 0 < hits[i].bucket.window
  }

  /** Times that fit, so that no window end saturates. */
  predicate Fits(call: Call, bound: int) {
    && 0 <= call.now
    && ValidHits(call.hits)
    && forall i :: 0 <= i < |call.hits| ==> call.now + call.hits[i].bucket.window <= bound
  }

  /** Counters saturate at `U32_MAX`, so a limit that high never refuses. */
  predicate Enforceable(hits: seq<Hit>) {
    forall i :: 0 <= i < |hits| ==> hits[i].bucket.attempts < U32_MAX
  }

  function Stamp(hits: seq<Hit>, now: int): (stamps: seq<Stamped>)
    ensures |stamps| == |hits|
  {
    if hits == [] then [] else [Stamped(hits[0], now)] + Stamp(hits[1..], now)
  }

  function Keys(hits: seq<Hit>): set<Key> {
    set h | h in hits :: h.key
  }

  // ---- The limiter that never forgets -----------------------------------------------------

  /** One more attempt: in the running window, or the first of a new one. */
  function Counted(window: Option<Window>, bucket: Bucket, now: int): Window {
    if window.Some? && window.value.end > now then Window(window.value.end, window.value.count + 1)
    else Window(now + bucket.window, 1)
  }

  /** The last window of a key, from everything that was ever counted. */
  function LastWindow(history: seq<Stamped>, key: Key): Option<Window> {
    if history == [] then None
    else
      var n := |history| - 1;
      var earlier := LastWindow(history[..n], key);
      if history[n].hit.key == key then Some(Counted(earlier, history[n].hit.bucket, history[n].now)) else earlier
  }

  predicate Live(history: seq<Stamped>, key: Key, now: int) {
    var w := LastWindow(history, key);
    w.Some? && w.value.end > now
  }

  function LiveKeys(history: seq<Stamped>, now: int): set<Key> {
    set s | s in history && Live(history, s.hit.key, now) :: s.hit.key
  }

  /** How long an attempt over its limit has to wait. */
  function Wait(window: Window, attempts: int, now: int): Option<int> {
    if window.count > attempts then Some(window.end - now) else None
  }

  function Longer(a: Option<int>, b: Option<int>): Option<int> {
    if a.None? then b else if b.None? || b.value <= a.value then a else b
  }

  function Verdict(retry: Option<int>): Answer {
    match retry
    case None => Permitted
    case Some(after) => Refused(after)
  }

  /** Every hit is counted, and the longest wait of those over their limit is reported. */
  function IdealRetry(history: seq<Stamped>, hits: seq<Hit>, now: int): Option<int>
    decreases |hits|
  {
    if hits == [] then None
    else
      var after := history + [Stamped(hits[0], now)];
      Longer(Wait(LastWindow(after, hits[0].key).value, hits[0].bucket.attempts, now),
             IdealRetry(after, hits[1..], now))
  }

  /** In turn, the windows running and the one the next hit needs outnumber the store. */
  predicate Overflows(history: seq<Stamped>, call: Call, maxKeys: nat)
    decreases |call.hits|
  {
    || |LiveKeys(history, call.now)| > maxKeys
    || (call.hits != []
        && (|| |LiveKeys(history, call.now) + {call.hits[0].key}| > maxKeys
            || Overflows(history + [Stamped(call.hits[0], call.now)], Call(call.hits[1..], call.now), maxKeys)))
  }

  function IdealAnswer(history: seq<Stamped>, call: Call, maxKeys: nat): Answer {
    if Overflows(history, call, maxKeys) then Unavailable
    else Verdict(IdealRetry(history, call.hits, call.now))
  }

  /** Everything counted by a sequence of calls. */
  function History(calls: seq<Call>): seq<Stamped> {
    if calls == [] then []
    else History(calls[..|calls| - 1]) + Stamp(calls[|calls| - 1].hits, calls[|calls| - 1].now)
  }

  lemma LongerAssociates(a: Option<int>, b: Option<int>, c: Option<int>)
    ensures Longer(Longer(a, b), c) == Longer(a, Longer(b, c))
  {
  }

  lemma {:induction false} LiveIsSeen(history: seq<Stamped>, key: Key, now: int)
    ensures key in LiveKeys(history, now) <==> Live(history, key, now)
  {
    if Live(history, key, now) { WindowIsSeen(history, key); }
  }

  lemma {:induction false} WindowIsSeen(history: seq<Stamped>, key: Key)
    requires LastWindow(history, key).Some?
    ensures exists s :: s in history && s.hit.key == key
  {
    var n := |history| - 1;
    if history[n].hit.key != key {
      WindowIsSeen(history[..n], key);
    } else {
      assert history[n] in history;
    }
  }

  /** Counting one hit: its key's window moves on, no other window changes. */
  lemma CountOne(history: seq<Stamped>, s: Stamped)
    ensures forall k :: LastWindow(history + [s], k)
                     == if k == s.hit.key then Some(Counted(LastWindow(history, k), s.hit.bucket, s.now))
                        else LastWindow(history, k)
  {
    assert (history + [s])[..|history|] == history;
  }

  lemma CountOneLive(history: seq<Stamped>, s: Stamped)
    ensures LiveKeys(history + [s], s.now) <= LiveKeys(history, s.now) + {s.hit.key}
    ensures 0 < s.hit.bucket.window ==> LiveKeys(history + [s], s.now) == LiveKeys(history, s.now) + {s.hit.key}
  {
    CountOne(history, s);
    forall k
      ensures k in LiveKeys(history + [s], s.now) ==> k in LiveKeys(history, s.now) + {s.hit.key}
      ensures 0 < s.hit.bucket.window && k in LiveKeys(history, s.now) + {s.hit.key} ==>
                k in LiveKeys(history + [s], s.now)
    {
      LiveIsSeen(history, k, s.now);
      LiveIsSeen(history + [s], k, s.now);
    }
  }

  lemma KeysOfRest(hits: seq<Hit>)
    requires hits != []
    ensures Keys(hits) == {hits[0].key} + Keys(hits[1..])
  {
    assert forall h :: h in hits <==> h == hits[0] || h in hits[1..];
  }

  /** While windows last, what a call needs in turn is what it needs at once. */
  lemma {:induction false} OverflowsAtOnce(history: seq<Stamped>, call: Call, maxKeys: nat)
    requires Timed(call.hits)
    ensures Overflows(history, call, maxKeys) <==> |LiveKeys(history, call.now) + Keys(call.hits)| > maxKeys
    decreases |call.hits|
  {
    hide LiveKeys;
    var hits, now := call.hits, call.now;
    var needed := LiveKeys(history, now) + Keys(hits);
    SubsetSize(LiveKeys(history, now), needed);
    if hits == [] {
      assert needed == LiveKeys(history, now);
    } else {
      KeysOfRest(hits);
      CountOneLive(history, Stamped(hits[0], now));
      OverflowsAtOnce(history + [Stamped(hits[0], now)], Call(hits[1..], now), maxKeys);
      SubsetSize(LiveKeys(history, now) + {hits[0].key}, needed);
      assert needed == LiveKeys(history, now) + {hits[0].key} + Keys(hits[1..]);
    }
  }

  lemma OverflowsOneHit(history: seq<Stamped>, hit: Hit, now: int, maxKeys: nat)
    ensures Overflows(history, Call([hit], now), maxKeys) <==> |LiveKeys(history, now) + {hit.key}| > maxKeys
  {
    hide LiveKeys;
    CountOneLive(history, Stamped(hit, now));
    SubsetSize(LiveKeys(history, now), LiveKeys(history, now) + {hit.key});
    SubsetSize(LiveKeys(history + [Stamped(hit, now)], now), LiveKeys(history, now) + {hit.key});
    assert [hit][1..] == [];
  }

  lemma SubsetSize<T>(a: set<T>, b: set<T>)
    requires a <= b
    ensures |a| <= |b|
  {
    assert a + (b - a) == b;
  }

  // ---- What the ideal limiter promises ---------------------------------------------------------

  predicate Sorted(history: seq<Stamped>) {
    forall i, j :: 0 <= i < j < |history| ==> history[i].now <= history[j].now
  }

  /** Every hit on a key uses one bucket. */
  predicate OneBucket(history: seq<Stamped>, key: Key, bucket: Bucket) {
    forall i :: 0 <= i < |history| && history[i].hit.key == key ==> history[i].hit.bucket == bucket
  }

  /** The last attempt counted is within its limit. */
  predicate LastWithin(history: seq<Stamped>)
    requires history != []
  {
    var s := history[|history| - 1];
    var w := LastWindow(history, s.hit.key);
    w.Some? && w.value.count <= s.hit.bucket.attempts
  }

  /** Attempts on `key` within their limit at times in [from, until). */
  function WithinBetween(history: seq<Stamped>, key: Key, from: int, until: int): nat {
    if history == [] then 0
    else
      var n := |history| - 1;
      WithinBetween(history[..n], key, from, until)
      + if history[n].hit.key == key && from <= history[n].now < until && LastWithin(history) then 1 else 0
  }

  /** Attempts on `key` within their limit in the window that ends at `end`. */
  function WithinWindow(history: seq<Stamped>, key: Key, end: int): nat {
    if history == [] then 0
    else
      var n := |history| - 1;
      WithinWindow(history[..n], key, end)
      + if history[n].hit.key == key && LastWindow(history, key).value.end == end && LastWithin(history) then 1 else 0
  }

  function Least(a: int, b: int): int {
    if a <= b then a else b
  }

  lemma {:induction false} WindowShape(history: seq<Stamped>, key: Key, bucket: Bucket)
    requires Sorted(history) && OneBucket(history, key, bucket) && 0 < bucket.window
    requires LastWindow(history, key).Some?
    ensures var w := LastWindow(history, key).value;
            && w.count >= 1
            && w.end - bucket.window <= history[|history| - 1].now
  {
    var n := |history| - 1;
    if LastWindow(history[..n], key).Some? { WindowShape(history[..n], key, bucket); }
  }

  /**
   * No key is permitted more than `attempts` times in one window, even if the clock
   * steps back: the window in progress counts every attempt made in it.
   */
  lemma {:induction false} PerWindow(history: seq<Stamped>, key: Key, bucket: Bucket, end: int)
    requires OneBucket(history, key, bucket) && 0 < bucket.window
    ensures WithinWindow(history, key, end) <= bucket.attempts
    ensures var w := LastWindow(history, key);
            if w.None? || end > w.value.end then WithinWindow(history, key, end) == 0
            else end == w.value.end ==> WithinWindow(history, key, end) <= w.value.count
  {
    if history != [] {
      var n := |history| - 1;
      PerWindow(history[..n], key, bucket, end);
    }
  }

  /**
   * How many attempts between `from` and one window later are within their limit, by
   * where the window in progress began.
   */
  ghost predicate IntervalBound(history: seq<Stamped>, key: Key, bucket: Bucket, from: int) {
    var permitted := WithinBetween(history, key, from, from + bucket.window);
    match LastWindow(history, key)
    case None => permitted == 0
    case Some(w) =>
      && permitted <= 2 * bucket.attempts
      && (w.end - bucket.window < from ==> permitted <= Least(w.count, bucket.attempts))
      && (from <= w.end - bucket.window < from + bucket.window
          ==> permitted <= bucket.attempts + Least(w.count, bucket.attempts))
  }

  lemma {:induction false} IntervalBounds(history: seq<Stamped>, key: Key, bucket: Bucket, from: int)
    requires Sorted(history) && OneBucket(history, key, bucket) && 0 < bucket.window
    ensures IntervalBound(history, key, bucket, from)
  {
    if history != [] {
      var n := |history| - 1;
      IntervalBounds(history[..n], key, bucket, from);
      if LastWindow(history[..n], key).Some? { WindowShape(history[..n], key, bucket); }
      NoneYet(history[..n], key, from, from + bucket.window, history[n].now);
    }
  }

  /** At most twice `attempts` in any interval one window long. */
  lemma PerInterval(history: seq<Stamped>, key: Key, bucket: Bucket, from: int)
    requires Sorted(history) && OneBucket(history, key, bucket) && 0 < bucket.window
    ensures WithinBetween(history, key, from, from + bucket.window) <= 2 * bucket.attempts
  {
    IntervalBounds(history, key, bucket, from);
  }

  lemma {:induction false} NoneYet(history: seq<Stamped>, key: Key, from: int, until: int, now: int)
    requires forall i :: 0 <= i < |history| ==> history[i].now <= now
    ensures now < from ==> WithinBetween(history, key, from, until) == 0
  {
    if history != [] { NoneYet(history[..|history| - 1], key, from, until, now); }
  }

  /** A call the ideal limiter permits is within every bucket it hits. */
  lemma {:induction false} PermittedWithin(history: seq<Stamped>, hits: seq<Hit>, now: int, i: int)
    requires IdealRetry(history, hits, now).None? && 0 <= i < |hits|
    ensures LastWithin(history + Stamp(hits, now)[..i + 1])
    decreases |hits|
  {
    var after := history + [Stamped(hits[0], now)];
    CountOne(history, Stamped(hits[0], now));
    if i == 0 {
      assert Stamp(hits, now)[..1] == [Stamped(hits[0], now)];
    } else {
      PermittedWithin(after, hits[1..], now, i - 1);
      assert history + Stamp(hits, now)[..i + 1] == after + Stamp(hits[1..], now)[..i];
    }
  }

  // ---- Exactly when an attempt waits, and how long -----------------------------------------------------

  /** Attempts on `key` counted in the window that ends at `end`. */
  function HitsIn(history: seq<Stamped>, key: Key, end: int): nat {
    if history == [] then 0
    else
      var n := |history| - 1;
      HitsIn(history[..n], key, end)
      + if history[n].hit.key == key && LastWindow(history, key).value.end == end then 1 else 0
  }

  predicate LastingOn(history: seq<Stamped>, key: Key) {
    forall i :: 0 <= i < |history| && history[i].hit.key == key ==> 0 < history[i].hit.bucket.window
  }

  /** While windows last, a window's count is the number of attempts made in it, no more and no fewer. */
  lemma {:induction false} CountsHits(history: seq<Stamped>, key: Key, end: int)
    requires LastingOn(history, key)
    ensures var w := LastWindow(history, key);
            && (w.None? || w.value.end < end ==> HitsIn(history, key, end) == 0)
            && (w.Some? && w.value.end == end ==> HitsIn(history, key, end) == w.value.count)
  {
    if history != [] { CountsHits(history[..|history| - 1], key, end); }
  }

  /** An attempt is refused exactly when its key's window runs and has had its attempts. */
  lemma RefusedExactly(history: seq<Stamped>, hit: Hit, now: int)
    requires ValidHit(hit)
    ensures var w := LastWindow(history, hit.key);
            && (IdealRetry(history, [hit], now).Some? <==>
                  w.Some? && now < w.value.end && hit.bucket.attempts <= w.value.count)
            && (IdealRetry(history, [hit], now).Some? ==>
                  IdealRetry(history, [hit], now).value == w.value.end - now)
  {
    CountOne(history, Stamped(hit, now));
    hide LastWindow;
    var after := history + [Stamped(hit, now)];
    assert [hit][1..] == [];
    assert IdealRetry(after, [], now) == None;
  }

  /** The wait it is told is exact: it is refused until then, and not from then on. */
  lemma RetryAfterExactly(history: seq<Stamped>, hit: Hit, now: int, later: int)
    requires ValidHit(hit) && IdealRetry(history, [hit], now).Some? && now <= later
    ensures var r := IdealRetry(history, [hit], now).value;
            IdealRetry(history + [Stamped(hit, now)], [hit], later)
            == if later < now + r then Some(now + r - later) else None
  {
    RefusedExactly(history, hit, now);
    RefusedExactly(history + [Stamped(hit, now)], hit, later);
    CountOne(history, Stamped(hit, now));
    hide LastWindow, IdealRetry;
  }
}
