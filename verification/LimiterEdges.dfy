/** Exactly when the process-local limiter is the ideal one, and where the two part. */
module LimiterEdges {
  import opened Results
  import opened Limits
  import opened LocalLimiter

  // ---- Exactly when the limiter is the ideal one ------------------------------------------------------

  /** The answer to one more call. */
  function Answered(calls: seq<Call>, maxKeys: nat, call: Call): Answer {
    LastResult(calls + [call], maxKeys).answer
  }

  /** Whatever is asked at this time, the answer is the ideal one. */
  ghost predicate IdealAt(calls: seq<Call>, maxKeys: nat, now: int) {
    forall hits :: Fits(Call(hits, now), I64_MAX) && AllCountable(History(calls), hits, now) ==>
      Answered(calls, maxKeys, Call(hits, now)) == IdealAnswer(History(calls), Call(hits, now), maxKeys)
  }

  lemma AnsweredFrom(calls: seq<Call>, maxKeys: nat, call: Call)
    ensures Answered(calls, maxKeys, call)
            == AdmitHits(WindowsAfter(calls, maxKeys), maxKeys, call.hits, call.now).answer
  {
    assert (calls + [call])[..|calls|] == calls;
  }

  /**
   * After timely calls that found room, the limiter answers every call at a time as the
   * ideal one exactly when that time is not before the end of a dropped window.
   */
  lemma IdealExactly(calls: seq<Call>, maxKeys: nat, now: int)
    requires Timely(calls, maxKeys) && AllFit(calls, I64_MAX) && Roomy(calls, maxKeys) && 0 <= now < I64_MAX
    ensures IdealAt(calls, maxKeys, now) <==> Quiet(DroppedAfter(calls, maxKeys), now)
  {
    RunRemembers(calls, maxKeys);
    AllCounted(calls, maxKeys);
    hide Timely, Roomy, Remembers, EndsFit;
    if Quiet(DroppedAfter(calls, maxKeys), now) {
      RemembersTracks(WindowsAfter(calls, maxKeys), DroppedAfter(calls, maxKeys), History(calls), now, maxKeys);
      forall hits | Fits(Call(hits, now), I64_MAX) && AllCountable(History(calls), hits, now)
        ensures Answered(calls, maxKeys, Call(hits, now)) == IdealAnswer(History(calls), Call(hits, now), maxKeys)
      {
        AnsweredFrom(calls, maxKeys, Call(hits, now));
        AdmitTracks(WindowsAfter(calls, maxKeys), History(calls), Call(hits, now), maxKeys);
        AdmitAnswers(WindowsAfter(calls, maxKeys), History(calls), Call(hits, now), maxKeys);
        hide Tracks;
      }
    } else {
      var k :| k in DroppedAfter(calls, maxKeys) && DroppedAfter(calls, maxKeys)[k] > now;
      var hits := Telling(WindowsAfter(calls, maxKeys), DroppedAfter(calls, maxKeys), History(calls), now, maxKeys, k);
      AnsweredFrom(calls, maxKeys, Call(hits, now));
    }
  }

  /** A call that shows a forgotten window: on its key, or, in a full store, one with no limits at all. */
  lemma Telling(windows: Windows, dropped: map<Key, int>, history: seq<Stamped>, now: int, maxKeys: nat, k: Key)
    returns (hits: seq<Hit>)
    requires Remembers(windows, dropped, history, maxKeys) && k in dropped && dropped[k] > now && 0 <= now < I64_MAX
    ensures Fits(Call(hits, now), I64_MAX) && AllCountable(history, hits, now)
    ensures AdmitHits(windows, maxKeys, hits, now).answer != IdealAnswer(history, Call(hits, now), maxKeys)
  {
    assert Recalled(windows, dropped, history, k);
    if |Retained(windows, now)| >= maxKeys {
      hits := [];
      ForgottenCrowds(windows, dropped, history, now, maxKeys, k);
    } else {
      hits := [Hit(k, Bucket(1, 1))];
      EnforceableCountable(history, hits, now);
      ForgottenAdmitted(windows, history, now, maxKeys, k);
    }
  }

  lemma ForgottenCrowds(windows: Windows, dropped: map<Key, int>, history: seq<Stamped>, now: int, maxKeys: nat, k: Key)
    requires Remembers(windows, dropped, history, maxKeys) && k in dropped && dropped[k] > now
    requires |Retained(windows, now)| >= maxKeys
    ensures Overflows(history, Call([], now), maxKeys)
  {
    hide LastWindow, LiveKeys;
    var kept := Retained(windows, now).Keys;
    assert Recalled(windows, dropped, history, k);
    forall j | j in kept + {k} ensures j in LiveKeys(history, now) {
      assert Recalled(windows, dropped, history, j);
      LiveIsSeen(history, j, now);
    }
    assert |kept + {k}| == |kept| + 1;
    SubsetSize(kept + {k}, LiveKeys(history, now));
  }

  lemma ForgottenAdmitted(windows: Windows, history: seq<Stamped>, now: int, maxKeys: nat, k: Key)
    requires k !in windows && |Retained(windows, now)| < maxKeys && 0 <= now < I64_MAX
    requires LastWindow(history, k).Some? && LastWindow(history, k).value.end > now
    ensures var hit := Hit(k, Bucket(1, 1));
            && AdmitHits(windows, maxKeys, [hit], now).answer == Permitted
            && IdealAnswer(history, Call([hit], now), maxKeys) != Permitted
  {
    var hit := Hit(k, Bucket(1, 1));
    OneHit(windows, maxKeys, hit, now);
    CountOne(history, Stamped(hit, now));
    CountedOnce(history, k);
    hide LastWindow, AdmitHits, Overflows;
    assert [hit][1..] == [];
  }

  lemma {:induction false} CountedOnce(history: seq<Stamped>, key: Key)
    requires LastWindow(history, key).Some?
    ensures LastWindow(history, key).value.count >= 1
  {
    var n := |history| - 1;
    if LastWindow(history[..n], key).Some? { CountedOnce(history[..n], key); }
  }

  // ---- Buckets that cannot refuse -------------------------------------------------------------------------

  /**
   * Two kinds of bucket are accepted and limit nothing: those of `U32_MAX` attempts, where
   * counters saturate, and those whose duration is below a millisecond, whose windows end
   * as they begin.
   */
  predicate Limiting(b: Bucket) {
    0 < b.window && b.attempts < 4294967295
  }

  lemma SaturatedLimitNeverRefuses(windows: Windows, maxKeys: nat, hit: Hit, now: int)
    requires hit.bucket.attempts >= U32_MAX
    ensures CountHit(windows, maxKeys, hit, now).reply in {Ok(None), Err("identity.auth_dependency_failed")}
  {
  }

  /** A one-bucket call that finds room gets the ideal answer exactly when its hit can be counted. */
  lemma SaturationExactly(windows: Windows, history: seq<Stamped>, hit: Hit, now: int, maxKeys: nat)
    requires Tracks(windows, history, now, maxKeys) && Fits(Call([hit], now), I64_MAX) && EndsFit(history)
    requires !Overflows(history, Call([hit], now), maxKeys)
    ensures AdmitHits(windows, maxKeys, [hit], now).answer == IdealAnswer(history, Call([hit], now), maxKeys)
       <==> Countable(history, hit, now)
  {
    AdmitTracks(windows, history, Call([hit], now), maxKeys);
    OneHit(windows, maxKeys, hit, now);
    assert ValidHit([hit][0]) && now + [hit][0].bucket.window <= I64_MAX;
    CountWaits(windows, history, hit, now, maxKeys);
    IdealOneHit(history, hit, now);
    hide Tracks, EndsFit, CountHit, AdmitHits, Countable, LastWindow, Overflows, IdealRetry;
  }

  lemma IdealOneHit(history: seq<Stamped>, hit: Hit, now: int)
    ensures LastWindow(history + [Stamped(hit, now)], hit.key)
         == Some(Counted(LastWindow(history, hit.key), hit.bucket, now))
    ensures IdealRetry(history, [hit], now)
         == Wait(Counted(LastWindow(history, hit.key), hit.bucket, now), hit.bucket.attempts, now)
  {
    CountOne(history, Stamped(hit, now));
    hide LastWindow;
    var after := history + [Stamped(hit, now)];
    assert [hit][1..] == [];
    assert IdealRetry(after, [], now) == None;
  }

  /** The same hit at one moment, `n` times. */
  function Burst(hit: Hit, now: int, n: nat): seq<Call> {
    if n == 0 then [] else Burst(hit, now, n - 1) + [Call([hit], now)]
  }

  /** How many of `n` hits at one moment are counted together: a window of no milliseconds starts again at each. */
  function Together(hit: Hit, n: nat): nat {
    if hit.bucket.window == 0 && n > 0 then 1 else n
  }

  /** What `n` hits at one moment leave in the store, and what the ideal limiter makes of them. */
  function BurstWindow(hit: Hit, now: int, n: nat): Option<Window> {
    if n == 0 then None else Some(Window(now + hit.bucket.window, Together(hit, n)))
  }

  function BurstStore(hit: Hit, now: int, n: nat): Windows {
    if n == 0 then map[] else map[hit.key := Window(now + hit.bucket.window, Least(Together(hit, n), U32_MAX))]
  }

  lemma BurstCounts(hit: Hit, now: int, n: nat, maxKeys: nat)
    requires ValidHit(hit) && 0 <= now && now + hit.bucket.window <= I64_MAX && maxKeys > 0
    ensures var r := CountHit(BurstStore(hit, now, n), maxKeys, hit, now);
            && r.windows == BurstStore(hit, now, n + 1)
            && r.reply == Ok(if n + 1 > hit.bucket.attempts && Limiting(hit.bucket) then Some(hit.bucket.window)
                             else None)
  {
  }

  predicate Stands(calls: seq<Call>, hit: Hit, now: int, n: nat, maxKeys: nat) {
    && WindowsAfter(calls, maxKeys) == BurstStore(hit, now, n)
    && LastWindow(History(calls), hit.key) == BurstWindow(hit, now, n)
    && LiveKeys(History(calls), now) <= {hit.key}
  }

  lemma OneMoreStands(calls: seq<Call>, hit: Hit, now: int, n: nat, maxKeys: nat)
    requires ValidHit(hit) && 0 <= now && now + hit.bucket.window <= I64_MAX && maxKeys > 0
    requires Stands(calls, hit, now, n, maxKeys)
    ensures Stands(calls + [Call([hit], now)], hit, now, n + 1, maxKeys)
  {
    hide History, WindowsAfter, LastResult, LastWindow, LiveKeys, CountHit, BurstStore;
    BurstCounts(hit, now, n, maxKeys);
    OneMoreCall(calls, hit, now, maxKeys);
    CountOne(History(calls), Stamped(hit, now));
    CountOneLive(History(calls), Stamped(hit, now));
  }

  lemma {:induction false} BurstStands(hit: Hit, now: int, n: nat, maxKeys: nat)
    requires ValidHit(hit) && 0 <= now && now + hit.bucket.window <= I64_MAX && maxKeys > 0
    ensures Stands(Burst(hit, now, n), hit, now, n, maxKeys)
  {
    if n == 0 {
      assert Stands([], hit, now, 0, maxKeys);
    } else {
      hide Stands;
      BurstStands(hit, now, n - 1, maxKeys);
      OneMoreStands(Burst(hit, now, n - 1), hit, now, n - 1, maxKeys);
    }
  }

  lemma StandsIdeal(calls: seq<Call>, hit: Hit, now: int, n: nat, maxKeys: nat)
    requires Stands(calls, hit, now, n, maxKeys) && ValidHit(hit) && maxKeys > 0
    ensures IdealAnswer(History(calls), Call([hit], now), maxKeys)
         == if n < hit.bucket.attempts || hit.bucket.window == 0 then Permitted else Refused(hit.bucket.window)
  {
    IdealOneHit(History(calls), hit, now);
    OverflowsOneHit(History(calls), hit, now, maxKeys);
    hide History, WindowsAfter, LastWindow, LiveKeys, IdealRetry, BurstStore, Overflows;
    assert LiveKeys(History(calls), now) + {hit.key} == {hit.key};
  }

  lemma StandsAnswered(calls: seq<Call>, hit: Hit, now: int, n: nat, maxKeys: nat)
    requires Stands(calls, hit, now, n, maxKeys)
    requires ValidHit(hit) && 0 <= now && now + hit.bucket.window <= I64_MAX && maxKeys > 0
    ensures Answered(calls, maxKeys, Call([hit], now))
         == if n < hit.bucket.attempts || !Limiting(hit.bucket) then Permitted else Refused(hit.bucket.window)
  {
    hide History, WindowsAfter, LastResult, LastWindow, LiveKeys, CountHit, BurstStore, Limiting;
    BurstCounts(hit, now, n, maxKeys);
    OneMoreCall(calls, hit, now, maxKeys);
  }

  /**
   * The length at which the two limiters part: after `n` hits at one moment the next one
   * is refused by the ideal limiter once `n` reaches the limit, and by this one too,
   * unless the limit is `U32_MAX`, which it never refuses. A window of no milliseconds
   * makes both permit everything.
   */
  lemma BurstParts(hit: Hit, now: int, n: nat, maxKeys: nat)
    requires ValidHit(hit) && 0 <= now && now + hit.bucket.window <= I64_MAX && maxKeys > 0
    ensures var calls := Burst(hit, now, n);
            && IdealAnswer(History(calls), Call([hit], now), maxKeys)
               == (if n < hit.bucket.attempts || hit.bucket.window == 0 then Permitted else Refused(hit.bucket.window))
            && Answered(calls, maxKeys, Call([hit], now))
               == (if n < hit.bucket.attempts || !Limiting(hit.bucket) then Permitted else Refused(hit.bucket.window))
  {
    hide Stands, Burst, IdealAnswer, Answered, Limiting;
    BurstStands(hit, now, n, maxKeys);
    StandsIdeal(Burst(hit, now, n), hit, now, n, maxKeys);
    StandsAnswered(Burst(hit, now, n), hit, now, n, maxKeys);
  }

  lemma {:induction false} BurstRepeats(hit: Hit, now: int, n: nat)
    ensures |Burst(hit, now, n)| == n
    ensures forall i :: 0 <= i < n ==> Burst(hit, now, n)[i] == Call([hit], now)
  {
    if n > 0 { BurstRepeats(hit, now, n - 1); }
  }

  lemma BurstOrderly(hit: Hit, now: int, n: nat)
    requires ValidHit(hit) && 0 <= now && now + hit.bucket.window <= I64_MAX
    ensures OrderlyOn(Burst(hit, now, n), hit.key, hit.bucket)
  {
    BurstRepeats(hit, now, n);
  }

  /** The wait the running limiter tells is exact: it refuses until then, and not from then on. */
  lemma RetryAfterHolds(windows: Windows, maxKeys: nat, hit: Hit, now: int, later: int)
    requires ValidHit(hit) && 0 <= now <= later && (hit.key in windows ==> windows[hit.key].end <= I64_MAX)
    requires CanRefuse(CountHit(windows, maxKeys, hit, now).reply)
    ensures var first := CountHit(windows, maxKeys, hit, now);
            var r := first.reply.value.value;
            && 0 < r
            && CountHit(first.windows, maxKeys, hit, later).reply
               == Ok(if later < now + r then Some(now + r - later) else None)
  {
  }

  predicate CanRefuse(reply: Result<Option<int>>) {
    reply.Ok? && reply.value.Some?
  }

  // ---- Exactly which buckets refuse ----------------------------------------------------------------------

  /** Some run in time order, with this bucket on the key, ends with a call on the key being refused. */
  ghost predicate Refuses(calls: seq<Call>, maxKeys: nat, key: Key, bucket: Bucket) {
    && OrderlyOn(calls, key, bucket)
    && calls != [] && calls[|calls| - 1].hits == [Hit(key, bucket)] && LastResult(calls, maxKeys).answer.Refused?
  }

  /** While the clock does not step back, a bucket can refuse exactly if it is limiting. */
  lemma RefusesExactly(bucket: Bucket, maxKeys: nat, key: Key)
    requires ValidHit(Hit(key, bucket)) && maxKeys > 0
    ensures (exists calls :: Refuses(calls, maxKeys, key, bucket)) <==> Limiting(bucket)
  {
    var hit := Hit(key, bucket);
    if Limiting(bucket) {
      var n := bucket.attempts;
      BurstParts(hit, 0, n, maxKeys);
      BurstOrderly(hit, 0, n + 1);
      BurstRepeats(hit, 0, n + 1);
      hide OrderlyOn, LastResult;
      assert Burst(hit, 0, n + 1) == Burst(hit, 0, n) + [Call([hit], 0)];
      assert Refuses(Burst(hit, 0, n + 1), maxKeys, key, bucket);
    } else {
      forall calls: seq<Call> ensures !Refuses(calls, maxKeys, key, bucket) {
        if OrderlyOn(calls, key, bucket) && calls != [] && calls[|calls| - 1].hits == [hit] {
          NeverRefused(calls, maxKeys, key, bucket);
        }
      }
    }
  }

  lemma NeverRefused(calls: seq<Call>, maxKeys: nat, key: Key, bucket: Bucket)
    requires ValidHit(Hit(key, bucket)) && !Limiting(bucket) && OrderlyOn(calls, key, bucket)
    requires calls != [] && calls[|calls| - 1].hits == [Hit(key, bucket)]
    ensures !LastResult(calls, maxKeys).answer.Refused?
  {
    var n := |calls| - 1;
    var windows, hit := WindowsAfter(calls[..n], maxKeys), Hit(key, bucket);
    OneHit(windows, maxKeys, hit, calls[n].now);
    if bucket.attempts >= U32_MAX {
      SaturatedLimitNeverRefuses(windows, maxKeys, hit, calls[n].now);
    } else {
      EndedByNow(calls[..n], maxKeys, key, bucket, calls[n].now);
    }
    hide OrderlyOn, AdmitHits;
  }

  predicate Ended(windows: Windows, key: Key, now: int) {
    key in windows ==> windows[key].end <= now
  }

  lemma {:induction false} HitsEnded(windows: Windows, maxKeys: nat, hits: seq<Hit>, key: Key, now: int)
    requires Ended(windows, key, now)
    requires forall i :: 0 <= i < |hits| && hits[i].key == key ==> hits[i].bucket.window == 0
    ensures Ended(AdmitHits(windows, maxKeys, hits, now).windows, key, now)
    decreases |hits|
  {
    if hits != [] {
      var first := CountHit(windows, maxKeys, hits[0], now);
      if first.reply.Ok? { HitsEnded(first.windows, maxKeys, hits[1..], key, now); }
    }
  }

  /** While the clock does not step back, windows of no milliseconds have always ended. */
  lemma {:induction false} EndedByNow(calls: seq<Call>, maxKeys: nat, key: Key, bucket: Bucket, now: int)
    requires OrderlyOn(calls, key, bucket) && bucket.window == 0 && (calls != [] ==> calls[|calls| - 1].now <= now)
    ensures Ended(WindowsAfter(calls, maxKeys), key, now)
  {
    if calls != [] {
      hide AdmitHits, Fits;
      var n := |calls| - 1;
      EndedByNow(calls[..n], maxKeys, key, bucket, calls[n].now);
      HitsEnded(WindowsAfter(calls[..n], maxKeys), maxKeys, calls[n].hits, key, calls[n].now);
    }
  }

  // ---- Exactly when the bounds hold -----------------------------------------------------------------------

  lemma OneMorePermitted(calls: seq<Call>, hit: Hit, now: int, maxKeys: nat, until: int)
    requires now < until && Answered(calls, maxKeys, Call([hit], now)).Permitted?
    ensures var more := calls + [Call([hit], now)];
            && PermittedCalls(more, maxKeys, hit.key, now, until)
               == PermittedCalls(calls, maxKeys, hit.key, now, until) + 1
            && (Ends(WindowsAfter(more, maxKeys), hit.key, now + hit.bucket.window) ==>
                  PermittedInWindow(more, maxKeys, hit.key, now + hit.bucket.window)
                  == PermittedInWindow(calls, maxKeys, hit.key, now + hit.bucket.window) + 1)
  {
    hide LastResult, WindowsAfter;
    var more := calls + [Call([hit], now)];
    assert more[..|more| - 1] == calls && more[|more| - 1] == Call([hit], now);
    assert hit in [hit] && hit.key in Keys([hit]);
  }

  predicate Ends(windows: Windows, key: Key, end: int) {
    key in windows && windows[key].end == end
  }

  /** Of a bucket that is not limiting, any number of calls at one moment is permitted. */
  lemma {:induction false} BurstPermitted(hit: Hit, now: int, n: nat, maxKeys: nat, until: int)
    requires ValidHit(hit) && 0 <= now && now + hit.bucket.window <= I64_MAX && maxKeys > 0 && now < until
    requires !Limiting(hit.bucket)
    ensures PermittedCalls(Burst(hit, now, n), maxKeys, hit.key, now, until) == n
    ensures PermittedInWindow(Burst(hit, now, n), maxKeys, hit.key, now + hit.bucket.window) == n
  {
    hide PermittedCalls, PermittedInWindow, IdealAnswer, History, Answered, WindowsAfter, Stands, Ends, Limiting;
    if n == 0 {
      NonePermitted(maxKeys, hit.key, now, until, now + hit.bucket.window);
    } else {
      var before := Burst(hit, now, n - 1);
      BurstPermitted(hit, now, n - 1, maxKeys, until);
      BurstParts(hit, now, n - 1, maxKeys);
      BurstStands(hit, now, n, maxKeys);
      StandsEnds(Burst(hit, now, n), hit, now, n, maxKeys);
      OneMorePermitted(before, hit, now, maxKeys, until);
    }
  }

  lemma NonePermitted(maxKeys: nat, key: Key, from: int, until: int, end: int)
    ensures PermittedCalls([], maxKeys, key, from, until) == 0 && PermittedInWindow([], maxKeys, key, end) == 0
  {
  }

  lemma StandsEnds(calls: seq<Call>, hit: Hit, now: int, n: nat, maxKeys: nat)
    requires Stands(calls, hit, now, n, maxKeys) && n > 0
    ensures Ends(WindowsAfter(calls, maxKeys), hit.key, now + hit.bucket.window)
  {
    hide WindowsAfter, History, LastWindow, LiveKeys;
  }

  function Most(a: int, b: int): int {
    if a <= b then b else a
  }

  predicate Twice(calls: seq<Call>, maxKeys: nat, key: Key, bucket: Bucket, from: int) {
    PermittedCalls(calls, maxKeys, key, from, from + Most(1, bucket.window)) <= 2 * bucket.attempts
  }

  /** In any interval of one window, or of a millisecond, all runs keep twice the limit exactly for limiting buckets. */
  lemma TwiceExactly(bucket: Bucket, maxKeys: nat, key: Key)
    requires ValidHit(Hit(key, bucket)) && maxKeys > 0
    ensures (forall calls, from :: OrderlyOn(calls, key, bucket) ==> Twice(calls, maxKeys, key, bucket, from))
       <==> Limiting(bucket)
  {
    hide PermittedCalls, Burst, OrderlyOn;
    if Limiting(bucket) {
      forall calls, from | OrderlyOn(calls, key, bucket) ensures Twice(calls, maxKeys, key, bucket, from) {
        AtMostTwice(calls, maxKeys, key, bucket, from);
      }
    } else {
      var n := 2 * bucket.attempts + 1;
      var calls := Burst(Hit(key, bucket), 0, n);
      BurstPermitted(Hit(key, bucket), 0, n, maxKeys, Most(1, bucket.window));
      BurstOrderly(Hit(key, bucket), 0, n);
      assert !Twice(calls, maxKeys, key, bucket, 0) && OrderlyOn(calls, key, bucket);
    }
  }

  /** A run in which nothing dropped comes up again, with this bucket on the key. */
  predicate TimelyOn(calls: seq<Call>, maxKeys: nat, key: Key, bucket: Bucket) {
    Timely(calls, maxKeys) && AllFit(calls, I64_MAX) && OnBucket(calls, key, bucket)
  }

  predicate Once(calls: seq<Call>, maxKeys: nat, key: Key, bucket: Bucket, end: int) {
    PermittedInWindow(calls, maxKeys, key, end) <= bucket.attempts
  }

  lemma BurstTimely(hit: Hit, now: int, n: nat, maxKeys: nat)
    requires ValidHit(hit) && 0 <= now && now + hit.bucket.window <= I64_MAX
    ensures TimelyOn(Burst(hit, now, n), maxKeys, hit.key, hit.bucket)
  {
    BurstOrderly(hit, now, n);
    BurstRepeats(hit, now, n);
    hide Burst, Timely, Quiet, DroppedAfter;
    InOrderTimely(Burst(hit, now, n), maxKeys, now);
  }

  /** In any one window, the limit is kept by all timely runs exactly if the bucket is limiting. */
  lemma PerWindowExactly(bucket: Bucket, maxKeys: nat, key: Key)
    requires ValidHit(Hit(key, bucket)) && maxKeys > 0
    ensures (forall calls, end :: TimelyOn(calls, maxKeys, key, bucket) ==> Once(calls, maxKeys, key, bucket, end))
       <==> Limiting(bucket)
  {
    hide Timely, PermittedInWindow, Burst, OnBucket, AllFit, Fits;
    if Limiting(bucket) {
      forall calls, end | TimelyOn(calls, maxKeys, key, bucket) ensures Once(calls, maxKeys, key, bucket, end) {
        AtMostPerWindow(calls, maxKeys, key, bucket, end);
      }
    } else {
      var n := bucket.attempts + 1;
      var calls := Burst(Hit(key, bucket), 0, n);
      BurstPermitted(Hit(key, bucket), 0, n, maxKeys, 1);
      BurstTimely(Hit(key, bucket), 0, n, maxKeys);
      assert !Once(calls, maxKeys, key, bucket, bucket.window) && TimelyOn(calls, maxKeys, key, bucket);
    }
  }

  /** Once the clock steps back even a window of no milliseconds runs, and refuses. */
  lemma EmptyWindowRefusesWhenTimeStepsBack(hit: Hit, maxKeys: nat)
    requires ValidHit(hit) && hit.bucket.window == 0 && hit.bucket.attempts < U32_MAX && maxKeys > 0
    ensures Answered([Call([hit], 1)] + Burst(hit, 0, hit.bucket.attempts - 1), maxKeys, Call([hit], 0)) == Refused(1)
  {
    var calls := [Call([hit], 1)] + Burst(hit, 0, hit.bucket.attempts - 1);
    BackCounts(hit, hit.bucket.attempts - 1, maxKeys);
    hide Burst, WindowsAfter, LastResult;
    OneMoreCall(calls, hit, 0, maxKeys);
  }

  lemma {:induction false} BackCounts(hit: Hit, n: nat, maxKeys: nat)
    requires ValidHit(hit) && hit.bucket.window == 0 && n < hit.bucket.attempts < U32_MAX && maxKeys > 0
    ensures WindowsAfter([Call([hit], 1)] + Burst(hit, 0, n), maxKeys) == map[hit.key := Window(1, n + 1)]
  {
    hide WindowsAfter, LastResult, CountHit, History, Burst;
    if n == 0 {
      BackFirst(hit, maxKeys);
      BackNone(hit);
    } else {
      var before := [Call([hit], 1)] + Burst(hit, 0, n - 1);
      BackCounts(hit, n - 1, maxKeys);
      BackMore(hit, n);
      OneMoreCall(before, hit, 0, maxKeys);
      BackNext(hit, n, maxKeys);
    }
  }

  lemma BackNone(hit: Hit)
    ensures [Call([hit], 1)] + Burst(hit, 0, 0) == [Call([hit], 1)]
  {
  }

  lemma BackMore(hit: Hit, n: nat)
    requires n > 0
    ensures [Call([hit], 1)] + Burst(hit, 0, n - 1) + [Call([hit], 0)] == [Call([hit], 1)] + Burst(hit, 0, n)
  {
  }

  lemma BackFirst(hit: Hit, maxKeys: nat)
    requires ValidHit(hit) && hit.bucket.window == 0 && maxKeys > 0
    ensures WindowsAfter([Call([hit], 1)], maxKeys) == map[hit.key := Window(1, 1)]
  {
    OneMoreCall([], hit, 1, maxKeys);
    assert [] + [Call([hit], 1)] == [Call([hit], 1)] && WindowsAfter([], maxKeys) == map[];
  }

  lemma BackNext(hit: Hit, n: nat, maxKeys: nat)
    requires 0 < n < U32_MAX && maxKeys > 0
    ensures CountHit(map[hit.key := Window(1, n)], maxKeys, hit, 0).windows == map[hit.key := Window(1, n + 1)]
  {
  }

  // ---- A clock that steps back ------------------------------------------------------------------------------

  /** A store of two is filled and emptied by ten milliseconds; then the clock reads five. */
  function SteppingBack(): seq<Call> {
    [Call([Hit("a", Bucket(1, 10))], 0), Call([Hit("c", Bucket(1, 5))], 0), Call([Hit("b", Bucket(1, 10))], 10),
     Call([Hit("a", Bucket(1, 10))], 5)]
  }

  /**
   * With a clock that steps back, an evicted window is forgotten while it still runs: the
   * limiter permits what the ideal one, with the same room, makes wait five milliseconds.
   */
  lemma EvictionShowsWhenTimeStepsBack()
    ensures LastResult(SteppingBack(), 2).answer == Permitted
    ensures IdealAnswer(History(SteppingBack()[..3]), SteppingBack()[3], 2) == Refused(5)
  {
    SteppingBackForgets();
    SteppingBackRemembered();
  }

  lemma OneMoreCall(calls: seq<Call>, hit: Hit, now: int, maxKeys: nat)
    ensures var more := calls + [Call([hit], now)];
            var r := CountHit(WindowsAfter(calls, maxKeys), maxKeys, hit, now);
            && WindowsAfter(more, maxKeys) == r.windows
            && LastResult(more, maxKeys).answer == (if r.reply.Err? then Unavailable else Verdict(r.reply.value))
            && History(more) == History(calls) + [Stamped(hit, now)]
  {
    var more := calls + [Call([hit], now)];
    assert more[..|more| - 1] == calls && more[|more| - 1].hits == [hit];
    OneHit(WindowsAfter(calls, maxKeys), maxKeys, hit, now);
    hide CountHit, AdmitHits;
    assert [hit][1..] == [];
  }

  lemma OneHit(windows: Windows, maxKeys: nat, hit: Hit, now: int)
    ensures var counted := CountHit(windows, maxKeys, hit, now);
            var r := AdmitHits(windows, maxKeys, [hit], now);
            && r.windows == counted.windows
            && r.answer == (if counted.reply.Err? then Unavailable else Verdict(counted.reply.value))
  {
    assert [hit][1..] == [];
  }

  lemma SteppingBackParts()
    ensures var calls := SteppingBack();
            && calls[..3] == [calls[0]] + [calls[1]] + [calls[2]]
            && calls == calls[..3] + [calls[3]]
  {
  }

  lemma SteppingBackForgets()
    ensures LastResult(SteppingBack(), 2).answer == Permitted
  {
    var calls := SteppingBack();
    var a, b, c := Hit("a", Bucket(1, 10)), Hit("b", Bucket(1, 10)), Hit("c", Bucket(1, 5));
    SteppingBackParts();
    var one, two := map["a" := Window(10, 1)], map["a" := Window(10, 1), "c" := Window(5, 1)];
    var three := map["b" := Window(20, 1)];
    assert |two.Keys| == |{"a", "c"}| && Retained(two, 10) == map[];
    assert CountHit(map[], 2, a, 0).windows == one;
    assert CountHit(one, 2, c, 0).windows == two;
    assert CountHit(two, 2, b, 10).windows == three;
    assert CountHit(three, 2, a, 5).reply == Ok(None);
    assert WindowsAfter([], 2) == map[];
    hide CountHit, LastResult, WindowsAfter;
    OneMoreCall([], a, 0, 2);
    assert [] + [calls[0]] == [calls[0]];
    OneMoreCall([calls[0]], c, 0, 2);
    OneMoreCall([calls[0]] + [calls[1]], b, 10, 2);
    OneMoreCall(calls[..3], a, 5, 2);
  }

  lemma SteppingBackRemembered()
    ensures IdealAnswer(History(SteppingBack()[..3]), SteppingBack()[3], 2) == Refused(5)
  {
    var calls := SteppingBack();
    var a, b, c := Hit("a", Bucket(1, 10)), Hit("b", Bucket(1, 10)), Hit("c", Bucket(1, 5));
    SteppingBackParts();
    OneMoreCall([], a, 0, 2);
    assert [] + [calls[0]] == [calls[0]];
    OneMoreCall([calls[0]], c, 0, 2);
    OneMoreCall([calls[0]] + [calls[1]], b, 10, 2);
    var history := [] + [Stamped(a, 0)] + [Stamped(c, 0)] + [Stamped(b, 10)];
    assert History(calls[..3]) == history;
    hide History, LastResult, WindowsAfter;
    CountOne([], Stamped(a, 0));
    CountOne([] + [Stamped(a, 0)], Stamped(c, 0));
    CountOne([] + [Stamped(a, 0)] + [Stamped(c, 0)], Stamped(b, 10));
    CountOne(history, Stamped(a, 5));
    IdealOneHit(history, a, 5);
    assert LastWindow(history, "c") == Some(Window(5, 1)) && LastWindow(history, "a") == Some(Window(10, 1));
    hide LastWindow, IdealRetry, Overflows;
    SteppingBackFits(history);
  }

  lemma SteppingBackFits(history: seq<Stamped>)
    requires forall s :: s in history ==> s.hit.key in {"a", "b", "c"}
    requires !Live(history, "c", 5)
    ensures !Overflows(history, Call([Hit("a", Bucket(1, 10))], 5), 2)
  {
    OverflowsOneHit(history, Hit("a", Bucket(1, 10)), 5, 2);
    hide LastWindow, Overflows;
    var keys := LiveKeys(history, 5) + {"a"};
    assert keys <= {"a", "b"};
    SubsetSize(keys, {"a", "b"});
  }
}
