/** The process-local limiter, which forgets expired windows when its store is full. */
module LocalLimiter {
  import opened Results
  import opened Limits

  type Windows = map<Key, Window>

  const NANOS_PER_MS := 1000000

  /** A configured limit, whose window is a duration in nanoseconds. */
  datatype Policy = Policy(attempts: nat, nanos: nat)

  /** The limit as it is counted: of the window only whole milliseconds are left. */
  function InMillis(p: Policy): Bucket {
    Bucket(p.attempts, p.nanos / NANOS_PER_MS)
  }

  datatype OperationLimits = OperationLimits(subject: Option<Policy>, source: Option<Policy>)

  datatype Config = Config(operations: map<string, OperationLimits>, maxKeys: nat)

  function Minutes(n: nat): nat {
    n * 60 * 1000 * NANOS_PER_MS
  }

  function Defaults(): Config {
    var m := Minutes(15);
    Config(map[
      "register" := OperationLimits(Some(Policy(5, m)), Some(Policy(30, m))),
      "login" := OperationLimits(Some(Policy(10, m)), Some(Policy(100, m))),
      "verification_request" := OperationLimits(Some(Policy(3, m)), Some(Policy(30, m))),
      "reset_request" := OperationLimits(Some(Policy(3, m)), Some(Policy(30, m))),
      "verify" := OperationLimits(Some(Policy(10, m)), None),
      "reset" := OperationLimits(Some(Policy(10, m)), None),
      "password_change" := OperationLimits(Some(Policy(5, m)), None)
    ], 100000)
  }

  predicate ValidPolicy(p: Option<Policy>) {
    p.Some? ==> 0 < p.value.attempts <= U32_MAX && 0 < p.value.nanos && InMillis(p.value).window <= U64_MAX / 4
  }

  /**
   * A policy is accepted for 1 to 4294967295 attempts and a duration that is not zero, of at most
   * 2^62 - 1 whole milliseconds.
   */
  lemma AcceptsPolicies(p: Policy)
    ensures ValidPolicy(Some(p)) <==>
              1 <= p.attempts <= 4294967295 && 1 <= p.nanos < 4_611_686_018_427_387_904 * 1_000_000
  {
  }

  /** The limits in force by default: attempts per subject and per source, in fifteen minutes. */
  lemma DefaultLimits()
    ensures var o := Defaults().operations;
            && o.Keys == {"register", "login", "verification_request", "reset_request", "verify", "reset",
                          "password_change"}
            && ByMinutes(o["register"], 15, 5, Some(30)) && ByMinutes(o["login"], 15, 10, Some(100))
            && ByMinutes(o["verification_request"], 15, 3, Some(30)) && ByMinutes(o["reset_request"], 15, 3, Some(30))
            && ByMinutes(o["verify"], 15, 10, None) && ByMinutes(o["reset"], 15, 10, None)
            && ByMinutes(o["password_change"], 15, 5, None)
    ensures Defaults().maxKeys == 100000 && ValidConfig(Defaults())
  {
  }

  predicate ByMinutes(limits: OperationLimits, minutes: nat, subject: nat, source: Option<nat>) {
    && limits.subject.Some? && InMillis(limits.subject.value) == Bucket(subject, minutes * 60_000)
    && (limits.source.Some? <==> source.Some?)
    && (source.Some? ==> InMillis(limits.source.value) == Bucket(source.value, minutes * 60_000))
  }

  predicate ValidConfig(config: Config) {
    && config.maxKeys != 0
    && config.operations != map[]
    && forall name :: name in config.operations ==>
         name != "" && ValidPolicy(config.operations[name].subject) && ValidPolicy(config.operations[name].source)
  }

  /** The hits of one call: the subject's bucket, then the source's. */
  function HitsOf(config: Config, keyOf: (string, string) -> Key, operation: string, subject: string, source: string)
    : Option<seq<Hit>>
  {
    if operation !in config.operations then None
    else
      var limits := config.operations[operation];
      Some((if limits.subject.Some? then [Hit(keyOf(operation, subject), InMillis(limits.subject.value))] else [])
           + (if limits.source.Some? then [Hit(keyOf(operation, source), InMillis(limits.source.value))] else []))
  }

  /** A configuration needs room for a key, an operation, and a name and accepted policies for each. */
  lemma AcceptsConfigs(config: Config)
    ensures ValidConfig(config) <==>
              && config.maxKeys >= 1 && |config.operations| >= 1 && "" !in config.operations
              && forall name :: name in config.operations ==>
                   ValidPolicy(config.operations[name].subject) && ValidPolicy(config.operations[name].source)
  {
    hide ValidPolicy;
    if config.operations == map[] { assert |config.operations| == 0; }
    if |config.operations| == 0 { assert config.operations == map[]; }
  }

  /** An operation's buckets: the subject's under the subject's key, then the source's under the source's. */
  lemma HitsExactly(
      config: Config, keyOf: (string, string) -> Key, operation: string, subject: string, source: string)
    ensures var hits := HitsOf(config, keyOf, operation, subject, source);
            && (hits.None? <==> operation !in config.operations)
            && (hits.Some? ==>
                  var o := config.operations[operation];
                  && |hits.value| == (if o.subject.Some? then 1 else 0) + (if o.source.Some? then 1 else 0)
                  && (o.subject.Some? ==> Counts(hits.value[0], keyOf(operation, subject), o.subject.value))
                  && (o.source.Some? ==>
                        Counts(hits.value[|hits.value| - 1], keyOf(operation, source), o.source.value)))
  {
  }

  predicate Counts(hit: Hit, key: Key, p: Policy) {
    && hit.key == key && hit.bucket.attempts == p.attempts
    && hit.bucket.window * 1_000_000 <= p.nanos < (hit.bucket.window + 1) * 1_000_000
  }

  /** A configuration that is accepted counts valid hits; a duration below a millisecond makes a window of none. */
  lemma ConfiguredHits(
      config: Config, keyOf: (string, string) -> Key, operation: string, subject: string, source: string)
    requires ValidConfig(config) && operation in config.operations
    ensures var limits := config.operations[operation];
            var hits := HitsOf(config, keyOf, operation, subject, source).value;
            && ValidHits(hits)
            && (Timed(hits)
                <==> && (limits.subject.Some? ==> limits.subject.value.nanos >= NANOS_PER_MS)
                     && (limits.source.Some? ==> limits.source.value.nanos >= NANOS_PER_MS))
  {
    var limits := config.operations[operation];
    var hits := HitsOf(config, keyOf, operation, subject, source).value;
    if limits.subject.Some? { assert hits[0].bucket == InMillis(limits.subject.value); }
    if limits.source.Some? { assert hits[|hits| - 1].bucket == InMillis(limits.source.value); }
  }

  // ---- One call on the store -------------------------------------------------------------------

  function Retained(windows: Windows, now: int): Windows {
    map k | k in windows && windows[k].end > now :: windows[k]
  }

  function SaturatingEnd(now: int, window: int): int {
    Least(now + window, U64_MAX)
  }

  /** A window's end saturates at 2^64 - 1. */
  lemma EndsExactly(now: int, window: int)
    ensures SaturatingEnd(now, window)
         == if now + window <= 18_446_744_073_709_551_615 then now + window else 18_446_744_073_709_551_615
  {
  }

  datatype CountResult = CountResult(windows: Windows, reply: Result<Option<int>>)

  /** Counts one hit; a new key first needs room, made by dropping expired windows. */
  function CountHit(windows: Windows, maxKeys: nat, hit: Hit, now: int): CountResult {
    var key := hit.key;
    var running := key in windows && windows[key].end > now;
    var crowded := key !in windows && |windows| >= maxKeys;
    var kept := if crowded then Retained(windows, now) else windows;
    if crowded && |kept| >= maxKeys then CountResult(kept, Err("identity.auth_dependency_failed"))
    else
      var next := if running then Window(windows[key].end, Least(windows[key].count + 1, U32_MAX))
                  else Window(SaturatingEnd(now, hit.bucket.window), 1);
      CountResult(kept[key := next],
                  Ok(if next.count > hit.bucket.attempts then Some(Least(next.end - now, I64_MAX)) else None))
  }

  /** The store after a call, how many of its hits were counted, and the answer. */
  datatype AdmitResult = AdmitResult(windows: Windows, counted: nat, answer: Answer)

  function RetryOf(answer: Answer): Option<int> {
    if answer.Refused? then Some(answer.retryAfter) else None
  }

  function AdmitHits(windows: Windows, maxKeys: nat, hits: seq<Hit>, now: int): (r: AdmitResult)
    ensures r.counted <= |hits|
    ensures r.answer.Unavailable? <==> r.counted < |hits|
    decreases |hits|
  {
    if hits == [] then AdmitResult(windows, 0, Permitted)
    else
      var first := CountHit(windows, maxKeys, hits[0], now);
      if first.reply.Err? then AdmitResult(first.windows, 0, Unavailable)
      else
        var rest := AdmitHits(first.windows, maxKeys, hits[1..], now);
        AdmitResult(rest.windows, rest.counted + 1,
                    if rest.answer.Unavailable? then Unavailable
                    else Verdict(Longer(first.reply.value, RetryOf(rest.answer))))
  }

  class Limiter {
    const config: Config
    var windows: Windows

    constructor (config: Config)
      requires ValidConfig(config)
      ensures this.config == config && windows == map[]
    {
      this.config := config;
      windows := map[];
    }

    /** A configuration without keys, operations or positive limits is refused. */
    static method New(config: Config) returns (r: Result<Limiter>)
      ensures r.Ok? <==> ValidConfig(config)
      ensures r.Ok? ==> fresh(r.value) && r.value.config == config && r.value.windows == map[]
      ensures r.Err? ==> r.code == "identity.limiter_configuration"
    {
      if config.maxKeys == 0 || config.operations == map[] { return Err("identity.limiter_configuration"); }
      var names := config.operations.Keys;
      while names != {}
        invariant names <= config.operations.Keys
        invariant forall name :: name in config.operations && name !in names ==>
                    && name != "" && ValidPolicy(config.operations[name].subject)
                    && ValidPolicy(config.operations[name].source)
        decreases |names|
      {
        var name :| name in names;
        var limits := config.operations[name];
        if name == "" || !ValidPolicy(limits.subject) || !ValidPolicy(limits.source) {
          return Err("identity.limiter_configuration");
        }
        names := names - {name};
      }
      var limiter := new Limiter(config);
      return Ok(limiter);
    }

    method Count(hit: Hit, now: int) returns (reply: Result<Option<int>>)
      modifies this`windows
      ensures CountHit(old(windows), config.maxKeys, hit, now) == CountResult(windows, reply)
    {
      var entry: Window;
      if hit.key in windows && windows[hit.key].end > now {
        entry := windows[hit.key];
      } else {
        if hit.key !in windows && |windows| >= config.maxKeys {
          windows := map k | k in windows && windows[k].end > now :: windows[k];
          if |windows| >= config.maxKeys { return Err("identity.auth_dependency_failed"); }
        }
        entry := Window(SaturatingEnd(now, hit.bucket.window), 0);
      }
      var next := Window(entry.end, Least(entry.count + 1, U32_MAX));
      windows := windows[hit.key := next];
      return Ok(if next.count > hit.bucket.attempts then Some(Least(next.end - now, I64_MAX)) else None);
    }

    /** `reading` is the clock in Unix milliseconds, absent when it is out of range. */
    method AdmitNow(
        keyOf: (string, string) -> Key, operation: string, subject: string, source: string, reading: Option<int>)
      returns (answer: Answer)
      modifies this`windows
      ensures var hits := HitsOf(config, keyOf, operation, subject, source);
              if hits.None? || reading.None? then answer == Unavailable && windows == old(windows)
              else
                var r := AdmitHits(old(windows), config.maxKeys, hits.value, reading.value);
                windows == r.windows && answer == r.answer
    {
      if operation !in config.operations { return Unavailable; }
      var limits := config.operations[operation];
      if reading.None? { return Unavailable; }
      var now := reading.value;
      var hits: seq<Hit> := [];
      if limits.subject.Some? { hits := hits + [Hit(keyOf(operation, subject), InMillis(limits.subject.value))]; }
      if limits.source.Some? { hits := hits + [Hit(keyOf(operation, source), InMillis(limits.source.value))]; }
      answer := AdmitInTurn(hits, now);
    }

    method AdmitInTurn(hits: seq<Hit>, now: int) returns (answer: Answer)
      modifies this`windows
      ensures var r := AdmitHits(old(windows), config.maxKeys, hits, now);
              windows == r.windows && answer == r.answer
    {
      var retry: Option<int> := None;
      ghost var whole := AdmitHits(windows, config.maxKeys, hits, now);
      hide CountHit, AdmitHits;
      assert hits[0..] == hits;
      for i := 0 to |hits|
        invariant Combines(whole, retry, AdmitHits(windows, config.maxKeys, hits[i..], now))
      {
        AdmitHead(windows, config.maxKeys, hits, i, now);
        var reply := Count(hits[i], now);
        if reply.Err? { return Unavailable; }
        LongerAssociates(retry, reply.value, RetryOf(AdmitHits(windows, config.maxKeys, hits[i + 1..], now).answer));
        if reply.value.Some? {
          var after := reply.value.value;
          retry := Some(if retry.None? then after else if retry.value >= after then retry.value else after);
        }
      }
      AdmitNone(windows, config.maxKeys, now);
      return match retry case Some(after) => Refused(after) case None => Permitted;
    }
  }

  lemma AdmitNone(windows: Windows, maxKeys: nat, now: int)
    ensures AdmitHits(windows, maxKeys, [], now) == AdmitResult(windows, 0, Permitted)
  {
  }

  lemma AdmitHead(windows: Windows, maxKeys: nat, hits: seq<Hit>, i: int, now: int)
    requires 0 <= i < |hits|
    ensures var first := CountHit(windows, maxKeys, hits[i], now);
            var rest := AdmitHits(first.windows, maxKeys, hits[i + 1..], now);
            var r := AdmitHits(windows, maxKeys, hits[i..], now);
            if first.reply.Err? then r.windows == first.windows && r.answer == Unavailable
            else r.windows == rest.windows
                 && r.answer == (if rest.answer.Unavailable? then Unavailable
                                 else Verdict(Longer(first.reply.value, RetryOf(rest.answer))))
  {
    assert hits[i..][0] == hits[i] && hits[i..][1..] == hits[i + 1..];
  }

  /** The whole call, from the waits so far and what the remaining hits will give. */
  ghost predicate Combines(whole: AdmitResult, retry: Option<int>, rest: AdmitResult) {
    && whole.windows == rest.windows
    && whole.answer == if rest.answer.Unavailable? then Unavailable else Verdict(Longer(retry, RetryOf(rest.answer)))
  }

  // ---- Against the limiter that never forgets ---------------------------------------------------

  /** The store knows every window still running, and nothing else that matters. */
  ghost predicate Tracks(windows: Windows, history: seq<Stamped>, now: int, maxKeys: nat) {
    && |windows| <= maxKeys
    && forall k :: (Live(history, k, now) <==> k in windows && windows[k].end > now)
                   && (Live(history, k, now) ==>
                         windows[k] == Window(LastWindow(history, k).value.end,
                                              Least(LastWindow(history, k).value.count, U32_MAX)))
  }

  /** Dropping expired windows is invisible. */
  lemma EvictionInvisible(windows: Windows, history: seq<Stamped>, now: int, maxKeys: nat)
    requires Tracks(windows, history, now, maxKeys)
    ensures Tracks(Retained(windows, now), history, now, maxKeys)
    ensures Retained(windows, now).Keys == LiveKeys(history, now)
  {
    var kept := Retained(windows, now);
    SubsetSize(kept.Keys, windows.Keys);
    forall k ensures k in kept.Keys <==> k in LiveKeys(history, now) {
      LiveIsSeen(history, k, now);
      assert Live(history, k, now) <==> k in windows && windows[k].end > now;
    }
  }

  /**
   * What an eviction at `now` costs a reading of the clock at `time`: nothing, exactly when
   * every window still running at `time` is still running at `now`.
   */
  lemma EvictionExactly(windows: Windows, history: seq<Stamped>, time: int, now: int, maxKeys: nat)
    requires Tracks(windows, history, time, maxKeys)
    ensures Tracks(Retained(windows, now), history, time, maxKeys)
       <==> forall k :: k in windows && time < windows[k].end ==> now < windows[k].end
  {
    var kept := Retained(windows, now);
    SubsetSize(kept.Keys, windows.Keys);
    if Tracks(kept, history, time, maxKeys) {
      forall k | k in windows && time < windows[k].end ensures now < windows[k].end {
        assert Live(history, k, time);
        assert k in kept;
      }
    }
  }

  lemma CountTracks(windows: Windows, history: seq<Stamped>, hit: Hit, now: int, maxKeys: nat)
    requires Tracks(windows, history, now, maxKeys) && ValidHit(hit) && now + hit.bucket.window <= I64_MAX
    ensures var r := CountHit(windows, maxKeys, hit, now);
            if r.reply.Err? then
              Tracks(r.windows, history, now, maxKeys) && |LiveKeys(history, now) + {hit.key}| > maxKeys
            else Tracks(r.windows, history + [Stamped(hit, now)], now, maxKeys)
  {
    EvictionInvisible(windows, history, now, maxKeys);
    LiveIsSeen(history, hit.key, now);
    var kept := Retained(windows, now);
    if hit.key !in windows && |windows| >= maxKeys {
      if |kept| >= maxKeys {
        assert !Live(history, hit.key, now);
        assert |LiveKeys(history, now) + {hit.key}| == |kept.Keys| + 1;
      } else {
        CountKept(kept, history, hit, now, maxKeys);
      }
    } else {
      CountKept(windows, history, hit, now, maxKeys);
    }
  }

  lemma CountKept(windows: Windows, history: seq<Stamped>, hit: Hit, now: int, maxKeys: nat)
    requires Tracks(windows, history, now, maxKeys) && ValidHit(hit) && now + hit.bucket.window <= I64_MAX
    requires hit.key in windows || |windows| < maxKeys
    ensures var next := if hit.key in windows && windows[hit.key].end > now
                        then Window(windows[hit.key].end, Least(windows[hit.key].count + 1, U32_MAX))
                        else Window(SaturatingEnd(now, hit.bucket.window), 1);
            Tracks(windows[hit.key := next], history + [Stamped(hit, now)], now, maxKeys)
  {
    CountOne(history, Stamped(hit, now));
    var after := history + [Stamped(hit, now)];
    hide LastWindow;
    assert forall k :: Live(history, k, now) <==> k in windows && windows[k].end > now;
    assert forall k :: k != hit.key ==> Live(after, k, now) == Live(history, k, now);
    assert Live(after, hit.key, now) <==> Live(history, hit.key, now) || 0 < hit.bucket.window;
  }

  /** The counter has room for the hit, or the limit is below where it saturates. */
  predicate Countable(history: seq<Stamped>, hit: Hit, now: int) {
    || hit.bucket.attempts < U32_MAX
    || !Live(history, hit.key, now)
    || LastWindow(history, hit.key).value.count < U32_MAX
  }

  predicate AllCountable(history: seq<Stamped>, hits: seq<Hit>, now: int)
    decreases |hits|
  {
    hits == [] || (Countable(history, hits[0], now) && AllCountable(history + [Stamped(hits[0], now)], hits[1..], now))
  }

  lemma {:induction false} EnforceableCountable(history: seq<Stamped>, hits: seq<Hit>, now: int)
    requires Enforceable(hits)
    ensures AllCountable(history, hits, now)
    decreases |hits|
  {
    if hits != [] { EnforceableCountable(history + [Stamped(hits[0], now)], hits[1..], now); }
  }

  /** One hit waits as the ideal limiter says exactly when it can be counted. */
  lemma CountWaits(windows: Windows, history: seq<Stamped>, hit: Hit, now: int, maxKeys: nat)
    requires Tracks(windows, history, now, maxKeys) && ValidHit(hit)
    requires 0 <= now && now + hit.bucket.window <= I64_MAX
    requires Live(history, hit.key, now) ==> LastWindow(history, hit.key).value.end <= I64_MAX
    ensures var r := CountHit(windows, maxKeys, hit, now);
            r.reply.Ok? ==>
              (r.reply.value == Wait(LastWindow(history + [Stamped(hit, now)], hit.key).value, hit.bucket.attempts, now)
               <==> Countable(history, hit, now))
  {
    CountOne(history, Stamped(hit, now));
    assert Live(history, hit.key, now) <==> hit.key in windows && windows[hit.key].end > now;
  }

  /** No window ends beyond the range the waits are printed in. */
  ghost predicate EndsFit(history: seq<Stamped>) {
    forall k :: LastWindow(history, k).Some? ==> LastWindow(history, k).value.end <= I64_MAX
  }

  lemma EndsStayFit(history: seq<Stamped>, s: Stamped)
    requires EndsFit(history) && s.now + s.hit.bucket.window <= I64_MAX
    ensures EndsFit(history + [s])
  {
    CountOne(history, s);
  }

  /** The store after a call tracks what was counted, and it ran full exactly when it had to. */
  ghost predicate CallTracked(windows: Windows, history: seq<Stamped>, call: Call, maxKeys: nat) {
    var r := AdmitHits(windows, maxKeys, call.hits, call.now);
    var after := history + Stamp(call.hits[..r.counted], call.now);
    && Tracks(r.windows, after, call.now, maxKeys)
    && EndsFit(after)
    && (r.answer.Unavailable? <==> Overflows(history, call, maxKeys))
  }

  lemma {:induction false} AdmitTracks(windows: Windows, history: seq<Stamped>, call: Call, maxKeys: nat)
    requires Tracks(windows, history, call.now, maxKeys) && Fits(call, I64_MAX) && EndsFit(history)
    ensures CallTracked(windows, history, call, maxKeys)
    decreases |call.hits|
  {
    var hits, now := call.hits, call.now;
    if hits == [] {
      NothingToCount(windows, history, call, maxKeys);
    } else {
      CountTracks(windows, history, hits[0], now, maxKeys);
      var first := CountHit(windows, maxKeys, hits[0], now);
      hide Tracks, EndsFit, CountHit, CallTracked;
      if first.reply.Err? {
        FullAtOnce(windows, history, call, maxKeys);
      } else {
        var s := Stamped(hits[0], now);
        EndsStayFit(history, s);
        AdmitTracks(first.windows, history + [s], Call(hits[1..], now), maxKeys);
        OneMoreTracked(windows, history, call, maxKeys);
      }
    }
  }

  lemma FullAtOnce(windows: Windows, history: seq<Stamped>, call: Call, maxKeys: nat)
    requires call.hits != [] && EndsFit(history)
    requires var r := CountHit(windows, maxKeys, call.hits[0], call.now);
             r.reply.Err? && Tracks(r.windows, history, call.now, maxKeys)
    requires |LiveKeys(history, call.now) + {call.hits[0].key}| > maxKeys
    ensures CallTracked(windows, history, call, maxKeys)
  {
    hide Tracks, EndsFit, CountHit, LiveKeys;
    assert history + Stamp(call.hits[..0], call.now) == history;
  }

  /** A hit that is counted found room beside the windows running. */
  lemma RoomFound(windows: Windows, history: seq<Stamped>, hit: Hit, now: int, maxKeys: nat)
    requires Tracks(windows, history, now, maxKeys) && CountHit(windows, maxKeys, hit, now).reply.Ok?
    ensures |LiveKeys(history, now)| <= |LiveKeys(history, now) + {hit.key}| <= maxKeys
  {
    EvictionInvisible(windows, history, now, maxKeys);
    var kept := Retained(windows, now);
    SubsetSize(LiveKeys(history, now), LiveKeys(history, now) + {hit.key});
    if hit.key in windows {
      SubsetSize(LiveKeys(history, now) + {hit.key}, windows.Keys);
    } else {
      SubsetSize(kept.Keys, windows.Keys);
      assert |kept.Keys + {hit.key}| <= |kept.Keys| + 1;
    }
  }

  lemma OneMoreTracked(windows: Windows, history: seq<Stamped>, call: Call, maxKeys: nat)
    requires call.hits != [] && Tracks(windows, history, call.now, maxKeys)
    requires var r := CountHit(windows, maxKeys, call.hits[0], call.now);
             && r.reply.Ok?
             && CallTracked(
                  r.windows, history + [Stamped(call.hits[0], call.now)], Call(call.hits[1..], call.now), maxKeys)
    ensures CallTracked(windows, history, call, maxKeys)
  {
    RoomFound(windows, history, call.hits[0], call.now, maxKeys);
    hide Tracks, EndsFit, CountHit, LiveKeys;
    var hits, now := call.hits, call.now;
    var first := CountHit(windows, maxKeys, hits[0], now);
    var rest := AdmitHits(first.windows, maxKeys, hits[1..], now);
    var whole := AdmitHits(windows, maxKeys, hits, now);
    assert whole.windows == rest.windows && whole.counted == rest.counted + 1;
    StampSplit(history, hits, now, rest.counted);
    hide Stamp;
  }

  lemma NothingToCount(windows: Windows, history: seq<Stamped>, call: Call, maxKeys: nat)
    requires Tracks(windows, history, call.now, maxKeys) && EndsFit(history) && call.hits == []
    ensures history + Stamp(call.hits[..0], call.now) == history
    ensures !Overflows(history, call, maxKeys)
  {
    EvictionInvisible(windows, history, call.now, maxKeys);
    SubsetSize(Retained(windows, call.now).Keys, windows.Keys);
  }

  lemma StampSplit(history: seq<Stamped>, hits: seq<Hit>, now: int, n: nat)
    requires hits != [] && n <= |hits| - 1
    ensures history + Stamp(hits[..n + 1], now) == history + [Stamped(hits[0], now)] + Stamp(hits[1..][..n], now)
  {
    assert hits[..n + 1][1..] == hits[1..][..n];
  }

  lemma {:induction false} AdmitAnswers(windows: Windows, history: seq<Stamped>, call: Call, maxKeys: nat)
    requires Tracks(windows, history, call.now, maxKeys) && Fits(call, I64_MAX) && EndsFit(history)
    requires AllCountable(history, call.hits, call.now)
    ensures var r := AdmitHits(windows, maxKeys, call.hits, call.now);
            !r.answer.Unavailable? ==> r.answer == Verdict(IdealRetry(history, call.hits, call.now))
    decreases |call.hits|
  {
    var hits, now := call.hits, call.now;
    if hits != [] {
      var first, s := CountHit(windows, maxKeys, hits[0], now), Stamped(hits[0], now);
      CountTracks(windows, history, hits[0], now, maxKeys);
      CountWaits(windows, history, hits[0], now, maxKeys);
      if first.reply.Ok? {
        EndsStayFit(history, s);
        AdmitAnswers(first.windows, history + [s], Call(hits[1..], now), maxKeys);
      }
    }
  }

  // ---- Every sequence of calls --------------------------------------------------------------------

  function WindowsAfter(calls: seq<Call>, maxKeys: nat): Windows
    decreases |calls|, 1
  {
    if calls == [] then map[] else LastResult(calls, maxKeys).windows
  }

  /** What the last of a sequence of calls does. */
  function LastResult(calls: seq<Call>, maxKeys: nat): AdmitResult
    requires calls != []
    decreases |calls|, 0
  {
    var n := |calls| - 1;
    AdmitHits(WindowsAfter(calls[..n], maxKeys), maxKeys, calls[n].hits, calls[n].now)
  }

  function CountedHistory(calls: seq<Call>, maxKeys: nat): seq<Stamped> {
    if calls == [] then []
    else
      var n := |calls| - 1;
      CountedHistory(calls[..n], maxKeys) + Stamp(calls[n].hits[..LastResult(calls, maxKeys).counted], calls[n].now)
  }

  predicate InOrder(calls: seq<Call>) {
    forall i, j :: 0 <= i < j < |calls| ==> calls[i].now <= calls[j].now
  }

  predicate AllFit(calls: seq<Call>, bound: int) {
    forall i :: 0 <= i < |calls| ==> Fits(calls[i], bound)
  }

  /** The store never holds more than `maxKeys` windows, whatever is called and whenever. */
  lemma {:induction false} NeverOverMax(windows: Windows, maxKeys: nat, hits: seq<Hit>, now: int)
    requires |windows| <= maxKeys
    ensures |AdmitHits(windows, maxKeys, hits, now).windows| <= maxKeys
    decreases |hits|
  {
    SubsetSize(Retained(windows, now).Keys, windows.Keys);
    if hits != [] {
      var first := CountHit(windows, maxKeys, hits[0], now);
      if first.reply.Ok? { NeverOverMax(first.windows, maxKeys, hits[1..], now); }
    }
  }

  // ---- What the store has dropped ---------------------------------------------------------------------

  function Expired(windows: Windows, now: int): map<Key, int> {
    map k | k in windows && windows[k].end <= now :: windows[k].end
  }

  /** The ends of windows dropped and not begun again, as one hit leaves them. */
  function DroppedByHit(windows: Windows, dropped: map<Key, int>, maxKeys: nat, hit: Hit, now: int): map<Key, int> {
    var crowded := hit.key !in windows && |windows| >= maxKeys;
    var more := if crowded then dropped + Expired(windows, now) else dropped;
    if CountHit(windows, maxKeys, hit, now).reply.Err? then more else more - {hit.key}
  }

  function DroppedByHits(windows: Windows, dropped: map<Key, int>, maxKeys: nat, hits: seq<Hit>, now: int)
    : map<Key, int>
    decreases |hits|
  {
    if hits == [] then dropped
    else
      var first := CountHit(windows, maxKeys, hits[0], now);
      var next := DroppedByHit(windows, dropped, maxKeys, hits[0], now);
      if first.reply.Err? then next else DroppedByHits(first.windows, next, maxKeys, hits[1..], now)
  }

  function DroppedAfter(calls: seq<Call>, maxKeys: nat): map<Key, int> {
    if calls == [] then map[]
    else
      var n := |calls| - 1;
      DroppedByHits(
        WindowsAfter(calls[..n], maxKeys), DroppedAfter(calls[..n], maxKeys), maxKeys, calls[n].hits, calls[n].now)
  }

  /** None of the dropped windows would still run. */
  predicate Quiet(dropped: map<Key, int>, now: int) {
    forall k :: k in dropped ==> dropped[k] <= now
  }

  /** No call comes before the end of a window that an earlier eviction dropped. */
  predicate Timely(calls: seq<Call>, maxKeys: nat) {
    forall i :: 0 <= i < |calls| ==> Quiet(DroppedAfter(calls[..i], maxKeys), calls[i].now)
  }

  /** A window ever begun is in the store as it is, or among the dropped with its end. */
  predicate Recalled(windows: Windows, dropped: map<Key, int>, history: seq<Stamped>, k: Key) {
    var last := LastWindow(history, k);
    if k in windows then
      k !in dropped && last.Some? && windows[k] == Window(last.value.end, Least(last.value.count, U32_MAX))
    else if k in dropped then last.Some? && dropped[k] == last.value.end
    else last.None?
  }

  ghost predicate Remembers(windows: Windows, dropped: map<Key, int>, history: seq<Stamped>, maxKeys: nat) {
    |windows| <= maxKeys && forall k :: Recalled(windows, dropped, history, k)
  }

  /** The store knows every running window exactly at the times when nothing dropped would still run. */
  lemma RemembersTracks(windows: Windows, dropped: map<Key, int>, history: seq<Stamped>, now: int, maxKeys: nat)
    requires Remembers(windows, dropped, history, maxKeys)
    ensures Tracks(windows, history, now, maxKeys) <==> Quiet(dropped, now)
  {
    hide LastWindow;
    if Tracks(windows, history, now, maxKeys) {
      forall k | k in dropped ensures dropped[k] <= now {
        assert Recalled(windows, dropped, history, k);
        assert Live(history, k, now) ==> k in windows;
      }
    } else if Quiet(dropped, now) {
      forall k ensures Live(history, k, now) <==> k in windows && windows[k].end > now {
        assert Recalled(windows, dropped, history, k);
      }
      assert forall k :: k in windows ==> Recalled(windows, dropped, history, k);
    }
  }

  lemma DroppingRecalls(windows: Windows, dropped: map<Key, int>, history: seq<Stamped>, now: int, k: Key)
    requires Recalled(windows, dropped, history, k)
    ensures Recalled(Retained(windows, now), dropped + Expired(windows, now), history, k)
  {
    hide LastWindow;
  }

  lemma DroppingRemembers(windows: Windows, dropped: map<Key, int>, history: seq<Stamped>, now: int, maxKeys: nat)
    requires Remembers(windows, dropped, history, maxKeys) && Quiet(dropped, now)
    ensures Remembers(Retained(windows, now), dropped + Expired(windows, now), history, maxKeys)
    ensures Quiet(dropped + Expired(windows, now), now)
  {
    SubsetSize(Retained(windows, now).Keys, windows.Keys);
    assert Quiet(dropped + Expired(windows, now), now);
    hide Expired, Recalled;
    forall k ensures Recalled(Retained(windows, now), dropped + Expired(windows, now), history, k) {
      DroppingRecalls(windows, dropped, history, now, k);
    }
  }

  /** The window one hit leaves, in a store that has room for its key. */
  function NextWindow(windows: Windows, hit: Hit, now: int): Window {
    if hit.key in windows && windows[hit.key].end > now
    then Window(windows[hit.key].end, Least(windows[hit.key].count + 1, U32_MAX))
    else Window(SaturatingEnd(now, hit.bucket.window), 1)
  }

  lemma CountingRemembers(
      windows: Windows, dropped: map<Key, int>, history: seq<Stamped>, hit: Hit, now: int, maxKeys: nat)
    requires Remembers(windows, dropped, history, maxKeys) && Quiet(dropped, now)
    requires ValidHit(hit) && now + hit.bucket.window <= I64_MAX && (hit.key in windows || |windows| < maxKeys)
    ensures Remembers(
              windows[hit.key := NextWindow(windows, hit, now)], dropped - {hit.key},
              history + [Stamped(hit, now)], maxKeys)
    ensures Quiet(dropped - {hit.key}, now)
  {
    CountOne(history, Stamped(hit, now));
    hide LastWindow;
    var after := windows[hit.key := NextWindow(windows, hit, now)];
    forall k ensures Recalled(after, dropped - {hit.key}, history + [Stamped(hit, now)], k) {
      assert Recalled(windows, dropped, history, k);
    }
  }

  lemma HitRemembers(windows: Windows, dropped: map<Key, int>, history: seq<Stamped>, hit: Hit, now: int, maxKeys: nat)
    requires Remembers(windows, dropped, history, maxKeys) && Quiet(dropped, now)
    requires ValidHit(hit) && now + hit.bucket.window <= I64_MAX
    ensures var r := CountHit(windows, maxKeys, hit, now);
            var after := DroppedByHit(windows, dropped, maxKeys, hit, now);
            && Quiet(after, now)
            && Remembers(r.windows, after, if r.reply.Err? then history else history + [Stamped(hit, now)], maxKeys)
  {
    hide Remembers, Quiet, Expired;
    if hit.key !in windows && |windows| >= maxKeys {
      DroppingRemembers(windows, dropped, history, now, maxKeys);
      var kept := Retained(windows, now);
      if |kept| < maxKeys { CountingRemembers(kept, dropped + Expired(windows, now), history, hit, now, maxKeys); }
    } else {
      CountingRemembers(windows, dropped, history, hit, now, maxKeys);
    }
  }

  lemma NothingStamped(history: seq<Stamped>, hits: seq<Hit>, now: int)
    ensures history + Stamp(hits[..0], now) == history
  {
  }

  lemma FirstHit(windows: Windows, dropped: map<Key, int>, maxKeys: nat, hits: seq<Hit>, now: int)
    requires hits != []
    ensures var first := CountHit(windows, maxKeys, hits[0], now);
            var next := DroppedByHit(windows, dropped, maxKeys, hits[0], now);
            var rest := AdmitHits(first.windows, maxKeys, hits[1..], now);
            var whole := AdmitHits(windows, maxKeys, hits, now);
            if first.reply.Err? then
              && whole.windows == first.windows && whole.counted == 0
              && DroppedByHits(windows, dropped, maxKeys, hits, now) == next
            else
              && whole.windows == rest.windows && whole.counted == rest.counted + 1
              && DroppedByHits(windows, dropped, maxKeys, hits, now)
                 == DroppedByHits(first.windows, next, maxKeys, hits[1..], now)
  {
    hide CountHit, DroppedByHit;
  }

  lemma {:induction false} HitsRemember(
      windows: Windows, dropped: map<Key, int>, history: seq<Stamped>, call: Call, maxKeys: nat)
    requires Remembers(windows, dropped, history, maxKeys) && Quiet(dropped, call.now) && Fits(call, I64_MAX)
    ensures var r := AdmitHits(windows, maxKeys, call.hits, call.now);
            var after := DroppedByHits(windows, dropped, maxKeys, call.hits, call.now);
            Remembers(r.windows, after, history + Stamp(call.hits[..r.counted], call.now), maxKeys)
    decreases |call.hits|
  {
    hide Remembers, CountHit, DroppedByHit, Quiet, Stamp, AdmitHits, DroppedByHits;
    var hits, now := call.hits, call.now;
    NothingStamped(history, hits, now);
    if hits == [] {
      NoHits(windows, dropped, maxKeys, now);
    } else {
      HitRemembers(windows, dropped, history, hits[0], now, maxKeys);
      FirstHit(windows, dropped, maxKeys, hits, now);
      var first := CountHit(windows, maxKeys, hits[0], now);
      if first.reply.Ok? {
        var next := DroppedByHit(windows, dropped, maxKeys, hits[0], now);
        HitsRemember(first.windows, next, history + [Stamped(hits[0], now)], Call(hits[1..], now), maxKeys);
        StampSplit(history, hits, now, AdmitHits(first.windows, maxKeys, hits[1..], now).counted);
      }
    }
  }

  lemma NoHits(windows: Windows, dropped: map<Key, int>, maxKeys: nat, now: int)
    ensures AdmitHits(windows, maxKeys, [], now) == AdmitResult(windows, 0, Permitted)
    ensures DroppedByHits(windows, dropped, maxKeys, [], now) == dropped
  {
  }

  lemma TimelyPrefix(calls: seq<Call>, maxKeys: nat)
    requires calls != [] && Timely(calls, maxKeys)
    ensures var n := |calls| - 1;
            Timely(calls[..n], maxKeys) && Quiet(DroppedAfter(calls[..n], maxKeys), calls[n].now)
  {
    var n := |calls| - 1;
    forall i | 0 <= i < n ensures Quiet(DroppedAfter(calls[..n][..i], maxKeys), calls[..n][i].now) {
      assert calls[..n][..i] == calls[..i];
    }
  }

  lemma {:induction false} RunRemembers(calls: seq<Call>, maxKeys: nat)
    requires Timely(calls, maxKeys) && AllFit(calls, I64_MAX)
    ensures Remembers(
              WindowsAfter(calls, maxKeys), DroppedAfter(calls, maxKeys), CountedHistory(calls, maxKeys), maxKeys)
    ensures EndsFit(CountedHistory(calls, maxKeys))
  {
    if calls != [] {
      TimelyPrefix(calls, maxKeys);
      hide Remembers, Tracks, EndsFit, Timely, Quiet;
      var n := |calls| - 1;
      var windows, dropped := WindowsAfter(calls[..n], maxKeys), DroppedAfter(calls[..n], maxKeys);
      var history := CountedHistory(calls[..n], maxKeys);
      RunRemembers(calls[..n], maxKeys);
      RemembersTracks(windows, dropped, history, calls[n].now, maxKeys);
      AdmitTracks(windows, history, calls[n], maxKeys);
      HitsRemember(windows, dropped, history, calls[n], maxKeys);
    }
  }

  lemma RunTracks(calls: seq<Call>, maxKeys: nat, now: int)
    requires Timely(calls, maxKeys) && AllFit(calls, I64_MAX)
    ensures Tracks(WindowsAfter(calls, maxKeys), CountedHistory(calls, maxKeys), now, maxKeys)
       <==> Quiet(DroppedAfter(calls, maxKeys), now)
    ensures EndsFit(CountedHistory(calls, maxKeys))
  {
    RunRemembers(calls, maxKeys);
    RemembersTracks(
      WindowsAfter(calls, maxKeys), DroppedAfter(calls, maxKeys), CountedHistory(calls, maxKeys), now, maxKeys);
  }

  lemma HitDropsPast(windows: Windows, dropped: map<Key, int>, maxKeys: nat, hit: Hit, now: int)
    requires Quiet(dropped, now)
    ensures Quiet(DroppedByHit(windows, dropped, maxKeys, hit, now), now)
  {
    hide CountHit;
  }

  lemma {:induction false} HitsDropPast(
      windows: Windows, dropped: map<Key, int>, maxKeys: nat, hits: seq<Hit>, now: int)
    requires Quiet(dropped, now)
    ensures Quiet(DroppedByHits(windows, dropped, maxKeys, hits, now), now)
    decreases |hits|
  {
    hide Quiet, DroppedByHit, CountHit;
    if hits != [] {
      var next := DroppedByHit(windows, dropped, maxKeys, hits[0], now);
      HitDropsPast(windows, dropped, maxKeys, hits[0], now);
      HitsDropPast(CountHit(windows, maxKeys, hits[0], now).windows, next, maxKeys, hits[1..], now);
    }
  }

  lemma TimelyMore(calls: seq<Call>, maxKeys: nat)
    requires calls != [] && Timely(calls[..|calls| - 1], maxKeys)
    requires Quiet(DroppedAfter(calls[..|calls| - 1], maxKeys), calls[|calls| - 1].now)
    ensures Timely(calls, maxKeys)
  {
    hide DroppedAfter, Quiet;
    var n := |calls| - 1;
    forall i | 0 <= i < n ensures Quiet(DroppedAfter(calls[..i], maxKeys), calls[i].now) {
      assert calls[..n][..i] == calls[..i] && calls[..n][i] == calls[i];
    }
  }

  lemma CallDropsPast(calls: seq<Call>, maxKeys: nat)
    requires calls != []
    requires Quiet(DroppedAfter(calls[..|calls| - 1], maxKeys), calls[|calls| - 1].now)
    ensures Quiet(DroppedAfter(calls, maxKeys), calls[|calls| - 1].now)
  {
    hide Quiet, WindowsAfter, DroppedByHits;
    var n := |calls| - 1;
    HitsDropPast(
      WindowsAfter(calls[..n], maxKeys), DroppedAfter(calls[..n], maxKeys), maxKeys, calls[n].hits, calls[n].now);
  }

  /** Times that never step back are timely, whatever is dropped. */
  lemma {:induction false} InOrderTimely(calls: seq<Call>, maxKeys: nat, now: int)
    requires InOrder(calls) && (calls != [] ==> calls[|calls| - 1].now <= now)
    ensures Timely(calls, maxKeys) && Quiet(DroppedAfter(calls, maxKeys), now)
  {
    if calls != [] {
      hide DroppedAfter, Timely;
      var n := |calls| - 1;
      InOrderTimely(calls[..n], maxKeys, calls[n].now);
      TimelyMore(calls, maxKeys);
      CallDropsPast(calls, maxKeys);
    }
  }

  /** Every call finds the room it needs. */
  ghost predicate Roomy(calls: seq<Call>, maxKeys: nat) {
    forall i :: 0 <= i < |calls| ==> !Overflows(History(calls[..i]), calls[i], maxKeys)
  }

  lemma RoomyPrefix(calls: seq<Call>, maxKeys: nat)
    requires calls != [] && Roomy(calls, maxKeys)
    ensures var n := |calls| - 1;
            Roomy(calls[..n], maxKeys) && !Overflows(History(calls[..n]), calls[n], maxKeys)
  {
    hide Overflows, History;
    var n := |calls| - 1;
    forall i | 0 <= i < n ensures !Overflows(History(calls[..n][..i]), calls[..n][i], maxKeys) {
      assert calls[..n][..i] == calls[..i];
    }
  }

  lemma {:induction false} AllCounted(calls: seq<Call>, maxKeys: nat)
    requires Timely(calls, maxKeys) && AllFit(calls, I64_MAX) && Roomy(calls, maxKeys)
    ensures CountedHistory(calls, maxKeys) == History(calls)
  {
    if calls != [] {
      var n := |calls| - 1;
      RoomyPrefix(calls, maxKeys);
      TimelyPrefix(calls, maxKeys);
      hide Roomy, Tracks, EndsFit, Overflows, Timely, Quiet;
      AllCounted(calls[..n], maxKeys);
      RunTracks(calls[..n], maxKeys, calls[n].now);
      AdmitTracks(WindowsAfter(calls[..n], maxKeys), CountedHistory(calls[..n], maxKeys), calls[n], maxKeys);
      assert !LastResult(calls, maxKeys).answer.Unavailable?;
      assert calls[n].hits[..|calls[n].hits|] == calls[n].hits;
    }
  }

  /**
   * The limiter answers a call as the ideal one does, up to and including the first call
   * the store is too small for, as long as no call comes before the end of a window that
   * was dropped and the counters have room. Times that never step back meet the first.
   */
  lemma LocalIsIdeal(calls: seq<Call>, maxKeys: nat)
    requires calls != [] && Timely(calls, maxKeys) && AllFit(calls, I64_MAX) && Roomy(calls[..|calls| - 1], maxKeys)
    requires var last := calls[|calls| - 1]; AllCountable(History(calls[..|calls| - 1]), last.hits, last.now)
    ensures LastResult(calls, maxKeys).answer
         == IdealAnswer(History(calls[..|calls| - 1]), calls[|calls| - 1], maxKeys)
  {
    var n := |calls| - 1;
    TimelyPrefix(calls, maxKeys);
    AllCounted(calls[..n], maxKeys);
    RunTracks(calls[..n], maxKeys, calls[n].now);
    hide Roomy, Tracks, EndsFit;
    AdmitTracks(WindowsAfter(calls[..n], maxKeys), History(calls[..n]), calls[n], maxKeys);
    AdmitAnswers(WindowsAfter(calls[..n], maxKeys), History(calls[..n]), calls[n], maxKeys);
  }

  // ---- How much gets through ------------------------------------------------------------------------

  /** Permitted calls that hit `key` at times in [from, until). */
  function PermittedCalls(calls: seq<Call>, maxKeys: nat, key: Key, from: int, until: int): nat {
    if calls == [] then 0
    else
      var n := |calls| - 1;
      PermittedCalls(calls[..n], maxKeys, key, from, until)
      + if key in Keys(calls[n].hits) && from <= calls[n].now < until && LastResult(calls, maxKeys).answer.Permitted?
        then 1 else 0
  }

  lemma {:induction false} WithinGrows(history: seq<Stamped>, more: seq<Stamped>, key: Key, from: int, until: int)
    ensures WithinBetween(history, key, from, until) <= WithinBetween(history + more, key, from, until)
  {
    if more == [] {
      assert history + more == history;
    } else {
      var n := |more| - 1;
      WithinGrows(history, more[..n], key, from, until);
      assert (history + more)[..|history| + n] == history + more[..n];
    }
  }

  lemma WithinCounts(history: seq<Stamped>, more: seq<Stamped>, i: int, key: Key, from: int, until: int)
    requires 0 <= i < |more| && more[i].hit.key == key && from <= more[i].now < until
    requires LastWithin(history + more[..i + 1])
    ensures WithinBetween(history, key, from, until) < WithinBetween(history + more, key, from, until)
  {
    WithinGrows(history, more[..i], key, from, until);
    var upTo := history + more[..i + 1];
    assert upTo[..|upTo| - 1] == history + more[..i];
    WithinGrows(upTo, more[i + 1..], key, from, until);
    assert upTo + more[i + 1..] == history + more;
  }

  lemma {:induction false} StampAt(hits: seq<Hit>, now: int, i: int)
    requires 0 <= i < |hits|
    ensures Stamp(hits, now)[i] == Stamped(hits[i], now)
  {
    if i > 0 { StampAt(hits[1..], now, i - 1); }
  }

  lemma FirstWithin(windows: Windows, history: seq<Stamped>, call: Call, maxKeys: nat)
    requires call.hits != [] && Tracks(windows, history, call.now, maxKeys) && Fits(call, I64_MAX) && EndsFit(history)
    requires CountHit(windows, maxKeys, call.hits[0], call.now).reply == Ok(None)
    requires call.hits[0].bucket.attempts < U32_MAX
    ensures LastWithin(history + [Stamped(call.hits[0], call.now)])
  {
    CountWaits(windows, history, call.hits[0], call.now, maxKeys);
    CountOne(history, Stamped(call.hits[0], call.now));
    hide CountHit, Tracks, LastWindow;
  }

  /** In a call that is permitted every hit is within its limit, unless the limit is where counters saturate. */
  lemma {:induction false} PermittedHit(windows: Windows, history: seq<Stamped>, call: Call, maxKeys: nat, i: int)
    requires Tracks(windows, history, call.now, maxKeys) && Fits(call, I64_MAX) && EndsFit(history)
    requires AdmitHits(windows, maxKeys, call.hits, call.now).answer.Permitted?
    requires 0 <= i < |call.hits| && call.hits[i].bucket.attempts < U32_MAX
    ensures LastWithin(history + Stamp(call.hits, call.now)[..i + 1])
    decreases |call.hits|
  {
    hide CountHit, Tracks, EndsFit, LastWithin;
    var hits, now := call.hits, call.now;
    var first, s := CountHit(windows, maxKeys, hits[0], now), Stamped(hits[0], now);
    if i == 0 {
      FirstWithin(windows, history, call, maxKeys);
      assert Stamp(hits, now)[..1] == [s];
    } else {
      CountTracks(windows, history, hits[0], now, maxKeys);
      EndsStayFit(history, s);
      PermittedHit(first.windows, history + [s], Call(hits[1..], now), maxKeys, i - 1);
      assert history + Stamp(hits, now)[..i + 1] == history + [s] + Stamp(hits[1..], now)[..i];
    }
  }

  /**
   * Every call that is permitted is within every bucket it hits, in any timely run and
   * however the store filled, unless the limit is where counters saturate.
   */
  lemma PermittedCallWithin(calls: seq<Call>, maxKeys: nat, i: int)
    requires calls != [] && Timely(calls, maxKeys) && AllFit(calls, I64_MAX)
    requires LastResult(calls, maxKeys).answer.Permitted?
    requires var hits := calls[|calls| - 1].hits; 0 <= i < |hits| && hits[i].bucket.attempts < U32_MAX
    ensures var n := |calls| - 1;
            LastWithin(CountedHistory(calls[..n], maxKeys) + Stamp(calls[n].hits, calls[n].now)[..i + 1])
  {
    var n := |calls| - 1;
    TimelyPrefix(calls, maxKeys);
    RunTracks(calls[..n], maxKeys, calls[n].now);
    hide Tracks, EndsFit, LastWithin, Timely;
    PermittedHit(WindowsAfter(calls[..n], maxKeys), CountedHistory(calls[..n], maxKeys), calls[n], maxKeys, i);
  }

  /** Every hit on the key has a limit below where counters saturate. */
  predicate EnforceableOn(calls: seq<Call>, key: Key) {
    forall i, j :: 0 <= i < |calls| && 0 <= j < |calls[i].hits| && calls[i].hits[j].key == key ==>
      calls[i].hits[j].bucket.attempts < U32_MAX
  }

  lemma {:induction false} PermittedAreWithin(calls: seq<Call>, maxKeys: nat, key: Key, from: int, until: int)
    requires Timely(calls, maxKeys) && AllFit(calls, I64_MAX) && EnforceableOn(calls, key)
    ensures PermittedCalls(calls, maxKeys, key, from, until)
            <= WithinBetween(CountedHistory(calls, maxKeys), key, from, until)
  {
    if calls != [] {
      var n := |calls| - 1;
      TimelyPrefix(calls, maxKeys);
      hide Timely, Tracks, EndsFit, AdmitHits, LastWithin;
      PermittedAreWithin(calls[..n], maxKeys, key, from, until);
      var history, r := CountedHistory(calls[..n], maxKeys), LastResult(calls, maxKeys);
      var hits, now := calls[n].hits, calls[n].now;
      var more := Stamp(hits[..r.counted], now);
      WithinGrows(history, more, key, from, until);
      if r.answer.Permitted? && key in Keys(hits) && from <= now < until {
        assert hits[..r.counted] == hits;
        var h :| h in hits && h.key == key;
        var i :| 0 <= i < |hits| && hits[i] == h;
        StampAt(hits, now, i);
        PermittedCallWithin(calls, maxKeys, i);
        WithinCounts(history, more, i, key, from, until);
      }
    }
  }

  /** The key's hits all use one bucket. */
  predicate OnBucket(calls: seq<Call>, key: Key, bucket: Bucket) {
    forall i, j :: 0 <= i < |calls| && 0 <= j < |calls[i].hits| && calls[i].hits[j].key == key ==>
      calls[i].hits[j].bucket == bucket
  }

  lemma {:induction false} BucketCounted(calls: seq<Call>, maxKeys: nat, key: Key, bucket: Bucket)
    requires OnBucket(calls, key, bucket)
    ensures OneBucket(CountedHistory(calls, maxKeys), key, bucket)
  {
    if calls != [] {
      hide LastResult;
      var n := |calls| - 1;
      BucketCounted(calls[..n], maxKeys, key, bucket);
      var counted := calls[n].hits[..LastResult(calls, maxKeys).counted];
      forall i | 0 <= i < |counted| ensures Stamp(counted, calls[n].now)[i] == Stamped(counted[i], calls[n].now) {
        StampAt(counted, calls[n].now, i);
      }
    }
  }

  lemma {:induction false} HistoryInOrder(calls: seq<Call>, maxKeys: nat, now: int)
    requires InOrder(calls) && (calls != [] ==> calls[|calls| - 1].now <= now)
    ensures Sorted(CountedHistory(calls, maxKeys))
    ensures forall i :: 0 <= i < |CountedHistory(calls, maxKeys)| ==> CountedHistory(calls, maxKeys)[i].now <= now
  {
    if calls != [] {
      hide LastResult;
      var n := |calls| - 1;
      HistoryInOrder(calls[..n], maxKeys, calls[n].now);
      var counted := calls[n].hits[..LastResult(calls, maxKeys).counted];
      forall i | 0 <= i < |counted| ensures Stamp(counted, calls[n].now)[i] == Stamped(counted[i], calls[n].now) {
        StampAt(counted, calls[n].now, i);
      }
    }
  }

  /** The key's hits all use one bucket, in calls in time order. */
  predicate OrderlyOn(calls: seq<Call>, key: Key, bucket: Bucket) {
    InOrder(calls) && AllFit(calls, I64_MAX) && OnBucket(calls, key, bucket)
  }

  lemma OrderlyEnforceable(calls: seq<Call>, key: Key, bucket: Bucket)
    requires OrderlyOn(calls, key, bucket) && bucket.attempts < U32_MAX
    ensures EnforceableOn(calls, key)
  {
  }

  /**
   * At most twice its limit of calls on a key is permitted in any interval one window
   * long, over every sequence of calls in time order, through evictions and full stores,
   * for every window that lasts and every limit below the one where counters saturate.
   */
  lemma AtMostTwice(calls: seq<Call>, maxKeys: nat, key: Key, bucket: Bucket, from: int)
    requires OrderlyOn(calls, key, bucket) && 0 < bucket.window && bucket.attempts < U32_MAX
    ensures PermittedCalls(calls, maxKeys, key, from, from + bucket.window) <= 2 * bucket.attempts
  {
    hide Timely, PermittedCalls, CountedHistory, WithinBetween, Fits, Sorted;
    var now := if calls == [] then 0 else calls[|calls| - 1].now;
    InOrderTimely(calls, maxKeys, now);
    OrderlyEnforceable(calls, key, bucket);
    PermittedAreWithin(calls, maxKeys, key, from, from + bucket.window);
    HistoryInOrder(calls, maxKeys, now);
    BucketCounted(calls, maxKeys, key, bucket);
    PerInterval(CountedHistory(calls, maxKeys), key, bucket, from);
  }

  // ---- How much gets through in one window ----------------------------------------------------------

  /** Permitted calls on `key` that the store counted in a window ending at `end`. */
  function PermittedInWindow(calls: seq<Call>, maxKeys: nat, key: Key, end: int): nat {
    if calls == [] then 0
    else
      var n := |calls| - 1;
      var windows := WindowsAfter(calls, maxKeys);
      PermittedInWindow(calls[..n], maxKeys, key, end)
      + if key in Keys(calls[n].hits) && LastResult(calls, maxKeys).answer.Permitted?
           && key in windows && windows[key].end == end
        then 1 else 0
  }

  lemma {:induction false} WindowGrows(history: seq<Stamped>, more: seq<Stamped>, key: Key, end: int)
    ensures WithinWindow(history, key, end) <= WithinWindow(history + more, key, end)
  {
    if more == [] {
      assert history + more == history;
    } else {
      var n := |more| - 1;
      WindowGrows(history, more[..n], key, end);
      assert (history + more)[..|history| + n] == history + more[..n];
    }
  }

  lemma WindowCounts(history: seq<Stamped>, more: seq<Stamped>, i: int, key: Key, end: int)
    requires 0 <= i < |more| && more[i].hit.key == key && LastWithin(history + more[..i + 1])
    requires LastWindow(history + more[..i + 1], key).value.end == end
    ensures WithinWindow(history, key, end) < WithinWindow(history + more, key, end)
  {
    WindowGrows(history, more[..i], key, end);
    var upTo := history + more[..i + 1];
    assert upTo[..|upTo| - 1] == history + more[..i];
    WindowGrows(upTo, more[i + 1..], key, end);
    assert upTo + more[i + 1..] == history + more;
  }

  /** The last hit of a call on a key. */
  lemma {:induction false} LastOn(hits: seq<Hit>, key: Key) returns (i: int)
    requires key in Keys(hits)
    ensures 0 <= i < |hits| && hits[i].key == key
    ensures forall j :: i < j < |hits| ==> hits[j].key != key
  {
    var n := |hits| - 1;
    if hits[n].key == key {
      i := n;
    } else {
      var h :| h in hits && h.key == key;
      assert h in hits[..n];
      i := LastOn(hits[..n], key);
    }
  }

  lemma {:induction false} OthersKeepWindow(history: seq<Stamped>, more: seq<Stamped>, key: Key)
    requires forall i :: 0 <= i < |more| ==> more[i].hit.key != key
    ensures LastWindow(history + more, key) == LastWindow(history, key)
  {
    if more == [] {
      assert history + more == history;
    } else {
      var n := |more| - 1;
      OthersKeepWindow(history, more[..n], key);
      assert (history + more)[..|history| + n] == history + more[..n];
    }
  }

  /** A permitted call on a key has its last hit there within its limit, in the window the store then has. */
  lemma PermittedLast(calls: seq<Call>, maxKeys: nat, key: Key) returns (i: int)
    requires calls != [] && Timely(calls, maxKeys) && AllFit(calls, I64_MAX) && EnforceableOn(calls, key)
    requires key in Keys(calls[|calls| - 1].hits) && LastResult(calls, maxKeys).answer.Permitted?
    ensures var n := |calls| - 1;
            var history := CountedHistory(calls[..n], maxKeys);
            var stamps := Stamp(calls[n].hits, calls[n].now);
            && 0 <= i < |stamps| && stamps[i].hit.key == key && LastWithin(history + stamps[..i + 1])
            && LastWindow(history + stamps[..i + 1], key) == LastWindow(history + stamps, key)
  {
    var n := |calls| - 1;
    var hits, now, history := calls[n].hits, calls[n].now, CountedHistory(calls[..n], maxKeys);
    hide Timely, LastResult, LastWithin, LastWindow, Fits, CountedHistory;
    i := LastOn(hits, key);
    PermittedCallWithin(calls, maxKeys, i);
    LastStamp(history, hits, now, key, i);
    hide Stamp;
  }

  lemma LastStamp(history: seq<Stamped>, hits: seq<Hit>, now: int, key: Key, i: int)
    requires 0 <= i < |hits| && hits[i].key == key && forall j :: i < j < |hits| ==> hits[j].key != key
    ensures var stamps := Stamp(hits, now);
            stamps[i].hit.key == key && LastWindow(history + stamps[..i + 1], key) == LastWindow(history + stamps, key)
  {
    var stamps := Stamp(hits, now);
    forall j | 0 <= j < |hits| ensures stamps[j] == Stamped(hits[j], now) { StampAt(hits, now, j); }
    hide Stamp, LastWindow;
    OthersKeepWindow(history + stamps[..i + 1], stamps[i + 1..], key);
    assert history + stamps[..i + 1] + stamps[i + 1..] == history + stamps;
  }

  lemma {:induction false} PermittedInWindowAreWithin(calls: seq<Call>, maxKeys: nat, key: Key, end: int)
    requires Timely(calls, maxKeys) && AllFit(calls, I64_MAX) && EnforceableOn(calls, key)
    ensures PermittedInWindow(calls, maxKeys, key, end) <= WithinWindow(CountedHistory(calls, maxKeys), key, end)
  {
    if calls != [] {
      var n := |calls| - 1;
      TimelyPrefix(calls, maxKeys);
      RunRemembers(calls, maxKeys);
      var windows, dropped := WindowsAfter(calls, maxKeys), DroppedAfter(calls, maxKeys);
      assert Recalled(windows, dropped, CountedHistory(calls, maxKeys), key);
      hide Timely, Tracks, EndsFit, Remembers, AdmitHits, LastWithin, LastWindow, WithinWindow;
      PermittedInWindowAreWithin(calls[..n], maxKeys, key, end);
      var history, r := CountedHistory(calls[..n], maxKeys), LastResult(calls, maxKeys);
      var hits, now := calls[n].hits, calls[n].now;
      WindowGrows(history, Stamp(hits[..r.counted], now), key, end);
      if r.answer.Permitted? && key in Keys(hits) && key in windows && windows[key].end == end {
        assert hits[..r.counted] == hits;
        var i := PermittedLast(calls, maxKeys, key);
        WindowCounts(history, Stamp(hits, now), i, key, end);
      }
    }
  }

  /**
   * No more than its limit of calls on a key is permitted in any one window, in any timely
   * run and however the store filled, for every window that lasts and every limit below
   * the one where counters saturate.
   */
  lemma AtMostPerWindow(calls: seq<Call>, maxKeys: nat, key: Key, bucket: Bucket, end: int)
    requires Timely(calls, maxKeys) && AllFit(calls, I64_MAX) && OnBucket(calls, key, bucket)
    requires 0 < bucket.window && bucket.attempts < U32_MAX
    ensures PermittedInWindow(calls, maxKeys, key, end) <= bucket.attempts
  {
    PermittedInWindowAreWithin(calls, maxKeys, key, end);
    BucketCounted(calls, maxKeys, key, bucket);
    hide Timely, PermittedInWindow, CountedHistory, WithinWindow, Fits;
    PerWindow(CountedHistory(calls, maxKeys), key, bucket, end);
  }
}
