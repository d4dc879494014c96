/** UUIDs: their text form, and the ordered generator of version 7 (RFC 9562). */
module Ids {
  import opened Results
  import opened Text

  const MAX_UNIX_MS := 0x1_0000_0000_0000 - 1

  predicate Octets(bytes: seq<int>) {
    forall i :: 0 <= i < |bytes| ==> 0 <= bytes[i] < 256
  }

  datatype Id = Id(bytes: seq<int>) {
    /** Sixteen bytes of the standard variant `10` (section 4.1 of RFC 9562). */
    predicate WellFormed() {
      |bytes| == 16 && Octets(bytes) && bytes[8] / 64 == 2
    }
    function Version(): int
      requires WellFormed()
    {
      bytes[6] / 16
    }
    function UnixMillis(): Option<int>
      requires WellFormed()
    {
      if Version() != 7 then None else Some(Value(bytes[..6]))
    }
  }

  /** The number a big-endian byte string stands for. */
  function Value(bytes: seq<int>): int {
    if |bytes| == 0 then 0 else 256 * Value(bytes[..|bytes| - 1]) + bytes[|bytes| - 1]
  }

  function BigEndian(n: int, width: nat): (bytes: seq<int>)
    ensures |bytes| == width && Octets(bytes)
    decreases width
  {
    if width == 0 then [] else BigEndian(n / 256, width - 1) + [n % 256]
  }

  function Pow256(n: nat): int {
    if n == 0 then 1 else 256 * Pow256(n - 1)
  }

  lemma {:induction false} BigEndianValue(n: int, width: nat)
    requires 0 <= n < Pow256(width)
    ensures Value(BigEndian(n, width)) == n
  {
    if width > 0 {
      BigEndianValue(n / 256, width - 1);
      var bytes := BigEndian(n, width);
      assert bytes[..width - 1] == BigEndian(n / 256, width - 1);
    }
  }

  /** Big-endian bytes sort as the numbers they stand for. */
  lemma {:induction false} ValueOrder(a: seq<int>, b: seq<int>)
    requires |a| == |b| && Octets(a) && Octets(b) && Value(a) < Value(b)
    ensures Less(a, b)
  {
    var n := |a| - 1;
    if Value(a[..n]) < Value(b[..n]) {
      ValueOrder(a[..n], b[..n]);
      LessHead(a[..n], b[..n], [a[n]], [b[n]]);
      assert a == a[..n] + [a[n]] && b == b[..n] + [b[n]];
    } else {
      ValueInjective(a[..n], b[..n]);
      assert LessAt(a, b, n);
    }
  }

  lemma {:induction false} ValueInjective(a: seq<int>, b: seq<int>)
    requires |a| == |b| && Octets(a) && Octets(b)
    requires Value(a) == Value(b)
    ensures a == b
  {
    if |a| > 0 {
      var n := |a| - 1;
      ValueInjective(a[..n], b[..n]);
      assert a == a[..n] + [a[n]] && b == b[..n] + [b[n]];
    }
  }

  // ---- Text form (section 4 of RFC 9562) ---------------------------------------------

  predicate Dash(position: int) {
    position in {8, 13, 18, 23}
  }

  /** Where the hexadecimal digit `j` of 32 stands in the text. */
  function Position(j: int): int {
    if j < 8 then j else if j < 12 then j + 1 else if j < 16 then j + 2 else if j < 20 then j + 3 else j + 4
  }

  /** Which hexadecimal digit stands at a position that is not a dash. */
  function DigitAt(position: int): int {
    if position < 8 then position
    else if position < 13 then position - 1
    else if position < 18 then position - 2
    else if position < 23 then position - 3
    else position - 4
  }

  function HexValue(c: char): Option<int> {
    if '0' <= c <= '9' then Some(c as int - '0' as int)
    else if 'a' <= c <= 'f' then Some(c as int - 'a' as int + 10)
    else if 'A' <= c <= 'F' then Some(c as int - 'A' as int + 10)
    else None
  }

  function HexDigit(n: int): char
    requires 0 <= n < 16
  {
    if n < 10 then ('0' as int + n) as char else ('a' as int + n - 10) as char
  }

  function Lower(c: char): char {
    if 'A' <= c <= 'Z' then (c as int - 'A' as int + 'a' as int) as char else c
  }

  /** 36 characters, dashes in their places and hexadecimal digits elsewhere. */
  predicate Shaped(text: string) {
    && |text| == 36
    && forall p :: 0 <= p < 36 ==> if Dash(p) then text[p] == '-' else HexValue(text[p]).Some?
  }

  function DigitOf(text: string, j: int): int
    requires Shaped(text) && 0 <= j < 32
  {
    HexValue(text[Position(j)]).value
  }

  function ByteOf(text: string, i: int): int
    requires Shaped(text) && 0 <= i < 16
  {
    16 * DigitOf(text, 2 * i) + DigitOf(text, 2 * i + 1)
  }

  /** What a text denotes: a UUID exactly when it is shaped and of the standard variant. */
  function Denoted(text: string): Option<Id> {
    if Shaped(text) then
      var id := Id(seq(16, i requires 0 <= i < 16 => ByteOf(text, i)));
      if id.bytes[8] / 64 == 2 then Some(id) else None
    else None
  }

  function Nibble(id: Id, j: int): (n: int)
    requires id.WellFormed() && 0 <= j < 32
    ensures 0 <= n < 16
  {
    if j % 2 == 0 then id.bytes[j / 2] / 16 else id.bytes[j / 2] % 16
  }

  /** The canonical text of a UUID. */
  function Canonical(id: Id): (text: string)
    requires id.WellFormed()
    ensures |text| == 36
  {
    seq(36, p requires 0 <= p < 36 => if Dash(p) then '-' else HexDigit(Nibble(id, DigitAt(p))))
  }

  lemma CanonicalShaped(id: Id)
    requires id.WellFormed()
    ensures Shaped(Canonical(id))
    ensures forall j :: 0 <= j < 32 ==> DigitOf(Canonical(id), j) == Nibble(id, j)
  {
  }

  /** Printing and parsing give the ID back. */
  lemma PrintThenParse(id: Id)
    requires id.WellFormed()
    ensures Denoted(Canonical(id)) == Some(id)
  {
    CanonicalShaped(id);
    var text := Canonical(id);
    hide Canonical, DigitOf, Shaped;
    forall i | 0 <= i < 16 ensures ByteOf(text, i) == id.bytes[i] {
      assert DigitOf(text, 2 * i) == Nibble(id, 2 * i);
      assert DigitOf(text, 2 * i + 1) == Nibble(id, 2 * i + 1);
    }
    assert seq(16, i requires 0 <= i < 16 => ByteOf(text, i)) == id.bytes;
  }

  /** Parsing and printing give the text back in lower case. */
  lemma ParseThenPrint(text: string)
    requires Denoted(text).Some?
    ensures Denoted(text).value.WellFormed()
    ensures Canonical(Denoted(text).value) == seq(36, p requires 0 <= p < 36 => Lower(text[p]))
  {
    var id := Denoted(text).value;
    DenotedBytes(text);
    forall p | 0 <= p < 36 ensures Canonical(id)[p] == Lower(text[p]) {
      if !Dash(p) { PrintsDigit(text, DigitAt(p)); }
    }
  }

  lemma DenotedBytes(text: string)
    requires Denoted(text).Some?
    ensures Shaped(text) && Denoted(text).value.WellFormed()
    ensures forall i :: 0 <= i < 16 ==> Denoted(text).value.bytes[i] == ByteOf(text, i)
  {
    assert forall i :: 0 <= i < 16 ==> 0 <= ByteOf(text, i) < 256;
  }

  /** Case does not matter to what a text denotes. */
  lemma LowerDenotes(text: string)
    ensures Denoted(seq(|text|, i requires 0 <= i < |text| => Lower(text[i]))) == Denoted(text)
  {
    var lower := seq(|text|, i requires 0 <= i < |text| => Lower(text[i]));
    assert forall i :: 0 <= i < |text| ==> HexValue(lower[i]) == HexValue(text[i]);
    assert forall i :: 0 <= i < |text| ==> (lower[i] == '-' <==> text[i] == '-');
    if Shaped(text) {
      assert Shaped(lower);
      assert forall j :: 0 <= j < 32 ==> DigitOf(lower, j) == DigitOf(text, j);
      hide DigitOf;
      assert seq(16, i requires 0 <= i < 16 => ByteOf(lower, i)) == seq(16, i requires 0 <= i < 16 => ByteOf(text, i));
    } else if |text| == 36 {
      var p :| 0 <= p < 36 && !(if Dash(p) then text[p] == '-' else HexValue(text[p]).Some?);
      assert if Dash(p) then lower[p] != '-' else HexValue(lower[p]).None?;
    }
  }

  lemma PrintsDigit(text: string, j: int)
    requires Denoted(text).Some? && Denoted(text).value.WellFormed() && 0 <= j < 32
    ensures HexDigit(Nibble(Denoted(text).value, j)) == Lower(text[Position(j)])
  {
    DenotedBytes(text);
    hide Denoted;
    var i := j / 2;
    assert Denoted(text).value.bytes[i] == ByteOf(text, i);
    assert j == 2 * i || j == 2 * i + 1;
    assert Nibble(Denoted(text).value, j) == DigitOf(text, j);
  }

  /** IDs that sort as bytes sort the same way as text. */
  lemma TextFollowsBytes(a: Id, b: Id)
    requires a.WellFormed() && b.WellFormed() && Less(a.bytes, b.bytes)
    ensures TextLess(Canonical(a), Canonical(b))
  {
    var k: nat :| LessAt(a.bytes, b.bytes, k);
    var j := if a.bytes[k] / 16 < b.bytes[k] / 16 then 2 * k else 2 * k + 1;
    assert Nibble(a, j) < Nibble(b, j);
    var ta, tb := Codes(Canonical(a)), Codes(Canonical(b));
    var p := Position(j);
    assert DigitAt(p) == j && !Dash(p);
    forall q | 0 <= q < p ensures ta[q] == tb[q] {
      if !Dash(q) {
        var d := DigitAt(q);
        assert 0 <= d < j;
        assert d / 2 < k ==> a.bytes[..k][d / 2] == b.bytes[..k][d / 2];
        assert Nibble(a, d) == Nibble(b, d);
      }
    }
    assert ta[..p] == tb[..p];
    assert LessAt(ta, tb, p);
  }

  // ---- The parser and the printer as they run ----------------------------------------

  predicate DashesInPlace(text: string) {
    |text| == 36 && text[8] == '-' && text[13] == '-' && text[18] == '-' && text[23] == '-'
  }

  /** The 32 characters that are not dashes, in order. */
  method Compact(text: string) returns (compact: array<char>)
    requires |text| == 36
    ensures fresh(compact) && compact.Length == 32
    ensures forall j :: 0 <= j < 32 ==> compact[j] == text[Position(j)]
  {
    compact := new char[32](_ => '0');
    var n := 0;
    for i := 0 to 36
      invariant n == (if i < 9 then i else if i < 14 then i - 1 else if i < 19 then i - 2
                      else if i < 24 then i - 3 else i - 4)
      invariant forall j :: 0 <= j < n ==> compact[j] == text[Position(j)]
    {
      if i in {8, 13, 18, 23} { continue; }
      compact[n] := text[i];
      n := n + 1;
    }
  }

  lemma ShapedByDigits(text: string)
    requires |text| == 36
    ensures Shaped(text) <==> DashesInPlace(text) && forall j :: 0 <= j < 32 ==> HexValue(text[Position(j)]).Some?
  {
    if DashesInPlace(text) && forall j :: 0 <= j < 32 ==> HexValue(text[Position(j)]).Some? {
      forall p | 0 <= p < 36 && !Dash(p) ensures HexValue(text[p]).Some? {
        assert Position(DigitAt(p)) == p;
      }
    }
    if Shaped(text) {
      assert Dash(8) && Dash(13) && Dash(18) && Dash(23);
      forall j | 0 <= j < 32 ensures HexValue(text[Position(j)]).Some? {
        assert !Dash(Position(j));
      }
    }
  }

  /** Pairs of hexadecimal digits, high one first. */
  method PairUp(compact: array<char>) returns (r: Result<seq<int>>)
    requires compact.Length == 32
    ensures r.Ok? <==> forall j :: 0 <= j < 32 ==> HexValue(compact[j]).Some?
    ensures r.Err? ==> r.code == "id.invalid"
    ensures r.Ok? ==> |r.value| == 16
    ensures r.Ok? ==> forall k :: 0 <= k < 16 ==>
                HexValue(compact[2 * k]).Some? && HexValue(compact[2 * k + 1]).Some?
                && r.value[k] == 16 * HexValue(compact[2 * k]).value + HexValue(compact[2 * k + 1]).value
  {
    var bytes := new int[16](_ => 0);
    for i := 0 to 16
      invariant forall j :: 0 <= j < 2 * i ==> HexValue(compact[j]).Some?
      invariant forall k :: 0 <= k < i ==>
                  HexValue(compact[2 * k]).Some? && HexValue(compact[2 * k + 1]).Some?
                  && bytes[k] == 16 * HexValue(compact[2 * k]).value + HexValue(compact[2 * k + 1]).value
    {
      var high, low := HexValue(compact[2 * i]), HexValue(compact[2 * i + 1]);
      if high.None? || low.None? { return Err("id.invalid"); }
      bytes[i] := high.value * 16 + low.value;
    }
    return Ok(bytes[..]);
  }

  method Parse(text: string) returns (r: Result<Id>)
    ensures r == match Denoted(text) case Some(id) => Ok(id) case None => Err("id.invalid")
  {
    if |text| != 36 || text[8] != '-' || text[13] != '-' || text[18] != '-' || text[23] != '-' {
      return Err("id.invalid");
    }
    ShapedByDigits(text);
    var compact := Compact(text);
    var pairs := PairUp(compact);
    if pairs.Err? { return Err("id.invalid"); }
    forall k | 0 <= k < 16 ensures pairs.value[k] == ByteOf(text, k) {
      assert compact[2 * k] == text[Position(2 * k)] && compact[2 * k + 1] == text[Position(2 * k + 1)];
    }
    assert pairs.value == seq(16, i requires 0 <= i < 16 => ByteOf(text, i));
    if pairs.value[8] / 64 != 2 { return Err("id.invalid"); }
    return Ok(Id(pairs.value));
  }

  /** Characters printed before byte `i`, and before the dash in front of it. */
  function Printed(i: nat): nat {
    2 * i + if i <= 4 then 0 else if i <= 6 then 1 else if i <= 8 then 2 else if i <= 10 then 3 else 4
  }

  predicate DashBefore(i: nat) {
    i in {4, 6, 8, 10}
  }

  lemma PrintsByte(id: Id, i: nat)
    requires id.WellFormed() && i < 16
    ensures var n := Printed(i) + if DashBefore(i) then 1 else 0;
            && Printed(i + 1) == n + 2 <= 36
            && (DashBefore(i) ==> Canonical(id)[Printed(i)] == '-')
            && Canonical(id)[n] == HexDigit(id.bytes[i] / 16) && Canonical(id)[n + 1] == HexDigit(id.bytes[i] % 16)
  {
    var n := Printed(i) + if DashBefore(i) then 1 else 0;
    assert !Dash(n) && !Dash(n + 1) && DigitAt(n) == 2 * i && DigitAt(n + 1) == 2 * i + 1;
  }

  method Print(id: Id) returns (text: string)
    requires id.WellFormed()
    ensures text == Canonical(id)
  {
    hide Canonical;
    text := "";
    for i := 0 to 16
      invariant |text| == Printed(i) <= 36
      invariant forall p :: 0 <= p < |text| ==> text[p] == Canonical(id)[p]
    {
      PrintsByte(id, i);
      if i in {4, 6, 8, 10} { text := text + "-"; }
      text := text + [HexDigit(id.bytes[i] / 16)] + [HexDigit(id.bytes[i] % 16)];
    }
  }

  // ---- The generator (sections 5.7 and 6.2 of RFC 9562) --------------------------------

  datatype Stamp = Stamp(ms: int, counter: int) {
    predicate Bounded() {
      0 <= ms <= MAX_UNIX_MS && 0 <= counter <= 4095
    }
    predicate Below(other: Stamp) {
      ms < other.ms || (ms == other.ms && counter < other.counter)
    }
  }

  /** One attempt: the clock's reading (negative before 1970) and what entropy gives. */
  datatype Attempt = Attempt(ms: int, entropy: Option<seq<int>>) {
    predicate Valid() {
      entropy.Some? ==> |entropy.value| == 10 && Octets(entropy.value)
    }
  }

  predicate BoundedState(state: Option<Stamp>) {
    state.Some? ==> state.value.Bounded()
  }

  /** Packs time, counter and eight random bytes; version and variant overwrite two of them. */
  function Pack(stamp: Stamp, suffix: seq<int>): (id: Id)
    requires stamp.Bounded() && |suffix| == 8 && Octets(suffix)
    ensures id.WellFormed()
  {
    Id(BigEndian(stamp.ms, 6) + [0x70 + stamp.counter / 256, stamp.counter % 256, suffix[0] % 64 + 128] + suffix[1..])
  }

  /** A packed ID is of version 7 and carries its stamp back. */
  lemma PackCarries(stamp: Stamp, suffix: seq<int>)
    requires stamp.Bounded() && |suffix| == 8 && Octets(suffix)
    ensures Pack(stamp, suffix).Version() == 7
    ensures StampOf(Pack(stamp, suffix)) == stamp
  {
    Pow256Six();
    BigEndianValue(stamp.ms, 6);
    hide BigEndian, Value, Pow256;
    var id := Pack(stamp, suffix);
    assert id.bytes[..6] == BigEndian(stamp.ms, 6);
    assert id.bytes[6] == 0x70 + stamp.counter / 256 && id.bytes[7] == stamp.counter % 256;
  }

  lemma Pow256Six()
    ensures Pow256(6) == MAX_UNIX_MS + 1
  {
    assert Pow256(2) == 65536;
    assert Pow256(4) == 65536 * 65536;
  }

  /** The time and counter an ID carries. */
  function StampOf(id: Id): Stamp
    requires id.WellFormed()
  {
    Stamp(Value(id.bytes[..6]), id.bytes[6] % 16 * 256 + id.bytes[7])
  }

  predicate Fresh(state: Option<Stamp>, ms: int) {
    state.None? || ms > state.value.ms
  }

  /** The stamp an attempt would use, or why there is none. */
  function NextStamp(state: Option<Stamp>, attempt: Attempt): (r: Result<Stamp>)
    requires BoundedState(state) && attempt.Valid()
    ensures r.Ok? ==> r.value.Bounded() && attempt.entropy.Some?
  {
    if attempt.ms < 0 || attempt.ms > MAX_UNIX_MS then Err("id.time_range")
    else if !Fresh(state, attempt.ms) && state.value.counter == 4095 then Err("id.exhausted")
    else if attempt.entropy.None? then Err("id.entropy")
    else if Fresh(state, attempt.ms) then Ok(Stamp(attempt.ms, Seed(attempt.entropy.value)))
    else Ok(Stamp(state.value.ms, state.value.counter + 1))
  }

  /** The low eleven bits of the first two random bytes. */
  function Seed(random: seq<int>): int
    requires |random| == 10 && Octets(random)
  {
    (random[0] * 256 + random[1]) % 2048
  }

  function Issue(state: Option<Stamp>, attempt: Attempt): (r: Result<Id>)
    requires BoundedState(state) && attempt.Valid()
    ensures r.Ok? ==> r.value.WellFormed() && r.value.Version() == 7
    ensures r.Ok? ==> NextStamp(state, attempt) == Ok(StampOf(r.value))
  {
    match NextStamp(state, attempt)
    case Ok(stamp) => PackCarries(stamp, attempt.entropy.value[2..]); Ok(Pack(stamp, attempt.entropy.value[2..]))
    case Err(code) => Err(code)
  }

  function Advance(state: Option<Stamp>, attempt: Attempt): (next: Option<Stamp>)
    requires BoundedState(state) && attempt.Valid()
    ensures BoundedState(next)
  {
    match NextStamp(state, attempt)
    case Ok(stamp) => Some(stamp)
    case Err(_) => state
  }

  /**
   * What one call answers: a time out of range, then a spent counter, then missing entropy
   * refuse it; otherwise the ID carries 62 random bits and the next counter, or a random
   * one of eleven bits when the millisecond is fresh.
   */
  lemma IssuesExactly(state: Option<Stamp>, attempt: Attempt)
    requires BoundedState(state) && attempt.Valid()
    ensures var r := Issue(state, attempt);
            var inRange, newer := 0 <= attempt.ms < 0x1_0000_0000_0000, state.None? || attempt.ms > state.value.ms;
            && (r == Err("id.time_range") <==> !inRange)
            && (r == Err("id.exhausted") <==> inRange && !newer && state.value.counter == 4095)
            && (r == Err("id.entropy") <==>
                  inRange && (newer || state.value.counter < 4095) && attempt.entropy.None?)
            && (r.Err? ==>
                  r.code in {"id.time_range", "id.exhausted", "id.entropy"} && Advance(state, attempt) == state)
            && (r.Ok? ==>
                  && attempt.entropy.Some? && Advance(state, attempt) == Some(StampOf(r.value))
                  && var random, stamp := attempt.entropy.value, StampOf(r.value);
                     && r.value.bytes[8] % 64 == random[2] % 64 && r.value.bytes[9..] == random[3..]
                     && stamp == (if newer then Stamp(attempt.ms, (random[0] * 256 + random[1]) % 2048)
                                  else Stamp(state.value.ms, state.value.counter + 1)))
  {
    hide BigEndian;
  }

  class Generator {
    var state: Option<Stamp>

    constructor ()
      ensures state == None
    {
      state := None;
    }

    method NewId(attempt: Attempt) returns (r: Result<Id>)
      requires BoundedState(state) && attempt.Valid()
      modifies this
      ensures r == Issue(old(state), attempt)
      ensures state == Advance(old(state), attempt)
    {
      hide Pack;
      if attempt.ms < 0 { return Err("id.time_range"); }
      if attempt.ms > 0xFFFF_FFFF_FFFF { return Err("id.time_range"); }
      var ms := attempt.ms;
      var newer := state.None? || ms > state.value.ms;
      var counter := 0;
      if !newer {
        ms := state.value.ms;
        if state.value.counter == 4095 { return Err("id.exhausted"); }
        counter := state.value.counter + 1;
      }
      if attempt.entropy.None? { return Err("id.entropy"); }
      var random := attempt.entropy.value;
      if newer { counter := (random[0] * 256 + random[1]) % 2048; }
      r := Ok(Pack(Stamp(ms, counter), random[2..]));
      state := Some(Stamp(ms, counter));
    }
  }

  // ---- Every run of one generator -----------------------------------------------------

  predicate ValidRun(attempts: seq<Attempt>) {
    forall i :: 0 <= i < |attempts| ==> attempts[i].Valid()
  }

  function Outcomes(state: Option<Stamp>, attempts: seq<Attempt>): (out: seq<Result<Id>>)
    requires BoundedState(state) && ValidRun(attempts)
    ensures |out| == |attempts|
    ensures forall i :: 0 <= i < |out| && out[i].Ok? ==> out[i].value.WellFormed() && out[i].value.Version() == 7
    decreases |attempts|
  {
    if attempts == [] then []
    else [Issue(state, attempts[0])] + Outcomes(Advance(state, attempts[0]), attempts[1..])
  }

  /** IDs of version 7 sort as the stamps they carry. */
  lemma StampsOrderBytes(a: Id, b: Id)
    requires a.WellFormed() && b.WellFormed() && a.Version() == 7 && b.Version() == 7
    requires StampOf(a).Below(StampOf(b))
    ensures Less(a.bytes, b.bytes)
  {
    var headA, headB := a.bytes[..6], b.bytes[..6];
    assert a.bytes == headA + a.bytes[6..] && b.bytes == headB + b.bytes[6..];
    if Value(headA) < Value(headB) {
      ValueOrder(headA, headB);
      LessHead(headA, headB, a.bytes[6..], b.bytes[6..]);
    } else {
      ValueInjective(headA, headB);
      var k := if a.bytes[6] < b.bytes[6] then 6 else 7;
      assert a.bytes[..k] == b.bytes[..k] by {
        assert a.bytes[..7] == headA + [a.bytes[6]] && b.bytes[..7] == headB + [b.bytes[6]];
      }
      assert LessAt(a.bytes, b.bytes, k);
    }
  }

  /** Whatever the clock and entropy do, a later ID carries a later stamp than the state before it. */
  lemma {:induction false} StampsRise(state: Option<Stamp>, attempts: seq<Attempt>, j: int)
    requires BoundedState(state) && ValidRun(attempts) && 0 <= j < |attempts|
    requires state.Some? && Outcomes(state, attempts)[j].Ok?
    ensures state.value.Below(StampOf(Outcomes(state, attempts)[j].value))
    decreases |attempts|
  {
    if j > 0 {
      StampsRise(Advance(state, attempts[0]), attempts[1..], j - 1);
    }
  }

  /**
   * All IDs one generator returns strictly increase, as bytes and as text, across
   * clock rollback and interleaved failures.
   */
  lemma {:induction false} RunIncreases(state: Option<Stamp>, attempts: seq<Attempt>, i: int, j: int)
    requires BoundedState(state) && ValidRun(attempts) && 0 <= i < j < |attempts|
    requires Outcomes(state, attempts)[i].Ok? && Outcomes(state, attempts)[j].Ok?
    ensures Less(Outcomes(state, attempts)[i].value.bytes, Outcomes(state, attempts)[j].value.bytes)
    ensures TextLess(Canonical(Outcomes(state, attempts)[i].value), Canonical(Outcomes(state, attempts)[j].value))
    decreases |attempts|
  {
    var next := Advance(state, attempts[0]);
    if i > 0 {
      RunIncreases(next, attempts[1..], i - 1, j - 1);
    } else {
      StampsRise(next, attempts[1..], j - 1);
      var a, b := Outcomes(state, attempts)[0].value, Outcomes(state, attempts)[j].value;
      assert b == Outcomes(next, attempts[1..])[j - 1].value;
      StampsOrderBytes(a, b);
      TextFollowsBytes(a, b);
    }
  }

  /** A refused attempt changes nothing: the run goes on as if it had not been made. */
  lemma RefusalChangesNothing(state: Option<Stamp>, attempt: Attempt, rest: seq<Attempt>)
    requires BoundedState(state) && attempt.Valid() && ValidRun(rest)
    requires Issue(state, attempt).Err?
    ensures Outcomes(state, [attempt] + rest) == [Issue(state, attempt)] + Outcomes(state, rest)
  {
    assert ([attempt] + rest)[1..] == rest;
  }

  /** An ID tells the millisecond it was issued for: the reading, or the last one when time stood still. */
  lemma MillisRecovered(state: Option<Stamp>, attempt: Attempt)
    requires BoundedState(state) && attempt.Valid() && Issue(state, attempt).Ok?
    ensures Issue(state, attempt).value.UnixMillis()
         == Some(if Fresh(state, attempt.ms) then attempt.ms else state.value.ms)
  {
  }

  /** Counters left in the current millisecond all turn into IDs. */
  lemma {:induction false} CountersLast(state: Option<Stamp>, attempts: seq<Attempt>, i: int)
    requires BoundedState(state) && state.Some? && ValidRun(attempts) && 0 <= i < |attempts|
    requires state.value.counter + |attempts| <= 4095
    requires forall k :: 0 <= k < |attempts| ==> 0 <= attempts[k].ms <= state.value.ms && attempts[k].entropy.Some?
    ensures Outcomes(state, attempts)[i].Ok?
    decreases |attempts|
  {
    if i > 0 {
      CountersLast(Advance(state, attempts[0]), attempts[1..], i - 1);
    }
  }

  /** Each fresh millisecond yields at least 2049 IDs, even if the clock falls back meanwhile. */
  lemma FreshMillisecondYields(state: Option<Stamp>, attempts: seq<Attempt>, i: int)
    requires BoundedState(state) && ValidRun(attempts) && 0 <= i < |attempts| <= 2049
    requires forall k :: 0 <= k < |attempts| ==> 0 <= attempts[k].ms <= attempts[0].ms && attempts[k].entropy.Some?
    requires attempts[0].ms <= MAX_UNIX_MS && Fresh(state, attempts[0].ms)
    ensures Outcomes(state, attempts)[i].Ok?
  {
    hide Pack, BigEndian, StampOf, Value, Canonical;
    var next := Advance(state, attempts[0]);
    assert next.value.counter <= 2047;
    if i > 0 {
      CountersLast(next, attempts[1..], i - 1);
    }
  }
}
