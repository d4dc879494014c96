/** Byte and character order, and decimal text of fixed width. */
module Text {
  // ---- Lexicographic order --------------------------------------------------------

  /** `a` and `b` agree before position `k`, where `b` is larger or `a` has ended. */
  ghost predicate LessAt(a: seq<int>, b: seq<int>, k: nat) {
    && k <= |a| && k < |b|
    && a[..k] == b[..k]
    && (k == |a| || a[k] < b[k])
  }

  ghost predicate Less(a: seq<int>, b: seq<int>) {
    exists k :: LessAt(a, b, k)
  }

  function Codes(s: string): (codes: seq<int>)
    ensures |codes| == |s|
    ensures forall i :: 0 <= i < |s| ==> codes[i] == s[i] as int
  {
    seq(|s|, i requires 0 <= i < |s| => s[i] as int)
  }

  ghost predicate TextLess(a: string, b: string) {
    Less(Codes(a), Codes(b))
  }

  lemma LessIrreflexive(a: seq<int>)
    ensures !Less(a, a)
  {
  }

  lemma LessTransitive(a: seq<int>, b: seq<int>, c: seq<int>)
    requires Less(a, b) && Less(b, c)
    ensures Less(a, c)
  {
    var j: nat :| LessAt(a, b, j);
    var k: nat :| LessAt(b, c, k);
    var m := if j < k then j else k;
    assert a[..m] == a[..j][..m] == b[..m] == b[..k][..m] == c[..m];
    assert LessAt(a, c, m);
  }

  lemma TakeAgrees(a: seq<int>, b: seq<int>, k: nat)
    requires k <= |a| && k <= |b| && a[..k] == b[..k]
    ensures forall i :: 0 <= i < k ==> a[i] == b[i]
  {
    assert forall i :: 0 <= i < k ==> a[i] == a[..k][i] && b[i] == b[..k][i];
  }

  /** The first place where two strings part decides their order. */
  lemma LessDecided(a: seq<int>, b: seq<int>, k: nat)
    requires k <= |a| && k <= |b| && a[..k] == b[..k]
    requires k == |a| || k == |b| || a[k] != b[k]
    ensures Less(a, b) <==> k < |b| && (k == |a| || a[k] < b[k])
  {
    TakeAgrees(a, b, k);
    if Less(a, b) {
      var j: nat :| LessAt(a, b, j);
      TakeAgrees(a, b, j);
    }
    if k < |b| && (k == |a| || a[k] < b[k]) {
      assert LessAt(a, b, k);
    }
  }

  /** Of two strings of one length, one is the smaller unless they are equal. */
  lemma LessTotal(a: seq<int>, b: seq<int>)
    requires |a| == |b| && a != b
    ensures Less(a, b) || Less(b, a)
  {
    var k := 0;
    while k < |a| && a[k] == b[k]
      invariant k <= |a| && a[..k] == b[..k]
    {
      k := k + 1;
    }
    assert a[..|a|] == a && b[..|b|] == b;
    LessDecided(a, b, k);
    LessDecided(b, a, k);
  }

  /** The order, decided by looking for the first difference. */
  method Precedes(a: seq<int>, b: seq<int>) returns (r: bool)
    ensures r <==> Less(a, b)
  {
    var k := 0;
    while k < |a| && k < |b| && a[k] == b[k]
      invariant k <= |a| && k <= |b| && a[..k] == b[..k]
    {
      k := k + 1;
    }
    r := k < |b| && (k == |a| || a[k] < b[k]);
    LessDecided(a, b, k);
  }

  /** A smaller prefix decides whatever follows it. */
  lemma LessHead(a: seq<int>, b: seq<int>, x: seq<int>, y: seq<int>)
    requires |a| == |b| && Less(a, b)
    ensures Less(a + x, b + y)
  {
    var k: nat :| LessAt(a, b, k);
    assert (a + x)[..k] == a[..k] && (b + y)[..k] == b[..k];
    assert LessAt(a + x, b + y, k);
  }

  /** After a common prefix the rest decides. */
  lemma LessTail(p: seq<int>, x: seq<int>, y: seq<int>)
    requires Less(x, y)
    ensures Less(p + x, p + y)
  {
    var k: nat :| LessAt(x, y, k);
    assert (p + x)[..|p| + k] == p + x[..k] && (p + y)[..|p| + k] == p + y[..k];
    assert LessAt(p + x, p + y, |p| + k);
  }

  lemma CodesConcat(a: string, b: string)
    ensures Codes(a + b) == Codes(a) + Codes(b)
  {
  }

  lemma TextLessHead(a: string, b: string, x: string, y: string)
    requires |a| == |b| && TextLess(a, b)
    ensures TextLess(a + x, b + y)
  {
    CodesConcat(a, x);
    CodesConcat(b, y);
    LessHead(Codes(a), Codes(b), Codes(x), Codes(y));
  }

  lemma TextLessTail(p: string, x: string, y: string)
    requires TextLess(x, y)
    ensures TextLess(p + x, p + y)
  {
    CodesConcat(p, x);
    CodesConcat(p, y);
    LessTail(Codes(p), Codes(x), Codes(y));
  }

  /** Two fields: the first decides, or is the same text and the second decides. */
  lemma TextLessPair(a: string, b: string, x: string, y: string)
    requires |a| == |b|
    requires TextLess(a, b) || (a == b && TextLess(x, y))
    ensures TextLess(a + x, b + y)
  {
    if a == b && TextLess(x, y) {
      TextLessTail(a, x, y);
    } else {
      TextLessHead(a, b, x, y);
    }
  }

  // ---- Decimal text ------------------------------------------------------------------

  function Digit(n: int): char
    requires 0 <= n <= 9
  {
    ('0' as int + n) as char
  }

  function Decimal(n: nat): string {
    if n < 10 then [Digit(n)] else Decimal(n / 10) + [Digit(n % 10)]
  }

  function Zeros(n: int): string {
    if n <= 0 then "" else "0" + Zeros(n - 1)
  }

  /** Zero padding to a minimum width; a minus sign counts towards the width. */
  function Pad(n: int, width: nat): string {
    if n >= 0 then Zeros(width - |Decimal(n)|) + Decimal(n)
    else "-" + Zeros(width - 1 - |Decimal(-n)|) + Decimal(-n)
  }

  function Pow10(n: nat): nat {
    if n == 0 then 1 else 10 * Pow10(n - 1)
  }

  /** The last `width` decimal digits of `n`. */
  function Fixed(n: nat, width: nat): (text: string)
    ensures |text| == width
  {
    if width == 0 then "" else Fixed(n / 10, width - 1) + [Digit(n % 10)]
  }

  lemma {:induction false} FixedZero(width: nat)
    ensures Fixed(0, width) == Zeros(width)
  {
    if width > 0 {
      FixedZero(width - 1);
      ZerosSnoc(width - 1);
    }
  }

  lemma {:induction false} ZerosSnoc(n: nat)
    ensures Zeros(n) + "0" == "0" + Zeros(n)
  {
    if n > 0 {
      ZerosSnoc(n - 1);
      assert Zeros(n) + "0" == "0" + (Zeros(n - 1) + "0");
    }
  }

  /** A number that fits its width is padded to exactly that width. */
  lemma {:induction false} PadIsFixed(n: nat, width: nat)
    requires 0 < width && n < Pow10(width)
    ensures Pad(n, width) == Fixed(n, width)
    ensures |Decimal(n)| <= width
  {
    if n < 10 {
      assert n / 10 == 0 && n % 10 == n;
      FixedZero(width - 1);
      ZerosLength(width - 1);
    } else {
      assert width > 1;
      assert n / 10 < Pow10(width - 1);
      PadIsFixed(n / 10, width - 1);
      assert Pad(n, width) == Pad(n / 10, width - 1) + [Digit(n % 10)];
    }
  }

  lemma {:induction false} ZerosLength(n: nat)
    ensures |Zeros(n)| == n
  {
    if n > 0 { ZerosLength(n - 1); }
  }

  /** Fixed-width decimals sort as numbers. */
  lemma {:induction false} FixedOrder(a: nat, b: nat, width: nat)
    requires a < b < Pow10(width)
    ensures TextLess(Fixed(a, width), Fixed(b, width))
  {
    var x, y := Fixed(a / 10, width - 1), Fixed(b / 10, width - 1);
    if a / 10 < b / 10 {
      FixedOrder(a / 10, b / 10, width - 1);
    } else {
      assert a / 10 == b / 10 && a % 10 < b % 10;
      assert LessAt(Codes([Digit(a % 10)]), Codes([Digit(b % 10)]), 0);
    }
    TextLessPair(x, y, [Digit(a % 10)], [Digit(b % 10)]);
  }

  /** A padded field in front of more text, ordered by the number and then the text. */
  lemma FieldOrder(width: nat, a: nat, b: nat, x: string, y: string)
    requires 0 < width && a < Pow10(width) && b < Pow10(width)
    requires a < b || (a == b && TextLess(x, y))
    ensures TextLess(Pad(a, width) + x, Pad(b, width) + y)
    ensures |Pad(a, width)| == width
  {
    PadIsFixed(a, width);
    PadIsFixed(b, width);
    if a < b { FixedOrder(a, b, width); }
    TextLessPair(Pad(a, width), Pad(b, width), x, y);
  }

  predicate Digits(s: string) {
    forall i :: 0 <= i < |s| ==> '0' <= s[i] <= '9'
  }

  /** The number decimal digits stand for. */
  function Number(s: string): int {
    if s == "" then 0 else 10 * Number(s[..|s| - 1]) + s[|s| - 1] as int - '0' as int
  }

  lemma {:induction false} FixedReads(n: nat, width: nat)
    requires n < Pow10(width)
    ensures Digits(Fixed(n, width)) && Number(Fixed(n, width)) == n
  {
    if width > 0 {
      FixedReads(n / 10, width - 1);
      var text := Fixed(n, width);
      assert text[..width - 1] == Fixed(n / 10, width - 1);
    }
  }

  /** A padded number is its width in digits and reads as itself. */
  lemma PadReads(n: nat, width: nat)
    requires 0 < width && n < Pow10(width)
    ensures var text := Pad(n, width);
            |text| == width && Digits(text) && Number(text) == n
  {
    PadIsFixed(n, width);
    FixedReads(n, width);
  }

  lemma {:induction false} Pow10Grows(a: nat, b: nat)
    requires a <= b
    ensures Pow10(a) <= Pow10(b)
    decreases b
  {
    if a < b { Pow10Grows(a, b - 1); }
  }

  /** A number's decimal text starts with its highest digit. */
  lemma {:induction false} DecimalShape(n: nat, width: nat)
    requires 0 < width && n < Pow10(width)
    ensures var text := Decimal(n);
            Digits(text) && 1 <= |text| <= width && (n > 0 ==> text[0] != '0')
  {
    if n >= 10 {
      assert Pow10(width) == 10 * Pow10(width - 1) && Pow10(0) == 1;
      DecimalShape(n / 10, width - 1);
    }
  }

  lemma DecimalSnoc(n: nat, last: int)
    requires 0 < n && 0 <= last <= 9
    ensures Decimal(10 * n + last) == Decimal(n) + [Digit(last)]
  {
  }

  /** Digits that do not start with a zero are the decimal text of a number. */
  lemma {:induction false} NumberPrints(s: string)
    requires Digits(s) && s != "" && s[0] != '0'
    ensures 0 < Number(s) < Pow10(|s|) && Decimal(Number(s)) == s
  {
    var n, last := |s| - 1, s[|s| - 1] as int - '0' as int;
    assert s == s[..n] + [Digit(last)];
    assert Pow10(|s|) == 10 * Pow10(n) && Number(s) == 10 * Number(s[..n]) + last;
    if n > 0 {
      hide Decimal, Number, Pow10;
      NumberPrints(s[..n]);
      DecimalSnoc(Number(s[..n]), last);
    }
  }
}
