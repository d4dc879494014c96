/** Canonical unpadded base64 (RFC 4648), password records and token secrets. */
module Codecs {
  import opened Results

  type Bytes = seq<int>

  predicate Octets(bytes: Bytes) {
    forall i :: 0 <= i < |bytes| ==> 0 <= bytes[i] < 256
  }

  // ---- Base64 without padding ---------------------------------------------------------

  /** The standard alphabet of section 4 and the URL-safe one of section 5. */
  datatype Alphabet = Standard | UrlSafe

  function Symbol(a: Alphabet, n: int): char
    requires 0 <= n < 64
  {
    if n < 26 then ('A' as int + n) as char
    else if n < 52 then ('a' as int + n - 26) as char
    else if n < 62 then ('0' as int + n - 52) as char
    else if n == 62 then (if a == Standard then '+' else '-')
    else (if a == Standard then '/' else '_')
  }

  function Sextet(a: Alphabet, c: char): (n: Option<int>)
    ensures n.Some? ==> 0 <= n.value < 64 && Symbol(a, n.value) == c
  {
    if 'A' <= c <= 'Z' then Some(c as int - 'A' as int)
    else if 'a' <= c <= 'z' then Some(c as int - 'a' as int + 26)
    else if '0' <= c <= '9' then Some(c as int - '0' as int + 52)
    else if c == (if a == Standard then '+' else '-') then Some(62)
    else if c == (if a == Standard then '/' else '_') then Some(63)
    else None
  }

  lemma SymbolSextet(a: Alphabet, n: int)
    requires 0 <= n < 64
    ensures Sextet(a, Symbol(a, n)) == Some(n)
  {
  }

  function Encode(a: Alphabet, b: Bytes): string
    requires Octets(b)
  {
    if |b| == 0 then ""
    else if |b| == 1 then [Symbol(a, b[0] / 4), Symbol(a, b[0] % 4 * 16)]
    else if |b| == 2 then
      [Symbol(a, b[0] / 4), Symbol(a, b[0] % 4 * 16 + b[1] / 16), Symbol(a, b[1] % 16 * 4)]
    else
      [Symbol(a, b[0] / 4), Symbol(a, b[0] % 4 * 16 + b[1] / 16), Symbol(a, b[1] % 16 * 4 + b[2] / 64),
       Symbol(a, b[2] % 64)] + Encode(a, b[3..])
  }

  /** Refuses foreign characters, a lone last character and nonzero bits after the last byte. */
  function Decode(a: Alphabet, t: string): (b: Option<Bytes>)
    ensures b.Some? ==> Octets(b.value)
  {
    if |t| == 0 then Some([])
    else if |t| == 1 then None
    else if Sextet(a, t[0]).None? || Sextet(a, t[1]).None? then None
    else
      var v0, v1 := Sextet(a, t[0]).value, Sextet(a, t[1]).value;
      if |t| == 2 then (if v1 % 16 == 0 then Some([v0 * 4 + v1 / 16]) else None)
      else if Sextet(a, t[2]).None? then None
      else
        var v2 := Sextet(a, t[2]).value;
        if |t| == 3 then
          (if v2 % 4 == 0 then Some([v0 * 4 + v1 / 16, v1 % 16 * 16 + v2 / 4]) else None)
        else if Sextet(a, t[3]).None? then None
        else
          match Decode(a, t[4..])
          case None => None
          case Some(rest) =>
            Some([v0 * 4 + v1 / 16, v1 % 16 * 16 + v2 / 4, v2 % 4 * 64 + Sextet(a, t[3]).value] + rest)
  }

  function EncodedLength(n: nat): nat {
    (4 * n + 2) / 3
  }

  lemma {:induction false} EncodeLength(a: Alphabet, b: Bytes)
    requires Octets(b)
    ensures |Encode(a, b)| == EncodedLength(|b|)
  {
    if |b| > 2 { EncodeLength(a, b[3..]); }
  }

  lemma {:induction false} DecodeEncoded(a: Alphabet, b: Bytes)
    requires Octets(b)
    ensures Decode(a, Encode(a, b)) == Some(b)
  {
    if |b| == 0 {
    } else if |b| < 3 {
      DecodeTail(a, b);
    } else {
      DecodeGroup(a, b);
      DecodeEncoded(a, b[3..]);
      assert b == [b[0], b[1], b[2]] + b[3..];
    }
  }

  lemma DecodeTail(a: Alphabet, b: Bytes)
    requires Octets(b) && 0 < |b| < 3
    ensures Decode(a, Encode(a, b)) == Some(b)
  {
    hide Symbol, Sextet;
    SymbolSextet(a, b[0] / 4);
    if |b| == 1 {
      var v := b[0] % 4 * 16;
      assert b == [b[0]];
      SymbolSextet(a, v);
      assert v % 16 == 0 && b[0] / 4 * 4 + v / 16 == b[0];
    } else {
      var v1, v2 := b[0] % 4 * 16 + b[1] / 16, b[1] % 16 * 4;
      assert b == [b[0], b[1]];
      SymbolSextet(a, v1);
      SymbolSextet(a, v2);
      assert v2 % 4 == 0 && b[0] / 4 * 4 + v1 / 16 == b[0] && v1 % 16 * 16 + v2 / 4 == b[1];
    }
  }

  lemma DecodeGroup(a: Alphabet, b: Bytes)
    requires Octets(b) && |b| > 2
    ensures var rest := Decode(a, Encode(a, b[3..]));
            Decode(a, Encode(a, b)) == if rest.Some? then Some([b[0], b[1], b[2]] + rest.value) else None
  {
    hide Symbol, Sextet;
    var v0, v1, v2, v3 := b[0] / 4, b[0] % 4 * 16 + b[1] / 16, b[1] % 16 * 4 + b[2] / 64, b[2] % 64;
    SymbolSextet(a, v0);
    SymbolSextet(a, v1);
    SymbolSextet(a, v2);
    SymbolSextet(a, v3);
    var t := Encode(a, b);
    assert t[..4] == [Symbol(a, v0), Symbol(a, v1), Symbol(a, v2), Symbol(a, v3)];
    assert t[4..] == Encode(a, b[3..]);
    assert v0 * 4 + v1 / 16 == b[0];
    assert v1 % 16 * 16 + v2 / 4 == b[1];
    assert v2 % 4 * 64 + v3 == b[2];
  }

  /** The decoder takes canonical text only, so re-encoding gives the text back. */
  lemma {:induction false} EncodeDecoded(a: Alphabet, t: string)
    requires Decode(a, t).Some?
    ensures Encode(a, Decode(a, t).value) == t
  {
    if |t| > 3 {
      EncodeGroup(a, t);
      EncodeDecoded(a, t[4..]);
      hide Decode, Encode;
      assert t == t[..4] + t[4..];
    } else {
      EncodeTail(a, t);
    }
  }

  lemma EncodeTail(a: Alphabet, t: string)
    requires Decode(a, t).Some? && |t| < 4
    ensures Encode(a, Decode(a, t).value) == t
  {
    hide Symbol, Sextet;
    if |t| > 1 {
      var b, v0, v1 := Decode(a, t).value, Sextet(a, t[0]).value, Sextet(a, t[1]).value;
      assert b[0] / 4 == v0;
      if |t| == 2 {
        assert v1 == v1 / 16 * 16;
        assert b[0] % 4 * 16 == v1;
      } else {
        var v2 := Sextet(a, t[2]).value;
        assert b[0] % 4 * 16 + b[1] / 16 == v1;
        assert b[1] % 16 * 4 == v2;
      }
    }
  }

  lemma EncodeGroup(a: Alphabet, t: string)
    requires Decode(a, t).Some? && |t| > 3
    ensures Decode(a, t[4..]).Some?
    ensures Encode(a, Decode(a, t).value) == t[..4] + Encode(a, Decode(a, t[4..]).value)
  {
    hide Symbol, Sextet;
    var v0, v1, v2, v3 :=
      Sextet(a, t[0]).value, Sextet(a, t[1]).value, Sextet(a, t[2]).value, Sextet(a, t[3]).value;
    var b := Decode(a, t).value;
    assert b[0] / 4 == v0;
    assert b[0] % 4 * 16 + b[1] / 16 == v1;
    assert b[1] % 16 * 4 + b[2] / 64 == v2;
    assert b[2] % 64 == v3;
    assert b[3..] == Decode(a, t[4..]).value;
    assert t[..4] == [t[0], t[1], t[2], t[3]];
  }

  lemma {:induction false} EncodedSymbols(a: Alphabet, b: Bytes, c: char)
    requires Octets(b) && Sextet(a, c).None?
    ensures c !in Encode(a, b)
  {
    hide Symbol, Sextet;
    if |b| > 0 { SymbolSextet(a, b[0] / 4); }
    if |b| == 1 { SymbolSextet(a, b[0] % 4 * 16); }
    if |b| > 1 { SymbolSextet(a, b[0] % 4 * 16 + b[1] / 16); }
    if |b| == 2 { SymbolSextet(a, b[1] % 16 * 4); }
    if |b| > 2 {
      SymbolSextet(a, b[1] % 16 * 4 + b[2] / 64);
      SymbolSextet(a, b[2] % 64);
      EncodedSymbols(a, b[3..], c);
    }
  }

  /** The alphabets of RFC 4648, Tables 1 and 2: A to Z, a to z, 0 to 9 in order, and two more. */
  lemma Alphabets(a: Alphabet)
    ensures Symbol(a, 0) == 'A' && Symbol(a, 25) == 'Z' && Symbol(a, 26) == 'a' && Symbol(a, 51) == 'z'
    ensures Symbol(a, 52) == '0' && Symbol(a, 61) == '9'
    ensures [Symbol(a, 62), Symbol(a, 63)] == if a == Standard then "+/" else "-_"
    ensures forall n :: 0 <= n < 61 && n != 25 && n != 51 ==> Symbol(a, n + 1) as int == Symbol(a, n) as int + 1
  {
  }

  /** The number four symbols stand for, the first the most significant. */
  function Quad(a: Alphabet, t: string): int
    requires |t| == 4 && forall i :: 0 <= i < 4 ==> Sextet(a, t[i]).Some?
  {
    ((Sextet(a, t[0]).value * 64 + Sextet(a, t[1]).value) * 64 + Sextet(a, t[2]).value) * 64 + Sextet(a, t[3]).value
  }

  /**
   * Group by group, three bytes are the number their four symbols are; the last one or two
   * bytes are filled up with zero bits.
   */
  lemma EncodesNumbers(a: Alphabet, b: Bytes)
    requires Octets(b) && 0 < |b|
    ensures var t := Encode(a, b);
            && (|b| >= 3 ==>
                  && 4 <= |t| && (forall i :: 0 <= i < 4 ==> Sextet(a, t[i]).Some?)
                  && Quad(a, t[..4]) == (b[0] * 256 + b[1]) * 256 + b[2] && t[4..] == Encode(a, b[3..]))
            && (|b| == 2 ==>
                  && |t| == 3 && (forall i :: 0 <= i < 3 ==> Sextet(a, t[i]).Some?)
                  && Sextet(a, Symbol(a, 0)).Some? && Quad(a, t + [Symbol(a, 0)]) == (b[0] * 256 + b[1]) * 256)
            && (|b| == 1 ==>
                  && |t| == 2 && (forall i :: 0 <= i < 2 ==> Sextet(a, t[i]).Some?)
                  && Sextet(a, Symbol(a, 0)).Some? && Quad(a, t + [Symbol(a, 0), Symbol(a, 0)]) == b[0] * 65536)
  {
    hide Symbol, Sextet;
    SymbolSextet(a, 0);
    SymbolSextet(a, b[0] / 4);
    if |b| == 1 { SymbolSextet(a, b[0] % 4 * 16); }
    if |b| > 1 { SymbolSextet(a, b[0] % 4 * 16 + b[1] / 16); }
    if |b| == 2 { SymbolSextet(a, b[1] % 16 * 4); }
    if |b| > 2 {
      SymbolSextet(a, b[1] % 16 * 4 + b[2] / 64);
      SymbolSextet(a, b[2] % 64);
    }
  }

  // ---- Fields between separators ----------------------------------------------------------

  function Split(s: string, separator: char): (fields: seq<string>)
    ensures |fields| > 0
  {
    if |s| == 0 then [""]
    else
      var rest := Split(s[1..], separator);
      if s[0] == separator then [""] + rest else [[s[0]] + rest[0]] + rest[1..]
  }

  function Join(fields: seq<string>, separator: char): string
    requires |fields| > 0
  {
    if |fields| == 1 then fields[0] else fields[0] + [separator] + Join(fields[1..], separator)
  }

  lemma {:induction false} JoinSplit(s: string, separator: char)
    ensures Join(Split(s, separator), separator) == s
  {
    if |s| > 0 {
      JoinSplit(s[1..], separator);
      var rest, fields := Split(s[1..], separator), Split(s, separator);
      if s[0] == separator {
        assert fields[1..] == rest;
      } else {
        assert fields[1..] == rest[1..];
        assert |rest| > 1 ==> Join(fields, separator) == [s[0]] + Join(rest, separator);
      }
    }
  }

  lemma {:induction false} SplitField(field: string, tail: string, separator: char)
    requires separator !in field
    ensures Split(field + [separator] + tail, separator) == [field] + Split(tail, separator)
  {
    var s := field + [separator] + tail;
    if |field| == 0 {
      assert s[1..] == tail;
    } else {
      assert s[1..] == field[1..] + [separator] + tail;
      SplitField(field[1..], tail, separator);
      assert [field[0]] + field[1..] == field;
    }
  }

  lemma {:induction false} SplitLast(field: string, separator: char)
    requires separator !in field
    ensures Split(field, separator) == [field]
  {
    if |field| > 0 {
      SplitLast(field[1..], separator);
      assert [field[0]] + field[1..] == field;
    }
  }

  lemma {:induction false} SplitJoin(fields: seq<string>, separator: char)
    requires |fields| > 0 && forall i :: 0 <= i < |fields| ==> separator !in fields[i]
    ensures Split(Join(fields, separator), separator) == fields
  {
    if |fields| == 1 {
      SplitLast(fields[0], separator);
    } else {
      SplitJoin(fields[1..], separator);
      SplitField(fields[0], Join(fields[1..], separator), separator);
    }
  }

  // ---- Password records -------------------------------------------------------------------

  const SALT_LEN := 16
  const TAG_LEN := 32
  const MAX_RECORD_BYTES := 512
  const PREFIX := "$argon2id$v=19$m=19456,t=2,p=1$"

  datatype Secret = Secret(salt: Bytes, tag: Bytes) {
    predicate Valid() {
      |salt| == SALT_LEN && |tag| == TAG_LEN && Octets(salt) && Octets(tag)
    }
  }

  function Base64Strict(field: string, len: nat): (r: Result<Bytes>) {
    match Decode(Standard, field)
    case None => Err("identity.credential_corrupt")
    case Some(bytes) =>
      if |bytes| != len || Encode(Standard, bytes) != field then Err("identity.credential_corrupt")
      else Ok(bytes)
  }

  /** The read allowlist: five fields, fixed parameters, canonical salt and tag. */
  function ParseRecord(record: string): Result<Secret> {
    if record == "" || |record| > MAX_RECORD_BYTES || record[0] != '$' then Err("identity.credential_corrupt")
    else
      var fields := Split(record[1..], '$');
      if |fields| != 5 || fields[0] != "argon2id" || fields[1] != "v=19" || fields[2] != "m=19456,t=2,p=1" then
        Err("identity.credential_corrupt")
      else
        match Base64Strict(fields[3], SALT_LEN)
        case Err(code) => Err(code)
        case Ok(salt) =>
          match Base64Strict(fields[4], TAG_LEN)
          case Err(code) => Err(code)
          case Ok(tag) => Ok(Secret(salt, tag))
  }

  function EncodeRecord(secret: Secret): string
    requires secret.Valid()
  {
    PREFIX + Encode(Standard, secret.salt) + "$" + Encode(Standard, secret.tag)
  }

  function RecordFields(secret: Secret): seq<string>
    requires secret.Valid()
  {
    ["argon2id", "v=19", "m=19456,t=2,p=1", Encode(Standard, secret.salt), Encode(Standard, secret.tag)]
  }

  lemma PrefixParts()
    ensures PREFIX == "$" + "argon2id" + "$" + "v=19" + "$" + "m=19456,t=2,p=1" + "$"
  {
  }

  lemma JoinAfterPrefix(a: string, b: string, c: string, d: string, e: string)
    ensures "$" + a + "$" + b + "$" + c + "$" + d + "$" + e == "$" + Join([a, b, c, d, e], '$')
  {
    JoinFive(a, b, c, d, e);
    hide Join;
    assert "$" + a + "$" + b + "$" + c + "$" + d + "$" + e == "$" + (a + "$" + (b + "$" + (c + "$" + (d + "$" + e))));
  }

  lemma PartsHaveNoSeparator()
    ensures '$' !in "argon2id" && '$' !in "v=19" && '$' !in "m=19456,t=2,p=1"
  {
  }

  lemma RecordIsJoined(secret: Secret)
    requires secret.Valid()
    ensures EncodeRecord(secret) == "$" + Join(RecordFields(secret), '$')
    ensures Split(EncodeRecord(secret)[1..], '$') == RecordFields(secret)
    ensures |EncodeRecord(secret)| == 97
  {
    var fields := RecordFields(secret);
    var salt, tag := Encode(Standard, secret.salt), Encode(Standard, secret.tag);
    EncodedSymbols(Standard, secret.salt, '$');
    EncodedSymbols(Standard, secret.tag, '$');
    PartsHaveNoSeparator();
    hide Encode, Split, Join;
    PrefixParts();
    JoinAfterPrefix("argon2id", "v=19", "m=19456,t=2,p=1", salt, tag);
    SplitJoin(fields, '$');
    assert EncodeRecord(secret)[1..] == Join(fields, '$');
    EncodeLength(Standard, secret.salt);
    EncodeLength(Standard, secret.tag);
  }

  lemma JoinFive(a: string, b: string, c: string, d: string, e: string)
    ensures Join([a, b, c, d, e], '$') == a + "$" + (b + "$" + (c + "$" + (d + "$" + e)))
  {
    assert [a, b, c, d, e][1..] == [b, c, d, e] && [b, c, d, e][1..] == [c, d, e];
    assert [c, d, e][1..] == [d, e] && [d, e][1..] == [e];
    assert Join([d, e], '$') == d + "$" + e;
    assert Join([c, d, e], '$') == c + "$" + Join([d, e], '$');
    assert Join([b, c, d, e], '$') == b + "$" + Join([c, d, e], '$');
  }

  /** A stored record is accepted exactly when it is the encoding of one salt and tag, which it returns. */
  lemma RecordExact(record: string, secret: Secret)
    ensures ParseRecord(record) == Ok(secret) <==> secret.Valid() && record == EncodeRecord(secret)
  {
    if secret.Valid() && record == EncodeRecord(secret) {
      RecordIsJoined(secret);
      DecodeEncoded(Standard, secret.salt);
      DecodeEncoded(Standard, secret.tag);
    }
    if ParseRecord(record) == Ok(secret) {
      AcceptedRecord(record, secret);
    }
  }

  lemma AcceptedRecord(record: string, secret: Secret)
    requires ParseRecord(record) == Ok(secret)
    ensures secret.Valid() && record == EncodeRecord(secret)
  {
    var fields := Split(record[1..], '$');
    assert Encode(Standard, secret.salt) == fields[3] && Encode(Standard, secret.tag) == fields[4];
    assert fields == RecordFields(secret);
    JoinSplit(record[1..], '$');
    RecordIsJoined(secret);
    assert record == [record[0]] + record[1..];
  }

  // ---- Token secrets -----------------------------------------------------------------------

  const TOKEN_BYTES := 32
  const SECRET_LEN := 43

  datatype Purpose = Session | EmailVerification | PasswordReset | WebSocketUpgrade

  function PurposeText(p: Purpose): string {
    match p
    case Session => "session"
    case EmailVerification => "email_verification"
    case PasswordReset => "password_reset"
    case WebSocketUpgrade => "websocket_upgrade"
  }

  /** What is hashed for each purpose, before the zero byte and the secret. */
  lemma PurposeNames()
    ensures [PurposeText(Session), PurposeText(EmailVerification), PurposeText(PasswordReset),
             PurposeText(WebSocketUpgrade)]
         == ["session", "email_verification", "password_reset", "websocket_upgrade"]
  {
  }

  function Ascii(s: string): Bytes {
    seq(|s|, i requires 0 <= i < |s| => s[i] as int)
  }

  datatype TokenDigest = TokenDigest(purpose: Purpose, data: Bytes)
  datatype Issued = Issued(secret: string, digest: TokenDigest)

  function Preimage(p: Purpose, raw: Bytes): Bytes {
    Ascii(PurposeText(p)) + [0] + raw
  }

  function DigestOf(sha256: Bytes -> Bytes, p: Purpose, raw: Bytes): TokenDigest {
    TokenDigest(p, sha256(Preimage(p, raw)))
  }

  function Issue(sha256: Bytes -> Bytes, p: Purpose, entropy: Option<Bytes>): Result<Issued>
    requires entropy.Some? ==> |entropy.value| == TOKEN_BYTES && Octets(entropy.value)
  {
    if entropy.None? then Err("identity.entropy_unavailable")
    else Ok(Issued(Encode(UrlSafe, entropy.value), DigestOf(sha256, p, entropy.value)))
  }

  predicate UrlSafeCharacter(c: char) {
    'A' <= c <= 'Z' || 'a' <= c <= 'z' || '0' <= c <= '9' || c == '-' || c == '_'
  }

  function Digest(sha256: Bytes -> Bytes, p: Purpose, text: string): Result<TokenDigest> {
    if |text| != SECRET_LEN || exists i :: 0 <= i < |text| && !UrlSafeCharacter(text[i]) then
      Err("identity.token_invalid")
    else
      match Decode(UrlSafe, text)
      case None => Err("identity.token_invalid")
      case Some(raw) =>
        if |raw| != TOKEN_BYTES || Encode(UrlSafe, raw) != text then Err("identity.token_invalid")
        else Ok(DigestOf(sha256, p, raw))
  }

  lemma {:induction false} DecodedCharacters(t: string)
    requires Decode(UrlSafe, t).Some?
    ensures forall i :: 0 <= i < |t| ==> UrlSafeCharacter(t[i])
  {
    if |t| > 3 {
      DecodedCharacters(t[4..]);
      forall i | 0 <= i < |t| ensures UrlSafeCharacter(t[i]) {
        if i >= 4 { assert t[i] == t[4..][i - 4]; }
      }
    }
  }

  /** A secret is accepted exactly when it is the text of 32 bytes, and those bytes are digested. */
  lemma DigestExact(sha256: Bytes -> Bytes, p: Purpose, text: string)
    ensures Digest(sha256, p, text).Ok?
       <==> exists raw :: Octets(raw) && |raw| == 32 && text == Encode(UrlSafe, raw)
    ensures forall raw :: Octets(raw) && |raw| == 32 && text == Encode(UrlSafe, raw)
              ==> Digest(sha256, p, text) == Ok(DigestOf(sha256, p, raw))
  {
    forall raw | Octets(raw) && |raw| == 32 && text == Encode(UrlSafe, raw)
      ensures Digest(sha256, p, text) == Ok(DigestOf(sha256, p, raw))
    {
      DecodeEncoded(UrlSafe, raw);
      EncodeLength(UrlSafe, raw);
      DecodedCharacters(text);
    }
  }

  /** Digesting an issued secret for its purpose gives the issued digest; without entropy none is issued. */
  lemma IssueThenDigest(sha256: Bytes -> Bytes, p: Purpose, entropy: Option<Bytes>)
    requires entropy.Some? ==> |entropy.value| == 32 && Octets(entropy.value)
    ensures Issue(sha256, p, None) == Err("identity.entropy_unavailable")
    ensures entropy.Some? ==>
            && Issue(sha256, p, entropy).Ok?
            && var issued := Issue(sha256, p, entropy).value;
               |issued.secret| == 43 && Digest(sha256, p, issued.secret) == Ok(issued.digest)
  {
    if entropy.Some? {
      DigestExact(sha256, p, Encode(UrlSafe, entropy.value));
      EncodeLength(UrlSafe, entropy.value);
    }
  }

  /** No two pairs of purpose and secret hash the same bytes. */
  lemma PreimageInjective(p: Purpose, a: Bytes, q: Purpose, b: Bytes)
    requires Preimage(p, a) == Preimage(q, b)
    ensures p == q && a == b
  {
    var m, n := |PurposeText(p)|, |PurposeText(q)|;
    var x, y := Preimage(p, a), Preimage(q, b);
    assert x[m] == 0 && y[n] == 0;
    assert forall i :: 0 <= i < m ==> x[i] == PurposeText(p)[i] as int;
    assert forall i :: 0 <= i < n ==> y[i] == PurposeText(q)[i] as int;
    assert m == n;
    assert p == q;
    assert a == x[m + 1..] && b == y[n + 1..];
  }

  /** With a collision-free hash a digest answers for one purpose and one secret only. */
  lemma DigestsSeparate(sha256: Bytes -> Bytes, p: Purpose, s: string, q: Purpose, t: string)
    requires forall x, y :: sha256(x) == sha256(y) ==> x == y
    requires Digest(sha256, p, s).Ok? && Digest(sha256, p, s) == Digest(sha256, q, t)
    ensures p == q && s == t
  {
    var a, b := Decode(UrlSafe, s).value, Decode(UrlSafe, t).value;
    PreimageInjective(p, a, q, b);
  }
}
