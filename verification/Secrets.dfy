/** Hexadecimal text, and the two MTProto secret formats a client reads back from it. */
module Secrets {
  import opened Wrappers
  import opened Bytes
  import opened Sequences
  import opened Text

  // ---- hexadecimal ----

  const DIGITS := "0123456789abcdef"

  function Digit(n: nat): char
    requires n < 16
  {
    DIGITS[n]
  }

  predicate IsHexDigit(c: char)
  {
    '0' <= c <= '9' || 'a' <= c <= 'f' || 'A' <= c <= 'F'
  }

  function DigitValue(c: char): (n: nat)
    requires IsHexDigit(c)
    ensures n < 16
  {
    if '0' <= c <= '9' then c as int - '0' as int
    else if 'a' <= c <= 'f' then c as int - 'a' as int + 10
    else c as int - 'A' as int + 10
  }

  predicate IsAsciiSpace(c: char)
  {
    c == ' ' || '\t' <= c <= '\r'
  }

  function ToHex(b: Bytes): (s: string)
    ensures |s| == 2 * |b|
  {
    if b == [] then "" else [Digit(b[0] / 16), Digit(b[0] % 16)] + ToHex(b[1..])
  }

  // White space may separate bytes but not the digits of one.
  function FromHex(s: string): Option<Bytes>
  {
    if s == "" then Some([])
    else if IsAsciiSpace(s[0]) then FromHex(s[1..])
    else if |s| >= 2 && IsHexDigit(s[0]) && IsHexDigit(s[1]) then
      match FromHex(s[2..])
      case Some(rest) => Some([DigitValue(s[0]) * 16 + DigitValue(s[1])] + rest)
      case None => None
    else None
  }

  lemma DigitsRead(n: nat)
    requires n < 16
    ensures IsHexDigit(Digit(n)) && !IsAsciiSpace(Digit(n)) && DigitValue(Digit(n)) == n
    ensures 'A' <= Digit(n) <= 'Z' ==> false
  {
  }

  function Prepend(b: Bytes, rest: Option<Bytes>): Option<Bytes>
  {
    match rest
    case Some(r) => Some(b + r)
    case None => None
  }

  lemma PrependTwice(a: Bytes, b: Bytes, rest: Option<Bytes>)
    ensures Prepend(a, Prepend(b, rest)) == Prepend(a + b, rest)
  {
    if rest.Some? {
      Regroup(a, b, rest.value);
    }
  }

  lemma PairThen(n: Byte, s: string)
    ensures FromHex([Digit(n / 16), Digit(n % 16)] + s) == Prepend([n], FromHex(s))
  {
    var all := [Digit(n / 16), Digit(n % 16)] + s;
    DigitsRead(n / 16);
    DigitsRead(n % 16);
    assert all[2..] == s;
    assert DigitValue(all[0]) * 16 + DigitValue(all[1]) == n;
  }

  lemma {:induction false} HexThen(b: Bytes, s: string)
    ensures FromHex(ToHex(b) + s) == Prepend(b, FromHex(s))
  {
    if b == [] {
      assert ToHex(b) + s == s;
      assert FromHex(s).Some? ==> b + FromHex(s).value == FromHex(s).value;
    } else {
      var pair, rest := [Digit(b[0] / 16), Digit(b[0] % 16)], b[1..];
      HexThen(rest, s);
      PairThen(b[0], ToHex(rest) + s);
      PrependTwice([b[0]], rest, FromHex(s));
      Regroup(pair, ToHex(rest), s);
      assert [b[0]] + rest == b;
    }
  }

  lemma HexRoundTrip(b: Bytes)
    ensures FromHex(ToHex(b)) == Some(b)
  {
    HexThen(b, "");
    assert ToHex(b) + "" == ToHex(b) && b + [] == b;
  }

  predicate AllHex(s: string)
  {
    forall i :: 0 <= i < |s| ==> IsHexDigit(s[i])
  }

  lemma {:induction false} AllHexReads(s: string)
    requires AllHex(s) && |s| % 2 == 0
    ensures FromHex(s).Some? && |FromHex(s).value| == |s| / 2
  {
    if s != "" {
      assert IsHexDigit(s[0]) && IsHexDigit(s[1]);
      AllHexReads(s[2..]);
    }
  }

  // ---- the two secrets ----

  datatype SecretError = NotHex | NotFakeTls | SniNotAscii | SniEmpty | BadLength(length: nat)

  predicate IsAscii(b: Bytes)
  {
    forall i :: 0 <= i < |b| ==> b[i] < 128
  }

  function Decode(b: Bytes): (s: string)
    requires IsAscii(b)
    ensures |s| == |b|
  {
    seq(|b|, i requires 0 <= i < |b| => b[i] as char)
  }

  predicate AsciiText(s: string)
  {
    forall i :: 0 <= i < |s| ==> s[i] < '\U{80}'
  }

  function Encode(s: string): (b: Bytes)
    requires AsciiText(s)
    ensures |b| == |s| && IsAscii(b)
  {
    seq(|s|, i requires 0 <= i < |s| => s[i] as int)
  }

  // 0xee, a 16-byte key, and the host name.
  function ParseFakeTlsSecret(secret: string): Result<(Bytes, string), SecretError>
  {
    match FromHex(secret)
    case None => Err(NotHex)
    case Some(b) =>
      if |b| < 18 || b[0] != 0xEE then Err(NotFakeTls)
      else if !IsAscii(b[17..]) then Err(SniNotAscii)
      else if Decode(b[17..]) == "" then Err(SniEmpty)
      else Ok((b[1..17], Decode(b[17..])))
  }

  // An optional dd, in either case, and 16 bytes.
  function ParseOriginalSecret(secret: string): Result<Bytes, SecretError>
  {
    var s := Lower(secret);
    match FromHex(if StartsWith(s, "dd") then s[2..] else s)
    case None => Err(NotHex)
    case Some(b) => if |b| != 16 then Err(BadLength(|b|)) else Ok(b)
  }

  function FakeTlsSecret(key: Bytes, sni: string): string
    requires AsciiText(sni)
  {
    "ee" + ToHex(key) + ToHex(Encode(sni))
  }

  function OriginalSecret(key: Bytes): string
  {
    "dd" + ToHex(key)
  }

  lemma DecodeEncode(s: string)
    requires AsciiText(s)
    ensures Decode(Encode(s)) == s
  {
  }

  /** A generated fake-TLS secret reads back as its key and host name. */
  lemma FakeTlsSecretRoundTrip(key: Bytes, sni: string)
    requires |key| == 16 && AsciiText(sni) && sni != ""
    ensures ParseFakeTlsSecret(FakeTlsSecret(key, sni)) == Ok((key, sni))
  {
    var hex := ToHex(key) + ToHex(Encode(sni));
    HexThen(key, ToHex(Encode(sni)));
    HexRoundTrip(Encode(sni));
    Regroup("ee", ToHex(key), ToHex(Encode(sni)));
    EePrefix(hex);
    Regroup([0xEE], key, Encode(sni));
    FakeTlsBytes(FakeTlsSecret(key, sni), key, Encode(sni));
    DecodeEncode(sni);
  }

  lemma EePrefix(hex: string)
    ensures FromHex("ee" + hex) == Prepend([0xEE], FromHex(hex))
  {
    assert ("ee" + hex)[2..] == hex;
  }

  lemma FakeTlsBytes(secret: string, key: Bytes, host: Bytes)
    requires FromHex(secret) == Some([0xEE] + key + host)
    requires |key| == 16 && host != [] && IsAscii(host)
    ensures ParseFakeTlsSecret(secret) == Ok((key, Decode(host)))
  {
    var b := [0xEE] + key + host;
    assert b[1..17] == key && b[17..] == host;
  }

  /** Exactly which texts are fake-TLS secrets; the empty-name error never arises. */
  lemma FakeTlsSecretExactly(secret: string)
    ensures ParseFakeTlsSecret(secret).Ok? <==>
              var b := FromHex(secret);
              b.Some? && |b.value| >= 18 && b.value[0] == 0xEE && IsAscii(b.value[17..])
    ensures ParseFakeTlsSecret(secret) != Err(SniEmpty)
  {
    match FromHex(secret)
    case None =>
    case Some(b) =>
      if |b| >= 18 && IsAscii(b[17..]) {
        assert |Decode(b[17..])| >= 1;
      }
  }

  // No upper-case letter, and nothing beyond ASCII.
  predicate IsLower(s: string)
  {
    forall i :: 0 <= i < |s| ==> s[i] < '\U{80}' && !('A' <= s[i] <= 'Z')
  }

  lemma LowerStays(s: string)
    requires IsLower(s)
    ensures Lower(s) == s
  {
    LowerAscii(s);
  }

  lemma {:induction false} HexIsLower(b: Bytes)
    ensures IsLower(ToHex(b))
    decreases |b|
  {
    if b != [] {
      DigitsRead(b[0] / 16);
      DigitsRead(b[0] % 16);
      HexIsLower(b[1..]);
      assert ToHex(b) == [Digit(b[0] / 16), Digit(b[0] % 16)] + ToHex(b[1..]);
    }
  }

  /** A generated original secret reads back as its key. */
  lemma OriginalSecretRoundTrip(key: Bytes)
    requires |key| == 16
    ensures ParseOriginalSecret(OriginalSecret(key)) == Ok(key)
  {
    HexIsLower(key);
    HexRoundTrip(key);
    LowerStays(OriginalSecret(key));
    assert OriginalSecret(key)[..2] == "dd" && OriginalSecret(key)[2..] == ToHex(key);
  }

  /** 32 hex digits without a prefix are an original secret exactly when they do not
      themselves begin with dd, in either case; if they do, 15 bytes are left. */
  lemma BareSecretExactly(secret: string)
    requires |secret| == 32 && AllHex(secret)
    ensures ParseOriginalSecret(secret).Ok? <==> !StartsWith(Lower(secret), "dd")
    ensures StartsWith(Lower(secret), "dd") ==> ParseOriginalSecret(secret) == Err(BadLength(15))
  {
    var s := Lower(secret);
    forall i | 0 <= i < |secret|
      ensures secret[i] < '\U{80}'
    {
      assert IsHexDigit(secret[i]);
    }
    LowerAscii(secret);
    assert AllHex(s) by {
      forall i | 0 <= i < |s|
        ensures IsHexDigit(s[i])
      {
        assert IsHexDigit(secret[i]);
      }
    }
    if StartsWith(s, "dd") {
      AllHexReads(s[2..]);
    } else {
      AllHexReads(s);
    }
  }
}
