// base64url without padding (section 5 of RFC 4648) as base64UrlEncode and base64UrlDecode build it from the
// ordinary base64 of Node's Buffer.
module Base64Url {
  type Byte = x: int | 0 <= x < 256

  // ----- Base64 -----

  function Digit(i: int): char
    requires 0 <= i < 64
  {
    if i < 26 then 'A' + i as char
    else if i < 52 then 'a' + (i - 26) as char
    else if i < 62 then '0' + (i - 52) as char
    else if i == 62 then '+' else '/'
  }

  function Value(c: char): (i: int)
    ensures -1 <= i < 64
  {
    if 'A' <= c <= 'Z' then (c - 'A') as int
    else if 'a' <= c <= 'z' then (c - 'a') as int + 26
    else if '0' <= c <= '9' then (c - '0') as int + 52
    else if c == '+' || c == '-' then 62
    else if c == '/' || c == '_' then 63
    else -1
  }

  // The bits of up to three bytes in groups of six, and back.
  function Six0(x: Byte): (d: int) ensures 0 <= d < 64 { x / 4 }
  function Six1(x: Byte, y: Byte): (d: int) ensures 0 <= d < 64 { x % 4 * 16 + y / 16 }
  function Six2(y: Byte, z: Byte): (d: int) ensures 0 <= d < 64 { y % 16 * 4 + z / 64 }
  function Six3(z: Byte): (d: int) ensures 0 <= d < 64 { z % 64 }

  function Byte0(d0: int, d1: int): Byte requires 0 <= d0 < 64 && 0 <= d1 < 64 { d0 * 4 + d1 / 16 }
  function Byte1(d1: int, d2: int): Byte requires 0 <= d1 < 64 && 0 <= d2 < 64 { d1 % 16 * 16 + d2 / 4 }
  function Byte2(d2: int, d3: int): Byte requires 0 <= d2 < 64 && 0 <= d3 < 64 { d2 % 4 * 64 + d3 }

  // Buffer.toString('base64').
  function Base64(b: seq<Byte>): string {
    if |b| == 0 then ""
    else if |b| == 1 then [Digit(Six0(b[0])), Digit(Six1(b[0], 0)), '=', '=']
    else if |b| == 2 then [Digit(Six0(b[0])), Digit(Six1(b[0], b[1])), Digit(Six2(b[1], 0)), '=']
    else [Digit(Six0(b[0])), Digit(Six1(b[0], b[1])), Digit(Six2(b[1], b[2])), Digit(Six3(b[2]))] + Base64(b[3..])
  }

  // Buffer.from(_, 'base64'): characters outside the alphabet are skipped, '-' and '_' are in it, and a last
  // group of fewer than four digits gives the bytes it has bits for.
  function DigitOf(c: char): seq<int> { if Value(c) >= 0 then [Value(c)] else [] }

  function Digits(s: string): seq<int> { if s == "" then [] else DigitOf(s[0]) + Digits(s[1..]) }

  function Bytes(d: seq<int>): (b: seq<Byte>)
    requires forall i :: 0 <= i < |d| ==> 0 <= d[i] < 64
  {
    if |d| < 2 then []
    else if |d| == 2 then [Byte0(d[0], d[1])]
    else if |d| == 3 then [Byte0(d[0], d[1]), Byte1(d[1], d[2])]
    else [Byte0(d[0], d[1]), Byte1(d[1], d[2]), Byte2(d[2], d[3])] + Bytes(d[4..])
  }

  lemma {:induction false} DigitsInRange(s: string)
    ensures forall i :: 0 <= i < |Digits(s)| ==> 0 <= Digits(s)[i] < 64
  {
    if s != "" {
      DigitsInRange(s[1..]);
    }
  }

  function FromBase64(s: string): seq<Byte> {
    DigitsInRange(s);
    Bytes(Digits(s))
  }

  // ----- The source's two functions -----

  function Replace(s: string, c: char, d: char): string {
    seq(|s|, i requires 0 <= i < |s| => if s[i] == c then d else s[i])
  }

  function Drop(s: string, c: char): string {
    if s == "" then "" else (if s[0] == c then "" else [s[0]]) + Drop(s[1..], c)
  }

  function Restored(s: string): string { Replace(Replace(s, '-', '+'), '_', '/') }

  function Swapped(s: string): string { Replace(Replace(s, '+', '-'), '/', '_') }

  function Base64UrlEncode(b: seq<Byte>): string {
    Drop(Swapped(Base64(b)), '=')
  }

  function Padded(s: string): string {
    if |s| % 4 == 0 then s else if |s| % 4 == 3 then s + "=" else if |s| % 4 == 2 then s + "==" else s + "==="
  }

  function Base64UrlDecode(s: string): seq<Byte> {
    FromBase64(Padded(Restored(s)))
  }

  // The padding loop.
  method Decode(str: string) returns (buffer: seq<Byte>)
    ensures buffer == Base64UrlDecode(str)
  {
    var restored := Restored(str);
    var base64 := restored;
    while |base64| % 4 != 0
      invariant base64 == restored || base64 == restored + "=" || base64 == restored + "==" || base64 == restored + "==="
      invariant |restored| <= |base64|
      invariant |base64| > |restored| ==> (|base64| - 1) % 4 != 0
      invariant Padded(base64) == Padded(restored)
      decreases (4 - |base64| % 4) % 4
    {
      base64 := base64 + "=";
    }
    buffer := FromBase64(base64);
  }

  // ----- What they are for -----

  predicate UrlSafe(s: string) {
    forall i :: 0 <= i < |s| ==> 'A' <= s[i] <= 'Z' || 'a' <= s[i] <= 'z' || '0' <= s[i] <= '9' || s[i] == '-' || s[i] == '_'
  }

  function UrlDigit(i: int): char
    requires 0 <= i < 64
  {
    if i == 62 then '-' else if i == 63 then '_' else Digit(i)
  }

  lemma SwappedDigit(i: int)
    requires 0 <= i < 64
    ensures Swapped([Digit(i)]) == [UrlDigit(i)]
    ensures UrlDigit(i) != '=' && Value(UrlDigit(i)) == i && UrlSafe([UrlDigit(i)])
  {
  }

  lemma SwappedAppend(s: string, t: string)
    ensures Swapped(s + t) == Swapped(s) + Swapped(t)
  {
  }

  lemma {:induction false} DropAppend(s: string, t: string, c: char)
    ensures Drop(s + t, c) == Drop(s, c) + Drop(t, c)
  {
    if s == "" {
      assert s + t == t;
    } else {
      assert (s + t)[0] == s[0] && (s + t)[1..] == s[1..] + t;
      DropAppend(s[1..], t, c);
    }
  }

  // What becomes of one digit and of the padding.
  lemma EncodedDigit(i: int, rest: string)
    requires 0 <= i < 64
    ensures Drop(Swapped([Digit(i)] + rest), '=') == [UrlDigit(i)] + Drop(Swapped(rest), '=')
  {
    SwappedAppend([Digit(i)], rest);
    SwappedDigit(i);
    DropAppend([UrlDigit(i)], Swapped(rest), '=');
  }

  lemma EncodedPadding()
    ensures Drop(Swapped("="), '=') == "" && Drop(Swapped("=="), '=') == "" && Drop(Swapped(""), '=') == ""
  {
    assert Swapped("=") == "=" && Swapped("==") == "==";
    assert "=="[1..] == "=";
  }

  // The digits of the bytes, six bits each.
  function Sextets(b: seq<Byte>): (d: seq<int>)
    ensures forall i :: 0 <= i < |d| ==> 0 <= d[i] < 64
    ensures |d| == (4 * |b| + 2) / 3
  {
    if |b| == 0 then []
    else if |b| == 1 then [Six0(b[0]), Six1(b[0], 0)]
    else if |b| == 2 then [Six0(b[0]), Six1(b[0], b[1]), Six2(b[1], 0)]
    else [Six0(b[0]), Six1(b[0], b[1]), Six2(b[1], b[2]), Six3(b[2])] + Sextets(b[3..])
  }

  function UrlDigits(d: seq<int>): string
    requires forall i :: 0 <= i < |d| ==> 0 <= d[i] < 64
  {
    seq(|d|, i requires 0 <= i < |d| => UrlDigit(d[i]))
  }

  lemma FourDigits(d0: int, d1: int, d2: int, d3: int, rest: string)
    requires 0 <= d0 < 64 && 0 <= d1 < 64 && 0 <= d2 < 64 && 0 <= d3 < 64
    ensures Drop(Swapped([Digit(d0), Digit(d1), Digit(d2), Digit(d3)] + rest), '=') ==
            [UrlDigit(d0), UrlDigit(d1), UrlDigit(d2), UrlDigit(d3)] + Drop(Swapped(rest), '=')
  {
    hide Drop, Swapped, Digit, UrlDigit;
    var s3 := [Digit(d3)] + rest;
    var s2 := [Digit(d2)] + s3;
    var s1 := [Digit(d1)] + s2;
    EncodedDigit(d3, rest);
    EncodedDigit(d2, s3);
    EncodedDigit(d1, s2);
    EncodedDigit(d0, s1);
    assert [Digit(d0), Digit(d1), Digit(d2), Digit(d3)] + rest == [Digit(d0)] + s1;
  }

  lemma TwoDigits(d0: int, d1: int)
    requires 0 <= d0 < 64 && 0 <= d1 < 64
    ensures Drop(Swapped([Digit(d0), Digit(d1), '=', '=']), '=') == [UrlDigit(d0), UrlDigit(d1)]
  {
    EncodedPadding();
    hide Drop, Swapped, Digit, UrlDigit;
    var s1 := [Digit(d1)] + "==";
    EncodedDigit(d1, "==");
    EncodedDigit(d0, s1);
    assert [Digit(d0), Digit(d1), '=', '='] == [Digit(d0)] + s1;
  }

  lemma ThreeDigits(d0: int, d1: int, d2: int)
    requires 0 <= d0 < 64 && 0 <= d1 < 64 && 0 <= d2 < 64
    ensures Drop(Swapped([Digit(d0), Digit(d1), Digit(d2), '=']), '=') == [UrlDigit(d0), UrlDigit(d1), UrlDigit(d2)]
  {
    EncodedPadding();
    hide Drop, Swapped, Digit, UrlDigit;
    var s2 := [Digit(d2)] + "=";
    var s1 := [Digit(d1)] + s2;
    EncodedDigit(d2, "=");
    EncodedDigit(d1, s2);
    EncodedDigit(d0, s1);
    assert [Digit(d0), Digit(d1), Digit(d2), '='] == [Digit(d0)] + s1;
  }

  lemma NoBytes()
    ensures Base64UrlEncode([]) == UrlDigits(Sextets([]))
  {
    EncodedPadding();
  }

  lemma OneByte(b: seq<Byte>)
    requires |b| == 1
    ensures Base64UrlEncode(b) == UrlDigits(Sextets(b))
  {
    hide Drop, Swapped, Digit, UrlDigit, Six0, Six1, Six2, Six3;
    var d := Sextets(b);
    TwoDigits(d[0], d[1]);
    assert UrlDigits(d) == [UrlDigit(d[0]), UrlDigit(d[1])];
  }

  lemma TwoBytes(b: seq<Byte>)
    requires |b| == 2
    ensures Base64UrlEncode(b) == UrlDigits(Sextets(b))
  {
    hide Drop, Swapped, Digit, UrlDigit, Six0, Six1, Six2, Six3;
    var d := Sextets(b);
    ThreeDigits(d[0], d[1], d[2]);
    assert UrlDigits(d) == [UrlDigit(d[0]), UrlDigit(d[1]), UrlDigit(d[2])];
  }

  lemma UrlDigitsSplit(d0: int, d1: int, d2: int, d3: int, rest: seq<int>)
    requires 0 <= d0 < 64 && 0 <= d1 < 64 && 0 <= d2 < 64 && 0 <= d3 < 64
    requires forall i :: 0 <= i < |rest| ==> 0 <= rest[i] < 64
    ensures UrlDigits([d0, d1, d2, d3] + rest) == [UrlDigit(d0), UrlDigit(d1), UrlDigit(d2), UrlDigit(d3)] + UrlDigits(rest)
  {
    hide UrlDigit;
  }

  lemma ThreeBytes(b: seq<Byte>)
    requires |b| >= 3 && Base64UrlEncode(b[3..]) == UrlDigits(Sextets(b[3..]))
    ensures Base64UrlEncode(b) == UrlDigits(Sextets(b))
  {
    hide Drop, Swapped, Digit, UrlDigit, UrlDigits, Six0, Six1, Six2, Six3;
    var x0, x1, x2, x3 := Six0(b[0]), Six1(b[0], b[1]), Six2(b[1], b[2]), Six3(b[2]);
    FourDigits(x0, x1, x2, x3, Base64(b[3..]));
    UrlDigitsSplit(x0, x1, x2, x3, Sextets(b[3..]));
  }

  // base64url, told without base64: one character of the URL-safe alphabet for every six bits.
  lemma {:induction false} EncodeIsSextets(b: seq<Byte>)
    ensures Base64UrlEncode(b) == UrlDigits(Sextets(b))
    decreases |b|
  {
    hide Base64UrlEncode, UrlDigits, Sextets;
    if |b| == 0 {
      NoBytes();
    } else if |b| == 1 {
      OneByte(b);
    } else if |b| == 2 {
      TwoBytes(b);
    } else {
      EncodeIsSextets(b[3..]);
      ThreeBytes(b);
    }
  }

  // The output stays in the URL-safe alphabet and has no padding.
  lemma EncodeIsUrlSafe(b: seq<Byte>)
    ensures UrlSafe(Base64UrlEncode(b)) && '.' !in Base64UrlEncode(b) && '=' !in Base64UrlEncode(b)
    ensures |Base64UrlEncode(b)| == (4 * |b| + 2) / 3
  {
    EncodeIsSextets(b);
    var d := Sextets(b);
    forall i | 0 <= i < |d|
      ensures UrlSafe([UrlDigits(d)[i]])
    {
      SwappedDigit(d[i]);
    }
    assert forall i :: 0 <= i < |d| ==> UrlDigits(d)[i] == [UrlDigits(d)[i]][0];
  }

  // ----- Decoding -----

  lemma {:induction false} DigitsAppend(s: string, t: string)
    ensures Digits(s + t) == Digits(s) + Digits(t)
  {
    hide DigitOf;
    if s == "" {
      assert s + t == t;
    } else {
      assert (s + t)[0] == s[0] && (s + t)[1..] == s[1..] + t;
      DigitsAppend(s[1..], t);
      assert Digits(s + t) == DigitOf(s[0]) + (Digits(s[1..]) + Digits(t));
    }
  }

  lemma {:induction false} DigitsOfRestored(s: string)
    ensures Digits(Restored(s)) == Digits(s)
  {
    if s != "" {
      assert Restored(s)[0] == Restored([s[0]])[0] && Restored(s)[1..] == Restored(s[1..]);
      DigitsOfRestored(s[1..]);
    }
  }

  lemma PaddingHasNoDigits()
    ensures Digits("=") == [] && Digits("==") == [] && Digits("===") == []
  {
    assert "=="[1..] == "=" && "==="[1..] == "==";
  }

  // Restoring the two characters and the padding changes nothing for Node's lenient decoder.
  lemma RestoringIsIdle(s: string)
    ensures Base64UrlDecode(s) == FromBase64(s)
  {
    PaddingHasNoDigits();
    hide Digits, Replace;
    var r := Restored(s);
    DigitsOfRestored(s);
    assert Digits(r) + [] == Digits(r);
    DigitsAppend(r, "=");
    DigitsAppend(r, "==");
    DigitsAppend(r, "===");
  }

  lemma {:induction false} DigitsOfUrlDigits(d: seq<int>)
    requires forall i :: 0 <= i < |d| ==> 0 <= d[i] < 64
    ensures Digits(UrlDigits(d)) == d
    decreases |d|
  {
    if d != [] {
      assert UrlDigits(d)[0] == UrlDigit(d[0]) && UrlDigits(d)[1..] == UrlDigits(d[1..]);
      SwappedDigit(d[0]);
      DigitsOfUrlDigits(d[1..]);
    }
  }

  lemma ThreeBytesBack(x: Byte, y: Byte, z: Byte)
    ensures Byte0(Six0(x), Six1(x, y)) == x && Byte1(Six1(x, y), Six2(y, z)) == y && Byte2(Six2(y, z), Six3(z)) == z
  {
  }

  lemma {:induction false} BytesOfSextets(b: seq<Byte>)
    ensures Bytes(Sextets(b)) == b
    decreases |b|
  {
    hide Six0, Six1, Six2, Six3, Byte0, Byte1, Byte2;
    if |b| == 1 {
      ThreeBytesBack(b[0], 0, 0);
    } else if |b| == 2 {
      ThreeBytesBack(b[0], b[1], 0);
    } else if |b| >= 3 {
      ThreeBytesBack(b[0], b[1], b[2]);
      BytesOfSextets(b[3..]);
      var d := Sextets(b);
      assert d[4..] == Sextets(b[3..]);
      assert b == [b[0], b[1], b[2]] + b[3..];
    }
  }

  // Decoding inverts encoding, for every byte sequence.
  lemma DecodeInvertsEncode(b: seq<Byte>)
    ensures Base64UrlDecode(Base64UrlEncode(b)) == b
  {
    EncodeIsSextets(b);
    RestoringIsIdle(Base64UrlEncode(b));
    DigitsOfUrlDigits(Sextets(b));
    BytesOfSextets(b);
  }

  lemma EncodeIsInjective(a: seq<Byte>, b: seq<Byte>)
    requires Base64UrlEncode(a) == Base64UrlEncode(b)
    ensures a == b
  {
    DecodeInvertsEncode(a);
    DecodeInvertsEncode(b);
  }

  // ----- Code challenges -----

  function GenerateCodeChallenge(sha256: string -> seq<Byte>, codeVerifier: string): string {
    Base64UrlEncode(sha256(codeVerifier))
  }

  predicate VerifyCodeChallenge(sha256: string -> seq<Byte>, codeVerifier: string, codeChallenge: string) {
    GenerateCodeChallenge(sha256, codeVerifier) == codeChallenge
  }

  // A challenge accepts exactly the verifiers with the hash it was made from (sections 4.2 and 4.6 of RFC 7636).
  lemma ChallengeAcceptsItsHash(sha256: string -> seq<Byte>, made: string, shown: string)
    ensures VerifyCodeChallenge(sha256, shown, GenerateCodeChallenge(sha256, made)) <==> sha256(shown) == sha256(made)
  {
    if VerifyCodeChallenge(sha256, shown, GenerateCodeChallenge(sha256, made)) {
      EncodeIsInjective(sha256(shown), sha256(made));
    }
  }
}
