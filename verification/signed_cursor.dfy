// Signed cursors: base64url of the token's JSON, a dot, and base64url of the HMAC of the first part.
module SignedCursor {
  import opened Wrappers
  import opened Base64Url
  import opened KeysetPagination

  // JSON.parse of the decoded bytes and the shape test: it throws, or the value is no token, or it is one.
  datatype Parsed = Throws | NoToken | IsToken(token: CursorToken)

  // JSON.stringify, JSON.parse and HMAC-SHA256 under the secret.
  datatype Codec = Codec(json: CursorToken -> seq<Byte>, parse: seq<Byte> -> Parsed, hmac: string -> seq<Byte>)

  datatype Decoded = Null | Token(token: CursorToken) | Thrown

  function Sign(c: Codec, data: string): string { Base64UrlEncode(c.hmac(data)) }

  function EncodeSignedCursor(c: Codec, payload: CursorToken): string {
    var data := Base64UrlEncode(c.json(payload));
    data + "." + Sign(c, data)
  }

  // String.split.
  function Split(s: string, dot: char): (parts: seq<string>)
    ensures |parts| > 0
  {
    if s == "" then [""]
    else if s[0] == dot then [""] + Split(s[1..], dot)
    else var parts := Split(s[1..], dot); [[s[0]] + parts[0]] + parts[1..]
  }

  function DecodeSignedCursor(c: Codec, b64: Option<string>): Decoded {
    if b64.None? || b64.value == "" then Null
    else
      var parts := Split(b64.value, '.');
      if parts[0] == "" || |parts| < 2 || parts[1] == "" then Null
      else if parts[1] != Sign(c, parts[0]) then Null
      else
        match c.parse(Base64UrlDecode(parts[0]))
        case Throws => Thrown
        case NoToken => Null
        case IsToken(token) => Token(token)
  }

  lemma {:induction false} SplitOne(s: string, dot: char)
    requires dot !in s
    ensures Split(s, dot) == [s]
  {
    if s != "" {
      assert s[0] in s;
      assert forall i :: 0 <= i < |s[1..]| ==> s[1..][i] in s;
      SplitOne(s[1..], dot);
      assert s == [s[0]] + s[1..];
    }
  }

  lemma {:induction false} SplitAt(s: string, t: string, dot: char)
    requires dot !in s
    ensures Split(s + [dot] + t, dot) == [s] + Split(t, dot)
  {
    var all := s + [dot] + t;
    if s == "" {
      assert all[0] == dot && all[1..] == t;
    } else {
      assert s[0] in s;
      assert forall i :: 0 <= i < |s[1..]| ==> s[1..][i] in s;
      assert all[0] == s[0] && all[1..] == s[1..] + [dot] + t;
      SplitAt(s[1..], t, dot);
      assert s == [s[0]] + s[1..];
    }
  }

  lemma {:induction false} SplitJoin(s: string, dot: char)
    ensures dot !in Split(s, dot)[0]
    ensures |Split(s, dot)| == 1 ==> s == Split(s, dot)[0]
    ensures |Split(s, dot)| > 1 ==> exists t :: s == Split(s, dot)[0] + [dot] + t && Split(s, dot) == [Split(s, dot)[0]] + Split(t, dot)
  {
    if s != "" {
      SplitJoin(s[1..], dot);
      var parts := Split(s[1..], dot);
      if s[0] == dot {
        assert s == "" + [dot] + s[1..];
      } else {
        assert s == [s[0]] + s[1..];
        if |parts| > 1 {
          var t :| s[1..] == parts[0] + [dot] + t && parts == [parts[0]] + Split(t, dot);
          assert s == ([s[0]] + parts[0]) + [dot] + t;
          assert Split(s, dot) == [Split(s, dot)[0]] + Split(t, dot);
        }
      }
    }
  }

  predicate WellFormed(c: Codec, token: CursorToken) {
    c.parse(c.json(token)) == IsToken(token) && c.json(token) != [] && c.hmac(Base64UrlEncode(c.json(token))) != []
  }

  // A token that JSON gives back is given back by the signed cursor: the alphabet has no dot.
  lemma DecodeInvertsEncodeSigned(c: Codec, token: CursorToken)
    requires WellFormed(c, token)
    ensures DecodeSignedCursor(c, Some(EncodeSignedCursor(c, token))) == Token(token)
  {
    hide Base64UrlEncode, Base64UrlDecode;
    var data := Base64UrlEncode(c.json(token));
    var sig := Sign(c, data);
    EncodeIsUrlSafe(c.json(token));
    EncodeIsUrlSafe(c.hmac(data));
    SplitAt(data, sig, '.');
    SplitOne(sig, '.');
    assert Split(data + "." + sig, '.') == [data, sig];
    DecodeInvertsEncode(c.json(token));
  }

  // The shape of an accepted cursor: a signed part and its signature, and nothing but a dot may follow; what
  // comes behind a second dot is not looked at.
  predicate Signed(c: Codec, cursor: string, data: string) {
    && data != "" && '.' !in data
    && var sig := Base64UrlEncode(c.hmac(data));
       sig != "" && (cursor == data + "." + sig || data + "." + sig + "." <= cursor)
  }

  // No cursor is accepted without the signature of its data, and with it the answer is what the data say.
  lemma AcceptedIffSigned(c: Codec, cursor: string, data: string)
    requires Signed(c, cursor, data)
    ensures DecodeSignedCursor(c, Some(cursor)) ==
            match c.parse(Base64UrlDecode(data)) { case Throws => Thrown case NoToken => Null case IsToken(token) => Token(token) }
  {
    hide Base64UrlEncode, Base64UrlDecode;
    var sig := Sign(c, data);
    EncodeIsUrlSafe(c.hmac(data));
    if cursor == data + "." + sig {
      SplitAt(data, sig, '.');
      SplitOne(sig, '.');
    } else {
      var rest := cursor[|data| + 1 + |sig| + 1..];
      var tail := sig + "." + rest;
      assert cursor == data + "." + tail;
      SplitAt(data, tail, '.');
      SplitAt(sig, rest, '.');
    }
  }

  lemma OnlySignedIsAccepted(c: Codec, cursor: string) returns (data: string)
    requires DecodeSignedCursor(c, Some(cursor)) != Null
    ensures Signed(c, cursor, data)
  {
    hide Base64UrlEncode, Base64UrlDecode;
    var parts := Split(cursor, '.');
    data := parts[0];
    SplitJoin(cursor, '.');
    var t :| cursor == parts[0] + "." + t && parts == [parts[0]] + Split(t, '.');
    SplitJoin(t, '.');
    if |Split(t, '.')| > 1 {
      var rest :| t == parts[1] + "." + rest && Split(t, '.') == [parts[1]] + Split(rest, '.');
      assert cursor == (parts[0] + "." + parts[1] + ".") + rest;
    }
  }
}
