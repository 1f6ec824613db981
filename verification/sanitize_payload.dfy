// sanitizePayload: what a payload shows after sensitive keys, deep levels, long arrays and long strings are cut,
// and what it therefore cannot show.
module SanitizePayload {
  import opened GlobPatterns

  // Opaque stands for the values of every other type: functions, symbols, big integers.
  datatype Json =
    | Null | Undefined | Str(s: string) | Num(n: int) | Bool(b: bool)
    | Arr(items: seq<Json>) | Obj(fields: seq<Field>) | Opaque(id: int)

  // Own properties in the order of Object.entries; no key twice.
  datatype Field = Field(key: string, value: Json)

  const SENSITIVE_KEYS := ["password", "token", "secret", "key", "auth", "credential", "userid", "user_id"]

  // `lower` is String.toLowerCase.
  predicate Sensitive(lower: string -> string, key: string) {
    exists i :: 0 <= i < |SENSITIVE_KEYS| && Contains(lower(key), SENSITIVE_KEYS[i])
  }

  function Truncated(s: string): string { if |s| > 100 then s[..100] + "..." else s }

  // What sanitizePayload makes of a value at a depth.
  function Sanitized(lower: string -> string, v: Json, depth: int, maxDepth: int): Json
    decreases v
  {
    if depth > maxDepth then Str("[Nested Object]")
    else
      match v
      case Null => v
      case Undefined => v
      case Str(s) => Str(Truncated(s))
      case Num(_) => v
      case Bool(_) => v
      case Arr(items) =>
        var n := if |items| > 10 then 10 else |items|;
        Arr(seq(n, i requires 0 <= i < n => Sanitized(lower, items[i], depth + 1, maxDepth)))
      case Obj(fields) =>
        Obj(seq(|fields|, i requires 0 <= i < |fields| => Shown(lower, fields[i], depth + 1, maxDepth)))
      case Opaque(_) => Str("[Unknown Type]")
  }

  function Shown(lower: string -> string, f: Field, depth: int, maxDepth: int): Field
    decreases f
  {
    Field(f.key, if Sensitive(lower, f.key) then Str("[Sensitive Data]") else Sanitized(lower, f.value, depth, maxDepth))
  }

  // A payload that is not an object becomes the empty one. The parameter's type excludes arrays.
  function SanitizedPayload(lower: string -> string, payload: Json, maxDepth: int): Json
    requires !payload.Arr?
  {
    if !payload.Obj? then Obj([])
    else Obj(seq(|payload.fields|, i requires 0 <= i < |payload.fields| => Shown(lower, payload.fields[i], 1, maxDepth)))
  }

  // ----- The source's loops -----

  method SanitizeValue(lower: string -> string, value: Json, depth: int, maxDepth: int) returns (shown: Json)
    ensures shown == Sanitized(lower, value, depth, maxDepth)
    decreases value, 0
  {
    if depth > maxDepth { return Str("[Nested Object]"); }
    match value {
      case Null => shown := value;
      case Undefined => shown := value;
      case Str(s) => shown := Str(if |s| > 100 then s[..100] + "..." else s);
      case Num(_) => shown := value;
      case Bool(_) => shown := value;
      case Arr(items) =>
        var n := if |items| > 10 then 10 else |items|;
        var mapped: seq<Json> := [];
        for i := 0 to n
          invariant mapped == seq(i, j requires 0 <= j < i => Sanitized(lower, items[j], depth + 1, maxDepth))
        {
          var item := SanitizeValue(lower, items[i], depth + 1, maxDepth);
          mapped := mapped + [item];
        }
        shown := Arr(mapped);
      case Obj(fields) =>
        var sanitizedObj: seq<Field> := [];
        for i := 0 to |fields|
          invariant sanitizedObj == seq(i, j requires 0 <= j < i => Shown(lower, fields[j], depth + 1, maxDepth))
        {
          assert fields[i] < value;
          var field := SanitizeField(lower, fields[i], depth + 1, maxDepth);
          sanitizedObj := sanitizedObj + [field];
        }
        shown := Obj(sanitizedObj);
      case Opaque(_) => shown := Str("[Unknown Type]");
    }
  }

  method SanitizeField(lower: string -> string, field: Field, depth: int, maxDepth: int) returns (shown: Field)
    ensures shown == Shown(lower, field, depth, maxDepth)
    decreases field, 1
  {
    if Sensitive(lower, field.key) {
      shown := Field(field.key, Str("[Sensitive Data]"));
    } else {
      var value := SanitizeValue(lower, field.value, depth, maxDepth);
      shown := Field(field.key, value);
    }
  }

  method Sanitize(lower: string -> string, payload: Json, maxDepth: int) returns (sanitized: Json)
    requires !payload.Arr?
    ensures sanitized == SanitizedPayload(lower, payload, maxDepth)
  {
    if !payload.Obj? { return Obj([]); }
    var entries := payload.fields;
    var fields: seq<Field> := [];
    for i := 0 to |entries|
      invariant fields == seq(i, j requires 0 <= j < i => Shown(lower, entries[j], 1, maxDepth))
    {
      var field := SanitizeField(lower, entries[i], 1, maxDepth);
      fields := fields + [field];
    }
    sanitized := Obj(fields);
  }

  // ----- Idempotence -----

  lemma {:induction false} SanitizedIdempotent(lower: string -> string, v: Json, depth: int, maxDepth: int)
    ensures Sanitized(lower, Sanitized(lower, v, depth, maxDepth), depth, maxDepth) == Sanitized(lower, v, depth, maxDepth)
    decreases v
  {
    var once := Sanitized(lower, v, depth, maxDepth);
    if depth <= maxDepth && v.Arr? {
      forall i | 0 <= i < |once.items|
        ensures Sanitized(lower, once.items[i], depth + 1, maxDepth) == once.items[i]
      {
        SanitizedIdempotent(lower, v.items[i], depth + 1, maxDepth);
      }
      assert Sanitized(lower, once, depth, maxDepth).items == once.items;
    } else if depth <= maxDepth && v.Obj? {
      forall i | 0 <= i < |once.fields|
        ensures Shown(lower, once.fields[i], depth + 1, maxDepth) == once.fields[i]
      {
        assert v.fields[i] < v;
        ShownIdempotent(lower, v.fields[i], depth + 1, maxDepth);
      }
      assert Sanitized(lower, once, depth, maxDepth).fields == once.fields;
    }
  }

  lemma {:induction false} ShownIdempotent(lower: string -> string, f: Field, depth: int, maxDepth: int)
    ensures Shown(lower, Shown(lower, f, depth, maxDepth), depth, maxDepth) == Shown(lower, f, depth, maxDepth)
    decreases f
  {
    SanitizedIdempotent(lower, f.value, depth, maxDepth);
  }

  // Sanitizing what has been sanitized changes nothing.
  lemma PayloadIdempotent(lower: string -> string, payload: Json, maxDepth: int)
    requires !payload.Arr?
    ensures SanitizedPayload(lower, SanitizedPayload(lower, payload, maxDepth), maxDepth) == SanitizedPayload(lower, payload, maxDepth)
  {
    var once := SanitizedPayload(lower, payload, maxDepth);
    forall i | 0 <= i < |once.fields|
      ensures Shown(lower, once.fields[i], 1, maxDepth) == once.fields[i]
    {
      ShownIdempotent(lower, payload.fields[i], 1, maxDepth);
    }
    assert SanitizedPayload(lower, once, maxDepth).fields == once.fields;
  }

  // ----- What cannot be seen -----

  // An opaque value reads like the text that stands for it.
  function Text(v: Json): Json { if v.Opaque? then Str("[Unknown Type]") else v }

  // The two values differ at most under sensitive keys, below the depth limit, behind the tenth item, or behind
  // the hundredth character of strings that are both longer.
  predicate Alike(lower: string -> string, a: Json, b: Json, depth: int, maxDepth: int)
    decreases a
  {
    depth > maxDepth ||
    match a
    case Arr(items) =>
      b.Arr? && (|items| == |b.items| || (|items| >= 10 && |b.items| >= 10)) &&
      forall i :: 0 <= i < 10 && i < |items| && i < |b.items| ==> Alike(lower, items[i], b.items[i], depth + 1, maxDepth)
    case Obj(fields) =>
      b.Obj? && |fields| == |b.fields| &&
      forall i :: 0 <= i < |fields| ==> AlikeField(lower, fields[i], b.fields[i], depth + 1, maxDepth)
    case Str(s) => Text(b).Str? && (s == Text(b).s || (|s| > 100 && |Text(b).s| > 100 && s[..100] == Text(b).s[..100]))
    case Opaque(_) => Text(b) == Text(a)
    case _ => a == b
  }

  predicate AlikeField(lower: string -> string, f: Field, g: Field, depth: int, maxDepth: int)
    decreases f
  {
    f.key == g.key && (Sensitive(lower, f.key) || Alike(lower, f.value, g.value, depth, maxDepth))
  }

  lemma TruncatedEqual(s: string, t: string)
    ensures Truncated(s) == Truncated(t) <==> s == t || (|s| > 100 && |t| > 100 && s[..100] == t[..100])
  {
    if |s| > 100 && |t| > 100 {
      assert Truncated(s)[..100] == s[..100] && Truncated(t)[..100] == t[..100];
    }
    assert |s| > 100 ==> |Truncated(s)| == 103;
    assert |t| > 100 ==> |Truncated(t)| == 103;
  }

  // Non-interference, and that nothing else is hidden: two values show the same exactly when they are alike.
  lemma {:induction false} SameShownIffAlike(lower: string -> string, a: Json, b: Json, depth: int, maxDepth: int)
    ensures Sanitized(lower, a, depth, maxDepth) == Sanitized(lower, b, depth, maxDepth) <==> Alike(lower, a, b, depth, maxDepth)
    decreases a
  {
    if depth <= maxDepth {
      if a.Str? && Text(b).Str? {
        TruncatedEqual(a.s, Text(b).s);
      } else if a.Opaque? && b.Str? {
        TruncatedEqual("[Unknown Type]", b.s);
      } else if a.Arr? && b.Arr? {
        ItemsAlike(lower, a, b, depth, maxDepth);
      } else if a.Obj? && b.Obj? {
        FieldsAlike(lower, a, b, depth, maxDepth);
      }
    }
  }

  lemma {:induction false} ItemsAlike(lower: string -> string, a: Json, b: Json, depth: int, maxDepth: int)
    requires depth <= maxDepth && a.Arr? && b.Arr?
    ensures Sanitized(lower, a, depth, maxDepth) == Sanitized(lower, b, depth, maxDepth) <==> Alike(lower, a, b, depth, maxDepth)
    decreases a, 0
  {
    var x, y := Sanitized(lower, a, depth, maxDepth).items, Sanitized(lower, b, depth, maxDepth).items;
    forall i | 0 <= i < |x| && i < |y|
      ensures x[i] == y[i] <==> Alike(lower, a.items[i], b.items[i], depth + 1, maxDepth)
    {
      SameShownIffAlike(lower, a.items[i], b.items[i], depth + 1, maxDepth);
    }
    assert x == y <==> |x| == |y| && forall i :: 0 <= i < |x| && i < |y| ==> x[i] == y[i];
  }

  lemma {:induction false} FieldsAlike(lower: string -> string, a: Json, b: Json, depth: int, maxDepth: int)
    requires depth <= maxDepth && a.Obj? && b.Obj?
    ensures Sanitized(lower, a, depth, maxDepth) == Sanitized(lower, b, depth, maxDepth) <==> Alike(lower, a, b, depth, maxDepth)
    decreases a, 0
  {
    var x, y := Sanitized(lower, a, depth, maxDepth).fields, Sanitized(lower, b, depth, maxDepth).fields;
    forall i | 0 <= i < |x| && i < |y|
      ensures x[i] == y[i] <==> AlikeField(lower, a.fields[i], b.fields[i], depth + 1, maxDepth)
    {
      assert a.fields[i] < a;
      ShownIffAlike(lower, a.fields[i], b.fields[i], depth + 1, maxDepth);
    }
    assert x == y <==> |x| == |y| && forall i :: 0 <= i < |x| && i < |y| ==> x[i] == y[i];
  }

  lemma {:induction false} ShownIffAlike(lower: string -> string, f: Field, g: Field, depth: int, maxDepth: int)
    ensures Shown(lower, f, depth, maxDepth) == Shown(lower, g, depth, maxDepth) <==> AlikeField(lower, f, g, depth, maxDepth)
    decreases f
  {
    SameShownIffAlike(lower, f.value, g.value, depth, maxDepth);
  }

  // The payload as a whole.
  lemma PayloadShowsWhatIsAlike(lower: string -> string, a: Json, b: Json, maxDepth: int)
    requires a.Obj? && b.Obj?
    ensures SanitizedPayload(lower, a, maxDepth) == SanitizedPayload(lower, b, maxDepth) <==>
            |a.fields| == |b.fields| && forall i :: 0 <= i < |a.fields| ==> AlikeField(lower, a.fields[i], b.fields[i], 1, maxDepth)
  {
    var x, y := SanitizedPayload(lower, a, maxDepth).fields, SanitizedPayload(lower, b, maxDepth).fields;
    forall i | 0 <= i < |x| && i < |y|
      ensures x[i] == y[i] <==> AlikeField(lower, a.fields[i], b.fields[i], 1, maxDepth)
    {
      ShownIffAlike(lower, a.fields[i], b.fields[i], 1, maxDepth);
    }
    assert x == y <==> |x| == |y| && forall i :: 0 <= i < |x| && i < |y| ==> x[i] == y[i];
  }

  // ----- How large it can get -----

  // At most `levels` levels of arrays and objects, arrays of at most ten items, strings of at most 103
  // characters, and nothing opaque.
  predicate Small(v: Json, levels: int)
    decreases v
  {
    match v
    case Str(s) => |s| <= 103
    case Arr(items) => levels > 0 && |items| <= 10 && forall i :: 0 <= i < |items| ==> Small(items[i], levels - 1)
    case Obj(fields) => levels > 0 && forall i :: 0 <= i < |fields| ==> SmallField(fields[i], levels - 1)
    case Opaque(_) => false
    case _ => true
  }

  predicate SmallField(f: Field, levels: int)
    decreases f
  {
    Small(f.value, levels)
  }

  lemma {:induction false} SanitizedIsSmall(lower: string -> string, v: Json, depth: int, maxDepth: int)
    ensures Small(Sanitized(lower, v, depth, maxDepth), maxDepth - depth + 1)
    decreases v
  {
    if depth <= maxDepth && v.Arr? {
      forall i | 0 <= i < 10 && i < |v.items|
        ensures Small(Sanitized(lower, v.items[i], depth + 1, maxDepth), maxDepth - depth)
      {
        SanitizedIsSmall(lower, v.items[i], depth + 1, maxDepth);
      }
    } else if depth <= maxDepth && v.Obj? {
      forall i | 0 <= i < |v.fields|
        ensures SmallField(Shown(lower, v.fields[i], depth + 1, maxDepth), maxDepth - depth)
      {
        assert v.fields[i] < v;
        ShownIsSmall(lower, v.fields[i], depth + 1, maxDepth);
      }
    }
  }

  lemma {:induction false} ShownIsSmall(lower: string -> string, f: Field, depth: int, maxDepth: int)
    ensures SmallField(Shown(lower, f, depth, maxDepth), maxDepth - depth + 1)
    decreases f
  {
    SanitizedIsSmall(lower, f.value, depth, maxDepth);
  }

  // With the default maxDepth of two a payload shows at most three levels.
  lemma PayloadIsSmall(lower: string -> string, payload: Json, maxDepth: int)
    requires maxDepth >= 0 && !payload.Arr?
    ensures Small(SanitizedPayload(lower, payload, maxDepth), maxDepth + 1)
  {
    if payload.Obj? {
      forall i | 0 <= i < |payload.fields|
        ensures SmallField(Shown(lower, payload.fields[i], 1, maxDepth), maxDepth)
      {
        ShownIsSmall(lower, payload.fields[i], 1, maxDepth);
      }
    }
  }

  // ----- What is shown as it is -----

  // Which keys are sensitive: those that contain one of eight words, in any case.
  lemma SensitiveIff(lower: string -> string, key: string)
    ensures Sensitive(lower, key) <==>
            var k := lower(key);
            || Contains(k, "password") || Contains(k, "token") || Contains(k, "secret") || Contains(k, "key")
            || Contains(k, "auth") || Contains(k, "credential") || Contains(k, "userid") || Contains(k, "user_id")
  {
    var words := SENSITIVE_KEYS;
    assert words[0] == "password" && words[1] == "token" && words[2] == "secret" && words[3] == "key";
    assert words[4] == "auth" && words[5] == "credential" && words[6] == "userid" && words[7] == "user_id";
    assert |words| == 8;
  }

  // What replaces the rest: a marker under a sensitive key, below the depth limit and for values of other types,
  // and the first hundred characters of a longer string.
  lemma Replaced(lower: string -> string, f: Field, v: Json, depth: int, maxDepth: int)
    ensures Shown(lower, f, depth, maxDepth).key == f.key
    ensures Sensitive(lower, f.key) ==> Shown(lower, f, depth, maxDepth).value == Str("[Sensitive Data]")
    ensures depth > maxDepth ==> Sanitized(lower, v, depth, maxDepth) == Str("[Nested Object]")
    ensures depth <= maxDepth && v.Opaque? ==> Sanitized(lower, v, depth, maxDepth) == Str("[Unknown Type]")
    ensures depth <= maxDepth && v.Str? && |v.s| > 100 ==> Sanitized(lower, v, depth, maxDepth) == Str(v.s[..100] + "...")
    ensures depth <= maxDepth && v.Arr? && |v.items| > 10 ==>
              Sanitized(lower, v, depth, maxDepth) == Sanitized(lower, Arr(v.items[..10]), depth, maxDepth)
  {
    if depth <= maxDepth && v.Arr? && |v.items| > 10 {
      assert Sanitized(lower, v, depth, maxDepth).items == Sanitized(lower, Arr(v.items[..10]), depth, maxDepth).items;
    }
  }

  // Nothing in it to hide or to cut.
  predicate Plain(lower: string -> string, v: Json, depth: int, maxDepth: int)
    decreases v
  {
    depth <= maxDepth &&
    match v
    case Str(s) => |s| <= 100
    case Arr(items) => |items| <= 10 && forall i :: 0 <= i < |items| ==> Plain(lower, items[i], depth + 1, maxDepth)
    case Obj(fields) => forall i :: 0 <= i < |fields| ==> PlainField(lower, fields[i], depth + 1, maxDepth)
    case Opaque(_) => false
    case _ => true
  }

  predicate PlainField(lower: string -> string, f: Field, depth: int, maxDepth: int)
    decreases f
  {
    !Sensitive(lower, f.key) && Plain(lower, f.value, depth, maxDepth)
  }

  lemma {:induction false} PlainStays(lower: string -> string, v: Json, depth: int, maxDepth: int)
    requires Plain(lower, v, depth, maxDepth)
    ensures Sanitized(lower, v, depth, maxDepth) == v
    decreases v
  {
    if v.Arr? {
      forall i | 0 <= i < |v.items|
        ensures Sanitized(lower, v.items[i], depth + 1, maxDepth) == v.items[i]
      {
        PlainStays(lower, v.items[i], depth + 1, maxDepth);
      }
      assert Sanitized(lower, v, depth, maxDepth).items == v.items;
    } else if v.Obj? {
      forall i | 0 <= i < |v.fields|
        ensures Shown(lower, v.fields[i], depth + 1, maxDepth) == v.fields[i]
      {
        assert v.fields[i] < v && PlainField(lower, v.fields[i], depth + 1, maxDepth);
        PlainStays(lower, v.fields[i].value, depth + 1, maxDepth);
      }
      assert Sanitized(lower, v, depth, maxDepth).fields == v.fields;
    }
  }

  // A payload with nothing to hide comes out as it went in.
  lemma PlainPayloadStays(lower: string -> string, payload: Json, maxDepth: int)
    requires payload.Obj? && forall i :: 0 <= i < |payload.fields| ==> PlainField(lower, payload.fields[i], 1, maxDepth)
    ensures SanitizedPayload(lower, payload, maxDepth) == payload
  {
    forall i | 0 <= i < |payload.fields|
      ensures Shown(lower, payload.fields[i], 1, maxDepth) == payload.fields[i]
    {
      assert PlainField(lower, payload.fields[i], 1, maxDepth);
      PlainStays(lower, payload.fields[i].value, 1, maxDepth);
    }
    assert SanitizedPayload(lower, payload, maxDepth).fields == payload.fields;
  }
}
