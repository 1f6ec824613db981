// Sessions and cached token keys: AuthService.generateToken, refreshToken, logout and logoutAll over the session
// rows of UsersService and the Redis key space. Clock in milliseconds.
module SessionTokens {
  import opened CacheStore
  import opened GlobPatterns

  const ACCESS_TTL := 3600
  const REFRESH_TTL := 604800

  datatype Kind = Access | Refresh

  datatype Session = Session(userId: string, expiresAt: int, revoked: bool)

  datatype State = State(now: int, db: map<string, Entry<string>>, sessions: map<string, Session>)

  // `known` says whether findById still has the session's user.
  datatype Action =
    | GenerateToken(uid: string, ssid: string)
    | RefreshToken(ssid: string, known: bool)
    | Logout(ssid: string)
    | LogoutAll(uid: string)
    | Advance(ms: nat)

  datatype Answer = Done | SessionNotFound | SessionExpired | UserNotFound | Nothing

  // ----- Keys and patterns -----

  // Ids are Snowflake numbers in decimal.
  predicate Digits(s: string) { s != "" && forall i :: 0 <= i < |s| ==> '0' <= s[i] <= '9' }

  function KindName(kind: Kind): string { if kind.Access? then "accessToken" else "refreshToken" }

  function UserPart(uid: string): string { "auth:user:" + uid + ":" }

  function TokenKey(uid: string, kind: Kind, ssid: string): string {
    UserPart(uid) + KindName(kind) + ":" + ssid
  }

  // deleteKeysBySuffix puts a star in front of the suffix it is given.
  function SessionPattern(ssid: string): string { "*" + ("*" + ssid) }

  function UserPattern(uid: string): string { "*" + (UserPart(uid) + "*") }

  // ----- Steps -----

  function Without(db: map<string, Entry<string>>, pattern: string): map<string, Entry<string>> {
    map k | k in db && !Glob(pattern, k) :: db[k]
  }

  function Issue(s: State, uid: string, ssid: string): State {
    s.(sessions := s.sessions[ssid := Session(uid, s.now + 1000 * REFRESH_TTL, false)],
       db := s.db[TokenKey(uid, Access, ssid) := Stored(uid, ACCESS_TTL, s.now)]
                 [TokenKey(uid, Refresh, ssid) := Stored(uid, REFRESH_TTL, s.now)])
  }

  function Renew(s: State, ssid: string, known: bool): (State, Answer) {
    if ssid !in s.sessions || s.sessions[ssid].revoked || s.now > s.sessions[ssid].expiresAt then (s, SessionExpired)
    else if !known then (s, UserNotFound)
    else (s.(db := s.db[TokenKey(s.sessions[ssid].userId, Access, ssid) := Stored(ssid, ACCESS_TTL, s.now)]), Done)
  }

  // The keys go even when the session is not found.
  function LogoutOne(s: State, ssid: string): (State, Answer) {
    var t := s.(db := Without(s.db, SessionPattern(ssid)));
    if ssid !in s.sessions then (t, SessionNotFound)
    else (t.(sessions := s.sessions[ssid := s.sessions[ssid].(revoked := true)]), Done)
  }

  function RevokedOf(sessions: map<string, Session>, uid: string): map<string, Session> {
    map id | id in sessions :: if sessions[id].userId == uid then sessions[id].(revoked := true) else sessions[id]
  }

  function LogoutUser(s: State, uid: string): State {
    s.(sessions := RevokedOf(s.sessions, uid), db := Without(s.db, UserPattern(uid)))
  }

  function Apply(s: State, a: Action): (State, Answer) {
    match a
    case GenerateToken(uid, ssid) => (Issue(s, uid, ssid), Done)
    case RefreshToken(ssid, known) => Renew(s, ssid, known)
    case Logout(ssid) => LogoutOne(s, ssid)
    case LogoutAll(uid) => (LogoutUser(s, uid), Done)
    case Advance(ms) => (s.(now := s.now + ms), Nothing)
  }

  function Run(s: State, actions: seq<Action>): State {
    if actions == [] then s else Apply(Run(s, actions[..|actions| - 1]), actions[|actions| - 1]).0
  }

  // Ids are decimal numbers, and a new session gets an id that no session has.
  predicate Proper(s: State, a: Action) {
    match a
    case GenerateToken(uid, ssid) => Digits(uid) && Digits(ssid) && ssid !in s.sessions
    case RefreshToken(ssid, _) => Digits(ssid)
    case Logout(ssid) => Digits(ssid)
    case LogoutAll(uid) => Digits(uid)
    case Advance(_) => true
  }

  predicate ProperRun(s: State, actions: seq<Action>) {
    actions == [] ||
    (ProperRun(s, actions[..|actions| - 1]) && Proper(Run(s, actions[..|actions| - 1]), actions[|actions| - 1]))
  }

  // The guard of a token with these claims; the signature has been checked before.
  predicate GuardPasses(s: State, uid: string, kind: Kind, ssid: string) {
    TtlOf(s.db, TokenKey(uid, kind, ssid), s.now) > 0
  }

  // ----- What the patterns match -----

  lemma DigitsAreLiteral(s: string)
    requires Digits(s)
    ensures Literal(s)
  {
  }

  // A suffix without ':' of a text that ends in ":tail" is a suffix of the tail.
  lemma SuffixAfterColon(head: string, tail: string, out: string)
    requires ':' !in out
    ensures EndsWith(head + ":" + tail, out) <==> EndsWith(tail, out)
  {
    var t := head + ":" + tail;
    if |out| <= |tail| {
      assert t[|t| - |out|..] == tail[|tail| - |out|..];
    } else if |out| <= |t| {
      var k := |out| - |tail| - 1;
      assert t[|t| - |out|..][k] == t[|head|] == ':';
      assert out[k] in out;
    }
  }

  // Which token keys a logout drops: those of every session whose id ends with the given one.
  lemma SessionPatternMatches(uid: string, kind: Kind, ssid: string, out: string)
    requires Digits(out)
    ensures Glob(SessionPattern(out), TokenKey(uid, kind, ssid)) <==> EndsWith(ssid, out)
  {
    DigitsAreLiteral(out);
    assert SessionPattern(out) == "**" + out;
    GlobTwoStars(out, TokenKey(uid, kind, ssid));
    SuffixAfterColon(UserPart(uid) + KindName(kind), ssid, out);
  }

  lemma SameLengthSuffix(s: string, t: string)
    requires |s| == |t|
    ensures EndsWith(s, t) <==> s == t
  {
    assert s[0..] == s;
  }

  // No user part starts inside a token key: "au" occurs at its start only.
  lemma UserPartStartsOnce(uid: string, kind: Kind, ssid: string, i: nat)
    requires Digits(uid) && Digits(ssid) && i + 1 < |TokenKey(uid, kind, ssid)|
    requires TokenKey(uid, kind, ssid)[i] == 'a' && TokenKey(uid, kind, ssid)[i + 1] == 'u'
    ensures i == 0
  {
    var key, name := TokenKey(uid, kind, ssid), KindName(kind);
    var u := 10 + |uid|;
    assert key[..10] == "auth:user:";
    assert forall j :: 10 <= j < u ==> key[j] == uid[j - 10];
    assert key[u] == ':' && key[u + 1 + |name|] == ':';
    assert forall j :: u < j < u + 1 + |name| ==> key[j] == name[j - u - 1];
    assert forall j :: u + 2 + |name| <= j < |key| ==> key[j] == ssid[j - u - 2 - |name|];
    NoAuInName(kind, i - u - 1);
  }

  lemma NoAuInName(kind: Kind, i: int)
    ensures 0 <= i < |KindName(kind)| && KindName(kind)[i] == 'a' ==> i + 1 < |KindName(kind)| && KindName(kind)[i + 1] == 'c'
  {
  }

  lemma SameUserPart(uid: string, out: string, rest: string)
    requires Digits(uid) && Digits(out)
    requires UserPart(out) <= UserPart(uid) + rest
    ensures uid == out
  {
    var key := UserPart(uid) + rest;
    assert forall j :: 0 <= j < |out| ==> key[10 + j] == UserPart(out)[10 + j] == out[j];
    assert key[10 + |out|] == UserPart(out)[10 + |out|] == ':';
    assert forall j :: 0 <= j < |uid| ==> key[10 + j] == uid[j];
    assert key[10 + |uid|] == ':';
  }

  lemma UserPartFound(uid: string, kind: Kind, ssid: string, out: string, i: nat)
    requires Digits(uid) && Digits(ssid) && Digits(out) && i <= |TokenKey(uid, kind, ssid)|
    requires UserPart(out) <= TokenKey(uid, kind, ssid)[i..]
    ensures uid == out
  {
    var key := TokenKey(uid, kind, ssid);
    assert UserPart(out)[0] == 'a' && UserPart(out)[1] == 'u';
    assert key[i..][0] == key[i] && key[i..][1] == key[i + 1];
    UserPartStartsOnce(uid, kind, ssid, i);
    assert key[0..] == UserPart(uid) + (KindName(kind) + ":" + ssid);
    SameUserPart(uid, out, KindName(kind) + ":" + ssid);
  }

  // Which token keys logoutAll drops: those of its user, and no other user's.
  lemma UserPatternMatches(uid: string, kind: Kind, ssid: string, out: string)
    requires Digits(uid) && Digits(ssid) && Digits(out)
    ensures Glob(UserPattern(out), TokenKey(uid, kind, ssid)) <==> uid == out
  {
    hide Glob;
    var key := TokenKey(uid, kind, ssid);
    DigitsAreLiteral(out);
    GlobContains(UserPart(out), key);
    if uid == out {
      assert key[0..] == UserPart(out) + (KindName(kind) + ":" + ssid);
      assert HasAt(key, UserPart(out), 0);
    }
    forall i | 0 <= i <= |key| && HasAt(key, UserPart(out), i)
      ensures uid == out
    {
      UserPartFound(uid, kind, ssid, out, i);
    }
  }

  // What follows the user part of a key.
  function Rest(kind: Kind, ssid: string): string { KindName(kind) + ":" + ssid }

  lemma KeySplit(uid: string, kind: Kind, ssid: string)
    ensures TokenKey(uid, kind, ssid) == UserPart(uid) + Rest(kind, ssid)
  {
  }

  lemma SameRest(kind: Kind, ssid: string, kind': Kind, ssid': string)
    requires Rest(kind, ssid) == Rest(kind', ssid')
    ensures kind == kind' && ssid == ssid'
  {
    var rest, rest' := Rest(kind, ssid), Rest(kind', ssid');
    assert rest[0] == KindName(kind)[0] && rest'[0] == KindName(kind')[0];
    assert ssid == rest[|KindName(kind)| + 1..] && ssid' == rest'[|KindName(kind)| + 1..];
  }

  lemma Cancel(head: string, a: string, b: string)
    requires head + a == head + b
    ensures a == b
  {
    assert (head + a)[|head|..] == a && (head + b)[|head|..] == b;
  }

  // Token keys name their user, kind and session.
  lemma TokenKeyIsInjective(uid: string, kind: Kind, ssid: string, uid': string, kind': Kind, ssid': string)
    requires Digits(uid) && Digits(ssid) && Digits(uid') && Digits(ssid')
    requires TokenKey(uid, kind, ssid) == TokenKey(uid', kind', ssid')
    ensures uid == uid' && kind == kind' && ssid == ssid'
  {
    hide TokenKey, UserPart, Rest, Digits;
    KeySplit(uid, kind, ssid);
    KeySplit(uid', kind', ssid');
    SameUserPart(uid, uid', Rest(kind, ssid));
    Cancel(UserPart(uid), Rest(kind, ssid), Rest(kind', ssid'));
    SameRest(kind, ssid, kind', ssid');
  }
}
