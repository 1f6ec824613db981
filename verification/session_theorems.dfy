// What holds in every run of logins, refreshes and logouts: a cached token key always stands for a session that
// may use it, and a logout is final.
module SessionTheorems {
  import opened CacheStore
  import opened GlobPatterns
  import opened SessionTokens

  predicate HasToken(s: State, uid: string, kind: Kind, ssid: string) { TokenKey(uid, kind, ssid) in s.db }

  // How long a key of this kind may outlive its session, in seconds: a refresh just before the session ends
  // still buys an access key of full length.
  function Grace(kind: Kind): int { if kind.Access? then ACCESS_TTL else 0 }

  predicate Backed(s: State, uid: string, kind: Kind, ssid: string) {
    && HasToken(s, uid, kind, ssid)
    && ssid in s.sessions && s.sessions[ssid].userId == uid && !s.sessions[ssid].revoked
    && s.db[TokenKey(uid, kind, ssid)].expireAt.Some?
    && s.db[TokenKey(uid, kind, ssid)].expireAt.value <= s.sessions[ssid].expiresAt + 1000 * Grace(kind)
  }

  ghost predicate Inv(s: State) {
    && (forall id :: id in s.sessions ==> Digits(s.sessions[id].userId) && Digits(id))
    && (forall uid, kind, ssid :: Digits(uid) && Digits(ssid) && HasToken(s, uid, kind, ssid) ==>
          Backed(s, uid, kind, ssid))
  }

  lemma IssueKeeps(s: State, uid: string, ssid: string)
    requires Inv(s) && Digits(uid) && Digits(ssid) && ssid !in s.sessions
    ensures Inv(Issue(s, uid, ssid))
  {
    var t := Issue(s, uid, ssid);
    assert TokenKey(uid, Access, ssid) != TokenKey(uid, Refresh, ssid) by {
      if TokenKey(uid, Access, ssid) == TokenKey(uid, Refresh, ssid) {
        TokenKeyIsInjective(uid, Access, ssid, uid, Refresh, ssid);
      }
    }
    forall u, k, d | Digits(u) && Digits(d) && HasToken(t, u, k, d)
      ensures Backed(t, u, k, d)
    {
      if TokenKey(u, k, d) == TokenKey(uid, Access, ssid) {
        TokenKeyIsInjective(u, k, d, uid, Access, ssid);
      } else if TokenKey(u, k, d) == TokenKey(uid, Refresh, ssid) {
        TokenKeyIsInjective(u, k, d, uid, Refresh, ssid);
      } else {
        assert HasToken(s, u, k, d);
      }
    }
  }

  lemma RenewKeeps(s: State, ssid: string, known: bool)
    requires Inv(s) && Digits(ssid)
    ensures Inv(Renew(s, ssid, known).0)
  {
    var (t, answer) := Renew(s, ssid, known);
    if answer == Done {
      var uid := s.sessions[ssid].userId;
      forall u, k, d | Digits(u) && Digits(d) && HasToken(t, u, k, d)
        ensures Backed(t, u, k, d)
      {
        if TokenKey(u, k, d) == TokenKey(uid, Access, ssid) {
          TokenKeyIsInjective(u, k, d, uid, Access, ssid);
        } else {
          assert HasToken(s, u, k, d);
        }
      }
    }
  }

  lemma LogoutOneKeeps(s: State, ssid: string)
    requires Inv(s) && Digits(ssid)
    ensures Inv(LogoutOne(s, ssid).0)
  {
    var t := LogoutOne(s, ssid).0;
    forall u, k, d | Digits(u) && Digits(d) && HasToken(t, u, k, d)
      ensures Backed(t, u, k, d)
    {
      assert HasToken(s, u, k, d);
      SessionPatternMatches(u, k, d, ssid);
      SameLengthSuffix(d, d);
    }
  }

  lemma LogoutUserKeeps(s: State, uid: string)
    requires Inv(s) && Digits(uid)
    ensures Inv(LogoutUser(s, uid))
  {
    var t := LogoutUser(s, uid);
    forall u, k, d | Digits(u) && Digits(d) && HasToken(t, u, k, d)
      ensures Backed(t, u, k, d)
    {
      assert HasToken(s, u, k, d);
      UserPatternMatches(u, k, d, uid);
    }
  }

  lemma AdvanceKeeps(s: State, ms: nat)
    requires Inv(s)
    ensures Inv(s.(now := s.now + ms))
  {
    var t := s.(now := s.now + ms);
    forall u, k, d | Digits(u) && Digits(d) && HasToken(t, u, k, d)
      ensures Backed(t, u, k, d)
    {
      assert HasToken(s, u, k, d);
    }
  }

  lemma ApplyKeeps(s: State, a: Action)
    requires Inv(s) && Proper(s, a)
    ensures Inv(Apply(s, a).0)
  {
    match a {
      case GenerateToken(uid, ssid) => IssueKeeps(s, uid, ssid);
      case RefreshToken(ssid, known) => RenewKeeps(s, ssid, known);
      case Logout(ssid) => LogoutOneKeeps(s, ssid);
      case LogoutAll(uid) => LogoutUserKeeps(s, uid);
      case Advance(ms) => AdvanceKeeps(s, ms);
    }
  }

  lemma {:induction false} RunKeeps(s: State, actions: seq<Action>)
    requires Inv(s) && ProperRun(s, actions)
    ensures Inv(Run(s, actions))
    decreases |actions|
  {
    if actions != [] {
      RunKeeps(s, actions[..|actions| - 1]);
      ApplyKeeps(Run(s, actions[..|actions| - 1]), actions[|actions| - 1]);
    }
  }

  // Whoever passes a guard has an existing session that is his and was never revoked; behind the refresh guard
  // the session has not expired, behind the access guard it did not expire more than an hour ago.
  lemma GuardMeansSession(now: int, actions: seq<Action>, uid: string, kind: Kind, ssid: string)
    requires ProperRun(State(now, map[], map[]), actions) && Digits(uid) && Digits(ssid)
    requires GuardPasses(Run(State(now, map[], map[]), actions), uid, kind, ssid)
    ensures var s := Run(State(now, map[], map[]), actions);
            && ssid in s.sessions && s.sessions[ssid].userId == uid && !s.sessions[ssid].revoked
            && s.now <= s.sessions[ssid].expiresAt + 1000 * Grace(kind)
  {
    var s := Run(State(now, map[], map[]), actions);
    RunKeeps(State(now, map[], map[]), actions);
    assert HasToken(s, uid, kind, ssid);
  }

  // ----- Access after the session's end -----

  // The access key that refreshToken stores, some time later.
  lemma RenewedKeyAt(s: State, ssid: string, ms: nat)
    requires Renew(s, ssid, true).1 == Done
    ensures GuardPasses(Apply(Renew(s, ssid, true).0, Advance(ms)).0, s.sessions[ssid].userId, Access, ssid) <==>
            ms <= 1000 * ACCESS_TTL - 500
  {
  }

  // refreshToken tests that the session has not ended, not when it will: the access key it stores passes the
  // guard at some moment after the session's end exactly when less than the key's lifetime was left of the
  // session (half a second aside, which the rounding of TTL takes).
  lemma AccessOutlivesSessionIff(s: State, ssid: string)
    requires Renew(s, ssid, true).1 == Done
    ensures (exists ms: nat :: s.now + ms > s.sessions[ssid].expiresAt &&
               GuardPasses(Apply(Renew(s, ssid, true).0, Advance(ms)).0, s.sessions[ssid].userId, Access, ssid)) <==>
            s.now + 1000 * ACCESS_TTL - 500 > s.sessions[ssid].expiresAt
  {
    var uid, end := s.sessions[ssid].userId, s.sessions[ssid].expiresAt;
    if s.now + 1000 * ACCESS_TTL - 500 > end {
      RenewedKeyAt(s, ssid, end + 1 - s.now);
    }
    forall ms: nat | GuardPasses(Apply(Renew(s, ssid, true).0, Advance(ms)).0, uid, Access, ssid)
      ensures ms <= 1000 * ACCESS_TTL - 500
    {
      RenewedKeyAt(s, ssid, ms);
    }
  }

  // The key of a login is never among them: its hour is over long before the session's seven days.
  lemma LoginKeyEndsFirst(s: State, uid: string, ssid: string, ms: nat)
    requires Digits(uid) && Digits(ssid)
    ensures var t := Apply(Issue(s, uid, ssid), Advance(ms)).0;
            GuardPasses(t, uid, Access, ssid) ==> t.now <= t.sessions[ssid].expiresAt
  {
    if TokenKey(uid, Access, ssid) == TokenKey(uid, Refresh, ssid) {
      TokenKeyIsInjective(uid, Access, ssid, uid, Refresh, ssid);
    }
  }

  // A run that gets there: a login, a refresh in the last moment of the session, and almost an hour more.
  function LastMinuteRefresh(uid: string, ssid: string): seq<Action> {
    [GenerateToken(uid, ssid)] + [Advance(1000 * REFRESH_TTL)] + [RefreshToken(ssid, true)] + [Advance(1000 * (ACCESS_TTL - 1))]
  }

  lemma OneMore(s: State, actions: seq<Action>, a: Action)
    ensures Run(s, actions + [a]) == Apply(Run(s, actions), a).0
    ensures ProperRun(s, actions + [a]) <==> ProperRun(s, actions) && Proper(Run(s, actions), a)
  {
    assert (actions + [a])[..|actions|] == actions;
  }

  lemma AccessAfterTheEnd(now: int, uid: string, ssid: string)
    requires Digits(uid) && Digits(ssid)
    ensures var start := State(now, map[], map[]);
            var s := Run(start, LastMinuteRefresh(uid, ssid));
            && ProperRun(start, LastMinuteRefresh(uid, ssid))
            && GuardPasses(s, uid, Access, ssid)
            && ssid in s.sessions && s.now == s.sessions[ssid].expiresAt + 1000 * (ACCESS_TTL - 1)
  {
    var start, login := State(now, map[], map[]), GenerateToken(uid, ssid);
    var a, b := [login] + [Advance(1000 * REFRESH_TTL)], [login] + [Advance(1000 * REFRESH_TTL)] + [RefreshToken(ssid, true)];
    assert [] + [login] == [login];
    OneMore(start, [], login);
    OneMore(start, [login], Advance(1000 * REFRESH_TTL));
    OneMore(start, a, RefreshToken(ssid, true));
    OneMore(start, b, Advance(1000 * (ACCESS_TTL - 1)));
    hide TokenKey, Run, ProperRun, Digits, GuardPasses;
    assert Run(start, []) == start && ProperRun(start, []);
    var s := Run(start, a);
    assert Renew(s, ssid, true).1 == Done;
    RenewedKeyAt(s, ssid, 1000 * (ACCESS_TTL - 1));
  }

  // ----- Finality -----

  lemma {:induction false} RevokedStays(s: State, actions: seq<Action>, ssid: string)
    requires ProperRun(s, actions) && ssid in s.sessions && s.sessions[ssid].revoked
    ensures ssid in Run(s, actions).sessions && Run(s, actions).sessions[ssid].revoked
    decreases |actions|
  {
    if actions != [] {
      RevokedStays(s, actions[..|actions| - 1], ssid);
    }
  }

  lemma RevokedIsShutOut(s: State, later: seq<Action>, uid: string, kind: Kind, ssid: string)
    requires Inv(s) && ProperRun(s, later) && Digits(uid) && Digits(ssid)
    requires ssid in s.sessions && s.sessions[ssid].revoked
    ensures !GuardPasses(Run(s, later), uid, kind, ssid)
  {
    RunKeeps(s, later);
    RevokedStays(s, later, ssid);
    var t := Run(s, later);
    assert HasToken(t, uid, kind, ssid) ==> Backed(t, uid, kind, ssid);
  }

  // After logout no token of the session passes a guard again, whatever happens later.
  lemma LogoutIsFinal(s: State, later: seq<Action>, uid: string, kind: Kind, ssid: string)
    requires Inv(s) && Digits(uid) && Digits(ssid) && ssid in s.sessions
    requires ProperRun(Apply(s, Logout(ssid)).0, later)
    ensures !GuardPasses(Run(Apply(s, Logout(ssid)).0, later), uid, kind, ssid)
  {
    ApplyKeeps(s, Logout(ssid));
    RevokedIsShutOut(Apply(s, Logout(ssid)).0, later, uid, kind, ssid);
  }

  // After logoutAll no token of a session that the user had then passes a guard again.
  lemma LogoutAllIsFinal(s: State, later: seq<Action>, uid: string, kind: Kind, ssid: string)
    requires Inv(s) && Digits(uid) && ssid in s.sessions && s.sessions[ssid].userId == uid
    requires ProperRun(Apply(s, LogoutAll(uid)).0, later)
    ensures !GuardPasses(Run(Apply(s, LogoutAll(uid)).0, later), uid, kind, ssid)
  {
    ApplyKeeps(s, LogoutAll(uid));
    RevokedIsShutOut(Apply(s, LogoutAll(uid)).0, later, uid, kind, ssid);
  }

  // logoutAll changes nothing for anybody else, neither keys nor sessions.
  lemma LogoutAllSparesOthers(s: State, uid: string, other: string, kind: Kind, ssid: string)
    requires Digits(uid) && Digits(other) && Digits(ssid) && other != uid
    ensures var t := Apply(s, LogoutAll(uid)).0;
            && (TokenKey(other, kind, ssid) in t.db <==> TokenKey(other, kind, ssid) in s.db)
            && (TokenKey(other, kind, ssid) in s.db ==> t.db[TokenKey(other, kind, ssid)] == s.db[TokenKey(other, kind, ssid)])
            && (ssid in s.sessions && s.sessions[ssid].userId == other ==> t.sessions[ssid] == s.sessions[ssid])
  {
    UserPatternMatches(other, kind, ssid, uid);
  }

  // logout takes another session's key along exactly when that session's id ends with the given one, and
  // without revoking that session; ids of one length never do.
  lemma LogoutSparesUnlessSuffix(s: State, ssid: string, uid: string, kind: Kind, other: string)
    requires Digits(ssid) && other != ssid && TokenKey(uid, kind, other) in s.db
    ensures TokenKey(uid, kind, other) in Apply(s, Logout(ssid)).0.db <==> !EndsWith(other, ssid)
    ensures |other| == |ssid| ==> TokenKey(uid, kind, other) in Apply(s, Logout(ssid)).0.db
    ensures other in s.sessions ==> Apply(s, Logout(ssid)).0.sessions[other] == s.sessions[other]
  {
    SessionPatternMatches(uid, kind, other, ssid);
    if |other| == |ssid| {
      SameLengthSuffix(other, ssid);
    }
  }

  // ----- How long -----

  // The two keys of a login: the access key passes its guard for an hour, the refresh key to the session's end
  // seven days after the login (half a second aside, which the rounding of TTL takes).
  lemma LoginLifetimes(s: State, uid: string, ssid: string, ms: nat)
    requires Digits(uid) && Digits(ssid)
    ensures var t := Apply(Apply(s, GenerateToken(uid, ssid)).0, Advance(ms)).0;
            && ssid in t.sessions && t.sessions[ssid] == Session(uid, s.now + 1000 * 60 * 60 * 24 * 7, false)
            && (GuardPasses(t, uid, Access, ssid) <==> ms + 500 <= 1000 * 60 * 60)
            && (GuardPasses(t, uid, Refresh, ssid) <==> t.now + 500 <= t.sessions[ssid].expiresAt)
  {
    if TokenKey(uid, Access, ssid) == TokenKey(uid, Refresh, ssid) {
      TokenKeyIsInjective(uid, Access, ssid, uid, Refresh, ssid);
    }
  }

  // A refresh succeeds exactly for a session that exists, is not revoked and has not ended; it stores an access
  // key for an hour for the session's user, and touches nothing else.
  lemma RenewIff(s: State, ssid: string, known: bool)
    ensures var (t, answer) := Apply(s, RefreshToken(ssid, known));
            var good := ssid in s.sessions && !s.sessions[ssid].revoked && s.now <= s.sessions[ssid].expiresAt;
            && (answer == Done <==> good && known)
            && (answer == UserNotFound <==> good && !known)
            && (answer == SessionExpired <==> !good)
            && t.sessions == s.sessions && t.now == s.now
            && (answer != Done ==> t == s)
            && (answer == Done ==>
                  var key := TokenKey(s.sessions[ssid].userId, Access, ssid);
                  && TtlOf(t.db, key, t.now) == 3600
                  && forall k :: k != key ==> (k in t.db <==> k in s.db) && (k in s.db ==> t.db[k] == s.db[k]))
  {
  }

  // Whether a run logs a session out, or its user everywhere.
  predicate LogsOut(actions: seq<Action>, uid: string, ssid: string) {
    exists i :: 0 <= i < |actions| && (actions[i] == Logout(ssid) || actions[i] == LogoutAll(uid))
  }

  lemma LogsOutAppend(actions: seq<Action>, uid: string, ssid: string)
    requires actions != []
    ensures var n := |actions| - 1;
            LogsOut(actions, uid, ssid) <==> LogsOut(actions[..n], uid, ssid) || actions[n] == Logout(ssid) || actions[n] == LogoutAll(uid)
  {
    var n := |actions| - 1;
    if LogsOut(actions[..n], uid, ssid) {
      var i :| 0 <= i < n && (actions[..n][i] == Logout(ssid) || actions[..n][i] == LogoutAll(uid));
      assert actions[i] == actions[..n][i];
    }
    if LogsOut(actions, uid, ssid) && actions[n] != Logout(ssid) && actions[n] != LogoutAll(uid) {
      var i :| 0 <= i < |actions| && (actions[i] == Logout(ssid) || actions[i] == LogoutAll(uid));
      assert actions[..n][i] == actions[i];
    }
  }

  // A session keeps its user and its end whatever happens, and is revoked exactly by a logout of its own or of
  // its user everywhere.
  lemma {:induction false} SessionKept(s: State, actions: seq<Action>, ssid: string)
    requires ProperRun(s, actions) && ssid in s.sessions
    ensures var t := Run(s, actions);
            && ssid in t.sessions && t.sessions[ssid].userId == s.sessions[ssid].userId
            && t.sessions[ssid].expiresAt == s.sessions[ssid].expiresAt
            && (t.sessions[ssid].revoked <==> s.sessions[ssid].revoked || LogsOut(actions, s.sessions[ssid].userId, ssid))
    decreases |actions|
  {
    if actions != [] {
      SessionKept(s, actions[..|actions| - 1], ssid);
      LogsOutAppend(actions, s.sessions[ssid].userId, ssid);
    }
  }

  // So a login can be refreshed until its session's end, and exactly until it is logged out.
  lemma LoginCanBeRefreshed(s: State, uid: string, ssid: string, actions: seq<Action>)
    requires ProperRun(Apply(s, GenerateToken(uid, ssid)).0, actions)
    ensures var t := Run(Apply(s, GenerateToken(uid, ssid)).0, actions);
            Apply(t, RefreshToken(ssid, true)).1 == Done <==>
              t.now <= s.now + 1000 * 60 * 60 * 24 * 7 && !LogsOut(actions, uid, ssid)
  {
    var login := Apply(s, GenerateToken(uid, ssid)).0;
    SessionKept(login, actions, ssid);
    RenewIff(Run(login, actions), ssid, true);
  }

  // A logout answers whether there is such a session, and revokes that one only.
  lemma LogoutRevokes(s: State, ssid: string)
    ensures var (t, answer) := Apply(s, Logout(ssid));
            && answer == (if ssid in s.sessions then Done else SessionNotFound)
            && t.sessions.Keys == s.sessions.Keys
            && (forall id :: id in s.sessions ==>
                  t.sessions[id] == if id == ssid then s.sessions[id].(revoked := true) else s.sessions[id])
  {
  }

  // A login works at once, for both guards.
  lemma LoginPasses(s: State, uid: string, kind: Kind, ssid: string)
    requires Digits(uid) && Digits(ssid)
    ensures GuardPasses(Apply(s, GenerateToken(uid, ssid)).0, uid, kind, ssid)
  {
    if TokenKey(uid, Access, ssid) == TokenKey(uid, Refresh, ssid) {
      TokenKeyIsInjective(uid, Access, ssid, uid, Refresh, ssid);
    }
  }
}
