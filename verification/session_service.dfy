// AuthService and UsersService over CacheService and the session rows: each method is one step of SessionTokens.
module SessionService {
  import opened Wrappers
  import opened CacheStore
  import opened GlobPatterns
  import opened SessionTokens

  class UsersService {
    var sessions: map<string, Session>

    constructor ()
      ensures sessions == map[]
    {
      sessions := map[];
    }

    method CreateSession(id: string, session: Session)
      modifies this
      ensures sessions == old(sessions)[id := session]
    {
      sessions := sessions[id := session];
    }

    method RevokeSession(id: string) returns (found: bool)
      modifies this
      ensures found <==> id in old(sessions)
      ensures sessions == if found then old(sessions)[id := old(sessions)[id].(revoked := true)] else old(sessions)
    {
      if id !in sessions { return false; }
      var session := sessions[id];
      sessions := sessions[id := session.(revoked := true)];
      found := true;
    }

    method RevokeSessionsByUserId(userId: string)
      modifies this
      ensures sessions == RevokedOf(old(sessions), userId)
    {
      sessions := map id | id in sessions ::
        if sessions[id].userId == userId && !sessions[id].revoked then sessions[id].(revoked := true) else sessions[id];
    }

    method FindSessionById(id: string) returns (session: Option<Session>)
      ensures session == if id in sessions && !sessions[id].revoked then Some(sessions[id]) else None
    {
      session := if id in sessions && !sessions[id].revoked then Some(sessions[id]) else None;
    }
  }

  class AuthService {
    const cacheService: CacheService<string, string>
    const usersService: UsersService

    constructor (cacheService: CacheService<string, string>, usersService: UsersService)
      ensures this.cacheService == cacheService && this.usersService == usersService
    {
      this.cacheService := cacheService;
      this.usersService := usersService;
    }

    ghost function View(): State
      reads cacheService, usersService
    {
      State(cacheService.now, cacheService.db, usersService.sessions)
    }

    method DeleteKeysBySuffix(suffix: string)
      modifies cacheService`db
      ensures cacheService.db == Without(old(cacheService.db), "*" + suffix)
    {
      var deleted, names := cacheService.DeleteKeysByPattern(k => Glob("*" + suffix, k));
    }

    method GenerateToken(uid: string, ssid: string)
      modifies cacheService`db, usersService
      ensures View() == Apply(old(View()), SessionTokens.GenerateToken(uid, ssid)).0
    {
      usersService.CreateSession(ssid, Session(uid, cacheService.now + 60 * 60 * 24 * 7 * 1000, false));
      var access := cacheService.Set(TokenKey(uid, Access, ssid), uid, 60 * 60);
      var refresh := cacheService.Set(TokenKey(uid, Refresh, ssid), uid, 60 * 60 * 24 * 7);
    }

    method RefreshToken(ssid: string, known: bool) returns (answer: Answer)
      modifies cacheService`db
      ensures (View(), answer) == Apply(old(View()), SessionTokens.RefreshToken(ssid, known))
    {
      var session := usersService.FindSessionById(ssid);
      if session.None? || cacheService.now > session.value.expiresAt {
        return SessionExpired;
      }
      if !known {
        return UserNotFound;
      }
      var access := cacheService.Set(TokenKey(session.value.userId, Access, ssid), ssid, 60 * 60);
      answer := Done;
    }

    method Logout(ssid: string) returns (answer: Answer)
      modifies cacheService`db, usersService
      ensures (View(), answer) == Apply(old(View()), SessionTokens.Logout(ssid))
    {
      var found := usersService.RevokeSession(ssid);
      DeleteKeysBySuffix("*" + ssid);
      answer := if found then Done else SessionNotFound;
    }

    method LogoutAll(uid: string)
      modifies cacheService`db, usersService
      ensures View() == Apply(old(View()), SessionTokens.LogoutAll(uid)).0
    {
      usersService.RevokeSessionsByUserId(uid);
      assert UserPattern(uid) == "*" + ("auth:user:" + uid + ":*");
      DeleteKeysBySuffix("auth:user:" + uid + ":*");
    }

    // verifyCache of the access and the refresh guard.
    method VerifyCache(uid: string, kind: Kind, ssid: string) returns (passes: bool)
      ensures passes <==> GuardPasses(View(), uid, kind, ssid)
    {
      var ttl := cacheService.GetTtl(TokenKey(uid, kind, ssid));
      passes := ttl > 0;
    }
  }
}
