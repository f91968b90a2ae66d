/**
 * The auth middleware's session manager over Redis: sessions under `session:<id>` with a
 * TTL, each user's session ids in the set `user:<id>:sessions`, blacklisted tokens, and
 * one-shot OTP and password-reset values.
 *
 * Each key family is its own map (their prefixes keep them apart in Redis). A value
 * written by `SETEX` carries its expiry time and reads as absent from then on; the clock is
 * the parameter `now`, in milliseconds. Redis refuses a non-positive TTL, and so does the
 * model. Sets have no TTL.
 */
module SessionManagement {
  import opened Wrappers

  datatype DeviceInfo = DeviceInfo(userAgent: string, ip: string, deviceType: string)

  /** `SessionData`; the three times are milliseconds since the epoch. */
  datatype SessionData = SessionData(userId: string, email: string, role: string, deviceInfo: DeviceInfo,
                                     createdAt: int, lastActivityAt: int, expiresAt: int)

  /** A value written with `SETEX`, readable before `expiresAt`. */
  datatype Timed<T> = Timed(value: T, expiresAt: int)

  /** What a Redis command answers: done, or the error its promise rejects with. */
  datatype Reply = Done | Rejected(error: string)

  const InvalidExpire := "ERR invalid expire time in 'setex' command"

  const DefaultSessionTTL := 28800
  const DefaultOtpTTL := 600
  const DefaultResetTTL := 3600

  /** `GET key` at time `now`. */
  function Get<T>(m: map<string, Timed<T>>, key: string, now: int): (r: Option<T>)
    ensures r.Some? <==> key in m && now < m[key].expiresAt
    ensures r.Some? ==> r.value == m[key].value
  {
    if key in m && now < m[key].expiresAt then Some(m[key].value) else None
  }

  /** `SETEX key ttl value` at time `now`. */
  function SetEx<T>(m: map<string, Timed<T>>, key: string, ttl: int, value: T, now: int): map<string, Timed<T>>
  {
    m[key := Timed(value, now + ttl * 1000)]
  }

  /** A value written with a positive TTL reads back until the TTL runs out, and not after. */
  lemma SetExThenGet<T>(m: map<string, Timed<T>>, key: string, ttl: int, value: T, now: int, later: int)
    requires ttl > 0 && now <= later
    ensures Get(SetEx(m, key, ttl, value, now), key, later) == (if later < now + ttl * 1000 then Some(value) else None)
    ensures forall k :: k != key ==> Get(SetEx(m, key, ttl, value, now), k, later) == Get(m, k, later)
  {
  }

  /**
   * The default lifetimes: a session lasts eight hours, an OTP ten minutes and a reset token
   * an hour, to the millisecond.
   */
  lemma {:induction false} DefaultLifetimes<T>(m: map<string, Timed<T>>, key: string, value: T, now: int)
    ensures Get(SetEx(m, key, DefaultSessionTTL, value, now), key, now + 28_799_999) == Some(value)
    ensures Get(SetEx(m, key, DefaultSessionTTL, value, now), key, now + 28_800_000) == None
    ensures Get(SetEx(m, key, DefaultOtpTTL, value, now), key, now + 599_999) == Some(value)
    ensures Get(SetEx(m, key, DefaultOtpTTL, value, now), key, now + 600_000) == None
    ensures Get(SetEx(m, key, DefaultResetTTL, value, now), key, now + 3_599_999) == Some(value)
    ensures Get(SetEx(m, key, DefaultResetTTL, value, now), key, now + 3_600_000) == None
  {
    SetExThenGet(m, key, DefaultSessionTTL, value, now, now + 28_799_999);
    SetExThenGet(m, key, DefaultSessionTTL, value, now, now + 28_800_000);
    SetExThenGet(m, key, DefaultOtpTTL, value, now, now + 599_999);
    SetExThenGet(m, key, DefaultOtpTTL, value, now, now + 600_000);
    SetExThenGet(m, key, DefaultResetTTL, value, now, now + 3_599_999);
    SetExThenGet(m, key, DefaultResetTTL, value, now, now + 3_600_000);
  }

  class SessionManager {
    var sessions: map<string, Timed<SessionData>>
    var userSessions: map<string, set<string>>
    var blacklist: map<string, Timed<string>>
    var otps: map<string, Timed<string>>
    var resets: map<string, Timed<string>>
    const sessionTTL: int

    /** `SMEMBERS user:<userId>:sessions`: an absent set is empty. */
    function Members(userId: string): set<string>
      reads this
    {
      if userId in userSessions then userSessions[userId] else {}
    }

    /** Every stored session is listed under its user. */
    predicate Valid()
      reads this
    {
      forall id :: id in sessions ==> sessions[id].value.userId in userSessions && id in userSessions[sessions[id].value.userId]
    }

    /** The Redis client is outside the model; it starts with no keys. */
    constructor(sessionTTL: int)
      ensures this.sessionTTL == sessionTTL
      ensures sessions == map[] && userSessions == map[] && blacklist == map[] && otps == map[] && resets == map[]
      ensures Valid()
    {
      this.sessionTTL := sessionTTL;
      sessions := map[];
      userSessions := map[];
      blacklist := map[];
      otps := map[];
      resets := map[];
    }

    /** `createSession`: the session is stored for `sessionTTL` seconds and its id added to the user's set. */
    method CreateSession(sessionId: string, userId: string, email: string, role: string, device: DeviceInfo, now: int)
      returns (r: Reply)
      requires Valid()
      modifies this
      ensures Valid()
      ensures blacklist == old(blacklist) && otps == old(otps) && resets == old(resets)
      ensures sessionTTL <= 0 ==> r == Rejected(InvalidExpire) && sessions == old(sessions) && userSessions == old(userSessions)
      ensures sessionTTL > 0 ==>
        && r == Done
        && sessions == old(sessions)[sessionId := Timed(SessionData(userId, email, role, device, now, now, now + sessionTTL * 1000),
                                                        now + sessionTTL * 1000)]
        && userSessions == old(userSessions)[userId := old(Members(userId)) + {sessionId}]
    {
      if sessionTTL <= 0 {
        return Rejected(InvalidExpire);
      }
      var data := SessionData(userId, email, role, device, now, now, now + sessionTTL * 1000);
      sessions := SetEx(sessions, sessionId, sessionTTL, data, now);
      userSessions := userSessions[userId := Members(userId) + {sessionId}];
      r := Done;
    }

    /** `validateSession`: whether the session key is still there. */
    function ValidateSession(sessionId: string, now: int): (ok: bool)
      reads this
      ensures ok <==> sessionId in sessions && now < sessions[sessionId].expiresAt
    {
      Get(sessions, sessionId, now).Some?
    }

    /** `getSession`. */
    function GetSession(sessionId: string, now: int): (r: Option<SessionData>)
      reads this
      ensures r.Some? <==> ValidateSession(sessionId, now)
      ensures r.Some? ==> r.value == sessions[sessionId].value
    {
      Get(sessions, sessionId, now)
    }

    /** `updateActivity`: a live session gets `lastActivityAt := now` and a fresh TTL; otherwise nothing happens. */
    method UpdateActivity(sessionId: string, now: int) returns (r: Reply)
      requires Valid()
      modifies this
      ensures Valid()
      ensures userSessions == old(userSessions) && blacklist == old(blacklist) && otps == old(otps) && resets == old(resets)
      ensures old(GetSession(sessionId, now)).None? ==> r == Done && sessions == old(sessions)
      ensures old(GetSession(sessionId, now)).Some? && sessionTTL <= 0 ==> r == Rejected(InvalidExpire) && sessions == old(sessions)
      ensures old(GetSession(sessionId, now)).Some? && sessionTTL > 0 ==>
        && r == Done
        && sessions == old(sessions)[sessionId := Timed(old(sessions)[sessionId].value.(lastActivityAt := now),
                                                        now + sessionTTL * 1000)]
    {
      var session := GetSession(sessionId, now);
      if session.None? {
        return Done;
      }
      if sessionTTL <= 0 {
        return Rejected(InvalidExpire);
      }
      sessions := SetEx(sessions, sessionId, sessionTTL, session.value.(lastActivityAt := now), now);
      r := Done;
    }

    /** `invalidateSession`: a live session leaves its user's set; the key is deleted either way. */
    method InvalidateSession(sessionId: string, now: int)
      requires Valid()
      modifies this
      ensures Valid()
      ensures sessions == old(sessions) - {sessionId}
      ensures old(GetSession(sessionId, now)).Some? ==>
        var u := old(sessions)[sessionId].value.userId;
        userSessions == old(userSessions)[u := old(Members(u)) - {sessionId}]
      ensures old(GetSession(sessionId, now)).None? ==> userSessions == old(userSessions)
      ensures blacklist == old(blacklist) && otps == old(otps) && resets == old(resets)
      ensures !ValidateSession(sessionId, now)
    {
      var session := GetSession(sessionId, now);
      if session.Some? {
        var u := session.value.userId;
        userSessions := userSessions[u := Members(u) - {sessionId}];
      }
      sessions := sessions - {sessionId};
    }

    /** `invalidateUserSessions`: every session in the user's set is deleted, and then the set. */
    method InvalidateUserSessions(userId: string)
      requires Valid()
      modifies this
      ensures Valid()
      ensures sessions == old(sessions) - old(Members(userId))
      ensures userSessions == old(userSessions) - {userId}
      ensures blacklist == old(blacklist) && otps == old(otps) && resets == old(resets)
      ensures forall id :: id in sessions ==> sessions[id].value.userId != userId
    {
      var sessionIds := Members(userId);
      var left := sessionIds;
      while left != {}
        invariant left <= sessionIds
        invariant sessions == old(sessions) - (sessionIds - left)
        invariant userSessions == old(userSessions) && blacklist == old(blacklist)
        invariant otps == old(otps) && resets == old(resets)
        decreases |left|
      {
        var id :| id in left;
        sessions := sessions - {id};
        left := left - {id};
      }
      userSessions := userSessions - {userId};
    }

    /** `getUserSessions`: the live sessions among the user's set, each once. */
    method GetUserSessions(userId: string, now: int) returns (r: seq<SessionData>)
      ensures forall d :: d in r <==> exists id :: id in Members(userId) && GetSession(id, now) == Some(d)
      ensures |r| == |set id | id in Members(userId) && GetSession(id, now).Some?|
      ensures |r| <= |Members(userId)|
    {
      var sessionIds := Members(userId);
      var left := sessionIds;
      ghost var live: set<string> := {};
      r := [];
      while left != {}
        invariant left <= sessionIds
        invariant live == set id | id in sessionIds - left && GetSession(id, now).Some?
        invariant |r| == |live|
        invariant |r| + |left| <= |sessionIds|
        invariant forall d :: d in r <==> exists id :: id in sessionIds - left && GetSession(id, now) == Some(d)
        decreases |left|
      {
        var id :| id in left;
        var session := GetSession(id, now);
        if session.Some? {
          r := r + [session.value];
          live := live + {id};
        }
        left := left - {id};
      }
      assert sessionIds - left == sessionIds;
    }

    /** `blacklistToken`: the token is marked for `expiresIn` seconds. */
    method BlacklistToken(token: string, expiresIn: int, now: int) returns (r: Reply)
      modifies this
      ensures sessions == old(sessions) && userSessions == old(userSessions) && otps == old(otps) && resets == old(resets)
      ensures expiresIn <= 0 ==> r == Rejected(InvalidExpire) && blacklist == old(blacklist)
      ensures expiresIn > 0 ==> r == Done && blacklist == SetEx(old(blacklist), token, expiresIn, "1", now)
      ensures expiresIn > 0 ==> IsTokenBlacklisted(token, now)
    {
      if expiresIn <= 0 {
        return Rejected(InvalidExpire);
      }
      blacklist := SetEx(blacklist, token, expiresIn, "1", now);
      r := Done;
    }

    /** `isTokenBlacklisted`. */
    function IsTokenBlacklisted(token: string, now: int): (b: bool)
      reads this
      ensures b <==> token in blacklist && now < blacklist[token].expiresAt
    {
      Get(blacklist, token, now).Some?
    }

    /** `storeOTP` (ten minutes unless told otherwise). */
    method StoreOTP(userId: string, otp: string, ttl: int, now: int) returns (r: Reply)
      modifies this
      ensures sessions == old(sessions) && userSessions == old(userSessions) && blacklist == old(blacklist) && resets == old(resets)
      ensures ttl <= 0 ==> r == Rejected(InvalidExpire) && otps == old(otps)
      ensures ttl > 0 ==> r == Done && otps == SetEx(old(otps), userId, ttl, otp, now)
    {
      if ttl <= 0 {
        return Rejected(InvalidExpire);
      }
      otps := SetEx(otps, userId, ttl, otp, now);
      r := Done;
    }

    /** `verifyOTP`: true exactly when the stored OTP is the one given, and then it is deleted. */
    method VerifyOTP(userId: string, otp: string, now: int) returns (ok: bool)
      modifies this
      ensures ok <==> old(Get(otps, userId, now)) == Some(otp)
      ensures ok ==> otps == old(otps) - {userId}
      ensures !ok ==> otps == old(otps)
      ensures ok ==> userId !in otps
      ensures sessions == old(sessions) && userSessions == old(userSessions) && blacklist == old(blacklist) && resets == old(resets)
    {
      var stored := Get(otps, userId, now);
      if stored == Some(otp) {
        otps := otps - {userId};
        return true;
      }
      return false;
    }

    /** `storeResetToken` (an hour unless told otherwise). */
    method StoreResetToken(userId: string, tokenHash: string, ttl: int, now: int) returns (r: Reply)
      modifies this
      ensures sessions == old(sessions) && userSessions == old(userSessions) && blacklist == old(blacklist) && otps == old(otps)
      ensures ttl <= 0 ==> r == Rejected(InvalidExpire) && resets == old(resets)
      ensures ttl > 0 ==> r == Done && resets == SetEx(old(resets), userId, ttl, tokenHash, now)
    {
      if ttl <= 0 {
        return Rejected(InvalidExpire);
      }
      resets := SetEx(resets, userId, ttl, tokenHash, now);
      r := Done;
    }

    /** `verifyResetToken`: one-shot in the same way as the OTP. */
    method VerifyResetToken(userId: string, tokenHash: string, now: int) returns (ok: bool)
      modifies this
      ensures ok <==> old(Get(resets, userId, now)) == Some(tokenHash)
      ensures ok ==> resets == old(resets) - {userId}
      ensures !ok ==> resets == old(resets)
      ensures ok ==> userId !in resets
      ensures sessions == old(sessions) && userSessions == old(userSessions) && blacklist == old(blacklist) && otps == old(otps)
    {
      var stored := Get(resets, userId, now);
      if stored == Some(tokenHash) {
        resets := resets - {userId};
        return true;
      }
      return false;
    }
  }
}
