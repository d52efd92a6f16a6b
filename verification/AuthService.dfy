/** The auth service's token methods, each run with nothing in between, as steps of the token protocol. */
module AuthService {
  import opened Common
  import opened TokenProtocol

  function Keys(yielded: seq<string>): set<string> {
    set k | k in yielded
  }

  class RedisService {
    var entries: map<string, Entry>

    constructor ()
      ensures entries == map[]
    {
      entries := map[];
    }

    predicate Present(key: string, now: real)
      reads this
    {
      key in entries && now <= entries[key].expireAt
    }

    function OfUser(user: Uuid, now: real): set<string>
      reads this
    {
      set k | k in entries && Present(k, now) && MatchesPattern(user, k)
    }

    method StoreRefreshToken(user: Uuid, tokenId: Uuid, token: Token, now: real) returns (stored: bool)
      modifies this
      ensures stored && entries == old(entries)["auth:refresh:" + user + ":" + tokenId := Entry(token, now + 604800.0)]
    {
      var key := KeyFor(user, tokenId);
      entries := entries[key := Entry(token, now + STORE_TTL)];
      stored := true;
    }

    method GetRefreshToken(user: Uuid, tokenId: Uuid, now: real) returns (r: Option<Token>)
      ensures r.Some? == Present(KeyFor(user, tokenId), now)
      ensures r.Some? ==> r.value == entries[KeyFor(user, tokenId)].token
    {
      var key := KeyFor(user, tokenId);
      r := if Present(key, now) then Some(entries[key].token) else None;
    }

    method VerifyRefreshToken(user: Uuid, tokenId: Uuid, token: Token, now: real) returns (valid: bool)
      ensures valid <==> Present(KeyFor(user, tokenId), now) && entries[KeyFor(user, tokenId)].token == token
    {
      var storedValue := GetRefreshToken(user, tokenId, now);
      if storedValue.None? {
        return false;
      }
      valid := storedValue.value == token;
    }

    method DeleteRefreshToken(user: Uuid, tokenId: Uuid, now: real) returns (deleted: bool)
      modifies this
      ensures deleted == old(Present(KeyFor(user, tokenId), now))
      ensures entries == old(entries) - {KeyFor(user, tokenId)}
    {
      var key := KeyFor(user, tokenId);
      deleted := Present(key, now);
      entries := entries - {key};
    }

    /** SCAN yields every key that stays there while it walks, some of them perhaps twice. */
    method DeleteAllUserTokens(user: Uuid, yielded: seq<string>, now: real) returns (count: nat)
      requires Keys(yielded) == OfUser(user, now)
      modifies this
      ensures entries == old(entries) - old(OfUser(user, now))
      ensures OfUser(user, now) == {} && count == |old(OfUser(user, now))|
      ensures forall k :: k in old(entries) ==>
                (k !in entries <==> "auth:refresh:" + user + ":" <= k && now <= old(entries)[k].expireAt)
    {
      var keys: seq<string> := [];
      for i := 0 to |yielded|
        invariant keys == yielded[..i]
      {
        keys := keys + [yielded[i]];
      }
      assert keys == yielded;
      if keys != [] {
        count := |Keys(keys)|;
        entries := entries - Keys(keys);
      } else {
        count := 0;
      }
      assert OfUser(user, now) == {};
    }
  }

  class JwtService {
    /** The tokens that carry this service's signature. */
    var minted: set<Token>

    constructor ()
      ensures minted == {}
    {
      minted := {};
    }

    method CreateAccessToken(user: Uuid, now: real, jti: Uuid) returns (token: Token, expiresIn: int)
      modifies this
      ensures token == NewToken(now, Access, user, jti) && expiresIn == 900
      ensures minted == old(minted) + {token}
      ensures forall at :: VerifyAccessToken(token, at) == if at.Floor <= now.Floor + 900 then Some(user) else None
      ensures forall at :: VerifyRefreshToken(token, at) == None
    {
      var expire := now + ACCESS_LIFETIME as real;
      token := Token(Access, user, jti, expire.Floor);
      minted := minted + {token};
      expiresIn := ACCESS_LIFETIME;
    }

    method CreateRefreshToken(user: Uuid, now: real, jti: Uuid) returns (token: Token, tokenId: Uuid, expiresIn: int)
      modifies this
      ensures token == NewToken(now, Refresh, user, jti) && tokenId == jti && expiresIn == 604800
      ensures minted == old(minted) + {token}
      ensures forall at ::
                VerifyRefreshToken(token, at) == if at.Floor <= now.Floor + 604800 then Some((user, jti)) else None
      ensures forall at :: VerifyAccessToken(token, at) == None
    {
      var expire := now + REFRESH_LIFETIME as real;
      tokenId := jti;
      token := Token(Refresh, user, tokenId, expire.Floor);
      minted := minted + {token};
      expiresIn := REFRESH_LIFETIME;
    }

    /** A token that is unsigned or past its expiry does not decode. */
    function DecodeToken(token: Token, now: real): Option<Token>
      reads this
    {
      if token in minted && now.Floor <= token.exp then Some(token) else None
    }

    function VerifyAccessToken(token: Token, now: real): Option<Uuid>
      reads this
    {
      var payload := DecodeToken(token, now);
      if payload.None? || payload.value.kind != Access then None else Some(payload.value.user)
    }

    function VerifyRefreshToken(token: Token, now: real): Option<(Uuid, Uuid)>
      reads this
    {
      var payload := DecodeToken(token, now);
      if payload.None? || payload.value.kind != Refresh then None else Some((payload.value.user, payload.value.jti))
    }
  }

  datatype RefreshAnswer = Refreshed(access: Token) | InvalidToken | RevokedToken | InactiveUser

  class AuthService {
    const redis: RedisService
    const jwt: JwtService
    var users: map<Uuid, bool>
    ghost var leaving: set<Token>

    constructor (redis: RedisService, jwt: JwtService)
      ensures this.redis == redis && this.jwt == jwt && users == map[] && leaving == {}
    {
      this.redis, this.jwt := redis, jwt;
      users, leaving := map[], {};
    }

    ghost function Snapshot(now: real): State
      reads this, redis, jwt
    {
      State.State(now, users, jwt.minted, {}, redis.entries, leaving, map[])
    }

    predicate FreshId(jti: Uuid)
      reads jwt
    {
      forall t :: t in jwt.minted ==> t.jti != jti
    }

    method CreateTokensForUser(user: Uuid, now: real, accessId: Uuid, refreshId: Uuid)
      returns (access: Token, refresh: Token)
      requires FreshId(accessId) && FreshId(refreshId) && accessId != refreshId
      modifies redis, jwt
      ensures access == Token(Access, user, accessId, now.Floor + 900)
      ensures refresh == Token(Refresh, user, refreshId, now.Floor + 604800)
      ensures redis.entries ==
                old(redis.entries)["auth:refresh:" + user + ":" + refreshId := Entry(refresh, now + 604800.0)]
      ensures var minted :=
                Apply(Apply(old(Snapshot(now)), Mint(Access, user, accessId)), Mint(Refresh, user, refreshId));
              Snapshot(now) == Apply(minted, Store(refresh))
    {
      var accessIn, refreshIn, tokenId;
      access, accessIn := jwt.CreateAccessToken(user, now, accessId);
      refresh, tokenId, refreshIn := jwt.CreateRefreshToken(user, now, refreshId);
      var _ := redis.StoreRefreshToken(user, tokenId, refresh, now);
    }

    method RefreshAccessToken(token: Token, now: real, jti: Uuid) returns (r: RefreshAnswer)
      requires FreshId(jti)
      modifies jwt
      ensures var decodes := token in old(jwt.minted) && token.kind == Refresh && now.Floor <= token.exp;
              var key := "auth:refresh:" + token.user + ":" + token.jti;
              var stored := key in old(redis.entries) && now <= old(redis.entries)[key].expireAt &&
                            old(redis.entries)[key].token == token;
              var active := token.user in old(users) && old(users)[token.user];
              && (r.InvalidToken? <==> !decodes)
              && (r.RevokedToken? <==> decodes && !stored)
              && (r.InactiveUser? <==> decodes && stored && !active)
              && (r.Refreshed? <==> decodes && stored && active)
      ensures r.Refreshed? <==> var s := old(Snapshot(now)); RefreshAccepts(s, s, s, token)
      ensures r.Refreshed? ==> r.access == Token(Access, token.user, jti, now.Floor + 900)
      ensures r.Refreshed? ==> Snapshot(now) == Apply(old(Snapshot(now)), Mint(Access, token.user, jti))
      ensures !r.Refreshed? ==> Snapshot(now) == old(Snapshot(now))
    {
      var tokenData := jwt.VerifyRefreshToken(token, now);
      if tokenData.None? {
        return InvalidToken;
      }
      var user, tokenId := tokenData.value.0, tokenData.value.1;
      var isValid := redis.VerifyRefreshToken(user, tokenId, token, now);
      if !isValid {
        return RevokedToken;
      }
      if user !in users || !users[user] {
        return InactiveUser;
      }
      var access, expiresIn := jwt.CreateAccessToken(user, now, jti);
      r := Refreshed(access);
    }

    /** `None` is a refusal: a token that has expired cannot be logged out. Access tokens stay good until
        they expire. */
    method Logout(token: Token, now: real) returns (r: Option<bool>)
      modifies redis, this`leaving
      ensures r.Some? <==> token in jwt.minted && token.kind == Refresh && now.Floor <= token.exp
      ensures var key := "auth:refresh:" + token.user + ":" + token.jti;
              r.Some? ==>
                && (r.value <==> key in old(redis.entries) && now <= old(redis.entries)[key].expireAt)
                && redis.entries == old(redis.entries) - {key}
      ensures forall t :: jwt.VerifyAccessToken(t, now) == old(jwt.VerifyAccessToken(t, now))
      ensures var checked := Apply(old(Snapshot(now)), CheckLogout(token));
              Snapshot(now) == if r.Some? then Apply(checked, Delete(token)) else checked
    {
      var tokenData := jwt.VerifyRefreshToken(token, now);
      if tokenData.None? {
        return None;
      }
      leaving := leaving + {token};
      var user, tokenId := tokenData.value.0, tokenData.value.1;
      var deleted := redis.DeleteRefreshToken(user, tokenId, now);
      r := Some(deleted);
    }

    method LogoutAllSessions(user: Uuid, yielded: seq<string>, now: real) returns (count: nat)
      requires Keys(yielded) == redis.OfUser(user, now)
      modifies redis
      ensures count == |old(redis.OfUser(user, now))|
      ensures forall t :: jwt.VerifyAccessToken(t, now) == old(jwt.VerifyAccessToken(t, now))
      ensures Snapshot(now) ==
                Apply(Apply(old(Snapshot(now)), BeginLogoutAll(0, user)), FinishLogoutAll(0, Keys(yielded)))
    {
      count := redis.DeleteAllUserTokens(user, yielded, now);
      assert map[0 := Scan(user, {})] - {0} == map[];
      assert Snapshot(now).scans == map[];
    }
  }
}
