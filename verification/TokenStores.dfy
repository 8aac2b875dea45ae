/** The two backends of the OAuth server's tokens: dictionaries in the process, and Redis. */
module TokenStores {
  import opened Wrappers
  import opened RedisCells

  /** `TokenLink`: the identity behind a token; the expiry is in epoch seconds. */
  datatype Link = Link(user: string, apiToken: string, scopes: seq<string>, expiresAt: Option<real>)

  predicate Expired(l: Link, now: real) {
    l.expiresAt.Some? && l.expiresAt.value <= now
  }

  /** Fernet: what matters is that decrypting gives back what was encrypted. */
  datatype Cipher = Cipher(encrypt: string -> string, decrypt: string -> string)

  ghost predicate Inverse(c: Cipher) {
    forall s :: c.decrypt(c.encrypt(s)) == s
  }

  /** A link at rest: its API token is encrypted. */
  datatype StoredLink = StoredLink(user: string, apiTokenEnc: string, scopes: seq<string>, expiresAt: Option<real>)

  function LinkToJson(l: Link, c: Cipher): StoredLink {
    StoredLink(l.user, c.encrypt(l.apiToken), l.scopes, l.expiresAt)
  }

  function LinkFromJson(s: StoredLink, c: Cipher): Link {
    Link(s.user, c.decrypt(s.apiTokenEnc), s.scopes, s.expiresAt)
  }

  lemma LinkSurvivesRest(l: Link, c: Cipher)
    requires Inverse(c)
    ensures LinkFromJson(LinkToJson(l, c), c) == l
  {
  }

  /** Whole seconds until the expiry, truncated; nothing when none is left, which Redis takes for ever. */
  function TtlFrom(expiresAt: Option<real>, now: real): Option<nat> {
    if expiresAt.None? || expiresAt.value - now < 1.0 then None else Some((expiresAt.value - now).Floor)
  }

  // ---- access tokens ----

  type Tokens = map<nat, Link>

  function Lookup(m: Tokens, t: nat, now: real): Option<Link> {
    if t in m && !Expired(m[t], now) then Some(m[t]) else None
  }

  /** Looking an expired link up evicts it. */
  function AfterLookup(m: Tokens, t: nat, now: real): Tokens {
    if t in m && Expired(m[t], now) then m - {t} else m
  }

  class TokenStore {
    var byToken: Tokens

    constructor ()
      ensures byToken == map[]
    {
      byToken := map[];
    }

    method Put(t: nat, link: Link)
      modifies this
      ensures byToken == old(byToken)[t := link]
    {
      byToken := byToken[t := link];
    }

    method Get(t: nat, now: real) returns (link: Option<Link>)
      modifies this
      ensures link == Lookup(old(byToken), t, now) && byToken == AfterLookup(old(byToken), t, now)
    {
      if t !in byToken {
        return None;
      }
      link := Some(byToken[t]);
      if Expired(link.value, now) {
        byToken := byToken - {t};
        link := None;
      }
    }

    method Revoke(t: nat)
      modifies this
      ensures byToken == old(byToken) - {t}
    {
      byToken := byToken - {t};
    }
  }

  function RedisPut(cells: Cells<nat, StoredLink>, c: Cipher, t: nat, link: Link, now: real): Cells<nat, StoredLink> {
    RedisSet(cells, t, LinkToJson(link, c), TtlFrom(link.expiresAt, now), now)
  }

  function RedisLookup(cells: Cells<nat, StoredLink>, c: Cipher, t: nat, now: real): Option<Link> {
    var raw := RedisGet(cells, t, now);
    if raw.Some? && !Expired(LinkFromJson(raw.value, c), now) then Some(LinkFromJson(raw.value, c)) else None
  }

  function AfterRedisLookup(cells: Cells<nat, StoredLink>, c: Cipher, t: nat, now: real): Cells<nat, StoredLink> {
    var raw := RedisGet(cells, t, now);
    if raw.Some? && Expired(LinkFromJson(raw.value, c), now) then cells - {t} else cells
  }

  class RedisTokenStore {
    const redis: Redis<nat, StoredLink>
    const cipher: Cipher

    constructor (redis: Redis<nat, StoredLink>, cipher: Cipher)
      ensures this.redis == redis && this.cipher == cipher
    {
      this.redis, this.cipher := redis, cipher;
    }

    method Put(t: nat, link: Link, now: real)
      modifies redis
      ensures redis.cells == RedisPut(old(redis.cells), cipher, t, link, now)
    {
      redis.Set(t, LinkToJson(link, cipher), TtlFrom(link.expiresAt, now), now);
    }

    method Get(t: nat, now: real) returns (link: Option<Link>)
      modifies redis
      ensures link == RedisLookup(old(redis.cells), cipher, t, now)
      ensures redis.cells == AfterRedisLookup(old(redis.cells), cipher, t, now)
    {
      var raw := redis.Get(t, now);
      if raw.None? {
        return None;
      }
      link := Some(LinkFromJson(raw.value, cipher));
      if Expired(link.value, now) {
        Revoke(t);
        link := None;
      }
    }

    method Revoke(t: nat)
      modifies redis
      ensures redis.cells == old(redis.cells) - {t}
    {
      redis.Delete(t);
    }
  }

  // ---- refresh tokens ----

  /** A refresh token and the identity stored with it; its expiry is in whole seconds. */
  datatype Refresh = Refresh(client: string, scopes: seq<string>, expiresAt: Option<int>, link: Link)

  type Refreshes = map<nat, Refresh>

  datatype StoredRefresh = StoredRefresh(client: string, scopes: seq<string>, expiresAt: Option<int>, link: StoredLink)

  function RefreshToJson(r: Refresh, c: Cipher): StoredRefresh {
    StoredRefresh(r.client, r.scopes, r.expiresAt, LinkToJson(r.link, c))
  }

  function RefreshFromJson(s: StoredRefresh, c: Cipher): Refresh {
    Refresh(s.client, s.scopes, s.expiresAt, LinkFromJson(s.link, c))
  }

  function RefreshExpiry(r: Refresh): Option<real> {
    if r.expiresAt.None? then None else Some(r.expiresAt.value as real)
  }

  function RedisPutRefresh(cells: Cells<nat, StoredRefresh>, c: Cipher, t: nat, r: Refresh, now: real): Cells<nat, StoredRefresh> {
    RedisSet(cells, t, RefreshToJson(r, c), TtlFrom(RefreshExpiry(r), now), now)
  }

  function RedisRefresh(cells: Cells<nat, StoredRefresh>, c: Cipher, t: nat, now: real): Option<Refresh> {
    var raw := RedisGet(cells, t, now);
    if raw.Some? then Some(RefreshFromJson(raw.value, c)) else None
  }

  class MemoryRefreshRegistry {
    var entries: Refreshes

    constructor ()
      ensures entries == map[]
    {
      entries := map[];
    }

    method Put(t: nat, r: Refresh)
      modifies this
      ensures entries == old(entries)[t := r]
    {
      entries := entries[t := r];
    }

    method Get(t: nat) returns (r: Option<Refresh>)
      ensures r == if t in entries then Some(entries[t]) else None
    {
      r := if t in entries then Some(entries[t]) else None;
    }

    method Pop(t: nat) returns (r: Option<Refresh>)
      modifies this
      ensures r == (if t in old(entries) then Some(old(entries)[t]) else None) && entries == old(entries) - {t}
    {
      r := if t in entries then Some(entries[t]) else None;
      entries := entries - {t};
    }
  }

  class RedisRefreshRegistry {
    const redis: Redis<nat, StoredRefresh>
    const cipher: Cipher

    constructor (redis: Redis<nat, StoredRefresh>, cipher: Cipher)
      ensures this.redis == redis && this.cipher == cipher
    {
      this.redis, this.cipher := redis, cipher;
    }

    method Put(t: nat, r: Refresh, now: real)
      modifies redis
      ensures redis.cells == RedisPutRefresh(old(redis.cells), cipher, t, r, now)
    {
      redis.Set(t, RefreshToJson(r, cipher), TtlFrom(RefreshExpiry(r), now), now);
    }

    method Get(t: nat, now: real) returns (r: Option<Refresh>)
      ensures r == RedisRefresh(redis.cells, cipher, t, now)
    {
      var raw := redis.Get(t, now);
      r := if raw.Some? then Some(RefreshFromJson(raw.value, cipher)) else None;
    }

    /** A key that is already dead is left alone; a live one is deleted. */
    method Pop(t: nat, now: real) returns (r: Option<Refresh>)
      modifies redis
      ensures r == RedisRefresh(old(redis.cells), cipher, t, now)
      ensures redis.cells == if r.Some? then old(redis.cells) - {t} else old(redis.cells)
    {
      var raw := redis.Get(t, now);
      if raw.None? {
        return None;
      }
      redis.Delete(t);
      r := Some(RefreshFromJson(raw.value, cipher));
    }
  }
}
