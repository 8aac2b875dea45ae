/** The authorization server on Redis against the same server in the process. */
module OAuthBackends {
  import opened Wrappers
  import opened RedisCells
  import opened TokenStores
  import opened OAuthProvider
  import B = BackendRefinement

  /** Pending requests and codes stay in the process; only the tokens are in Redis. */
  datatype OnRedis = OnRedis(pending: map<nat, Request>, codes: map<nat, Code>, identities: map<nat, Link>,
                             tokens: Cells<nat, StoredLink>, refreshes: Cells<nat, StoredRefresh>, next: nat)

  const EMPTY_ON_REDIS := OnRedis(map[], map[], map[], map[], map[], 0)

  /** What does not depend on the backend. */
  function Front(p: OnRedis): Provider {
    Provider(p.pending, p.codes, p.identities, map[], map[], p.next)
  }

  function WithFront(p: OnRedis, f: Provider): OnRedis {
    p.(pending := f.pending, codes := f.codes, identities := f.identities, next := f.next)
  }

  function RedisIssue(p: OnRedis, c: Cipher, client: string, link: Link, scopes: seq<string>, now: real): (Reply, OnRedis) {
    (Issued(p.next, p.next + 1, scopes),
     p.(tokens := RedisPut(p.tokens, c, p.next, Link(link.user, link.apiToken, scopes, Some((Seconds(now) + ACCESS_TTL) as real)), now),
        refreshes := RedisPutRefresh(p.refreshes, c, p.next + 1, Refresh(client, scopes, Some(Seconds(now) + REFRESH_TTL), link), now),
        next := p.next + 2))
  }

  function RedisExchange(p: OnRedis, c: Cipher, client: string, code: nat, now: real): (Reply, OnRedis) {
    if code !in p.codes || p.codes[code].expiresAt < Seconds(now) then (InvalidGrant, p.(next := p.next + 2))
    else
      var popped := p.(codes := p.codes - {code}, identities := p.identities - {code});
      if code !in p.identities then (InvalidGrant, popped.(next := p.next + 2))
      else RedisIssue(popped, c, client, p.identities[code], p.codes[code].scopes, now)
  }

  function RedisRotate(p: OnRedis, c: Cipher, client: string, refresh: nat, scopes: seq<string>, now: real): (Reply, OnRedis) {
    var loaded := RedisRefresh(p.refreshes, c, refresh, now);
    if loaded.None? then (InvalidGrant, p.(next := p.next + 2))
    else
      var r, popped := loaded.value, p.(refreshes := p.refreshes - {refresh});
      if RefreshExpired(r, now) then (InvalidGrant, popped.(next := p.next + 2))
      else
        var effective := EffectiveScopes(if scopes != [] then scopes else r.scopes, r.link.scopes);
        if effective.None? then (NoScopeGranted, popped.(next := p.next + 2))
        else RedisIssue(popped, c, client, r.link, effective.value, now)
  }

  function RedisAccess(p: OnRedis, c: Cipher, t: nat, now: real): (Reply, OnRedis) {
    var link := RedisLookup(p.tokens, c, t, now);
    (if link.Some? then Identified(link.value) else Denied, p.(tokens := AfterRedisLookup(p.tokens, c, t, now), next := p.next + 2))
  }

  function RedisRevoke(p: OnRedis, c: Cipher, t: nat, now: real): (Reply, OnRedis) {
    (Done, p.(tokens := p.tokens - {t},
              refreshes := if RedisRefresh(p.refreshes, c, t, now).Some? then p.refreshes - {t} else p.refreshes,
              next := p.next + 2))
  }

  function RedisStep(p: OnRedis, c: Cipher, e: Event): (Reply, OnRedis) {
    match e.op
    case Authorize(client, scopes) =>
      var (r, f) := AuthorizeStep(Front(p), client, scopes, e.at);
      (r, WithFront(p, f))
    case Consent(request, redeemed) =>
      var (r, f) := ConsentStep(Front(p), request, redeemed, e.at);
      (r, WithFront(p, f))
    case Exchange(client, code) => RedisExchange(p, c, client, code, e.at)
    case Rotate(client, refresh, scopes) => RedisRotate(p, c, client, refresh, scopes, e.at)
    case Access(t) => RedisAccess(p, c, t, e.at)
    case Revoke(t) => RedisRevoke(p, c, t, e.at)
  }

  function RedisAt(events: seq<Event>, c: Cipher, i: nat): OnRedis
    requires i <= |events|
  {
    if i == 0 then EMPTY_ON_REDIS else RedisStep(RedisAt(events, c, i - 1), c, events[i - 1]).1
  }

  function RedisReplyAt(events: seq<Event>, c: Cipher, i: nat): Reply
    requires i < |events|
  {
    RedisStep(RedisAt(events, c, i), c, events[i]).0
  }

  predicate Ordered(events: seq<Event>) {
    forall i, j | 0 <= i < j < |events| :: events[i].at <= events[j].at
  }

  // ---- at rest ----

  /** The API token is stored encrypted. */
  ghost predicate Sealed(l: StoredLink, c: Cipher) {
    exists plain :: l.apiTokenEnc == c.encrypt(plain)
  }

  ghost predicate AllSealed(r: OnRedis, c: Cipher) {
    && (forall t | t in r.tokens :: Sealed(r.tokens[t].value, c))
    && (forall t | t in r.refreshes :: Sealed(r.refreshes[t].value.link, c))
  }

  lemma LinkIsSealed(l: Link, c: Cipher)
    ensures Sealed(LinkToJson(l, c), c) && LinkToJson(l, c).apiTokenEnc == c.encrypt(l.apiToken)
  {
  }

  lemma IssueSeals(r: OnRedis, c: Cipher, client: string, link: Link, scopes: seq<string>, now: real)
    requires AllSealed(r, c)
    ensures AllSealed(RedisIssue(r, c, client, link, scopes, now).1, c)
  {
    hide Sealed, LinkToJson, TtlFrom;
    LinkIsSealed(Link(link.user, link.apiToken, scopes, Some((Seconds(now) + ACCESS_TTL) as real)), c);
    LinkIsSealed(link, c);
  }

  lemma StepSeals(r: OnRedis, c: Cipher, e: Event)
    requires AllSealed(r, c)
    ensures AllSealed(RedisStep(r, c, e).1, c)
  {
    hide Sealed, LinkToJson, EffectiveScopes, AuthorizeStep, ConsentStep, RefreshExpired, RedisIssue;
    match e.op
    case Exchange(client, code) =>
      if code in r.codes && code in r.identities {
        IssueSeals(r.(codes := r.codes - {code}, identities := r.identities - {code}), c, client, r.identities[code], r.codes[code].scopes, e.at);
      }
    case Rotate(client, refresh, scopes) =>
      RotateSeals(r, c, client, refresh, scopes, e.at);
    case _ => hide RedisExchange, RedisRotate;
  }

  lemma RotateSeals(r: OnRedis, c: Cipher, client: string, refresh: nat, scopes: seq<string>, now: real)
    requires AllSealed(r, c)
    ensures AllSealed(RedisRotate(r, c, client, refresh, scopes, now).1, c)
  {
    hide Sealed, EffectiveScopes, RefreshExpired, RedisIssue, RedisRefresh;
    var loaded := RedisRefresh(r.refreshes, c, refresh, now);
    if loaded.Some? {
      var effective := EffectiveScopes(if scopes != [] then scopes else loaded.value.scopes, loaded.value.link.scopes);
      if effective.Some? {
        IssueSeals(r.(refreshes := r.refreshes - {refresh}), c, client, loaded.value.link, effective.value, now);
      }
    }
  }

  /** No API token is at rest in the clear: in every state of every run, what Redis holds is encrypted. */
  lemma {:induction false} TokensAreSealed(events: seq<Event>, c: Cipher, i: nat)
    requires i <= |events|
    ensures AllSealed(RedisAt(events, c, i), c)
  {
    hide RedisStep, Sealed;
    if i > 0 {
      TokensAreSealed(events, c, i - 1);
      StepSeals(RedisAt(events, c, i - 1), c, events[i - 1]);
    }
  }

  // ---- what Redis shows, the process has ----

  ghost predicate SameFront(p: Provider, r: OnRedis) {
    p.pending == r.pending && p.codes == r.codes && p.identities == r.identities && p.next == r.next
  }

  ghost predicate DrawnAt(r: OnRedis, t: nat) {
    t in r.tokens || t in r.refreshes ==> t < r.next
  }

  ghost predicate TokenWithin(p: Provider, r: OnRedis, c: Cipher, t: nat, now: real) {
    t in r.tokens && Alive(r.tokens[t], now) && !Expired(LinkFromJson(r.tokens[t].value, c), now) ==>
      t in p.tokens && p.tokens[t] == LinkFromJson(r.tokens[t].value, c)
  }

  ghost predicate RefreshWithin(p: Provider, r: OnRedis, c: Cipher, t: nat, now: real) {
    t in r.refreshes && Alive(r.refreshes[t], now) && !RefreshExpired(RefreshFromJson(r.refreshes[t].value, c), now) ==>
      t in p.refreshes && p.refreshes[t] == RefreshFromJson(r.refreshes[t].value, c)
  }

  ghost predicate Within(p: Provider, r: OnRedis, c: Cipher, now: real) {
    && SameFront(p, r)
    && forall t: nat :: DrawnAt(r, t) && TokenWithin(p, r, c, t, now) && RefreshWithin(p, r, c, t, now)
  }

  predicate Accepts(r: Reply) {
    r.Redirected? || r.CodeIssued? || r.Issued? || r.Identified?
  }

  lemma LaterWithin(p: Provider, r: OnRedis, c: Cipher, now: real, later: real)
    requires Within(p, r, c, now) && now <= later
    ensures Within(p, r, c, later)
  {
    forall t: nat ensures DrawnAt(r, t) && TokenWithin(p, r, c, t, later) && RefreshWithin(p, r, c, t, later) {
      assert DrawnAt(r, t) && TokenWithin(p, r, c, t, now) && RefreshWithin(p, r, c, t, now);
    }
  }

  /** The process may issue a pair that Redis does not, but not the other way round. */
  lemma IssueWithin(p: Provider, r: OnRedis, c: Cipher, client: string, link: Link, scopes: seq<string>, now: real)
    requires Inverse(c) && Within(p, r, c, now)
    ensures Issue(p, client, link, scopes, now).0 == RedisIssue(r, c, client, link, scopes, now).0
    ensures Within(Issue(p, client, link, scopes, now).1, RedisIssue(r, c, client, link, scopes, now).1, c, now)
    ensures Within(Issue(p, client, link, scopes, now).1, r.(next := r.next + 2), c, now)
  {
    var p', r' := Issue(p, client, link, scopes, now).1, RedisIssue(r, c, client, link, scopes, now).1;
    var silent := r.(next := r.next + 2);
    forall t: nat ensures DrawnAt(r', t) && TokenWithin(p', r', c, t, now) && RefreshWithin(p', r', c, t, now) {
      assert DrawnAt(r, t) && TokenWithin(p, r, c, t, now) && RefreshWithin(p, r, c, t, now);
    }
    forall t: nat ensures DrawnAt(silent, t) && TokenWithin(p', silent, c, t, now) && RefreshWithin(p', silent, c, t, now) {
      assert DrawnAt(r, t) && TokenWithin(p, r, c, t, now) && RefreshWithin(p, r, c, t, now);
    }
  }

  lemma FrontWithin(p: Provider, r: OnRedis, c: Cipher, now: real, p': Provider, r': OnRedis)
    requires Within(p, r, c, now) && SameFront(p', r') && r.next <= r'.next
    requires p'.tokens == p.tokens && p'.refreshes == p.refreshes && r'.tokens == r.tokens && r'.refreshes == r.refreshes
    ensures Within(p', r', c, now)
  {
    forall t: nat ensures DrawnAt(r', t) && TokenWithin(p', r', c, t, now) && RefreshWithin(p', r', c, t, now) {
      assert DrawnAt(r, t) && TokenWithin(p, r, c, t, now) && RefreshWithin(p, r, c, t, now);
    }
  }

  lemma ExchangeWithin(p: Provider, r: OnRedis, c: Cipher, client: string, code: nat, now: real)
    requires Inverse(c) && Within(p, r, c, now)
    ensures ExchangeStep(p, client, code, now).0 == RedisExchange(r, c, client, code, now).0
    ensures Within(ExchangeStep(p, client, code, now).1, RedisExchange(r, c, client, code, now).1, c, now)
  {
    hide Within, Issue, RedisIssue;
    SameFronts(p, r, c, now);
    var popped := p.(codes := p.codes - {code}, identities := p.identities - {code});
    var popped' := r.(codes := r.codes - {code}, identities := r.identities - {code});
    FrontWithin(p, r, c, now, popped, popped');
    FrontWithin(p, r, c, now, p.(next := p.next + 2), r.(next := r.next + 2));
    FrontWithin(p, r, c, now, popped.(next := p.next + 2), popped'.(next := r.next + 2));
    if code in p.codes && code in p.identities {
      IssueWithin(popped, popped', c, client, p.identities[code], p.codes[code].scopes, now);
    }
  }

  lemma SameFronts(p: Provider, r: OnRedis, c: Cipher, now: real)
    requires Within(p, r, c, now)
    ensures SameFront(p, r)
  {
  }

  /** Without `refresh`, on the process alone, or on both. */
  lemma PopWithin(p: Provider, r: OnRedis, c: Cipher, refresh: nat, now: real)
    requires Within(p, r, c, now)
    ensures Within(p.(refreshes := p.refreshes - {refresh}), r.(refreshes := r.refreshes - {refresh}), c, now)
    ensures var raw := RedisRefresh(r.refreshes, c, refresh, now);
      raw.None? || RefreshExpired(raw.value, now) ==> Within(p.(refreshes := p.refreshes - {refresh}), r, c, now)
    ensures var raw := RedisRefresh(r.refreshes, c, refresh, now);
      raw.Some? && RefreshExpired(raw.value, now) ==> Within(p, r.(refreshes := r.refreshes - {refresh}), c, now)
    ensures var raw := RedisRefresh(r.refreshes, c, refresh, now);
      raw.Some? && !RefreshExpired(raw.value, now) ==> refresh in p.refreshes && p.refreshes[refresh] == raw.value
  {
    var p', r' := p.(refreshes := p.refreshes - {refresh}), r.(refreshes := r.refreshes - {refresh});
    assert RefreshWithin(p, r, c, refresh, now);
    forall t: nat
      ensures DrawnAt(r', t) && TokenWithin(p', r', c, t, now) && RefreshWithin(p', r', c, t, now)
      ensures TokenWithin(p, r', c, t, now) && RefreshWithin(p, r', c, t, now) && TokenWithin(p', r, c, t, now)
      ensures t != refresh ==> RefreshWithin(p', r, c, t, now)
    {
      assert DrawnAt(r, t) && TokenWithin(p, r, c, t, now) && RefreshWithin(p, r, c, t, now);
    }
  }

  /** The reply of a server on Redis against that of a server in the process. */
  predicate NoMoreThan(onRedis: Reply, inProcess: Reply) {
    onRedis == inProcess || onRedis == InvalidGrant || onRedis == Denied
  }

  lemma NextWithin(p: Provider, r: OnRedis, c: Cipher, now: real)
    requires Within(p, r, c, now)
    ensures Within(p.(next := p.next + 2), r.(next := r.next + 2), c, now)
  {
    FrontWithin(p, r, c, now, p.(next := p.next + 2), r.(next := r.next + 2));
  }

  /** The process rotates the token and Redis, which has lost sight of it, does not. */
  lemma RotateAlone(p: Provider, r: OnRedis, c: Cipher, client: string, refresh: nat, scopes: seq<string>, now: real)
    requires Inverse(c) && Within(p, r, c, now) && Within(p.(refreshes := p.refreshes - {refresh}), r, c, now)
    ensures Within(RotateStep(p, client, refresh, scopes, now).1, r.(next := r.next + 2), c, now)
  {
    hide Within, Issue, EffectiveScopes;
    var popped := p.(refreshes := p.refreshes - {refresh});
    NextWithin(p, r, c, now);
    NextWithin(popped, r, c, now);
    if refresh in p.refreshes {
      var link := p.refreshes[refresh].link;
      var effective := EffectiveScopes(if scopes != [] then scopes else p.refreshes[refresh].scopes, link.scopes);
      if effective.Some? {
        IssueWithin(popped, r, c, client, link, effective.value, now);
      }
    }
  }

  lemma RotateTogether(p: Provider, r: OnRedis, c: Cipher, client: string, refresh: nat, scopes: seq<string>, now: real)
    requires Inverse(c) && Within(p, r, c, now)
    requires var raw := RedisRefresh(r.refreshes, c, refresh, now); raw.Some? && !RefreshExpired(raw.value, now)
    ensures RotateStep(p, client, refresh, scopes, now).0 == RedisRotate(r, c, client, refresh, scopes, now).0
    ensures Within(RotateStep(p, client, refresh, scopes, now).1, RedisRotate(r, c, client, refresh, scopes, now).1, c, now)
  {
    PopWithin(p, r, c, refresh, now);
    hide Within, Issue, RedisIssue, EffectiveScopes, RedisRefresh, RefreshExpired;
    var popped, popped' := p.(refreshes := p.refreshes - {refresh}), r.(refreshes := r.refreshes - {refresh});
    SameFronts(p, r, c, now);
    NextWithin(popped, popped', c, now);
    var presented := p.refreshes[refresh];
    var effective := EffectiveScopes(if scopes != [] then scopes else presented.scopes, presented.link.scopes);
    if effective.Some? {
      IssueWithin(popped, popped', c, client, presented.link, effective.value, now);
    }
  }

  lemma RotateWithin(p: Provider, r: OnRedis, c: Cipher, client: string, refresh: nat, scopes: seq<string>, now: real)
    requires Inverse(c) && Within(p, r, c, now)
    ensures NoMoreThan(RedisRotate(r, c, client, refresh, scopes, now).0, RotateStep(p, client, refresh, scopes, now).0)
    ensures Within(RotateStep(p, client, refresh, scopes, now).1, RedisRotate(r, c, client, refresh, scopes, now).1, c, now)
  {
    PopWithin(p, r, c, refresh, now);
    hide Within, RotateStep;
    var raw := RedisRefresh(r.refreshes, c, refresh, now);
    if raw.None? {
      RotateAlone(p, r, c, client, refresh, scopes, now);
    } else if RefreshExpired(raw.value, now) {
      RotateAlone(p, r.(refreshes := r.refreshes - {refresh}), c, client, refresh, scopes, now);
    } else {
      RotateTogether(p, r, c, client, refresh, scopes, now);
    }
  }

  lemma AccessWithin(p: Provider, r: OnRedis, c: Cipher, t: nat, now: real)
    requires Within(p, r, c, now)
    ensures var (a, p') := Step(p, Event(Access(t), now)); var (b, r') := RedisAccess(r, c, t, now);
      NoMoreThan(b, a) && Within(p', r', c, now)
  {
    var p', r' := Step(p, Event(Access(t), now)).1, RedisAccess(r, c, t, now).1;
    assert TokenWithin(p, r, c, t, now);
    forall x: nat ensures DrawnAt(r', x) && TokenWithin(p', r', c, x, now) && RefreshWithin(p', r', c, x, now) {
      assert DrawnAt(r, x) && TokenWithin(p, r, c, x, now) && RefreshWithin(p, r, c, x, now);
    }
  }

  lemma RevokeWithin(p: Provider, r: OnRedis, c: Cipher, t: nat, now: real)
    requires Within(p, r, c, now)
    ensures Within(Step(p, Event(Revoke(t), now)).1, RedisRevoke(r, c, t, now).1, c, now)
  {
    var p', r' := Step(p, Event(Revoke(t), now)).1, RedisRevoke(r, c, t, now).1;
    forall x: nat ensures DrawnAt(r', x) && TokenWithin(p', r', c, x, now) && RefreshWithin(p', r', c, x, now) {
      assert DrawnAt(r, x) && TokenWithin(p, r, c, x, now) && RefreshWithin(p, r, c, x, now);
    }
  }

  /** Pending requests and codes do not depend on the backend. */
  ghost predicate FrontSame(p: Provider, r: OnRedis, p': Provider, r': OnRedis) {
    && SameFront(p', r') && r.next <= r'.next
    && p'.tokens == p.tokens && p'.refreshes == p.refreshes && r'.tokens == r.tokens && r'.refreshes == r.refreshes
  }

  lemma AuthorizeSame(p: Provider, r: OnRedis, client: string, scopes: seq<string>, now: real)
    requires SameFront(p, r)
    ensures var (a, p') := AuthorizeStep(p, client, scopes, now); var (b, f) := AuthorizeStep(Front(r), client, scopes, now);
      a == b && FrontSame(p, r, p', WithFront(r, f))
  {
  }

  lemma ConsentSame(p: Provider, r: OnRedis, request: nat, redeemed: Option<Link>, now: real)
    requires SameFront(p, r)
    ensures var (a, p') := ConsentStep(p, request, redeemed, now); var (b, f) := ConsentStep(Front(r), request, redeemed, now);
      a == b && FrontSame(p, r, p', WithFront(r, f))
  {
    hide EffectiveScopes, Pruned;
  }

  lemma FrontSteps(p: Provider, r: OnRedis, c: Cipher, e: Event)
    requires SameFront(p, r) && (e.op.Authorize? || e.op.Consent?)
    ensures var (a, p') := Step(p, e); var (b, r') := RedisStep(r, c, e); a == b && FrontSame(p, r, p', r')
  {
    hide AuthorizeStep, ConsentStep, ExchangeStep, RotateStep, RedisExchange, RedisRotate, RedisAccess, RedisRevoke, FrontSame, Front;
    match e.op
    case Authorize(client, scopes) => AuthorizeSame(p, r, client, scopes, e.at);
    case Consent(request, redeemed) => ConsentSame(p, r, request, redeemed, e.at);
  }

  lemma FrontStepsWithin(p: Provider, r: OnRedis, c: Cipher, e: Event)
    requires Within(p, r, c, e.at) && (e.op.Authorize? || e.op.Consent?)
    ensures var (a, p') := Step(p, e); var (b, r') := RedisStep(r, c, e); a == b && Within(p', r', c, e.at)
  {
    SameFronts(p, r, c, e.at);
    FrontSteps(p, r, c, e);
    hide Step, RedisStep, Within;
    FrontWithin(p, r, c, e.at, Step(p, e).1, RedisStep(r, c, e).1);
  }

  lemma StepWithin(p: Provider, r: OnRedis, c: Cipher, e: Event)
    requires Inverse(c) && Within(p, r, c, e.at)
    ensures NoMoreThan(RedisStep(r, c, e).0, Step(p, e).0)
    ensures Within(Step(p, e).1, RedisStep(r, c, e).1, c, e.at)
  {
    match e.op
    case Authorize(_, _) => FrontStepsWithin(p, r, c, e);
    case Consent(_, _) => FrontStepsWithin(p, r, c, e);
    case Exchange(client, code) => ExchangeWithin(p, r, c, client, code, e.at);
    case Rotate(client, refresh, scopes) => RotateWithin(p, r, c, client, refresh, scopes, e.at);
    case Access(t) => AccessWithin(p, r, c, t, e.at);
    case Revoke(t) => RevokeWithin(p, r, c, t, e.at);
  }

  lemma {:induction false} AlwaysWithin(events: seq<Event>, c: Cipher, i: nat, now: real)
    requires i <= |events| && Inverse(c) && Ordered(events) && (i > 0 ==> events[i - 1].at <= now)
    ensures Within(StateAt(events, i), RedisAt(events, c, i), c, now)
  {
    hide Step, RedisStep;
    if i > 0 {
      var e := events[i - 1];
      AlwaysWithin(events, c, i - 1, e.at);
      StepWithin(StateAt(events, i - 1), RedisAt(events, c, i - 1), c, e);
      LaterWithin(StateAt(events, i), RedisAt(events, c, i), c, e.at, now);
    } else {
      hide Within;
      EmptyWithin(c, now);
    }
  }

  lemma EmptyWithin(c: Cipher, now: real)
    ensures Within(EMPTY, EMPTY_ON_REDIS, c, now)
  {
  }

  /** A server on Redis refines one in the process, over every run with a clock that does not go back: what
      it accepts the other accepts with the same reply, even after the two have drifted apart. */
  lemma RedisServerRefines(events: seq<Event>, c: Cipher, i: nat)
    requires i < |events| && Inverse(c) && Ordered(events)
    ensures NoMoreThan(RedisReplyAt(events, c, i), ReplyAt(events, i))
    ensures Accepts(RedisReplyAt(events, c, i)) ==> ReplyAt(events, i) == RedisReplyAt(events, c, i)
  {
    AlwaysWithin(events, c, i, events[i].at);
    hide Within, Step, RedisStep;
    StepWithin(StateAt(events, i), RedisAt(events, c, i), c, events[i]);
  }

  // ---- where the two first differ ----

  ghost predicate TokenNearly(p: Provider, r: OnRedis, c: Cipher, t: nat) {
    t in p.tokens ==>
      && t in r.tokens && LinkFromJson(r.tokens[t].value, c) == p.tokens[t]
      && B.DiesInLastSecond(r.tokens[t].dies, p.tokens[t].expiresAt)
  }

  ghost predicate RefreshNearly(p: Provider, r: OnRedis, c: Cipher, t: nat) {
    t in p.refreshes ==>
      && t in r.refreshes && RefreshFromJson(r.refreshes[t].value, c) == p.refreshes[t]
      && B.DiesInLastSecond(r.refreshes[t].dies, RefreshExpiry(p.refreshes[t]))
  }

  ghost predicate Nearly(p: Provider, r: OnRedis, c: Cipher) {
    SameFront(p, r) && forall t: nat :: TokenNearly(p, r, c, t) && RefreshNearly(p, r, c, t)
  }

  /** The request presents a token in the last second before it expires; a refresh token, whose expiry is
      checked against whole seconds, also in the first one after. */
  ghost predicate AtExpiry(p: Provider, e: Event) {
    match e.op
    case Access(t) =>
      t in p.tokens && p.tokens[t].expiresAt.Some?
      && p.tokens[t].expiresAt.value - 1.0 < e.at < p.tokens[t].expiresAt.value
    case Rotate(_, t, _) =>
      t in p.refreshes && p.refreshes[t].expiresAt.Some?
      && p.refreshes[t].expiresAt.value as real - 1.0 < e.at < p.refreshes[t].expiresAt.value as real + 1.0
    case _ => false
  }

  lemma IssueNearly(p: Provider, r: OnRedis, c: Cipher, client: string, link: Link, scopes: seq<string>, now: real)
    requires Inverse(c) && Nearly(p, r, c)
    ensures Nearly(Issue(p, client, link, scopes, now).1, RedisIssue(r, c, client, link, scopes, now).1, c)
    ensures Issue(p, client, link, scopes, now).0 == RedisIssue(r, c, client, link, scopes, now).0
  {
    var p', r' := Issue(p, client, link, scopes, now).1, RedisIssue(r, c, client, link, scopes, now).1;
    B.TtlDiesInLastSecond(Some((Seconds(now) + ACCESS_TTL) as real), now);
    B.TtlDiesInLastSecond(Some((Seconds(now) + REFRESH_TTL) as real), now);
    hide TtlFrom, B.DiesInLastSecond;
    forall t: nat ensures TokenNearly(p', r', c, t) && RefreshNearly(p', r', c, t) {
      assert TokenNearly(p, r, c, t) && RefreshNearly(p, r, c, t);
    }
  }

  lemma FrontNearly(p: Provider, r: OnRedis, c: Cipher, p': Provider, r': OnRedis)
    requires Nearly(p, r, c) && SameFront(p', r')
    requires p'.tokens == p.tokens && p'.refreshes == p.refreshes && r'.tokens == r.tokens && r'.refreshes == r.refreshes
    ensures Nearly(p', r', c)
  {
    forall t: nat ensures TokenNearly(p', r', c, t) && RefreshNearly(p', r', c, t) {
      assert TokenNearly(p, r, c, t) && RefreshNearly(p, r, c, t);
    }
  }

  lemma NearlySameFront(p: Provider, r: OnRedis, c: Cipher)
    requires Nearly(p, r, c)
    ensures SameFront(p, r)
  {
  }

  lemma ExchangeNearly(p: Provider, r: OnRedis, c: Cipher, client: string, code: nat, now: real)
    requires Inverse(c) && Nearly(p, r, c)
    ensures ExchangeStep(p, client, code, now).0 == RedisExchange(r, c, client, code, now).0
    ensures Nearly(ExchangeStep(p, client, code, now).1, RedisExchange(r, c, client, code, now).1, c)
  {
    NearlySameFront(p, r, c);
    hide Nearly, Issue, RedisIssue;
    var popped := p.(codes := p.codes - {code}, identities := p.identities - {code});
    var popped' := r.(codes := r.codes - {code}, identities := r.identities - {code});
    FrontNearly(p, r, c, popped, popped');
    FrontNearly(p, r, c, p.(next := p.next + 2), r.(next := r.next + 2));
    FrontNearly(p, r, c, popped.(next := p.next + 2), popped'.(next := r.next + 2));
    if code in p.codes && code in p.identities {
      IssueNearly(popped, popped', c, client, p.identities[code], p.codes[code].scopes, now);
    }
  }

  /** A rotation on which the two differ is one at expiry; otherwise they stay as near as they were. */
  lemma PopNearly(p: Provider, r: OnRedis, c: Cipher, refresh: nat, now: real)
    requires Nearly(p, r, c)
    ensures refresh in p.refreshes ==>
              refresh in r.refreshes && RefreshFromJson(r.refreshes[refresh].value, c) == p.refreshes[refresh]
              && B.DiesInLastSecond(r.refreshes[refresh].dies, RefreshExpiry(p.refreshes[refresh]))
    ensures Nearly(p.(refreshes := p.refreshes - {refresh}), r.(refreshes := r.refreshes - {refresh}), c)
    ensures Nearly(p.(refreshes := p.refreshes - {refresh}), r, c)
    ensures refresh !in p.refreshes ==> Nearly(p, r.(refreshes := r.refreshes - {refresh}), c)
  {
    var p', r' := p.(refreshes := p.refreshes - {refresh}), r.(refreshes := r.refreshes - {refresh});
    assert RefreshNearly(p, r, c, refresh);
    forall t: nat
      ensures TokenNearly(p', r', c, t) && RefreshNearly(p', r', c, t) && TokenNearly(p', r, c, t) && RefreshNearly(p', r, c, t)
      ensures refresh !in p.refreshes ==> TokenNearly(p, r', c, t) && RefreshNearly(p, r', c, t)
    {
      assert TokenNearly(p, r, c, t) && RefreshNearly(p, r, c, t);
    }
  }

  lemma NextNearly(p: Provider, r: OnRedis, c: Cipher)
    requires Nearly(p, r, c)
    ensures Nearly(p.(next := p.next + 2), r.(next := r.next + 2), c)
  {
    FrontNearly(p, r, c, p.(next := p.next + 2), r.(next := r.next + 2));
  }

  lemma RotateNearly(p: Provider, r: OnRedis, c: Cipher, client: string, refresh: nat, scopes: seq<string>, now: real)
    requires Inverse(c) && Within(p, r, c, now) && Nearly(p, r, c)
    ensures var (a, p') := RotateStep(p, client, refresh, scopes, now);
      var (b, r') := RedisRotate(r, c, client, refresh, scopes, now);
      (a == b ==> Nearly(p', r', c)) && (a != b ==> AtExpiry(p, Event(Rotate(client, refresh, scopes), now)))
  {
    PopNearly(p, r, c, refresh, now);
    PopWithin(p, r, c, refresh, now);
    hide Nearly, Within, Issue, RedisIssue, EffectiveScopes;
    var popped, popped' := p.(refreshes := p.refreshes - {refresh}), r.(refreshes := r.refreshes - {refresh});
    NextNearly(p, r, c);
    NextNearly(popped, r, c);
    NextNearly(popped, popped', c);
    if refresh in p.refreshes {
      var presented := p.refreshes[refresh];
      var effective := EffectiveScopes(if scopes != [] then scopes else presented.scopes, presented.link.scopes);
      if effective.Some? {
        IssueNearly(popped, popped', c, client, presented.link, effective.value, now);
      }
    } else {
      NextNearly(p, popped', c);
    }
  }

  lemma AccessNearly(p: Provider, r: OnRedis, c: Cipher, t: nat, now: real)
    requires Within(p, r, c, now) && Nearly(p, r, c)
    ensures var (a, p') := Step(p, Event(Access(t), now)); var (b, r') := RedisAccess(r, c, t, now);
      (a == b ==> Nearly(p', r', c)) && (a != b ==> AtExpiry(p, Event(Access(t), now)))
  {
    var p', r' := Step(p, Event(Access(t), now)).1, RedisAccess(r, c, t, now).1;
    assert TokenWithin(p, r, c, t, now) && TokenNearly(p, r, c, t);
    forall x: nat ensures TokenNearly(p', r', c, x) && RefreshNearly(p', r', c, x) {
      assert TokenNearly(p, r, c, x) && RefreshNearly(p, r, c, x);
    }
  }

  lemma RevokeNearly(p: Provider, r: OnRedis, c: Cipher, t: nat, now: real)
    requires Nearly(p, r, c)
    ensures Nearly(Step(p, Event(Revoke(t), now)).1, RedisRevoke(r, c, t, now).1, c)
  {
    var p', r' := Step(p, Event(Revoke(t), now)).1, RedisRevoke(r, c, t, now).1;
    forall x: nat ensures TokenNearly(p', r', c, x) && RefreshNearly(p', r', c, x) {
      assert TokenNearly(p, r, c, x) && RefreshNearly(p, r, c, x);
    }
  }

  lemma StepNearly(p: Provider, r: OnRedis, c: Cipher, e: Event)
    requires Inverse(c) && Within(p, r, c, e.at) && Nearly(p, r, c)
    ensures var (a, p') := Step(p, e); var (b, r') := RedisStep(r, c, e);
      (a == b ==> Nearly(p', r', c)) && (a != b ==> AtExpiry(p, e))
  {
    match e.op
    case Exchange(client, code) => ExchangeNearly(p, r, c, client, code, e.at);
    case Rotate(client, refresh, scopes) => RotateNearly(p, r, c, client, refresh, scopes, e.at);
    case Access(t) => AccessNearly(p, r, c, t, e.at);
    case Revoke(t) => RevokeNearly(p, r, c, t, e.at);
    case _ =>
      NearlySameFront(p, r, c);
      FrontSteps(p, r, c, e);
      FrontNearly(p, r, c, Step(p, e).1, RedisStep(r, c, e).1);
  }

  lemma {:induction false} NearlyUntil(events: seq<Event>, c: Cipher, i: nat)
    requires i <= |events| && Inverse(c) && Ordered(events)
    requires forall j | 0 <= j < i :: ReplyAt(events, j) == RedisReplyAt(events, c, j)
    ensures Nearly(StateAt(events, i), RedisAt(events, c, i), c)
  {
    hide Step, RedisStep;
    if i > 0 {
      AlwaysWithin(events, c, i - 1, events[i - 1].at);
      NearlyUntil(events, c, i - 1);
      assert ReplyAt(events, i - 1) == RedisReplyAt(events, c, i - 1);
      StepNearly(StateAt(events, i - 1), RedisAt(events, c, i - 1), c, events[i - 1]);
    }
  }

  /** The first reply on which the two backends differ is to a token presented at its expiry: for an access
      token in the last second before, for a refresh token within a second of it. */
  lemma FirstDifferenceIsAtExpiry(events: seq<Event>, c: Cipher, i: nat)
    requires i < |events| && Inverse(c) && Ordered(events)
    requires forall j | 0 <= j < i :: ReplyAt(events, j) == RedisReplyAt(events, c, j)
    ensures ReplyAt(events, i) != RedisReplyAt(events, c, i) ==> AtExpiry(StateAt(events, i), events[i])
  {
    AlwaysWithin(events, c, i, events[i].at);
    NearlyUntil(events, c, i);
    hide Step, RedisStep, Within, Nearly;
    StepNearly(StateAt(events, i), RedisAt(events, c, i), c, events[i]);
  }
}
