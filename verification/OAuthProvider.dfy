/** The OAuth authorization server: authorize, consent, code exchange, refresh rotation, revocation (sections
    4.1.2 and 6 of RFC 6749, section 2 of RFC 7009). */
module OAuthProvider {
  import opened Wrappers
  import opened TokenStores

  const PENDING_TTL := 600
  const AUTH_CODE_TTL := 600
  const ACCESS_TTL := 3600
  const REFRESH_TTL := 2592000

  /** An authorize request waiting for consent. */
  datatype Request = Request(client: string, scopes: seq<string>, expiresAt: int)

  datatype Code = Code(client: string, scopes: seq<string>, expiresAt: int)

  /** `next` stands for the source of fresh random strings: no identifier is drawn twice. */
  datatype Provider = Provider(pending: map<nat, Request>, codes: map<nat, Code>, identities: map<nat, Link>,
                               tokens: Tokens, refreshes: Refreshes, next: nat)

  const EMPTY := Provider(map[], map[], map[], map[], map[], 0)

  /** One request to the server at a time.  `redeemed` is what the delegation service answers to the grant:
      an identity, or a failure.  An empty scope list stands for none given. */
  datatype Op =
    | Authorize(client: string, scopes: seq<string>)
    | Consent(request: nat, redeemed: Option<Link>)
    | Exchange(client: string, code: nat)
    | Rotate(client: string, refresh: nat, scopes: seq<string>)
    | Access(token: nat)
    | Revoke(token: nat)

  datatype Event = Event(op: Op, at: real)

  datatype Reply =
    | Redirected(request: nat)
    | UnknownRequest
    | RedemptionFailed
    | NoScopeGranted
    | CodeIssued(code: nat)
    | InvalidGrant
    | Issued(access: nat, refresh: nat, scopes: seq<string>)
    | Denied
    | Identified(link: Link)
    | Done

  function Seconds(now: real): int {
    now.Floor
  }

  // ---- the operations ----

  function Pruned(pending: map<nat, Request>, now: real): map<nat, Request> {
    map r | r in pending && pending[r].expiresAt >= Seconds(now) :: pending[r]
  }

  /** The requested scopes that are granted, in the order requested. */
  function Allowed(requested: seq<string>, granted: seq<string>): seq<string> {
    if requested == [] then []
    else
      var before, last := Allowed(requested[..|requested| - 1], granted), requested[|requested| - 1];
      if last in granted then before + [last] else before
  }

  /** `_effective_scopes`: none when nothing requested was granted. */
  function EffectiveScopes(requested: seq<string>, granted: seq<string>): Option<seq<string>> {
    if granted == [] then Some(requested)
    else if requested == [] then Some(granted)
    else if Allowed(requested, granted) == [] then None
    else Some(Allowed(requested, granted))
  }

  function AuthorizeStep(p: Provider, client: string, scopes: seq<string>, now: real): (Reply, Provider) {
    (Redirected(p.next),
     p.(pending := Pruned(p.pending, now)[p.next := Request(client, scopes, Seconds(now) + PENDING_TTL)], next := p.next + 2))
  }

  /** The grant is redeemed before the request is consumed, and the request is consumed before the scopes are
      looked at. */
  function ConsentStep(p: Provider, request: nat, redeemed: Option<Link>, now: real): (Reply, Provider) {
    var pending := Pruned(p.pending, now);
    var p' := p.(pending := pending, next := p.next + 2);
    if request !in pending then (UnknownRequest, p')
    else if redeemed.None? then (RedemptionFailed, p')
    else
      var popped := p'.(pending := pending - {request});
      var scopes := EffectiveScopes(pending[request].scopes, redeemed.value.scopes);
      if scopes.None? then (NoScopeGranted, popped)
      else
        (CodeIssued(p.next),
         popped.(codes := p.codes[p.next := Code(pending[request].client, scopes.value, Seconds(now) + AUTH_CODE_TTL)],
                 identities := p.identities[p.next := redeemed.value]))
  }

  /** The pair every grant ends in: an access token with the narrowed scopes, a refresh token with the whole
      identity behind it. */
  function Issue(p: Provider, client: string, link: Link, scopes: seq<string>, now: real): (Reply, Provider) {
    (Issued(p.next, p.next + 1, scopes),
     p.(tokens := p.tokens[p.next := Link(link.user, link.apiToken, scopes, Some((Seconds(now) + ACCESS_TTL) as real))],
        refreshes := p.refreshes[p.next + 1 := Refresh(client, scopes, Some(Seconds(now) + REFRESH_TTL), link)],
        next := p.next + 2))
  }

  /** Loading and exchanging a code, as the token endpoint does in one go. */
  function ExchangeStep(p: Provider, client: string, code: nat, now: real): (Reply, Provider) {
    if code !in p.codes || p.codes[code].expiresAt < Seconds(now) then (InvalidGrant, p.(next := p.next + 2))
    else
      var popped := p.(codes := p.codes - {code}, identities := p.identities - {code});
      if code !in p.identities then (InvalidGrant, popped.(next := p.next + 2))
      else Issue(popped, client, p.identities[code], p.codes[code].scopes, now)
  }

  predicate RefreshExpired(r: Refresh, now: real) {
    r.expiresAt.Some? && r.expiresAt.value < Seconds(now)
  }

  /** Loading and rotating a refresh token: it is retired before the scopes are looked at. */
  function RotateStep(p: Provider, client: string, refresh: nat, scopes: seq<string>, now: real): (Reply, Provider) {
    if refresh !in p.refreshes then (InvalidGrant, p.(next := p.next + 2))
    else
      var r, popped := p.refreshes[refresh], p.(refreshes := p.refreshes - {refresh});
      if RefreshExpired(r, now) then (InvalidGrant, popped.(next := p.next + 2))
      else
        var effective := EffectiveScopes(if scopes != [] then scopes else r.scopes, r.link.scopes);
        if effective.None? then (NoScopeGranted, popped.(next := p.next + 2))
        else Issue(popped, client, r.link, effective.value, now)
  }

  function Step(p: Provider, e: Event): (Reply, Provider) {
    match e.op
    case Authorize(client, scopes) => AuthorizeStep(p, client, scopes, e.at)
    case Consent(request, redeemed) => ConsentStep(p, request, redeemed, e.at)
    case Exchange(client, code) => ExchangeStep(p, client, code, e.at)
    case Rotate(client, refresh, scopes) => RotateStep(p, client, refresh, scopes, e.at)
    case Access(t) =>
      (if Lookup(p.tokens, t, e.at).Some? then Identified(Lookup(p.tokens, t, e.at).value) else Denied,
       p.(tokens := AfterLookup(p.tokens, t, e.at), next := p.next + 2))
    case Revoke(t) => (Done, p.(tokens := p.tokens - {t}, refreshes := p.refreshes - {t}, next := p.next + 2))
  }

  function StateAt(events: seq<Event>, i: nat): Provider
    requires i <= |events|
  {
    if i == 0 then EMPTY else Step(StateAt(events, i - 1), events[i - 1]).1
  }

  function ReplyAt(events: seq<Event>, i: nat): Reply
    requires i < |events|
  {
    Step(StateAt(events, i), events[i]).0
  }

  // ---- scopes ----

  predicate Subset(a: seq<string>, b: seq<string>) {
    forall s | s in a :: s in b
  }

  lemma {:induction false} AllowedIff(requested: seq<string>, granted: seq<string>, s: string)
    ensures s in Allowed(requested, granted) <==> s in requested && s in granted
  {
    if requested != [] {
      AllowedIff(requested[..|requested| - 1], granted, s);
      assert requested == requested[..|requested| - 1] + [requested[|requested| - 1]];
    }
  }

  /** The grant is authoritative whenever it lists any scope; what was asked for bounds the result whenever
      anything was. */
  lemma EffectiveScopesBound(requested: seq<string>, granted: seq<string>)
    requires EffectiveScopes(requested, granted).Some?
    ensures var r := EffectiveScopes(requested, granted).value;
      && (granted != [] ==> Subset(r, granted))
      && (requested != [] ==> Subset(r, requested))
      && (requested != [] && granted != [] ==> forall s | s in requested && s in granted :: s in r)
      && (granted == [] ==> r == requested) && (requested == [] ==> r == granted)
  {
    forall s ensures s in Allowed(requested, granted) <==> s in requested && s in granted {
      AllowedIff(requested, granted, s);
    }
  }

  /** Consent is refused for its scopes exactly when both sides list some and share none. */
  lemma RefusedIff(requested: seq<string>, granted: seq<string>)
    ensures EffectiveScopes(requested, granted).None? <==>
            requested != [] && granted != [] && forall s | s in requested :: s !in granted
  {
    forall s ensures s in Allowed(requested, granted) <==> s in requested && s in granted {
      AllowedIff(requested, granted, s);
    }
    if Allowed(requested, granted) != [] {
      assert Allowed(requested, granted)[0] in Allowed(requested, granted);
    }
  }

  lemma {:induction false} AllAllowed(requested: seq<string>, granted: seq<string>)
    requires Subset(requested, granted)
    ensures Allowed(requested, granted) == requested
  {
    if requested != [] {
      var init, last := requested[..|requested| - 1], requested[|requested| - 1];
      assert requested == init + [last];
      assert last in requested;
      AllAllowed(init, granted);
    }
  }

  /** Scopes once made effective stay so: a rotation that asks for nothing else keeps them. */
  lemma EffectiveScopesStay(requested: seq<string>, granted: seq<string>)
    requires EffectiveScopes(requested, granted).Some?
    ensures EffectiveScopes(EffectiveScopes(requested, granted).value, granted) == EffectiveScopes(requested, granted)
  {
    if granted != [] {
      EffectiveScopesBound(requested, granted);
      AllAllowed(EffectiveScopes(requested, granted).value, granted);
    }
  }
}
