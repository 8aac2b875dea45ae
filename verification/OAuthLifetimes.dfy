/** How long what the authorization server issued is good for: exactly, over every run. */
module OAuthLifetimes {
  import opened Wrappers
  import opened TokenStores
  import opened OAuthProvider
  import opened OAuthLineage

  /** The clock does not run backwards. */
  predicate Ordered(events: seq<Event>) {
    forall i, j | 0 <= i < j < |events| :: events[i].at <= events[j].at
  }

  /** Some request in between revoked the token. */
  predicate Revoked(events: seq<Event>, k: nat, i: nat, t: nat)
    requires i <= |events|
  {
    exists m | k < m < i :: events[m].op == Revoke(t)
  }

  /** Some request in between presented the refresh token, to any end. */
  predicate Presented(events: seq<Event>, k: nat, i: nat, f: nat)
    requires i <= |events|
  {
    exists m | k < m < i :: events[m].op.Rotate? && events[m].op.refresh == f
  }

  // ---- access tokens ----

  /** What one step does to an access token that is held. */
  lemma TokenStep(p: Provider, e: Event, t: nat)
    requires t in p.tokens && t < p.next
    ensures var p' := Step(p, e).1;
      if e.op == Revoke(t) || (e.op == Access(t) && Expired(p.tokens[t], e.at)) then Withdrawn(p', t)
      else t in p'.tokens && p'.tokens[t] == p.tokens[t] && t < p'.next
  {
    hide EffectiveScopes, Pruned, RefreshExpired;
    match e.op
    case Exchange(client, code) => TokenAcrossExchange(p, client, code, e.at, t);
    case Rotate(client, refresh, scopes) => TokenAcrossRotate(p, client, refresh, scopes, e.at, t);
    case _ => hide ExchangeStep, RotateStep;
  }

  lemma TokenAcrossExchange(p: Provider, client: string, code: nat, now: real, t: nat)
    requires t in p.tokens && t < p.next
    ensures var p' := ExchangeStep(p, client, code, now).1; t in p'.tokens && p'.tokens[t] == p.tokens[t] && t < p'.next
  {
  }

  lemma TokenAcrossRotate(p: Provider, client: string, refresh: nat, scopes: seq<string>, now: real, t: nat)
    requires t in p.tokens && t < p.next
    ensures var p' := RotateStep(p, client, refresh, scopes, now).1; t in p'.tokens && p'.tokens[t] == p.tokens[t] && t < p'.next
  {
    hide EffectiveScopes, RefreshExpired;
  }

  /** The reply that issues a pair sets both down. */
  lemma IssuedIsHeld(p: Provider, e: Event)
    requires Step(p, e).0.Issued?
    ensures var (r, p') := Step(p, e);
      && r.access in p'.tokens && r.access < p'.next && r.refresh in p'.refreshes && r.refresh < p'.next
      && p'.tokens[r.access].expiresAt == Some((Seconds(e.at) + 3600) as real)
      && p'.refreshes[r.refresh].expiresAt == Some(Seconds(e.at) + 2592000)
      && p'.refreshes[r.refresh].scopes == r.scopes && r.access < r.refresh
      && (e.op.Exchange? || e.op.Rotate?)
  {
    hide EffectiveScopes, RefreshExpired, Pruned;
  }

  /** Up to `j`, the token is held as it was issued, or revoked, or was found expired. */
  ghost predicate TokenAt(events: seq<Event>, k: nat, j: nat, t: nat, link: Link)
    requires k < j <= |events|
  {
    var p := StateAt(events, j);
    if Revoked(events, k, j, t) then Withdrawn(p, t)
    else (t in p.tokens && p.tokens[t] == link && t < p.next) || (Withdrawn(p, t) && Expired(link, events[j - 1].at))
  }

  lemma {:induction false} TokenLives(events: seq<Event>, k: nat, j: nat, t: nat, link: Link)
    requires k < j <= |events| && Ordered(events)
    requires var p := StateAt(events, k + 1); t in p.tokens && p.tokens[t] == link && t < p.next
    ensures TokenAt(events, k, j, t, link)
    decreases j
  {
    hide Step;
    if k + 1 < j {
      TokenLives(events, k, j - 1, t, link);
      var p, e := StateAt(events, j - 1), events[j - 1];
      assert events[j - 2].at <= e.at;
      assert Revoked(events, k, j, t) <==> Revoked(events, k, j - 1, t) || e.op == Revoke(t);
      if t in p.tokens {
        TokenStep(p, e, t);
      } else {
        WithdrawnStays(p, e, t);
      }
    }
  }

  /** An access token is accepted exactly within the hour after it was issued, unless it was revoked itself:
      neither the expiry of the identity behind it nor the fate of the refresh token issued with it counts. */
  lemma AcceptedIff(events: seq<Event>, k: nat, i: nat, t: nat)
    requires k < i < |events| && Ordered(events) && events[i].op == Access(t)
    requires ReplyAt(events, k).Issued? && ReplyAt(events, k).access == t
    ensures ReplyAt(events, i).Identified? <==>
            events[i].at < (Seconds(events[k].at) + 3600) as real && !Revoked(events, k, i, t)
  {
    IssuedIsHeld(StateAt(events, k), events[k]);
    var link := StateAt(events, k + 1).tokens[t];
    TokenLives(events, k, i, t, link);
    assert events[i - 1].at <= events[i].at;
    AccessReply(StateAt(events, i), events[i], t);
    hide Step;
  }

  lemma AccessReply(p: Provider, e: Event, t: nat)
    requires e.op == Access(t)
    ensures Step(p, e).0.Identified? <==> t in p.tokens && !Expired(p.tokens[t], e.at)
  {
  }

  // ---- refresh tokens ----

  lemma RefreshStep(p: Provider, e: Event, f: nat)
    requires f in p.refreshes && f < p.next
    ensures var p' := Step(p, e).1;
      if e.op == Revoke(f) || (e.op.Rotate? && e.op.refresh == f) then f !in p'.refreshes && f < p'.next
      else f in p'.refreshes && p'.refreshes[f] == p.refreshes[f] && f < p'.next
  {
    hide EffectiveScopes, Pruned, RefreshExpired;
    match e.op
    case Exchange(client, code) => RefreshAcrossExchange(p, client, code, e.at, f);
    case Rotate(client, refresh, scopes) => RefreshAcrossRotate(p, client, refresh, scopes, e.at, f);
    case _ => hide ExchangeStep, RotateStep;
  }

  lemma RefreshAcrossExchange(p: Provider, client: string, code: nat, now: real, f: nat)
    requires f in p.refreshes && f < p.next
    ensures var p' := ExchangeStep(p, client, code, now).1; f in p'.refreshes && p'.refreshes[f] == p.refreshes[f] && f < p'.next
  {
  }

  lemma RefreshAcrossRotate(p: Provider, client: string, refresh: nat, scopes: seq<string>, now: real, f: nat)
    requires f in p.refreshes && f < p.next
    ensures var p' := RotateStep(p, client, refresh, scopes, now).1;
      if refresh == f then f !in p'.refreshes && f < p'.next
      else f in p'.refreshes && p'.refreshes[f] == p.refreshes[f] && f < p'.next
  {
    hide EffectiveScopes, RefreshExpired;
  }

  lemma GoneStays(p: Provider, e: Event, f: nat)
    requires f !in p.refreshes && f < p.next
    ensures var p' := Step(p, e).1; f !in p'.refreshes && f < p'.next
  {
    hide EffectiveScopes, Pruned, RefreshExpired;
    match e.op
    case Exchange(client, code) => GoneAcrossExchange(p, client, code, e.at, f);
    case Rotate(client, refresh, scopes) => GoneAcrossRotate(p, client, refresh, scopes, e.at, f);
    case _ => hide ExchangeStep, RotateStep;
  }

  lemma GoneAcrossExchange(p: Provider, client: string, code: nat, now: real, f: nat)
    requires f !in p.refreshes && f < p.next
    ensures var p' := ExchangeStep(p, client, code, now).1; f !in p'.refreshes && f < p'.next
  {
  }

  lemma GoneAcrossRotate(p: Provider, client: string, refresh: nat, scopes: seq<string>, now: real, f: nat)
    requires f !in p.refreshes && f < p.next
    ensures var p' := RotateStep(p, client, refresh, scopes, now).1; f !in p'.refreshes && f < p'.next
  {
    hide EffectiveScopes, RefreshExpired;
  }

  /** Up to `j`, the refresh token is held as it was issued, or was revoked or presented. */
  ghost predicate RefreshAt(events: seq<Event>, k: nat, j: nat, f: nat, r: Refresh)
    requires k < j <= |events|
  {
    var p := StateAt(events, j);
    && f < p.next
    && if Revoked(events, k, j, f) || Presented(events, k, j, f) then f !in p.refreshes
       else f in p.refreshes && p.refreshes[f] == r
  }

  lemma {:induction false} RefreshLives(events: seq<Event>, k: nat, j: nat, f: nat, r: Refresh)
    requires k < j <= |events|
    requires var p := StateAt(events, k + 1); f in p.refreshes && p.refreshes[f] == r && f < p.next
    ensures RefreshAt(events, k, j, f, r)
    decreases j
  {
    hide Step;
    if k + 1 < j {
      RefreshLives(events, k, j - 1, f, r);
      var p, e := StateAt(events, j - 1), events[j - 1];
      assert Revoked(events, k, j, f) <==> Revoked(events, k, j - 1, f) || e.op == Revoke(f);
      assert Presented(events, k, j, f) <==> Presented(events, k, j - 1, f) || (e.op.Rotate? && e.op.refresh == f);
      if f in p.refreshes {
        RefreshStep(p, e, f);
      } else {
        GoneStays(p, e, f);
      }
    }
  }

  /** Scopes that can be had of a grant: any, none in particular, or at least one that it lists. */
  predicate Grantable(requested: seq<string>, grant: Link) {
    requested == [] || grant.scopes == [] || exists s | s in requested :: s in grant.scopes
  }

  lemma RotateReply(p: Provider, client: string, f: nat, scopes: seq<string>, now: real)
    requires f in p.refreshes && Covered(p.refreshes[f].scopes, p.refreshes[f].link)
    ensures RotateStep(p, client, f, scopes, now).0.Issued? <==>
            !RefreshExpired(p.refreshes[f], now) && Grantable(scopes, p.refreshes[f].link)
  {
    var r := p.refreshes[f];
    RefusedIff(if scopes != [] then scopes else r.scopes, r.link.scopes);
    if scopes == [] && r.scopes != [] && r.link.scopes != [] {
      assert r.scopes[0] in r.scopes;
    }
    hide EffectiveScopes;
  }

  /** A refresh token rotates exactly within thirty days of its issue, once, unless it was revoked itself, and
      if what is asked for can be had: neither the expiry of the identity behind it nor the fate of the
      access token issued with it counts. */
  lemma RotatesIff(events: seq<Event>, k: nat, i: nat, client: string, f: nat, scopes: seq<string>)
    requires k < i < |events| && events[i].op == Rotate(client, f, scopes)
    requires ReplyAt(events, k).Issued? && ReplyAt(events, k).refresh == f
    ensures f in StateAt(events, k + 1).refreshes
    ensures ReplyAt(events, i).Issued? <==>
            && Seconds(events[i].at) <= Seconds(events[k].at) + 2592000
            && !Revoked(events, k, i, f) && !Presented(events, k, i, f)
            && Grantable(scopes, StateAt(events, k + 1).refreshes[f].link)
  {
    IssuedIsHeld(StateAt(events, k), events[k]);
    var r := StateAt(events, k + 1).refreshes[f];
    RefreshLives(events, k, i, f, r);
    AlwaysInv(events, i);
    var p := StateAt(events, i);
    assert FaithfulAt(p, LedgerAt(events, i), f);
    hide Inv, Grantable, EffectiveScopes, Revoked, Presented;
    if f in p.refreshes {
      RotateReply(p, client, f, scopes, events[i].at);
    }
  }

  // ---- codes ----

  /** Some request in between got a pair for the code. */
  predicate Exchanged(events: seq<Event>, k: nat, i: nat, c: nat)
    requires i <= |events|
  {
    exists m | k < m < i :: events[m].op.Exchange? && events[m].op.code == c && ReplyAt(events, m).Issued?
  }

  predicate HoldsCode(p: Provider, c: nat, code: Code) {
    c in p.codes && p.codes[c] == code && c in p.identities && c < p.next
  }

  predicate CodeGone(p: Provider, c: nat) {
    c !in p.codes && c < p.next
  }

  lemma CodeAcrossConsent(p: Provider, request: nat, redeemed: Option<Link>, now: real, c: nat)
    requires c < p.next
    ensures var p' := ConsentStep(p, request, redeemed, now).1;
      && c < p'.next && (c in p'.codes <==> c in p.codes) && (c in p'.identities <==> c in p.identities)
      && (c in p.codes ==> p'.codes[c] == p.codes[c])
  {
    hide EffectiveScopes, Pruned;
  }

  lemma CodeAcrossExchange(p: Provider, client: string, code: nat, now: real, c: nat)
    requires c < p.next
    ensures var (r, p') := ExchangeStep(p, client, code, now);
      && c < p'.next && (c !in p.codes ==> c !in p'.codes)
      && (c in p.codes && c in p.identities ==>
            if code == c && r.Issued? then c !in p'.codes else c in p'.codes && p'.codes[c] == p.codes[c] && c in p'.identities)
  {
  }

  lemma CodeAcrossRotate(p: Provider, client: string, refresh: nat, scopes: seq<string>, now: real)
    ensures var p' := RotateStep(p, client, refresh, scopes, now).1;
      p'.codes == p.codes && p'.identities == p.identities && p'.next >= p.next
  {
    hide EffectiveScopes, RefreshExpired;
  }

  lemma CodeStep(p: Provider, e: Event, c: nat)
    requires c < p.next
    ensures var (r, p') := Step(p, e);
      && (c !in p.codes ==> CodeGone(p', c))
      && (c in p.codes && c in p.identities ==>
            if e.op.Exchange? && e.op.code == c && r.Issued? then CodeGone(p', c) else HoldsCode(p', c, p.codes[c]))
  {
    match e.op
    case Consent(request, redeemed) => CodeAcrossConsent(p, request, redeemed, e.at, c);
    case Exchange(client, code) => CodeAcrossExchange(p, client, code, e.at, c);
    case Rotate(client, refresh, scopes) => CodeAcrossRotate(p, client, refresh, scopes, e.at);
    case _ => hide ConsentStep, ExchangeStep, RotateStep, Pruned;
  }

  /** The reply that issues a code sets it down, for ten minutes. */
  lemma CodeIsHeld(p: Provider, e: Event)
    requires Step(p, e).0.CodeIssued?
    ensures var (r, p') := Step(p, e);
      r.code in p'.codes && r.code in p'.identities && r.code < p'.next && p'.codes[r.code].expiresAt == Seconds(e.at) + 600
  {
    hide EffectiveScopes, RefreshExpired, Pruned;
  }

  /** Up to `j`, the code is held as it was issued, or was exchanged. */
  ghost predicate CodeAt(events: seq<Event>, k: nat, j: nat, c: nat, code: Code)
    requires k < j <= |events|
  {
    if Exchanged(events, k, j, c) then CodeGone(StateAt(events, j), c) else HoldsCode(StateAt(events, j), c, code)
  }

  lemma {:induction false} CodeLives(events: seq<Event>, k: nat, j: nat, c: nat, code: Code)
    requires k < j <= |events| && HoldsCode(StateAt(events, k + 1), c, code)
    ensures CodeAt(events, k, j, c, code)
    decreases j
  {
    hide Step;
    if k + 1 < j {
      CodeLives(events, k, j - 1, c, code);
      var e := events[j - 1];
      assert Exchanged(events, k, j, c) <==>
             Exchanged(events, k, j - 1, c) || (e.op.Exchange? && e.op.code == c && ReplyAt(events, j - 1).Issued?);
      CodeStep(StateAt(events, j - 1), e, c);
    }
  }

  lemma ExchangeReply(p: Provider, client: string, c: nat, now: real)
    requires c in p.codes ==> c in p.identities
    ensures ExchangeStep(p, client, c, now).0.Issued? <==> c in p.codes && Seconds(now) <= p.codes[c].expiresAt
  {
  }

  /** A code is exchanged for a pair exactly within ten minutes of its issue, and once (section 4.1.2 of
      RFC 6749). */
  lemma ExchangesIff(events: seq<Event>, k: nat, i: nat, client: string, c: nat)
    requires k < i < |events| && events[i].op == Exchange(client, c) && ReplyAt(events, k) == CodeIssued(c)
    ensures ReplyAt(events, i).Issued? <==>
            Seconds(events[i].at) <= Seconds(events[k].at) + 600 && !Exchanged(events, k, i, c)
  {
    CodeIsHeld(StateAt(events, k), events[k]);
    var code := StateAt(events, k + 1).codes[c];
    CodeLives(events, k, i, c, code);
    hide Exchanged;
    ExchangeReply(StateAt(events, i), client, c, events[i].at);
    hide ExchangeStep;
  }

  // ---- authorize requests ----

  /** Some consent in between used the request up. */
  predicate Completed(events: seq<Event>, k: nat, i: nat, q: nat)
    requires i <= |events|
  {
    exists m | k < m < i :: events[m].op.Consent? && events[m].op.request == q && Uses(events[m].op, ReplyAt(events, m), q)
  }

  predicate HoldsRequest(p: Provider, q: nat, r: Request) {
    q in p.pending && p.pending[q] == r && q < p.next
  }

  predicate RequestGone(p: Provider, q: nat) {
    q !in p.pending && q < p.next
  }

  lemma RequestAcrossConsent(p: Provider, request: nat, redeemed: Option<Link>, now: real, q: nat, r: Request)
    requires HoldsRequest(p, q, r)
    ensures var (reply, p') := ConsentStep(p, request, redeemed, now);
      if Uses(Consent(request, redeemed), reply, q) || r.expiresAt < Seconds(now) then RequestGone(p', q) else HoldsRequest(p', q, r)
  {
    hide EffectiveScopes;
  }

  lemma RequestAcrossPair(p: Provider, e: Event)
    requires e.op.Exchange? || e.op.Rotate?
    ensures Step(p, e).1.pending == p.pending && Step(p, e).1.next >= p.next
  {
    hide EffectiveScopes, RefreshExpired;
  }

  lemma RequestStep(p: Provider, e: Event, q: nat, r: Request)
    requires HoldsRequest(p, q, r)
    ensures var (reply, p') := Step(p, e);
      if e.op.Consent? && Uses(e.op, reply, q) then RequestGone(p', q)
      else HoldsRequest(p', q, r) || (RequestGone(p', q) && r.expiresAt < Seconds(e.at))
  {
    match e.op
    case Consent(request, redeemed) => RequestAcrossConsent(p, request, redeemed, e.at, q, r);
    case Exchange(_, _) => RequestAcrossPair(p, e);
    case Rotate(_, _, _) => RequestAcrossPair(p, e);
    case _ => hide ConsentStep, ExchangeStep, RotateStep;
  }

  lemma RequestGoneStays(p: Provider, e: Event, q: nat)
    requires RequestGone(p, q)
    ensures RequestGone(Step(p, e).1, q)
  {
    hide EffectiveScopes;
    match e.op
    case Exchange(_, _) => RequestAcrossPair(p, e);
    case Rotate(_, _, _) => RequestAcrossPair(p, e);
    case _ => hide ExchangeStep, RotateStep;
  }

  /** Up to `j`, the request is held as it was made, or was used up, or had expired. */
  ghost predicate RequestAt(events: seq<Event>, k: nat, j: nat, q: nat, r: Request)
    requires k < j <= |events|
  {
    if Completed(events, k, j, q) then RequestGone(StateAt(events, j), q)
    else HoldsRequest(StateAt(events, j), q, r) || (RequestGone(StateAt(events, j), q) && r.expiresAt < Seconds(events[j - 1].at))
  }

  lemma {:induction false} RequestLives(events: seq<Event>, k: nat, j: nat, q: nat, r: Request)
    requires k < j <= |events| && Ordered(events) && HoldsRequest(StateAt(events, k + 1), q, r)
    ensures RequestAt(events, k, j, q, r)
    decreases j
  {
    hide Step;
    if k + 1 < j {
      RequestLives(events, k, j - 1, q, r);
      var p, e := StateAt(events, j - 1), events[j - 1];
      assert events[j - 2].at <= e.at;
      assert Completed(events, k, j, q) <==>
             Completed(events, k, j - 1, q) || (e.op.Consent? && e.op.request == q && Uses(e.op, ReplyAt(events, j - 1), q));
      if q in p.pending {
        RequestStep(p, e, q, r);
      } else {
        RequestGoneStays(p, e, q);
      }
    }
  }

  lemma RequestIsHeld(p: Provider, e: Event)
    requires Step(p, e).0.Redirected?
    ensures var (r, p') := Step(p, e);
      && e.op.Authorize? && HoldsRequest(p', r.request, Request(e.op.client, e.op.scopes, Seconds(e.at) + 600))
  {
    hide EffectiveScopes, RefreshExpired, Pruned;
  }

  lemma ConsentReply(p: Provider, q: nat, link: Link, now: real)
    ensures ConsentStep(p, q, Some(link), now).0.CodeIssued? <==>
            q in p.pending && Seconds(now) <= p.pending[q].expiresAt && Grantable(p.pending[q].scopes, link)
  {
    if q in p.pending {
      RefusedIff(p.pending[q].scopes, link.scopes);
    }
    hide EffectiveScopes;
  }

  /** No request is kept beyond its time: whatever is pending after an authorize request was made within the ten
      minutes before it. */
  lemma {:induction false} PendingIsRecent(events: seq<Event>, i: nat, q: nat) returns (k: nat)
    requires i < |events| && events[i].op.Authorize? && q in StateAt(events, i + 1).pending
    ensures k <= i && ReplyAt(events, k) == Redirected(q) && Seconds(events[i].at) <= Seconds(events[k].at) + 600
  {
    var p, p' := StateAt(events, i), StateAt(events, i + 1);
    assert q in p.pending ==> q == p.next || p'.pending[q].expiresAt >= Seconds(events[i].at);
    k := RequestMade(events, i + 1, q);
  }

  /** A pending request was made by the one authorize request that is answered with it. */
  lemma {:induction false} RequestMade(events: seq<Event>, j: nat, q: nat) returns (k: nat)
    requires j <= |events| && q in StateAt(events, j).pending
    ensures k < j && ReplyAt(events, k) == Redirected(q)
    ensures StateAt(events, j).pending[q].expiresAt == Seconds(events[k].at) + 600
    decreases j
  {
    hide Step;
    var p, e := StateAt(events, j - 1), events[j - 1];
    PendingBefore(p, e, q);
    if ReplyAt(events, j - 1) == Redirected(q) {
      k := j - 1;
    } else {
      k := RequestMade(events, j - 1, q);
    }
  }

  lemma PendingBefore(p: Provider, e: Event, q: nat)
    requires q in Step(p, e).1.pending
    ensures var (r, p') := Step(p, e);
      if r == Redirected(q) then p'.pending[q].expiresAt == Seconds(e.at) + 600
      else q in p.pending && p'.pending[q] == p.pending[q]
  {
    hide EffectiveScopes;
    match e.op
    case Exchange(_, _) => RequestAcrossPair(p, e);
    case Rotate(_, _, _) => RequestAcrossPair(p, e);
    case _ => hide ExchangeStep, RotateStep;
  }

  /** A redeemed consent yields a code exactly within ten minutes of the authorize request, once, and if the
      scopes that were asked for can be granted; a grant that could not be redeemed before does not count. */
  lemma CompletesIff(events: seq<Event>, k: nat, i: nat, q: nat, link: Link)
    requires k < i < |events| && Ordered(events) && events[i].op == Consent(q, Some(link)) && ReplyAt(events, k) == Redirected(q)
    ensures events[k].op.Authorize?
    ensures ReplyAt(events, i).CodeIssued? <==>
            && Seconds(events[i].at) <= Seconds(events[k].at) + 600 && !Completed(events, k, i, q)
            && Grantable(events[k].op.scopes, link)
  {
    RequestIsHeld(StateAt(events, k), events[k]);
    var r := StateAt(events, k + 1).pending[q];
    RequestLives(events, k, i, q, r);
    hide Completed, Grantable;
    assert events[i - 1].at <= events[i].at;
    ConsentReply(StateAt(events, i), q, link, events[i].at);
    hide ConsentStep;
  }

  // ---- revoking one of a pair ----

  /** Revoking the refresh token of a pair leaves the access token of the pair accepted until its hour is over
      (section 2.1 of RFC 7009 says that a server should invalidate it too), and the other way round. */
  lemma RevocationLeavesTheOther(events: seq<Event>, k: nat, m: nat, i: nat, t: nat, f: nat, scopes: seq<string>)
    requires k < m < i < |events| && Ordered(events) && ReplyAt(events, k) == Issued(t, f, scopes)
    ensures events[m].op == Revoke(f) && !Revoked(events, k, i, t) && events[i].op == Access(t) ==>
              (ReplyAt(events, i).Identified? <==> events[i].at < (Seconds(events[k].at) + 3600) as real)
    ensures events[m].op == Revoke(t) && !Revoked(events, k, i, f) && !Presented(events, k, i, f)
            && events[i].op.Rotate? && events[i].op.refresh == f && events[i].op.scopes == [] ==>
              (ReplyAt(events, i).Issued? <==> Seconds(events[i].at) <= Seconds(events[k].at) + 2592000)
  {
    hide Step, Revoked, Presented;
    if events[i].op == Access(t) {
      AcceptedIff(events, k, i, t);
    }
    if events[i].op.Rotate? && events[i].op.refresh == f {
      RotatesIff(events, k, i, events[i].op.client, f, events[i].op.scopes);
    }
  }

  // ---- the expiry of the identity ----

  /** Time goes on after a run, and one more request is made. */
  function After(events: seq<Event>, op: Op, now: real): Reply {
    ReplyAt(events + [Event(op, now)], |events|)
  }

  ghost predicate AcceptedAfterExpiry(events: seq<Event>, t: nat, identity: Link, now: real) {
    |events| > 0 && events[|events| - 1].at <= now && Expired(identity, now) && After(events, Access(t), now).Identified?
  }

  ghost predicate RotatedAfterExpiry(events: seq<Event>, f: nat, identity: Link, client: string, now: real) {
    |events| > 0 && events[|events| - 1].at <= now && Expired(identity, now) && After(events, Rotate(client, f, []), now).Issued?
  }

  lemma {:induction false} SameStart(events: seq<Event>, more: seq<Event>, i: nat)
    requires i <= |events| && events <= more
    ensures StateAt(more, i) == StateAt(events, i)
    ensures i < |events| ==> ReplyAt(more, i) == ReplyAt(events, i)
  {
    hide Step;
    if i > 0 {
      SameStart(events, more, i - 1);
    }
  }

  /** An identity carries an expiry of its own, which nothing looks at.  A pair just issued outlives it, and is
      accepted or rotated after it, exactly when the identity expires within the hour, or the thirty days,
      that the token has. */
  lemma OutlivesIdentityIff(events: seq<Event>, t: nat, f: nat, scopes: seq<string>, client: string) returns (j: nat, identity: Link)
    requires |events| > 0 && Ordered(events) && ReplyAt(events, |events| - 1) == Issued(t, f, scopes)
    ensures j < |events| && events[j].op.Consent? && events[j].op.redeemed == Some(identity) && ReplyAt(events, j).CodeIssued?
    ensures f in StateAt(events, |events|).refreshes && StateAt(events, |events|).refreshes[f].link == identity
    ensures (exists now :: AcceptedAfterExpiry(events, t, identity, now)) <==>
            identity.expiresAt.Some? && identity.expiresAt.value < (Seconds(events[|events| - 1].at) + 3600) as real
    ensures (exists now :: RotatedAfterExpiry(events, f, identity, client, now)) <==>
            identity.expiresAt.Some? && identity.expiresAt.value < (Seconds(events[|events| - 1].at) + 2592000 + 1) as real
  {
    var k, last := |events| - 1, events[|events| - 1].at;
    IssuedIsHeld(StateAt(events, k), events[k]);
    var granted: Link;
    j, granted := RefreshIsConsented(events, k + 1, f);
    identity := granted;
    hide Step;
    forall now: real | last <= now
      ensures After(events, Access(t), now).Identified? <==> now < (Seconds(last) + 3600) as real
      ensures After(events, Rotate(client, f, []), now).Issued? <==> Seconds(now) <= Seconds(last) + 2592000
    {
      NextReplies(events, t, f, scopes, client, now);
    }
    hide After;
    if identity.expiresAt.Some? {
      var now := if identity.expiresAt.value < last then last else identity.expiresAt.value;
      assert AcceptedAfterExpiry(events, t, identity, now) <==> now < (Seconds(last) + 3600) as real;
      assert RotatedAfterExpiry(events, f, identity, client, now) <==> Seconds(now) <= Seconds(last) + 2592000;
    }
  }

  lemma NextReplies(events: seq<Event>, t: nat, f: nat, scopes: seq<string>, client: string, now: real)
    requires |events| > 0 && Ordered(events) && ReplyAt(events, |events| - 1) == Issued(t, f, scopes) && events[|events| - 1].at <= now
    ensures After(events, Access(t), now).Identified? <==> now < (Seconds(events[|events| - 1].at) + 3600) as real
    ensures After(events, Rotate(client, f, []), now).Issued? <==> Seconds(now) <= Seconds(events[|events| - 1].at) + 2592000
  {
    hide Step;
    var k := |events| - 1;
    var access, rotate := events + [Event(Access(t), now)], events + [Event(Rotate(client, f, []), now)];
    SameStart(events, access, k);
    SameStart(events, rotate, k);
    AcceptedIff(access, k, k + 1, t);
    RotatesIff(rotate, k, k + 1, client, f, []);
  }

  lemma RotationKeepsIdentity(p: Provider, client: string, f: nat, now: real)
    requires RotateStep(p, client, f, [], now).0.Issued? && f in p.refreshes
    ensures var (r, p') := RotateStep(p, client, f, [], now);
      r.refresh in p'.refreshes && p'.refreshes[r.refresh].link == p.refreshes[f].link
  {
    hide EffectiveScopes, RefreshExpired;
  }

  /** The identity behind the refresh token issued last. */
  function LastIdentity(events: seq<Event>): Option<Link> {
    if |events| == 0 || !ReplyAt(events, |events| - 1).Issued? then None
    else
      var f, held := ReplyAt(events, |events| - 1).refresh, StateAt(events, |events|).refreshes;
      if f in held then Some(held[f].link) else None
  }

  /** One rotation as late as it is accepted. */
  lemma RotatedOnce(events: seq<Event>, client: string) returns (next: seq<Event>)
    requires |events| > 0 && Ordered(events) && LastIdentity(events).Some?
    ensures events <= next && |next| == |events| + 1 && Ordered(next) && LastIdentity(next) == LastIdentity(events)
    ensures next[|events|].at >= events[|events| - 1].at + 1.0
  {
    hide Step;
    var k := |events| - 1;
    var r := ReplyAt(events, k);
    var now := (Seconds(events[k].at) + 2592000) as real;
    next := events + [Event(Rotate(client, r.refresh, []), now)];
    NextReplies(events, r.access, r.refresh, r.scopes, client, now);
    SameStart(events, next, |events|);
    assert next[|events|] == Event(Rotate(client, r.refresh, []), now);
    RotateIsAStep(StateAt(events, k + 1), client, r.refresh, now);
    RotationKeepsIdentity(StateAt(events, k + 1), client, r.refresh, now);
  }

  lemma RotateIsAStep(p: Provider, client: string, f: nat, now: real)
    ensures Step(p, Event(Rotate(client, f, []), now)) == RotateStep(p, client, f, [], now)
  {
    hide RotateStep;
  }

  /** So a connection never lapses: from any pair, one rotation in time after another leads to a pair issued as
      late as you like, on the same identity, expired or not. */
  lemma {:induction false} NeverLapses(events: seq<Event>, client: string, until: real) returns (more: seq<Event>)
    requires |events| > 0 && Ordered(events) && LastIdentity(events).Some?
    ensures events <= more && Ordered(more) && more[|more| - 1].at >= until
    ensures LastIdentity(more) == LastIdentity(events)
    decreases if until <= events[|events| - 1].at then 0 else (until - events[|events| - 1].at).Floor + 1
  {
    hide LastIdentity;
    if events[|events| - 1].at >= until {
      more := events;
    } else {
      var next := RotatedOnce(events, client);
      more := NeverLapses(next, client, until);
    }
  }
}
