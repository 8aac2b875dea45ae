/** The authorization server as an object over its in-process stores. */
module OAuthServer {
  import opened Wrappers
  import opened TokenStores
  import opened OAuthProvider

  class LobstrOAuthProvider {
    var pending: map<nat, Request>
    var codes: map<nat, Code>
    var codeIdentity: map<nat, Link>
    const tokens: TokenStore
    const refresh: MemoryRefreshRegistry
    var next: nat

    constructor ()
      ensures View() == EMPTY && fresh(tokens) && fresh(refresh)
    {
      pending, codes, codeIdentity, next := map[], map[], map[], 0;
      tokens := new TokenStore();
      refresh := new MemoryRefreshRegistry();
    }

    /** The state of the server as a value. */
    function View(): Provider
      reads this, tokens, refresh
    {
      Provider(pending, codes, codeIdentity, tokens.byToken, refresh.entries, next)
    }

    /** Two strings that were never drawn before. */
    method Draw() returns (first: nat, second: nat)
      modifies this`next
      ensures next == old(next) + 2 && first == old(next) && second == old(next) + 1
    {
      first, second := next, next + 1;
      next := next + 2;
    }

    /** `_prune_pending`: the expired requests are listed, then deleted one by one. */
    method PrunePending(now: real)
      modifies this`pending
      ensures pending == Pruned(old(pending), now)
    {
      var expired := set r | r in pending && pending[r].expiresAt < Seconds(now);
      ghost var all := expired;
      while expired != {}
        invariant expired <= all && pending == old(pending) - (all - expired)
      {
        var r :| r in expired;
        pending := pending - {r};
        expired := expired - {r};
      }
    }

    method Authorize(client: string, scopes: seq<string>, now: real) returns (r: Reply)
      modifies this
      ensures (r, View()) == AuthorizeStep(old(View()), client, scopes, now)
    {
      PrunePending(now);
      var request, _ := Draw();
      pending := pending[request := Request(client, scopes, Seconds(now) + PENDING_TTL)];
      r := Redirected(request);
    }

    /** The loop of `_effective_scopes`; none stands for the error it raises. */
    method Effective(requested: seq<string>, granted: seq<string>) returns (r: Option<seq<string>>)
      ensures r == EffectiveScopes(requested, granted)
    {
      if granted == [] {
        return Some(requested);
      }
      if requested == [] {
        return Some(granted);
      }
      var scopes: seq<string> := [];
      for i := 0 to |requested|
        invariant scopes == Allowed(requested[..i], granted)
      {
        assert requested[..i + 1][..i] == requested[..i];
        if requested[i] in granted {
          scopes := scopes + [requested[i]];
        }
      }
      assert requested[..|requested|] == requested;
      r := if scopes == [] then None else Some(scopes);
    }

    method CompleteConsent(request: nat, redeemed: Option<Link>, now: real) returns (r: Reply)
      modifies this
      ensures (r, View()) == ConsentStep(old(View()), request, redeemed, now)
    {
      PrunePending(now);
      var code, _ := Draw();
      if request !in pending {
        return UnknownRequest;
      }
      var entry := pending[request];
      if redeemed.None? {
        return RedemptionFailed;
      }
      pending := pending - {request};
      var scopes := Effective(entry.scopes, redeemed.value.scopes);
      if scopes.None? {
        return NoScopeGranted;
      }
      codes := codes[code := Code(entry.client, scopes.value, Seconds(now) + AUTH_CODE_TTL)];
      codeIdentity := codeIdentity[code := redeemed.value];
      r := CodeIssued(code);
    }

    method IssuePair(client: string, link: Link, scopes: seq<string>, now: real) returns (r: Reply)
      modifies this`next, tokens, refresh
      ensures (r, View()) == Issue(old(View()), client, link, scopes, now)
    {
      var access, rotated := Draw();
      tokens.Put(access, Link(link.user, link.apiToken, scopes, Some((Seconds(now) + ACCESS_TTL) as real)));
      refresh.Put(rotated, Refresh(client, scopes, Some(Seconds(now) + REFRESH_TTL), link));
      r := Issued(access, rotated, scopes);
    }

    /** `load_authorization_code`, then `exchange_authorization_code`. */
    method ExchangeCode(client: string, code: nat, now: real) returns (r: Reply)
      modifies this, tokens, refresh
      ensures (r, View()) == ExchangeStep(old(View()), client, code, now)
    {
      if code !in codes || codes[code].expiresAt < Seconds(now) {
        var _, _ := Draw();
        return InvalidGrant;
      }
      var loaded := codes[code];
      var link := if code in codeIdentity then Some(codeIdentity[code]) else None;
      codeIdentity, codes := codeIdentity - {code}, codes - {code};
      if link.None? {
        var _, _ := Draw();
        return InvalidGrant;
      }
      r := IssuePair(client, link.value, loaded.scopes, now);
    }

    /** `load_refresh_token`, then `exchange_refresh_token`. */
    method RotateRefresh(client: string, t: nat, scopes: seq<string>, now: real) returns (r: Reply)
      modifies this, tokens, refresh
      ensures (r, View()) == RotateStep(old(View()), client, t, scopes, now)
    {
      var loaded := refresh.Get(t);
      if loaded.None? {
        var _, _ := Draw();
        return InvalidGrant;
      }
      if RefreshExpired(loaded.value, now) {
        var _ := refresh.Pop(t);
        var _, _ := Draw();
        return InvalidGrant;
      }
      var popped := refresh.Pop(t);
      var effective := Effective(if scopes != [] then scopes else loaded.value.scopes, popped.value.link.scopes);
      if effective.None? {
        var _, _ := Draw();
        return NoScopeGranted;
      }
      r := IssuePair(client, popped.value.link, effective.value, now);
    }

    method LoadAccess(t: nat, now: real) returns (r: Reply)
      modifies this, tokens
      ensures (r, View()) == Step(old(View()), Event(Access(t), now))
    {
      var link := tokens.Get(t, now);
      var _, _ := Draw();
      r := if link.Some? then Identified(link.value) else Denied;
    }

    method RevokeToken(t: nat, ghost now: real)
      modifies this, tokens, refresh
      ensures (Done, View()) == Step(old(View()), Event(Revoke(t), now))
    {
      tokens.Revoke(t);
      var _ := refresh.Pop(t);
      var _, _ := Draw();
    }
  }
}
