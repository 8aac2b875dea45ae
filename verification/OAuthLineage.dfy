/** Lineage: what descends from one authorize request, over every run of the authorization server. */
module OAuthLineage {
  import opened Wrappers
  import opened TokenStores
  import opened OAuthProvider

  /** History the server does not keep: which request a request, code or token descends from, and the
      identity each request was granted. */
  datatype Ledger = Ledger(origin: map<nat, nat>, grants: map<nat, Link>)

  function Inherit(l: Ledger, parent: nat, access: nat, refresh: nat): Ledger {
    if parent in l.origin then l.(origin := l.origin[access := l.origin[parent]][refresh := l.origin[parent]]) else l
  }

  function Record(l: Ledger, op: Op, r: Reply): Ledger {
    match (op, r)
    case (Authorize(_, _), Redirected(q)) => l.(origin := l.origin[q := q])
    case (Consent(q, Some(link)), CodeIssued(c)) => Ledger(l.origin[c := q], l.grants[q := link])
    case (Exchange(_, code), Issued(a, f, _)) => Inherit(l, code, a, f)
    case (Rotate(_, t, _), Issued(a, f, _)) => Inherit(l, t, a, f)
    case _ => l
  }

  function LedgerAt(events: seq<Event>, i: nat): Ledger
    requires i <= |events|
  {
    if i == 0 then Ledger(map[], map[]) else Record(LedgerAt(events, i - 1), events[i - 1].op, ReplyAt(events, i - 1))
  }

  // ---- the invariant ----

  /** What can still be turned into tokens: a pending request, an unexchanged code, a live refresh token. */
  predicate Holder(p: Provider, x: nat) {
    x in p.pending || x in p.codes || x in p.refreshes
  }

  /** Everything the server holds was drawn once, its origin is known, and it is of one kind. */
  ghost predicate KnownAt(p: Provider, l: Ledger, x: nat) {
    && (Holder(p, x) || x in p.tokens ==> x in l.origin)
    && (x in l.origin ==> x < p.next && l.origin[x] < p.next)
    && (x in l.grants ==> x < p.next)
    && (x in p.pending ==> l.origin[x] == x && x !in l.grants)
    && (x in p.codes <==> x in p.identities)
    && !(x in p.pending && x in p.codes) && !(x in p.pending && x in p.refreshes) && !(x in p.codes && x in p.refreshes)
  }

  /** No two holders descend from one request. */
  ghost predicate LinearAt(p: Provider, l: Ledger, x: nat, y: nat) {
    Holder(p, x) && Holder(p, y) && x in l.origin && y in l.origin && l.origin[x] == l.origin[y] ==> x == y
  }

  /** Scopes contained in the grant's whenever the grant lists any. */
  predicate Covered(scopes: seq<string>, grant: Link) {
    grant.scopes != [] ==> Subset(scopes, grant.scopes)
  }

  ghost predicate Granted(l: Ledger, x: nat, grant: Link) {
    x in l.origin && l.origin[x] in l.grants && l.grants[l.origin[x]] == grant
  }

  /** Codes, refresh tokens and access tokens carry the identity their request was granted, and no scope
      beyond it. */
  ghost predicate FaithfulAt(p: Provider, l: Ledger, x: nat) {
    && (x in p.codes && x in p.identities ==> Granted(l, x, p.identities[x]) && Covered(p.codes[x].scopes, p.identities[x]))
    && (x in p.refreshes ==> Granted(l, x, p.refreshes[x].link) && Covered(p.refreshes[x].scopes, p.refreshes[x].link))
    && (x in p.tokens ==> AccessOk(l, x, p.tokens[x]))
  }

  ghost predicate AccessOk(l: Ledger, x: nat, link: Link) {
    && x in l.origin && l.origin[x] in l.grants
    && var grant := l.grants[l.origin[x]];
       link.user == grant.user && link.apiToken == grant.apiToken && Covered(link.scopes, grant)
  }

  ghost predicate Known(p: Provider, l: Ledger) {
    forall x: nat :: KnownAt(p, l, x)
  }

  ghost predicate Linear(p: Provider, l: Ledger) {
    forall x: nat, y: nat :: LinearAt(p, l, x, y)
  }

  ghost predicate Faithful(p: Provider, l: Ledger) {
    forall x: nat :: FaithfulAt(p, l, x)
  }

  ghost predicate Inv(p: Provider, l: Ledger) {
    Known(p, l) && Linear(p, l) && Faithful(p, l)
  }

  // ---- losing some of what is held ----

  ghost predicate FewerAt(p: Provider, p': Provider, x: nat) {
    && (x in p'.pending ==> x in p.pending)
    && (x in p'.codes ==> x in p.codes && p'.codes[x] == p.codes[x])
    && (x in p'.identities ==> x in p.identities && p'.identities[x] == p.identities[x])
    && (x in p'.refreshes ==> x in p.refreshes && p'.refreshes[x] == p.refreshes[x])
    && (x in p'.tokens ==> x in p.tokens && p'.tokens[x] == p.tokens[x])
    && (x in p'.codes <==> x in p'.identities)
  }

  ghost predicate Fewer(p: Provider, p': Provider) {
    p.next <= p'.next && forall x: nat :: FewerAt(p, p', x)
  }

  lemma FewerKeepsInv(p: Provider, p': Provider, l: Ledger)
    requires Inv(p, l) && Fewer(p, p')
    ensures Inv(p', l)
  {
    forall x: nat ensures KnownAt(p', l, x) && FaithfulAt(p', l, x) {
      assert FewerAt(p, p', x) && KnownAt(p, l, x) && FaithfulAt(p, l, x);
    }
    forall x: nat, y: nat ensures LinearAt(p', l, x, y) {
      assert FewerAt(p, p', x) && FewerAt(p, p', y) && LinearAt(p, l, x, y);
    }
  }

  // ---- each operation ----

  lemma AuthorizeKeeps(p: Provider, l: Ledger, client: string, scopes: seq<string>, now: real)
    requires Inv(p, l)
    ensures var (r, p') := AuthorizeStep(p, client, scopes, now); Inv(p', Record(l, Authorize(client, scopes), r))
  {
    var (r, p') := AuthorizeStep(p, client, scopes, now);
    var l' := Record(l, Authorize(client, scopes), r);
    assert KnownAt(p, l, p.next);
    forall x: nat ensures KnownAt(p', l', x) && FaithfulAt(p', l', x) {
      assert KnownAt(p, l, x) && FaithfulAt(p, l, x);
    }
    forall x: nat, y: nat ensures LinearAt(p', l', x, y) {
      assert KnownAt(p, l, x) && KnownAt(p, l, y) && LinearAt(p, l, x, y);
    }
  }

  /** The code issued for a request takes its place. */
  lemma CodeLinear(p: Provider, popped: Provider, l: Ledger, q: nat, code: Code, link: Link)
    requires Known(p, l) && Linear(p, l) && Fewer(p, popped) && q in p.pending && q !in popped.pending
    ensures Linear(popped.(codes := popped.codes[p.next := code], identities := popped.identities[p.next := link]),
                   Ledger(l.origin[p.next := q], l.grants[q := link]))
  {
    var p' := popped.(codes := popped.codes[p.next := code], identities := popped.identities[p.next := link]);
    var l' := Ledger(l.origin[p.next := q], l.grants[q := link]);
    assert KnownAt(p, l, p.next) && KnownAt(p, l, q) && FewerAt(p, popped, q) && FewerAt(p, popped, p.next);
    forall x: nat, y: nat ensures LinearAt(p', l', x, y) {
      assert FewerAt(p, popped, x) && FewerAt(p, popped, y);
      assert LinearAt(p, l, x, y) && LinearAt(p, l, x, q) && LinearAt(p, l, y, q);
    }
  }

  lemma CodeKeeps(p: Provider, popped: Provider, l: Ledger, q: nat, code: Code, link: Link)
    requires Inv(p, l) && Fewer(p, popped) && q in p.pending && q !in popped.pending && Covered(code.scopes, link)
    requires popped.next == p.next + 2
    ensures Inv(popped.(codes := popped.codes[p.next := code], identities := popped.identities[p.next := link]),
                Ledger(l.origin[p.next := q], l.grants[q := link]))
  {
    CodeLinear(p, popped, l, q, code, link);
    hide Covered, Linear;
    var p' := popped.(codes := popped.codes[p.next := code], identities := popped.identities[p.next := link]);
    var l' := Ledger(l.origin[p.next := q], l.grants[q := link]);
    assert KnownAt(p, l, p.next) && KnownAt(p, l, q) && FewerAt(p, popped, q) && FewerAt(p, popped, p.next);
    forall x: nat ensures KnownAt(p', l', x) {
      assert KnownAt(p, l, x) && FewerAt(p, popped, x);
    }
    forall x: nat ensures FaithfulAt(p', l', x) {
      assert KnownAt(p, l, x) && FaithfulAt(p, l, x) && FewerAt(p, popped, x);
      OtherGrants(p, l, x, q);
    }
  }

  /** What is already granted does not descend from a pending request. */
  lemma OtherGrants(p: Provider, l: Ledger, x: nat, q: nat)
    requires KnownAt(p, l, q) && FaithfulAt(p, l, x) && q in p.pending
    ensures x in p.tokens || x in p.refreshes || (x in p.codes && x in p.identities) ==> x in l.origin && l.origin[x] != q
  {
  }

  lemma ConsentKeeps(p: Provider, l: Ledger, request: nat, redeemed: Option<Link>, now: real)
    requires Inv(p, l)
    ensures var (r, p') := ConsentStep(p, request, redeemed, now); Inv(p', Record(l, Consent(request, redeemed), r))
  {
    var (r, p') := ConsentStep(p, request, redeemed, now);
    var pending: map<nat, Request> := Pruned(p.pending, now);
    var without: map<nat, Request> := pending - {request};
    var pruned, popped := p.(pending := pending, next := p.next + 2), p.(pending := without, next := p.next + 2);
    forall x: nat ensures FewerAt(p, pruned, x) && FewerAt(p, popped, x) {
      assert KnownAt(p, l, x);
    }
    hide Inv;
    if r.CodeIssued? {
      var scopes := EffectiveScopes(pending[request].scopes, redeemed.value.scopes).value;
      EffectiveScopesBound(pending[request].scopes, redeemed.value.scopes);
      CodeKeeps(p, popped, l, request, Code(pending[request].client, scopes, Seconds(now) + AUTH_CODE_TTL), redeemed.value);
    } else {
      assert p' == pruned || p' == popped;
      FewerKeepsInv(p, p', l);
    }
  }

  /** A pair issued in place of the holder `parent`. */
  lemma IssueLinear(p: Provider, popped: Provider, l: Ledger, parent: nat, client: string, link: Link, scopes: seq<string>, now: real)
    requires Known(p, l) && Linear(p, l) && Fewer(p, popped) && popped.next == p.next && Holder(p, parent) && !Holder(popped, parent)
    ensures var (r, p') := Issue(popped, client, link, scopes, now); Linear(p', Inherit(l, parent, r.access, r.refresh))
  {
    var (r, p') := Issue(popped, client, link, scopes, now);
    var l' := Inherit(l, parent, r.access, r.refresh);
    assert KnownAt(p, l, parent) && KnownAt(p, l, p.next) && KnownAt(p, l, p.next + 1);
    forall x: nat, y: nat ensures LinearAt(p', l', x, y) {
      assert KnownAt(p, l, x) && KnownAt(p, l, y) && FewerAt(p, popped, x) && FewerAt(p, popped, y);
      assert LinearAt(p, l, x, y) && LinearAt(p, l, x, parent) && LinearAt(p, l, y, parent);
    }
  }

  lemma IssueKeeps(p: Provider, popped: Provider, l: Ledger, parent: nat, client: string, link: Link, scopes: seq<string>, now: real)
    requires Inv(p, l) && Fewer(p, popped) && popped.next == p.next && Holder(p, parent) && !Holder(popped, parent)
    requires Granted(l, parent, link) && Covered(scopes, link)
    ensures var (r, p') := Issue(popped, client, link, scopes, now); Inv(p', Inherit(l, parent, r.access, r.refresh))
  {
    IssueLinear(p, popped, l, parent, client, link, scopes, now);
    var (r, p') := Issue(popped, client, link, scopes, now);
    var l' := Inherit(l, parent, r.access, r.refresh);
    hide Covered, Linear;
    assert KnownAt(p, l, parent) && KnownAt(p, l, p.next) && KnownAt(p, l, p.next + 1);
    forall x: nat ensures KnownAt(p', l', x) {
      assert KnownAt(p, l, x) && FewerAt(p, popped, x);
    }
    forall x: nat ensures FaithfulAt(p', l', x) {
      assert KnownAt(p, l, x) && FaithfulAt(p, l, x) && FewerAt(p, popped, x);
    }
  }

  lemma ExchangeKeeps(p: Provider, l: Ledger, client: string, code: nat, now: real)
    requires Inv(p, l)
    ensures var (r, p') := ExchangeStep(p, client, code, now); Inv(p', Record(l, Exchange(client, code), r))
  {
    var (r, p') := ExchangeStep(p, client, code, now);
    var popped := p.(codes := p.codes - {code}, identities := p.identities - {code});
    assert KnownAt(p, l, code) && FaithfulAt(p, l, code);
    forall x: nat ensures FewerAt(p, popped, x) && FewerAt(p, p, x) {
      assert KnownAt(p, l, x);
    }
    hide Inv;
    if r.Issued? {
      IssueKeeps(p, popped, l, code, client, p.identities[code], p.codes[code].scopes, now);
    } else {
      forall x: nat ensures FewerAt(p, p', x) {
        assert FewerAt(p, popped, x) && FewerAt(p, p, x);
      }
      FewerKeepsInv(p, p', l);
    }
  }

  lemma RotateKeeps(p: Provider, l: Ledger, client: string, refresh: nat, scopes: seq<string>, now: real)
    requires Inv(p, l)
    ensures var (r, p') := RotateStep(p, client, refresh, scopes, now); Inv(p', Record(l, Rotate(client, refresh, scopes), r))
  {
    hide EffectiveScopes, RefreshExpired;
    var (r, p') := RotateStep(p, client, refresh, scopes, now);
    var popped := p.(refreshes := p.refreshes - {refresh});
    assert KnownAt(p, l, refresh) && FaithfulAt(p, l, refresh);
    forall x: nat ensures FewerAt(p, popped, x) && FewerAt(p, p, x) {
      assert KnownAt(p, l, x);
    }
    hide Inv;
    if r.Issued? {
      var presented := p.refreshes[refresh];
      var asked := if scopes != [] then scopes else presented.scopes;
      EffectiveScopesBound(asked, presented.link.scopes);
      IssueKeeps(p, popped, l, refresh, client, presented.link, EffectiveScopes(asked, presented.link.scopes).value, now);
    } else {
      forall x: nat ensures FewerAt(p, p', x) {
        assert FewerAt(p, popped, x) && FewerAt(p, p, x);
      }
      FewerKeepsInv(p, p', l);
    }
  }

  lemma OtherKeeps(p: Provider, l: Ledger, e: Event)
    requires Inv(p, l) && (e.op.Access? || e.op.Revoke?)
    ensures Fewer(p, Step(p, e).1)
  {
    forall x: nat ensures FewerAt(p, Step(p, e).1, x) {
      assert KnownAt(p, l, x);
    }
  }

  lemma StepKeeps(p: Provider, l: Ledger, e: Event)
    requires Inv(p, l)
    ensures var (r, p') := Step(p, e); Inv(p', Record(l, e.op, r))
  {
    match e.op
    case Authorize(client, scopes) => AuthorizeKeeps(p, l, client, scopes, e.at);
    case Consent(request, redeemed) => ConsentKeeps(p, l, request, redeemed, e.at);
    case Exchange(client, code) => ExchangeKeeps(p, l, client, code, e.at);
    case Rotate(client, refresh, scopes) => RotateKeeps(p, l, client, refresh, scopes, e.at);
    case _ =>
      OtherKeeps(p, l, e);
      FewerKeepsInv(p, Step(p, e).1, l);
  }

  /** The invariant holds in every state of every run. */
  lemma {:induction false} AlwaysInv(events: seq<Event>, i: nat)
    requires i <= |events|
    ensures Inv(StateAt(events, i), LedgerAt(events, i))
  {
    hide Step;
    if i > 0 {
      AlwaysInv(events, i - 1);
      StepKeeps(StateAt(events, i - 1), LedgerAt(events, i - 1), events[i - 1]);
    }
  }

  /** Linear lineage.  In every state of every run, a request owns at most one of a pending request, an
      unexchanged code and a live refresh token. */
  lemma OneHolderPerRequest(events: seq<Event>, i: nat, x: nat, y: nat)
    requires i <= |events| && Holder(StateAt(events, i), x) && Holder(StateAt(events, i), y)
    ensures x in LedgerAt(events, i).origin && y in LedgerAt(events, i).origin
    ensures LedgerAt(events, i).origin[x] == LedgerAt(events, i).origin[y] ==> x == y
  {
    AlwaysInv(events, i);
    var p, l := StateAt(events, i), LedgerAt(events, i);
    assert KnownAt(p, l, x) && KnownAt(p, l, y) && LinearAt(p, l, x, y);
  }

  // ---- used once ----

  /** `x` was drawn and is no longer held: it never will be again. */
  predicate Spent(p: Provider, x: nat) {
    x < p.next && !Holder(p, x)
  }

  lemma SpentByConsent(p: Provider, request: nat, redeemed: Option<Link>, now: real, x: nat)
    requires Spent(p, x)
    ensures Spent(ConsentStep(p, request, redeemed, now).1, x)
  {
    hide EffectiveScopes;
  }

  lemma SpentByExchange(p: Provider, client: string, code: nat, now: real, x: nat)
    requires Spent(p, x)
    ensures Spent(ExchangeStep(p, client, code, now).1, x)
  {
  }

  lemma SpentByRotate(p: Provider, client: string, refresh: nat, scopes: seq<string>, now: real, x: nat)
    requires Spent(p, x)
    ensures Spent(RotateStep(p, client, refresh, scopes, now).1, x)
  {
    hide EffectiveScopes;
  }

  lemma SpentStays(p: Provider, e: Event, x: nat)
    requires Spent(p, x)
    ensures Spent(Step(p, e).1, x)
  {
    match e.op
    case Consent(request, redeemed) => SpentByConsent(p, request, redeemed, e.at, x);
    case Exchange(client, code) => SpentByExchange(p, client, code, e.at, x);
    case Rotate(client, refresh, scopes) => SpentByRotate(p, client, refresh, scopes, e.at, x);
    case _ => hide ConsentStep, ExchangeStep, RotateStep;
  }

  lemma {:induction false} SpentForever(events: seq<Event>, i: nat, j: nat, x: nat)
    requires i <= j <= |events| && Spent(StateAt(events, i), x)
    ensures Spent(StateAt(events, j), x)
    decreases j
  {
    hide Step;
    if i < j {
      SpentForever(events, i, j - 1, x);
      SpentStays(StateAt(events, j - 1), events[j - 1], x);
    }
  }

  /** The operation was accepted, and used up `x`. */
  predicate Uses(op: Op, r: Reply, x: nat) {
    match op
    case Consent(q, _) => q == x && (r.CodeIssued? || r.NoScopeGranted?)
    case Exchange(_, code) => code == x && r.Issued?
    case Rotate(_, t, _) => t == x && (r.Issued? || r.NoScopeGranted?)
    case _ => false
  }

  lemma UseSpends(p: Provider, l: Ledger, e: Event, x: nat)
    requires Inv(p, l) && Uses(e.op, Step(p, e).0, x)
    ensures Holder(p, x) && Spent(Step(p, e).1, x)
  {
    assert KnownAt(p, l, x);
    hide Inv, EffectiveScopes;
  }

  lemma UseNeedsHolder(p: Provider, e: Event, x: nat)
    requires Uses(e.op, Step(p, e).0, x)
    ensures Holder(p, x)
  {
  }

  /** In every run, a request is completed at most once, a code is exchanged at most once and a refresh token
      is rotated at most once; nor is one of them used as another. */
  lemma UsedAtMostOnce(events: seq<Event>, i: nat, j: nat, x: nat)
    requires i < j < |events| && Uses(events[i].op, ReplyAt(events, i), x)
    ensures !Uses(events[j].op, ReplyAt(events, j), x)
  {
    hide Step;
    AlwaysInv(events, i);
    UseSpends(StateAt(events, i), LedgerAt(events, i), events[i], x);
    SpentForever(events, i + 1, j, x);
    if Uses(events[j].op, ReplyAt(events, j), x) {
      UseNeedsHolder(StateAt(events, j), events[j], x);
    }
  }

  /** A grant that could not be redeemed leaves the request as it was, and a later one can still complete it
      until it expires; but one refused for its scopes uses the request up. */
  lemma FailedRedemptionIsRetryable(p: Provider, request: nat, link: Link, now: real, later: real)
    requires ConsentStep(p, request, None, now).0 == RedemptionFailed && now <= later
    ensures var p' := ConsentStep(p, request, None, now).1;
      && request in p'.pending && p'.pending[request] == p.pending[request]
      && (ConsentStep(p', request, Some(link), later).0.CodeIssued? <==>
            Seconds(later) <= p.pending[request].expiresAt && EffectiveScopes(p.pending[request].scopes, link.scopes).Some?)
    ensures ConsentStep(p, request, Some(link), now).0 == NoScopeGranted ==> request !in ConsentStep(p, request, Some(link), now).1.pending
  {
  }

  // ---- identity and scopes along whole chains ----

  /** A grant is set down once, by the consent that completed its request. */
  lemma {:induction false} GrantIsAConsent(events: seq<Event>, i: nat, q: nat) returns (j: nat)
    requires i <= |events| && q in LedgerAt(events, i).grants
    ensures j < i && events[j].op == Consent(q, Some(LedgerAt(events, i).grants[q])) && ReplyAt(events, j).CodeIssued?
    decreases i
  {
    hide Step;
    var e, r := events[i - 1], ReplyAt(events, i - 1);
    if e.op.Consent? && e.op.request == q && r.CodeIssued? && e.op.redeemed.Some? {
      j := i - 1;
    } else {
      j := GrantIsAConsent(events, i - 1, q);
    }
  }

  /** Every access token that is accepted, however many rotations after the consent, carries the identity of
      a consent of this run, and no scope that consent did not grant, whenever it lists any. */
  lemma AccessIsConsented(events: seq<Event>, i: nat, t: nat, link: Link) returns (j: nat, granted: Link)
    requires i < |events| && events[i].op == Access(t) && ReplyAt(events, i) == Identified(link)
    ensures j < i && events[j].op.Consent? && events[j].op.redeemed == Some(granted) && ReplyAt(events, j).CodeIssued?
    ensures LedgerAt(events, i).origin.Keys >= {t} && events[j].op.request == LedgerAt(events, i).origin[t]
    ensures link.user == granted.user && link.apiToken == granted.apiToken && Covered(link.scopes, granted)
  {
    AlwaysInv(events, i);
    var l := LedgerAt(events, i);
    assert FaithfulAt(StateAt(events, i), l, t);
    granted := l.grants[l.origin[t]];
    j := GrantIsAConsent(events, i, l.origin[t]);
  }

  /** So does every refresh token that is held, after any number of rotations: the identity behind it is that
      of the consent, whole, and its scopes are no more than the consent granted. */
  lemma RefreshIsConsented(events: seq<Event>, i: nat, t: nat) returns (j: nat, granted: Link)
    requires i <= |events| && t in StateAt(events, i).refreshes
    ensures j < i && events[j].op.Consent? && events[j].op.redeemed == Some(granted) && ReplyAt(events, j).CodeIssued?
    ensures t in LedgerAt(events, i).origin && events[j].op.request == LedgerAt(events, i).origin[t]
    ensures StateAt(events, i).refreshes[t].link == granted && Covered(StateAt(events, i).refreshes[t].scopes, granted)
  {
    hide Step;
    AlwaysInv(events, i);
    var l := LedgerAt(events, i);
    assert FaithfulAt(StateAt(events, i), l, t);
    granted := l.grants[l.origin[t]];
    j := GrantIsAConsent(events, i, l.origin[t]);
  }

  // ---- the whole handshake, and its end ----

  lemma CodeInTime(p: Provider, client: string, scopes: seq<string>, link: Link, t0: real, t1: real)
    requires Seconds(t1) <= Seconds(t0) + PENDING_TTL && EffectiveScopes(scopes, link.scopes).Some?
    ensures var (r0, p0) := AuthorizeStep(p, client, scopes, t0);
      var (r1, p1) := ConsentStep(p0, p.next, Some(link), t1);
      && r0 == Redirected(p.next) && r1 == CodeIssued(p.next + 2) && p1.next == p.next + 4
      && p.next + 2 in p1.codes && p1.codes[p.next + 2] == Code(client, EffectiveScopes(scopes, link.scopes).value, Seconds(t1) + AUTH_CODE_TTL)
      && p.next + 2 in p1.identities && p1.identities[p.next + 2] == link
  {
    hide EffectiveScopes;
  }

  lemma PairInTime(p: Provider, client: string, code: nat, link: Link, t1: real, t2: real, t3: real, t4: real)
    requires code in p.codes && code in p.identities && p.identities[code] == link
    requires p.codes[code].expiresAt == Seconds(t1) + AUTH_CODE_TTL && Seconds(t2) <= Seconds(t1) + AUTH_CODE_TTL
    requires t3 < (Seconds(t2) + ACCESS_TTL) as real && Seconds(t4) <= Seconds(t2) + REFRESH_TTL
    requires EffectiveScopes(p.codes[code].scopes, link.scopes) == Some(p.codes[code].scopes)
    ensures var s := p.codes[code].scopes;
      var (r, p') := ExchangeStep(p, client, code, t2);
      && r == Issued(p.next, p.next + 1, s)
      && Lookup(p'.tokens, p.next, t3) == Some(Link(link.user, link.apiToken, s, Some((Seconds(t2) + ACCESS_TTL) as real)))
      && RotateStep(p', client, p.next + 1, [], t4).0 == Issued(p.next + 2, p.next + 3, s)
  {
    hide EffectiveScopes;
  }

  /** What is asked for in time is given: consent to a pending request yields a code, the code a pair with
      the scopes that are both requested and granted, the access token the identity that consented, and
      the refresh token another pair with the same scopes. */
  lemma Handshake(p: Provider, client: string, scopes: seq<string>, link: Link, t0: real, t1: real, t2: real, t3: real, t4: real)
    requires t0 <= t1 <= t2 <= t3 && t2 <= t4
    requires Seconds(t1) <= Seconds(t0) + PENDING_TTL && Seconds(t2) <= Seconds(t1) + AUTH_CODE_TTL
    requires t3 < (Seconds(t2) + ACCESS_TTL) as real && Seconds(t4) <= Seconds(t2) + REFRESH_TTL
    requires EffectiveScopes(scopes, link.scopes).Some?
    ensures var s := EffectiveScopes(scopes, link.scopes).value;
      var (r0, p0) := AuthorizeStep(p, client, scopes, t0);
      var (r1, p1) := ConsentStep(p0, p.next, Some(link), t1);
      var (r2, p2) := ExchangeStep(p1, client, p.next + 2, t2);
      && r0 == Redirected(p.next) && r1 == CodeIssued(p.next + 2) && r2 == Issued(p.next + 4, p.next + 5, s)
      && Lookup(p2.tokens, p.next + 4, t3) == Some(Link(link.user, link.apiToken, s, Some((Seconds(t2) + ACCESS_TTL) as real)))
      && RotateStep(p2, client, p.next + 5, [], t4).0 == Issued(p.next + 6, p.next + 7, s)
  {
    hide EffectiveScopes, AuthorizeStep, ConsentStep, ExchangeStep, RotateStep;
    EffectiveScopesStay(scopes, link.scopes);
    CodeInTime(p, client, scopes, link, t0, t1);
    var p1 := ConsentStep(AuthorizeStep(p, client, scopes, t0).1, p.next, Some(link), t1).1;
    PairInTime(p1, client, p.next + 2, link, t1, t2, t3, t4);
  }

  /** Drawn, and no access token any more. */
  predicate Withdrawn(p: Provider, t: nat) {
    t < p.next && t !in p.tokens
  }

  lemma WithdrawnStays(p: Provider, e: Event, t: nat)
    requires Withdrawn(p, t)
    ensures Withdrawn(Step(p, e).1, t)
  {
    hide EffectiveScopes, Pruned, RefreshExpired;
    match e.op
    case Exchange(client, code) => WithdrawnByExchange(p, client, code, e.at, t);
    case Rotate(client, refresh, scopes) => WithdrawnByRotate(p, client, refresh, scopes, e.at, t);
    case _ => hide ExchangeStep, RotateStep;
  }

  lemma WithdrawnByExchange(p: Provider, client: string, code: nat, now: real, t: nat)
    requires Withdrawn(p, t)
    ensures Withdrawn(ExchangeStep(p, client, code, now).1, t)
  {
  }

  lemma WithdrawnByRotate(p: Provider, client: string, refresh: nat, scopes: seq<string>, now: real, t: nat)
    requires Withdrawn(p, t)
    ensures Withdrawn(RotateStep(p, client, refresh, scopes, now).1, t)
  {
    hide EffectiveScopes, RefreshExpired;
  }

  lemma {:induction false} WithdrawnForever(events: seq<Event>, i: nat, j: nat, t: nat)
    requires i <= j <= |events| && Withdrawn(StateAt(events, i), t)
    ensures Withdrawn(StateAt(events, j), t)
    decreases j
  {
    hide Step;
    if i < j {
      WithdrawnForever(events, i, j - 1, t);
      WithdrawnStays(StateAt(events, j - 1), events[j - 1], t);
    }
  }

  /** The token was issued at some point: the server holds it. */
  predicate Holds(p: Provider, t: nat) {
    t in p.tokens || t in p.refreshes
  }

  lemma RevokeWithdraws(p: Provider, l: Ledger, t: nat, now: real)
    requires Inv(p, l) && Holds(p, t)
    ensures var p' := Step(p, Event(Revoke(t), now)).1; Withdrawn(p', t) && (t !in p.codes && t !in p.pending ==> Spent(p', t))
    ensures t in p.refreshes ==> t !in p.codes && t !in p.pending
  {
    assert KnownAt(p, l, t);
    hide Inv;
  }

  /** Revocation is final (section 2 of RFC 7009): from then on an access token is denied and a refresh token
      rotates no more, in every continuation of the run. */
  lemma RevokedForGood(events: seq<Event>, i: nat, j: nat, t: nat)
    requires i < j < |events| && events[i].op == Revoke(t) && Holds(StateAt(events, i), t)
    ensures events[j].op == Access(t) ==> ReplyAt(events, j) == Denied
    ensures t in StateAt(events, i).refreshes ==> !Uses(events[j].op, ReplyAt(events, j), t)
  {
    AlwaysInv(events, i);
    RevokeWithdraws(StateAt(events, i), LedgerAt(events, i), t, events[i].at);
    assert events[i] == Event(Revoke(t), events[i].at);
    WithdrawnForever(events, i + 1, j, t);
    if t in StateAt(events, i).refreshes {
      SpentForever(events, i + 1, j, t);
      hide Step;
      if Uses(events[j].op, ReplyAt(events, j), t) {
        UseNeedsHolder(StateAt(events, j), events[j], t);
      }
    }
  }

  // ---- section 6 of RFC 6749: the scopes of a rotation ----

  /** A rotation that is granted issues no scope that the presented refresh token did not have. */
  ghost predicate NoWidening(p: Provider, t: nat, client: string, requested: seq<string>, now: real) {
    var r := RotateStep(p, client, t, requested, now).0;
    t in p.refreshes && r.Issued? ==> Subset(r.scopes, p.refreshes[t].scopes)
  }

  /** The token still has everything that was granted. */
  predicate HasWholeGrant(r: Refresh) {
    r.link.scopes != [] && Subset(r.link.scopes, r.scopes)
  }

  lemma WidensNever(p: Provider, t: nat, client: string, requested: seq<string>, now: real)
    requires t in p.refreshes && HasWholeGrant(p.refreshes[t])
    ensures NoWidening(p, t, client, requested, now)
  {
    var r := p.refreshes[t];
    var asked := if requested != [] then requested else r.scopes;
    if EffectiveScopes(asked, r.link.scopes).Some? {
      EffectiveScopesBound(asked, r.link.scopes);
    }
  }

  /** A scope of the grant that the token lacks, or any other when the grant lists none, can be had. */
  lemma WidensBy(p: Provider, t: nat, client: string, scope: string, now: real)
    requires t in p.refreshes && !RefreshExpired(p.refreshes[t], now) && scope !in p.refreshes[t].scopes
    requires p.refreshes[t].link.scopes == [] || scope in p.refreshes[t].link.scopes
    ensures var reply := RotateStep(p, client, t, [scope], now).0; reply.Issued? && reply.scopes == [scope]
    ensures !NoWidening(p, t, client, [scope], now)
  {
    var r := p.refreshes[t];
    assert [scope][..0] == [];
    assert Allowed([scope], r.link.scopes) == if scope in r.link.scopes then [scope] else [];
    assert scope in [scope];
  }

  /** In every state of every run: a rotation is held against the grant and not against the token presented,
      so some request gets more than the token had, unless the token still has all that was granted. */
  lemma NeverWidensIff(events: seq<Event>, i: nat, t: nat, client: string, now: real)
    requires i <= |events| && t in StateAt(events, i).refreshes
    ensures var p := StateAt(events, i);
      (forall requested: seq<string> :: NoWidening(p, t, client, requested, now))
      <==> RefreshExpired(p.refreshes[t], now) || HasWholeGrant(p.refreshes[t])
  {
    hide Step;
    var p := StateAt(events, i);
    var r := p.refreshes[t];
    if HasWholeGrant(r) {
      forall requested: seq<string> ensures NoWidening(p, t, client, requested, now) {
        WidensNever(p, t, client, requested, now);
      }
    } else if !RefreshExpired(r, now) {
      var scope := Fresh(r.scopes);
      if r.link.scopes != [] {
        scope :| scope in r.link.scopes && scope !in r.scopes;
      }
      WidensBy(p, t, client, scope, now);
    }
  }

  /** A run that gets there: one scope is asked for and two are granted; the refresh token carries the one,
      and is rotated into a pair that carries the other. */
  lemma RunThatWidens(client: string, a: string, b: string, user: string, apiToken: string)
    requires a != b
    ensures var events := [
                Event(Authorize(client, [a]), 0.0), Event(Consent(0, Some(Link(user, apiToken, [a, b], None))), 1.0),
                Event(Exchange(client, 2), 2.0), Event(Rotate(client, 5, [b]), 3.0)];
      && ReplyAt(events, 2) == Issued(4, 5, [a]) && ReplyAt(events, 3) == Issued(6, 7, [b])
      && 5 in StateAt(events, 3).refreshes && StateAt(events, 3).refreshes[5].scopes == [a]
      && !NoWidening(StateAt(events, 3), 5, client, [b], 3.0)
  {
    var link := Link(user, apiToken, [a, b], None);
    var events := [Event(Authorize(client, [a]), 0.0), Event(Consent(0, Some(link)), 1.0),
                   Event(Exchange(client, 2), 2.0), Event(Rotate(client, 5, [b]), 3.0)];
    OneOfTwo(a, b);
    hide EffectiveScopes, ConsentStep, ExchangeStep, AuthorizeStep, RotateStep, NoWidening;
    var p1, p2, p3 := AfterAuthorize(client, [a]), AfterConsent(client, [a], link), AfterExchange(client, [a], link);
    AuthorizeFirst(client, [a]);
    ConsentNext(client, [a], link);
    RunUnfolds(events, p1, p2, p3);
    WidensBy(p3, 5, client, b, 3.0);
  }

  lemma OneOfTwo(a: string, b: string)
    ensures EffectiveScopes([a], [a, b]) == Some([a])
  {
    assert [a][..0] == [] && a in [a, b];
    assert Allowed([a], [a, b]) == [a];
  }

  function AfterAuthorize(client: string, scopes: seq<string>): Provider {
    EMPTY.(pending := map[0 := Request(client, scopes, 600)], next := 2)
  }

  function AfterConsent(client: string, scopes: seq<string>, link: Link): Provider {
    EMPTY.(codes := map[2 := Code(client, scopes, 601)], identities := map[2 := link], next := 4)
  }

  function AfterExchange(client: string, scopes: seq<string>, link: Link): Provider {
    EMPTY.(tokens := map[4 := Link(link.user, link.apiToken, scopes, Some((2 + ACCESS_TTL) as real))],
           refreshes := map[5 := Refresh(client, scopes, Some(2 + REFRESH_TTL), link)], next := 6)
  }

  lemma AuthorizeFirst(client: string, scopes: seq<string>)
    ensures AuthorizeStep(EMPTY, client, scopes, 0.0) == (Redirected(0), AfterAuthorize(client, scopes))
  {
    assert Pruned(map[], 0.0) == map[];
  }

  lemma ConsentNext(client: string, scopes: seq<string>, link: Link)
    requires EffectiveScopes(scopes, link.scopes) == Some(scopes)
    ensures ConsentStep(AfterAuthorize(client, scopes), 0, Some(link), 1.0) == (CodeIssued(2), AfterConsent(client, scopes, link))
    ensures ExchangeStep(AfterConsent(client, scopes, link), client, 2, 2.0) == (Issued(4, 5, scopes), AfterExchange(client, scopes, link))
  {
    var pending := map[0 := Request(client, scopes, 600)];
    assert Pruned(pending, 1.0) == pending;
    assert pending - {0} == map[] && map[2 := Code(client, scopes, 601)] - {2} == map[] && map[2 := link] - {2} == map[];
  }

  lemma RunUnfolds(events: seq<Event>, p1: Provider, p2: Provider, p3: Provider)
    requires |events| >= 3
    requires Step(EMPTY, events[0]).1 == p1 && Step(p1, events[1]).1 == p2 && Step(p2, events[2]).1 == p3
    ensures StateAt(events, 2) == p2 && StateAt(events, 3) == p3
  {
    hide Step;
    assert StateAt(events, 0) == EMPTY;
    assert StateAt(events, 1) == p1;
  }

  /** A request that names only scopes of the presented token, as the endpoint in front of the server checks,
      widens nothing, whatever the token. */
  lemma CheckedRequestNeverWidens(p: Provider, t: nat, client: string, requested: seq<string>, now: real)
    requires t in p.refreshes && Subset(requested, p.refreshes[t].scopes)
    requires p.refreshes[t].scopes != [] || p.refreshes[t].link.scopes == []
    ensures NoWidening(p, t, client, requested, now)
  {
    var r := p.refreshes[t];
    var asked := if requested != [] then requested else r.scopes;
    if EffectiveScopes(asked, r.link.scopes).Some? {
      EffectiveScopesBound(asked, r.link.scopes);
    }
  }

  /** A string that is not in the list. */
  function Fresh(a: seq<string>): (s: string)
    ensures s !in a
  {
    Longer(a)
  }

  function Longer(a: seq<string>): (s: string)
    ensures forall x | x in a :: |x| < |s|
  {
    if a == [] then "x"
    else
      var s := Longer(a[1..]);
      assert a == [a[0]] + a[1..];
      if |a[0]| < |s| then s else a[0] + "x"
  }
}
