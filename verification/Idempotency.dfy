/** Idempotency keys and the store that remembers the run each one started. */
module Idempotency {
  import opened Wrappers
  import opened Dicts
  import Text

  const DERIVED_TTL: real := 120.0
  const DEFAULT_TTL: real := 86400.0

  /** SHA-256 in hexadecimal, and `json.dumps(values, sort_keys=True)`. */
  datatype Digest = Digest(sha: string -> string, dumps: map<string, Json> -> string)

  ghost predicate Injective(sha: string -> string) {
    forall a, b :: sha(a) == sha(b) ==> a == b
  }

  /** `user_scope()`: 32 lower-case hexadecimal digits. */
  predicate IsScope(s: string) {
    |s| == 32 && forall i | 0 <= i < 32 :: '0' <= s[i] <= '9' || 'a' <= s[i] <= 'f'
  }

  function Blob(d: Digest, scope: string, target: string, values: map<string, Json>): string {
    scope + "|" + target + "|" + d.dumps(values)
  }

  const DERIVED := "derived:"

  function DerivedKey(d: Digest, scope: string, target: string, values: map<string, Json>): string {
    DERIVED + d.sha(Blob(d, scope, target, values))
  }

  function ExplicitKey(scope: string, key: string): string {
    scope + ":" + key
  }

  /** A caller's own key and a derived one never meet: no scope starts like the word `derived`. */
  lemma KindsNeverCollide(d: Digest, scope: string, key: string, scope': string, target: string, values: map<string, Json>)
    requires IsScope(scope)
    ensures ExplicitKey(scope, key) != DerivedKey(d, scope', target, values)
  {
    assert ExplicitKey(scope, key)[2] == scope[2];
    assert DerivedKey(d, scope', target, values)[2] == DERIVED[2] == 'r';
  }

  /** Explicit keys of two users never meet, nor two different keys of one user. */
  lemma ExplicitKeysDiffer(scope: string, key: string, scope': string, key': string)
    requires IsScope(scope) && IsScope(scope')
    ensures ExplicitKey(scope, key) == ExplicitKey(scope', key') <==> scope == scope' && key == key'
  {
    var a, b := ExplicitKey(scope, key), ExplicitKey(scope', key');
    assert a[..32] == scope && b[..32] == scope';
    assert a[33..] == key && b[33..] == key';
  }

  /** Derived keys of two users never meet; those of one user meet exactly when the target and the
      printed input do. */
  lemma DerivedKeysDiffer(d: Digest, scope: string, target: string, values: map<string, Json>,
                          scope': string, target': string, values': map<string, Json>)
    requires IsScope(scope) && IsScope(scope') && Injective(d.sha)
    requires '|' !in target && '|' !in target'
    ensures DerivedKey(d, scope, target, values) == DerivedKey(d, scope', target', values')
       <==> scope == scope' && target == target' && d.dumps(values) == d.dumps(values')
  {
    var x, y := Blob(d, scope, target, values), Blob(d, scope', target', values');
    var p, q := DerivedKey(d, scope, target, values), DerivedKey(d, scope', target', values');
    assert p[8..] == d.sha(x) && q[8..] == d.sha(y);
    assert x[..32] == scope && y[..32] == scope';
    assert x[33..] == target + ("|" + d.dumps(values)) && y[33..] == target' + ("|" + d.dumps(values'));
    if x == y {
      BeforeBar(target, "|" + d.dumps(values), target', "|" + d.dumps(values'));
      assert ("|" + d.dumps(values))[1..] == d.dumps(values);
      assert ("|" + d.dumps(values'))[1..] == d.dumps(values');
    }
  }

  predicate NotBar(c: char) { c != '|' }

  lemma BeforeBar(s: string, t: string, s': string, t': string)
    requires '|' !in s && '|' !in s' && t != "" && t[0] == '|' && t' != "" && t'[0] == '|'
    requires s + t == s' + t'
    ensures s == s' && t == t'
  {
    assert forall i | 0 <= i < |s| :: NotBar(s[i]) by { assert forall i | 0 <= i < |s| :: s[i] in s; }
    assert forall i | 0 <= i < |s'| :: NotBar(s'[i]) by { assert forall i | 0 <= i < |s'| :: s'[i] in s'; }
    Text.SpanPrefix(s, t, NotBar);
    Text.SpanPrefix(s', t', NotBar);
  }

  // ---- the store ----

  datatype Remembered = Remembered(run: nat, expires: Option<real>)

  type Memory = map<string, Remembered>

  predicate Live(e: Remembered, now: real) {
    e.expires.None? || now < e.expires.value
  }

  function Recall(m: Memory, key: string, now: real): Option<nat> {
    if key in m && Live(m[key], now) then Some(m[key].run) else None
  }

  /** Reading an expired entry drops it. */
  function AfterRecall(m: Memory, key: string, now: real): Memory {
    if key in m && !Live(m[key], now) then m - {key} else m
  }

  /** A lifetime of zero means no expiry; an absent one, the store's own. */
  function Remember(m: Memory, key: string, run: nat, ttl: Option<real>, defaultTtl: real, now: real): Memory {
    var life := ttl.GetOr(defaultTtl);
    m[key := Remembered(run, if life != 0.0 then Some(now + life) else None)]
  }

  /** What was remembered is recalled exactly until its lifetime is over, and without end if that is zero. */
  lemma RememberedUntil(m: Memory, key: string, run: nat, ttl: Option<real>, defaultTtl: real, now: real, later: real)
    ensures var life := if ttl.Some? then ttl.value else defaultTtl;
      Recall(Remember(m, key, run, ttl, defaultTtl, now), key, later) ==
        if life == 0.0 || later < now + life then Some(run) else None
  {
  }

  /** Looking a key up drops its entry exactly when that has expired, and no other. */
  lemma RecallEvicts(m: Memory, key: string, now: real, k: string)
    ensures var m' := AfterRecall(m, key, now);
      && (k in m' <==> k in m && (k != key || m[k].expires.None? || now < m[k].expires.value))
      && (k in m' ==> m'[k] == m[k])
  {
  }

  class IdempotencyStore {
    var entries: Memory
    const ttl: real

    constructor (ttl: real)
      ensures entries == map[] && this.ttl == ttl
    {
      entries, this.ttl := map[], ttl;
    }

    method Get(key: string, now: real) returns (run: Option<nat>)
      modifies this
      ensures run == Recall(old(entries), key, now)
      ensures entries == AfterRecall(old(entries), key, now)
    {
      if key !in entries {
        return None;
      }
      var e := entries[key];
      if e.expires.Some? && now >= e.expires.value {
        entries := entries - {key};
        return None;
      }
      return Some(e.run);
    }

    method Put(key: string, run: nat, ttl: Option<real>, now: real)
      modifies this
      ensures entries == Remember(old(entries), key, run, ttl, this.ttl, now)
    {
      var life := ttl.GetOr(this.ttl);
      entries := entries[key := Remembered(run, if life != 0.0 then Some(now + life) else None)];
    }
  }
}
