/** Redis against the in-process stores: over every history, what it returns they return too. */
module BackendRefinement {
  import opened Wrappers
  import opened RedisCells
  import opened TokenStores

  // ---- histories of the token store ----

  datatype StoreOp = Put(token: nat, link: Link) | Get(token: nat) | Revoke(token: nat)

  datatype Timed = Timed(op: StoreOp, at: real)

  function MemoryStep(m: Tokens, o: Timed): (Option<Link>, Tokens) {
    match o.op
    case Put(t, link) => (None, m[t := link])
    case Get(t) => (Lookup(m, t, o.at), AfterLookup(m, t, o.at))
    case Revoke(t) => (None, m - {t})
  }

  function RedisStep(cells: Cells<nat, StoredLink>, c: Cipher, o: Timed): (Option<Link>, Cells<nat, StoredLink>) {
    match o.op
    case Put(t, link) => (None, RedisPut(cells, c, t, link, o.at))
    case Get(t) => (RedisLookup(cells, c, t, o.at), AfterRedisLookup(cells, c, t, o.at))
    case Revoke(t) => (None, cells - {t})
  }

  function MemoryAt(ops: seq<Timed>, i: nat): Tokens
    requires i <= |ops|
  {
    if i == 0 then map[] else MemoryStep(MemoryAt(ops, i - 1), ops[i - 1]).1
  }

  function RedisAt(ops: seq<Timed>, c: Cipher, i: nat): Cells<nat, StoredLink>
    requires i <= |ops|
  {
    if i == 0 then map[] else RedisStep(RedisAt(ops, c, i - 1), c, ops[i - 1]).1
  }

  predicate Ordered(ops: seq<Timed>) {
    forall i, j | 0 <= i < j < |ops| :: ops[i].at <= ops[j].at
  }

  // ---- the simulation ----

  /** The key outlives all but the last second of the link. */
  predicate DiesInLastSecond(dies: Option<real>, expiresAt: Option<real>) {
    dies.Some? ==> expiresAt.Some? && expiresAt.value - 1.0 < dies.value <= expiresAt.value
  }

  /** What Redis still shows is in the process too. */
  ghost predicate Within(m: Tokens, cells: Cells<nat, StoredLink>, c: Cipher, now: real) {
    forall t | t in cells && Alive(cells[t], now) && !Expired(LinkFromJson(cells[t].value, c), now) ::
      t in m && m[t] == LinkFromJson(cells[t].value, c)
  }

  /** What the process holds is in Redis, for all but the last second. */
  ghost predicate Nearly(m: Tokens, cells: Cells<nat, StoredLink>, c: Cipher) {
    forall t | t in m ::
      t in cells && LinkFromJson(cells[t].value, c) == m[t] && DiesInLastSecond(cells[t].dies, m[t].expiresAt)
  }

  lemma TtlDiesInLastSecond(expiresAt: Option<real>, now: real)
    ensures var ttl := TtlFrom(expiresAt, now);
      DiesInLastSecond(if ttl.None? then None else Some(now + ttl.value as real), expiresAt)
  {
  }

  lemma StepWithin(m: Tokens, cells: Cells<nat, StoredLink>, c: Cipher, before: real, o: Timed)
    requires Inverse(c) && before <= o.at && Within(m, cells, c, before)
    ensures Within(MemoryStep(m, o).1, RedisStep(cells, c, o).1, c, o.at)
    ensures RedisStep(cells, c, o).0.Some? ==> MemoryStep(m, o).0 == RedisStep(cells, c, o).0
  {
    if o.op.Put? {
      LinkSurvivesRest(o.op.link, c);
    }
  }

  lemma StepNearly(m: Tokens, cells: Cells<nat, StoredLink>, c: Cipher, o: Timed)
    requires Inverse(c) && Nearly(m, cells, c)
    ensures Nearly(MemoryStep(m, o).1, RedisStep(cells, c, o).1, c)
    ensures var (a, b) := (MemoryStep(m, o).0, RedisStep(cells, c, o).0);
      a.Some? && b.None? ==> a.value.expiresAt.Some? && a.value.expiresAt.value - 1.0 < o.at < a.value.expiresAt.value
  {
    if o.op.Put? {
      LinkSurvivesRest(o.op.link, c);
      TtlDiesInLastSecond(o.op.link.expiresAt, o.at);
    }
  }

  lemma {:induction false} Simulated(ops: seq<Timed>, c: Cipher, i: nat, now: real)
    requires i <= |ops| && Inverse(c) && Ordered(ops)
    requires forall j | 0 <= j < i :: ops[j].at <= now
    ensures Within(MemoryAt(ops, i), RedisAt(ops, c, i), c, now)
    ensures Nearly(MemoryAt(ops, i), RedisAt(ops, c, i), c)
  {
    if i > 0 {
      var o := ops[i - 1];
      Simulated(ops, c, i - 1, o.at);
      StepWithin(MemoryAt(ops, i - 1), RedisAt(ops, c, i - 1), c, o.at, o);
      StepNearly(MemoryAt(ops, i - 1), RedisAt(ops, c, i - 1), c, o);
    }
  }

  /** Redis refines the process over every history with a clock that does not go back: a link it returns is
      the one the process returns, and it withholds one only in the last second before the link expires. */
  lemma RedisRefinesMemory(ops: seq<Timed>, c: Cipher, i: nat)
    requires i < |ops| && Inverse(c) && Ordered(ops)
    ensures var a, b := MemoryStep(MemoryAt(ops, i), ops[i]).0, RedisStep(RedisAt(ops, c, i), c, ops[i]).0;
      && (b.Some? ==> a == b)
      && (a.Some? && b.None? ==>
            a.value.expiresAt.Some? && a.value.expiresAt.value - 1.0 < ops[i].at < a.value.expiresAt.value)
  {
    Simulated(ops, c, i, ops[i].at);
    StepWithin(MemoryAt(ops, i), RedisAt(ops, c, i), c, ops[i].at, ops[i]);
    StepNearly(MemoryAt(ops, i), RedisAt(ops, c, i), c, ops[i]);
  }

  /** The two never differ on a link put at `at`, whenever it is looked up, exactly when it has no expiry,
      less than a second to live, or a whole number of them. */
  lemma BackendsAgreeIff(c: Cipher, t: nat, link: Link, at: real)
    requires Inverse(c)
    ensures (forall now: real | at <= now ::
               Lookup(map[t := link], t, now) == RedisLookup(RedisPut(map[], c, t, link, at), c, t, now))
            <==> link.expiresAt.None? || link.expiresAt.value - at < 1.0
                 || (link.expiresAt.value - at).Floor as real == link.expiresAt.value - at
  {
    LinkSurvivesRest(link, c);
    var cells := RedisPut(map[], c, t, link, at);
    assert cells[t].value == LinkToJson(link, c);
    if link.expiresAt.Some? && link.expiresAt.value - at >= 1.0
       && (link.expiresAt.value - at).Floor as real != link.expiresAt.value - at {
      var dies := at + (link.expiresAt.value - at).Floor as real;
      assert cells[t].dies == Some(dies) && at <= dies < link.expiresAt.value;
      assert Lookup(map[t := link], t, dies).Some? && RedisLookup(cells, c, t, dies).None?;
    }
  }
}
