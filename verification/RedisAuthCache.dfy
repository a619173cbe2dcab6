/**
 The shared authentication cache in Redis: a value per cache key, a pointer per API key and
 a member set per tenant, all with an expiry (internal/apikey/cache_redis.go).
 */
module RedisAuthCache {
  import opened Wrappers
  import opened L1Cache

  /** The three key shapes never collide: they carry different prefixes. */
  datatype RedisKey = ValueKey(cacheKey: string) | KeyIndex(id: string) | TenantIndex(id: string)

  /** A cell is there until the clock has passed `until`. */
  datatype Cell =
    | Payload(snapshot: Snapshot, until: nat)
    | Pointer(cacheKey: string, until: nat)
    | Members(keys: set<RedisKey>, until: nat)

  type Cells = map<RedisKey, Cell>

  predicate Live(cells: Cells, key: RedisKey, now: nat) {
    key in cells && now <= cells[key].until
  }

  predicate LivePayload(cells: Cells, cacheKey: string, now: nat) {
    Live(cells, ValueKey(cacheKey), now) && cells[ValueKey(cacheKey)].Payload?
  }

  /** SMEMBERS: the members of a live set, none otherwise. */
  function SetMembers(cells: Cells, key: RedisKey, now: nat): set<RedisKey> {
    if Live(cells, key, now) && cells[key].Members? then cells[key].keys else {}
  }

  /** What the pipelined transaction of Store leaves behind. */
  function WithStored(cells: Cells, cacheKey: string, snapshot: Snapshot, now: nat, ttl: nat): Cells {
    var tenant := TenantIndex(snapshot.tenantId);
    var members := SetMembers(cells, tenant, now) + {ValueKey(cacheKey), KeyIndex(snapshot.keyId)};
    cells[ValueKey(cacheKey) := Payload(snapshot, now + ttl)]
         [KeyIndex(snapshot.keyId) := Pointer(cacheKey, now + ttl)]
         [tenant := Members(members, now + ttl)]
  }

  /** The keys that the first command of an invalidation finds for the second one to delete. */
  function Located(cells: Cells, scope: Scope, id: string, now: nat): set<RedisKey> {
    match scope
    case ByKey =>
      var pointer := KeyIndex(id);
      {pointer} + (if Live(cells, pointer, now) && cells[pointer].Pointer? then {ValueKey(cells[pointer].cacheKey)} else {})
    case ByTenant => SetMembers(cells, TenantIndex(id), now) + {TenantIndex(id)}
  }

  class Store {
    var cells: Cells

    constructor ()
      ensures cells == map[]
    {
      cells := map[];
    }

    method Put(cacheKey: string, snapshot: Snapshot, now: nat, ttl: nat)
      modifies this
      ensures cells == WithStored(old(cells), cacheKey, snapshot, now, ttl)
    {
      var keyIndex, tenantIndex := KeyIndex(snapshot.keyId), TenantIndex(snapshot.tenantId);
      cells := cells[ValueKey(cacheKey) := Payload(snapshot, now + ttl)];
      cells := cells[keyIndex := Pointer(cacheKey, now + ttl)];
      var kept := if Live(cells, tenantIndex, now) then cells[tenantIndex].until else now + ttl;
      cells := cells[tenantIndex := Members(SetMembers(cells, tenantIndex, now) + {ValueKey(cacheKey), keyIndex}, kept)];
      cells := cells[tenantIndex := Members(cells[tenantIndex].keys, now + ttl)];
    }

    method DeleteValue(cacheKey: string)
      modifies this
      ensures cells == old(cells) - {ValueKey(cacheKey)}
    {
      cells := cells - {ValueKey(cacheKey)};
    }

    method InvalidateKey(keyId: string, now: nat)
      modifies this
      ensures cells == old(cells) - Located(old(cells), ByKey, keyId, now)
    {
      var pointer := KeyIndex(keyId);
      var keys := {pointer};
      if Live(cells, pointer, now) && cells[pointer].Pointer? {
        keys := keys + {ValueKey(cells[pointer].cacheKey)};
      }
      cells := cells - keys;
    }

    method InvalidateTenant(tenantId: string, now: nat)
      modifies this
      ensures cells == old(cells) - Located(old(cells), ByTenant, tenantId, now)
    {
      var keys := SetMembers(cells, TenantIndex(tenantId), now);
      keys := keys + {TenantIndex(tenantId)};
      cells := cells - keys;
    }
  }

  // ---------------------------------------------------------------- reachability through the indexes

  /** Each API key has one lookup digest, hence one cache key, for its whole life. */
  type Home = string -> string

  /** A live value can be found from its API key and from its tenant for as long as it lives. */
  ghost predicate Reachable(cells: Cells, cacheKey: string, now: nat, ttl: nat, home: Home)
    requires LivePayload(cells, cacheKey, now)
  {
    var cell := cells[ValueKey(cacheKey)];
    var pointer, members := KeyIndex(cell.snapshot.keyId), TenantIndex(cell.snapshot.tenantId);
    && cell.until <= now + ttl
    && home(cell.snapshot.keyId) == cacheKey
    && pointer in cells && cells[pointer].Pointer? && cells[pointer].cacheKey == cacheKey
    && cells[pointer].until >= cell.until
    && members in cells && cells[members].Members? && ValueKey(cacheKey) in cells[members].keys
    && cells[members].until >= cell.until
  }

  /** A member set that lists a pointer also lists the value the pointer leads to, and no other set. */
  ghost predicate Paired(cells: Cells, tenant: string, home: Home) {
    TenantIndex(tenant) in cells && cells[TenantIndex(tenant)].Members? ==>
      forall key :: key in cells[TenantIndex(tenant)].keys ==>
        && !key.TenantIndex?
        && (key.KeyIndex? ==> ValueKey(home(key.id)) in cells[TenantIndex(tenant)].keys)
  }

  ghost predicate Indexed(cells: Cells, now: nat, ttl: nat, home: Home) {
    && (forall cacheKey :: LivePayload(cells, cacheKey, now) ==> Reachable(cells, cacheKey, now, ttl, home))
    && (forall tenant :: Paired(cells, tenant, home))
  }

  lemma IndexedLater(cells: Cells, now: nat, later: nat, ttl: nat, home: Home)
    requires Indexed(cells, now, ttl, home) && now <= later
    ensures Indexed(cells, later, ttl, home)
  {
    forall cacheKey | LivePayload(cells, cacheKey, later) ensures Reachable(cells, cacheKey, later, ttl, home) {
      assert LivePayload(cells, cacheKey, now);
    }
  }

  lemma StoreKeepsIndexed(cells: Cells, cacheKey: string, snapshot: Snapshot, now: nat, ttl: nat, home: Home)
    requires Indexed(cells, now, ttl, home) && home(snapshot.keyId) == cacheKey
    ensures Indexed(WithStored(cells, cacheKey, snapshot, now, ttl), now, ttl, home)
  {
    var after := WithStored(cells, cacheKey, snapshot, now, ttl);
    forall other | LivePayload(after, other, now) ensures Reachable(after, other, now, ttl, home) {
      if other != cacheKey {
        assert LivePayload(cells, other, now);
        assert Reachable(cells, other, now, ttl, home);
      }
    }
    forall tenant ensures Paired(after, tenant, home) {
      assert Paired(cells, tenant, home);
    }
  }

  /** A stored snapshot can be read back until its lifetime is over, and no longer; no other value changes. */
  lemma StoredIsReadable(cells: Cells, cacheKey: string, snapshot: Snapshot, now: nat, ttl: nat, at: nat, other: string)
    requires now <= at
    ensures var after := WithStored(cells, cacheKey, snapshot, now, ttl);
            && (LivePayload(after, cacheKey, at) <==> at <= now + ttl)
            && after[ValueKey(cacheKey)].snapshot == snapshot
            && (other != cacheKey ==> (LivePayload(after, other, at) <==> LivePayload(cells, other, at)))
            && (other != cacheKey && LivePayload(cells, other, at) ==> after[ValueKey(other)] == cells[ValueKey(other)])
  {
  }

  ghost predicate PointersLeadHome(cells: Cells, home: Home) {
    forall id | KeyIndex(id) in cells && cells[KeyIndex(id)].Pointer? :: cells[KeyIndex(id)].cacheKey == home(id)
  }

  lemma StoreLeadsHome(cells: Cells, cacheKey: string, snapshot: Snapshot, now: nat, ttl: nat, home: Home)
    requires PointersLeadHome(cells, home) && home(snapshot.keyId) == cacheKey
    ensures PointersLeadHome(WithStored(cells, cacheKey, snapshot, now, ttl), home)
  {
  }

  /** Invalidating an API key removes its value and no value of another key. */
  lemma InvalidateKeyExactly(cells: Cells, id: string, now: nat, ttl: nat, home: Home, cacheKey: string)
    requires Indexed(cells, now, ttl, home) && LivePayload(cells, cacheKey, now)
    requires PointersLeadHome(cells, home) && forall other | other != id :: home(other) != home(id)
    ensures LivePayload(cells - Located(cells, ByKey, id, now), cacheKey, now) <==>
            cells[ValueKey(cacheKey)].snapshot.keyId != id
  {
    assert Reachable(cells, cacheKey, now, ttl, home);
  }

  /** Which tenant an API key belongs to; a key does not change tenants. */
  type Tenancy = string -> string

  /** A member set lists only values of keys of its tenant. */
  ghost predicate MembersBelong(cells: Cells, home: Home, tenancy: Tenancy) {
    forall tenant, cacheKey |
      TenantIndex(tenant) in cells && cells[TenantIndex(tenant)].Members? &&
      ValueKey(cacheKey) in cells[TenantIndex(tenant)].keys ::
        exists id :: home(id) == cacheKey && tenancy(id) == tenant
  }

  lemma StoreKeepsMembers(
    cells: Cells, cacheKey: string, snapshot: Snapshot, now: nat, ttl: nat, home: Home, tenancy: Tenancy)
    requires MembersBelong(cells, home, tenancy)
    requires home(snapshot.keyId) == cacheKey && tenancy(snapshot.keyId) == snapshot.tenantId
    ensures MembersBelong(WithStored(cells, cacheKey, snapshot, now, ttl), home, tenancy)
  {
    var after := WithStored(cells, cacheKey, snapshot, now, ttl);
    forall tenant, other |
      TenantIndex(tenant) in after && after[TenantIndex(tenant)].Members? &&
      ValueKey(other) in after[TenantIndex(tenant)].keys
      ensures exists id :: home(id) == other && tenancy(id) == tenant
    {
      if other == cacheKey && tenant == snapshot.tenantId {
        assert home(snapshot.keyId) == other && tenancy(snapshot.keyId) == tenant;
      }
    }
  }

  lemma DeletionKeepsMembers(cells: Cells, gone: set<RedisKey>, home: Home, tenancy: Tenancy)
    requires MembersBelong(cells, home, tenancy)
    ensures MembersBelong(cells - gone, home, tenancy)
  {
  }

  /** Invalidating a tenant removes its values and no value of another tenant. */
  lemma InvalidateTenantExactly(
    cells: Cells, id: string, now: nat, ttl: nat, home: Home, tenancy: Tenancy, cacheKey: string)
    requires Indexed(cells, now, ttl, home) && LivePayload(cells, cacheKey, now)
    requires MembersBelong(cells, home, tenancy) && forall one, two :: home(one) == home(two) ==> one == two
    requires tenancy(cells[ValueKey(cacheKey)].snapshot.keyId) == cells[ValueKey(cacheKey)].snapshot.tenantId
    ensures LivePayload(cells - Located(cells, ByTenant, id, now), cacheKey, now) <==>
            cells[ValueKey(cacheKey)].snapshot.tenantId != id
  {
    assert Reachable(cells, cacheKey, now, ttl, home);
  }

  lemma DeleteValueKeepsIndexed(cells: Cells, cacheKey: string, now: nat, ttl: nat, home: Home)
    requires Indexed(cells, now, ttl, home)
    ensures Indexed(cells - {ValueKey(cacheKey)}, now, ttl, home)
  {
    var after := cells - {ValueKey(cacheKey)};
    forall other | LivePayload(after, other, now) ensures Reachable(after, other, now, ttl, home) {
      assert LivePayload(cells, other, now);
    }
    forall tenant ensures Paired(after, tenant, home) {
      assert Paired(cells, tenant, home);
    }
  }

  /** Keys an invalidation may delete: a pointer never goes without its value, nor a set without its members. */
  ghost predicate Closed(cells: Cells, targets: set<RedisKey>, now: nat, home: Home) {
    && (forall key | key in targets && key.KeyIndex? && LivePayload(cells, home(key.id), now) ::
        cells[ValueKey(home(key.id))].snapshot.keyId == key.id ==> ValueKey(home(key.id)) in targets)
    && (forall cacheKey | LivePayload(cells, cacheKey, now) ::
        TenantIndex(cells[ValueKey(cacheKey)].snapshot.tenantId) in targets ==> ValueKey(cacheKey) in targets)
  }

  /** Every live value of the owner is among the located keys. */
  ghost predicate CoversOwner(cells: Cells, targets: set<RedisKey>, scope: Scope, id: string, now: nat) {
    forall cacheKey | LivePayload(cells, cacheKey, now) ::
      Owner(cells[ValueKey(cacheKey)].snapshot, scope) == id ==> ValueKey(cacheKey) in targets
  }

  /** The two-command invalidation finds every live value of its owner, through the indexes alone. */
  lemma LocatedCoversOwner(cells: Cells, scope: Scope, id: string, now: nat, ttl: nat, home: Home)
    requires Indexed(cells, now, ttl, home)
    ensures CoversOwner(cells, Located(cells, scope, id, now), scope, id, now)
    ensures Closed(cells, Located(cells, scope, id, now), now, home)
  {
    var targets := Located(cells, scope, id, now);
    forall cacheKey | LivePayload(cells, cacheKey, now) && Owner(cells[ValueKey(cacheKey)].snapshot, scope) == id
      ensures ValueKey(cacheKey) in targets
    {
      assert Reachable(cells, cacheKey, now, ttl, home);
    }
    forall key | key in targets && key.KeyIndex? && LivePayload(cells, home(key.id), now) &&
      cells[ValueKey(home(key.id))].snapshot.keyId == key.id
      ensures ValueKey(home(key.id)) in targets
    {
      assert Reachable(cells, home(key.id), now, ttl, home);
      if scope.ByTenant? {
        assert Paired(cells, id, home);
      }
    }
    forall cacheKey | LivePayload(cells, cacheKey, now) &&
      TenantIndex(cells[ValueKey(cacheKey)].snapshot.tenantId) in targets
      ensures ValueKey(cacheKey) in targets
    {
      assert Reachable(cells, cacheKey, now, ttl, home);
      assert Paired(cells, id, home);
    }
  }

  lemma InvalidateKeepsIndexed(cells: Cells, targets: set<RedisKey>, now: nat, ttl: nat, home: Home)
    requires Indexed(cells, now, ttl, home) && Closed(cells, targets, now, home)
    ensures Indexed(cells - targets, now, ttl, home)
  {
    var after := cells - targets;
    forall cacheKey | LivePayload(after, cacheKey, now) ensures Reachable(after, cacheKey, now, ttl, home) {
      assert LivePayload(cells, cacheKey, now);
      assert Reachable(cells, cacheKey, now, ttl, home);
    }
    forall tenant ensures Paired(after, tenant, home) {
      assert Paired(cells, tenant, home);
    }
  }
}
