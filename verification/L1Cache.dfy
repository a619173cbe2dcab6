/**
 The process-local authentication cache: an LRU list with an entry map and two inverted
 indexes, by API key and by tenant (internal/apikey/cache_l1.go).
 */
module L1Cache {
  import opened Wrappers

  /**
   The part of an authentication snapshot the cache depends on. `cachedUntil` is zero when
   unset. `readAt` is the moment the database read behind the snapshot began.
   */
  datatype Snapshot = Snapshot(keyId: string, tenantId: string, cachedUntil: nat, readAt: nat)

  datatype Entry = Entry(cacheKey: string, snapshot: Snapshot, expiresAt: nat)

  /** The two inverted indexes differ only in the owner they are keyed by. */
  datatype Scope = ByKey | ByTenant

  function Owner(snapshot: Snapshot, scope: Scope): string {
    match scope
    case ByKey => snapshot.keyId
    case ByTenant => snapshot.tenantId
  }

  type Index = map<string, set<string>>

  datatype Lookup = Miss | Expired | Hit(snapshot: Snapshot)

  // ---------------------------------------------------------------- the recency list

  /** The list, most recent first, without the entries stored under the given cache keys. */
  function Without(list: seq<Entry>, gone: set<string>): seq<Entry> {
    if list == [] then []
    else if list[0].cacheKey in gone then Without(list[1..], gone)
    else [list[0]] + Without(list[1..], gone)
  }

  /** The list without the entries of one owner. */
  function WithoutOwner(list: seq<Entry>, scope: Scope, id: string): seq<Entry> {
    if list == [] then []
    else if Owner(list[0].snapshot, scope) == id then WithoutOwner(list[1..], scope, id)
    else [list[0]] + WithoutOwner(list[1..], scope, id)
  }

  function Lifetime(snapshot: Snapshot, now: nat, ttl: nat): nat {
    if snapshot.cachedUntil != 0 && snapshot.cachedUntil < now + ttl then snapshot.cachedUntil else now + ttl
  }

  function Truncated(list: seq<Entry>, maxEntries: nat): seq<Entry> {
    if |list| <= maxEntries then list else list[..|list| - 1]
  }

  /** What the list becomes when a snapshot is stored: in front, its old entry gone, one eviction at most. */
  function Stored(list: seq<Entry>, entry: Entry, maxEntries: nat): seq<Entry> {
    Truncated([entry] + Without(list, {entry.cacheKey}), maxEntries)
  }

  function Find(list: seq<Entry>, cacheKey: string): (r: Option<Entry>)
    ensures r.Some? ==> r.value in list && r.value.cacheKey == cacheKey
    ensures r.None? ==> forall entry :: entry in list ==> entry.cacheKey != cacheKey
  {
    if list == [] then None
    else if list[0].cacheKey == cacheKey then Some(list[0])
    else Find(list[1..], cacheKey)
  }

  function LookedUp(list: seq<Entry>, cacheKey: string, now: nat): (Lookup, seq<Entry>) {
    match Find(list, cacheKey)
    case None => (Miss, list)
    case Some(entry) =>
      if entry.expiresAt <= now then (Expired, Without(list, {cacheKey}))
      else (Hit(entry.snapshot), [entry] + Without(list, {cacheKey}))
  }

  lemma {:induction false} WithoutExactly(list: seq<Entry>, gone: set<string>)
    ensures forall entry :: entry in Without(list, gone) <==> entry in list && entry.cacheKey !in gone
    ensures |Without(list, gone)| <= |list|
  {
    if list != [] {
      WithoutExactly(list[1..], gone);
    }
  }

  /** What was stored is found again until its lifetime or its snapshot's is over, whichever comes first. */
  lemma StoredIsFound(list: seq<Entry>, cacheKey: string, snapshot: Snapshot, now: nat, ttl: nat, maxEntries: nat, at: nat)
    requires maxEntries > 0
    ensures var stored := Stored(list, Entry(cacheKey, snapshot, Lifetime(snapshot, now, ttl)), maxEntries);
            LookedUp(stored, cacheKey, at).0 ==
            if at < now + ttl && (snapshot.cachedUntil == 0 || at < snapshot.cachedUntil) then Hit(snapshot) else Expired
  {
    var entry := Entry(cacheKey, snapshot, Lifetime(snapshot, now, ttl));
    var stored := Stored(list, entry, maxEntries);
    assert stored[0] == entry;
    assert Find(stored, cacheKey) == Some(entry);
  }

  /** A hit brings its entry to the front and an expired one is taken out; all other entries keep their order. */
  lemma LookupReorders(list: seq<Entry>, cacheKey: string, now: nat)
    ensures var (result, after) := LookedUp(list, cacheKey, now);
            && (result.Miss? <==> forall entry :: entry in list ==> entry.cacheKey != cacheKey)
            && (result.Miss? ==> after == list)
            && (result.Expired? ==> after == Without(list, {cacheKey}))
            && (result.Hit? ==>
                  && after != [] && after[1..] == Without(list, {cacheKey})
                  && after[0] in list && after[0].cacheKey == cacheKey
                  && after[0].snapshot == result.snapshot && now < after[0].expiresAt)
  {
    var found := Find(list, cacheKey);
    if found.Some? {
      assert ([found.value] + Without(list, {cacheKey}))[1..] == Without(list, {cacheKey});
    }
  }

  /** Taking entries out keeps the order of the others: the parts of a list can be treated one by one. */
  lemma {:induction false} WithoutConcat(one: seq<Entry>, two: seq<Entry>, gone: set<string>)
    ensures Without(one + two, gone) == Without(one, gone) + Without(two, gone)
    decreases |one|
  {
    if one == [] {
      assert one + two == two;
    } else {
      assert (one + two)[1..] == one[1..] + two;
      WithoutConcat(one[1..], two, gone);
    }
  }

  lemma {:induction false} WithoutOwnerConcat(one: seq<Entry>, two: seq<Entry>, scope: Scope, id: string)
    ensures WithoutOwner(one + two, scope, id) == WithoutOwner(one, scope, id) + WithoutOwner(two, scope, id)
    decreases |one|
  {
    if one == [] {
      assert one + two == two;
    } else {
      assert (one + two)[1..] == one[1..] + two;
      WithoutOwnerConcat(one[1..], two, scope, id);
    }
  }

  /** Storing keeps every other entry, except the least recently used one when the list is full. */
  lemma StoredKeepsOthers(list: seq<Entry>, entry: Entry, maxEntries: nat, k: nat)
    requires maxEntries > 0 && k < |Without(list, {entry.cacheKey})|
    ensures var kept := Without(list, {entry.cacheKey});
            var stored := Stored(list, entry, maxEntries);
            && (|kept| < maxEntries ==> stored == [entry] + kept)
            && (|kept| >= maxEntries && k < |kept| - 1 ==> k + 1 < |stored| && stored[k + 1] == kept[k])
            && (|kept| >= maxEntries ==> |stored| == |kept|)
  {
  }

  lemma {:induction false} WithoutOwnerExactly(list: seq<Entry>, scope: Scope, id: string)
    ensures forall entry :: entry in WithoutOwner(list, scope, id) <==>
                            entry in list && Owner(entry.snapshot, scope) != id
  {
    if list != [] {
      WithoutOwnerExactly(list[1..], scope, id);
    }
  }

  lemma {:induction false} WithoutTwice(list: seq<Entry>, one: set<string>, two: set<string>)
    ensures Without(Without(list, one), two) == Without(list, one + two)
  {
    if list != [] {
      WithoutTwice(list[1..], one, two);
    }
  }

  lemma {:induction false} WithoutNothing(list: seq<Entry>)
    ensures Without(list, {}) == list
  {
    if list != [] {
      WithoutNothing(list[1..]);
    }
  }

  /** Dropping exactly the cache keys of an owner is dropping the owner. */
  lemma {:induction false} OwnedKeysAreTheOwner(list: seq<Entry>, scope: Scope, id: string, gone: set<string>)
    requires forall entry :: entry in list ==> (entry.cacheKey in gone <==> Owner(entry.snapshot, scope) == id)
    ensures Without(list, gone) == WithoutOwner(list, scope, id)
  {
    if list != [] {
      OwnedKeysAreTheOwner(list[1..], scope, id, gone);
    }
  }

  // ---------------------------------------------------------------- the representation

  function Dropped(order: seq<string>, cacheKey: string): seq<string> {
    if order == [] then []
    else if order[0] == cacheKey then Dropped(order[1..], cacheKey)
    else [order[0]] + Dropped(order[1..], cacheKey)
  }

  ghost predicate Coherent(order: seq<string>, entries: map<string, Entry>) {
    && (forall i, j :: 0 <= i < j < |order| ==> order[i] != order[j])
    && (forall key :: key in order <==> key in entries)
    && (forall key :: key in entries ==> entries[key].cacheKey == key)
  }

  ghost function Listing(order: seq<string>, entries: map<string, Entry>): (list: seq<Entry>)
    requires forall key :: key in order ==> key in entries
    ensures |list| == |order|
    ensures forall i :: 0 <= i < |order| ==> list[i] == entries[order[i]]
  {
    if order == [] then [] else [entries[order[0]]] + Listing(order[1..], entries)
  }

  ghost function Members(entries: map<string, Entry>, scope: Scope, id: string): set<string> {
    set key | key in entries && Owner(entries[key].snapshot, scope) == id
  }

  function IndexAt(index: Index, id: string): set<string> {
    if id in index then index[id] else {}
  }

  /** An inverted index lists exactly the cache keys of each owner and keeps no empty set. */
  ghost predicate Inverts(index: Index, entries: map<string, Entry>, scope: Scope) {
    && (forall id :: IndexAt(index, id) == Members(entries, scope, id))
    && (forall id :: id in index ==> index[id] != {})
  }

  function AddIndex(index: Index, id: string, cacheKey: string): Index {
    index[id := IndexAt(index, id) + {cacheKey}]
  }

  function DeleteIndex(index: Index, id: string, cacheKey: string): Index {
    var left := IndexAt(index, id) - {cacheKey};
    if left == {} then index - {id} else index[id := left]
  }

  lemma AddIndexInverts(index: Index, entries: map<string, Entry>, scope: Scope, entry: Entry)
    requires Inverts(index, entries, scope) && entry.cacheKey !in entries
    ensures Inverts(AddIndex(index, Owner(entry.snapshot, scope), entry.cacheKey), entries[entry.cacheKey := entry], scope)
  {
    var after := AddIndex(index, Owner(entry.snapshot, scope), entry.cacheKey);
    forall id ensures IndexAt(after, id) == Members(entries[entry.cacheKey := entry], scope, id) {
      assert IndexAt(index, id) == Members(entries, scope, id);
    }
  }

  lemma DeleteIndexInverts(index: Index, entries: map<string, Entry>, scope: Scope, cacheKey: string)
    requires Inverts(index, entries, scope) && cacheKey in entries
    ensures Inverts(DeleteIndex(index, Owner(entries[cacheKey].snapshot, scope), cacheKey), entries - {cacheKey}, scope)
  {
    var after := DeleteIndex(index, Owner(entries[cacheKey].snapshot, scope), cacheKey);
    forall id ensures IndexAt(after, id) == Members(entries - {cacheKey}, scope, id) {
      assert IndexAt(index, id) == Members(entries, scope, id);
    }
  }

  lemma {:induction false} DroppedExactly(order: seq<string>, cacheKey: string)
    requires forall i, j :: 0 <= i < j < |order| ==> order[i] != order[j]
    ensures forall key :: key in Dropped(order, cacheKey) <==> key in order && key != cacheKey
    ensures forall i, j :: 0 <= i < j < |Dropped(order, cacheKey)| ==>
      Dropped(order, cacheKey)[i] != Dropped(order, cacheKey)[j]
    ensures |Dropped(order, cacheKey)| == |order| - (if cacheKey in order then 1 else 0)
  {
    if order != [] {
      var rest := Dropped(order[1..], cacheKey);
      DroppedExactly(order[1..], cacheKey);
      assert forall key :: key in order[1..] ==> key in order && key != order[0];
      if order[0] != cacheKey {
        assert order[0] !in rest;
        assert Dropped(order, cacheKey) == [order[0]] + rest;
      }
    }
  }

  lemma {:induction false} DroppedListing(order: seq<string>, entries: map<string, Entry>, cacheKey: string)
    requires forall key :: key in order ==> key in entries && entries[key].cacheKey == key
    requires forall key :: key in Dropped(order, cacheKey) ==> key in entries - {cacheKey}
    ensures Listing(Dropped(order, cacheKey), entries - {cacheKey}) == Without(Listing(order, entries), {cacheKey})
  {
    if order != [] {
      assert forall key :: key in Dropped(order[1..], cacheKey) ==> key in Dropped(order, cacheKey);
      DroppedListing(order[1..], entries, cacheKey);
      assert Listing(order, entries)[1..] == Listing(order[1..], entries);
    }
  }

  /** The four linked structures as one value. */
  datatype Links = Links(entries: map<string, Entry>, order: seq<string>, keys: Index, tenants: Index)

  ghost predicate Linked(links: Links) {
    && Coherent(links.order, links.entries)
    && Inverts(links.keys, links.entries, ByKey)
    && Inverts(links.tenants, links.entries, ByTenant)
    && Bounded(links.entries)
  }

  /** No entry outlives the moment its snapshot is cached until. */
  ghost predicate Bounded(entries: map<string, Entry>) {
    forall key :: key in entries && entries[key].snapshot.cachedUntil != 0 ==>
      entries[key].expiresAt <= entries[key].snapshot.cachedUntil
  }

  ghost function Contents(links: Links): seq<Entry>
    requires Linked(links)
  {
    Listing(links.order, links.entries)
  }

  function Removed(links: Links, cacheKey: string): Links
    requires cacheKey in links.entries
  {
    var snapshot := links.entries[cacheKey].snapshot;
    Links(links.entries - {cacheKey},
          Dropped(links.order, cacheKey),
          DeleteIndex(links.keys, snapshot.keyId, cacheKey),
          DeleteIndex(links.tenants, snapshot.tenantId, cacheKey))
  }

  function Pushed(links: Links, entry: Entry): Links {
    Links(links.entries[entry.cacheKey := entry],
          [entry.cacheKey] + links.order,
          AddIndex(links.keys, entry.snapshot.keyId, entry.cacheKey),
          AddIndex(links.tenants, entry.snapshot.tenantId, entry.cacheKey))
  }

  function MovedToFront(links: Links, cacheKey: string): Links {
    links.(order := [cacheKey] + Dropped(links.order, cacheKey))
  }

  lemma DroppedIsCoherent(order: seq<string>, entries: map<string, Entry>, cacheKey: string)
    requires Coherent(order, entries) && cacheKey in entries
    ensures Coherent(Dropped(order, cacheKey), entries - {cacheKey})
    ensures |Dropped(order, cacheKey)| == |order| - 1
    ensures Listing(Dropped(order, cacheKey), entries - {cacheKey}) == Without(Listing(order, entries), {cacheKey})
  {
    hide Dropped, Without, Listing;
    DroppedExactly(order, cacheKey);
    DroppedListing(order, entries, cacheKey);
  }

  lemma PushedIsCoherent(order: seq<string>, entries: map<string, Entry>, entry: Entry)
    requires Coherent(order, entries) && entry.cacheKey !in entries
    ensures Coherent([entry.cacheKey] + order, entries[entry.cacheKey := entry])
    ensures Listing([entry.cacheKey] + order, entries[entry.cacheKey := entry]) == [entry] + Listing(order, entries)
  {
    hide Listing;
    PushedOrder(order, entries, entry);
    assert forall key :: key in order ==> key in entries && key != entry.cacheKey;
    hide Coherent;
    PushedListing(order, entries, entry);
  }

  lemma PushedOrder(order: seq<string>, entries: map<string, Entry>, entry: Entry)
    requires Coherent(order, entries) && entry.cacheKey !in entries
    ensures Coherent([entry.cacheKey] + order, entries[entry.cacheKey := entry])
  {
    var after := [entry.cacheKey] + order;
    forall i, j | 0 <= i < j < |after| ensures after[i] != after[j] {
      assert after[j] == order[j - 1] && order[j - 1] in order;
      assert i > 0 ==> after[i] == order[i - 1];
    }
  }

  lemma PushedListing(order: seq<string>, entries: map<string, Entry>, entry: Entry)
    requires forall key :: key in order ==> key in entries && key != entry.cacheKey
    ensures forall key :: key in [entry.cacheKey] + order ==> key in entries[entry.cacheKey := entry]
    ensures Listing([entry.cacheKey] + order, entries[entry.cacheKey := entry]) == [entry] + Listing(order, entries)
  {
    hide Listing;
    var after, more := [entry.cacheKey] + order, entries[entry.cacheKey := entry];
    forall i | 0 <= i < |after| ensures Listing(after, more)[i] == ([entry] + Listing(order, entries))[i] {
      assert i > 0 ==> after[i] == order[i - 1] && order[i - 1] in order;
    }
  }

  lemma MovedIsCoherent(order: seq<string>, entries: map<string, Entry>, cacheKey: string)
    requires Coherent(order, entries) && cacheKey in entries
    ensures Coherent([cacheKey] + Dropped(order, cacheKey), entries)
    ensures |Dropped(order, cacheKey)| == |order| - 1
    ensures Listing([cacheKey] + Dropped(order, cacheKey), entries) ==
            [entries[cacheKey]] + Without(Listing(order, entries), {cacheKey})
  {
    hide Dropped, Without, Listing;
    DroppedExactly(order, cacheKey);
    MovedListing(order, entries, cacheKey);
  }

  lemma CoherentListing(order: seq<string>, entries: map<string, Entry>)
    requires Coherent(order, entries)
    ensures forall key :: key in order ==> key in entries
  {
  }

  lemma RemovedIsLinked(links: Links, cacheKey: string)
    requires Linked(links) && cacheKey in links.entries
    ensures Linked(Removed(links, cacheKey))
    ensures Contents(Removed(links, cacheKey)) == Without(Contents(links), {cacheKey})
    ensures |Contents(Removed(links, cacheKey))| == |Removed(links, cacheKey).order| == |links.order| - 1
    ensures |Contents(links)| == |links.order|
  {
    hide Inverts, DeleteIndex, Without, Dropped, Coherent, Listing;
    CoherentListing(links.order, links.entries);
    DeleteIndexInverts(links.keys, links.entries, ByKey, cacheKey);
    DeleteIndexInverts(links.tenants, links.entries, ByTenant, cacheKey);
    DroppedIsCoherent(links.order, links.entries, cacheKey);
  }

  lemma PushedIsLinked(links: Links, entry: Entry)
    requires Linked(links) && entry.cacheKey !in links.entries
    requires entry.snapshot.cachedUntil != 0 ==> entry.expiresAt <= entry.snapshot.cachedUntil
    ensures Linked(Pushed(links, entry))
    ensures Contents(Pushed(links, entry)) == [entry] + Contents(links)
  {
    hide Inverts, AddIndex, Coherent, Listing;
    CoherentListing(links.order, links.entries);
    PushedIsCoherent(links.order, links.entries, entry);
    AddIndexInverts(links.keys, links.entries, ByKey, entry);
    AddIndexInverts(links.tenants, links.entries, ByTenant, entry);
  }

  lemma MovedIsLinked(links: Links, cacheKey: string)
    requires Linked(links) && cacheKey in links.entries
    ensures Linked(MovedToFront(links, cacheKey))
    ensures Contents(MovedToFront(links, cacheKey)) ==
            [links.entries[cacheKey]] + Without(Contents(links), {cacheKey})
    ensures |MovedToFront(links, cacheKey).order| == |links.order|
  {
    hide Inverts, Without, Dropped, Coherent, Listing;
    MovedIsCoherent(links.order, links.entries, cacheKey);
  }

  class Cache {
    const maxEntries: nat
    const ttl: nat
    var entries: map<string, Entry>
    var order: seq<string>
    var keys: Index
    var tenants: Index

    function Now(): Links
      reads this
    {
      Links(entries, order, keys, tenants)
    }

    ghost predicate Valid()
      reads this
    {
      Linked(Now()) && |order| <= maxEntries
    }

    ghost function Recency(): seq<Entry>
      requires Linked(Now())
      reads this
    {
      Contents(Now())
    }

    constructor (maxEntries: nat, ttl: nat)
      ensures Valid() && Recency() == [] && this.maxEntries == maxEntries && this.ttl == ttl
    {
      this.maxEntries, this.ttl := maxEntries, ttl;
      entries, order, keys, tenants := map[], [], map[], map[];
    }

    /** Unlinks one entry from the map, the list and both indexes. */
    method Remove(cacheKey: string)
      requires cacheKey in entries
      modifies this
      ensures Now() == Removed(old(Now()), cacheKey)
      ensures entries == old(entries) - {cacheKey}
    {
      var entry := entries[cacheKey];
      entries := entries - {cacheKey};
      keys := DeleteIndex(keys, entry.snapshot.keyId, cacheKey);
      tenants := DeleteIndex(tenants, entry.snapshot.tenantId, cacheKey);
      order := Dropped(order, cacheKey);
    }

    /** A hit moves to the front; an entry at or past its expiry is removed and never served. */
    method Get(cacheKey: string, now: nat) returns (result: Lookup)
      requires Valid()
      modifies this
      ensures Valid()
      ensures (result, Recency()) == LookedUp(old(Recency()), cacheKey, now)
      ensures result.Hit? && result.snapshot.cachedUntil != 0 ==> now < result.snapshot.cachedUntil
    {
      FindInLinks(Now(), cacheKey);
      hide Linked, Contents, Removed, Find, Without;
      if cacheKey !in entries {
        return Miss;
      }
      var entry := entries[cacheKey];
      if entry.expiresAt <= now {
        RemovedIsLinked(Now(), cacheKey);
        Remove(cacheKey);
        return Expired;
      }
      MovedIsLinked(Now(), cacheKey);
      order := [cacheKey] + Dropped(order, cacheKey);
      assert Now() == MovedToFront(old(Now()), cacheKey);
      result := Hit(entry.snapshot);
    }

    /** Stores in front and evicts exactly the least recently used entry when the list is full. */
    method Set(cacheKey: string, snapshot: Snapshot, now: nat) returns (evicted: bool)
      requires Valid()
      modifies this
      ensures Valid()
      ensures var pushed := [Entry(cacheKey, snapshot, Lifetime(snapshot, now, ttl))] + Without(old(Recency()), {cacheKey});
              && evicted == (|pushed| > maxEntries)
              && Recency() == Truncated(pushed, maxEntries)
    {
      hide Linked, Contents, Removed, Without, Pushed;
      RemovedOrAbsent(Now(), cacheKey);
      if cacheKey in entries {
        Remove(cacheKey);
      }
      assert Linked(Now()) && Recency() == Without(old(Recency()), {cacheKey}) && cacheKey !in entries;
      var entry := Entry(cacheKey, snapshot, Lifetime(snapshot, now, ttl));
      Push(entry);
      if |order| <= maxEntries {
        return false;
      }
      EvictedIsLinked(Now());
      Remove(order[|order| - 1]);
      evicted := true;
    }

    method Push(entry: Entry)
      requires Linked(Now()) && entry.cacheKey !in entries
      requires entry.snapshot.cachedUntil != 0 ==> entry.expiresAt <= entry.snapshot.cachedUntil
      modifies this
      ensures Linked(Now()) && Recency() == [entry] + old(Recency())
      ensures |order| == |old(order)| + 1 == |Recency()|
    {
      PushedIsLinked(Now(), entry);
      entries := entries[entry.cacheKey := entry];
      order := [entry.cacheKey] + order;
      keys := AddIndex(keys, entry.snapshot.keyId, entry.cacheKey);
      tenants := AddIndex(tenants, entry.snapshot.tenantId, entry.cacheKey);
      hide Linked, AddIndex;
      assert Now() == Pushed(old(Now()), entry);
    }

    method DeleteKey(keyId: string) returns (removed: nat)
      requires Valid()
      modifies this
      ensures Valid()
      ensures Recency() == WithoutOwner(old(Recency()), ByKey, keyId)
      ensures removed == |old(Recency())| - |Recency()|
    {
      removed := DeleteIndexed(ByKey, keyId);
    }

    method DeleteTenant(tenantId: string) returns (removed: nat)
      requires Valid()
      modifies this
      ensures Valid()
      ensures Recency() == WithoutOwner(old(Recency()), ByTenant, tenantId)
      ensures removed == |old(Recency())| - |Recency()|
    {
      removed := DeleteIndexed(ByTenant, tenantId);
    }

    /**
     The loop ranges over the very index set that each removal shrinks: an iteration takes some
     key that is still there and has not been visited.
     */
    method DeleteIndexed(scope: Scope, id: string) returns (removed: nat)
      requires Valid()
      modifies this
      ensures Valid()
      ensures Recency() == WithoutOwner(old(Recency()), scope, id)
      ensures removed == |old(Recency())| - |Recency()|
    {
      hide Linked, Contents, Removed, Without;
      removed := 0;
      var visited: set<string> := {};
      IndexedExactly(Now(), scope, id);
      WithoutNothing(Recency());
      while IndexedNow(Now(), scope, id) - visited != {}
        invariant Valid()
        invariant visited <= IndexedNow(old(Now()), scope, id)
        invariant entries == old(entries) - visited
        invariant Recency() == Without(old(Recency()), visited)
        invariant removed == |old(Recency())| - |Recency()|
        decreases |old(Recency())| - removed
      {
        var cacheKey :| cacheKey in IndexedNow(Now(), scope, id) - visited;
        IndexedExactly(Now(), scope, id);
        RemovedIsLinked(Now(), cacheKey);
        Remove(cacheKey);
        WithoutTwice(old(Recency()), visited, {cacheKey});
        removed := removed + 1;
        visited := visited + {cacheKey};
      }
      IndexedExactly(Now(), scope, id);
      OwnedKeysAreTheOwner(old(Recency()), scope, id, visited);
    }
  }

  function IndexedNow(links: Links, scope: Scope, id: string): set<string> {
    match scope
    case ByKey => IndexAt(links.keys, id)
    case ByTenant => IndexAt(links.tenants, id)
  }

  lemma IndexedExactly(links: Links, scope: Scope, id: string)
    requires Linked(links)
    ensures forall key :: key in IndexedNow(links, scope, id) <==>
              key in links.entries && Owner(links.entries[key].snapshot, scope) == id
    ensures forall entry :: entry in Contents(links) ==>
              entry.cacheKey in links.entries && links.entries[entry.cacheKey] == entry
    ensures |Contents(links)| == |links.order|
  {
    assert IndexedNow(links, scope, id) == Members(links.entries, scope, id);
  }

  lemma FindInLinks(links: Links, cacheKey: string)
    requires Linked(links)
    ensures Find(Contents(links), cacheKey) ==
            if cacheKey in links.entries then Some(links.entries[cacheKey]) else None
    ensures cacheKey in links.entries && links.entries[cacheKey].snapshot.cachedUntil != 0 ==>
            links.entries[cacheKey].expiresAt <= links.entries[cacheKey].snapshot.cachedUntil
  {
    FindByMap(links.order, links.entries, cacheKey);
  }

  lemma RemovedOrAbsent(links: Links, cacheKey: string)
    requires Linked(links)
    ensures var after := if cacheKey in links.entries then Removed(links, cacheKey) else links;
            && Linked(after) && cacheKey !in after.entries && |after.order| <= |links.order|
            && Contents(after) == Without(Contents(links), {cacheKey})
  {
    hide Inverts, Without, Dropped;
    if cacheKey in links.entries {
      RemovedIsLinked(links, cacheKey);
    } else {
      AbsentListing(links.order, links.entries, cacheKey);
    }
  }

  lemma EvictedIsLinked(links: Links)
    requires Linked(links) && links.order != []
    ensures var last := links.order[|links.order| - 1];
            && last in links.entries
            && Linked(Removed(links, last))
            && |Contents(links)| == |links.order|
            && Contents(Removed(links, last)) == Contents(links)[..|links.order| - 1]
            && |Removed(links, last).order| == |links.order| - 1
  {
    hide Inverts, Without, Dropped;
    RemovedIsLinked(links, links.order[|links.order| - 1]);
    LastDropped(links.order, links.entries);
  }

  lemma {:induction false} FindByMap(order: seq<string>, entries: map<string, Entry>, cacheKey: string)
    requires forall key :: key in order ==> key in entries && entries[key].cacheKey == key
    ensures Find(Listing(order, entries), cacheKey) == if cacheKey in order then Some(entries[cacheKey]) else None
  {
    if order != [] {
      FindByMap(order[1..], entries, cacheKey);
      assert Listing(order, entries)[1..] == Listing(order[1..], entries);
    }
  }

  lemma MovedListing(order: seq<string>, entries: map<string, Entry>, cacheKey: string)
    requires Coherent(order, entries) && cacheKey in entries
    ensures forall key :: key in [cacheKey] + Dropped(order, cacheKey) ==> key in entries
    ensures Listing([cacheKey] + Dropped(order, cacheKey), entries) ==
            [entries[cacheKey]] + Without(Listing(order, entries), {cacheKey})
  {
    DroppedExactly(order, cacheKey);
    DroppedListing(order, entries, cacheKey);
    assert Listing(Dropped(order, cacheKey), entries) == Listing(Dropped(order, cacheKey), entries - {cacheKey});
  }

  lemma AbsentListing(order: seq<string>, entries: map<string, Entry>, cacheKey: string)
    requires Coherent(order, entries) && cacheKey !in entries
    ensures Without(Listing(order, entries), {cacheKey}) == Listing(order, entries)
  {
    DroppedExactly(order, cacheKey);
    NotThere(Listing(order, entries), cacheKey);
  }

  lemma {:induction false} NotThere(list: seq<Entry>, cacheKey: string)
    requires forall i :: 0 <= i < |list| ==> list[i].cacheKey != cacheKey
    ensures Without(list, {cacheKey}) == list
  {
    if list != [] {
      NotThere(list[1..], cacheKey);
    }
  }

  /** Dropping the last key of a duplicate-free list cuts the list by its last entry. */
  lemma {:induction false} LastDropped(order: seq<string>, entries: map<string, Entry>)
    requires order != []
    requires forall i, j :: 0 <= i < j < |order| ==> order[i] != order[j]
    requires forall key :: key in order ==> key in entries && entries[key].cacheKey == key
    ensures var list := Listing(order, entries);
            Without(list, {order[|order| - 1]}) == list[..|list| - 1]
  {
    hide Listing, Without;
    var list, last := Listing(order, entries), order[|order| - 1];
    assert list[0] == entries[order[0]] && order[0] in order;
    WithoutStep(list, {last});
    if |order| > 1 {
      LastDropped(order[1..], entries);
      assert list[1..] == Listing(order[1..], entries);
      assert order[1..][|order| - 2] == last;
      assert list[..|list| - 1] == [list[0]] + list[1..][..|list| - 2];
    } else {
      assert list[1..] == [] && list[..0] == [];
      WithoutEmpty({last});
    }
  }

  lemma WithoutStep(list: seq<Entry>, gone: set<string>)
    requires list != []
    ensures Without(list, gone) ==
            if list[0].cacheKey in gone then Without(list[1..], gone) else [list[0]] + Without(list[1..], gone)
  {
  }

  lemma WithoutEmpty(gone: set<string>)
    ensures Without([], gone) == []
  {
  }
}
