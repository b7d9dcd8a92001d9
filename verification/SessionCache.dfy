/** The session cache of `SessionGuard`: a time-to-live map in insertion order with a capacity. */
module SessionCache {
  import opened Prelude
  import opened OrderedMaps

  const CACHE_TTL_MS := 60_000
  const MAX_CACHE_SIZE: nat := 5_000

  datatype Session = Session(user: string, session: string, expiresAt: int)

  type Cache = OrderedMap<Session>

  // ----- the service's operations ------------------------------------------------------------------------------

  function Live(c: Cache, now: int): Cache {
    if c == [] then []
    else Live(c[..|c| - 1], now) + (if c[|c| - 1].value.expiresAt > now then [c[|c| - 1]] else [])
  }

  /** Drops from the head until there is room for one more. */
  function Capped(c: Cache): Cache {
    if |c| >= MAX_CACHE_SIZE then c[|c| - MAX_CACHE_SIZE + 1..] else c
  }

  /** `evictedAt` and `storedAt` are the two clock readings of one store. */
  function Stored(c: Cache, key: string, user: string, session: string, evictedAt: int, storedAt: int): Cache {
    Put(Capped(Live(c, evictedAt)), key, Session(user, session, storedAt + CACHE_TTL_MS))
  }

  predicate Hits(c: Cache, key: string, now: int) {
    HasKey(c, key) && c[IndexOf(c, key)].value.expiresAt > now
  }

  /** A hit moves the entry to the tail as it is. */
  function Touched(c: Cache, key: string): Cache
    requires HasKey(c, key)
  {
    Without(c, key) + [c[IndexOf(c, key)]]
  }

  class SessionGuard {
    var cache: Cache

    constructor ()
      ensures cache == []
    {
      cache := [];
    }

    /** The cache path of `canActivate`. */
    method Lookup(key: string, now: int) returns (hit: Option<Session>)
      modifies this
      ensures hit == if old(Hits(cache, key, now)) then Some(old(cache)[IndexOf(old(cache), key)].value) else None
      ensures cache == if old(Hits(cache, key, now)) then Touched(old(cache), key) else old(cache)
    {
      if HasKey(cache, key) {
        var cached := cache[IndexOf(cache, key)];
        if cached.value.expiresAt > now {
          cache := Without(cache, key);
          cache := cache + [cached];
          return Some(cached.value);
        }
      }
      return None;
    }

    method EvictExpired(now: int)
      modifies this
      ensures cache == Live(old(cache), now)
    {
      var i := 0;
      ghost var done := 0;
      while i < |cache|
        invariant i <= |cache| && done <= |old(cache)|
        invariant cache[..i] == Live(old(cache)[..done], now) && cache[i..] == old(cache)[done..]
        decreases |cache| - i
      {
        assert old(cache)[..done + 1][..done] == old(cache)[..done];
        if cache[i].value.expiresAt <= now {
          cache := cache[..i] + cache[i + 1..];
        } else {
          i := i + 1;
        }
        done := done + 1;
      }
      assert cache[..i] == cache && old(cache)[..done] == old(cache);
    }

    method StoreInCache(key: string, user: string, session: string, evictedAt: int, storedAt: int)
      modifies this
      ensures cache == Stored(old(cache), key, user, session, evictedAt, storedAt)
    {
      EvictExpired(evictedAt);
      ghost var live, dropped := cache, 0;
      while |cache| >= MAX_CACHE_SIZE
        invariant 0 <= dropped <= |live| && cache == live[dropped..]
        invariant dropped == 0 || |cache| >= MAX_CACHE_SIZE - 1
      {
        cache := cache[1..];
        dropped := dropped + 1;
      }
      assert cache == Capped(live);
      cache := Put(cache, key, Session(user, session, storedAt + CACHE_TTL_MS));
    }

    method InvalidateCache(key: Option<string>)
      modifies this
      ensures cache == if key.Some? then Without(old(cache), key.value) else []
    {
      if key.Some? {
        cache := Without(cache, key.value);
        return;
      }
      cache := [];
    }
  }

  // ----- runs ------------------------------------------------------------------------------------------------

  datatype Event =
    | Look(key: string, now: int)
    | Store(key: string, user: string, session: string, evictedAt: int, storedAt: int)
    | Evict(now: int)
    | Invalidate(key: string)
    | Clear

  function Next(c: Cache, e: Event): Cache {
    match e
    case Look(key, now) => if Hits(c, key, now) then Touched(c, key) else c
    case Store(key, user, session, evictedAt, storedAt) => Stored(c, key, user, session, evictedAt, storedAt)
    case Evict(now) => Live(c, now)
    case Invalidate(key) => Without(c, key)
    case Clear => []
  }

  /** The cache after the first `n` events of a process's life. */
  function After(events: seq<Event>, n: nat): Cache
    requires n <= |events|
  {
    if n == 0 then [] else Next(After(events, n - 1), events[n - 1])
  }

  /** Every entry of `d` is one of `c`, and the order is kept. */
  ghost predicate Thinned(c: Cache, d: Cache, at: seq<nat>) {
    && |at| == |d|
    && (forall i | 0 <= i < |d| :: at[i] < |c| && d[i] == c[at[i]])
    && (forall i, j | 0 <= i < j < |d| :: at[i] < at[j])
  }

  lemma ThinnedSnoc(c: Cache, d: Cache, at: seq<nat>, x: Slot<Session>)
    requires Thinned(c, d, at)
    ensures Thinned(c + [x], d, at) && Thinned(c + [x], d + [x], at + [|c|])
  {
  }

  lemma {:induction false} LiveIsThinned(c: Cache, now: int) returns (at: seq<nat>)
    ensures Thinned(c, Live(c, now), at)
    ensures forall i | 0 <= i < |Live(c, now)| :: Live(c, now)[i].value.expiresAt > now
  {
    at := [];
    if c != [] {
      var front, last := c[..|c| - 1], c[|c| - 1];
      at := LiveIsThinned(front, now);
      assert c == front + [last];
      ThinnedSnoc(front, Live(front, now), at, last);
      if last.value.expiresAt > now { at := at + [|front|]; }
    }
  }

  lemma CappedIsThinned(c: Cache) returns (at: seq<nat>)
    ensures Thinned(c, Capped(c), at) && |Capped(c)| < MAX_CACHE_SIZE
  {
    var dropped := |c| - |Capped(c)|;
    at := seq(|Capped(c)|, i requires 0 <= i < |Capped(c)| => i + dropped);
  }

  lemma RemovalIsThinned(c: Cache, gone: nat) returns (at: seq<nat>)
    requires gone < |c|
    ensures Thinned(c, c[..gone] + c[gone + 1..], at)
  {
    at := seq(|c| - 1, i requires 0 <= i < |c| - 1 => if i < gone then i else i + 1);
  }

  lemma WithoutIsThinned(c: Cache, key: string) returns (at: seq<nat>)
    ensures Thinned(c, Without(c, key), at)
  {
    if HasKey(c, key) {
      at := RemovalIsThinned(c, IndexOf(c, key));
    } else {
      at := seq(|c|, i requires 0 <= i < |c| => i);
    }
  }

  lemma ThinningKeepsUnique(c: Cache, d: Cache, at: seq<nat>)
    requires UniqueKeys(c) && Thinned(c, d, at)
    ensures UniqueKeys(d)
  {
  }

  /** What one store evicts and keeps: the survivors, thinned out of the old cache. */
  lemma SurvivorsAreThinned(c: Cache, now: int) returns (at: seq<nat>)
    ensures Thinned(c, Capped(Live(c, now)), at) && |Capped(Live(c, now))| < MAX_CACHE_SIZE
    ensures forall i | 0 <= i < |Capped(Live(c, now))| :: Capped(Live(c, now))[i].value.expiresAt > now
  {
    var a := LiveIsThinned(c, now);
    var b := CappedIsThinned(Live(c, now));
    at := seq(|b|, i requires 0 <= i < |b| => a[b[i]]);
  }

  lemma TouchKeepsShape(c: Cache, key: string)
    requires UniqueKeys(c) && HasKey(c, key)
    ensures UniqueKeys(Touched(c, key)) && |Touched(c, key)| == |c|
  {
    var at := WithoutIsThinned(c, key);
    ThinningKeepsUnique(c, Without(c, key), at);
    WithoutLacksKey(c, key);
  }

  lemma StoreKeepsShape(c: Cache, e: Event)
    requires UniqueKeys(c) && e.Store?
    ensures UniqueKeys(Next(c, e)) && |Next(c, e)| <= MAX_CACHE_SIZE
  {
    hide Live, Capped, Thinned, UniqueKeys, HasKey;
    var kept := Capped(Live(c, e.evictedAt));
    var at := SurvivorsAreThinned(c, e.evictedAt);
    ThinningKeepsUnique(c, kept, at);
    PutKeepsUnique(kept, e.key, Session(e.user, e.session, e.storedAt + CACHE_TTL_MS));
  }

  lemma StepKeepsShape(c: Cache, e: Event)
    requires UniqueKeys(c) && |c| <= MAX_CACHE_SIZE
    ensures UniqueKeys(Next(c, e)) && |Next(c, e)| <= MAX_CACHE_SIZE
  {
    match e {
      case Look(key, now) => if Hits(c, key, now) { TouchKeepsShape(c, key); }
      case Store(_, _, _, _, _) => StoreKeepsShape(c, e);
      case Evict(now) =>
        var at := LiveIsThinned(c, now);
        ThinningKeepsUnique(c, Live(c, now), at);
        ThinnedIsShorter(c, Live(c, now), at);
      case Invalidate(key) =>
        var at := WithoutIsThinned(c, key);
        ThinningKeepsUnique(c, Without(c, key), at);
      case Clear =>
    }
  }

  lemma {:induction false} ThinnedIsShorter(c: Cache, d: Cache, at: seq<nat>)
    requires Thinned(c, d, at)
    ensures |d| <= |c|
    decreases |d|
  {
    if d != [] {
      var n := |d| - 1;
      ThinnedIsShorter(c[..at[n]], d[..n], at[..n]);
    }
  }

  /** In every run the cache never exceeds its capacity and never holds a key twice. */
  lemma {:induction false} CapacityHolds(events: seq<Event>, n: nat)
    requires n <= |events|
    ensures UniqueKeys(After(events, n)) && |After(events, n)| <= 5_000
  {
    if n > 0 {
      CapacityHolds(events, n - 1);
      StepKeepsShape(After(events, n - 1), events[n - 1]);
    }
  }

  /** A store leaves no expired entry, exactly as long as the clock does not jump back by a whole entry
    * life between its two readings, and gives up live entries only from the head. */
  lemma StoreEvicts(c: Cache, key: string, user: string, session: string, evictedAt: int, storedAt: int)
    ensures var d := Stored(c, key, user, session, evictedAt, storedAt);
      && ((forall i | 0 <= i < |d| :: d[i].value.expiresAt > evictedAt) <==> evictedAt < storedAt + CACHE_TTL_MS)
      && exists dropped: nat :: dropped <= |Live(c, evictedAt)| && Capped(Live(c, evictedAt)) == Live(c, evictedAt)[dropped..]
                             && (dropped > 0 ==> |Live(c, evictedAt)| - dropped == MAX_CACHE_SIZE - 1)
  {
    var at := SurvivorsAreThinned(c, evictedAt);
    var live := Live(c, evictedAt);
    var dropped := |live| - |Capped(live)|;
    assert Capped(live) == live[dropped..];
    var kept, d := Capped(live), Stored(c, key, user, session, evictedAt, storedAt);
    var own := if HasKey(kept, key) then IndexOf(kept, key) else |kept|;
    assert d[own].value.expiresAt == storedAt + CACHE_TTL_MS;
  }

  // ----- where a hit comes from ---------------------------------------------------------------------------------

  /** Event `m` stored this value under this key, and nothing since has replaced or dropped it. */
  ghost predicate StoredAt(events: seq<Event>, n: nat, m: nat, key: string, v: Session) {
    && m < n <= |events|
    && events[m].Store? && events[m].key == key
    && v == Session(events[m].user, events[m].session, events[m].storedAt + 60_000)
    && forall j | m < j < n :: !Overrides(events[j], key)
  }

  predicate Overrides(e: Event, key: string) {
    e.Clear? || (e.Invalidate? && e.key == key) || (e.Store? && e.key == key)
  }

  /** Every slot of the next cache is an old one or the one just stored. */
  lemma StepSources(c: Cache, e: Event, x: Slot<Session>)
    requires UniqueKeys(c) && x in Next(c, e)
    ensures (x in c && !Overrides(e, x.key))
         || (e.Store? && x == Slot(e.key, Session(e.user, e.session, e.storedAt + CACHE_TTL_MS)))
  {
    match e {
      case Look(key, now) => if Hits(c, key, now) { TouchSources(c, key, x); }
      case Store(key, _, _, evictedAt, _) => StoreSources(c, e, x);
      case Evict(now) =>
        var at := LiveIsThinned(c, now);
        ThinnedSources(c, Live(c, now), at, x);
      case Invalidate(key) =>
        var at := WithoutIsThinned(c, key);
        ThinnedSources(c, Without(c, key), at, x);
        WithoutLacksKey(c, key);
      case Clear =>
    }
  }

  lemma ThinnedSources(c: Cache, d: Cache, at: seq<nat>, x: Slot<Session>)
    requires Thinned(c, d, at) && x in d
    ensures x in c
  {
  }

  lemma TouchSources(c: Cache, key: string, x: Slot<Session>)
    requires HasKey(c, key) ==> x in Touched(c, key)
    requires !HasKey(c, key) ==> x in c
    ensures x in c
  {
    if HasKey(c, key) && x != c[IndexOf(c, key)] {
      var at := WithoutIsThinned(c, key);
      ThinnedSources(c, Without(c, key), at, x);
    }
  }

  lemma StoreSources(c: Cache, e: Event, x: Slot<Session>)
    requires UniqueKeys(c) && e.Store? && x in Next(c, e)
    ensures (x in c && !Overrides(e, x.key))
         || x == Slot(e.key, Session(e.user, e.session, e.storedAt + CACHE_TTL_MS))
  {
    hide Live, Capped, UniqueKeys, Put, Thinned;
    var at := SurvivorsAreThinned(c, e.evictedAt);
    var kept := Capped(Live(c, e.evictedAt));
    ThinningKeepsUnique(c, kept, at);
    var v := Session(e.user, e.session, e.storedAt + CACHE_TTL_MS);
    PutSlots(kept, e.key, v, x);
    if x.key == e.key {
      PutSlotOfKey(kept, e.key, v, x);
    } else {
      ThinnedSources(c, kept, at, x);
    }
  }

  lemma {:induction false} SlotsWereStored(events: seq<Event>, n: nat, x: Slot<Session>) returns (m: nat)
    requires n <= |events| && x in After(events, n)
    ensures StoredAt(events, n, m, x.key, x.value)
  {
    hide Next;
    var c, e := After(events, n - 1), events[n - 1];
    CapacityHolds(events, n - 1);
    StepSources(c, e, x);
    if x in c && !Overrides(e, x.key) {
      m := SlotsWereStored(events, n - 1, x);
    } else {
      m := n - 1;
    }
  }

  /** A hit returns exactly what an earlier store put under that key less than a minute before, with
    * no invalidation and no other store of the key in between: touching never extends a life. */
  lemma HitsAreFresh(events: seq<Event>, n: nat, key: string, now: int)
    requires n <= |events| && Hits(After(events, n), key, now)
    ensures var c := After(events, n);
      exists m: nat :: StoredAt(events, n, m, key, c[IndexOf(c, key)].value) && now - events[m].storedAt < 60_000
  {
    var c := After(events, n);
    var m := SlotsWereStored(events, n, c[IndexOf(c, key)]);
  }

  // ----- when there is a hit -------------------------------------------------------------------------------------

  /** The eviction that the event runs, if it runs one, finds the entry still live. */
  predicate Spares(e: Event, v: Session) {
    (e.Evict? ==> e.now < v.expiresAt) && (e.Store? ==> e.evictedAt < v.expiresAt)
  }

  lemma {:induction false} LiveExactly(c: Cache, now: int, x: Slot<Session>)
    ensures x in Live(c, now) <==> x in c && x.value.expiresAt > now
  {
    if c != [] {
      LiveExactly(c[..|c| - 1], now, x);
      assert c == c[..|c| - 1] + [c[|c| - 1]];
    }
  }

  lemma PutKeepsOthers(c: Cache, key: string, v: Session, x: Slot<Session>)
    requires x in c && x.key != key
    ensures x in Put(c, key, v)
  {
    var i :| 0 <= i < |c| && c[i] == x;
    assert Put(c, key, v)[i] == x;
  }

  lemma WithoutKeepsOthers(c: Cache, key: string, x: Slot<Session>)
    requires x in c && x.key != key
    ensures x in Without(c, key)
  {
    if HasKey(c, key) {
      var gone := IndexOf(c, key);
      var i := Position(c, x);
      assert (c[..gone] + c[gone + 1..])[if i < gone then i else i - 1] == x;
    }
  }

  lemma Position(c: Cache, x: Slot<Session>) returns (i: nat)
    requires x in c
    ensures i < |c| && c[i] == x
  {
    i :| 0 <= i < |c| && c[i] == x;
  }

  lemma TouchKeeps(c: Cache, key: string, x: Slot<Session>)
    requires UniqueKeys(c) && HasKey(c, key) && x in c
    ensures x in Touched(c, key)
  {
    if x.key == key {
      var i := Position(c, x);
      UniqueIndex(c, i);
    } else {
      WithoutKeepsOthers(c, key, x);
    }
  }

  /** An entry that a step does not override outlives it exactly when its eviction spares it, as long as
    * the cache is not full. */
  lemma StepSpares(c: Cache, e: Event, x: Slot<Session>)
    requires UniqueKeys(c) && |c| < MAX_CACHE_SIZE && x in c && !Overrides(e, x.key)
    ensures x in Next(c, e) <==> Spares(e, x.value)
  {
    match e {
      case Look(key, now) => if Hits(c, key, now) { TouchKeeps(c, key, x); }
      case Store(_, _, _, _, _) => StoreSpares(c, e, x);
      case Evict(now) => LiveExactly(c, now, x);
      case Invalidate(key) => WithoutKeepsOthers(c, key, x);
      case Clear =>
    }
  }

  lemma StoreSpares(c: Cache, e: Event, x: Slot<Session>)
    requires |c| < MAX_CACHE_SIZE && e.Store? && x in c && x.key != e.key
    ensures x in Next(c, e) <==> Spares(e, x.value)
  {
    hide Live, Put, Thinned;
    var live, v := Live(c, e.evictedAt), Session(e.user, e.session, e.storedAt + CACHE_TTL_MS);
    var at := LiveIsThinned(c, e.evictedAt);
    ThinnedIsShorter(c, live, at);
    LiveExactly(c, e.evictedAt, x);
    if x in live { PutKeepsOthers(live, e.key, v, x); }
    if x in Put(live, e.key, v) { PutSlots(live, e.key, v, x); }
  }

  /** The keys stored by the first `n` events. */
  function StoredKeys(events: seq<Event>, n: nat): set<string>
    requires n <= |events|
  {
    if n == 0 then {} else StoredKeys(events, n - 1) + (if events[n - 1].Store? then {events[n - 1].key} else {})
  }

  lemma {:induction false} KeysWereStored(events: seq<Event>, n: nat, x: Slot<Session>)
    requires n <= |events| && x in After(events, n)
    ensures x.key in StoredKeys(events, n)
  {
    hide Next;
    CapacityHolds(events, n - 1);
    StepSources(After(events, n - 1), events[n - 1], x);
    if x in After(events, n - 1) { KeysWereStored(events, n - 1, x); }
  }

  lemma {:induction false} UniqueKeysCount(c: Cache, keys: set<string>)
    requires UniqueKeys(c) && forall x | x in c :: x.key in keys
    ensures |c| <= |keys|
  {
    if c != [] {
      var front, last := c[..|c| - 1], c[|c| - 1];
      assert last in c && forall x | x in front :: x in c && x.key != last.key;
      UniqueKeysCount(front, keys - {last.key});
    }
  }

  lemma NotFull(events: seq<Event>, n: nat)
    requires n <= |events| && |StoredKeys(events, n)| < MAX_CACHE_SIZE
    ensures UniqueKeys(After(events, n)) && |After(events, n)| < MAX_CACHE_SIZE
  {
    CapacityHolds(events, n);
    forall x | x in After(events, n) ensures x.key in StoredKeys(events, n) { KeysWereStored(events, n, x); }
    UniqueKeysCount(After(events, n), StoredKeys(events, n));
  }

  lemma {:induction false} StoredKeysGrow(events: seq<Event>, m: nat, n: nat)
    requires m <= n <= |events|
    ensures StoredKeys(events, m) <= StoredKeys(events, n)
  {
    if m < n { StoredKeysGrow(events, m, n - 1); }
  }

  /** Every eviction after event `m` finds the entry still live. */
  ghost predicate SparedSince(events: seq<Event>, m: nat, n: nat, v: Session)
    requires n <= |events|
  {
    forall j | m < j < n :: Spares(events[j], v)
  }

  lemma StoreIsThere(c: Cache, e: Event)
    requires e.Store?
    ensures Slot(e.key, Session(e.user, e.session, e.storedAt + CACHE_TTL_MS)) in Next(c, e)
  {
    var kept := Capped(Live(c, e.evictedAt));
    var at := if HasKey(kept, e.key) then IndexOf(kept, e.key) else |kept|;
    assert Next(c, e)[at].key == e.key;
  }

  /** With fewer than 5,000 keys stored, what was stored and not overridden since is still in the cache
    * exactly when every eviction since found it live. */
  lemma {:induction false} StoredStays(events: seq<Event>, n: nat, m: nat, key: string, v: Session)
    requires n <= |events| && StoredAt(events, n, m, key, v) && |StoredKeys(events, n)| < MAX_CACHE_SIZE
    ensures Slot(key, v) in After(events, n) <==> SparedSince(events, m, n, v)
    decreases n
  {
    hide Next, HasKey, UniqueKeys;
    if n == m + 1 {
      StoreIsThere(After(events, m), events[m]);
    } else {
      StoredKeysGrow(events, n - 1, n);
      SubsetCardinality(StoredKeys(events, n - 1), StoredKeys(events, n));
      StoredStays(events, n - 1, m, key, v);
      NotFull(events, n - 1);
      var c, e, x := After(events, n - 1), events[n - 1], Slot(key, v);
      assert !Overrides(e, key);
      if x in c { StepSpares(c, e, x); }
      if x in Next(c, e) { StepSources(c, e, x); }
      assert SparedSince(events, m, n, v) <==> SparedSince(events, m, n - 1, v) && Spares(e, v);
    }
  }

  /** With fewer than 5,000 keys stored, a lookup hits exactly when the key was stored, has not been
    * overridden since, and neither the lookup nor any eviction since found the entry expired. */
  lemma HitsExactly(events: seq<Event>, n: nat, key: string, now: int)
    requires n <= |events| && |StoredKeys(events, n)| < MAX_CACHE_SIZE
    ensures Hits(After(events, n), key, now) <==>
            exists m: nat, v :: StoredAt(events, n, m, key, v) && SparedSince(events, m, n, v) && now < v.expiresAt
  {
    hide StoredAt, SparedSince;
    var c := After(events, n);
    NotFull(events, n);
    if Hits(c, key, now) {
      var x := c[IndexOf(c, key)];
      var m := SlotsWereStored(events, n, x);
      StoredStays(events, n, m, key, x.value);
    }
    if m: nat, v :| StoredAt(events, n, m, key, v) && SparedSince(events, m, n, v) && now < v.expiresAt {
      StoredStays(events, n, m, key, v);
      var i := Position(c, Slot(key, v));
      UniqueIndex(c, i);
    }
  }

  // ----- the order is the order of use ----------------------------------------------------------------------------

  /** Event `e` puts `key` at the tail: a hit, or a store of a key that did not survive eviction. */
  predicate Places(c: Cache, e: Event, key: string) {
    (e.Look? && e.key == key && Hits(c, key, e.now))
    || (e.Store? && e.key == key && !HasKey(Capped(Live(c, e.evictedAt)), key))
  }

  /** The last event among the first `n` that put the key at the tail. */
  function LastPlaced(events: seq<Event>, n: nat, key: string): Option<nat>
    requires n <= |events|
  {
    if n == 0 then None
    else if Places(After(events, n - 1), events[n - 1], key) then Some(n - 1)
    else LastPlaced(events, n - 1, key)
  }

  ghost predicate InPlacementOrder(events: seq<Event>, n: nat, c: Cache)
    requires n <= |events|
  {
    && (forall i | 0 <= i < |c| :: LastPlaced(events, n, c[i].key).Some? && LastPlaced(events, n, c[i].key).value < n)
    && forall i, j | 0 <= i < j < |c| :: LastPlaced(events, n, c[i].key).value < LastPlaced(events, n, c[j].key).value
  }

  lemma ThinningKeepsOrder(events: seq<Event>, n: nat, c: Cache, d: Cache, at: seq<nat>)
    requires n <= |events| && InPlacementOrder(events, n, c) && Thinned(c, d, at)
    ensures InPlacementOrder(events, n, d)
  {
  }

  lemma SameKeysSameOrder(events: seq<Event>, n: nat, c: Cache, d: Cache)
    requires n <= |events| && InPlacementOrder(events, n, c)
    requires |c| == |d| && forall i | 0 <= i < |c| :: c[i].key == d[i].key
    ensures InPlacementOrder(events, n, d)
  {
  }

  /** Keys the event does not place keep their rank. */
  lemma UnplacedKeepsOrder(events: seq<Event>, n: nat, c: Cache)
    requires 0 < n <= |events| && InPlacementOrder(events, n - 1, c)
    requires forall i | 0 <= i < |c| :: !Places(After(events, n - 1), events[n - 1], c[i].key)
    ensures InPlacementOrder(events, n, c)
  {
    forall i | 0 <= i < |c| ensures LastPlaced(events, n, c[i].key) == LastPlaced(events, n - 1, c[i].key) {}
  }

  lemma PlacedAtTail(events: seq<Event>, n: nat, c: Cache, x: Slot<Session>)
    requires 0 < n <= |events| && InPlacementOrder(events, n - 1, c)
    requires forall i | 0 <= i < |c| :: !Places(After(events, n - 1), events[n - 1], c[i].key)
    requires Places(After(events, n - 1), events[n - 1], x.key)
    ensures InPlacementOrder(events, n, c + [x])
  {
    forall i | 0 <= i < |c|
      ensures LastPlaced(events, n, c[i].key).Some? && LastPlaced(events, n, c[i].key).value < n - 1
    {
      assert LastPlaced(events, n, c[i].key) == LastPlaced(events, n - 1, c[i].key);
    }
    UnplacedKeepsOrder(events, n, c);
    assert LastPlaced(events, n, x.key) == Some(n - 1);
  }

  /** In every run the entries stand in the order in which they were last put at the tail, so the
    * head, which capacity evicts, is the least recently placed; storing a live key again refreshes
    * its value but not its place. */
  lemma {:induction false} OrderIsRecency(events: seq<Event>, n: nat)
    requires n <= |events|
    ensures InPlacementOrder(events, n, After(events, n))
  {
    if n > 0 {
      hide InPlacementOrder;
      OrderIsRecency(events, n - 1);
      CapacityHolds(events, n - 1);
      var c, e := After(events, n - 1), events[n - 1];
      match e {
        case Look(key, now) => LookKeepsOrder(events, n);
        case Store(key, user, session, evictedAt, storedAt) => StoreKeepsOrder(events, n);
        case Evict(now) =>
          var at := LiveIsThinned(c, now);
          ThinningKeepsOrder(events, n - 1, c, Live(c, now), at);
          UnplacedKeepsOrder(events, n, Live(c, now));
        case Invalidate(key) =>
          var at := WithoutIsThinned(c, key);
          ThinningKeepsOrder(events, n - 1, c, Without(c, key), at);
          UnplacedKeepsOrder(events, n, Without(c, key));
        case Clear =>
          ThinningKeepsOrder(events, n - 1, c, [], []);
          UnplacedKeepsOrder(events, n, []);
      }
    } else {
      assert After(events, n) == [];
    }
  }

  lemma LookKeepsOrder(events: seq<Event>, n: nat)
    requires 0 < n <= |events| && events[n - 1].Look?
    requires InPlacementOrder(events, n - 1, After(events, n - 1)) && UniqueKeys(After(events, n - 1))
    ensures InPlacementOrder(events, n, After(events, n))
  {
    hide InPlacementOrder, Thinned;
    var c, e := After(events, n - 1), events[n - 1];
    if Hits(c, e.key, e.now) {
      var at := WithoutIsThinned(c, e.key);
      ThinningKeepsOrder(events, n - 1, c, Without(c, e.key), at);
      WithoutLacksKey(c, e.key);
      PlacedAtTail(events, n, Without(c, e.key), c[IndexOf(c, e.key)]);
    } else {
      UnplacedKeepsOrder(events, n, c);
    }
  }

  lemma StoreKeepsOrder(events: seq<Event>, n: nat)
    requires 0 < n <= |events| && events[n - 1].Store?
    requires InPlacementOrder(events, n - 1, After(events, n - 1)) && UniqueKeys(After(events, n - 1))
    ensures InPlacementOrder(events, n, After(events, n))
  {
    hide InPlacementOrder, Thinned;
    var c, e := After(events, n - 1), events[n - 1];
    var kept := Capped(Live(c, e.evictedAt));
    var at := SurvivorsAreThinned(c, e.evictedAt);
    ThinningKeepsOrder(events, n - 1, c, kept, at);
    var v := Session(e.user, e.session, e.storedAt + CACHE_TTL_MS);
    if HasKey(kept, e.key) {
      UnplacedKeepsOrder(events, n, kept);
      SameKeysSameOrder(events, n, kept, After(events, n));
    } else {
      PlacedAtTail(events, n, kept, Slot(e.key, v));
    }
  }
}
