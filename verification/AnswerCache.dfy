/** The assistant's bounded answer cache (internal/app/assistant/cache.go). */
module AnswerCache {
  import opened Prelude

  datatype Entry = Entry(value: string, expires: int, written: nat)

  /** A cache key by number; only whether it is the empty string matters. */
  type Key = nat

  const EMPTY_KEY: Key := 0

  type Entries = map<Key, Entry>

  predicate Expired(e: Entry, now: int) { now > e.expires }

  /** Closer to expiry, or written earlier on a tie. */
  predicate Older(a: Entry, b: Entry) {
    a.expires < b.expires || (a.expires == b.expires && a.written < b.written)
  }

  /** Entries written one after another on a clock that never goes back. */
  ghost predicate InWritingOrder(m: Entries) {
    forall j, k :: j in m && k in m && j != k ==>
      m[j].written != m[k].written && (m[j].written < m[k].written ==> m[j].expires <= m[k].expires)
  }

  function Live(m: Entries, now: int): Entries {
    map k | k in m && !Expired(m[k], now) :: m[k]
  }

  lemma RemoveOne(m: Entries, k: Key)
    requires k in m
    ensures |m - {k}| == |m| - 1
  {
    assert (m - {k}).Keys == m.Keys - {k};
    assert |m.Keys - {k}| == |m.Keys| - 1;
  }

  lemma RemoveAbsent(m: Entries, k: Key)
    requires k !in m
    ensures m - {k} == m
  {}

  lemma InsertSize(m: Entries, k: Key, e: Entry)
    ensures |m[k := e]| == if k in m then |m| else |m| + 1
  {
    assert m[k := e].Keys == m.Keys + {k};
    if k in m {
      assert m.Keys + {k} == m.Keys;
    }
  }

  lemma InsertRemove(m: Entries, k: Key, e: Entry)
    requires k !in m
    ensures m[k := e] - {k} == m
  {}

  lemma LiveSize(m: Entries, now: int)
    ensures |Live(m, now)| <= |m|
  {
    var kept, all := Live(m, now).Keys, m.Keys;
    assert all == kept + (all - kept);
  }

  /** Entry k is the oldest of m. */
  ghost predicate Oldest(m: Entries, k: Key) {
    k in m && forall j :: j in m && j != k ==> Older(m[k], m[j])
  }

  /** The oldest entry is the least recently written one. */
  lemma OldestIsLeastRecent(m: Entries, k: Key, j: Key)
    requires InWritingOrder(m) && Oldest(m, k) && j in m && j != k
    ensures m[k].written < m[j].written
  {}

  lemma NewestKeepsOrder(m: Entries, k: Key, e: Entry)
    requires InWritingOrder(m) && forall j :: j in m ==> m[j].written < e.written && m[j].expires <= e.expires
    ensures InWritingOrder(m[k := e])
  {}

  /** The cache holds latest entries only, numbered up to `written` and expiring by `horizon`, in writing order. */
  ghost predicate Consistent(m: Entries, latest: Entries, written: nat, horizon: int) {
    && (forall k :: k in m ==> k in latest && m[k] == latest[k] && m[k].written <= written && m[k].expires <= horizon)
    && InWritingOrder(m)
  }

  lemma StoreConsistent(m: Entries, latest: Entries, written: nat, horizon: int, k: Key, e: Entry)
    requires Consistent(m, latest, written, horizon) && e.written == written + 1 && horizon <= e.expires
    ensures Consistent(m[k := e], latest[k := e], written + 1, e.expires)
  {
    NewestKeepsOrder(m, k, e);
  }

  lemma ShrinkConsistent(m: Entries, m': Entries, latest: Entries, written: nat, horizon: int)
    requires Consistent(m, latest, written, horizon) && forall k :: k in m' ==> k in m && m'[k] == m[k]
    ensures Consistent(m', latest, written, horizon)
  {}

  lemma RemoveConsistent(m: Entries, latest: Entries, written: nat, horizon: int, k: Key)
    requires Consistent(m, latest, written, horizon) && k in m
    ensures Consistent(m - {k}, latest, written, horizon) && |m - {k}| < |m|
  {
    RemoveOne(m, k);
    ShrinkConsistent(m, m - {k}, latest, written, horizon);
  }

  // ---------- evict, for a given visiting order ----------

  /** The order visits each key once. */
  ghost predicate Visits(order: seq<Key>, keys: set<Key>) {
    && (forall i, j :: 0 <= i < j < |order| ==> order[i] != order[j])
    && (forall k :: k in order <==> k in keys)
  }

  /** The key the scan of evict ends with; the empty key means none yet, even when it is a stored one. */
  function Scan(m: Entries, now: int, order: seq<Key>): (pick: Key)
    requires forall k :: k in order ==> k in m
    ensures pick != EMPTY_KEY ==> pick in order && pick in m && !Expired(m[pick], now)
  {
    if order == [] then EMPTY_KEY
    else
      var pick, k := Scan(m, now, order[..|order| - 1]), order[|order| - 1];
      assert k in order;
      if Expired(m[k], now) then pick
      else if pick == EMPTY_KEY || Older(m[k], m[pick]) then k
      else pick
  }

  /** What evict leaves. */
  function Evicted(m: Entries, now: int, max: int, order: seq<Key>): Entries
    requires forall k :: k in order ==> k in m
  {
    var live, pick := Live(m, now), Scan(m, now, order);
    if |live| >= max && pick != EMPTY_KEY then live - {pick} else live
  }

  /** The empty key was visited alive. */
  predicate SawEmpty(m: Entries, now: int, order: seq<Key>) {
    EMPTY_KEY in order && EMPTY_KEY in m && !Expired(m[EMPTY_KEY], now)
  }

  /** Visited live entry k is no older than the pick, or no older than the empty key's entry. */
  predicate Covered(m: Entries, now: int, order: seq<Key>, pick: Key, k: Key) {
    k in m ==>
      || Expired(m[k], now)
      || (pick != EMPTY_KEY && pick in m && !Older(m[k], m[pick]))
      || (SawEmpty(m, now, order) && !Older(m[k], m[EMPTY_KEY]))
  }

  lemma {:induction false} ScanCovers(m: Entries, now: int, order: seq<Key>, k: Key)
    requires forall k :: k in order ==> k in m
    requires k in order
    ensures Covered(m, now, order, Scan(m, now, order), k)
  {
    var front, last := order[..|order| - 1], order[|order| - 1];
    assert order == front + [last] && last in order;
    if k in front {
      ScanCovers(m, now, front, k);
    }
  }

  /** In every visiting order the scan picks the oldest live entry, unless the empty key's entry is the oldest. */
  lemma ScanPicksOldest(m: Entries, now: int, order: seq<Key>)
    requires Visits(order, m.Keys) && InWritingOrder(m) && Live(m, now) != map[]
    ensures var pick := Scan(m, now, order);
      (pick != EMPTY_KEY && Oldest(Live(m, now), pick)) <==> !Oldest(Live(m, now), EMPTY_KEY)
  {
    var live, pick := Live(m, now), Scan(m, now, order);
    if !Oldest(live, EMPTY_KEY) {
      forall k | k in live
        ensures Covered(m, now, order, pick, k)
      {
        ScanCovers(m, now, order, k);
      }
      if EMPTY_KEY in live {
        var q :| q in live && q != EMPTY_KEY && !Older(live[EMPTY_KEY], live[q]);
        assert Older(m[q], m[EMPTY_KEY]);
      }
    }
  }

  lemma SomeOrder(keys: set<Key>) returns (order: seq<Key>)
    ensures Visits(order, keys)
  {
    if keys == {} {
      order := [];
    } else {
      var k :| k in keys;
      var front := SomeOrder(keys - {k});
      order := front + [k];
    }
  }

  /** When the empty key's entry is the oldest, an order that visits it last finds no victim. */
  lemma EmptyLast(m: Entries, now: int) returns (order: seq<Key>)
    requires Oldest(Live(m, now), EMPTY_KEY)
    ensures Visits(order, m.Keys) && Scan(m, now, order) == EMPTY_KEY
  {
    var front := SomeOrder(m.Keys - {EMPTY_KEY});
    order := front + [EMPTY_KEY];
    assert order[..|front|] == front;
    var pick := Scan(m, now, front);
    assert pick != EMPTY_KEY ==> pick in Live(m, now);
  }

  /** Evicting from the full cache m can leave it full. */
  ghost predicate NoVictim(m: Entries, now: int, max: int) {
    |Live(m, now)| >= max && Oldest(Live(m, now), EMPTY_KEY)
  }

  lemma RoomUnlessNoVictim(m: Entries, now: int, max: int, order: seq<Key>)
    requires InWritingOrder(m) && 1 <= max && |m| <= max && Visits(order, m.Keys) && !NoVictim(m, now, max)
    ensures |Evicted(m, now, max, order)| < max
  {
    var live := Live(m, now);
    LiveSize(m, now);
    if |live| >= max {
      assert live != map[];
      ScanPicksOldest(m, now, order);
      RemoveOne(live, Scan(m, now, order));
    }
  }

  /** MAIN: eviction makes room in every visiting order if and only if the cache is not full of live entries the oldest
      of which has the empty key. */
  lemma EvictionMakesRoom(m: Entries, now: int, max: int)
    requires InWritingOrder(m) && 1 <= max && |m| <= max
    ensures (forall order :: Visits(order, m.Keys) ==> |Evicted(m, now, max, order)| < max) <==> !NoVictim(m, now, max)
  {
    if NoVictim(m, now, max) {
      var order := EmptyLast(m, now);
      assert Evicted(m, now, max, order) == Live(m, now);
    } else {
      forall order | Visits(order, m.Keys)
        ensures |Evicted(m, now, max, order)| < max
      {
        RoomUnlessNoVictim(m, now, max, order);
      }
    }
  }

  /** Exactly one live entry went, and it was written before every survivor. */
  ghost predicate LeastRecentGone(live: Entries, after: Entries) {
    exists v :: v in live && after == live - {v} && forall j :: j in after ==> live[v].written < live[j].written
  }

  lemma RightVictim(live: Entries, v: Key)
    requires InWritingOrder(live) && Oldest(live, v)
    ensures LeastRecentGone(live, live - {v})
  {
    forall j | j in live - {v}
      ensures live[v].written < live[j].written
    {
      OldestIsLeastRecent(live, v, j);
    }
  }

  lemma OldestSpared(live: Entries, after: Entries, v: Key)
    requires InWritingOrder(live) && Oldest(live, v) && v in after
    ensures !LeastRecentGone(live, after)
  {
    forall w | w in live && w != v
      ensures live[v].written < live[w].written
    {
      OldestIsLeastRecent(live, v, w);
    }
  }

  /** MAIN: in every visiting order a full cache loses exactly its least recently written live entry if and only if
      that entry does not have the empty key. */
  lemma EvictionDropsLeastRecent(m: Entries, now: int, max: int, order: seq<Key>)
    requires Visits(order, m.Keys) && InWritingOrder(m) && |Live(m, now)| >= max && Live(m, now) != map[]
    ensures LeastRecentGone(Live(m, now), Evicted(m, now, max, order)) <==> !Oldest(Live(m, now), EMPTY_KEY)
  {
    var live := Live(m, now);
    ScanPicksOldest(m, now, order);
    if Oldest(live, EMPTY_KEY) {
      OldestSpared(live, Evicted(m, now, max, order), EMPTY_KEY);
    } else {
      RightVictim(live, Scan(m, now, order));
    }
  }

  /** The entries kept with `todo` still to visit. */
  ghost predicate Scanned(before: Entries, now: int, todo: set<Key>, kept: Entries) {
    && todo <= kept.Keys <= before.Keys
    && forall k :: k in before ==>
         if k in kept then kept[k] == before[k] && (k in todo || !Expired(before[k], now)) else Expired(before[k], now)
  }

  lemma ScanOne(before: Entries, now: int, todo: set<Key>, kept: Entries, order: seq<Key>, k: Key)
    requires Scanned(before, now, todo, kept) && Visits(order, before.Keys - todo) && k in todo
    ensures Scanned(before, now, todo - {k}, if Expired(before[k], now) then kept - {k} else kept)
    ensures Visits(order + [k], before.Keys - (todo - {k}))
    ensures var pick := Scan(before, now, order);
      Scan(before, now, order + [k]) ==
      if !Expired(before[k], now) && (pick == EMPTY_KEY || Older(before[k], before[pick])) then k else pick
  {
    assert (order + [k])[..|order|] == order;
  }

  class MemoryCache {
    const ttl: int
    const max: int
    var written: nat
    var entries: Entries
    /** The simple reference: the last entry put for every key, never evicted. */
    ghost var latest: Entries
    ghost var clock: int

    ghost predicate Valid()
      reads this
    {
      Consistent(entries, latest, written, clock + ttl)
    }

    constructor (ttl: int, maxEntries: int)
      ensures Valid() && entries == map[] && latest == map[] && clock == 0 && this.ttl == ttl && max == maxEntries
    {
      this.ttl, max := ttl, maxEntries;
      written, entries, latest, clock := 0, map[], map[], 0;
    }

    /** A hit is the latest answer put for the key, and it has not expired. */
    method Get(key: Key, now: int) returns (hit: Option<string>)
      requires Valid()
      modifies this`entries
      ensures Valid() && |entries| <= old(|entries|)
      ensures hit.Some? ==> key in latest && hit.value == latest[key].value && !Expired(latest[key], now)
      ensures hit.Some? <==> key in old(entries) && !Expired(old(entries)[key], now)
      ensures hit.Some? <==> key in old(entries) && now <= old(entries)[key].expires
      ensures entries == if hit.None? then old(entries) - {key} else old(entries)
    {
      hit := None;
      if key !in entries {
        RemoveAbsent(entries, key);
        return;
      }
      if Expired(entries[key], now) {
        RemoveConsistent(entries, latest, written, clock + ttl, key);
        entries := entries - {key};
        return;
      }
      hit := Some(entries[key].value);
    }

    /** The scan of evict, over the map in any order. */
    method DropExpired(now: int) returns (oldestKey: Key, ghost order: seq<Key>)
      modifies this`entries
      ensures entries == Live(old(entries), now)
      ensures Visits(order, old(entries).Keys) && oldestKey == Scan(old(entries), now, order)
    {
      ghost var before := entries;
      var todo := entries.Keys;
      order := [];
      oldestKey := EMPTY_KEY;
      var oldest := Entry("", 0, 0);
      while todo != {}
        invariant Scanned(before, now, todo, entries) && Visits(order, before.Keys - todo)
        invariant oldestKey == Scan(before, now, order) && (oldestKey != EMPTY_KEY ==> oldest == before[oldestKey])
      {
        var k :| k in todo;
        var e := entries[k];
        ScanOne(before, now, todo, entries, order, k);
        todo := todo - {k};
        order := order + [k];
        if Expired(e, now) {
          entries := entries - {k};
        } else if oldestKey == EMPTY_KEY || Older(e, oldest) {
          oldestKey, oldest := k, e;
        }
      }
    }

    method Evict(now: int) returns (ghost order: seq<Key>)
      requires Valid()
      modifies this`entries
      ensures Valid() && Visits(order, old(entries).Keys) && entries == Evicted(old(entries), now, max, order)
    {
      var oldestKey;
      oldestKey, order := DropExpired(now);
      if |entries| >= max && oldestKey != EMPTY_KEY {
        entries := entries - {oldestKey};
      }
      ShrinkConsistent(old(entries), entries, latest, written, clock + ttl);
    }

    /** Stores an answer. With room nothing is dropped; a full cache drops what evict drops, and stays within its bound
        unless evict can find no victim. */
    method Put(key: Key, value: string, now: int) returns (ghost order: seq<Key>)
      requires Valid() && clock <= now
      modifies this
      ensures Valid() && clock == now && written == old(written) + 1
      ensures key in entries && entries[key] == Entry(value, now + ttl, written)
      ensures latest == old(latest)[key := entries[key]]
      ensures Visits(order, old(entries).Keys)
      ensures var kept := if key in old(entries) || old(|entries|) < max then old(entries)
                          else Evicted(old(entries), now, max, order);
        entries == kept[key := entries[key]] && |entries| == |kept| + if key in kept then 0 else 1
      ensures max >= 1 && old(|entries|) <= max && (key in old(entries) || !NoVictim(old(entries), now, max)) ==>
        |entries| <= max
    {
      ghost var before := entries;
      order := SomeOrder(entries.Keys);
      if key !in entries && |entries| >= max {
        order := Evict(now);
        if max >= 1 && |before| <= max && !NoVictim(before, now, max) {
          RoomUnlessNoVictim(before, now, max, order);
        }
      }
      Store(key, value, now);
    }

    /** Writes the new entry over or beside the kept ones. */
    method Store(key: Key, value: string, now: int)
      requires Valid() && clock <= now
      modifies this
      ensures Valid() && clock == now && written == old(written) + 1
      ensures key in entries && entries[key] == Entry(value, now + ttl, written)
      ensures latest == old(latest)[key := entries[key]] && entries == old(entries)[key := entries[key]]
      ensures |entries| == old(|entries|) + if key in old(entries) then 0 else 1
      ensures key !in old(entries) ==> entries - {key} == old(entries)
    {
      written := written + 1;
      var e := Entry(value, now + ttl, written);
      InsertSize(entries, key, e);
      StoreConsistent(entries, latest, old(written), clock + ttl, key, e);
      if key !in entries {
        InsertRemove(entries, key, e);
      }
      entries := entries[key := e];
      latest := latest[key := e];
      clock := now;
    }
  }

  /** A cache that holds the empty key only has nothing to evict. */
  lemma OnlyEmptyKey(m: Entries, now: int, order: seq<Key>)
    requires m.Keys == {EMPTY_KEY} && !Expired(m[EMPTY_KEY], now) && Visits(order, m.Keys)
    ensures Evicted(m, now, 1, order) == m
  {
    assert Live(m, now) == m;
  }

  /** With an empty key the bound fails: a cache of one entry that holds it grows to two. */
  method EmptyKeyOverflows(value: string) returns (size: nat)
    ensures size == 2
  {
    var c := new MemoryCache(10, 1);
    ghost var order := c.Put(EMPTY_KEY, value, 0);
    ghost var one := c.entries;
    assert one.Keys == {EMPTY_KEY} && |one| == 1;
    order := c.Put(1, value, 0);
    OnlyEmptyKey(one, 0, order);
    size := |c.entries|;
  }
}
