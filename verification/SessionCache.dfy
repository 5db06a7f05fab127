/** The per-instance cache in front of the session store (internal/adapter/sessioncache/validator.go):
    first the cache object itself, then its use by racing requests. */
module SessionCache {
  import opened Prelude

  datatype SessionState = SessionState(
    user: nat, revoked: bool, absolute: int, idle: int, userActive: bool, version: int)

  /** `state` None caches that the session does not exist. */
  datatype Entry = Entry(state: Option<SessionState>, expires: int)

  type Entries = map<nat, Entry>

  datatype Verdict = Accepted | SessionRevoked | TokenStale

  function CheckSession(st: Option<SessionState>, user: nat, version: int, now: int): Verdict {
    if st.None? || st.value.user != user || st.value.revoked || !st.value.userActive
       || st.value.absolute <= now || st.value.idle <= now
    then SessionRevoked
    else if st.value.version != version then TokenStale
    else Accepted
  }

  /** A check passes exactly for the user's own live session within both limits and the current token version; a stale
      version of such a session asks for a refresh, everything else for a new sign-in. */
  lemma CheckedExactly(st: Option<SessionState>, user: nat, version: int, now: int)
    ensures var open := st.Some? && st.value.user == user && st.value.userActive && !st.value.revoked &&
                        now < st.value.absolute && now < st.value.idle;
      match CheckSession(st, user, version, now)
      case Accepted => open && st.value.version == version
      case TokenStale => open && st.value.version != version
      case SessionRevoked => !open
  {}

  predicate OfUser(e: Entry, user: nat) {
    e.state.Some? && e.state.value.user == user
  }

  /** The cache after storing `e`: everything else comes from before; nothing is dropped while there is
      room, and an unexpired entry is dropped only from a cache that ends up full. */
  ghost predicate Stored(before: Entries, after: Entries, sid: nat, e: Entry, now: int, max: nat) {
    && sid in after && after[sid] == e
    && (forall k :: k in after && k != sid ==> k in before && after[k] == before[k])
    && (sid in before || |before| < max ==> after == before[sid := e])
    && (forall k :: k in before && k !in after && now < before[k].expires ==> |after| == max)
    && (|before| <= max && max > 0 ==> |after| <= max)
  }

  lemma RemoveOne(m: Entries, k: nat)
    requires k in m
    ensures |m - {k}| == |m| - 1
  {
    assert (m - {k}).Keys == m.Keys - {k};
    assert |m.Keys - {k}| == |m.Keys| - 1;
  }

  lemma InsertNew(m: Entries, k: nat, e: Entry)
    requires k !in m
    ensures |m[k := e]| == |m| + 1
  {
    assert m[k := e].Keys == m.Keys + {k};
  }

  lemma InsertOld(m: Entries, k: nat, e: Entry)
    requires k in m
    ensures |m[k := e]| == |m|
  {
    assert m[k := e].Keys == m.Keys;
  }

  class Validator {
    const ttl: int
    const max: nat
    var entries: Entries
    var gen: nat

    ghost predicate Valid()
      reads this
    {
      max > 0 && |entries| <= max
    }

    constructor (ttl: int, maxEntries: int)
      ensures Valid() && entries == map[] && gen == 0 && this.ttl == ttl
      ensures max == if maxEntries <= 0 then 10_000 else maxEntries
    {
      this.ttl := ttl;
      max := if maxEntries <= 0 then 10_000 else maxEntries;
      entries := map[];
      gen := 0;
    }

    method Invalidate(sid: nat)
      requires Valid()
      modifies this
      ensures Valid() && gen == old(gen) + 1 && entries == old(entries) - {sid}
    {
      gen := gen + 1;
      if sid in entries {
        RemoveOne(entries, sid);
        entries := entries - {sid};
      } else {
        assert entries - {sid} == entries;
      }
    }

    method InvalidateUser(user: nat)
      requires Valid()
      modifies this
      ensures Valid() && gen == old(gen) + 1
      ensures entries == map k | k in old(entries) && !OfUser(old(entries)[k], user) :: old(entries)[k]
    {
      gen := gen + 1;
      var todo := entries.Keys;
      while todo != {}
        invariant gen == old(gen) + 1 && |entries| <= max && todo <= entries.Keys <= old(entries).Keys
        invariant forall k :: k in entries ==> entries[k] == old(entries)[k] && (k in todo || !OfUser(entries[k], user))
        invariant forall k :: k in old(entries) && k !in entries ==> OfUser(old(entries)[k], user)
      {
        var k :| k in todo;
        todo := todo - {k};
        if OfUser(entries[k], user) {
          RemoveOne(entries, k);
          entries := entries - {k};
        }
      }
    }

    /** Drops expired entries. */
    method DropExpired(now: int)
      modifies this`entries
      ensures entries.Keys <= old(entries).Keys && |entries| <= old(|entries|)
      ensures forall k :: k in entries ==> entries[k] == old(entries)[k] && now < entries[k].expires
      ensures forall k :: k in old(entries) && k !in entries ==> old(entries)[k].expires <= now
    {
      var todo := entries.Keys;
      while todo != {}
        invariant todo <= entries.Keys <= old(entries).Keys && |entries| <= old(|entries|)
        invariant forall k :: k in entries ==> entries[k] == old(entries)[k] && (k in todo || now < entries[k].expires)
        invariant forall k :: k in old(entries) && k !in entries ==> old(entries)[k].expires <= now
      {
        var k :| k in todo;
        todo := todo - {k};
        if entries[k].expires <= now {
          RemoveOne(entries, k);
          entries := entries - {k};
        }
      }
    }

    /** Drops arbitrary entries until there is room for one more. */
    method MakeRoom()
      requires max > 0
      modifies this`entries
      ensures entries.Keys <= old(entries).Keys && |entries| < max
      ensures forall k :: k in entries ==> entries[k] == old(entries)[k]
      ensures if old(|entries|) < max then entries == old(entries) else |entries| == max - 1
    {
      var todo := entries.Keys;
      while |entries| >= max
        invariant todo == entries.Keys <= old(entries).Keys
        invariant forall k :: k in entries ==> entries[k] == old(entries)[k]
        invariant if old(|entries|) < max then entries == old(entries) else |entries| >= max - 1
        decreases |entries|
      {
        var k :| k in todo;
        RemoveOne(entries, k);
        todo := todo - {k};
        entries := entries - {k};
      }
    }

    method Put(sid: nat, e: Entry, now: int)
      requires Valid()
      modifies this`entries
      ensures Valid() && Stored(old(entries), entries, sid, e, now, max)
    {
      if sid in entries {
        InsertOld(entries, sid, e);
      } else {
        if |entries| >= max {
          DropExpired(now);
          MakeRoom();
        }
        InsertNew(entries, sid, e);
      }
      entries := entries[sid := e];
    }

    /** The locked lookup that starts a load: the entry, if unexpired, and the generation. */
    method Lookup(sid: nat, now: int) returns (hit: Option<Entry>, g: nat)
      ensures g == gen
      ensures hit == if sid in entries && now < entries[sid].expires then Some(entries[sid]) else None
    {
      g := gen;
      hit := None;
      if sid in entries && now < entries[sid].expires {
        hit := Some(entries[sid]);
      }
    }

    /** The locked end of a load that missed: caches the state unless an invalidation intervened. */
    method Finish(sid: nat, g: nat, st: Option<SessionState>, now: int)
      requires Valid()
      modifies this`entries
      ensures Valid()
      ensures if gen == g then Stored(old(entries), entries, sid, Entry(st, now + ttl), now, max)
              else entries == old(entries)
    {
      if gen == g {
        Put(sid, Entry(st, now + ttl), now);
      }
    }
  }

  // ---------- racing requests ----------

  datatype Phase =
    | Pending                                // missed; store not yet read
    | Got(st: Option<SessionState>)          // store read; not yet back under the lock
    | Returned(st: Option<SessionState>)

  /** A load in flight. `uncached` marks a validator with ttl <= 0, which reads the store directly. */
  datatype Load = Load(sid: nat, gen: nat, uncached: bool, startedDead: bool, phase: Phase)

  /** `dead` collects the sessions revoked in the store for which Invalidate or InvalidateUser then returned. */
  datatype State = State(
    store: map<nat, SessionState>, entries: Entries, gen: nat, loads: seq<Load>, dead: set<nat>)

  predicate Live(st: Option<SessionState>) { st.Some? && !st.value.revoked }

  function Lookup(store: map<nat, SessionState>, sid: nat): Option<SessionState> {
    if sid in store then Some(store[sid]) else None
  }

  /** Sessions keep their user, stay revoked once revoked, and are not deleted. */
  ghost predicate Evolves(a: map<nat, SessionState>, b: map<nat, SessionState>) {
    forall sid :: sid in a ==> sid in b && b[sid].user == a[sid].user && (a[sid].revoked ==> b[sid].revoked)
  }

  ghost predicate StoreWrite(s: State, s': State) {
    Evolves(s.store, s'.store) && s' == s.(store := s'.store)
  }

  ghost predicate InvalidateStep(s: State, s': State, sid: nat) {
    s' == s.(entries := s.entries - {sid}, gen := s.gen + 1,
             dead := s.dead + set k | k in s.store && k == sid && s.store[k].revoked)
  }

  ghost predicate InvalidateUserStep(s: State, s': State, user: nat) {
    s' == s.(entries := map k | k in s.entries && !OfUser(s.entries[k], user) :: s.entries[k], gen := s.gen + 1,
             dead := s.dead + set k | k in s.store && s.store[k].user == user && s.store[k].revoked)
  }

  ghost predicate StartLoad(s: State, s': State, sid: nat, now: int, ttl: int) {
    var hit := ttl > 0 && sid in s.entries && now < s.entries[sid].expires;
    s' == s.(loads := s.loads + [Load(sid, s.gen, ttl <= 0, sid in s.dead,
                                      if hit then Returned(s.entries[sid].state) else Pending)])
  }

  ghost predicate ReadStore(s: State, s': State, l: nat) {
    && l < |s.loads| && s.loads[l].phase.Pending?
    && s' == s.(loads := s.loads[l := s.loads[l].(phase := Got(Lookup(s.store, s.loads[l].sid)))])
  }

  ghost predicate FinishLoad(s: State, s': State, l: nat, now: int, ttl: int, max: nat) {
    && l < |s.loads| && s.loads[l].phase.Got?
    && var load := s.loads[l];
       && s' == s.(entries := s'.entries, loads := s.loads[l := load.(phase := Returned(load.phase.st))])
       && if !load.uncached && load.gen == s.gen
          then Stored(s.entries, s'.entries, load.sid, Entry(load.phase.st, now + ttl), now, max)
          else s'.entries == s.entries
  }

  ghost predicate Next(s: State, s': State, ttl: int, max: nat) {
    || StoreWrite(s, s')
    || (exists sid: nat :: InvalidateStep(s, s', sid))
    || (exists user: nat :: InvalidateUserStep(s, s', user))
    || (exists sid: nat, now: int :: StartLoad(s, s', sid, now, ttl))
    || (exists l: nat :: ReadStore(s, s', l))
    || (exists l: nat, now: int :: FinishLoad(s, s', l, now, ttl, max))
  }

  /** A state was read from the store: same user as now, and not live once the session is dead. */
  predicate ReadFrom(s: State, sid: nat, st: Option<SessionState>) {
    st.Some? ==> sid in s.store && s.store[sid].user == st.value.user
  }

  ghost predicate LoadOk(s: State, l: Load) {
    && l.gen <= s.gen
    && (l.startedDead ==> l.sid in s.dead)
    && (!l.phase.Pending? ==>
          && ReadFrom(s, l.sid, l.phase.st)
          && (l.startedDead ==> !Live(l.phase.st)))
    && (l.phase.Got? && l.gen == s.gen && l.sid in s.dead ==> !Live(l.phase.st))
  }

  ghost predicate Inv(s: State, max: nat) {
    && |s.entries| <= max
    && (forall sid :: sid in s.dead ==> sid in s.store && s.store[sid].revoked)
    && (forall sid :: sid in s.entries ==>
          && ReadFrom(s, sid, s.entries[sid].state)
          && (sid in s.dead ==> !Live(s.entries[sid].state)))
    && (forall l :: 0 <= l < |s.loads| ==> LoadOk(s, s.loads[l]))
  }

  lemma SmallerMap(a: Entries, b: Entries)
    requires a.Keys <= b.Keys
    ensures |a| <= |b|
  {
    var rest := b.Keys - a.Keys;
    assert b.Keys == a.Keys + rest;
  }

  lemma DropKeepsInv(s: State, s': State, max: nat)
    requires Inv(s, max) && s'.gen == s.gen + 1 && s' == s.(entries := s'.entries, gen := s'.gen, dead := s'.dead)
    requires forall k :: k in s'.entries ==> k in s.entries && s'.entries[k] == s.entries[k]
    requires s.dead <= s'.dead
    requires forall k :: k in s'.dead && k !in s.dead ==>
      k in s.store && s.store[k].revoked && (k in s'.entries ==> s'.entries[k].state.None?)
    ensures Inv(s', max)
  {
    SmallerMap(s'.entries, s.entries);
    forall l | 0 <= l < |s.loads|
      ensures LoadOk(s', s'.loads[l])
    {
      assert LoadOk(s, s.loads[l]);
    }
  }

  lemma LoadKeepsInv(s: State, s': State, ttl: int, max: nat)
    requires Inv(s, max) && max > 0
    requires (exists sid: nat, now: int :: StartLoad(s, s', sid, now, ttl)) || (exists l: nat :: ReadStore(s, s', l))
    ensures Inv(s', max) && s'.dead == s.dead
  {
    forall l | 0 <= l < |s.loads|
      ensures LoadOk(s', s'.loads[l])
    {
      assert LoadOk(s, s.loads[l]);
    }
  }

  lemma FinishKeepsInv(s: State, s': State, l: nat, now: int, ttl: int, max: nat)
    requires Inv(s, max) && max > 0 && FinishLoad(s, s', l, now, ttl, max)
    ensures Inv(s', max) && s'.dead == s.dead
  {
    assert LoadOk(s, s.loads[l]);
    forall i | 0 <= i < |s.loads|
      ensures LoadOk(s', s'.loads[i])
    {
      assert LoadOk(s, s.loads[i]);
    }
  }

  lemma StoreWriteKeepsInv(s: State, s': State, max: nat)
    requires Inv(s, max) && StoreWrite(s, s')
    ensures Inv(s', max) && s'.dead == s.dead
  {
    forall i | 0 <= i < |s.loads|
      ensures LoadOk(s', s'.loads[i])
    {
      assert LoadOk(s, s.loads[i]);
    }
  }

  lemma InvalidationKeepsInv(s: State, s': State, key: nat, max: nat)
    requires Inv(s, max) && (InvalidateStep(s, s', key) || InvalidateUserStep(s, s', key))
    ensures Inv(s', max) && s.dead <= s'.dead
  {
    assert forall k :: k in s.entries ==> ReadFrom(s, k, s.entries[k].state);
    DropKeepsInv(s, s', max);
  }

  lemma NextKeepsInv(s: State, s': State, ttl: int, max: nat)
    requires Inv(s, max) && max > 0 && Next(s, s', ttl, max)
    ensures Inv(s', max) && s.dead <= s'.dead
  {
    if StoreWrite(s, s') {
      StoreWriteKeepsInv(s, s', max);
    } else if sid: nat :| InvalidateStep(s, s', sid) {
      InvalidationKeepsInv(s, s', sid, max);
    } else if user: nat :| InvalidateUserStep(s, s', user) {
      InvalidationKeepsInv(s, s', user, max);
    } else if l: nat, now: int :| FinishLoad(s, s', l, now, ttl, max) {
      FinishKeepsInv(s, s', l, now, ttl, max);
    } else {
      LoadKeepsInv(s, s', ttl, max);
    }
  }

  ghost predicate IsRun(run: seq<State>, ttl: int, max: nat) {
    && |run| > 0
    && run[0].entries == map[] && run[0].gen == 0 && run[0].loads == [] && run[0].dead == {}
    && forall i :: 0 < i < |run| ==> Next(run[i - 1], run[i], ttl, max)
  }

  lemma {:induction false} RunKeepsInv(run: seq<State>, ttl: int, max: nat, i: nat)
    requires IsRun(run, ttl, max) && max > 0 && i < |run|
    ensures Inv(run[i], max)
  {
    if i > 0 {
      RunKeepsInv(run, ttl, max, i - 1);
      NextKeepsInv(run[i - 1], run[i], ttl, max);
    }
  }

  /** MAIN: once a session was revoked and an invalidation for it returned, no entry shows it live, every
      check that starts later rejects it, and the cache never exceeds its bound. */
  lemma RevocationIsImmediate(run: seq<State>, ttl: int, max: nat, i: nat)
    requires IsRun(run, ttl, max) && max > 0 && i < |run|
    ensures |run[i].entries| <= max
    ensures forall sid :: sid in run[i].dead && sid in run[i].entries ==> !Live(run[i].entries[sid].state)
    ensures forall l, user, version, now ::
      0 <= l < |run[i].loads| && run[i].loads[l].startedDead && run[i].loads[l].phase.Returned? ==>
        CheckSession(run[i].loads[l].phase.st, user, version, now) == SessionRevoked
  {
    RunKeepsInv(run, ttl, max, i);
    forall l, user, version, now |
        0 <= l < |run[i].loads| && run[i].loads[l].startedDead && run[i].loads[l].phase.Returned?
      ensures CheckSession(run[i].loads[l].phase.st, user, version, now) == SessionRevoked
    {
      assert LoadOk(run[i], run[i].loads[l]);
    }
  }
}
