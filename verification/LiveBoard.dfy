/** The live rate board: syncs that save snapshots and then drop the cached board, and readers that compose and
    cache it, under two mutexes (internal/app/fx/live.go). */
module LiveBoard {
  import opened Prelude

  datatype Phase =
    | Begin
    | WantSync                                // waiting for the sync lock
    | Saving                                  // holds it; saving snapshots
    | WantFlush                               // holds it; waiting for the cache lock to invalidate
    | Flushing                                // holds both
    | Flushed                                 // invalidated; holds the sync lock
    | WantCache                               // a reader waiting for the cache lock
    | Reading(floor: nat)                     // holds the cache lock
    | Composing(floor: nat, read: nat)        // read the snapshots; holds the cache lock
    | Done(floor: nat, board: Option<nat>)
  {
    predicate HoldsSync() { Saving? || WantFlush? || Flushing? || Flushed? }

    predicate HoldsCache() { Flushing? || Reading? || Composing? }

    /** A reader that has taken the cache lock. */
    predicate Entered() { Reading? || Composing? || Done? }
  }

  /** A call of Sync or of Board, which may sync first to bootstrap. `saved` is the snapshot version of its last
      save. */
  datatype Call = Call(reader: bool, saved: nat, phase: Phase)

  /** Snapshot versions count saves; a board is identified by the version it was composed from. `floor` is the last
      version saved by a sync that has invalidated the cache. */
  datatype State = State(version: nat, cached: Option<nat>, floor: nat, calls: seq<Call>)

  predicate SyncFree(s: State) { forall c :: 0 <= c < |s.calls| ==> !s.calls[c].phase.HoldsSync() }

  predicate CacheFree(s: State) { forall c :: 0 <= c < |s.calls| ==> !s.calls[c].phase.HoldsCache() }

  function At(s: State, c: nat, p: Phase): State
    requires c < |s.calls|
  {
    s.(calls := s.calls[c := s.calls[c].(phase := p)])
  }

  function Max(a: nat, b: nat): nat { if a < b then b else a }

  /** The steps of one call. */
  ghost predicate CallStep(s: State, s': State, c: nat)
    requires c < |s.calls|
  {
    var call := s.calls[c];
    match call.phase
    case Begin => (call.reader && s' == At(s, c, WantCache)) || s' == At(s, c, WantSync)
    case WantSync => SyncFree(s) && s' == At(s, c, Saving)
    case Saving =>
      || s' == s.(version := s.version + 1, calls := s.calls[c := call.(saved := s.version + 1)])
      || s' == At(s, c, WantFlush)
    case WantFlush => CacheFree(s) && s' == At(s, c, Flushing)
    case Flushing => s' == At(s.(cached := None, floor := Max(s.floor, call.saved)), c, Flushed)
    case Flushed => s' == At(s, c, if call.reader then WantCache else Done(s.floor, None))
    case WantCache => CacheFree(s) && s' == At(s, c, Reading(s.floor))
    case Reading(floor) =>
      || (s.cached.Some? && s' == At(s, c, Done(floor, s.cached)))  // cached and within its TTL
      || s' == At(s, c, Composing(floor, s.version))
      || s' == At(s, c, Done(floor, None))                          // the read failed
    case Composing(floor, read) => s' == At(s.(cached := Some(read)), c, Done(floor, Some(read)))
    case Done(_, _) => false
  }

  ghost predicate Next(s: State, s': State) {
    || (exists reader: bool :: s' == s.(calls := s.calls + [Call(reader, 0, Begin)]))
    || (exists c: nat :: c < |s.calls| && CallStep(s, s', c))
  }

  ghost predicate CallOk(s: State, call: Call) {
    && call.saved <= s.version
    && (!(call.phase.Saving? || call.phase.WantFlush? || call.phase.Flushing?) ==> call.saved <= s.floor)
    && (call.phase.Reading? || call.phase.Composing? ==> call.phase.floor == s.floor)
    && (call.phase.Composing? ==> s.floor <= call.phase.read <= s.version)
    && (call.phase.Done? && call.phase.board.Some? ==> call.phase.floor <= call.phase.board.value)
  }

  ghost predicate Exclusive(s: State) {
    && (forall c, d :: 0 <= c < d < |s.calls| && s.calls[c].phase.HoldsSync() ==> !s.calls[d].phase.HoldsSync())
    && (forall c, d :: 0 <= c < d < |s.calls| && s.calls[c].phase.HoldsCache() ==> !s.calls[d].phase.HoldsCache())
  }

  ghost predicate Inv(s: State) {
    && s.floor <= s.version
    && (s.cached.Some? ==> s.floor <= s.cached.value <= s.version)
    && (forall c :: 0 <= c < |s.calls| ==> CallOk(s, s.calls[c]))
    && Exclusive(s)
  }

  /** A phase that takes no lock someone else holds keeps the locks exclusive. */
  lemma LocksKept(s: State, s': State, c: nat)
    requires Exclusive(s) && c < |s.calls| && |s'.calls| == |s.calls| && s'.calls == s.calls[c := s'.calls[c]]
    requires s'.calls[c].phase.HoldsSync() ==> s.calls[c].phase.HoldsSync() || SyncFree(s)
    requires s'.calls[c].phase.HoldsCache() ==> s.calls[c].phase.HoldsCache() || CacheFree(s)
    ensures Exclusive(s')
  {}

  /** Other calls stay sound; the floor moves only under the cache lock, so no reader is inside. */
  lemma OthersOk(s: State, s': State, c: nat)
    requires Inv(s) && c < |s.calls| && |s'.calls| == |s.calls|
    requires forall d :: 0 <= d < |s.calls| && d != c ==> s'.calls[d] == s.calls[d]
    requires s.version <= s'.version && s.floor <= s'.floor
    requires s'.floor != s.floor ==> s.calls[c].phase.HoldsCache()
    ensures forall d :: 0 <= d < |s.calls| && d != c ==> CallOk(s', s'.calls[d])
  {
    forall d | 0 <= d < |s.calls| && d != c
      ensures CallOk(s', s'.calls[d])
    {
      assert CallOk(s, s.calls[d]);
    }
  }

  /** What a call's step does to the shared state: it touches its own record only, takes a lock only when it is
      free, and moves the floor only under the cache lock. */
  lemma StepTouches(s: State, s': State, c: nat)
    requires c < |s.calls| && CallStep(s, s', c)
    ensures s' == s.(version := s'.version, cached := s'.cached, floor := s'.floor, calls := s.calls[c := s'.calls[c]])
    ensures s.version <= s'.version && s.floor <= s'.floor
    ensures s'.floor != s.floor ==> s.calls[c].phase.HoldsCache()
    ensures s'.calls[c].phase.HoldsSync() ==> s.calls[c].phase.HoldsSync() || SyncFree(s)
    ensures s'.calls[c].phase.HoldsCache() ==> s.calls[c].phase.HoldsCache() || CacheFree(s)
  {}

  lemma StepKeepsCall(s: State, s': State, c: nat)
    requires c < |s.calls| && CallStep(s, s', c) && CallOk(s, s.calls[c])
    requires s.floor <= s.version && (s.cached.Some? ==> s.floor <= s.cached.value <= s.version)
    ensures c < |s'.calls| && CallOk(s', s'.calls[c])
    ensures s'.floor <= s'.version && (s'.cached.Some? ==> s'.floor <= s'.cached.value <= s'.version)
    ensures s'.calls[c].phase.Entered() && !s.calls[c].phase.Entered() ==> s'.calls[c].phase.floor == s.floor
    ensures s'.calls[c].phase.Entered() && s.calls[c].phase.Entered() ==>
      s'.calls[c].phase.floor == s.calls[c].phase.floor
  {}

  lemma StepKeepsInv(s: State, s': State, c: nat)
    requires Inv(s) && c < |s.calls| && CallStep(s, s', c)
    ensures Inv(s') && s.floor <= s'.floor
    ensures s'.calls == s.calls[c := s'.calls[c]]
    ensures s'.calls[c].phase.Entered() && !s.calls[c].phase.Entered() ==> s'.calls[c].phase.floor == s.floor
    ensures s'.calls[c].phase.Entered() && s.calls[c].phase.Entered() ==>
      s'.calls[c].phase.floor == s.calls[c].phase.floor
  {
    StepTouches(s, s', c);
    StepKeepsCall(s, s', c);
    OthersOk(s, s', c);
    LocksKept(s, s', c);
  }

  lemma NextKeepsInv(s: State, s': State)
    requires Inv(s) && Next(s, s')
    ensures Inv(s') && s.floor <= s'.floor && |s.calls| <= |s'.calls|
  {
    if c: nat :| c < |s.calls| && CallStep(s, s', c) {
      StepKeepsInv(s, s', c);
    }
  }

  ghost predicate IsRun(run: seq<State>) {
    && |run| > 0 && run[0].calls == [] && run[0].cached == None && run[0].floor == 0
    && forall i :: 0 < i < |run| ==> Next(run[i - 1], run[i])
  }

  lemma {:induction false} RunKeepsInv(run: seq<State>, i: nat)
    requires IsRun(run) && i < |run|
    ensures Inv(run[i])
  {
    if i > 0 {
      RunKeepsInv(run, i - 1);
      NextKeepsInv(run[i - 1], run[i]);
    }
  }

  /** A call inside or past the cache lock entered at floor f or later. */
  predicate EnteredSince(s: State, c: nat, f: nat) {
    f <= s.floor && (c < |s.calls| && s.calls[c].phase.Entered() ==> f <= s.calls[c].phase.floor)
  }

  lemma NextEnteredSince(s: State, s': State, c: nat, f: nat)
    requires Inv(s) && Next(s, s') && EnteredSince(s, c, f)
    ensures EnteredSince(s', c, f)
  {
    if d: nat :| d < |s.calls| && CallStep(s, s', d) {
      StepKeepsInv(s, s', d);
    }
  }

  lemma StillEnteredSince(run: seq<State>, j: nat, c: nat, f: nat)
    requires IsRun(run) && 0 < j < |run| && EnteredSince(run[j - 1], c, f)
    ensures EnteredSince(run[j], c, f)
  {
    RunKeepsInv(run, j - 1);
    NextEnteredSince(run[j - 1], run[j], c, f);
  }

  /** A reader that had not taken the cache lock in run[i] takes it no earlier than that floor. */
  lemma {:induction false} LaterReaderFloor(run: seq<State>, i: nat, j: nat, c: nat)
    requires IsRun(run) && i <= j < |run|
    requires c < |run[i].calls| ==> !run[i].calls[c].phase.Entered()
    ensures EnteredSince(run[j], c, run[i].floor)
  {
    if i < j {
      LaterReaderFloor(run, i, j - 1, c);
      StillEnteredSince(run, j, c, run[i].floor);
    }
  }

  /** MAIN: a Board call that takes the cache lock after a sync has invalidated returns a board composed from a read
      made after all of that sync's saves. */
  lemma BoardIsFresh(run: seq<State>, i: nat, j: nat, sync: nat, reader: nat)
    requires IsRun(run) && i <= j < |run|
    requires sync < |run[i].calls| && (run[i].calls[sync].phase.Flushed? || run[i].calls[sync].phase.Done?)
    requires reader < |run[i].calls| ==> !run[i].calls[reader].phase.Entered()
    requires reader < |run[j].calls| && run[j].calls[reader].phase.Done? && run[j].calls[reader].phase.board.Some?
    ensures run[i].calls[sync].saved <= run[j].calls[reader].phase.board.value
  {
    RunKeepsInv(run, i);
    assert CallOk(run[i], run[i].calls[sync]);
    LaterReaderFloor(run, i, j, reader);
    RunKeepsInv(run, j);
    assert CallOk(run[j], run[j].calls[reader]);
  }

  ghost predicate CanStep(s: State, c: nat)
    requires c < |s.calls|
  {
    exists s' :: CallStep(s, s', c)
  }

  /** A call that waits for no lock can always move. */
  lemma UnblockedCanStep(s: State, c: nat)
    requires c < |s.calls| && !s.calls[c].phase.Done?
    requires s.calls[c].phase.WantSync? ==> SyncFree(s)
    requires s.calls[c].phase.WantFlush? || s.calls[c].phase.WantCache? ==> CacheFree(s)
    ensures CanStep(s, c)
  {
    var call := s.calls[c];
    var s' :=
      match call.phase
      case Begin => At(s, c, WantSync)
      case WantSync => At(s, c, Saving)
      case Saving => At(s, c, WantFlush)
      case WantFlush => At(s, c, Flushing)
      case Flushing => At(s.(cached := None, floor := Max(s.floor, call.saved)), c, Flushed)
      case Flushed => At(s, c, if call.reader then WantCache else Done(s.floor, None))
      case WantCache => At(s, c, Reading(s.floor))
      case Reading(floor) => At(s, c, Composing(floor, s.version))
      case Composing(floor, read) => At(s.(cached := Some(read)), c, Done(floor, Some(read)))
      case Done(_, _) => s;
    assert CallStep(s, s', c);
  }

  /** MAIN: the two locks never deadlock: while some call is unfinished, some call can move. */
  lemma SomeCallCanStep(s: State) returns (c: nat)
    requires exists d :: 0 <= d < |s.calls| && !s.calls[d].phase.Done?
    ensures c < |s.calls| && CanStep(s, c)
  {
    if !CacheFree(s) {
      c :| 0 <= c < |s.calls| && s.calls[c].phase.HoldsCache();
    } else if !SyncFree(s) {
      c :| 0 <= c < |s.calls| && s.calls[c].phase.HoldsSync();
    } else {
      c :| 0 <= c < |s.calls| && !s.calls[c].phase.Done?;
    }
    UnblockedCanStep(s, c);
  }
}
