/** The keyset batch loop shared by the lifecycle jobs (internal/app/booking/lifecycle.go) and the secret backfill
    (internal/app/dataprotection/service.go): the cursor advances while handled rows leave the listing. */
module KeysetSweep {
  import opened Prelude

  datatype Outcome = Failed | Unchanged | Changed

  datatype Tally = Tally(scanned: nat, transitioned: nat, failed: nat)

  type Listing<!S> = (S, nat) -> bool
  type Handler<!S> = (S, nat) -> (S, Outcome)

  /** Handling a row decides no other row's candidacy. */
  ghost predicate Local<S(!new)>(cand: Listing<S>, one: Handler<S>) {
    forall s, id, other {:trigger cand(one(s, id).0, other)} ::
      other != id ==> cand(one(s, id).0, other) == cand(s, other)
  }

  ghost predicate Ascending(ids: seq<nat>) {
    forall i, j :: 0 <= i < j < |ids| ==> ids[i] < ids[j]
  }

  /** The candidates in [lo, hi), ascending. */
  ghost function Candidates<S>(cand: Listing<S>, s: S, lo: nat, hi: nat): seq<nat> {
    if hi <= lo then []
    else Candidates(cand, s, lo, hi - 1) + if cand(s, hi - 1) then [hi - 1] else []
  }

  /** The state after handling `ids` in order. */
  ghost function Visit<S>(one: Handler<S>, s: S, ids: seq<nat>): S {
    if ids == [] then s else one(Visit(one, s, ids[..|ids| - 1]), ids[|ids| - 1]).0
  }

  function Counted(t: Tally, o: Outcome): Tally {
    Tally(t.scanned + 1, t.transitioned + (if o.Changed? then 1 else 0), t.failed + (if o.Failed? then 1 else 0))
  }

  ghost function Tallied<S>(one: Handler<S>, s: S, ids: seq<nat>): Tally {
    if ids == [] then Tally(0, 0, 0)
    else
      var front := ids[..|ids| - 1];
      Counted(Tallied(one, s, front), one(Visit(one, s, front), ids[|ids| - 1]).1)
  }

  /** The first row whose handling failed. */
  ghost function FirstFailed<S>(one: Handler<S>, s: S, ids: seq<nat>): Option<nat> {
    if ids == [] then None
    else
      var front, id := ids[..|ids| - 1], ids[|ids| - 1];
      var failed := FirstFailed(one, s, front);
      if failed.None? && one(Visit(one, s, front), id).1.Failed? then Some(id) else failed
  }

  lemma {:induction false} CandidatesJoin<S>(cand: Listing<S>, s: S, lo: nat, mid: nat, hi: nat)
    requires lo <= mid <= hi
    ensures Candidates(cand, s, lo, mid) + Candidates(cand, s, mid, hi) == Candidates(cand, s, lo, hi)
  {
    if mid < hi {
      CandidatesJoin(cand, s, lo, mid, hi - 1);
    }
  }

  lemma {:induction false} CandidatesAgree<S>(cand: Listing<S>, s: S, t: S, lo: nat, hi: nat)
    requires forall id :: lo <= id < hi ==> cand(s, id) == cand(t, id)
    ensures Candidates(cand, s, lo, hi) == Candidates(cand, t, lo, hi)
  {
    if lo < hi {
      CandidatesAgree(cand, s, t, lo, hi - 1);
    }
  }

  /** Strictly ascending, hence each row once; and exactly the candidates. */
  lemma {:induction false} CandidatesExact<S>(cand: Listing<S>, s: S, lo: nat, hi: nat)
    ensures var ids := Candidates(cand, s, lo, hi);
      && Ascending(ids)
      && (forall id :: id in ids <==> lo <= id < hi && cand(s, id))
  {
    if lo < hi {
      CandidatesExact(cand, s, lo, hi - 1);
      var ids := Candidates(cand, s, lo, hi - 1);
      assert forall i :: 0 <= i < |ids| ==> ids[i] in ids;
    }
  }

  lemma VisitAppend<S>(one: Handler<S>, s: S, x: seq<nat>, id: nat)
    ensures Visit(one, s, x + [id]) == one(Visit(one, s, x), id).0
    ensures Tallied(one, s, x + [id]) == Counted(Tallied(one, s, x), one(Visit(one, s, x), id).1)
    ensures FirstFailed(one, s, x + [id]) ==
      if FirstFailed(one, s, x).None? && one(Visit(one, s, x), id).1.Failed? then Some(id) else FirstFailed(one, s, x)
  {
    assert (x + [id])[..|x|] == x;
  }

  /** Up to `limit` candidates after the cursor, in id order; `stop` is where the scan ended. */
  method List<S>(s: S, rows: nat, cand: Listing<S>, from: nat, limit: nat) returns (ids: seq<nat>, ghost stop: nat)
    requires from <= rows && limit > 0
    ensures from <= stop <= rows && ids == Candidates(cand, s, from, stop) && |ids| <= limit
    ensures |ids| < limit ==> stop == rows
    ensures |ids| == limit ==> stop == ids[limit - 1] + 1
  {
    ids := [];
    var i := from;
    while i < rows && |ids| < limit
      invariant from <= i <= rows && ids == Candidates(cand, s, from, i) && |ids| <= limit
      invariant |ids| == limit ==> i == ids[limit - 1] + 1
    {
      if cand(s, i) {
        ids := ids + [i];
      }
      i := i + 1;
    }
    stop := i;
  }

  /** What a sweep that visited `visited` reports. */
  ghost predicate Reports<S>(one: Handler<S>, s0: S, visited: seq<nat>, s: S, res: Tally, firstFailed: Option<nat>) {
    && s == Visit(one, s0, visited) && res == Tallied(one, s0, visited)
    && firstFailed == FirstFailed(one, s0, visited)
  }

  method HandleBatch<S(!new)>(ghost cand: Listing<S>, one: Handler<S>, ids: seq<nat>, ghost s0: S,
                              seen: seq<nat>, s: S, res: Tally, firstFailed: Option<nat>)
    returns (s': S, res': Tally, firstFailed': Option<nat>)
    requires Local(cand, one) && Reports(one, s0, seen, s, res, firstFailed)
    ensures Reports(one, s0, seen + ids, s', res', firstFailed')
    ensures forall id :: id !in ids ==> cand(s', id) == cand(s, id)
  {
    s', res', firstFailed' := s, res, firstFailed;
    assert seen + ids[..0] == seen;
    for k := 0 to |ids|
      invariant Reports(one, s0, seen + ids[..k], s', res', firstFailed')
      invariant forall id :: id !in ids ==> cand(s', id) == cand(s, id)
    {
      var id := ids[k];
      VisitAppend(one, s0, seen + ids[..k], id);
      assert seen + ids[..k + 1] == seen + ids[..k] + [id];
      var (next, outcome) := one(s', id);
      s' := next;
      res' := res'.(scanned := res'.scanned + 1);
      if outcome.Failed? {
        res' := res'.(failed := res'.failed + 1);
        firstFailed' := if firstFailed'.None? then Some(id) else firstFailed';
      } else if outcome.Changed? {
        res' := res'.(transitioned := res'.transitioned + 1);
      }
    }
    assert ids[..|ids|] == ids;
  }

  /** Everything below the cursor is handled once, everything at or above it is as listed at the start. */
  ghost predicate Progress<S(!new)>(cand: Listing<S>, one: Handler<S>, s0: S, rows: nat, p: Pass<S>) {
    && p.cursor <= rows
    && p.visited == Candidates(cand, s0, 0, p.cursor)
    && Reports(one, s0, p.visited, p.state, p.tally, p.firstFailed)
    && forall id :: p.cursor <= id ==> cand(p.state, id) == cand(s0, id)
  }

  datatype Pass<S> = Pass(state: S, tally: Tally, visited: seq<nat>, cursor: nat, firstFailed: Option<nat>)

  /** Handling the listed batch `ids` moves the cursor past it. */
  lemma BatchDone<S(!new)>(cand: Listing<S>, one: Handler<S>, s0: S, rows: nat, p: Pass<S>, ids: seq<nat>, p': Pass<S>)
    requires Progress(cand, one, s0, rows, p) && p.cursor <= p'.cursor <= rows && p'.visited == p.visited + ids
    requires ids == Candidates(cand, p.state, p.cursor, p'.cursor)
    requires Reports(one, s0, p'.visited, p'.state, p'.tally, p'.firstFailed)
    requires forall id :: id !in ids ==> cand(p'.state, id) == cand(p.state, id)
    ensures Progress(cand, one, s0, rows, p') && (ids != [] ==> p.cursor < p'.cursor)
  {
    CandidatesAgree(cand, p.state, s0, p.cursor, p'.cursor);
    CandidatesExact(cand, s0, p.cursor, p'.cursor);
    CandidatesJoin(cand, s0, 0, p.cursor, p'.cursor);
  }

  method NextBatch<S(!new)>(ghost s0: S, rows: nat, cand: Listing<S>, one: Handler<S>, batch: nat, p: Pass<S>)
    returns (p': Pass<S>, last: bool)
    requires batch > 0 && Local(cand, one) && Progress(cand, one, s0, rows, p)
    ensures Progress(cand, one, s0, rows, p')
    ensures if last then p'.cursor == rows else p.cursor < p'.cursor
  {
    var ids, stop := List(p.state, rows, cand, p.cursor, batch);
    var s, tally, failed := HandleBatch(cand, one, ids, s0, p.visited, p.state, p.tally, p.firstFailed);
    last := |ids| < batch;
    p' := Pass(s, tally, p.visited + ids, if last then rows else ids[|ids| - 1] + 1, failed);
    BatchDone(cand, one, s0, rows, p, ids, p');
  }

  /** Runs `one` over the candidates batch by batch. `cancelled(k)` says that the context ended or the
      listing failed before batch k. Whatever happens, the rows handled are the initial candidates below
      the cursor, each exactly once and in id order; without interruption that is all of them. */
  method Run<S(!new)>(s0: S, rows: nat, cand: Listing<S>, one: Handler<S>, batch: nat, cancelled: nat -> bool)
    returns (p: Pass<S>, interrupted: bool, round: nat)
    requires batch > 0 && Local(cand, one)
    ensures Progress(cand, one, s0, rows, p)
    ensures if interrupted then cancelled(round) else p.cursor == rows
  {
    p, interrupted, round := Pass(s0, Tally(0, 0, 0), [], 0, None), false, 0;
    while true
      invariant Progress(cand, one, s0, rows, p)
      decreases rows - p.cursor
    {
      if cancelled(round) {
        interrupted := true;
        return;
      }
      var last;
      p, last := NextBatch(s0, rows, cand, one, batch, p);
      if last {
        return;
      }
      round := round + 1;
    }
  }
}
