/** What the hold-expiry and reconcile jobs achieve with the keyset sweep (internal/app/booking/lifecycle.go). */
module LifecycleJobs {
  import opened Prelude
  import opened BookingRules
  import opened BookingWorld
  import opened BookingAnswers
  import opened KeysetSweep

  // ---------- option hold expiry ----------

  predicate Lapsed(w: World, id: nat, now: int) {
    && id < |w.bookings|
    && w.bookings[id].status.OptionHold?
    && w.bookings[id].hold.Some? && w.bookings[id].hold.value <= now
  }

  function Handle(w: World, cmd: Command): (World, Outcome) {
    if !Shaped(w) then (w, Failed)
    else
      match Step(w, cmd)
      case Err(_) => (w, Failed)
      case Ok(w1) => (w1, if w1.audit != w.audit then Changed else Unchanged)
  }

  /** One booking changed at most. */
  ghost predicate OnlyBooking(w: World, w1: World, id: nat) {
    && |w1.bookings| == |w.bookings| && w1.dossiers == w.dossiers
    && forall j :: 0 <= j < |w.bookings| && j != id ==> w1.bookings[j] == w.bookings[j]
  }

  function Expiry(now: int): Handler<World> {
    (w: World, id: nat) => Handle(w, ExpireHold(id, now))
  }

  function LapsedAt(now: int): Listing<World> {
    (w: World, id: nat) => Lapsed(w, id, now)
  }

  lemma LapsedHoldMoves(w: World, id: nat, now: int)
    requires Shaped(w) && Lapsed(w, id, now)
    ensures var r := Step(w, ExpireHold(id, now));
      r.Ok? && |r.value.audit| > |w.audit| && |r.value.bookings| == |w.bookings| && r.value.bookings[id].status.Draft?
  {
    LapsedHoldReleased(w.bookings[id], RequestFor(w, id, Change(Draft, System, "hold_expired", None, now, 0)));
  }

  lemma ExpiryEffect(w: World, id: nat, now: int)
    ensures var (w1, o) := Expiry(now)(w, id);
      && OnlyBooking(w, w1, id)
      && (Shaped(w) && Lapsed(w, id, now) ==> o.Changed? && w1.bookings[id].status.Draft?)
  {
    if Shaped(w) && Lapsed(w, id, now) {
      LapsedHoldMoves(w, id, now);
    }
  }

  lemma ExpiryLocal(now: int)
    ensures Local(LapsedAt(now), Expiry(now))
  {
    forall w, id, other | other != id
      ensures LapsedAt(now)(Expiry(now)(w, id).0, other) == LapsedAt(now)(w, other)
    {
      ExpiryEffect(w, id, now);
    }
  }

  /** Exactly the bookings of `ids` have been released. */
  ghost predicate Released(w: World, ids: seq<nat>, w1: World) {
    && Inv(w1) && KeepsCaps(w, w1) && |w1.bookings| == |w.bookings|
    && forall j :: 0 <= j < |w.bookings| ==>
         if j in ids then w1.bookings[j].status.Draft? else w1.bookings[j] == w.bookings[j]
  }

  lemma ReleaseOne(w: World, ids: seq<nat>, w1: World, id: nat, now: int)
    requires Released(w, ids, w1) && Lapsed(w, id, now) && id !in ids
    ensures var (w2, o) := Expiry(now)(w1, id); Released(w, ids + [id], w2) && o.Changed?
  {
    ExpiryEffect(w1, id, now);
    StepKeepsInv(w1, ExpireHold(id, now));
  }

  /** What a sweep has done after visiting `ids`, each a lapsed hold at the start. */
  lemma {:induction false} ExpiredSoFar(w: World, ids: seq<nat>, now: int)
    requires Inv(w) && Ascending(ids)
    requires forall id :: id in ids ==> Lapsed(w, id, now)
    ensures Released(w, ids, Visit(Expiry(now), w, ids))
    ensures Tallied(Expiry(now), w, ids) == Tally(|ids|, |ids|, 0)
  {
    if ids != [] {
      var n := |ids| - 1;
      var front, id := ids[..n], ids[n];
      assert ids == front + [id] && id !in front && id in ids;
      ExpiredSoFar(w, front, now);
      ReleaseOne(w, front, Visit(Expiry(now), w, front), id, now);
      VisitAppend(Expiry(now), w, front, id);
    }
  }

  ghost predicate HoldsReleased(w: World, w1: World, now: int) {
    && Inv(w1) && KeepsCaps(w, w1) && |w1.bookings| == |w.bookings|
    && forall id :: 0 <= id < |w.bookings| ==>
         if Lapsed(w, id, now) then w1.bookings[id].status.Draft? else w1.bookings[id] == w.bookings[id]
  }

  lemma FullSweepReleases(w: World, now: int, ids: seq<nat>, w1: World, res: Tally, failed: Option<nat>)
    requires Inv(w) && ids == Candidates(LapsedAt(now), w, 0, |w.bookings|)
    requires Reports(Expiry(now), w, ids, w1, res, failed)
    ensures HoldsReleased(w, w1, now)
    ensures res == Tally(|ids|, |ids|, 0)
  {
    CandidatesExact(LapsedAt(now), w, 0, |w.bookings|);
    ExpiredSoFar(w, ids, now);
  }

  /** MAIN: an uninterrupted hold-expiry run releases every lapsed hold, touches nothing else, fails
      nowhere and keeps every booking invariant. */
  method ExpireHolds(w: World, now: int, batch: nat) returns (w1: World, res: Tally)
    requires Inv(w) && batch > 0
    ensures HoldsReleased(w, w1, now)
    ensures forall id :: 0 <= id < |w1.bookings| && w1.bookings[id].status.OptionHold? ==>
      w1.bookings[id].hold.Some? && now < w1.bookings[id].hold.value
    ensures res.scanned == res.transitioned && res.failed == 0
  {
    ExpiryLocal(now);
    var p, interrupted, round := KeysetSweep.Run(w, |w.bookings|, LapsedAt(now), Expiry(now), batch, _ => false);
    w1, res := p.state, p.tally;
    FullSweepReleases(w, now, p.visited, w1, res, p.firstFailed);
  }

  // ---------- departed bookings ----------

  /** The listing of the travelled job: family bookings whose departure day is reached. */
  predicate Due(w: World, id: nat, today: int) {
    && id < |w.bookings|
    && w.bookings[id].status.InFamily()
    && w.bookings[id].departure in w.departures
    && w.departures[w.bookings[id].departure].departDay <= today
  }

  function Departing(now: int, today: int): Handler<World> {
    (w: World, id: nat) => Handle(w, MarkTravelled(id, now, today))
  }

  function DueAt(today: int): Listing<World> {
    (w: World, id: nat) => Due(w, id, today)
  }

  lemma DueBookingMoves(w: World, id: nat, now: int, today: int)
    requires Shaped(w) && Due(w, id, today)
    ensures var r := Step(w, MarkTravelled(id, now, today));
      && r.Ok? && |r.value.audit| > |w.audit| && |r.value.bookings| == |w.bookings|
      && r.value.bookings[id].status.Travelled?
  {
    var c := Change(Travelled, System, "departed", None, now, today);
    DepartedMoveAccepted(w.bookings[id], RequestFor(w, id, c));
  }

  /** The handler touches one booking, no departure, and never leaves a due booking behind. */
  lemma DepartingEffect(w: World, id: nat, now: int, today: int)
    ensures var (w1, o) := Departing(now, today)(w, id);
      && OnlyBooking(w, w1, id) && w1.departures == w.departures
      && (Shaped(w) && Due(w, id, today) ==> o.Changed? && w1.bookings[id].status.Travelled?)
  {
    if Shaped(w) && Due(w, id, today) {
      DueBookingMoves(w, id, now, today);
    }
  }

  lemma DepartingLocal(now: int, today: int)
    ensures Local(DueAt(today), Departing(now, today))
  {
    forall w, id, other | other != id
      ensures DueAt(today)(Departing(now, today)(w, id).0, other) == DueAt(today)(w, other)
    {
      DepartingEffect(w, id, now, today);
    }
  }

  /** Exactly the bookings of `ids` have been marked. */
  ghost predicate Departed(w: World, ids: seq<nat>, w1: World) {
    && Inv(w1) && KeepsCaps(w, w1) && |w1.bookings| == |w.bookings| && w1.departures == w.departures
    && forall j :: 0 <= j < |w.bookings| ==>
         if j in ids then w1.bookings[j].status.Travelled? else w1.bookings[j] == w.bookings[j]
  }

  lemma DepartOne(w: World, ids: seq<nat>, w1: World, id: nat, now: int, today: int)
    requires Departed(w, ids, w1) && Due(w, id, today) && id !in ids
    ensures var (w2, o) := Departing(now, today)(w1, id); Departed(w, ids + [id], w2) && o.Changed?
  {
    DepartingEffect(w1, id, now, today);
    StepKeepsInv(w1, MarkTravelled(id, now, today));
  }

  lemma {:induction false} DepartedSoFar(w: World, ids: seq<nat>, now: int, today: int)
    requires Inv(w) && Ascending(ids)
    requires forall id :: id in ids ==> Due(w, id, today)
    ensures Departed(w, ids, Visit(Departing(now, today), w, ids))
    ensures Tallied(Departing(now, today), w, ids) == Tally(|ids|, |ids|, 0)
  {
    if ids != [] {
      var n := |ids| - 1;
      var front, id := ids[..n], ids[n];
      assert ids == front + [id] && id !in front && id in ids;
      DepartedSoFar(w, front, now, today);
      DepartOne(w, front, Visit(Departing(now, today), w, front), id, now, today);
      VisitAppend(Departing(now, today), w, front, id);
    }
  }

  ghost predicate AllDeparted(w: World, w1: World, today: int) {
    && Inv(w1) && KeepsCaps(w, w1) && |w1.bookings| == |w.bookings| && w1.departures == w.departures
    && forall id :: 0 <= id < |w.bookings| ==>
         if Due(w, id, today) then w1.bookings[id].status.Travelled? else w1.bookings[id] == w.bookings[id]
  }

  lemma FullSweepDeparts(w: World, now: int, today: int, ids: seq<nat>, w1: World, res: Tally, failed: Option<nat>)
    requires Inv(w) && ids == Candidates(DueAt(today), w, 0, |w.bookings|)
    requires Reports(Departing(now, today), w, ids, w1, res, failed)
    ensures AllDeparted(w, w1, today) && res == Tally(|ids|, |ids|, 0)
  {
    CandidatesExact(DueAt(today), w, 0, |w.bookings|);
    DepartedSoFar(w, ids, now, today);
  }

  /** MAIN: an uninterrupted travelled run moves exactly the family bookings whose departure day is reached, touches
      nothing else and fails nowhere. */
  method MarkDeparted(w: World, now: int, today: int, batch: nat) returns (w1: World, res: Tally)
    requires Inv(w) && batch > 0
    ensures AllDeparted(w, w1, today)
    ensures forall id :: 0 <= id < |w1.bookings| && w1.bookings[id].status.InFamily() ==>
      var dep := w1.bookings[id].departure; dep in w1.departures ==> today < w1.departures[dep].departDay
    ensures res.scanned == res.transitioned && res.failed == 0
  {
    DepartingLocal(now, today);
    var p, interrupted, round :=
      KeysetSweep.Run(w, |w.bookings|, DueAt(today), Departing(now, today), batch, _ => false);
    w1, res := p.state, p.tally;
    FullSweepDeparts(w, now, today, p.visited, w1, res, p.firstFailed);
  }

  // ---------- derived status reconciliation ----------

  /** The reconcile listing: family bookings except those whose status already matches their money and
      cannot become ready, and forced ready ones. */
  predicate DriftCandidate(w: World, id: nat) {
    id < |w.bookings| &&
    var b := w.bookings[id];
    && b.status.InFamily()
    && !(b.balance > 0 && ((b.status.Confirmed? && b.collected <= 0) || (b.status.PartiallyPaid? && b.collected > 0)))
    && !(b.status.Ready? && b.readyForced)
  }

  function Recomputation(now: int): Handler<World> {
    (w: World, id: nat) => Handle(w, Recompute(id, now))
  }

  /** The listing skips no booking that has drifted. */
  lemma SkippedAreSettled(w: World, id: nat)
    requires Shaped(w) && id < |w.bookings| && WellFormed(w.bookings[id]) && !DriftCandidate(w, id)
    ensures Settled(w, id)
  {}

  lemma RecomputationEffect(w: World, id: nat, now: int)
    ensures var (w1, o) := Recomputation(now)(w, id);
      && OnlyBooking(w, w1, id)
      && (Shaped(w) && id < |w.bookings| ==> !o.Failed? && Settled(w1, id))
  {
    if Shaped(w) && id < |w.bookings| {
      RederiveSettles(w, id, now);
    }
  }

  lemma RecomputationLocal(now: int)
    ensures Local(DriftCandidate, Recomputation(now))
  {
    forall w, id, other | other != id
      ensures DriftCandidate(Recomputation(now)(w, id).0, other) == DriftCandidate(w, other)
    {
      RecomputationEffect(w, id, now);
    }
  }

  /** Exactly the bookings of `ids` have been moved, each onto its derived status. */
  ghost predicate Reconciled(w: World, ids: seq<nat>, w1: World) {
    && Inv(w) && Inv(w1) && KeepsCaps(w, w1) && |w1.bookings| == |w.bookings| && w1.dossiers == w.dossiers
    && forall j :: 0 <= j < |w.bookings| ==> if j in ids then Settled(w1, j) else w1.bookings[j] == w.bookings[j]
  }

  lemma ReconcileOne(w: World, ids: seq<nat>, w1: World, id: nat, now: int)
    requires Reconciled(w, ids, w1) && id < |w.bookings|
    ensures var (w2, o) := Recomputation(now)(w1, id); Reconciled(w, ids + [id], w2) && !o.Failed?
  {
    RecomputationEffect(w1, id, now);
    StepKeepsInv(w1, Recompute(id, now));
  }

  lemma {:induction false} ReconciledSoFar(w: World, ids: seq<nat>, now: int)
    requires Inv(w) && forall id :: id in ids ==> id < |w.bookings|
    ensures Reconciled(w, ids, Visit(Recomputation(now), w, ids))
    ensures Tallied(Recomputation(now), w, ids).failed == 0
  {
    if ids != [] {
      var n := |ids| - 1;
      var front, id := ids[..n], ids[n];
      assert forall x :: x in front ==> x in ids;
      assert id in ids && ids == front + [id];
      ReconciledSoFar(w, front, now);
      ReconcileOne(w, front, Visit(Recomputation(now), w, front), id, now);
    }
  }

  ghost predicate AllSettled(w: World) {
    Inv(w) && forall id :: 0 <= id < |w.bookings| ==> Settled(w, id)
  }

  lemma FullSweepSettles(w: World, now: int, ids: seq<nat>, w1: World, res: Tally, failed: Option<nat>)
    requires Inv(w) && ids == Candidates(DriftCandidate, w, 0, |w.bookings|)
    requires Reports(Recomputation(now), w, ids, w1, res, failed)
    ensures AllSettled(w1) && res.failed == 0
  {
    CandidatesExact(DriftCandidate, w, 0, |w.bookings|);
    ReconciledSoFar(w, ids, now);
    forall id | 0 <= id < |w1.bookings|
      ensures Settled(w1, id)
    {
      if id !in ids {
        SkippedAreSettled(w, id);
      }
    }
  }

  /** MAIN: an uninterrupted reconcile run leaves every booking of the system, listed or skipped, on its
      derived status. */
  method ReconcileDerived(w: World, now: int, batch: nat) returns (w1: World, res: Tally)
    requires Inv(w) && batch > 0
    ensures AllSettled(w1) && res.failed == 0
    ensures forall id :: 0 <= id < |w1.bookings| ==> ShowsDerived(w1.bookings[id], w1.dossiers[id])
  {
    RecomputationLocal(now);
    var p, interrupted, round :=
      KeysetSweep.Run(w, |w.bookings|, DriftCandidate, Recomputation(now), batch, _ => false);
    w1, res := p.state, p.tally;
    FullSweepSettles(w, now, p.visited, w1, res, p.firstFailed);
    forall id | 0 <= id < |w1.bookings|
      ensures ShowsDerived(w1.bookings[id], w1.dossiers[id])
    {
      SettledShowsDerived(w1, id);
    }
  }
}
