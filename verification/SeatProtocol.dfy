/** Status changes of many requests interleaved statement by statement: row locks, seat count, guard, saves and commit
    under read-committed isolation (internal/app/booking/transition.go), beside capacity recounts and departure edits
    that take no lock before they read (internal/app/tourpackage/service.go). */
module SeatProtocol {
  import opened Prelude
  import opened BookingRules
  import opened BookingWorld

  /** Where a request stands inside its transaction. `row` is the booking read FOR UPDATE. */
  datatype Phase =
    | Waiting                                       // not begun
    | Loaded(row: Booking)                          // booking row locked and read
    | Locked(row: Booking)                          // departure row locked as well
    | Counted(row: Booking, sold: int)              // seats counted under the lock
    | Saved(row: Booking, sold: int, next: Booking) // guards passed, new row written, not committed
    | Done

  datatype Job = Job(booking: nat, change: Change, readinessOk: bool, phase: Phase) {
    /** Holds the FOR UPDATE lock on its booking row. */
    predicate HoldsBooking() { !phase.Waiting? && !phase.Done? }

    predicate HoldsDeparture(dep: nat) {
      && (phase.Locked? || phase.Counted? || (phase.Saved? && TouchesSeats(phase.row, phase.next.status)))
      && phase.row.departure == dep
    }
  }

  /** A capacity recount. `drift` is history: the seats taken less those given back since it counted. */
  datatype Recount = Recount(departure: nat, phase: RecountPhase)

  datatype RecountPhase = Asked | Counting(n: nat, drift: int) | Written

  /** An edit of a departure, judged on the row it read. `owed` is history: what the counter it read was short of the
      seats held then, and the seats taken less those given back since. */
  datatype Editing = Editing(departure: nat, edit: DepartureEdit, phase: EditPhase)

  datatype EditPhase = EditAsked | EditRead(d: Departure, owed: int) | EditDone

  /** Committed rows and the requests in flight. `debt` is history: the drift of the recount that wrote a departure's
      counter last, or 0 if a status change did. `cut` is history: the departures whose last edit cut below. */
  datatype State = State(
    bookings: seq<Booking>, departures: map<nat, Departure>, jobs: seq<Job>, recounts: seq<Recount>,
    debt: map<nat, int>, edits: seq<Editing>, cut: set<nat>)

  function Debt(s: State, dep: nat): int { if dep in s.debt then s.debt[dep] else 0 }

  /** Seats a status change takes (positive) or gives back. */
  function SeatDelta(row: Booking, to: Status): int {
    match SeatChangeFor(row.status, to)
    case SeatAcquire => row.pax
    case SeatRelease => -(row.pax as int)
    case SeatNone => 0
  }

  /** A seat change of one departure passes the recounts that have counted it already. */
  function Drifted(rs: seq<Recount>, dep: nat, delta: int): (rs': seq<Recount>)
    ensures |rs'| == |rs|
  {
    seq(|rs|, i requires 0 <= i < |rs| =>
      if rs[i].departure == dep && rs[i].phase.Counting?
      then rs[i].(phase := rs[i].phase.(drift := rs[i].phase.drift + delta)) else rs[i])
  }

  /** And the edits that have read it. */
  function DriftedEdits(es: seq<Editing>, dep: nat, delta: int): (es': seq<Editing>)
    ensures |es'| == |es|
  {
    seq(|es|, i requires 0 <= i < |es| =>
      if es[i].departure == dep && es[i].phase.EditRead?
      then es[i].(phase := es[i].phase.(owed := es[i].phase.owed + delta)) else es[i])
  }

  predicate BookingFree(s: State, id: nat) {
    forall j :: 0 <= j < |s.jobs| && s.jobs[j].HoldsBooking() ==> s.jobs[j].booking != id
  }

  predicate DepartureFree(s: State, dep: nat) {
    forall j :: 0 <= j < |s.jobs| ==> !s.jobs[j].HoldsDeparture(dep)
  }

  function InPhase(s: State, j: nat, p: Phase): State
    requires j < |s.jobs|
  {
    s.(jobs := s.jobs[j := s.jobs[j].(phase := p)])
  }

  /** The request the guards judge, from the row and the count this job has read. */
  function GuardedRequest(s: State, job: Job, row: Booking, sold: int): Request {
    var c := job.change;
    var needsDeparture := c.to.Travelled? || (c.to.ConsumesSeat() && !row.status.InFamily());
    var facts :=
      if needsDeparture && row.departure in s.departures
      then DepartureFacts(s.departures[row.departure], sold, row.pax, c.today)
      else NO_FACTS;
    Request(c.to, c.actor, c.reason, c.hold, c.now, facts.(readinessOk := job.readinessOk))
  }

  /** Begin: lock and read the booking row. */
  ghost predicate Begin(s: State, s': State, j: nat)
    requires j < |s.jobs|
  {
    var job := s.jobs[j];
    && job.phase.Waiting? && job.booking < |s.bookings| && BookingFree(s, job.booking)
    && s' == InPhase(s, j, Loaded(s.bookings[job.booking]))
  }

  /** Lock the departure row, only when the change acquires or releases seats. */
  ghost predicate LockDeparture(s: State, s': State, j: nat)
    requires j < |s.jobs|
  {
    var job := s.jobs[j];
    && job.phase.Loaded? && TouchesSeats(job.phase.row, job.change.to)
    && DepartureFree(s, job.phase.row.departure)
    && s' == InPhase(s, j, Locked(job.phase.row))
  }

  /** Count committed seats; this transaction has written nothing yet. */
  ghost predicate Count(s: State, s': State, j: nat)
    requires j < |s.jobs|
  {
    var job := s.jobs[j];
    && job.phase.Locked?
    && s' == InPhase(s, j, Counted(job.phase.row, SeatsHeld(s.bookings, job.phase.row.departure)))
  }

  /** Judge the guards and write the new row, visible to this transaction only. */
  ghost predicate Save(s: State, s': State, j: nat)
    requires j < |s.jobs|
  {
    var job := s.jobs[j];
    && (job.phase.Counted? || (job.phase.Loaded? && !TouchesSeats(job.phase.row, job.change.to)))
    && var sold := if job.phase.Counted? then job.phase.sold else 0;
       var res := Transition(job.phase.row, GuardedRequest(s, job, job.phase.row, sold));
       res.Ok? && s' == InPhase(s, j, Saved(job.phase.row, sold, res.value))
  }

  /** A further save in the same transaction: a transition into the family is followed by the re-derivation. */
  ghost predicate SaveAgain(s: State, s': State, j: nat, req: Request)
    requires j < |s.jobs|
  {
    var p := s.jobs[j].phase;
    && p.Saved? && p.next.status.InFamily() && req.actor.System? && req.to.InFamily()
    && var res := Transition(p.next, req);
       res.Ok? && s' == InPhase(s, j, Saved(p.row, p.sold, res.value))
  }

  /** Commit: the row and the recounted capacity become visible, locks are released. */
  ghost predicate Commit(s: State, s': State, j: nat)
    requires j < |s.jobs|
  {
    var job := s.jobs[j];
    && job.phase.Saved? && job.booking < |s.bookings|
    && var dep := job.phase.row.departure;
       var bookings := s.bookings[job.booking := job.phase.next];
       var writes := TouchesSeats(job.phase.row, job.phase.next.status) && dep in s.departures;
       var departures :=
         if writes then s.departures[dep := s.departures[dep].(sold := SeatsHeld(bookings, dep))] else s.departures;
       var delta := SeatDelta(job.phase.row, job.phase.next.status);
       s' == InPhase(
         State(bookings, departures, s.jobs, Drifted(s.recounts, dep, delta),
               if writes then s.debt[dep := 0] else s.debt, DriftedEdits(s.edits, dep, delta), s.cut), j, Done)
  }

  /** A failed guard, an error or a lost connection rolls back at any point. */
  ghost predicate Rollback(s: State, s': State, j: nat)
    requires j < |s.jobs|
  {
    s.jobs[j].HoldsBooking() && s' == InPhase(s, j, Done)
  }

  /** A further request arrives. */
  ghost predicate Arrive(s: State, s': State) {
    exists job: Job :: job.phase.Waiting? && s' == s.(jobs := s.jobs + [job])
  }

  function RecountAt(s: State, r: nat, p: RecountPhase): State
    requires r < |s.recounts|
  {
    s.(recounts := s.recounts[r := s.recounts[r].(phase := p)])
  }

  /** Someone asks for a recount. */
  ghost predicate Ask(s: State, s': State, dep: nat) {
    s' == s.(recounts := s.recounts + [Recount(dep, Asked)])
  }

  /** The recount reads the committed seats, without the departure's lock. */
  ghost predicate Recounts(s: State, s': State, r: nat)
    requires r < |s.recounts|
  {
    && s.recounts[r].phase.Asked?
    && s' == RecountAt(s, r, Counting(SeatsHeld(s.bookings, s.recounts[r].departure), 0))
  }

  /** The recount's update waits for the row lock, writes what it counted and commits. */
  ghost predicate WriteBack(s: State, s': State, r: nat)
    requires r < |s.recounts|
  {
    var (dep, p) := (s.recounts[r].departure, s.recounts[r].phase);
    && p.Counting? && dep in s.departures && DepartureFree(s, dep)
    && s' == RecountAt(s, r, Written).(departures := s.departures[dep := s.departures[dep].(sold := p.n)],
                                       debt := s.debt[dep := p.drift])
  }

  function EditAt(s: State, e: nat, p: EditPhase): State
    requires e < |s.edits|
  {
    s.(edits := s.edits[e := s.edits[e].(phase := p)])
  }

  ghost predicate AskEdit(s: State, s': State, dep: nat, edit: DepartureEdit) {
    s' == s.(edits := s.edits + [Editing(dep, edit, EditAsked)])
  }

  /** The edit reads the departure without its lock and checks a new capacity against the counter. */
  ghost predicate ReadDeparture(s: State, s': State, e: nat)
    requires e < |s.edits|
  {
    var ed := s.edits[e];
    && ed.phase.EditAsked? && ed.departure in s.departures
    && var d := s.departures[ed.departure];
       s' == EditAt(s, e, if EditRefused(d, ed.edit) then EditDone else EditRead(d, Debt(s, ed.departure)))
  }

  /** The edit leaves a capped capacity below the seats held, as told by what it read and what happened since. */
  predicate CutsBelow(d: Departure, edit: DepartureEdit, owed: int) {
    !Edited(d, edit).oversell && Edited(d, edit).capacity < d.sold + owed
  }

  /** The edit's update waits for the row lock and writes every field but the counter, from the row it read. */
  ghost predicate WriteEdit(s: State, s': State, e: nat)
    requires e < |s.edits|
  {
    var ed := s.edits[e];
    var dep := ed.departure;
    && ed.phase.EditRead? && dep in s.departures && DepartureFree(s, dep)
    && s' == EditAt(s, e, EditDone).(
         departures := s.departures[dep := Edited(ed.phase.d, ed.edit).(sold := s.departures[dep].sold)],
         cut := if CutsBelow(ed.phase.d, ed.edit, ed.phase.owed) then s.cut + {dep} else s.cut - {dep})
  }

  ghost predicate EditStep(s: State, s': State) {
    || (exists dep: nat, edit: DepartureEdit :: AskEdit(s, s', dep, edit))
    || (exists e: nat :: e < |s.edits| && (ReadDeparture(s, s', e) || WriteEdit(s, s', e)))
  }

  ghost predicate JobStep(s: State, s': State, j: nat)
    requires j < |s.jobs|
  {
    || Begin(s, s', j) || LockDeparture(s, s', j) || Count(s, s', j) || Save(s, s', j)
    || (exists req: Request :: SaveAgain(s, s', j, req)) || Commit(s, s', j) || Rollback(s, s', j)
  }

  ghost predicate RecountStep(s: State, s': State) {
    || (exists dep: nat :: Ask(s, s', dep))
    || (exists r: nat :: r < |s.recounts| && (Recounts(s, s', r) || WriteBack(s, s', r)))
  }

  ghost predicate Next(s: State, s': State) {
    Arrive(s, s') || (exists j: nat :: j < |s.jobs| && JobStep(s, s', j)) || RecountStep(s, s') || EditStep(s, s')
  }

  // ---------- invariant ----------

  /** What a job has read is still what is committed, because it holds the locks. */
  ghost predicate Fresh(s: State, job: Job) {
    job.HoldsBooking() ==>
      && job.booking < |s.bookings| && job.phase.row == s.bookings[job.booking]
      && ((job.phase.Locked? || job.phase.Counted?) ==> TouchesSeats(job.phase.row, job.change.to))
      && ((job.phase.Counted? || (job.phase.Saved? && TouchesSeats(job.phase.row, job.phase.next.status))) ==>
            job.phase.sold == SeatsHeld(s.bookings, job.phase.row.departure))
      && (job.phase.Saved? ==> SavedSoundly(s, job))
  }

  /** The pending row keeps pax and departure, and takes seats only if they fit. */
  ghost predicate SavedSoundly(s: State, job: Job)
    requires job.phase.Saved?
  {
    var row, next, dep := job.phase.row, job.phase.next, job.phase.row.departure;
    && next.pax == row.pax && next.departure == row.departure
    && (SeatChangeFor(row.status, next.status).SeatAcquire? && dep in s.departures && !s.departures[dep].oversell ==>
          job.phase.sold + row.pax <= s.departures[dep].capacity)
  }

  ghost predicate Exclusive(s: State) {
    && (forall i, j :: 0 <= i < j < |s.jobs| && s.jobs[i].HoldsBooking() && s.jobs[j].HoldsBooking() ==>
          s.jobs[i].booking != s.jobs[j].booking)
    && (forall i, j, dep :: 0 <= i < j < |s.jobs| && s.jobs[i].HoldsDeparture(dep) ==> !s.jobs[j].HoldsDeparture(dep))
  }

  predicate ExactAt(s: State, dep: nat)
    requires dep in s.departures
  {
    s.departures[dep].sold == SeatsHeld(s.bookings, dep)
  }

  ghost predicate CapacityExact(s: State) {
    forall dep :: dep in s.departures ==> ExactAt(s, dep)
  }

  ghost predicate CountersOwe(s: State) {
    && (forall dep :: dep in s.departures ==> s.departures[dep].sold + Debt(s, dep) == SeatsHeld(s.bookings, dep))
    && (s.recounts == [] ==> forall dep :: dep in s.debt ==> s.debt[dep] == 0)
  }

  predicate RecountOwes(s: State, r: Recount) {
    r.phase.Counting? ==> r.phase.n + r.phase.drift == SeatsHeld(s.bookings, r.departure)
  }

  predicate EditOwes(s: State, e: Editing) {
    e.phase.EditRead? ==> e.phase.d.sold + e.phase.owed == SeatsHeld(s.bookings, e.departure)
  }

  /** Counters, open recounts and open edits are off by exactly the recorded history. */
  ghost predicate Accounted(s: State) {
    && CountersOwe(s)
    && (forall r :: 0 <= r < |s.recounts| ==> RecountOwes(s, s.recounts[r]))
    && (forall e :: 0 <= e < |s.edits| ==> EditOwes(s, s.edits[e]))
    && (s.edits == [] ==> s.cut == {})
  }

  /** The departure may oversell or has seats for all it holds. */
  predicate Fits(s: State, dep: nat)
    requires dep in s.departures
  {
    s.departures[dep].oversell || SeatsHeld(s.bookings, dep) <= s.departures[dep].capacity
  }

  ghost predicate NeverOversold(s: State) {
    forall dep :: dep in s.departures ==> Fits(s, dep)
  }

  /** No departure was oversold by the step. */
  ghost predicate KeepsFits(s: State, s': State) {
    s'.departures.Keys == s.departures.Keys && forall dep :: dep in s.departures && Fits(s, dep) ==> Fits(s', dep)
  }

  ghost predicate Inv(s: State) {
    && Exclusive(s)
    && (forall j :: 0 <= j < |s.jobs| ==> Fresh(s, s.jobs[j]))
    && Accounted(s)
    && (forall dep :: dep in s.departures && dep !in s.cut ==> Fits(s, dep))
  }

  /** A job that moves to a phase holding no new lock leaves the others' exclusivity alone. */
  lemma PhaseKeepsExclusive(s: State, j: nat, p: Phase)
    requires Exclusive(s) && j < |s.jobs|
    requires var next := s.jobs[j].(phase := p);
      && (next.HoldsBooking() ==> s.jobs[j].HoldsBooking() || BookingFree(s, next.booking))
      && (forall dep :: next.HoldsDeparture(dep) ==> s.jobs[j].HoldsDeparture(dep) || DepartureFree(s, dep))
    ensures Exclusive(InPhase(s, j, p))
  {}

  /** A request that moves on without committing keeps the invariant if what it knows is right. */
  lemma PhaseKeeps(s: State, j: nat, p: Phase)
    requires Inv(s) && j < |s.jobs| && Exclusive(InPhase(s, j, p)) && Fresh(s, s.jobs[j].(phase := p))
    ensures Inv(InPhase(s, j, p)) && KeepsFits(s, InPhase(s, j, p))
  {
    var s' := InPhase(s, j, p);
    forall i | 0 <= i < |s'.jobs|
      ensures Fresh(s', s'.jobs[i])
    {
      assert i != j ==> Fresh(s, s.jobs[i]);
    }
    assert Accounted(s');
  }

  lemma BeginKeeps(s: State, s': State, j: nat)
    requires Inv(s) && j < |s.jobs| && Begin(s, s', j)
    ensures Inv(s') && KeepsFits(s, s')
  {
    PhaseKeepsExclusive(s, j, s'.jobs[j].phase);
    PhaseKeeps(s, j, s'.jobs[j].phase);
  }

  lemma LockKeeps(s: State, s': State, j: nat)
    requires Inv(s) && j < |s.jobs| && (LockDeparture(s, s', j) || Count(s, s', j))
    ensures Inv(s') && KeepsFits(s, s')
  {
    assert Fresh(s, s.jobs[j]);
    PhaseKeepsExclusive(s, j, s'.jobs[j].phase);
    PhaseKeeps(s, j, s'.jobs[j].phase);
  }

  /** Guards judged on the fresh count leave a pending row that fits. */
  lemma SavedFresh(s: State, s': State, j: nat)
    requires j < |s.jobs| && Fresh(s, s.jobs[j]) && Save(s, s', j)
    ensures Fresh(s, s'.jobs[j])
    ensures forall dep :: s'.jobs[j].HoldsDeparture(dep) ==> s.jobs[j].HoldsDeparture(dep)
  {
    var job := s.jobs[j];
    var row := job.phase.row;
    var req := GuardedRequest(s, job, row, if job.phase.Counted? then job.phase.sold else 0);
    if SeatChangeFor(row.status, req.to).SeatAcquire? {
      AcquireNeedsCapacity(row, req);
    }
    assert s'.jobs[j].phase.next.status == job.change.to;
  }

  lemma SaveKeeps(s: State, s': State, j: nat)
    requires Inv(s) && j < |s.jobs| && Save(s, s', j)
    ensures Inv(s') && KeepsFits(s, s')
  {
    SavedFresh(s, s', j);
    PhaseKeepsExclusive(s, j, s'.jobs[j].phase);
    PhaseKeeps(s, j, s'.jobs[j].phase);
  }

  lemma SaveAgainKeeps(s: State, s': State, j: nat, req: Request)
    requires Inv(s) && j < |s.jobs| && SaveAgain(s, s', j, req)
    ensures Inv(s') && KeepsFits(s, s')
  {
    var p := s.jobs[j].phase;
    var next := Transition(p.next, req).value;
    SavedAgainFresh(s, s.jobs[j], next);
    PhaseKeepsExclusive(s, j, Saved(p.row, p.sold, next));
    PhaseKeeps(s, j, Saved(p.row, p.sold, next));
  }

  /** Inside the family a further save changes no seat. */
  lemma SavedAgainFresh(s: State, job: Job, next: Booking)
    requires Fresh(s, job) && job.phase.Saved? && job.phase.next.status.InFamily() && next.status.InFamily()
    requires next.pax == job.phase.next.pax && next.departure == job.phase.next.departure
    ensures var job' := job.(phase := Saved(job.phase.row, job.phase.sold, next));
      && Fresh(s, job') && (forall dep :: job'.HoldsDeparture(dep) <==> job.HoldsDeparture(dep))
  {}

  lemma CommitSeats(s: State, s': State, j: nat, dep: nat)
    requires Inv(s) && j < |s.jobs| && Commit(s, s', j)
    ensures var (row, next) := (s.jobs[j].phase.row, s.jobs[j].phase.next);
      SeatsHeld(s'.bookings, dep) ==
      SeatsHeld(s.bookings, dep) + if dep == row.departure then SeatDelta(row, next.status) else 0
  {
    assert Fresh(s, s.jobs[j]);
    SeatsHeldUpdate(s.bookings, s.jobs[j].booking, s.jobs[j].phase.next, dep);
  }

  /** A commit pays the departure's debt and is noted by the recounts and edits it overtakes. */
  lemma CommitAccounted(s: State, s': State, j: nat)
    requires Inv(s) && j < |s.jobs| && Commit(s, s', j)
    ensures Accounted(s')
  {
    forall r | 0 <= r < |s.recounts|
      ensures RecountOwes(s', s'.recounts[r])
    {
      assert RecountOwes(s, s.recounts[r]);
      CommitSeats(s, s', j, s.recounts[r].departure);
    }
    forall e | 0 <= e < |s.edits|
      ensures EditOwes(s', s'.edits[e])
    {
      assert EditOwes(s, s.edits[e]);
      CommitSeats(s, s', j, s.edits[e].departure);
    }
    forall dep | dep in s'.departures
      ensures s'.departures[dep].sold + Debt(s', dep) == SeatsHeld(s'.bookings, dep)
    {
      CommitSeats(s, s', j, dep);
    }
  }

  /** A commit leaves what the other requests have read alone. */
  lemma CommitFresh(s: State, s': State, j: nat, i: nat)
    requires Inv(s) && j < |s.jobs| && Commit(s, s', j) && i < |s.jobs|
    ensures Fresh(s', s'.jobs[i])
  {
    var job, other := s.jobs[j], s.jobs[i];
    var dep := job.phase.row.departure;
    assert Fresh(s, job) && Fresh(s, other);
    if i != j && other.HoldsBooking() {
      assert other.booking != job.booking;
      CommitSeats(s, s', j, other.phase.row.departure);
      if TouchesSeats(job.phase.row, job.phase.next.status) {
        assert job.HoldsDeparture(dep) && !other.HoldsDeparture(dep);
      }
    }
  }

  lemma CommitFits(s: State, s': State, j: nat)
    requires Inv(s) && j < |s.jobs| && Commit(s, s', j)
    ensures KeepsFits(s, s')
  {
    assert Fresh(s, s.jobs[j]);
    forall dep | dep in s.departures && Fits(s, dep)
      ensures Fits(s', dep)
    {
      CommitSeats(s, s', j, dep);
    }
  }

  lemma CommitKeeps(s: State, s': State, j: nat)
    requires Inv(s) && j < |s.jobs| && Commit(s, s', j)
    ensures Inv(s') && KeepsFits(s, s')
  {
    PhaseKeepsExclusive(s, j, Done);
    CommitAccounted(s, s', j);
    CommitFits(s, s', j);
    forall i | 0 <= i < |s'.jobs|
      ensures Fresh(s', s'.jobs[i])
    {
      CommitFresh(s, s', j, i);
    }
  }

  lemma RollbackKeeps(s: State, s': State, j: nat)
    requires Inv(s) && j < |s.jobs| && Rollback(s, s', j)
    ensures Inv(s') && KeepsFits(s, s')
  {
    PhaseKeepsExclusive(s, j, Done);
    PhaseKeeps(s, j, Done);
  }

  lemma ArriveKeeps(s: State, s': State)
    requires Inv(s) && Arrive(s, s')
    ensures Inv(s') && KeepsFits(s, s')
  {}

  /** A step that leaves bookings, requests and locked departures alone disturbs no request. */
  lemma OthersFresh(s: State, s': State)
    requires Inv(s) && s'.bookings == s.bookings && s'.jobs == s.jobs && s'.departures.Keys == s.departures.Keys
    requires forall dep :: dep in s.departures && !DepartureFree(s, dep) ==> s'.departures[dep] == s.departures[dep]
    ensures forall j :: 0 <= j < |s'.jobs| ==> Fresh(s', s'.jobs[j])
  {
    forall j | 0 <= j < |s.jobs|
      ensures Fresh(s', s'.jobs[j])
    {
      var job := s.jobs[j];
      assert Fresh(s, job);
      if job.phase.Saved? && TouchesSeats(job.phase.row, job.phase.next.status) {
        assert job.HoldsDeparture(job.phase.row.departure);
      }
    }
  }

  lemma RecountAccounted(s: State, s': State)
    requires Accounted(s) && RecountStep(s, s')
    ensures Accounted(s')
  {
    assert CountersOwe(s);
    assert forall r :: 0 <= r < |s.recounts| ==> RecountOwes(s, s.recounts[r]);
    forall r | 0 <= r < |s'.recounts|
      ensures RecountOwes(s', s'.recounts[r])
    {
      assert r < |s.recounts| ==> RecountOwes(s, s.recounts[r]);
    }
    forall e | 0 <= e < |s'.edits|
      ensures EditOwes(s', s'.edits[e])
    {
      assert EditOwes(s, s.edits[e]);
    }
  }

  lemma RecountKeeps(s: State, s': State)
    requires Inv(s) && RecountStep(s, s')
    ensures Inv(s') && KeepsFits(s, s')
  {
    RecountAccounted(s, s');
    OthersFresh(s, s');
  }

  lemma EditAccounted(s: State, s': State)
    requires Accounted(s) && EditStep(s, s')
    ensures Accounted(s')
  {
    assert CountersOwe(s);
    forall r | 0 <= r < |s'.recounts|
      ensures RecountOwes(s', s'.recounts[r])
    {
      assert RecountOwes(s, s.recounts[r]);
    }
    forall e | 0 <= e < |s'.edits|
      ensures EditOwes(s', s'.edits[e])
    {
      assert e < |s.edits| ==> EditOwes(s, s.edits[e]);
    }
  }

  /** An edit that has read its departure oversells it if and only if it cuts below. */
  lemma WriteEditKeeps(s: State, s': State, e: nat)
    requires Inv(s) && e < |s.edits| && WriteEdit(s, s', e)
    ensures Inv(s') && s'.departures.Keys == s.departures.Keys
    ensures var ed := s.edits[e];
      && (Fits(s', ed.departure) <==> !CutsBelow(ed.phase.d, ed.edit, ed.phase.owed))
      && (forall dep :: dep in s.departures && dep != ed.departure ==> (Fits(s', dep) <==> Fits(s, dep)))
  {
    assert EditStep(s, s');
    assert EditOwes(s, s.edits[e]);
    EditAccounted(s, s');
    OthersFresh(s, s');
  }

  lemma EditKeeps(s: State, s': State)
    requires Inv(s) && EditStep(s, s')
    ensures Inv(s') && s'.departures.Keys == s.departures.Keys
  {
    if e: nat :| e < |s.edits| && WriteEdit(s, s', e) {
      WriteEditKeeps(s, s', e);
    } else {
      EditAccounted(s, s');
      OthersFresh(s, s');
    }
  }

  lemma JobKeeps(s: State, s': State, j: nat)
    requires Inv(s) && j < |s.jobs| && JobStep(s, s', j)
    ensures Inv(s') && KeepsFits(s, s')
  {
    if Begin(s, s', j) { BeginKeeps(s, s', j); }
    else if LockDeparture(s, s', j) || Count(s, s', j) { LockKeeps(s, s', j); }
    else if Save(s, s', j) { SaveKeeps(s, s', j); }
    else if Commit(s, s', j) { CommitKeeps(s, s', j); }
    else if Rollback(s, s', j) { RollbackKeeps(s, s', j); }
    else {
      var req: Request :| SaveAgain(s, s', j, req);
      SaveAgainKeeps(s, s', j, req);
    }
  }

  lemma NextKeepsInv(s: State, s': State)
    requires Inv(s) && Next(s, s')
    ensures Inv(s')
    ensures KeepsFits(s, s') || exists e: nat :: e < |s.edits| && WriteEdit(s, s', e)
  {
    if Arrive(s, s') {
      ArriveKeeps(s, s');
    } else if RecountStep(s, s') {
      RecountKeeps(s, s');
    } else if EditStep(s, s') {
      EditKeeps(s, s');
    } else {
      var j: nat :| j < |s.jobs| && JobStep(s, s', j);
      JobKeeps(s, s', j);
    }
  }

  /** A run: each state follows from the one before. */
  ghost predicate IsRun(run: seq<State>) {
    forall i :: 0 < i < |run| ==> Next(run[i - 1], run[i])
  }

  /** Nothing is in flight and the counters are right. */
  ghost predicate Initial(s: State) {
    && s.jobs == [] && s.recounts == [] && s.debt == map[] && s.edits == [] && s.cut == {}
    && CapacityExact(s) && NeverOversold(s)
  }

  lemma {:induction false} RunKeepsInv(run: seq<State>, i: nat)
    requires IsRun(run) && i < |run| && Initial(run[0])
    ensures Inv(run[i])
  {
    if i > 0 {
      RunKeepsInv(run, i - 1);
      NextKeepsInv(run[i - 1], run[i]);
    }
  }

  /** MAIN: however status changes by users, managers and jobs, recounts and departure edits interleave, a capped
      departure is oversold only if its last edit cut below the seats held, and never without edits. A seat counter is
      right if and only if it was not last written by a recount during which the seats taken and given back by commits
      did not balance; without recounts all counters are right. Booking updates, which write the pax of a booking they
      read as a draft without a lock, are not among the steps. */
  lemma NoInterleavingOversells(run: seq<State>, i: nat)
    requires IsRun(run) && i < |run| && Initial(run[0])
    ensures forall dep :: dep in run[i].departures && dep !in run[i].cut ==> Fits(run[i], dep)
    ensures run[i].edits == [] ==> NeverOversold(run[i])
    ensures forall dep :: dep in run[i].departures ==> (ExactAt(run[i], dep) <==> Debt(run[i], dep) == 0)
    ensures run[i].recounts == [] ==> CapacityExact(run[i])
  {
    RunKeepsInv(run, i);
  }

  /** Edit e of the departure is written and cuts below. */
  ghost predicate CutStep(s: State, s': State, dep: nat, e: nat) {
    && e < |s.edits| && WriteEdit(s, s', e) && s.edits[e].departure == dep
    && CutsBelow(s.edits[e].phase.d, s.edits[e].edit, s.edits[e].phase.owed)
  }

  ghost predicate CutsIn(s: State, s': State, dep: nat) { exists e: nat :: CutStep(s, s', dep, e) }

  /** MAIN: in every run a step oversells a departure if and only if it writes an edit that leaves a capped capacity
      below the counter it read plus what that counter owed and the seats taken since. */
  lemma OversoldIffCutBelow(run: seq<State>, i: nat, dep: nat)
    requires IsRun(run) && 0 < i < |run| && Initial(run[0]) && dep in run[i - 1].departures && Fits(run[i - 1], dep)
    ensures dep in run[i].departures
    ensures !Fits(run[i], dep) <==> CutsIn(run[i - 1], run[i], dep)
  {
    var s, s' := run[i - 1], run[i];
    RunKeepsInv(run, i - 1);
    NextKeepsInv(s, s');
    forall e: nat | e < |s.edits| && WriteEdit(s, s', e)
      ensures Fits(s', dep) <==> !CutStep(s, s', dep, e)
    {
      WriteEditKeeps(s, s', e);
    }
  }

  // ---------- a recount overtaken by a commit, and an edit that trusts it ----------

  const SHELF := map[0 := Departure(1, 0, false, true, false, 10)]

  const DRAFTED := Booking(Some(0), 0, Draft, 1, 0, 0, 0, None, "", false)

  const HOLD := Change(OptionHold, User, "", Some(1), 0, 0)

  const TO_ZERO := DepartureEdit(Some(0), None, None, None, None)

  const HELD := DRAFTED.(status := OptionHold, hold := Some(1))

  function OneJob(p: Phase, bookings: seq<Booking>, sold: int, recount: RecountPhase, debt: map<nat, int>): State {
    State(bookings, SHELF[0 := SHELF[0].(sold := sold)], [Job(0, HOLD, false, p)], [Recount(0, recount)], debt, [], {})
  }

  lemma HoldAccepted(s: State)
    requires s.departures == SHELF
    ensures Transition(DRAFTED, GuardedRequest(s, Job(0, HOLD, false, Counted(DRAFTED, 0)), DRAFTED, 0)) == Ok(HELD)
  {
    var req := GuardedRequest(s, Job(0, HOLD, false, Counted(DRAFTED, 0)), DRAFTED, 0);
    assert Trim("") == "";
    assert Guards(DRAFTED, req) == [];
  }

  /** The run: the recount counts no seat, an option hold then takes one and commits, and the recount writes 0. After
      that an edit to no capacity passes its check. */
  function Stage(k: nat): State {
    var idle := State([DRAFTED], SHELF, [], [], map[], [], {});
    if k == 0 then idle
    else if k == 1 then idle.(recounts := [Recount(0, Asked)])
    else if k == 2 then idle.(recounts := [Recount(0, Counting(0, 0))])
    else if k == 3 then OneJob(Waiting, [DRAFTED], 0, Counting(0, 0), map[])
    else if k == 4 then OneJob(Loaded(DRAFTED), [DRAFTED], 0, Counting(0, 0), map[])
    else if k == 5 then OneJob(Locked(DRAFTED), [DRAFTED], 0, Counting(0, 0), map[])
    else if k == 6 then OneJob(Counted(DRAFTED, 0), [DRAFTED], 0, Counting(0, 0), map[])
    else if k == 7 then OneJob(Saved(DRAFTED, 0, HELD), [DRAFTED], 0, Counting(0, 0), map[])
    else if k == 8 then OneJob(Done, [HELD], 1, Counting(0, 1), map[0 := 0])
    else if k == 9 then OneJob(Done, [HELD], 0, Written, map[0 := 1])
    else
      var trusting := OneJob(Done, [HELD], 0, Written, map[0 := 1]).(
        edits := [Editing(0, TO_ZERO,
                          if k == 10 then EditAsked else if k == 11 then EditRead(SHELF[0], 1) else EditDone)]);
      if k < 12 then trusting else trusting.(departures := map[0 := SHELF[0].(capacity := 0)], cut := {0})
  }

  lemma SeatsOfStages()
    ensures SeatsHeld([DRAFTED], 0) == 0 && SeatsHeld([HELD], 0) == 1
  {
    assert [DRAFTED][..0] == [] && [HELD][..0] == [];
  }

  lemma RecountStarts()
    ensures Ask(Stage(0), Stage(1), 0) && Recounts(Stage(1), Stage(2), 0)
  {
    SeatsOfStages();
  }

  lemma HoldStarts()
    ensures Arrive(Stage(2), Stage(3)) && Begin(Stage(3), Stage(4), 0)
  {
    var job := Job(0, HOLD, false, Waiting);
    assert SHELF[0 := SHELF[0].(sold := 0)] == SHELF;
    assert Stage(3) == Stage(2).(jobs := Stage(2).jobs + [job]);
  }

  lemma HoldCounts()
    ensures LockDeparture(Stage(4), Stage(5), 0) && Count(Stage(5), Stage(6), 0)
  {
    SeatsOfStages();
  }

  lemma HoldSaves()
    ensures Save(Stage(6), Stage(7), 0)
  {
    assert Stage(6).departures == SHELF;
    HoldAccepted(Stage(6));
  }

  lemma HoldCommits()
    ensures Commit(Stage(7), Stage(8), 0)
  {
    SeatsOfStages();
    assert [DRAFTED][0 := HELD] == [HELD];
    assert Drifted(Stage(7).recounts, 0, 1) == [Recount(0, Counting(0, 1))];
    assert DriftedEdits([], 0, 1) == [];
    assert Stage(8).departures == Stage(7).departures[0 := Stage(7).departures[0].(sold := 1)];
  }

  lemma RecountWrites()
    ensures WriteBack(Stage(8), Stage(9), 0)
  {
    assert Stage(9).departures == Stage(8).departures[0 := Stage(8).departures[0].(sold := 0)];
    assert Stage(9).recounts == [Stage(8).recounts[0].(phase := Written)];
  }

  lemma EditTrusts()
    ensures AskEdit(Stage(9), Stage(10), 0, TO_ZERO) && ReadDeparture(Stage(10), Stage(11), 0)
  {
    assert SHELF[0 := SHELF[0].(sold := 0)] == SHELF;
  }

  lemma EditCuts()
    ensures WriteEdit(Stage(11), Stage(12), 0)
  {
    assert Stage(12).departures == Stage(11).departures[0 := SHELF[0].(capacity := 0)];
    assert Edited(SHELF[0], TO_ZERO) == SHELF[0].(capacity := 0);
  }

  lemma StageFollows(k: nat)
    requires 0 < k < 13
    ensures Next(Stage(k - 1), Stage(k))
  {
    var s, s' := Stage(k - 1), Stage(k);
    if k <= 2 {
      RecountStarts();
      assert RecountStep(s, s');
    } else if k == 3 {
      HoldStarts();
    } else if k < 9 {
      if k == 4 { HoldStarts(); }
      else if k < 7 { HoldCounts(); }
      else if k == 7 { HoldSaves(); }
      else { HoldCommits(); }
      assert JobStep(s, s', 0);
    } else if k == 9 {
      RecountWrites();
      assert RecountStep(s, s');
    } else {
      if k < 12 { EditTrusts(); } else { EditCuts(); }
      assert EditStep(s, s');
    }
  }

  lemma StageEnds()
    ensures Initial(Stage(0)) && !CapacityExact(Stage(9)) && NeverOversold(Stage(9)) && !NeverOversold(Stage(12))
  {
    SeatsOfStages();
    assert !ExactAt(Stage(9), 0);
    assert !Fits(Stage(12), 0);
  }

  /** The counter is wrong after the recount, and the departure oversold after the edit. */
  lemma OvertakenRecount() returns (run: seq<State>)
    ensures IsRun(run) && |run| == 13 && Initial(run[0])
    ensures !CapacityExact(run[9]) && NeverOversold(run[9])
    ensures !NeverOversold(run[12])
  {
    run := seq(13, k requires 0 <= k < 13 => Stage(k));
    StageEnds();
    forall i | 0 < i < |run|
      ensures Next(run[i - 1], run[i])
    {
      StageFollows(i);
    }
  }
}
