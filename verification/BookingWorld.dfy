/** Bookings, departures, the audit trail and the published events as one committed state, and every
    command of the booking service as a step of it (internal/app/booking). */
module BookingWorld {
  import opened Prelude
  import opened BookingRules

  datatype Departure = Departure(
    capacity: int, sold: int, oversell: bool, active: bool, salesClosed: bool, departDay: int)

  datatype ChecklistItem = ChecklistItem(required: bool, completed: bool)

  /** The readiness inputs stored beside a booking. */
  datatype Dossier = Dossier(
    participants: nat, checklist: seq<ChecklistItem>, missingDocs: nat, overridden: bool)

  /** One lifecycle audit row; `seats` holds capacity_sold before and after when it was touched. */
  datatype AuditRow = AuditRow(
    booking: nat, departure: nat, pax: nat, from: Status, to: Status, actor: Actor, seats: Option<(int, int)>)

  datatype Event =
    | StatusChanged(booking: nat, from: Status, to: Status, actor: Actor)
    | BookingConfirmed(booking: nat)
    | BookingCancelled(booking: nat)

  /** Row ids are positions in `bookings`; `dossiers` runs parallel to it. */
  datatype World = World(
    bookings: seq<Booking>,
    dossiers: seq<Dossier>,
    departures: map<nat, Departure>,
    audit: seq<AuditRow>,
    events: seq<Event>
  )

  predicate Shaped(w: World) { |w.bookings| == |w.dossiers| }

  // ---------- seats ----------

  function SeatsOf(b: Booking, dep: nat): nat {
    if b.departure == dep && b.status.ConsumesSeat() then b.pax else 0
  }

  /** Pax of the departure's bookings in seat-holding statuses. */
  function SeatsHeld(bs: seq<Booking>, dep: nat): nat {
    if bs == [] then 0 else SeatsHeld(bs[..|bs| - 1], dep) + SeatsOf(bs[|bs| - 1], dep)
  }

  lemma {:induction false} SeatsHeldUpdate(bs: seq<Booking>, id: nat, b: Booking, dep: nat)
    requires id < |bs|
    ensures SeatsHeld(bs[id := b], dep) == SeatsHeld(bs, dep) - SeatsOf(bs[id], dep) + SeatsOf(b, dep)
  {
    var n := |bs| - 1;
    if id == n {
      assert bs[id := b][..n] == bs[..n];
    } else {
      SeatsHeldUpdate(bs[..n], id, b, dep);
      assert bs[id := b][..n] == bs[..n][id := b];
    }
  }

  lemma SeatsHeldAppend(bs: seq<Booking>, b: Booking, dep: nat)
    ensures SeatsHeld(bs + [b], dep) == SeatsHeld(bs, dep) + SeatsOf(b, dep)
  {
    assert (bs + [b])[..|bs|] == bs;
  }

  // ---------- readiness ----------

  function Incomplete(items: seq<ChecklistItem>): nat {
    if items == [] then 0
    else (if items[0].required && !items[0].completed then 1 else 0) + Incomplete(items[1..])
  }

  /** The checklist seeded on a draft: passport, visa and payment are required. */
  const DEFAULT_CHECKLIST := [
    ChecklistItem(true, false), ChecklistItem(true, false), ChecklistItem(false, false),
    ChecklistItem(true, false), ChecklistItem(false, false), ChecklistItem(false, false)]

  predicate ReadinessOk(b: Booking, d: Dossier) {
    var checklist := if d.checklist == [] then DEFAULT_CHECKLIST else d.checklist;
    && b.pax <= d.participants
    && (d.overridden || (Incomplete(checklist) == 0 && d.missingDocs == 0))
  }

  // ---------- one status change ----------

  datatype Change = Change(to: Status, actor: Actor, reason: string, hold: Option<int>, now: int, today: int)

  function DepartureFacts(dep: Departure, sold: int, pax: int, today: int): Facts {
    Facts(true, dep.active && !dep.salesClosed, dep.oversell || sold + pax <= dep.capacity,
          dep.departDay <= today, false)
  }

  predicate TouchesSeats(b: Booking, to: Status) {
    !SeatChangeFor(b.status, to).SeatNone?
  }

  function GatheredFacts(w: World, id: nat, c: Change): Facts
    requires Shaped(w) && id < |w.bookings|
  {
    var b := w.bookings[id];
    var needsDeparture := c.to.Travelled? || (c.to.ConsumesSeat() && !b.status.InFamily());
    var sold := if TouchesSeats(b, c.to) then SeatsHeld(w.bookings, b.departure) else 0;
    var facts :=
      if needsDeparture && b.departure in w.departures
      then DepartureFacts(w.departures[b.departure], sold, b.pax, c.today)
      else NO_FACTS;
    if c.to.Ready? || (c.actor.System? && c.to.InFamily())
    then facts.(readinessOk := ReadinessOk(b, w.dossiers[id]))
    else facts
  }

  function RequestFor(w: World, id: nat, c: Change): Request
    requires Shaped(w) && id < |w.bookings|
  {
    Request(c.to, c.actor, c.reason, c.hold, c.now, GatheredFacts(w, id, c))
  }

  function RowEvents(r: AuditRow): seq<Event> {
    [StatusChanged(r.booking, r.from, r.to, r.actor)] +
    if r.to.InFamily() && !r.from.InFamily() then [BookingConfirmed(r.booking)]
    else if r.to.Cancelled? then [BookingCancelled(r.booking)]
    else []
  }

  /** The state after booking `id` became `b`: seats recounted, one audit row, its events. */
  function Committed(w: World, id: nat, b: Booking, actor: Actor): World
    requires id < |w.bookings|
  {
    var prev := w.bookings[id];
    var dep := prev.departure;
    var bookings := w.bookings[id := b];
    var after := SeatsHeld(bookings, dep);
    var touched := TouchesSeats(prev, b.status);
    var row := AuditRow(id, dep, prev.pax, prev.status, b.status, actor,
                        if touched then Some((SeatsHeld(w.bookings, dep) as int, after as int)) else None);
    World(bookings, w.dossiers,
          if touched && dep in w.departures then w.departures[dep := w.departures[dep].(sold := after)]
          else w.departures,
          w.audit + [row],
          w.events + RowEvents(row))
  }

  /** One status change inside a unit of work. */
  function Apply(w: World, id: nat, c: Change): (r: Result<World, Failure>)
    requires Shaped(w) && id < |w.bookings|
    ensures r.Ok? ==> |r.value.bookings| == |w.bookings| && r.value.dossiers == w.dossiers
  {
    match Transition(w.bookings[id], RequestFor(w, id, c))
    case Err(e) => Err(e)
    case Ok(b) => Ok(Committed(w, id, b, c.actor))
  }

  function DerivedChange(to: Status, now: int): Change {
    Change(to, System, "derived", None, now, 0)
  }

  /** The status payments and readiness call for. */
  function Target(w: World, id: nat): Status
    requires Shaped(w) && id < |w.bookings|
  {
    DerivedStatus(w.bookings[id], ReadinessOk(w.bookings[id], w.dossiers[id]))
  }

  /** A family booking sits exactly on its derived status. */
  predicate Settled(w: World, id: nat)
    requires Shaped(w) && id < |w.bookings|
  {
    w.bookings[id].status.InFamily() ==> w.bookings[id].status == Target(w, id)
  }

  function Rederive(w: World, id: nat, now: int): (r: Result<World, Failure>)
    requires Shaped(w) && id < |w.bookings|
    ensures r.Ok? ==> |r.value.bookings| == |w.bookings| && r.value.dossiers == w.dossiers
  {
    if Settled(w, id) then Ok(w) else Apply(w, id, DerivedChange(Target(w, id), now))
  }

  // ---------- commands ----------

  datatype Command =
    | CreateDraft(customer: Option<nat>, departure: Option<nat>, pax: int, party: nat, total: int)
    | Update(id: nat, pax: int, total: int)
    | ChangeStatus(id: nat, to: Status, reason: string, hold: Option<int>, isOverride: bool, now: int, today: int)
    | Recompute(id: nat, now: int)
    | ExpireHold(id: nat, now: int)
    | MarkTravelled(id: nat, now: int, today: int)
    | AddParticipant(id: nat, now: int)
    | UpdateParticipant(id: nat, participant: nat, now: int)
    | RemoveParticipant(id: nat, participant: nat)
    | SetChecklistItem(id: nat, item: nat, completed: bool, now: int)
    | OverrideReadiness(id: nat, reason: string, now: int)
    | ExtendHold(id: nat, until: int, now: int)
    // Writes of other services between two booking commands.
    | MoneyMoved(id: nat, collected: int, balance: int)
    | DocumentsReviewed(id: nat, missing: nat)
    | RecomputeCapacity(departure: Option<nat>)
    | EditDeparture(departure: Option<nat>, edit: DepartureEdit)

  /** The fields a departure edit sets, if any; closing sales and marking a departure full are edits too. */
  datatype DepartureEdit = DepartureEdit(
    capacity: Option<int>, oversell: Option<bool>, active: Option<bool>, salesClosed: Option<bool>,
    departDay: Option<int>)

  function Given<T>(field: Option<T>, stored: T): T { if field.Some? then field.value else stored }

  function Edited(d: Departure, e: DepartureEdit): Departure {
    Departure(Given(e.capacity, d.capacity), d.sold, Given(e.oversell, d.oversell), Given(e.active, d.active),
              Given(e.salesClosed, d.salesClosed), Given(e.departDay, d.departDay))
  }

  /** A capacity below the stored counter is refused while the departure may not oversell. */
  predicate EditRefused(d: Departure, e: DepartureEdit) {
    e.capacity.Some? && e.capacity.value < d.sold && !d.oversell
  }

  predicate ForDeparture(cmd: Command) { cmd.RecomputeCapacity? || cmd.EditDeparture? }

  /** Commands of the departure desk. */
  function DepartureStep(w: World, cmd: Command): Result<World, Failure>
    requires ForDeparture(cmd)
  {
    if cmd.departure.None? || cmd.departure.value !in w.departures then Err(NotFound)
    else
      var dep := cmd.departure.value;
      var d := w.departures[dep];
      match cmd
      case RecomputeCapacity(_) => Ok(w.(departures := w.departures[dep := d.(sold := SeatsHeld(w.bookings, dep))]))
      case EditDeparture(_, edit) =>
        if EditRefused(d, edit) then Err(Validation)
        else Ok(w.(departures := w.departures[dep := Edited(d, edit)]))
  }

  function Max0(n: int): int { if n < 0 then 0 else n }

  function Drafted(w: World, b: Booking, party: nat): World {
    w.(bookings := w.bookings + [b], dossiers := w.dossiers + [Dossier(party, DEFAULT_CHECKLIST, 0, false)])
  }

  function WithDossier(w: World, id: nat, d: Dossier): World
    requires id < |w.dossiers|
  {
    w.(dossiers := w.dossiers[id := d])
  }

  predicate FilesDossier(cmd: Command) {
    cmd.AddParticipant? || cmd.SetChecklistItem? || cmd.OverrideReadiness?
  }

  /** The dossier after a command that changes it and then re-derives the status. */
  function FiledDossier(d: Dossier, cmd: Command): Dossier
    requires FilesDossier(cmd)
    requires cmd.SetChecklistItem? ==> cmd.item < |d.checklist|
  {
    match cmd
    case AddParticipant(_, _) => d.(participants := d.participants + 1)
    case SetChecklistItem(_, item, completed, _) =>
      d.(checklist := d.checklist[item := d.checklist[item].(completed := completed)])
    case OverrideReadiness(_, _, _) => d.(overridden := true)
  }

  /** A user's change and the re-derivation after it, in one unit of work. */
  function Transitioned(w: World, id: nat, c: Change): (r: Result<World, Failure>)
    requires Shaped(w) && id < |w.bookings|
    ensures r.Ok? ==> |r.value.bookings| == |w.bookings| && r.value.dossiers == w.dossiers
  {
    match Apply(w, id, c)
    case Err(e) => Err(e)
    case Ok(w1) => Rederive(w1, id, c.now)
  }

  /** One booking of the hold-expiry job. */
  function HoldExpired(w: World, id: nat, now: int): (r: Result<World, Failure>)
    requires Shaped(w) && id < |w.bookings|
    ensures r.Ok? ==> |r.value.bookings| == |w.bookings| && r.value.dossiers == w.dossiers
  {
    var b := w.bookings[id];
    if !b.status.OptionHold? || b.hold.None? || now < b.hold.value then Ok(w)
    else Apply(w, id, Change(Draft, System, "hold_expired", None, now, 0))
  }

  /** One booking of the travelled job; a departure not yet reached is no failure. */
  function TravelMarked(w: World, id: nat, now: int, today: int): (r: Result<World, Failure>)
    requires Shaped(w) && id < |w.bookings|
    ensures r.Ok? ==> |r.value.bookings| == |w.bookings| && r.value.dossiers == w.dossiers
  {
    if !w.bookings[id].status.InFamily() then Ok(w)
    else
      match Apply(w, id, Change(Travelled, System, "departed", None, now, today))
      case Err(e) => if e == GuardFailed([DepartureNotReached]) then Ok(w) else Err(e)
      case Ok(w1) => Ok(w1)
  }

  function Step(w: World, cmd: Command): Result<World, Failure>
    requires Shaped(w)
  {
    if cmd.CreateDraft? then
      // Participants given with the draft set its pax.
      var pax := if cmd.party > 0 then cmd.party else cmd.pax;
      if pax <= 0 || cmd.customer.None? || cmd.departure.None? then Err(Validation)
      else if cmd.departure.value !in w.departures then Err(NotFound)
      else Ok(Drafted(w, Booking(cmd.customer, cmd.departure.value, Draft, pax, cmd.total, 0,
                                 Max0(cmd.total), None, "", false), cmd.party))
    else if ForDeparture(cmd) then DepartureStep(w, cmd)
    else if cmd.id >= |w.bookings| then Err(NotFound)
    else
      var b := w.bookings[cmd.id];
      var d := w.dossiers[cmd.id];
      match cmd
      case Update(id, pax, total) =>
        if !b.status.Editable() then Err(InvalidState)
        else if pax <= 0 || total < 0 then Err(Validation)
        else Ok(w.(bookings := w.bookings[id := b.(pax := pax, total := total, balance := Max0(total - b.collected))]))
      case ChangeStatus(id, to, reason, hold, isOverride, now, today) =>
        Transitioned(w, id, Change(to, if isOverride then Override else User, reason, hold, now, today))
      case Recompute(id, now) => Rederive(w, id, now)
      case ExpireHold(id, now) => HoldExpired(w, id, now)
      case MarkTravelled(id, now, today) => TravelMarked(w, id, now, today)
      case AddParticipant(id, now) =>
        if b.status.Terminal() then Err(InvalidState)
        else if d.participants >= b.pax then Err(Conflict)
        else Rederive(WithDossier(w, id, FiledDossier(d, cmd)), id, now)
      case UpdateParticipant(id, participant, now) =>
        if b.status.Terminal() then Err(InvalidState)
        else if participant >= d.participants then Err(NotFound)
        else Rederive(w, id, now)
      case RemoveParticipant(id, participant) =>
        if !b.status.Editable() then Err(InvalidState)
        else if participant >= d.participants then Err(NotFound)
        else Ok(WithDossier(w, id, d.(participants := d.participants - 1)))
      case SetChecklistItem(id, item, completed, now) =>
        if item >= |d.checklist| then Err(NotFound)
        else Rederive(WithDossier(w, id, FiledDossier(d, cmd)), id, now)
      case OverrideReadiness(id, reason, now) =>
        if |Trim(reason)| < MIN_OVERRIDE_REASON then Err(Validation)
        else if b.status.Terminal() then Err(InvalidState)
        else Rederive(WithDossier(w, id, FiledDossier(d, cmd)), id, now)
      case ExtendHold(id, until, now) =>
        if !b.status.OptionHold? || b.hold.None? then Err(InvalidState)
        else if until <= now || until <= b.hold.value || until - now > MAX_HOLD_SECONDS then Err(Validation)
        else Ok(w.(bookings := w.bookings[id := b.(hold := Some(until))]))
      case MoneyMoved(id, collected, balance) =>
        Ok(w.(bookings := w.bookings[id := b.(collected := collected, balance := balance)]))
      case DocumentsReviewed(id, missing) => Ok(WithDossier(w, id, d.(missingDocs := missing)))
  }

  // ---------- what every run keeps ----------

  /** Status of a booking as told by its audit rows alone. */
  function AuditedStatus(a: seq<AuditRow>, id: nat): Status {
    if a == [] then Draft
    else if a[|a| - 1].booking == id then a[|a| - 1].to
    else AuditedStatus(a[..|a| - 1], id)
  }

  /** Seats of a departure as told by its seat-changing audit rows alone. */
  function AuditedSeats(a: seq<AuditRow>, dep: nat): int {
    if a == [] then 0
    else
      var r := a[|a| - 1];
      if r.departure == dep && r.seats.Some? then r.seats.value.1 else AuditedSeats(a[..|a| - 1], dep)
  }

  /** Row `r` continues trail `a`: it starts where the booking stood, takes a legal edge, and its seat
      figures start where the departure stood and move by the booking's pax. */
  predicate Continues(a: seq<AuditRow>, r: AuditRow) {
    && r.from == AuditedStatus(a, r.booking)
    && CanTransition(r.from, r.to, r.actor)
    && (r.seats.Some? <==> !SeatChangeFor(r.from, r.to).SeatNone?)
    && (r.seats.Some? ==>
          && r.seats.value.0 == AuditedSeats(a, r.departure)
          && r.seats.value.1 ==
               r.seats.value.0 + (if SeatChangeFor(r.from, r.to).SeatAcquire? then r.pax as int else -(r.pax as int)))
  }

  predicate UnbrokenTrail(a: seq<AuditRow>) {
    a == [] || (UnbrokenTrail(a[..|a| - 1]) && Continues(a[..|a| - 1], a[|a| - 1]))
  }

  function EventsOf(a: seq<AuditRow>): seq<Event> {
    if a == [] then [] else EventsOf(a[..|a| - 1]) + RowEvents(a[|a| - 1])
  }

  ghost predicate SeatsExact(w: World) {
    forall dep :: dep in w.departures ==> w.departures[dep].sold == SeatsHeld(w.bookings, dep)
  }

  /** The departure is allowed to oversell or has seats for all it holds. */
  predicate Within(w: World, dep: nat) {
    dep in w.departures && (w.departures[dep].oversell || SeatsHeld(w.bookings, dep) <= w.departures[dep].capacity)
  }

  /** No departure became oversold. */
  ghost predicate KeepsCaps(w: World, w1: World) {
    forall dep :: Within(w, dep) ==> Within(w1, dep)
  }

  ghost predicate TrailExact(w: World) {
    && UnbrokenTrail(w.audit)
    && (forall r :: r in w.audit ==> r.booking < |w.bookings|)
    && (forall id :: 0 <= id < |w.bookings| ==> AuditedStatus(w.audit, id) == w.bookings[id].status)
    && (forall dep :: AuditedSeats(w.audit, dep) == SeatsHeld(w.bookings, dep))
    && w.events == EventsOf(w.audit)
  }

  ghost predicate Inv(w: World) {
    && Shaped(w)
    && (forall id :: 0 <= id < |w.bookings| ==> WellFormed(w.bookings[id]))
    && SeatsExact(w)
    && TrailExact(w)
  }

  /** No bookings yet, and departures with nothing sold. */
  ghost predicate Initial(w: World) {
    && w.bookings == [] && w.dossiers == [] && w.audit == [] && w.events == []
    && forall dep :: dep in w.departures ==> w.departures[dep].sold == 0 <= w.departures[dep].capacity
  }

  /** Failed commands leave the state alone. */
  function Run(w: World, cmds: seq<Command>): (r: World)
    requires Shaped(w)
    ensures Shaped(r)
    decreases |cmds|
  {
    if cmds == [] then w
    else
      var r := Step(w, cmds[0]);
      Run(if r.Ok? then StepShaped(w, cmds[0]); r.value else w, cmds[1..])
  }

  lemma StepShaped(w: World, cmd: Command)
    requires Shaped(w)
    ensures Step(w, cmd).Ok? ==> Shaped(Step(w, cmd).value)
  {}

  lemma {:induction false} AuditedStatusUntouched(a: seq<AuditRow>, id: nat)
    requires forall r :: r in a ==> r.booking != id
    ensures AuditedStatus(a, id) == Draft
  {
    if a != [] {
      AuditedStatusUntouched(a[..|a| - 1], id);
    }
  }

  lemma CommittedKeepsTrail(w: World, id: nat, b: Booking, actor: Actor)
    requires Inv(w) && id < |w.bookings|
    requires b.pax == w.bookings[id].pax && b.departure == w.bookings[id].departure
    requires CanTransition(w.bookings[id].status, b.status, actor)
    ensures TrailExact(Committed(w, id, b, actor))
  {
    var w1 := Committed(w, id, b, actor);
    var row := w1.audit[|w.audit|];
    assert w1.audit[..|w.audit|] == w.audit;
    forall dep
      ensures AuditedSeats(w1.audit, dep) == SeatsHeld(w1.bookings, dep)
    {
      SeatsHeldUpdate(w.bookings, id, b, dep);
    }
    SeatsHeldUpdate(w.bookings, id, b, row.departure);
    assert Continues(w.audit, row);
  }

  /** An accepted change that takes seats found room for them, whoever asked. */
  lemma AcceptedFits(w: World, id: nat, c: Change)
    requires Shaped(w) && id < |w.bookings| && Apply(w, id, c).Ok?
    requires SeatsExact(w)
    ensures var (b, dep) := (w.bookings[id], w.bookings[id].departure);
      SeatChangeFor(b.status, c.to).SeatAcquire? ==>
        dep in w.departures &&
        (w.departures[dep].oversell || SeatsHeld(w.bookings, dep) + b.pax <= w.departures[dep].capacity)
  {
    var prev, req := w.bookings[id], RequestFor(w, id, c);
    if SeatChangeFor(prev.status, c.to).SeatAcquire? {
      AcquireNeedsCapacity(prev, req);
    }
  }

  /** A status change accepted by the rules keeps every run invariant. */
  lemma ApplyKeepsInv(w: World, id: nat, c: Change)
    requires Inv(w) && id < |w.bookings| && Apply(w, id, c).Ok?
    ensures Inv(Apply(w, id, c).value) && KeepsCaps(w, Apply(w, id, c).value)
  {
    var prev, req := w.bookings[id], RequestFor(w, id, c);
    var b := Transition(prev, req).value;
    var w1 := Apply(w, id, c).value;
    TransitionKeepsWellFormed(prev, req);
    CommittedKeepsTrail(w, id, b, c.actor);
    AcceptedFits(w, id, c);
    forall dep | dep in w1.departures
      ensures w1.departures[dep].sold == SeatsHeld(w1.bookings, dep)
      ensures Within(w, dep) ==> Within(w1, dep)
    {
      SeatsHeldUpdate(w.bookings, id, b, dep);
    }
  }

  /** `rederive` always finds a legal, guard-free edge, and one move settles the booking. */
  lemma RederiveSettles(w: World, id: nat, now: int)
    requires Shaped(w) && id < |w.bookings|
    ensures Rederive(w, id, now).Ok?
    ensures var w1 := Rederive(w, id, now).value; Shaped(w1) && id < |w1.bookings| && Settled(w1, id)
  {
    if !Settled(w, id) {
      var req := RequestFor(w, id, DerivedChange(Target(w, id), now));
      DerivedMoveAccepted(w.bookings[id], req);
    }
  }

  lemma RederiveKeepsInv(w: World, id: nat, now: int)
    requires Inv(w) && id < |w.bookings|
    ensures Rederive(w, id, now).Ok?
    ensures Inv(Rederive(w, id, now).value) && KeepsCaps(w, Rederive(w, id, now).value)
  {
    RederiveSettles(w, id, now);
    if !Settled(w, id) {
      ApplyKeepsInv(w, id, DerivedChange(Target(w, id), now));
    }
  }

  /** Editing fields other than status, and pax only outside seat-holding statuses, keeps the invariants. */
  lemma EditKeepsInv(w: World, id: nat, b: Booking)
    requires Inv(w) && id < |w.bookings|
    requires b.status == w.bookings[id].status && b.departure == w.bookings[id].departure && WellFormed(b)
    requires b.pax == w.bookings[id].pax || !b.status.ConsumesSeat()
    ensures var w1 := w.(bookings := w.bookings[id := b]); Inv(w1) && KeepsCaps(w, w1)
  {
    forall dep
      ensures SeatsHeld(w.bookings[id := b], dep) == SeatsHeld(w.bookings, dep)
    {
      SeatsHeldUpdate(w.bookings, id, b, dep);
    }
  }

  lemma DraftKeepsInv(w: World, b: Booking, party: nat)
    requires Inv(w) && WellFormed(b) && b.status.Draft?
    ensures Inv(Drafted(w, b, party)) && KeepsCaps(w, Drafted(w, b, party))
  {
    var w1 := Drafted(w, b, party);
    forall dep
      ensures SeatsHeld(w1.bookings, dep) == SeatsHeld(w.bookings, dep)
    {
      SeatsHeldAppend(w.bookings, b, dep);
    }
    AuditedStatusUntouched(w.audit, |w.bookings|);
  }

  /** Dossiers feed readiness only. */
  lemma DossierKeepsInv(w: World, id: nat, d: Dossier)
    requires Inv(w) && id < |w.bookings|
    ensures Inv(WithDossier(w, id, d)) && KeepsCaps(w, WithDossier(w, id, d))
  {}

  predicate StatusCommand(cmd: Command) {
    cmd.ChangeStatus? || cmd.ExpireHold? || cmd.MarkTravelled?
  }

  lemma ChangeStatusKeepsInv(w: World, cmd: Command)
    requires Inv(w) && cmd.ChangeStatus? && Step(w, cmd).Ok?
    ensures Inv(Step(w, cmd).value) && KeepsCaps(w, Step(w, cmd).value)
  {
    var actor := if cmd.isOverride then Override else User;
    var c := Change(cmd.to, actor, cmd.reason, cmd.hold, cmd.now, cmd.today);
    ApplyKeepsInv(w, cmd.id, c);
    RederiveKeepsInv(Apply(w, cmd.id, c).value, cmd.id, cmd.now);
  }

  lemma StatusCommandKeepsInv(w: World, cmd: Command)
    requires Inv(w) && StatusCommand(cmd) && Step(w, cmd).Ok?
    ensures Inv(Step(w, cmd).value) && KeepsCaps(w, Step(w, cmd).value)
  {
    if cmd.ChangeStatus? {
      ChangeStatusKeepsInv(w, cmd);
    } else {
      var c :=
        if cmd.ExpireHold? then Change(Draft, System, "hold_expired", None, cmd.now, 0)
        else Change(Travelled, System, "departed", None, cmd.now, cmd.today);
      if Apply(w, cmd.id, c).Ok? {
        ApplyKeepsInv(w, cmd.id, c);
      }
    }
  }

  /** Commands that end in the re-derivation, with or without a change of the dossier before it. */
  lemma RederivingCommandKeepsInv(w: World, cmd: Command)
    requires Inv(w) && (FilesDossier(cmd) || cmd.Recompute? || cmd.UpdateParticipant?) && Step(w, cmd).Ok?
    ensures Inv(Step(w, cmd).value) && KeepsCaps(w, Step(w, cmd).value)
  {
    var d := w.dossiers[cmd.id];
    if FilesDossier(cmd) {
      FiledStep(w, cmd);
      d := FiledDossier(d, cmd);
    } else {
      assert WithDossier(w, cmd.id, d) == w;
    }
    assert Step(w, cmd) == Rederive(WithDossier(w, cmd.id, d), cmd.id, cmd.now);
    FileAndRederiveKeepsInv(w, cmd.id, d, cmd.now);
  }

  lemma FiledStep(w: World, cmd: Command)
    requires Shaped(w) && FilesDossier(cmd) && Step(w, cmd).Ok?
    ensures cmd.id < |w.bookings| && (cmd.SetChecklistItem? ==> cmd.item < |w.dossiers[cmd.id].checklist|)
    ensures Step(w, cmd) == Rederive(WithDossier(w, cmd.id, FiledDossier(w.dossiers[cmd.id], cmd)), cmd.id, cmd.now)
  {}

  lemma FileAndRederiveKeepsInv(w: World, id: nat, d: Dossier, now: int)
    requires Inv(w) && id < |w.bookings|
    ensures var r := Rederive(WithDossier(w, id, d), id, now); r.Ok? ==> Inv(r.value) && KeepsCaps(w, r.value)
  {
    DossierKeepsInv(w, id, d);
    RederiveKeepsInv(WithDossier(w, id, d), id, now);
  }

  /** Commands that rewrite fields of one booking other than its status. */
  lemma FieldCommandKeepsInv(w: World, cmd: Command)
    requires Inv(w) && (cmd.Update? || cmd.MoneyMoved? || cmd.ExtendHold?) && Step(w, cmd).Ok?
    ensures Inv(Step(w, cmd).value) && KeepsCaps(w, Step(w, cmd).value)
  {
    EditKeepsInv(w, cmd.id, Step(w, cmd).value.bookings[cmd.id]);
  }

  lemma EditCommandKeepsInv(w: World, cmd: Command)
    requires Inv(w) && !StatusCommand(cmd) && !ForDeparture(cmd) && Step(w, cmd).Ok?
    ensures Inv(Step(w, cmd).value) && KeepsCaps(w, Step(w, cmd).value)
  {
    if cmd.CreateDraft? {
      DraftKeepsInv(w, Step(w, cmd).value.bookings[|w.bookings|], cmd.party);
    } else if FilesDossier(cmd) || cmd.Recompute? || cmd.UpdateParticipant? {
      RederivingCommandKeepsInv(w, cmd);
    } else if cmd.Update? || cmd.MoneyMoved? || cmd.ExtendHold? {
      FieldCommandKeepsInv(w, cmd);
    } else {
      DossierKeepsInv(w, cmd.id, Step(w, cmd).value.dossiers[cmd.id]);
    }
  }

  /** An edit that ends overselling below the seats held, or that lowers a capped capacity below them because the stored
      counter, which it is checked against, is behind. */
  predicate Uncaps(w: World, cmd: Command, dep: nat) {
    && cmd.EditDeparture? && cmd.departure == Some(dep) && dep in w.departures
    && var (d, d1, held) := (w.departures[dep], Edited(w.departures[dep], cmd.edit), SeatsHeld(w.bookings, dep));
       && !d1.oversell && d1.capacity < held
       && (d.oversell || (cmd.edit.capacity.Some? && d.sold <= cmd.edit.capacity.value < held))
  }

  /** Whatever the counters say, a departure command oversells a departure if and only if it is such an edit. */
  lemma DepartureCommandOversells(w: World, cmd: Command, dep: nat)
    requires Shaped(w) && ForDeparture(cmd) && Step(w, cmd).Ok? && Within(w, dep)
    ensures Within(Step(w, cmd).value, dep) <==> !Uncaps(w, cmd, dep)
  {}

  /** While the counters are right it takes the end of overselling. */
  lemma ExactCountersProtect(w: World, cmd: Command, dep: nat)
    requires SeatsExact(w) && Uncaps(w, cmd, dep)
    ensures w.departures[dep].oversell && !Edited(w.departures[dep], cmd.edit).oversell
  {}

  lemma DepartureCommandKeepsInv(w: World, cmd: Command)
    requires Inv(w) && ForDeparture(cmd) && Step(w, cmd).Ok?
    ensures Inv(Step(w, cmd).value)
    ensures forall dep :: Within(w, dep) ==> (Within(Step(w, cmd).value, dep) <==> !Uncaps(w, cmd, dep))
  {
    forall dep | Within(w, dep)
      ensures Within(Step(w, cmd).value, dep) <==> !Uncaps(w, cmd, dep)
    {
      DepartureCommandOversells(w, cmd, dep);
    }
  }

  /** Every committed command keeps the invariant, and makes a departure oversold if and only if it is such an edit. */
  lemma StepKeepsInv(w: World, cmd: Command)
    requires Inv(w) && Step(w, cmd).Ok?
    ensures Inv(Step(w, cmd).value)
    ensures forall dep :: Within(w, dep) ==> (Within(Step(w, cmd).value, dep) <==> !Uncaps(w, cmd, dep))
  {
    if StatusCommand(cmd) {
      StatusCommandKeepsInv(w, cmd);
    } else if ForDeparture(cmd) {
      DepartureCommandKeepsInv(w, cmd);
    } else {
      EditCommandKeepsInv(w, cmd);
    }
  }

  /** Some committed command of the run uncaps the departure. */
  predicate EverUncapped(w: World, cmds: seq<Command>, dep: nat)
    requires Shaped(w)
    decreases |cmds|
  {
    cmds != [] &&
    var r := Step(w, cmds[0]);
    if r.Ok? then StepShaped(w, cmds[0]); Uncaps(w, cmds[0], dep) || EverUncapped(r.value, cmds[1..], dep)
    else EverUncapped(w, cmds[1..], dep)
  }

  lemma {:induction false} RunKeepsInv(w: World, cmds: seq<Command>)
    requires Inv(w)
    ensures Inv(Run(w, cmds))
    ensures forall dep :: Within(w, dep) && !EverUncapped(w, cmds, dep) ==> Within(Run(w, cmds), dep)
    decreases |cmds|
  {
    if cmds != [] {
      var r := Step(w, cmds[0]);
      if r.Ok? {
        StepKeepsInv(w, cmds[0]);
        RunKeepsInv(r.value, cmds[1..]);
      } else {
        RunKeepsInv(w, cmds[1..]);
      }
    }
  }

  /** MAIN: in every state reachable by booking commands, payments, document reviews and departure edits,
      capacity_sold equals the seats held, the audit trail is an unbroken legal path whose rows give exactly the
      published events, and a capped departure is not oversold unless an edit uncapped it. Each command is one step. */
  lemma EveryRunIsSound(w: World, cmds: seq<Command>)
    requires Initial(w)
    ensures Inv(Run(w, cmds))
    ensures forall dep :: dep in w.departures && !EverUncapped(w, cmds, dep) ==> Within(Run(w, cmds), dep)
  {
    RunKeepsInv(w, cmds);
  }

  const LOOSE := World([], [], map[0 := Departure(1, 0, true, true, false, 10)], [], [])

  const PARTY := Booking(Some(0), 0, Draft, 2, 0, 0, 0, None, "", false)

  lemma PartyHeld(w: World)
    requires w.bookings == [PARTY] && |w.dossiers| == 1 && w.departures == LOOSE.departures
    ensures var r := Step(w, ChangeStatus(0, OptionHold, "", Some(1), false, 0, 0));
      && r.Ok? && r.value.bookings == [PARTY.(status := OptionHold, hold := Some(1))]
      && r.value.departures == map[0 := LOOSE.departures[0].(sold := 2)]
  {
    var c := Change(OptionHold, User, "", Some(1), 0, 0);
    var req := RequestFor(w, 0, c);
    assert Trim("") == "";
    assert Guards(PARTY, req) == [];
    var held := PARTY.(status := OptionHold, hold := Some(1));
    assert Transition(PARTY, req) == Ok(held);
    assert [PARTY][0 := held] == [held] && [held][..0] == [];
    assert SeatsHeld([held], 0) == 2;
  }

  lemma RunOfThree(w: World, a: Command, b: Command, c: Command, w1: World, w2: World, w3: World)
    requires Shaped(w) && Shaped(w1) && Shaped(w2)
    requires Step(w, a) == Ok(w1) && Step(w1, b) == Ok(w2) && Step(w2, c) == Ok(w3)
    ensures Run(w, [a, b, c]) == w3
  {
    StepShaped(w2, c);
    assert [a, b, c][1..] == [b, c] && [b, c][1..] == [c] && [c][1..] == [];
    assert Run(w2, [c]) == Run(w3, []);
    assert Run(w1, [b, c]) == Run(w2, [c]);
  }

  const TAKE_PARTY := CreateDraft(Some(0), Some(0), 0, 2, 0)

  const HOLD_PARTY := ChangeStatus(0, OptionHold, "", Some(1), false, 0, 0)

  const END_OVERSELL := EditDeparture(Some(0), DepartureEdit(None, Some(false), None, None, None))

  lemma PartyTaken()
    ensures var r := Step(LOOSE, TAKE_PARTY);
      r.Ok? && r.value.bookings == [PARTY] && |r.value.dossiers| == 1 && r.value.departures == LOOSE.departures
  {}

  lemma PartyUncapped(w: World)
    requires Shaped(w) && w.bookings == [PARTY.(status := OptionHold, hold := Some(1))]
    requires w.departures == map[0 := LOOSE.departures[0].(sold := 2)]
    ensures var r := Step(w, END_OVERSELL); r.Ok? && !Within(r.value, 0)
  {
    assert w.bookings[..0] == [];
    assert SeatsHeld(w.bookings, 0) == 2;
  }

  /** A run with such an edit: a party of two takes an option on a departure of one seat that may oversell, and then
      overselling is switched off. */
  lemma UncappingOversells()
    ensures Initial(LOOSE) && !Within(Run(LOOSE, [TAKE_PARTY, HOLD_PARTY, END_OVERSELL]), 0)
  {
    PartyTaken();
    var w1 := Step(LOOSE, TAKE_PARTY).value;
    PartyHeld(w1);
    StepShaped(w1, HOLD_PARTY);
    var w2 := Step(w1, HOLD_PARTY).value;
    PartyUncapped(w2);
    RunOfThree(LOOSE, TAKE_PARTY, HOLD_PARTY, END_OVERSELL, w1, w2, Step(w2, END_OVERSELL).value);
  }

  predicate Rederives(cmd: Command) {
    || cmd.ChangeStatus? || cmd.Recompute? || cmd.AddParticipant? || cmd.UpdateParticipant?
    || cmd.SetChecklistItem? || cmd.OverrideReadiness?
  }

  /** MAIN: once such a command commits, the booking sits on its derived status and an immediate
      recompute changes and publishes nothing. */
  lemma CommandSettles(w: World, cmd: Command, now: int)
    requires Shaped(w) && Rederives(cmd) && Step(w, cmd).Ok?
    ensures var w1 := Step(w, cmd).value;
      && Shaped(w1) && cmd.id < |w1.bookings| && Settled(w1, cmd.id)
      && Step(w1, Recompute(cmd.id, now)) == Ok(w1)
  {
    var id := cmd.id;
    var d := w.dossiers[id];
    if FilesDossier(cmd) {
      FiledStep(w, cmd);
      RederiveSettles(WithDossier(w, id, FiledDossier(d, cmd)), id, cmd.now);
    } else if cmd.ChangeStatus? {
      var actor := if cmd.isOverride then Override else User;
      var c := Change(cmd.to, actor, cmd.reason, cmd.hold, cmd.now, cmd.today);
      RederiveSettles(Apply(w, id, c).value, id, cmd.now);
    } else {
      RederiveSettles(w, id, cmd.now);
    }
  }

  // ---------- readings of the invariant ----------

  function ConfirmedEvents(evs: seq<Event>, id: nat): nat {
    if evs == [] then 0
    else (if evs[0] == BookingConfirmed(id) then 1 else 0) + ConfirmedEvents(evs[1..], id)
  }

  function FamilyEntries(a: seq<AuditRow>, id: nat): nat {
    if a == [] then 0
    else
      var r := a[|a| - 1];
      FamilyEntries(a[..|a| - 1], id) + if r.booking == id && r.to.InFamily() && !r.from.InFamily() then 1 else 0
  }

  lemma {:induction false} ConfirmedEventsConcat(x: seq<Event>, y: seq<Event>, id: nat)
    ensures ConfirmedEvents(x + y, id) == ConfirmedEvents(x, id) + ConfirmedEvents(y, id)
  {
    if x == [] {
      assert x + y == y;
    } else {
      assert (x + y)[1..] == x[1..] + y;
      ConfirmedEventsConcat(x[1..], y, id);
    }
  }

  /** Exactly one BookingConfirmed per entry into the confirmed family. */
  lemma {:induction false} OneConfirmedPerEntry(a: seq<AuditRow>, id: nat)
    ensures ConfirmedEvents(EventsOf(a), id) == FamilyEntries(a, id)
  {
    if a != [] {
      var front, r := a[..|a| - 1], a[|a| - 1];
      OneConfirmedPerEntry(front, id);
      ConfirmedEventsConcat(EventsOf(front), RowEvents(r), id);
      var evs := RowEvents(r);
      assert ConfirmedEvents(evs[1..], id) == if |evs| == 2 && evs[1] == BookingConfirmed(id) then 1 else 0;
    }
  }
}
