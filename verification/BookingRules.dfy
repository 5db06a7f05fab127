/** The booking lifecycle rules: statuses, edges per actor, guards and the status change itself
    (internal/domain/booking/lifecycle.go). */
module BookingRules {
  import opened Prelude

  datatype Status =
    | Draft | Quoted | OptionHold | Confirmed | PartiallyPaid | Ready | Travelled | Completed | Cancelled
    | Unknown(name: string)
  {
    predicate Valid() { !Unknown? }

    predicate ConsumesSeat() {
      OptionHold? || Confirmed? || PartiallyPaid? || Ready? || Travelled? || Completed?
    }

    predicate InFamily() { Confirmed? || PartiallyPaid? || Ready? }

    predicate Terminal() { Cancelled? || Completed? }

    predicate Editable() { Draft? || Quoted? }
  }

  datatype Actor = User | System | Override

  datatype Guard =
    | CustomerRequired | DepartureRequired | SalesClosed | NoCapacity
    | HoldExpiryRequired | HoldExpiryPast | HoldExpiryTooFar
    | ReasonRequired | OverrideReasonTooShort
    | ReadinessIncomplete | BalanceOutstanding
    | HoldNotExpired | DepartureNotReached | NotDerived
  {
    predicate Bypassable() { ReadinessIncomplete? || BalanceOutstanding? }
  }

  // Time is counted in seconds.
  const MAX_HOLD_SECONDS := 14 * 24 * 3600
  const MIN_OVERRIDE_REASON := 10

  predicate UserEdge(from: Status, to: Status) {
    match from
    case Draft => to.Quoted? || to.OptionHold? || to.Confirmed? || to.Cancelled?
    case Quoted => to.Draft? || to.OptionHold? || to.Confirmed? || to.Cancelled?
    case OptionHold => to.Quoted? || to.Confirmed? || to.Cancelled?
    case Confirmed => to.Cancelled?
    case PartiallyPaid => to.Cancelled?
    case Ready => to.Cancelled?
    case Travelled => to.Completed?
    case _ => false
  }

  predicate OverrideOnlyEdge(from: Status, to: Status) {
    (from.Confirmed? || from.PartiallyPaid?) && to.Ready?
  }

  predicate SystemEdge(from: Status, to: Status) {
    match from
    case OptionHold => to.Draft?
    case Confirmed => to.PartiallyPaid? || to.Ready? || to.Travelled?
    case PartiallyPaid => to.Confirmed? || to.Ready? || to.Travelled?
    case Ready => to.Confirmed? || to.PartiallyPaid? || to.Travelled?
    case _ => false
  }

  predicate CanTransition(from: Status, to: Status, actor: Actor) {
    match actor
    case User => UserEdge(from, to)
    case Override => UserEdge(from, to) || OverrideOnlyEdge(from, to)
    case System => SystemEdge(from, to)
  }

  datatype Booking = Booking(
    customer: Option<nat>,
    departure: nat,
    status: Status,
    pax: nat,
    total: int,
    collected: int,
    balance: int,
    hold: Option<int>,
    reason: string,
    readyForced: bool
  )

  function DeriveStatus(collected: int, balance: int, readinessOk: bool): Status {
    if readinessOk && balance <= 0 then Ready
    else if collected > 0 then PartiallyPaid
    else Confirmed
  }

  function DerivedStatus(b: Booking, readinessOk: bool): Status {
    if b.readyForced then Ready else DeriveStatus(b.collected, b.balance, readinessOk)
  }

  datatype SeatChange = SeatNone | SeatAcquire | SeatRelease

  function SeatChangeFor(from: Status, to: Status): SeatChange {
    if !from.ConsumesSeat() && to.ConsumesSeat() then SeatAcquire
    else if from.ConsumesSeat() && !to.ConsumesSeat() then SeatRelease
    else SeatNone
  }

  datatype Facts = Facts(
    departureFound: bool, salesOpen: bool, hasCapacity: bool, departureReached: bool, readinessOk: bool)

  const NO_FACTS := Facts(false, false, false, false, false)

  datatype Request = Request(to: Status, actor: Actor, reason: string, hold: Option<int>, now: int, facts: Facts)

  function When(failed: bool, g: Guard): seq<Guard> {
    if failed then [g] else []
  }

  function ReasonGuards(req: Request): seq<Guard> {
    When(req.actor.Override? && |Trim(req.reason)| < MIN_OVERRIDE_REASON, OverrideReasonTooShort) +
    When(req.to.Cancelled? && Trim(req.reason) == "", ReasonRequired)
  }

  function HoldGuards(req: Request): seq<Guard> {
    if !req.to.OptionHold? then []
    else if req.hold.None? then [HoldExpiryRequired]
    else if req.hold.value <= req.now then [HoldExpiryPast]
    else When(req.hold.value - req.now > MAX_HOLD_SECONDS, HoldExpiryTooFar)
  }

  function EntryGuards(b: Booking, req: Request): seq<Guard> {
    if !(req.to.OptionHold? || (req.to.InFamily() && !b.status.InFamily())) then []
    else
      When(b.customer.None?, CustomerRequired) +
      if !req.facts.departureFound then [DepartureRequired]
      else if !SeatChangeFor(b.status, req.to).SeatAcquire? then []
      else if !req.facts.salesOpen then [SalesClosed]
      else When(!req.facts.hasCapacity, NoCapacity)
  }

  function ActorGuards(b: Booking, req: Request): seq<Guard> {
    if req.actor.System? then
      if req.to.InFamily() then When(req.to != DerivedStatus(b, req.facts.readinessOk), NotDerived)
      else if req.to.Travelled? then When(!req.facts.departureReached, DepartureNotReached)
      else When(b.status.OptionHold? && req.to.Draft? && b.hold.Some? && req.now < b.hold.value, HoldNotExpired)
    else if req.to.Ready? then
      When(!req.facts.readinessOk, ReadinessIncomplete) + When(b.balance > 0, BalanceOutstanding)
    else []
  }

  /** Every failing guard of a request, in the order the source collects them. */
  function Guards(b: Booking, req: Request): seq<Guard> {
    ReasonGuards(req) + HoldGuards(req) + EntryGuards(b, req) + ActorGuards(b, req)
  }

  function HardGuards(gs: seq<Guard>, actor: Actor): seq<Guard> {
    if gs == [] then []
    else When(!(actor.Override? && gs[0].Bypassable()), gs[0]) + HardGuards(gs[1..], actor)
  }

  datatype Failure =
    | NotFound
    | Validation
    | InvalidState
    | Conflict
    | InvalidTransition(from: Status, to: Status)
    | GuardFailed(guards: seq<Guard>)

  /** The booking after an accepted request. */
  function Moved(b: Booking, req: Request): Booking {
    b.(status := req.to,
       reason := Trim(req.reason),
       hold := if req.to.OptionHold? then req.hold else None,
       readyForced := if req.actor.Override? && req.to.Ready? then true
                      else if !req.to.InFamily() then false
                      else b.readyForced)
  }

  /** Booking.Transition: validates a request and applies it. */
  function Transition(b: Booking, req: Request): (r: Result<Booking, Failure>)
    ensures r.Ok? ==> CanTransition(b.status, req.to, req.actor) && req.to.Valid() && b.status != req.to
    ensures r.Ok? ==> r.value.pax == b.pax && r.value.departure == b.departure
  {
    if !req.to.Valid() then Err(Validation)
    else if b.status == req.to || !CanTransition(b.status, req.to, req.actor) then
      Err(InvalidTransition(b.status, req.to))
    else
      var hard := HardGuards(Guards(b, req), req.actor);
      if hard != [] then Err(GuardFailed(hard)) else Ok(Moved(b, req))
  }

  /** What every stored booking satisfies: a hold expiry exactly while on option, and a forced
      ready only while ready. */
  predicate WellFormed(b: Booking) {
    && b.status.Valid()
    && (b.hold.Some? <==> b.status.OptionHold?)
    && (b.readyForced ==> b.status.Ready?)
  }

  lemma {:induction false} HardGuardKept(gs: seq<Guard>, actor: Actor, g: Guard)
    requires g in gs && !(actor.Override? && g.Bypassable())
    ensures g in HardGuards(gs, actor)
  {
    if gs[0] != g {
      HardGuardKept(gs[1..], actor, g);
    }
  }

  /** No actor, override included, gets past a guard that is not bypassable. */
  lemma AcceptedPassesHardGuards(b: Booking, req: Request, g: Guard)
    requires Transition(b, req).Ok? && !g.Bypassable()
    ensures g !in Guards(b, req)
  {
    if g in Guards(b, req) {
      HardGuardKept(Guards(b, req), req.actor, g);
    }
  }

  /** A seat is only ever acquired with an open departure that has room. */
  lemma AcquireNeedsCapacity(b: Booking, req: Request)
    requires Transition(b, req).Ok? && SeatChangeFor(b.status, req.to).SeatAcquire?
    ensures req.facts.departureFound && req.facts.salesOpen && req.facts.hasCapacity
  {
    AcceptedIff(b, req);
  }

  /** Holds last at most fourteen days and end in the future. */
  lemma HoldWindow(b: Booking, req: Request)
    requires Transition(b, req).Ok? && req.to.OptionHold?
    ensures req.hold.Some? && req.now < req.hold.value <= req.now + MAX_HOLD_SECONDS
  {
    var gs := HoldGuards(req);
    assert forall g :: g in gs ==> g in Guards(b, req);
    AcceptedPassesHardGuards(b, req, HoldExpiryRequired);
    AcceptedPassesHardGuards(b, req, HoldExpiryPast);
    AcceptedPassesHardGuards(b, req, HoldExpiryTooFar);
  }

  /** A system move inside the family goes exactly to the derived status. */
  lemma SystemMovesToDerived(b: Booking, req: Request)
    requires Transition(b, req).Ok? && req.actor.System? && req.to.InFamily()
    ensures req.to == DerivedStatus(b, req.facts.readinessOk)
  {
    AcceptedPassesHardGuards(b, req, NotDerived);
  }

  /** Every accepted request leaves a well-formed booking. */
  lemma TransitionKeepsWellFormed(b: Booking, req: Request)
    requires WellFormed(b) && Transition(b, req).Ok?
    ensures WellFormed(Transition(b, req).value)
  {
    if req.to.OptionHold? {
      HoldWindow(b, req);
    }
    if req.actor.System? && req.to.InFamily() {
      SystemMovesToDerived(b, req);
    }
  }

  /** From anywhere in the family the system may always move to the derived status: the edge exists
      and no guard stops it. */
  lemma DerivedMoveAccepted(b: Booking, req: Request)
    requires b.status.InFamily() && req.actor.System?
    requires req.to == DerivedStatus(b, req.facts.readinessOk) && req.to != b.status
    ensures Transition(b, req) == Ok(Moved(b, req))
  {
    assert Guards(b, req) == [];
  }

  /** A lapsed hold may always be released by the system. */
  lemma LapsedHoldReleased(b: Booking, req: Request)
    requires b.status.OptionHold? && b.hold.Some? && b.hold.value <= req.now
    requires req.actor.System? && req.to.Draft?
    ensures Transition(b, req) == Ok(Moved(b, req))
  {
    assert Guards(b, req) == [];
  }

  /** A family booking whose departure day is reached may always be marked as travelled by the system. */
  lemma DepartedMoveAccepted(b: Booking, req: Request)
    requires b.status.InFamily() && req.actor.System? && req.to.Travelled? && req.facts.departureReached
    ensures Transition(b, req) == Ok(Moved(b, req))
  {
    assert Guards(b, req) == [];
  }

  // ---------- exact acceptance ----------

  /** Where each status can be reached from, target by target, as the lifecycle table lists it. */
  predicate Reaches(from: Status, to: Status, actor: Actor) {
    match to
    case Draft => if actor.System? then from.OptionHold? else from.Quoted?
    case Quoted => !actor.System? && (from.Draft? || from.OptionHold?)
    case OptionHold => !actor.System? && (from.Draft? || from.Quoted?)
    case Confirmed =>
      if actor.System? then from.PartiallyPaid? || from.Ready? else from.Draft? || from.Quoted? || from.OptionHold?
    case PartiallyPaid => actor.System? && (from.Confirmed? || from.Ready?)
    case Ready => !actor.User? && (from.Confirmed? || from.PartiallyPaid?)
    case Travelled => actor.System? && (from.Confirmed? || from.PartiallyPaid? || from.Ready?)
    case Completed => !actor.System? && from.Travelled?
    case Cancelled =>
      !actor.System? && !from.Travelled? && !from.Completed? && !from.Cancelled? && !from.Unknown?
    case Unknown(_) => false
  }

  /** The status that money and readiness call for, unless ready was forced. */
  predicate Calls(b: Booking, readinessOk: bool, to: Status) {
    match to
    case Ready => b.readyForced || (b.balance <= 0 && readinessOk)
    case PartiallyPaid => !b.readyForced && !(b.balance <= 0 && readinessOk) && b.collected > 0
    case Confirmed => !b.readyForced && !(b.balance <= 0 && readinessOk) && b.collected <= 0
    case _ => false
  }

  /** MAIN: a request is accepted exactly when the table has the edge and every condition of its target holds. An
      override needs ten characters of reason and lifts readiness and balance, nothing else. */
  lemma AcceptedIff(b: Booking, req: Request)
    ensures Transition(b, req).Ok? <==>
      && Reaches(b.status, req.to, req.actor)
      && (req.actor.Override? ==> |Trim(req.reason)| >= 10)
      && (req.to.Cancelled? ==> Trim(req.reason) != "")
      && (req.to.OptionHold? ==> req.hold.Some? && req.now < req.hold.value <= req.now + 1_209_600)
      && (req.to.OptionHold? || (req.to.Confirmed? && !req.actor.System?) ==>
            && b.customer.Some? && req.facts.departureFound
            && (b.status.OptionHold? || (req.facts.salesOpen && req.facts.hasCapacity)))
      && (req.actor.System? ==>
            match req.to
            case Travelled => req.facts.departureReached
            case Draft => b.hold.None? || b.hold.value <= req.now
            case _ => Calls(b, req.facts.readinessOk, req.to))
  {
    EdgesAsListed(b.status, req.to, req.actor);
    HardGuardsByPart(b, req);
    HoldWindowOpen(req);
    if Reaches(b.status, req.to, req.actor) {
      EntryAllowed(b, req);
      ActorAllowed(b, req);
    }
  }

  lemma EdgesAsListed(from: Status, to: Status, actor: Actor)
    ensures Reaches(from, to, actor) <==> to.Valid() && from != to && CanTransition(from, to, actor)
  {}

  lemma HoldWindowOpen(req: Request)
    ensures HoldGuards(req) == [] <==>
      (req.to.OptionHold? ==> req.hold.Some? && req.now < req.hold.value <= req.now + 1_209_600)
  {}

  lemma EntryAllowed(b: Booking, req: Request)
    requires Reaches(b.status, req.to, req.actor)
    ensures EntryGuards(b, req) == [] <==>
      (req.to.OptionHold? || (req.to.Confirmed? && !req.actor.System?) ==>
         && b.customer.Some? && req.facts.departureFound
         && (b.status.OptionHold? || (req.facts.salesOpen && req.facts.hasCapacity)))
  {}

  lemma ActorAllowed(b: Booking, req: Request)
    requires Reaches(b.status, req.to, req.actor)
    ensures req.actor.Override? || (ActorGuards(b, req) == [] <==>
      (req.actor.System? ==>
         match req.to
         case Travelled => req.facts.departureReached
         case Draft => b.hold.None? || b.hold.value <= req.now
         case _ => Calls(b, req.facts.readinessOk, req.to)))
  {}

  lemma {:induction false} HardConcat(x: seq<Guard>, y: seq<Guard>, actor: Actor)
    ensures HardGuards(x + y, actor) == HardGuards(x, actor) + HardGuards(y, actor)
  {
    if x == [] {
      assert x + y == y;
    } else {
      assert (x + y)[1..] == x[1..] + y;
      HardConcat(x[1..], y, actor);
    }
  }

  lemma {:induction false} HardGuardsKept(gs: seq<Guard>, actor: Actor)
    requires !actor.Override? || forall g :: g in gs ==> !g.Bypassable()
    ensures HardGuards(gs, actor) == gs
  {
    if gs != [] {
      HardGuardsKept(gs[1..], actor);
    }
  }

  /** No hard guard fails exactly when each part of the list is empty, the last one unless the actor overrides. */
  lemma HardGuardsByPart(b: Booking, req: Request)
    ensures HardGuards(Guards(b, req), req.actor) == [] <==>
      && (req.actor.Override? ==> |Trim(req.reason)| >= 10) && (req.to.Cancelled? ==> Trim(req.reason) != "")
      && HoldGuards(req) == [] && EntryGuards(b, req) == [] && (req.actor.Override? || ActorGuards(b, req) == [])
  {
    var why := ReasonGuards(req);
    assert Guards(b, req) == why + HoldGuards(req) + EntryGuards(b, req) + ActorGuards(b, req);
    PartsAreHard(b, req);
    HardGuardsOfParts(why, HoldGuards(req), EntryGuards(b, req), ActorGuards(b, req), req.actor);
  }

  predicate AllHard(gs: seq<Guard>) { forall g :: g in gs ==> !g.Bypassable() }

  lemma PartsAreHard(b: Booking, req: Request)
    ensures AllHard(ReasonGuards(req)) && AllHard(HoldGuards(req)) && AllHard(EntryGuards(b, req))
    ensures req.actor.Override? ==>
      forall g :: g in ActorGuards(b, req) ==> g.ReadinessIncomplete? || g.BalanceOutstanding?
    ensures ReasonGuards(req) == [] <==>
      (req.actor.Override? ==> |Trim(req.reason)| >= 10) && (req.to.Cancelled? ==> Trim(req.reason) != "")
  {}

  lemma HardGuardsOfParts(why: seq<Guard>, hold: seq<Guard>, entry: seq<Guard>, last: seq<Guard>, actor: Actor)
    requires AllHard(why) && AllHard(hold) && AllHard(entry)
    requires actor.Override? ==> forall g :: g in last ==> g.ReadinessIncomplete? || g.BalanceOutstanding?
    ensures HardGuards(why + hold + entry + last, actor) == [] <==>
      why == [] && hold == [] && entry == [] && (actor.Override? || last == [])
  {
    HardConcat(why + hold + entry, last, actor);
    HardGuardsKept(why + hold + entry, actor);
    if actor.Override? {
      BypassedAll(last);
    } else {
      HardGuardsKept(last, actor);
    }
  }

  lemma {:induction false} BypassedAll(gs: seq<Guard>)
    requires forall g :: g in gs ==> g.ReadinessIncomplete? || g.BalanceOutstanding?
    ensures HardGuards(gs, Override) == []
  {
    if gs != [] {
      assert gs[0] in gs && forall g :: g in gs[1..] ==> g in gs;
      BypassedAll(gs[1..]);
    }
  }

  /** What an accepted request changes: the status and its reason; a hold is kept with option holds only; ready stays
      forced by an override until the booking leaves the family. */
  lemma AcceptedChanges(b: Booking, req: Request)
    requires Transition(b, req).Ok?
    ensures var b' := Transition(b, req).value;
      && b'.status == req.to && b'.reason == Trim(req.reason)
      && b'.hold == (if req.to.OptionHold? then req.hold else None)
      && b'.readyForced == ((req.actor.Override? && req.to.Ready?) ||
                            (b.readyForced && (req.to.Confirmed? || req.to.PartiallyPaid? || req.to.Ready?)))
      && b' == b.(status := b'.status, reason := b'.reason, hold := b'.hold, readyForced := b'.readyForced)
  {}

  // ---------- the documented rule ----------

  /** The derived status as README.md words it. */
  function Documented(collected: int, balance: int, readinessOk: bool): Status {
    if collected == 0 then Confirmed
    else if balance <= 0 && readinessOk then Ready
    else PartiallyPaid
  }

  /** The code follows the documented rule except for a ready booking with nothing collected and nothing to pay, and
      for an unsettled one with more refunded than paid. */
  lemma DocumentedIffSomethingCollected(collected: int, balance: int, readinessOk: bool)
    ensures var settled := readinessOk && balance <= 0;
      DeriveStatus(collected, balance, readinessOk) == Documented(collected, balance, readinessOk) <==>
        !(collected == 0 && settled) && !(collected < 0 && !settled)
  {}

  /** A booking that costs nothing: the code makes it ready, the documented rule leaves it confirmed. */
  lemma FreeBookingIsReady(b: Booking)
    requires b.total == b.collected == b.balance == 0 && !b.readyForced
    ensures DerivedStatus(b, true) == Ready && Documented(b.collected, b.balance, true) == Confirmed
  {}
}
