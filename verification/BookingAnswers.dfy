/** What the booking operations answer, said in terms of the stored rows alone (internal/app/booking,
    internal/domain/booking). */
module BookingAnswers {
  import opened Prelude
  import opened BookingRules
  import opened BookingWorld

  // ---------- derived statuses ----------

  /** Every required item is ticked; an empty checklist stands for the default one, in which nothing is. */
  predicate Ticked(items: seq<ChecklistItem>) {
    items != [] && forall i :: 0 <= i < |items| && items[i].required ==> items[i].completed
  }

  /** All travellers are named, and either readiness was overridden or the checklist is ticked and no document is
      missing. */
  predicate Prepared(b: Booking, d: Dossier) {
    b.pax <= d.participants && (d.overridden || (d.missingDocs == 0 && Ticked(d.checklist)))
  }

  lemma {:induction false} IncompleteIff(items: seq<ChecklistItem>)
    ensures Incomplete(items) == 0 <==> forall i :: 0 <= i < |items| && items[i].required ==> items[i].completed
  {
    if items != [] {
      IncompleteIff(items[1..]);
      assert forall i :: 0 < i < |items| ==> items[i] == items[1..][i - 1];
    }
  }

  lemma ReadyIffPrepared(b: Booking, d: Dossier)
    ensures ReadinessOk(b, d) <==> Prepared(b, d)
  {
    IncompleteIff(d.checklist);
    IncompleteIff(DEFAULT_CHECKLIST);
    assert DEFAULT_CHECKLIST[0].required && !DEFAULT_CHECKLIST[0].completed;
  }

  /** A booking of the family shows what its money and its dossier call for. */
  predicate ShowsDerived(b: Booking, d: Dossier) {
    b.status.Confirmed? || b.status.PartiallyPaid? || b.status.Ready? ==>
      && (b.status.Ready? <==> b.readyForced || (b.balance <= 0 && Prepared(b, d)))
      && (b.status.PartiallyPaid? <==> !b.status.Ready? && b.collected > 0)
  }

  lemma SettledShowsDerived(w: World, id: nat)
    requires Shaped(w) && id < |w.bookings|
    ensures Settled(w, id) <==> ShowsDerived(w.bookings[id], w.dossiers[id])
  {
    ReadyIffPrepared(w.bookings[id], w.dossiers[id]);
  }

  /** MAIN: after a transition, recompute, participant, checklist or readiness change, a booking of the family is ready
      exactly when that was forced or nothing is owed and everything is prepared, and of the rest it is partially paid
      exactly when money was collected. */
  lemma CommandShowsDerived(w: World, cmd: Command)
    requires Shaped(w) && Rederives(cmd) && Step(w, cmd).Ok?
    ensures var w1 := Step(w, cmd).value;
      Shaped(w1) && cmd.id < |w1.bookings| && ShowsDerived(w1.bookings[cmd.id], w1.dossiers[cmd.id])
  {
    CommandSettles(w, cmd, 0);
    SettledShowsDerived(Step(w, cmd).value, cmd.id);
  }

  // ---------- facts ----------

  /** The facts a change is judged on: the departure's own row, the seats held now, and the dossier. */
  lemma FactsGathered(w: World, id: nat, c: Change)
    requires Shaped(w) && id < |w.bookings|
    ensures var (b, f) := (w.bookings[id], RequestFor(w, id, c).facts);
      && (c.to.Travelled? || ((c.to.OptionHold? || c.to.Confirmed?) && !b.status.InFamily()) ==>
            && (f.departureFound <==> b.departure in w.departures)
            && (f.departureFound ==>
                  var d := w.departures[b.departure];
                  && (f.departureReached <==> d.departDay <= c.today)
                  && (f.salesOpen <==> d.active && !d.salesClosed)
                  && (!b.status.ConsumesSeat() && c.to.ConsumesSeat() ==>
                        (f.hasCapacity <==> d.oversell || SeatsHeld(w.bookings, b.departure) + b.pax <= d.capacity))))
      && (c.to.Ready? || (c.actor.System? && c.to.InFamily()) ==> (f.readinessOk <==> Prepared(b, w.dossiers[id])))
  {
    ReadyIffPrepared(w.bookings[id], w.dossiers[id]);
  }

  // ---------- events ----------

  /** The status changes among the events, as the rows they come from. */
  function Changes(evs: seq<Event>): seq<(nat, Status, Status, Actor)> {
    if evs == [] then []
    else
      Changes(evs[..|evs| - 1]) +
      match evs[|evs| - 1]
      case StatusChanged(booking, from, to, actor) => [(booking, from, to, actor)]
      case _ => []
  }

  function Moves(a: seq<AuditRow>): seq<(nat, Status, Status, Actor)> {
    seq(|a|, i requires 0 <= i < |a| => (a[i].booking, a[i].from, a[i].to, a[i].actor))
  }

  lemma {:induction false} ChangesConcat(x: seq<Event>, y: seq<Event>)
    ensures Changes(x + y) == Changes(x) + Changes(y)
  {
    if y == [] {
      assert x + y == x;
    } else {
      assert (x + y)[..|x + y| - 1] == x + y[..|y| - 1];
      ChangesConcat(x, y[..|y| - 1]);
    }
  }

  /** Exactly one status event per audit row, in order and with its figures. */
  lemma {:induction false} OneChangePerRow(a: seq<AuditRow>)
    ensures Changes(EventsOf(a)) == Moves(a)
  {
    if a != [] {
      var front, r := a[..|a| - 1], a[|a| - 1];
      OneChangePerRow(front);
      ChangesConcat(EventsOf(front), RowEvents(r));
      ChangesOfRow(r);
      assert Moves(a) == Moves(front) + [(r.booking, r.from, r.to, r.actor)];
    }
  }

  lemma ChangesOfRow(r: AuditRow)
    ensures Changes(RowEvents(r)) == [(r.booking, r.from, r.to, r.actor)]
  {
    var evs := RowEvents(r);
    assert evs[..1][..0] == [] && Changes([]) == [];
    assert Changes(evs[..1]) == [(r.booking, r.from, r.to, r.actor)];
    assert |evs| == 1 ==> evs[..1] == evs;
  }

  function CancelledEvents(evs: seq<Event>, id: nat): nat {
    if evs == [] then 0
    else CancelledEvents(evs[..|evs| - 1], id) + if evs[|evs| - 1] == BookingCancelled(id) then 1 else 0
  }

  function Cancellations(a: seq<AuditRow>, id: nat): nat {
    if a == [] then 0
    else
      var r := a[|a| - 1];
      Cancellations(a[..|a| - 1], id) + if r.booking == id && r.to.Cancelled? then 1 else 0
  }

  lemma {:induction false} CancelledConcat(x: seq<Event>, y: seq<Event>, id: nat)
    ensures CancelledEvents(x + y, id) == CancelledEvents(x, id) + CancelledEvents(y, id)
  {
    if y == [] {
      assert x + y == x;
    } else {
      assert (x + y)[..|x + y| - 1] == x + y[..|y| - 1];
      CancelledConcat(x, y[..|y| - 1], id);
    }
  }

  /** Exactly one BookingCancelled per row to cancelled. */
  lemma {:induction false} OneCancelledPerRow(a: seq<AuditRow>, id: nat)
    ensures CancelledEvents(EventsOf(a), id) == Cancellations(a, id)
  {
    if a != [] {
      var front, r := a[..|a| - 1], a[|a| - 1];
      OneCancelledPerRow(front, id);
      CancelledConcat(EventsOf(front), RowEvents(r), id);
      var evs := RowEvents(r);
      assert evs[..1][..0] == [] && |evs| == 1 ==> evs[..1] == evs;
      assert CancelledEvents(evs[..1], id) == 0;
    }
  }

  // ---------- drafts, edits and dossiers ----------

  /** A draft needs travellers, a customer and a known departure; it owes its total and holds no seat. */
  lemma DraftCreated(w: World, cmd: Command)
    requires Shaped(w) && cmd.CreateDraft?
    ensures Step(w, cmd).Ok? <==>
      && (cmd.party > 0 || cmd.pax > 0) && cmd.customer.Some? && cmd.departure.Some?
      && cmd.departure.value in w.departures
    ensures Step(w, cmd).Ok? ==>
      var (w1, n) := (Step(w, cmd).value, |w.bookings|);
      && |w1.bookings| == |w1.dossiers| == n + 1 && w1.bookings[..n] == w.bookings && w1.dossiers[..n] == w.dossiers
      && w1 == w.(bookings := w1.bookings, dossiers := w1.dossiers)
      && var (b, d) := (w1.bookings[n], w1.dossiers[n]);
         && b.status.Draft? && b.customer == cmd.customer && b.departure == cmd.departure.value && b.total == cmd.total
         && b.pax == (if cmd.party > 0 then cmd.party else cmd.pax) && b.collected == 0
         && b.balance >= 0 && b.balance >= b.total && (b.balance == 0 || b.balance == b.total)
         && d.participants == cmd.party && d.missingDocs == 0 && !d.overridden && !Ticked(d.checklist)
  {
    assert DEFAULT_CHECKLIST[0].required && !DEFAULT_CHECKLIST[0].completed;
  }

  /** Pax and total may change in draft and quoted only; the balance is what the total leaves open. */
  lemma BookingUpdated(w: World, id: nat, pax: int, total: int)
    requires Shaped(w)
    ensures Step(w, Update(id, pax, total)).Ok? <==>
      && id < |w.bookings| && (w.bookings[id].status.Draft? || w.bookings[id].status.Quoted?) && pax > 0 && total >= 0
    ensures Step(w, Update(id, pax, total)).Ok? ==>
      var (w1, b) := (Step(w, Update(id, pax, total)).value, w.bookings[id]);
      && |w1.bookings| == |w.bookings|
      && var b1 := w1.bookings[id];
         && b1 == b.(pax := pax, total := total, balance := b1.balance)
         && b1.balance == (if total <= b.collected then 0 else total - b.collected)
         && w1 == w.(bookings := w.bookings[id := b1])
  {}

  /** A departure edit sets the fields it gives and keeps the others and the counter; a capacity below the counter is
      refused while the departure may not oversell. */
  lemma DepartureEditApplied(w: World, dep: nat, e: DepartureEdit)
    requires Shaped(w)
    ensures Step(w, EditDeparture(Some(dep), e)).Ok? <==>
      && dep in w.departures
      && (w.departures[dep].oversell || e.capacity.None? || w.departures[dep].sold <= e.capacity.value)
    ensures Step(w, EditDeparture(Some(dep), e)).Ok? ==>
      var (w1, d) := (Step(w, EditDeparture(Some(dep), e)).value, w.departures[dep]);
      && dep in w1.departures && w1 == w.(departures := w.departures[dep := w1.departures[dep]])
      && var d1 := w1.departures[dep];
         && d1.sold == d.sold
         && (if e.capacity.Some? then d1.capacity == e.capacity.value else d1.capacity == d.capacity)
         && (if e.oversell.Some? then d1.oversell == e.oversell.value else d1.oversell == d.oversell)
         && (if e.active.Some? then d1.active == e.active.value else d1.active == d.active)
         && (if e.salesClosed.Some? then d1.salesClosed == e.salesClosed.value else d1.salesClosed == d.salesClosed)
         && (if e.departDay.Some? then d1.departDay == e.departDay.value else d1.departDay == d.departDay)
  {}

  /** A participant leaves only while the booking is a draft or quoted. */
  lemma ParticipantRemoved(w: World, id: nat, participant: nat)
    requires Shaped(w)
    ensures Step(w, RemoveParticipant(id, participant)).Ok? <==>
      && id < |w.bookings| && (w.bookings[id].status.Draft? || w.bookings[id].status.Quoted?)
      && participant < w.dossiers[id].participants
    ensures Step(w, RemoveParticipant(id, participant)).Ok? ==>
      var d := w.dossiers[id];
      Step(w, RemoveParticipant(id, participant)).value ==
      w.(dossiers := w.dossiers[id := d.(participants := d.participants - 1)])
  {}

  /** A hold is extended only on option, beyond its deadline, into the future and within 14 days. */
  lemma HoldExtended(w: World, id: nat, until: int, now: int)
    requires Shaped(w)
    ensures Step(w, ExtendHold(id, until, now)).Ok? <==>
      && id < |w.bookings| && w.bookings[id].status.OptionHold? && w.bookings[id].hold.Some?
      && w.bookings[id].hold.value < until && now < until <= now + 1_209_600
    ensures Step(w, ExtendHold(id, until, now)).Ok? ==>
      Step(w, ExtendHold(id, until, now)).value ==
      w.(bookings := w.bookings[id := w.bookings[id].(hold := Some(until))])
  {}

  /** When the dossier commands are accepted, and what they leave in the dossier of their booking. */
  lemma DossierFiled(w: World, cmd: Command)
    requires Shaped(w) && FilesDossier(cmd)
    ensures Step(w, cmd).Ok? <==>
      cmd.id < |w.bookings| &&
      var (b, d) := (w.bookings[cmd.id], w.dossiers[cmd.id]);
      match cmd
      case AddParticipant(_, _) => !b.status.Cancelled? && !b.status.Completed? && d.participants < b.pax
      case SetChecklistItem(_, item, _, _) => item < |d.checklist|
      case OverrideReadiness(_, reason, _) => !b.status.Cancelled? && !b.status.Completed? && |Trim(reason)| >= 10
    ensures Step(w, cmd).Ok? ==>
      var (w1, d) := (Step(w, cmd).value, w.dossiers[cmd.id]);
      && |w1.dossiers| == |w.dossiers|
      && (forall j :: 0 <= j < |w.dossiers| && j != cmd.id ==> w1.dossiers[j] == w.dossiers[j])
      && var d1 := w1.dossiers[cmd.id];
         && d1.missingDocs == d.missingDocs
         && d1.participants == d.participants + (if cmd.AddParticipant? then 1 else 0)
         && d1.overridden == (d.overridden || cmd.OverrideReadiness?)
         && |d1.checklist| == |d.checklist|
         && forall i :: 0 <= i < |d.checklist| ==>
              d1.checklist[i] ==
              if cmd.SetChecklistItem? && i == cmd.item then d.checklist[i].(completed := cmd.completed)
              else d.checklist[i]
  {
    if cmd.id < |w.bookings| && (cmd.SetChecklistItem? ==> cmd.item < |w.dossiers[cmd.id].checklist|) {
      RederiveSettles(WithDossier(w, cmd.id, FiledDossier(w.dossiers[cmd.id], cmd)), cmd.id, cmd.now);
    }
  }
}
