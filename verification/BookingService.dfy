/** The booking service as it runs: row reads, the seat recount around a status save, audit rows and
    events collected in a unit of work and published after it (internal/app/booking). Each method is
    proved to be the matching step of BookingWorld. */
module BookingService {
  import opened Prelude
  import opened BookingRules
  import opened BookingWorld
  import opened BookingAnswers

  class Service {
    var bookings: seq<Booking>
    var dossiers: seq<Dossier>
    var departures: map<nat, Departure>
    var audit: seq<AuditRow>
    var published: seq<Event>

    ghost predicate Valid()
      reads this
    {
      |bookings| == |dossiers|
    }

    /** The state of a unit of work that has collected `evs` so far. */
    ghost function Staged(evs: seq<Event>): World
      reads this
    {
      World(bookings, dossiers, departures, audit, published + evs)
    }

    ghost function State(): World
      reads this
    {
      World(bookings, dossiers, departures, audit, published)
    }

    method CountConfirmedPax(dep: nat) returns (n: nat)
      ensures n == SeatsHeld(bookings, dep)
    {
      n := 0;
      for i := 0 to |bookings|
        invariant n == SeatsHeld(bookings[..i], dep)
      {
        assert bookings[..i + 1][..i] == bookings[..i];
        if bookings[i].departure == dep && bookings[i].status.ConsumesSeat() {
          n := n + bookings[i].pax;
        }
      }
      assert bookings[..|bookings|] == bookings;
    }

    method GatherReadiness(id: nat) returns (ok: bool)
      requires Valid() && id < |bookings|
      ensures ok == ReadinessOk(bookings[id], dossiers[id])
      ensures ok <==> Prepared(bookings[id], dossiers[id])
    {
      ReadyIffPrepared(bookings[id], dossiers[id]);
      var d := dossiers[id];
      var checklist := if d.checklist == [] then DEFAULT_CHECKLIST else d.checklist;
      var incomplete := 0;
      for i := 0 to |checklist|
        invariant incomplete + Incomplete(checklist[i..]) == Incomplete(checklist)
      {
        if checklist[i].required && !checklist[i].completed {
          incomplete := incomplete + 1;
        }
      }
      ok := d.participants >= bookings[id].pax && (d.overridden || (incomplete == 0 && d.missingDocs == 0));
    }

    /** The facts the guards need, and the seat count when the change touches seats (-1 otherwise). */
    method GatherFacts(id: nat, c: Change) returns (facts: Facts, soldBefore: int)
      requires Valid() && id < |bookings|
      ensures facts == GatheredFacts(State(), id, c)
      ensures soldBefore == if TouchesSeats(bookings[id], c.to) then SeatsHeld(bookings, bookings[id].departure) else -1
    {
      var b, to := bookings[id], c.to;
      soldBefore := -1;
      if !SeatChangeFor(b.status, to).SeatNone? {
        soldBefore := CountConfirmedPax(b.departure);
      }
      facts := NO_FACTS;
      var needsDeparture := to.Travelled? || (to.ConsumesSeat() && !b.status.InFamily());
      if needsDeparture && b.departure in departures {
        var sold := if soldBefore > 0 then soldBefore else 0;
        facts := DepartureFacts(departures[b.departure], sold, b.pax, c.today);
      }
      if to.Ready? || (c.actor.System? && to.InFamily()) {
        var ok := GatherReadiness(id);
        facts := facts.(readinessOk := ok);
      }
    }

    /** Saves an accepted change: status, recounted capacity, audit row, events. */
    method SaveChange(id: nat, b': Booking, actor: Actor, soldBefore: int, evs: seq<Event>) returns (evs': seq<Event>)
      requires Valid() && id < |bookings|
      requires soldBefore ==
        if TouchesSeats(bookings[id], b'.status) then SeatsHeld(bookings, bookings[id].departure) else -1
      modifies this`bookings, this`departures, this`audit
      ensures Valid() && Staged(evs') == Committed(old(Staged(evs)), id, b', actor)
    {
      var b, to := bookings[id], b'.status;
      bookings := bookings[id := b'];
      var soldAfter: int := -1;
      if soldBefore >= 0 {
        soldAfter := CountConfirmedPax(b.departure);
        if b.departure in departures {
          departures := departures[b.departure := departures[b.departure].(sold := soldAfter)];
        }
      }
      var seats := if soldBefore >= 0 || soldAfter >= 0 then Some((soldBefore, soldAfter)) else None;
      var row := AuditRow(id, b.departure, b.pax, b.status, to, actor, seats);
      audit := audit + [row];
      evs' := evs + [StatusChanged(id, b.status, to, actor)];
      if to.InFamily() && !b.status.InFamily() {
        evs' := evs' + [BookingConfirmed(id)];
      } else if to.Cancelled? {
        evs' := evs' + [BookingCancelled(id)];
      }
      assert published + evs' == published + evs + RowEvents(row);
    }

    /** Gathers guard facts, applies the rules, keeps departure capacity in sync and audits. */
    method ApplyChange(id: nat, c: Change, evs: seq<Event>) returns (err: Option<Failure>, evs': seq<Event>)
      requires Valid() && id < |bookings|
      modifies this`bookings, this`departures, this`audit
      ensures Valid() && |bookings| == old(|bookings|)
      ensures match Apply(old(Staged(evs)), id, c)
              case Err(e) => err == Some(e) && State() == old(State()) && evs' == evs
              case Ok(w) => err == None && Staged(evs') == w
    {
      evs' := evs;
      if !c.to.Valid() {
        err := Some(Validation);
        return;
      }
      var facts, soldBefore := GatherFacts(id, c);
      var res := Transition(bookings[id], Request(c.to, c.actor, c.reason, c.hold, c.now, facts));
      if res.Err? {
        err := Some(res.error);
        return;
      }
      err := None;
      evs' := SaveChange(id, res.value, c.actor, soldBefore, evs);
    }

    method RederiveStatus(id: nat, now: int, evs: seq<Event>) returns (err: Option<Failure>, evs': seq<Event>)
      requires Valid() && id < |bookings|
      modifies this`bookings, this`departures, this`audit
      ensures Valid() && |bookings| == old(|bookings|)
      ensures err == None && Rederive(old(Staged(evs)), id, now) == Ok(Staged(evs'))
    {
      RederiveSettles(Staged(evs), id, now);
      err, evs' := None, evs;
      if !bookings[id].status.InFamily() {
        return;
      }
      var ok := GatherReadiness(id);
      var target := DerivedStatus(bookings[id], ok);
      if target == bookings[id].status {
        return;
      }
      err, evs' := ApplyChange(id, DerivedChange(target, now), evs);
    }

    method Publish(evs: seq<Event>)
      modifies this`published
      ensures published == old(published) + evs
    {
      for i := 0 to |evs|
        invariant published == old(published) + evs[..i]
      {
        published := published + [evs[i]];
      }
      assert evs[..|evs|] == evs;
    }

    method ChangeBookingStatus(
      id: nat, to: Status, reason: string, hold: Option<int>, isOverride: bool, now: int, today: int)
      returns (err: Option<Failure>)
      requires Valid()
      modifies this
      ensures Valid()
      ensures match Step(old(State()), ChangeStatus(id, to, reason, hold, isOverride, now, today))
              case Err(e) => err == Some(e) && State() == old(State())
              case Ok(w) => err == None && State() == w
    {
      if id >= |bookings| {
        return Some(NotFound);
      }
      ghost var before := State();
      assert Staged([]) == before;
      var actor := if isOverride then Override else User;
      var evs;
      err, evs := ApplyChange(id, Change(to, actor, reason, hold, now, today), []);
      if err.Some? {
        return;
      }
      err, evs := RederiveStatus(id, now, evs);
      Publish(evs);
    }

    method RecomputeStatus(id: nat, now: int) returns (err: Option<Failure>, changed: bool)
      requires Valid()
      modifies this
      ensures Valid()
      ensures match Step(old(State()), Recompute(id, now))
              case Err(e) => err == Some(e) && State() == old(State()) && !changed
              case Ok(w) => err == None && State() == w && changed == (w.events != old(published))
    {
      if id >= |bookings| {
        return Some(NotFound), false;
      }
      assert Staged([]) == State();
      var evs;
      err, evs := RederiveStatus(id, now, []);
      changed := |evs| > 0;
      Publish(evs);
    }

    /** One change of a job in a unit of work of its own, published once it is committed. */
    method ApplyAndPublish(id: nat, c: Change) returns (err: Option<Failure>)
      requires Valid() && id < |bookings|
      modifies this
      ensures Valid()
      ensures match Apply(old(State()), id, c)
              case Err(e) => err == Some(e) && State() == old(State())
              case Ok(w) => err == None && State() == w && audit != old(audit)
    {
      assert Staged([]) == State();
      var evs;
      err, evs := ApplyChange(id, c, []);
      if err.None? {
        Publish(evs);
      }
    }

    method ExpireOptionHold(id: nat, now: int) returns (err: Option<Failure>, changed: bool)
      requires Valid()
      modifies this
      ensures Valid()
      ensures match Step(old(State()), ExpireHold(id, now))
              case Err(e) => err == Some(e) && State() == old(State()) && !changed
              case Ok(w) => err == None && State() == w && changed == (w.audit != old(audit))
    {
      if id >= |bookings| {
        return Some(NotFound), false;
      }
      err, changed := None, false;
      var b := bookings[id];
      if !b.status.OptionHold? || b.hold.None? || now < b.hold.value {
        return;
      }
      err := ApplyAndPublish(id, Change(Draft, System, "hold_expired", None, now, 0));
      changed := err.None?;
    }

    method MarkBookingTravelled(id: nat, now: int, today: int) returns (err: Option<Failure>, changed: bool)
      requires Valid()
      modifies this
      ensures Valid()
      ensures match Step(old(State()), MarkTravelled(id, now, today))
              case Err(e) => err == Some(e) && State() == old(State()) && !changed
              case Ok(w) => err == None && State() == w && changed == (w.audit != old(audit))
    {
      if id >= |bookings| {
        return Some(NotFound), false;
      }
      err, changed := None, false;
      if !bookings[id].status.InFamily() {
        return;
      }
      err := ApplyAndPublish(id, Change(Travelled, System, "departed", None, now, today));
      changed := err.None?;
      if err == Some(GuardFailed([DepartureNotReached])) {
        err := None;
      }
    }

    method AddBookingParticipant(id: nat, now: int) returns (err: Option<Failure>)
      requires Valid()
      modifies this
      ensures Valid()
      ensures match Step(old(State()), AddParticipant(id, now))
              case Err(e) => err == Some(e) && State() == old(State())
              case Ok(w) => err == None && State() == w
    {
      if id >= |bookings| {
        return Some(NotFound);
      }
      if bookings[id].status.Terminal() {
        return Some(InvalidState);
      }
      if dossiers[id].participants >= bookings[id].pax {
        return Some(Conflict);
      }
      ghost var before := State();
      dossiers := dossiers[id := dossiers[id].(participants := dossiers[id].participants + 1)];
      assert Staged([]) == WithDossier(before, id, FiledDossier(before.dossiers[id], AddParticipant(id, now)));
      var evs;
      err, evs := RederiveStatus(id, now, []);
      Publish(evs);
    }
  }
}
