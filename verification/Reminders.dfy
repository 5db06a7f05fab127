/** Document expiry reminders with a delivery ledger (internal/app/document/service.go). */
module Reminders {
  import opened Prelude

  // Days before expiry, loosest first.
  const SLOTS: seq<nat> := [30, 14, 7]

  /** The tightest slot the days left fall into; 0 means none. */
  function Slot(daysLeft: int): nat {
    if daysLeft <= 7 then 7 else if daysLeft <= 14 then 14 else if daysLeft <= 30 then 30 else 0
  }

  /** The smallest of the slots that the days left fit into. */
  lemma SlotIsTightest(daysLeft: int)
    ensures var slot := Slot(daysLeft);
      && (slot == 0 <==> daysLeft > 30)
      && (slot != 0 ==> slot in SLOTS && daysLeft <= slot && forall s :: s in SLOTS && daysLeft <= s ==> slot <= s)
  {
    assert SLOTS[0] == 30 && SLOTS[1] == 14 && SLOTS[2] == 7;
  }

  method ReminderSlot(daysLeft: int) returns (slot: nat)
    ensures slot == Slot(daysLeft)
    ensures slot == 0 || (slot in SLOTS && daysLeft <= slot)
    ensures forall s :: s in SLOTS && daysLeft <= s ==> 0 < slot <= s
  {
    slot := 0;
    for i := 0 to |SLOTS|
      invariant i == 0 ==> slot == 0
      invariant i == 1 ==> slot == if daysLeft <= 30 then 30 else 0
      invariant i == 2 ==> slot == if daysLeft <= 14 then 14 else if daysLeft <= 30 then 30 else 0
      invariant i == 3 ==> slot == Slot(daysLeft)
    {
      if daysLeft <= SLOTS[i] {
        slot := SLOTS[i];
      }
    }
  }

  /** A document the sweep lists; `alertFails` says that delivering its alert fails this time. */
  datatype Due = Due(doc: nat, expires: int, alertFails: bool)

  datatype Reminder = Reminder(doc: nat, slot: nat, daysLeft: int)

  /** The claim ledger, the reminders delivered, and the expiries delivered. */
  datatype State = State(claims: set<(nat, nat)>, sent: seq<Reminder>, expired: seq<nat>)

  datatype Outcome = Acted | Idle | Failed

  /** One document: claim and alert commit together or not at all. */
  function Handle(s: State, d: Due, today: int): (State, Outcome) {
    var daysLeft := d.expires - today;
    var slot := Slot(daysLeft);
    if daysLeft < 0 then
      if d.alertFails then (s, Failed) else (s.(expired := s.expired + [d.doc]), Acted)
    else if slot == 0 || (d.doc, slot) in s.claims then (s, Idle)
    else if d.alertFails then (s, Failed)
    else (s.(claims := s.claims + {(d.doc, slot)}, sent := s.sent + [Reminder(d.doc, slot, daysLeft)]), Acted)
  }

  /** A sweep stops at its first failure. */
  function Sweep(s: State, due: seq<Due>, today: int): (State, bool) {
    if due == [] then (s, true)
    else
      var (s1, ok) := Sweep(s, due[..|due| - 1], today);
      if !ok then (s1, false)
      else
        var (s2, o) := Handle(s1, due[|due| - 1], today);
        (s2, !o.Failed?)
  }

  lemma {:induction false} SweepStops(s: State, due: seq<Due>, today: int, n: nat)
    requires n <= |due| && !Sweep(s, due[..n], today).1
    ensures Sweep(s, due, today) == Sweep(s, due[..n], today)
  {
    if n == |due| {
      assert due[..n] == due;
    } else {
      assert due[..|due| - 1][..n] == due[..n];
      SweepStops(s, due[..|due| - 1], today, n);
    }
  }

  method ProcessExpiryReminders(s0: State, due: seq<Due>, today: int) returns (s: State, acted: nat, ok: bool)
    ensures (s, ok) == Sweep(s0, due, today)
    ensures acted == (|s.sent| - |s0.sent|) + (|s.expired| - |s0.expired|)
  {
    s, acted, ok := s0, 0, true;
    assert due[..0] == [];
    for i := 0 to |due|
      invariant ok && (s, true) == Sweep(s0, due[..i], today)
      invariant acted == (|s.sent| - |s0.sent|) + (|s.expired| - |s0.expired|)
    {
      assert due[..i + 1][..i] == due[..i];
      var (next, outcome) := Handle(s, due[i], today);
      s := next;
      if outcome.Failed? {
        SweepStops(s0, due, today, i + 1);
        ok := false;
        return;
      }
      if outcome.Acted? {
        acted := acted + 1;
      }
    }
    assert due[..|due|] == due;
  }

  /** What a sweep leaves behind for a document it has listed. */
  predicate Served(s: State, d: Due, today: int) {
    var daysLeft := d.expires - today;
    && (daysLeft < 0 ==> d.doc in s.expired)
    && (0 <= daysLeft <= 30 ==> (d.doc, Slot(daysLeft)) in s.claims)
  }

  lemma HandleServes(s: State, d: Due, today: int)
    ensures var (s1, o) := Handle(s, d, today);
      && (!o.Failed? ==> Served(s1, d, today))
      && s.claims <= s1.claims && (forall doc :: doc in s.expired ==> doc in s1.expired)
      && (|s1.sent| > |s.sent| ==>
            s1.sent == s.sent + [Reminder(d.doc, Slot(d.expires - today), d.expires - today)] &&
            (d.doc, Slot(d.expires - today)) !in s.claims)
  {
    SlotIsTightest(d.expires - today);
  }

  /** MAIN: a sweep that does not fail has marked every listed document past its date as expired and reminded of every
      other one in the slot its days fall into, now or before. */
  lemma {:induction false} SweepServesAll(s: State, due: seq<Due>, today: int)
    ensures var (s1, ok) := Sweep(s, due, today);
      && s.claims <= s1.claims && (forall doc :: doc in s.expired ==> doc in s1.expired)
      && (ok ==> forall k :: 0 <= k < |due| ==> Served(s1, due[k], today))
  {
    if due != [] {
      var front, d := due[..|due| - 1], due[|due| - 1];
      SweepServesAll(s, front, today);
      HandleServes(Sweep(s, front, today).0, d, today);
      assert forall k :: 0 <= k < |front| ==> due[k] == front[k];
    }
  }

  // ---------- over many sweeps ----------

  /** One scheduled sweep. */
  datatype Tick = Tick(today: int, due: seq<Due>)

  function RunAll(s: State, ticks: seq<Tick>): State {
    if ticks == [] then s
    else Sweep(RunAll(s, ticks[..|ticks| - 1]), ticks[|ticks| - 1].due, ticks[|ticks| - 1].today).0
  }

  /** The last reminder sent for a document, if any. */
  function LastSlot(sent: seq<Reminder>, doc: nat): Option<nat> {
    if sent == [] then None
    else if sent[|sent| - 1].doc == doc then Some(sent[|sent| - 1].slot)
    else LastSlot(sent[..|sent| - 1], doc)
  }

  /** Every reminder of the document is in a strictly tighter slot than the one before it. */
  predicate EverTighter(sent: seq<Reminder>, doc: nat) {
    sent == [] ||
    var front, r := sent[..|sent| - 1], sent[|sent| - 1];
    && EverTighter(front, doc)
    && (r.doc == doc && LastSlot(front, doc).Some? ==> r.slot < LastSlot(front, doc).value)
  }

  /** The document always has this expiry date, and days never go back. */
  ghost predicate Fixed(ticks: seq<Tick>, doc: nat, expires: int) {
    && (forall i, k :: 0 <= i < |ticks| && 0 <= k < |ticks[i].due| && ticks[i].due[k].doc == doc ==>
          ticks[i].due[k].expires == expires)
    && (forall i, j :: 0 <= i < j < |ticks| ==> ticks[i].today <= ticks[j].today)
  }

  /** What holds about a document up to a day. */
  ghost predicate Tightening(s: State, doc: nat, expires: int, today: int) {
    && EverTighter(s.sent, doc)
    && (LastSlot(s.sent, doc).Some? ==>
          && (doc, LastSlot(s.sent, doc).value) in s.claims
          && Slot(expires - today) <= LastSlot(s.sent, doc).value)
  }

  lemma HandleTightens(s: State, d: Due, doc: nat, expires: int, today: int)
    requires Tightening(s, doc, expires, today) && (d.doc == doc ==> d.expires == expires)
    requires LastSlot(s.sent, doc).Some? ==> expires - today <= 30
    ensures var s' := Handle(s, d, today).0;
      Tightening(s', doc, expires, today) && (LastSlot(s'.sent, doc).Some? ==> expires - today <= 30)
  {
    var s' := Handle(s, d, today).0;
    if s'.sent != s.sent {
      assert s'.sent[..|s.sent|] == s.sent;
    }
  }

  lemma {:induction false} SweepTightens(s: State, due: seq<Due>, doc: nat, expires: int, today: int)
    requires Tightening(s, doc, expires, today)
    requires LastSlot(s.sent, doc).Some? ==> expires - today <= 30
    requires forall k :: 0 <= k < |due| && due[k].doc == doc ==> due[k].expires == expires
    ensures var s' := Sweep(s, due, today).0;
      Tightening(s', doc, expires, today) && (LastSlot(s'.sent, doc).Some? ==> expires - today <= 30)
  {
    if due != [] {
      var n := |due| - 1;
      SweepTightens(s, due[..n], doc, expires, today);
      var (s1, ok) := Sweep(s, due[..n], today);
      if ok {
        HandleTightens(s1, due[n], doc, expires, today);
      }
    }
  }

  /** As days pass the slot only gets tighter. */
  lemma LaterDay(s: State, doc: nat, expires: int, today: int, later: int)
    requires Tightening(s, doc, expires, today) && today <= later
    requires LastSlot(s.sent, doc).Some? ==> expires - today <= 30
    ensures Tightening(s, doc, expires, later) && (LastSlot(s.sent, doc).Some? ==> expires - later <= 30)
  {}

  /** MAIN: over any sequence of sweeps, however many fail or repeat, a document with a fixed expiry date is reminded at
      most once per slot, in ever tighter slots. */
  lemma {:induction false} RemindersTighten(ticks: seq<Tick>, doc: nat, expires: int)
    requires ticks != [] && Fixed(ticks, doc, expires)
    ensures var s := RunAll(State({}, [], []), ticks);
      && Tightening(s, doc, expires, ticks[|ticks| - 1].today)
      && (LastSlot(s.sent, doc).Some? ==> expires - ticks[|ticks| - 1].today <= 30)
  {
    var s0 := State({}, [], []);
    var n := |ticks| - 1;
    var last := ticks[n];
    if n == 0 {
      assert RunAll(s0, ticks[..n]) == s0;
    } else {
      RemindersTighten(ticks[..n], doc, expires);
      LaterDay(RunAll(s0, ticks[..n]), doc, expires, ticks[n - 1].today, last.today);
    }
    SweepTightens(RunAll(s0, ticks[..n]), last.due, doc, expires, last.today);
  }
}
