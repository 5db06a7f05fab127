/** Overlapping payments and status changes of supplier invoices (internal/app/finance/payables.go,
    internal/app/supplier/service.go). Both read the invoice without a lock and write it later without a condition on
    its status; a change to the status an invoice already has is accepted (internal/domain/supplier/invoice.go). */
module InvoicePayments {

  datatype Status = Draft | Submitted | Approved | Paid | Void

  predicate CanTransition(from: Status, to: Status) {
    || from == to
    || (from.Draft? && (to.Submitted? || to.Void?))
    || (from.Submitted? && (to.Approved? || to.Draft? || to.Void?))
    || (from.Approved? && (to.Paid? || to.Void?))
  }

  /** Which statuses can become which, target by target; nothing leaves paid or void. */
  lemma StatusEdges(from: Status, to: Status)
    ensures CanTransition(from, to) ==
      (from == to ||
       match to
       case Draft => from.Submitted?
       case Submitted => from.Draft?
       case Approved => from.Submitted?
       case Paid => from.Approved?
       case Void => !from.Paid?)
  {}

  /** What is remembered of a payment past its read: `late`, it read the invoice after a reopening; `overtaken`, another
      payment of the invoice committed since its read. */
  datatype Past = Past(late: bool, overtaken: bool)
  {
    predicate Again() { late || overtaken }
  }

  datatype Phase =
    | Asked
    | Seen(past: Past)      // read the invoice as approved
    | Locked(past: Past)    // holds the account's row lock
    | Checked(past: Past)   // posted, and the status may become paid
    | Settled(past: Past)   // committed
    | Refused

  datatype Payment = Payment(invoice: nat, account: nat, phase: Phase)
  {
    /** Past its read and not finished. */
    predicate Open() { phase.Seen? || phase.Locked? || phase.Checked? }

    predicate HoldsAccount() { phase.Locked? || phase.Checked? }
  }

  /** A status change by hand, or an edit of the lines, which writes the status it read. `stale` is history: a payment
      of the invoice committed since the change read it. */
  datatype Edit = Edit(invoice: nat, to: Status, phase: EditPhase)

  datatype EditPhase = Wanted | Holding(stale: bool) | Ended

  /** Committed statuses and everything in flight. `reopened` is history: the invoices on which a stale change wrote a
      status other than paid. */
  datatype State = State(invoices: map<nat, Status>, payments: seq<Payment>, edits: seq<Edit>, reopened: set<nat>)

  function At(s: State, p: nat, phase: Phase): State
    requires p < |s.payments|
  {
    s.(payments := s.payments[p := s.payments[p].(phase := phase)])
  }

  function EditAt(s: State, e: nat, phase: EditPhase): State
    requires e < |s.edits|
  {
    s.(edits := s.edits[e := s.edits[e].(phase := phase)])
  }

  predicate AccountFree(s: State, account: nat) {
    forall q :: 0 <= q < |s.payments| && s.payments[q].HoldsAccount() ==> s.payments[q].account != account
  }

  /** The open payments of the invoice have been overtaken by a commit. */
  function Overtaken(ps: seq<Payment>, invoice: nat): (ps': seq<Payment>)
    ensures |ps'| == |ps|
  {
    seq(|ps|, q requires 0 <= q < |ps| =>
      if ps[q].invoice == invoice && ps[q].Open()
      then ps[q].(phase := ps[q].phase.(past := ps[q].phase.past.(overtaken := true))) else ps[q])
  }

  /** The changes of the invoice that have read it are stale now. */
  function Staled(es: seq<Edit>, invoice: nat): (es': seq<Edit>)
    ensures |es'| == |es|
  {
    seq(|es|, e requires 0 <= e < |es| =>
      if es[e].invoice == invoice && es[e].phase.Holding? then es[e].(phase := Holding(true)) else es[e])
  }

  // ---------- payments ----------

  ghost predicate Arrive(s: State, s': State, invoice: nat, account: nat) {
    s' == s.(payments := s.payments + [Payment(invoice, account, Asked)])
  }

  /** The first read, which only an approved invoice passes. */
  ghost predicate Read(s: State, s': State, p: nat)
    requires p < |s.payments|
  {
    var pay := s.payments[p];
    && pay.phase.Asked?
    && s' == At(s, p,
         if pay.invoice in s.invoices && s.invoices[pay.invoice].Approved?
         then Seen(Past(pay.invoice in s.reopened, false)) else Refused)
  }

  ghost predicate LockAccount(s: State, s': State, p: nat)
    requires p < |s.payments|
  {
    var pay := s.payments[p];
    pay.phase.Seen? && AccountFree(s, pay.account) && s' == At(s, p, Locked(pay.phase.past))
  }

  /** Books the movement, then reads the invoice again: what is approved may become paid, and so may what is paid. */
  ghost predicate Check(s: State, s': State, p: nat)
    requires p < |s.payments|
  {
    var pay := s.payments[p];
    && pay.phase.Locked? && pay.invoice in s.invoices
    && s' == At(s, p, if CanTransition(s.invoices[pay.invoice], Paid) then Checked(pay.phase.past) else Refused)
  }

  /** The update of the invoice waits for its row and has no condition on the status. */
  ghost predicate Commit(s: State, s': State, p: nat)
    requires p < |s.payments|
  {
    var pay := s.payments[p];
    && pay.phase.Checked?
    && var settled := At(s, p, Settled(pay.phase.past)).payments;
       s' == State(s.invoices[pay.invoice := Paid], Overtaken(settled, pay.invoice), Staled(s.edits, pay.invoice),
                   s.reopened)
  }

  ghost predicate Rollback(s: State, s': State, p: nat)
    requires p < |s.payments|
  {
    s.payments[p].Open() && s' == At(s, p, Refused)
  }

  ghost predicate PaymentStep(s: State, s': State, p: nat)
    requires p < |s.payments|
  {
    Read(s, s', p) || LockAccount(s, s', p) || Check(s, s', p) || Commit(s, s', p) || Rollback(s, s', p)
  }

  // ---------- status changes ----------

  ghost predicate Want(s: State, s': State, invoice: nat, to: Status) {
    s' == s.(edits := s.edits + [Edit(invoice, to, Wanted)])
  }

  ghost predicate ReadStatus(s: State, s': State, e: nat)
    requires e < |s.edits|
  {
    var edit := s.edits[e];
    && edit.phase.Wanted? && edit.invoice in s.invoices
    && s' == EditAt(s, e, if CanTransition(s.invoices[edit.invoice], edit.to) then Holding(false) else Ended)
  }

  ghost predicate WriteStatus(s: State, s': State, e: nat)
    requires e < |s.edits|
  {
    var edit := s.edits[e];
    && edit.phase.Holding?
    && s' == EditAt(s, e, Ended).(
         invoices := s.invoices[edit.invoice := edit.to],
         reopened := if edit.phase.stale && !edit.to.Paid? then s.reopened + {edit.invoice} else s.reopened)
  }

  ghost predicate EditStep(s: State, s': State) {
    || (exists invoice: nat, to: Status :: Want(s, s', invoice, to))
    || (exists e: nat :: e < |s.edits| && (ReadStatus(s, s', e) || WriteStatus(s, s', e)))
  }

  ghost predicate Next(s: State, s': State) {
    || (exists invoice: nat, account: nat :: Arrive(s, s', invoice, account))
    || (exists p: nat :: p < |s.payments| && PaymentStep(s, s', p))
    || EditStep(s, s')
  }

  // ---------- counting ----------

  /** One if the payment settled the invoice, again or for the first time. */
  function Hit(pay: Payment, invoice: nat, again: bool): nat {
    if pay.invoice == invoice && pay.phase.Settled? && pay.phase.past.Again() == again then 1 else 0
  }

  function Hits(ps: seq<Payment>, invoice: nat, again: bool): nat {
    if ps == [] then 0 else Hits(ps[..|ps| - 1], invoice, again) + Hit(ps[|ps| - 1], invoice, again)
  }

  function TimesPaid(s: State, invoice: nat): nat {
    Hits(s.payments, invoice, false) + Hits(s.payments, invoice, true)
  }

  lemma {:induction false} HitsUpdate(ps: seq<Payment>, p: nat, pay: Payment, invoice: nat, again: bool)
    requires p < |ps|
    ensures Hits(ps[p := pay], invoice, again) ==
      Hits(ps, invoice, again) - Hit(ps[p], invoice, again) + Hit(pay, invoice, again)
  {
    var n := |ps| - 1;
    if p == n {
      assert ps[p := pay][..n] == ps[..n];
    } else {
      HitsUpdate(ps[..n], p, pay, invoice, again);
      assert ps[p := pay][..n] == ps[..n][p := pay];
    }
  }

  lemma {:induction false} HitsOvertaken(ps: seq<Payment>, passed: nat, invoice: nat, again: bool)
    ensures Hits(Overtaken(ps, passed), invoice, again) == Hits(ps, invoice, again)
  {
    if ps != [] {
      var n := |ps| - 1;
      HitsOvertaken(ps[..n], passed, invoice, again);
      assert Overtaken(ps, passed)[..n] == Overtaken(ps[..n], passed);
    }
  }

  lemma HitsAppend(ps: seq<Payment>, pay: Payment, invoice: nat, again: bool)
    ensures Hits(ps + [pay], invoice, again) == Hits(ps, invoice, again) + Hit(pay, invoice, again)
  {
    assert (ps + [pay])[..|ps|] == ps;
  }

  // ---------- invariant ----------

  predicate EverPaid(s: State, invoice: nat) { Hits(s.payments, invoice, false) > 0 }

  /** Only one payment of an invoice is its first, and any other comes after it. */
  ghost predicate FirstsOk(s: State) {
    && (forall invoice :: Hits(s.payments, invoice, false) <= 1)
    && (forall invoice :: Hits(s.payments, invoice, true) > 0 ==> EverPaid(s, invoice))
  }

  /** An open payment would pay again exactly when the invoice was paid before. */
  ghost predicate PaymentsOk(s: State) {
    forall p :: 0 <= p < |s.payments| && s.payments[p].Open() ==>
      && s.payments[p].invoice in s.invoices
      && (s.payments[p].phase.past.Again() <==> EverPaid(s, s.payments[p].invoice))
  }

  /** A paid invoice shows another status only after a reopening, and a change that could do so knows. */
  ghost predicate StatusesOk(s: State) {
    && (forall invoice :: invoice in s.reopened ==> EverPaid(s, invoice))
    && (forall invoice :: invoice in s.invoices && !s.invoices[invoice].Paid? && EverPaid(s, invoice) ==>
          invoice in s.reopened)
    && (forall e :: 0 <= e < |s.edits| && s.edits[e].phase.Holding? ==>
          && (s.edits[e].phase.stale ==> EverPaid(s, s.edits[e].invoice))
          && (!s.edits[e].phase.stale && !s.edits[e].to.Paid? && EverPaid(s, s.edits[e].invoice) ==>
                s.edits[e].invoice in s.reopened))
  }

  /** Whoever read late read a reopened invoice. */
  ghost predicate LateOk(s: State) {
    forall p :: 0 <= p < |s.payments| && (s.payments[p].Open() || s.payments[p].phase.Settled?) ==>
      (s.payments[p].phase.past.late ==> s.payments[p].invoice in s.reopened)
  }

  ghost predicate Inv(s: State) { FirstsOk(s) && PaymentsOk(s) && StatusesOk(s) && LateOk(s) }

  ghost predicate SameHits(s: State, s': State) {
    forall invoice, again :: Hits(s'.payments, invoice, again) == Hits(s.payments, invoice, again)
  }

  lemma PhaseKeepsHits(s: State, p: nat, phase: Phase)
    requires p < |s.payments| && !s.payments[p].phase.Settled? && !phase.Settled?
    ensures SameHits(s, At(s, p, phase))
  {
    forall invoice, again
      ensures Hits(At(s, p, phase).payments, invoice, again) == Hits(s.payments, invoice, again)
    {
      HitsUpdate(s.payments, p, s.payments[p].(phase := phase), invoice, again);
    }
  }

  lemma CommitHits(s: State, s': State, p: nat)
    requires p < |s.payments| && Commit(s, s', p)
    ensures var pay := s.payments[p].(phase := Settled(s.payments[p].phase.past));
      forall invoice, again ::
        Hits(s'.payments, invoice, again) == Hits(s.payments, invoice, again) + Hit(pay, invoice, again)
  {
    var pay := s.payments[p].(phase := Settled(s.payments[p].phase.past));
    forall invoice, again
      ensures Hits(s'.payments, invoice, again) == Hits(s.payments, invoice, again) + Hit(pay, invoice, again)
    {
      HitsUpdate(s.payments, p, pay, invoice, again);
      HitsOvertaken(s.payments[p := pay], pay.invoice, invoice, again);
    }
  }

  /** A commit is the invoice's first payment exactly when it was neither late nor overtaken. */
  lemma CommitKeeps(s: State, s': State, p: nat)
    requires Inv(s) && p < |s.payments| && Commit(s, s', p)
    ensures Inv(s')
  {
    CommitHits(s, s', p);
    assert s.payments[p].Open();
    assert EverPaid(s', s.payments[p].invoice);
    assert forall invoice :: invoice != s.payments[p].invoice ==> (EverPaid(s', invoice) <==> EverPaid(s, invoice));
  }

  /** A payment that moves on without settling keeps the invariant if what it knows is right. */
  lemma PhaseKeeps(s: State, p: nat, phase: Phase)
    requires Inv(s) && p < |s.payments| && !s.payments[p].phase.Settled? && !phase.Settled?
    requires var pay := s.payments[p].(phase := phase);
      pay.Open() ==>
        && pay.invoice in s.invoices && (phase.past.Again() <==> EverPaid(s, pay.invoice))
        && (phase.past.late ==> pay.invoice in s.reopened)
    ensures Inv(At(s, p, phase))
  {
    PhaseKeepsHits(s, p, phase);
    assert forall invoice :: EverPaid(At(s, p, phase), invoice) <==> EverPaid(s, invoice);
  }

  lemma PaymentKeeps(s: State, s': State, p: nat)
    requires Inv(s) && p < |s.payments| && PaymentStep(s, s', p)
    ensures Inv(s')
  {
    if Commit(s, s', p) {
      CommitKeeps(s, s', p);
    } else if Read(s, s', p) {
      PhaseKeeps(s, p, s'.payments[p].phase);
    } else {
      assert s.payments[p].Open();
      PhaseKeeps(s, p, s'.payments[p].phase);
    }
  }

  lemma WriteStatusKeeps(s: State, s': State, e: nat)
    requires Inv(s) && e < |s.edits| && WriteStatus(s, s', e)
    ensures Inv(s')
  {
    assert forall invoice :: EverPaid(s', invoice) <==> EverPaid(s, invoice);
  }

  lemma ReadStatusKeeps(s: State, s': State, e: nat)
    requires Inv(s) && e < |s.edits| && ReadStatus(s, s', e)
    ensures Inv(s')
  {
    assert forall invoice :: EverPaid(s', invoice) <==> EverPaid(s, invoice);
  }

  lemma EditKeeps(s: State, s': State)
    requires Inv(s) && EditStep(s, s')
    ensures Inv(s')
  {
    if e: nat :| e < |s.edits| && WriteStatus(s, s', e) {
      WriteStatusKeeps(s, s', e);
    } else if e: nat :| e < |s.edits| && ReadStatus(s, s', e) {
      ReadStatusKeeps(s, s', e);
    }
  }

  lemma ArriveKeeps(s: State, s': State, invoice: nat, account: nat)
    requires Inv(s) && Arrive(s, s', invoice, account)
    ensures Inv(s')
  {
    forall i, again
      ensures Hits(s'.payments, i, again) == Hits(s.payments, i, again)
    {
      HitsAppend(s.payments, Payment(invoice, account, Asked), i, again);
    }
  }

  lemma NextKeeps(s: State, s': State)
    requires Inv(s) && Next(s, s')
    ensures Inv(s')
  {
    if p: nat :| p < |s.payments| && PaymentStep(s, s', p) {
      PaymentKeeps(s, s', p);
    } else if EditStep(s, s') {
      EditKeeps(s, s');
    } else {
      var invoice: nat, account: nat :| Arrive(s, s', invoice, account);
      ArriveKeeps(s, s', invoice, account);
    }
  }

  /** Nothing is in flight; some invoices may have been marked paid by hand. */
  ghost predicate IsRun(run: seq<State>) {
    && |run| > 0 && run[0].payments == [] && run[0].edits == [] && run[0].reopened == {}
    && forall i :: 0 < i < |run| ==> Next(run[i - 1], run[i])
  }

  lemma {:induction false} RunKeepsInv(run: seq<State>, i: nat)
    requires IsRun(run) && i < |run|
    ensures Inv(run[i])
  {
    if i > 0 {
      RunKeepsInv(run, i - 1);
      NextKeeps(run[i - 1], run[i]);
    }
  }

  /** A committed payment that was overtaken since its read, or read the invoice after a stale change reopened it. */
  predicate PaysAgain(s: State, p: nat) {
    p < |s.payments| && s.payments[p].phase.Settled? && s.payments[p].phase.past.Again()
  }

  lemma {:induction false} SomeHit(ps: seq<Payment>, invoice: nat)
    ensures Hits(ps, invoice, true) > 0 <==>
      exists p :: 0 <= p < |ps| && ps[p].invoice == invoice && ps[p].phase.Settled? && ps[p].phase.past.Again()
  {
    if ps != [] {
      var front, last := ps[..|ps| - 1], ps[|ps| - 1];
      SomeHit(front, invoice);
      assert forall p :: 0 <= p < |front| ==> ps[p] == front[p];
    }
  }

  /** MAIN: in every interleaving of payments and status changes an invoice is paid at most once if and only if no
      committed payment of it was overtaken by another one since its read and none read it after a reopening, that is,
      after a status change whose own read preceded a payment's commit. Every further payment is of that kind. */
  lemma PaidOnceIffNoneAgain(run: seq<State>, i: nat, invoice: nat)
    requires IsRun(run) && i < |run|
    ensures TimesPaid(run[i], invoice) <= 1 <==>
      !exists p :: 0 <= p < |run[i].payments| && run[i].payments[p].invoice == invoice && PaysAgain(run[i], p)
    ensures TimesPaid(run[i], invoice) > 0 ==> TimesPaid(run[i], invoice) == 1 + Hits(run[i].payments, invoice, true)
  {
    RunKeepsInv(run, i);
    SomeHit(run[i].payments, invoice);
    assert forall p :: 0 <= p < |run[i].payments| ==>
      (PaysAgain(run[i], p) <==> run[i].payments[p].phase.Settled? && run[i].payments[p].phase.past.Again());
  }

  /** The second kind needs a reopening: without one only overtaken payments pay again. */
  lemma LateNeedsReopening(run: seq<State>, i: nat, p: nat)
    requires IsRun(run) && i < |run| && p < |run[i].payments| && run[i].payments[p].phase.Settled?
    ensures run[i].payments[p].phase.past.late ==> run[i].payments[p].invoice in run[i].reopened
    ensures run[i].payments[p].invoice in run[i].reopened ==> TimesPaid(run[i], run[i].payments[p].invoice) > 0
  {
    RunKeepsInv(run, i);
  }

  // ---------- two runs that pay twice ----------

  /** A payment of invoice 0 from account 0 after its first n steps. */
  function PayStage(n: nat, past: Past): Payment {
    Payment(0, 0, if n == 0 then Asked else if n == 1 then Seen(past) else if n == 2 then Locked(past)
                  else if n == 3 then Checked(past) else Settled(past))
  }

  const FIRST := Past(false, false)

  lemma HitsPair(a: Payment, b: Payment, invoice: nat, again: bool)
    ensures Hits([a, b], invoice, again) == Hit(a, invoice, again) + Hit(b, invoice, again)
  {
    HitsAppend([], a, invoice, again);
    HitsAppend([a], b, invoice, again);
    assert [] + [a] == [a] && [a] + [b] == [a, b];
  }

  /** Both payments read, then one commits, then the other. The account can bear both and the supplier has no credit
      line to settle. */
  function Overlap(k: nat): State {
    var status := if k < 7 then Approved else Paid;
    var payments :=
      if k == 0 then []
      else if k == 1 then [PayStage(0, FIRST)]
      else
        var first := if k < 3 then 0 else if k < 5 then 1 else if k < 8 then k - 3 else 4;
        var second := if k < 4 then 0 else if k < 8 then 1 else k - 6;
        [PayStage(first, FIRST), PayStage(second, Past(false, k >= 7))];
    State(map[0 := status], payments, [], {})
  }

  lemma OverlapArrives()
    ensures Arrive(Overlap(0), Overlap(1), 0, 0) && Arrive(Overlap(1), Overlap(2), 0, 0)
  {
    assert Overlap(1).payments == Overlap(0).payments + [PayStage(0, FIRST)];
    assert Overlap(2).payments == Overlap(1).payments + [PayStage(0, FIRST)];
  }

  lemma OverlapReads()
    ensures Read(Overlap(2), Overlap(3), 0) && Read(Overlap(3), Overlap(4), 1)
  {}

  lemma OverlapLocks()
    ensures LockAccount(Overlap(4), Overlap(5), 0) && Check(Overlap(5), Overlap(6), 0)
    ensures LockAccount(Overlap(7), Overlap(8), 1) && Check(Overlap(8), Overlap(9), 1)
  {}

  lemma OverlapCommits()
    ensures Commit(Overlap(6), Overlap(7), 0) && Commit(Overlap(9), Overlap(10), 1)
  {
    assert Overtaken(At(Overlap(6), 0, Settled(FIRST)).payments, 0) == Overlap(7).payments;
    assert Overtaken(At(Overlap(9), 1, Settled(Past(false, true))).payments, 0) == Overlap(10).payments;
    assert Staled([], 0) == [];
  }

  lemma OverlapFollows(k: nat)
    requires 0 < k < 11
    ensures Next(Overlap(k - 1), Overlap(k))
  {
    if k <= 2 {
      OverlapArrives();
    } else {
      var p := if k == 4 || k > 7 then 1 else 0;
      if k <= 4 { OverlapReads(); } else if k == 7 || k == 10 { OverlapCommits(); } else { OverlapLocks(); }
      assert PaymentStep(Overlap(k - 1), Overlap(k), p);
    }
  }

  /** Two overlapping payments from one account both commit. */
  lemma TwicePaid() returns (run: seq<State>)
    ensures IsRun(run) && |run| == 11 && TimesPaid(run[10], 0) == 2
  {
    run := seq(11, k requires 0 <= k < 11 => Overlap(k));
    forall i | 0 < i < |run|
      ensures Next(run[i - 1], run[i])
    {
      OverlapFollows(i);
    }
    HitsPair(PayStage(4, FIRST), PayStage(4, Past(false, true)), 0, false);
    HitsPair(PayStage(4, FIRST), PayStage(4, Past(false, true)), 0, true);
  }

  /** A change from approved to approved reads, a payment commits, the change writes, and a second payment starts. */
  function Reopening(k: nat): State {
    var status := if k < 7 || 8 <= k < 13 then Approved else Paid;
    var edits :=
      if k == 0 then []
      else [Edit(0, Approved, if k == 1 then Wanted else if k < 7 then Holding(false)
                              else if k == 7 then Holding(true) else Ended)];
    var payments :=
      if k < 3 then []
      else if k < 9 then [PayStage(if k < 7 then k - 3 else 4, FIRST)]
      else [PayStage(4, FIRST), PayStage(k - 9, Past(true, false))];
    State(map[0 := status], payments, edits, if k < 8 then {} else {0})
  }

  lemma ReopeningEdits()
    ensures Want(Reopening(0), Reopening(1), 0, Approved) && ReadStatus(Reopening(1), Reopening(2), 0)
    ensures WriteStatus(Reopening(7), Reopening(8), 0)
  {}

  lemma ReopeningArrives()
    ensures Arrive(Reopening(2), Reopening(3), 0, 0) && Arrive(Reopening(8), Reopening(9), 0, 0)
  {
    assert Reopening(3).payments == Reopening(2).payments + [PayStage(0, FIRST)];
    assert Reopening(9).payments == Reopening(8).payments + [PayStage(0, FIRST)];
  }

  lemma ReopeningReads()
    ensures Read(Reopening(3), Reopening(4), 0) && Read(Reopening(9), Reopening(10), 1)
  {}

  lemma ReopeningLocks()
    ensures LockAccount(Reopening(4), Reopening(5), 0) && Check(Reopening(5), Reopening(6), 0)
    ensures LockAccount(Reopening(10), Reopening(11), 1) && Check(Reopening(11), Reopening(12), 1)
  {}

  lemma ReopeningCommits()
    ensures Commit(Reopening(6), Reopening(7), 0) && Commit(Reopening(12), Reopening(13), 1)
  {
    assert Overtaken(At(Reopening(6), 0, Settled(FIRST)).payments, 0) == Reopening(7).payments;
    assert Overtaken(At(Reopening(12), 1, Settled(Past(true, false))).payments, 0) == Reopening(13).payments;
    assert Staled(Reopening(6).edits, 0) == Reopening(7).edits;
    assert Staled(Reopening(12).edits, 0) == Reopening(13).edits;
  }

  lemma ReopeningPays(k: nat)
    requires 3 < k < 8 || 9 < k < 14
    ensures PaymentStep(Reopening(k - 1), Reopening(k), if k < 8 then 0 else 1)
  {
    if k == 4 || k == 10 {
      ReopeningReads();
    } else if k == 7 || k == 13 {
      ReopeningCommits();
    } else {
      ReopeningLocks();
    }
  }

  lemma ReopeningFollows(k: nat)
    requires 0 < k < 14
    ensures Next(Reopening(k - 1), Reopening(k))
  {
    var s, s' := Reopening(k - 1), Reopening(k);
    if k <= 2 || k == 8 {
      ReopeningEdits();
      assert EditStep(s, s');
    } else if k == 3 || k == 9 {
      ReopeningArrives();
      assert Arrive(s, s', 0, 0);
    } else {
      ReopeningPays(k);
      assert Next(s, s');
    }
  }

  /** Without any overlap of payments, a stale status change lets the invoice be paid twice. */
  lemma ReopenedAndPaidTwice() returns (run: seq<State>)
    ensures IsRun(run) && |run| == 14 && TimesPaid(run[13], 0) == 2
    ensures forall p :: 0 <= p < |run[13].payments| ==>
      run[13].payments[p].phase.Settled? && !run[13].payments[p].phase.past.overtaken
  {
    run := seq(14, k requires 0 <= k < 14 => Reopening(k));
    forall i | 0 < i < |run|
      ensures Next(run[i - 1], run[i])
    {
      ReopeningFollows(i);
    }
    HitsPair(PayStage(4, FIRST), PayStage(4, Past(true, false)), 0, false);
    HitsPair(PayStage(4, FIRST), PayStage(4, Past(true, false)), 0, true);
  }
}
