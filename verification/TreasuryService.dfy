/** The treasury and payables services: every command as a step of the office's books, and the services
    themselves, which lock an account, change it in memory and persist it row by row
    (internal/app/finance/treasury.go, payables.go). */
module TreasuryService {
  import opened Prelude
  import opened Treasury

  const MAX_FEED_ROWS := 2_000

  datatype FundingModel = Prepaid | Postpaid | Unfunded

  datatype Supplier = Supplier(branch: nat, currency: nat, model: FundingModel, deposit: int, creditUsed: int)

  datatype InvoiceStatus = Approved | Paid | OtherStatus

  datatype Invoice = Invoice(branch: nat, supplier: nat, currency: nat, total: int, status: InvoiceStatus)

  datatype Office = Office(books: Books, suppliers: map<nat, Supplier>, invoices: map<nat, Invoice>)

  datatype Command =
    | OpenAccount(id: nat, account: Account, formOk: bool, opening: int)
    | EditAccount(id: nat, commissionBps: int, active: Option<bool>, formOk: bool)
    | PostManual(id: nat, direction: string, kind: string, amount: int, givenFee: Option<int>,
                 dayOk: bool, textFits: bool, bookingOk: bool)
    | TransferMoney(from: nat, to: nat, amount: int, fee: int, dayOk: bool, textFits: bool, ref: nat)
    | ImportFeed(id: nat, rows: seq<FeedRow>)
    | PayInvoice(invoice: nat, id: nat, fee: int, textFits: bool)
    | TopUpDeposit(supplier: nat, id: nat, amount: int, fee: int, textFits: bool)
    // Writes of the supplier service.
    | SupplierWrite(suppliers: map<nat, Supplier>, invoices: map<nat, Invoice>)

  /** amount * bps / 10000, rounded half away from zero. */
  function ApplyBps(amount: int, bps: int): int {
    var p := amount * bps;
    if p >= 0 then (p + BPS / 2) / BPS else -((-p + BPS / 2) / BPS)
  }

  function PosFee(a: Account, amount: int): int {
    if !a.kind.Pos? || a.commissionBps <= 0 then 0 else ApplyBps(amount, a.commissionBps)
  }

  /** Only POS accounts carry a commission. */
  function Normalized(a: Account): Account {
    if a.kind.Pos? then a else a.(commissionBps := 0)
  }

  predicate NormalizeOk(a: Account, formOk: bool) {
    formOk && 0 <= Normalized(a).commissionBps <= MAX_COMMISSION_BPS
  }

  function OpeningDraft(amount: int): Draft {
    Draft(Some(In), Some(Adjustment), amount, 0, "", true, None)
  }

  function SupplierDraft(amount: int, fee: int, textFits: bool): Draft {
    Draft(Some(Out), Some(SupplierPayment), amount, fee, "", textFits, None)
  }

  function ManualDraft(a: Account, cmd: Command): Draft
    requires cmd.PostManual?
  {
    var fee :=
      if cmd.givenFee.Some? then cmd.givenFee.value
      else if cmd.direction == "in" && cmd.kind == "collection" then PosFee(a, cmd.amount)
      else 0;
    Draft(DirectionOf(cmd.direction), KindOf(cmd.kind), cmd.amount, fee, "", cmd.textFits, None)
  }

  function FeedGate(b: Books, id: nat, rows: seq<FeedRow>): Option<Failure> {
    if |rows| == 0 || |rows| > MAX_FEED_ROWS then Some(Validation)
    else if id !in b.accounts then Some(NotFound)
    else if !b.accounts[id].kind.Bank? && !b.accounts[id].kind.Pos? then Some(Validation)
    else if exists i :: 0 <= i < |rows| && rows[i].external == "" then Some(Validation)
    else None
  }

  /** Why an invoice cannot be paid from the account, before any money moves. */
  function PayGate(o: Office, invoice: nat, id: nat): Option<Failure> {
    if invoice !in o.invoices then Some(NotFound)
    else
      var inv := o.invoices[invoice];
      if !inv.status.Approved? || inv.total <= 0 then Some(InvalidState)
      else if inv.supplier !in o.suppliers || id !in o.books.accounts then Some(NotFound)
      else if o.books.accounts[id].currency != inv.currency || o.books.accounts[id].branch != inv.branch
      then Some(Validation)
      else None
  }

  function TopUpGate(o: Office, supplier: nat, id: nat): Option<Failure> {
    if supplier !in o.suppliers then Some(NotFound)
    else
      var sup := o.suppliers[supplier];
      if !sup.model.Prepaid? then Some(InvalidState)
      else if id !in o.books.accounts then Some(NotFound)
      else if o.books.accounts[id].currency != sup.currency || o.books.accounts[id].branch != sup.branch
      then Some(Validation)
      else None
  }

  /** What paying `inv` settles on the supplier's credit line. */
  function Settlement(sup: Supplier, inv: Invoice): int {
    if sup.model.Postpaid? && sup.currency == inv.currency && sup.creditUsed > 0
    then if inv.total < sup.creditUsed then inv.total else sup.creditUsed
    else 0
  }

  function WithBooks(o: Office, r: Result<Books, Failure>): Result<Office, Failure> {
    match r
    case Err(e) => Err(e)
    case Ok(b) => Ok(o.(books := b))
  }

  function Step(o: Office, cmd: Command): Result<Office, Failure> {
    var b := o.books;
    match cmd
    case OpenAccount(id, account, formOk, opening) =>
      if id in b.accounts then Err(Conflict)
      else if !NormalizeOk(account, formOk) || opening < 0 || opening > MAX_MONEY then Err(Validation)
      else
        var b1 := b.(accounts := b.accounts[id := Normalized(account).(balance := 0, active := true)]);
        if opening == 0 then Ok(o.(books := b1)) else WithBooks(o, Post(b1, id, OpeningDraft(opening)))
    case EditAccount(id, commissionBps, active, formOk) =>
      if id !in b.accounts then Err(NotFound)
      else
        var a := b.accounts[id].(commissionBps := commissionBps,
                                 active := if active.Some? then active.value else b.accounts[id].active);
        if !NormalizeOk(a, formOk) then Err(Validation)
        else Ok(o.(books := b.(accounts := b.accounts[id := Normalized(a)])))
    case PostManual(id, _, kind, _, _, dayOk, _, bookingOk) =>
      if !dayOk || kind == "transfer" then Err(Validation)
      else if id !in b.accounts then Err(NotFound)
      else if !ManualDraft(b.accounts[id], cmd).Valid() || !bookingOk then Err(Validation)
      else WithBooks(o, Post(b, id, ManualDraft(b.accounts[id], cmd)))
    case TransferMoney(from, to, amount, fee, dayOk, textFits, ref) =>
      if from == to || !dayOk then Err(Validation)
      else WithBooks(o, MoveBetween(b, from, to, amount, fee, textFits, ref))
    case ImportFeed(id, rows) =>
      if FeedGate(b, id, rows).Some? then Err(FeedGate(b, id, rows).value)
      else
        (match Feed(b, id, rows)
         case Err(e) => Err(e)
         case Ok(f) => Ok(o.(books := f.books)))
    case PayInvoice(invoice, id, fee, textFits) =>
      if PayGate(o, invoice, id).Some? then Err(PayGate(o, invoice, id).value)
      else
        var inv := o.invoices[invoice];
        var sup := o.suppliers[inv.supplier];
        (match Post(b, id, SupplierDraft(inv.total, fee, textFits))
         case Err(e) => Err(e)
         case Ok(b1) =>
           Ok(Office(b1, o.suppliers[inv.supplier := sup.(creditUsed := sup.creditUsed - Settlement(sup, inv))],
                     o.invoices[invoice := inv.(status := Paid)])))
    case TopUpDeposit(supplier, id, amount, fee, textFits) =>
      if TopUpGate(o, supplier, id).Some? then Err(TopUpGate(o, supplier, id).value)
      else
        var sup := o.suppliers[supplier];
        (match Post(b, id, SupplierDraft(amount, fee, textFits))
         case Err(e) => Err(e)
         case Ok(b1) =>
           Ok(o.(books := b1, suppliers := o.suppliers[supplier := sup.(deposit := sup.deposit + amount)])))
    case SupplierWrite(suppliers, invoices) => Ok(o.(suppliers := suppliers, invoices := invoices))
  }

  function Run(o: Office, cmds: seq<Command>): Office {
    if cmds == [] then o
    else
      var before := Run(o, cmds[..|cmds| - 1]);
      match Step(before, cmds[|cmds| - 1])
      case Err(_) => before
      case Ok(after) => after
  }

  /** Changing an account without its balance keeps the books explained. */
  lemma AccountEditKeeps(b: Books, id: nat, a: Account)
    requires Explained(b) && id in b.accounts && a.balance == b.accounts[id].balance && a.kind == b.accounts[id].kind
    ensures Explained(b.(accounts := b.accounts[id := a]))
  {}

  lemma NewAccountKeeps(b: Books, id: nat, a: Account)
    requires Explained(b) && id !in b.accounts && a.balance == 0
    ensures Explained(b.(accounts := b.accounts[id := a]))
  {
    SumOfStranger(b.ledger, id);
  }

  lemma StepKeepsExplained(o: Office, cmd: Command)
    requires Explained(o.books) && Step(o, cmd).Ok?
    ensures Explained(Step(o, cmd).value.books)
  {
    var b := o.books;
    match cmd
    case OpenAccount(id, account, formOk, opening) =>
      var a := Normalized(account).(balance := 0, active := true);
      NewAccountKeeps(b, id, a);
      if opening > 0 {
        PostKeepsExplained(b.(accounts := b.accounts[id := a]), id, OpeningDraft(opening));
      }
    case EditAccount(id, _, _, _) => AccountEditKeeps(b, id, Step(o, cmd).value.books.accounts[id]);
    case PostManual(id, _, _, _, _, _, _, _) => PostKeepsExplained(b, id, ManualDraft(b.accounts[id], cmd));
    case TransferMoney(from, to, amount, fee, _, textFits, ref) =>
      var out := TransferDraft(Out, amount, fee, textFits, ref);
      PostKeepsExplained(b, from, out);
      PostKeepsExplained(Post(b, from, out).value, to, TransferDraft(In, amount, 0, textFits, ref));
    case ImportFeed(id, rows) => FeedKeepsExplained(b, id, rows);
    case PayInvoice(invoice, id, fee, textFits) =>
      PostKeepsExplained(b, id, SupplierDraft(o.invoices[invoice].total, fee, textFits));
    case TopUpDeposit(_, id, amount, fee, textFits) => PostKeepsExplained(b, id, SupplierDraft(amount, fee, textFits));
    case SupplierWrite(_, _) =>
  }

  /** MAIN: whatever commands run, each account's balance is the sum of its ledger movements, every row's running
      balance is right, bank ids are booked once, and tills and wallets never go negative. */
  lemma {:induction false} EveryRunExplained(o: Office, cmds: seq<Command>)
    requires Explained(o.books)
    ensures Explained(Run(o, cmds).books)
  {
    if cmds != [] {
      EveryRunExplained(o, cmds[..|cmds| - 1]);
      var before := Run(o, cmds[..|cmds| - 1]);
      if Step(before, cmds[|cmds| - 1]).Ok? {
        StepKeepsExplained(before, cmds[|cmds| - 1]);
      }
    }
  }

  /** Paying an invoice takes total plus fee from the account, settles at most the credit used, and cannot be
      repeated. */
  lemma InvoicePaidOnce(
    o: Office, invoice: nat, id: nat, fee: int, textFits: bool, id': nat, fee': int, textFits': bool)
    requires Step(o, PayInvoice(invoice, id, fee, textFits)).Ok?
    ensures var o' := Step(o, PayInvoice(invoice, id, fee, textFits)).value;
      var inv := o.invoices[invoice];
      var sup, sup' := o.suppliers[inv.supplier], o'.suppliers[inv.supplier];
      && o'.books.accounts[id].balance == o.books.accounts[id].balance - inv.total - fee
      && sup'.creditUsed <= sup.creditUsed && sup.creditUsed - sup'.creditUsed <= inv.total
      && (sup.creditUsed >= 0 ==> sup'.creditUsed >= 0)
      && Step(o', PayInvoice(invoice, id', fee', textFits')) == Err(InvalidState)
  {}

  /** MAIN: what a payment settles: for a postpaid supplier in the invoice's currency with credit in use, the total or
      all of that credit; otherwise nothing. The invoice becomes paid, and no other supplier or invoice changes. */
  lemma PaymentSettles(o: Office, invoice: nat, id: nat, fee: int, textFits: bool)
    requires Step(o, PayInvoice(invoice, id, fee, textFits)).Ok?
    ensures var o' := Step(o, PayInvoice(invoice, id, fee, textFits)).value;
      var inv := o.invoices[invoice];
      var (sup, sup') := (o.suppliers[inv.supplier], o'.suppliers[inv.supplier]);
      && (if sup.model.Postpaid? && sup.currency == inv.currency && sup.creditUsed > 0
          then sup'.creditUsed + (if inv.total <= sup.creditUsed then inv.total else sup.creditUsed) == sup.creditUsed
          else sup'.creditUsed == sup.creditUsed)
      && sup' == sup.(creditUsed := sup'.creditUsed) && o'.suppliers == o.suppliers[inv.supplier := sup']
      && o'.invoices == o.invoices[invoice := inv.(status := Paid)]
  {}

  /** A payment is accepted exactly for an approved invoice with a positive total whose supplier is known, from an
      account of its currency and branch that bears the total and the fee. */
  lemma PaymentAcceptedIff(o: Office, invoice: nat, id: nat, fee: int, textFits: bool)
    ensures Step(o, PayInvoice(invoice, id, fee, textFits)).Ok? <==>
      && invoice in o.invoices && o.invoices[invoice].status.Approved? && o.invoices[invoice].supplier in o.suppliers
      && id in o.books.accounts && o.books.accounts[id].currency == o.invoices[invoice].currency
      && o.books.accounts[id].branch == o.invoices[invoice].branch
      && 1 <= o.invoices[invoice].total <= 1_000_000_000_000 && 0 <= fee <= o.invoices[invoice].total && textFits
      && Bears(o.books.accounts[id], -o.invoices[invoice].total - fee)
  {
    assert Trim("") == "" && Utf8Length("") == 0;
    if invoice in o.invoices {
      PostSucceedsIff(o.books, id, SupplierDraft(o.invoices[invoice].total, fee, textFits));
    }
  }

  /** A new account starts with its opening balance, explained by one adjustment, and without a commission unless it is
      a point of sale. */
  lemma OpeningBooked(o: Office, id: nat, account: Account, formOk: bool, opening: int)
    requires Step(o, OpenAccount(id, account, formOk, opening)).Ok?
    ensures var b := Step(o, OpenAccount(id, account, formOk, opening)).value.books;
      && id !in o.books.accounts && 0 <= opening
      && b.accounts == o.books.accounts[id := account.(
           balance := opening, active := true, commissionBps := if account.kind.Pos? then account.commissionBps else 0)]
      && b.ledger == o.books.ledger +
           (if opening == 0 then [] else [Movement(id, In, Adjustment, opening, 0, opening, "", None)])
  {
    assert Trim("") == "";
  }

  /** Editing an account changes its commission and whether it is active; kind, currency, branch and balance stay. */
  lemma AccountEdited(o: Office, id: nat, commissionBps: int, active: Option<bool>, formOk: bool)
    requires Step(o, EditAccount(id, commissionBps, active, formOk)).Ok?
    ensures var (b, a) := (Step(o, EditAccount(id, commissionBps, active, formOk)).value.books, o.books.accounts[id]);
      && b.ledger == o.books.ledger
      && b.accounts == o.books.accounts[id := a.(
           commissionBps := if a.kind.Pos? then commissionBps else 0,
           active := if active.None? then a.active else active.value)]
  {}

  /** A feed is imported exactly when it has 1 to 2000 rows, none with an empty id, for a bank or point-of-sale account,
      and booking its rows succeeds. */
  lemma ImportAcceptedIff(o: Office, id: nat, rows: seq<FeedRow>)
    ensures Step(o, ImportFeed(id, rows)).Ok? <==>
      && 1 <= |rows| <= 2_000 && id in o.books.accounts
      && (o.books.accounts[id].kind.Bank? || o.books.accounts[id].kind.Pos?)
      && (forall i :: 0 <= i < |rows| ==> rows[i].external != "") && Feed(o.books, id, rows).Ok?
    ensures Step(o, ImportFeed(id, rows)).Ok? ==>
      Step(o, ImportFeed(id, rows)).value == o.(books := Feed(o.books, id, rows).value.books)
  {}

  /** A top-up is accepted exactly for a prepaid supplier, from an account of its currency and branch that bears it. */
  lemma TopUpAcceptedIff(o: Office, supplier: nat, id: nat, amount: int, fee: int, textFits: bool)
    ensures Step(o, TopUpDeposit(supplier, id, amount, fee, textFits)).Ok? <==>
      && supplier in o.suppliers && o.suppliers[supplier].model.Prepaid? && id in o.books.accounts
      && o.books.accounts[id].currency == o.suppliers[supplier].currency
      && o.books.accounts[id].branch == o.suppliers[supplier].branch
      && 1 <= amount <= 1_000_000_000_000 && 0 <= fee <= amount && textFits
      && Bears(o.books.accounts[id], -amount - fee)
    ensures Step(o, TopUpDeposit(supplier, id, amount, fee, textFits)).Ok? ==>
      var (o', sup) := (Step(o, TopUpDeposit(supplier, id, amount, fee, textFits)).value, o.suppliers[supplier]);
      o'.suppliers == o.suppliers[supplier := sup.(deposit := sup.deposit + amount)] && o'.invoices == o.invoices
  {
    assert Trim("") == "" && Utf8Length("") == 0;
    PostSucceedsIff(o.books, id, SupplierDraft(amount, fee, textFits));
  }

  /** A manual post books its amount in the direction and kind that its words, trimmed and lower-cased, name. */
  lemma ManualBooks(o: Office, cmd: Command)
    requires cmd.PostManual? && Step(o, cmd).Ok?
    ensures var (o', n) := (Step(o, cmd).value, |o.books.ledger|);
      && |o'.books.ledger| == n + 1 && o'.books.ledger[..n] == o.books.ledger
      && o' == o.(books := o'.books) && o'.books.accounts.Keys == o.books.accounts.Keys
      && var m := o'.books.ledger[n];
         && m.account == cmd.id && m.amount == cmd.amount && m.transfer.None? && m.external == ""
         && Lower(Trim(cmd.direction)) == (if m.direction.In? then "in" else "out")
         && Lower(Trim(cmd.kind)) == match m.kind
            case Collection => "collection" case SupplierPayment => "supplier_payment" case Transfer => "transfer"
            case Expense => "expense" case Refund => "refund" case Adjustment => "adjustment"
  {
    assert Trim("") == "";
  }

  /** The nearest whole amount to p ten-thousandths, the larger one on a tie. */
  predicate NearestShare(p: int, fee: int) { -5_000 < fee * 10_000 - p <= 5_000 }

  /** The fee of a manual post: the one given, or the commission of a point of sale on a collection, else nothing. */
  lemma ManualFee(o: Office, cmd: Command)
    requires cmd.PostManual? && Step(o, cmd).Ok?
    ensures var (a, ledger) := (o.books.accounts[cmd.id], Step(o, cmd).value.books.ledger);
      var fee := ledger[|o.books.ledger|].fee;
      && |ledger| == |o.books.ledger| + 1
      && if cmd.givenFee.Some? then fee == cmd.givenFee.value
         else if cmd.direction == "in" && cmd.kind == "collection" && a.kind.Pos? && a.commissionBps > 0
         then NearestShare(cmd.amount * a.commissionBps, fee)
         else fee == 0
  {
    var a := o.books.accounts[cmd.id];
    if a.commissionBps > 0 {
      assert cmd.amount * a.commissionBps >= 0;
    }
  }

  /** A top-up credits the deposit with exactly what left the account besides the fee. */
  lemma TopUpConserves(o: Office, supplier: nat, id: nat, amount: int, fee: int, textFits: bool)
    requires Step(o, TopUpDeposit(supplier, id, amount, fee, textFits)).Ok?
    ensures var o' := Step(o, TopUpDeposit(supplier, id, amount, fee, textFits)).value;
      o'.books.accounts[id].balance + o'.suppliers[supplier].deposit + fee
      == o.books.accounts[id].balance + o.suppliers[supplier].deposit
  {}

  /** A manual post books a transfer leg if and only if its kind is not the word itself but becomes it by trimming and
      lower-casing: the check for the transfer endpoint compares the text as typed, validation the normalized one. */
  lemma ManualTransferIffLoose(o: Office, cmd: Command)
    requires cmd.PostManual? && Step(o, cmd).Ok?
    ensures var o' := Step(o, cmd).value;
      && |o'.books.ledger| == |o.books.ledger| + 1
      && (o'.books.ledger[|o.books.ledger|].kind.Transfer? <==>
            (cmd.kind != "transfer" && Lower(Trim(cmd.kind)) == "transfer"))
  {}

  lemma SpelledLoosely()
    ensures DirectionOf("in") == Some(In) && KindOf(" Transfer") == Some(Transfer)
  {
    assert Trim("in") == "in" && Lower("in") == "in";
    assert " Transfer"[1..] == "Transfer" && Trim(" Transfer") == "Transfer";
    assert Lower("Transfer") == "transfer";
  }

  /** One such post: a till receives the incoming leg of a transfer that no other account paid. */
  lemma OneLeggedTransfer()
    ensures var o := Office(Books(map[1 := Account(1, Cash, 1, 0, 0, true)], []), map[], map[]);
      var r := Step(o, PostManual(1, "in", " Transfer", 500, None, true, true, true));
      && r.Ok? && r.value.books.ledger == [Movement(1, In, Transfer, 500, 0, 500, "", None)]
      && r.value.books.accounts[1].balance == 500
  {
    SpelledLoosely();
    var a := Account(1, Cash, 1, 0, 0, true);
    LegPosts(a);
    var cmd := PostManual(1, "in", " Transfer", 500, None, true, true, true);
    assert ManualDraft(a, cmd) == Draft(Some(In), Some(Transfer), 500, 0, "", true, None);
  }

  lemma LegPosts(a: Account)
    requires a == Account(1, Cash, 1, 0, 0, true)
    ensures var d := Draft(Some(In), Some(Transfer), 500, 0, "", true, None);
      Post(Books(map[1 := a], []), 1, d) ==
      Ok(Books(map[1 := a.(balance := 500)], [Movement(1, In, Transfer, 500, 0, 500, "", None)]))
  {
    var d := Draft(Some(In), Some(Transfer), 500, 0, "", true, None);
    assert Trim("") == "" && Utf8Length("") == 0;
    assert d.Valid() && Postable(a, d.Net()).None?;
    var leg := Movement(1, In, Transfer, 500, 0, 500, "", None);
    assert Entry(1, d, 500) == leg && [] + [leg] == [leg];
    assert map[1 := a][1 := a.(balance := 500)] == map[1 := a.(balance := 500)];
  }

  // ---------- the services ----------

  class Service {
    var accounts: map<nat, Account>
    var ledger: seq<Movement>
    var suppliers: map<nat, Supplier>
    var invoices: map<nat, Invoice>

    ghost function Now(): Office
      reads this
    {
      Office(Books(accounts, ledger), suppliers, invoices)
    }

    /** Applies a draft to the locked account `a` and persists both. On a duplicate the in-memory account has
        already moved; nothing was stored. */
    method PostLocked(id: nat, a: Account, d: Draft) returns (a': Account, err: Option<Failure>)
      requires id in accounts && accounts[id] == a
      modifies this`accounts, this`ledger
      ensures match Post(old(Now()).books, id, d)
              case Ok(b) => err == None && Books(accounts, ledger) == b && a' == accounts[id]
              case Err(e) =>
                && err == Some(e) && accounts == old(accounts) && ledger == old(ledger)
                && (e.Duplicate? ==> d.Valid() && a' == a.(balance := a.balance + d.Net()))
    {
      a', err := a, None;
      if !d.Valid() {
        err := Some(Validation);
        return;
      }
      err := Postable(a, d.Net());
      if err.Some? {
        return;
      }
      a' := a.(balance := a.balance + d.Net());
      if Known(ledger, id, Trim(d.external)) {
        err := Some(Duplicate);
        return;
      }
      ledger := ledger + [Entry(id, d, a'.balance)];
      accounts := accounts[id := a'];
    }

    method PostMovement(id: nat, direction: string, kind: string, amount: int, givenFee: Option<int>,
                        dayOk: bool, textFits: bool, bookingOk: bool) returns (err: Option<Failure>)
      modifies this
      ensures match Step(old(Now()), PostManual(id, direction, kind, amount, givenFee, dayOk, textFits, bookingOk))
              case Err(e) => err == Some(e) && Now() == old(Now())
              case Ok(o) => err == None && Now() == o
    {
      if !dayOk || kind == "transfer" {
        return Some(Validation);
      }
      if id !in accounts {
        return Some(NotFound);
      }
      var a := accounts[id];
      var d := ManualDraft(a, PostManual(id, direction, kind, amount, givenFee, dayOk, textFits, bookingOk));
      if !d.Valid() || !bookingOk {
        return Some(Validation);
      }
      a, err := PostLocked(id, a, d);
    }

    /** Both legs or neither: a failing second leg rolls the first one back. */
    method TransferBetween(from: nat, to: nat, amount: int, fee: int, dayOk: bool, textFits: bool, ref: nat)
      returns (err: Option<Failure>)
      modifies this
      ensures match Step(old(Now()), TransferMoney(from, to, amount, fee, dayOk, textFits, ref))
              case Err(e) => err == Some(e) && Now() == old(Now())
              case Ok(o) => err == None && Now() == o
    {
      if from == to || !dayOk {
        return Some(Validation);
      }
      var first, second := from, to;
      if first > second {
        first, second := second, first;
      }
      if first !in accounts || second !in accounts {
        return Some(NotFound);
      }
      var source, target := accounts[first], accounts[second];
      if first != from {
        source, target := target, source;
      }
      if source.currency != target.currency || source.branch != target.branch {
        return Some(Validation);
      }
      var accounts0, ledger0 := accounts, ledger;
      source, err := PostLocked(from, source, TransferDraft(Out, amount, fee, textFits, ref));
      if err.Some? {
        return;
      }
      target, err := PostLocked(to, target, TransferDraft(In, amount, 0, textFits, ref));
      if err.Some? {
        accounts, ledger := accounts0, ledger0;
      }
    }

    /** Books one statement line after `done` before it; a duplicate moves the in-memory balance back. */
    method BookRow(id: nat, a: Account, r: FeedRow, ghost done: FeedResult)
      returns (a': Account, isNew: bool, err: Option<Failure>)
      requires id in accounts && accounts[id] == a && done.books == Books(accounts, ledger)
      modifies this`accounts, this`ledger
      ensures id in accounts
      ensures match FeedOne(done, id, r)
              case Err(e) => err == Some(e) && accounts == old(accounts) && ledger == old(ledger)
              case Ok(f) =>
                && err == None && a' == accounts[id] && f.books == Books(accounts, ledger)
                && f.imported == done.imported + (if isNew then 1 else 0)
                && f.duplicates == done.duplicates + (if isNew then 0 else 1)
                && (!isNew ==> accounts == old(accounts) && ledger == old(ledger))
    {
      a', isNew, err := a, false, None;
      if !r.dayOk {
        err := Some(Validation);
        return;
      }
      var d := RowDraft(r);
      a', err := PostLocked(id, a, d);
      if err == Some(Duplicate) {
        a' := a'.(balance := a'.balance - d.Net());
        err := None;
      } else {
        isNew := err.None?;
      }
    }

    method BookRows(id: nat, rows: seq<FeedRow>) returns (err: Option<Failure>, imported: nat, duplicates: nat)
      requires id in accounts
      modifies this`accounts, this`ledger
      ensures match Feed(old(Now()).books, id, rows)
              case Err(e) => err == Some(e)
              case Ok(f) => err == None && f == FeedResult(Books(accounts, ledger), imported, duplicates)
    {
      ghost var b0 := Books(accounts, ledger);
      err, imported, duplicates := None, 0, 0;
      var a := accounts[id];
      for i := 0 to |rows|
        invariant id in accounts && a == accounts[id] && err == None
        invariant Feed(b0, id, rows[..i]) == Ok(FeedResult(Books(accounts, ledger), imported, duplicates))
      {
        FeedUpTo(b0, id, rows, i);
        var isNew;
        a, isNew, err := BookRow(id, a, rows[i], FeedResult(Books(accounts, ledger), imported, duplicates));
        if err.Some? {
          FeedFailsOn(b0, id, rows, i + 1);
          return;
        }
        if isNew {
          imported := imported + 1;
        } else {
          duplicates := duplicates + 1;
        }
      }
      assert rows[..|rows|] == rows;
    }

    /** Books statement lines once; any failure but a duplicate rolls the whole import back. */
    method Import(id: nat, rows: seq<FeedRow>) returns (err: Option<Failure>, imported: nat, duplicates: nat)
      modifies this
      ensures match Step(old(Now()), ImportFeed(id, rows))
              case Err(e) => err == Some(e) && Now() == old(Now())
              case Ok(o) => err == None && Now() == o && imported + duplicates == |rows|
    {
      imported, duplicates := 0, 0;
      err := FeedGate(Books(accounts, ledger), id, rows);
      if err.Some? {
        return;
      }
      ghost var b0 := Books(accounts, ledger);
      var accounts0, ledger0 := accounts, ledger;
      err, imported, duplicates := BookRows(id, rows);
      if err.Some? {
        accounts, ledger := accounts0, ledger0;
      } else {
        FeedBooksNewRows(b0, id, rows);
      }
    }

    method Pay(invoice: nat, id: nat, fee: int, textFits: bool) returns (err: Option<Failure>)
      modifies this
      ensures match Step(old(Now()), PayInvoice(invoice, id, fee, textFits))
              case Err(e) => err == Some(e) && Now() == old(Now())
              case Ok(o) => err == None && Now() == o
    {
      err := PayGate(Office(Books(accounts, ledger), suppliers, invoices), invoice, id);
      if err.Some? {
        return;
      }
      var inv := invoices[invoice];
      var sup := suppliers[inv.supplier];
      var acc := accounts[id];
      acc, err := PostLocked(id, acc, SupplierDraft(inv.total, fee, textFits));
      if err.Some? {
        return;
      }
      invoices := invoices[invoice := inv.(status := Paid)];
      suppliers := suppliers[inv.supplier := sup.(creditUsed := sup.creditUsed - Settlement(sup, inv))];
    }
  }

  /** A row that aborts the import aborts every longer import too. */
  /** One more row of a feed. */
  lemma FeedUpTo(b: Books, id: nat, rows: seq<FeedRow>, i: nat)
    requires i < |rows| && Feed(b, id, rows[..i]).Ok?
    ensures Feed(b, id, rows[..i + 1]) == FeedOne(Feed(b, id, rows[..i]).value, id, rows[i])
  {
    assert rows[..i + 1][..i] == rows[..i];
  }

  lemma {:induction false} FeedFailsOn(b: Books, id: nat, rows: seq<FeedRow>, n: nat)
    requires n <= |rows| && Feed(b, id, rows[..n]).Err?
    ensures Feed(b, id, rows) == Feed(b, id, rows[..n])
  {
    if n == |rows| {
      assert rows[..n] == rows;
    } else {
      assert rows[..|rows| - 1][..n] == rows[..n];
      FeedFailsOn(b, id, rows[..|rows| - 1], n);
    }
  }
}
