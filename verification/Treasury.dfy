/** Treasury accounts, their append-only movement ledger, supplier payments and the deduplicating bank feed
    (internal/app/finance/treasury.go, payables.go; internal/domain/finance/treasury.go). */
module Treasury {
  import opened Prelude

  // 10 billion major units at two decimals.
  const MAX_MONEY := 1_000_000_000_000
  const MAX_COMMISSION_BPS := 2_000
  const BPS := 10_000

  datatype AccountKind = Cash | Bank | Pos | Wallet

  datatype Account = Account(
    branch: nat, kind: AccountKind, currency: nat, commissionBps: int, balance: int, active: bool)

  datatype Direction = In | Out

  datatype MoveKind = Collection | SupplierPayment | Transfer | Expense | Refund | Adjustment

  /** The direction that validation reads from a text. */
  function DirectionOf(text: string): Option<Direction> {
    var word := Lower(Trim(text));
    if word == "in" then Some(In) else if word == "out" then Some(Out) else None
  }

  /** The kind that validation reads from a text. */
  function KindOf(text: string): Option<MoveKind> {
    var word := Lower(Trim(text));
    if word == "collection" then Some(Collection)
    else if word == "supplier_payment" then Some(SupplierPayment)
    else if word == "transfer" then Some(Transfer)
    else if word == "expense" then Some(Expense)
    else if word == "refund" then Some(Refund)
    else if word == "adjustment" then Some(Adjustment)
    else None
  }

  datatype Movement = Movement(
    account: nat, direction: Direction, kind: MoveKind, amount: int, fee: int, balanceAfter: int,
    external: string, transfer: Option<nat>)
  {
    function Net(): int { if direction.In? then amount - fee else -(amount + fee) }
  }

  /** A movement under validation, its direction and kind as read. `textFits` says that its free-text fields respect
      their byte limits. */
  datatype Draft = Draft(
    direction: Option<Direction>, kind: Option<MoveKind>, amount: int, fee: int, external: string,
    textFits: bool, transfer: Option<nat>)
  {
    predicate Valid() {
      && direction.Some? && kind.Some?
      && 0 < amount <= MAX_MONEY && 0 <= fee <= amount
      && textFits && Utf8Length(Trim(external)) <= 120
      && (kind.value.Collection? ==> direction.value.In?)
      && (kind.value.SupplierPayment? || kind.value.Expense? || kind.value.Refund? ==> direction.value.Out?)
    }

    function Net(): int
      requires direction.Some?
    {
      if direction.value.In? then amount - fee else -(amount + fee)
    }
  }

  datatype Failure = NotFound | Validation | InvalidState | Conflict | Duplicate

  datatype Books = Books(accounts: map<nat, Account>, ledger: seq<Movement>)

  /** Account.Post: inactive accounts refuse, tills and wallets never go negative, balances stay in range. */
  function Postable(a: Account, net: int): Option<Failure> {
    var next := a.balance + net;
    if !a.active then Some(InvalidState)
    else if next < 0 && (a.kind.Cash? || a.kind.Wallet?) then Some(Conflict)
    else if next > MAX_MONEY || next < -MAX_MONEY then Some(Validation)
    else None
  }

  /** The unique index covers non-empty external ids only. */
  predicate Known(ledger: seq<Movement>, id: nat, external: string) {
    external != "" && exists i :: 0 <= i < |ledger| && ledger[i].account == id && ledger[i].external == external
  }

  function Entry(id: nat, d: Draft, balanceAfter: int): Movement
    requires d.Valid()
  {
    Movement(id, d.direction.value, d.kind.value, d.amount, d.fee, balanceAfter, Trim(d.external), d.transfer)
  }

  /** Applies a draft to a locked account and persists both. */
  function Post(b: Books, id: nat, d: Draft): Result<Books, Failure> {
    if id !in b.accounts then Err(NotFound)
    else if !d.Valid() then Err(Validation)
    else
      var a := b.accounts[id];
      var refused := Postable(a, d.Net());
      if refused.Some? then Err(refused.value)
      else if Known(b.ledger, id, Trim(d.external)) then Err(Duplicate)
      else
        var next := a.balance + d.Net();
        Ok(Books(b.accounts[id := a.(balance := next)], b.ledger + [Entry(id, d, next)]))
  }

  // ---------- when a movement is booked, and as what ----------

  /** The account is active, and the change leaves it within the bounds of its kind. */
  predicate Bears(a: Account, change: int) {
    && a.active && -1_000_000_000_000 <= a.balance + change <= 1_000_000_000_000
    && (a.kind.Cash? || a.kind.Wallet? ==> a.balance + change >= 0)
  }

  /** Collections come in; supplier payments, expenses and refunds go out; transfers and adjustments do either. */
  predicate Directed(direction: Direction, kind: MoveKind) {
    match kind
    case Collection => direction == In
    case Transfer => true
    case Adjustment => true
    case _ => direction == Out
  }

  /** A movement is booked exactly when its account exists and bears it, its fields are in range, its kind goes its
      direction, and its id is blank or new to the account. */
  lemma PostSucceedsIff(b: Books, id: nat, d: Draft)
    ensures Post(b, id, d).Ok? <==>
      && id in b.accounts && d.direction.Some? && d.kind.Some? && Directed(d.direction.value, d.kind.value)
      && 1 <= d.amount <= 1_000_000_000_000 && 0 <= d.fee <= d.amount
      && d.textFits && Utf8Length(Trim(d.external)) <= 120
      && Bears(b.accounts[id], if d.direction.value.In? then d.amount - d.fee else -d.amount - d.fee)
      && (Trim(d.external) == "" ||
          forall i :: 0 <= i < |b.ledger| ==> b.ledger[i].account != id || b.ledger[i].external != Trim(d.external))
  {}

  /** A booked movement changes its account's balance by the amount and fee and adds one ledger row that says so. */
  lemma PostBooks(b: Books, id: nat, d: Draft)
    requires Post(b, id, d).Ok?
    ensures var (a, b1) := (b.accounts[id], Post(b, id, d).value);
      var after := if d.direction.value.In? then a.balance + d.amount - d.fee else a.balance - d.amount - d.fee;
      && b1.accounts == b.accounts[id := a.(balance := after)]
      && b1.ledger == b.ledger +
           [Movement(id, d.direction.value, d.kind.value, d.amount, d.fee, after, Trim(d.external), d.transfer)]
  {}

  // ---------- the ledger explains every balance ----------

  function Sum(ledger: seq<Movement>, id: nat): int {
    if ledger == [] then 0
    else
      var m := ledger[|ledger| - 1];
      Sum(ledger[..|ledger| - 1], id) + if m.account == id then m.Net() else 0
  }

  /** Each row's running balance is the sum of its account's rows up to it. */
  ghost predicate RunningBalances(ledger: seq<Movement>) {
    forall k :: 0 <= k < |ledger| ==> ledger[k].balanceAfter == Sum(ledger[..k + 1], ledger[k].account)
  }

  ghost predicate OncePerExternalId(ledger: seq<Movement>) {
    forall i, j :: 0 <= i < j < |ledger| && ledger[i].account == ledger[j].account && ledger[i].external != "" ==>
      ledger[i].external != ledger[j].external
  }

  predicate InBounds(a: Account) {
    -MAX_MONEY <= a.balance <= MAX_MONEY && (a.kind.Cash? || a.kind.Wallet? ==> 0 <= a.balance)
  }

  ghost predicate Explained(b: Books) {
    && (forall id :: id in b.accounts ==> b.accounts[id].balance == Sum(b.ledger, id) && InBounds(b.accounts[id]))
    && (forall k :: 0 <= k < |b.ledger| ==> b.ledger[k].account in b.accounts)
    && RunningBalances(b.ledger)
    && OncePerExternalId(b.ledger)
  }

  lemma {:induction false} SumOfStranger(ledger: seq<Movement>, id: nat)
    requires forall k :: 0 <= k < |ledger| ==> ledger[k].account != id
    ensures Sum(ledger, id) == 0
  {
    if ledger != [] {
      SumOfStranger(ledger[..|ledger| - 1], id);
    }
  }

  lemma PostKeepsExplained(b: Books, id: nat, d: Draft)
    requires Explained(b) && Post(b, id, d).Ok?
    ensures Explained(Post(b, id, d).value)
  {
    var b' := Post(b, id, d).value;
    var n := |b.ledger|;
    assert b'.ledger[..n] == b.ledger && b'.ledger[..n + 1] == b'.ledger;
    forall k | 0 <= k < |b'.ledger|
      ensures b'.ledger[k].balanceAfter == Sum(b'.ledger[..k + 1], b'.ledger[k].account)
    {
      if k < n {
        assert b'.ledger[..k + 1] == b.ledger[..k + 1];
      }
    }
  }

  // ---------- transfers ----------

  function TransferDraft(direction: Direction, amount: int, fee: int, textFits: bool, ref: nat): Draft {
    Draft(Some(direction), Some(Transfer), amount, fee, "", textFits, Some(ref))
  }

  /** A paired out and in movement, or nothing. */
  function MoveBetween(
    b: Books, from: nat, to: nat, amount: int, fee: int, textFits: bool, ref: nat): Result<Books, Failure>
  {
    if from == to then Err(Validation)
    else if from !in b.accounts || to !in b.accounts then Err(NotFound)
    else if b.accounts[from].currency != b.accounts[to].currency then Err(Validation)
    else if b.accounts[from].branch != b.accounts[to].branch then Err(Validation)
    else
      match Post(b, from, TransferDraft(Out, amount, fee, textFits, ref))
      case Err(e) => Err(e)
      case Ok(b1) => Post(b1, to, TransferDraft(In, amount, 0, textFits, ref))
  }

  /** A committed transfer books both legs, moves the amount, loses exactly the fee and touches no other account. */
  lemma TransferConserves(b: Books, from: nat, to: nat, amount: int, fee: int, textFits: bool, ref: nat)
    requires MoveBetween(b, from, to, amount, fee, textFits, ref).Ok?
    ensures var b' := MoveBetween(b, from, to, amount, fee, textFits, ref).value;
      && b'.accounts.Keys == b.accounts.Keys
      && b'.accounts[from].balance == b.accounts[from].balance - amount - fee
      && b'.accounts[to].balance == b.accounts[to].balance + amount
      && b'.accounts[from].balance + b'.accounts[to].balance == b.accounts[from].balance + b.accounts[to].balance - fee
      && (forall id :: id in b.accounts && id != from && id != to ==> b'.accounts[id] == b.accounts[id])
      && |b'.ledger| == |b.ledger| + 2 && b'.ledger[..|b.ledger|] == b.ledger
      && b'.ledger[|b.ledger|].transfer == b'.ledger[|b.ledger| + 1].transfer == Some(ref)
  {}

  /** A transfer commits exactly when its two accounts differ, share branch and currency, and bear their legs. */
  lemma TransferSucceedsIff(b: Books, from: nat, to: nat, amount: int, fee: int, textFits: bool, ref: nat)
    ensures MoveBetween(b, from, to, amount, fee, textFits, ref).Ok? <==>
      && from != to && from in b.accounts && to in b.accounts
      && b.accounts[from].currency == b.accounts[to].currency && b.accounts[from].branch == b.accounts[to].branch
      && 1 <= amount <= 1_000_000_000_000 && 0 <= fee <= amount && textFits
      && Bears(b.accounts[from], -amount - fee) && Bears(b.accounts[to], amount)
  {
    var leg := TransferDraft(Out, amount, fee, textFits, ref);
    assert Trim("") == "" && Utf8Length("") == 0;
    PostSucceedsIff(b, from, leg);
    if from != to && Post(b, from, leg).Ok? {
      PostSucceedsIff(Post(b, from, leg).value, to, TransferDraft(In, amount, 0, textFits, ref));
    }
  }

  // ---------- bank feed ----------

  datatype FeedRow = FeedRow(
    external: string, dayOk: bool, amount: int, direction: string, textFits: bool)

  function RowDraft(r: FeedRow): Draft {
    Draft(DirectionOf(r.direction), Some(if r.direction == "out" then Expense else Collection), r.amount, 0, r.external,
          r.textFits, None)
  }

  datatype FeedResult = FeedResult(books: Books, imported: nat, duplicates: nat)

  function FeedOne(f: FeedResult, id: nat, r: FeedRow): Result<FeedResult, Failure> {
    if !r.dayOk then Err(Validation)
    else
      match Post(f.books, id, RowDraft(r))
      case Ok(b1) => Ok(FeedResult(b1, f.imported + 1, f.duplicates))
      case Err(e) => if e.Duplicate? then Ok(f.(duplicates := f.duplicates + 1)) else Err(e)
  }

  /** Books the rows in order: a duplicate is counted and skipped, any other failure aborts the import. */
  function Feed(b: Books, id: nat, rows: seq<FeedRow>): Result<FeedResult, Failure> {
    if rows == [] then Ok(FeedResult(b, 0, 0))
    else
      match Feed(b, id, rows[..|rows| - 1])
      case Err(e) => Err(e)
      case Ok(f) => FeedOne(f, id, rows[|rows| - 1])
  }

  /** Some row has the id once trimmed. */
  predicate Carries(rows: seq<FeedRow>, ext: string) {
    exists i :: 0 <= i < |rows| && Trim(rows[i].external) == ext
  }

  /** Reference: a row is new when its trimmed id is blank, or in neither the ledger nor an earlier row. */
  predicate IsNew(ledger: seq<Movement>, id: nat, earlier: seq<FeedRow>, r: FeedRow) {
    var ext := Trim(r.external);
    ext == "" || !(Known(ledger, id, ext) || Carries(earlier, ext))
  }

  function NewRows(ledger: seq<Movement>, id: nat, rows: seq<FeedRow>): seq<FeedRow> {
    if rows == [] then []
    else
      var earlier, r := rows[..|rows| - 1], rows[|rows| - 1];
      NewRows(ledger, id, earlier) + if IsNew(ledger, id, earlier, r) then [r] else []
  }

  function RowNet(r: FeedRow): int {
    match DirectionOf(r.direction)
    case None => 0
    case Some(In) => r.amount
    case Some(Out) => -r.amount
  }

  function NetOf(rows: seq<FeedRow>): int {
    if rows == [] then 0 else NetOf(rows[..|rows| - 1]) + RowNet(rows[|rows| - 1])
  }

  /** Ledger row `m` books feed row `r`. */
  predicate Booked(m: Movement, id: nat, r: FeedRow) {
    && m.account == id && m.external == Trim(r.external) && m.amount == r.amount && m.fee == 0
    && DirectionOf(r.direction) == Some(m.direction) && m.transfer.None?
    && m.kind == if r.direction == "out" then Expense else Collection
  }

  lemma CarriesOneMore(rows: seq<FeedRow>, r: FeedRow, ext: string)
    ensures Carries(rows + [r], ext) <==> Carries(rows, ext) || Trim(r.external) == ext
  {
    var all := rows + [r];
    assert all[|rows|] == r && forall i :: 0 <= i < |rows| ==> all[i] == rows[i];
  }

  lemma PostKnows(b: Books, id: nat, d: Draft, ext: string)
    requires Post(b, id, d).Ok? && ext != ""
    ensures Known(Post(b, id, d).value.ledger, id, ext) <==> Known(b.ledger, id, ext) || Trim(d.external) == ext
  {
    var ledger := Post(b, id, d).value.ledger;
    assert ledger[|b.ledger|].external == Trim(d.external);
    assert forall i :: 0 <= i < |b.ledger| ==> ledger[i] == b.ledger[i];
  }

  /** The last row of a committed feed was booked, or was a duplicate and left no trace. */
  lemma LastRowFate(b: Books, id: nat, rows: seq<FeedRow>)
    requires rows != [] && Feed(b, id, rows).Ok?
    ensures var (earlier, r) := (rows[..|rows| - 1], rows[|rows| - 1]);
      && r.dayOk && Feed(b, id, earlier).Ok?
      && var (before, after) := (Feed(b, id, earlier).value.books, Feed(b, id, rows).value.books);
         && RowDraft(r).Valid()
         && (Post(before, id, RowDraft(r)) == Ok(after) ||
             (after == before && Known(before.ledger, id, Trim(r.external))))
  {}

  /** Ids known after the feed: those known before and those of its rows. */
  lemma {:induction false} FeedKnows(b: Books, id: nat, rows: seq<FeedRow>, ext: string)
    requires Feed(b, id, rows).Ok? && ext != ""
    ensures Known(Feed(b, id, rows).value.books.ledger, id, ext) <==> Known(b.ledger, id, ext) || Carries(rows, ext)
  {
    if rows != [] {
      var earlier, r := rows[..|rows| - 1], rows[|rows| - 1];
      assert rows == earlier + [r];
      LastRowFate(b, id, rows);
      FeedKnows(b, id, earlier, ext);
      CarriesOneMore(earlier, r, ext);
      var before := Feed(b, id, earlier).value.books;
      if Post(before, id, RowDraft(r)).Ok? {
        PostKnows(before, id, RowDraft(r), ext);
      }
    }
  }

  /** `b'` is what importing exactly `added` into `b` gives. */
  ghost predicate BooksExactly(b: Books, id: nat, added: seq<FeedRow>, b': Books)
    requires id in b.accounts
  {
    && |b'.ledger| == |b.ledger| + |added| && b'.ledger[..|b.ledger|] == b.ledger
    && (forall k :: 0 <= k < |added| ==> Booked(b'.ledger[|b.ledger| + k], id, added[k]))
    && b'.accounts == b.accounts[id := b.accounts[id].(balance := b.accounts[id].balance + NetOf(added))]
  }

  lemma BooksOneMore(b: Books, id: nat, added: seq<FeedRow>, b': Books, r: FeedRow)
    requires id in b.accounts && BooksExactly(b, id, added, b') && Post(b', id, RowDraft(r)).Ok?
    ensures BooksExactly(b, id, added + [r], Post(b', id, RowDraft(r)).value)
  {
    assert (added + [r])[..|added|] == added;
  }

  lemma DuplicateExactlyWhenNotNew(b: Books, id: nat, earlier: seq<FeedRow>, r: FeedRow)
    requires Feed(b, id, earlier).Ok?
    ensures Known(Feed(b, id, earlier).value.books.ledger, id, Trim(r.external)) <==> !IsNew(b.ledger, id, earlier, r)
  {
    if Trim(r.external) != "" {
      FeedKnows(b, id, earlier, Trim(r.external));
    }
  }

  /** MAIN: a committed feed has exactly the ledger effect of its new rows, in order, and every row was either
      imported or counted as a duplicate. */
  lemma {:induction false} FeedBooksNewRows(b: Books, id: nat, rows: seq<FeedRow>)
    requires id in b.accounts && Feed(b, id, rows).Ok?
    ensures var f := Feed(b, id, rows).value;
      && f.imported == |NewRows(b.ledger, id, rows)| && f.imported + f.duplicates == |rows|
      && BooksExactly(b, id, NewRows(b.ledger, id, rows), f.books)
  {
    if rows == [] {
      assert b.accounts == b.accounts[id := b.accounts[id].(balance := b.accounts[id].balance)];
    } else {
      var earlier, r := rows[..|rows| - 1], rows[|rows| - 1];
      FeedBooksNewRows(b, id, earlier);
      DuplicateExactlyWhenNotNew(b, id, earlier, r);
      var added, f := NewRows(b.ledger, id, earlier), Feed(b, id, earlier).value;
      if IsNew(b.ledger, id, earlier, r) {
        assert NewRows(b.ledger, id, rows) == added + [r];
        BooksOneMore(b, id, added, f.books, r);
        assert Feed(b, id, rows).value.books == Post(f.books, id, RowDraft(r)).value;
      } else {
        assert NewRows(b.ledger, id, rows) == added;
        assert Feed(b, id, rows).value.books == f.books;
      }
    }
  }

  lemma {:induction false} FeedKeepsExplained(b: Books, id: nat, rows: seq<FeedRow>)
    requires Explained(b) && Feed(b, id, rows).Ok?
    ensures Explained(Feed(b, id, rows).value.books)
  {
    if rows != [] {
      var f := Feed(b, id, rows[..|rows| - 1]).value.books;
      FeedKeepsExplained(b, id, rows[..|rows| - 1]);
      if Post(f, id, RowDraft(rows[|rows| - 1])).Ok? {
        PostKeepsExplained(f, id, RowDraft(rows[|rows| - 1]));
      }
    }
  }

  // ---------- importing the same statement again ----------

  predicate NoBlankIds(rows: seq<FeedRow>) {
    forall i :: 0 <= i < |rows| ==> Trim(rows[i].external) != ""
  }

  /** The row passes its own checks, whatever the account. */
  predicate Readable(r: FeedRow) { r.dayOk && RowDraft(r).Valid() }

  lemma {:induction false} CommittedRowsReadable(b: Books, id: nat, rows: seq<FeedRow>)
    requires Feed(b, id, rows).Ok?
    ensures forall i :: 0 <= i < |rows| ==> Readable(rows[i])
  {
    if rows != [] {
      var earlier := rows[..|rows| - 1];
      LastRowFate(b, id, rows);
      CommittedRowsReadable(b, id, earlier);
      assert forall i :: 0 <= i < |earlier| ==> rows[i] == earlier[i];
    }
  }

  lemma KnownRowSkipped(b: Books, id: nat, earlier: seq<FeedRow>, r: FeedRow)
    requires id in b.accounts && Feed(b, id, earlier) == Ok(FeedResult(b, 0, |earlier|))
    requires Readable(r) && Known(b.ledger, id, Trim(r.external))
    ensures Feed(b, id, earlier + [r]) ==
      var refused := Postable(b.accounts[id], RowNet(r));
      if refused.None? then Ok(FeedResult(b, 0, |earlier| + 1)) else Err(refused.value)
  {
    assert (earlier + [r])[..|earlier|] == earlier;
    assert RowDraft(r).Net() == RowNet(r);
  }

  /** Each row alone would fit on the account's balance. */
  predicate AllFit(a: Account, rows: seq<FeedRow>) {
    forall i :: 0 <= i < |rows| ==> Postable(a, RowNet(rows[i])).None?
  }

  lemma AllFitOneMore(a: Account, rows: seq<FeedRow>, r: FeedRow)
    ensures AllFit(a, rows + [r]) <==> AllFit(a, rows) && Postable(a, RowNet(r)).None?
  {
    var all := rows + [r];
    assert all[|rows|] == r && forall i :: 0 <= i < |rows| ==> all[i] == rows[i];
  }

  /** With every row already known, the feed commits exactly when each row would have fitted on the balance. */
  lemma {:induction false} KnownRowsOnly(b: Books, id: nat, rows: seq<FeedRow>)
    requires id in b.accounts
    requires forall i :: 0 <= i < |rows| ==> Readable(rows[i]) && Known(b.ledger, id, Trim(rows[i].external))
    ensures Feed(b, id, rows).Ok? <==> AllFit(b.accounts[id], rows)
    ensures Feed(b, id, rows).Ok? ==> Feed(b, id, rows).value == FeedResult(b, 0, |rows|)
  {
    if rows != [] {
      var earlier, r := rows[..|rows| - 1], rows[|rows| - 1];
      assert forall i :: 0 <= i < |earlier| ==> earlier[i] == rows[i];
      KnownRowsOnly(b, id, earlier);
      assert rows == earlier + [r];
      if Feed(b, id, earlier).Ok? {
        KnownRowSkipped(b, id, earlier, r);
      }
      AllFitOneMore(b.accounts[id], earlier, r);
    }
  }

  lemma {:induction false} BlankRowIsNew(ledger: seq<Movement>, id: nat, rows: seq<FeedRow>, i: nat)
    requires i < |rows| && Trim(rows[i].external) == ""
    ensures |NewRows(ledger, id, rows)| > 0
  {
    if i < |rows| - 1 {
      BlankRowIsNew(ledger, id, rows[..|rows| - 1], i);
    }
  }

  /** MAIN: committing the same feed a second time leaves books and ledger alone if and only if no row's
      external id is blank once trimmed: a blank id passes the "required" check but is not deduplicated. */
  lemma ReimportIsNoOpIffIdsNotBlank(b: Books, id: nat, rows: seq<FeedRow>)
    requires id in b.accounts && Feed(b, id, rows).Ok?
    requires Feed(Feed(b, id, rows).value.books, id, rows).Ok?
    ensures var once := Feed(b, id, rows).value.books;
      Feed(once, id, rows).value.books == once <==> NoBlankIds(rows)
  {
    var once := Feed(b, id, rows).value.books;
    FeedBooksNewRows(b, id, rows);
    if NoBlankIds(rows) {
      CommittedRowsReadable(b, id, rows);
      forall i | 0 <= i < |rows|
        ensures Known(once.ledger, id, Trim(rows[i].external))
      {
        FeedKnows(b, id, rows, Trim(rows[i].external));
      }
      KnownRowsOnly(once, id, rows);
    } else {
      var i :| 0 <= i < |rows| && Trim(rows[i].external) == "";
      BlankRowIsNew(once.ledger, id, rows, i);
      FeedBooksNewRows(once, id, rows);
    }
  }

  /** A second import of a fully deduplicated feed is still refused exactly when some row no longer fits on top
      of the balance it already produced. */
  lemma ReimportCommitsIffRowsFit(b: Books, id: nat, rows: seq<FeedRow>)
    requires id in b.accounts && Feed(b, id, rows).Ok? && NoBlankIds(rows)
    ensures var once := Feed(b, id, rows).value.books;
      && id in once.accounts
      && (Feed(once, id, rows).Ok? <==> AllFit(once.accounts[id], rows))
  {
    var once := Feed(b, id, rows).value.books;
    FeedBooksNewRows(b, id, rows);
    CommittedRowsReadable(b, id, rows);
    forall i | 0 <= i < |rows|
      ensures Known(once.ledger, id, Trim(rows[i].external))
    {
      FeedKnows(b, id, rows, Trim(rows[i].external));
    }
    KnownRowsOnly(once, id, rows);
  }

  /** The blank id in action: one spaces-only row, imported twice, is booked twice. */
  lemma BlankIdBookedTwice()
    ensures var b := Books(map[1 := Account(1, Bank, 1, 0, 0, true)], []);
      var rows := [FeedRow(" ", true, 500, "in", true)];
      && Feed(b, 1, rows).Ok?
      && var once := Feed(b, 1, rows).value.books;
         Feed(once, 1, rows).Ok? && Feed(once, 1, rows).value.books.accounts[1].balance == 1000
  {
    var b := Books(map[1 := Account(1, Bank, 1, 0, 0, true)], []);
    var r := FeedRow(" ", true, 500, "in", true);
    assert [r][..0] == [];
    assert Trim(" ") == "" by {
      assert " "[1..] == "";
    }
    assert Feed(b, 1, []) == Ok(FeedResult(b, 0, 0));
    var once := Feed(b, 1, [r]).value.books;
    assert Feed(once, 1, []) == Ok(FeedResult(once, 0, 0));
  }
}
