/** The customer import: validation, batching and the three modes over a customer table matched by phone
    (internal/app/importexport/service.go). */
module ImportEngine {
  import opened Prelude

  const BATCH_SIZE := 50

  /** A rune of a phone cell. Wide runes are decimal digits outside ASCII, such as Arabic-Indic ones. */
  datatype PhoneRune = Digit(d: nat) | Plus | Wide(code: nat) | Other(code: nat)

  type Phone = seq<PhoneRune>

  /** shared.NormalizePhone: keeps every Unicode digit and '+'. */
  function Normalize(p: Phone): Phone {
    if p == [] then [] else (if p[0].Other? then [] else [p[0]]) + Normalize(p[1..])
  }

  /** The stored phone as FindByPhone's SQL sees it: only ASCII digits and '+' remain. */
  function Key(p: Phone): Phone {
    if p == [] then [] else (if p[0].Digit? || p[0].Plus? then [p[0]] else []) + Key(p[1..])
  }

  predicate NoWide(p: Phone) { forall i :: 0 <= i < |p| ==> !p[i].Wide? }

  /** A passport cell: a masked display value keeps the stored number. */
  datatype Passport = Masked | Number(number: string)

  datatype BirthCell = NoDate | Date(day: int) | BadDate

  /** A mapped row; text cells are trimmed and normalized. */
  datatype Row = Row(phone: Phone, name: string, nameAr: string, email: string, nationality: string,
                     passport: Passport, birth: BirthCell, notes: string, special: string)

  datatype Customer = Customer(phone: Phone, name: string, nameAr: string, email: string, nationality: string,
                               passport: string, birth: Option<int>, notes: string, special: string)

  /** The branch's active customers, in insertion order; ids and timestamps are left out. */
  type Table = seq<Customer>

  datatype Mode = Create | Update | Upsert

  datatype Outcome = Success | Skipped | Failed

  /** ValidateMappedRow: name and phone are required, a date must parse. */
  predicate Valid(r: Row) {
    r.name != "" && Normalize(r.phone) != [] && !r.birth.BadDate?
  }

  /** The first customer whose stored phone matches. */
  function Find(t: Table, phone: Phone): (at: Option<nat>)
    ensures at.Some? ==> at.value < |t|
  {
    if t == [] then None
    else
      var n := |t| - 1;
      var earlier := Find(t[..n], phone);
      if earlier.Some? then earlier else if Key(t[n].phone) == phone then Some(n) else None
  }

  function New(r: Row): Customer
    requires Valid(r)
  {
    Customer(Normalize(r.phone), r.name, r.nameAr, r.email, r.nationality,
             if r.passport.Masked? then "" else r.passport.number,
             if r.birth.Date? then Some(r.birth.day) else None, r.notes, r.special)
  }

  function Patch(c: Customer, r: Row): Customer
    requires Valid(r)
  {
    Customer(Normalize(r.phone), r.name, r.nameAr, r.email, r.nationality,
             if r.passport.Masked? then c.passport else r.passport.number,
             if r.birth.Date? then Some(r.birth.day) else c.birth, r.notes, r.special)
  }

  function ApplyRow(mode: Mode, t: Table, r: Row): (Table, Outcome) {
    if !Valid(r) then (t, Failed)
    else
      var at := Find(t, Normalize(r.phone));
      match mode
      case Create => if at.Some? then (t, Skipped) else (t + [New(r)], Success)
      case Update => if at.None? then (t, Failed) else (t[at.value := Patch(t[at.value], r)], Success)
      case Upsert => if at.None? then (t + [New(r)], Success) else (t[at.value := Patch(t[at.value], r)], Success)
  }

  function Import(mode: Mode, t: Table, rows: seq<Row>): Table {
    if rows == [] then t else ApplyRow(mode, Import(mode, t, rows[..|rows| - 1]), rows[|rows| - 1]).0
  }

  // ---------- matching ----------

  lemma {:induction false} FindInRange(t: Table, phone: Phone)
    ensures var at := Find(t, phone);
      if at.Some?
      then
        && at.value < |t| && Key(t[at.value].phone) == phone
        && forall i :: 0 <= i < at.value ==> Key(t[i].phone) != phone
      else forall i :: 0 <= i < |t| ==> Key(t[i].phone) != phone
  {
    if t != [] {
      FindInRange(t[..|t| - 1], phone);
    }
  }

  /** Same keys, same matches. */
  lemma FindByKeys(t: Table, t': Table, phone: Phone)
    requires |t| == |t'| && forall i :: 0 <= i < |t| ==> Key(t[i].phone) == Key(t'[i].phone)
    ensures Find(t', phone) == Find(t, phone)
  {
    FindInRange(t, phone);
    FindInRange(t', phone);
  }

  lemma FindAppended(t: Table, c: Customer, phone: Phone)
    ensures Find(t + [c], phone) ==
      if Find(t, phone).Some? then Find(t, phone) else if Key(c.phone) == phone then Some(|t|) else None
  {
    assert (t + [c])[..|t|] == t;
  }

  lemma {:induction false} KeyOfNormalized(p: Phone)
    ensures NoWide(Normalize(p)) ==> Key(Normalize(p)) == Normalize(p)
    ensures NoWide(Key(p))
  {
    if p != [] {
      KeyOfNormalized(p[1..]);
      var rest := Normalize(p[1..]);
      if p[0].Other? {
        assert Normalize(p) == rest;
      } else {
        assert Normalize(p) == [p[0]] + rest && Normalize(p)[1..] == rest;
        assert forall i :: 0 <= i < |rest| ==> rest[i] == Normalize(p)[i + 1];
        assert Key(Normalize(p)) == (if p[0].Wide? then [] else [p[0]]) + Key(rest);
      }
    }
  }

  /** Normalizing drops exactly the runes that are no digit and no plus; the key keeps ASCII digits and pluses. */
  lemma {:induction false} PhoneRunesKept(p: Phone, r: PhoneRune)
    ensures multiset(Normalize(p))[r] == if r.Other? then 0 else multiset(p)[r]
    ensures multiset(Key(p))[r] == if r.Digit? || r.Plus? then multiset(p)[r] else 0
  {
    if p != [] {
      PhoneRunesKept(p[1..], r);
      assert p == [p[0]] + p[1..];
    }
  }

  /** A phone with a wide digit never matches, not even the customer it was imported as. */
  lemma WideNeverFound(t: Table, r: Row)
    requires !NoWide(Normalize(r.phone))
    ensures Find(t, Normalize(r.phone)).None?
  {
    FindInRange(t, Normalize(r.phone));
    forall i | 0 <= i < |t|
      ensures Key(t[i].phone) != Normalize(r.phone)
    {
      KeyOfNormalized(t[i].phone);
    }
  }

  // ---------- patches compose ----------

  /** The single row equivalent to patching with `a` and then `b`. */
  function Then(a: Row, b: Row): Row {
    b.(passport := if b.passport.Masked? then a.passport else b.passport,
       birth := if b.birth.Date? then b.birth else a.birth)
  }

  lemma PatchThen(c: Customer, a: Row, b: Row)
    requires Valid(a) && Valid(b)
    ensures Valid(Then(a, b)) && Patch(Patch(c, a), b) == Patch(c, Then(a, b))
  {}

  lemma PatchTwice(c: Customer, r: Row)
    requires Valid(r)
    ensures Patch(Patch(c, r), r) == Patch(c, r) && Patch(New(r), r) == New(r)
  {}

  function Merged(earlier: Option<Row>, r: Row): Row {
    if earlier.None? then r else Then(earlier.value, r)
  }

  /** All rows of one phone as a single patch: last writer wins, field by field. */
  function Combined(rows: seq<Row>, phone: Phone): (r: Option<Row>)
    ensures r.Some? ==> Valid(r.value)
  {
    if rows == [] then None
    else
      var earlier, r := Combined(rows[..|rows| - 1], phone), rows[|rows| - 1];
      if !Valid(r) || Normalize(r.phone) != phone then earlier else Some(Merged(earlier, r))
  }

  lemma CombinedOneMore(rows: seq<Row>, r: Row, phone: Phone)
    ensures Combined(rows + [r], phone) ==
      var earlier := Combined(rows, phone);
      if !Valid(r) || Normalize(r.phone) != phone then earlier else Some(Merged(earlier, r))
  {
    assert (rows + [r])[..|rows|] == rows;
  }

  function PatchAll(c: Customer, r: Option<Row>): Customer
    requires r.Some? ==> Valid(r.value)
  {
    if r.None? then c else Patch(c, r.value)
  }

  /** A customer patched with all rows of its phone, the last one included, is not changed by them again. */
  lemma PatchAbsorbs(c: Customer, earlier: Option<Row>, r: Row)
    requires Valid(r) && (earlier.Some? ==> Valid(earlier.value)) && PatchAll(c, earlier) == c
    ensures Valid(Merged(earlier, r)) && Patch(Patch(c, r), Merged(earlier, r)) == Patch(c, r)
  {
    if earlier.Some? {
      PatchThen(c, earlier.value, r);
      PatchTwice(c, Then(earlier.value, r));
    } else {
      PatchTwice(c, r);
    }
  }

  /** Every ASCII phone that importing would add is matched afterwards. */
  predicate AsciiRows(rows: seq<Row>) {
    forall i :: 0 <= i < |rows| && Valid(rows[i]) ==> NoWide(Normalize(rows[i].phone))
  }

  /** Customer j is the one its key matches. */
  predicate Leads(t: Table, j: nat)
    requires j < |t|
  {
    Find(t, Key(t[j].phone)) == Some(j)
  }

  /** Customers matched by some row already show what all rows of their phone amount to. */
  ghost predicate Absorbed(mode: Mode, t: Table, rows: seq<Row>) {
    && (forall j :: 0 <= j < |t| && Leads(t, j) && !mode.Create? ==>
          PatchAll(t[j], Combined(rows, Key(t[j].phone))) == t[j])
    && (!mode.Update? ==> forall i :: 0 <= i < |rows| && Valid(rows[i]) ==> Find(t, Normalize(rows[i].phone)).Some?)
  }

  lemma PatchKeepsKeys(t: Table, at: nat, r: Row)
    requires at < |t| && Valid(r) && Key(t[at].phone) == Normalize(r.phone)
    ensures var t' := t[at := Patch(t[at], r)];
      && (forall i :: 0 <= i < |t| ==> Key(t'[i].phone) == Key(t[i].phone))
      && (forall p :: Find(t', p) == Find(t, p))
  {
    KeyOfNormalized(t[at].phone);
    KeyOfNormalized(r.phone);
    var t' := t[at := Patch(t[at], r)];
    forall p
      ensures Find(t', p) == Find(t, p)
    {
      FindByKeys(t, t', p);
    }
  }

  /** Without wide digits no phone with rows is missing after them. */
  lemma {:induction false} NoCombinedWithoutRow(rows: seq<Row>, phone: Phone)
    requires Combined(rows, phone).Some?
    ensures exists i :: 0 <= i < |rows| && Valid(rows[i]) && Normalize(rows[i].phone) == phone
  {
    var n := |rows| - 1;
    if !(Valid(rows[n]) && Normalize(rows[n].phone) == phone) {
      NoCombinedWithoutRow(rows[..n], phone);
      var i :| 0 <= i < n && Valid(rows[..n][i]) && Normalize(rows[..n][i].phone) == phone;
      assert rows[i] == rows[..n][i];
    }
  }

  /** Patching the matched customer with one more row. */
  lemma PatchStepAbsorbs(mode: Mode, t: Table, rows: seq<Row>, r: Row, at: nat)
    requires !mode.Create? && Absorbed(mode, t, rows) && Valid(r) && Find(t, Normalize(r.phone)) == Some(at) && at < |t|
    requires Key(t[at].phone) == Normalize(r.phone)
    ensures Absorbed(mode, t[at := Patch(t[at], r)], rows + [r])
  {
    var t' := t[at := Patch(t[at], r)];
    PatchKeepsKeys(t, at, r);
    forall j | 0 <= j < |t'| && Leads(t', j)
      ensures PatchAll(t'[j], Combined(rows + [r], Key(t'[j].phone))) == t'[j]
    {
      assert Leads(t, j);
      PatchStepLeader(t, rows, r, at, j);
    }
  }

  lemma PatchStepLeader(t: Table, rows: seq<Row>, r: Row, at: nat, j: nat)
    requires Valid(r) && at < |t| && j < |t| && Leads(t, j) && Find(t, Normalize(r.phone)) == Some(at)
    requires Key(t[at].phone) == Normalize(r.phone) && PatchAll(t[j], Combined(rows, Key(t[j].phone))) == t[j]
    ensures var c := if j == at then Patch(t[j], r) else t[j]; PatchAll(c, Combined(rows + [r], Key(t[j].phone))) == c
  {
    CombinedOneMore(rows, r, Key(t[j].phone));
    if j == at {
      PatchAbsorbs(t[at], Combined(rows, Normalize(r.phone)), r);
    } else {
      assert Find(t, Key(t[j].phone)) == Some(j);
    }
  }

  /** Adding the unmatched customer of one more row. */
  lemma AppendStepAbsorbs(mode: Mode, t: Table, rows: seq<Row>, r: Row)
    requires !mode.Update? && Absorbed(mode, t, rows) && Valid(r) && Find(t, Normalize(r.phone)).None?
    requires NoWide(Normalize(r.phone))
    ensures Absorbed(mode, t + [New(r)], rows + [r])
  {
    var t', key := t + [New(r)], Normalize(r.phone);
    KeyOfNormalized(r.phone);
    assert (rows + [r])[..|rows|] == rows;
    forall p
      ensures Find(t', p) == if Find(t, p).Some? then Find(t, p) else if key == p then Some(|t|) else None
    {
      FindAppended(t, New(r), p);
    }
    forall j | 0 <= j < |t'| && Leads(t', j) && !mode.Create?
      ensures PatchAll(t'[j], Combined(rows + [r], Key(t'[j].phone))) == t'[j]
    {
      if j == |t| {
        if Combined(rows, key).Some? {
          NoCombinedWithoutRow(rows, key);
        }
        PatchTwice(New(r), r);
      } else {
        FindInRange(t, key);
        assert Leads(t, j);
      }
    }
  }

  /** Rows that change nothing. */
  lemma IdleStepAbsorbs(mode: Mode, t: Table, rows: seq<Row>, r: Row)
    requires Absorbed(mode, t, rows)
    requires var at := Find(t, Normalize(r.phone));
      !Valid(r) || (mode.Create? && at.Some?) || (mode.Update? && at.None?)
    ensures Absorbed(mode, t, rows + [r])
  {
    assert (rows + [r])[..|rows|] == rows;
    forall j | 0 <= j < |t| && Leads(t, j) && !mode.Create?
      ensures PatchAll(t[j], Combined(rows + [r], Key(t[j].phone))) == t[j]
    {
    }
  }

  /** After an import of ASCII phones every row is absorbed. */
  lemma {:induction false} ImportAbsorbs(mode: Mode, t: Table, rows: seq<Row>)
    requires mode.Update? || AsciiRows(rows)
    ensures Absorbed(mode, Import(mode, t, rows), rows)
  {
    if rows != [] {
      var earlier, r := rows[..|rows| - 1], rows[|rows| - 1];
      assert rows == earlier + [r];
      ImportAbsorbs(mode, t, earlier);
      var t1 := Import(mode, t, earlier);
      var at := Find(t1, Normalize(r.phone));
      FindInRange(t1, Normalize(r.phone));
      if Valid(r) && !mode.Create? && at.Some? {
        PatchStepAbsorbs(mode, t1, earlier, r, at.value);
      } else if Valid(r) && !mode.Update? && at.None? {
        AppendStepAbsorbs(mode, t1, earlier, r);
      } else {
        IdleStepAbsorbs(mode, t1, earlier, r);
      }
    }
  }

  /** What importing does when nothing is added: each leading customer takes the combined patch of its phone. */
  ghost predicate PatchedBy(t: Table, rows: seq<Row>, t': Table) {
    && |t'| == |t|
    && (forall p :: Find(t', p) == Find(t, p))
    && forall j :: 0 <= j < |t| ==>
         && Key(t'[j].phone) == Key(t[j].phone)
         && t'[j] == if Leads(t, j) then PatchAll(t[j], Combined(rows, Key(t[j].phone))) else t[j]
  }

  lemma PatchedByOneMore(t: Table, rows: seq<Row>, t1: Table, r: Row, at: nat)
    requires PatchedBy(t, rows, t1) && Valid(r) && Find(t, Normalize(r.phone)) == Some(at) && at < |t|
    requires Key(t[at].phone) == Normalize(r.phone)
    ensures PatchedBy(t, rows + [r], t1[at := Patch(t1[at], r)])
  {
    PatchKeepsKeys(t1, at, r);
    assert (rows + [r])[..|rows|] == rows;
    var earlier := Combined(rows, Normalize(r.phone));
    if earlier.Some? {
      PatchThen(t[at], earlier.value, r);
    }
    var t2 := t1[at := Patch(t1[at], r)];
    forall j | 0 <= j < |t| && j != at
      ensures t2[j] == if Leads(t, j) then PatchAll(t[j], Combined(rows + [r], Key(t[j].phone))) else t[j]
    {
      assert Leads(t, j) ==> Key(t[j].phone) != Normalize(r.phone);
    }
  }

  lemma PatchedByIdle(t: Table, rows: seq<Row>, t1: Table, r: Row)
    requires PatchedBy(t, rows, t1) && (!Valid(r) || Find(t, Normalize(r.phone)).None?)
    ensures PatchedBy(t, rows + [r], t1)
  {
    forall j | 0 <= j < |t| && Leads(t, j)
      ensures Combined(rows + [r], Key(t[j].phone)) == Combined(rows, Key(t[j].phone))
    {
      CombinedOneMore(rows, r, Key(t[j].phone));
    }
  }

  lemma {:induction false} ImportPatches(mode: Mode, t: Table, rows: seq<Row>)
    requires !mode.Create?
    requires mode.Upsert? ==> forall i :: 0 <= i < |rows| && Valid(rows[i]) ==> Find(t, Normalize(rows[i].phone)).Some?
    ensures PatchedBy(t, rows, Import(mode, t, rows))
  {
    if rows != [] {
      var earlier, r := rows[..|rows| - 1], rows[|rows| - 1];
      assert rows == earlier + [r] && forall i :: 0 <= i < |earlier| ==> earlier[i] == rows[i];
      ImportPatches(mode, t, earlier);
      var at := Find(t, Normalize(r.phone));
      FindInRange(t, Normalize(r.phone));
      if Valid(r) && at.Some? {
        PatchedByOneMore(t, earlier, Import(mode, t, earlier), r, at.value);
      } else {
        PatchedByIdle(t, earlier, Import(mode, t, earlier), r);
      }
    }
  }

  lemma {:induction false} CreateSkipsMatched(t: Table, rows: seq<Row>)
    requires forall i :: 0 <= i < |rows| && Valid(rows[i]) ==> Find(t, Normalize(rows[i].phone)).Some?
    ensures Import(Create, t, rows) == t
  {
    if rows != [] {
      CreateSkipsMatched(t, rows[..|rows| - 1]);
    }
  }

  lemma {:induction false} WideRowAdds(mode: Mode, t: Table, rows: seq<Row>)
    requires !mode.Update?
    ensures |Import(mode, t, rows)| >= |t|
    ensures !AsciiRows(rows) ==> |Import(mode, t, rows)| > |t|
  {
    if rows != [] {
      var earlier, r := rows[..|rows| - 1], rows[|rows| - 1];
      WideRowAdds(mode, t, earlier);
      FindInRange(Import(mode, t, earlier), Normalize(r.phone));
      if Valid(r) && !NoWide(Normalize(r.phone)) {
        WideNeverFound(Import(mode, t, earlier), r);
      } else {
        assert AsciiRows(rows) <==> AsciiRows(earlier) by {
          assert forall i :: 0 <= i < |earlier| ==> earlier[i] == rows[i];
        }
      }
    }
  }

  /** MAIN: importing the same sheet twice leaves the table of the first import if and only if the mode is update
      or no importable row has a phone with a non-ASCII digit. */
  lemma ReimportIsNoOpIffAscii(mode: Mode, t: Table, rows: seq<Row>)
    ensures var once := Import(mode, t, rows);
      Import(mode, once, rows) == once <==> mode.Update? || AsciiRows(rows)
  {
    var once := Import(mode, t, rows);
    if mode.Update? || AsciiRows(rows) {
      ImportAbsorbs(mode, t, rows);
      if mode.Create? {
        CreateSkipsMatched(once, rows);
      } else {
        ImportPatches(mode, once, rows);
      }
    } else {
      WideRowAdds(mode, once, rows);
    }
  }

  ghost predicate OnePerPhone(t: Table) {
    forall i, j :: 0 <= i < j < |t| ==> Key(t[i].phone) != Key(t[j].phone)
  }

  /** The phone keys in use. */
  ghost function KeysOf(t: Table): set<Phone> {
    set c | c in t :: Key(c.phone)
  }

  /** The keys in use after rows have been imported: every valid row's key is. */
  function KeysAfter(keys: set<Phone>, rows: seq<Row>): set<Phone> {
    if rows == [] then keys
    else
      var r := rows[|rows| - 1];
      KeysAfter(keys, rows[..|rows| - 1]) + if Valid(r) then {Key(Normalize(r.phone))} else {}
  }

  /** No valid row with a wide digit strips to a key already in use when its turn comes. */
  predicate NoClash(keys: set<Phone>, rows: seq<Row>) {
    forall i :: 0 <= i < |rows| && Valid(rows[i]) && !NoWide(Normalize(rows[i].phone)) ==>
      Key(Normalize(rows[i].phone)) !in KeysAfter(keys, rows[..i])
  }

  lemma KeysAppended(t: Table, c: Customer)
    ensures KeysOf(t + [c]) == KeysOf(t) + {Key(c.phone)}
    ensures OnePerPhone(t + [c]) <==> OnePerPhone(t) && Key(c.phone) !in KeysOf(t)
  {
    var t' := t + [c];
    assert forall x :: x in t' <==> x in t || x == c;
    assert t'[|t|] == c && forall i :: 0 <= i < |t| ==> t'[i] == t[i];
    if OnePerPhone(t') {
      assert forall i :: 0 <= i < |t| ==> Key(t'[i].phone) != Key(t'[|t|].phone);
    }
  }

  lemma SameKeys(t: Table, t': Table)
    requires |t| == |t'| && forall i :: 0 <= i < |t| ==> Key(t'[i].phone) == Key(t[i].phone)
    ensures KeysOf(t') == KeysOf(t) && (OnePerPhone(t') <==> OnePerPhone(t))
  {
    assert forall i :: 0 <= i < |t| ==> t[i] in t && t'[i] in t';
  }

  /** What one row does to the keys, and when it breaks uniqueness. */
  lemma ApplyRowKeys(mode: Mode, t: Table, r: Row)
    requires !mode.Update?
    ensures var (t', key) := (ApplyRow(mode, t, r).0, Key(Normalize(r.phone)));
      && KeysOf(t') == KeysOf(t) + (if Valid(r) then {key} else {})
      && (OnePerPhone(t') <==> OnePerPhone(t) && !(Valid(r) && !NoWide(Normalize(r.phone)) && key in KeysOf(t)))
  {
    var phone := Normalize(r.phone);
    var at := Find(t, phone);
    FindInRange(t, phone);
    KeyOfNormalized(r.phone);
    if Valid(r) && at.Some? {
      KeyOfNormalized(t[at.value].phone);
      assert t[at.value] in t;
      if mode.Upsert? {
        PatchKeepsKeys(t, at.value, r);
        SameKeys(t, t[at.value := Patch(t[at.value], r)]);
      }
    } else if Valid(r) {
      KeysAppended(t, New(r));
    }
  }

  lemma {:induction false} KeysImported(mode: Mode, t: Table, rows: seq<Row>)
    requires !mode.Update?
    ensures KeysOf(Import(mode, t, rows)) == KeysAfter(KeysOf(t), rows)
  {
    if rows != [] {
      var earlier, r := rows[..|rows| - 1], rows[|rows| - 1];
      KeysImported(mode, t, earlier);
      ApplyRowKeys(mode, Import(mode, t, earlier), r);
    }
  }

  lemma NoClashOneMore(keys: set<Phone>, rows: seq<Row>, r: Row)
    ensures NoClash(keys, rows + [r]) <==>
      (NoClash(keys, rows) &&
       !(Valid(r) && !NoWide(Normalize(r.phone)) && Key(Normalize(r.phone)) in KeysAfter(keys, rows)))
  {
    var all := rows + [r];
    assert all[..|rows|] == rows && all[|rows|] == r;
    assert forall i :: 0 <= i < |rows| ==> all[i] == rows[i] && all[..i] == rows[..i];
  }

  /** MAIN: an import leaves at most one active customer per phone if and only if there was one before and, outside
      update mode, no valid row with a wide digit strips to a key already in use. */
  lemma {:induction false} ImportKeepsOnePerPhone(mode: Mode, t: Table, rows: seq<Row>)
    ensures OnePerPhone(Import(mode, t, rows)) <==> OnePerPhone(t) && (mode.Update? || NoClash(KeysOf(t), rows))
  {
    if mode.Update? {
      ImportPatches(mode, t, rows);
      SameKeys(t, Import(mode, t, rows));
    } else if rows != [] {
      var earlier, r := rows[..|rows| - 1], rows[|rows| - 1];
      assert rows == earlier + [r];
      ImportKeepsOnePerPhone(mode, t, earlier);
      KeysImported(mode, t, earlier);
      ApplyRowKeys(mode, Import(mode, t, earlier), r);
      NoClashOneMore(KeysOf(t), earlier, r);
    }
  }

  /** A sheet of two phones that differ in a wide digit only: create and upsert add two customers under one key. */
  lemma WideDigitsCollide(mode: Mode, name: string, one: nat, two: nat)
    requires !mode.Update? && name != ""
    ensures !OnePerPhone(Import(mode, [], [SheetRow(name, Wide(one)), SheetRow(name, Wide(two))]))
  {
    var a, b := SheetRow(name, Wide(one)), SheetRow(name, Wide(two));
    var rows := [a, b];
    KeyOfPair(one);
    KeyOfPair(two);
    assert rows[..1] == [a] && [a][..0] == [];
    assert KeysAfter(KeysOf([]), [a]) == KeysAfter(KeysOf([]), []) + {Key(Normalize(a.phone))};
    var phone := Normalize(rows[1].phone);
    assert Valid(rows[1]) && !NoWide(phone) && Key(phone) in KeysAfter(KeysOf([]), rows[..1]);
    ImportKeepsOnePerPhone(mode, [], rows);
  }

  function SheetRow(name: string, second: PhoneRune): Row {
    Row([Digit(5), second], name, "", "", "", Number(""), NoDate, "", "")
  }

  lemma KeyOfPair(code: nat)
    ensures var p := Normalize([Digit(5), Wide(code)]);
      p == [Digit(5), Wide(code)] && !NoWide(p) && Key(p) == [Digit(5)]
  {
    var p := [Digit(5), Wide(code)];
    assert p[1..] == [Wide(code)] && [Wide(code)][1..] == [];
    assert Normalize([Wide(code)]) == [Wide(code)] && Key([Wide(code)]) == [];
    assert p[1].Wide?;
  }

  // ---------- what a customer shows in the end ----------

  /** The row is importable and for this phone. */
  predicate RowFor(r: Row, phone: Phone) { Valid(r) && Normalize(r.phone) == phone }

  /** The last row for a phone from position `from` on, the last passport number and the last date among them. */
  function LastRow(rows: seq<Row>, from: nat, phone: Phone): Option<Row> {
    if |rows| <= from then None
    else
      var r := rows[|rows| - 1];
      if RowFor(r, phone) then Some(r) else LastRow(rows[..|rows| - 1], from, phone)
  }

  function LastNumber(rows: seq<Row>, from: nat, phone: Phone): Option<string> {
    if |rows| <= from then None
    else
      var r := rows[|rows| - 1];
      if RowFor(r, phone) && r.passport.Number? then Some(r.passport.number)
      else LastNumber(rows[..|rows| - 1], from, phone)
  }

  function LastDate(rows: seq<Row>, from: nat, phone: Phone): Option<int> {
    if |rows| <= from then None
    else
      var r := rows[|rows| - 1];
      if RowFor(r, phone) && r.birth.Date? then Some(r.birth.day) else LastDate(rows[..|rows| - 1], from, phone)
  }

  predicate SameTexts(c: Customer, base: Customer) {
    && c.phone == base.phone && c.name == base.name && c.nameAr == base.nameAr && c.email == base.email
    && c.nationality == base.nationality && c.notes == base.notes && c.special == base.special
  }

  /** The customer's texts are those of the row. */
  predicate TextsOf(c: Customer, r: Row) {
    && c.phone == Normalize(r.phone) && c.name == r.name && c.nameAr == r.nameAr && c.email == r.email
    && c.nationality == r.nationality && c.notes == r.notes && c.special == r.special
  }

  /** Customer `c`, once `base`, shows the last row of its phone, the last number given and the last date given. */
  predicate ShowsLast(c: Customer, base: Customer, rows: seq<Row>, from: nat, phone: Phone) {
    var (row, number, date) := (LastRow(rows, from, phone), LastNumber(rows, from, phone), LastDate(rows, from, phone));
    && (if row.Some? then TextsOf(c, row.value) else SameTexts(c, base))
    && c.passport == (if number.Some? then number.value else base.passport)
    && c.birth == if date.Some? then date else base.birth
  }

  /** Customer j started as `base`: one of the table, or one added by the row before `from`. */
  predicate Started(t: Table, rows: seq<Row>, j: nat, from: nat, base: Customer) {
    if j < |t| then from == 0 && base == t[j]
    else
      && 0 < from <= |rows| && Valid(rows[from - 1]) && TextsOf(base, rows[from - 1])
      && base.passport == (if rows[from - 1].passport.Number? then rows[from - 1].passport.number else "")
      && base.birth == if rows[from - 1].birth.Date? then Some(rows[from - 1].birth.day) else None
  }

  lemma ShowsOneMore(c: Customer, base: Customer, rows: seq<Row>, from: nat, phone: Phone, r: Row)
    requires from <= |rows| && ShowsLast(c, base, rows, from, phone)
    ensures ShowsLast(if RowFor(r, phone) then Patch(c, r) else c, base, rows + [r], from, phone)
  {
    assert (rows + [r])[..|rows|] == rows;
  }

  lemma ShowsNothingYet(c: Customer, rows: seq<Row>, from: nat, phone: Phone)
    requires |rows| <= from
    ensures ShowsLast(c, c, rows, from, phone)
  {}

  /** What one row does to customer j: it is patched exactly when it leads its phone and the row is for that phone. */
  lemma RowHits(mode: Mode, t: Table, r: Row, j: nat)
    requires j < |t|
    ensures var t' := ApplyRow(mode, t, r).0;
      && j < |t'| && Key(t'[j].phone) == Key(t[j].phone) && (Leads(t', j) <==> Leads(t, j))
      && t'[j] == if !mode.Create? && Leads(t, j) && RowFor(r, Key(t[j].phone)) then Patch(t[j], r) else t[j]
  {
    var at := Find(t, Normalize(r.phone));
    FindInRange(t, Normalize(r.phone));
    FindInRange(t, Key(t[j].phone));
    if Valid(r) && at.Some? {
      if !mode.Create? {
        PatchKeepsKeys(t, at.value, r);
      }
    } else if Valid(r) {
      FindAppended(t, New(r), Key(t[j].phone));
    }
  }

  /** MAIN: in every mode each customer of the imported table started in the old table or in the row that added it. In
      update and upsert mode the one its phone matches then shows the last row for that phone, with the last number and
      the last date given since; every other customer shows what it started as. */
  lemma {:induction false} CustomersShowLastRows(mode: Mode, t: Table, rows: seq<Row>, j: nat)
      returns (from: nat, base: Customer)
    requires j < |Import(mode, t, rows)|
    ensures var t' := Import(mode, t, rows);
      && Started(t, rows, j, from, base) && from <= |rows|
      && if !mode.Create? && Leads(t', j) then ShowsLast(t'[j], base, rows, from, Key(t'[j].phone)) else t'[j] == base
  {
    if rows == [] {
      from, base := 0, t[j];
      ShowsNothingYet(base, rows, 0, Key(base.phone));
    } else {
      var earlier, r := rows[..|rows| - 1], rows[|rows| - 1];
      assert rows == earlier + [r];
      var t1 := Import(mode, t, earlier);
      if j < |t1| {
        from, base := CustomersShowLastRows(mode, t, earlier, j);
        RowHits(mode, t1, r, j);
        if !mode.Create? && Leads(t1, j) {
          ShowsOneMore(t1[j], base, earlier, from, Key(t1[j].phone), r);
        }
      } else {
        ImportGrows(mode, t, earlier);
        from, base := |rows|, Import(mode, t, rows)[j];
        ShowsNothingYet(base, rows, from, Key(base.phone));
      }
    }
  }

  lemma {:induction false} ImportGrows(mode: Mode, t: Table, rows: seq<Row>)
    ensures |t| <= |Import(mode, t, rows)|
  {
    if rows != [] {
      ImportGrows(mode, t, rows[..|rows| - 1]);
    }
  }

  // ---------- the batched processor ----------

  /** A row with its number in the sheet, where the heading is row 1. */
  datatype Pending = Pending(number: nat, row: Row)

  /** The job's counters and the numbers of the rows with a recorded error. */
  datatype Report = Report(success: nat, failed: nat, skipped: nat, errors: set<nat>)

  const BLANK: Report := Report(0, 0, 0, {})

  function Rows(batch: seq<Pending>): (rows: seq<Row>)
    ensures |rows| == |batch|
  {
    seq(|batch|, i requires 0 <= i < |batch| => batch[i].row)
  }

  function Numbered(rows: seq<Row>): (batch: seq<Pending>)
    ensures Rows(batch) == rows
  {
    seq(|rows|, i requires 0 <= i < |rows| => Pending(i + 2, rows[i]))
  }

  function Counted(rep: Report, number: nat, o: Outcome): Report {
    match o
    case Success => rep.(success := rep.success + 1)
    case Failed => rep.(failed := rep.failed + 1, errors := rep.errors + {number})
    case Skipped => rep.(skipped := rep.skipped + 1)
  }

  /** The report after importing the rows one by one. */
  function Reported(mode: Mode, t: Table, batch: seq<Pending>, rep: Report): Report {
    if batch == [] then rep
    else
      var front, p := batch[..|batch| - 1], batch[|batch| - 1];
      Counted(Reported(mode, t, front, rep), p.number, ApplyRow(mode, Import(mode, t, Rows(front)), p.row).1)
  }

  /** What importing `batch` into `t` on top of `rep` amounts to. */
  function Outlook(mode: Mode, t: Table, batch: seq<Pending>, rep: Report): (Table, Report) {
    (Import(mode, t, Rows(batch)), Reported(mode, t, batch, rep))
  }

  lemma OutlookOneMore(mode: Mode, t: Table, batch: seq<Pending>, rep: Report, p: Pending)
    ensures var (t1, rep1) := Outlook(mode, t, batch, rep);
      var (t2, o) := ApplyRow(mode, t1, p.row);
      Outlook(mode, t, batch + [p], rep) == (t2, Counted(rep1, p.number, o))
  {
    assert (batch + [p])[..|batch|] == batch;
    assert Rows(batch + [p])[..|batch|] == Rows(batch);
  }

  /** A row that fails validation may be counted before the rows buffered ahead of it. */
  lemma {:induction false} FailureCommutes(mode: Mode, t: Table, batch: seq<Pending>, rep: Report, number: nat)
    ensures Reported(mode, t, batch, Counted(rep, number, Failed)) ==
      Counted(Reported(mode, t, batch, rep), number, Failed)
  {
    if batch != [] {
      FailureCommutes(mode, t, batch[..|batch| - 1], rep, number);
    }
  }

  /** A row fails when its name is empty, its phone has neither digit nor plus, its date does not parse, or there is
      nobody to update. */
  predicate RowFails(mode: Mode, t: Table, r: Row) {
    || r.name == "" || (forall i :: 0 <= i < |r.phone| ==> r.phone[i].Other?) || r.birth.BadDate?
    || (mode.Update? && forall i :: 0 <= i < |t| ==> Key(t[i].phone) != Normalize(r.phone))
  }

  lemma {:induction false} NothingNormalized(p: Phone)
    ensures Normalize(p) == [] <==> forall i :: 0 <= i < |p| ==> p[i].Other?
  {
    if p != [] {
      NothingNormalized(p[1..]);
      assert forall i :: 0 < i < |p| ==> p[i] == p[1..][i - 1];
    }
  }

  function Failing(mode: Mode, t: Table, rows: seq<Row>): (fails: seq<bool>)
    ensures |fails| == |rows| && forall i :: 0 <= i < |rows| ==> fails[i] == RowFails(mode, t, rows[i])
  {
    seq(|rows|, i requires 0 <= i < |rows| => RowFails(mode, t, rows[i]))
  }

  /** Every row is counted once, and the rows with errors are exactly the failing ones. */
  ghost predicate Tallies(fails: seq<bool>, rep: Report) {
    && rep.success + rep.failed + rep.skipped == |fails| && rep.failed == |rep.errors|
    && forall number :: number in rep.errors <==> 2 <= number < |fails| + 2 && fails[number - 2]
  }

  lemma TalliesOneMore(fails: seq<bool>, rep: Report, o: Outcome)
    requires Tallies(fails, rep)
    ensures Tallies(fails + [o.Failed?], Counted(rep, |fails| + 2, o))
  {
    assert (|fails| + 2) !in rep.errors;
  }

  lemma OutcomeFails(mode: Mode, t: Table, rows: seq<Row>, r: Row)
    ensures var o := ApplyRow(mode, Import(mode, t, rows), r).1;
      (o.Failed? <==> RowFails(mode, t, r)) && (o.Skipped? ==> mode.Create?)
  {
    NothingNormalized(r.phone);
    FindInRange(t, Normalize(r.phone));
    if mode.Update? {
      ImportPatches(mode, t, rows);
    }
  }

  lemma FailingOneMore(mode: Mode, t: Table, rows: seq<Row>, r: Row)
    ensures var o := ApplyRow(mode, Import(mode, t, rows), r).1;
      Failing(mode, t, rows + [r]) == Failing(mode, t, rows) + [o.Failed?] && (o.Skipped? ==> mode.Create?)
  {
    OutcomeFails(mode, t, rows, r);
  }

  lemma ReportOneMore(mode: Mode, t: Table, rows: seq<Row>, r: Row)
    ensures Reported(mode, t, Numbered(rows + [r]), BLANK) ==
      Counted(Reported(mode, t, Numbered(rows), BLANK), |rows| + 2, ApplyRow(mode, Import(mode, t, rows), r).1)
  {
    var p := Pending(|rows| + 2, r);
    assert Numbered(rows + [r]) == Numbered(rows) + [p];
    OutlookOneMore(mode, t, Numbered(rows), BLANK, p);
  }

  ghost predicate SoundReport(mode: Mode, t: Table, rows: seq<Row>, rep: Report) {
    Tallies(Failing(mode, t, rows), rep) && (!mode.Create? ==> rep.skipped == 0)
  }

  lemma ReportExactOneMore(mode: Mode, t: Table, rows: seq<Row>, r: Row)
    requires SoundReport(mode, t, rows, Reported(mode, t, Numbered(rows), BLANK))
    ensures SoundReport(mode, t, rows + [r], Reported(mode, t, Numbered(rows + [r]), BLANK))
  {
    ReportOneMore(mode, t, rows, r);
    FailingOneMore(mode, t, rows, r);
    var o := ApplyRow(mode, Import(mode, t, rows), r).1;
    TalliesOneMore(Failing(mode, t, rows), Reported(mode, t, Numbered(rows), BLANK), o);
  }

  /** MAIN: the report counts every row once, skips only in create mode, and lists exactly the rows that fail against
      the table as it was before the import. */
  lemma {:induction false} ReportExact(mode: Mode, t: Table, rows: seq<Row>)
    ensures SoundReport(mode, t, rows, Reported(mode, t, Numbered(rows), BLANK))
  {
    if rows == [] {
      assert Numbered(rows) == [] && Failing(mode, t, rows) == [];
    } else {
      var n := |rows| - 1;
      assert rows == rows[..n] + [rows[n]];
      ReportExact(mode, t, rows[..n]);
      ReportExactOneMore(mode, t, rows[..n], rows[n]);
    }
  }

  /** One transaction: the buffered rows in order. */
  method Flush(mode: Mode, t0: Table, batch: seq<Pending>, rep0: Report) returns (t: Table, rep: Report)
    ensures (t, rep) == Outlook(mode, t0, batch, rep0)
  {
    t, rep := t0, rep0;
    for i := 0 to |batch|
      invariant (t, rep) == Outlook(mode, t0, batch[..i], rep0)
    {
      assert batch[..i + 1] == batch[..i] + [batch[i]];
      OutlookOneMore(mode, t0, batch[..i], rep0, batch[i]);
      var (next, outcome) := ApplyRow(mode, t, batch[i].row);
      t := next;
      ghost var before := rep;
      match outcome {
      case Failed => rep := rep.(failed := rep.failed + 1, errors := rep.errors + {batch[i].number});
      case Skipped => rep := rep.(skipped := rep.skipped + 1);
      case Success => rep := rep.(success := rep.success + 1);
      }
      assert rep == Counted(before, batch[i].number, outcome);
    }
    assert batch[..|batch|] == batch;
  }

  /** Takes one row: invalid ones fail at once, valid ones are buffered, and a full buffer is flushed. */
  method Take(mode: Mode, t0: Table, buffer: seq<Pending>, rep0: Report, p: Pending)
    returns (t: Table, batch: seq<Pending>, rep: Report)
    requires |buffer| < BATCH_SIZE
    ensures |batch| < BATCH_SIZE && Outlook(mode, t, batch, rep) == Outlook(mode, t0, buffer + [p], rep0)
  {
    t, batch, rep := t0, buffer, rep0;
    if !Valid(p.row) {
      OutlookOneMore(mode, t0, buffer, rep0, p);
      FailureCommutes(mode, t0, buffer, rep0, p.number);
      rep := rep.(failed := rep.failed + 1, errors := rep.errors + {p.number});
      return;
    }
    batch := batch + [p];
    if |batch| >= BATCH_SIZE {
      t, rep := Flush(mode, t, batch, rep);
      batch := [];
    }
  }

  /** MAIN: reading rows in order and applying them in transactions of BATCH_SIZE gives the table and the report of the
      row-by-row import. */
  method Process(mode: Mode, t0: Table, rows: seq<Row>) returns (t: Table, rep: Report)
    ensures t == Import(mode, t0, rows)
    ensures rep == Reported(mode, t0, Numbered(rows), BLANK)
  {
    t, rep := t0, BLANK;
    ghost var all := Numbered(rows);
    var batch: seq<Pending> := [];
    for i := 0 to |rows|
      invariant |batch| < BATCH_SIZE && Outlook(mode, t, batch, rep) == Outlook(mode, t0, all[..i], BLANK)
    {
      var p := Pending(i + 2, rows[i]);
      assert all[..i + 1] == all[..i] + [p];
      OutlookOneMore(mode, t0, all[..i], BLANK, p);
      OutlookOneMore(mode, t, batch, rep, p);
      t, batch, rep := Take(mode, t, batch, rep, p);
    }
    assert all[..|rows|] == all;
    t, rep := Flush(mode, t, batch, rep);
  }
}
