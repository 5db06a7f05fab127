/** Fixed-point currency conversion with eight-decimal rates (internal/domain/fx/rate.go,
    internal/app/fx/converter.go) and the dashboard's per-currency sums (internal/app/dashboard/revenue.go). */
module Fx {
  import opened Prelude

  // One unit of a rate.
  const S: int := 100_000_000

  datatype Failure = RateNotFound | Overflow | Invalid

  function Abs(x: int): nat { if x < 0 then -x else x }

  predicate IsInt64(x: int) { -0x8000_0000_0000_0000 <= x < 0x8000_0000_0000_0000 }

  /** Truncated division, then one step away from zero when the remainder is at least half the divisor. */
  function RoundDiv(n: int, d: int): int
    requires d > 0
  {
    var q := if n >= 0 then n / d else -(-n / d);
    var r := n - q * d;
    if 2 * Abs(r) >= d then (if n < 0 then q - 1 else q + 1) else q
  }

  /** Reference: q is a nearest integer to n/d, and of two equally near the one further from zero. */
  predicate Nearest(n: int, d: int, q: int) {
    2 * Abs(q * d - n) <= d && (2 * Abs(q * d - n) == d ==> if n < 0 then q * d < n else n < q * d)
  }

  lemma DivMod(m: nat, d: int)
    requires d > 0
    ensures m == (m / d) * d + m % d && 0 <= m % d < d
  {}

  /** Rounding works on the magnitude and keeps the sign. */
  lemma RoundDivMagnitude(n: int, d: int)
    requires d > 0
    ensures var q := Abs(n) / d + if 2 * (Abs(n) % d) >= d then 1 else 0;
      RoundDiv(n, d) == if n < 0 then -q else q
  {
    var m := Abs(n);
    DivMod(m, d);
    assert -(m / d) * d == -((m / d) * d);
  }

  lemma RoundedProduct(q: int, d: int, up: bool, neg: bool)
    ensures var k := if up then q + 1 else q;
      (if neg then -k else k) * d == var kd := if up then q * d + d else q * d; if neg then -kd else kd
  {
    assert (q + 1) * d == q * d + d;
    assert -q * d == -(q * d);
    assert -(q + 1) * d == -((q + 1) * d);
  }

  lemma RoundDivNearest(n: int, d: int)
    requires d > 0
    ensures Nearest(n, d, RoundDiv(n, d))
  {
    var m := Abs(n);
    var q, rem := m / d, m % d;
    RoundDivMagnitude(n, d);
    DivMod(m, d);
    RoundedProduct(q, d, 2 * rem >= d, n < 0);
    RoundedIsNearest(n, d, q * d, rem, RoundDiv(n, d));
  }

  lemma RoundedIsNearest(n: int, d: int, qd: int, rem: int, k: int)
    requires d > 0 && Abs(n) == qd + rem && 0 <= rem < d
    requires k * d == var kd := if 2 * rem >= d then qd + d else qd; if n < 0 then -kd else kd
    ensures Nearest(n, d, k)
  {}

  /** At most one integer is nearest in this sense. */
  lemma NearestUnique(n: int, d: int, p: int, q: int)
    requires d > 0 && Nearest(n, d, p) && Nearest(n, d, q)
    ensures p == q
  {
    var pd, qd := p * d, q * d;
    assert (p - q) * d == pd - qd && (q - p) * d == qd - pd;
    if p > q { MulMono(1, p - q, d); }
    if q > p { MulMono(1, q - p, d); }
  }

  lemma MulMono(a: int, b: int, c: int)
    requires a <= b && 0 <= c
    ensures a * c <= b * c
  {
    assert (b - a) * c >= 0;
  }

  /** Negation commutes with rounding. */
  lemma RoundDivOdd(n: int, d: int)
    requires d > 0
    ensures RoundDiv(-n, d) == -RoundDiv(n, d)
  {
    RoundDivNearest(n, d);
    RoundDivNearest(-n, d);
    assert (-RoundDiv(n, d)) * d == -(RoundDiv(n, d) * d);
    NearestUnique(-n, d, RoundDiv(-n, d), -RoundDiv(n, d));
  }

  lemma NearestMonotone(n: int, m: int, d: int, p: int, q: int)
    requires d > 0 && n < m && Nearest(n, d, p) && Nearest(m, d, q)
    ensures p <= q
  {
    var pd, qd := p * d, q * d;
    assert (p - q) * d == pd - qd;
    if p > q { MulMono(1, p - q, d); }
  }

  /** Rounding is monotone. */
  lemma RoundDivMonotone(n: int, m: int, d: int)
    requires d > 0 && n <= m
    ensures RoundDiv(n, d) <= RoundDiv(m, d)
  {
    if n < m {
      RoundDivNearest(n, d);
      RoundDivNearest(m, d);
      NearestMonotone(n, m, d, RoundDiv(n, d), RoundDiv(m, d));
    }
  }

  // ---------- rates ----------

  function Checked(q: int): Result<int, Failure> {
    if IsInt64(q) then Ok(q) else Err(Overflow)
  }

  function Apply(amount: int, scaled: int): Result<int, Failure> {
    if scaled <= 0 then Err(Invalid) else Checked(RoundDiv(amount * scaled, S))
  }

  function Invert(scaled: int): Result<int, Failure> {
    if scaled <= 0 then Err(Invalid)
    else
      var inv := RoundDiv(S * S, scaled);
      if !IsInt64(inv) then Err(Overflow) else if inv == 0 then Err(Invalid) else Ok(inv)
  }

  datatype Rate = Rate(base: string, quote: string, scaled: int, day: int)

  /** The newer of the direct and the inverse rate; a tie prefers direct. */
  function Pick(direct: Option<Rate>, inverse: Option<Rate>): Result<Rate, Failure> {
    if direct.None? && inverse.None? then Err(RateNotFound)
    else if inverse.None? || (direct.Some? && inverse.value.day <= direct.value.day) then Ok(direct.value)
    else
      match Invert(inverse.value.scaled)
      case Err(e) => Err(e)
      case Ok(scaled) => Ok(Rate(inverse.value.quote, inverse.value.base, scaled, inverse.value.day))
  }

  /** Stored rates: the latest one per pair effective on the day asked about. */
  type Book = (string, string) -> Option<Rate>

  function Convert(book: Book, amount: int, from: string, to: string): Result<(int, Rate), Failure> {
    if from == to then Ok((amount, Rate(from, to, S, 0)))
    else
      match Pick(book(from, to), book(to, from))
      case Err(e) => Err(e)
      case Ok(rate) =>
        match Apply(amount, rate.scaled)
        case Err(e) => Err(e)
        case Ok(v) => Ok((v, rate))
  }

  // ---------- which rate a conversion uses ----------

  /** The stored rate in the direction asked for is used: there is no inverse one, or that one is not newer. */
  predicate UsesDirect(book: Book, from: string, to: string) {
    book(from, to).Some? && (book(to, from).None? || book(to, from).value.day <= book(from, to).value.day)
  }

  /** What the stored rates say about from and to: the direct rate, or the rounded inverse of the other, or 0. */
  function Quote(book: Book, from: string, to: string): int {
    if UsesDirect(book, from, to) then book(from, to).value.scaled
    else if book(to, from).Some? && book(to, from).value.scaled > 0 then RoundDiv(S * S, book(to, from).value.scaled)
    else 0
  }

  /** An inverse quote times the stored rate is nearest to one. */
  lemma QuoteInverts(book: Book, from: string, to: string)
    requires !UsesDirect(book, from, to) && book(to, from).Some? && book(to, from).value.scaled > 0
    ensures Nearest(S * S, book(to, from).value.scaled, Quote(book, from, to))
  {
    RoundDivNearest(S * S, book(to, from).value.scaled);
  }

  /** MAIN: a conversion uses the newer stored rate, the direct one on a tie, and an inverse one inverted to the nearest
      unit; the rate it reports reads from the one currency to the other and is dated like the stored one. */
  lemma ConvertUsesStoredRates(book: Book, amount: int, from: string, to: string)
    requires Convert(book, amount, from, to).Ok? && from != to
    ensures var (v, rate) := Convert(book, amount, from, to).value;
      && rate.scaled == Quote(book, from, to)
      && (book(from, to).Some? || book(to, from).Some?)
      && (book(from, to).Some? ==> book(from, to).value.day <= rate.day)
      && (book(to, from).Some? ==> book(to, from).value.day <= rate.day)
      && (if UsesDirect(book, from, to) then rate == book(from, to).value
          else
            && book(to, from).Some? && rate.day == book(to, from).value.day
            && book(to, from).value.scaled > 0 && Nearest(S * S, book(to, from).value.scaled, rate.scaled)
            && rate.base == book(to, from).value.quote && rate.quote == book(to, from).value.base)
  {
    if !UsesDirect(book, from, to) {
      assert Invert(book(to, from).value.scaled).Ok?;
      QuoteInverts(book, from, to);
    }
  }

  /** Equal currencies convert to the same amount at one to one, without any stored rate. */
  lemma SameCurrencyUnchanged(book: Book, amount: int, currency: string)
    ensures Convert(book, amount, currency, currency).Ok?
    ensures var (v, rate) := Convert(book, amount, currency, currency).value; v == amount && rate.scaled == 100_000_000
  {}

  /** Between two currencies a rate is missing exactly when neither direction is stored. */
  lemma RateMissingIff(book: Book, amount: int, from: string, to: string)
    ensures Convert(book, amount, from, to) == Err(RateNotFound) <==>
      (from != to && book(from, to).None? && book(to, from).None?)
  {}

  /** A conversion between two currencies succeeds exactly when a rate is stored, what is used of it is positive, and
      the inverse and the result fit 64 bits. */
  lemma ConvertSucceedsIff(book: Book, amount: int, from: string, to: string)
    requires from != to
    ensures var q := Quote(book, from, to);
      Convert(book, amount, from, to).Ok? <==>
        && (book(from, to).Some? || book(to, from).Some?) && 0 < q
        && (UsesDirect(book, from, to) || IsInt64(q)) && IsInt64(RoundDiv(amount * q, S))
  {
    if !UsesDirect(book, from, to) && book(to, from).Some? && book(to, from).value.scaled > 0 {
      RoundDivMonotone(0, S * S, book(to, from).value.scaled);
    }
  }

  /** Conversion is odd: whenever both directions of an amount convert, they are opposite. */
  lemma ConvertOdd(book: Book, amount: int, from: string, to: string)
    requires Convert(book, amount, from, to).Ok? && Convert(book, -amount, from, to).Ok?
    ensures Convert(book, -amount, from, to).value.0 == -Convert(book, amount, from, to).value.0
  {
    if from != to {
      var scaled := Pick(book(from, to), book(to, from)).value.scaled;
      assert -amount * scaled == -(amount * scaled);
      RoundDivOdd(amount * scaled, S);
    }
  }

  lemma ConvertMonotone(book: Book, a: int, b: int, from: string, to: string)
    requires a <= b && Convert(book, a, from, to).Ok? && Convert(book, b, from, to).Ok?
    ensures Convert(book, a, from, to).value.0 <= Convert(book, b, from, to).value.0
  {
    if from != to {
      var scaled := Pick(book(from, to), book(to, from)).value.scaled;
      MulMono(a, b, scaled);
      RoundDivMonotone(a * scaled, b * scaled, S);
    }
  }

  /** A converted amount is within half a minor unit of the amount times what the stored rates say. */
  lemma ConvertWithinHalf(book: Book, amount: int, from: string, to: string)
    requires Convert(book, amount, from, to).Ok?
    ensures var (v, rate) := Convert(book, amount, from, to).value;
      && 2 * Abs(v * S - amount * rate.scaled) <= S
      && (if from == to then v == amount else rate.scaled == Quote(book, from, to))
  {
    if from != to {
      ConvertUsesStoredRates(book, amount, from, to);
      RoundDivNearest(amount * Pick(book(from, to), book(to, from)).value.scaled, S);
    }
  }

  // ---------- there and back ----------

  lemma AbsMul(x: int, y: int)
    ensures Abs(x * y) == Abs(x) * Abs(y)
  {
    if x >= 0 && y < 0 { assert x * y == -(x * -y); assert x * -y >= 0; }
    if x < 0 && y >= 0 { assert x * y == -(-x * y); assert -x * y >= 0; }
    if x < 0 && y < 0 { assert x * y == -x * -y; }
    if x >= 0 && y >= 0 { assert x * y >= 0; }
  }

  /** The exact error of going through the inverse and back is the sum of the three rounding errors, weighted. */
  lemma ErrorDecomposition(a: int, r: int, inv: int, b: int, c: int)
    ensures S * S * (c - a) == S * (c * S - b * r) + r * (b * S - a * inv) + a * (inv * r - S * S)
  {
    calc {
      S * (c * S - b * r) + r * (b * S - a * inv) + a * (inv * r - S * S);
      { assert S * (c * S - b * r) == S * S * c - S * (b * r); }
      { assert r * (b * S - a * inv) == S * (b * r) - a * (inv * r) by {
          assert r * (b * S) == S * (b * r);
          assert r * (a * inv) == a * (inv * r);
        } }
      { assert a * (inv * r - S * S) == a * (inv * r) - S * S * a; }
      S * S * c - S * S * a;
      S * S * (c - a);
    }
  }

  lemma WeightedError(w: int, e: int, bound: int)
    requires 2 * Abs(e) <= bound
    ensures 2 * Abs(w * e) <= Abs(w) * bound
  {
    AbsMul(w, e);
    MulMono(2 * Abs(e), bound, Abs(w));
    assert Abs(w) * (2 * Abs(e)) == 2 * (Abs(w) * Abs(e));
    assert bound * Abs(w) == Abs(w) * bound;
    assert 2 * Abs(e) * Abs(w) == Abs(w) * (2 * Abs(e));
  }

  lemma ErrorBound(a: int, r: int, inv: int, b: int, c: int)
    requires r > 0 && 2 * Abs(inv * r - S * S) <= r
    requires 2 * Abs(b * S - a * inv) <= S && 2 * Abs(c * S - b * r) <= S
    ensures 2 * S * S * Abs(c - a) <= Abs(a) * r + r * S + S * S
  {
    var x, y, z := S * (c * S - b * r), r * (b * S - a * inv), a * (inv * r - S * S);
    ErrorDecomposition(a, r, inv, b, c);
    WeightedError(S, c * S - b * r, S);
    WeightedError(r, b * S - a * inv, S);
    WeightedError(a, inv * r - S * S, r);
    assert 2 * Abs(x + y + z) <= S * S + r * S + Abs(a) * r;
    AbsMul(S * S, c - a);
  }

  /** MAIN: converting with the inverted rate and back with the direct one returns within
      |a|*r/(2*10^16) + r/(2*10^8) + 1/2 of the start; stated times 2*10^16. */
  lemma ThereAndBack(a: int, r: int)
    requires Invert(r).Ok? && Apply(a, Invert(r).value).Ok?
    requires Apply(Apply(a, Invert(r).value).value, r).Ok?
    ensures var c := Apply(Apply(a, Invert(r).value).value, r).value;
      2 * S * S * Abs(c - a) <= Abs(a) * r + r * S + S * S
  {
    var inv := Invert(r).value;
    var b := Apply(a, inv).value;
    RoundDivNearest(S * S, r);
    RoundDivNearest(a * inv, S);
    RoundDivNearest(b * r, S);
    ErrorBound(a, r, inv, b, Apply(b, r).value);
  }

  // ---------- dashboard sums ----------

  datatype Amount = Amount(currency: string, minor: int, count: int)

  datatype Stat = Stat(amount: int, count: int, missing: set<string>)

  /** Two's complement 64-bit addition. */
  function Wrap(x: int): int {
    (x + 0x8000_0000_0000_0000) % 0x1_0000_0000_0000_0000 - 0x8000_0000_0000_0000
  }

  lemma WrapAdd(x: int, y: int)
    ensures Wrap(Wrap(x) + y) == Wrap(x + y)
    ensures IsInt64(x) ==> Wrap(x) == x
  {
    var m := 0x1_0000_0000_0000_0000;
    var k := (x + 0x8000_0000_0000_0000) / m;
    assert Wrap(x) == x - k * m;
    assert (x + y + 0x8000_0000_0000_0000 - k * m) % m == (x + y + 0x8000_0000_0000_0000) % m;
  }

  /** What one row adds to the total, or that it has no rate, or that the sum fails. */
  function RowValue(book: Book, to: string, r: Amount): Result<int, Failure> {
    if r.minor == 0 then Ok(0)
    else if r.currency == to then Ok(r.minor)
    else
      match Convert(book, r.minor, r.currency, to)
      case Err(e) => Err(e)
      case Ok(v) => Ok(v.0)
  }

  /** Reference total over unbounded integers. */
  function Ideal(book: Book, to: string, rows: seq<Amount>): Result<Stat, Failure> {
    if rows == [] then Ok(Stat(0, 0, {}))
    else
      match Ideal(book, to, rows[..|rows| - 1])
      case Err(e) => Err(e)
      case Ok(st) =>
        var r := rows[|rows| - 1];
        match RowValue(book, to, r)
        case Ok(v) => Ok(Stat(st.amount + v, st.count + r.count, st.missing))
        case Err(e) =>
          if e.RateNotFound? then Ok(Stat(st.amount, st.count + r.count, st.missing + {r.currency})) else Err(e)
  }

  /** The row needs a conversion and the stored rates allow one. */
  predicate Converts(book: Book, to: string, r: Amount) {
    r.minor != 0 && r.currency != to && (book(r.currency, to).Some? || book(to, r.currency).Some?)
  }

  function Conversions(book: Book, to: string, rows: seq<Amount>): nat {
    if rows == [] then 0
    else Conversions(book, to, rows[..|rows| - 1]) + if Converts(book, to, rows[|rows| - 1]) then 1 else 0
  }

  /** The exact value of a row in units of 10^-8 minor units, at the stored rates. */
  function ExactRow(book: Book, to: string, r: Amount): int {
    if r.currency == to then r.minor * S
    else if Converts(book, to, r) then r.minor * Quote(book, r.currency, to)
    else 0
  }

  function Exact(book: Book, to: string, rows: seq<Amount>): int {
    if rows == [] then 0 else Exact(book, to, rows[..|rows| - 1]) + ExactRow(book, to, rows[|rows| - 1])
  }

  /** What a row adds is within half a minor unit of its exact value, and exact without a conversion. */
  lemma RowWithinHalf(book: Book, to: string, r: Amount)
    requires RowValue(book, to, r).Ok? || RowValue(book, to, r) == Err(RateNotFound)
    ensures var v := if RowValue(book, to, r).Ok? then RowValue(book, to, r).value else 0;
      if Converts(book, to, r) then 2 * Abs(v * S - ExactRow(book, to, r)) <= S else v * S == ExactRow(book, to, r)
  {
    RateMissingIff(book, r.minor, r.currency, to);
    if Converts(book, to, r) {
      ConvertWithinHalf(book, r.minor, r.currency, to);
    }
  }

  function CountOf(rows: seq<Amount>): int {
    if rows == [] then 0 else CountOf(rows[..|rows| - 1]) + rows[|rows| - 1].count
  }

  lemma SumOneMore(book: Book, to: string, rows: seq<Amount>, r: Amount) returns (v: int)
    requires Ideal(book, to, rows + [r]).Ok?
    ensures Ideal(book, to, rows).Ok?
    ensures var (st, st') := (Ideal(book, to, rows).value, Ideal(book, to, rows + [r]).value);
      st'.amount == st.amount + v && st'.count == st.count + r.count
    ensures var e := ExactRow(book, to, r); if Converts(book, to, r) then 2 * Abs(v * S - e) <= S else v * S == e
  {
    assert (rows + [r])[..|rows|] == rows;
    v := if RowValue(book, to, r).Ok? then RowValue(book, to, r).value else 0;
    RowWithinHalf(book, to, r);
  }

  lemma ReferenceOneMore(book: Book, to: string, rows: seq<Amount>, r: Amount)
    ensures Exact(book, to, rows + [r]) == Exact(book, to, rows) + ExactRow(book, to, r)
    ensures CountOf(rows + [r]) == CountOf(rows) + r.count
    ensures Conversions(book, to, rows + [r]) == Conversions(book, to, rows) + if Converts(book, to, r) then 1 else 0
  {
    assert (rows + [r])[..|rows|] == rows;
  }

  lemma ErrorOneMore(sum: int, exact: int, k: nat, v: int, e: int, converted: bool)
    requires 2 * Abs(sum * S - exact) <= k * S
    requires if converted then 2 * Abs(v * S - e) <= S else v * S == e
    ensures 2 * Abs((sum + v) * S - (exact + e)) <= (k + if converted then 1 else 0) * S
  {
    assert (sum + v) * S == sum * S + v * S;
  }

  /** MAIN: a sum with k converted rows is within k/2 minor units of the exact rational total at the stored rates; times
      2*10^8. Every row is counted, with or without a rate. */
  lemma {:induction false} SumWithinHalfPerRow(book: Book, to: string, rows: seq<Amount>)
    requires Ideal(book, to, rows).Ok?
    ensures 2 * Abs(Ideal(book, to, rows).value.amount * S - Exact(book, to, rows)) <= Conversions(book, to, rows) * S
    ensures Ideal(book, to, rows).value.count == CountOf(rows)
  {
    if rows != [] {
      var front, r := rows[..|rows| - 1], rows[|rows| - 1];
      assert rows == front + [r];
      var v := SumOneMore(book, to, front, r);
      SumWithinHalfPerRow(book, to, front);
      ReferenceOneMore(book, to, front, r);
      ErrorOneMore(Ideal(book, to, front).value.amount, Exact(book, to, front), Conversions(book, to, front),
                   v, ExactRow(book, to, r), Converts(book, to, r));
    }
  }

  /** The row has an amount in another currency and no stored rate in either direction. */
  predicate Unquoted(book: Book, to: string, r: Amount) {
    r.minor != 0 && r.currency != to && book(r.currency, to).None? && book(to, r.currency).None?
  }

  /** Currencies reported as unconverted are exactly those of non-zero rows without a rate. */
  lemma {:induction false} MissingExact(book: Book, to: string, rows: seq<Amount>, cur: string)
    requires Ideal(book, to, rows).Ok?
    ensures cur in Ideal(book, to, rows).value.missing <==>
      exists i :: 0 <= i < |rows| && rows[i].currency == cur && Unquoted(book, to, rows[i])
  {
    if rows != [] {
      var front, r := rows[..|rows| - 1], rows[|rows| - 1];
      MissingExact(book, to, front, cur);
      RateMissingIff(book, r.minor, r.currency, to);
      assert forall i :: 0 <= i < |front| ==> front[i] == rows[i];
      if r.currency == cur && Unquoted(book, to, r) {
        assert rows[|rows| - 1].currency == cur;
      }
    }
  }

  lemma {:induction false} IdealFails(book: Book, to: string, rows: seq<Amount>, n: nat)
    requires n <= |rows| && Ideal(book, to, rows[..n]).Err?
    ensures Ideal(book, to, rows) == Ideal(book, to, rows[..n])
  {
    if n == |rows| {
      assert rows[..n] == rows;
    } else {
      assert rows[..|rows| - 1][..n] == rows[..n];
      IdealFails(book, to, rows[..|rows| - 1], n);
    }
  }

  /** converter.sum: the loop accumulates in 64 bits, so it gives the reference total reduced to 64 bits, and the
      total itself whenever that fits. */
  method Sum(book: Book, to: string, rows: seq<Amount>) returns (res: Result<Stat, Failure>)
    ensures match Ideal(book, to, rows)
            case Err(e) => res == Err(e)
            case Ok(st) =>
              && res == Ok(st.(amount := Wrap(st.amount)))
              && (IsInt64(st.amount) ==> res == Ok(st))
  {
    var amount, count, missing := 0, 0, {};
    assert rows[..0] == [];
    for i := 0 to |rows|
      invariant Ideal(book, to, rows[..i]).Ok?
      invariant var st := Ideal(book, to, rows[..i]).value;
        amount == Wrap(st.amount) && count == st.count && missing == st.missing
    {
      var r := rows[i];
      assert rows[..i + 1][..i] == rows[..i];
      ghost var before := Ideal(book, to, rows[..i]).value.amount;
      count := count + r.count;
      if r.minor == 0 {
        continue;
      }
      if r.currency == to {
        WrapAdd(before, r.minor);
        amount := Wrap(amount + r.minor);
        continue;
      }
      var conv := Convert(book, r.minor, r.currency, to);
      if conv.Err? {
        if conv.error.RateNotFound? {
          missing := missing + {r.currency};
          continue;
        }
        IdealFails(book, to, rows, i + 1);
        return Err(conv.error);
      }
      WrapAdd(before, conv.value.0);
      amount := Wrap(amount + conv.value.0);
    }
    assert rows[..|rows|] == rows;
    WrapAdd(Ideal(book, to, rows).value.amount, 0);
    res := Ok(Stat(amount, count, missing));
  }
}
