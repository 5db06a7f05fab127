/** Contextual forms and the lam-alef ligature (internal/adapter/pdf/arabic.go), following cursive joining,
    section 9.2 of the Unicode Standard. */
module ArabicForms {
  import opened Prelude

  type Rune = nat

  const LAM: Rune := 0x0644

  /** How a letter joins; `iso` is its isolated form, and its further forms follow it consecutively. */
  datatype Joining =
    | Dual(iso: Rune)   // isolated, final, initial, medial
    | Right(iso: Rune)  // isolated, final
    | NonJoining

  function JoiningOf(r: Rune): Joining {
    if 0x0622 <= r <= 0x0625 then Right(0xFE81 + 2 * (r - 0x0622))
    else if r == 0x0626 then Dual(0xFE89)
    else if r == 0x0627 then Right(0xFE8D)
    else if r == 0x0628 then Dual(0xFE8F)
    else if r == 0x0629 then Right(0xFE93)
    else if 0x062A <= r <= 0x062E then Dual(0xFE95 + 4 * (r - 0x062A))
    else if 0x062F <= r <= 0x0632 then Right(0xFEA9 + 2 * (r - 0x062F))
    else if 0x0633 <= r <= 0x063A then Dual(0xFEB1 + 4 * (r - 0x0633))
    else if 0x0641 <= r <= 0x0647 then Dual(0xFED1 + 4 * (r - 0x0641))
    else if 0x0648 <= r <= 0x0649 then Right(0xFEED + 2 * (r - 0x0648))
    else if r == 0x064A then Dual(0xFEF1)
    else NonJoining
  }

  /** The rows of the two form tables, as the source lists them. */
  lemma FormTables()
    ensures JoiningOf(0x0626) == Dual(0xFE89) && JoiningOf(0x0628) == Dual(0xFE8F) && JoiningOf(0x062A) == Dual(0xFE95)
    ensures JoiningOf(0x062B) == Dual(0xFE99) && JoiningOf(0x062C) == Dual(0xFE9D) && JoiningOf(0x062D) == Dual(0xFEA1)
    ensures JoiningOf(0x062E) == Dual(0xFEA5) && JoiningOf(0x0633) == Dual(0xFEB1) && JoiningOf(0x0634) == Dual(0xFEB5)
    ensures JoiningOf(0x0635) == Dual(0xFEB9) && JoiningOf(0x0636) == Dual(0xFEBD) && JoiningOf(0x0637) == Dual(0xFEC1)
    ensures JoiningOf(0x0638) == Dual(0xFEC5) && JoiningOf(0x0639) == Dual(0xFEC9) && JoiningOf(0x063A) == Dual(0xFECD)
    ensures JoiningOf(0x0641) == Dual(0xFED1) && JoiningOf(0x0642) == Dual(0xFED5) && JoiningOf(0x0643) == Dual(0xFED9)
    ensures JoiningOf(0x0644) == Dual(0xFEDD) && JoiningOf(0x0645) == Dual(0xFEE1) && JoiningOf(0x0646) == Dual(0xFEE5)
    ensures JoiningOf(0x0647) == Dual(0xFEE9) && JoiningOf(0x064A) == Dual(0xFEF1)
    ensures JoiningOf(0x0622) == Right(0xFE81) && JoiningOf(0x0623) == Right(0xFE83)
    ensures JoiningOf(0x0624) == Right(0xFE85)
    ensures JoiningOf(0x0625) == Right(0xFE87) && JoiningOf(0x0627) == Right(0xFE8D)
    ensures JoiningOf(0x0629) == Right(0xFE93)
    ensures JoiningOf(0x062F) == Right(0xFEA9) && JoiningOf(0x0630) == Right(0xFEAB)
    ensures JoiningOf(0x0631) == Right(0xFEAD)
    ensures JoiningOf(0x0632) == Right(0xFEAF) && JoiningOf(0x0648) == Right(0xFEED)
    ensures JoiningOf(0x0649) == Right(0xFEEF)
  {}

  /** And nothing else joins. */
  lemma OthersDoNotJoin(r: Rune)
    ensures JoiningOf(r).NonJoining? <==> r < 0x0622 || 0x063B <= r <= 0x0640 || 0x064A < r
  {}

  predicate JoinsDual(r: Rune) { JoiningOf(r).Dual? }

  predicate JoinsRight(r: Rune) { !JoiningOf(r).NonJoining? }

  /** A neighbour that joins from the left of letter i, and one that it can join to. */
  predicate JoinedFromPrev(s: seq<Rune>, i: nat)
    requires i < |s|
  {
    i > 0 && JoinsDual(s[i - 1])
  }

  predicate JoinedToNext(s: seq<Rune>, i: nat)
    requires i < |s|
  {
    i + 1 < |s| && JoinsRight(s[i + 1])
  }

  function FormAt(s: seq<Rune>, i: nat): Rune
    requires i < |s|
  {
    var prev, next := JoinedFromPrev(s, i), JoinedToNext(s, i);
    match JoiningOf(s[i])
    case Dual(iso) => iso + (if prev && next then 3 else if next then 2 else if prev then 1 else 0)
    case Right(iso) => iso + (if prev then 1 else 0)
    case NonJoining => s[i]
  }

  function Forms(s: seq<Rune>): (t: seq<Rune>)
    ensures |t| == |s|
  {
    seq(|s|, i requires 0 <= i < |s| => FormAt(s, i))
  }

  /** The letter behind a presentation form. */
  function Letter(c: Rune): Rune {
    if 0xFE81 <= c <= 0xFE88 then 0x0622 + (c - 0xFE81) / 2
    else if 0xFE89 <= c <= 0xFE8C then 0x0626
    else if 0xFE8D <= c <= 0xFE8E then 0x0627
    else if 0xFE8F <= c <= 0xFE92 then 0x0628
    else if 0xFE93 <= c <= 0xFE94 then 0x0629
    else if 0xFE95 <= c <= 0xFEA8 then 0x062A + (c - 0xFE95) / 4
    else if 0xFEA9 <= c <= 0xFEB0 then 0x062F + (c - 0xFEA9) / 2
    else if 0xFEB1 <= c <= 0xFED0 then 0x0633 + (c - 0xFEB1) / 4
    else if 0xFED1 <= c <= 0xFEEC then 0x0641 + (c - 0xFED1) / 4
    else if 0xFEED <= c <= 0xFEF0 then 0x0648 + (c - 0xFEED) / 2
    else if 0xFEF1 <= c <= 0xFEF4 then 0x064A
    else c
  }

  predicate IsForm(r: Rune) { 0xFE81 <= r <= 0xFEFC }

  /** Text without presentation forms. */
  predicate Plain(s: seq<Rune>) {
    forall i :: 0 <= i < |s| ==> !IsForm(s[i])
  }

  lemma DualForm(r: Rune, shape: nat)
    requires JoiningOf(r).Dual? && shape < 4
    ensures Letter(JoiningOf(r).iso + shape) == r && 0xFE81 <= JoiningOf(r).iso + shape <= 0xFEF4
  {}

  lemma RightForm(r: Rune, shape: nat)
    requires JoiningOf(r).Right? && shape < 2
    ensures Letter(JoiningOf(r).iso + shape) == r && 0xFE81 <= JoiningOf(r).iso + shape <= 0xFEF4
  {}

  /** Every form names its letter, and only letters of the tables become forms. */
  lemma FormDecodes(s: seq<Rune>, i: nat)
    requires i < |s| && !IsForm(s[i])
    ensures Letter(FormAt(s, i)) == s[i]
    ensures if JoiningOf(s[i]).NonJoining? then FormAt(s, i) == s[i] else 0xFE81 <= FormAt(s, i) <= 0xFEF4
  {
    match JoiningOf(s[i])
    case Dual(iso) => DualForm(s[i], FormAt(s, i) - iso);
    case Right(iso) => RightForm(s[i], FormAt(s, i) - iso);
    case NonJoining =>
  }

  // ---------- joining ----------

  /** Which form letter r shows as c: 0 isolated, 1 final, 2 initial, 3 medial. */
  function Shown(r: Rune, c: Rune): int {
    match JoiningOf(r)
    case NonJoining => 0
    case Dual(iso) => c - iso
    case Right(iso) => c - iso
  }

  /** MAIN: a letter is drawn joining its successor exactly when the successor is drawn joining back. */
  lemma JoinsAgree(s: seq<Rune>, i: nat)
    requires i + 1 < |s|
    ensures (Shown(s[i], Forms(s)[i]) in {2, 3}) <==> (Shown(s[i + 1], Forms(s)[i + 1]) in {1, 3})
    ensures JoinsDual(s[i]) && JoinsRight(s[i + 1]) <==> Shown(s[i], Forms(s)[i]) in {2, 3}
  {
    assert Forms(s)[i] == FormAt(s, i) && Forms(s)[i + 1] == FormAt(s, i + 1);
  }

  // ---------- ligatures ----------

  predicate IsLam(c: Rune) { c == 0xFEDF || c == 0xFEE0 || c == LAM }

  /** The ligature an alef makes with a preceding lam. */
  function Ligature(c: Rune): Option<Rune> {
    if c == 0xFE8E || c == 0x0627 then Some(0xFEFC)
    else if c == 0xFE82 || c == 0x0622 then Some(0xFEF6)
    else if c == 0xFE84 || c == 0x0623 then Some(0xFEF8)
    else if c == 0xFE88 || c == 0x0625 then Some(0xFEFA)
    else None
  }

  predicate Ligates(s: seq<Rune>) {
    |s| >= 2 && IsLam(s[0]) && Ligature(s[1]).Some?
  }

  function Ligate(s: seq<Rune>): seq<Rune> {
    if s == [] then []
    else if Ligates(s) then [Ligature(s[1]).value] + Ligate(s[2..])
    else [s[0]] + Ligate(s[1..])
  }

  /** The runes behind one output rune. */
  function DecodeRune(c: Rune): seq<Rune> {
    if c == 0xFEFC then [LAM, 0x0627]
    else if c == 0xFEF6 then [LAM, 0x0622]
    else if c == 0xFEF8 then [LAM, 0x0623]
    else if c == 0xFEFA then [LAM, 0x0625]
    else [Letter(c)]
  }

  function Decode(t: seq<Rune>): seq<Rune> {
    if t == [] then [] else DecodeRune(t[0]) + Decode(t[1..])
  }

  /** `t` shows plain text `s` letter by letter, before ligatures. */
  ghost predicate Shows(t: seq<Rune>, s: seq<Rune>) {
    && |t| == |s| && Plain(s)
    && forall i :: 0 <= i < |s| ==> Letter(t[i]) == s[i] && !(0xFEF5 <= t[i] <= 0xFEFC)
  }

  lemma LigatureDecodes(lam: Rune, alef: Rune)
    requires IsLam(lam) && Ligature(alef).Some?
    ensures DecodeRune(Ligature(alef).value) == [Letter(lam), Letter(alef)]
  {}

  lemma DecodeCons(c: Rune, t: seq<Rune>)
    ensures Decode([c] + t) == DecodeRune(c) + Decode(t)
  {
    assert ([c] + t)[1..] == t;
  }

  lemma {:induction false} DecodeLigated(t: seq<Rune>, s: seq<Rune>)
    requires Shows(t, s)
    ensures Decode(Ligate(t)) == s
    decreases |t|
  {
    if t == [] {
    } else if Ligates(t) {
      DecodeLigated(t[2..], s[2..]);
      LigatureDecodes(t[0], t[1]);
      DecodeCons(Ligature(t[1]).value, Ligate(t[2..]));
      assert s == [s[0], s[1]] + s[2..];
    } else {
      DecodeLigated(t[1..], s[1..]);
      DecodeCons(t[0], Ligate(t[1..]));
      assert DecodeRune(t[0]) == [s[0]];
      assert s == [s[0]] + s[1..];
    }
  }

  /** MAIN: decoding forms and ligatures restores the text of a run. */
  lemma ShapingDecodes(s: seq<Rune>)
    requires Plain(s)
    ensures Decode(Ligate(Forms(s))) == s
  {
    forall i | 0 <= i < |s|
      ensures Letter(Forms(s)[i]) == s[i] && !(0xFEF5 <= Forms(s)[i] <= 0xFEFC)
    {
      FormDecodes(s, i);
    }
    DecodeLigated(Forms(s), s);
  }

  /** The alefs that ligate with a lam. */
  predicate IsAlef(r: Rune) { r == 0x0622 || r == 0x0623 || r == 0x0625 || r == 0x0627 }

  /** Every lam before an alef is in a form the ligature pass looks for, and so is the alef. */
  ghost predicate LamsReady(t: seq<Rune>) {
    forall i :: 0 <= i < |t| - 1 && Letter(t[i]) == LAM && IsAlef(Letter(t[i + 1])) ==>
      IsLam(t[i]) && Ligature(t[i + 1]).Some?
  }

  ghost predicate NoLamAlef(t: seq<Rune>) {
    forall i :: 0 <= i < |t| - 1 ==> !(Letter(t[i]) == LAM && IsAlef(Letter(t[i + 1])))
  }

  /** The output starts with the first rune or with a ligature. */
  lemma LigateFirst(t: seq<Rune>)
    requires t != []
    ensures Ligate(t) != [] && (Ligate(t)[0] == t[0] || 0xFEF5 <= Ligate(t)[0] <= 0xFEFC)
  {}

  lemma {:induction false} LigatesAll(t: seq<Rune>)
    requires LamsReady(t)
    ensures NoLamAlef(Ligate(t))
    decreases |t|
  {
    if |t| >= 2 {
      var rest := if Ligates(t) then t[2..] else t[1..];
      var first := if Ligates(t) then Ligature(t[1]).value else t[0];
      assert LamsReady(rest) by {
        var n := |t| - |rest|;
        assert forall i :: 0 <= i < |rest| ==> rest[i] == t[i + n];
      }
      LigatesAll(rest);
      if rest != [] {
        LigateFirst(rest);
        assert !Ligates(t) ==> rest[0] == t[1];
      }
      assert Ligate(t) == [first] + Ligate(rest);
    }
  }

  /** MAIN: in a shaped run no lam is followed by an alef: every such pair became one ligature. */
  lemma NoPairLeft(s: seq<Rune>)
    requires Plain(s)
    ensures NoLamAlef(Ligate(Forms(s)))
  {
    var t := Forms(s);
    forall i | 0 <= i < |t| - 1 && Letter(t[i]) == LAM && IsAlef(Letter(t[i + 1]))
      ensures IsLam(t[i]) && Ligature(t[i + 1]).Some?
    {
      FormDecodes(s, i);
      FormDecodes(s, i + 1);
      assert t[i] == FormAt(s, i) && t[i + 1] == FormAt(s, i + 1);
    }
    LigatesAll(t);
  }

  // ---------- the passes over buffers ----------

  method ApplyForms(input: array<Rune>) returns (out: array<Rune>)
    ensures fresh(out) && out.Length == input.Length && out[..] == Forms(input[..])
  {
    out := new Rune[input.Length](i requires 0 <= i < input.Length reads input => input[i]);
    for i := 0 to input.Length
      invariant forall k :: 0 <= k < i ==> out[k] == FormAt(input[..], k)
      invariant forall k :: i <= k < input.Length ==> out[k] == input[k]
    {
      var prev := i > 0 && JoinsDual(input[i - 1]);
      var next := i + 1 < input.Length && JoinsRight(input[i + 1]);
      match JoiningOf(input[i])
      case Dual(iso) =>
        if prev && next { out[i] := iso + 3; }
        else if !prev && next { out[i] := iso + 2; }
        else if prev && !next { out[i] := iso + 1; }
        else { out[i] := iso; }
      case Right(iso) =>
        out[i] := if prev then iso + 1 else iso;
      case NonJoining =>
    }
  }

  /** `done` is the output for the first i runes of s. */
  ghost predicate LigatedUpTo(s: seq<Rune>, i: nat, done: seq<Rune>) {
    i <= |s| && done + Ligate(s[i..]) == Ligate(s)
  }

  predicate LigatesAt(s: seq<Rune>, i: nat) {
    i + 1 < |s| && IsLam(s[i]) && Ligature(s[i + 1]).Some?
  }

  lemma LigateOne(s: seq<Rune>, i: nat, done: seq<Rune>)
    requires LigatedUpTo(s, i, done) && i < |s|
    ensures LigatesAt(s, i) ==> LigatedUpTo(s, i + 2, done + [Ligature(s[i + 1]).value])
    ensures !LigatesAt(s, i) ==> LigatedUpTo(s, i + 1, done + [s[i]])
  {
    if LigatesAt(s, i) {
      assert s[i..][2..] == s[i + 2..];
      assert Ligate(s[i..]) == [Ligature(s[i + 1]).value] + Ligate(s[i + 2..]);
    } else {
      assert s[i..][1..] == s[i + 1..];
      assert Ligate(s[i..]) == [s[i]] + Ligate(s[i + 1..]);
    }
  }

  /** The ligature pass writes into the front of the buffer it reads; the write position never passes the
      read position. */
  method LamAlef(a: array<Rune>) returns (n: nat)
    modifies a
    ensures n <= a.Length && a[..n] == Ligate(old(a[..]))
  {
    ghost var s, done := a[..], [];
    n := 0;
    var i := 0;
    assert s[0..] == s;
    while i < a.Length
      invariant n <= i <= a.Length
      invariant forall k :: i <= k < a.Length ==> a[k] == s[k]
      invariant LigatedUpTo(s, i, done) && a[..n] == done
    {
      LigateOne(s, i, done);
      var c := a[i];
      i := i + 1;
      if i < a.Length && IsLam(c) && Ligature(a[i]).Some? {
        c := Ligature(a[i]).value;
        i := i + 1;
      }
      a[n] := c;
      n := n + 1;
      done := done + [c];
    }
    assert s[i..] == [];
  }

  function Reversed(s: seq<Rune>): seq<Rune> {
    seq(|s|, i requires 0 <= i < |s| => s[|s| - 1 - i])
  }

  /** Reverses the first n runes in place. */
  method ReverseRunes(a: array<Rune>, n: nat)
    requires n <= a.Length
    modifies a
    ensures a[..n] == Reversed(old(a[..n]))
  {
    var i, j := 0, n - 1;
    while i < j
      invariant 0 <= i <= j + 1 <= n && i + j == n - 1
      invariant forall k :: 0 <= k < i || j < k < n ==> a[k] == old(a[n - 1 - k])
      invariant forall k :: i <= k <= j ==> a[k] == old(a[k])
    {
      a[i], a[j] := a[j], a[i];
      i, j := i + 1, j - 1;
    }
  }
}
