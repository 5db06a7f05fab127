/** Which texts are painted alike (internal/adapter/pdf/arabic.go): a space or mark behind an Arabic run is painted
    where one in front of it would be. */
module ArabicTwins {
  import opened ArabicForms
  import opened ArabicText

  /** A space or a mark outside the Arabic script: it joins a run of either kind. */
  predicate Floats(sc: Script, x: Rune) {
    !sc.arabic(x) && (sc.mark(x) || x == SPACE)
  }

  /** No plain run ends in a space or a mark directly before an Arabic run. */
  predicate NoneBeforeArabic(sc: Script, runs: seq<Run>) {
    forall k :: 0 < k < |runs| && runs[k].arabic && runs[k - 1].text != [] ==>
      !Floats(sc, runs[k - 1].text[|runs[k - 1].text| - 1])
  }

  /** Rune x at Arabic run `core`, which follows plain text `lead`. */
  datatype Spot = Spot(pre: seq<Run>, lead: seq<Rune>, core: seq<Rune>, x: Rune, post: seq<Run>)
  {
    /** No plain run at all when the lead is empty. */
    function Leading(): seq<Run> { if lead == [] then [] else [Run(lead, false)] }

    /** x ends the Arabic run. */
    function Behind(): seq<Run> { pre + (Leading() + [Run(core + [x], true)]) + post }

    /** x ends the plain run before it. */
    function Before(): seq<Run> { pre + [Run(lead + [x], false), Run(core, true)] + post }
  }

  predicate SpotOk(sc: Script, sp: Spot) {
    Floats(sc, sp.x) && sp.core != [] && (sp.lead == [] ==> sp.pre == [])
  }

  // ---------- concatenation ----------

  lemma {:induction false} JoinConcat(a: seq<Run>, b: seq<Run>)
    ensures Join(a + b) == Join(a) + Join(b)
  {
    if b == [] {
      assert a + b == a;
    } else {
      var front, last := b[..|b| - 1], b[|b| - 1];
      assert b == front + [last];
      JoinConcat(a, front);
      JoinConcatOneMore(a, front, last);
    }
  }

  lemma JoinConcatOneMore(a: seq<Run>, b: seq<Run>, run: Run)
    requires Join(a + b) == Join(a) + Join(b)
    ensures Join(a + (b + [run])) == Join(a) + Join(b + [run])
  {
    JoinAppend(a + b, run);
    JoinAppend(b, run);
    Associates(a, b, [run]);
    Associates(Join(a), Join(b), run.text);
  }

  lemma Associates<T>(x: seq<T>, y: seq<T>, z: seq<T>)
    ensures x + (y + z) == x + y + z
  {}

  lemma ShapedConcat(a: seq<Run>, b: seq<Run>)
    ensures Shaped(a + b) == Shaped(a) + Shaped(b)
  {}

  lemma PlainConcat(a: seq<Rune>, b: seq<Rune>)
    ensures Plain(a + b) <==> Plain(a) && Plain(b)
  {
    assert forall i :: 0 <= i < |a| ==> (a + b)[i] == a[i];
    assert forall i :: 0 <= i < |b| ==> (a + b)[|a| + i] == b[i];
  }

  /** The second part must start a new run. */
  predicate Linked(sc: Script, a: seq<Run>, b: seq<Run>) {
    a != [] && b != [] && b[0].text != [] ==> !Stays(sc, a[|a| - 1].arabic, b[0].text[0])
  }

  lemma WellConcat(sc: Script, a: seq<Run>, b: seq<Run>)
    ensures WellSplit(sc, a + b) <==> WellSplit(sc, a) && WellSplit(sc, b) && Linked(sc, a, b)
  {
    var c := a + b;
    assert forall k :: 0 <= k < |a| ==> c[k] == a[k];
    assert forall k :: 0 <= k < |b| ==> c[|a| + k] == b[k];
    if WellSplit(sc, c) {
      forall k | 0 <= k < |b|
        ensures RunOk(sc, b[k]) && (k > 0 ==> !Stays(sc, b[k - 1].arabic, b[k].text[0]))
      {
        assert RunOk(sc, c[|a| + k]);
      }
      assert a != [] && b != [] ==> c[|a|] == b[0] && c[|a| - 1] == a[|a| - 1];
    }
    if WellSplit(sc, a) && WellSplit(sc, b) && Linked(sc, a, b) {
      forall k | 0 <= k < |c|
        ensures RunOk(sc, c[k]) && (k > 0 ==> !Stays(sc, c[k - 1].arabic, c[k].text[0]))
      {
        if k >= |a| {
          assert c[k] == b[k - |a|] && RunOk(sc, b[k - |a|]);
        }
      }
    }
  }

  // ---------- the two texts of a spot ----------

  lemma RunOkWith(sc: Script, text: seq<Rune>, x: Rune, arabic: bool)
    requires Floats(sc, x) && (arabic ==> text != [])
    ensures RunOk(sc, Run(text + [x], arabic)) <==> text == [] || RunOk(sc, Run(text, arabic))
  {
    var longer := text + [x];
    assert forall i :: 0 <= i < |text| ==> longer[i] == text[i];
    assert longer[|text|] == x;
  }

  lemma MiddleWell(sc: Script, sp: Spot)
    requires SpotOk(sc, sp)
    ensures WellSplit(sc, sp.Leading() + [Run(sp.core + [sp.x], true)]) <==>
      WellSplit(sc, [Run(sp.lead + [sp.x], false), Run(sp.core, true)])
  {
    RunOkWith(sc, sp.lead, sp.x, false);
    RunOkWith(sc, sp.core, sp.x, true);
    var a, b := sp.Leading() + [Run(sp.core + [sp.x], true)], [Run(sp.lead + [sp.x], false), Run(sp.core, true)];
    assert (sp.core + [sp.x])[0] == sp.core[0];
    if WellSplit(sc, a) {
      assert RunOk(sc, a[|a| - 1]) && RunOk(sc, a[0]);
      assert RunOk(sc, b[0]) && RunOk(sc, b[1]);
    }
    if WellSplit(sc, b) {
      assert RunOk(sc, b[0]) && RunOk(sc, b[1]);
      assert RunOk(sc, a[|a| - 1]) && RunOk(sc, a[0]);
    }
  }

  /** Moving x across the Arabic run keeps the runs well split. */
  lemma BothWell(sc: Script, sp: Spot)
    requires SpotOk(sc, sp)
    ensures WellSplit(sc, sp.Behind()) <==> WellSplit(sc, sp.Before())
  {
    var a, b := sp.Leading() + [Run(sp.core + [sp.x], true)], [Run(sp.lead + [sp.x], false), Run(sp.core, true)];
    MiddleWell(sc, sp);
    WellConcat(sc, sp.pre, a);
    WellConcat(sc, sp.pre, b);
    WellConcat(sc, sp.pre + a, sp.post);
    WellConcat(sc, sp.pre + b, sp.post);
    assert sp.lead != [] ==> (sp.lead + [sp.x])[0] == sp.lead[0];
    assert Linked(sc, sp.pre, a) <==> Linked(sc, sp.pre, b);
    assert (sp.pre + a)[|sp.pre + a| - 1].arabic && (sp.pre + b)[|sp.pre + b| - 1].arabic;
  }

  lemma JoinMiddle(pre: seq<Run>, mid: seq<Run>, post: seq<Run>)
    ensures Join(pre + mid + post) == Join(pre) + Join(mid) + Join(post)
    ensures Join(Shaped(pre + mid + post)) == Join(Shaped(pre)) + Join(Shaped(mid)) + Join(Shaped(post))
  {
    JoinConcat(pre + mid, post);
    JoinConcat(pre, mid);
    ShapedConcat(pre + mid, post);
    ShapedConcat(pre, mid);
    JoinConcat(Shaped(pre) + Shaped(mid), Shaped(post));
    JoinConcat(Shaped(pre), Shaped(mid));
  }

  lemma JoinOne(run: Run)
    ensures Join([run]) == run.text
  {
    JoinAppend([], run);
    assert [] + [run] == [run];
  }

  lemma {:induction false} LigateAppend(t: seq<Rune>, x: Rune)
    requires Ligature(x).None?
    ensures Ligate(t + [x]) == Ligate(t) + [x]
    decreases |t|
  {
    var u := t + [x];
    if t == [] {
      assert u[1..] == [];
    } else if Ligates(t) {
      LigateAppend(t[2..], x);
      assert u[2..] == t[2..] + [x];
    } else {
      LigateAppend(t[1..], x);
      assert u[1..] == t[1..] + [x];
      assert !Ligates(u);
    }
  }

  lemma FormsWith(sc: Script, core: seq<Rune>, x: Rune)
    requires Sound(sc) && Floats(sc, x)
    ensures Forms(core + [x]) == Forms(core) + [x] && Ligature(x).None?
  {
    var s := core + [x];
    assert !JoinsRight(x) && !IsForm(x);
    ShapedRune(sc, s, |core|);
    forall i | 0 <= i < |core|
      ensures FormAt(s, i) == FormAt(core, i)
    {
      assert s[i] == core[i];
    }
  }

  lemma ReversedWith(t: seq<Rune>, x: Rune)
    ensures Reversed(t + [x]) == [x] + Reversed(t)
  {}

  /** A space or mark at the end of an Arabic run changes no form, and is painted first. */
  lemma ShapedWith(sc: Script, core: seq<Rune>, x: Rune)
    requires Sound(sc) && Floats(sc, x)
    ensures ShapedText(Run(core + [x], true)) == [x] + ShapedText(Run(core, true))
  {
    FormsWith(sc, core, x);
    LigateAppend(Forms(core), x);
    ReversedWith(Ligate(Forms(core)), x);
  }

  lemma PlainThenRun(plain: Run, run: Run)
    requires !plain.arabic
    ensures Join(Shaped([plain, run])) == plain.text + ShapedText(run)
  {
    var shown := Run(ShapedText(run), run.arabic);
    assert Shaped([plain, run]) == [plain, shown];
    JoinPair(plain, shown);
  }

  lemma OneRun(run: Run)
    ensures Join([run]) == run.text && Join(Shaped([run])) == ShapedText(run)
  {
    var shown := Run(ShapedText(run), run.arabic);
    assert Shaped([run]) == [shown];
    JoinOne(run);
    JoinOne(shown);
  }

  /** A plain lead, which may be empty, and one run after it. */
  lemma LeadThenRun(sp: Spot, run: Run)
    ensures Join(sp.Leading() + [run]) == sp.lead + run.text
    ensures Join(Shaped(sp.Leading() + [run])) == sp.lead + ShapedText(run)
  {
    if sp.lead == [] {
      assert sp.Leading() + [run] == [run];
      OneRun(run);
    } else {
      var lead := Run(sp.lead, false);
      assert sp.Leading() + [run] == [lead, run];
      JoinPair(lead, run);
      PlainThenRun(lead, run);
    }
  }

  /** What the two middles are painted as, and what they say. */
  lemma Middles(sc: Script, sp: Spot)
    requires Sound(sc) && Floats(sc, sp.x)
    ensures var a := sp.Leading() + [Run(sp.core + [sp.x], true)];
      var b := [Run(sp.lead + [sp.x], false), Run(sp.core, true)];
      && Join(a) == sp.lead + sp.core + [sp.x] && Join(b) == sp.lead + [sp.x] + sp.core
      && Join(Shaped(a)) == Join(Shaped(b))
  {
    var behind, plain, core := Run(sp.core + [sp.x], true), Run(sp.lead + [sp.x], false), Run(sp.core, true);
    LeadThenRun(sp, behind);
    JoinPair(plain, core);
    PlainThenRun(plain, core);
    ShapedWith(sc, sp.core, sp.x);
    Associates(sp.lead, sp.core, [sp.x]);
    Associates(sp.lead, [sp.x], ShapedText(core));
  }

  /** The texts of a spot differ, have the same runes and are painted alike. */
  lemma SpotCollides(sc: Script, sp: Spot)
    requires Sound(sc) && SpotOk(sc, sp) && WellSplit(sc, sp.Behind())
    ensures var (s, s') := (Join(sp.Behind()), Join(sp.Before()));
      && s != s' && (Plain(s) <==> Plain(s'))
      && Split(sc, s) == sp.Behind() && Split(sc, s') == sp.Before()
      && Shape(sc, s) == Shape(sc, s')
  {
    var a, b := sp.Leading() + [Run(sp.core + [sp.x], true)], [Run(sp.lead + [sp.x], false), Run(sp.core, true)];
    BothWell(sc, sp);
    SplitOfJoin(sc, sp.Behind());
    SplitOfJoin(sc, sp.Before());
    JoinMiddle(sp.pre, a, sp.post);
    JoinMiddle(sp.pre, b, sp.post);
    Middles(sc, sp);
    CoreIsArabic(sc, sp);
    TextsDiffer(Join(sp.pre), sp.lead, sp.core, sp.x, Join(sp.post));
    SameRunes(Join(sp.pre), sp.lead, sp.core, sp.x, Join(sp.post));
  }

  lemma CoreIsArabic(sc: Script, sp: Spot)
    requires SpotOk(sc, sp) && WellSplit(sc, sp.Behind())
    ensures sc.arabic(sp.core[0])
  {
    var at := |sp.pre| + |sp.Leading()|;
    assert sp.Behind()[at] == Run(sp.core + [sp.x], true);
    assert RunOk(sc, sp.Behind()[at]);
  }

  lemma TextsDiffer(pre: seq<Rune>, lead: seq<Rune>, core: seq<Rune>, x: Rune, post: seq<Rune>)
    requires core != [] && core[0] != x
    ensures pre + (lead + core + [x]) + post != pre + (lead + [x] + core) + post
  {
    var at := |pre| + |lead|;
    assert (pre + (lead + core + [x]) + post)[at] == core[0];
    assert (pre + (lead + [x] + core) + post)[at] == x;
  }

  lemma SameRunes(pre: seq<Rune>, lead: seq<Rune>, core: seq<Rune>, x: Rune, post: seq<Rune>)
    ensures Plain(pre + (lead + core + [x]) + post) <==> Plain(pre + (lead + [x] + core) + post)
  {
    PlainConcat(pre + (lead + core + [x]), post);
    PlainConcat(pre, lead + core + [x]);
    PlainConcat(lead + core, [x]);
    PlainConcat(lead, core);
    PlainConcat(pre + (lead + [x] + core), post);
    PlainConcat(pre, lead + [x] + core);
    PlainConcat(lead + [x], core);
    PlainConcat(lead, [x]);
  }

  // ---------- finding spots ----------

  lemma LooseSpot(sc: Script, runs: seq<Run>) returns (sp: Spot)
    requires WellSplit(sc, runs) && !Tight(sc, runs)
    ensures SpotOk(sc, sp) && sp.Behind() == runs
  {
    var k :| 0 <= k < |runs| && runs[k].arabic && runs[k].text != [] && !sc.arabic(runs[k].text[|runs[k].text| - 1]);
    assert RunOk(sc, runs[k]);
    var text, n := runs[k].text, |runs[k].text| - 1;
    assert Stays(sc, true, text[n]) && n > 0;
    assert text == text[..n] + [text[n]];
    if k == 0 {
      sp := Spot([], [], text[..n], text[n], runs[1..]);
    } else {
      RunsAlternate(sc, runs, k);
      assert RunOk(sc, runs[k - 1]);
      sp := Spot(runs[..k - 1], runs[k - 1].text, text[..n], text[n], runs[k + 1..]);
    }
  }

  lemma LeadingSpot(sc: Script, runs: seq<Run>) returns (sp: Spot)
    requires WellSplit(sc, runs) && !NoneBeforeArabic(sc, runs)
    ensures SpotOk(sc, sp) && sp.Before() == runs
  {
    var k :| 0 < k < |runs| && runs[k].arabic && runs[k - 1].text != [] &&
             Floats(sc, runs[k - 1].text[|runs[k - 1].text| - 1]);
    RunsAlternate(sc, runs, k);
    assert RunOk(sc, runs[k]) && RunOk(sc, runs[k - 1]);
    var text, n := runs[k - 1].text, |runs[k - 1].text| - 1;
    assert text == text[..n] + [text[n]];
    sp := Spot(runs[..k - 1], text[..n], runs[k].text, text[n], runs[k + 1..]);
    if k > 1 {
      RunsAlternate(sc, runs, k - 1);
      assert !Stays(sc, true, text[0]) && Stays(sc, true, text[n]);
    }
  }

  lemma BeforeShows(sc: Script, sp: Spot)
    requires SpotOk(sc, sp)
    ensures !NoneBeforeArabic(sc, sp.Before())
  {
    var k := |sp.pre| + 1;
    assert sp.Before()[k] == Run(sp.core, true) && sp.Before()[k - 1] == Run(sp.lead + [sp.x], false);
  }

  // ---------- every text has one tight twin ----------

  /** Runes inside Arabic runs. */
  function ArabicRunes(runs: seq<Run>): nat {
    if runs == [] then 0
    else ArabicRunes(runs[..|runs| - 1]) + if runs[|runs| - 1].arabic then |runs[|runs| - 1].text| else 0
  }

  lemma {:induction false} ArabicRunesConcat(a: seq<Run>, b: seq<Run>)
    ensures ArabicRunes(a + b) == ArabicRunes(a) + ArabicRunes(b)
  {
    if b == [] {
      assert a + b == a;
    } else {
      var n := |b| - 1;
      ArabicRunesConcat(a, b[..n]);
      assert (a + b)[..|a| + n] == a + b[..n];
    }
  }

  lemma FewerArabicRunes(sp: Spot)
    ensures ArabicRunes(sp.Before()) < ArabicRunes(sp.Behind())
  {
    var behind, plain, core := Run(sp.core + [sp.x], true), Run(sp.lead + [sp.x], false), Run(sp.core, true);
    ArabicRunesConcat(sp.pre + (sp.Leading() + [behind]), sp.post);
    ArabicRunesConcat(sp.pre, sp.Leading() + [behind]);
    ArabicRunesConcat(sp.Leading(), [behind]);
    ArabicRunesConcat(sp.pre + [plain, core], sp.post);
    ArabicRunesConcat(sp.pre, [plain, core]);
    assert [plain, core][..1] == [plain] && [plain][..0] == [] && [behind][..0] == [];
    assert ArabicRunes([plain]) == 0;
    assert sp.lead != [] ==> [Run(sp.lead, false)][..0] == [];
  }

  /** Moving spaces and marks in front of their Arabic runs one by one ends in a tight text painted alike. */
  lemma {:induction false} TightTwin(sc: Script, s: seq<Rune>) returns (u: seq<Rune>)
    requires Sound(sc) && Plain(s)
    ensures Plain(u) && Tight(sc, Split(sc, u)) && Shape(sc, u) == Shape(sc, s)
    ensures if Tight(sc, Split(sc, s)) then u == s else !NoneBeforeArabic(sc, Split(sc, u))
    decreases ArabicRunes(Split(sc, s))
  {
    var runs := Split(sc, s);
    if Tight(sc, runs) {
      u := s;
    } else {
      SplitIsWell(sc, s);
      var sp := LooseSpot(sc, runs);
      SpotCollides(sc, sp);
      FewerArabicRunes(sp);
      BeforeShows(sc, sp);
      u := TightTwin(sc, Join(sp.Before()));
    }
  }

  /** MAIN: whatever was painted, reading it back gives a tight text that is painted alike, and it is the text itself
      if and only if that was tight. */
  lemma ReadBackPaintsAlike(sc: Script, s: seq<Rune>)
    requires Sound(sc) && Plain(s)
    ensures var u := Unshape(sc, Shape(sc, s));
      && Plain(u) && Tight(sc, Split(sc, u)) && Shape(sc, u) == Shape(sc, s)
      && (u == s <==> Tight(sc, Split(sc, s)))
  {
    var u := TightTwin(sc, s);
    ShapingInvertibleIffTight(sc, u);
    ShapingInvertibleIffTight(sc, s);
  }

  ghost predicate PaintedUniquely(sc: Script, s: seq<Rune>) {
    forall s' :: Plain(s') && Shape(sc, s') == Shape(sc, s) ==> s' == s
  }

  /** MAIN: a plain text can be recovered from what is painted, by any means, if and only if no space or mark stands at
      the end of an Arabic run or directly before one. */
  lemma UniqueIffNoFloatingEnds(sc: Script, s: seq<Rune>)
    requires Sound(sc) && Plain(s)
    ensures PaintedUniquely(sc, s) <==> Tight(sc, Split(sc, s)) && NoneBeforeArabic(sc, Split(sc, s))
  {
    var runs := Split(sc, s);
    SplitIsWell(sc, s);
    if !Tight(sc, runs) {
      var sp := LooseSpot(sc, runs);
      SpotCollides(sc, sp);
    } else if !NoneBeforeArabic(sc, runs) {
      var sp := LeadingSpot(sc, runs);
      BothWell(sc, sp);
      SpotCollides(sc, sp);
    } else {
      forall s' | Plain(s') && Shape(sc, s') == Shape(sc, s)
        ensures s' == s
      {
        var u := TightTwin(sc, s');
        ShapingInvertibleIffTight(sc, u);
        ShapingInvertibleIffTight(sc, s);
        assert u == s;
      }
    }
  }
}
