/** Splitting text into Arabic and other runs, and shaping whole texts (internal/adapter/pdf/arabic.go). */
module ArabicText {
  import opened ArabicForms

  const SPACE: Rune := 0x20

  /** The Unicode tables the source consults: the Arabic script and the mark categories. */
  datatype Script = Script(arabic: Rune -> bool, mark: Rune -> bool)

  /** Letters of the form tables and all presentation forms are Arabic. */
  ghost predicate Sound(sc: Script) {
    forall r {:trigger JoinsRight(r)} {:trigger IsForm(r)} :: JoinsRight(r) || IsForm(r) ==> sc.arabic(r)
  }

  datatype Run = Run(text: seq<Rune>, arabic: bool)

  /** Rune r continues a run: marks and spaces stay inside an Arabic one. */
  predicate Stays(sc: Script, arabic: bool, r: Rune) {
    (sc.arabic(r) || (arabic && (sc.mark(r) || r == SPACE))) == arabic
  }

  function Split(sc: Script, s: seq<Rune>): seq<Run> {
    if s == [] then []
    else Extended(sc, Split(sc, s[..|s| - 1]), s[|s| - 1])
  }

  function Extended(sc: Script, runs: seq<Run>, r: Rune): seq<Run> {
    if runs != [] && Stays(sc, runs[|runs| - 1].arabic, r)
    then runs[..|runs| - 1] + [Run(runs[|runs| - 1].text + [r], runs[|runs| - 1].arabic)]
    else runs + [Run([r], sc.arabic(r))]
  }

  function Join(runs: seq<Run>): seq<Rune> {
    if runs == [] then [] else Join(runs[..|runs| - 1]) + runs[|runs| - 1].text
  }

  predicate RunOk(sc: Script, run: Run) {
    && run.text != [] && sc.arabic(run.text[0]) == run.arabic
    && forall i :: 0 <= i < |run.text| ==> Stays(sc, run.arabic, run.text[i])
  }

  predicate WellSplit(sc: Script, runs: seq<Run>) {
    && (forall k :: 0 <= k < |runs| ==> RunOk(sc, runs[k]))
    && (forall k :: 0 < k < |runs| ==> !Stays(sc, runs[k - 1].arabic, runs[k].text[0]))
  }

  lemma SplitAppend(sc: Script, s: seq<Rune>, r: Rune)
    ensures Split(sc, s + [r]) == Extended(sc, Split(sc, s), r)
  {
    assert (s + [r])[..|s|] == s;
  }

  lemma JoinAppend(runs: seq<Run>, run: Run)
    ensures Join(runs + [run]) == Join(runs) + run.text
  {
    assert (runs + [run])[..|runs|] == runs;
  }

  lemma ExtendedJoin(sc: Script, runs: seq<Run>, r: Rune)
    ensures Join(Extended(sc, runs, r)) == Join(runs) + [r]
  {
    if runs != [] && Stays(sc, runs[|runs| - 1].arabic, r) {
      JoinAppend(runs[..|runs| - 1], Run(runs[|runs| - 1].text + [r], runs[|runs| - 1].arabic));
    } else {
      JoinAppend(runs, Run([r], sc.arabic(r)));
    }
  }

  lemma ExtendedWell(sc: Script, runs: seq<Run>, r: Rune)
    requires WellSplit(sc, runs)
    ensures WellSplit(sc, Extended(sc, runs, r))
  {
    var next := Extended(sc, runs, r);
    var n := |next| - 1;
    assert forall k :: 0 <= k < n ==> next[k] == runs[k];
    assert |runs| == |next| ==> RunOk(sc, runs[n]);
    assert RunOk(sc, next[n]);
    assert n > 0 ==> RunOk(sc, runs[n - 1]);
  }

  /** The runs concatenate to the text, alternate in kind and are uniform. */
  lemma {:induction false} SplitIsWell(sc: Script, s: seq<Rune>)
    ensures WellSplit(sc, Split(sc, s)) && Join(Split(sc, s)) == s
  {
    if s != [] {
      var front, r := s[..|s| - 1], s[|s| - 1];
      assert s == front + [r];
      SplitIsWell(sc, front);
      var runs := Split(sc, front);
      SplitAppend(sc, front, r);
      ExtendedWell(sc, runs, r);
      ExtendedJoin(sc, runs, r);
    }
  }

  lemma RunsAlternate(sc: Script, runs: seq<Run>, k: nat)
    requires WellSplit(sc, runs) && 0 < k < |runs|
    ensures runs[k].arabic != runs[k - 1].arabic
  {
    assert RunOk(sc, runs[k]);
  }

  /** What the runs of a text hold: an Arabic run starts with an Arabic rune and goes on with Arabic runes, marks and
      spaces; another run holds no Arabic rune and, after an Arabic one, starts with neither a mark nor a space. */
  lemma RunsHold(sc: Script, s: seq<Rune>, k: nat, i: nat)
    requires k < |Split(sc, s)| && i < |Split(sc, s)[k].text|
    ensures var (run, r) := (Split(sc, s)[k], Split(sc, s)[k].text[i]);
      if run.arabic then sc.arabic(r) || (i > 0 && (sc.mark(r) || r == 0x20))
      else !sc.arabic(r) && (k > 0 && i == 0 ==> Split(sc, s)[k - 1].arabic && !sc.mark(r) && r != 0x20)
  {
    SplitIsWell(sc, s);
    assert RunOk(sc, Split(sc, s)[k]);
    assert Stays(sc, Split(sc, s)[k].arabic, Split(sc, s)[k].text[i]);
    if k > 0 {
      RunsAlternate(sc, Split(sc, s), k);
    }
  }

  /** Dropping the last rune of well-split runs leaves well-split runs. */
  function Shortened(runs: seq<Run>): seq<Run>
    requires runs != [] && runs[|runs| - 1].text != []
  {
    var n := |runs| - 1;
    var text := runs[n].text;
    if |text| == 1 then runs[..n] else runs[..n] + [Run(text[..|text| - 1], runs[n].arabic)]
  }

  lemma ShortenedWell(sc: Script, runs: seq<Run>)
    requires WellSplit(sc, runs) && runs != []
    ensures runs[|runs| - 1].text != [] && WellSplit(sc, Shortened(runs))
  {
    var n := |runs| - 1;
    assert RunOk(sc, runs[n]);
    var short := Shortened(runs);
    assert forall k :: 0 <= k < n ==> short[k] == runs[k];
    assert |short| > n ==> RunOk(sc, short[n]);
  }

  lemma ShortenedExtends(sc: Script, runs: seq<Run>)
    requires WellSplit(sc, runs) && runs != [] && runs[|runs| - 1].text != []
    ensures var text := runs[|runs| - 1].text;
      Extended(sc, Shortened(runs), text[|text| - 1]) == runs
  {
    var n := |runs| - 1;
    var text := runs[n].text;
    var m := |text| - 1;
    assert RunOk(sc, runs[n]);
    assert Stays(sc, runs[n].arabic, text[m]);
    assert text == text[..m] + [text[m]];
    var short := Shortened(runs);
    if m > 0 {
      assert short[..n] == runs[..n];
      assert runs == runs[..n] + [Run(text[..m] + [text[m]], runs[n].arabic)];
    } else {
      assert runs == short + [Run([text[m]], runs[n].arabic)];
    }
  }

  /** Well-split runs are what splitting their text gives back. */
  lemma {:induction false} SplitOfJoin(sc: Script, runs: seq<Run>)
    requires WellSplit(sc, runs)
    ensures Split(sc, Join(runs)) == runs
    decreases |Join(runs)|
  {
    if runs != [] {
      ShortenedWell(sc, runs);
      ShortenedExtends(sc, runs);
      var text := runs[|runs| - 1].text;
      ExtendedJoin(sc, Shortened(runs), text[|text| - 1]);
      SplitOfJoin(sc, Shortened(runs));
      assert Join(runs)[..|Join(runs)| - 1] == Join(Shortened(runs));
    }
  }

  // ---------- shaping ----------

  function ShapedText(run: Run): seq<Rune> {
    if run.arabic then Reversed(Ligate(Forms(run.text))) else run.text
  }

  function Shaped(runs: seq<Run>): seq<Run> {
    seq(|runs|, k requires 0 <= k < |runs| => Run(ShapedText(runs[k]), runs[k].arabic))
  }

  function Shape(sc: Script, s: seq<Rune>): seq<Rune> {
    Join(Shaped(Split(sc, s)))
  }

  function DecodedText(run: Run): seq<Rune> {
    if run.arabic then Decode(Reversed(run.text)) else run.text
  }

  function Decoded(runs: seq<Run>): seq<Run> {
    seq(|runs|, k requires 0 <= k < |runs| => Run(DecodedText(runs[k]), runs[k].arabic))
  }

  /** Reading shaped text back: split it, reverse the Arabic runs and decode them. */
  function Unshape(sc: Script, t: seq<Rune>): seq<Rune> {
    Join(Decoded(Split(sc, t)))
  }

  lemma ReversedTwice(s: seq<Rune>)
    ensures Reversed(Reversed(s)) == s
  {}

  /** Each run of plain text can be read back from its shaped form. */
  lemma RunReadsBack(run: Run)
    requires Plain(run.text)
    ensures DecodedText(Run(ShapedText(run), run.arabic)) == run.text
  {
    if run.arabic {
      ReversedTwice(Ligate(Forms(run.text)));
      ShapingDecodes(run.text);
    }
  }

  lemma {:induction false} LigateRunes(t: seq<Rune>)
    ensures forall r :: r in Ligate(t) ==> IsForm(r) || r in t
    decreases |t|
  {
    if t == [] {
    } else if Ligates(t) {
      LigateRunes(t[2..]);
    } else {
      LigateRunes(t[1..]);
    }
  }

  /** The last rune stays last, unless it is an alef inside a ligature. */
  lemma {:induction false} LigateLast(t: seq<Rune>)
    requires t != []
    ensures Ligate(t) != []
    ensures var last := Ligate(t)[|Ligate(t)| - 1];
      last == t[|t| - 1] || (IsForm(last) && Ligature(t[|t| - 1]).Some?)
    decreases |t|
  {
    var rest := if Ligates(t) then t[2..] else t[1..];
    if rest != [] {
      LigateLast(rest);
      assert rest[|rest| - 1] == t[|t| - 1];
    }
  }

  /** A rune is shown as an Arabic form or as itself; one that is not Arabic stays as it is and never ligates. */
  lemma ShapedRune(sc: Script, s: seq<Rune>, i: nat)
    requires Sound(sc) && i < |s| && !IsForm(s[i])
    ensures sc.arabic(FormAt(s, i)) || FormAt(s, i) == s[i]
    ensures !sc.arabic(s[i]) ==> FormAt(s, i) == s[i] && Ligature(s[i]).None?
  {
    FormDecodes(s, i);
    assert JoinsRight(s[i]) ==> IsForm(FormAt(s, i));
    assert Ligature(s[i]).Some? ==> JoinsRight(s[i]);
  }

  lemma LigatedRunStays(sc: Script, t: seq<Rune>)
    requires Sound(sc) && forall i :: 0 <= i < |t| ==> Stays(sc, true, t[i])
    ensures forall i :: 0 <= i < |Ligate(t)| ==> Stays(sc, true, Ligate(t)[i])
  {
    LigateRunes(t);
    var lig := Ligate(t);
    forall i | 0 <= i < |lig|
      ensures Stays(sc, true, lig[i])
    {
      assert lig[i] in lig;
      if !IsForm(lig[i]) {
        var k :| 0 <= k < |t| && t[k] == lig[i];
      }
    }
  }

  /** The last rune of a ligated text is Arabic exactly when the text's last rune is. */
  lemma LigatedEnd(sc: Script, s: seq<Rune>)
    requires Sound(sc) && Plain(s) && s != []
    ensures var t := Ligate(Forms(s)); t != [] && (sc.arabic(t[|t| - 1]) <==> sc.arabic(s[|s| - 1]))
  {
    ShapedRune(sc, s, |s| - 1);
    LigateLast(Forms(s));
    assert Forms(s)[|s| - 1] == FormAt(s, |s| - 1);
  }

  lemma FormsStay(sc: Script, s: seq<Rune>)
    requires Sound(sc) && Plain(s) && forall i :: 0 <= i < |s| ==> Stays(sc, true, s[i])
    ensures forall i :: 0 <= i < |s| ==> Stays(sc, true, Forms(s)[i])
  {
    forall i | 0 <= i < |s|
      ensures Stays(sc, true, Forms(s)[i])
    {
      ShapedRune(sc, s, i);
    }
  }

  /** The first rune of a shaped Arabic run is Arabic exactly when the run's last rune was. */
  lemma ShapedRunEnds(sc: Script, run: Run)
    requires Sound(sc) && run.arabic && RunOk(sc, run) && Plain(run.text)
    ensures var u := ShapedText(run);
      && u != [] && (forall i :: 0 <= i < |u| ==> Stays(sc, true, u[i]))
      && (sc.arabic(u[0]) <==> sc.arabic(run.text[|run.text| - 1]))
  {
    FormsStay(sc, run.text);
    LigatedRunStays(sc, Forms(run.text));
    LigatedEnd(sc, run.text);
  }

  /** No Arabic run ends in a space or a mark. */
  predicate Tight(sc: Script, runs: seq<Run>) {
    forall k :: 0 <= k < |runs| && runs[k].arabic && runs[k].text != [] ==> sc.arabic(runs[k].text[|runs[k].text| - 1])
  }

  ghost predicate AllPlain(runs: seq<Run>) {
    forall k :: 0 <= k < |runs| ==> Plain(runs[k].text)
  }

  lemma {:induction false} JoinPlain(runs: seq<Run>)
    requires Plain(Join(runs))
    ensures AllPlain(runs)
  {
    if runs != [] {
      var n := |runs| - 1;
      var front, last := Join(runs[..n]), runs[n].text;
      assert forall i :: 0 <= i < |front| ==> Join(runs)[i] == front[i];
      assert forall i :: 0 <= i < |last| ==> Join(runs)[|front| + i] == last[i];
      JoinPlain(runs[..n]);
      forall k | 0 <= k < |runs|
        ensures Plain(runs[k].text)
      {
        if k < n { assert runs[k] == runs[..n][k]; }
      }
    }
  }

  lemma ShapedIsWell(sc: Script, runs: seq<Run>)
    requires Sound(sc) && WellSplit(sc, runs) && AllPlain(runs) && Tight(sc, runs)
    ensures WellSplit(sc, Shaped(runs))
  {
    forall k | 0 <= k < |runs|
      ensures RunOk(sc, Shaped(runs)[k])
      ensures k > 0 ==> !Stays(sc, runs[k - 1].arabic, Shaped(runs)[k].text[0])
    {
      assert RunOk(sc, runs[k]);
      if runs[k].arabic {
        ShapedRunEnds(sc, runs[k]);
      }
    }
  }

  lemma {:induction false} SameTexts(runs: seq<Run>, runs': seq<Run>)
    requires |runs| == |runs'| && forall k :: 0 <= k < |runs| ==> runs[k].text == runs'[k].text
    ensures Join(runs) == Join(runs')
  {
    if runs != [] {
      SameTexts(runs[..|runs| - 1], runs'[..|runs| - 1]);
    }
  }

  lemma DecodedShaped(runs: seq<Run>)
    requires AllPlain(runs)
    ensures Join(Decoded(Shaped(runs))) == Join(runs)
  {
    forall k | 0 <= k < |runs|
      ensures Decoded(Shaped(runs))[k].text == runs[k].text
    {
      RunReadsBack(runs[k]);
    }
    SameTexts(Decoded(Shaped(runs)), runs);
  }

  // ---------- a trailing space or mark is lost ----------

  /** Adding text only lengthens the last run or adds runs after it. */
  ghost predicate Grew(a: seq<Run>, b: seq<Run>) {
    a != [] ==>
      && |a| <= |b| && b[..|a| - 1] == a[..|a| - 1]
      && b[|a| - 1].arabic == a[|a| - 1].arabic && a[|a| - 1].text <= b[|a| - 1].text
  }

  lemma ExtendedGrew(sc: Script, a: seq<Run>, b: seq<Run>, r: Rune)
    requires Grew(a, b)
    ensures Grew(a, Extended(sc, b, r))
  {
    var c := Extended(sc, b, r);
    if a != [] {
      assert c[..|a| - 1] == b[..|a| - 1];
    }
  }

  lemma {:induction false} SplitGrows(sc: Script, p: seq<Rune>, q: seq<Rune>)
    ensures Grew(Split(sc, p), Split(sc, p + q))
  {
    if q == [] {
      assert p + q == p;
    } else {
      var n := |q| - 1;
      SplitGrows(sc, p, q[..n]);
      assert p + q == (p + q[..n]) + [q[n]];
      SplitAppend(sc, p + q[..n], q[n]);
      ExtendedGrew(sc, Split(sc, p), Split(sc, p + q[..n]), q[n]);
    }
  }

  lemma {:induction false} JoinPrefix(runs: seq<Run>, k: nat)
    requires k <= |runs|
    ensures Join(runs[..k]) <= Join(runs)
  {
    if k < |runs| {
      JoinPrefix(runs[..|runs| - 1], k);
      assert runs[..|runs| - 1][..k] == runs[..k];
    } else {
      assert runs[..k] == runs;
    }
  }

  /** Text that splits into `a`, its last run not Arabic, is read back at the front of any longer text. */
  lemma ReadsBackPrefix(sc: Script, a: seq<Run>, b: seq<Run>)
    requires a != [] && !a[|a| - 1].arabic && Grew(a, b)
    ensures Join(Decoded(a)) <= Join(Decoded(b))
  {
    var n := |a| - 1;
    JoinPrefix(Decoded(b), n + 1);
    assert Decoded(b)[..n + 1][..n] == Decoded(a)[..n] by {
      assert forall k :: 0 <= k < n ==> b[k] == b[..n][k] == a[..n][k] == a[k];
    }
    assert Join(Decoded(b)[..n + 1]) == Join(Decoded(a)[..n]) + b[n].text;
    assert Join(Decoded(a)) == Join(Decoded(a)[..n]) + a[n].text;
  }

  /** Run k is the first one that is not tight. */
  predicate FirstLooseAt(sc: Script, runs: seq<Run>, k: nat) {
    && k < |runs| && runs[k].arabic && runs[k].text != []
    && !sc.arabic(runs[k].text[|runs[k].text| - 1]) && Tight(sc, runs[..k])
  }

  lemma {:induction false} FindLoose(sc: Script, runs: seq<Run>) returns (k: nat)
    requires !Tight(sc, runs)
    ensures FirstLooseAt(sc, runs, k)
  {
    var n := |runs| - 1;
    if Tight(sc, runs[..n]) {
      assert forall i :: 0 <= i < n ==> runs[i] == runs[..n][i];
      k := n;
    } else {
      k := FindLoose(sc, runs[..n]);
      assert runs[..n][..k] == runs[..k];
    }
  }

  lemma JoinNext(runs: seq<Run>, k: nat)
    requires k < |runs|
    ensures Join(runs[..k + 1]) == Join(runs[..k]) + runs[k].text
  {
    assert runs[..k + 1][..k] == runs[..k];
  }

  lemma PrefixHead(head: seq<Rune>, text: seq<Rune>, whole: seq<Rune>)
    requires head + text <= whole && text != []
    ensures head + [text[0]] <= whole
  {
    assert (head + text)[..|head| + 1] == head + [text[0]];
  }

  lemma JoinUpTo(runs: seq<Run>, k: nat)
    requires k < |runs| && runs[k].text != []
    ensures Join(runs[..k]) + [runs[k].text[0]] <= Join(runs)
  {
    JoinPrefix(runs, k + 1);
    JoinNext(runs, k);
    PrefixHead(Join(runs[..k]), runs[k].text, Join(runs));
  }

  lemma ShapedUpTo(runs: seq<Run>, k: nat)
    requires k < |runs| && ShapedText(runs[k]) != []
    ensures Join(Shaped(runs[..k])) + [ShapedText(runs[k])[0]] <= Join(Shaped(runs))
  {
    assert Shaped(runs)[..k] == Shaped(runs[..k]);
    JoinUpTo(Shaped(runs), k);
  }

  /** Runs that end in a plain one, followed by a rune x that is not Arabic, read back with x at the end. */
  lemma PlainTailReadsBack(sc: Script, runs: seq<Run>, x: Rune)
    requires !sc.arabic(x) && (runs != [] ==> !runs[|runs| - 1].arabic)
    ensures var a := Extended(sc, runs, x);
      a != [] && !a[|a| - 1].arabic && Join(Decoded(a)) == Join(Decoded(runs)) + [x]
  {
    var a := Extended(sc, runs, x);
    var m := |a| - 1;
    assert a[..m] == runs[..m];
    assert Decoded(a)[..m] == Decoded(runs)[..m];
    if runs != [] {
      assert Stays(sc, false, x);
    } else {
      assert Decoded(a)[..m] == [];
    }
  }

  /** The shaped text of the runs before the loose one, followed by the loose one's first rune, splits into runs
      that read back as the original text and that rune. */
  lemma MisreadHead(sc: Script, runs: seq<Run>, k: nat, x: Rune) returns (a: seq<Run>)
    requires Sound(sc) && WellSplit(sc, runs) && AllPlain(runs) && FirstLooseAt(sc, runs, k) && !sc.arabic(x)
    ensures a == Split(sc, Join(Shaped(runs[..k])) + [x])
    ensures a != [] && !a[|a| - 1].arabic && Join(Decoded(a)) == Join(runs[..k]) + [x]
  {
    var head := runs[..k];
    ShapedIsWell(sc, head);
    SplitOfJoin(sc, Shaped(head));
    SplitAppend(sc, Join(Shaped(head)), x);
    a := Extended(sc, Shaped(head), x);
    DecodedShaped(head);
    if k > 0 {
      RunsAlternate(sc, runs, k);
    }
    PlainTailReadsBack(sc, Shaped(head), x);
  }

  /** A text that splits like this is not read back: position |h| shows x instead of y. */
  lemma ReadsBackOther(
    sc: Script, a: seq<Run>, t: seq<Rune>, p: seq<Rune>, h: seq<Rune>, s: seq<Rune>, x: Rune, y: Rune)
    requires p + [x] <= t && a == Split(sc, p + [x]) && a != [] && !a[|a| - 1].arabic
    requires Join(Decoded(a)) == h + [x] && h + [y] <= s && x != y
    ensures Unshape(sc, t) != s
  {
    var rest := t[|p| + 1..];
    assert t == (p + [x]) + rest;
    SplitGrows(sc, p + [x], rest);
    ReadsBackPrefix(sc, a, Split(sc, t));
    assert Unshape(sc, t)[|h|] == (h + [x])[|h|];
    assert s[|h|] == (h + [y])[|h|];
  }

  /** A loose run is painted starting with another rune than it starts with. */
  lemma LooseRunStarts(sc: Script, run: Run)
    requires Sound(sc) && RunOk(sc, run) && Plain(run.text) && run.arabic && !sc.arabic(run.text[|run.text| - 1])
    ensures ShapedText(run) != [] && !sc.arabic(ShapedText(run)[0]) && ShapedText(run)[0] != run.text[0]
  {
    ShapedRunEnds(sc, run);
  }

  lemma LooseRunMisread(sc: Script, s: seq<Rune>, runs: seq<Run>, k: nat)
    requires Sound(sc) && runs == Split(sc, s) && s == Join(runs)
    requires WellSplit(sc, runs) && AllPlain(runs) && FirstLooseAt(sc, runs, k)
    ensures Unshape(sc, Shape(sc, s)) != s
  {
    LooseRunStarts(sc, runs[k]);
    var x, y := ShapedText(runs[k])[0], runs[k].text[0];
    var a := MisreadHead(sc, runs, k, x);
    ShapedUpTo(runs, k);
    JoinUpTo(runs, k);
    ReadsBackOther(sc, a, Shape(sc, s), Join(Shaped(runs[..k])), Join(runs[..k]), s, x, y);
  }

  /** Reading painted text back gives the plain text that was painted if and only if no Arabic run of it ends in a
      space or a mark, which the reversal moves in front of the run. */
  lemma ShapingInvertibleIffTight(sc: Script, s: seq<Rune>)
    requires Sound(sc) && Plain(s)
    ensures Unshape(sc, Shape(sc, s)) == s <==> Tight(sc, Split(sc, s))
  {
    var runs := Split(sc, s);
    SplitIsWell(sc, s);
    JoinPlain(runs);
    if Tight(sc, runs) {
      ShapedIsWell(sc, runs);
      SplitOfJoin(sc, Shaped(runs));
      DecodedShaped(runs);
    } else {
      var k := FindLoose(sc, runs);
      LooseRunMisread(sc, s, runs, k);
    }
  }

  /** Two texts that differ only in the side of the space are painted alike. */
  lemma TrailingSpaceCollides(sc: Script)
    requires !sc.arabic(0x61) && !sc.mark(0x61) && !sc.arabic(SPACE) && sc.arabic(0x0628)
    ensures Shape(sc, [0x61, 0x0628, SPACE]) == Shape(sc, [0x61, SPACE, 0x0628])
  {
    var a, beh := 0x61, 0x0628;
    var pa, ps, ab, abs := Run([a], false), Run([a, SPACE], false), Run([beh], true), Run([beh, SPACE], true);
    assert [a, beh, SPACE] == pa.text + abs.text && [a, SPACE, beh] == ps.text + ab.text;
    ShapedPair(sc, pa, abs);
    ShapedPair(sc, ps, ab);
    ShapedBeh();
  }

  lemma SplitPair(sc: Script, x: Run, y: Run)
    requires RunOk(sc, x) && RunOk(sc, y) && !Stays(sc, x.arabic, y.text[0])
    ensures Split(sc, x.text + y.text) == [x, y]
  {
    JoinPair(x, y);
    SplitOfJoin(sc, [x, y]);
  }

  lemma ShapedBeh()
    ensures ShapedText(Run([0x0628, SPACE], true)) == [SPACE, 0xFE8F] && ShapedText(Run([0x0628], true)) == [0xFE8F]
  {
    assert Forms([0x0628, SPACE]) == [0xFE8F, SPACE] && Forms([0x0628]) == [0xFE8F];
    assert [0xFE8F, SPACE][1..] == [SPACE] && [SPACE][1..] == [] && [0xFE8F][1..] == [];
    assert Ligate([SPACE]) == [SPACE];
  }

  lemma JoinPair(x: Run, y: Run)
    ensures Join([x, y]) == x.text + y.text
  {
    assert [x, y][..1] == [x] && [x][..0] == [];
    assert Join([x]) == [] + x.text;
  }

  lemma ShapedPair(sc: Script, x: Run, y: Run)
    requires RunOk(sc, x) && RunOk(sc, y) && !Stays(sc, x.arabic, y.text[0])
    ensures Shape(sc, x.text + y.text) == ShapedText(x) + ShapedText(y)
  {
    SplitPair(sc, x, y);
    assert Shaped([x, y]) == [Run(ShapedText(x), x.arabic), Run(ShapedText(y), y.arabic)];
    JoinPair(Run(ShapedText(x), x.arabic), Run(ShapedText(y), y.arabic));
  }

  // ---------- the source's loops ----------

  method SplitRuns(sc: Script, s: seq<Rune>) returns (out: seq<Run>)
    ensures out == Split(sc, s)
  {
    out := [];
    var cur: seq<Rune>, ar := [], false;
    for i := 0 to |s|
      invariant cur == [] <==> i == 0
      invariant Split(sc, s[..i]) == out + if cur == [] then [] else [Run(cur, ar)]
    {
      var r := s[i];
      assert s[..i + 1][..i] == s[..i];
      ghost var before := out + if cur == [] then [] else [Run(cur, ar)];
      assert cur != [] ==> before[..|before| - 1] == out && before[|before| - 1] == Run(cur, ar);
      var next := sc.arabic(r) || (ar && (sc.mark(r) || r == SPACE));
      if |cur| > 0 && next != ar && !(r == SPACE && ar) {
        out := out + [Run(cur, ar)];
        cur := [];
        assert out == before && !Stays(sc, before[|before| - 1].arabic, r);
      }
      if |cur| == 0 {
        assert Extended(sc, before, r) == before + [Run([r], sc.arabic(r))];
        assert out == before;
        ar := sc.arabic(r);
        assert cur + [r] == [r];
      } else {
        assert Stays(sc, ar, r);
      }
      cur := cur + [r];
      assert Extended(sc, before, r) == out + [Run(cur, ar)];
    }
    assert s[..|s|] == s;
    if cur != [] {
      out := out + [Run(cur, ar)];
    }
  }

  lemma {:induction false} NoArabicRuns(sc: Script, s: seq<Rune>)
    requires forall i :: 0 <= i < |s| ==> !sc.arabic(s[i])
    ensures forall k :: 0 <= k < |Split(sc, s)| ==> !Split(sc, s)[k].arabic
  {
    if s != [] {
      NoArabicRuns(sc, s[..|s| - 1]);
    }
  }

  lemma NoArabicUnchanged(sc: Script, s: seq<Rune>)
    requires forall i :: 0 <= i < |s| ==> !sc.arabic(s[i])
    ensures Shape(sc, s) == s
  {
    NoArabicRuns(sc, s);
    SplitIsWell(sc, s);
    SameTexts(Shaped(Split(sc, s)), Split(sc, s));
  }

  method ShapeRun(text: seq<Rune>) returns (out: seq<Rune>)
    ensures out == Reversed(Ligate(Forms(text)))
  {
    var buffer := new Rune[|text|](i requires 0 <= i < |text| => text[i]);
    assert buffer[..] == text;
    var shaped := ApplyForms(buffer);
    var n := LamAlef(shaped);
    ReverseRunes(shaped, n);
    out := shaped[..n];
  }

  method ShapeArabic(sc: Script, s: seq<Rune>) returns (out: seq<Rune>)
    ensures out == Shape(sc, s)
  {
    if !exists i :: 0 <= i < |s| && sc.arabic(s[i]) {
      NoArabicUnchanged(sc, s);
      return s;
    }
    var runs := SplitRuns(sc, s);
    out := [];
    for k := 0 to |runs|
      invariant out == Join(Shaped(runs)[..k])
    {
      assert Shaped(runs)[..k + 1][..k] == Shaped(runs)[..k];
      if runs[k].arabic {
        var shaped := ShapeRun(runs[k].text);
        out := out + shaped;
      } else {
        out := out + runs[k].text;
      }
    }
    assert Shaped(runs)[..|runs|] == Shaped(runs);
  }
}
