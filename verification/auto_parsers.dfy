/** The output parsers of `src/fields/auto.py`. Each reads the captured
    stdout of one command pipeline; a `Reject` stands for the exception
    Python raises when `re.match` finds nothing (`None.group`) or when the
    matched text does not convert. The regular expressions are written out
    as dedicated scanners that reproduce Python's greedy, backtracking match
    for these particular patterns. */
module AutoParsers {
  import opened Common
  import opened Text
  import opened Values

  const NoMatchMsg: string := "no match"

  predicate NotNewline(c: char) {
    c != '\n'
  }

  /** `[\d\.]`. */
  predicate IsNumChar(c: char) {
    IsDigit(c) || c == '.'
  }

  /** End of the longest run of `p`-characters of `s` starting at `i`. */
  function RunEnd(s: string, i: nat, p: char -> bool): (j: nat)
    requires i <= |s|
    ensures i <= j <= |s|
    ensures forall k :: i <= k < j ==> p(s[k])
    ensures j == |s| || !p(s[j])
    decreases |s| - i
  {
    if i == |s| || !p(s[i]) then i else RunEnd(s, i + 1, p)
  }

  /** A run that ends where the maximal run from its start ends is found. */
  lemma {:induction false} RunEndOf(s: string, i: nat, j: nat, p: char -> bool)
    requires i <= j <= |s|
    requires forall k :: i <= k < j ==> p(s[k])
    requires j == |s| || !p(s[j])
    ensures RunEnd(s, i, p) == j
    decreases j - i
  {
    if i < j {
      RunEndOf(s, i + 1, j, p);
    }
  }

  // ---------------------------------------------------------------------
  // validate_model: \s*model name\s*:\s*(.*)

  predicate AllSatisfy(s: string, p: char -> bool) {
    forall k :: 0 <= k < |s| ==> p(s[k])
  }

  /** `s` without its longest prefix of `p`-characters. */
  function DropWhile(s: string, p: char -> bool): (r: string)
    ensures |r| <= |s|
    ensures r == [] || !p(r[0])
    decreases |s|
  {
    if s != [] && p(s[0]) then DropWhile(s[1..], p) else s
  }

  /** What `DropWhile` removes is a run of `p`-characters in front of what
      it keeps. */
  lemma {:induction false} DropWhileSplit(s: string, p: char -> bool)
    ensures s == s[..|s| - |DropWhile(s, p)|] + DropWhile(s, p)
    ensures AllSatisfy(s[..|s| - |DropWhile(s, p)|], p)
    decreases |s|
  {
    if s != [] && p(s[0]) {
      DropWhileSplit(s[1..], p);
      var r := DropWhile(s, p);
      assert s[..|s| - |r|] == [s[0]] + s[1..][..|s| - 1 - |r|];
    }
  }

  /** The longest prefix of `p`-characters of `s`. */
  function TakeWhile(s: string, p: char -> bool): (r: string)
    ensures |r| <= |s|
    ensures AllSatisfy(r, p)
    ensures r != [] ==> r[0] == s[0]
    decreases |s|
  {
    if s != [] && p(s[0]) then [s[0]] + TakeWhile(s[1..], p) else []
  }

  /** `TakeWhile` keeps a prefix and stops at a character outside `p`. */
  lemma {:induction false} TakeWhileSplit(s: string, p: char -> bool)
    ensures s == TakeWhile(s, p) + s[|TakeWhile(s, p)|..]
    ensures |TakeWhile(s, p)| == |s| || !p(s[|TakeWhile(s, p)|])
    decreases |s|
  {
    if s != [] && p(s[0]) {
      TakeWhileSplit(s[1..], p);
      var r := TakeWhile(s[1..], p);
      assert s[1..] == r + s[1..][|r|..];
      assert s[1..][|r|..] == s[|r| + 1..];
    }
  }

  /** Dropping a run of `p`-characters that stops before `t` leaves `t`. */
  lemma {:induction false} DropWhileRun(ws: string, t: string, p: char -> bool)
    requires AllSatisfy(ws, p)
    requires t == [] || !p(t[0])
    ensures DropWhile(ws + t, p) == t
    decreases |ws|
  {
    if ws != [] {
      assert (ws + t)[1..] == ws[1..] + t;
      DropWhileRun(ws[1..], t, p);
    }
  }

  /** Taking the run of `p`-characters of `name + rest` gives `name` when
      `rest` does not continue it. */
  lemma {:induction false} TakeWhileRun(name: string, rest: string, p: char -> bool)
    requires AllSatisfy(name, p)
    requires rest == [] || !p(rest[0])
    ensures TakeWhile(name + rest, p) == name
    decreases |name|
  {
    if name != [] {
      assert (name + rest)[1..] == name[1..] + rest;
      TakeWhileRun(name[1..], rest, p);
      assert [name[0]] + name[1..] == name;
    }
  }

  const ModelKey: string := "model name"

  /** The text after a leading `model name :` label, up to the end of line. */
  function ParseModel(s: string): (r: Verdict)
    ensures !r.Skip?
    ensures r.Accept? ==> r.v.Str? && '\n' !in r.v.s
    ensures r.Accept? ==> r.v.s == "" || !IsSpace(r.v.s[0])
  {
    var t1 := DropWhile(s, IsSpace);
    if !(ModelKey <= t1) then Reject(NoMatchMsg)
    else
      var t2 := DropWhile(t1[|ModelKey|..], IsSpace);
      if !(|t2| > 0 && t2[0] == ':') then Reject(NoMatchMsg)
      else
        var t3 := DropWhile(t2[1..], IsSpace);
        var name := TakeWhile(t3, NotNewline);
        assert name != [] ==> name[0] == t3[0];
        Accept(Str(name))
  }

  /** A `model name` line built from its parts parses back to its name:
      white space around the label and colon is skipped, and the name runs
      to the end of its line. */
  lemma ModelLineRoundTrip(ws1: string, ws2: string, ws3: string, name: string, rest: string)
    requires AllSatisfy(ws1, IsSpace) && AllSatisfy(ws2, IsSpace) && AllSatisfy(ws3, IsSpace)
    requires '\n' !in name
    requires name != "" ==> !IsSpace(name[0])
    requires name == "" ==> rest == ""
    requires rest == "" || rest[0] == '\n'
    ensures ParseModel(ws1 + (ModelKey + (ws2 + (":" + (ws3 + (name + rest)))))) == Accept(Str(name))
  {
    var t3 := name + rest;
    var t2 := ":" + (ws3 + t3);
    var t1 := ModelKey + (ws2 + t2);
    DropWhileRun(ws1, t1, IsSpace);
    assert t1[|ModelKey|..] == ws2 + t2;
    DropWhileRun(ws2, t2, IsSpace);
    assert t2[1..] == ws3 + t3;
    DropWhileRun(ws3, t3, IsSpace);
    TakeWhileRun(name, rest, NotNewline);
  }

  /** `s` is white space, the label, white space, a colon, white space,
      `name`, and then either nothing or a new line. */
  predicate IsModelLine(s: string, ws1: string, ws2: string, ws3: string, name: string, rest: string) {
    && AllSatisfy(ws1, IsSpace) && AllSatisfy(ws2, IsSpace) && AllSatisfy(ws3, IsSpace)
    && (rest == "" || rest[0] == '\n')
    && s == ws1 + (ModelKey + (ws2 + (":" + (ws3 + (name + rest)))))
  }

  /** The stages of `ParseModel` after the colon, put back together. */
  lemma ModelNameCompose(u2: string, t3: string, name: string) returns (ws3: string, rest: string)
    requires t3 == DropWhile(u2, IsSpace) && name == TakeWhile(t3, NotNewline)
    ensures AllSatisfy(ws3, IsSpace) && (rest == "" || rest[0] == '\n')
    ensures u2 == ws3 + (name + rest)
  {
    ws3, rest := u2[..|u2| - |t3|], t3[|name|..];
    assert t3 == name + rest && (rest == "" || rest[0] == '\n') by { TakeWhileSplit(t3, NotNewline); }
    assert u2 == ws3 + t3 && AllSatisfy(ws3, IsSpace) by { DropWhileSplit(u2, IsSpace); }
  }

  /** The stages of `ParseModel` after the label, put back together. */
  lemma ModelTailCompose(u1: string, t2: string, u2: string, t3: string, name: string)
    returns (ws2: string, ws3: string, rest: string)
    requires t2 == DropWhile(u1, IsSpace) && |t2| > 0 && t2[0] == ':' && u2 == t2[1..]
    requires t3 == DropWhile(u2, IsSpace) && name == TakeWhile(t3, NotNewline)
    ensures AllSatisfy(ws2, IsSpace) && AllSatisfy(ws3, IsSpace)
    ensures rest == "" || rest[0] == '\n'
    ensures u1 == ws2 + (":" + (ws3 + (name + rest)))
  {
    ws3, rest := ModelNameCompose(u2, t3, name);
    ws2 := u1[..|u1| - |t2|];
    assert t2 == ":" + u2 by { assert t2 == [t2[0]] + t2[1..]; }
    assert u1 == ws2 + t2 && AllSatisfy(ws2, IsSpace) by { DropWhileSplit(u1, IsSpace); }
  }

  /** The stages of `ParseModel` put back together give the input. */
  lemma ModelStagesCompose(s: string, t1: string, u1: string, t2: string, u2: string, t3: string, name: string)
    returns (ws1: string, ws2: string, ws3: string, rest: string)
    requires t1 == DropWhile(s, IsSpace) && ModelKey <= t1 && u1 == t1[|ModelKey|..]
    requires t2 == DropWhile(u1, IsSpace) && |t2| > 0 && t2[0] == ':' && u2 == t2[1..]
    requires t3 == DropWhile(u2, IsSpace) && name == TakeWhile(t3, NotNewline)
    ensures IsModelLine(s, ws1, ws2, ws3, name, rest)
  {
    ws2, ws3, rest := ModelTailCompose(u1, t2, u2, t3, name);
    ws1 := s[..|s| - |t1|];
    assert t1 == ModelKey + u1 by { assert t1 == t1[..|ModelKey|] + t1[|ModelKey|..]; }
    assert s == ws1 + t1 && AllSatisfy(ws1, IsSpace) by { DropWhileSplit(s, IsSpace); }
  }

  /** Whatever `ParseModel` returns is such a line's name: the input is
      blank, the label, blank, a colon, blank, the name, and then either
      nothing or a new line. */
  lemma ParseModelSound(s: string) returns (ws1: string, ws2: string, ws3: string, rest: string)
    requires ParseModel(s).Accept?
    ensures IsModelLine(s, ws1, ws2, ws3, ParseModel(s).v.s, rest)
  {
    var t1 := DropWhile(s, IsSpace);
    var u1 := t1[|ModelKey|..];
    var t2 := DropWhile(u1, IsSpace);
    var u2 := t2[1..];
    var t3 := DropWhile(u2, IsSpace);
    ws1, ws2, ws3, rest := ModelStagesCompose(s, t1, u1, t2, u2, t3, TakeWhile(t3, NotNewline));
  }

  // ---------------------------------------------------------------------
  // validate_ram: (\d+)G

  /** The number written by the digits that open the input, when a `G`
      follows them. */
  function ParseRam(s: string): (r: Verdict)
    ensures !r.Skip?
    ensures r.Accept? ==> r.v.Int? && r.v.i >= 0
    ensures r.Accept? <==>
              exists d :: 0 < d < |s| && AllDigits(s[..d]) && s[d] == 'G'
  {
    var d := RunEnd(s, 0, IsDigit);
    assert forall k :: 0 <= k < d ==> s[..d][k] == s[k];
    if 0 < d < |s| && s[d] == 'G' then Accept(Int(DigitsValue(s[..d])))
    else Reject(NoMatchMsg)
  }

  /** A RAM figure written as `<n>G` reads back as `n`, whatever follows. */
  lemma RamRoundTrip(n: nat, rest: string)
    ensures ParseRam(NatToString(n) + "G" + rest) == Accept(Int(n))
  {
    var digits := NatToString(n);
    var s := digits + "G" + rest;
    RunEndOf(s, 0, |digits|, IsDigit);
    assert s[..|digits|] == digits;
  }

  lemma RamExample()
    ensures ParseRam("16G\n") == Accept(Int(16))
  {
    assert NatToString(16) == "16" by {
      assert NatToString(1) == "1";
    }
    RamRoundTrip(16, "\n");
    assert "16" + "G" + "\n" == "16G\n";
  }

  // ---------------------------------------------------------------------
  // validate_screen_size: .*\s+(\d+)mm\s+x\s+(\d+)mm, then round(sqrt(W²+H²)/25.4)

  /** `\s+(\d+)mm` tried at `p`: the digits and the position after `mm`. */
  function FigureAt(s: string, p: nat): (r: Option<(string, nat)>)
    requires p <= |s|
    ensures r.Some? ==> r.value.0 != [] && AllDigits(r.value.0) && p < r.value.1 <= |s|
  {
    var a := RunEnd(s, p, IsSpace);
    var d := RunEnd(s, a, IsDigit);
    if a == p || d == a || !(d + 2 <= |s| && s[d..d + 2] == "mm") then None
    else
      assert forall k :: 0 <= k < d - a ==> s[a..d][k] == s[a + k];
      Some((s[a..d], d + 2))
  }

  /** `\s+x` tried at `p`: the position after the `x`. */
  function CrossAt(s: string, p: nat): (r: Option<nat>)
    requires p <= |s|
    ensures r.Some? ==> p < r.value <= |s|
  {
    var b := RunEnd(s, p, IsSpace);
    if b == p || !(b < |s| && s[b] == 'x') then None else Some(b + 1)
  }

  /** The part `\s+(\d+)mm\s+x\s+(\d+)mm` of the pattern, tried at `p`.
      Blanks, digits and the letters are disjoint classes, so each greedy
      run has only one length the rest of the pattern can accept. */
  function DimsAt(s: string, p: nat): Option<(nat, nat)>
    requires p <= |s|
  {
    match FigureAt(s, p)
    case None => None
    case Some((w, e1)) =>
      match CrossAt(s, e1)
      case None => None
      case Some(e2) =>
        match FigureAt(s, e2)
        case None => None
        case Some((h, _)) => Some((DigitsValue(w), DigitsValue(h)))
  }

  /** The largest position `q <= p` with `ok(q)`, if any. */
  function LastMatch(ok: nat -> bool, p: nat): (r: Option<nat>)
    ensures r.Some? ==> r.value <= p && ok(r.value)
    ensures r.Some? ==> forall q :: r.value < q <= p ==> !ok(q)
    ensures r.None? ==> forall q :: 0 <= q <= p ==> !ok(q)
    decreases p
  {
    if ok(p) then Some(p)
    else if p == 0 then None
    else LastMatch(ok, p - 1)
  }

  /** A position with `ok` and none after it up to `p` is the one found. */
  lemma {:induction false} LastMatchIs(ok: nat -> bool, p: nat, m: nat)
    requires m <= p && ok(m)
    requires forall q :: m < q <= p ==> !ok(q)
    ensures LastMatch(ok, p) == Some(m)
    decreases p
  {
    if m < p {
      LastMatchIs(ok, p - 1, m);
    }
  }

  /** The positions of `s` at which the figures match. */
  function MatchesIn(s: string): nat -> bool {
    (q: nat) => q <= |s| && DimsAt(s, q).Some?
  }

  /** The two millimetre figures `re.match` captures. The greedy `.*` cannot
      cross the first new line and gives characters back one at a time, so
      the match is the one tried at the largest position up to that line's
      end. */
  function ScreenDims(s: string): Option<(nat, nat)> {
    match LastMatch(MatchesIn(s), RunEnd(s, 0, NotNewline))
    case None => None
    case Some(p) => DimsAt(s, p)
  }

  /** One line of `xrandr` output ending in the physical size of the
      display: anything without a new line, then ` <w>mm x <h>mm`. */
  function ScreenLine(pre: string, w: nat, h: nat): string {
    pre + " " + NatToString(w) + "mm x " + NatToString(h) + "mm"
  }

  /** `s` holds ` <D>mm` at `p` for a run of digits `D`. */
  lemma FigureOf(s: string, p: nat, D: string)
    requires D != [] && AllDigits(D)
    requires p + 3 + |D| <= |s| && IsSpace(s[p])
    requires s[p + 1..p + 1 + |D|] == D && s[p + 1 + |D|..p + 3 + |D|] == "mm"
    ensures FigureAt(s, p) == Some((D, p + 3 + |D|))
  {
    var d := p + 1 + |D|;
    forall k | p + 1 <= k < d
      ensures IsDigit(s[k])
    {
      assert s[k] == D[k - p - 1];
    }
    assert s[d] == s[d..d + 2][0];
    RunEndOf(s, p, p + 1, IsSpace);
    RunEndOf(s, p + 1, d, IsDigit);
  }

  /** The three stages of `DimsAt`, each matched, give its result. */
  lemma DimsAtStages(s: string, p: nat, W: string, e1: nat, e2: nat, H: string, e3: nat)
    requires p <= |s|
    requires FigureAt(s, p) == Some((W, e1)) && CrossAt(s, e1) == Some(e2)
    requires FigureAt(s, e2) == Some((H, e3))
    ensures AllDigits(W) && AllDigits(H)
    ensures DimsAt(s, p) == Some((DigitsValue(W), DigitsValue(H)))
  {
  }

  /** Neither a figure nor the figures start where there is no blank. */
  lemma NoDimsWithoutBlank(s: string, q: nat)
    requires q <= |s| && (q == |s| || !IsSpace(s[q]))
    ensures FigureAt(s, q).None? && DimsAt(s, q).None?
  {
  }

  /** From `p` on, `s` holds a blank and then `<W>mm x <H>mm`, ending at
      `FiguresEnd(p, W, H)`. */
  predicate HoldsFigures(s: string, p: nat, W: string, H: string) {
    var e1 := p + 1 + |W|;
    var e2 := e1 + 5 + |H|;
    && e2 + 2 <= |s| && IsSpace(s[p]) && s[p + 1..e1] == W && s[e1..e1 + 2] == "mm"
    && s[e1 + 2] == ' ' && s[e1 + 3] == 'x' && s[e1 + 4] == ' '
    && s[e1 + 5..e2] == H && s[e2..e2 + 2] == "mm"
  }

  function FiguresEnd(p: nat, W: string, H: string): nat {
    p + 8 + |W| + |H|
  }

  /** What may follow the figures at `e`: the end of the output, or a new
      line after which the next line opens with neither a blank, a digit
      nor `x`. Any of those would let `\s+` carry a later match across the
      new line (`NextLineFiguresWin`). */
  predicate LineEndAt(s: string, e: nat) {
    e == |s| || (e < |s| && s[e] == '\n' && (e + 1 == |s| || (!IsSpace(s[e + 1]) && !IsDigit(s[e + 1]) && s[e + 1] != 'x')))
  }

  /** `LineEndAt` for the text that follows the figures. */
  predicate LineEnd(rest: string) {
    LineEndAt(rest, 0)
  }

  lemma FiguresLayout(pre: string, lead: string, W: string, H: string)
    requires |lead| == 1 && IsSpace(lead[0])
    ensures var s := pre + lead + W + "mm x " + H + "mm";
            HoldsFigures(s, |pre|, W, H) && |s| == FiguresEnd(|pre|, W, H) && s[|pre|] == lead[0]
  {
    var s := pre + lead + W + "mm x " + H + "mm";
    var e1 := |pre| + 1 + |W|;
    var e2 := e1 + 5 + |H|;
    assert s[|pre|] == lead[0];
    assert s[|pre| + 1..e1] == W;
    assert s[e1..e1 + 2] == "mm";
    assert s[e1 + 5..e2] == H;
    assert s[e2..e2 + 2] == "mm";
  }

  /** Text appended after the figures leaves them in place. */
  lemma HoldsFiguresExtends(t: string, rest: string, p: nat, W: string, H: string)
    requires HoldsFigures(t, p, W, H)
    ensures HoldsFigures(t + rest, p, W, H)
  {
    var s := t + rest;
    var e1 := p + 1 + |W|;
    var e2 := e1 + 5 + |H|;
    assert s[p + 1..e1] == t[p + 1..e1];
    assert s[e1..e1 + 2] == t[e1..e1 + 2];
    assert s[e1 + 5..e2] == t[e1 + 5..e2];
    assert s[e2..e2 + 2] == t[e2..e2 + 2];
  }

  /** ` x` at `b` is the separator between the figures. */
  lemma CrossOf(s: string, b: nat)
    requires b + 2 <= |s| && s[b] == ' ' && s[b + 1] == 'x'
    ensures CrossAt(s, b) == Some(b + 2)
  {
    RunEndOf(s, b, b + 1, IsSpace);
  }

  /** The three stages of figures held at `p`. */
  lemma StagesOfFigures(s: string, p: nat, W: string, H: string, b: nat, c: nat)
    requires W != [] && AllDigits(W) && H != [] && AllDigits(H)
    requires HoldsFigures(s, p, W, H)
    requires b == p + 3 + |W| && c == b + 2
    ensures FigureAt(s, p) == Some((W, b))
    ensures CrossAt(s, b) == Some(c)
    ensures FigureAt(s, c) == Some((H, FiguresEnd(p, W, H)))
  {
    FigureOf(s, p, W);
    CrossOf(s, b);
    FigureOf(s, c, H);
  }

  /** Tried at `p`, figures written there are read back. */
  lemma DimsAtFigures(s: string, p: nat, W: string, H: string)
    requires W != [] && AllDigits(W) && H != [] && AllDigits(H)
    requires HoldsFigures(s, p, W, H)
    ensures DimsAt(s, p) == Some((DigitsValue(W), DigitsValue(H)))
  {
    var b := p + 3 + |W|;
    StagesOfFigures(s, p, W, H, b, b + 2);
    DimsAtStages(s, p, W, b, b + 2, H, FiguresEnd(p, W, H));
  }

  /** At the end of a line neither a figure nor the separator starts. */
  lemma NothingAtLineEnd(s: string, e: nat)
    requires e <= |s| && LineEndAt(s, e)
    ensures FigureAt(s, e).None? && CrossAt(s, e).None? && DimsAt(s, e).None?
  {
    if e < |s| {
      RunEndOf(s, e, e + 1, IsSpace);
      RunEndOf(s, e + 1, e + 1, IsDigit);
    }
  }

  /** Inside the figures only the two blanks around `x` are blank. */
  lemma FiguresBlankOnlyAroundCross(s: string, p: nat, W: string, H: string, q: nat)
    requires AllDigits(W) && AllDigits(H)
    requires HoldsFigures(s, p, W, H)
    requires p < q < FiguresEnd(p, W, H) && q != p + 3 + |W| && q != p + 5 + |W|
    ensures !IsSpace(s[q])
  {
    var e1 := p + 1 + |W|;
    var e2 := e1 + 5 + |H|;
    if q < e1 {
      assert s[q] == s[p + 1..e1][q - p - 1];
    } else if e1 + 5 <= q < e2 {
      assert s[q] == s[e1 + 5..e2][q - e1 - 5];
    } else if q == e1 || q == e1 + 1 {
      assert s[q] == s[e1..e1 + 2][q - e1];
    } else if q == e2 || q == e2 + 1 {
      assert s[q] == s[e2..e2 + 2][q - e2];
    }
  }

  /** No position after `p` up to the end of the line starts another match
      of the figures. */
  lemma NoMatchAfterFigures(s: string, p: nat, W: string, H: string, q: nat)
    requires W != [] && AllDigits(W) && H != [] && AllDigits(H)
    requires HoldsFigures(s, p, W, H) && LineEndAt(s, FiguresEnd(p, W, H))
    requires p < q <= FiguresEnd(p, W, H)
    ensures DimsAt(s, q).None?
  {
    var e1 := p + 1 + |W|;
    if q == e1 + 2 {
      RunEndOf(s, q, e1 + 3, IsSpace);
      NoDimsWithoutBlank(s, e1 + 3);
    } else if q == e1 + 4 {
      StagesOfFigures(s, p, W, H, e1 + 2, q);
      NothingAtLineEnd(s, FiguresEnd(p, W, H));
    } else if q == FiguresEnd(p, W, H) {
      NothingAtLineEnd(s, q);
    } else {
      FiguresBlankOnlyAroundCross(s, p, W, H, q);
      NoDimsWithoutBlank(s, q);
    }
  }

  /** Past their first blank, the figures hold no new line. */
  lemma FiguresOneLine(s: string, p: nat, W: string, H: string)
    requires AllDigits(W) && AllDigits(H)
    requires HoldsFigures(s, p, W, H)
    ensures forall k :: p < k < FiguresEnd(p, W, H) ==> NotNewline(s[k])
  {
    var e1 := p + 1 + |W|;
    var e2 := e1 + 5 + |H|;
    forall k | p < k < FiguresEnd(p, W, H)
      ensures NotNewline(s[k])
    {
      if k < e1 {
        assert s[k] == s[p + 1..e1][k - p - 1];
      } else if e1 + 5 <= k < e2 {
        assert s[k] == s[e1 + 5..e2][k - e1 - 5];
      } else if k == e1 || k == e1 + 1 {
        assert s[k] == s[e1..e1 + 2][k - e1];
      } else if k == e2 || k == e2 + 1 {
        assert s[k] == s[e2..e2 + 2][k - e2];
      }
    }
  }

  /** A first line that ends in figures reads as those figures: the greedy
      `.*` settles on the last ` <W>mm x <H>mm`, whatever comes before it,
      and a line end after them stops `\s+` from reaching further. */
  lemma FiguresLineDims(s: string, p: nat, W: string, H: string)
    requires W != [] && AllDigits(W) && H != [] && AllDigits(H)
    requires HoldsFigures(s, p, W, H) && LineEndAt(s, FiguresEnd(p, W, H))
    requires forall k :: 0 <= k <= p ==> NotNewline(s[k])
    ensures ScreenDims(s) == Some((DigitsValue(W), DigitsValue(H)))
  {
    var e := FiguresEnd(p, W, H);
    FiguresOneLine(s, p, W, H);
    RunEndOf(s, 0, e, NotNewline);
    DimsAtFigures(s, p, W, H);
    forall q | p < q <= e ensures !MatchesIn(s)(q) {
      NoMatchAfterFigures(s, p, W, H, q);
    }
    LastMatchIs(MatchesIn(s), e, p);
  }

  /** A line end that follows a text is one right after it. */
  lemma LineEndAfter(t: string, rest: string)
    requires LineEnd(rest)
    ensures LineEndAt(t + rest, |t|)
  {
    if rest != [] {
      assert (t + rest)[|t|] == rest[0];
      if |rest| > 1 {
        assert (t + rest)[|t| + 1] == rest[1];
      }
    }
  }

  /** A screen line reads back as the diagonal of its figures, whatever
      text without a new line comes before them and whatever further
      lines follow, as long as the next line does not open with a blank,
      a digit or `x` (`xrandr` lines open with the output's name). */
  lemma ScreenLineRoundTrip(pre: string, w: nat, h: nat, rest: string)
    requires '\n' !in pre && LineEnd(rest)
    ensures ScreenDims(ScreenLine(pre, w, h) + rest) == Some((w, h))
    ensures ParseScreen(ScreenLine(pre, w, h) + rest) == Accept(Int(DiagonalInches((w, h))))
  {
    var W, H := NatToString(w), NatToString(h);
    var t := ScreenLine(pre, w, h);
    var s := t + rest;
    FiguresLayout(pre, " ", W, H);
    HoldsFiguresExtends(t, rest, |pre|, W, H);
    LineEndAfter(t, rest);
    assert forall k :: 0 <= k < |pre| ==> s[k] == pre[k];
    assert s[|pre|] == t[|pre|];
    FiguresLineDims(s, |pre|, W, H);
  }

  /** The condition on the next line is needed: `\s+` matches the new
      line, so figures opening the next line are read instead of those
      ending the first. */
  lemma NextLineFiguresWin(t: string, w: nat, h: nat)
    requires '\n' !in t
    ensures ScreenDims(t + "\n" + NatToString(w) + "mm x " + NatToString(h) + "mm") == Some((w, h))
  {
    var W, H := NatToString(w), NatToString(h);
    var s := t + "\n" + W + "mm x " + H + "mm";
    FiguresLayout(t, "\n", W, H);
    assert forall k :: 0 <= k < |t| ==> s[k] == t[k];
    RunEndOf(s, 0, |t|, NotNewline);
    DimsAtFigures(s, |t|, W, H);
    LastMatchIs(MatchesIn(s), |t|, |t|);
  }

  /** Lower edge of the interval of diagonals that round to `n` inches,
      as `100 · (diagonal in mm)²`: `(n − ½) · 25.4` squared and scaled. */
  function HalfInchBelow(n: nat): nat {
    if n == 0 then 0 else 16129 * (2 * n - 1) * (2 * n - 1)
  }

  /** Upper edge: `(n + ½) · 25.4` squared and scaled by 100. */
  function HalfInchAbove(n: nat): nat {
    16129 * (2 * n + 1) * (2 * n + 1)
  }

  /** `n` is `round(sqrt(sq) / 25.4)`: the diagonal lies within half an
      inch of `n` inches. */
  predicate RoundsTo(sq: nat, n: nat) {
    HalfInchBelow(n) <= 100 * sq < HalfInchAbove(n)
  }

  lemma HalfInchStep(n: nat)
    ensures HalfInchBelow(n + 1) == HalfInchAbove(n)
    ensures HalfInchAbove(n) < HalfInchAbove(n + 1)
  {
  }

  /** Search upwards from `n` for the nearest whole number of inches. */
  function NearestFrom(sq: nat, n: nat): (r: nat)
    requires HalfInchBelow(n) <= 100 * sq
    ensures RoundsTo(sq, r)
    decreases 100 * sq - HalfInchBelow(n)
  {
    HalfInchStep(n);
    if 100 * sq < HalfInchAbove(n) then n else NearestFrom(sq, n + 1)
  }

  function SumOfSquares(dims: (nat, nat)): nat {
    dims.0 * dims.0 + dims.1 * dims.1
  }

  /** The diagonal in whole inches of a `w` by `h` millimetre screen. */
  function DiagonalInches(dims: (nat, nat)): (r: nat)
    ensures RoundsTo(SumOfSquares(dims), r)
  {
    NearestFrom(SumOfSquares(dims), 0)
  }

  /** At most one whole number is within half an inch of a diagonal, and no
      diagonal is exactly halfway, so Python's round-half-to-even never
      decides: `RoundsTo` pins down `round` of the exact quotient. */
  lemma RoundsToUnique(sq: nat, n: nat, m: nat)
    requires RoundsTo(sq, n) && RoundsTo(sq, m)
    ensures n == m
  {
    if n < m {
      HalfInchMonotone(n + 1, m);
      HalfInchStep(n);
    } else if m < n {
      HalfInchMonotone(m + 1, n);
      HalfInchStep(m);
    }
  }

  lemma {:induction false} HalfInchMonotone(i: nat, j: nat)
    requires i <= j
    ensures HalfInchBelow(i) <= HalfInchBelow(j)
    decreases j - i
  {
    if i < j {
      HalfInchMonotone(i, j - 1);
      HalfInchStep(j - 1);
      assert HalfInchBelow(j - 1) <= HalfInchAbove(j - 1);
    }
  }

  /** No diagonal sits exactly on a half inch: `100 · sq` would equal
      `16129 · k²` for an odd `k`, which is odd, while `100 · sq` is even. */
  lemma NoHalfInchTies(sq: nat, n: nat)
    ensures 100 * sq != HalfInchAbove(n)
  {
    var k := 2 * n + 1;
    var m := 2 * n * n + 2 * n;
    assert k * k == 2 * m + 1;
    assert HalfInchAbove(n) == 16129 * (k * k);
    assert 16129 * (2 * m + 1) == 2 * (16129 * m + 8064) + 1;
  }

  /** `validate_screen_size`. */
  function ParseScreen(s: string): (r: Verdict)
    ensures !r.Skip?
    ensures r.Accept? <==> ScreenDims(s).Some?
    ensures r.Accept? ==> r.v.Int? && r.v.i >= 0 && RoundsTo(SumOfSquares(ScreenDims(s).value), r.v.i)
  {
    var dims := ScreenDims(s);
    if dims.None? then Reject(NoMatchMsg) else Accept(Int(DiagonalInches(dims.value)))
  }

  /** 310 mm by 174 mm is a 14-inch screen. */
  lemma ScreenExample()
    ensures DiagonalInches((310, 174)) == 14
  {
    assert RoundsTo(SumOfSquares((310, 174)), 14);
    RoundsToUnique(SumOfSquares((310, 174)), DiagonalInches((310, 174)), 14);
  }

  /** The text before the figures in the sample `xrandr` line of `script.py`. */
  const XrandrSamplePrefix: string :=
    "eDP-1 connected " + "primary " + "3424x1926+0+0 " + "(normal left " + "inverted right " + "x axis y axis)"

  lemma XrandrSamplePrefixIsOneLine()
    ensures '\n' !in XrandrSamplePrefix
  {
    assert '\n' !in "eDP-1 connected " && '\n' !in "primary " && '\n' !in "3424x1926+0+0 ";
    assert '\n' !in "(normal left " && '\n' !in "inverted right " && '\n' !in "x axis y axis)";
  }

  /** A screen line is its prefix followed by the figures. */
  lemma ScreenLineSplits(pre: string, w: nat, h: nat)
    ensures ScreenLine(pre, w, h) == pre + (" " + NatToString(w) + "mm x " + NatToString(h) + "mm")
  {
  }

  /** The sample line, as `grep` prints it with its new line, reads as a
      14-inch screen. */
  lemma XrandrSampleExample()
    ensures ParseScreen(XrandrSamplePrefix + " 310mm x 174mm" + "\n") == Accept(Int(14))
  {
    assert " " + NatToString(310) + "mm x " + NatToString(174) + "mm" == " 310mm x 174mm" by {
      assert NatToString(310) == "310" by {
        assert NatToString(3) == "3";
        assert NatToString(31) == "31";
      }
      assert NatToString(174) == "174" by {
        assert NatToString(1) == "1";
        assert NatToString(17) == "17";
      }
    }
    ScreenLineSplits(XrandrSamplePrefix, 310, 174);
    XrandrSamplePrefixIsOneLine();
    assert LineEnd("\n");
    ScreenLineRoundTrip(XrandrSamplePrefix, 310, 174, "\n");
    ScreenExample();
  }

  /** Where the pattern matches at `p`, with `a`, `d1`, `b`, `c` and `d2`
      the ends of its blank, digit, blank, blank and digit runs. */
  predicate FiguresAt(s: string, p: nat, a: nat, d1: nat, b: nat, c: nat, d2: nat) {
    && p < a < d1 && d1 + 2 < b < |s| && b + 1 < c < d2 && d2 + 2 <= |s|
    && (forall k :: p <= k < a ==> IsSpace(s[k]))
    && (forall k :: a <= k < d1 ==> IsDigit(s[k])) && s[d1..d1 + 2] == "mm"
    && (forall k :: d1 + 2 <= k < b ==> IsSpace(s[k])) && s[b] == 'x'
    && (forall k :: b + 1 <= k < c ==> IsSpace(s[k]))
    && (forall k :: c <= k < d2 ==> IsDigit(s[k])) && s[d2..d2 + 2] == "mm"
  }

  /** A figure found at `p` is blanks, digits and `mm`. */
  lemma FigureAtSound(s: string, p: nat) returns (a: nat, d: nat)
    requires p <= |s| && FigureAt(s, p).Some?
    ensures p < a < d && d + 2 <= |s| && FigureAt(s, p).value.1 == d + 2
    ensures (forall k :: p <= k < a ==> IsSpace(s[k])) && (forall k :: a <= k < d ==> IsDigit(s[k]))
    ensures s[d..d + 2] == "mm" && FigureAt(s, p).value.0 == s[a..d]
  {
    a := RunEnd(s, p, IsSpace);
    d := RunEnd(s, a, IsDigit);
  }

  /** A separator found at `p` is blanks and `x`. */
  lemma CrossAtSound(s: string, p: nat) returns (b: nat)
    requires p <= |s| && CrossAt(s, p).Some?
    ensures p < b < |s| && s[b] == 'x' && CrossAt(s, p).value == b + 1
    ensures forall k :: p <= k < b ==> IsSpace(s[k])
  {
    b := RunEnd(s, p, IsSpace);
  }

  /** A match of the figures at `p` passes all three stages. */
  lemma DimsAtParts(s: string, p: nat) returns (W: string, e1: nat, e2: nat, H: string, e3: nat)
    requires p <= |s| && DimsAt(s, p).Some?
    ensures e1 <= |s| && e2 <= |s|
    ensures FigureAt(s, p) == Some((W, e1)) && CrossAt(s, e1) == Some(e2)
    ensures FigureAt(s, e2) == Some((H, e3))
  {
    W, e1 := FigureAt(s, p).value.0, FigureAt(s, p).value.1;
    e2 := CrossAt(s, e1).value;
    H, e3 := FigureAt(s, e2).value.0, FigureAt(s, e2).value.1;
  }

  /** A match of the figures at `p` is the layout the pattern asks for. */
  lemma DimsAtSound(s: string, p: nat) returns (a: nat, d1: nat, b: nat, c: nat, d2: nat)
    requires p <= |s| && DimsAt(s, p).Some?
    ensures FiguresAt(s, p, a, d1, b, c, d2)
    ensures AllDigits(s[a..d1]) && AllDigits(s[c..d2])
    ensures DimsAt(s, p) == Some((DigitsValue(s[a..d1]), DigitsValue(s[c..d2])))
  {
    var W, e1, e2, H, e3 := DimsAtParts(s, p);
    DimsAtStages(s, p, W, e1, e2, H, e3);
    a, d1 := FigureAtSound(s, p);
    b := CrossAtSound(s, e1);
    c, d2 := FigureAtSound(s, e2);
  }

  /** Whatever `ScreenDims` finds is a match of the whole pattern: a first
      line's text up to `p`, then blanks, digits, `mm`, blanks, `x`,
      blanks, digits and `mm`, the captured figures being the digit runs. */
  lemma ScreenDimsSound(s: string) returns (p: nat, a: nat, d1: nat, b: nat, c: nat, d2: nat)
    requires ScreenDims(s).Some?
    ensures p <= |s| && forall k :: 0 <= k < p ==> s[k] != '\n'
    ensures FiguresAt(s, p, a, d1, b, c, d2)
    ensures AllDigits(s[a..d1]) && AllDigits(s[c..d2])
    ensures ScreenDims(s) == Some((DigitsValue(s[a..d1]), DigitsValue(s[c..d2])))
  {
    p := LastMatch(MatchesIn(s), RunEnd(s, 0, NotNewline)).value;
    assert p <= |s| && DimsAt(s, p) == ScreenDims(s);
    a, d1, b, c, d2 := DimsAtSound(s, p);
  }

  // ---------------------------------------------------------------------
  // validate_battery: ([\d\.]*)% then str(round(float(...), 2)) + "%"

  /** Text `float()` accepts when it is made of digits and dots only: at
      least one digit and at most one dot. */
  predicate IsDecimalLiteral(t: string) {
    && (exists k :: 0 <= k < |t| && IsDigit(t[k]))
    && multiset(t)['.'] <= 1
  }

  /** `str(round(float(t), 2))`, which the model leaves abstract. */
  type NumberFormat = string -> string

  /** The run of digits and dots that opens the input, when a `%` follows it. */
  function BatteryDigits(s: string): (t: Option<string>)
    ensures t.Some? ==> |t.value| < |s| && s[..|t.value|] == t.value && s[|t.value|] == '%'
    ensures t.Some? ==> forall k :: 0 <= k < |t.value| ==> IsNumChar(t.value[k])
    ensures t.None? <==> !exists n :: 0 <= n < |s| && s[n] == '%' && AllSatisfy(s[..n], IsNumChar)
  {
    var n := RunEnd(s, 0, IsNumChar);
    assert AllSatisfy(s[..n], IsNumChar) by {
      assert forall k :: 0 <= k < n ==> s[..n][k] == s[k];
    }
    assert forall m :: 0 <= m < |s| && s[m] == '%' && AllSatisfy(s[..m], IsNumChar) ==> m == n by {
      forall m | 0 <= m < |s| && s[m] == '%' && AllSatisfy(s[..m], IsNumChar)
        ensures m == n
      {
        OnlyRunBeforeSign(s, n, m);
      }
    }
    if n < |s| && s[n] == '%' then Some(s[..n]) else None
  }

  /** The only `%` with digits and dots alone before it is the one that
      ends the opening run of digits and dots. */
  lemma OnlyRunBeforeSign(s: string, n: nat, m: nat)
    requires n <= |s| && (forall k :: 0 <= k < n ==> IsNumChar(s[k])) && (n == |s| || !IsNumChar(s[n]))
    requires m < |s| && s[m] == '%' && AllSatisfy(s[..m], IsNumChar)
    ensures m == n
  {
  }

  /** A run of digits and dots followed by `%` is captured, whatever
      comes after the sign. */
  lemma BatteryRoundTrip(t: string, rest: string)
    requires AllSatisfy(t, IsNumChar)
    ensures BatteryDigits(t + "%" + rest) == Some(t)
  {
    var s := t + "%" + rest;
    assert s[..|t|] == t;
    assert s[|t|] == '%';
  }

  /** `validate_battery`: a percentage `float()` can read, formatted and
      given back its `%` sign. */
  function ParseBattery(s: string, format: NumberFormat): (r: Verdict)
    ensures !r.Skip?
    ensures r.Accept? <==> BatteryDigits(s).Some? && IsDecimalLiteral(BatteryDigits(s).value)
    ensures r.Accept? ==> r.v.Str? && |r.v.s| > 0 && r.v.s[|r.v.s| - 1] == '%'
    ensures r.Accept? ==> r.v.s == format(BatteryDigits(s).value) + "%"
  {
    match BatteryDigits(s)
    case None => Reject(NoMatchMsg)
    case Some(t) => if IsDecimalLiteral(t) then Accept(Str(format(t) + "%")) else Reject(NoMatchMsg)
  }

  /** `upower` reporting `87%` gives the formatted 87 followed by `%`. */
  lemma BatteryExample(format: NumberFormat)
    ensures ParseBattery("87%\n", format) == Accept(Str(format("87") + "%"))
  {
    BatteryRoundTrip("87", "\n");
    assert "87" + "%" + "\n" == "87%\n";
    assert IsDigit("87"[0]);
    assert multiset("87")['.'] == 0;
  }

  /** A `%` with no number before it is refused (`float("")` raises). */
  lemma BatteryNeedsDigits(rest: string, format: NumberFormat)
    ensures ParseBattery("%" + rest, format).Reject?
  {
    var s := "%" + rest;
    assert BatteryDigits(s) == Some("");
  }

  // ---------------------------------------------------------------------
  // Presence fields

  /** `lambda x: True`: any output of a successful detection means present. */
  function ParsePresence(s: string): (r: Verdict)
    ensures r == Accept(Bool(true))
  {
    Accept(Bool(true))
  }
}
