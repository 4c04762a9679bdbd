/** The two fixed line grammars of the report, as explicit recognizers.

    Eigenvalue line (`get_wavenumbers`), matched from the start of the line:
      \s+ \d+ \s+ -?\d+\.\d+ \s+ -?\d+\.\d+ \s+ \d+\.\d+ \s* <end of line>
    Transition line (`get_transitions`), matched from the start of the line
    and not anchored at its end:
      \s+ \d+ \s+ \d+ \s+ \d\.\d+E[+-]\d{2}

    Every token class that follows another is disjoint from it (whitespace,
    digits, '-', '.', 'E'), so a greedy left-to-right reading is the only
    way a line can match; each recognizer returns the parse as a layout
    value that renders back to the line. */
module Grammar {
  import opened Wrappers
  import opened Text

  /** A decimal field `-?\d+\.\d+`; `negative` only where the grammar has `-?`. */
  datatype Decimal = Decimal(negative: bool, whole: string, fraction: string)

  predicate ValidDecimal(d: Decimal, signed: bool) {
    (d.negative ==> signed)
    && |d.whole| > 0 && AllDigits(d.whole)
    && |d.fraction| > 0 && AllDigits(d.fraction)
  }

  function RenderDecimal(d: Decimal): string {
    (if d.negative then "-" else "") + (d.whole + ("." + d.fraction))
  }

  /** The exact value of a decimal field (what `astype(float)` rounds). */
  function DecimalValue(d: Decimal): (v: real)
    requires ValidDecimal(d, true)
    ensures var magnitude := if d.negative then -v else v;
      DigitsValue(d.whole) as real <= magnitude < DigitsValue(d.whole) as real + 1.0
  {
    var fraction := DigitsValue(d.fraction) as real / Pow10(|d.fraction|) as real;
    FractionBounds(DigitsValue(d.fraction), Pow10(|d.fraction|));
    var magnitude := DigitsValue(d.whole) as real + fraction;
    if d.negative then -magnitude else magnitude
  }

  /** A digit string after the point is worth less than one whole unit. */
  lemma FractionBounds(n: nat, p: nat)
    requires n < p
    ensures 0.0 <= n as real / p as real < 1.0
  {
    assert n as real < p as real;
  }

  /** A strength field `\d\.\d+E[+-]\d{2}`. */
  datatype Scientific = Scientific(lead: char, fraction: string, expNegative: bool, exponent: string)

  predicate ValidScientific(x: Scientific) {
    IsDigit(x.lead) && |x.fraction| > 0 && AllDigits(x.fraction)
    && |x.exponent| == 2 && AllDigits(x.exponent)
  }

  function RenderScientific(x: Scientific): string {
    [x.lead] + ("." + (x.fraction + ("E" + ([if x.expNegative then '-' else '+'] + x.exponent))))
  }

  /** The exact value of a strength field; the grammar has no sign in front,
      so it is never negative. */
  function ScientificValue(x: Scientific): (v: real)
    requires ValidScientific(x)
    ensures v >= 0.0
    ensures x.lead != '0' ==> v > 0.0
  {
    var mantissa := (x.lead as int - '0' as int) as real
      + DigitsValue(x.fraction) as real / Pow10(|x.fraction|) as real;
    var scale := Pow10(DigitsValue(x.exponent)) as real;
    ScaledSign(mantissa, scale);
    if x.expNegative then mantissa / scale else mantissa * scale
  }

  lemma ScaledSign(m: real, scale: real)
    requires scale >= 1.0
    ensures m >= 0.0 ==> m / scale >= 0.0 && m * scale >= 0.0
    ensures m > 0.0 ==> m / scale > 0.0 && m * scale > 0.0
  {
  }

  // ---------------------------------------------------------------- tokens

  lemma Assoc3(a: string, b: string, c: string)
    ensures (a + b) + c == a + (b + c)
  {
  }

  /** `\s+`: the whole run of whitespace at the front, and what follows it. */
  function Spaces(s: string): (r: Option<(string, string)>)
    ensures r.Some? ==> |r.value.0| > 0 && AllSpaces(r.value.0) && r.value.0 + r.value.1 == s
    ensures r.Some? <==> s != [] && IsSpace(s[0])
  {
    var n := SpanSpaces(s);
    if n == 0 then None else Some((s[..n], s[n..]))
  }

  /** `\d+`: the whole run of digits at the front, and what follows it. */
  function Digits(s: string): (r: Option<(string, string)>)
    ensures r.Some? ==> |r.value.0| > 0 && AllDigits(r.value.0) && r.value.0 + r.value.1 == s
    ensures r.Some? <==> s != [] && IsDigit(s[0])
  {
    var n := SpanDigits(s);
    if n == 0 then None else Some((s[..n], s[n..]))
  }

  /** `-?\d+\.\d+` when `signed`, `\d+\.\d+` otherwise. */
  function ParseDecimal(s: string, signed: bool): (r: Option<(Decimal, string)>)
    ensures r.Some? ==> ValidDecimal(r.value.0, signed) && RenderDecimal(r.value.0) + r.value.1 == s
  {
    var negative := signed && s != [] && s[0] == '-';
    var t := if negative then s[1..] else s;
    var w :- Digits(t);
    if w.1 == [] || w.1[0] != '.' then None
    else
      var f :- Digits(w.1[1..]);
      DecimalLayout(s, negative, t, w.0, w.1, f.0, f.1);
      Some((Decimal(negative, w.0, f.0), f.1))
  }

  lemma DecimalLayout(s: string, negative: bool, t: string, whole: string, afterWhole: string,
                      fraction: string, rest: string)
    requires negative ==> s != [] && s[0] == '-'
    requires t == if negative then s[1..] else s
    requires whole + afterWhole == t && afterWhole != [] && afterWhole[0] == '.'
    requires fraction + rest == afterWhole[1..]
    ensures RenderDecimal(Decimal(negative, whole, fraction)) + rest == s
  {
    var sign := if negative then "-" else "";
    calc {
      RenderDecimal(Decimal(negative, whole, fraction)) + rest;
      { Assoc3(sign, whole + ("." + fraction), rest);
        Assoc3(whole, "." + fraction, rest);
        Assoc3(".", fraction, rest); }
      sign + (whole + ("." + (fraction + rest)));
      { assert afterWhole == "." + afterWhole[1..]; }
      sign + t;
      s;
    }
  }

  /** `\d\.\d+E[\+\-]\d{2}`. */
  function ParseScientific(s: string): (r: Option<(Scientific, string)>)
    ensures r.Some? ==> ValidScientific(r.value.0) && RenderScientific(r.value.0) + r.value.1 == s
  {
    if |s| < 2 || !IsDigit(s[0]) || s[1] != '.' then None
    else
      var f :- Digits(s[2..]);
      var u := f.1;
      if |u| < 4 || u[0] != 'E' || (u[1] != '+' && u[1] != '-') || !IsDigit(u[2]) || !IsDigit(u[3]) then None
      else
        var x := Scientific(s[0], f.0, u[1] == '-', u[2..4]);
        ScientificLayout(s, f.0, u, x);
        Some((x, u[4..]))
  }

  lemma ScientificLayout(s: string, fraction: string, u: string, x: Scientific)
    requires |s| >= 2 && s[1] == '.' && fraction + u == s[2..]
    requires |u| >= 4 && u[0] == 'E' && (u[1] == '+' || u[1] == '-')
    requires x == Scientific(s[0], fraction, u[1] == '-', u[2..4])
    ensures RenderScientific(x) + u[4..] == s
  {
    var sign := [if x.expNegative then '-' else '+'];
    calc {
      RenderScientific(x) + u[4..];
      { Assoc3([x.lead], "." + (x.fraction + ("E" + (sign + x.exponent))), u[4..]);
        Assoc3(".", x.fraction + ("E" + (sign + x.exponent)), u[4..]);
        Assoc3(x.fraction, "E" + (sign + x.exponent), u[4..]);
        Assoc3("E", sign + x.exponent, u[4..]);
        Assoc3(sign, x.exponent, u[4..]); }
      [s[0]] + ("." + (fraction + ("E" + (sign + (u[2..4] + u[4..])))));
      { assert u == "E" + (sign + (u[2..4] + u[4..])); }
      [s[0]] + ("." + (fraction + u));
      { assert s == [s[0]] + ("." + s[2..]); }
      s;
    }
  }

  /** `\s+` followed by `\d+`. */
  function GapDigits(s: string): (r: Option<(string, string, string)>)
    ensures r.Some? ==> (|r.value.0| > 0 && AllSpaces(r.value.0)
        && |r.value.1| > 0 && AllDigits(r.value.1) && r.value.0 + (r.value.1 + r.value.2) == s)
  {
    var g :- Spaces(s);
    var n :- Digits(g.1);
    Some((g.0, n.0, n.1))
  }

  /** `\s+` followed by a decimal field. */
  function GapDecimal(s: string, signed: bool): (r: Option<(string, Decimal, string)>)
    ensures r.Some? ==> (|r.value.0| > 0 && AllSpaces(r.value.0)
        && ValidDecimal(r.value.1, signed) && r.value.0 + (RenderDecimal(r.value.1) + r.value.2) == s)
  {
    var g :- Spaces(s);
    var d :- ParseDecimal(g.1, signed);
    Some((g.0, d.0, d.1))
  }

  /** `\s+` followed by a strength field. */
  function GapScientific(s: string): (r: Option<(string, Scientific, string)>)
    ensures r.Some? ==> (|r.value.0| > 0 && AllSpaces(r.value.0)
        && ValidScientific(r.value.1) && r.value.0 + (RenderScientific(r.value.1) + r.value.2) == s)
  {
    var g :- Spaces(s);
    var x :- ParseScientific(g.1);
    Some((g.0, x.0, x.1))
  }

  // ------------------------------------------------------- eigenvalue line

  /** A line of the eigenvalue table: state index, two signed decimals and
      the wavenumber, with the whitespace around them. */
  datatype EigenLine = EigenLine(
    lead: string, index: string, gap1: string, first: Decimal, gap2: string,
    second: Decimal, gap3: string, wavenumber: Decimal, trail: string)

  predicate ValidEigenLine(l: EigenLine) {
    |l.lead| > 0 && AllSpaces(l.lead)
    && |l.index| > 0 && AllDigits(l.index)
    && |l.gap1| > 0 && AllSpaces(l.gap1)
    && ValidDecimal(l.first, true)
    && |l.gap2| > 0 && AllSpaces(l.gap2)
    && ValidDecimal(l.second, true)
    && |l.gap3| > 0 && AllSpaces(l.gap3)
    && ValidDecimal(l.wavenumber, false)
    && AllSpaces(l.trail)
  }

  function RenderEigenLine(l: EigenLine): string {
    l.lead + (l.index + (l.gap1 + (RenderDecimal(l.first) + (l.gap2 + (RenderDecimal(l.second)
      + (l.gap3 + (RenderDecimal(l.wavenumber) + l.trail)))))))
  }

  /** The recognizer for the eigenvalue grammar. */
  function ParseEigenLine(line: string): (r: Option<EigenLine>)
    ensures r.Some? ==> ValidEigenLine(r.value) && RenderEigenLine(r.value) == line
  {
    var lead :- Spaces(line);
    var index :- Digits(lead.1);
    var first :- GapDecimal(index.1, true);
    var second :- GapDecimal(first.2, true);
    var third :- GapDecimal(second.2, false);
    if AllSpaces(third.2) then
      Some(EigenLine(lead.0, index.0, first.0, first.1, second.0, second.1, third.0, third.1, third.2))
    else None
  }

  // ------------------------------------------------------- transition line

  /** A line of the dipole transition table: initial state, final state and
      the strength, with what surrounds them; `rest` is whatever follows the
      two exponent digits. */
  datatype TransitionLine = TransitionLine(
    lead: string, initial: string, gap1: string, final: string, gap2: string,
    strength: Scientific, rest: string)

  predicate ValidTransitionLine(l: TransitionLine) {
    |l.lead| > 0 && AllSpaces(l.lead)
    && |l.initial| > 0 && AllDigits(l.initial)
    && |l.gap1| > 0 && AllSpaces(l.gap1)
    && |l.final| > 0 && AllDigits(l.final)
    && |l.gap2| > 0 && AllSpaces(l.gap2)
    && ValidScientific(l.strength)
  }

  function RenderTransitionLine(l: TransitionLine): string {
    l.lead + (l.initial + (l.gap1 + (l.final + (l.gap2 + (RenderScientific(l.strength) + l.rest)))))
  }

  /** The recognizer for the transition grammar. */
  function ParseTransitionLine(line: string): (r: Option<TransitionLine>)
    ensures r.Some? ==> ValidTransitionLine(r.value) && RenderTransitionLine(r.value) == line
  {
    var lead :- Spaces(line);
    var initial :- Digits(lead.1);
    var final :- GapDigits(initial.1);
    var strength :- GapScientific(final.2);
    Some(TransitionLine(lead.0, initial.0, final.0, final.1, strength.0, strength.1, strength.2))
  }
}

/** The recognizers accept exactly the renderings of well-formed layouts:
    what they return renders back to the line (soundness), and every
    well-formed layout is read back as itself (completeness). Together these
    say a line is accepted iff it is written in the grammar. */
module GrammarProofs {
  import opened Wrappers
  import opened Text
  import opened Grammar

  lemma SpacesOf(ws: string, rest: string)
    requires |ws| > 0 && AllSpaces(ws)
    requires rest == [] || !IsSpace(rest[0])
    ensures Spaces(ws + rest) == Some((ws, rest))
  {
    SpanSpacesOf(ws, rest);
    assert (ws + rest)[..|ws|] == ws;
    assert (ws + rest)[|ws|..] == rest;
  }

  lemma DigitsOf(ds: string, rest: string)
    requires |ds| > 0 && AllDigits(ds)
    requires rest == [] || !IsDigit(rest[0])
    ensures Digits(ds + rest) == Some((ds, rest))
  {
    SpanDigitsOf(ds, rest);
    assert (ds + rest)[..|ds|] == ds;
    assert (ds + rest)[|ds|..] == rest;
  }

  lemma DecimalOf(d: Decimal, signed: bool, rest: string)
    requires ValidDecimal(d, signed)
    requires rest == [] || !IsDigit(rest[0])
    ensures ParseDecimal(RenderDecimal(d) + rest, signed) == Some((d, rest))
  {
    var sign := if d.negative then "-" else "";
    var u := "." + (d.fraction + rest);
    var t := d.whole + u;
    var s := RenderDecimal(d) + rest;
    calc {
      s;
      { Assoc3(sign, d.whole + ("." + d.fraction), rest);
        Assoc3(d.whole, "." + d.fraction, rest);
        Assoc3(".", d.fraction, rest); }
      sign + t;
    }
    var negative := signed && s != [] && s[0] == '-';
    assert negative == d.negative by {
      assert s[0] == if d.negative then '-' else d.whole[0];
    }
    assert (if negative then s[1..] else s) == t;
    DigitsOf(d.whole, u);
    assert u[1..] == d.fraction + rest;
    DigitsOf(d.fraction, rest);
  }

  lemma ScientificOf(x: Scientific, rest: string)
    requires ValidScientific(x)
    ensures ParseScientific(RenderScientific(x) + rest) == Some((x, rest))
  {
    var sign := [if x.expNegative then '-' else '+'];
    var u := "E" + (sign + (x.exponent + rest));
    var s := RenderScientific(x) + rest;
    calc {
      s;
      { Assoc3([x.lead], "." + (x.fraction + ("E" + (sign + x.exponent))), rest);
        Assoc3(".", x.fraction + ("E" + (sign + x.exponent)), rest);
        Assoc3(x.fraction, "E" + (sign + x.exponent), rest);
        Assoc3("E", sign + x.exponent, rest);
        Assoc3(sign, x.exponent, rest); }
      [x.lead] + ("." + (x.fraction + u));
    }
    assert s[2..] == x.fraction + u;
    DigitsOf(x.fraction, u);
    assert u[2..4] == x.exponent;
    assert u[4..] == rest;
  }

  lemma GapDigitsOf(ws: string, ds: string, rest: string)
    requires |ws| > 0 && AllSpaces(ws) && |ds| > 0 && AllDigits(ds)
    requires rest == [] || !IsDigit(rest[0])
    ensures GapDigits(ws + (ds + rest)) == Some((ws, ds, rest))
  {
    assert !IsSpace((ds + rest)[0]);
    SpacesOf(ws, ds + rest);
    DigitsOf(ds, rest);
  }

  lemma GapDecimalOf(ws: string, d: Decimal, signed: bool, rest: string)
    requires |ws| > 0 && AllSpaces(ws) && ValidDecimal(d, signed)
    requires rest == [] || !IsDigit(rest[0])
    ensures GapDecimal(ws + (RenderDecimal(d) + rest), signed) == Some((ws, d, rest))
  {
    assert (RenderDecimal(d) + rest)[0] == if d.negative then '-' else d.whole[0];
    SpacesOf(ws, RenderDecimal(d) + rest);
    DecimalOf(d, signed, rest);
  }

  lemma GapScientificOf(ws: string, x: Scientific, rest: string)
    requires |ws| > 0 && AllSpaces(ws) && ValidScientific(x)
    ensures GapScientific(ws + (RenderScientific(x) + rest)) == Some((ws, x, rest))
  {
    assert (RenderScientific(x) + rest)[0] == x.lead;
    SpacesOf(ws, RenderScientific(x) + rest);
    ScientificOf(x, rest);
  }

  /** A run of whitespace in front stops a run of digits. */
  lemma GapStopsDigits(ws: string, rest: string)
    requires |ws| > 0 && AllSpaces(ws)
    ensures !IsDigit((ws + rest)[0])
  {
    assert (ws + rest)[0] == ws[0];
  }

  /** Every well-formed eigenvalue line is recognized, with its own fields. */
  lemma {:induction false} EigenLineComplete(l: EigenLine)
    requires ValidEigenLine(l)
    ensures ParseEigenLine(RenderEigenLine(l)) == Some(l)
  {
    var r3 := RenderDecimal(l.wavenumber) + l.trail;
    var r2 := RenderDecimal(l.second) + (l.gap3 + r3);
    var r1 := RenderDecimal(l.first) + (l.gap2 + r2);
    var r0 := l.index + (l.gap1 + r1);
    assert !IsSpace(r0[0]) by { assert r0[0] == l.index[0]; }
    SpacesOf(l.lead, r0);
    GapStopsDigits(l.gap1, r1);
    DigitsOf(l.index, l.gap1 + r1);
    GapStopsDigits(l.gap2, r2);
    GapDecimalOf(l.gap1, l.first, true, l.gap2 + r2);
    GapStopsDigits(l.gap3, r3);
    GapDecimalOf(l.gap2, l.second, true, l.gap3 + r3);
    if l.trail != [] {
      SpaceIsNotDigit(l.trail[0]);
    }
    GapDecimalOf(l.gap3, l.wavenumber, false, l.trail);
  }

  /** Every well-formed transition line is recognized, with its own fields,
      whatever follows the strength. */
  lemma {:induction false} TransitionLineComplete(l: TransitionLine)
    requires ValidTransitionLine(l)
    ensures ParseTransitionLine(RenderTransitionLine(l)) == Some(l)
  {
    var r2 := RenderScientific(l.strength) + l.rest;
    var r1 := l.final + (l.gap2 + r2);
    var r0 := l.initial + (l.gap1 + r1);
    assert !IsSpace(r0[0]) by { assert r0[0] == l.initial[0]; }
    SpacesOf(l.lead, r0);
    assert (l.gap1 + r1)[0] == l.gap1[0];
    DigitsOf(l.initial, l.gap1 + r1);
    assert (l.gap2 + r2)[0] == l.gap2[0];
    GapDigitsOf(l.gap1, l.final, l.gap2 + r2);
    GapScientificOf(l.gap2, l.strength, l.rest);
  }
}
