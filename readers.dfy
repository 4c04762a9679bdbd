/** `get_wavenumbers` and `get_transitions`: each extracts its block of the
    report and keeps, in order, the fields of the block lines that match its
    grammar; every other line is skipped. */
module Readers {
  import opened Wrappers
  import opened Text
  import opened Block
  import opened Grammar

  const EigenStart := "Eigenvalues of complex Hamiltonian:"
  const EigenEnd := "Weights of the five most important"
  const DipoleStart := "++ Dipole transition strengths (SO states):"
  const DipoleEnd := "++ Velocity transition strengths (SO states):"

  /** One transition as read from the report: 1-based state indices and the
      oscillator strength. */
  datatype Transition = Transition(initial: int, final: int, strength: real)

  /** The wavenumber an eigenvalue line contributes (the third decimal). */
  function LineWavenumber(line: string): (r: Option<real>)
    ensures r.Some? <==> ParseEigenLine(line).Some?
    ensures r.Some? ==> r.value >= 0.0
  {
    match ParseEigenLine(line)
    case None => None
    case Some(l) => Some(DecimalValue(l.wavenumber))
  }

  /** The transition a dipole-table line contributes. */
  function LineTransition(line: string): (r: Option<Transition>)
    ensures r.Some? ==> r.value.initial >= 0 && r.value.final >= 0 && r.value.strength >= 0.0
  {
    match ParseTransitionLine(line)
    case None => None
    case Some(l) => Some(Transition(DigitsValue(l.initial), DigitsValue(l.final), ScientificValue(l.strength)))
  }

  /** The fields of the lines that `read` accepts, in line order. */
  function Collect<T>(lines: seq<string>, read: string -> Option<T>): seq<T> {
    if lines == [] then []
    else
      var earlier := Collect(lines[..|lines| - 1], read);
      match read(lines[|lines| - 1])
      case None => earlier
      case Some(v) => earlier + [v]
  }

  /** The positions of the lines that `read` accepts, in increasing order. */
  function Matching<T>(lines: seq<string>, read: string -> Option<T>): (ix: seq<nat>)
    ensures forall k :: 0 <= k < |ix| ==> ix[k] < |lines| && read(lines[ix[k]]).Some?
    ensures forall k, m :: 0 <= k < m < |ix| ==> ix[k] < ix[m]
    ensures forall i :: 0 <= i < |lines| && read(lines[i]).Some? ==> i in ix
  {
    if lines == [] then []
    else
      var n := |lines| - 1;
      var earlier := Matching(lines[..n], read);
      assert forall k :: 0 <= k < |earlier| ==> lines[..n][earlier[k]] == lines[earlier[k]];
      if read(lines[n]).Some? then earlier + [n] else earlier
  }

  /** Entry k of the collected fields comes from the k-th accepted line. */
  lemma {:induction false} CollectFollowsMatching<T>(lines: seq<string>, read: string -> Option<T>)
    ensures |Collect(lines, read)| == |Matching(lines, read)|
    ensures forall k :: 0 <= k < |Collect(lines, read)| ==>
      read(lines[Matching(lines, read)[k]]) == Some(Collect(lines, read)[k])
  {
    if lines != [] {
      var n := |lines| - 1;
      CollectFollowsMatching(lines[..n], read);
      var c, m := Collect(lines[..n], read), Matching(lines[..n], read);
      var cs, ms := Collect(lines, read), Matching(lines, read);
      match read(lines[n])
      case None =>
        assert cs == c && ms == m;
        forall k | 0 <= k < |cs| ensures read(lines[ms[k]]) == Some(cs[k]) {
          assert lines[..n][m[k]] == lines[m[k]];
        }
      case Some(v) =>
        assert cs == c + [v] && ms == m + [n];
        forall k | 0 <= k < |cs| ensures read(lines[ms[k]]) == Some(cs[k]) {
          if k < |c| {
            assert lines[..n][m[k]] == lines[m[k]];
          }
        }
    }
  }

  /** The state energies the report lists (what `get_wavenumbers` returns). */
  function Energies(file: seq<string>): seq<real> {
    Collect(StringBlock(file, EigenStart, EigenEnd), LineWavenumber)
  }

  /** The transitions the report lists (what `get_transitions` returns). */
  function Transitions(file: seq<string>): seq<Transition> {
    Collect(StringBlock(file, DipoleStart, DipoleEnd), LineTransition)
  }

  /** Every strength the transition reader yields is non-negative. */
  lemma TransitionStrengthNonNegative(file: seq<string>, k: nat)
    requires k < |Transitions(file)|
    ensures Transitions(file)[k].strength >= 0.0
  {
    var block := StringBlock(file, DipoleStart, DipoleEnd);
    CollectFollowsMatching(block, LineTransition);
  }

  /** The three parallel columns of a transition list. */
  function Inits(ts: seq<Transition>): (r: seq<int>)
    ensures |r| == |ts| && forall i :: 0 <= i < |ts| ==> r[i] == ts[i].initial
  {
    seq(|ts|, i requires 0 <= i < |ts| => ts[i].initial)
  }

  function Finals(ts: seq<Transition>): (r: seq<int>)
    ensures |r| == |ts| && forall i :: 0 <= i < |ts| ==> r[i] == ts[i].final
  {
    seq(|ts|, i requires 0 <= i < |ts| => ts[i].final)
  }

  function Strengths(ts: seq<Transition>): (r: seq<real>)
    ensures |r| == |ts| && forall i :: 0 <= i < |ts| ==> r[i] == ts[i].strength
  {
    seq(|ts|, i requires 0 <= i < |ts| => ts[i].strength)
  }

  /** Appending a transition appends its fields to the three columns. */
  lemma ColumnsAppend(ts: seq<Transition>, t: Transition)
    ensures Inits(ts + [t]) == Inits(ts) + [t.initial]
    ensures Finals(ts + [t]) == Finals(ts) + [t.final]
    ensures Strengths(ts + [t]) == Strengths(ts) + [t.strength]
  {
    assert Inits(ts + [t]) == Inits(ts) + [t.initial];
    assert Finals(ts + [t]) == Finals(ts) + [t.final];
    assert Strengths(ts + [t]) == Strengths(ts) + [t.strength];
  }

  method GetWavenumbers(file: seq<string>) returns (wavenumbers: seq<real>)
    ensures wavenumbers == Energies(file)
  {
    var block := GetStringBlock(file, EigenStart, EigenEnd);
    wavenumbers := [];
    for i := 0 to |block|
      invariant wavenumbers == Collect(block[..i], LineWavenumber)
    {
      var m := ParseEigenLine(block[i]);
      if m.Some? {
        wavenumbers := wavenumbers + [DecimalValue(m.value.wavenumber)];
      }
      assert block[..i + 1][..i] == block[..i];
    }
    assert block[..|block|] == block;
  }

  method GetTransitions(file: seq<string>) returns (init: seq<int>, final: seq<int>, osc: seq<real>)
    ensures init == Inits(Transitions(file)) && final == Finals(Transitions(file))
    ensures osc == Strengths(Transitions(file))
    ensures forall k :: 0 <= k < |osc| ==> osc[k] >= 0.0
  {
    var block := GetStringBlock(file, DipoleStart, DipoleEnd);
    init, final, osc := [], [], [];
    for i := 0 to |block|
      invariant var ts := Collect(block[..i], LineTransition);
        init == Inits(ts) && final == Finals(ts) && osc == Strengths(ts)
      invariant forall k :: 0 <= k < |osc| ==> osc[k] >= 0.0
    {
      ghost var ts := Collect(block[..i], LineTransition);
      assert block[..i + 1][..i] == block[..i];
      var m := ParseTransitionLine(block[i]);
      if m.Some? {
        var t := Transition(DigitsValue(m.value.initial), DigitsValue(m.value.final),
                            ScientificValue(m.value.strength));
        init := init + [t.initial];
        final := final + [t.final];
        osc := osc + [t.strength];
        assert Collect(block[..i + 1], LineTransition) == ts + [t];
        ColumnsAppend(ts, t);
      } else {
        assert Collect(block[..i + 1], LineTransition) == ts;
      }
    }
    assert block[..|block|] == block;
  }

  // ------------------------------------------------------------ properties

  /** The characters an eigenvalue line can be written with. */
  predicate NumericChar(c: char) {
    IsSpace(c) || IsDigit(c) || c == '-' || c == '.'
  }

  predicate AllNumeric(s: string) {
    forall i :: 0 <= i < |s| ==> NumericChar(s[i])
  }

  lemma NumericConcat(a: string, b: string)
    requires AllNumeric(a) && AllNumeric(b)
    ensures AllNumeric(a + b)
  {
    forall i | 0 <= i < |a + b| ensures NumericChar((a + b)[i]) {
      if i >= |a| { assert (a + b)[i] == b[i - |a|]; }
    }
  }

  lemma DecimalIsNumeric(d: Decimal, signed: bool)
    requires ValidDecimal(d, signed)
    ensures AllNumeric(RenderDecimal(d))
  {
    NumericConcat(".", d.fraction);
    NumericConcat(d.whole, "." + d.fraction);
    NumericConcat(if d.negative then "-" else "", d.whole + ("." + d.fraction));
  }

  lemma {:induction false} EigenLineIsNumeric(l: EigenLine)
    requires ValidEigenLine(l)
    ensures AllNumeric(RenderEigenLine(l))
  {
    DecimalIsNumeric(l.first, true);
    DecimalIsNumeric(l.second, true);
    DecimalIsNumeric(l.wavenumber, false);
    var r := RenderDecimal(l.wavenumber) + l.trail;
    NumericConcat(RenderDecimal(l.wavenumber), l.trail);
    NumericConcat(l.gap3, r);
    r := l.gap3 + r;
    NumericConcat(RenderDecimal(l.second), r);
    r := RenderDecimal(l.second) + r;
    NumericConcat(l.gap2, r);
    r := l.gap2 + r;
    NumericConcat(RenderDecimal(l.first), r);
    r := RenderDecimal(l.first) + r;
    NumericConcat(l.gap1, r);
    r := l.gap1 + r;
    NumericConcat(l.index, r);
    r := l.index + r;
    NumericConcat(l.lead, r);
  }

  /** The line that opens the eigenvalue block never matches the eigenvalue
      grammar, so it contributes no energy although the block includes it. */
  lemma EigenStartLineSkipped(line: string)
    requires Contains(line, EigenStart)
    ensures LineWavenumber(line) == None
  {
    StartLineNotNumeric(line);
    var parsed := ParseEigenLine(line);
    if parsed.Some? {
      EigenLineIsNumeric(parsed.value);
    }
  }

  /** The start marker holds an `E`, which no numeric text does. */
  lemma StartLineNotNumeric(line: string)
    requires Contains(line, EigenStart)
    ensures !AllNumeric(line)
  {
    ContainsHasFirstChar(line, EigenStart);
    var i :| 0 <= i < |line| && line[i] == EigenStart[0];
    assert !NumericChar(line[i]);
  }

  /** The energy reader yields one value per block line written in the
      eigenvalue grammar, in block order, each the line's third decimal. */
  lemma EnergiesPerMatchingLine(file: seq<string>)
    ensures var block := StringBlock(file, EigenStart, EigenEnd);
      var ix := Matching(block, LineWavenumber);
      |Energies(file)| == |ix|
      && (forall k :: 0 <= k < |ix| ==>
            ParseEigenLine(block[ix[k]]).Some?
            && Energies(file)[k] == DecimalValue(ParseEigenLine(block[ix[k]]).value.wavenumber))
      && (forall i :: 0 <= i < |block| && ParseEigenLine(block[i]).Some? ==> i in ix)
  {
    var block := StringBlock(file, EigenStart, EigenEnd);
    CollectFollowsMatching(block, LineWavenumber);
  }

  /** The transition reader yields one transition per block line written in
      the transition grammar, in block order. */
  lemma TransitionsPerMatchingLine(file: seq<string>)
    ensures var block := StringBlock(file, DipoleStart, DipoleEnd);
      var ix := Matching(block, LineTransition);
      |Transitions(file)| == |ix|
      && (forall k :: 0 <= k < |ix| ==>
            ParseTransitionLine(block[ix[k]]).Some?
            && LineTransition(block[ix[k]]) == Some(Transitions(file)[k]))
      && (forall i :: 0 <= i < |block| && ParseTransitionLine(block[i]).Some? ==> i in ix)
  {
    var block := StringBlock(file, DipoleStart, DipoleEnd);
    CollectFollowsMatching(block, LineTransition);
  }
}
