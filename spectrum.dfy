/** From transitions to spectra: transition energies, Boltzmann weighting and
    normalisation, the selection of the line spectrum, and the sampled
    Gaussian-broadened spectrum. Energies and weights are exact reals. */
module Spectrum {

  /** A row of the two-column tables (`np.zeros([n, 2])`): an energy in
      cm**-1 and a weight (line spectrum) or intensity (sampled spectrum). */
  datatype Row = Row(energy: real, value: real)

  // ------------------------------------------------- maximum and scaling

  /** The position of a largest entry of a non-empty vector. */
  function ArgMax(s: seq<real>): (k: nat)
    requires |s| > 0
    ensures k < |s|
    ensures forall i :: 0 <= i < |s| ==> s[i] <= s[k]
  {
    if |s| == 1 then 0
    else
      var k := ArgMax(s[..|s| - 1]);
      if s[|s| - 1] > s[k] then |s| - 1 else k
  }
  /** `max()` / `np.amax` of a non-empty vector. */
  function MaxOf(s: seq<real>): (m: real)
    requires |s| > 0
    ensures m in s
    ensures forall i :: 0 <= i < |s| ==> s[i] <= m
  {
    s[ArgMax(s)]
  }

  /** `s / s.max()`: every entry divided by the maximum. */
  function Normalized(s: seq<real>): (r: seq<real>)
    requires |s| > 0 && MaxOf(s) > 0.0
    ensures |r| == |s|
    ensures forall i :: 0 <= i < |s| ==> r[i] * MaxOf(s) == s[i]
  {
    var m := MaxOf(s);
    seq(|s|, i requires 0 <= i < |s| => s[i] / m)
  }

  lemma QuotientBounds(a: real, m: real)
    requires 0.0 < m && a <= m
    ensures a / m <= 1.0
    ensures a >= 0.0 ==> a / m >= 0.0
    ensures a == m ==> a / m == 1.0
  {
  }

  /** After division by a positive maximum the largest entry is exactly 1,
      every entry is at most 1, and non-negative entries stay in [0, 1]. */
  lemma NormalizedPeak(s: seq<real>)
    requires |s| > 0 && MaxOf(s) > 0.0
    ensures MaxOf(Normalized(s)) == 1.0
    ensures forall i :: 0 <= i < |s| ==> Normalized(s)[i] <= 1.0
    ensures (forall i :: 0 <= i < |s| ==> s[i] >= 0.0) ==>
              forall i :: 0 <= i < |s| ==> 0.0 <= Normalized(s)[i]
  {
    var m, r := MaxOf(s), Normalized(s);
    forall i | 0 <= i < |s| ensures r[i] <= 1.0 && (s[i] >= 0.0 ==> r[i] >= 0.0) {
      assert r[i] == s[i] / m;
      QuotientBounds(s[i], m);
    }
    var j := ArgMax(s);
    QuotientBounds(s[j], m);
    assert r[j] == s[j] / m == 1.0;
    var k := ArgMax(r);
    assert r[j] <= r[k] <= 1.0;
  }

  // ------------------------------------------------- transition energies

  /** Each of the first `num` transitions names two states of a table of
      `states` energies, by 1-based index. */
  predicate ValidStates(num: nat, init: seq<int>, final: seq<int>, states: nat) {
    num <= |init| && num <= |final|
    && forall i :: 0 <= i < num ==> 1 <= init[i] <= states && 1 <= final[i] <= states
  }

  /** The energy of each transition: final state minus initial state. */
  function TransitionEnergies(num: nat, wvn: seq<real>, init: seq<int>, final: seq<int>): (r: seq<real>)
    requires ValidStates(num, init, final, |wvn|)
    ensures |r| == num
  {
    seq(num, i requires 0 <= i < num => wvn[final[i] - 1] - wvn[init[i] - 1])
  }

  /** `get_trans_wvn`: fills a fresh vector with the energy of each
      transition, final state minus initial state, both looked up by 1-based
      state index. */
  method GetTransWvn(num: nat, wvn: seq<real>, init: seq<int>, final: seq<int>) returns (transWvn: seq<real>)
    requires ValidStates(num, init, final, |wvn|)
    ensures transWvn == TransitionEnergies(num, wvn, init, final)
  {
    var table := new real[num];
    for index := 0 to num
      invariant forall j :: 0 <= j < index ==> table[j] == wvn[final[j] - 1] - wvn[init[j] - 1]
    {
      var initWvn := wvn[init[index] - 1];
      var finalWvn := wvn[final[index] - 1];
      table[index] := finalWvn - initWvn;
    }
    transWvn := table[..];
    assert forall j :: 0 <= j < num ==> transWvn[j] == TransitionEnergies(num, wvn, init, final)[j];
  }

  // ------------------------------------------------- Boltzmann weighting

  /** Each strength times the Boltzmann factor of its initial state. */
  function Weighted(osc: seq<real>, init: seq<int>, boltz: seq<real>): (w: seq<real>)
    requires |osc| <= |init|
    requires forall i :: 0 <= i < |osc| ==> 1 <= init[i] <= |boltz|
    ensures |w| == |osc|
  {
    seq(|osc|, i requires 0 <= i < |osc| => osc[i] * boltz[init[i] - 1])
  }

  /** With positive factors, weighting keeps every strength non-negative and
      turns a strength into zero exactly when it was zero. */
  lemma WeightedSigns(osc: seq<real>, init: seq<int>, boltz: seq<real>)
    requires |osc| <= |init|
    requires forall i :: 0 <= i < |osc| ==> 1 <= init[i] <= |boltz|
    requires forall s :: 0 <= s < |boltz| ==> boltz[s] > 0.0
    requires forall i :: 0 <= i < |osc| ==> osc[i] >= 0.0
    ensures forall i :: 0 <= i < |osc| ==> Weighted(osc, init, boltz)[i] >= 0.0
    ensures forall i :: 0 <= i < |osc| ==> (Weighted(osc, init, boltz)[i] == 0.0 <==> osc[i] == 0.0)
  {
    var w := Weighted(osc, init, boltz);
    forall i | 0 <= i < |osc| ensures w[i] >= 0.0 && (w[i] == 0.0 <==> osc[i] == 0.0) {
      var b := boltz[init[i] - 1];
      assert w[i] == osc[i] * b && b > 0.0;
    }
  }

  /** The loop of the main program that rewrites each oscillator strength in
      place as its Boltzmann-weighted value. */
  method WeightStrengths(osc: array<real>, init: seq<int>, boltz: seq<real>)
    requires osc.Length <= |init|
    requires forall i :: 0 <= i < osc.Length ==> 1 <= init[i] <= |boltz|
    modifies osc
    ensures osc[..] == Weighted(old(osc[..]), init, boltz)
  {
    ghost var osc0 := osc[..];
    for index := 0 to osc.Length
      invariant forall j :: 0 <= j < index ==> osc[j] == osc0[j] * boltz[init[j] - 1]
      invariant forall j :: index <= j < osc.Length ==> osc[j] == osc0[j]
    {
      osc[index] := osc[index] * boltz[init[index] - 1];
    }
    assert forall j :: 0 <= j < osc.Length ==> osc[..][j] == Weighted(osc0, init, boltz)[j];
  }

  /** Weighting followed by `osc / osc.max()`: the strengths end in [0, 1]
      with maximum exactly 1. */
  lemma WeightedNormalized(osc: seq<real>, init: seq<int>, boltz: seq<real>)
    requires |osc| > 0 && |osc| <= |init|
    requires forall i :: 0 <= i < |osc| ==> 1 <= init[i] <= |boltz|
    requires forall s :: 0 <= s < |boltz| ==> boltz[s] > 0.0
    requires forall i :: 0 <= i < |osc| ==> osc[i] >= 0.0
    requires MaxOf(Weighted(osc, init, boltz)) > 0.0
    ensures MaxOf(Normalized(Weighted(osc, init, boltz))) == 1.0
    ensures forall i :: 0 <= i < |osc| ==> 0.0 <= Normalized(Weighted(osc, init, boltz))[i] <= 1.0
  {
    WeightedSigns(osc, init, boltz);
    NormalizedPeak(Weighted(osc, init, boltz));
  }

  // ------------------------------------------------- line spectrum

  /** The inclusion test of `get_index_list`: the signed transition energy
      strictly inside the window and the initial state's factor strictly
      above the threshold. */
  predicate Selected(transWvn: seq<real>, init: seq<int>, boltz: seq<real>, thresh: real,
                     begin: real, end: real, i: nat)
    requires i < |transWvn| && i < |init| && 1 <= init[i] <= |boltz|
  {
    begin < transWvn[i] < end && boltz[init[i] - 1] > thresh
  }

  /** The indices below `n` of the selected transitions, in increasing order. */
  function Selection(n: nat, transWvn: seq<real>, init: seq<int>, boltz: seq<real>, thresh: real,
                     begin: real, end: real): (ix: seq<nat>)
    requires n <= |transWvn| && n <= |init|
    requires forall i :: 0 <= i < n ==> 1 <= init[i] <= |boltz|
    ensures forall k :: 0 <= k < |ix| ==> ix[k] < n
    ensures forall k, m :: 0 <= k < m < |ix| ==> ix[k] < ix[m]
    ensures forall i :: 0 <= i < n ==> (i in ix <==> Selected(transWvn, init, boltz, thresh, begin, end, i))
  {
    if n == 0 then []
    else
      var earlier := Selection(n - 1, transWvn, init, boltz, thresh, begin, end);
      if Selected(transWvn, init, boltz, thresh, begin, end, n - 1) then earlier + [n - 1] else earlier
  }

  /** `get_index_list`, with the window bounds that the source reads from
      module globals passed as parameters. */
  method GetIndexList(num: nat, transWvn: seq<real>, init: seq<int>, thresh: real, boltz: seq<real>,
                      begin: real, end: real) returns (indexList: seq<nat>)
    requires num <= |transWvn| && num <= |init|
    requires forall i :: 0 <= i < num ==> 1 <= init[i] <= |boltz|
    ensures indexList == Selection(num, transWvn, init, boltz, thresh, begin, end)
  {
    indexList := [];
    for trans := 0 to num
      invariant indexList == Selection(trans, transWvn, init, boltz, thresh, begin, end)
    {
      if begin < transWvn[trans] < end {
        if boltz[init[trans] - 1] > thresh {
          indexList := indexList + [trans];
        }
      }
    }
  }

  /** `get_line_spectrum`: one (energy, weight) row per selected transition,
      in transition order. */
  method GetLineSpectrum(num: nat, transWvn: seq<real>, osc: seq<real>, init: seq<int>, thresh: real,
                         boltz: seq<real>, begin: real, end: real) returns (lineSpectrum: seq<Row>)
    requires num <= |transWvn| && num <= |osc| && num <= |init|
    requires forall i :: 0 <= i < num ==> 1 <= init[i] <= |boltz|
    ensures var ix := Selection(num, transWvn, init, boltz, thresh, begin, end);
      |lineSpectrum| == |ix|
      && forall k :: 0 <= k < |ix| ==> lineSpectrum[k] == Row(transWvn[ix[k]], osc[ix[k]])
    ensures forall k :: 0 <= k < |lineSpectrum| ==> begin < lineSpectrum[k].energy < end
  {
    var indexList := GetIndexList(num, transWvn, init, thresh, boltz, begin, end);
    var table := new Row[|indexList|];
    for index := 0 to |indexList|
      invariant forall k :: 0 <= k < index ==> table[k] == Row(transWvn[indexList[k]], osc[indexList[k]])
    {
      var trans := indexList[index];
      table[index] := Row(transWvn[trans], osc[trans]);
    }
    lineSpectrum := table[..];
    forall k | 0 <= k < |lineSpectrum| ensures begin < lineSpectrum[k].energy < end {
      assert indexList[k] in indexList;
    }
  }

  // ------------------------------------------------- broadened spectrum

  /** The energy of grid row `p`: `begin + p/points * (end - begin)`. */
  function Abscissa(begin: real, end: real, points: nat, p: nat): real
    requires points >= 1
  {
    begin + (p as real) / (points as real) * (end - begin)
  }

  /** The grid starts at `begin`, ends at `end`, and its rows are equally
      spaced by `(end - begin) / points`. */
  lemma GridEnds(begin: real, end: real, points: nat)
    requires points >= 1
    ensures Abscissa(begin, end, points, 0) == begin
    ensures Abscissa(begin, end, points, points) == end
    ensures forall p :: 0 <= p < points ==>
      Abscissa(begin, end, points, p + 1) - Abscissa(begin, end, points, p) == (end - begin) / (points as real)
  {
    forall p | 0 <= p < points
      ensures Abscissa(begin, end, points, p + 1) - Abscissa(begin, end, points, p) == (end - begin) / (points as real)
    {
      var n := points as real;
      assert ((p + 1) as real) / n == (p as real) / n + 1.0 / n;
    }
  }

  /** The broadened intensity at `x`: the sum over the lines, in order, of
      the kernel at the offset times the line's weight. `kernel` stands for
      `exp(-0.5 * (offset / sigma)**2)` with sigma fixed. */
  function Intensity(lines: seq<Row>, kernel: real -> real, x: real): real {
    if lines == [] then 0.0
    else
      var last := lines[|lines| - 1];
      Intensity(lines[..|lines| - 1], kernel, x) + kernel(x - last.energy) * last.value
  }

  /** With a kernel valued in (0, 1] and non-negative weights, every
      intensity lies between 0 and the total weight. */
  lemma {:induction false} IntensityBounds(lines: seq<Row>, kernel: real -> real, x: real)
    requires forall y :: 0.0 < kernel(y) <= 1.0
    requires forall k :: 0 <= k < |lines| ==> lines[k].value >= 0.0
    ensures 0.0 <= Intensity(lines, kernel, x) <= TotalWeight(lines)
  {
    if lines != [] {
      var last := lines[|lines| - 1];
      IntensityBounds(lines[..|lines| - 1], kernel, x);
      var c := kernel(x - last.energy);
      assert 0.0 <= c * last.value <= last.value by {
        assert 0.0 < c <= 1.0;
      }
      assert Intensity(lines, kernel, x) == Intensity(lines[..|lines| - 1], kernel, x) + c * last.value;
      assert TotalWeight(lines) == TotalWeight(lines[..|lines| - 1]) + last.value;
    }
  }

  function TotalWeight(lines: seq<Row>): real {
    if lines == [] then 0.0 else TotalWeight(lines[..|lines| - 1]) + lines[|lines| - 1].value
  }

  /** The intensities on the grid before normalisation. */
  function RawSpectrum(lines: seq<Row>, kernel: real -> real, begin: real, end: real, points: nat): (s: seq<real>)
    requires points >= 1
    ensures |s| == points + 1
  {
    seq(points + 1, p requires 0 <= p <= points => Intensity(lines, kernel, Abscissa(begin, end, points, p)))
  }

  function Intensities(rows: seq<Row>): (s: seq<real>)
    ensures |s| == |rows|
  {
    seq(|rows|, i requires 0 <= i < |rows| => rows[i].value)
  }

  /** The sampled spectrum: on every grid point, the raw intensity divided by
      the largest raw intensity, which is positive. */
  function BroadenedSpectrum(lines: seq<Row>, kernel: real -> real, begin: real, end: real, points: nat)
    : (s: seq<Row>)
    requires points >= 1
    requires MaxOf(RawSpectrum(lines, kernel, begin, end, points)) > 0.0
    ensures |s| == points + 1
  {
    var n := Normalized(RawSpectrum(lines, kernel, begin, end, points));
    seq(points + 1, p requires 0 <= p <= points => Row(Abscissa(begin, end, points, p), n[p]))
  }

  /** The inner loop of `get_spectrum`: row `point` of the table, whose
      intensity starts at zero, accumulates with `+=` the contribution of
      every line at the row's energy. */
  method AccumulateRow(table: array2<real>, point: nat, linspec: seq<Row>, kernel: real -> real)
    requires point < table.Length0 && table.Length1 == 2
    requires table[point, 1] == 0.0
    modifies table
    ensures table[point, 0] == old(table[point, 0])
    ensures table[point, 1] == Intensity(linspec, kernel, table[point, 0])
    ensures forall i, j :: 0 <= i < table.Length0 && 0 <= j < 2 && i != point ==>
      table[i, j] == old(table[i, j])
  {
    ghost var x := table[point, 0];
    for k := 0 to |linspec|
      invariant table[point, 0] == x
      invariant table[point, 1] == Intensity(linspec[..k], kernel, x)
      invariant forall i, j :: 0 <= i < table.Length0 && 0 <= j < 2 && i != point ==>
        table[i, j] == old(table[i, j])
    {
      var trans, osc := linspec[k].energy, linspec[k].value;
      assert linspec[..k + 1][..k] == linspec[..k];
      table[point, 1] := table[point, 1] + kernel(table[point, 0] - trans) * osc;
    }
    assert linspec[..|linspec|] == linspec;
  }

  /** The table-filling loop of `get_spectrum`: row p holds the grid energy
      and the intensity there. */
  method SampleGrid(linspec: seq<Row>, begin: real, end: real, points: nat, kernel: real -> real)
    returns (table: array2<real>)
    requires points >= 1
    ensures fresh(table) && table.Length0 == points + 1 && table.Length1 == 2
    ensures forall q :: 0 <= q <= points ==>
      table[q, 0] == Abscissa(begin, end, points, q)
      && table[q, 1] == Intensity(linspec, kernel, Abscissa(begin, end, points, q))
  {
    table := new real[points + 1, 2]((i, j) => 0.0);
    for point := 0 to points + 1
      invariant forall q :: 0 <= q < point ==>
        table[q, 0] == Abscissa(begin, end, points, q)
        && table[q, 1] == Intensity(linspec, kernel, Abscissa(begin, end, points, q))
      invariant forall q :: point <= q <= points ==> table[q, 1] == 0.0
    {
      table[point, 0] := begin + (point as real) / (points as real) * (end - begin);
      AccumulateRow(table, point, linspec, kernel);
    }
  }

  /** `get_spectrum`: a (points + 1) x 2 table of zeros; row p gets the grid
      energy and accumulates, line by line, the kernel at the offset times
      the line's weight; then the intensity column is divided by its
      maximum. `sigma`, which the source reads from a global, is part of
      `kernel`. */
  method GetSpectrum(linspec: seq<Row>, begin: real, end: real, points: nat, kernel: real -> real)
    returns (spectrum: seq<Row>)
    requires points >= 1
    requires MaxOf(RawSpectrum(linspec, kernel, begin, end, points)) > 0.0
    ensures |spectrum| == points + 1
    ensures forall p :: 0 <= p <= points ==> spectrum[p].energy == Abscissa(begin, end, points, p)
    ensures Intensities(spectrum) == Normalized(RawSpectrum(linspec, kernel, begin, end, points))
    ensures MaxOf(Intensities(spectrum)) == 1.0
    ensures spectrum == BroadenedSpectrum(linspec, kernel, begin, end, points)
  {
    var table := SampleGrid(linspec, begin, end, points, kernel);
    ghost var raw := RawSpectrum(linspec, kernel, begin, end, points);
    var column := seq(points + 1, q requires 0 <= q <= points reads table => table[q, 1]);
    assert column == raw;
    var peak := MaxOf(column);
    forall q | 0 <= q <= points {
      table[q, 1] := table[q, 1] / peak;
    }
    spectrum := seq(points + 1, q requires 0 <= q <= points reads table => Row(table[q, 0], table[q, 1]));
    assert Intensities(spectrum) == Normalized(raw);
    BroadenedOf(spectrum, linspec, kernel, begin, end, points);
    NormalizedPeak(raw);
  }

  /** A grid table whose intensities are the normalised raw intensities is
      the broadened spectrum. */
  lemma BroadenedOf(spectrum: seq<Row>, linspec: seq<Row>, kernel: real -> real, begin: real, end: real,
                    points: nat)
    requires points >= 1
    requires MaxOf(RawSpectrum(linspec, kernel, begin, end, points)) > 0.0
    requires |spectrum| == points + 1
    requires forall p :: 0 <= p <= points ==> spectrum[p].energy == Abscissa(begin, end, points, p)
    requires Intensities(spectrum) == Normalized(RawSpectrum(linspec, kernel, begin, end, points))
    ensures spectrum == BroadenedSpectrum(linspec, kernel, begin, end, points)
  {
    var b := BroadenedSpectrum(linspec, kernel, begin, end, points);
    forall q | 0 <= q <= points ensures spectrum[q] == b[q] {
      assert spectrum[q].value == Intensities(spectrum)[q];
    }
  }

  /** With a kernel valued in (0, 1] and non-negative weights, every sampled
      intensity ends in [0, 1]. */
  lemma SpectrumInUnitRange(linspec: seq<Row>, begin: real, end: real, points: nat, kernel: real -> real)
    requires points >= 1
    requires forall y :: 0.0 < kernel(y) <= 1.0
    requires forall k :: 0 <= k < |linspec| ==> linspec[k].value >= 0.0
    requires MaxOf(RawSpectrum(linspec, kernel, begin, end, points)) > 0.0
    ensures forall p :: 0 <= p <= points ==>
      0.0 <= Normalized(RawSpectrum(linspec, kernel, begin, end, points))[p] <= 1.0
  {
    var raw := RawSpectrum(linspec, kernel, begin, end, points);
    forall p | 0 <= p <= points ensures raw[p] >= 0.0 {
      IntensityBounds(linspec, kernel, Abscissa(begin, end, points, p));
    }
    NormalizedPeak(raw);
  }
}
