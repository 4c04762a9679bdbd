/** The main program, without its console and file output: read the state
    energies and the transitions, stop when there are no transitions,
    otherwise compute transition energies, weight and normalise the
    strengths, select the line spectrum and sample the broadened spectrum. */
module Pipeline {
  import opened Readers
  import opened Spectrum
  import opened Wrappers

  /** The numeric options of the command line that the core uses. The
      broadening width and the temperature enter through `kernel` and
      `boltzmann` (see Run). */
  datatype Config = Config(begin: real, end: real, points: nat, thresh: real)

  datatype Outcome =
    | NoTransitions(energies: seq<real>)
    | Degenerate(energies: seq<real>)
    | Spectra(energies: seq<real>, lineSpectrum: seq<Row>, spectrum: seq<Row>)

  /** Every transition names two states the energy table has. */
  predicate ValidReferences(ts: seq<Transition>, states: nat) {
    ValidStates(|ts|, Inits(ts), Finals(ts), states)
  }

  /** `get_boltzmann`: the factor of every state from its energy. */
  function StateFactors(wvn: seq<real>, boltzmann: real -> real): (r: seq<real>)
    ensures |r| == |wvn| && forall s :: 0 <= s < |wvn| ==> r[s] == boltzmann(wvn[s])
  {
    seq(|wvn|, s requires 0 <= s < |wvn| => boltzmann(wvn[s]))
  }

  /** The strengths of the transitions, each weighted by the factor of its
      initial state. */
  function WeightedStrengths(wvn: seq<real>, ts: seq<Transition>, boltz: seq<real>): (w: seq<real>)
    requires ValidReferences(ts, |wvn|) && |boltz| == |wvn|
    ensures |w| == |ts|
  {
    Weighted(Strengths(ts), Inits(ts), boltz)
  }

  /** What the line spectrum of a run is: every transition whose energy lies
      strictly inside the window and whose initial state's factor is above
      the threshold, in file order, with its energy and its weighted strength
      divided by the largest weighted strength, which is positive. */
  function LineSpectrumOf(wvn: seq<real>, ts: seq<Transition>, config: Config, boltz: seq<real>): seq<Row>
    requires |ts| > 0 && ValidReferences(ts, |wvn|) && |boltz| == |wvn|
    requires MaxOf(WeightedStrengths(wvn, ts, boltz)) > 0.0
  {
    var energies := TransitionEnergies(|ts|, wvn, Inits(ts), Finals(ts));
    var weights := Normalized(WeightedStrengths(wvn, ts, boltz));
    var ix := Selection(|ts|, energies, Inits(ts), boltz, config.thresh, config.begin, config.end);
    seq(|ix|, k requires 0 <= k < |ix| => Row(energies[ix[k]], weights[ix[k]]))
  }

  /** When a run cannot finish: no weighted strength is positive (line 422
      would divide by zero), or no sampled intensity of the line spectrum is
      positive (line 252 would). */
  predicate Stalls(wvn: seq<real>, ts: seq<Transition>, config: Config, boltz: seq<real>, kernel: real -> real)
    requires config.points >= 1
    requires |ts| > 0 && ValidReferences(ts, |wvn|) && |boltz| == |wvn|
  {
    MaxOf(WeightedStrengths(wvn, ts, boltz)) <= 0.0
    || MaxOf(RawSpectrum(LineSpectrumOf(wvn, ts, config, boltz), kernel, config.begin, config.end,
                         config.points)) <= 0.0
  }

  /** With non-negative strengths and positive factors, every weight of the
      line spectrum lies in [0, 1] and every energy inside the window. */
  lemma LineSpectrumInRange(wvn: seq<real>, ts: seq<Transition>, config: Config, boltz: seq<real>)
    requires |ts| > 0 && ValidReferences(ts, |wvn|) && |boltz| == |wvn|
    requires forall k :: 0 <= k < |ts| ==> ts[k].strength >= 0.0
    requires forall s :: 0 <= s < |boltz| ==> boltz[s] > 0.0
    requires MaxOf(WeightedStrengths(wvn, ts, boltz)) > 0.0
    ensures var lines := LineSpectrumOf(wvn, ts, config, boltz);
      forall k :: 0 <= k < |lines| ==>
        0.0 <= lines[k].value <= 1.0 && config.begin < lines[k].energy < config.end
  {
    var energies := TransitionEnergies(|ts|, wvn, Inits(ts), Finals(ts));
    var ix := Selection(|ts|, energies, Inits(ts), boltz, config.thresh, config.begin, config.end);
    WeightedNormalized(Strengths(ts), Inits(ts), boltz);
    assert forall k :: 0 <= k < |ix| ==> ix[k] in ix;
  }

  /** The shape of a sampled spectrum: `points + 1` rows on the evenly spaced
      grid of the window, intensities in [0, 1] with peak exactly 1. */
  predicate SpectrumShape(spectrum: seq<Row>, config: Config)
    requires config.points >= 1
  {
    && |spectrum| == config.points + 1
    && (forall p :: 0 <= p <= config.points ==>
          spectrum[p].energy == Abscissa(config.begin, config.end, config.points, p))
    && MaxOf(Intensities(spectrum)) == 1.0
    && (forall p :: 0 <= p <= config.points ==> 0.0 <= spectrum[p].value <= 1.0)
  }

  /** With a kernel valued in (0, 1] and non-negative line weights, the
      broadened spectrum has the shape of a sampled spectrum. */
  lemma BroadenedShape(linspec: seq<Row>, config: Config, kernel: real -> real)
    requires config.points >= 1
    requires forall y :: 0.0 < kernel(y) <= 1.0
    requires forall k :: 0 <= k < |linspec| ==> linspec[k].value >= 0.0
    requires MaxOf(RawSpectrum(linspec, kernel, config.begin, config.end, config.points)) > 0.0
    ensures SpectrumShape(BroadenedSpectrum(linspec, kernel, config.begin, config.end, config.points), config)
  {
    var raw := RawSpectrum(linspec, kernel, config.begin, config.end, config.points);
    var s := BroadenedSpectrum(linspec, kernel, config.begin, config.end, config.points);
    SpectrumInUnitRange(linspec, config.begin, config.end, config.points, kernel);
    NormalizedPeak(raw);
    assert Intensities(s) == Normalized(raw);
  }

  /** The broadened spectrum of a line spectrum, unless no sampled intensity
      is positive. */
  method Sample(linspec: seq<Row>, config: Config, kernel: real -> real) returns (spectrum: Option<seq<Row>>)
    requires config.points >= 1
    ensures spectrum.None? <==>
      MaxOf(RawSpectrum(linspec, kernel, config.begin, config.end, config.points)) <= 0.0
    ensures spectrum.Some? ==>
      spectrum.value == BroadenedSpectrum(linspec, kernel, config.begin, config.end, config.points)
  {
    if MaxOf(RawSpectrum(linspec, kernel, config.begin, config.end, config.points)) <= 0.0 {
      return None;
    }
    var s := GetSpectrum(linspec, config.begin, config.end, config.points, kernel);
    spectrum := Some(s);
  }

  /** The line spectrum of a non-empty transition list `ts` whose columns
      are `init`, `final` and `osc`, unless no weighted strength is
      positive. */
  method Lines(wvn: seq<real>, init: seq<int>, final: seq<int>, osc: seq<real>, ghost ts: seq<Transition>,
               config: Config, boltz: seq<real>)
    returns (lines: Option<seq<Row>>)
    requires |ts| > 0 && |boltz| == |wvn| && ValidReferences(ts, |wvn|)
    requires init == Inits(ts) && final == Finals(ts) && osc == Strengths(ts)
    ensures lines.None? <==> MaxOf(WeightedStrengths(wvn, ts, boltz)) <= 0.0
    ensures lines.Some? ==> lines.value == LineSpectrumOf(wvn, ts, config, boltz)
  {
    var numTrans := |osc|;
    var transWvn := GetTransWvn(numTrans, wvn, init, final);
    var table := new real[numTrans](i requires 0 <= i < numTrans => osc[i]);
    assert table[..] == osc;
    WeightStrengths(table, init, boltz);
    var weighted := table[..];
    if MaxOf(weighted) <= 0.0 {
      return None;
    }
    var normalized := Normalized(weighted);
    var lineSpectrum := GetLineSpectrum(numTrans, transWvn, normalized, init, config.thresh,
                                        boltz, config.begin, config.end);
    assert lineSpectrum == LineSpectrumOf(wvn, ts, config, boltz);
    lines := Some(lineSpectrum);
  }

  /** Everything after reading, for a non-empty transition list `ts` whose
      columns are `init`, `final` and `osc`. */
  method Analyse(wvn: seq<real>, init: seq<int>, final: seq<int>, osc: seq<real>, ghost ts: seq<Transition>,
                 config: Config, boltzmann: real -> real, kernel: real -> real)
    returns (outcome: Outcome)
    requires config.points >= 1 && |ts| > 0
    requires init == Inits(ts) && final == Finals(ts) && osc == Strengths(ts)
    requires ValidReferences(ts, |wvn|)
    ensures !outcome.NoTransitions? && outcome.energies == wvn
    ensures outcome.Degenerate? <==> Stalls(wvn, ts, config, StateFactors(wvn, boltzmann), kernel)
    ensures outcome.Spectra? ==>
      && !Stalls(wvn, ts, config, StateFactors(wvn, boltzmann), kernel)
      && outcome.lineSpectrum == LineSpectrumOf(wvn, ts, config, StateFactors(wvn, boltzmann))
      && outcome.spectrum
         == BroadenedSpectrum(outcome.lineSpectrum, kernel, config.begin, config.end, config.points)
  {
    var pBoltzmann := StateFactors(wvn, boltzmann);
    var lines := Lines(wvn, init, final, osc, ts, config, pBoltzmann);
    if lines.None? {
      return Degenerate(wvn);
    }
    var sampled := Sample(lines.value, config, kernel);
    if sampled.None? {
      return Degenerate(wvn);
    }
    outcome := Spectra(wvn, lines.value, sampled.value);
  }

  /** The pipeline. `boltzmann` maps a state energy to its Boltzmann factor
      at the chosen temperature; `kernel` maps an offset from a line to the
      Gaussian weight for the chosen width. Where numpy would divide by a
      zero maximum, the run ends in `Degenerate`. */
  method Run(file: seq<string>, config: Config, boltzmann: real -> real, kernel: real -> real)
    returns (outcome: Outcome)
    requires config.points >= 1
    requires ValidReferences(Transitions(file), |Energies(file)|)
    ensures outcome.energies == Energies(file)
    ensures outcome.NoTransitions? <==> |Transitions(file)| == 0
    ensures outcome.Degenerate? <==>
      |Transitions(file)| > 0
      && Stalls(Energies(file), Transitions(file), config, StateFactors(Energies(file), boltzmann), kernel)
    ensures outcome.Spectra? ==>
      && |Transitions(file)| > 0
      && !Stalls(Energies(file), Transitions(file), config, StateFactors(Energies(file), boltzmann), kernel)
      && outcome.lineSpectrum
         == LineSpectrumOf(Energies(file), Transitions(file), config, StateFactors(Energies(file), boltzmann))
      && outcome.spectrum
         == BroadenedSpectrum(outcome.lineSpectrum, kernel, config.begin, config.end, config.points)
  {
    var wavenumbers := GetWavenumbers(file);
    var initState, finalState, oscStrength := GetTransitions(file);
    if |oscStrength| == 0 {
      return NoTransitions(wavenumbers);
    }
    outcome := Analyse(wavenumbers, initState, finalState, oscStrength, Transitions(file), config,
                       boltzmann, kernel);
  }

  /** A completed run on a report whose strengths are non-negative, with
      positive factors and a kernel valued in (0, 1]: the line weights lie in
      [0, 1] and the lines inside the window; the spectrum lies on the grid,
      in [0, 1], with peak 1. */
  lemma CompletedRunInRange(file: seq<string>, config: Config, boltzmann: real -> real, kernel: real -> real,
                            outcome: Outcome)
    requires config.points >= 1
    requires ValidReferences(Transitions(file), |Energies(file)|)
    requires forall e :: boltzmann(e) > 0.0
    requires forall y :: 0.0 < kernel(y) <= 1.0
    requires outcome.Spectra? && |Transitions(file)| > 0
    requires !Stalls(Energies(file), Transitions(file), config, StateFactors(Energies(file), boltzmann), kernel)
    requires outcome.lineSpectrum
      == LineSpectrumOf(Energies(file), Transitions(file), config, StateFactors(Energies(file), boltzmann))
    requires outcome.spectrum
      == BroadenedSpectrum(outcome.lineSpectrum, kernel, config.begin, config.end, config.points)
    ensures forall k :: 0 <= k < |outcome.lineSpectrum| ==>
      0.0 <= outcome.lineSpectrum[k].value <= 1.0
      && config.begin < outcome.lineSpectrum[k].energy < config.end
    ensures SpectrumShape(outcome.spectrum, config)
  {
    var wvn, ts := Energies(file), Transitions(file);
    var boltz := StateFactors(wvn, boltzmann);
    forall s | 0 <= s < |boltz| ensures boltz[s] > 0.0 {
      var e := wvn[s];
      assert boltzmann(e) > 0.0;
    }
    forall k | 0 <= k < |ts| ensures ts[k].strength >= 0.0 {
      TransitionStrengthNonNegative(file, k);
    }
    LineSpectrumInRange(wvn, ts, config, boltz);
    BroadenedShape(outcome.lineSpectrum, config, kernel);
  }
}
