# spec-molcas: from a RASSI report to an absorption spectrum

This project models, in Dafny, the computational core of `spec-molcas.py`.
The script reads the text report of a spin-orbit RASSI calculation and turns
it into a simulated absorption spectrum. The model covers these steps:

- **Block extraction** (`get_string_block`, module `Block`). The report is a
  sequence of lines. A flag turns on at the first line containing a start
  marker. From then on, every line is kept until a line containing the end
  marker stops the scan. The line that turned the flag on is kept too. If the
  end marker never appears, reading runs to the last line.
- **The two line grammars** (modules `Grammar` and `GrammarProofs`). These
  are the eigenvalue line, anchored at both ends, and the dipole-transition
  line, anchored only at the start. Each regular expression is written as an
  explicit recognizer. A recognizer returns the parsed layout of the line,
  and that layout renders back to exactly the line it came from (soundness).
  Conversely, every well-formed layout is recognized with its own fields
  (completeness). Python's `\s` is the full set of whitespace characters
  that `str.isspace` accepts, so it includes the line terminator. Numbers are
  exact: a decimal is a sign with two digit strings, and a strength is a
  digit, a fraction and a two-digit exponent.
- **The readers** (`get_wavenumbers`, `get_transitions`, module `Readers`).
  Each reader keeps, in block order, the fields of the block lines that match
  its grammar.
- **Transition energies, Boltzmann weighting and normalisation, selection
  and the line spectrum** (`get_trans_wvn`, the weighting loop of the main
  program, `get_index_list`, `get_line_spectrum`, module `Spectrum`).
- **The sampled spectrum** (`get_spectrum`, module `Spectrum`). It builds a
  grid of `points + 1` rows, accumulates intensity with `+=`, and divides by
  the maximum.
- **The main program** (module `Pipeline`). It chains the steps above and
  stops when there are no transitions.

The source is imperative, and the model keeps that form. The readers and the
block extraction are loops that append to sequences. `get_trans_wvn` fills a
fresh array. The weighting loop rewrites an array in place. `get_spectrum`
accumulates into a two-column `array2`. Each method is proved equal to a
specification function, and the properties the code promises are proved
about that function.

Three behaviours of the code are easy to miss, and the model keeps them:

- **The start line.** The line containing the start marker is part of the
  block, because the code appends it after setting the flag. The eigenvalue
  start line can never match the eigenvalue grammar
  (`Readers.EigenStartLineSkipped`), so it contributes nothing.
- **State indices.** The code does not check state indices against the
  energy table, and Python would wrap state index 0 round to the last energy.
  The model requires every state index to lie in `[1, number of states]`
  (see "Left out").
- **A report with no states.** The run stops early only when there are no
  transitions. A report with no eigenvalue block still goes on.

## Model

| member | source | states |
|---|---|---|
| Text.IsSpace | spec-molcas.py:105 | Python's `\s` on `str`: exactly the characters `str.isspace` accepts, namely 0x09-0x0D, 0x1C-0x20, 0x85, 0xA0, 0x1680, 0x2000-0x200A, 0x2028, 0x2029, 0x202F, 0x205F and 0x3000. The line terminator is among them. |
| Text.Contains | spec-molcas.py:87-90 | Python's `pat in line`: some slice of the line equals the pattern. The empty pattern is in every line. |
| Block.StringBlock | spec-molcas.py:83-95 | The block is empty when no line contains the start marker. Otherwise its first line contains the start marker, and no line of the block contains the end marker. |
| Block.GetStringBlock | spec-molcas.py:77-95 | The flag-driven scan with `break` returns exactly `StringBlock` of the file. |
| Block.StringBlockIsSlice | spec-molcas.py:83-95 | Let `s` be the first line with the start marker. Let `e` be the first line at or after `s` with the end marker, or the number of lines if there is none. Then the block is the contiguous slice `lines[s..e]`, start line included. |
| Block.StringBlockEmpty | spec-molcas.py:87-93 | The block is empty if and only if no line contains the start marker, or the first line that does also contains the end marker. |
| Grammar.ParseDecimal | spec-molcas.py:105 | Any accepted `-?\d+\.\d+` (or `\d+\.\d+` when unsigned) field is well formed, and it renders back, followed by the unread rest, to the input. |
| GrammarProofs.DecimalOf | spec-molcas.py:105 | Every well-formed decimal followed by a non-digit, or by nothing, is recognized with its own sign, whole part and fraction. |
| Grammar.ParseScientific | spec-molcas.py:134 | Any accepted `\d\.\d+E[+-]\d{2}` field is well formed and renders back, followed by the rest, to the input. |
| GrammarProofs.ScientificOf | spec-molcas.py:134 | Every well-formed strength field is recognized, whatever follows it. |
| Grammar.DecimalValue | spec-molcas.py:115-117 | The exact value of a decimal field, which `astype(float)` rounds. Its magnitude has the whole digits as its integer part, so it lies in `[whole, whole + 1)`, and its sign is the field's sign. |
| Grammar.ScientificValue | spec-molcas.py:134 | A strength field, which has no sign, has a value of at least 0. The value is positive when the leading digit is not 0. |
| Grammar.ParseEigenLine | spec-molcas.py:105 | An accepted line is a well-formed eigenvalue line, meaning whitespace, an index, three decimals (the last unsigned) separated by whitespace, and whitespace only to the end. Its layout renders back to exactly the line. |
| GrammarProofs.EigenLineComplete | spec-molcas.py:105 | Every well-formed eigenvalue line is recognized with its own fields, so recognizer and grammar agree in both directions. |
| Grammar.ParseTransitionLine | spec-molcas.py:134 | An accepted line is a well-formed transition line, with any text after the two exponent digits. Its layout renders back to exactly the line. |
| GrammarProofs.TransitionLineComplete | spec-molcas.py:134 | Every well-formed transition line is recognized with its own fields, whatever follows the strength. |
| Readers.LineWavenumber | spec-molcas.py:113-115 | A line yields a wavenumber exactly when it matches the eigenvalue grammar. The wavenumber is the value of the third, unsigned decimal, so it is at least 0. |
| Readers.LineTransition | spec-molcas.py:142-151 | A matched transition line yields non-negative state numbers and a non-negative strength. |
| Readers.CollectFollowsMatching | spec-molcas.py:112-115 | The collected values and the accepted lines correspond one to one. Value k comes from the k-th accepted line, in line order. |
| Readers.GetWavenumbers | spec-molcas.py:97-120 | The reading loop returns `Energies(file)`, the third decimal of each matching block line in block order. |
| Readers.EnergiesPerMatchingLine | spec-molcas.py:110-117 | There is one energy per block line that matches the eigenvalue grammar. Energy k is the third decimal of the k-th such line, and every matching line is counted. |
| Readers.EigenStartLineSkipped | spec-molcas.py:103-115 | A line containing `Eigenvalues of complex Hamiltonian:` never matches the eigenvalue grammar, so the start line of the block contributes no energy. |
| Readers.GetTransitions | spec-molcas.py:122-154 | The three returned columns are the initial states, final states and strengths of `Transitions(file)`. They have equal length, and every strength is at least 0. |
| Readers.TransitionsPerMatchingLine | spec-molcas.py:139-151 | There is one transition per block line that matches the transition grammar. Transition k comes from the k-th such line, and every matching line is counted. |
| Spectrum.GetTransWvn | spec-molcas.py:156-170 | With 1-based indices in range, the array loop returns `TransitionEnergies`: `num` entries, where entry i is the energy of the final state minus that of the initial state, `wvn[final[i]-1] - wvn[init[i]-1]`. |
| Spectrum.MaxOf | spec-molcas.py:422 | The maximum is an entry of the vector and bounds every entry from above. |
| Spectrum.Normalized | spec-molcas.py:422 | Every entry, multiplied back by the positive maximum, gives the original entry. |
| Spectrum.NormalizedPeak | spec-molcas.py:252 | After division by a positive maximum, the maximum is exactly 1 and every entry is at most 1. Non-negative entries end in [0, 1]. |
| Spectrum.WeightStrengths | spec-molcas.py:419-420 | The in-place loop changes only `osc`. Afterwards `osc[i]` is the old `osc[i]` times the factor of state `init[i]`. |
| Spectrum.WeightedSigns | spec-molcas.py:419-420 | With positive factors, a weighted strength is non-negative, and it is zero exactly when the strength was zero. |
| Spectrum.WeightedNormalized | spec-molcas.py:419-422 | Weighting and then dividing by the maximum leaves strengths in [0, 1], with maximum exactly 1. |
| Spectrum.Selection | spec-molcas.py:208-217 | The indices lie below `num` and strictly increase. An index is included if and only if its energy lies strictly between `begin` and `end` and its initial state's factor is strictly above the threshold. |
| Spectrum.GetIndexList | spec-molcas.py:202-217 | The filtering loop returns exactly `Selection`. |
| Spectrum.GetLineSpectrum | spec-molcas.py:219-235 | There is one row per selected index, in order. Row k is `(trans_wvn[ix[k]], osc[ix[k]])`, and every row's energy lies strictly inside the window. |
| Spectrum.GridEnds | spec-molcas.py:248 | Grid row 0 is `begin`, row `points` is `end`, and neighbouring rows are `(end - begin) / points` apart. |
| Spectrum.IntensityBounds | spec-molcas.py:249-250 | With kernel values in (0, 1] and non-negative weights, the accumulated intensity lies between 0 and the total weight of the lines. |
| Spectrum.AccumulateRow | spec-molcas.py:249-250 | The inner `+=` loop leaves the intensity of its row equal to the sum over the lines of the kernel times the weight. No other cell changes. |
| Spectrum.SampleGrid | spec-molcas.py:245-250 | The table has `points + 1` rows. Row p holds the grid energy and the accumulated intensity there. |
| Spectrum.GetSpectrum | spec-molcas.py:237-255 | The result has `points + 1` rows on the grid. The intensities are the raw intensities divided by their maximum, and the largest of them is exactly 1. The whole result is `BroadenedSpectrum` of the line spectrum. |
| Spectrum.SpectrumInUnitRange | spec-molcas.py:245-252 | With kernel values in (0, 1] and non-negative line weights, every normalised intensity lies in [0, 1]. |
| Readers.TransitionStrengthNonNegative | spec-molcas.py:134 | Every strength read from a report is at least 0, because the strength field has no sign. |
| Pipeline.StateFactors | spec-molcas.py:172-184 | The Boltzmann factor table has one entry per state, and entry s is the factor of state s's energy. The number of transitions plays no part. |
| Pipeline.LineSpectrumInRange | spec-molcas.py:419-439 | With non-negative strengths and positive factors, every weight of `LineSpectrumOf` lies in [0, 1], and every energy lies strictly inside the window. |
| Pipeline.BroadenedShape | spec-molcas.py:245-252 | With kernel values in (0, 1] and non-negative line weights, `BroadenedSpectrum` has `points + 1` rows on the grid, intensities in [0, 1] and a peak of exactly 1 (`SpectrumShape`). |
| Pipeline.Lines | spec-molcas.py:414-439 | Transition energies, in-place weighting, normalisation and selection return None exactly when no weighted strength is positive (line 422 would divide by zero). Otherwise they return `LineSpectrumOf`: the transitions selected in file order, each with its energy and its weighted strength divided by the largest one. |
| Pipeline.Sample | spec-molcas.py:444 | The result is None exactly when no raw intensity of the line spectrum is positive (line 252 would divide by zero). Otherwise it is `BroadenedSpectrum` of the line spectrum. |
| Pipeline.Analyse | spec-molcas.py:414-444 | Everything after reading never ends as `NoTransitions` and keeps the energies. It ends as `Degenerate` exactly when `Stalls` holds, that is, when the largest weighted strength or the largest raw intensity is not positive. Otherwise the line spectrum is `LineSpectrumOf` and the spectrum is `BroadenedSpectrum` of that line spectrum. |
| Pipeline.Run | spec-molcas.py:397-444 | The energies are those of the report. The run ends as `NoTransitions` exactly when the report lists no transitions. It ends as `Degenerate` exactly when there are transitions and `Stalls` holds. A completed run has the line spectrum `LineSpectrumOf` of the report's energies and transitions, and the spectrum `BroadenedSpectrum` of that line spectrum. |
| Pipeline.CompletedRunInRange | spec-molcas.py:414-444 | With positive Boltzmann factors and kernel values in (0, 1], a completed run has line weights in [0, 1] and line energies inside the window. Its spectrum has the shape `SpectrumShape`. |

## Left out

- Command-line parsing and console output (`get_input`, spec-molcas.py:4-75, and the prints) are not modelled. They are interface code; the numeric options become the fields of `Pipeline.Config`.
- Opening and reading the report (spec-molcas.py:84) is not modelled. The report is given as the sequence of its lines, each with its terminator.
- Writing `energies.dat`, `transitions.dat`, `line_spectrum.dat` and `spectrum.dat` (spec-molcas.py:186-200, 257-267, 407) is output formatting and is not modelled. This includes the threshold-only row filter of `write_transitions`.
- `plot_spectra` (spec-molcas.py:269-365) is rendering and experimental-file I/O, and is not modelled.
- copy-molcas.py is not part of this model. It is an interactive file-copy helper.
- `get_boltzmann` (spec-molcas.py:172-184) computes `exp` with physical constants. It is a parameter `boltzmann: real -> real`, mapped over the state energies (`Pipeline.StateFactors`). As on line 182, the number of transitions plays no part. `Pipeline.Run` and `Pipeline.Analyse` accept any such function. Only the range lemmas (`Pipeline.CompletedRunInRange`, `Pipeline.LineSpectrumInRange`, `Spectrum.WeightedSigns`, `Spectrum.WeightedNormalized`) assume it is positive, as `exp` is.
- The Gaussian `exp(-0.5 * ((x - trans) / sigma)**2)` (spec-molcas.py:250) is a parameter `kernel: real -> real`, with the global `sigma` folded into it. `Pipeline.Run` and `Pipeline.Analyse` accept any such function. Only the range lemmas (`Pipeline.CompletedRunInRange`, `Pipeline.BroadenedShape`, `Spectrum.SpectrumInUnitRange`, `Spectrum.IntensityBounds`) assume values in (0, 1], as the Gaussian has.
- Floating point is not modelled. Numbers are exact reals, so the rounding of `astype(float)` and of the arithmetic is absent.
- Spectrum.GetTransWvn: requires every state index to lie in `[1, |wvn|]`. The code would wrap index 0 round to the last energy, or fail beyond the end, and that case is not modelled.
- Spectrum.WeightStrengths: requires every initial state index to lie in `[1, |boltz|]`, for the same reason. Python would read `p_Boltzmann[-1]` for index 0.
- Spectrum.GetIndexList: the same index requirement as `WeightStrengths`.
- Spectrum.GetLineSpectrum: the same index requirement as `WeightStrengths`.
- Spectrum.GetSpectrum: requires `points >= 1`. With `points == 0`, line 248 divides by zero. With `points == -1`, `np.amax` of an empty column raises. Below that, `np.zeros` rejects the negative size. `Config.points` is a `nat`, and `Pipeline.Run`, `Pipeline.Analyse` and `Pipeline.Sample` require `points >= 1` too.
- Spectrum.GetSpectrum: requires a positive maximum intensity. numpy would divide by zero and yield nan or inf, so `Pipeline.Run` ends in `Degenerate` instead.
- Spectrum.NormalizedPeak: requires a positive maximum, for the same reason. At line 422 a zero maximum makes `Pipeline.Run` end in `Degenerate`.
- Pipeline.Run: requires the report's transitions to name existing states, as `GetTransWvn` does, and `points >= 1`. It takes `boltzmann` and `kernel` unconstrained. The ranges of the results follow only when `boltzmann` is positive and `kernel` has values in (0, 1] (`Pipeline.CompletedRunInRange`).
- Grammar.ParseEigenLine: `\d` is ASCII `0`-`9` only. Python 3's `\d` also accepts other Unicode decimal digits.
- Grammar.ParseTransitionLine: `\d` is ASCII only, for the same reason.
