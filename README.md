# q3dfit fitting bookkeeping, modelled in Dafny

This project models the bookkeeping that q3dfit does around its spectral fits.
It does not model the numerics of the fits themselves. It covers four parts:

- **`fitspec`**:
  - the good-pixel index set, the actual fit range and the re-based indices;
  - the NaN writes into the restricted arrays and the `1e99` sentinel writes into the log-rebinned arrays;
  - the zeroing of mask widths and line wavelengths for unused velocity components;
  - the continuum-pixel intersections and the choice of continuum strategy;
  - the continuum-subtracted residual, the clamped initial peak guesses, and the width defaults passed to `parinit`.
- **`parinit`**:
  - one Gaussian per (line, component), with parameter names `{label}_{comp}_{par}`;
  - parsing those names back, even for labels that contain `_`;
  - the bounds, `vary` flags and tie expressions of the four Gaussian parameters;
  - the user line-ratio block with bounds from the doublet table;
  - `set_params`.
- **`questfit`**:
  - the global-extinction decision and the choice of global screens;
  - the composition of the continuum model as a term `Leaf | Sum | Prod`, with each component's own extinction and ice screens;
  - the model and template dictionaries, and the restriction of the model dictionary to the fitted pixels;
  - the QSO/host decomposition of `quest_extract_QSO_contrib`.
- **`linelist`**: `uniqlist`, unit normalisation between Angstrom and micron, stacking, selection in request order, column dropping, and the Morton range warning.

numpy floats are modelled by `Floats.Ext` (`Fin(v) | PosInf | NegInf | NaN`). Its comparison predicates follow IEEE 754: NaN compares unequal to zero and fails every ordering test. A Python exception becomes the `Err` case of a `Result`.

Each external routine becomes a parameter of the operation that calls it:

- `lmlabel`, as the pair `lm` / `unlm`;
- `int(float(.))` of a configuration field;
- `interp1d`;
- the `masklin` masks;
- `airtovac`;
- Morton's air formula.

Modules:

- `Wrappers`: `Option`, `Result`.
- `Floats`: IEEE-style arithmetic on `Ext`.
- `Strings`: Python `in`, `split`/`join`, `str`/`int` of integers.
- `PixelSelection`: the pixel selection of `fitspec`.
- `FitSpec`: the rest of `fitspec`.
- `ParInit`: `parinit`.
- `QuestFit`: `questfit`.
- `LineList`: `linelist`.

Where the code as written misbehaves, the model keeps the as-written behaviour as a separate member with a lemma that exhibits it. Everything else is built on the corrected member (see "## Findings").

## Model

| member | source | states |
|---|---|---|
| Floats.InvSquare | common/fitspec.py:283 | `1/err**2` is NaN exactly for NaN, `inf` exactly for a zero error, 0 for an infinite error, and finite and positive otherwise |
| Floats.Div | common/fitspec.py:517 | IEEE division: NaN propagates, `0/0` and `inf/inf` are NaN, finite over nonzero is the real quotient |
| Floats.Add | common/fitspec.py:517 | IEEE addition: NaN propagates, `inf + -inf` is NaN, finite operands add |
| Floats.Sub | common/fitspec.py:522 | IEEE subtraction: NaN propagates, finite operands subtract |
| Floats.Mul | common/fitspec.py:518 | IEEE multiplication: NaN propagates, `inf * 0` is NaN, finite operands multiply |
| Floats.Recip | init/parinit.py:183 | `1./x` of a table value: the real reciprocal, or `inf` for zero |
| Strings.ContainsSuffix | common/questfit.py:94 | a string contains any of its suffixes (Python `in`) |
| Strings.ContainsPrefix | common/questfit.py:94 | a string contains any of its prefixes |
| Strings.Split | init/parinit.py:70 | `split` always yields at least one field |
| Strings.JoinSplit | init/parinit.py:70-77 | joining the fields of a split with the separator gives the string back |
| Strings.SplitNoSeparator | init/parinit.py:70 | a string without the separator splits to itself |
| Strings.SplitAround | init/parinit.py:70 | splitting around an explicit separator concatenates the two splits |
| Strings.DigitChar | init/parinit.py:57 | the digit character of `d` is a digit worth `d` |
| Strings.NatToString | init/parinit.py:57 | `str(n)` is a non-empty string of digits |
| Strings.DigitsOfNat | init/parinit.py:80 | the digits of `str(n)` are worth `n` |
| Strings.ParseRendered | init/parinit.py:80 | `int(str(n)) == n` for the component number |
| Strings.NoCharInDigits | init/parinit.py:57 | `str(n)` holds no non-digit, so no `_` |
| Strings.NatToStringInjective | init/parinit.py:57 | distinct numbers have distinct renderings |
| Strings.ParseIntRendered | common/questfit.py:96 | `int(str(i)) == i` for every integer, negative ones included |
| Strings.NoCharInInt | common/questfit.py:96 | `str(i)` holds only digits and a minus sign |
| Strings.IntEndsInDigit | common/questfit.py:96 | `str(i)` ends in a digit |
| PixelSelection.SeqMin | common/fitspec.py:253 | `min` is an element and at most every element |
| PixelSelection.SeqMax | common/fitspec.py:254 | `max` is an element and at least every element |
| PixelSelection.RequestedRange | common/fitspec.py:242-245 | the configured `fitran`, else first..last wavelength; fails only on an empty spectrum without `fitran` |
| PixelSelection.TemplateRange | common/fitspec.py:253-254 | the template range holds every template wavelength and its ends are template wavelengths; fails exactly on an empty template |
| PixelSelection.GoodIndexSet | common/fitspec.py:248-259 | a pixel is good iff flux != 0, err > 0, both finite, dq == 0, and its wavelength lies in the template range and the requested range |
| PixelSelection.MinWaveOver | common/fitspec.py:262 | the least wavelength over the selected indices, attained there; none exactly when no index is selected |
| PixelSelection.MaxWaveOver | common/fitspec.py:262 | the greatest wavelength over the selected indices, attained there; none exactly when no index is selected |
| PixelSelection.FitRange | common/fitspec.py:262 | the fit range is [min, max] of the good wavelengths, both attained; fails exactly when there is no good pixel |
| PixelSelection.WindowFrom | common/fitspec.py:265-267 | window indices are in the spectrum and their wavelengths lie in the range |
| PixelSelection.WindowComplete | common/fitspec.py:265-267 | every pixel whose wavelength lies in the range is in the window |
| PixelSelection.Gather | common/fitspec.py:279-282 | definition (numpy vocabulary, used by the lemmas below): `x[idx]` has one element per index, `x[idx[k]]` |
| PixelSelection.SelectWindow | common/fitspec.py:242-282 | the selection fails exactly on an empty spectrum without `fitran` (IndexError, checked first), an empty template (ValueError), or no good pixel; otherwise gives the fit range, window and re-based indices |
| PixelSelection.FitRangeInsideConfigured | common/fitspec.py:253-267 | every pixel inside the actual fit range is inside the template and the requested range |
| PixelSelection.SelectedWindowFacts | common/fitspec.py:262-276 | the good set is non-empty and inside the fit range; the window holds exactly the pixels inside the fit range, all inside the template and the requested range |
| PixelSelection.WindowEmptyPastEnd | common/fitspec.py:265-267 | on increasing wavelengths nothing past the range's end is in the window |
| PixelSelection.WindowContiguous | common/fitspec.py:265-270 | on increasing wavelengths the window is a run of consecutive pixels |
| PixelSelection.RezeroAddressesWindow | common/fitspec.py:269-276 | in a contiguous window, j is a re-based good index iff pixel window[j] is good |
| PixelSelection.GoodIndicesAddressWindow | common/fitspec.py:262-276 | the re-based good indices are exactly the window positions of good pixels |
| PixelSelection.ZeroInfIndices | common/fitspec.py:293-300 | j is in `zerinf_indx` iff flux is zero, err <= 0, either is infinite, or dq != 0 |
| PixelSelection.Overwrite | common/fitspec.py:320-322 | definition (numpy vocabulary, used by the lemmas below): `x[idx] = v` changes exactly the listed positions |
| PixelSelection.InverseVariance | common/fitspec.py:283 | definition (numpy vocabulary, used by the lemmas below): `gdinvvar` is `1/err**2` element by element |
| PixelSelection.ReplaceInvalid | common/fitspec.py:293-322 | flux, err and invvar get NaN at exactly the `zerinf` indices and keep every other sample |
| PixelSelection.PrepareLinearArrays | common/fitspec.py:242-322 | fresh restricted arrays: the window's samples with NaN at the invalid ones, invvar `1/err**2` elsewhere; the caller's arrays are untouched |
| PixelSelection.ToArray | common/fitspec.py:279-281 | a fresh array holding the sequence |
| PixelSelection.MaskedArraysAgreeWithGoodIndices | common/fitspec.py:276-322 | at a re-based good index the masked sample is the original one, finite and usable; at every other window pixel the flux or the error is NaN |
| PixelSelection.MaskedSample | common/fitspec.py:293-322 | a valid sample is not in `zerinf`; any other sample is in `zerinf` or already has a NaN flux or error |
| PixelSelection.AllIndices | common/fitspec.py:312 | `np.arange(n)` as a set |
| PixelSelection.GoodLogIndicesAsWritten | common/fitspec.py:302-315 | as written, a log sample is good iff it is not zero flux, err <= 0 or infinite |
| PixelSelection.LogNaNCountsAsGood | common/fitspec.py:302-315 | as written, a NaN log sample is kept among the good indices |
| PixelSelection.LogInvalidIndices | common/fitspec.py:302-308 | corrected: a log sample is invalid iff it has zero flux, err <= 0, or any non-finite value |
| PixelSelection.MaskLogGrid | common/fitspec.py:302-330 | `gd_indx_log` is [0, len) minus the invalid set, and exactly the invalid samples become `1e99` |
| PixelSelection.GoodLogSamplesAreUsable | common/fitspec.py:310-316 | every kept log sample is finite with nonzero flux and positive error |
| PixelSelection.MarkerPassesValidity | common/fitspec.py:328-330 | a sample overwritten with `1e99` passes the validity tests again, so the invalid set is not recomputed from the arrays |
| FitSpec.EmissionLineSwitches | common/fitspec.py:192-203 | `noemlinfit` iff the key is present or every `ncomp` is 0; `noemlinmask` iff `noemlinfit` and no `doemlinmask` |
| FitSpec.NoneWithComponents | common/fitspec.py:196-199 | the set of lines with components is empty iff every `ncomp` is 0 |
| FitSpec.TemplateWavelengths | common/fitspec.py:205-234 | the data grid without a template or for `questfit`; a missing `fcncontfit` raises; otherwise each template wavelength redshifted unless kept, converted to vacuum, and rescaled |
| FitSpec.TemplateKeptAsStored | common/fitspec.py:216-224 | with `keepstarz`, air wavelengths and no unit factor, the stored grid is used unchanged |
| FitSpec.DefaultMaskWidths | common/fitspec.py:355-358 | one row of `maxncomp` default widths per line |
| FitSpec.ResolveMaskWidths | common/fitspec.py:351-358 | keyword widths win, then configured ones, else the default table of 1000 km/s (or `maskwidths_def`) |
| FitSpec.ZeroFrom | common/fitspec.py:362-364 | entries `from..to-1` become zero and the rest are kept |
| FitSpec.ZeroFromIdempotent | common/fitspec.py:362-364 | zeroing a range twice is zeroing it once |
| FitSpec.ZeroedRows | common/fitspec.py:361-364 | after the loop every listed line's components `ncomp..maxncomp-1` are zero, lower ones and unlisted lines are kept |
| FitSpec.ZeroedRowsStep | common/fitspec.py:361-364 | one more pass of the loop zeroes the next line's row |
| FitSpec.ZeroedRowsFullLine | common/fitspec.py:362 | a line using every component is left as it is |
| FitSpec.LineMasks.constructor | common/fitspec.py:350-358 | the tables start as given |
| FitSpec.LineMasks.ZeroLine | common/fitspec.py:362-364 | the inner loop zeroes one line's width and wavelength rows over the range and changes nothing else |
| FitSpec.LineMasks.ZeroUnusedComponents | common/fitspec.py:361-364 | succeeds iff every listed line has rows long enough, and then both tables equal `ZeroedRows` of the old ones |
| FitSpec.ContinuumIndices | common/fitspec.py:370-375 | `ct_indx` is a subset of the good indices: the good unmasked pixels, or every good pixel without line masking |
| FitSpec.ContinuumPixelsAreGood | common/fitspec.py:370-375 | every continuum pixel addresses a good pixel of the restricted spectrum |
| FitSpec.MaskContinuum | common/fitspec.py:350-375 | masking sees the zeroed tables; the linear and log continuum sets are subsets of `gd_indx` and `gd_indx_log` |
| FitSpec.PlanContinuum | common/fitspec.py:380-480 | no `fcncontfit` gives no fit; any name but `ppxf` calls that function; `ppxf` runs iff a template and `siginit_stars` exist, and otherwise falls into the branch that assigns no continuum; the default polynomial degree is 4 |
| FitSpec.StatsZeroUnlessPpxf | common/fitspec.py:428-480 | unless ppxf runs, the poly weights, reduced chi-square and sigma error are 0, and the sigma is 0 unless the called function refitted with ppxf; the fall-through branch's zeros are never used, because that plan raises as written and the corrected dispatch rejects it |
| FitSpec.ChooseContinuum | common/fitspec.py:380-480 | the corrected dispatch: `ppxf` without a template fails with MissingRequiredTemplate and without `siginit_stars` with a KeyError, exactly then; every other choice is the plan as written and assigns a continuum |
| FitSpec.SubEach | common/fitspec.py:522 | definition (numpy vocabulary, used by the lemmas below): element-wise `flux - continuum` |
| FitSpec.DivideEach | common/fitspec.py:517 | definition (numpy vocabulary, used by the lemmas below): element-wise `flux / continuum - 1` |
| FitSpec.ScaleInvvar | common/fitspec.py:518 | definition (numpy vocabulary, used by the lemmas below): element-wise `invvar * continuum**2` |
| FitSpec.TweakAlwaysRaisesAsWritten | common/fitspec.py:486-514 | as written, with `tweakcntfit` every call reads an unassigned `method` and raises |
| FitSpec.NoStrategyRaisesAsWritten | common/fitspec.py:476-514 | as written, `ppxf` without a template or `siginit_stars` leaves `continuum` unassigned, so `continuum_pretweak = continuum` raises NameError |
| FitSpec.ChosenPlanFormsResidual | common/fitspec.py:484-537 | every plan the corrected dispatch accepts assigns a continuum, so without a tweak the residual's kind and flux are formed |
| FitSpec.NoContinuumLineFitRaisesAsWritten | common/fitspec.py:526-537 | as written, without a continuum fit the line fit reads the unassigned `gdinvvar_nocnt` and raises |
| FitSpec.ContinuumResidual | common/fitspec.py:516-537 | corrected residual: divided, subtracted, or the data unchanged without a continuum fit, with matching weights; lengths kept |
| FitSpec.ResidualAgreesWhereAssigned | common/fitspec.py:486-537 | wherever the code as written assigns a name, the corrected residual has the same value |
| FitSpec.SubtractedResidualRestores | common/fitspec.py:522 | adding the continuum back to a finite subtracted residual gives the data |
| FitSpec.DividedResidualRestores | common/fitspec.py:517 | (residual + 1) times a nonzero continuum gives the data |
| FitSpec.MaskedSamplesStayMasked | common/fitspec.py:516-537 | a NaN-masked sample stays NaN in the residual and its weight, so the line fit omits it |
| FitSpec.ClampNegative | common/fitspec.py:566-567 | negative values become 0, everything else (NaN included) is kept, and the result is never negative |
| FitSpec.SliceTo | common/fitspec.py:563 | `s[0:n]` is the first `min(n, len)` elements |
| FitSpec.Zeros | common/fitspec.py:569 | definition (numpy vocabulary, used by the lemmas below): `np.zeros(n)` |
| FitSpec.PeakGuess | common/fitspec.py:558-569 | a line whose first component is outside the data range gets `maxncomp` zeros; otherwise its first `ncomp` interpolated values, clamped; a missing index raises; never negative |
| FitSpec.ComputedPeaks | common/fitspec.py:556-569 | one guess per configured line |
| FitSpec.ComputedPeaksNonNegative | common/fitspec.py:558-569 | each computed guess is that line's own guess and none is negative |
| FitSpec.ComputedPeaksFailureSticks | common/fitspec.py:558-569 | a failing line ends the loop with its exception |
| FitSpec.InitialPeaks | common/fitspec.py:552-569 | keyword guesses win, then configured ones, else the computed ones |
| FitSpec.SigInitGas | common/fitspec.py:572-576 | given widths win, else 100 km/s for every component of every line |
| FitSpec.ConfiguredSiglimDroppedAsWritten | common/fitspec.py:581-590 | as written, a configured `siglim` of (10, 800) reaches `parinit` as None and becomes (5, 2000); corrected it stays (10, 800) |
| FitSpec.SiglimArgument | common/fitspec.py:581-586 | corrected: `siglim_gas` when given, else the configured `siglim` |
| FitSpec.EffectiveWidthLimits | common/fitspec.py:581-590 | the limits the line fit uses are `siglim_gas`, else the configured ones, else [5, 2000] |
| ParInit.EffectiveSpecres | init/parinit.py:32-35 | `specres` is 0 when missing, else its value |
| ParInit.EffectiveSiglim | init/parinit.py:37-40 | `siglim` defaults to [5, 2000] |
| ParInit.ConfigureChangesOnlyRequested | init/parinit.py:205-217 | `set_params` sets value when given, always `vary`, `expr` whenever a tie is given, min only for LIMITED[0] == 1, max only for LIMITED[1] == 1, and nothing else |
| ParInit.ConfigureIdempotent | init/parinit.py:205-217 | applying the same settings twice is applying them once |
| ParInit.ParseParamNameRoundTrip | init/parinit.py:70-81 | parsing `{label}_{comp}_{par}` gives back label, component and parameter, even when the label holds `_` |
| ParInit.ParamNameInjective | init/parinit.py:57 | distinct (label, component, parameter) triples give distinct names |
| ParInit.At | init/parinit.py:85-111 | `d[key][i]` succeeds iff the key exists and the index is in range (negative ones count from the end) |
| ParInit.DoubletPairs | init/parinit.py:27-30 | every fixed-ratio row's weaker line is a key, and every key maps to a stronger line of one of its fixed-ratio rows |
| ParInit.BuildDoubletPairs | init/parinit.py:27-30 | the loop builds `DoubletPairs` |
| ParInit.DoubletPairsLastWins | init/parinit.py:28-30 | the last fixed-ratio row of a weaker line decides its partner |
| ParInit.Names | init/parinit.py:44-45 | the catalogue's line names in order |
| ParInit.RestWaves | init/parinit.py:44-45 | `lines_arr` has exactly the catalogue names as keys |
| ParInit.LineKeys | init/parinit.py:44-52 | the loop visits the catalogue names once each, in first-occurrence order |
| ParInit.CompsOf | init/parinit.py:54 | a line contributes (line, 0) .. (line, n-1) |
| ParInit.Components | init/parinit.py:52-62 | enumeration succeeds iff every line has an `ncomp` entry |
| ParInit.ComponentsExact | init/parinit.py:52-62 | exactly one component per (line, i) with i < `ncomp[line]`, in line order; a line with `ncomp` 0 contributes none |
| ParInit.ComponentsFailureSticks | init/parinit.py:52-54 | a line missing from `ncomp` ends the loop with its exception |
| ParInit.BuildComponents | init/parinit.py:52-62 | the nested loop builds `Components` |
| ParInit.ComponentNames | init/parinit.py:57-65 | a component's four parameter names are its prefix `{label}_{i}_` plus each Gaussian parameter |
| ParInit.ParamNames | init/parinit.py:65 | four names per component |
| ParInit.ParamNamesComplete | init/parinit.py:65 | every parameter of every component is a key of `fit_params` |
| ParInit.Fresh | init/parinit.py:65 | `make_params` creates exactly the given names, each unset |
| ParInit.NameSettingsOfComponent | init/parinit.py:68-81 | parsing a constructed name leads back to that line's own settings |
| ParInit.FluxParamFacts | init/parinit.py:84-94 | `flx` has min 0 and no max, and is tied to `{strong}_{comp}_flx/3.` exactly when the line is the weaker member of a fixed-ratio doublet |
| ParInit.CentreParamFacts | init/parinit.py:95-109 | `cwv` is bounded by 0.997 and 1.003 times its observed wavelength and tied, with the rest-wavelength ratio, iff `linetie[line] != line` |
| ParInit.SigmaParamFacts | init/parinit.py:110-118 | `sig` is bounded by `siglim` and tied to the same component of the tie target iff `linetie[line] != line` |
| ParInit.ResolutionParamFacts | init/parinit.py:119-124 | `srsigslam` is fixed at `specres`, unbounded and untied |
| ParInit.GaussPass | init/parinit.py:68-129 | the parameter pass keeps the key set |
| ParInit.GaussPassFailureSticks | init/parinit.py:68-129 | a name without settings ends the loop with its exception |
| ParInit.GaussPassSettles | init/parinit.py:68-129 | the pass succeeds iff every name has settings, and then each parameter is its own settings applied to the old one |
| ParInit.Occurrences | init/parinit.py:173-181 | the doublet rows whose `line1` (or `line2`) column holds the line, all of them |
| ParInit.DoubletBounds | init/parinit.py:168-198 | the doublet bounds raise exactly when the deciding column holds the line in several rows, where the comparison with `line2` is ambiguous |
| ParInit.ExplicitBoundsWin | init/parinit.py:169-188 | explicit `lower` and `upper` columns always set the ratio's bounds |
| ParInit.DoubletEitherOrder | init/parinit.py:168-198 | a doublet given in table order gets the table's [lower, upper]; given reversed it gets [1/upper, 1/lower] |
| ParInit.ReversedLowerOnlyAsWritten | init/parinit.py:168-198 | as written, a reversed doublet with only a `lower` column has its explicit lower bound replaced by 1/upper of the table and gets no upper bound |
| ParInit.ReversedUpperOnlyAsWritten | init/parinit.py:168-198 | as written, a reversed doublet with only an `upper` column keeps the explicit upper bound but never gets a lower bound, where the corrected bounds add 1/upper of the table |
| ParInit.OtherPartnerAsWritten | init/parinit.py:173-177 | as written, a row whose line is in the table with another partner reuses the previous row's bound, or raises when there is none |
| ParInit.AsWrittenAgreesOnMatchedPairs | init/parinit.py:168-198 | wherever the code as written hits neither defect, it agrees with the corrected bounds |
| ParInit.RatioNameIsNotFluxName | init/parinit.py:149-159 | a ratio parameter never has the name of a flux parameter |
| ParInit.RatioStepEffect | init/parinit.py:143-198 | a row whose two flux parameters exist adds the ratio with its initial value (the `value` column or the fluxes as lmfit reads them), `vary` and bounds, ties the second flux to `l1_flx/ratio`, and changes nothing else; any other row changes nothing |
| ParInit.TieValue | init/parinit.py:155-158 | a tie evaluated over the stored values it names: a third of the stronger flux, the rest-wavelength multiple, the same value, or the quotient; NameError for a name that is not a parameter, ZeroDivisionError only for the rest-wavelength tie's zero literal denominator, and numpy's infinity or NaN when a flux's ratio parameter is zero |
| ParInit.ReadValue | init/parinit.py:155-158 | a parameter reads as its stored value when untied and as its evaluated tie otherwise |
| ParInit.InitialRatio | init/parinit.py:151-158 | the `value` column, else `np.divide` of the two fluxes as read, the first read first and either read's exception raised |
| ParInit.DoubletRatioReadsTie | init/parinit.py:88-92 | a ratio over a fixed-ratio doublet starts at exactly 3, because the weaker flux reads as a third of the stronger |
| ParInit.ZeroRatioReadsNonFinite | init/parinit.py:155-163 | a flux tied to `f1/ratio` with a zero ratio reads as NaN over a zero flux and as an infinity over any other finite flux, without raising |
| ParInit.MissingStrongLineRaises | init/parinit.py:88-92 | a weaker doublet line whose stronger line has no parameter makes the ratio raise NameError |
| ParInit.RatioRowsFailureSticks | init/parinit.py:143-198 | a failing row ends the ratio loop |
| ParInit.LineRatios | init/parinit.py:132-143 | a non-table `lineratio` raises, a table without `line1`, `line2` and `comp` raises, and no table changes nothing |
| ParInit.ParinitConfiguresEveryComponent | init/parinit.py:52-129 | without ratios, every parameter of every component exists and is configured by its own line's settings |
| ParInit.GaussPassConfigures | init/parinit.py:68-129 | a successful settings pass configures each Gaussian parameter of each component from its own line's settings |
| ParInit.Parameters.Make | init/parinit.py:65 | `make_params`: the names in order, each unset |
| ParInit.Parameters.SetParams | init/parinit.py:205-217 | one parameter is configured and nothing else changes |
| ParInit.Parameters.Add | init/parinit.py:160 | `add` creates or replaces one parameter, appending a new name at the end |
| ParInit.Parameters.Update | init/parinit.py:162-167 | one parameter's record is replaced |
| ParInit.Parameters.ApplyGaussianSettings | init/parinit.py:68-129 | the loop leaves exactly what `GaussPass` computes, or its exception |
| ParInit.Parameters.ApplyRatioRow | init/parinit.py:143-198 | one ratio row leaves exactly what `RatioStep` computes, including the NameError of reading a flux tied to a missing line; a zero ratio read through a tie gives an infinity or NaN and the block carries on |
| ParInit.Parameters.ApplyRatioRows | init/parinit.py:143-198 | the ratio loop leaves exactly what `RatioRows` computes |
| ParInit.Parameters.ApplyLineRatios | init/parinit.py:133-198 | no table changes nothing; a non-table or a table without `line1`, `line2`, `comp` raises; otherwise exactly what the ratio loop computes |
| ParInit.MakeParams | init/parinit.py:64-198 | fresh parameters, the settings pass and the ratio table leave exactly `ParamsSpec`, or its exception |
| ParInit.Parinit | init/parinit.py:20-202 | returns the component prefixes, the parameters and `siglim` with its default, or the exception |
| QuestFit.ScanGlobalExtinction | common/questfit.py:75-81 | the flag is raised iff some entry's fourth field contains `global`; short entries are skipped |
| QuestFit.LastKeyWithIsLast | common/questfit.py:83-88 | the chosen screen is the last key whose entry lists the word, or the default when none does |
| QuestFit.GlobalModels | common/questfit.py:83-88 | under global extinction the screens are the last `extinction` and `absorption` keys; otherwise the given defaults |
| QuestFit.Summands | common/questfit.py:119-124 | a model has at least one summand |
| QuestFit.KindsOf | common/questfit.py:94-159 | a key declares a blackbody, power law or template exactly when it contains that word, the template last |
| QuestFit.ComponentTerm | common/questfit.py:103-118 | a component with its screens is never a sum |
| QuestFit.IceValue | common/questfit.py:118-149 | corrected: the ice curve records the first field of its entry; a missing entry raises |
| QuestFit.TemplateIceNotLoadableAsWritten | common/questfit.py:223-227 | as written, an ice-covered template records the whole entry, which the loading loop cannot load |
| QuestFit.IceValueAgreesOffTemplates | common/questfit.py:114-149 | for blackbodies and power laws the as-written and corrected values agree |
| QuestFit.AddComponent | common/questfit.py:92-236 | IndexError on an entry shorter than ten fields, and failure exactly on a missing or empty extinction entry, or an ice entry that is short, missing or empty; on success the own extinction and ice curves are recorded under their keys as their first field, a template is recorded under `template_<count>` with its path, every other dictionary entry is kept, and the template count advances by one for a template only |
| QuestFit.AddComponentAppends | common/questfit.py:119-124 | adding a component appends its term to the sum (the first one starts it) |
| QuestFit.AddKindsAppends | common/questfit.py:93-236 | the kinds of one key append their terms in order, named with the template count before the key |
| QuestFit.ComposeEntriesSummands | common/questfit.py:93-236 | the loop builds exactly the expected components in configuration order and counts the template keys |
| QuestFit.ComposedModelShape | common/questfit.py:75-251 | the model is the sum of the components in order; with global extinction no component has its own screens and the sum is multiplied once by `global_ext`, then once by `global_ice` |
| QuestFit.GlobalKindTermsBare | common/questfit.py:103-118 | under global extinction a key contributes bare components |
| QuestFit.GlobalTermsBare | common/questfit.py:92-236 | under global extinction no component carries its own screen |
| QuestFit.ModelBuilder.constructor | common/questfit.py:62-92 | empty model, empty dictionaries, template count 0 |
| QuestFit.ModelBuilder.AddComponentInPlace | common/questfit.py:92-236 | the in-place update leaves exactly what `AddComponent` computes |
| QuestFit.ModelBuilder.AddKey | common/questfit.py:93-236 | one key's kinds leave exactly what `AddKinds` computes, or its exception |
| QuestFit.ModelBuilder.AddKindList | common/questfit.py:93-236 | the loop over one key's kinds leaves exactly what `AddKinds` computes, or its exception |
| QuestFit.ModelBuilder.AddKeys | common/questfit.py:93-236 | the loop over the configuration keys leaves exactly what `ComposeEntries` computes, or the first exception |
| QuestFit.ModelBuilder.ApplyScreens | common/questfit.py:243-251 | under global extinction the sum is multiplied by the dust screen and then the ice screen and both templates are recorded, exactly as `Finish` says; the KeyError or IndexError otherwise |
| QuestFit.ModelBuilder.Build | common/questfit.py:69-251 | the whole composition leaves exactly what `Compose` computes, or its exception |
| QuestFit.AddKindsFailureSticks | common/questfit.py:93-236 | a failing kind ends the key |
| QuestFit.ComposeFailureSticks | common/questfit.py:93-236 | a failing key ends the composition |
| QuestFit.Take | common/questfit.py:324 | definition (numpy vocabulary, used by the lemmas below): `a[index]` with numpy negative indices |
| QuestFit.CutDictionary | common/questfit.py:320-324 | succeeds iff every non-`fitFlambda` entry can be indexed; those are restricted to `index`, `fitFlambda` entries are kept, keys unchanged |
| QuestFit.VecAdd | common/questfit.py:433-434 | definition (numpy vocabulary, used by the lemmas below): element-wise sum |
| QuestFit.VecMul | common/questfit.py:446-451 | definition (numpy vocabulary, used by the lemmas below): element-wise product |
| QuestFit.VecZeros | common/questfit.py:421-422 | definition (numpy vocabulary, used by the lemmas below): `np.zeros(n)` |
| QuestFit.Observed | common/questfit.py:445-451 | an observed component keeps the spectrum length |
| QuestFit.HostSum | common/questfit.py:424-459 | the host sum keeps the spectrum length |
| QuestFit.TotalSum | common/questfit.py:424-459 | the total of all base components keeps the spectrum length |
| QuestFit.DecomposeSpec | common/questfit.py:397-462 | the decomposition succeeds iff the configuration has at least two keys and there are enough components (two under global extinction, which the configuration decides); the screens are the last two components exactly when some entry's fourth field says `global` |
| QuestFit.HostIsTotalWithoutQso | common/questfit.py:453-459 | with `decompose_qso_fit` false every base component is host |
| QuestFit.HostIsZeroWithoutKey | common/questfit.py:453 | with the key absent the host stays zero |
| QuestFit.QsoPlusHostIsTotal | common/questfit.py:453-459 | with decomposition the first base component plus the host is the total |
| QuestFit.DecompositionPartitions | common/questfit.py:397-462 | with the screens the configuration decides, QSO and host partition the base components when decomposing; the host is everything when not; both are empty without the key |
| QuestFit.QsoHostDecompose | common/questfit.py:397-462 | the configuration check, the global-extinction scan of the configuration and the accumulation loop compute `DecomposeSpec` |
| QuestFit.Accumulate | common/questfit.py:423-460 | the quasar part is the first base component (when decomposing) and the host part is the sum of the other base components, observed and intrinsic |
| LineList.Dedup | common/linelist.py:133-138 | no duplicates and the same elements |
| LineList.UniqList | common/linelist.py:133-138 | the loop computes `Dedup` |
| LineList.FirstIndex | common/linelist.py:133-138 | the first position holding an element |
| LineList.FirstIndexPrefix | common/linelist.py:133-138 | first positions in a prefix are first positions in the whole |
| LineList.DedupFirstOccurrenceOrder | common/linelist.py:133-138 | `uniqlist` keeps first-occurrence order |
| LineList.DedupIdentityIffNoDuplicates | common/linelist.py:145-146 | the duplicate warning fires iff a name is requested twice |
| LineList.DedupLength | common/linelist.py:133-138 | `uniqlist` never lengthens its input |
| LineList.TargetUnit | common/linelist.py:114-125 | Angstrom iff requested, microns for anything else |
| LineList.ScaleRows | common/linelist.py:119-124 | definition (numpy vocabulary, used by the lemmas below): every wavelength scaled, names and labels kept |
| LineList.Convert | common/linelist.py:116-125 | a table ends in the target unit, scaled by 1e4 from micron or 1e-4 from Angstrom, unchanged when already there |
| LineList.ConvertRoundTrip | common/linelist.py:116-125 | converting and converting back gives the table back |
| LineList.NormaliseUnits | common/linelist.py:116-125 | every table is rewritten in place to the target unit |
| LineList.Stack | common/linelist.py:127 | `vstack` holds exactly the rows of the tables |
| LineList.Matches | common/linelist.py:150 | the catalogue rows carrying a name |
| LineList.MatchesEmptyIffAbsent | common/linelist.py:150-152 | no match iff no row carries the name |
| LineList.Pick | common/linelist.py:150-157 | a requested name contributes nothing when absent, and the first match otherwise |
| LineList.SelectRows | common/linelist.py:149-158 | at most one row per requested name |
| LineList.SelectRowsComplete | common/linelist.py:159-163 | one row per requested name iff every name exists |
| LineList.SelectRowsInRequestOrder | common/linelist.py:149-158 | the k-th row is the first catalogue row of the k-th requested name, duplicates kept |
| LineList.MissingExactly | common/linelist.py:151-152 | a name is reported missing iff requested and absent |
| LineList.MissingIffNoMatch | common/linelist.py:151-152 | a name is reported missing iff it was requested and has no matching row |
| LineList.AmbiguousExactly | common/linelist.py:154-156 | a name is reported ambiguous iff requested and matched more than once |
| LineList.Select | common/linelist.py:149-158 | the loop computes the selection and both warning lists |
| LineList.SelectOne | common/linelist.py:150-157 | one requested name keeps its first catalogue row (none when absent), with a missing warning when absent and an ambiguity warning when duplicated |
| LineList.Columns | common/linelist.py:166-167 | without labels only `name` and `lines` are kept |
| LineList.MortonRangeUnitFree | common/linelist.py:175-182 | the Angstrom and micron tests flag the same lines |
| LineList.MortonFailures | common/linelist.py:175-182 | exactly the names of rows outside 2000-25000 Angstrom (0.2-2.5 micron) are flagged |
| LineList.Linelist | common/linelist.py:113-190 | the tables are normalised in place; the output is the stacked or selected rows, with columns dropped and air conversion applied unless vacuum is wanted; the report holds the unknown-unit, duplicate, missing, ambiguous, size, non-bool `vacuum` and Morton warnings |
| LineList.Choose | common/linelist.py:142-163 | with no requested lines every row is kept; otherwise the rows are the requested selection, and the duplicate, size-mismatch, missing and ambiguous warnings are raised exactly when those conditions hold |
| LineList.ToAir | common/linelist.py:172-190 | when vacuum is wanted the rows are unchanged and nothing is flagged; otherwise every row's wavelength, and only it, goes through the air conversion and the Morton failures are reported |
| LineList.WantsVacuum | common/linelist.py:169-171 | a `vacuum` that is neither True nor False falls back to vacuum; otherwise the given choice |

## Left out

- `lmlabel` is not part of this model. It is a parameter `lm` with inverse `unlm`, assumed to undo it where a lemma needs that.
- questfitfcn is not part of this model. Its model builders are the leaves of the term, and the lmfit parameters they return, which mirror the terms, are not modelled.
- questfit_readcf is not part of this model. A configuration is a list of keys with their field lists.
- masklin is not part of this model. Its results enter `FitSpec.MaskContinuum` as parameters.
- interp_temp_quest, `np.load` template loading, the `c_scale` conversion and the loading loop (questfit.py:253-291) are left out. They are file I/O and numerics.
- The lmfit fit, evaluation and report, and the emcee branch, are left out. These are numerical optimisation.
- `log_rebin`, `ppxf`, `interp1d`, `interptemp`, `airtovac` and `fcnconvtemp` are parameters or left out. They are external numerics.
- The `exp`-based redshift update after ppxf (fitspec.py:462, 470-474) is left out.
- The tweak-continuum loop body is a placeholder `pass` in the source and is left out. Only its effect on the names it leaves unassigned is modelled.
- The plotting and the `pdb` / `breakpoint` pauses are left out. This includes the pause when the second configuration key lacks `qso` (questfit.py:402-404): only the IndexError of a short configuration is modelled.
- Printing and timing are left out. The printed warnings of `linelist` are returned as a report.
- The `fitran` slicing in questfit.py:65-67 is left out. It calls `np.logical_and` with one argument and cannot run.
- The air-wavelength formula (linelist.py:187-188) is left out. It is the parameter `toAir`.
- The `[:,0,0]` flattening of multi-dimensional components (questfit.py:417-427, 442-443) is left out. Every component is a one-dimensional spectrum.
- `maxamp = 1.05*max(flux[index])` (questfit.py:166) is left out. It fails on an empty index, and the amplitude is numerics.
- `QuestFit.ComponentName`: `int(float(field 7))` is the parameter `intOf`, so the ValueError of a non-numeric field is not modelled.
- `ParInit.CentreParamFacts`: the tie string's `0.6e` number formatting is modelled as the exact rest wavelengths.
- `ParInit.Parameters.Make`: the placeholder value `make_params` gives an argument without a default is modelled as an unset parameter.
- lmfit setting `vary` to False when `expr` is set is left out. The parameter records the `vary` flag as set.
- `ParInit.ReadValue`: a tie's names are read at their stored values. lmfit's refresh of a tied parameter's stored value when it is read, and its clipping of values to the bounds, are not modelled. The NameError of a tie that names a missing stronger line (parinit.py:88-89) is modelled where the ratio block reads that flux; raised later, by the fit, it is out of scope.
- Values are exact reals without float64 rounding. `FitSpec.SubtractedResidualRestores`, `FitSpec.DividedResidualRestores` and `LineList.ConvertRoundTrip` hold for the model, and in the program only up to rounding.
- `Strings.ParseInt` accepts an optional minus sign and digits only, not the `+` sign or surrounding whitespace Python accepts. Component numbers are always rendered without them.
- `FitSpec.ComputedPeaks` takes `ncomp` as natural numbers. A negative `ncomp` is not modelled in `fitspec`.
- `QuestFit.DecomposeSpec` assumes every component spectrum has one common length, as the element-wise products of numpy require.
- `FitSpec.ContinuumResidual` assumes the continuum has the data's length.
- `QuestFit.Observed`: spectra are reals, so NaN propagation through the decomposition is not modelled.

## Findings

| source | as written | input that shows it | evidently intended | confidence | as-written member | corrected member |
|---|---|---|---|---|---|---|
| common/fitspec.py:585-586 | `if 'siglim_gas' is not None` tests a string literal, so `argsinitpar['siglim']` is always overwritten with `siglim_gas` | `argsinitpar` with `siglim` (10, 800) and no `siglim_gas`: `parinit` gets None and uses (5, 2000) | pass `siglim_gas` only when it is given | high, not executed | FitSpec.SiglimArgumentAsWritten (FitSpec.ConfiguredSiglimDroppedAsWritten) | FitSpec.SiglimArgument (FitSpec.EffectiveWidthLimits) |
| common/fitspec.py:302-315 | the log-domain invalid set tests zero, `<= 0` and `isinf` only, so a NaN sample stays in `gd_indx_log` | a rebinned flux of NaN with error 1.0 | exclude every non-finite sample, as the linear path does with NaN masking | medium, not executed | PixelSelection.GoodLogIndicesAsWritten (PixelSelection.LogNaNCountsAsGood) | PixelSelection.LogInvalidIndices (PixelSelection.MaskLogGrid) |
| init/parinit.py:180-184,194-198 | for a reversed doublet the upper-bound block's `elif` branch writes the minimum, so with only a `lower` column the explicit lower bound is replaced by 1/upper of the table and no upper bound is set; with only an `upper` column no lower bound is ever set | doublet ([OIII]5007, [OIII]4959, 2.9, 3.1), ratio row ([OIII]4959, [OIII]5007) with only `lower`, or with only `upper` | explicit columns win; a reversed pair gets [1/upper, 1/lower] | high, not executed | ParInit.RatioBoundsAsWritten (ParInit.ReversedLowerOnlyAsWritten, ParInit.ReversedUpperOnlyAsWritten) | ParInit.RatioBounds (ParInit.DoubletEitherOrder, ParInit.ExplicitBoundsWin) |
| init/parinit.py:173-177 | when the line is in the doublet table with another partner, `lower` is not reassigned, so the previous row's value (or an UnboundLocalError) is used | doublet ([SII]6716, [SII]6731), ratio row ([SII]6716, [NII]6583) as the first row | no doublet bound for a pair the table does not hold | high, not executed | ParInit.RatioBoundsAsWritten (ParInit.OtherPartnerAsWritten) | ParInit.RatioBounds (ParInit.DoubletBounds) |
| common/questfit.py:227 | an ice-covered template records the whole configuration entry in `models_dictionary`, not its file name | a key `template_ice` with an ice curve entry | record the entry's first field, as lines 118 and 149 do | high, not executed | QuestFit.IceValueAsWritten (QuestFit.TemplateIceNotLoadableAsWritten) | QuestFit.IceValue (QuestFit.IceValueAgreesOffTemplates) |
| common/fitspec.py:486-514,713 | with `tweakcntfit`, `method`, `gdflux_nocnt` and `gdinvvar_nocnt` are never assigned, so building the output raises NameError | any call with `tweakcntfit` configured | compute the residual after the tweak as without it | high, not executed | FitSpec.ContinuumResidualAsWritten (FitSpec.TweakAlwaysRaisesAsWritten) | FitSpec.ContinuumResidual (FitSpec.ResidualAgreesWhereAssigned) |
| common/fitspec.py:526-537,620 | without a continuum fit, `gdinvvar_nocnt` is never assigned, so the line fit raises NameError | no `fcncontfit` and at least one emission-line component | weight the line fit with `gdinvvar` | high, not executed | FitSpec.ContinuumResidualAsWritten (FitSpec.NoContinuumLineFitRaisesAsWritten) | FitSpec.ContinuumResidual (FitSpec.MaskedSamplesStayMasked) |
| common/fitspec.py:476-514 | `fcncontfit='ppxf'` without a template or `siginit_stars` falls into an `else` branch that assigns only the diagnostics, so `continuum_pretweak = continuum` raises UnboundLocalError (at :487 with `tweakcntfit`) | `fcncontfit='ppxf'` and no template | fail fast with MissingRequiredTemplate, or a KeyError for the missing `siginit_stars` | high, not executed | FitSpec.ContinuumResidualAsWritten (FitSpec.NoStrategyRaisesAsWritten) | FitSpec.ChooseContinuum (FitSpec.ChosenPlanFormsResidual) |
