/**
 * The bookkeeping of `fitspec` around the two fits: whether lines are fitted
 * and masked, the template wavelength grid, the emission-line mask widths,
 * the continuum pixel set, the choice of continuum strategy, the residual
 * handed to the line fit, and the initial guesses for line peaks, widths and
 * the width limits.  The fits themselves (the named continuum function,
 * ppxf, lmfit) and the masking routine are parameters or left out.
 */
module FitSpec {
  import opened Wrappers
  import opened Floats
  import PixelSelection
  import ParInit

  /** The exceptions this part of `fitspec` can raise. */
  datatype SpecError =
    | MissingKey(key: string)               // KeyError
    | MissingIndex(key: string)             // IndexError
    | OutOfInterpolationRange(line: string) // ValueError from interp1d
    | Unbound(name: string)                 // NameError: a variable no branch assigned
    | MissingRequiredTemplate               // the ppxf strategy is chosen without a template

  // ---------------------------------------------------------------------
  // Whether emission lines are fitted and masked

  datatype LineSwitches = LineSwitches(noemlinfit: bool, noemlinmask: bool)

  /**
   * `noemlinfit` holds when the configuration says so or no line has a
   * component; `noemlinmask` (`b'1'`) when lines are not fitted and masking
   * is not requested anyway.
   */
  function EmissionLineSwitches(noemlinfitKey: bool, doemlinmaskKey: bool, ncomp: map<string, nat>): (r: LineSwitches)
    ensures r.noemlinfit <==> noemlinfitKey || forall l :: l in ncomp ==> ncomp[l] == 0
    ensures r.noemlinmask <==> r.noemlinfit && !doemlinmaskKey
  {
    var withComponents := set l | l in ncomp && ncomp[l] != 0;
    NoneWithComponents(ncomp);
    var none := noemlinfitKey || withComponents == {};
    LineSwitches(none, none && !doemlinmaskKey)
  }

  /** No line has a component exactly when the set of lines with components is empty. */
  lemma NoneWithComponents(ncomp: map<string, nat>)
    ensures (set l | l in ncomp && ncomp[l] != 0) == {} <==> forall l :: l in ncomp ==> ncomp[l] == 0
  {
    var w := set l | l in ncomp && ncomp[l] != 0;
    if w != {} {
      var l :| l in w;
      assert l in ncomp && ncomp[l] != 0;
    } else {
      forall l | l in ncomp
        ensures ncomp[l] == 0
      {
        assert ncomp[l] != 0 ==> l in w;
      }
    }
  }

  // ---------------------------------------------------------------------
  // Template wavelengths

  /** One template wavelength as the fit sees it: redshifted unless kept, converted to vacuum, rescaled. */
  function ObservedTemplateWave(x: real, keepstarz: bool, zstar: real, vacuum: bool,
                                airToVac: real -> real, waveunit: Option<real>): real
  {
    var z := if keepstarz then x else x * (1.0 + zstar);
    var v := if vacuum then airToVac(z) else z;
    if waveunit.Some? then v * waveunit.value else v
  }

  /**
   * `templatelambdaz`: the converted template grid when a template file is
   * configured and the continuum function is not `questfit`, otherwise the
   * data's own wavelengths.  A template without `fcncontfit` raises.
   */
  function TemplateWavelengths(wlambda: seq<real>, template: Option<seq<real>>, fcncontfit: Option<string>,
                               keepstarz: bool, zstar: real, vacuum: bool,
                               airToVac: real -> real, waveunit: Option<real>): (r: Result<seq<real>, SpecError>)
    ensures template.None? ==> r == Ok(wlambda)
    ensures template.Some? && fcncontfit.None? ==> r == Err(MissingKey("fcncontfit"))
    ensures fcncontfit == Some("questfit") ==> r == Ok(wlambda)
    ensures template.Some? && fcncontfit.Some? && fcncontfit.value != "questfit" ==>
      r.Ok? && |r.value| == |template.value|
      && forall k :: 0 <= k < |template.value| ==>
           r.value[k] == ObservedTemplateWave(template.value[k], keepstarz, zstar, vacuum, airToVac, waveunit)
  {
    match template
    case None => Ok(wlambda)
    case Some(t) =>
      if fcncontfit.None? then Err(MissingKey("fcncontfit"))
      else if fcncontfit.value == "questfit" then Ok(wlambda)
      else Ok(seq(|t|, k requires 0 <= k < |t| => ObservedTemplateWave(t[k], keepstarz, zstar, vacuum, airToVac, waveunit)))
  }

  /** With `keepstarz`, air wavelengths and no unit factor, the template grid is used as stored. */
  lemma TemplateKeptAsStored(wlambda: seq<real>, t: seq<real>, name: string, zstar: real, airToVac: real -> real)
    requires name != "questfit"
    ensures TemplateWavelengths(wlambda, Some(t), Some(name), true, zstar, false, airToVac, None) == Ok(t)
  {
    var r := TemplateWavelengths(wlambda, Some(t), Some(name), true, zstar, false, airToVac, None);
    assert r.value == t;
  }

  // ---------------------------------------------------------------------
  // Emission-line mask widths

  /** A table of `maxncomp` rows per line, every entry the default width. */
  function DefaultMaskWidths(names: seq<string>, maxncomp: nat, width: real): (m: map<string, seq<real>>)
    ensures forall n :: n in m <==> n in names
    ensures forall n :: n in m ==> |m[n]| == maxncomp && forall k :: 0 <= k < maxncomp ==> m[n][k] == width
  {
    map n | n in names :: seq(maxncomp, _ => width)
  }

  /**
   * The mask widths used: the keyword argument, else the configured table,
   * else the default table with the configured default width (1000 km/s
   * when none is configured).
   */
  function ResolveMaskWidths(kw: Option<map<string, seq<real>>>, configured: Option<map<string, seq<real>>>,
                             names: seq<string>, maxncomp: nat, defaultWidth: Option<real>)
    : (m: map<string, seq<real>>)
    ensures kw.Some? ==> m == kw.value
    ensures kw.None? && configured.Some? ==> m == configured.value
    ensures kw.None? && configured.None? ==> forall n :: n in m <==> n in names
    ensures kw.None? && configured.None? ==> forall n :: n in m ==>
      |m[n]| == maxncomp && forall k :: 0 <= k < maxncomp ==> m[n][k] == if defaultWidth.Some? then defaultWidth.value else 1000.0
  {
    if kw.Some? then kw.value
    else if configured.Some? then configured.value
    else DefaultMaskWidths(names, maxncomp, if defaultWidth.Some? then defaultWidth.value else 1000.0)
  }

  /** `s` with entries `from .. to - 1` replaced by `zero`. */
  function ZeroFrom<T>(s: seq<T>, from: nat, to: nat, zero: T): (r: seq<T>)
    ensures |r| == |s|
  {
    seq(|s|, k requires 0 <= k < |s| => if from <= k < to then zero else s[k])
  }

  /** Zeroing a range twice is zeroing it once. */
  lemma ZeroFromIdempotent<T>(s: seq<T>, from: nat, to: nat, zero: T)
    ensures ZeroFrom(ZeroFrom(s, from, to, zero), from, to, zero) == ZeroFrom(s, from, to, zero)
  {
  }

  /**
   * A per-line table after the zeroing loop over `lines`: every row of a
   * listed line has its entries `ncomp[line] .. maxncomp - 1` set to `zero`,
   * every other entry is unchanged.
   */
  function ZeroedRows<T>(m: map<string, seq<T>>, lines: seq<string>, ncomp: map<string, nat>, maxncomp: nat, zero: T)
    : (r: map<string, seq<T>>)
    ensures r.Keys == m.Keys
    ensures forall l :: l in m ==>
      |r[l]| == |m[l]| &&
      forall k :: 0 <= k < |m[l]| ==>
        r[l][k] == (if l in lines && l in ncomp && ncomp[l] <= k < maxncomp then zero else m[l][k])
  {
    map l | l in m :: if l in lines && l in ncomp then ZeroFrom(m[l], ncomp[l], maxncomp, zero) else m[l]
  }

  /** One more pass of the zeroing loop zeroes the next line's row, whether or not it was zeroed before. */
  lemma ZeroedRowsStep<T>(m: map<string, seq<T>>, lines: seq<string>, line: string, ncomp: map<string, nat>, maxncomp: nat, zero: T)
    requires line in m && line in ncomp
    ensures var before := ZeroedRows(m, lines, ncomp, maxncomp, zero);
      ZeroedRows(m, lines + [line], ncomp, maxncomp, zero)
        == before[line := ZeroFrom(before[line], ncomp[line], maxncomp, zero)]
  {
    var before := ZeroedRows(m, lines, ncomp, maxncomp, zero);
    if line in lines {
      ZeroFromIdempotent(m[line], ncomp[line], maxncomp, zero);
    }
  }

  /** A listed line whose components all count leaves the table as it is. */
  lemma ZeroedRowsFullLine<T>(m: map<string, seq<T>>, lines: seq<string>, line: string, ncomp: map<string, nat>, maxncomp: nat, zero: T)
    requires line in ncomp && maxncomp <= ncomp[line]
    ensures ZeroedRows(m, lines + [line], ncomp, maxncomp, zero) == ZeroedRows(m, lines, ncomp, maxncomp, zero)
  {
    var a := ZeroedRows(m, lines + [line], ncomp, maxncomp, zero);
    var b := ZeroedRows(m, lines, ncomp, maxncomp, zero);
    forall l | l in m ensures a[l] == b[l] {
      if l == line {
        assert ZeroFrom(m[line], ncomp[line], maxncomp, zero) == m[line];
      } else {
        assert (l in lines + [line]) == (l in lines);
      }
    }
    assert a.Keys == b.Keys;
  }

  /** The zeroing loop can run for a line: its keys exist and its rows reach `maxncomp`. */
  predicate Zeroable(widths: map<string, seq<real>>, linesz: map<string, seq<Ext>>, ncomp: map<string, nat>,
                     maxncomp: nat, l: string)
  {
    l in ncomp &&
    (ncomp[l] < maxncomp ==> l in widths && l in linesz && maxncomp <= |widths[l]| && maxncomp <= |linesz[l]|)
  }

  /** The mask widths and observed line wavelengths, per line and component, updated in place. */
  class LineMasks {
    var widths: map<string, seq<real>>
    var linesz: map<string, seq<Ext>>

    constructor (widths0: map<string, seq<real>>, linesz0: map<string, seq<Ext>>)
      ensures widths == widths0 && linesz == linesz0
    {
      widths := widths0;
      linesz := linesz0;
    }

    /** The inner loop: components `from .. to - 1` of one line get width 0 and wavelength 0. */
    method ZeroLine(line: string, from: nat, to: nat)
      requires from <= to
      requires line in widths && line in linesz && to <= |widths[line]| && to <= |linesz[line]|
      modifies this
      ensures widths == old(widths)[line := ZeroFrom(old(widths)[line], from, to, 0.0)]
      ensures linesz == old(linesz)[line := ZeroFrom(old(linesz)[line], from, to, Fin(0.0))]
    {
      ghost var w0, z0 := widths[line], linesz[line];
      assert ZeroFrom(w0, from, from, 0.0) == w0 && ZeroFrom(z0, from, from, Fin(0.0)) == z0;
      var comp := from;
      while comp < to
        invariant from <= comp <= to
        invariant widths == old(widths)[line := ZeroFrom(w0, from, comp, 0.0)]
        invariant linesz == old(linesz)[line := ZeroFrom(z0, from, comp, Fin(0.0))]
      {
        assert ZeroFrom(w0, from, comp, 0.0)[comp := 0.0] == ZeroFrom(w0, from, comp + 1, 0.0);
        assert ZeroFrom(z0, from, comp, Fin(0.0))[comp := Fin(0.0)] == ZeroFrom(z0, from, comp + 1, Fin(0.0));
        widths := widths[line := widths[line][comp := 0.0]];
        linesz := linesz[line := linesz[line][comp := Fin(0.0)]];
        comp := comp + 1;
      }
    }

    /**
     * For every line, components `ncomp[line] .. maxncomp - 1` get width 0 and
     * observed wavelength 0; lower components and other lines keep theirs.  A
     * missing key or a row past the end raises.
     */
    method ZeroUnusedComponents(lines: seq<string>, ncomp: map<string, nat>, maxncomp: nat)
      returns (err: Option<SpecError>)
      modifies this
      ensures err.None? <==> forall l :: l in lines ==> Zeroable(old(widths), old(linesz), ncomp, maxncomp, l)
      ensures err.None? ==> widths == ZeroedRows(old(widths), lines, ncomp, maxncomp, 0.0)
      ensures err.None? ==> linesz == ZeroedRows(old(linesz), lines, ncomp, maxncomp, Fin(0.0))
    {
      assert ZeroedRows(widths, [], ncomp, maxncomp, 0.0) == widths;
      assert ZeroedRows(linesz, [], ncomp, maxncomp, Fin(0.0)) == linesz;
      var li := 0;
      while li < |lines|
        invariant 0 <= li <= |lines|
        invariant forall l :: l in lines[..li] ==> Zeroable(old(widths), old(linesz), ncomp, maxncomp, l)
        invariant widths == ZeroedRows(old(widths), lines[..li], ncomp, maxncomp, 0.0)
        invariant linesz == ZeroedRows(old(linesz), lines[..li], ncomp, maxncomp, Fin(0.0))
      {
        var line := lines[li];
        assert lines[..li + 1] == lines[..li] + [line];
        assert line in lines;
        if line !in ncomp {
          return Some(MissingKey(line));
        }
        if ncomp[line] < maxncomp {
          if line !in widths || line !in linesz {
            assert !Zeroable(old(widths), old(linesz), ncomp, maxncomp, line);
            return Some(MissingKey(line));
          }
          if |widths[line]| < maxncomp || |linesz[line]| < maxncomp {
            assert !Zeroable(old(widths), old(linesz), ncomp, maxncomp, line);
            return Some(MissingIndex(line));
          }
          ZeroedRowsStep(old(widths), lines[..li], line, ncomp, maxncomp, 0.0);
          ZeroedRowsStep(old(linesz), lines[..li], line, ncomp, maxncomp, Fin(0.0));
          ZeroLine(line, ncomp[line], maxncomp);
        } else {
          ZeroedRowsFullLine(old(widths), lines[..li], line, ncomp, maxncomp, 0.0);
          ZeroedRowsFullLine(old(linesz), lines[..li], line, ncomp, maxncomp, Fin(0.0));
        }
        li := li + 1;
      }
      assert lines[..li] == lines;
      err := None;
    }
  }

  // ---------------------------------------------------------------------
  // Continuum pixels

  /**
   * `ct_indx`: the pixels the masking routine leaves for the continuum, or all
   * pixels when lines are not masked, intersected with the good pixels.
   */
  function ContinuumIndices(noemlinmask: bool, unmasked: set<int>, n: nat, gd: set<int>): (ct: set<int>)
    ensures ct <= gd
    ensures forall j :: j in ct <==> j in gd && (if noemlinmask then 0 <= j < n else j in unmasked)
  {
    (if noemlinmask then PixelSelection.AllIndices(n) else unmasked) * gd
  }

  /** The continuum pixels address good samples of the restricted spectrum. */
  lemma ContinuumPixelsAreGood(s: PixelSelection.Spectrum, templateWave: seq<real>, fitran: Option<PixelSelection.Range>,
                               noemlinmask: bool, unmasked: set<int>, j: int)
    requires s.WellFormed() && PixelSelection.Increasing(s.wave)
    requires PixelSelection.SelectWindow(s, templateWave, fitran).Ok?
    requires var w := PixelSelection.SelectWindow(s, templateWave, fitran).value;
      j in ContinuumIndices(noemlinmask, unmasked, |w.fitranIndx|, w.gdIndx)
    ensures var w := PixelSelection.SelectWindow(s, templateWave, fitran).value;
      0 <= j < |w.fitranIndx| && w.fitranIndx[j] in w.gdIndxFull
  {
    PixelSelection.GoodIndicesAddressWindow(s, templateWave, fitran);
  }

  /**
   * The masking step: resolve nothing further, zero the unused components,
   * then let the masking routine (a parameter here) see the zeroed widths and
   * wavelengths, in linear and in log space.  Without line masking every
   * good pixel is a continuum pixel.
   */
  method MaskContinuum(masks: LineMasks, noemlinmask: bool, lines: seq<string>, ncomp: map<string, nat>, maxncomp: nat,
                       masklin: (map<string, seq<Ext>>, map<string, seq<real>>) -> set<int>,
                       masklinLog: (map<string, seq<Ext>>, map<string, seq<real>>) -> set<int>,
                       gd: set<int>, n: nat, gdLog: set<int>, nLog: nat)
    returns (r: Result<(set<int>, set<int>), SpecError>)
    modifies masks
    ensures noemlinmask ==> r == Ok((ContinuumIndices(true, {}, n, gd), ContinuumIndices(true, {}, nLog, gdLog)))
    ensures noemlinmask ==> masks.widths == old(masks.widths) && masks.linesz == old(masks.linesz)
    ensures !noemlinmask ==>
      (r.Ok? <==> forall l :: l in lines ==> Zeroable(old(masks.widths), old(masks.linesz), ncomp, maxncomp, l))
    ensures !noemlinmask && r.Ok? ==>
      r.value == (ContinuumIndices(false, masklin(masks.linesz, masks.widths), n, gd),
                  ContinuumIndices(false, masklinLog(masks.linesz, masks.widths), nLog, gdLog))
    ensures r.Ok? ==> r.value.0 <= gd && r.value.1 <= gdLog
  {
    if noemlinmask {
      return Ok((ContinuumIndices(true, {}, n, gd), ContinuumIndices(true, {}, nLog, gdLog)));
    }
    var err := masks.ZeroUnusedComponents(lines, ncomp, maxncomp);
    if err.Some? {
      return Err(err.value);
    }
    var ct := masklin(masks.linesz, masks.widths);
    var ctLog := masklinLog(masks.linesz, masks.widths);
    r := Ok((ContinuumIndices(false, ct, n, gd), ContinuumIndices(false, ctLog, nLog, gdLog)));
  }

  // ---------------------------------------------------------------------
  // Continuum strategy

  /** The `argscontfit` entries the dispatch reads. */
  datatype ContArgs = ContArgs(refit: Option<string>, addPolyDegree: Option<int>)

  datatype ContinuumPlan =
    | NoContinuumFit
    | CallFunction(name: string, passTemplate: bool, passFitran: bool, passLogArrays: bool)
    | RunPpxf(polyDegree: int)
    | NoStrategy   // the `else` branch: only the diagnostics are assigned, `continuum` never is

  /**
   * Any `fcncontfit` other than `'ppxf'` calls the function of that name; it
   * gets the template unless it is `questfit` or there is none, the fit range
   * when it is `fitqsohost`, and the log arrays when it refits with ppxf.
   * `'ppxf'` runs only with a template and `siginit_stars`; otherwise the
   * dispatch falls through to a branch that assigns no continuum.
   */
  function PlanContinuum(fcncontfit: Option<string>, istemp: bool, siginitStars: bool, args: Option<ContArgs>)
    : (p: ContinuumPlan)
    ensures p.NoContinuumFit? <==> fcncontfit.None?
    ensures p.CallFunction? <==> fcncontfit.Some? && fcncontfit.value != "ppxf"
    ensures p.RunPpxf? <==> fcncontfit == Some("ppxf") && istemp && siginitStars
    ensures p.NoStrategy? <==> fcncontfit == Some("ppxf") && !(istemp && siginitStars)
    ensures p.CallFunction? ==>
      && p.name == fcncontfit.value
      && (p.passTemplate <==> istemp && p.name != "questfit")
      && (p.passFitran <==> p.name == "fitqsohost")
      && (p.passLogArrays <==> args.Some? && args.value.refit == Some("ppxf"))
    ensures p.RunPpxf? && (args.None? || args.value.addPolyDegree.None?) ==> p.polyDegree == 4
    ensures p.RunPpxf? && args.Some? && args.value.addPolyDegree.Some? ==> p.polyDegree == args.value.addPolyDegree.value
  {
    match fcncontfit
    case None => NoContinuumFit
    case Some(name) =>
      if name != "ppxf" then
        CallFunction(name, istemp && name != "questfit", name == "fitqsohost",
                     args.Some? && args.value.refit == Some("ppxf"))
      else if istemp && siginitStars then
        RunPpxf(if args.Some? && args.value.addPolyDegree.Some? then args.value.addPolyDegree.value else 4)
      else NoStrategy
  }

  /** The polynomial weights: the scalar 0 or ppxf's array. */
  datatype PolyWeights = ZeroWeights | Weights(w: seq<real>)

  /** What ppxf reports back (its redshift update is not modelled). */
  datatype PpxfOutput = PpxfOutput(polyWeights: seq<real>, chi2: real, sigma: real, sigmaErr: real)

  datatype ContinuumStats = ContinuumStats(polyWeights: PolyWeights, rchisq: real, sigma: real, sigmaErr: real)

  /** The diagnostics each strategy leaves; `refitSigma` is `ct_coeff['ppxf_sigma']` of the called function. */
  function Stats(p: ContinuumPlan, refitSigma: real, pp: PpxfOutput): ContinuumStats {
    match p
    case CallFunction(_, _, _, logArrays) => ContinuumStats(ZeroWeights, 0.0, if logArrays then refitSigma else 0.0, 0.0)
    case RunPpxf(_) => ContinuumStats(Weights(pp.polyWeights), pp.chi2, pp.sigma, pp.sigmaErr)
    case _ => ContinuumStats(ZeroWeights, 0.0, 0.0, 0.0)
  }

  /**
   * Unless ppxf itself runs, the reduced chi-square, the sigma error and the
   * polynomial weights are 0, and the sigma is 0 unless the called function
   * refitted with ppxf.
   */
  lemma StatsZeroUnlessPpxf(fcncontfit: Option<string>, istemp: bool, siginitStars: bool, args: Option<ContArgs>,
                            refitSigma: real, pp: PpxfOutput)
    ensures var p := PlanContinuum(fcncontfit, istemp, siginitStars, args);
      var st := Stats(p, refitSigma, pp);
      && (!p.RunPpxf? ==> st.polyWeights == ZeroWeights && st.rchisq == 0.0 && st.sigmaErr == 0.0)
      && (!p.RunPpxf? && !(fcncontfit.Some? && fcncontfit.value != "ppxf" && args.Some? && args.value.refit == Some("ppxf")) ==>
            st.sigma == 0.0)
      && (p.RunPpxf? ==> st == ContinuumStats(Weights(pp.polyWeights), pp.chi2, pp.sigma, pp.sigmaErr))
      && (p.NoStrategy? ==> ChooseContinuum(fcncontfit, istemp, siginitStars, args).Err?)
  {
  }

  /**
   * The dispatch as evidently intended: a `'ppxf'` continuum without a
   * template fails fast with MissingRequiredTemplate, and one with a
   * template but no `siginit_stars` fails with the KeyError that reading the
   * starting dispersion raises; every other choice is the plan as written.
   */
  function ChooseContinuum(fcncontfit: Option<string>, istemp: bool, siginitStars: bool, args: Option<ContArgs>)
    : (r: Result<ContinuumPlan, SpecError>)
    ensures r.Err? <==> fcncontfit == Some("ppxf") && !(istemp && siginitStars)
    ensures fcncontfit == Some("ppxf") && !istemp ==> r == Err(MissingRequiredTemplate)
    ensures fcncontfit == Some("ppxf") && istemp && !siginitStars ==> r == Err(MissingKey("siginit_stars"))
    ensures r.Ok? ==> r.value == PlanContinuum(fcncontfit, istemp, siginitStars, args) && !r.value.NoStrategy?
  {
    var p := PlanContinuum(fcncontfit, istemp, siginitStars, args);
    if !p.NoStrategy? then Ok(p)
    else if !istemp then Err(MissingRequiredTemplate)
    else Err(MissingKey("siginit_stars"))
  }

  // ---------------------------------------------------------------------
  // The residual handed to the line fit

  /** Element-wise `a - b`. */
  function SubEach(a: seq<Ext>, b: seq<Ext>): (r: seq<Ext>)
    requires |b| == |a|
    ensures |r| == |a| && forall k :: 0 <= k < |a| ==> r[k] == Sub(a[k], b[k])
  {
    seq(|a|, k requires 0 <= k < |a| => Sub(a[k], b[k]))
  }

  /** Element-wise `a / b - 1`. */
  function DivideEach(a: seq<Ext>, b: seq<Ext>): (r: seq<Ext>)
    requires |b| == |a|
    ensures |r| == |a| && forall k :: 0 <= k < |a| ==> r[k] == Sub(Div(a[k], b[k]), Fin(1.0))
  {
    seq(|a|, k requires 0 <= k < |a| => Sub(Div(a[k], b[k]), Fin(1.0)))
  }

  /** Element-wise `iv * c**2`. */
  function ScaleInvvar(iv: seq<Ext>, c: seq<Ext>): (r: seq<Ext>)
    requires |c| == |iv|
    ensures |r| == |iv| && forall k :: 0 <= k < |iv| ==> r[k] == Mul(iv[k], Mul(c[k], c[k]))
  {
    seq(|iv|, k requires 0 <= k < |iv| => Mul(iv[k], Mul(c[k], c[k])))
  }

  /** `method`, `gdflux_nocnt` and `gdinvvar_nocnt` as the code leaves them; `None` is a name never assigned. */
  datatype ResidualAsWritten = ResidualAsWritten(kind: Option<string>, flux: Option<seq<Ext>>, invvar: Option<seq<Ext>>)

  datatype Residual = Residual(kind: string, flux: seq<Ext>, invvar: seq<Ext>)

  /**
   * The residual as written, after the continuum plan `p` ran: a plan that
   * assigned no continuum raises at `continuum_pretweak = continuum` before
   * any of the three names is assigned, the tweak branch assigns none of
   * them, and the branch without a continuum fit never assigns the inverse
   * variance.
   */
  function ContinuumResidualAsWritten(p: ContinuumPlan, tweak: bool, divide: bool,
                                      flux: seq<Ext>, invvar: seq<Ext>, cont: seq<Ext>): ResidualAsWritten
    requires |invvar| == |flux| && |cont| == |flux|
  {
    if p.NoContinuumFit? then ResidualAsWritten(Some("NO CONTINUUM FIT"), Some(flux), None)
    else if p.NoStrategy? || tweak then ResidualAsWritten(None, None, None)
    else if divide then ResidualAsWritten(Some("CONTINUUM DIVIDED"), Some(DivideEach(flux, cont)), Some(ScaleInvvar(invvar, cont)))
    else ResidualAsWritten(Some("CONTINUUM SUBTRACTED"), Some(SubEach(flux, cont)), Some(invvar))
  }

  /** `fitspec` as written raises `NameError` when the output or the line fit reads an unassigned name. */
  predicate RaisesAsWritten(r: ResidualAsWritten, noemlinfit: bool) {
    r.kind.None? || (!noemlinfit && (r.flux.None? || r.invvar.None?))
  }

  /** With `tweakcntfit` configured, every call with a continuum fit raises. */
  lemma TweakAlwaysRaisesAsWritten(p: ContinuumPlan, divide: bool, noemlinfit: bool, flux: seq<Ext>, invvar: seq<Ext>, cont: seq<Ext>)
    requires |invvar| == |flux| && |cont| == |flux| && !p.NoContinuumFit?
    ensures RaisesAsWritten(ContinuumResidualAsWritten(p, true, divide, flux, invvar, cont), noemlinfit)
  {
  }

  /**
   * A `'ppxf'` continuum without a template or without `siginit_stars`
   * always raises: the branch it falls into assigns no continuum.
   */
  lemma NoStrategyRaisesAsWritten(istemp: bool, siginitStars: bool, args: Option<ContArgs>, tweak: bool, divide: bool,
                                  noemlinfit: bool, flux: seq<Ext>, invvar: seq<Ext>, cont: seq<Ext>)
    requires |invvar| == |flux| && |cont| == |flux| && !(istemp && siginitStars)
    ensures RaisesAsWritten(ContinuumResidualAsWritten(PlanContinuum(Some("ppxf"), istemp, siginitStars, args),
                                                       tweak, divide, flux, invvar, cont), noemlinfit)
  {
  }

  /** Every plan the corrected dispatch accepts assigns a continuum, so without a tweak the residual is formed. */
  lemma ChosenPlanFormsResidual(fcncontfit: Option<string>, istemp: bool, siginitStars: bool, args: Option<ContArgs>,
                                divide: bool, flux: seq<Ext>, invvar: seq<Ext>, cont: seq<Ext>)
    requires |invvar| == |flux| && |cont| == |flux|
    requires ChooseContinuum(fcncontfit, istemp, siginitStars, args).Ok?
    ensures var w := ContinuumResidualAsWritten(ChooseContinuum(fcncontfit, istemp, siginitStars, args).value,
                                                false, divide, flux, invvar, cont);
      w.kind.Some? && w.flux.Some?
  {
  }

  /** Without a continuum fit, a line fit raises: the fit weights read `gdinvvar_nocnt`. */
  lemma NoContinuumLineFitRaisesAsWritten(flux: seq<Ext>, invvar: seq<Ext>, cont: seq<Ext>)
    requires |invvar| == |flux| && |cont| == |flux|
    ensures RaisesAsWritten(ContinuumResidualAsWritten(NoContinuumFit, false, false, flux, invvar, cont), false)
  {
  }

  /**
   * The residual as evidently intended: the placeholder tweak loop leaves the
   * continuum as fitted, so the residual is formed as without it, and without
   * a continuum fit the inverse variance is the data's own.
   */
  function ContinuumResidual(contfit: bool, divide: bool, flux: seq<Ext>, invvar: seq<Ext>, cont: seq<Ext>): (r: Residual)
    requires |invvar| == |flux| && |cont| == |flux|
    ensures |r.flux| == |flux| && |r.invvar| == |flux|
  {
    if !contfit then Residual("NO CONTINUUM FIT", flux, invvar)
    else if divide then Residual("CONTINUUM DIVIDED", DivideEach(flux, cont), ScaleInvvar(invvar, cont))
    else Residual("CONTINUUM SUBTRACTED", SubEach(flux, cont), invvar)
  }

  /** Wherever the code as written assigns a name, the corrected residual has the same value. */
  lemma ResidualAgreesWhereAssigned(p: ContinuumPlan, tweak: bool, divide: bool, flux: seq<Ext>, invvar: seq<Ext>, cont: seq<Ext>)
    requires |invvar| == |flux| && |cont| == |flux|
    ensures var w := ContinuumResidualAsWritten(p, tweak, divide, flux, invvar, cont);
      var r := ContinuumResidual(!p.NoContinuumFit?, divide, flux, invvar, cont);
      && (w.kind.Some? ==> w.kind.value == r.kind)
      && (w.flux.Some? ==> w.flux.value == r.flux)
      && (w.invvar.Some? ==> w.invvar.value == r.invvar)
  {
  }

  /** Adding the continuum back to a finite subtracted residual gives the data. */
  lemma SubtractedResidualRestores(flux: seq<Ext>, invvar: seq<Ext>, cont: seq<Ext>, k: nat)
    requires |invvar| == |flux| && |cont| == |flux| && k < |flux|
    requires flux[k].Fin? && cont[k].Fin?
    ensures Add(ContinuumResidual(true, false, flux, invvar, cont).flux[k], cont[k]) == flux[k]
  {
  }

  /** Multiplying a finite divided residual plus one by a nonzero continuum gives the data. */
  lemma DividedResidualRestores(flux: seq<Ext>, invvar: seq<Ext>, cont: seq<Ext>, k: nat)
    requires |invvar| == |flux| && |cont| == |flux| && k < |flux|
    requires flux[k].Fin? && cont[k].Fin? && cont[k].v != 0.0
    ensures Mul(Add(ContinuumResidual(true, true, flux, invvar, cont).flux[k], Fin(1.0)), cont[k]) == flux[k]
  {
    var f := flux[k].v;
    var c := cont[k].v;
    assert (f / c - 1.0 + 1.0) * c == f;
  }

  /** A sample masked as NaN stays NaN in the residual and its weight, so the line fit omits it. */
  lemma MaskedSamplesStayMasked(contfit: bool, divide: bool, flux: seq<Ext>, invvar: seq<Ext>, cont: seq<Ext>, k: nat)
    requires |invvar| == |flux| && |cont| == |flux| && k < |flux|
    requires flux[k].NaN? && invvar[k].NaN?
    ensures ContinuumResidual(contfit, divide, flux, invvar, cont).flux[k].NaN?
    ensures ContinuumResidual(contfit, divide, flux, invvar, cont).invvar[k].NaN?
  {
  }

  // ---------------------------------------------------------------------
  // Initial guesses

  /** `np.where(x < 0., 0., x)`: NaN is kept. */
  function ClampNegative(x: Ext): (r: Ext)
    ensures !LtZero(r)
    ensures LtZero(x) ==> r == Fin(0.0)
    ensures !LtZero(x) ==> r == x
  {
    if LtZero(x) then Fin(0.0) else x
  }

  /** The data range test on a line's first component (false for NaN). */
  predicate InRange(x: Ext, lo: real, hi: real) {
    x.Fin? && lo <= x.v <= hi
  }

  /** `s[0:n]` */
  function SliceTo<T>(s: seq<T>, n: int): (r: seq<T>)
    ensures |r| <= |s|
    ensures n >= 0 ==> |r| == if n < |s| then n else |s|
    ensures forall k :: 0 <= k < |r| ==> r[k] == s[k]
  {
    if n >= |s| then s
    else if n >= 0 then s[..n]
    else if |s| + n >= 0 then s[..|s| + n]
    else []
  }

  /** `interp1d` rejects a finite or infinite point outside the data range; NaN passes through. */
  predicate Interpolable(x: Ext, lo: real, hi: real) {
    x.NaN? || InRange(x, lo, hi)
  }

  /** The linear interpolant of the residual at one point. */
  function Interpolate(x: Ext, fline: real -> Ext): Ext {
    if x.Fin? then fline(x.v) else NaN
  }

  /** `np.zeros(n)` */
  function Zeros(n: nat): (r: seq<Ext>)
    ensures |r| == n && forall k :: 0 <= k < n ==> r[k] == Fin(0.0)
  {
    seq(n, _ => Fin(0.0))
  }

  /**
   * The initial peak guesses of one line: the clamped residual at its first
   * `ncomp` observed wavelengths when the first lies in the data range
   * (every one of them must then be inside it), zeros for every possible
   * component otherwise.
   */
  function PeakGuess(line: string, z: seq<Ext>, nc: nat, maxncomp: nat, lo: real, hi: real, fline: real -> Ext)
    : (r: Result<seq<Ext>, SpecError>)
    ensures |z| == 0 ==> r == Err(MissingIndex(line))
    ensures |z| > 0 && !InRange(z[0], lo, hi) ==> r == Ok(Zeros(maxncomp))
    ensures |z| > 0 && InRange(z[0], lo, hi) ==>
      (r.Ok? <==> forall k :: 0 <= k < |SliceTo(z, nc)| ==> Interpolable(SliceTo(z, nc)[k], lo, hi))
    ensures r.Ok? ==> forall k :: 0 <= k < |r.value| ==> !LtZero(r.value[k])
    ensures r.Ok? && InRange(z[0], lo, hi) ==>
      |r.value| == |SliceTo(z, nc)| &&
      forall k :: 0 <= k < |r.value| ==> r.value[k] == ClampNegative(Interpolate(z[k], fline))
  {
    if |z| == 0 then Err(MissingIndex(line))
    else if !InRange(z[0], lo, hi) then Ok(Zeros(maxncomp))
    else
      var xs := SliceTo(z, nc);
      if exists k :: 0 <= k < |xs| && !Interpolable(xs[k], lo, hi) then Err(OutOfInterpolationRange(line))
      else Ok(seq(|xs|, k requires 0 <= k < |xs| => ClampNegative(Interpolate(xs[k], fline))))
  }

  /** The guesses of every configured line, in the configured order; a missing key raises. */
  function ComputedPeaks(lines: seq<string>, linesz: map<string, seq<Ext>>, ncomp: map<string, nat>, maxncomp: nat,
                         lo: real, hi: real, fline: real -> Ext): (r: Result<map<string, seq<Ext>>, SpecError>)
    ensures r.Ok? ==> forall l :: l in r.value <==> l in lines
  {
    if |lines| == 0 then Ok(map[])
    else
      var p := ComputedPeaks(lines[..|lines| - 1], linesz, ncomp, maxncomp, lo, hi, fline);
      var line := lines[|lines| - 1];
      assert forall l :: l in lines <==> l in lines[..|lines| - 1] || l == line;
      if p.Err? then p
      else if line !in linesz then Err(MissingKey(line))
      else if |linesz[line]| > 0 && InRange(linesz[line][0], lo, hi) && line !in ncomp then Err(MissingKey(line))
      else
        var g := PeakGuess(line, linesz[line], if line in ncomp then ncomp[line] else 0, maxncomp, lo, hi, fline);
        if g.Err? then Err(g.error) else Ok(p.value[line := g.value])
  }

  /** Every computed guess is the line's own guess, and none is negative. */
  lemma {:induction false} ComputedPeaksNonNegative(lines: seq<string>, linesz: map<string, seq<Ext>>, ncomp: map<string, nat>,
                                                    maxncomp: nat, lo: real, hi: real, fline: real -> Ext, l: string)
    requires ComputedPeaks(lines, linesz, ncomp, maxncomp, lo, hi, fline).Ok?
    requires l in lines
    ensures l in linesz
    ensures var g := PeakGuess(l, linesz[l], if l in ncomp then ncomp[l] else 0, maxncomp, lo, hi, fline);
      g.Ok? && ComputedPeaks(lines, linesz, ncomp, maxncomp, lo, hi, fline).value[l] == g.value
    ensures forall k :: 0 <= k < |ComputedPeaks(lines, linesz, ncomp, maxncomp, lo, hi, fline).value[l]| ==>
      !LtZero(ComputedPeaks(lines, linesz, ncomp, maxncomp, lo, hi, fline).value[l][k])
    decreases |lines|
  {
    var p := lines[..|lines| - 1];
    var line := lines[|lines| - 1];
    assert lines == p + [line];
    if l != line {
      ComputedPeaksNonNegative(p, linesz, ncomp, maxncomp, lo, hi, fline, l);
    }
  }

  /** A failing line ends the loop with its exception. */
  lemma {:induction false} ComputedPeaksFailureSticks(lines: seq<string>, linesz: map<string, seq<Ext>>, ncomp: map<string, nat>,
                                                      maxncomp: nat, lo: real, hi: real, fline: real -> Ext, j: nat)
    requires j <= |lines| && ComputedPeaks(lines[..j], linesz, ncomp, maxncomp, lo, hi, fline).Err?
    ensures ComputedPeaks(lines, linesz, ncomp, maxncomp, lo, hi, fline) == ComputedPeaks(lines[..j], linesz, ncomp, maxncomp, lo, hi, fline)
    decreases |lines|
  {
    if j < |lines| {
      var p := lines[..|lines| - 1];
      assert p[..j] == lines[..j];
      ComputedPeaksFailureSticks(p, linesz, ncomp, maxncomp, lo, hi, fline, j);
    } else {
      assert lines[..j] == lines;
    }
  }

  /**
   * `peakinit`: the keyword argument, else the configured guesses, else the
   * loop that interpolates the residual at each line.
   */
  method InitialPeaks(kw: Option<map<string, seq<Ext>>>, configured: Option<map<string, seq<Ext>>>,
                      lines: seq<string>, linesz: map<string, seq<Ext>>, ncomp: map<string, nat>, maxncomp: nat,
                      lo: real, hi: real, fline: real -> Ext)
    returns (r: Result<map<string, seq<Ext>>, SpecError>)
    ensures kw.Some? ==> r == Ok(kw.value)
    ensures kw.None? && configured.Some? ==> r == Ok(configured.value)
    ensures kw.None? && configured.None? ==> r == ComputedPeaks(lines, linesz, ncomp, maxncomp, lo, hi, fline)
  {
    if kw.Some? {
      return Ok(kw.value);
    }
    if configured.Some? {
      return Ok(configured.value);
    }
    var peaks: map<string, seq<Ext>> := map[];
    var i := 0;
    while i < |lines|
      invariant 0 <= i <= |lines|
      invariant ComputedPeaks(lines[..i], linesz, ncomp, maxncomp, lo, hi, fline) == Ok(peaks)
    {
      var line := lines[i];
      assert lines[..i + 1][..i] == lines[..i];
      if line !in linesz {
        ComputedPeaksFailureSticks(lines, linesz, ncomp, maxncomp, lo, hi, fline, i + 1);
        return Err(MissingKey(line));
      }
      var z := linesz[line];
      var nc := 0;
      if |z| > 0 && InRange(z[0], lo, hi) {
        if line !in ncomp {
          ComputedPeaksFailureSticks(lines, linesz, ncomp, maxncomp, lo, hi, fline, i + 1);
          return Err(MissingKey(line));
        }
        nc := ncomp[line];
      } else if line in ncomp {
        nc := ncomp[line];
      }
      var g := PeakGuess(line, z, nc, maxncomp, lo, hi, fline);
      if g.Err? {
        ComputedPeaksFailureSticks(lines, linesz, ncomp, maxncomp, lo, hi, fline, i + 1);
        return Err(g.error);
      }
      peaks := peaks[line := g.value];
      i := i + 1;
    }
    assert lines[..i] == lines;
    r := Ok(peaks);
  }

  /** `siginit_gas`: the given widths, else 100 km/s for every possible component of every line. */
  function SigInitGas(given: Option<map<string, seq<real>>>, lines: seq<string>, maxncomp: nat): (r: map<string, seq<real>>)
    ensures given.Some? ==> r == given.value
    ensures given.None? ==> forall l :: l in r <==> l in lines
    ensures given.None? ==> forall l :: l in r ==> |r[l]| == maxncomp && forall k :: 0 <= k < maxncomp ==> r[l][k] == 100.0
  {
    if given.Some? then given.value else map l | l in lines :: seq(maxncomp, _ => 100.0)
  }

  // ---------------------------------------------------------------------
  // The width limits passed to the parameter builder

  /**
   * The `siglim` argument as written: the test is on a string literal, which
   * is never None, so the keyword always replaces a configured `siglim`,
   * with None when no `siglim_gas` was given.
   */
  function SiglimArgumentAsWritten(configured: Option<(real, real)>, siglimGas: Option<(real, real)>): Option<(real, real)> {
    siglimGas
  }

  /** A configured `siglim` is dropped for the default whenever `siglim_gas` is not given. */
  lemma ConfiguredSiglimDroppedAsWritten()
    ensures ParInit.EffectiveSiglim(SiglimArgumentAsWritten(Some((10.0, 800.0)), None)) == (5.0, 2000.0)
    ensures ParInit.EffectiveSiglim(SiglimArgument(Some((10.0, 800.0)), None)) == (10.0, 800.0)
  {
  }

  /** The `siglim` argument as intended: `siglim_gas` when given, else whatever was configured. */
  function SiglimArgument(configured: Option<(real, real)>, siglimGas: Option<(real, real)>): (r: Option<(real, real)>)
    ensures siglimGas.Some? ==> r == siglimGas
    ensures siglimGas.None? ==> r == configured
  {
    if siglimGas.Some? then siglimGas else configured
  }

  /** The limits the line fit finally uses: `siglim_gas`, else the configured ones, else [5, 2000]. */
  lemma EffectiveWidthLimits(configured: Option<(real, real)>, siglimGas: Option<(real, real)>)
    ensures var r := ParInit.EffectiveSiglim(SiglimArgument(configured, siglimGas));
      && (siglimGas.Some? ==> r == siglimGas.value)
      && (siglimGas.None? && configured.Some? ==> r == configured.value)
      && (siglimGas.None? && configured.None? ==> r == (5.0, 2000.0))
  {
  }
}
