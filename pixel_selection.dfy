/**
 * Pixel selection in `fitspec`: the good-pixel index set over the full
 * spectrum, the actual fit range and its index window, the re-based good
 * indices, and the replacement of invalid samples in the restricted linear
 * arrays (NaN) and in the log-rebinned arrays (the finite marker `Bad`).
 */
module PixelSelection {
  import opened Wrappers
  import opened Floats

  datatype FitError =
    | EmptySpectrum      // `wlambda[0]` on an empty spectrum
    | EmptyTemplate      // `min()` of an empty template wavelength array
    | EmptyFitDomain     // `np.min` over an empty good-pixel set

  /** One spectrum: observed wavelengths, fluxes, errors and data-quality flags. */
  datatype Spectrum = Spectrum(wave: seq<real>, flux: seq<Ext>, err: seq<Ext>, dq: seq<int>) {
    predicate WellFormed() {
      |flux| == |wave| && |err| == |wave| && |dq| == |wave|
    }
  }

  predicate Increasing(wave: seq<real>) {
    forall i, j :: 0 <= i < j < |wave| ==> wave[i] < wave[j]
  }

  /** A closed wavelength interval `[lo, hi]`. */
  datatype Range = Range(lo: real, hi: real) {
    predicate Has(w: real) { lo <= w && w <= hi }
  }

  function SeqMin(xs: seq<real>): (m: real)
    requires |xs| > 0
    ensures m in xs && forall i :: 0 <= i < |xs| ==> m <= xs[i]
  {
    if |xs| == 1 then xs[0]
    else
      var m := SeqMin(xs[1..]);
      assert forall i :: 1 <= i < |xs| ==> xs[i] == xs[1..][i - 1];
      if xs[0] <= m then xs[0] else m
  }

  function SeqMax(xs: seq<real>): (m: real)
    requires |xs| > 0
    ensures m in xs && forall i :: 0 <= i < |xs| ==> xs[i] <= m
  {
    if |xs| == 1 then xs[0]
    else
      var m := SeqMax(xs[1..]);
      assert forall i :: 1 <= i < |xs| ==> xs[i] == xs[1..][i - 1];
      if xs[0] >= m then xs[0] else m
  }

  /** `fitran_tmp`: the configured fit range, or the first and last wavelength. */
  function RequestedRange(wave: seq<real>, fitran: Option<Range>): (r: Result<Range, FitError>)
    ensures fitran.Some? ==> r == Ok(fitran.value)
    ensures fitran.None? && |wave| > 0 ==> r == Ok(Range(wave[0], wave[|wave| - 1]))
    ensures r.Err? <==> fitran.None? && |wave| == 0
  {
    if fitran.Some? then Ok(fitran.value)
    else if |wave| == 0 then Err(EmptySpectrum)
    else Ok(Range(wave[0], wave[|wave| - 1]))
  }

  /** `[min(templatelambdaz), max(templatelambdaz)]` */
  function TemplateRange(templateWave: seq<real>): (r: Result<Range, FitError>)
    ensures r.Err? <==> |templateWave| == 0
    ensures r.Ok? ==> forall w :: w in templateWave ==> r.value.Has(w)
    ensures r.Ok? ==> r.value.lo in templateWave && r.value.hi in templateWave
  {
    if |templateWave| == 0 then Err(EmptyTemplate)
    else Ok(Range(SeqMin(templateWave), SeqMax(templateWave)))
  }

  /** The six validity tests of one pixel of the full spectrum. */
  predicate GoodPixel(s: Spectrum, i: int, template: Range, requested: Range)
    requires s.WellFormed() && 0 <= i < |s.wave|
  {
    && NeZero(s.flux[i]) && GtZero(s.err[i])
    && IsFinite(s.flux[i]) && IsFinite(s.err[i])
    && s.dq[i] == 0
    && template.Has(s.wave[i]) && requested.Has(s.wave[i])
  }

  /** `gd_indx_full`: the intersection of the nine index sets `gd_indx_1` .. `gd_indx_9`. */
  function GoodIndexSet(s: Spectrum, template: Range, requested: Range): (gd: set<int>)
    requires s.WellFormed()
    ensures forall i :: i in gd <==> 0 <= i < |s.wave| && GoodPixel(s, i, template, requested)
  {
    var n := |s.wave|;
    var gd1 := set i | 0 <= i < n && NeZero(s.flux[i]);
    var gd2 := set i | 0 <= i < n && GtZero(s.err[i]);
    var gd3 := set i | 0 <= i < n && IsFinite(s.flux[i]);
    var gd4 := set i | 0 <= i < n && IsFinite(s.err[i]);
    var gd5 := set i | 0 <= i < n && s.dq[i] == 0;
    var gd6 := set i | 0 <= i < n && s.wave[i] >= template.lo;
    var gd7 := set i | 0 <= i < n && s.wave[i] <= template.hi;
    var gd8 := set i | 0 <= i < n && s.wave[i] >= requested.lo;
    var gd9 := set i | 0 <= i < n && s.wave[i] <= requested.hi;
    gd1 * gd2 * gd3 * gd4 * gd5 * gd6 * gd7 * gd8 * gd9
  }

  /** The smallest wavelength among the indices of `idx` below `n`, if any. */
  function MinWaveOver(wave: seq<real>, idx: set<int>, n: nat): (r: Option<real>)
    requires n <= |wave|
    ensures r.None? <==> forall i :: 0 <= i < n ==> i !in idx
    ensures r.Some? ==> exists i :: 0 <= i < n && i in idx && wave[i] == r.value
    ensures r.Some? ==> forall i :: 0 <= i < n && i in idx ==> r.value <= wave[i]
  {
    if n == 0 then None
    else
      var m := MinWaveOver(wave, idx, n - 1);
      if n - 1 !in idx then m
      else if m.None? || wave[n - 1] < m.value then Some(wave[n - 1])
      else m
  }

  /** The largest wavelength among the indices of `idx` below `n`, if any. */
  function MaxWaveOver(wave: seq<real>, idx: set<int>, n: nat): (r: Option<real>)
    requires n <= |wave|
    ensures r.None? <==> forall i :: 0 <= i < n ==> i !in idx
    ensures r.Some? ==> exists i :: 0 <= i < n && i in idx && wave[i] == r.value
    ensures r.Some? ==> forall i :: 0 <= i < n && i in idx ==> wave[i] <= r.value
  {
    if n == 0 then None
    else
      var m := MaxWaveOver(wave, idx, n - 1);
      if n - 1 !in idx then m
      else if m.None? || wave[n - 1] > m.value then Some(wave[n - 1])
      else m
  }

  /** `fitran`: the actual fit range, from the bluest to the reddest good pixel. */
  function FitRange(wave: seq<real>, gd: set<int>): (r: Result<Range, FitError>)
    requires forall i :: i in gd ==> 0 <= i < |wave|
    ensures r.Err? <==> gd == {}
    ensures r.Ok? ==> r.value.lo <= r.value.hi
    ensures r.Ok? ==> forall i :: i in gd ==> r.value.Has(wave[i])
    ensures r.Ok? ==> (exists i :: i in gd && wave[i] == r.value.lo) && (exists i :: i in gd && wave[i] == r.value.hi)
  {
    var lo := MinWaveOver(wave, gd, |wave|);
    var hi := MaxWaveOver(wave, gd, |wave|);
    if lo.None? then
      assert gd == {} by {
        assert forall i :: i !in gd;
      }
      Err(EmptyFitDomain)
    else
      Ok(Range(lo.value, hi.value))
  }

  /** The indices `j >= i` whose wavelength lies in `r`, in increasing order. */
  function WindowFrom(wave: seq<real>, r: Range, i: nat): (w: seq<nat>)
    requires i <= |wave|
    ensures forall k :: 0 <= k < |w| ==> i <= w[k] < |wave| && r.Has(wave[w[k]])
    decreases |wave| - i
  {
    if i == |wave| then []
    else if r.Has(wave[i]) then [i] + WindowFrom(wave, r, i + 1)
    else WindowFrom(wave, r, i + 1)
  }

  /** Every pixel from `i` on whose wavelength lies in `r` is in the window. */
  lemma {:induction false} WindowComplete(wave: seq<real>, r: Range, i: nat)
    requires i <= |wave|
    ensures forall j :: i <= j < |wave| && r.Has(wave[j]) ==> j in WindowFrom(wave, r, i)
    decreases |wave| - i
  {
    if i < |wave| {
      WindowComplete(wave, r, i + 1);
    }
  }

  /** `fitran_indx`: the pixels inside the actual fit range. */
  function WindowIndices(wave: seq<real>, r: Range): seq<nat> {
    WindowFrom(wave, r, 0)
  }

  /** `gd_indx`: the good indices re-based to the first pixel of the window. */
  function Rezero(gdFull: set<int>, window: seq<nat>): set<int>
    requires |window| > 0
  {
    var first: int := window[0];
    var last: int := window[|window| - 1];
    set g | g in gdFull && 0 <= g - first <= last - first :: g - first
  }

  /** `x[idx]`: numpy fancy indexing, a fresh sequence. */
  function Gather<T>(xs: seq<T>, idx: seq<nat>): (r: seq<T>)
    requires forall k :: 0 <= k < |idx| ==> idx[k] < |xs|
    ensures |r| == |idx| && forall k :: 0 <= k < |idx| ==> r[k] == xs[idx[k]]
  {
    seq(|idx|, k requires 0 <= k < |idx| => xs[idx[k]])
  }

  /** The result of the pixel selection. */
  datatype Window = Window(fitran: Range, fitranIndx: seq<nat>, gdIndxFull: set<int>, gdIndx: set<int>)

  /** Good pixels, actual fit range, window and re-based good indices of one spectrum. */
  function SelectWindow(s: Spectrum, templateWave: seq<real>, fitran: Option<Range>): (r: Result<Window, FitError>)
    requires s.WellFormed()
    ensures r.Err? <==>
      || |templateWave| == 0
      || (fitran.None? && |s.wave| == 0)
      || GoodIndexSet(s, TemplateRange(templateWave).value, RequestedRange(s.wave, fitran).value) == {}
    ensures fitran.None? && |s.wave| == 0 ==> r == Err(EmptySpectrum)
    ensures (fitran.Some? || |s.wave| > 0) && |templateWave| == 0 ==> r == Err(EmptyTemplate)
    ensures r.Ok? ==>
      && r.value.gdIndxFull == GoodIndexSet(s, TemplateRange(templateWave).value, RequestedRange(s.wave, fitran).value)
      && FitRange(s.wave, r.value.gdIndxFull) == Ok(r.value.fitran)
      && r.value.fitranIndx == WindowIndices(s.wave, r.value.fitran)
      && |r.value.fitranIndx| > 0
      && r.value.gdIndx == Rezero(r.value.gdIndxFull, r.value.fitranIndx)
  {
    var rr := RequestedRange(s.wave, fitran);
    if rr.Err? then Err(rr.error)
    else
      var tr := TemplateRange(templateWave);
      if tr.Err? then Err(tr.error)
      else
        var gd := GoodIndexSet(s, tr.value, rr.value);
        var fr := FitRange(s.wave, gd);
        if fr.Err? then Err(fr.error)
        else
          var window := WindowIndices(s.wave, fr.value);
          WindowComplete(s.wave, fr.value, 0);
          var i :| i in gd;
          assert i in window;
          Ok(Window(fr.value, window, gd, Rezero(gd, window)))
  }

  /** Every pixel inside the actual fit range is inside both configured ranges. */
  lemma FitRangeInsideConfigured(s: Spectrum, tr: Range, rq: Range, fr: Range)
    requires s.WellFormed()
    requires FitRange(s.wave, GoodIndexSet(s, tr, rq)) == Ok(fr)
    ensures forall j :: 0 <= j < |s.wave| && fr.Has(s.wave[j]) ==> tr.Has(s.wave[j]) && rq.Has(s.wave[j])
  {
    var gd := GoodIndexSet(s, tr, rq);
    var lo :| lo in gd && s.wave[lo] == fr.lo;
    var hi :| hi in gd && s.wave[hi] == fr.hi;
    assert GoodPixel(s, lo, tr, rq) && GoodPixel(s, hi, tr, rq);
  }

  /**
   * The selected window: every good pixel lies in the actual fit range; the
   * window holds exactly the pixels inside that range, and all of them lie
   * inside both the template range and the configured fit range.
   */
  lemma SelectedWindowFacts(s: Spectrum, templateWave: seq<real>, fitran: Option<Range>)
    requires s.WellFormed()
    requires SelectWindow(s, templateWave, fitran).Ok?
    ensures var w := SelectWindow(s, templateWave, fitran).value;
      && w.gdIndxFull != {}
      && (forall i :: i in w.gdIndxFull ==> w.fitran.Has(s.wave[i]))
      && (forall k :: 0 <= k < |w.fitranIndx| ==> w.fitranIndx[k] < |s.wave| && w.fitran.Has(s.wave[w.fitranIndx[k]]))
      && (forall j :: 0 <= j < |s.wave| && w.fitran.Has(s.wave[j]) ==> j in w.fitranIndx)
      && (forall k :: 0 <= k < |w.fitranIndx| ==>
            TemplateRange(templateWave).value.Has(s.wave[w.fitranIndx[k]])
            && RequestedRange(s.wave, fitran).value.Has(s.wave[w.fitranIndx[k]]))
  {
    var w := SelectWindow(s, templateWave, fitran).value;
    WindowComplete(s.wave, w.fitran, 0);
    FitRangeInsideConfigured(s, TemplateRange(templateWave).value, RequestedRange(s.wave, fitran).value, w.fitran);
  }

  // ---------------------------------------------------------------------
  // The window is contiguous when wavelengths increase.

  lemma {:induction false} WindowEmptyPastEnd(wave: seq<real>, r: Range, i: nat)
    requires Increasing(wave) && i < |wave| && wave[i] > r.hi
    ensures WindowFrom(wave, r, i) == []
    decreases |wave| - i
  {
    if i + 1 < |wave| {
      WindowEmptyPastEnd(wave, r, i + 1);
    }
  }

  lemma {:induction false} WindowContiguous(wave: seq<real>, r: Range, i: nat)
    requires Increasing(wave) && i <= |wave|
    ensures var w := WindowFrom(wave, r, i);
      forall k :: 0 <= k < |w| ==> w[k] == w[0] + k
    decreases |wave| - i
  {
    if i < |wave| {
      WindowContiguous(wave, r, i + 1);
      var rest := WindowFrom(wave, r, i + 1);
      if r.Has(wave[i]) {
        var w := [i] + rest;
        assert WindowFrom(wave, r, i) == w;
        if |rest| > 0 {
          if !r.Has(wave[i + 1]) {
            WindowEmptyPastEnd(wave, r, i + 1);
            assert false;
          }
          assert rest[0] == i + 1;
          forall k | 1 <= k < |w| ensures w[k] == w[0] + k {
            assert w[k] == rest[k - 1];
          }
        }
      }
    }
  }

  /** In a contiguous window, `j` is a re-based good index iff pixel `window[j]` is good. */
  lemma RezeroAddressesWindow(gdFull: set<int>, window: seq<nat>)
    requires |window| > 0
    requires forall k :: 0 <= k < |window| ==> window[k] == window[0] + k
    ensures forall j :: j in Rezero(gdFull, window) <==> 0 <= j < |window| && window[j] in gdFull
  {
    var first: int := window[0];
    var last: int := window[|window| - 1];
    forall j | j in Rezero(gdFull, window)
      ensures 0 <= j < |window| && window[j] in gdFull
    {
      var g :| g in gdFull && 0 <= g - first <= last - first && j == g - first;
      assert window[j] == g;
    }
    forall j | 0 <= j < |window| && window[j] in gdFull
      ensures j in Rezero(gdFull, window)
    {
      var g := window[j];
      assert 0 <= g - first <= last - first && j == g - first;
    }
  }

  /**
   * With increasing wavelengths the re-based good indices address exactly the
   * good pixels of the restricted arrays: `j` is in `gd_indx` iff pixel
   * `fitran_indx[j]` is good, and then `j` lies in `[0, len(fitran_indx))`.
   */
  lemma GoodIndicesAddressWindow(s: Spectrum, templateWave: seq<real>, fitran: Option<Range>)
    requires s.WellFormed() && Increasing(s.wave)
    requires SelectWindow(s, templateWave, fitran).Ok?
    ensures var w := SelectWindow(s, templateWave, fitran).value;
      && (forall k :: 0 <= k < |w.fitranIndx| ==> w.fitranIndx[k] == w.fitranIndx[0] + k)
      && (forall j :: j in w.gdIndx <==> 0 <= j < |w.fitranIndx| && w.fitranIndx[j] in w.gdIndxFull)
  {
    var w := SelectWindow(s, templateWave, fitran).value;
    assert w.fitranIndx == WindowFrom(s.wave, w.fitran, 0);
    WindowContiguous(s.wave, w.fitran, 0);
    RezeroAddressesWindow(w.gdIndxFull, w.fitranIndx);
  }

  // ---------------------------------------------------------------------
  // Linear arrays: invalid samples become NaN.

  /** `zerinf_indx` test: zero flux, error <= 0, infinite flux or error, or bad flag. */
  predicate ZeroInf(f: Ext, e: Ext, q: int) {
    EqZero(f) || LeZero(e) || IsInf(f) || IsInf(e) || q != 0
  }

  /** `zerinf_indx`: the union of the five index sets over the restricted arrays. */
  function ZeroInfIndices(flux: seq<Ext>, err: seq<Ext>, dq: seq<int>): (z: set<int>)
    requires |err| == |flux| && |dq| == |flux|
    ensures forall j :: j in z <==> 0 <= j < |flux| && ZeroInf(flux[j], err[j], dq[j])
  {
    var n := |flux|;
    (set j | 0 <= j < n && EqZero(flux[j]))
      + (set j | 0 <= j < n && LeZero(err[j]))
      + (set j | 0 <= j < n && IsInf(flux[j]))
      + (set j | 0 <= j < n && IsInf(err[j]))
      + (set j | 0 <= j < n && dq[j] != 0)
  }

  /** `xs[idx] = v` on a copy. */
  function Overwrite<T>(xs: seq<T>, idx: set<int>, v: T): (r: seq<T>)
    ensures |r| == |xs|
    ensures forall j :: 0 <= j < |xs| ==> r[j] == if j in idx then v else xs[j]
  {
    seq(|xs|, j requires 0 <= j < |xs| => if j in idx then v else xs[j])
  }

  /** `1./np.power(gderr, 2.)` */
  function InverseVariance(err: seq<Ext>): (r: seq<Ext>)
    ensures |r| == |err| && forall j :: 0 <= j < |err| ==> r[j] == InvSquare(err[j])
  {
    seq(|err|, j requires 0 <= j < |err| => InvSquare(err[j]))
  }

  /** Writes NaN into flux, error and inverse variance at every `zerinf` index. */
  method ReplaceInvalid(flux: array<Ext>, err: array<Ext>, invvar: array<Ext>, dq: seq<int>)
    returns (zerinf: set<int>)
    requires err.Length == flux.Length && invvar.Length == flux.Length && |dq| == flux.Length
    requires flux != err && flux != invvar && err != invvar
    modifies flux, err, invvar
    ensures zerinf == ZeroInfIndices(old(flux[..]), old(err[..]), dq)
    ensures flux[..] == Overwrite(old(flux[..]), zerinf, NaN)
    ensures err[..] == Overwrite(old(err[..]), zerinf, NaN)
    ensures invvar[..] == Overwrite(old(invvar[..]), zerinf, NaN)
  {
    zerinf := ZeroInfIndices(flux[..], err[..], dq);
    var j := 0;
    while j < flux.Length
      invariant 0 <= j <= flux.Length
      invariant forall k :: 0 <= k < flux.Length ==> flux[k] == if k < j && k in zerinf then NaN else old(flux[k])
      invariant forall k :: 0 <= k < flux.Length ==> err[k] == if k < j && k in zerinf then NaN else old(err[k])
      invariant forall k :: 0 <= k < flux.Length ==> invvar[k] == if k < j && k in zerinf then NaN else old(invvar[k])
    {
      if j in zerinf {
        flux[j] := NaN;
        err[j] := NaN;
        invvar[j] := NaN;
      }
      j := j + 1;
    }
  }

  /**
   * The linear part of the selection: deep copies of the caller's flux and
   * error (which are never written), restriction to the fit window, inverse
   * variance, and NaN at every invalid sample of the restricted arrays.
   */
  method PrepareLinearArrays(wave: seq<real>, flux: array<Ext>, err: array<Ext>, dq: seq<int>,
                             templateWave: seq<real>, fitran: Option<Range>)
    returns (r: Result<Window, FitError>, gdflux: array<Ext>, gderr: array<Ext>, gdinvvar: array<Ext>)
    requires flux.Length == |wave| && err.Length == |wave| && |dq| == |wave|
    ensures r == SelectWindow(Spectrum(wave, flux[..], err[..], dq), templateWave, fitran)
    ensures fresh(gdflux) && fresh(gderr) && fresh(gdinvvar)
    ensures r.Ok? ==>
      var win := r.value.fitranIndx;
      var z := ZeroInfIndices(Gather(flux[..], win), Gather(err[..], win), Gather(dq, win));
      && gdflux[..] == Overwrite(Gather(flux[..], win), z, NaN)
      && gderr[..] == Overwrite(Gather(err[..], win), z, NaN)
      && gdinvvar[..] == Overwrite(InverseVariance(Gather(err[..], win)), z, NaN)
  {
    var fluxCopy := flux[..];
    var errCopy := err[..];
    r := SelectWindow(Spectrum(wave, fluxCopy, errCopy, dq), templateWave, fitran);
    if r.Err? {
      gdflux, gderr, gdinvvar := new Ext[0], new Ext[0], new Ext[0];
      return;
    }
    var win := r.value.fitranIndx;
    gdflux := ToArray(Gather(fluxCopy, win));
    gderr := ToArray(Gather(errCopy, win));
    gdinvvar := ToArray(InverseVariance(Gather(errCopy, win)));
    var _ := ReplaceInvalid(gdflux, gderr, gdinvvar, Gather(dq, win));
    assert flux[..] == fluxCopy && err[..] == errCopy;
  }

  /** A fresh array holding `xs`. */
  method ToArray(xs: seq<Ext>) returns (a: array<Ext>)
    ensures fresh(a) && a[..] == xs
  {
    a := new Ext[|xs|](k requires 0 <= k < |xs| => xs[k]);
  }

  /**
   * After masking, a pixel of the restricted arrays is left as it was, finite
   * with nonzero flux and positive error, exactly when it is in `gd_indx`;
   * every other pixel has a NaN flux or a NaN error, so a NaN-omitting fit
   * skips it.
   */
  lemma MaskedArraysAgreeWithGoodIndices(s: Spectrum, templateWave: seq<real>, fitran: Option<Range>, j: int)
    requires s.WellFormed() && Increasing(s.wave)
    requires SelectWindow(s, templateWave, fitran).Ok?
    requires 0 <= j < |SelectWindow(s, templateWave, fitran).value.fitranIndx|
    ensures var w := SelectWindow(s, templateWave, fitran).value;
      var f := Gather(s.flux, w.fitranIndx);
      var e := Gather(s.err, w.fitranIndx);
      var z := ZeroInfIndices(f, e, Gather(s.dq, w.fitranIndx));
      var mf := Overwrite(f, z, NaN);
      var me := Overwrite(e, z, NaN);
      && (j in w.gdIndx ==> mf[j] == s.flux[w.fitranIndx[j]] && me[j] == s.err[w.fitranIndx[j]]
                             && IsFinite(mf[j]) && NeZero(mf[j]) && IsFinite(me[j]) && GtZero(me[j]))
      && (j !in w.gdIndx ==> mf[j].NaN? || me[j].NaN?)
  {
    GoodIndicesAddressWindow(s, templateWave, fitran);
    SelectedWindowFacts(s, templateWave, fitran);
    var w := SelectWindow(s, templateWave, fitran).value;
    var tr := TemplateRange(templateWave).value;
    var rq := RequestedRange(s.wave, fitran).value;
    var g := w.fitranIndx[j];
    var f := Gather(s.flux, w.fitranIndx);
    var e := Gather(s.err, w.fitranIndx);
    var q := Gather(s.dq, w.fitranIndx);
    var z := ZeroInfIndices(f, e, q);
    assert f[j] == s.flux[g] && e[j] == s.err[g] && q[j] == s.dq[g];
    assert j in z <==> ZeroInf(s.flux[g], s.err[g], s.dq[g]);
    assert j in w.gdIndx <==> GoodPixel(s, g, tr, rq);
    MaskedSample(s.flux[g], s.err[g], s.dq[g]);
  }

  /** A sample passing all validity tests is not in `zerinf`; any other one ends with a NaN flux or error. */
  lemma MaskedSample(f: Ext, e: Ext, q: int)
    ensures NeZero(f) && GtZero(e) && IsFinite(f) && IsFinite(e) && q == 0 ==> !ZeroInf(f, e, q)
    ensures !(NeZero(f) && GtZero(e) && IsFinite(f) && IsFinite(e) && q == 0) ==>
      ZeroInf(f, e, q) || f.NaN? || e.NaN?
  {
  }

  // ---------------------------------------------------------------------
  // Log-rebinned arrays: invalid samples become the finite marker `Bad`.

  /** `np.arange(n)` as a set. */
  function AllIndices(n: nat): (r: set<int>)
    ensures forall j :: j in r <==> 0 <= j < n
  {
    if n == 0 then {} else AllIndices(n - 1) + {n - 1}
  }

  /** The log-domain test as the code writes it: zero flux, error <= 0, or an infinity. */
  predicate LogZeroInfAsWritten(f: Ext, e: Ext) {
    EqZero(f) || LeZero(e) || IsInf(f) || IsInf(e)
  }

  /** The log-domain test as intended: zero flux, error <= 0, or any non-finite sample. */
  predicate LogZeroInf(f: Ext, e: Ext) {
    EqZero(f) || LeZero(e) || !IsFinite(f) || !IsFinite(e)
  }

  /** `gd_indx_log` as the code computes it. */
  function GoodLogIndicesAsWritten(fluxLog: seq<Ext>, errLog: seq<Ext>): (gd: set<int>)
    requires |errLog| == |fluxLog|
    ensures forall j :: j in gd <==> 0 <= j < |fluxLog| && !LogZeroInfAsWritten(fluxLog[j], errLog[j])
  {
    var n := |fluxLog|;
    AllIndices(n) - (set j | 0 <= j < n && LogZeroInfAsWritten(fluxLog[j], errLog[j]))
  }

  /** A rebinned NaN sample passes the written test and is handed to the template fit as good. */
  lemma LogNaNCountsAsGood()
    ensures 0 in GoodLogIndicesAsWritten([NaN], [Fin(1.0)])
  {
  }

  /** `zerinf_indx_log` with the non-finite test. */
  function LogInvalidIndices(fluxLog: seq<Ext>, errLog: seq<Ext>): (z: set<int>)
    requires |errLog| == |fluxLog|
    ensures forall j :: j in z <==> 0 <= j < |fluxLog| && LogZeroInf(fluxLog[j], errLog[j])
  {
    var n := |fluxLog|;
    (set j | 0 <= j < n && EqZero(fluxLog[j]))
      + (set j | 0 <= j < n && LeZero(errLog[j]))
      + (set j | 0 <= j < n && !IsFinite(fluxLog[j]))
      + (set j | 0 <= j < n && !IsFinite(errLog[j]))
  }

  /**
   * `gd_indx_log` is `[0, len)` minus the invalid set, computed before the
   * invalid samples of both log arrays are overwritten with `Bad`.
   */
  method MaskLogGrid(fluxLog: array<Ext>, errLog: array<Ext>) returns (gdIndxLog: set<int>)
    requires errLog.Length == fluxLog.Length && fluxLog != errLog
    modifies fluxLog, errLog
    ensures gdIndxLog == AllIndices(fluxLog.Length) - LogInvalidIndices(old(fluxLog[..]), old(errLog[..]))
    ensures fluxLog[..] == Overwrite(old(fluxLog[..]), LogInvalidIndices(old(fluxLog[..]), old(errLog[..])), Bad)
    ensures errLog[..] == Overwrite(old(errLog[..]), LogInvalidIndices(old(fluxLog[..]), old(errLog[..])), Bad)
  {
    var zerinfLog := LogInvalidIndices(fluxLog[..], errLog[..]);
    gdIndxLog := AllIndices(fluxLog.Length) - zerinfLog;
    var j := 0;
    while j < fluxLog.Length
      invariant 0 <= j <= fluxLog.Length
      invariant forall k :: 0 <= k < fluxLog.Length ==> fluxLog[k] == if k < j && k in zerinfLog then Bad else old(fluxLog[k])
      invariant forall k :: 0 <= k < fluxLog.Length ==> errLog[k] == if k < j && k in zerinfLog then Bad else old(errLog[k])
    {
      if j in zerinfLog {
        fluxLog[j] := Bad;
        errLog[j] := Bad;
      }
      j := j + 1;
    }
  }

  /** Every sample kept in `gd_indx_log` is finite, with nonzero flux and positive error. */
  lemma GoodLogSamplesAreUsable(fluxLog: seq<Ext>, errLog: seq<Ext>, j: int)
    requires |errLog| == |fluxLog|
    requires j in AllIndices(|fluxLog|) - LogInvalidIndices(fluxLog, errLog)
    ensures IsFinite(fluxLog[j]) && NeZero(fluxLog[j]) && IsFinite(errLog[j]) && GtZero(errLog[j])
  {
  }

  /**
   * After the overwrite no sample fails the validity test any more: the marker
   * is a finite positive value, so `gd_indx_log` is the only record of which
   * samples were invalid.
   */
  lemma MarkerPassesValidity(fluxLog: seq<Ext>, errLog: seq<Ext>)
    requires |errLog| == |fluxLog|
    ensures var z := LogInvalidIndices(fluxLog, errLog);
      forall j :: 0 <= j < |fluxLog| ==> !LogZeroInf(Overwrite(fluxLog, z, Bad)[j], Overwrite(errLog, z, Bad)[j])
  {
  }
}
