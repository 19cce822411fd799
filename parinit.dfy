/**
 * The emission-line parameter builder: one Gaussian per (line, velocity
 * component), parameter names `{label}_{comp}_{par}`, their bounds and tie
 * expressions, and the optional block of user line ratios whose bounds may
 * come from the doublet table in either pair order.
 *
 * The label mangling of line names (`lmlabel`) is not part of this model; it
 * enters as the pair of functions `lm` (to the parameter-safe label) and
 * `unlm` (back).  Tie expressions are kept as a datatype whose parameter
 * references are resolved names, not as formatted text.
 */
module ParInit {
  import opened Wrappers
  import opened Floats
  import opened Strings
  import LineList

  // ---------------------------------------------------------------------
  // Data model

  /** One row of the doublet table. */
  datatype DoubletRow = DoubletRow(line1: string, line2: string, fixedRatio: int, lower: real, upper: real)

  /** A tie expression; every parameter it mentions is a full parameter name. */
  datatype Tie =
    | Untied                                                 // '' (no expression)
    | ThirdOf(strong: string)                                // '{strong}/3.'
    | RestScaled(numer: real, denom: real, target: string)   // '{numer} / {denom} * {target}'
    | SameAs(target: string)                                 // '{target}'
    | Quotient(dividend: string, ratio: string)              // '{dividend}/{ratio}'

  /** An lmfit parameter. */
  datatype Param = Param(value: Ext, min: Ext, max: Ext, vary: bool, expr: Tie)

  /** A parameter as `Parameters.add(name, value=v)` creates it. */
  function NewParam(v: Ext): Param {
    Param(v, NegInf, PosInf, true, Untied)
  }

  /** A parameter as `make_params` creates it for an argument without a default. */
  const Unset: Param := NewParam(NegInf)

  /** The keyword arguments of `set_params`; `None` is an omitted argument. */
  datatype Settings = Settings(
    value: Option<Ext>, vary: bool, limited: Option<(bool, bool)>, tied: Option<Tie>, limits: Option<(Ext, Ext)>)

  /** The exceptions `parinit` can raise. */
  datatype InitError =
    | NoComponents                 // no component at all: `make_params` on an empty list
    | BadParamName(name: string)   // `int(...)` of the component field fails
    | MissingInput(key: string)    // a dictionary key or list index that is not there
    | NotATable                    // `lineratio` is not a Table or QTable
    | MissingColumns               // `lineratio` lacks line1, line2 or comp
    | AmbiguousDoublet(line: string) // truth value of a several-element comparison
    | UnboundBound                 // `lower` or `upper` read before any assignment
    | UndefinedName(name: string)  // NameError: a tie names a parameter that does not exist
    | ZeroDivision                 // ZeroDivisionError: a tie divides a float literal by zero

  /** The names of the four arguments of `manygauss`, in order. */
  const GaussPars: seq<string> := ["flx", "cwv", "sig", "srsigslam"]

  // ---------------------------------------------------------------------
  // Defaults

  /** `specres` is 0 when missing or falsy. */
  function EffectiveSpecres(specres: Option<real>): (r: real)
    ensures specres.None? ==> r == 0.0
    ensures specres.Some? ==> r == specres.value
  {
    if specres.None? || specres.value == 0.0 then 0.0 else specres.value
  }

  /** `siglim` defaults to [5, 2000] km/s. */
  function EffectiveSiglim(siglim: Option<(real, real)>): (r: (real, real))
    ensures siglim.None? ==> r == (5.0, 2000.0)
    ensures siglim.Some? ==> r == siglim.value
  {
    if siglim.None? then (5.0, 2000.0) else siglim.value
  }

  // ---------------------------------------------------------------------
  // set_params

  /** The effect of `set_params` on one parameter. */
  function Configure(p: Param, s: Settings): Param {
    var p1 := if s.value.Some? then p.(value := s.value.value) else p;
    var p2 := p1.(vary := s.vary);
    var p3 := if s.tied.Some? then p2.(expr := s.tied.value) else p2;
    if s.limited.Some? && s.limits.Some? then
      var p4 := if s.limited.value.0 then p3.(min := s.limits.value.0) else p3;
      if s.limited.value.1 then p4.(max := s.limits.value.1) else p4
    else p3
  }

  /**
   * `set_params` changes the value only when one is given, always sets `vary`,
   * sets the expression whenever a tie is given, and sets a bound only when
   * both arrays are given and the matching `LIMITED` flag is 1.
   */
  lemma ConfigureChangesOnlyRequested(p: Param, s: Settings)
    ensures var r := Configure(p, s);
      && r.vary == s.vary
      && (s.value.None? ==> r.value == p.value)
      && (s.value.Some? ==> r.value == s.value.value)
      && (s.tied.None? ==> r.expr == p.expr)
      && (s.tied.Some? ==> r.expr == s.tied.value)
      && (r.min != p.min ==> s.limited.Some? && s.limits.Some? && s.limited.value.0 && r.min == s.limits.value.0)
      && (r.max != p.max ==> s.limited.Some? && s.limits.Some? && s.limited.value.1 && r.max == s.limits.value.1)
  {
  }

  /** Applying the same settings twice is applying them once. */
  lemma ConfigureIdempotent(p: Param, s: Settings)
    ensures Configure(Configure(p, s), s) == Configure(p, s)
  {
  }

  // ---------------------------------------------------------------------
  // Names

  /** `f'{lmline}_{comp}_{gpar}'` */
  function ParamName(lmline: string, comp: int, gpar: string): string {
    lmline + "_" + IntToString(comp) + "_" + gpar
  }

  /**
   * The name parsing loop: the last `_` field is the Gaussian parameter, the
   * one before it the component number, and the others rejoined with `_` the
   * label.  A name without `_` uses its only field for both (Python's index
   * -1); a component field that is not an integer makes `int` raise.
   */
  function ParseParamName(name: string): Option<(string, int, string)> {
    var parts := Split(name, '_');
    var n := |parts|;
    var lmline := if n >= 2 then Join(parts[..n - 2], '_') else "";
    var compField := if n >= 2 then parts[n - 2] else parts[0];
    match ParseInt(compField)
    case None => None
    case Some(c) => Some((lmline, c, parts[n - 1]))
  }

  /** Parsing recovers the construction, even when the label holds underscores. */
  lemma ParseParamNameRoundTrip(lmline: string, comp: int, gpar: string)
    requires '_' !in gpar
    ensures ParseParamName(ParamName(lmline, comp, gpar)) == Some((lmline, comp, gpar))
  {
    var d := IntToString(comp);
    NoCharInInt(comp, '_');
    SplitNoSeparator(d, '_');
    SplitNoSeparator(gpar, '_');
    SplitAround(d, gpar, '_');
    SplitAround(lmline, d + "_" + gpar, '_');
    assert ParamName(lmline, comp, gpar) == lmline + ['_'] + (d + ['_'] + gpar);
    var parts := Split(ParamName(lmline, comp, gpar), '_');
    assert parts == Split(lmline, '_') + [d, gpar];
    assert parts[..|parts| - 2] == Split(lmline, '_');
    JoinSplit(lmline, '_');
    ParseIntRendered(comp);
  }

  /** Distinct (label, component, parameter) triples give distinct names. */
  lemma ParamNameInjective(l1: string, c1: int, g1: string, l2: string, c2: int, g2: string)
    requires '_' !in g1 && '_' !in g2
    requires ParamName(l1, c1, g1) == ParamName(l2, c2, g2)
    ensures l1 == l2 && c1 == c2 && g1 == g2
  {
    ParseParamNameRoundTrip(l1, c1, g1);
    ParseParamNameRoundTrip(l2, c2, g2);
  }

  // ---------------------------------------------------------------------
  // Inputs

  /** The per-line dictionaries `parinit` reads, and the label mangling. */
  datatype Inputs = Inputs(
    linelistz: map<string, seq<real>>,
    initflux: map<string, seq<real>>,
    initsig: map<string, seq<real>>,
    linetie: map<string, string>,
    lm: string -> string,
    unlm: string -> string)

  /** Everything the per-parameter settings depend on. */
  datatype Context = Context(
    inp: Inputs, rest: map<string, real>, dblt: map<string, string>, siglim: (real, real), specres: real)

  /** `d[key][i]`, with Python's negative indices; a missing key or index raises. */
  function At(d: map<string, seq<real>>, key: string, i: int): (r: Result<real, InitError>)
    ensures r.Ok? <==> key in d && -|d[key]| <= i < |d[key]|
    ensures r.Ok? && i >= 0 ==> r.value == d[key][i]
  {
    if key !in d then Err(MissingInput(key))
    else if 0 <= i < |d[key]| then Ok(d[key][i])
    else if -|d[key]| <= i < 0 then Ok(d[key][|d[key]| + i])
    else Err(MissingInput(key))
  }

  /** `dblt_pairs`: weaker line to stronger line, for rows with `fixed_ratio == 1`; a later row wins. */
  function DoubletPairs(doublets: seq<DoubletRow>): (m: map<string, string>)
    ensures forall k :: 0 <= k < |doublets| && doublets[k].fixedRatio == 1 ==> doublets[k].line2 in m
    ensures forall w :: w in m ==>
      exists k :: 0 <= k < |doublets| && doublets[k].fixedRatio == 1 && doublets[k].line2 == w && doublets[k].line1 == m[w]
  {
    if |doublets| == 0 then map[]
    else
      var p := DoubletPairs(doublets[..|doublets| - 1]);
      var d := doublets[|doublets| - 1];
      if d.fixedRatio == 1 then p[d.line2 := d.line1] else p
  }

  /** The loop that fills `dblt_pairs`. */
  method BuildDoubletPairs(doublets: seq<DoubletRow>) returns (m: map<string, string>)
    ensures m == DoubletPairs(doublets)
  {
    m := map[];
    for i := 0 to |doublets|
      invariant m == DoubletPairs(doublets[..i])
    {
      assert doublets[..i + 1][..i] == doublets[..i];
      if doublets[i].fixedRatio == 1 {
        m := m[doublets[i].line2 := doublets[i].line1];
      }
    }
    assert doublets[..|doublets|] == doublets;
  }

  /** The last doublet row of a weaker line decides its stronger partner. */
  lemma {:induction false} DoubletPairsLastWins(doublets: seq<DoubletRow>, k: nat)
    requires k < |doublets| && doublets[k].fixedRatio == 1
    requires forall j :: k < j < |doublets| ==> doublets[j].fixedRatio != 1 || doublets[j].line2 != doublets[k].line2
    ensures DoubletPairs(doublets)[doublets[k].line2] == doublets[k].line1
    decreases |doublets|
  {
    if k < |doublets| - 1 {
      var p := doublets[..|doublets| - 1];
      assert p[k] == doublets[k];
      DoubletPairsLastWins(p, k);
    }
  }

  /** The catalogue's line names, in catalogue order. */
  function Names(rows: seq<LineList.Row>): (ns: seq<string>)
    ensures |ns| == |rows| && forall k :: 0 <= k < |rows| ==> ns[k] == rows[k].name
  {
    seq(|rows|, k requires 0 <= k < |rows| => rows[k].name)
  }

  /** `lines_arr` values: the rest wavelength of the last catalogue row of each name. */
  function RestWaves(rows: seq<LineList.Row>): (m: map<string, real>)
    ensures forall k :: 0 <= k < |rows| ==> rows[k].name in m
    ensures forall n :: n in m ==> n in Names(rows)
  {
    if |rows| == 0 then map[]
    else
      var p := RestWaves(rows[..|rows| - 1]);
      var r := rows[|rows| - 1];
      assert forall n :: n in Names(rows[..|rows| - 1]) ==> n in Names(rows);
      p[r.name := r.wave]
  }

  /** `lines_arr` keys: the catalogue's names in first-occurrence order. */
  function LineKeys(rows: seq<LineList.Row>): (keys: seq<string>)
    ensures LineList.NoDuplicates(keys)
    ensures forall n :: n in keys <==> n in Names(rows)
  {
    LineList.Dedup(Names(rows))
  }

  // ---------------------------------------------------------------------
  // Components

  /** The components of one line: (line, 0) .. (line, n - 1). */
  function CompsOf(line: string, n: nat): (cs: seq<(string, nat)>)
    ensures |cs| == n && forall i :: 0 <= i < n ==> cs[i] == (line, i)
  {
    if n == 0 then [] else CompsOf(line, n - 1) + [(line, n - 1)]
  }

  /** The (line, component) pairs in model order; a line missing from `ncomp` raises. */
  function Components(keys: seq<string>, ncomp: map<string, int>): (r: Result<seq<(string, nat)>, InitError>)
    ensures r.Ok? <==> forall n :: n in keys ==> n in ncomp
  {
    if |keys| == 0 then Ok([])
    else
      var p := Components(keys[..|keys| - 1], ncomp);
      var line := keys[|keys| - 1];
      assert forall n :: n in keys <==> n in keys[..|keys| - 1] || n == line;
      if p.Err? then p
      else if line !in ncomp then Err(MissingInput(line))
      else Ok(p.value + CompsOf(line, if ncomp[line] < 0 then 0 else ncomp[line]))
  }

  /** Exactly one component per line and index below its `ncomp`; a line with none contributes nothing. */
  lemma {:induction false} ComponentsExact(keys: seq<string>, ncomp: map<string, int>)
    requires LineList.NoDuplicates(keys)
    requires Components(keys, ncomp).Ok?
    ensures var cs := Components(keys, ncomp).value;
      && LineList.NoDuplicates(cs)
      && forall line: string, i: nat :: (line, i) in cs <==> line in keys && i < ncomp[line]
    decreases |keys|
  {
    if |keys| > 0 {
      var pk := keys[..|keys| - 1];
      var line := keys[|keys| - 1];
      assert keys == pk + [line];
      assert LineList.NoDuplicates(pk) by {
        forall a, b | 0 <= a < b < |pk| ensures pk[a] != pk[b] {
          assert pk[a] == keys[a] && pk[b] == keys[b];
        }
      }
      ComponentsExact(pk, ncomp);
      var p := Components(pk, ncomp).value;
      var n := if ncomp[line] < 0 then 0 else ncomp[line];
      var own := CompsOf(line, n);
      var cs := p + own;
      assert Components(keys, ncomp).value == cs;
      assert line !in pk by {
        forall a | 0 <= a < |pk| ensures pk[a] != line {
          assert pk[a] == keys[a] && line == keys[|keys| - 1];
        }
      }
      forall a, b | 0 <= a < b < |cs| ensures cs[a] != cs[b] {
        if b < |p| {
        } else if a >= |p| {
          assert cs[a] == own[a - |p|] && cs[b] == own[b - |p|];
        } else {
          assert cs[a] in p;
          assert cs[a].0 in pk;
          assert cs[b] == own[b - |p|];
        }
      }
      forall l: string, i: nat ensures (l, i) in cs <==> l in keys && i < ncomp[l] {
        if (l, i) in own {
          var j :| 0 <= j < |own| && own[j] == (l, i);
        }
        if l == line && i < ncomp[l] {
          assert own[i] == (l, i);
        }
      }
    }
  }

  /** A line missing from `ncomp` ends the loop with its exception. */
  lemma {:induction false} ComponentsFailureSticks(keys: seq<string>, ncomp: map<string, int>, j: nat)
    requires j <= |keys| && Components(keys[..j], ncomp).Err?
    ensures Components(keys, ncomp) == Components(keys[..j], ncomp)
    decreases |keys|
  {
    if j < |keys| {
      var p := keys[..|keys| - 1];
      assert p[..j] == keys[..j];
      ComponentsFailureSticks(p, ncomp, j);
    } else {
      assert keys[..j] == keys;
    }
  }

  /** The nested loop that collects the components (`totmod`). */
  method BuildComponents(keys: seq<string>, ncomp: map<string, int>) returns (r: Result<seq<(string, nat)>, InitError>)
    ensures r == Components(keys, ncomp)
  {
    var cs: seq<(string, nat)> := [];
    var l := 0;
    while l < |keys|
      invariant 0 <= l <= |keys|
      invariant Components(keys[..l], ncomp) == Ok(cs)
    {
      var line := keys[l];
      assert keys[..l + 1][..l] == keys[..l];
      if line !in ncomp {
        assert Components(keys[..l + 1], ncomp) == Err(MissingInput(line));
        ComponentsFailureSticks(keys, ncomp, l + 1);
        return Err(MissingInput(line));
      }
      var i := 0;
      while i < ncomp[line]
        invariant 0 <= i && (i <= ncomp[line] || i == 0)
        invariant cs == Components(keys[..l], ncomp).value + CompsOf(line, i)
      {
        cs := cs + [(line, i)];
        i := i + 1;
      }
      assert CompsOf(line, i) == CompsOf(line, if ncomp[line] < 0 then 0 else ncomp[line]);
      l := l + 1;
    }
    assert keys[..l] == keys;
    r := Ok(cs);
  }

  /** The prefix of a component's model, `f'{lmlabel}_{i}_'`. */
  function Prefix(lm: string -> string, c: (string, nat)): string {
    lm(c.0) + "_" + IntToString(c.1) + "_"
  }

  /** The four parameter names of one component. */
  function ComponentNames(lm: string -> string, c: (string, nat)): (ns: seq<string>)
    ensures |ns| == 4 && forall g :: 0 <= g < 4 ==> ns[g] == ParamName(lm(c.0), c.1, GaussPars[g])
    ensures forall g :: 0 <= g < 4 ==> ns[g] == Prefix(lm, c) + GaussPars[g]
  {
    seq(4, g requires 0 <= g < 4 => ParamName(lm(c.0), c.1, GaussPars[g]))
  }

  /** The keys of `make_params`: each component's four names, in component order. */
  function ParamNames(lm: string -> string, cs: seq<(string, nat)>): (ns: seq<string>)
    ensures |ns| == 4 * |cs|
  {
    if |cs| == 0 then [] else ParamNames(lm, cs[..|cs| - 1]) + ComponentNames(lm, cs[|cs| - 1])
  }

  /** Every parameter of every component is among the keys. */
  lemma {:induction false} ParamNamesComplete(lm: string -> string, cs: seq<(string, nat)>, k: nat, g: nat)
    requires k < |cs| && g < 4
    ensures ParamName(lm(cs[k].0), cs[k].1, GaussPars[g]) in ParamNames(lm, cs)
    decreases |cs|
  {
    var p := cs[..|cs| - 1];
    if k < |cs| - 1 {
      assert p[k] == cs[k];
      ParamNamesComplete(lm, p, k, g);
    } else {
      assert ComponentNames(lm, cs[k])[g] == ParamName(lm(cs[k].0), cs[k].1, GaussPars[g]);
    }
  }

  /** The parameters of a fresh composite model. */
  function Fresh(names: seq<string>): (m: map<string, Param>)
    ensures forall n :: n in m <==> n in names
    ensures forall n :: n in m ==> m[n] == Unset
  {
    map n | n in names :: Unset
  }

  // ---------------------------------------------------------------------
  // Per-parameter settings

  /** The settings the loop gives parameter `gpar` of component `comp` of `line`. */
  function GaussSettings(line: string, comp: int, gpar: string, ctx: Context): Result<Settings, InitError> {
    var inp := ctx.inp;
    if gpar == "flx" then
      var f :- At(inp.initflux, line, comp);
      var tied := if line in ctx.dblt then ThirdOf(ParamName(inp.lm(ctx.dblt[line]), comp, "flx")) else Untied;
      Ok(Settings(Some(Fin(f)), true, Some((true, false)), Some(tied), Some((Fin(0.0), Fin(0.0)))))
    else if gpar == "cwv" then
      var z :- At(inp.linelistz, line, comp);
      if line !in inp.linetie then Err(MissingInput(line))
      else
        var target := inp.linetie[line];
        if target != line && line !in ctx.rest then Err(MissingInput(line))
        else if target != line && target !in ctx.rest then Err(MissingInput(target))
        else
          var tied := if target != line
            then RestScaled(ctx.rest[line], ctx.rest[target], ParamName(inp.lm(target), comp, "cwv"))
            else Untied;
          Ok(Settings(Some(Fin(z)), true, Some((true, true)), Some(tied), Some((Fin(z * 0.997), Fin(z * 1.003)))))
    else if gpar == "sig" then
      var s :- At(inp.initsig, line, comp);
      if line !in inp.linetie then Err(MissingInput(line))
      else
        var target := inp.linetie[line];
        var tied := if target != line then SameAs(ParamName(inp.lm(target), comp, "sig")) else Untied;
        Ok(Settings(Some(Fin(s)), true, Some((true, true)), Some(tied), Some((Fin(ctx.siglim.0), Fin(ctx.siglim.1)))))
    else
      Ok(Settings(Some(Fin(ctx.specres)), false, None, Some(Untied), None))
  }

  /** The settings of a parameter, found by parsing its name. */
  function NameSettings(name: string, ctx: Context): Result<Settings, InitError> {
    match ParseParamName(name)
    case None => Err(BadParamName(name))
    case Some((lmline, comp, gpar)) => GaussSettings(ctx.inp.unlm(lmline), comp, gpar, ctx)
  }

  /** For a name the builder made, parsing leads back to the line's own settings. */
  lemma NameSettingsOfComponent(line: string, comp: nat, g: nat, ctx: Context)
    requires g < 4
    requires ctx.inp.unlm(ctx.inp.lm(line)) == line
    ensures NameSettings(ParamName(ctx.inp.lm(line), comp, GaussPars[g]), ctx) == GaussSettings(line, comp, GaussPars[g], ctx)
  {
    ParseParamNameRoundTrip(ctx.inp.lm(line), comp, GaussPars[g]);
  }

  /** `flx`: value from `initflux`, minimum 0, no maximum, tied to a third of the stronger doublet line exactly when the line is a weaker fixed-ratio member. */
  lemma FluxParamFacts(line: string, comp: nat, ctx: Context)
    requires GaussSettings(line, comp, "flx", ctx).Ok?
    ensures var p := Configure(Unset, GaussSettings(line, comp, "flx", ctx).value);
      && p.value == Fin(ctx.inp.initflux[line][comp])
      && p.min == Fin(0.0) && p.max == PosInf && p.vary
      && (p.expr.ThirdOf? <==> line in ctx.dblt)
      && (line in ctx.dblt ==> p.expr == ThirdOf(ParamName(ctx.inp.lm(ctx.dblt[line]), comp, "flx")))
  {
  }

  /** `cwv`: bounded to 0.997 .. 1.003 times the observed wavelength, tied with the rest-wavelength ratio exactly when the line is tied elsewhere. */
  lemma CentreParamFacts(line: string, comp: nat, ctx: Context)
    requires GaussSettings(line, comp, "cwv", ctx).Ok?
    ensures var p := Configure(Unset, GaussSettings(line, comp, "cwv", ctx).value);
      var z := ctx.inp.linelistz[line][comp];
      var target := ctx.inp.linetie[line];
      && p.value == Fin(z) && p.min == Fin(z * 0.997) && p.max == Fin(z * 1.003) && p.vary
      && (p.expr != Untied <==> target != line)
      && (target != line ==> p.expr == RestScaled(ctx.rest[line], ctx.rest[target], ParamName(ctx.inp.lm(target), comp, "cwv")))
  {
  }

  /** `sig`: bounded to `siglim`, tied to the same component of the tie target exactly when the line is tied elsewhere. */
  lemma SigmaParamFacts(line: string, comp: nat, ctx: Context)
    requires GaussSettings(line, comp, "sig", ctx).Ok?
    ensures var p := Configure(Unset, GaussSettings(line, comp, "sig", ctx).value);
      var target := ctx.inp.linetie[line];
      && p.value == Fin(ctx.inp.initsig[line][comp])
      && p.min == Fin(ctx.siglim.0) && p.max == Fin(ctx.siglim.1) && p.vary
      && (p.expr != Untied <==> target != line)
      && (target != line ==> p.expr == SameAs(ParamName(ctx.inp.lm(target), comp, "sig")))
  {
  }

  /** `srsigslam` is fixed at `specres` and left unbounded. */
  lemma ResolutionParamFacts(line: string, comp: int, ctx: Context)
    ensures GaussSettings(line, comp, "srsigslam", ctx).Ok?
    ensures var p := Configure(Unset, GaussSettings(line, comp, "srsigslam", ctx).value);
      p == Param(Fin(ctx.specres), NegInf, PosInf, false, Untied)
  {
  }

  // ---------------------------------------------------------------------
  // The parameter loop

  /** `set_params` applied to each name in turn; the first failing name raises. */
  function GaussPass(entries: map<string, Param>, names: seq<string>, ctx: Context): (r: Result<map<string, Param>, InitError>)
    requires forall k :: 0 <= k < |names| ==> names[k] in entries
    ensures r.Ok? ==> r.value.Keys == entries.Keys
  {
    if |names| == 0 then Ok(entries)
    else
      var m :- GaussPass(entries, names[..|names| - 1], ctx);
      var n := names[|names| - 1];
      var s :- NameSettings(n, ctx);
      Ok(m[n := Configure(m[n], s)])
  }

  /** One more name extends the pass by that name's settings, or ends it with their exception. */
  lemma GaussPassStep(entries: map<string, Param>, names: seq<string>, i: nat, ctx: Context)
    requires forall k :: 0 <= k < |names| ==> names[k] in entries
    requires i < |names|
    ensures var r := GaussPass(entries, names[..i], ctx);
      var s := NameSettings(names[i], ctx);
      GaussPass(entries, names[..i + 1], ctx)
        == if r.Err? then r else if s.Err? then Err(s.error) else Ok(r.value[names[i] := Configure(r.value[names[i]], s.value)])
  {
    assert names[..i + 1][..i] == names[..i];
  }

  /** A name without settings ends the loop with its exception. */
  lemma {:induction false} GaussPassFailureSticks(entries: map<string, Param>, names: seq<string>, ctx: Context, j: nat)
    requires forall k :: 0 <= k < |names| ==> names[k] in entries
    requires j <= |names| && GaussPass(entries, names[..j], ctx).Err?
    ensures GaussPass(entries, names, ctx) == GaussPass(entries, names[..j], ctx)
    decreases |names|
  {
    if j < |names| {
      var p := names[..|names| - 1];
      assert p[..j] == names[..j];
      GaussPassFailureSticks(entries, p, ctx, j);
    } else {
      assert names[..j] == names;
    }
  }

  /**
   * The loop succeeds exactly when every name has settings; each listed
   * parameter then ends up configured once by its own settings, and the
   * others are untouched, however often a name is listed.
   */
  lemma {:induction false} GaussPassSettles(entries: map<string, Param>, names: seq<string>, ctx: Context)
    requires forall k :: 0 <= k < |names| ==> names[k] in entries
    ensures GaussPass(entries, names, ctx).Ok? <==> forall k :: 0 <= k < |names| ==> NameSettings(names[k], ctx).Ok?
    ensures GaussPass(entries, names, ctx).Ok? ==>
      forall n :: n in entries ==>
        GaussPass(entries, names, ctx).value[n] ==
          if n in names then Configure(entries[n], NameSettings(n, ctx).value) else entries[n]
    decreases |names|
  {
    if |names| > 0 {
      var p := names[..|names| - 1];
      var last := names[|names| - 1];
      assert names == p + [last];
      assert forall k :: 0 <= k < |p| ==> p[k] == names[k];
      GaussPassSettles(entries, p, ctx);
      if GaussPass(entries, names, ctx).Ok? {
        var m := GaussPass(entries, p, ctx).value;
        var s := NameSettings(last, ctx).value;
        forall n | n in entries
          ensures GaussPass(entries, names, ctx).value[n] ==
            if n in names then Configure(entries[n], NameSettings(n, ctx).value) else entries[n]
        {
          if n == last && n in p {
            ConfigureIdempotent(entries[n], s);
          }
        }
      }
      if forall k :: 0 <= k < |names| ==> NameSettings(names[k], ctx).Ok? {
        assert NameSettings(names[|names| - 1], ctx).Ok?;
      }
    }
  }

  // ---------------------------------------------------------------------
  // Line ratios

  /** One row of the `lineratio` table; optional columns are present when named in `columns`. */
  datatype RatioRow = RatioRow(line1: string, line2: string, comp: int, value: real, fixed: bool, lower: real, upper: real)

  datatype RatioTable = RatioTable(isTable: bool, columns: set<string>, rows: seq<RatioRow>)

  /** A bound to write into the ratio parameter, or `None` to leave it as created. */
  datatype Bounds = Bounds(lower: Option<Ext>, upper: Option<Ext>)

  /** `f'{l1}_div_{l2}_{comp}'` */
  function RatioName(lm: string -> string, row: RatioRow): string {
    lm(row.line1) + "_div_" + lm(row.line2) + "_" + IntToString(row.comp)
  }

  /** The doublet rows whose `line1` (forward) or `line2` (reverse) column holds `line`. */
  function Occurrences(doublets: seq<DoubletRow>, line: string, forward: bool): (occ: seq<DoubletRow>)
    ensures |occ| <= |doublets|
    ensures forall d :: d in occ ==> d in doublets && (if forward then d.line1 else d.line2) == line
    ensures forall d :: d in doublets && (if forward then d.line1 else d.line2) == line ==> d in occ
  {
    if |doublets| == 0 then []
    else
      var d := doublets[0];
      (if (if forward then d.line1 else d.line2) == line then [d] else []) + Occurrences(doublets[1..], line, forward)
  }

  /**
   * The doublet-table bounds of the ratio `line1 / line2`: the table's own
   * when the pair is listed in that order, reciprocals with the roles swapped
   * when it is listed in reverse, none when `line1` is listed with another
   * partner or not at all.  Several rows for `line1` make the comparison
   * ambiguous.
   */
  function DoubletBounds(doublets: seq<DoubletRow>, line1: string, line2: string): (r: Result<Bounds, InitError>)
    ensures r.Err? <==>
      || |Occurrences(doublets, line1, true)| > 1
      || (|Occurrences(doublets, line1, true)| == 0 && |Occurrences(doublets, line1, false)| > 1)
  {
    var fwd := Occurrences(doublets, line1, true);
    var rev := Occurrences(doublets, line1, false);
    if |fwd| > 0 then
      if |fwd| > 1 then Err(AmbiguousDoublet(line1))
      else if fwd[0].line2 == line2 then Ok(Bounds(Some(Fin(fwd[0].lower)), Some(Fin(fwd[0].upper))))
      else Ok(Bounds(None, None))
    else if |rev| > 0 then
      if |rev| > 1 then Err(AmbiguousDoublet(line1))
      else if rev[0].line1 == line2 then Ok(Bounds(Some(Recip(rev[0].upper)), Some(Recip(rev[0].lower))))
      else Ok(Bounds(None, None))
    else Ok(Bounds(None, None))
  }

  /** The bounds of a ratio parameter: an explicit column wins, bound by bound, over the doublet table. */
  function RatioBounds(doublets: seq<DoubletRow>, cols: set<string>, row: RatioRow): Result<Bounds, InitError> {
    if "lower" in cols && "upper" in cols then Ok(Bounds(Some(Fin(row.lower)), Some(Fin(row.upper))))
    else
      var d :- DoubletBounds(doublets, row.line1, row.line2);
      Ok(Bounds(if "lower" in cols then Some(Fin(row.lower)) else d.lower,
                if "upper" in cols then Some(Fin(row.upper)) else d.upper))
  }

  /** Explicit `lower` and `upper` columns always take priority. */
  lemma ExplicitBoundsWin(doublets: seq<DoubletRow>, cols: set<string>, row: RatioRow)
    ensures "lower" in cols && "upper" in cols ==> RatioBounds(doublets, cols, row).Ok?
    ensures RatioBounds(doublets, cols, row).Ok? && "lower" in cols ==> RatioBounds(doublets, cols, row).value.lower == Some(Fin(row.lower))
    ensures RatioBounds(doublets, cols, row).Ok? && "upper" in cols ==> RatioBounds(doublets, cols, row).value.upper == Some(Fin(row.upper))
  {
  }

  /** A doublet given in either order gets the table's bounds, as reciprocals with min and max swapped when reversed. */
  lemma DoubletEitherOrder(doublets: seq<DoubletRow>, d: DoubletRow)
    requires doublets == [d] && d.line1 != d.line2
    ensures DoubletBounds(doublets, d.line1, d.line2) == Ok(Bounds(Some(Fin(d.lower)), Some(Fin(d.upper))))
    ensures DoubletBounds(doublets, d.line2, d.line1) == Ok(Bounds(Some(Recip(d.upper)), Some(Recip(d.lower))))
  {
    assert Occurrences(doublets, d.line1, true) == [d];
    assert Occurrences(doublets, d.line2, true) == [];
    assert Occurrences(doublets, d.line2, false) == [d];
  }

  /**
   * The bound logic as written: both blocks share the variables `lower` and
   * `upper` across rows, the reverse-order branch of each block writes the
   * other bound, and a doublet row with a different partner leaves the
   * variable as it was.  Returns the bounds written and the variables after
   * the row (`None`: never assigned).
   */
  function RatioBoundsAsWritten(doublets: seq<DoubletRow>, cols: set<string>, row: RatioRow, stale: Bounds)
    : Result<(Bounds, Bounds), InitError>
  {
    var fwd := Occurrences(doublets, row.line1, true);
    var rev := Occurrences(doublets, row.line1, false);
    // lower block: (min written, max written, variables)
    var first: Result<(Option<Ext>, Option<Ext>, Bounds), InitError> :=
      if "lower" in cols then Ok((Some(Fin(row.lower)), None, stale.(lower := Some(Fin(row.lower)))))
      else if |fwd| > 0 then
        if |fwd| > 1 then Err(AmbiguousDoublet(row.line1))
        else
          var v := if fwd[0].line2 == row.line2 then stale.(lower := Some(Fin(fwd[0].lower))) else stale;
          if v.lower.None? then Err(UnboundBound) else Ok((v.lower, None, v))
      else if |rev| > 0 then
        if |rev| > 1 then Err(AmbiguousDoublet(row.line1))
        else
          var v := if rev[0].line1 == row.line2 then stale.(upper := Some(Recip(rev[0].lower))) else stale;
          if v.upper.None? then Err(UnboundBound) else Ok((None, v.upper, v))
      else Ok((None, None, stale));
    var (min1, max1, v1) :- first;
    // upper block
    var second: Result<(Option<Ext>, Option<Ext>, Bounds), InitError> :=
      if "upper" in cols then Ok((None, Some(Fin(row.upper)), v1.(upper := Some(Fin(row.upper)))))
      else if |fwd| > 0 then
        if |fwd| > 1 then Err(AmbiguousDoublet(row.line1))
        else
          var v := if fwd[0].line2 == row.line2 then v1.(upper := Some(Fin(fwd[0].upper))) else v1;
          if v.upper.None? then Err(UnboundBound) else Ok((None, v.upper, v))
      else if |rev| > 0 then
        if |rev| > 1 then Err(AmbiguousDoublet(row.line1))
        else
          var v := if rev[0].line1 == row.line2 then v1.(lower := Some(Recip(rev[0].upper))) else v1;
          if v.lower.None? then Err(UnboundBound) else Ok((v.lower, None, v))
      else Ok((None, None, v1));
    var (min2, max2, v2) :- second;
    Ok((Bounds(if min2.Some? then min2 else min1, if max2.Some? then max2 else max1), v2))
  }

  /** A reversed doublet with only a `lower` column loses that lower bound and gets no upper bound. */
  lemma ReversedLowerOnlyAsWritten()
    ensures var d := DoubletRow("[OIII]5007", "[OIII]4959", 1, 2.9, 3.1);
      var row := RatioRow("[OIII]4959", "[OIII]5007", 0, 0.0, false, 0.2, 0.0);
      var cols := {"line1", "line2", "comp", "lower"};
      && RatioBoundsAsWritten([d], cols, row, Bounds(None, None)).Ok?
      && RatioBoundsAsWritten([d], cols, row, Bounds(None, None)).value.0 == Bounds(Some(Recip(3.1)), None)
      && RatioBounds([d], cols, row) == Ok(Bounds(Some(Fin(0.2)), Some(Recip(2.9))))
  {
    var d := DoubletRow("[OIII]5007", "[OIII]4959", 1, 2.9, 3.1);
    assert Occurrences([d], "[OIII]4959", true) == [];
    assert Occurrences([d], "[OIII]4959", false) == [d];
  }

  /** A reversed doublet with only an `upper` column keeps that upper bound but never gets a lower bound. */
  lemma ReversedUpperOnlyAsWritten()
    ensures var d := DoubletRow("[OIII]5007", "[OIII]4959", 1, 2.9, 3.1);
      var row := RatioRow("[OIII]4959", "[OIII]5007", 0, 0.0, false, 0.0, 0.4);
      var cols := {"line1", "line2", "comp", "upper"};
      && RatioBoundsAsWritten([d], cols, row, Bounds(None, None)).Ok?
      && RatioBoundsAsWritten([d], cols, row, Bounds(None, None)).value.0 == Bounds(None, Some(Fin(0.4)))
      && RatioBounds([d], cols, row) == Ok(Bounds(Some(Recip(3.1)), Some(Fin(0.4))))
  {
    var d := DoubletRow("[OIII]5007", "[OIII]4959", 1, 2.9, 3.1);
    assert Occurrences([d], "[OIII]4959", true) == [];
    assert Occurrences([d], "[OIII]4959", false) == [d];
  }

  /** A doublet row with another partner reuses the previous row's bound, or fails when there is none. */
  lemma OtherPartnerAsWritten()
    ensures var d := DoubletRow("[SII]6716", "[SII]6731", 0, 0.44, 1.43);
      var row := RatioRow("[SII]6716", "[NII]6583", 0, 0.0, false, 0.0, 0.0);
      var cols := {"line1", "line2", "comp"};
      && RatioBoundsAsWritten([d], cols, row, Bounds(None, None)) == Err(UnboundBound)
      && RatioBoundsAsWritten([d], cols, row, Bounds(Some(Fin(7.0)), Some(Fin(9.0)))).Ok?
      && RatioBoundsAsWritten([d], cols, row, Bounds(Some(Fin(7.0)), Some(Fin(9.0)))).value.0 == Bounds(Some(Fin(7.0)), Some(Fin(9.0)))
      && RatioBounds([d], cols, row) == Ok(Bounds(None, None))
  {
    var d := DoubletRow("[SII]6716", "[SII]6731", 0, 0.44, 1.43);
    assert Occurrences([d], "[SII]6716", true) == [d];
  }

  /** Where the code as written fails on neither defect, it agrees with the corrected bounds. */
  lemma {:induction false} AsWrittenAgreesOnMatchedPairs(doublets: seq<DoubletRow>, cols: set<string>, row: RatioRow, stale: Bounds)
    requires "lower" in cols <==> "upper" in cols
    requires var fwd := Occurrences(doublets, row.line1, true);
      var rev := Occurrences(doublets, row.line1, false);
      (|fwd| == 1 ==> fwd[0].line2 == row.line2) && (|fwd| == 0 && |rev| == 1 ==> rev[0].line1 == row.line2)
    ensures RatioBoundsAsWritten(doublets, cols, row, stale).Ok? ==>
      RatioBounds(doublets, cols, row) == Ok(RatioBoundsAsWritten(doublets, cols, row, stale).value.0)
  {
  }

  /** The ratio row's parameter-name pair `{l}_{comp}_flx`. */
  function FluxName(lm: string -> string, line: string, comp: int): string {
    ParamName(lm(line), comp, "flx")
  }

  /** A ratio name ends in a digit, a flux name in `x`: they never collide. */
  lemma RatioNameIsNotFluxName(lm: string -> string, row: RatioRow, line: string, comp: int)
    ensures RatioName(lm, row) != FluxName(lm, line, comp)
  {
    IntEndsInDigit(row.comp);
    var r := RatioName(lm, row);
    assert r[|r| - 1] == IntToString(row.comp)[|IntToString(row.comp)| - 1];
  }

  /** The parameter state: keys in insertion order and the parameters. */
  datatype State = State(names: seq<string>, entries: map<string, Param>)

  /** The parameters a tie expression names. */
  function TieNames(t: Tie): set<string> {
    match t
    case Untied => {}
    case ThirdOf(s) => {s}
    case RestScaled(_, _, x) => {x}
    case SameAs(x) => {x}
    case Quotient(x, q) => {x, q}
  }

  /**
   * A tie evaluated over the stored values of the parameters it names, as
   * lmfit's expression evaluator does: a name that is not a parameter raises
   * NameError. The constant quotient of `RestScaled` divides two Python float
   * literals, so a zero denominator raises ZeroDivisionError before the name
   * is looked up; the quotient of two parameters divides numpy floats, so a
   * zero ratio gives an infinity or NaN instead of raising.
   */
  function TieValue(e: map<string, Param>, t: Tie): (r: Result<Ext, InitError>)
    requires !t.Untied?
    ensures r.Ok? ==> TieNames(t) <= e.Keys
    ensures (exists x :: x in TieNames(t) && x !in e) && !(t.RestScaled? && t.denom == 0.0) ==> r.Err? && r.error.UndefinedName?
    ensures t.ThirdOf? && t.strong in e ==> r == Ok(Div(e[t.strong].value, Fin(3.0)))
    ensures t.SameAs? && t.target in e ==> r == Ok(e[t.target].value)
    ensures t.RestScaled? && t.target in e && t.denom != 0.0 ==> r == Ok(Mul(Fin(t.numer / t.denom), e[t.target].value))
    ensures t.Quotient? && t.dividend in e && t.ratio in e ==> r == Ok(Div(e[t.dividend].value, e[t.ratio].value))
  {
    match t
    case ThirdOf(s) => if s !in e then Err(UndefinedName(s)) else Ok(Div(e[s].value, Fin(3.0)))
    case RestScaled(n, d, x) =>
      if d == 0.0 then Err(ZeroDivision)
      else if x !in e then Err(UndefinedName(x))
      else Ok(Mul(Fin(n / d), e[x].value))
    case SameAs(x) => if x !in e then Err(UndefinedName(x)) else Ok(e[x].value)
    case Quotient(x, q) =>
      if x !in e then Err(UndefinedName(x))
      else if q !in e then Err(UndefinedName(q))
      else Ok(Div(e[x].value, e[q].value))
  }

  /** The value lmfit reads for parameter `n`: the stored value when untied, the evaluated tie otherwise. */
  function ReadValue(e: map<string, Param>, n: string): (r: Result<Ext, InitError>)
    requires n in e
    ensures e[n].expr.Untied? ==> r == Ok(e[n].value)
    ensures !e[n].expr.Untied? ==> r == TieValue(e, e[n].expr)
  {
    if e[n].expr.Untied? then Ok(e[n].value) else TieValue(e, e[n].expr)
  }

  /**
   * The initial value of a ratio parameter: the `value` column, else
   * `np.divide` of the two fluxes as lmfit reads them, the first one first.
   */
  function InitialRatio(e: map<string, Param>, cols: set<string>, row: RatioRow, f1: string, f2: string)
    : (r: Result<Ext, InitError>)
    requires f1 in e && f2 in e
    ensures "value" in cols ==> r == Ok(Fin(row.value))
    ensures "value" !in cols && ReadValue(e, f1).Err? ==> r == Err(ReadValue(e, f1).error)
    ensures "value" !in cols && ReadValue(e, f1).Ok? ==>
      r == if ReadValue(e, f2).Err? then Err(ReadValue(e, f2).error) else Ok(Div(ReadValue(e, f1).value, ReadValue(e, f2).value))
  {
    if "value" in cols then Ok(Fin(row.value))
    else
      var v1 :- ReadValue(e, f1);
      var v2 :- ReadValue(e, f2);
      Ok(Div(v1, v2))
  }

  /**
   * A ratio over a fixed-ratio doublet reads the weaker flux through its tie
   * to a third of the stronger one, so the initial ratio is 3 whatever the
   * weaker line's own initial flux was.
   */
  lemma DoubletRatioReadsTie(e: map<string, Param>, cols: set<string>, row: RatioRow, f1: string, f2: string)
    requires f1 in e && f2 in e && "value" !in cols
    requires e[f1].expr.Untied? && e[f1].value.Fin? && e[f1].value.v != 0.0
    requires e[f2].expr == ThirdOf(f1)
    ensures InitialRatio(e, cols, row, f1, f2) == Ok(Fin(3.0))
  {
    var x := e[f1].value.v;
    assert ReadValue(e, f2) == Ok(Fin(x / 3.0));
    var y := x / 3.0;
    assert x == 3.0 * y;
    assert y != 0.0;
    assert x / y == 3.0;
  }

  /**
   * A flux tied by an earlier ratio row to `f1/ratio` is read with numpy
   * division: a zero ratio gives NaN over a zero flux and an infinity over
   * any other finite flux, and the ratio block carries on.
   */
  lemma ZeroRatioReadsNonFinite(e: map<string, Param>, f1: string, rat: string, f2: string)
    requires f1 in e && rat in e && f2 in e
    requires e[f2].expr == Quotient(f1, rat) && e[rat].value == Fin(0.0) && e[f1].value.Fin?
    ensures ReadValue(e, f2).Ok?
    ensures e[f1].value.v == 0.0 ==> ReadValue(e, f2).value.NaN?
    ensures e[f1].value.v != 0.0 ==> IsInf(ReadValue(e, f2).value)
  {
    assert ReadValue(e, f2) == Ok(Div(e[f1].value, Fin(0.0)));
  }

  /** A weaker doublet line whose stronger line has no parameter makes the ratio raise NameError. */
  lemma MissingStrongLineRaises(e: map<string, Param>, cols: set<string>, row: RatioRow, f1: string, f2: string, strong: string)
    requires f1 in e && f2 in e && "value" !in cols
    requires e[f1].expr.Untied? && e[f2].expr == ThirdOf(strong) && strong !in e
    ensures InitialRatio(e, cols, row, f1, f2) == Err(UndefinedName(strong))
  {
  }

  /** One row of the ratio loop, with the corrected bounds. */
  function RatioStep(st: State, cols: set<string>, row: RatioRow, doublets: seq<DoubletRow>, lm: string -> string)
    : Result<State, InitError>
  {
    var f1 := FluxName(lm, row.line1, row.comp);
    var f2 := FluxName(lm, row.line2, row.comp);
    if f1 !in st.entries || f2 !in st.entries then Ok(st)
    else
      var initval :- InitialRatio(st.entries, cols, row, f1, f2);
      var rat := RatioName(lm, row);
      var b :- RatioBounds(doublets, cols, row);
      var p := Param(initval, if b.lower.Some? then b.lower.value else NegInf,
                     if b.upper.Some? then b.upper.value else PosInf,
                     !("fixed" in cols && row.fixed), Untied);
      var e := st.entries[rat := p];
      RatioNameIsNotFluxName(lm, row, row.line2, row.comp);
      Ok(State(if rat in st.entries then st.names else st.names + [rat],
               e[f2 := e[f2].(expr := Quotient(f1, rat))]))
  }

  /** Writing a key twice leaves only the second value. */
  lemma OverwriteTwice<K, V>(m: map<K, V>, k: K, a: V, b: V)
    ensures m[k := a][k := b] == m[k := b]
  {
  }

  /** The two outcomes of a row whose flux parameters both exist, spelled out for the in-place loop. */
  lemma RatioStepUnfolds(st: State, cols: set<string>, row: RatioRow, doublets: seq<DoubletRow>, lm: string -> string)
    requires FluxName(lm, row.line1, row.comp) in st.entries && FluxName(lm, row.line2, row.comp) in st.entries
    ensures var f1 := FluxName(lm, row.line1, row.comp);
      var f2 := FluxName(lm, row.line2, row.comp);
      var rat := RatioName(lm, row);
      var b := RatioBounds(doublets, cols, row);
      var iv := InitialRatio(st.entries, cols, row, f1, f2);
      && (iv.Err? ==> RatioStep(st, cols, row, doublets, lm) == Err(iv.error))
      && (iv.Ok? && b.Err? ==> RatioStep(st, cols, row, doublets, lm) == Err(b.error))
      && (iv.Ok? && b.Ok? ==>
            var p := Param(iv.value, if b.value.lower.Some? then b.value.lower.value else NegInf,
                           if b.value.upper.Some? then b.value.upper.value else PosInf,
                           !("fixed" in cols && row.fixed), Untied);
            RatioStep(st, cols, row, doublets, lm)
              == Ok(State(if rat in st.entries then st.names else st.names + [rat],
                          st.entries[rat := p][f2 := st.entries[f2].(expr := Quotient(f1, rat))])))
  {
    RatioNameIsNotFluxName(lm, row, row.line2, row.comp);
  }

  /**
   * A row whose two flux parameters exist adds the ratio parameter (its value,
   * `vary` and bounds as the row says) and ties the second flux to the first
   * divided by it; nothing else changes.  Any other row changes nothing.
   */
  lemma RatioStepEffect(st: State, cols: set<string>, row: RatioRow, doublets: seq<DoubletRow>, lm: string -> string)
    requires RatioStep(st, cols, row, doublets, lm).Ok?
    ensures var f1 := FluxName(lm, row.line1, row.comp);
      var f2 := FluxName(lm, row.line2, row.comp);
      var rat := RatioName(lm, row);
      var e := RatioStep(st, cols, row, doublets, lm).value.entries;
      if f1 in st.entries && f2 in st.entries then
        var b := RatioBounds(doublets, cols, row).value;
        && e.Keys == st.entries.Keys + {rat}
        && InitialRatio(st.entries, cols, row, f1, f2).Ok?
        && e[rat].value == InitialRatio(st.entries, cols, row, f1, f2).value
        && e[rat].vary == !("fixed" in cols && row.fixed)
        && e[rat].min == (if b.lower.Some? then b.lower.value else NegInf)
        && e[rat].max == (if b.upper.Some? then b.upper.value else PosInf)
        && e[f2] == st.entries[f2].(expr := Quotient(f1, rat))
        && (forall n :: n in st.entries && n != rat && n != f2 ==> e[n] == st.entries[n])
      else RatioStep(st, cols, row, doublets, lm).value == st
  {
    RatioNameIsNotFluxName(lm, row, row.line2, row.comp);
  }

  /** The ratio rows applied in table order; the first failing row raises. */
  function RatioRows(st: State, cols: set<string>, rows: seq<RatioRow>, doublets: seq<DoubletRow>, lm: string -> string)
    : Result<State, InitError>
  {
    if |rows| == 0 then Ok(st)
    else
      var s :- RatioRows(st, cols, rows[..|rows| - 1], doublets, lm);
      RatioStep(s, cols, rows[|rows| - 1], doublets, lm)
  }

  /** A failing row ends the loop: later rows cannot undo the exception. */
  lemma {:induction false} RatioRowsFailureSticks(st: State, cols: set<string>, rows: seq<RatioRow>,
                                                  doublets: seq<DoubletRow>, lm: string -> string, j: nat)
    requires j <= |rows| && RatioRows(st, cols, rows[..j], doublets, lm).Err?
    ensures RatioRows(st, cols, rows, doublets, lm) == RatioRows(st, cols, rows[..j], doublets, lm)
    decreases |rows|
  {
    if j < |rows| {
      var p := rows[..|rows| - 1];
      assert p[..j] == rows[..j];
      RatioRowsFailureSticks(st, cols, p, doublets, lm, j);
    } else {
      assert rows[..j] == rows;
    }
  }

  /** The whole ratio block, including its checks on the table. */
  function LineRatios(st: State, table: Option<RatioTable>, doublets: seq<DoubletRow>, lm: string -> string)
    : (r: Result<State, InitError>)
    ensures table.Some? && !table.value.isTable ==> r == Err(NotATable)
    ensures table.Some? && table.value.isTable && !({"line1", "line2", "comp"} <= table.value.columns) ==> r == Err(MissingColumns)
    ensures table.None? ==> r == Ok(st)
  {
    match table
    case None => Ok(st)
    case Some(t) =>
      if !t.isTable then Err(NotATable)
      else if !({"line1", "line2", "comp"} <= t.columns) then Err(MissingColumns)
      else RatioRows(st, t.columns, t.rows, doublets, lm)
  }

  // ---------------------------------------------------------------------
  // The whole builder

  /** The components, the keys and the final parameters that `parinit` produces, or its exception. */
  function ParinitSpec(linelist: seq<LineList.Row>, ncomp: map<string, int>, inp: Inputs,
                       siglim: Option<(real, real)>, specres: Option<real>,
                       lineratio: Option<RatioTable>, doublets: seq<DoubletRow>)
    : Result<(seq<(string, nat)>, State), InitError>
  {
    var cs :- Components(LineKeys(linelist), ncomp);
    if |cs| == 0 then Err(NoComponents)
    else
      var ctx := Context(inp, RestWaves(linelist), DoubletPairs(doublets), EffectiveSiglim(siglim), EffectiveSpecres(specres));
      var st :- ParamsSpec(ParamNames(inp.lm, cs), ctx, lineratio, doublets);
      Ok((cs, st))
  }

  /** The parameters of `parinit`: fresh ones, the settings pass, then the optional ratio table. */
  function ParamsSpec(names: seq<string>, ctx: Context, lineratio: Option<RatioTable>, doublets: seq<DoubletRow>)
    : Result<State, InitError>
  {
    var e :- GaussPass(Fresh(names), names, ctx);
    LineRatios(State(names, e), lineratio, doublets, ctx.inp.lm)
  }

  /**
   * Without a ratio table, every parameter of every component is configured
   * by its own line's settings, provided the label mangling can be undone.
   */
  lemma ParinitConfiguresEveryComponent(linelist: seq<LineList.Row>, ncomp: map<string, int>, inp: Inputs,
                                        siglim: Option<(real, real)>, specres: Option<real>,
                                        doublets: seq<DoubletRow>, k: nat, g: nat)
    requires forall n :: inp.unlm(inp.lm(n)) == n
    requires ParinitSpec(linelist, ncomp, inp, siglim, specres, None, doublets).Ok?
    requires g < 4
    ensures var (cs, st) := ParinitSpec(linelist, ncomp, inp, siglim, specres, None, doublets).value;
      var ctx := Context(inp, RestWaves(linelist), DoubletPairs(doublets), EffectiveSiglim(siglim), EffectiveSpecres(specres));
      k < |cs| ==>
        && GaussSettings(cs[k].0, cs[k].1, GaussPars[g], ctx).Ok?
        && ParamName(inp.lm(cs[k].0), cs[k].1, GaussPars[g]) in st.entries
        && st.entries[ParamName(inp.lm(cs[k].0), cs[k].1, GaussPars[g])]
             == Configure(Unset, GaussSettings(cs[k].0, cs[k].1, GaussPars[g], ctx).value)
  {
    var cs := Components(LineKeys(linelist), ncomp).value;
    if k < |cs| {
      var names := ParamNames(inp.lm, cs);
      var ctx := Context(inp, RestWaves(linelist), DoubletPairs(doublets), EffectiveSiglim(siglim), EffectiveSpecres(specres));
      var e := GaussPass(Fresh(names), names, ctx);
      assert ParamsSpec(names, ctx, None, doublets).Ok?;
      assert e.Ok? && ParinitSpec(linelist, ncomp, inp, siglim, specres, None, doublets).value == (cs, State(names, e.value));
      GaussPassConfigures(cs, ctx, k, g);
    }
  }

  /** A successful pass over the fresh parameters configures each Gaussian parameter from its own line's settings. */
  lemma GaussPassConfigures(cs: seq<(string, nat)>, ctx: Context, k: nat, g: nat)
    requires forall n :: ctx.inp.unlm(ctx.inp.lm(n)) == n
    requires k < |cs| && g < 4
    requires GaussPass(Fresh(ParamNames(ctx.inp.lm, cs)), ParamNames(ctx.inp.lm, cs), ctx).Ok?
    ensures var e := GaussPass(Fresh(ParamNames(ctx.inp.lm, cs)), ParamNames(ctx.inp.lm, cs), ctx).value;
      var n := ParamName(ctx.inp.lm(cs[k].0), cs[k].1, GaussPars[g]);
      && GaussSettings(cs[k].0, cs[k].1, GaussPars[g], ctx).Ok?
      && n in e
      && e[n] == Configure(Unset, GaussSettings(cs[k].0, cs[k].1, GaussPars[g], ctx).value)
  {
    var names := ParamNames(ctx.inp.lm, cs);
    var n := ParamName(ctx.inp.lm(cs[k].0), cs[k].1, GaussPars[g]);
    ParamNamesComplete(ctx.inp.lm, cs, k, g);
    GaussPassSettles(Fresh(names), names, ctx);
    var j :| 0 <= j < |names| && names[j] == n;
    assert NameSettings(names[j], ctx).Ok?;
    NameSettingsOfComponent(cs[k].0, cs[k].1, g, ctx);
  }

  // ---------------------------------------------------------------------
  // The imperative builder

  /** `fit_params`: an insertion-ordered dictionary of parameters, updated in place. */
  class Parameters {
    var names: seq<string>
    var entries: map<string, Param>

    ghost predicate Valid()
      reads this
    {
      forall n :: n in entries <==> n in names
    }

    /** `totmod.make_params()` */
    constructor Make(keys: seq<string>)
      ensures Valid() && names == keys && entries == Fresh(keys)
    {
      names := keys;
      entries := Fresh(keys);
    }

    /** `set_params(fit_params, name, ...)` */
    method SetParams(name: string, s: Settings)
      requires Valid() && name in entries
      modifies this
      ensures Valid()
      ensures names == old(names)
      ensures entries == old(entries)[name := Configure(old(entries)[name], s)]
    {
      entries := entries[name := Configure(entries[name], s)];
    }

    /** `fit_params.add(name, value=v)`: a new unbounded, varying parameter, replacing any old one. */
    method Add(name: string, v: Ext)
      requires Valid()
      modifies this
      ensures Valid()
      ensures names == if name in old(entries) then old(names) else old(names) + [name]
      ensures entries == old(entries)[name := NewParam(v)]
    {
      if name !in entries {
        names := names + [name];
      }
      entries := entries[name := NewParam(v)];
    }

    /** Replace one parameter's record (an attribute assignment such as `.min = x`). */
    method Update(name: string, p: Param)
      requires Valid() && name in entries
      modifies this
      ensures Valid()
      ensures names == old(names)
      ensures entries == old(entries)[name := p]
    {
      entries := entries[name := p];
    }

    /** The loop over the keys that parses each name and applies its settings. */
    method ApplyGaussianSettings(ctx: Context) returns (err: Option<InitError>)
      requires Valid()
      modifies this
      ensures Valid() && names == old(names)
      ensures GaussPass(old(entries), old(names), ctx) == (if err.None? then Ok(entries) else Err(err.value))
    {
      ghost var e0 := entries;
      var i := 0;
      while i < |names|
        invariant 0 <= i <= |names| && names == old(names) && Valid()
        invariant forall k :: 0 <= k < |names| ==> names[k] in e0
        invariant GaussPass(e0, names[..i], ctx) == Ok(entries)
      {
        var name := names[i];
        GaussPassStep(e0, names, i, ctx);
        var s := NameSettings(name, ctx);
        if s.Err? {
          GaussPassFailureSticks(e0, names, ctx, i + 1);
          return Some(s.error);
        }
        SetParams(name, s.value);
        i := i + 1;
      }
      assert names[..i] == names;
      err := None;
    }

    /** One row of the ratio loop: add the ratio parameter, set its bounds and `vary`, and tie the second flux to it. */
    method ApplyRatioRow(cols: set<string>, row: RatioRow, doublets: seq<DoubletRow>, lm: string -> string)
      returns (err: Option<InitError>)
      requires Valid()
      modifies this
      ensures Valid()
      ensures RatioStep(old(State(names, entries)), cols, row, doublets, lm)
        == (if err.None? then Ok(State(names, entries)) else Err(err.value))
    {
      ghost var st := State(names, entries);
      var f1 := FluxName(lm, row.line1, row.comp);
      var f2 := FluxName(lm, row.line2, row.comp);
      if f1 !in entries || f2 !in entries {
        return None;
      }
      var iv := InitialRatio(entries, cols, row, f1, f2);
      if iv.Err? {
        RatioStepUnfolds(st, cols, row, doublets, lm);
        return Some(iv.error);
      }
      var initval := iv.value;
      var rat := RatioName(lm, row);
      RatioNameIsNotFluxName(lm, row, row.line2, row.comp);
      var b := RatioBounds(doublets, cols, row);
      if b.Err? {
        RatioStepUnfolds(st, cols, row, doublets, lm);
        return Some(b.error);
      }
      var p := Param(initval, if b.value.lower.Some? then b.value.lower.value else NegInf,
                     if b.value.upper.Some? then b.value.upper.value else PosInf,
                     !("fixed" in cols && row.fixed), Untied);
      var tied := entries[f2].(expr := Quotient(f1, rat));
      RatioStepUnfolds(st, cols, row, doublets, lm);
      ghost var st' := State(if rat in st.entries then st.names else st.names + [rat], st.entries[rat := p][f2 := tied]);
      Add(rat, initval);
      Update(rat, p);
      OverwriteTwice(st.entries, rat, NewParam(initval), p);
      Update(f2, tied);
      assert names == st'.names;
      err := None;
    }

    /** The ratio loop over the rows of a checked table. */
    method ApplyRatioRows(cols: set<string>, rows: seq<RatioRow>, doublets: seq<DoubletRow>, lm: string -> string)
      returns (err: Option<InitError>)
      requires Valid()
      modifies this
      ensures Valid()
      ensures RatioRows(old(State(names, entries)), cols, rows, doublets, lm)
        == (if err.None? then Ok(State(names, entries)) else Err(err.value))
    {
      ghost var st0 := State(names, entries);
      var i := 0;
      while i < |rows|
        invariant 0 <= i <= |rows| && Valid()
        invariant RatioRows(st0, cols, rows[..i], doublets, lm) == Ok(State(names, entries))
      {
        assert rows[..i + 1][..i] == rows[..i];
        err := ApplyRatioRow(cols, rows[i], doublets, lm);
        if err.Some? {
          assert RatioRows(st0, cols, rows[..i + 1], doublets, lm) == Err(err.value);
          RatioRowsFailureSticks(st0, cols, rows, doublets, lm, i + 1);
          return;
        }
        i := i + 1;
      }
      assert rows[..i] == rows;
      err := None;
    }

    /** The optional ratio table: its shape checks, then the ratio loop. */
    method ApplyLineRatios(table: Option<RatioTable>, doublets: seq<DoubletRow>, lm: string -> string)
      returns (err: Option<InitError>)
      requires Valid()
      modifies this
      ensures Valid()
      ensures LineRatios(old(State(names, entries)), table, doublets, lm)
        == (if err.None? then Ok(State(names, entries)) else Err(err.value))
    {
      if table.Some? {
        var t := table.value;
        if !t.isTable {
          return Some(NotATable);
        }
        if !({"line1", "line2", "comp"} <= t.columns) {
          return Some(MissingColumns);
        }
        err := ApplyRatioRows(t.columns, t.rows, doublets, lm);
      } else {
        err := None;
      }
    }
  }

  /** `parinit`: the components (as `totmod`), the parameters, and `siglim` with its default. */
  method Parinit(linelist: seq<LineList.Row>, ncomp: map<string, int>, inp: Inputs,
                 siglim: Option<(real, real)>, specres: Option<real>,
                 lineratio: Option<RatioTable>, doublets: seq<DoubletRow>)
    returns (res: Result<(seq<string>, Parameters, (real, real)), InitError>)
    ensures var spec := ParinitSpec(linelist, ncomp, inp, siglim, specres, lineratio, doublets);
      && (res.Err? <==> spec.Err?)
      && (res.Err? ==> res.error == spec.error)
      && (res.Ok? ==>
            && res.value.0 == seq(|spec.value.0|, k requires 0 <= k < |spec.value.0| => Prefix(inp.lm, spec.value.0[k]))
            && res.value.1.names == spec.value.1.names
            && res.value.1.entries == spec.value.1.entries
            && res.value.2 == EffectiveSiglim(siglim))
  {
    var dblt := BuildDoubletPairs(doublets);
    var sl := EffectiveSiglim(siglim);
    var sr := EffectiveSpecres(specres);
    var keys := LineKeys(linelist);
    var comps := BuildComponents(keys, ncomp);
    if comps.Err? {
      return Err(comps.error);
    }
    var cs := comps.value;
    if |cs| == 0 {
      return Err(NoComponents);
    }
    var totmod := seq(|cs|, k requires 0 <= k < |cs| => Prefix(inp.lm, cs[k]));
    var ctx := Context(inp, RestWaves(linelist), dblt, sl, sr);
    var params, err := MakeParams(ParamNames(inp.lm, cs), ctx, lineratio, doublets);
    if err.Some? {
      return Err(err.value);
    }
    res := Ok((totmod, params, sl));
  }

  /** `totmod.make_params()` followed by the settings pass and the ratio table. */
  method MakeParams(names: seq<string>, ctx: Context, lineratio: Option<RatioTable>, doublets: seq<DoubletRow>)
    returns (params: Parameters, err: Option<InitError>)
    ensures fresh(params)
    ensures ParamsSpec(names, ctx, lineratio, doublets)
      == (if err.None? then Ok(State(params.names, params.entries)) else Err(err.value))
  {
    params := new Parameters.Make(names);
    err := params.ApplyGaussianSettings(ctx);
    if err.Some? {
      return;
    }
    err := params.ApplyLineRatios(lineratio, doublets, ctx.inp.lm);
  }
}
