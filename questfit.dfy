/**
 * The multi-component infrared continuum model of `questfit`: the decision
 * between per-component and global extinction, the composition of
 * blackbody, power-law and template terms, each optionally multiplied by an
 * extinction and an ice-absorption term, into one sum, the restriction of
 * the model inputs to the fitted pixels, and the recombination of the fitted
 * components into a QSO part and a host part.  The lmfit models are terms of
 * a small algebra; their numerics, the template files and the fit are not
 * modelled.
 */
module QuestFit {
  import opened Wrappers
  import opened Strings

  /** A parsed configuration file: its keys in file order and each key's fields. */
  datatype Config = Config(keys: seq<string>, fields: map<string, seq<string>>) {
    /** A Python dict: every key once, and exactly the keys that have fields. */
    predicate Valid() {
      && (forall k :: k in keys ==> k in fields)
      && (forall k :: k in fields ==> k in keys)
      && (forall i, j :: 0 <= i < j < |keys| ==> keys[i] != keys[j])
    }
  }

  datatype QuestError =
    | Halt                   // a single separate template: `sys.exit`
    | KeyError(key: string)
    | IndexError(key: string)
    | Unbound(name: string)  // NameError: no component ever assigned `model`

  // ---------------------------------------------------------------------
  // Global extinction

  /** Some entry's fourth field contains `global`; entries too short to have one are skipped. */
  predicate GlobalExtinction(c: Config) {
    exists k :: k in c.fields && |c.fields[k]| > 3 && Contains(c.fields[k][3], "global")
  }

  /** The loop that raises the global-extinction flag. */
  method ScanGlobalExtinction(c: Config) returns (global: bool)
    requires c.Valid()
    ensures global == GlobalExtinction(c)
  {
    global := false;
    var i := 0;
    while i < |c.keys|
      invariant 0 <= i <= |c.keys|
      invariant global <==> exists j :: 0 <= j < i && |c.fields[c.keys[j]]| > 3 && Contains(c.fields[c.keys[j]][3], "global")
    {
      var f := c.fields[c.keys[i]];
      if |f| > 3 && Contains(f[3], "global") {
        global := true;
      }
      i := i + 1;
    }
    if GlobalExtinction(c) {
      var k :| k in c.fields && |c.fields[k]| > 3 && Contains(c.fields[k][3], "global");
      var j :| 0 <= j < |c.keys| && c.keys[j] == k;
    }
  }

  /** Python's `word in entry` for a list of fields: one field equals `word`. */
  predicate Lists(fields: map<string, seq<string>>, k: string, word: string)
    requires k in fields
  {
    word in fields[k]
  }

  /** The last of `keys` whose fields include `word` as a whole field, else `default`. */
  function LastKeyWith(keys: seq<string>, fields: map<string, seq<string>>, word: string, default: string): string
    requires forall k :: k in keys ==> k in fields
  {
    if |keys| == 0 then default
    else if Lists(fields, keys[|keys| - 1], word) then keys[|keys| - 1]
    else LastKeyWith(keys[..|keys| - 1], fields, word, default)
  }

  /** The chosen key carries the word and no later key does; without any such key the default stays. */
  lemma {:induction false} LastKeyWithIsLast(keys: seq<string>, fields: map<string, seq<string>>, word: string, default: string)
    requires forall k :: k in keys ==> k in fields
    ensures (forall j :: 0 <= j < |keys| ==> !Lists(fields, keys[j], word)) ==> LastKeyWith(keys, fields, word, default) == default
    ensures (exists j :: 0 <= j < |keys| && Lists(fields, keys[j], word)) ==>
      exists i :: 0 <= i < |keys| && keys[i] == LastKeyWith(keys, fields, word, default) && LastWith(keys, fields, word, i)
  {
    if |keys| > 0 {
      var n := |keys| - 1;
      var p := keys[..n];
      assert forall k :: k in p ==> k in keys;
      LastKeyWithIsLast(p, fields, word, default);
      if Lists(fields, keys[n], word) {
        assert LastWith(keys, fields, word, n);
      } else {
        if exists j :: 0 <= j < |keys| && Lists(fields, keys[j], word) {
          var j :| 0 <= j < |keys| && Lists(fields, keys[j], word);
          assert j < n && p[j] == keys[j];
          var i :| 0 <= i < |p| && p[i] == LastKeyWith(p, fields, word, default) && LastWith(p, fields, word, i);
          assert keys[i] == p[i];
          assert LastWith(keys, fields, word, i);
        } else {
          assert forall j :: 0 <= j < |p| ==> p[j] == keys[j];
        }
      }
    }
  }

  /** Position `i` carries the word and no later key does. */
  predicate LastWith(keys: seq<string>, fields: map<string, seq<string>>, word: string, i: nat)
    requires forall k :: k in keys ==> k in fields
    requires i < |keys|
  {
    Lists(fields, keys[i], word) && forall j :: i < j < |keys| ==> !Lists(fields, keys[j], word)
  }

  /**
   * Under global extinction the screen models are the last keys listing
   * `extinction` and `absorption`; otherwise the given names stand.
   */
  method GlobalModels(c: Config, global: bool, extGiven: string, iceGiven: string) returns (ext: string, ice: string)
    requires c.Valid()
    ensures global ==> ext == LastKeyWith(c.keys, c.fields, "extinction", extGiven)
    ensures global ==> ice == LastKeyWith(c.keys, c.fields, "absorption", iceGiven)
    ensures !global ==> ext == extGiven && ice == iceGiven
  {
    ext, ice := extGiven, iceGiven;
    if global {
      var i := 0;
      while i < |c.keys|
        invariant 0 <= i <= |c.keys|
        invariant ext == LastKeyWith(c.keys[..i], c.fields, "extinction", extGiven)
        invariant ice == LastKeyWith(c.keys[..i], c.fields, "absorption", iceGiven)
      {
        assert c.keys[..i + 1][..i] == c.keys[..i];
        if Lists(c.fields, c.keys[i], "extinction") {
          ext := c.keys[i];
        }
        if Lists(c.fields, c.keys[i], "absorption") {
          ice := c.keys[i];
        }
        i := i + 1;
      }
      assert c.keys[..i] == c.keys;
    }
  }

  // ---------------------------------------------------------------------
  // Model terms

  /** An lmfit model: a named component, or a sum or product of models. */
  datatype Term = Leaf(name: string) | Sum(left: Term, right: Term) | Prod(left: Term, right: Term)

  /** The summands of a left-nested sum, first to last. */
  function Summands(t: Term): (r: seq<Term>)
    ensures |r| >= 1
  {
    if t.Sum? then Summands(t.left) + [t.right] else [t]
  }

  function SummandsOf(m: Option<Term>): seq<Term> {
    if m.Some? then Summands(m.value) else []
  }

  /** The kinds of component a configuration key declares, in the order they are set up. */
  datatype Kind = Blackbody | Powerlaw | Template

  function KindsOf(key: string): (r: seq<Kind>)
    ensures Blackbody in r <==> Contains(key, "blackbody")
    ensures Powerlaw in r <==> Contains(key, "powerlaw")
    ensures Template in r <==> Contains(key, "template")
    ensures TemplateOnlyLast(r)
  {
    (if Contains(key, "blackbody") then [Blackbody] else [])
      + (if Contains(key, "powerlaw") then [Powerlaw] else [])
      + (if Contains(key, "template") then [Template] else [])
  }

  /** A template, if declared, is set up after the other kinds of its key. */
  predicate TemplateOnlyLast(kinds: seq<Kind>) {
    forall j :: 0 <= j < |kinds| - 1 ==> kinds[j] != Template
  }

  /** Blackbodies and power laws are named by the integer of their eighth field, templates by their count so far. */
  function ComponentName(kind: Kind, f: seq<string>, nTemp: nat, intOf: string -> int): string
    requires |f| > 7
  {
    match kind
    case Blackbody => "blackbody" + IntToString(intOf(f[7]))
    case Powerlaw => "powerlaw" + IntToString(intOf(f[7]))
    case Template => "template_" + IntToString(nTemp)
  }

  /** A component carries its own extinction when extinction is not global and its fourth field names a curve. */
  predicate OwnExtinction(global: bool, f: seq<string>)
    requires |f| > 3
  {
    !global && f[3] != "_" && f[3] != "-"
  }

  /** A component carries its own ice absorption when extinction is not global and its key mentions ice. */
  predicate OwnIce(global: bool, key: string) {
    !global && Contains(key, "ice")
  }

  /** One component: the base term, times `<name>_ext` and then `<name>_abs` where they apply. */
  function ComponentTerm(name: string, ext: bool, ice: bool): (t: Term)
    ensures !t.Sum?
  {
    var base := if ext then Prod(Leaf(name), Leaf(name + "_ext")) else Leaf(name);
    if ice then Prod(base, Leaf(name + "_abs")) else base
  }

  /** The file a template is read from: silicate templates live in their own directory. */
  function TemplatePath(key: string, file: string): string {
    if Contains(key, "si") then "silicatemodels/" + file else file
  }

  // ---------------------------------------------------------------------
  // Composition

  /** What `models_dictionary` records before loading: a file name, or (as written) a whole entry. */
  datatype DictValue = File(path: string) | WholeEntry(entry: seq<string>)

  /** The composition state: the model so far, the two dictionaries and the template count. */
  datatype BuildState = BuildState(model: Option<Term>, models: map<string, DictValue>, templates: map<string, string>, nTemp: nat)

  const Start := BuildState(None, map[], map[], 0)

  /** The ice curve a component records: the first field of the curve's entry. */
  function IceValue(c: Config, iceKey: string): (r: Result<DictValue, QuestError>)
    ensures iceKey !in c.fields ==> r == Err(KeyError(iceKey))
    ensures r.Ok? ==> iceKey in c.fields && |c.fields[iceKey]| > 0 && r.value == File(c.fields[iceKey][0])
  {
    if iceKey !in c.fields then Err(KeyError(iceKey))
    else if |c.fields[iceKey]| == 0 then Err(IndexError(iceKey))
    else Ok(File(c.fields[iceKey][0]))
  }

  /** The ice curve as written: templates record the whole entry rather than its file name. */
  function IceValueAsWritten(c: Config, iceKey: string, kind: Kind): Result<DictValue, QuestError> {
    if kind == Template then
      if iceKey !in c.fields then Err(KeyError(iceKey)) else Ok(WholeEntry(c.fields[iceKey]))
    else IceValue(c, iceKey)
  }

  /** A recorded value the loading loop can turn into a path. */
  predicate Loadable(v: DictValue) { v.File? }

  /** As written, an ice-covered template leaves a value the loading loop cannot load. */
  lemma TemplateIceNotLoadableAsWritten(c: Config, iceKey: string)
    requires iceKey in c.fields
    ensures IceValueAsWritten(c, iceKey, Template).Ok?
    ensures !Loadable(IceValueAsWritten(c, iceKey, Template).value)
    ensures IceValue(c, iceKey).Ok? ==> Loadable(IceValue(c, iceKey).value)
  {
  }

  /** Where both succeed for a blackbody or power law, the as-written and corrected values agree. */
  lemma IceValueAgreesOffTemplates(c: Config, iceKey: string, kind: Kind)
    requires kind != Template
    ensures IceValueAsWritten(c, iceKey, kind) == IceValue(c, iceKey)
  {
  }

  /**
   * `models_dictionary` after one component: its own extinction curve and its
   * ice curve are recorded under their keys as the first field of their
   * entries, and every other key keeps its value.
   */
  predicate RecordsCurves(c: Config, global: bool, st: BuildState, key: string, r: BuildState)
    requires key in c.fields && |c.fields[key]| >= 10
  {
    var f := c.fields[key];
    var ext := OwnExtinction(global, f);
    var ice := OwnIce(global, key);
    && r.models.Keys == st.models.Keys + (if ext then {f[3]} else {}) + (if ice then {f[9]} else {})
    && (ext ==> f[3] in c.fields && |c.fields[f[3]]| > 0 && r.models[f[3]] == File(c.fields[f[3]][0]))
    && (ice ==> f[9] in c.fields && |c.fields[f[9]]| > 0 && r.models[f[9]] == File(c.fields[f[9]][0]))
    && (forall m :: m in st.models && !(ext && m == f[3]) && !(ice && m == f[9]) ==> r.models[m] == st.models[m])
  }

  /**
   * `template_dictionary` after one component: a template is recorded under
   * `template_<count>` with its file (under `silicatemodels/` for silicate
   * keys); every other entry is kept, and other kinds record nothing.
   */
  predicate RecordsTemplate(c: Config, st: BuildState, key: string, kind: Kind, r: BuildState)
    requires key in c.fields && |c.fields[key]| >= 10
  {
    var name := "template_" + IntToString(st.nTemp);
    if kind == Template then
      && r.templates.Keys == st.templates.Keys + {name}
      && r.templates[name] == TemplatePath(key, c.fields[key][0])
      && (forall m :: m in st.templates && m != name ==> r.templates[m] == st.templates[m])
    else r.templates == st.templates
  }

  /** Sets up one component of one kind and adds it to the model. */
  function AddComponent(c: Config, global: bool, st: BuildState, key: string, kind: Kind, intOf: string -> int)
    : (r: Result<BuildState, QuestError>)
    requires key in c.fields
    ensures r.Ok? ==> r.value.nTemp == if kind == Template then st.nTemp + 1 else st.nTemp
    ensures |c.fields[key]| < 10 ==> r == Err(IndexError(key))
    ensures var f := c.fields[key];
      r.Err? <==>
        || |f| < 10
        || (OwnExtinction(global, f) && (f[3] !in c.fields || |c.fields[f[3]]| == 0))
        || (OwnIce(global, key) && (|f| < 12 || f[9] !in c.fields || |c.fields[f[9]]| == 0))
    ensures r.Ok? ==> RecordsCurves(c, global, st, key, r.value)
    ensures r.Ok? ==> RecordsTemplate(c, st, key, kind, r.value)
  {
    var f := c.fields[key];
    if |f| < 10 then Err(IndexError(key))
    else
      var name := ComponentName(kind, f, st.nTemp, intOf);
      var ext := OwnExtinction(global, f);
      var ice := OwnIce(global, key);
      if ext && f[3] !in c.fields then Err(KeyError(f[3]))
      else if ext && |c.fields[f[3]]| == 0 then Err(IndexError(f[3]))
      else if ice && |f| < 12 then Err(IndexError(key))
      else
        var iv := if ice then IceValue(c, f[9]) else Ok(File(""));
        if iv.Err? then Err(iv.error)
        else
          var models1 := if ext then st.models[f[3] := File(c.fields[f[3]][0])] else st.models;
          var t := ComponentTerm(name, ext, ice);
          Ok(BuildState(
            if st.model.None? then Some(t) else Some(Sum(st.model.value, t)),
            if ice then models1[f[9] := iv.value] else models1,
            if kind == Template then st.templates[name := TemplatePath(key, f[0])] else st.templates,
            if kind == Template then st.nTemp + 1 else st.nTemp))
  }

  /** The kinds of one key, set up in order; the first failure ends it. */
  function AddKinds(c: Config, global: bool, st: BuildState, key: string, kinds: seq<Kind>, intOf: string -> int)
    : Result<BuildState, QuestError>
    requires key in c.fields
    decreases |kinds|
  {
    if |kinds| == 0 then Ok(st)
    else
      var r := AddKinds(c, global, st, key, kinds[..|kinds| - 1], intOf);
      if r.Err? then r else AddComponent(c, global, r.value, key, kinds[|kinds| - 1], intOf)
  }

  /** The composition loop over the configuration keys, in order. */
  function ComposeEntries(c: Config, global: bool, keys: seq<string>, intOf: string -> int): Result<BuildState, QuestError>
    requires forall k :: k in keys ==> k in c.fields
  {
    if |keys| == 0 then Ok(Start)
    else
      var r := ComposeEntries(c, global, keys[..|keys| - 1], intOf);
      if r.Err? then r else AddKinds(c, global, r.value, keys[|keys| - 1], KindsOf(keys[|keys| - 1]), intOf)
  }

  /** Under global extinction the whole sum is multiplied once by the dust screen and once by the ice screen. */
  function Finish(c: Config, global: bool, gExt: string, gIce: string, st: BuildState): Result<BuildState, QuestError> {
    if st.model.None? then Err(Unbound("model"))
    else if !global then Ok(st)
    else if gExt !in c.fields then Err(KeyError(gExt))
    else if |c.fields[gExt]| == 0 then Err(IndexError(gExt))
    else if gIce !in c.fields then Err(KeyError(gIce))
    else if |c.fields[gIce]| == 0 then Err(IndexError(gIce))
    else Ok(st.(model := Some(Prod(Prod(st.model.value, Leaf("global_ext")), Leaf("global_ice"))),
                models := st.models[gExt := File(c.fields[gExt][0])][gIce := File(c.fields[gIce][0])]))
  }

  /** `questfit` up to the fit: halt on a separate template, decide the extinction, compose, apply the screens. */
  function Compose(c: Config, singleTemplate: bool, extGiven: string, iceGiven: string, intOf: string -> int)
    : Result<BuildState, QuestError>
    requires c.Valid()
  {
    if singleTemplate then Err(Halt)
    else
      var global := GlobalExtinction(c);
      var gExt := if global then LastKeyWith(c.keys, c.fields, "extinction", extGiven) else extGiven;
      var gIce := if global then LastKeyWith(c.keys, c.fields, "absorption", iceGiven) else iceGiven;
      var st :- ComposeEntries(c, global, c.keys, intOf);
      Finish(c, global, gExt, gIce, st)
  }

  // ---------------------------------------------------------------------
  // The reference view: the summands in configuration order

  /** The number of template keys among `keys`. */
  function TemplateCount(keys: seq<string>): nat {
    if |keys| == 0 then 0
    else TemplateCount(keys[..|keys| - 1]) + (if Contains(keys[|keys| - 1], "template") then 1 else 0)
  }

  /** The term one component of one kind contributes. */
  function KindTerm(c: Config, global: bool, key: string, kind: Kind, nTemp: nat, intOf: string -> int): Term
    requires key in c.fields && |c.fields[key]| >= 10
  {
    var f := c.fields[key];
    ComponentTerm(ComponentName(kind, f, nTemp, intOf), OwnExtinction(global, f), OwnIce(global, key))
  }

  /** The terms of several kinds of one key, given the number of templates before it. */
  function KindTerms(c: Config, global: bool, key: string, kinds: seq<Kind>, nTemp: nat, intOf: string -> int): seq<Term>
    requires key in c.fields && (|kinds| > 0 ==> |c.fields[key]| >= 10)
  {
    if |kinds| == 0 then []
    else KindTerms(c, global, key, kinds[..|kinds| - 1], nTemp, intOf) + [KindTerm(c, global, key, kinds[|kinds| - 1], nTemp, intOf)]
  }

  /** Every key declaring a component has at least ten fields. */
  predicate LongEnough(c: Config, keys: seq<string>)
    requires forall k :: k in keys ==> k in c.fields
  {
    forall k :: k in keys && |KindsOf(k)| > 0 ==> |c.fields[k]| >= 10
  }

  /** The components of `keys` in configuration order, each with its own screens. */
  function ExpectedTerms(c: Config, global: bool, keys: seq<string>, intOf: string -> int): seq<Term>
    requires forall k :: k in keys ==> k in c.fields
    requires LongEnough(c, keys)
  {
    if |keys| == 0 then []
    else
      var p := keys[..|keys| - 1];
      var key := keys[|keys| - 1];
      assert forall k :: k in p ==> k in keys;
      ExpectedTerms(c, global, p, intOf) + KindTerms(c, global, key, KindsOf(key), TemplateCount(p), intOf)
  }

  /** Adding one component appends its term to the sum. */
  lemma AddComponentAppends(c: Config, global: bool, st: BuildState, key: string, kind: Kind, intOf: string -> int)
    requires key in c.fields
    requires AddComponent(c, global, st, key, kind, intOf).Ok?
    ensures |c.fields[key]| >= 10
    ensures SummandsOf(AddComponent(c, global, st, key, kind, intOf).value.model)
      == SummandsOf(st.model) + [KindTerm(c, global, key, kind, st.nTemp, intOf)]
  {
  }

  /** Adding the kinds of one key appends their terms, all named with the template count before the key. */
  lemma {:induction false} AddKindsAppends(c: Config, global: bool, st: BuildState, key: string, kinds: seq<Kind>, intOf: string -> int)
    requires key in c.fields && TemplateOnlyLast(kinds)
    requires AddKinds(c, global, st, key, kinds, intOf).Ok?
    ensures |kinds| > 0 ==> |c.fields[key]| >= 10
    ensures var r := AddKinds(c, global, st, key, kinds, intOf).value;
      && SummandsOf(r.model) == SummandsOf(st.model) + KindTerms(c, global, key, kinds, st.nTemp, intOf)
      && r.nTemp == st.nTemp + (if Template in kinds then 1 else 0)
    decreases |kinds|
  {
    if |kinds| > 0 {
      var p := kinds[..|kinds| - 1];
      var kind := kinds[|kinds| - 1];
      assert TemplateOnlyLast(p);
      assert Template !in p by {
        forall j | 0 <= j < |p|
          ensures p[j] != Template
        {
          assert p[j] == kinds[j];
        }
      }
      assert kinds == p + [kind];
      AddKindsAppends(c, global, st, key, p, intOf);
      var st1 := AddKinds(c, global, st, key, p, intOf).value;
      AddComponentAppends(c, global, st1, key, kind, intOf);
    }
  }

  /** The length condition holds of a key list when it holds of its prefix and of its last key. */
  lemma LongEnoughSnoc(c: Config, keys: seq<string>)
    requires |keys| > 0 && forall k :: k in keys ==> k in c.fields
    requires forall k :: k in keys[..|keys| - 1] ==> k in c.fields
    requires LongEnough(c, keys[..|keys| - 1])
    requires |KindsOf(keys[|keys| - 1])| > 0 ==> |c.fields[keys[|keys| - 1]]| >= 10
    ensures LongEnough(c, keys)
  {
    var p := keys[..|keys| - 1];
    forall k | k in keys && |KindsOf(k)| > 0 ensures |c.fields[k]| >= 10 {
      if k != keys[|keys| - 1] {
        assert keys == p + [keys[|keys| - 1]];
        assert k in p;
      }
    }
  }

  /** The composition loop builds exactly the expected sum, and counts the template keys. */
  lemma {:induction false} ComposeEntriesSummands(c: Config, global: bool, keys: seq<string>, intOf: string -> int)
    requires forall k :: k in keys ==> k in c.fields
    requires ComposeEntries(c, global, keys, intOf).Ok?
    ensures LongEnough(c, keys)
    ensures SummandsOf(ComposeEntries(c, global, keys, intOf).value.model) == ExpectedTerms(c, global, keys, intOf)
    ensures ComposeEntries(c, global, keys, intOf).value.nTemp == TemplateCount(keys)
  {
    if |keys| > 0 {
      var p := keys[..|keys| - 1];
      var key := keys[|keys| - 1];
      assert forall k :: k in p ==> k in keys;
      var r := ComposeEntries(c, global, p, intOf);
      assert r.Ok?;
      ComposeEntriesSummands(c, global, p, intOf);
      var st := r.value;
      var kinds := KindsOf(key);
      assert ComposeEntries(c, global, keys, intOf) == AddKinds(c, global, st, key, kinds, intOf);
      AddKindsAppends(c, global, st, key, kinds, intOf);
      LongEnoughSnoc(c, keys);
      assert TemplateCount(keys) == TemplateCount(p) + (if Template in kinds then 1 else 0);
      assert ExpectedTerms(c, global, keys, intOf)
        == ExpectedTerms(c, global, p, intOf) + KindTerms(c, global, key, kinds, TemplateCount(p), intOf);
    }
  }

  /**
   * A composed model is the sum of the configured components in configuration
   * order, each with its own screens only without global extinction; with
   * global extinction that sum is multiplied once by the dust screen and then
   * once by the ice screen.
   */
  lemma ComposedModelShape(c: Config, singleTemplate: bool, extGiven: string, iceGiven: string, intOf: string -> int)
    requires c.Valid()
    requires Compose(c, singleTemplate, extGiven, iceGiven, intOf).Ok?
    ensures !singleTemplate && LongEnough(c, c.keys)
    ensures var m := Compose(c, singleTemplate, extGiven, iceGiven, intOf).value.model;
      var terms := ExpectedTerms(c, GlobalExtinction(c), c.keys, intOf);
      && m.Some? && |terms| > 0
      && (GlobalExtinction(c) ==>
            m.value.Prod? && m.value.right == Leaf("global_ice")
            && m.value.left.Prod? && m.value.left.right == Leaf("global_ext")
            && Summands(m.value.left.left) == terms && Bare(terms))
      && (!GlobalExtinction(c) ==> Summands(m.value) == terms)
  {
    ComposeEntriesSummands(c, GlobalExtinction(c), c.keys, intOf);
    if GlobalExtinction(c) {
      GlobalTermsBare(c, c.keys, intOf);
    }
  }

  /** Terms that are bare components, with no screen of their own. */
  predicate Bare(ts: seq<Term>) {
    forall k :: 0 <= k < |ts| ==> ts[k].Leaf?
  }

  /** Under global extinction the kinds of a key contribute bare components. */
  lemma {:induction false} GlobalKindTermsBare(c: Config, key: string, kinds: seq<Kind>, nTemp: nat, intOf: string -> int)
    requires key in c.fields && (|kinds| > 0 ==> |c.fields[key]| >= 10)
    ensures Bare(KindTerms(c, true, key, kinds, nTemp, intOf))
    decreases |kinds|
  {
    if |kinds| > 0 {
      GlobalKindTermsBare(c, key, kinds[..|kinds| - 1], nTemp, intOf);
    }
  }

  /** Under global extinction no component carries a screen of its own. */
  lemma {:induction false} GlobalTermsBare(c: Config, keys: seq<string>, intOf: string -> int)
    requires forall k :: k in keys ==> k in c.fields
    requires LongEnough(c, keys)
    ensures Bare(ExpectedTerms(c, true, keys, intOf))
  {
    if |keys| > 0 {
      var p := keys[..|keys| - 1];
      var key := keys[|keys| - 1];
      assert forall k :: k in p ==> k in keys;
      GlobalTermsBare(c, p, intOf);
      GlobalKindTermsBare(c, key, KindsOf(key), TemplateCount(p), intOf);
    }
  }

  /** The imperative composition: `model` grows with `+=`, the dictionaries are written in place. */
  class ModelBuilder {
    var model: Option<Term>
    var models: map<string, DictValue>
    var templates: map<string, string>
    var nTemp: nat

    function State(): BuildState
      reads this
    {
      BuildState(model, models, templates, nTemp)
    }

    constructor ()
      ensures State() == Start
    {
      model, models, templates, nTemp := None, map[], map[], 0;
    }

    /** One component of one kind, set up and added. */
    method AddComponentInPlace(c: Config, global: bool, key: string, kind: Kind, intOf: string -> int)
      returns (err: Option<QuestError>)
      requires key in c.fields
      modifies this
      ensures var r := AddComponent(c, global, old(State()), key, kind, intOf);
        && (err.None? <==> r.Ok?)
        && (r.Ok? ==> State() == r.value)
        && (r.Err? ==> err == Some(r.error))
    {
      var f := c.fields[key];
      if |f| < 10 {
        return Some(IndexError(key));
      }
      var name := ComponentName(kind, f, nTemp, intOf);
      var ext := OwnExtinction(global, f);
      var ice := OwnIce(global, key);
      if kind == Template {
        templates := templates[name := TemplatePath(key, f[0])];
      }
      var t := Leaf(name);
      if ext {
        if f[3] !in c.fields {
          return Some(KeyError(f[3]));
        }
        if |c.fields[f[3]]| == 0 {
          return Some(IndexError(f[3]));
        }
        t := Prod(t, Leaf(name + "_ext"));
        models := models[f[3] := File(c.fields[f[3]][0])];
      }
      if ice {
        if |f| < 12 {
          return Some(IndexError(key));
        }
        var iv := IceValue(c, f[9]);
        if iv.Err? {
          return Some(iv.error);
        }
        t := Prod(t, Leaf(name + "_abs"));
        models := models[f[9] := iv.value];
      }
      if model.None? {
        model := Some(t);
      } else {
        model := Some(Sum(model.value, t));
      }
      if kind == Template {
        nTemp := nTemp + 1;
      }
      err := None;
    }

    /** Every kind one key declares, in order. */
    method AddKey(c: Config, global: bool, key: string, intOf: string -> int) returns (err: Option<QuestError>)
      requires key in c.fields
      modifies this
      ensures var r := AddKinds(c, global, old(State()), key, KindsOf(key), intOf);
        && (err.None? <==> r.Ok?)
        && (r.Ok? ==> State() == r.value)
        && (r.Err? ==> err == Some(r.error))
    {
      err := AddKindList(c, global, key, KindsOf(key), intOf);
    }

    /** The loop over the kinds of one key. */
    method AddKindList(c: Config, global: bool, key: string, kinds: seq<Kind>, intOf: string -> int)
      returns (err: Option<QuestError>)
      requires key in c.fields
      modifies this
      ensures var r := AddKinds(c, global, old(State()), key, kinds, intOf);
        && (err.None? <==> r.Ok?)
        && (r.Ok? ==> State() == r.value)
        && (r.Err? ==> err == Some(r.error))
    {
      ghost var st0 := State();
      var i := 0;
      while i < |kinds|
        invariant 0 <= i <= |kinds|
        invariant AddKinds(c, global, st0, key, kinds[..i], intOf) == Ok(State())
      {
        AddKindsStep(c, global, st0, key, kinds, i, intOf);
        err := AddComponentInPlace(c, global, key, kinds[i], intOf);
        if err.Some? {
          AddKindsFailureSticks(c, global, st0, key, kinds, intOf, i + 1);
          return;
        }
        i := i + 1;
      }
      assert kinds[..i] == kinds;
      err := None;
    }

    /**
     * The whole of `questfit` before the fit: the halt, the extinction
     * decision, the composition loop and the global screens.
     */
    method Build(c: Config, singleTemplate: bool, extGiven: string, iceGiven: string, intOf: string -> int)
      returns (err: Option<QuestError>)
      requires c.Valid()
      requires State() == Start
      modifies this
      ensures var r := Compose(c, singleTemplate, extGiven, iceGiven, intOf);
        && (err.None? <==> r.Ok?)
        && (r.Ok? ==> State() == r.value)
        && (r.Err? ==> err == Some(r.error))
    {
      if singleTemplate {
        return Some(Halt);
      }
      var global := ScanGlobalExtinction(c);
      var gExt, gIce := GlobalModels(c, global, extGiven, iceGiven);
      err := AddKeys(c, global, c.keys, intOf);
      if err.Some? {
        return;
      }
      err := ApplyScreens(c, global, gExt, gIce);
    }

    /** The composition loop over the configuration keys. */
    method AddKeys(c: Config, global: bool, keys: seq<string>, intOf: string -> int) returns (err: Option<QuestError>)
      requires forall k :: k in keys ==> k in c.fields
      requires State() == Start
      modifies this
      ensures var r := ComposeEntries(c, global, keys, intOf);
        && (err.None? <==> r.Ok?)
        && (r.Ok? ==> State() == r.value)
        && (r.Err? ==> err == Some(r.error))
    {
      var i := 0;
      while i < |keys|
        invariant 0 <= i <= |keys|
        invariant ComposeEntries(c, global, keys[..i], intOf) == Ok(State())
      {
        ComposeEntriesStep(c, global, keys, i, intOf);
        err := AddKey(c, global, keys[i], intOf);
        if err.Some? {
          ComposeFailureSticks(c, global, keys, intOf, i + 1);
          return;
        }
        i := i + 1;
      }
      assert keys[..i] == keys;
      err := None;
    }

    /** The global screens, applied once to the whole sum. */
    method ApplyScreens(c: Config, global: bool, gExt: string, gIce: string) returns (err: Option<QuestError>)
      modifies this
      ensures var r := Finish(c, global, gExt, gIce, old(State()));
        && (err.None? <==> r.Ok?)
        && (r.Ok? ==> State() == r.value)
        && (r.Err? ==> err == Some(r.error))
    {
      if model.None? {
        return Some(Unbound("model"));
      }
      if global {
        if gExt !in c.fields {
          return Some(KeyError(gExt));
        }
        if |c.fields[gExt]| == 0 {
          return Some(IndexError(gExt));
        }
        if gIce !in c.fields {
          return Some(KeyError(gIce));
        }
        if |c.fields[gIce]| == 0 {
          return Some(IndexError(gIce));
        }
        model := Some(Prod(model.value, Leaf("global_ext")));
        models := models[gExt := File(c.fields[gExt][0])];
        model := Some(Prod(model.value, Leaf("global_ice")));
        models := models[gIce := File(c.fields[gIce][0])];
      }
      err := None;
    }
  }

  /** One more key extends the composition by that key's kinds. */
  lemma ComposeEntriesStep(c: Config, global: bool, keys: seq<string>, i: nat, intOf: string -> int)
    requires forall k :: k in keys ==> k in c.fields
    requires i < |keys|
    ensures forall k :: k in keys[..i] ==> k in c.fields
    ensures var r := ComposeEntries(c, global, keys[..i], intOf);
      ComposeEntries(c, global, keys[..i + 1], intOf) == if r.Err? then r else AddKinds(c, global, r.value, keys[i], KindsOf(keys[i]), intOf)
  {
    assert keys[..i + 1][..i] == keys[..i];
  }

  /** One more kind extends the key's fold by one component. */
  lemma AddKindsStep(c: Config, global: bool, st: BuildState, key: string, kinds: seq<Kind>, i: nat, intOf: string -> int)
    requires key in c.fields && i < |kinds|
    ensures var r := AddKinds(c, global, st, key, kinds[..i], intOf);
      AddKinds(c, global, st, key, kinds[..i + 1], intOf) == if r.Err? then r else AddComponent(c, global, r.value, key, kinds[i], intOf)
  {
    assert kinds[..i + 1][..i] == kinds[..i];
  }

  /** A failing kind ends the key with its exception. */
  lemma {:induction false} AddKindsFailureSticks(c: Config, global: bool, st: BuildState, key: string, kinds: seq<Kind>,
                                                 intOf: string -> int, j: nat)
    requires key in c.fields
    requires j <= |kinds| && AddKinds(c, global, st, key, kinds[..j], intOf).Err?
    ensures AddKinds(c, global, st, key, kinds, intOf) == AddKinds(c, global, st, key, kinds[..j], intOf)
    decreases |kinds|
  {
    if j < |kinds| {
      var p := kinds[..|kinds| - 1];
      assert p[..j] == kinds[..j];
      AddKindsFailureSticks(c, global, st, key, p, intOf, j);
    } else {
      assert kinds[..j] == kinds;
    }
  }

  /** A failing key ends the composition with its exception. */
  lemma {:induction false} ComposeFailureSticks(c: Config, global: bool, keys: seq<string>, intOf: string -> int, j: nat)
    requires forall k :: k in keys ==> k in c.fields
    requires j <= |keys| && ComposeEntries(c, global, keys[..j], intOf).Err?
    ensures ComposeEntries(c, global, keys, intOf) == ComposeEntries(c, global, keys[..j], intOf)
    decreases |keys|
  {
    if j < |keys| {
      var p := keys[..|keys| - 1];
      assert p[..j] == keys[..j];
      assert forall k :: k in p ==> k in keys;
      ComposeFailureSticks(c, global, p, intOf, j);
    } else {
      assert keys[..j] == keys;
    }
  }

  // ---------------------------------------------------------------------
  // The fit inputs

  /** A `models_dictionary` value after loading: an array, or the `fitFlambda` flag. */
  datatype DictEntry = Arr(values: seq<real>) | Flag(on: bool)

  /** numpy's `a[index]`: negative indices count from the end; one out of range raises. */
  predicate Indexable(n: nat, index: seq<int>) {
    forall k :: 0 <= k < |index| ==> -(n as int) <= index[k] < n
  }

  function Take(a: seq<real>, index: seq<int>): (r: seq<real>)
    requires Indexable(|a|, index)
    ensures |r| == |index|
    ensures forall k :: 0 <= k < |index| ==> r[k] == a[if index[k] < 0 then |a| + index[k] else index[k]]
  {
    seq(|index|, k requires 0 <= k < |index| => a[if index[k] < 0 then |a| + index[k] else index[k]])
  }

  /** An entry the cut can restrict. */
  predicate Cuttable(e: DictEntry, index: seq<int>) {
    e.Arr? && Indexable(|e.values|, index)
  }

  /**
   * `models_dictionary_cut`: every entry except `fitFlambda` restricted to
   * the fitted pixels; the dictionary itself, used to evaluate the best fit
   * on every pixel, is a separate copy and keeps its entries.
   */
  method CutDictionary(keys: seq<string>, d: map<string, DictEntry>, index: seq<int>)
    returns (r: Result<map<string, DictEntry>, QuestError>)
    requires forall k :: k in keys <==> k in d
    ensures r.Ok? <==> forall k :: k in d && !Contains(k, "fitFlambda") ==> Cuttable(d[k], index)
    ensures r.Ok? ==> r.value.Keys == d.Keys
    ensures r.Ok? ==> forall k :: k in d && Contains(k, "fitFlambda") ==> r.value[k] == d[k]
    ensures r.Ok? ==> forall k :: k in d && !Contains(k, "fitFlambda") ==>
      Cuttable(d[k], index) && r.value[k] == Arr(Take(d[k].values, index))
  {
    var cut := d;
    var i := 0;
    while i < |keys|
      invariant 0 <= i <= |keys|
      invariant cut.Keys == d.Keys
      invariant forall j :: 0 <= j < i && !Contains(keys[j], "fitFlambda") ==> Cuttable(d[keys[j]], index)
      invariant forall k :: k in d ==>
        cut[k] == (if k in keys[..i] && !Contains(k, "fitFlambda") then Arr(Take(d[k].values, index)) else d[k])
    {
      var el := keys[i];
      assert keys[..i + 1] == keys[..i] + [el];
      if !Contains(el, "fitFlambda") {
        if !Cuttable(d[el], index) {
          return Err(IndexError(el));
        }
        cut := cut[el := Arr(Take(d[el].values, index))];
      }
      i := i + 1;
    }
    assert keys[..i] == keys;
    forall k | k in d && !Contains(k, "fitFlambda")
      ensures Cuttable(d[k], index)
    {
      var j :| 0 <= j < |keys| && keys[j] == k;
    }
    r := Ok(cut);
  }

  // ---------------------------------------------------------------------
  // QSO and host decomposition

  /** Element-wise sum and product of equal-length spectra. */
  function VecAdd(a: seq<real>, b: seq<real>): (r: seq<real>)
    requires |a| == |b|
    ensures |r| == |a| && forall k :: 0 <= k < |a| ==> r[k] == a[k] + b[k]
  {
    seq(|a|, k requires 0 <= k < |a| => a[k] + b[k])
  }

  function VecMul(a: seq<real>, b: seq<real>): (r: seq<real>)
    requires |a| == |b|
    ensures |r| == |a| && forall k :: 0 <= k < |a| ==> r[k] == a[k] * b[k]
  {
    seq(|a|, k requires 0 <= k < |a| => a[k] * b[k])
  }

  function VecZeros(n: nat): (r: seq<real>)
    ensures |r| == n && forall k :: 0 <= k < n ==> r[k] == 0.0
  {
    seq(n, _ => 0.0)
  }

  /** The fitted components: an ordered dict of spectra, all of one length. */
  datatype Components = Components(keys: seq<string>, spectra: map<string, seq<real>>, n: nat) {
    predicate Valid() {
      && (forall k :: k in keys ==> k in spectra)
      && (forall k :: k in spectra ==> k in keys)
      && (forall k :: k in spectra ==> |spectra[k]| == n)
    }
  }

  /** Which names are the two global screens: the last two components. */
  datatype Screens = PerComponent | GlobalScreens(ext: string, ice: string)

  /** A base component: not a screen. */
  predicate IsBase(el: string, screens: Screens) {
    match screens
    case PerComponent => !(Contains(el, "_ext") || Contains(el, "_abs"))
    case GlobalScreens(e, i) => el != e && el != i
  }

  /** A base component as observed: times the global screens, or times its own `_ext` and `_abs` where fitted. */
  function Observed(comps: Components, el: string, screens: Screens): (r: seq<real>)
    requires comps.Valid() && el in comps.spectra
    requires screens.GlobalScreens? ==> screens.ext in comps.spectra && screens.ice in comps.spectra
    ensures |r| == comps.n
  {
    var s := comps.spectra;
    match screens
    case GlobalScreens(e, i) => VecMul(VecMul(s[el], s[e]), s[i])
    case PerComponent =>
      var withExt := if el + "_ext" in s then VecMul(s[el], s[el + "_ext"]) else s[el];
      if el + "_abs" in s then VecMul(withExt, s[el + "_abs"]) else withExt
  }

  predicate ScreensPresent(comps: Components, screens: Screens) {
    screens.GlobalScreens? ==> screens.ext in comps.spectra && screens.ice in comps.spectra
  }

  /** A base component counts as host when decomposition is configured and it is not the first (QSO) component. */
  predicate IsHost(keys: seq<string>, j: nat, screens: Screens, decompose: Option<bool>)
    requires j < |keys|
  {
    IsBase(keys[j], screens) && decompose.Some? && !(decompose.value && j == 0)
  }

  /** The host spectrum summed over the first `i` components, observed or intrinsic. */
  function HostSum(comps: Components, i: nat, screens: Screens, decompose: Option<bool>, intrinsic: bool): (r: seq<real>)
    requires comps.Valid() && ScreensPresent(comps, screens) && i <= |comps.keys|
    ensures |r| == comps.n
  {
    if i == 0 then VecZeros(comps.n)
    else
      var prev := HostSum(comps, i - 1, screens, decompose, intrinsic);
      var el := comps.keys[i - 1];
      if IsHost(comps.keys, i - 1, screens, decompose) then
        VecAdd(prev, if intrinsic then comps.spectra[el] else Observed(comps, el, screens))
      else prev
  }

  /** Every base component summed, observed or intrinsic: the partner of the decomposition. */
  function TotalSum(comps: Components, i: nat, screens: Screens, intrinsic: bool): (r: seq<real>)
    requires comps.Valid() && ScreensPresent(comps, screens) && i <= |comps.keys|
    ensures |r| == comps.n
  {
    if i == 0 then VecZeros(comps.n)
    else
      var prev := TotalSum(comps, i - 1, screens, intrinsic);
      var el := comps.keys[i - 1];
      if IsBase(el, screens) then VecAdd(prev, if intrinsic then comps.spectra[el] else Observed(comps, el, screens))
      else prev
  }

  datatype Decomposition = Decomposition(qsoObserved: seq<real>, hostObserved: seq<real>,
                                         qsoIntrinsic: seq<real>, hostIntrinsic: seq<real>)

  /** The QSO part: the first component when decomposition is requested and it is a base component, else empty. */
  function QsoPart(comps: Components, screens: Screens, decompose: Option<bool>, intrinsic: bool): seq<real>
    requires comps.Valid() && ScreensPresent(comps, screens)
  {
    if decompose == Some(true) && |comps.keys| > 0 && IsBase(comps.keys[0], screens) then
      (if intrinsic then comps.spectra[comps.keys[0]] else Observed(comps, comps.keys[0], screens))
    else []
  }

  /** The screens `quest_extract_QSO_contrib` relies on: the last two components under global extinction. */
  function ScreensOf(comps: Components, global: bool): Screens
    requires global ==> |comps.keys| >= 2
  {
    if global then GlobalScreens(comps.keys[|comps.keys| - 2], comps.keys[|comps.keys| - 1]) else PerComponent
  }

  /** The decomposition `quest_extract_QSO_contrib` returns, or the IndexError it raises. */
  function DecomposeSpec(c: Config, comps: Components, decompose: Option<bool>)
    : (r: Result<Decomposition, QuestError>)
    requires comps.Valid()
    ensures r.Ok? <==> |c.keys| >= 2 && |comps.keys| >= (if GlobalExtinction(c) then 2 else 1)
    ensures r.Ok? && GlobalExtinction(c) ==>
      r.value.hostObserved == HostSum(comps, |comps.keys|, GlobalScreens(comps.keys[|comps.keys| - 2], comps.keys[|comps.keys| - 1]), decompose, false)
    ensures r.Ok? && !GlobalExtinction(c) ==> r.value.hostObserved == HostSum(comps, |comps.keys|, PerComponent, decompose, false)
  {
    var global := GlobalExtinction(c);
    if |c.keys| < 2 then Err(IndexError("config"))
    else if global && |comps.keys| < 2 then Err(IndexError("comp_best_fit"))
    else if |comps.keys| == 0 then Err(IndexError("comp_best_fit"))
    else
      var screens := ScreensOf(comps, global);
      Ok(Decomposition(QsoPart(comps, screens, decompose, false), HostSum(comps, |comps.keys|, screens, decompose, false),
                       QsoPart(comps, screens, decompose, true), HostSum(comps, |comps.keys|, screens, decompose, true)))
  }

  /** Without decomposition every base component is host. */
  lemma {:induction false} HostIsTotalWithoutQso(comps: Components, i: nat, screens: Screens, intrinsic: bool)
    requires comps.Valid() && ScreensPresent(comps, screens) && i <= |comps.keys|
    ensures HostSum(comps, i, screens, Some(false), intrinsic) == TotalSum(comps, i, screens, intrinsic)
  {
    if i > 0 {
      HostIsTotalWithoutQso(comps, i - 1, screens, intrinsic);
    }
  }

  /** With the `decompose_qso_fit` key absent nothing is accumulated. */
  lemma {:induction false} HostIsZeroWithoutKey(comps: Components, i: nat, screens: Screens, intrinsic: bool)
    requires comps.Valid() && ScreensPresent(comps, screens) && i <= |comps.keys|
    ensures HostSum(comps, i, screens, None, intrinsic) == VecZeros(comps.n)
  {
    if i > 0 {
      HostIsZeroWithoutKey(comps, i - 1, screens, intrinsic);
    }
  }

  /** With decomposition, the first base component plus the host is every base component. */
  lemma {:induction false} QsoPlusHostIsTotal(comps: Components, i: nat, screens: Screens, intrinsic: bool)
    requires comps.Valid() && ScreensPresent(comps, screens) && 1 <= i <= |comps.keys|
    requires IsBase(comps.keys[0], screens)
    ensures VecAdd(QsoPart(comps, screens, Some(true), intrinsic), HostSum(comps, i, screens, Some(true), intrinsic))
      == TotalSum(comps, i, screens, intrinsic)
  {
    var q := QsoPart(comps, screens, Some(true), intrinsic);
    assert |q| == comps.n;
    if i == 1 {
      assert HostSum(comps, 1, screens, Some(true), intrinsic) == VecZeros(comps.n);
      assert TotalSum(comps, 1, screens, intrinsic) == VecAdd(VecZeros(comps.n), q);
      VecAddZeros(q);
    } else {
      QsoPlusHostIsTotal(comps, i - 1, screens, intrinsic);
      var el := comps.keys[i - 1];
      if IsBase(el, screens) {
        var h := HostSum(comps, i - 1, screens, Some(true), intrinsic);
        var x := if intrinsic then comps.spectra[el] else Observed(comps, el, screens);
        VecAddAssoc(q, h, x);
      }
    }
  }

  /** Adding zeros on either side changes nothing. */
  lemma VecAddZeros(a: seq<real>)
    ensures VecAdd(a, VecZeros(|a|)) == a && VecAdd(VecZeros(|a|), a) == a
  {
  }

  /** Vector addition is associative. */
  lemma VecAddAssoc(a: seq<real>, b: seq<real>, c: seq<real>)
    requires |a| == |b| == |c|
    ensures VecAdd(a, VecAdd(b, c)) == VecAdd(VecAdd(a, b), c)
  {
  }

  /**
   * The decomposition is a partition: with `decompose_qso_fit` true the QSO
   * and host parts add up to all base components, with it false the host is
   * everything and there is no QSO part, and with the key absent both are
   * empty.
   */
  lemma DecompositionPartitions(c: Config, comps: Components, decompose: Option<bool>)
    requires comps.Valid()
    requires DecomposeSpec(c, comps, decompose).Ok?
    ensures var d := DecomposeSpec(c, comps, decompose).value;
      var screens := ScreensOf(comps, GlobalExtinction(c));
      var n := |comps.keys|;
      && (decompose == Some(true) && IsBase(comps.keys[0], screens) ==>
            VecAdd(d.qsoObserved, d.hostObserved) == TotalSum(comps, n, screens, false)
            && VecAdd(d.qsoIntrinsic, d.hostIntrinsic) == TotalSum(comps, n, screens, true))
      && (decompose == Some(false) ==>
            d.qsoObserved == [] && d.hostObserved == TotalSum(comps, n, screens, false)
            && d.hostIntrinsic == TotalSum(comps, n, screens, true))
      && (decompose.None? ==> d.qsoObserved == [] && d.hostObserved == VecZeros(comps.n))
  {
    var screens := ScreensOf(comps, GlobalExtinction(c));
    var n := |comps.keys|;
    if decompose == Some(true) && IsBase(comps.keys[0], screens) {
      QsoPlusHostIsTotal(comps, n, screens, false);
      QsoPlusHostIsTotal(comps, n, screens, true);
    } else if decompose == Some(false) {
      HostIsTotalWithoutQso(comps, n, screens, false);
      HostIsTotalWithoutQso(comps, n, screens, true);
    } else if decompose.None? {
      HostIsZeroWithoutKey(comps, n, screens, false);
    }
  }

  /** The accumulation loop of `quest_extract_QSO_contrib`. */
  method QsoHostDecompose(c: Config, comps: Components, decompose: Option<bool>)
    returns (r: Result<Decomposition, QuestError>)
    requires c.Valid() && comps.Valid()
    ensures r == DecomposeSpec(c, comps, decompose)
  {
    if |c.keys| < 2 {
      return Err(IndexError("config"));
    }
    var global := ScanGlobalExtinction(c);
    var keys := comps.keys;
    var screens := PerComponent;
    if global {
      if |keys| < 2 {
        return Err(IndexError("comp_best_fit"));
      }
      screens := GlobalScreens(keys[|keys| - 2], keys[|keys| - 1]);
    } else if |keys| == 0 {
      return Err(IndexError("comp_best_fit"));
    }
    var qsoObs, hostObs, qsoIntr, hostIntr := Accumulate(comps, screens, decompose);
    r := Ok(Decomposition(qsoObs, hostObs, qsoIntr, hostIntr));
  }

  /** One more component extends both host sums by it when it is host; the first component alone decides the QSO part. */
  lemma HostSumStep(comps: Components, i: nat, screens: Screens, decompose: Option<bool>)
    requires comps.Valid() && ScreensPresent(comps, screens) && i < |comps.keys|
    ensures var el := comps.keys[i];
      var host := IsHost(comps.keys, i, screens, decompose);
      && HostSum(comps, i + 1, screens, decompose, false)
           == (if host then VecAdd(HostSum(comps, i, screens, decompose, false), Observed(comps, el, screens))
               else HostSum(comps, i, screens, decompose, false))
      && HostSum(comps, i + 1, screens, decompose, true)
           == (if host then VecAdd(HostSum(comps, i, screens, decompose, true), comps.spectra[el])
               else HostSum(comps, i, screens, decompose, true))
      && (i == 0 ==>
            && QsoPart(comps, screens, decompose, false)
                 == (if decompose == Some(true) && IsBase(el, screens) then Observed(comps, el, screens) else [])
            && QsoPart(comps, screens, decompose, true)
                 == (if decompose == Some(true) && IsBase(el, screens) then comps.spectra[el] else []))
  {
  }

  /** The loop over the components: the first base component may become the quasar, the other base components add up to the host. */
  method Accumulate(comps: Components, screens: Screens, decompose: Option<bool>)
    returns (qsoObs: seq<real>, hostObs: seq<real>, qsoIntr: seq<real>, hostIntr: seq<real>)
    requires comps.Valid() && ScreensPresent(comps, screens) && |comps.keys| > 0
    ensures qsoObs == QsoPart(comps, screens, decompose, false)
    ensures qsoIntr == QsoPart(comps, screens, decompose, true)
    ensures hostObs == HostSum(comps, |comps.keys|, screens, decompose, false)
    ensures hostIntr == HostSum(comps, |comps.keys|, screens, decompose, true)
  {
    var keys := comps.keys;
    qsoObs, qsoIntr := [], [];
    hostObs := VecZeros(comps.n);
    hostIntr := VecZeros(comps.n);
    var i := 0;
    while i < |keys|
      invariant 0 <= i <= |keys|
      invariant hostObs == HostSum(comps, i, screens, decompose, false)
      invariant hostIntr == HostSum(comps, i, screens, decompose, true)
      invariant qsoObs == (if i > 0 then QsoPart(comps, screens, decompose, false) else [])
      invariant qsoIntr == (if i > 0 then QsoPart(comps, screens, decompose, true) else [])
    {
      qsoObs, hostObs, qsoIntr, hostIntr := AccumulateOne(comps, i, screens, decompose, qsoObs, hostObs, qsoIntr, hostIntr);
      i := i + 1;
    }
  }

  /** One pass of the loop: component `i` becomes the quasar, joins the host, or is skipped. */
  method AccumulateOne(comps: Components, i: nat, screens: Screens, decompose: Option<bool>,
                       qsoObs0: seq<real>, hostObs0: seq<real>, qsoIntr0: seq<real>, hostIntr0: seq<real>)
    returns (qsoObs: seq<real>, hostObs: seq<real>, qsoIntr: seq<real>, hostIntr: seq<real>)
    requires comps.Valid() && ScreensPresent(comps, screens) && i < |comps.keys|
    requires hostObs0 == HostSum(comps, i, screens, decompose, false)
    requires hostIntr0 == HostSum(comps, i, screens, decompose, true)
    requires qsoObs0 == (if i > 0 then QsoPart(comps, screens, decompose, false) else [])
    requires qsoIntr0 == (if i > 0 then QsoPart(comps, screens, decompose, true) else [])
    ensures hostObs == HostSum(comps, i + 1, screens, decompose, false)
    ensures hostIntr == HostSum(comps, i + 1, screens, decompose, true)
    ensures qsoObs == QsoPart(comps, screens, decompose, false)
    ensures qsoIntr == QsoPart(comps, screens, decompose, true)
  {
    var el := comps.keys[i];
    HostSumStep(comps, i, screens, decompose);
    qsoObs, hostObs, qsoIntr, hostIntr := qsoObs0, hostObs0, qsoIntr0, hostIntr0;
    if IsBase(el, screens) && decompose.Some? {
      var observed := Observed(comps, el, screens);
      if decompose.value && i == 0 {
        qsoObs := observed;
        qsoIntr := comps.spectra[el];
      } else {
        hostObs := VecAdd(hostObs, observed);
        hostIntr := VecAdd(hostIntr, comps.spectra[el]);
      }
    }
  }
}
