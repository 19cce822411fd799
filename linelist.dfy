/**
 * The line catalogue: four tables of emission lines, each in Angstrom or
 * micron, brought onto one unit, stacked, optionally reduced to the requested
 * names in request order, stripped of the LaTeX label column on request, and
 * checked against the validity range of the vacuum-to-air formula.  The
 * warnings the catalogue prints are returned in a `Report`.
 */
module LineList {
  import opened Wrappers

  datatype Unit = Angstrom | Micron

  /** One catalogue row: line name, optional LaTeX label (`linelab`), wavelength (`lines`). */
  datatype Row = Row(name: string, tex: Option<string>, wave: real)

  /** One catalogue table: all its wavelengths share one unit. */
  datatype Table = Table(unit: Unit, rows: seq<Row>)

  /** What the catalogue prints along the way. */
  datatype Report = Report(
    unknownUnit: bool,          // `waveunit` neither 'Angstrom' nor 'micron'
    duplicatesRequested: bool,  // `inlines != uniqlist(inlines)`
    missing: seq<string>,       // requested names with no row
    ambiguous: seq<string>,     // requested names with several rows
    sizeMismatch: bool,         // fewer rows out than names in
    badVacuum: bool,            // `vacuum` neither True nor False: vacuum is used
    mortonFail: seq<string>)    // names outside the validity range of the air formula

  /** The `vacuum` argument; `None` is a value equal to neither True nor False. */
  function WantsVacuum(vacuum: Option<bool>): (r: bool)
    ensures vacuum.Some? ==> r == vacuum.value
    ensures vacuum.None? ==> r
  {
    vacuum.None? || vacuum.value
  }

  // ---------------------------------------------------------------------
  // uniqlist

  predicate NoDuplicates<T(==,!new)>(s: seq<T>) {
    forall i, j :: 0 <= i < j < |s| ==> s[i] != s[j]
  }

  /** The elements of `s` in first-occurrence order, each once. */
  function Dedup<T(==,!new)>(s: seq<T>): (r: seq<T>)
    ensures NoDuplicates(r)
    ensures forall x :: x in r <==> x in s
    decreases |s|
  {
    if |s| == 0 then []
    else
      var d := Dedup(s[..|s| - 1]);
      var x := s[|s| - 1];
      assert forall y :: y in s <==> y in s[..|s| - 1] || y == x by {
        assert s == s[..|s| - 1] + [x];
      }
      if x in d then d else d + [x]
  }

  /** `uniqlist`: appends each element not yet in the output. */
  method UniqList<T(==,!new)>(inlist: seq<T>) returns (outlist: seq<T>)
    ensures outlist == Dedup(inlist)
  {
    outlist := [];
    var i := 0;
    while i < |inlist|
      invariant 0 <= i <= |inlist|
      invariant outlist == Dedup(inlist[..i])
    {
      var x := inlist[i];
      assert inlist[..i + 1][..i] == inlist[..i];
      if x !in outlist {
        outlist := outlist + [x];
      }
      i := i + 1;
    }
    assert inlist[..i] == inlist;
  }

  /** Index of the first occurrence of `x` in `s`. */
  function FirstIndex<T(==,!new)>(s: seq<T>, x: T): (k: nat)
    requires x in s
    ensures k < |s| && s[k] == x && forall j :: 0 <= j < k ==> s[j] != x
  {
    if s[0] == x then 0 else 1 + FirstIndex(s[1..], x)
  }

  /** The first occurrence inside a prefix is the first occurrence in the whole sequence. */
  lemma {:induction false} FirstIndexPrefix<T(!new)>(s: seq<T>, n: nat, x: T)
    requires n <= |s| && x in s[..n]
    ensures x in s && FirstIndex(s[..n], x) == FirstIndex(s, x)
  {
    var k := FirstIndex(s[..n], x);
    assert s[..n][k] == s[k] == x;
  }

  /** `uniqlist` keeps first-occurrence order. */
  lemma {:induction false} DedupFirstOccurrenceOrder<T(!new)>(s: seq<T>)
    ensures var r := Dedup(s);
      forall i, j :: 0 <= i < j < |r| ==> FirstIndex(s, r[i]) < FirstIndex(s, r[j])
    decreases |s|
  {
    if |s| > 0 {
      var p := s[..|s| - 1];
      var x := s[|s| - 1];
      var d := Dedup(p);
      var r := Dedup(s);
      DedupFirstOccurrenceOrder(p);
      forall y | y in p ensures y in s && FirstIndex(p, y) == FirstIndex(s, y) {
        FirstIndexPrefix(s, |s| - 1, y);
      }
      assert r == if x in d then d else d + [x];
      forall i, j | 0 <= i < j < |r| ensures FirstIndex(s, r[i]) < FirstIndex(s, r[j]) {
        assert i < |d|;
        assert r[i] == d[i];
        assert d[i] in p;
        if j < |d| {
          assert r[j] == d[j] && d[j] in d && d[j] in p;
          assert 0 <= i < j < |Dedup(p)|;
          assert FirstIndex(p, Dedup(p)[i]) < FirstIndex(p, Dedup(p)[j]);
        } else {
          assert r == d + [x] && r[j] == x && x !in p;
          assert FirstIndex(s, x) == |s| - 1;
        }
      }
    }
  }

  /** The duplicate warning fires exactly when some name is requested twice. */
  lemma {:induction false} DedupIdentityIffNoDuplicates<T(!new)>(s: seq<T>)
    ensures Dedup(s) == s <==> NoDuplicates(s)
    decreases |s|
  {
    if |s| > 0 {
      var p := s[..|s| - 1];
      var x := s[|s| - 1];
      DedupIdentityIffNoDuplicates(p);
      DedupLength(p);
      assert s == p + [x];
      if NoDuplicates(s) {
        assert NoDuplicates(p);
      }
    }
  }

  lemma {:induction false} DedupLength<T(!new)>(s: seq<T>)
    ensures |Dedup(s)| <= |s|
    decreases |s|
  {
    if |s| > 0 {
      DedupLength(s[..|s| - 1]);
    }
  }

  // ---------------------------------------------------------------------
  // Units

  /** The unit of the result: 'Angstrom' gives Angstrom, anything else micron. */
  function TargetUnit(waveunit: string): (u: Unit)
    ensures u == Angstrom <==> waveunit == "Angstrom"
  {
    if waveunit == "Angstrom" then Angstrom else Micron
  }

  /** The factor that takes a wavelength from `src` to `dst`. */
  function Factor(src: Unit, dst: Unit): real {
    if src == dst then 1.0
    else if src == Micron then 1.0e4
    else 1.0e-4
  }

  function ScaleRows(rows: seq<Row>, f: real): (r: seq<Row>)
    ensures |r| == |rows|
    ensures forall k :: 0 <= k < |rows| ==> r[k] == rows[k].(wave := rows[k].wave * f)
  {
    seq(|rows|, k requires 0 <= k < |rows| => rows[k].(wave := rows[k].wave * f))
  }

  /** One table on the target unit. */
  function Convert(t: Table, dst: Unit): (r: Table)
    ensures r.unit == dst && |r.rows| == |t.rows|
    ensures forall k :: 0 <= k < |t.rows| ==>
      r.rows[k].name == t.rows[k].name && r.rows[k].tex == t.rows[k].tex
      && r.rows[k].wave == t.rows[k].wave * Factor(t.unit, dst)
  {
    Table(dst, ScaleRows(t.rows, Factor(t.unit, dst)))
  }

  /** Converting to the other unit and back gives every wavelength back. */
  lemma ConvertRoundTrip(t: Table, dst: Unit)
    ensures Convert(Convert(t, dst), t.unit) == t
  {
    var back := Convert(Convert(t, dst), t.unit);
    assert Factor(t.unit, dst) * Factor(dst, t.unit) == 1.0;
    forall k | 0 <= k < |t.rows| ensures back.rows[k] == t.rows[k] {
      assert back.rows[k].wave == t.rows[k].wave * Factor(t.unit, dst) * Factor(dst, t.unit);
    }
  }

  /** The unit loop: each table not already on the target unit is rescaled in place. */
  method NormaliseUnits(tables: array<Table>, waveunit: string)
    modifies tables
    ensures forall i :: 0 <= i < tables.Length ==> tables[i] == Convert(old(tables[i]), TargetUnit(waveunit))
  {
    var dst := TargetUnit(waveunit);
    var i := 0;
    while i < tables.Length
      invariant 0 <= i <= tables.Length
      invariant forall k :: 0 <= k < i ==> tables[k] == Convert(old(tables[k]), dst)
      invariant forall k :: i <= k < tables.Length ==> tables[k] == old(tables[k])
    {
      if tables[i].unit != dst {
        tables[i] := Convert(tables[i], dst);
      } else {
        assert ScaleRows(tables[i].rows, 1.0) == tables[i].rows;
      }
      i := i + 1;
    }
  }

  /** `vstack(all_tables)`: the rows of every table, in table order. */
  function Stack(tables: seq<Table>): (rows: seq<Row>)
    ensures forall t, r :: t in tables && r in t.rows ==> r in rows
    ensures forall r :: r in rows ==> exists t :: t in tables && r in t.rows
    ensures |rows| == TotalRows(tables)
  {
    if |tables| == 0 then [] else tables[0].rows + Stack(tables[1..])
  }

  function TotalRows(tables: seq<Table>): nat {
    if |tables| == 0 then 0 else |tables[0].rows| + TotalRows(tables[1..])
  }

  // ---------------------------------------------------------------------
  // Selection

  /** The rows of the catalogue named `name`, in catalogue order. */
  function Matches(db: seq<Row>, name: string): (m: seq<Row>)
    ensures |m| <= |db|
    ensures forall k :: 0 <= k < |m| ==> m[k] in db && m[k].name == name
  {
    if |db| == 0 then []
    else (if db[0].name == name then [db[0]] else []) + Matches(db[1..], name)
  }

  /** A name has no catalogue row exactly when no row carries it. */
  lemma {:induction false} MatchesEmptyIffAbsent(db: seq<Row>, name: string)
    ensures |Matches(db, name)| == 0 <==> forall r :: r in db ==> r.name != name
  {
    if |db| > 0 {
      MatchesEmptyIffAbsent(db[1..], name);
      assert forall r :: r in db ==> r == db[0] || r in db[1..];
    }
  }

  /** The row a requested name contributes: none when absent, the first when duplicated. */
  function Pick(db: seq<Row>, name: string): (r: seq<Row>)
    ensures |r| <= 1
    ensures |r| == 0 <==> |Matches(db, name)| == 0
    ensures |r| == 1 ==> r[0] == Matches(db, name)[0] && r[0].name == name && r[0] in db
  {
    var m := Matches(db, name);
    if |m| == 0 then [] else [m[0]]
  }

  /** Rows for the requested names, in request order. */
  function SelectRows(db: seq<Row>, inlines: seq<string>): (out: seq<Row>)
    ensures |out| <= |inlines|
  {
    if |inlines| == 0 then []
    else SelectRows(db, inlines[..|inlines| - 1]) + Pick(db, inlines[|inlines| - 1])
  }

  /** The selection returns one row per requested name exactly when every requested name exists. */
  lemma {:induction false} SelectRowsComplete(db: seq<Row>, inlines: seq<string>)
    ensures |SelectRows(db, inlines)| == |inlines| <==> forall n :: n in inlines ==> |Matches(db, n)| > 0
    decreases |inlines|
  {
    if |inlines| > 0 {
      var p := inlines[..|inlines| - 1];
      var last := inlines[|inlines| - 1];
      SelectRowsComplete(db, p);
      SelectRowsLengthSnoc(db, inlines);
      AllFoundSnoc(db, inlines);
    }
  }

  /** The last requested name adds one row when it exists and none otherwise. */
  lemma SelectRowsLengthSnoc(db: seq<Row>, inlines: seq<string>)
    requires |inlines| > 0
    ensures var p := inlines[..|inlines| - 1];
      |SelectRows(db, inlines)| == |SelectRows(db, p)| + (if |Matches(db, inlines[|inlines| - 1])| > 0 then 1 else 0)
  {
  }

  /** Every name of `p + [last]` exists iff every name of `p` does and `last` does. */
  lemma AllFoundSnoc(db: seq<Row>, inlines: seq<string>)
    requires |inlines| > 0
    ensures var p := inlines[..|inlines| - 1];
      var last := inlines[|inlines| - 1];
      (forall n :: n in inlines ==> |Matches(db, n)| > 0)
        <==> (forall n :: n in p ==> |Matches(db, n)| > 0) && |Matches(db, last)| > 0
  {
    var p := inlines[..|inlines| - 1];
    assert inlines == p + [inlines[|inlines| - 1]];
  }

  /** Every name of a request exists, so every name of its prefix does. */
  lemma AllFoundPrefix(db: seq<Row>, inlines: seq<string>, p: seq<string>)
    requires |inlines| > 0 && p == inlines[..|inlines| - 1]
    requires forall k :: 0 <= k < |inlines| ==> |Matches(db, inlines[k])| > 0
    ensures forall k :: 0 <= k < |p| ==> |Matches(db, p[k])| > 0
  {
  }

  /** When every name exists, the k-th output row is the first catalogue row named `inlines[k]`. */
  lemma {:induction false} SelectRowsInRequestOrder(db: seq<Row>, inlines: seq<string>)
    requires forall k :: 0 <= k < |inlines| ==> |Matches(db, inlines[k])| > 0
    ensures var out := SelectRows(db, inlines);
      |out| == |inlines| && forall k :: 0 <= k < |inlines| ==> out[k] == Matches(db, inlines[k])[0]
    decreases |inlines|
  {
    if |inlines| > 0 {
      var p := inlines[..|inlines| - 1];
      var last := inlines[|inlines| - 1];
      assert |Matches(db, last)| > 0;
      AllFoundPrefix(db, inlines, p);
      SelectRowsInRequestOrder(db, p);
      var sp, pick := SelectRows(db, p), Pick(db, last);
      var out := SelectRows(db, inlines);
      assert out == sp + pick;
      forall k | 0 <= k < |inlines| ensures out[k] == Matches(db, inlines[k])[0] {
        if k < |p| {
          assert out[k] == sp[k] && p[k] == inlines[k];
          assert sp[k] == Matches(db, p[k])[0];
        } else {
          assert k == |p| && inlines[k] == last;
          assert out[k] == pick[0] && pick[0] == Matches(db, last)[0];
        }
      }
    }
  }

  /** The requested names without a catalogue row, in request order (one warning each). */
  function Missing(db: seq<Row>, inlines: seq<string>): seq<string> {
    if |inlines| == 0 then []
    else
      var last := inlines[|inlines| - 1];
      Missing(db, inlines[..|inlines| - 1]) + (if |Matches(db, last)| == 0 then [last] else [])
  }

  /** The requested names with several catalogue rows, in request order (one warning each). */
  function Ambiguous(db: seq<Row>, inlines: seq<string>): seq<string> {
    if |inlines| == 0 then []
    else
      var last := inlines[|inlines| - 1];
      Ambiguous(db, inlines[..|inlines| - 1]) + (if |Matches(db, last)| > 1 then [last] else [])
  }

  /** A name is reported missing exactly when it was requested and has no catalogue row. */
  lemma MissingExactly(db: seq<Row>, inlines: seq<string>, n: string)
    ensures n in Missing(db, inlines) <==> n in inlines && forall r :: r in db ==> r.name != n
  {
    MatchesEmptyIffAbsent(db, n);
    MissingIffNoMatch(db, inlines, n);
  }

  /** The induction behind `MissingExactly`, phrased on the matches. */
  lemma {:induction false} MissingIffNoMatch(db: seq<Row>, inlines: seq<string>, n: string)
    ensures n in Missing(db, inlines) <==> n in inlines && |Matches(db, n)| == 0
    decreases |inlines|
  {
    if |inlines| > 0 {
      var p := inlines[..|inlines| - 1];
      var last := inlines[|inlines| - 1];
      MissingIffNoMatch(db, p, n);
      assert inlines == p + [last];
      var tail := if |Matches(db, last)| == 0 then [last] else [];
      assert Missing(db, inlines) == Missing(db, p) + tail;
      assert n in Missing(db, inlines) <==> n in Missing(db, p) || n in tail;
      assert n in inlines <==> n in p || n == last;
    }
  }

  /** A name is reported ambiguous exactly when it was requested and names two or more rows. */
  lemma {:induction false} AmbiguousExactly(db: seq<Row>, inlines: seq<string>, n: string)
    ensures n in Ambiguous(db, inlines) <==> n in inlines && |Matches(db, n)| > 1
    decreases |inlines|
  {
    if |inlines| > 0 {
      var p := inlines[..|inlines| - 1];
      AmbiguousExactly(db, p, n);
      assert inlines == p + [inlines[|inlines| - 1]];
    }
  }

  /** One more requested name extends the selection and the two warning lists by that name alone. */
  lemma SelectStep(db: seq<Row>, inlines: seq<string>, i: nat)
    requires i < |inlines|
    ensures SelectRows(db, inlines[..i + 1]) == SelectRows(db, inlines[..i]) + Pick(db, inlines[i])
    ensures Missing(db, inlines[..i + 1])
      == Missing(db, inlines[..i]) + (if |Matches(db, inlines[i])| == 0 then [inlines[i]] else [])
    ensures Ambiguous(db, inlines[..i + 1])
      == Ambiguous(db, inlines[..i]) + (if |Matches(db, inlines[i])| > 1 then [inlines[i]] else [])
  {
    assert inlines[..i + 1][..i] == inlines[..i];
  }

  /** One pass of the selection loop: the rows kept for `name` and its warnings, if any. */
  method SelectOne(db: seq<Row>, name: string) returns (sub: seq<Row>, miss: seq<string>, amb: seq<string>)
    ensures sub == Pick(db, name)
    ensures miss == if |Matches(db, name)| == 0 then [name] else []
    ensures amb == if |Matches(db, name)| > 1 then [name] else []
  {
    var m := Matches(db, name);
    miss, amb := [], [];
    if |m| == 0 {
      miss := [name];
    }
    sub := m;
    if |m| > 1 {
      amb := [name];
      sub := [m[0]];
    }
    assert sub == Pick(db, name) by {
      if |m| == 1 {
        assert m == [m[0]];
      }
    }
  }

  /** The selection loop: one `vstack` per requested name, with its warnings. */
  method Select(db: seq<Row>, inlines: seq<string>) returns (out: seq<Row>, missing: seq<string>, ambiguous: seq<string>)
    ensures out == SelectRows(db, inlines)
    ensures missing == Missing(db, inlines)
    ensures ambiguous == Ambiguous(db, inlines)
  {
    out, missing, ambiguous := [], [], [];
    var i := 0;
    while i < |inlines|
      invariant 0 <= i <= |inlines|
      invariant out == SelectRows(db, inlines[..i])
      invariant missing == Missing(db, inlines[..i])
      invariant ambiguous == Ambiguous(db, inlines[..i])
    {
      var sub, miss, amb := SelectOne(db, inlines[i]);
      SelectStep(db, inlines, i);
      out, missing, ambiguous := out + sub, missing + miss, ambiguous + amb;
      i := i + 1;
    }
    assert inlines[..i] == inlines;
  }

  // ---------------------------------------------------------------------
  // Columns and the air conversion

  /** `keep_columns(['name', 'lines'])` when labels are not wanted. */
  function Columns(rows: seq<Row>, linelab: bool): (r: seq<Row>)
    ensures |r| == |rows|
    ensures forall k :: 0 <= k < |rows| ==>
      r[k].name == rows[k].name && r[k].wave == rows[k].wave
      && r[k].tex == (if linelab then rows[k].tex else None)
  {
    if linelab then rows
    else seq(|rows|, k requires 0 <= k < |rows| => rows[k].(tex := None))
  }

  /** Outside the range where Morton's vacuum-to-air formula holds (2000-25000 Angstrom). */
  predicate OutsideMorton(w: real, u: Unit) {
    if u == Angstrom then w < 2000.0 || w > 25000.0 else w < 0.2 || w > 2.5
  }

  /** The Angstrom and micron tests flag the same lines. */
  lemma MortonRangeUnitFree(w: real)
    ensures OutsideMorton(w, Angstrom) <==> OutsideMorton(w * 1.0e-4, Micron)
  {
  }

  function MortonFailures(rows: seq<Row>, u: Unit): (names: seq<string>)
    ensures forall n :: n in names <==> exists r :: r in rows && r.name == n && OutsideMorton(r.wave, u)
  {
    if |rows| == 0 then []
    else
      (if OutsideMorton(rows[0].wave, u) then [rows[0].name] else []) + MortonFailures(rows[1..], u)
  }

  /**
   * The whole catalogue call.  `toAir` stands for Morton's equation 3 on a
   * wavelength in the given unit.
   */
  method Linelist(tables: array<Table>, inlines: seq<string>, linelab: bool, waveunit: string,
                  vacuum: Option<bool>, toAir: (real, Unit) -> real)
    returns (out: seq<Row>, unit: Unit, report: Report)
    modifies tables
    ensures unit == TargetUnit(waveunit)
    ensures forall i :: 0 <= i < tables.Length ==> tables[i] == Convert(old(tables[i]), unit)
    ensures var all := Stack(tables[..]);
      var chosen := if |inlines| == 0 then all else SelectRows(all, inlines);
      var cols := Columns(chosen, linelab);
      && |out| == |cols|
      && (forall k :: 0 <= k < |out| ==>
            out[k] == if WantsVacuum(vacuum) then cols[k] else cols[k].(wave := toAir(cols[k].wave, unit)))
      && report.mortonFail == (if WantsVacuum(vacuum) then [] else MortonFailures(cols, unit))
      && (report.duplicatesRequested <==> |inlines| > 0 && !NoDuplicates(inlines))
      && (report.sizeMismatch <==> |inlines| > 0 && |chosen| != |inlines|)
      && report.missing == (if |inlines| == 0 then [] else Missing(all, inlines))
      && report.ambiguous == (if |inlines| == 0 then [] else Ambiguous(all, inlines))
    ensures report.unknownUnit <==> waveunit != "Angstrom" && waveunit != "micron"
    ensures report.badVacuum <==> vacuum.None?
  {
    unit := TargetUnit(waveunit);
    NormaliseUnits(tables, waveunit);
    var all := Stack(tables[..]);
    var chosen, missing, ambiguous, dupes, mismatch := Choose(all, inlines);
    var cols := Columns(chosen, linelab);
    var badVacuum := vacuum.None?;
    var fails;
    out, fails := ToAir(cols, if badVacuum then true else vacuum.value, unit, toAir);
    report := Report(waveunit != "Angstrom" && waveunit != "micron", dupes, missing, ambiguous, mismatch, badVacuum, fails);
  }

  /** The rows `linelist` keeps: all of them, or the requested ones with their warnings. */
  method Choose(all: seq<Row>, inlines: seq<string>)
    returns (chosen: seq<Row>, missing: seq<string>, ambiguous: seq<string>, dupes: bool, mismatch: bool)
    ensures chosen == if |inlines| == 0 then all else SelectRows(all, inlines)
    ensures dupes <==> |inlines| > 0 && !NoDuplicates(inlines)
    ensures mismatch <==> |inlines| > 0 && |chosen| != |inlines|
    ensures missing == (if |inlines| == 0 then [] else Missing(all, inlines))
    ensures ambiguous == (if |inlines| == 0 then [] else Ambiguous(all, inlines))
  {
    chosen, missing, ambiguous, dupes, mismatch := all, [], [], false, false;
    if |inlines| > 0 {
      var u := UniqList(inlines);
      DedupIdentityIffNoDuplicates(inlines);
      dupes := inlines != u;
      chosen, missing, ambiguous := Select(all, inlines);
      mismatch := |inlines| != |chosen|;
    }
  }

  /** The vacuum rows as they are, or converted to air with the Morton warning. */
  method ToAir(cols: seq<Row>, vacuum: bool, unit: Unit, toAir: (real, Unit) -> real) returns (out: seq<Row>, fails: seq<string>)
    ensures |out| == |cols|
    ensures forall k :: 0 <= k < |out| ==> out[k] == if vacuum then cols[k] else cols[k].(wave := toAir(cols[k].wave, unit))
    ensures fails == if vacuum then [] else MortonFailures(cols, unit)
  {
    if vacuum {
      out, fails := cols, [];
    } else {
      fails := MortonFailures(cols, unit);
      out := seq(|cols|, k requires 0 <= k < |cols| => cols[k].(wave := toAir(cols[k].wave, unit)));
    }
  }
}
