/**
 * The post-processing of `ctcharge_methaneo2.py`: which methods are plotted,
 * the rows of the desired atom type, the summing of charges per structure
 * (CID) when a structure has several atoms of that type, the conversion of
 * the CID label to a distance, and the plot style of each method.
 * The pivot of the input table by pandas is taken as given: the model starts
 * from the pivoted rows.
 */
module ChargeTable {
  import opened Results
  import opened Text
  import opened Numbers
  import opened Tables
  import StructureIncrements

  /** `DESIRED_ATOM`: the atom type whose charges are plotted. */
  const DesiredAtom := 8
  const DielectricSuffix := "_DIELECTRIC"
  const CpcmSuffix := "_CPCM"

  // ---------------------------------------------------------------------------
  // Selecting the methods
  // ---------------------------------------------------------------------------

  /** A method with an implicit solvent model: its name ends in `_DIELECTRIC` or `_CPCM`. */
  predicate IsSolvation(name: string) {
    EndsWith(name, DielectricSuffix) || EndsWith(name, CpcmSuffix)
  }

  /** A gas-phase method: its name ends in neither suffix. */
  predicate IsGas(name: string) {
    !EndsWith(name, DielectricSuffix) && !EndsWith(name, CpcmSuffix)
  }

  /** The method list after the `--gas` comprehension and then the `--solvation` one. */
  function SelectMethods(methods: seq<string>, gas: bool, solvation: bool): seq<string> {
    var afterGas := if gas then Filter(methods, IsGas) else methods;
    if solvation then Filter(afterGas, IsSolvation) else afterGas
  }

  /**
   * Without a flag the list is unchanged; `--gas` keeps exactly the gas-phase
   * methods, `--solvation` exactly the solvated ones, and both together keep
   * none. Nothing is repeated that was not repeated before.
   */
  lemma SelectMethodsMeaning(methods: seq<string>, gas: bool, solvation: bool)
    ensures var r := SelectMethods(methods, gas, solvation);
            && (!gas && !solvation ==> r == methods)
            && (forall m :: m in r <==> m in methods && (gas ==> IsGas(m)) && (solvation ==> IsSolvation(m)))
            && (gas && solvation ==> r == [])
            && (Distinct(methods) ==> Distinct(r))
  {
    var r := SelectMethods(methods, gas, solvation);
    var afterGas := if gas then Filter(methods, IsGas) else methods;
    if gas && solvation {
      FilterNone(afterGas, IsSolvation);
    }
    if Distinct(methods) {
      if gas {
        FilterDistinct(methods, IsGas);
      }
      if solvation {
        FilterDistinct(afterGas, IsSolvation);
      }
    }
  }

  /** The selection keeps the relative order of the methods: it commutes with concatenation. */
  lemma SelectMethodsAppend(a: seq<string>, b: seq<string>, gas: bool, solvation: bool)
    ensures SelectMethods(a + b, gas, solvation) == SelectMethods(a, gas, solvation) + SelectMethods(b, gas, solvation)
  {
    var ga := if gas then Filter(a, IsGas) else a;
    var gb := if gas then Filter(b, IsGas) else b;
    if gas {
      FilterAppend(a, b, IsGas);
    }
    if solvation {
      FilterAppend(ga, gb, IsSolvation);
    }
  }

  // ---------------------------------------------------------------------------
  // The pivoted rows
  // ---------------------------------------------------------------------------

  /**
   * A row of the pivoted table: the index columns and the charge of each
   * method; a method without a value (NaN after the pivot) has no entry.
   */
  datatype Row = Row(cid: string, atomNumber: int, atomType: int, charges: map<string, real>)

  function CidOf(row: Row): string {
    row.cid
  }

  function Cids(rows: seq<Row>): seq<string> {
    Keys(rows, CidOf)
  }

  predicate OfDesiredType(row: Row) {
    row.atomType == DesiredAtom
  }

  /** `df[df["Atom type"] == DESIRED_ATOM]`. */
  function DesiredRows(rows: seq<Row>): seq<Row> {
    Filter(rows, OfDesiredType)
  }

  /** Exactly the rows of atom type 8 remain, in their order. */
  lemma DesiredRowsMeaning(rows: seq<Row>, more: seq<Row>)
    ensures forall k :: 0 <= k < |DesiredRows(rows)| ==> DesiredRows(rows)[k].atomType == DesiredAtom
    ensures forall row :: row in DesiredRows(rows) <==> row in rows && row.atomType == DesiredAtom
    ensures DesiredRows(rows + more) == DesiredRows(rows) + DesiredRows(more)
  {
    forall k | 0 <= k < |DesiredRows(rows)| ensures DesiredRows(rows)[k].atomType == DesiredAtom {
      assert DesiredRows(rows)[k] in DesiredRows(rows);
    }
    FilterAppend(rows, more, OfDesiredType);
  }

  /** `df["CID"].groupby(df["CID"]).count().max() > 1`: some CID has more than one row. */
  predicate HasRepeat(rows: seq<Row>) {
    !Distinct(Cids(rows))
  }

  // ---------------------------------------------------------------------------
  // Summing the charges per CID
  // ---------------------------------------------------------------------------

  /**
   * `groupby("CID")[m].transform("sum")` at a row of `cid`: the sum of column
   * `m` over the rows of that CID, missing values skipped (0 when all are missing).
   */
  function GroupSum(rows: seq<Row>, cid: string, m: string): real
    decreases |rows|
  {
    if rows == [] then 0.0
    else
      var last := rows[|rows| - 1];
      GroupSum(rows[..|rows| - 1], cid, m) + (if last.cid == cid && m in last.charges then last.charges[m] else 0.0)
  }

  /** `cumulative_df[m] = cumulative_df.groupby("CID")[m].transform("sum")`. */
  function SumColumn(rows: seq<Row>, m: string): seq<Row> {
    seq(|rows|, k requires 0 <= k < |rows| => rows[k].(charges := rows[k].charges[m := GroupSum(rows, rows[k].cid, m)]))
  }

  /** The table after the loop body has run for each of `ms` in turn. */
  function SumColumns(rows: seq<Row>, ms: seq<string>): seq<Row>
    decreases |ms|
  {
    if ms == [] then rows else SumColumn(SumColumns(rows, ms[..|ms| - 1]), ms[|ms| - 1])
  }

  /** The whole step: when some CID repeats, sum each method per CID and keep the first row of each CID. */
  function Accumulate(rows: seq<Row>, methods: seq<string>): seq<Row> {
    if HasRepeat(rows) then KeepFirst(SumColumns(rows, methods), CidOf) else rows
  }

  /** The charges of a row of `cid` once each of `ms` holds its per-CID sum over `rows`. */
  function Summed(charges: map<string, real>, rows: seq<Row>, cid: string, ms: seq<string>): map<string, real> {
    map m | m in charges.Keys + (set x | x in ms) :: if m in ms then GroupSum(rows, cid, m) else charges[m]
  }

  /** The row that stands for `cid` afterwards: its first row, each of `ms` replaced by the per-CID sum. */
  function Collapsed(rows: seq<Row>, ms: seq<string>, cid: string): Row
    requires cid in Cids(rows)
  {
    var first := rows[FirstIndex(Cids(rows), cid)];
    first.(charges := Summed(first.charges, rows, cid, ms))
  }

  /** The per-CID sum of a column depends only on the CIDs and that column. */
  lemma {:induction false} GroupSumSameColumn(a: seq<Row>, b: seq<Row>, cid: string, m: string)
    requires |a| == |b|
    requires forall k :: 0 <= k < |a| ==> a[k].cid == b[k].cid && (m in a[k].charges <==> m in b[k].charges)
    requires forall k :: 0 <= k < |a| && m in a[k].charges ==> a[k].charges[m] == b[k].charges[m]
    ensures GroupSum(a, cid, m) == GroupSum(b, cid, m)
    decreases |a|
  {
    if a != [] {
      GroupSumSameColumn(a[..|a| - 1], b[..|b| - 1], cid, m);
    }
  }

  /** Summing keeps every row in place with its index columns. */
  lemma {:induction false} SumColumnsKeepsIndex(rows: seq<Row>, ms: seq<string>)
    ensures |SumColumns(rows, ms)| == |rows|
    ensures forall k :: 0 <= k < |rows| ==>
              var r := SumColumns(rows, ms)[k];
              r.cid == rows[k].cid && r.atomNumber == rows[k].atomNumber && r.atomType == rows[k].atomType
    decreases |ms|
  {
    if ms != [] {
      SumColumnsKeepsIndex(rows, ms[..|ms| - 1]);
    }
  }

  /** Summing one more column `m` extends the summed charges by `m`. */
  lemma SummedSnoc(charges: map<string, real>, rows: seq<Row>, cid: string, prefix: seq<string>, m: string)
    requires m !in prefix
    ensures Summed(charges, rows, cid, prefix)[m := GroupSum(rows, cid, m)] == Summed(charges, rows, cid, prefix + [m])
  {
    var ms := prefix + [m];
    assert (set x | x in ms) == (set x | x in prefix) + {m};
    var left := Summed(charges, rows, cid, prefix)[m := GroupSum(rows, cid, m)];
    var right := Summed(charges, rows, cid, ms);
    assert left.Keys == right.Keys;
    forall x | x in left.Keys ensures left[x] == right[x] {
      assert x in ms <==> x in prefix || x == m;
    }
  }

  /** A column not yet summed still holds its original values. */
  lemma SummedOtherColumn(rows: seq<Row>, before: seq<Row>, prefix: seq<string>, m: string)
    requires m !in prefix && |before| == |rows|
    requires forall k :: 0 <= k < |rows| ==> before[k] == rows[k].(charges := Summed(rows[k].charges, rows, rows[k].cid, prefix))
    ensures forall cid :: GroupSum(before, cid, m) == GroupSum(rows, cid, m)
  {
    forall cid ensures GroupSum(before, cid, m) == GroupSum(rows, cid, m) {
      forall k | 0 <= k < |before|
        ensures before[k].cid == rows[k].cid && (m in before[k].charges <==> m in rows[k].charges)
        ensures m in before[k].charges ==> before[k].charges[m] == rows[k].charges[m]
      {
      }
      GroupSumSameColumn(before, rows, cid, m);
    }
  }

  /**
   * With distinct methods, each row afterwards is the same row with every
   * method's charge replaced by the sum over the rows of its CID in the
   * original table: a column summed earlier does not disturb a later one.
   */
  lemma {:induction false} SumColumnsMeaning(rows: seq<Row>, ms: seq<string>)
    requires Distinct(ms)
    ensures |SumColumns(rows, ms)| == |rows|
    ensures forall k :: 0 <= k < |rows| ==>
              SumColumns(rows, ms)[k] == rows[k].(charges := Summed(rows[k].charges, rows, rows[k].cid, ms))
    decreases |ms|
  {
    if ms != [] {
      var n := |ms| - 1;
      var prefix, m := ms[..n], ms[n];
      assert Distinct(prefix);
      assert ms == prefix + [m];
      SumColumnsMeaning(rows, prefix);
      var before := SumColumns(rows, prefix);
      assert m !in prefix;
      SummedOtherColumn(rows, before, prefix, m);
      forall k | 0 <= k < |rows|
        ensures SumColumns(rows, ms)[k] == rows[k].(charges := Summed(rows[k].charges, rows, rows[k].cid, ms))
      {
        SummedSnoc(rows[k].charges, rows, rows[k].cid, prefix, m);
      }
    }
  }

  /**
   * When some CID repeats and the methods are distinct, each CID appears once
   * afterwards, in the order of its first row, and its row is `Collapsed`: the
   * first row of that CID with every method's charge summed over the CID.
   */
  lemma CumulatedRows(rows: seq<Row>, methods: seq<string>)
    requires Distinct(methods)
    ensures var out := KeepFirst(SumColumns(rows, methods), CidOf);
            && Distinct(Cids(out))
            && (forall c :: c in Cids(out) <==> c in Cids(rows))
            && (forall i :: 0 <= i < |out| ==> out[i].cid in Cids(rows) && out[i] == Collapsed(rows, methods, out[i].cid))
            && (forall i, j :: 0 <= i < j < |out| ==>
                  out[i].cid in Cids(rows) && out[j].cid in Cids(rows)
                  && FirstIndex(Cids(rows), out[i].cid) < FirstIndex(Cids(rows), out[j].cid))
  {
    var summed := SumColumns(rows, methods);
    SumColumnsMeaning(rows, methods);
    assert Keys(summed, CidOf) == Cids(rows);
    var out := KeepFirst(summed, CidOf);
    KeepFirstAreFirsts(summed, CidOf);
    KeepFirstInOrder(summed, CidOf);
    forall i | 0 <= i < |out| ensures out[i].cid in Cids(rows) && out[i] == Collapsed(rows, methods, out[i].cid) {
      assert CidOf(out[i]) == out[i].cid;
    }
    forall i, j | 0 <= i < j < |out|
      ensures FirstIndex(Cids(rows), out[i].cid) < FirstIndex(Cids(rows), out[j].cid)
    {
      assert CidOf(out[i]) == out[i].cid && CidOf(out[j]) == out[j].cid;
    }
  }

  /** Every row that survives the step is one of the input's rows, up to its charges. */
  lemma AccumulateKeepsRows(rows: seq<Row>, methods: seq<string>)
    ensures forall r :: r in Accumulate(rows, methods) ==>
              exists k :: 0 <= k < |rows| && r.cid == rows[k].cid && r.atomType == rows[k].atomType
  {
    if HasRepeat(rows) {
      var summed := SumColumns(rows, methods);
      SumColumnsKeepsIndex(rows, methods);
      KeepFirstAreFirsts(summed, CidOf);
      var out := KeepFirst(summed, CidOf);
      forall r | r in out ensures exists k :: 0 <= k < |rows| && r.cid == rows[k].cid && r.atomType == rows[k].atomType {
        var i :| 0 <= i < |out| && out[i] == r;
        var k := FirstIndex(Keys(summed, CidOf), CidOf(r));
        assert r == summed[k];
      }
    } else {
      forall r | r in rows ensures exists k :: 0 <= k < |rows| && r.cid == rows[k].cid && r.atomType == rows[k].atomType {
        var k :| 0 <= k < |rows| && rows[k] == r;
      }
    }
  }

  /**
   * The cumulative step of `main`: when some CID has several rows, the loop
   * over the methods replaces each method's column by its per-CID sum, then
   * only the first row of each CID is kept. Afterwards no CID repeats and the
   * same CIDs are present.
   */
  method CumulativeStep(rows: seq<Row>, methods: seq<string>) returns (df: seq<Row>)
    ensures df == Accumulate(rows, methods)
    ensures Distinct(Cids(df))
    ensures forall c :: c in Cids(df) <==> c in Cids(rows)
  {
    df := rows;
    if HasRepeat(rows) {
      var cumulative := rows;
      for i := 0 to |methods|
        invariant cumulative == SumColumns(rows, methods[..i])
      {
        assert methods[..i + 1][..i] == methods[..i];
        cumulative := SumColumn(cumulative, methods[i]);
      }
      assert methods[..|methods|] == methods;
      SumColumnsKeepsIndex(rows, methods);
      assert Keys(cumulative, CidOf) == Cids(rows);
      cumulative := KeepFirst(cumulative, CidOf);
      df := cumulative;
    }
  }

  // ---------------------------------------------------------------------------
  // The CID label
  // ---------------------------------------------------------------------------

  /** `cid.replace("A", "")` converted by `float`; `None` stands for the `ValueError`. */
  function ParseCid(cid: string): Option<real> {
    ParseFloat(RemoveAll(cid, 'A'))
  }

  function CidNumber(row: Row): Result<real, PyError> {
    match ParseCid(row.cid)
    case None => Failure(ValueError(RemoveAll(row.cid, 'A')))
    case Some(v) => Success(v)
  }

  /** `df["CID"].str.replace("A", "").astype(float)`: raises at the first label that is not a number. */
  function CidNumbers(rows: seq<Row>): Result<seq<real>, PyError> {
    MapResult(rows, CidNumber)
  }

  /**
   * The CID labels are the directory names of the structure generator: the
   * label of distance v reads back as v rounded to one decimal.
   */
  lemma ParseCidOfDirName(v: real)
    ensures ParseCid(StructureIncrements.DirName(v)) == Some(RoundFixed(v, StructureIncrements.NameDecimals))
  {
    var digits := FormatFixed(v, StructureIncrements.NameDecimals);
    FormatFixedChars(v, StructureIncrements.NameDecimals);
    assert !IsNumberChar('A');
    assert 'A' !in digits;
    RemoveAllAppend(digits, "A", 'A');
    RemoveAllAbsent(digits, 'A');
    RemoveAllOfA();
    assert RemoveAll(StructureIncrements.DirName(v), 'A') == digits;
    ParseFormatFixed(v, StructureIncrements.NameDecimals);
  }

  lemma RemoveAllOfA()
    ensures RemoveAll("A", 'A') == []
  {
    assert "A"[1..] == [];
  }

  /** Every `A` is deleted, not only a trailing unit: an `A` anywhere in the label is ignored. */
  lemma ParseCidDeletesEveryA(a: string, b: string)
    ensures ParseCid(a + "A" + b) == ParseCid(a + b)
  {
    RemoveAllAppend(a + "A", b, 'A');
    RemoveAllAppend(a, "A", 'A');
    RemoveAllAppend(a, b, 'A');
    RemoveAllOfA();
    assert RemoveAll(a, 'A') + [] == RemoveAll(a, 'A');
    assert RemoveAll(a + "A" + b, 'A') == RemoveAll(a + b, 'A');
  }

  // ---------------------------------------------------------------------------
  // The plot style of each method
  // ---------------------------------------------------------------------------

  /** The methods `plot_charges` knows how to draw. */
  const ChargeMethods: seq<string> := [
    "EEQ", "EEQ_DIELECTRIC", "EEQ_BC", "EEQ_BC_DIELECTRIC", "CEH-v2",
    "GFN1-xTB", "GFN1-xTB_CPCM", "GFN2-xTB", "GFN2-xTB_CPCM", "wB97M-V", "wB97M-V_CPCM"
  ]

  /** The if/elif chain of `plot_charges`: colour, marker and label of a method, or `ValueError` for any other name. */
  function ChargeStyle(name: string): (r: Result<Style, PyError>)
    ensures r.Success? <==> name in ChargeMethods
    ensures r.Failure? ==> r.error == ValueError("Unknown method: " + name)
  {
    if name in ["EEQ", "EEQ_DIELECTRIC"] then
      Success(Style("#fcba00", "p", if Contains(name, "_DIELECTRIC") then @"EEQ$_\mathrm{dielec}$" else name))
    else if name in ["EEQ_BC", "EEQ_BC_DIELECTRIC"] then
      Success(Style("#D773F0", "*", if Contains(name, "_DIELECTRIC") then @"EEQ$_\mathrm{BC,dielec}$" else @"EEQ$_\mathrm{BC}$"))
    else if name == "CEH-v2" then
      Success(Style("#07529a", "o", "CEH"))
    else if name in ["GFN1-xTB", "GFN1-xTB_CPCM"] then
      Success(Style("#7AC284", "s", if Contains(name, "_CPCM") then @"GFN1-xTB$_\mathrm{CPCM}$" else name))
    else if name in ["GFN2-xTB", "GFN2-xTB_CPCM"] then
      Success(Style("#C73C5F", "^", if Contains(name, "_CPCM") then @"GFN2-xTB$_\mathrm{CPCM}$" else name))
    else if name in ["wB97M-V", "wB97M-V_CPCM"] then
      Success(Style("#909085", "<", if Contains(name, "_CPCM") then @"ωB97M-V$_\mathrm{CPCM}$" else "ωB97M-V"))
    else
      Failure(ValueError("Unknown method: " + name))
  }

  /** Each gas-phase method of the chain shares its colour and marker with its `_DIELECTRIC` or `_CPCM` variant. */
  lemma ChargeStyleVariants()
    ensures SharesStyle(ChargeStyle("EEQ"), ChargeStyle("EEQ_DIELECTRIC"))
    ensures SharesStyle(ChargeStyle("EEQ_BC"), ChargeStyle("EEQ_BC_DIELECTRIC"))
    ensures SharesStyle(ChargeStyle("GFN1-xTB"), ChargeStyle("GFN1-xTB_CPCM"))
    ensures SharesStyle(ChargeStyle("GFN2-xTB"), ChargeStyle("GFN2-xTB_CPCM"))
    ensures SharesStyle(ChargeStyle("wB97M-V"), ChargeStyle("wB97M-V_CPCM"))
  {
    EeqStyles();
    EeqBcStyles();
    Gfn1Styles();
    Gfn2Styles();
    WB97MStyles();
  }

  /** The styles of `EEQ` and `EEQ_DIELECTRIC`. */
  lemma EeqStyles()
    ensures ChargeStyle("EEQ") == Success(Style("#fcba00", "p", "EEQ"))
    ensures ChargeStyle("EEQ_DIELECTRIC") == Success(Style("#fcba00", "p", @"EEQ$_\mathrm{dielec}$"))
  {
    assert ChargeStyle("EEQ") == Success(Style("#fcba00", "p", "EEQ")) by {
      MissingCharNotContains("EEQ", "_DIELECTRIC", '_');
    }
    assert ChargeStyle("EEQ_DIELECTRIC") == Success(Style("#fcba00", "p", @"EEQ$_\mathrm{dielec}$")) by {
      assert OccursAt("EEQ_DIELECTRIC", "_DIELECTRIC", 3);
    }
  }

  /** The styles of `EEQ_BC` and `EEQ_BC_DIELECTRIC`. */
  lemma EeqBcStyles()
    ensures ChargeStyle("EEQ_BC") == Success(Style("#D773F0", "*", @"EEQ$_\mathrm{BC}$"))
    ensures ChargeStyle("EEQ_BC_DIELECTRIC") == Success(Style("#D773F0", "*", @"EEQ$_\mathrm{BC,dielec}$"))
  {
    assert ChargeStyle("EEQ_BC") == Success(Style("#D773F0", "*", @"EEQ$_\mathrm{BC}$")) by {
      ContainsLength("EEQ_BC", "_DIELECTRIC");
    }
    assert ChargeStyle("EEQ_BC_DIELECTRIC") == Success(Style("#D773F0", "*", @"EEQ$_\mathrm{BC,dielec}$")) by {
      assert OccursAt("EEQ_BC_DIELECTRIC", "_DIELECTRIC", 6);
    }
  }

  /** The styles of `GFN1-xTB` and `GFN1-xTB_CPCM`. */
  lemma Gfn1Styles()
    ensures ChargeStyle("GFN1-xTB") == Success(Style("#7AC284", "s", "GFN1-xTB"))
    ensures ChargeStyle("GFN1-xTB_CPCM") == Success(Style("#7AC284", "s", @"GFN1-xTB$_\mathrm{CPCM}$"))
  {
    assert ChargeStyle("GFN1-xTB") == Success(Style("#7AC284", "s", "GFN1-xTB")) by {
      MissingCharNotContains("GFN1-xTB", "_CPCM", '_');
    }
    assert ChargeStyle("GFN1-xTB_CPCM") == Success(Style("#7AC284", "s", @"GFN1-xTB$_\mathrm{CPCM}$")) by {
      assert OccursAt("GFN1-xTB_CPCM", "_CPCM", 8);
    }
  }

  /** The styles of `GFN2-xTB` and `GFN2-xTB_CPCM`. */
  lemma Gfn2Styles()
    ensures ChargeStyle("GFN2-xTB") == Success(Style("#C73C5F", "^", "GFN2-xTB"))
    ensures ChargeStyle("GFN2-xTB_CPCM") == Success(Style("#C73C5F", "^", @"GFN2-xTB$_\mathrm{CPCM}$"))
  {
    assert ChargeStyle("GFN2-xTB") == Success(Style("#C73C5F", "^", "GFN2-xTB")) by {
      assert "GFN2-xTB"[3] != "GFN1-xTB"[3];
      MissingCharNotContains("GFN2-xTB", "_CPCM", '_');
    }
    assert ChargeStyle("GFN2-xTB_CPCM") == Success(Style("#C73C5F", "^", @"GFN2-xTB$_\mathrm{CPCM}$")) by {
      assert "GFN2-xTB_CPCM"[3] != "GFN1-xTB_CPCM"[3];
      assert OccursAt("GFN2-xTB_CPCM", "_CPCM", 8);
    }
  }

  /** The styles of `wB97M-V` and `wB97M-V_CPCM`. */
  lemma WB97MStyles()
    ensures ChargeStyle("wB97M-V") == Success(Style("#909085", "<", "ωB97M-V"))
    ensures ChargeStyle("wB97M-V_CPCM") == Success(Style("#909085", "<", @"ωB97M-V$_\mathrm{CPCM}$"))
  {
    assert ChargeStyle("wB97M-V") == Success(Style("#909085", "<", "ωB97M-V")) by {
      MissingCharNotContains("wB97M-V", "_CPCM", '_');
    }
    assert ChargeStyle("wB97M-V_CPCM") == Success(Style("#909085", "<", @"ωB97M-V$_\mathrm{CPCM}$")) by {
      assert OccursAt("wB97M-V_CPCM", "_CPCM", 7);
    }
  }

  /** The loop of `plot_charges` looks up the style of each method in turn and raises at the first unknown one. */
  function ChargeStyles(methods: seq<string>): Result<seq<Style>, PyError> {
    MapResult(methods, ChargeStyle)
  }

  lemma ChargeStylesMeaning(methods: seq<string>)
    ensures ChargeStyles(methods).Success? <==> forall k :: 0 <= k < |methods| ==> methods[k] in ChargeMethods
    ensures ChargeStyles(methods).Failure? ==>
              exists k :: 0 <= k < |methods| && methods[k] !in ChargeMethods
                          && ChargeStyles(methods).error == ValueError("Unknown method: " + methods[k])
                          && forall j :: 0 <= j < k ==> methods[j] in ChargeMethods
  {
    if ChargeStyles(methods).Failure? {
      var k :| 0 <= k < |methods| && ChargeStyle(methods[k]) == Failure(ChargeStyles(methods).error)
               && forall j :: 0 <= j < k ==> ChargeStyle(methods[j]).Success?;
    }
  }

  // ---------------------------------------------------------------------------
  // The whole of `main`
  // ---------------------------------------------------------------------------

  /** What is plotted: the distance of each row, the rows, and each method with its style. */
  datatype ChargePlot = ChargePlot(distances: seq<real>, rows: seq<Row>, methods: seq<string>, styles: seq<Style>)

  /**
   * `main` as a function of the `Method` column of the input and the pivoted
   * rows: the methods, the rows of atom type 8 collapsed per CID, the CID
   * labels as numbers, then the style of each method.
   */
  function ChargePipeline(methodColumn: seq<string>, pivoted: seq<Row>, gas: bool, solvation: bool): Result<ChargePlot, PyError> {
    var methods := SelectMethods(UniqueInOrder(methodColumn), gas, solvation);
    var rows := Accumulate(DesiredRows(pivoted), methods);
    match CidNumbers(rows)
    case Failure(e) => Failure(e)
    case Success(distances) =>
      match ChargeStyles(methods)
      case Failure(e) => Failure(e)
      case Success(styles) => Success(ChargePlot(distances, rows, methods, styles))
  }

  /**
   * The script draws a plot exactly when every CID label reads as a number
   * and every selected method has a style; it otherwise raises `ValueError`.
   * What it draws has one row per CID, all of atom type 8, each at the
   * distance its label names, and one style per selected method, no method
   * twice.
   */
  lemma ChargePipelineMeaning(methodColumn: seq<string>, pivoted: seq<Row>, gas: bool, solvation: bool)
    ensures var methods := SelectMethods(UniqueInOrder(methodColumn), gas, solvation);
            var rows := Accumulate(DesiredRows(pivoted), methods);
            var r := ChargePipeline(methodColumn, pivoted, gas, solvation);
            && (r.Success? <==>
                  (forall k :: 0 <= k < |rows| ==> ParseCid(rows[k].cid).Some?)
                  && forall k :: 0 <= k < |methods| ==> methods[k] in ChargeMethods)
            && (r.Failure? ==> r.error.ValueError?)
            && (r.Success? ==>
                  && Distinct(Cids(r.value.rows))
                  && Distinct(r.value.methods)
                  && (forall k :: 0 <= k < |r.value.rows| ==> r.value.rows[k].atomType == DesiredAtom)
                  && |r.value.distances| == |r.value.rows|
                  && (forall k :: 0 <= k < |r.value.rows| ==> ParseCid(r.value.rows[k].cid) == Some(r.value.distances[k]))
                  && |r.value.styles| == |r.value.methods|
                  && (forall k :: 0 <= k < |r.value.methods| ==> ChargeStyle(r.value.methods[k]) == Success(r.value.styles[k])))
  {
    var unique := UniqueInOrder(methodColumn);
    var methods := SelectMethods(unique, gas, solvation);
    SelectMethodsMeaning(unique, gas, solvation);
    AccumulatedRows(pivoted, methods);
    ChargeStylesMeaning(methods);
    CidNumbersMeaning(Accumulate(DesiredRows(pivoted), methods));
  }

  /** After the atom-type filter and the cumulative step, no CID repeats and every row has atom type 8. */
  lemma AccumulatedRows(pivoted: seq<Row>, methods: seq<string>)
    ensures var rows := Accumulate(DesiredRows(pivoted), methods);
            && Distinct(Cids(rows))
            && forall k :: 0 <= k < |rows| ==> rows[k].atomType == DesiredAtom
  {
    var desired := DesiredRows(pivoted);
    var rows := Accumulate(desired, methods);
    AccumulateKeepsRows(desired, methods);
    DesiredRowsMeaning(pivoted, []);
    forall k | 0 <= k < |rows| ensures rows[k].atomType == DesiredAtom {
      assert rows[k] in rows;
      var j :| 0 <= j < |desired| && rows[k].cid == desired[j].cid && rows[k].atomType == desired[j].atomType;
    }
  }

  /** The conversion succeeds exactly when every label reads as a number, and then gives each row its number. */
  lemma CidNumbersMeaning(rows: seq<Row>)
    ensures CidNumbers(rows).Success? <==> forall k :: 0 <= k < |rows| ==> ParseCid(rows[k].cid).Some?
    ensures CidNumbers(rows).Success? ==>
              |CidNumbers(rows).value| == |rows|
              && forall k :: 0 <= k < |rows| ==> ParseCid(rows[k].cid) == Some(CidNumbers(rows).value[k])
    ensures CidNumbers(rows).Failure? ==>
              exists k :: 0 <= k < |rows| && ParseCid(rows[k].cid).None?
                          && CidNumbers(rows).error == ValueError(RemoveAll(rows[k].cid, 'A'))
  {
    if CidNumbers(rows).Failure? {
      var k :| 0 <= k < |rows| && CidNumber(rows[k]) == Failure(CidNumbers(rows).error);
    }
  }

  /**
   * `main` step by step: the unique methods, the flag filters, the atom-type
   * filter, the cumulative step, the CID conversion and the style of each
   * name in `plot_charges`.
   */
  method ChargeMain(methodColumn: seq<string>, pivoted: seq<Row>, gas: bool, solvation: bool)
    returns (r: Result<ChargePlot, PyError>)
    ensures r == ChargePipeline(methodColumn, pivoted, gas, solvation)
    ensures r.Success? ==> Distinct(Cids(r.value.rows))
  {
    var methods := UniqueInOrder(methodColumn);
    if gas {
      methods := Filter(methods, IsGas);
    }
    if solvation {
      methods := Filter(methods, IsSolvation);
    }
    var df := DesiredRows(pivoted);
    df := CumulativeStep(df, methods);
    var distances := CidNumbers(df);
    if distances.Failure? {
      return Failure(distances.error);
    }
    var styles := ChargeStyles(methods);
    if styles.Failure? {
      return Failure(styles.error);
    }
    r := Success(ChargePlot(distances.value, df, methods, styles.value));
  }
}
