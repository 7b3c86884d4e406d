/**
 * The post-processing of `energies_nh4f.py`: the methods of the input, the
 * optional rebasing of every method's energies on the last row of a
 * reference method followed by the conversion from Hartree to kcal/mol, and
 * the plot style of each method.
 * The pivoted table is taken as given: one column of energies per method,
 * `None` standing for a NaN cell.
 */
module EnergyTable {
  import opened Results
  import opened Text
  import opened Tables

  /** `HARTREE_TO_KCAL`. */
  const HartreeToKcal: real := 627.50947428

  /** A cell of the pivoted table: an energy, or `None` for NaN. */
  type Cell = Option<real>

  /** `a - b` on cells: NaN when either side is NaN. */
  function Sub(a: Cell, b: Cell): Cell {
    if a.Some? && b.Some? then Some(a.value - b.value) else None
  }

  /** `a * HARTREE_TO_KCAL` on cells. */
  function ToKcal(a: Cell): Cell {
    if a.Some? then Some(a.value * HartreeToKcal) else None
  }

  /** `column -= offset`: the offset is subtracted from every cell. */
  function Shift(column: seq<Cell>, offset: Cell): (r: seq<Cell>)
    ensures |r| == |column|
  {
    seq(|column|, k requires 0 <= k < |column| => Sub(column[k], offset))
  }

  /** `column *= HARTREE_TO_KCAL`. */
  function Scale(column: seq<Cell>): (r: seq<Cell>)
    ensures |r| == |column|
  {
    seq(|column|, k requires 0 <= k < |column| => ToKcal(column[k]))
  }

  /** `.iloc[-1]`. */
  function Last(column: seq<Cell>): Cell
    requires column != []
  {
    column[|column| - 1]
  }

  /** What a cell becomes once it is subtracted from itself: 0, or NaN when it was NaN. */
  function Zeroed(c: Cell): Cell {
    if c.Some? then Some(0.0) else None
  }

  /** Shifting by 0 changes nothing. */
  lemma ShiftByZero(column: seq<Cell>)
    ensures Shift(column, Some(0.0)) == column
  {
    forall k | 0 <= k < |column| ensures Shift(column, Some(0.0))[k] == column[k] {
      assert Sub(column[k], Some(0.0)) == column[k];
    }
  }

  // ---------------------------------------------------------------------------
  // The shift and scale loop
  // ---------------------------------------------------------------------------

  /** The columns after (part of) the loop, and whether it raised. */
  datatype Rebased = Rebased(outcome: Outcome<PyError>, columns: map<string, seq<Cell>>)

  /**
   * One iteration for method `m`: `df[m]` is read (`KeyError` when it is not
   * a column), then `df[reference].iloc[-1]` (`KeyError`, or `IndexError` on
   * an empty table), then the column is shifted and scaled.
   */
  function RebaseStep(columns: map<string, seq<Cell>>, m: string, reference: string): Rebased {
    if m !in columns then Rebased(Fail(KeyError(m)), columns)
    else if reference !in columns then Rebased(Fail(KeyError(reference)), columns)
    else if columns[reference] == [] then Rebased(Fail(IndexError), columns)
    else Rebased(Pass, columns[m := Scale(Shift(columns[m], Last(columns[reference])))])
  }

  /** The loop `for method in methods` run over `ms`, stopping at the first exception. */
  function Rebase(columns: map<string, seq<Cell>>, ms: seq<string>, reference: string): Rebased
    decreases |ms|
  {
    if ms == [] then Rebased(Pass, columns)
    else
      var previous := Rebase(columns, ms[..|ms| - 1], reference);
      if previous.outcome.Fail? then previous else RebaseStep(previous.columns, ms[|ms| - 1], reference)
  }

  lemma {:induction false} RebaseFailurePropagates(columns: map<string, seq<Cell>>, ms: seq<string>, i: nat, reference: string)
    requires i <= |ms|
    requires Rebase(columns, ms[..i], reference).outcome.Fail?
    ensures Rebase(columns, ms, reference) == Rebase(columns, ms[..i], reference)
    decreases |ms| - i
  {
    if i < |ms| {
      assert ms[..i + 1][..i] == ms[..i];
      RebaseFailurePropagates(columns, ms, i + 1, reference);
    } else {
      assert ms[..i] == ms;
    }
  }

  /** The loop keeps the set of columns and the length of every column. */
  lemma {:induction false} RebaseShape(columns: map<string, seq<Cell>>, ms: seq<string>, reference: string)
    ensures Rebase(columns, ms, reference).columns.Keys == columns.Keys
    ensures forall c :: c in columns ==> |Rebase(columns, ms, reference).columns[c]| == |columns[c]|
    decreases |ms|
  {
    if ms != [] {
      RebaseShape(columns, ms[..|ms| - 1], reference);
    }
  }

  /**
   * The loop runs to the end exactly when there is nothing to do or every
   * method and the reference are columns and the table has a row. When the
   * first method is a column, a missing reference raises `KeyError` naming
   * it and an empty table raises `IndexError`.
   */
  lemma {:induction false} RebaseOutcome(columns: map<string, seq<Cell>>, ms: seq<string>, reference: string)
    ensures Rebase(columns, ms, reference).outcome.Pass? <==>
              ms == [] || ((forall k :: 0 <= k < |ms| ==> ms[k] in columns) && reference in columns && columns[reference] != [])
    ensures ms != [] && ms[0] in columns && reference !in columns ==>
              Rebase(columns, ms, reference).outcome == Fail(KeyError(reference))
    ensures ms != [] && ms[0] in columns && reference in columns && columns[reference] == [] ==>
              Rebase(columns, ms, reference).outcome == Fail(IndexError)
    decreases |ms|
  {
    if ms != [] {
      var n := |ms| - 1;
      var prefix := ms[..n];
      RebaseOutcome(columns, prefix, reference);
      RebaseShape(columns, prefix, reference);
      if prefix != [] {
        assert prefix[0] == ms[0];
        if ms[0] in columns && (reference !in columns || columns[reference] == []) {
          RebaseFailurePropagates(columns, ms, n, reference);
        }
      }
    }
  }

  /** The loop raises only `KeyError` and `IndexError`. */
  lemma {:induction false} RebaseErrors(columns: map<string, seq<Cell>>, ms: seq<string>, reference: string)
    ensures Rebase(columns, ms, reference).outcome.Fail? ==>
              Rebase(columns, ms, reference).outcome.error.KeyError? || Rebase(columns, ms, reference).outcome.error == IndexError
    decreases |ms|
  {
    if ms != [] {
      RebaseErrors(columns, ms[..|ms| - 1], reference);
    }
  }

  lemma PrefixOfPrefix<T>(s: seq<T>, n: nat, k: nat)
    requires k < n <= |s|
    ensures s[..n][..k] == s[..k] && s[..n][k] == s[k]
  {
  }

  /** Columns that are not among the methods are never touched, whether the loop raises or not. */
  lemma {:induction false} RebaseKeepsOthers(columns: map<string, seq<Cell>>, ms: seq<string>, reference: string)
    ensures forall c :: c in columns && c !in ms ==>
              c in Rebase(columns, ms, reference).columns && Rebase(columns, ms, reference).columns[c] == columns[c]
    decreases |ms|
  {
    if ms != [] {
      var prefix := ms[..|ms| - 1];
      RebaseKeepsOthers(columns, prefix, reference);
      assert forall c :: c !in ms ==> c !in prefix && c != ms[|ms| - 1];
    }
  }

  /**
   * A loop over distinct methods that are all columns runs to the end when the
   * table has a row, and the reference's last cell is `L - L` once the
   * reference has been processed, `L` before.
   */
  lemma {:induction false} RebaseReferenceLast(columns: map<string, seq<Cell>>, ms: seq<string>, reference: string)
    requires Distinct(ms)
    requires forall k :: 0 <= k < |ms| ==> ms[k] in columns
    requires reference in columns && columns[reference] != []
    ensures var r := Rebase(columns, ms, reference);
            && r.outcome.Pass?
            && r.columns.Keys == columns.Keys
            && r.columns[reference] != []
            && Last(r.columns[reference]) == (if reference in ms then Zeroed(Last(columns[reference])) else Last(columns[reference]))
    decreases |ms|
  {
    RebaseShape(columns, ms, reference);
    if ms != [] {
      var n := |ms| - 1;
      var prefix, m := ms[..n], ms[n];
      assert Distinct(prefix);
      RebaseReferenceLast(columns, prefix, reference);
      assert reference in ms <==> reference in prefix || m == reference;
      if m == reference {
        assert reference !in prefix;
        RebaseKeepsOthers(columns, prefix, reference);
        LastShiftedBySelf(columns[reference]);
      }
    }
  }

  /**
   * The k-th method's column after a loop over distinct methods: shifted once,
   * by `L` when the reference comes at or after it and by `L - L` otherwise,
   * and scaled once.
   */
  lemma {:induction false} RebaseMethodValue(columns: map<string, seq<Cell>>, ms: seq<string>, reference: string, k: nat)
    requires Distinct(ms)
    requires forall j :: 0 <= j < |ms| ==> ms[j] in columns
    requires reference in columns && columns[reference] != []
    requires k < |ms|
    ensures var L := Last(columns[reference]);
            && ms[k] in Rebase(columns, ms, reference).columns
            && Rebase(columns, ms, reference).columns[ms[k]]
               == Scale(Shift(columns[ms[k]], if reference in ms[..k] then Zeroed(L) else L))
    decreases |ms|
  {
    var n := |ms| - 1;
    var prefix, m := ms[..n], ms[n];
    assert Distinct(prefix);
    RebaseReferenceLast(columns, prefix, reference);
    RebaseShape(columns, ms, reference);
    if k == n {
      assert m !in prefix;
      RebaseKeepsOthers(columns, prefix, reference);
      assert ms[..k] == prefix;
    } else {
      PrefixOfPrefix(ms, n, k);
      RebaseMethodValue(columns, prefix, reference, k);
      assert ms[k] != m;
    }
  }

  /**
   * The meaning of the loop when it runs to the end with distinct methods.
   * Columns that are not methods keep their values, and every method's
   * column is shifted once and scaled once. The offset is re-read on every
   * iteration: methods up to and including the reference are shifted by its
   * original last value `L`, later ones by what the reference's last cell
   * has become, which is `L - L`. That last cell stays `L - L` scaled.
   */
  lemma RebaseValues(columns: map<string, seq<Cell>>, ms: seq<string>, reference: string)
    requires Distinct(ms)
    requires forall k :: 0 <= k < |ms| ==> ms[k] in columns
    requires reference in columns && columns[reference] != []
    ensures var r := Rebase(columns, ms, reference);
            var L := Last(columns[reference]);
            && r.outcome.Pass?
            && r.columns.Keys == columns.Keys
            && (forall c :: c in columns && c !in ms ==> r.columns[c] == columns[c])
            && (forall k :: 0 <= k < |ms| ==>
                  r.columns[ms[k]] == Scale(Shift(columns[ms[k]], if reference in ms[..k] then Zeroed(L) else L)))
            && r.columns[reference] != []
            && Last(r.columns[reference]) == (if reference in ms then Zeroed(L) else L)
  {
    RebaseReferenceLast(columns, ms, reference);
    RebaseKeepsOthers(columns, ms, reference);
    forall k | 0 <= k < |ms|
      ensures Rebase(columns, ms, reference).columns[ms[k]]
              == Scale(Shift(columns[ms[k]], if reference in ms[..k] then Zeroed(Last(columns[reference])) else Last(columns[reference])))
    {
      RebaseMethodValue(columns, ms, reference, k);
    }
  }

  /** A column shifted by its own last cell and scaled ends in `L - L`. */
  lemma LastShiftedBySelf(column: seq<Cell>)
    requires column != []
    ensures var r := Scale(Shift(column, Last(column)));
            r != [] && Last(r) == Zeroed(Last(column))
  {
  }

  /**
   * With the reference among the methods and a number in its last row, the
   * methods up to the reference are rebased on that number and scaled, the
   * later methods are only scaled, and the reference ends in 0.
   */
  lemma RebaseAroundReference(columns: map<string, seq<Cell>>, ms: seq<string>, reference: string, i: nat)
    requires Distinct(ms)
    requires forall k :: 0 <= k < |ms| ==> ms[k] in columns
    requires i < |ms| && ms[i] == reference && columns[reference] != []
    requires Last(columns[reference]).Some?
    ensures var r := Rebase(columns, ms, reference);
            && r.outcome.Pass?
            && r.columns.Keys == columns.Keys
            && (forall k :: 0 <= k <= i ==> r.columns[ms[k]] == Scale(Shift(columns[ms[k]], Last(columns[reference]))))
            && (forall k :: i < k < |ms| ==> r.columns[ms[k]] == Scale(columns[ms[k]]))
            && Last(r.columns[reference]) == Some(0.0)
  {
    RebaseValues(columns, ms, reference);
    var r := Rebase(columns, ms, reference);
    forall k | 0 <= k <= i ensures r.columns[ms[k]] == Scale(Shift(columns[ms[k]], Last(columns[reference]))) {
      assert reference !in ms[..k];
    }
    forall k | i < k < |ms| ensures r.columns[ms[k]] == Scale(columns[ms[k]]) {
      assert ms[..k][i] == reference;
      ShiftByZero(columns[ms[k]]);
    }
    assert ms[i] in ms;
  }

  /** A reference that is a column but not a method stays as it is, and every method is rebased on its last row. */
  lemma RebaseOnOtherColumn(columns: map<string, seq<Cell>>, ms: seq<string>, reference: string)
    requires Distinct(ms)
    requires forall k :: 0 <= k < |ms| ==> ms[k] in columns
    requires reference in columns && columns[reference] != [] && reference !in ms
    ensures var r := Rebase(columns, ms, reference);
            && r.outcome.Pass?
            && r.columns.Keys == columns.Keys
            && r.columns[reference] == columns[reference]
            && (forall k :: 0 <= k < |ms| ==> r.columns[ms[k]] == Scale(Shift(columns[ms[k]], Last(columns[reference]))))
  {
    RebaseValues(columns, ms, reference);
    forall k | 0 <= k < |ms| ensures reference !in ms[..k] {
    }
  }

  /** The pivoted table, whose method columns the loop updates in place. */
  class EnergyFrame {
    var columns: map<string, seq<Cell>>

    constructor(columns: map<string, seq<Cell>>)
      ensures this.columns == columns
    {
      this.columns := columns;
    }

    /**
     * `if args.set_to_zero:` body: for each method in turn,
     * `df[method] -= df[reference].iloc[-1]` then `df[method] *= HARTREE_TO_KCAL`.
     * The outcome and the new columns are those of `Rebase`.
     */
    method SetToZero(methods: seq<string>, reference: string) returns (outcome: Outcome<PyError>)
      modifies this
      ensures Rebased(outcome, columns) == Rebase(old(columns), methods, reference)
    {
      for i := 0 to |methods|
        invariant Rebase(old(columns), methods[..i], reference) == Rebased(Pass, columns)
      {
        assert methods[..i + 1][..i] == methods[..i];
        var m := methods[i];
        if m !in columns || reference !in columns || columns[reference] == [] {
          outcome := if m !in columns then Fail(KeyError(m))
                     else if reference !in columns then Fail(KeyError(reference))
                     else Fail(IndexError);
          RebaseFailurePropagates(old(columns), methods, i + 1, reference);
          return;
        }
        var offset := Last(columns[reference]);
        columns := columns[m := Shift(columns[m], offset)];
        columns := columns[m := Scale(columns[m])];
      }
      assert methods[..|methods|] == methods;
      outcome := Pass;
    }
  }

  // ---------------------------------------------------------------------------
  // The plot style of each method
  // ---------------------------------------------------------------------------

  /** The methods `plot_charges` of this script knows how to draw. */
  const EnergyMethods: seq<string> := [
    "GFN1-xTB", "GFN1-xTB_CPCM", "GFN2-xTB", "GFN2-xTB_CPCM",
    "wB97M-V", "wB97M-V_CPCM", "wB97M-V_dSCF", "wB97M-V_dSCF_CPCM"
  ]

  /** The if/elif chain of `plot_charges`: colour, marker and label of a method, or `ValueError` for any other name. */
  function EnergyStyle(name: string): (r: Result<Style, PyError>)
    ensures r.Success? <==> name in EnergyMethods
    ensures r.Failure? ==> r.error == ValueError("Unknown method: " + name)
  {
    if name in ["GFN1-xTB", "GFN1-xTB_CPCM"] then
      Success(Style("#7AC284", "s", if Contains(name, "_CPCM") then @"GFN1-xTB$_\mathrm{CPCM}$" else name))
    else if name in ["GFN2-xTB", "GFN2-xTB_CPCM"] then
      Success(Style("#C73C5F", "^", if Contains(name, "_CPCM") then @"GFN2-xTB$_\mathrm{CPCM}$" else name))
    else if name in ["wB97M-V", "wB97M-V_CPCM"] then
      Success(Style("#909085", "<", if Contains(name, "_CPCM") then @"ωB97M-V$_\mathrm{CPCM}$" else @"ωB97M-V$_\mathrm{RKS}$"))
    else if name in ["wB97M-V_dSCF", "wB97M-V_dSCF_CPCM"] then
      Success(Style("#06768d", ">", if Contains(name, "_CPCM") then @"ωB97M-V$_\mathrm{dSCF,CPCM}$" else @"ωB97M-V$_\mathrm{UKS\ singlet}$"))
    else
      Failure(ValueError("Unknown method: " + name))
  }

  /** Each method of the chain shares its colour and marker with its `_CPCM` variant. */
  lemma EnergyStyleVariants()
    ensures SharesStyle(EnergyStyle("GFN1-xTB"), EnergyStyle("GFN1-xTB_CPCM"))
    ensures SharesStyle(EnergyStyle("GFN2-xTB"), EnergyStyle("GFN2-xTB_CPCM"))
    ensures SharesStyle(EnergyStyle("wB97M-V"), EnergyStyle("wB97M-V_CPCM"))
    ensures SharesStyle(EnergyStyle("wB97M-V_dSCF"), EnergyStyle("wB97M-V_dSCF_CPCM"))
  {
    Gfn1Styles();
    Gfn2Styles();
    WB97MStyles();
    DscfStyles();
  }

  /** The styles of `GFN1-xTB` and `GFN1-xTB_CPCM`. */
  lemma Gfn1Styles()
    ensures EnergyStyle("GFN1-xTB") == Success(Style("#7AC284", "s", "GFN1-xTB"))
    ensures EnergyStyle("GFN1-xTB_CPCM") == Success(Style("#7AC284", "s", @"GFN1-xTB$_\mathrm{CPCM}$"))
  {
    assert EnergyStyle("GFN1-xTB") == Success(Style("#7AC284", "s", "GFN1-xTB")) by {
      MissingCharNotContains("GFN1-xTB", "_CPCM", '_');
    }
    assert EnergyStyle("GFN1-xTB_CPCM") == Success(Style("#7AC284", "s", @"GFN1-xTB$_\mathrm{CPCM}$")) by {
      assert OccursAt("GFN1-xTB_CPCM", "_CPCM", 8);
    }
  }

  /** The styles of `GFN2-xTB` and `GFN2-xTB_CPCM`. */
  lemma Gfn2Styles()
    ensures EnergyStyle("GFN2-xTB") == Success(Style("#C73C5F", "^", "GFN2-xTB"))
    ensures EnergyStyle("GFN2-xTB_CPCM") == Success(Style("#C73C5F", "^", @"GFN2-xTB$_\mathrm{CPCM}$"))
  {
    assert EnergyStyle("GFN2-xTB") == Success(Style("#C73C5F", "^", "GFN2-xTB")) by {
      assert "GFN2-xTB"[3] != "GFN1-xTB"[3];
      MissingCharNotContains("GFN2-xTB", "_CPCM", '_');
    }
    assert EnergyStyle("GFN2-xTB_CPCM") == Success(Style("#C73C5F", "^", @"GFN2-xTB$_\mathrm{CPCM}$")) by {
      assert "GFN2-xTB_CPCM"[3] != "GFN1-xTB_CPCM"[3];
      assert OccursAt("GFN2-xTB_CPCM", "_CPCM", 8);
    }
  }

  /** The styles of `wB97M-V` and `wB97M-V_CPCM`. */
  lemma WB97MStyles()
    ensures EnergyStyle("wB97M-V") == Success(Style("#909085", "<", @"ωB97M-V$_\mathrm{RKS}$"))
    ensures EnergyStyle("wB97M-V_CPCM") == Success(Style("#909085", "<", @"ωB97M-V$_\mathrm{CPCM}$"))
  {
    assert EnergyStyle("wB97M-V") == Success(Style("#909085", "<", @"ωB97M-V$_\mathrm{RKS}$")) by {
      MissingCharNotContains("wB97M-V", "_CPCM", '_');
    }
    assert EnergyStyle("wB97M-V_CPCM") == Success(Style("#909085", "<", @"ωB97M-V$_\mathrm{CPCM}$")) by {
      assert OccursAt("wB97M-V_CPCM", "_CPCM", 7);
    }
  }

  /** The styles of `wB97M-V_dSCF` and `wB97M-V_dSCF_CPCM`. */
  lemma DscfStyles()
    ensures EnergyStyle("wB97M-V_dSCF") == Success(Style("#06768d", ">", @"ωB97M-V$_\mathrm{UKS\ singlet}$"))
    ensures EnergyStyle("wB97M-V_dSCF_CPCM") == Success(Style("#06768d", ">", @"ωB97M-V$_\mathrm{dSCF,CPCM}$"))
  {
    assert EnergyStyle("wB97M-V_dSCF") == Success(Style("#06768d", ">", @"ωB97M-V$_\mathrm{UKS\ singlet}$")) by {
      MissingCharNotContains("wB97M-V_dSCF", "_CPCM", 'P');
    }
    assert EnergyStyle("wB97M-V_dSCF_CPCM") == Success(Style("#06768d", ">", @"ωB97M-V$_\mathrm{dSCF,CPCM}$")) by {
      assert OccursAt("wB97M-V_dSCF_CPCM", "_CPCM", 12);
    }
  }

  /** The loop of `plot_charges`: the style of each method in turn, raising at the first unknown one. */
  function EnergyStyles(methods: seq<string>): Result<seq<Style>, PyError> {
    MapResult(methods, EnergyStyle)
  }
  /** The plot loop finds a style for every method exactly when all are known, and otherwise raises for the first unknown one. */
  lemma EnergyStylesMeaning(methods: seq<string>)
    ensures EnergyStyles(methods).Success? <==> forall k :: 0 <= k < |methods| ==> methods[k] in EnergyMethods
    ensures EnergyStyles(methods).Failure? ==>
              exists k :: 0 <= k < |methods| && methods[k] !in EnergyMethods
                          && EnergyStyles(methods).error == ValueError("Unknown method: " + methods[k])
                          && forall j :: 0 <= j < k ==> methods[j] in EnergyMethods
  {
    if EnergyStyles(methods).Failure? {
      var k :| 0 <= k < |methods| && EnergyStyle(methods[k]) == Failure(EnergyStyles(methods).error)
               && forall j :: 0 <= j < k ==> EnergyStyle(methods[j]).Success?;
    }
  }


  // ---------------------------------------------------------------------------
  // The whole of `main`
  // ---------------------------------------------------------------------------

  /** What is plotted: the methods, whether the energies are in kcal/mol, and each method's style. */
  datatype EnergyPlot = EnergyPlot(methods: seq<string>, kcal: bool, styles: seq<Style>)

  /** `if args.set_to_zero:` on an optional string: `None` and the empty string are false. */
  predicate Truthy(setToZero: Option<string>) {
    setToZero.Some? && setToZero.value != ""
  }

  /**
   * `main` as a function of the `Method` column, the pivoted columns and the
   * `--set-to-zero` argument: the result and the columns afterwards.
   */
  function EnergyPipeline(methodColumn: seq<string>, columns: map<string, seq<Cell>>, setToZero: Option<string>)
    : (Result<EnergyPlot, PyError>, map<string, seq<Cell>>)
  {
    var methods := UniqueInOrder(methodColumn);
    var rebased := if Truthy(setToZero) then Rebase(columns, methods, setToZero.value) else Rebased(Pass, columns);
    if rebased.outcome.Fail? then (Failure(rebased.outcome.error), rebased.columns)
    else
      match EnergyStyles(methods)
      case Failure(e) => (Failure(e), rebased.columns)
      case Success(styles) => (Success(EnergyPlot(methods, Truthy(setToZero), styles)), rebased.columns)
  }

  /**
   * Without `--set-to-zero` the energies are untouched and not in kcal/mol;
   * with it, the columns are those the loop leaves and, once the loop has
   * run, the energies are in kcal/mol. A plot is drawn exactly when the loop
   * (if any) runs to the end and every method has a style; otherwise the
   * script raises `KeyError`, `IndexError` or `ValueError`.
   */
  lemma EnergyPipelineMeaning(methodColumn: seq<string>, columns: map<string, seq<Cell>>, setToZero: Option<string>)
    ensures var (r, after) := EnergyPipeline(methodColumn, columns, setToZero);
            && (!Truthy(setToZero) ==> after == columns)
            && (r.Success? ==> r.value.kcal == Truthy(setToZero))
            && (Truthy(setToZero) ==> after == Rebase(columns, UniqueInOrder(methodColumn), setToZero.value).columns)
            && (r.Success? <==>
                  (!Truthy(setToZero) || Rebase(columns, UniqueInOrder(methodColumn), setToZero.value).outcome.Pass?)
                  && forall m :: m in methodColumn ==> m in EnergyMethods)
            && (r.Failure? ==> r.error.KeyError? || r.error.IndexError? || r.error.ValueError?)
  {
    EnergyStylesOfUnique(methodColumn);
    if Truthy(setToZero) {
      RebaseErrors(columns, UniqueInOrder(methodColumn), setToZero.value);
    }
  }

  /** Every distinct method has a style exactly when every row's method is a known one. */
  lemma EnergyStylesOfUnique(methodColumn: seq<string>)
    ensures var styles := EnergyStyles(UniqueInOrder(methodColumn));
            && (styles.Success? <==> forall m :: m in methodColumn ==> m in EnergyMethods)
            && (styles.Failure? ==> styles.error.ValueError?)
  {
    var methods := UniqueInOrder(methodColumn);
    EnergyStylesMeaning(methods);
    assert forall m :: m in methodColumn <==> m in methods;
  }

  /**
   * The plotted methods are each distinct `Method` value once, in order of
   * first appearance, each drawn in its own style.
   */
  lemma EnergyPlotMethods(methodColumn: seq<string>, columns: map<string, seq<Cell>>, setToZero: Option<string>)
    ensures var r := EnergyPipeline(methodColumn, columns, setToZero).0;
            r.Success? ==>
              && Distinct(r.value.methods)
              && (forall m :: m in r.value.methods <==> m in methodColumn)
              && (forall i, j :: 0 <= i < j < |r.value.methods| ==>
                    FirstIndex(methodColumn, r.value.methods[i]) < FirstIndex(methodColumn, r.value.methods[j]))
              && |r.value.styles| == |r.value.methods|
              && (forall k :: 0 <= k < |r.value.methods| ==> EnergyStyle(r.value.methods[k]) == Success(r.value.styles[k]))
  {
    UniqueInOrderOrder(methodColumn);
  }

  /**
   * `main` step by step on the frame: the unique methods, the optional
   * shift and scale loop, then the style of each method in `plot_charges`.
   */
  method EnergyMain(methodColumn: seq<string>, frame: EnergyFrame, setToZero: Option<string>)
    returns (r: Result<EnergyPlot, PyError>)
    modifies frame
    ensures (r, frame.columns) == EnergyPipeline(methodColumn, old(frame.columns), setToZero)
  {
    var methods := UniqueInOrder(methodColumn);
    var kcal := false;
    if Truthy(setToZero) {
      var outcome := frame.SetToZero(methods, setToZero.value);
      if outcome.Fail? {
        return Failure(outcome.error);
      }
      kcal := true;
    }
    var styles := EnergyStyles(methods);
    if styles.Failure? {
      return Failure(styles.error);
    }
    r := Success(EnergyPlot(methods, kcal, styles.value));
  }
}
