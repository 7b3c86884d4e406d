/**
 * The structure increment generator of scripts/methane_o2_structure_increments.py:
 * it reads an XYZ geometry, and for every value of a linear sweep moves the
 * marked oxygen atoms to that y coordinate, writes the geometry into a directory
 * named after the value, copies it to `struc.xyz`, and finally lists the
 * directories in `.list.dirs`.
 *
 * The file system is a class holding a map from path to file text and the set of
 * existing directories; a path is the list of its components, relative to the
 * working directory (the empty path).
 */
module StructureIncrements {
  import opened Results
  import opened Text
  import opened Numbers

  type Path = seq<string>

  /** Atoms with this symbol and y == SentinelY are the ones the sweep moves. */
  const TargetSymbol: string := "O"
  const SentinelY: real := 2.0
  /** Decimals of the written y token and of the reformatted coordinates. */
  const SweepDecimals: nat := 6
  const CoordinateDecimals: nat := 8
  /** Decimals of the sweep value in directory names. */
  const NameDecimals: nat := 1
  /** The fixed name of the copy written next to every geometry. */
  const CopyName: string := "struc.xyz"
  /** The manifest listing the directories, written under the output directory. */
  const ManifestName: string := ".list.dirs"

  // ---------------------------------------------------------------------------
  // One atom line
  // ---------------------------------------------------------------------------

  /** One right-aligned coordinate column: a separating space and the number padded to 14. */
  function Column(number: string): string {
    " " + PadLeft(number, 14)
  }

  /** `f"{symbol:<2} {x:>14.8f} {y:>14.8f} {z:>14.8f}"`. */
  function AtomLine(symbol: string, x: real, y: real, z: real): string {
    PadRight(symbol, 2) + Column(FormatFixed(x, CoordinateDecimals))
    + Column(FormatFixed(y, CoordinateDecimals)) + Column(FormatFixed(z, CoordinateDecimals))
  }

  /**
   * The selection test and the replacement of the y token: `parts[0] == "O" and
   * float(parts[2]) == 2.0`, short-circuiting, then `parts[2] = f"{current_y:.6f}"`.
   */
  function SelectY(parts: seq<string>, currentY: real): Result<seq<string>, PyError>
    requires |parts| >= 1
  {
    if parts[0] != TargetSymbol then Success(parts)
    else if |parts| < 3 then Failure(IndexError)
    else
      match ParseFloat(parts[2])
      case None => Failure(ValueError(parts[2]))
      case Some(y) => Success(if y == SentinelY then parts[2 := FormatFixed(currentY, SweepDecimals)] else parts)
  }

  /** The f-string of the reformatting, evaluated left to right: `parts[1]`, `parts[2]`, `parts[3]`. */
  function Reformat(parts: seq<string>): Result<string, PyError>
    requires |parts| >= 1
  {
    if |parts| < 2 then Failure(IndexError)
    else
      match ParseFloat(parts[1])
      case None => Failure(ValueError(parts[1]))
      case Some(x) =>
        if |parts| < 3 then Failure(IndexError)
        else
          match ParseFloat(parts[2])
          case None => Failure(ValueError(parts[2]))
          case Some(y) =>
            if |parts| < 4 then Failure(IndexError)
            else
              match ParseFloat(parts[3])
              case None => Failure(ValueError(parts[3]))
              case Some(z) => Success(AtomLine(parts[0], x, y, z))
  }

  /** One pass of the inner loop body on one atom line; `parts[0]` of an empty line raises. */
  function FormatAtom(atom: string, currentY: real): Result<string, PyError> {
    var parts := Split(atom);
    if parts == [] then Failure(IndexError)
    else
      match SelectY(parts, currentY)
      case Failure(e) => Failure(e)
      case Success(ps) => Reformat(ps)
  }

  /** An atom line the generator accepts: a symbol and three numbers, extra tokens allowed. */
  predicate WellFormedAtom(atom: string) {
    var parts := Split(atom);
    && |parts| >= 4
    && ParseFloat(parts[1]).Some?
    && ParseFloat(parts[2]).Some?
    && ParseFloat(parts[3]).Some?
  }

  /** Whether the sweep moves this atom: symbol `O` and y exactly 2.0. */
  predicate IsMoved(atom: string)
    requires WellFormedAtom(atom)
  {
    var parts := Split(atom);
    parts[0] == TargetSymbol && ParseFloat(parts[2]).value == SentinelY
  }

  /** The atom's fields after the selection, unless the selection raises, which it does for any sweep value alike. */
  lemma SelectYCases(parts: seq<string>, currentY: real)
    requires |parts| >= 1
    ensures SelectY(parts, currentY).Success?
            <==> parts[0] != TargetSymbol || (|parts| >= 3 && ParseFloat(parts[2]).Some?)
    ensures SelectY(parts, currentY).Success? ==>
              SelectY(parts, currentY).value
                == if parts[0] == TargetSymbol && ParseFloat(parts[2]).value == SentinelY
                   then parts[2 := FormatFixed(currentY, SweepDecimals)] else parts
  {
  }

  /** Replacing a parsable y token by another parsable one changes only the y coordinate of the result. */
  lemma ReformatReplaced(parts: seq<string>, t: string)
    requires |parts| >= 3 && ParseFloat(parts[2]).Some? && ParseFloat(t).Some?
    ensures Reformat(parts).Failure? ==> Reformat(parts[2 := t]) == Reformat(parts)
    ensures Reformat(parts).Success? ==>
              Reformat(parts[2 := t])
                == Success(AtomLine(parts[0], ParseFloat(parts[1]).value, ParseFloat(t).value, ParseFloat(parts[3]).value))
  {
    var q := parts[2 := t];
    ReformatCases(parts);
    ReformatCases(q);
    assert |q| == |parts| && q[0] == parts[0] && q[1] == parts[1] && q[2] == t;
    assert |parts| >= 4 ==> q[3] == parts[3];
  }

  lemma ReformatCases(parts: seq<string>)
    requires |parts| >= 1
    ensures Reformat(parts).Success?
            <==> |parts| >= 4 && ParseFloat(parts[1]).Some? && ParseFloat(parts[2]).Some? && ParseFloat(parts[3]).Some?
    ensures Reformat(parts).Success? ==>
              Reformat(parts)
                == Success(AtomLine(parts[0], ParseFloat(parts[1]).value, ParseFloat(parts[2]).value, ParseFloat(parts[3]).value))
  {
    if |parts| >= 2 && ParseFloat(parts[1]).Some? && |parts| >= 3 && ParseFloat(parts[2]).Some? && |parts| >= 4 {
      var x, y := ParseFloat(parts[1]).value, ParseFloat(parts[2]).value;
      assert Reformat(parts) == match ParseFloat(parts[3]) case None => Failure(ValueError(parts[3])) case Some(z) => Success(AtomLine(parts[0], x, y, z));
    }
  }

  /** The y token the sweep writes reads back as the sweep value rounded to 6 decimals. */
  lemma SweepToken(currentY: real)
    ensures ParseFloat(FormatFixed(currentY, SweepDecimals)) == Some(RoundFixed(currentY, SweepDecimals))
  {
    ParseFormatFixed(currentY, SweepDecimals);
  }

  /**
   * An atom line is accepted exactly when it is well formed; then its y becomes
   * the sweep value rounded to 6 decimals when it is moved, and every other
   * coordinate keeps its parsed value.
   */
  lemma AtomSelection(atom: string, currentY: real)
    ensures FormatAtom(atom, currentY).Success? <==> WellFormedAtom(atom)
    ensures WellFormedAtom(atom) ==>
      var parts := Split(atom);
      var y := if IsMoved(atom) then RoundFixed(currentY, SweepDecimals) else ParseFloat(parts[2]).value;
      FormatAtom(atom, currentY)
        == Success(AtomLine(parts[0], ParseFloat(parts[1]).value, y, ParseFloat(parts[3]).value))
  {
    var parts := Split(atom);
    if parts != [] {
      SelectYCases(parts, currentY);
      ReformatCases(parts);
      var selected := SelectY(parts, currentY);
      if selected.Failure? {
        assert !WellFormedAtom(atom);
      } else if !(parts[0] == TargetSymbol && ParseFloat(parts[2]).value == SentinelY) {
        assert FormatAtom(atom, currentY) == Reformat(parts);
      } else {
        var token := FormatFixed(currentY, SweepDecimals);
        SweepToken(currentY);
        ReformatReplaced(parts, token);
        assert FormatAtom(atom, currentY) == Reformat(parts[2 := token]);
      }
    }
  }

  /** Whether an atom line aborts the run, and with which error, does not depend on the sweep value. */
  lemma AtomErrorIndependentOfSweep(atom: string, a: real, b: real)
    requires FormatAtom(atom, a).Failure?
    ensures FormatAtom(atom, b) == FormatAtom(atom, a)
  {
    var parts := Split(atom);
    if parts != [] {
      SelectYCases(parts, a);
      SelectYCases(parts, b);
      if SelectY(parts, a).Success? && parts[0] == TargetSymbol && ParseFloat(parts[2]).value == SentinelY {
        SweepToken(a);
        SweepToken(b);
        ReformatReplaced(parts, FormatFixed(a, SweepDecimals));
        ReformatReplaced(parts, FormatFixed(b, SweepDecimals));
      }
    }
  }

  lemma ColumnParts(number: string) returns (lead: string)
    ensures lead != [] && AllSpace(lead) && Column(number) == lead + number
  {
    var pad := PadLeftParts(number, 14);
    lead := " " + pad;
    assert Column(number) == " " + (pad + number);
    assert " " + (pad + number) == lead + number;
  }

  lemma AppendAssoc(a: string, b: string, c: string)
    ensures (a + b) + c == a + (b + c)
  {
  }

  lemma ColumnSplit(number: string, rest: string)
    requires number != [] && NoSpace(number)
    requires rest == [] || IsSpace(rest[0])
    ensures Split(Column(number) + rest) == [number] + Split(rest)
    ensures IsSpace((Column(number) + rest)[0])
  {
    var lead := ColumnParts(number);
    var tail := number + rest;
    AppendAssoc(lead, number, rest);
    assert Column(number) + rest == lead + tail;
    SplitSkipsSpaces(lead, tail);
    SplitToken(number, rest);
    assert (lead + tail)[0] == lead[0];
  }

  lemma Regroup(a: string, b: string, c: string, d: string, e: string)
    ensures (a + b) + c + d + e == a + (b + (c + (d + e)))
  {
  }

  lemma CoordinateColumnsSplit(fx: string, fy: string, fz: string)
    requires fx != [] && NoSpace(fx) && fy != [] && NoSpace(fy) && fz != [] && NoSpace(fz)
    ensures Split(Column(fx) + (Column(fy) + Column(fz))) == [fx, fy, fz]
    ensures IsSpace((Column(fx) + (Column(fy) + Column(fz)))[0])
  {
    var cz := Column(fz);
    ColumnSplit(fz, []);
    assert cz + [] == cz;
    assert Split(cz) == [fz];
    var cyz := Column(fy) + cz;
    ColumnSplit(fy, cz);
    assert Split(cyz) == [fy, fz];
    ColumnSplit(fx, cyz);
    PrependToTwo(fx, fy, fz);
  }

  lemma PrependToTwo(a: string, b: string, c: string)
    ensures [a] + [b, c] == [a, b, c]
  {
  }

  lemma PrependToThree(a: string, b: string, c: string, d: string)
    ensures [a] + [b, c, d] == [a, b, c, d]
  {
  }

  /** The columns of an atom line read back by `split()`: the symbol and the three numbers. */
  lemma ColumnsSplit(symbol: string, fx: string, fy: string, fz: string)
    requires symbol != [] && NoSpace(symbol)
    requires fx != [] && NoSpace(fx) && fy != [] && NoSpace(fy) && fz != [] && NoSpace(fz)
    ensures Split(PadRight(symbol, 2) + Column(fx) + Column(fy) + Column(fz)) == [symbol, fx, fy, fz]
  {
    var columns := Column(fx) + (Column(fy) + Column(fz));
    var pad := PadRightParts(symbol, 2);
    Regroup(symbol, pad, Column(fx), Column(fy), Column(fz));
    var tail := pad + columns;
    assert PadRight(symbol, 2) + Column(fx) + Column(fy) + Column(fz) == symbol + tail;
    CoordinateColumnsSplit(fx, fy, fz);
    SplitSkipsSpaces(pad, columns);
    assert IsSpace(tail[0]);
    SplitToken(symbol, tail);
    PrependToThree(symbol, fx, fy, fz);
  }

  /**
   * Every emitted atom line splits into exactly four fields: the symbol and the
   * three coordinates in 8-decimal fixed point; it is 47 characters wide when
   * the symbol fits in 2 columns and each number in 14.
   */
  lemma AtomLineFields(symbol: string, x: real, y: real, z: real)
    requires symbol != [] && NoSpace(symbol)
    ensures Split(AtomLine(symbol, x, y, z)) == [symbol, FormatFixed(x, CoordinateDecimals),
                                                 FormatFixed(y, CoordinateDecimals), FormatFixed(z, CoordinateDecimals)]
    ensures |symbol| <= 2 && |FormatFixed(x, CoordinateDecimals)| <= 14 && |FormatFixed(y, CoordinateDecimals)| <= 14
            && |FormatFixed(z, CoordinateDecimals)| <= 14
            ==> |AtomLine(symbol, x, y, z)| == 47
  {
    FormatFixedNoSpace(x, CoordinateDecimals);
    FormatFixedNoSpace(y, CoordinateDecimals);
    FormatFixedNoSpace(z, CoordinateDecimals);
    ColumnsSplit(symbol, FormatFixed(x, CoordinateDecimals), FormatFixed(y, CoordinateDecimals), FormatFixed(z, CoordinateDecimals));
  }

  // ---------------------------------------------------------------------------
  // The geometry text
  // ---------------------------------------------------------------------------

  /** `lines[:2]`. */
  function Header(lines: seq<string>): (header: seq<string>)
    ensures |header| == if |lines| < 2 then |lines| else 2
    ensures header == lines[..|header|]
  {
    if |lines| < 2 then lines else lines[..2]
  }

  /** `lines[2:]`. */
  function Atoms(lines: seq<string>): (atoms: seq<string>)
    ensures Header(lines) + atoms == lines
  {
    if |lines| < 2 then [] else lines[2..]
  }

  /**
   * The inner loop of one step: every atom line reformatted, in the same
   * positions, or the error of the first line that raises.
   */
  function FormatAtoms(atoms: seq<string>, currentY: real): (r: Result<seq<string>, PyError>)
    ensures r.Success? <==> forall k :: 0 <= k < |atoms| ==> WellFormedAtom(atoms[k])
    ensures r.Success? ==> |r.value| == |atoms|
    ensures r.Success? ==> forall k :: 0 <= k < |atoms| ==> FormatAtom(atoms[k], currentY) == Success(r.value[k])
    ensures r.Failure? ==> exists k :: 0 <= k < |atoms| && FormatAtom(atoms[k], currentY) == Failure(r.error)
                                       && forall j :: 0 <= j < k ==> WellFormedAtom(atoms[j])
  {
    var r := MapResult(atoms, AtomFormatter(currentY));
    assert forall k :: 0 <= k < |atoms| ==> (FormatAtom(atoms[k], currentY).Success? <==> WellFormedAtom(atoms[k])) by {
      forall k | 0 <= k < |atoms| ensures FormatAtom(atoms[k], currentY).Success? <==> WellFormedAtom(atoms[k]) {
        AtomSelection(atoms[k], currentY);
      }
    }
    r
  }

  /** `FormatAtom` at a fixed `current_y`, as the function mapped over the atom lines. */
  function AtomFormatter(currentY: real): string -> Result<string, PyError> {
    a => FormatAtom(a, currentY)
  }

  /** What the generator writes for one step: the header, the atom lines joined by newlines, a final newline. */
  function XyzText(header: seq<string>, atomLines: seq<string>): string {
    Concat(header) + Join(atomLines, "\n") + "\n"
  }

  predicate NoNewline(s: string) {
    '\n' !in s
  }

  /**
   * Read back, a generated geometry has the header lines unchanged followed by
   * exactly one line per atom line, in order; without atom lines, by one empty line.
   */
  lemma XyzTextLines(header: seq<string>, atomLines: seq<string>)
    requires forall k :: 0 <= k < |header| ==> IsLine(header[k]) && EndsWithNewline(header[k])
    requires forall k :: 0 <= k < |atomLines| ==> NoNewline(atomLines[k])
    ensures ReadLines(XyzText(header, atomLines))
         == header + if atomLines == [] then ["\n"] else WithSuffix(atomLines, "\n")
  {
    var tail := if atomLines == [] then ["\n"] else WithSuffix(atomLines, "\n");
    if atomLines == [] {
      assert Concat(tail) == "\n";
    } else {
      JoinThenSeparator(atomLines, "\n");
    }
    ConcatAppend(header, tail);
    assert XyzText(header, atomLines) == Concat(header + tail);
    var all := header + tail;
    forall k | 0 <= k < |all| ensures IsLine(all[k]) && EndsWithNewline(all[k]) {
      if k >= |header| && atomLines != [] {
        var l := atomLines[k - |header|];
        assert all[k] == l + "\n";
        assert forall j :: 0 <= j < |l| ==> all[k][j] == l[j];
      }
    }
    ReadLinesOfConcat(all);
  }

  /** The header written to every output file is the input text up to and including its second line. */
  lemma HeaderIsInputPrefix(text: string)
    ensures Concat(Header(ReadLines(text))) <= text
  {
    var lines := ReadLines(text);
    ConcatAppend(Header(lines), Atoms(lines));
  }

  // ---------------------------------------------------------------------------
  // The sweep
  // ---------------------------------------------------------------------------

  lemma MulMonotone(a: real, b: real, c: real)
    requires a <= b && c > 0.0
    ensures a * c <= b * c
  {
  }

  lemma MulStrict(a: real, b: real, c: real)
    requires a < b && c > 0.0
    ensures a * c < b * c
  {
  }

  /** The k-th value of the sweep: `start` advanced by `step` k times. */
  function SweepValue(start: real, step: real, k: nat): real {
    start + k as real * step
  }

  lemma SweepValueNext(start: real, step: real, k: nat)
    ensures SweepValue(start, step, k + 1) == SweepValue(start, step, k) + step
  {
  }

  /**
   * Whether `while current_y <= stop` stops by itself: the step moves towards
   * `stop`, or the test already fails for `start`.
   */
  predicate SweepEnds(start: real, stop: real, step: real) {
    step > 0.0 || start > stop
  }

  /** The number of loop iterations: the values start, start+step, ... that are <= stop. */
  function SweepCount(start: real, stop: real, step: real): nat
    requires SweepEnds(start, stop, step)
  {
    if start > stop then 0 else ((stop - start) / step).Floor + 1
  }

  /**
   * The sweep values in iteration order: start + k*step for every k whose
   * value is <= stop, and none beyond; there are none when start > stop.
   */
  function SweepValues(start: real, stop: real, step: real): (values: seq<real>)
    requires SweepEnds(start, stop, step)
    ensures forall k :: 0 <= k < |values| ==> values[k] == SweepValue(start, step, k) <= stop
    ensures SweepValue(start, step, |values|) > stop
  {
    var n := SweepCount(start, stop, step);
    SweepCountBounds(start, stop, step);
    seq(n, k requires 0 <= k < n => SweepValue(start, step, k))
  }

  /** The iteration count is the number of values start + k*step, k = 0, 1, ..., that are <= stop. */
  lemma SweepCountBounds(start: real, stop: real, step: real)
    requires SweepEnds(start, stop, step)
    ensures forall k: nat :: k < SweepCount(start, stop, step) ==> SweepValue(start, step, k) <= stop
    ensures SweepValue(start, step, SweepCount(start, stop, step)) > stop
  {
    if start <= stop {
      SweepCountBoundsRising(start, stop, step);
    } else {
      assert SweepCount(start, stop, step) == 0 && SweepValue(start, step, 0) == start;
    }
  }

  lemma SweepCountBoundsRising(start: real, stop: real, step: real)
    requires start <= stop && step > 0.0
    ensures forall k: nat :: k < SweepCount(start, stop, step) ==> SweepValue(start, step, k) <= stop
    ensures SweepValue(start, step, SweepCount(start, stop, step)) > stop
  {
    var n := SweepCount(start, stop, step);
    SweepCountSpan(start, stop, step);
    forall k: nat | k < n ensures SweepValue(start, step, k) <= stop {
      SweepValueWithin(start, stop, step, k, n - 1);
    }
  }

  lemma SweepValueWithin(start: real, stop: real, step: real, k: nat, m: int)
    requires k <= m && step > 0.0 && m as real * step <= stop - start
    ensures SweepValue(start, step, k) <= stop
  {
    MulMonotone(k as real, m as real, step);
  }

  /** With a positive step, the last value counted is within the span and the next one is past it. */
  lemma SweepCountSpan(start: real, stop: real, step: real)
    requires start <= stop && step > 0.0
    ensures SweepCount(start, stop, step) >= 1
    ensures (SweepCount(start, stop, step) - 1) as real * step <= stop - start
    ensures stop - start < SweepCount(start, stop, step) as real * step
  {
    var q := (stop - start) / step;
    assert q * step == stop - start;
    var n := SweepCount(start, stop, step);
    assert n == q.Floor + 1;
    QuotientSpan(stop - start, step, q, n);
  }

  /** q = d / step lies in [n - 1, n) exactly when d lies in [(n - 1) * step, n * step). */
  lemma QuotientSpan(d: real, step: real, q: real, n: int)
    requires d >= 0.0 && step > 0.0 && q * step == d
    requires (n - 1) as real <= q < n as real
    ensures n >= 1
    ensures (n - 1) as real * step <= d < n as real * step
  {
    if n < 1 {
      MulStrict(q, 0.0, step);
    }
    MulMonotone((n - 1) as real, q, step);
    MulStrict(q, n as real, step);
  }

  /** The directory name of a sweep value: `f"{current_y:.1f}A"`. */
  function DirName(v: real): string {
    FormatFixed(v, NameDecimals) + "A"
  }

  lemma DirNameShape(v: real)
    ensures DirName(v) != [] && NoNewline(DirName(v))
    ensures DirName(v) + ".xyz" != CopyName
  {
    FormatFixedChars(v, NameDecimals);
    var n := DirName(v);
    assert n[|n| - 1] == 'A';
    if |n + ".xyz"| == |CopyName| {
      assert (n + ".xyz")[|n| - 1] == 'A';
      assert CopyName[4] == 'c';
    }
  }

  function Names(values: seq<real>): (names: seq<string>)
    ensures |names| == |values|
    ensures forall k :: 0 <= k < |values| ==> names[k] == DirName(values[k])
  {
    seq(|values|, k requires 0 <= k < |values| => DirName(values[k]))
  }

  /** The text of `.list.dirs`: every directory name followed by a newline. */
  function Manifest(values: seq<real>): string {
    Concat(WithSuffix(Names(values), "\n"))
  }

  // ---------------------------------------------------------------------------
  // The file system
  // ---------------------------------------------------------------------------

  datatype FsState = FsState(files: map<Path, string>, dirs: set<Path>)

  /** The directories `mkdir(parents=True)` makes: every non-empty prefix of the path. */
  function Ancestors(p: Path): set<Path> {
    set i | 1 <= i <= |p| :: p[..i]
  }

  /** A file can be opened for writing when its directory exists (the working directory always does). */
  predicate CanCreate(s: FsState, p: Path) {
    |p| >= 1 && (|p| == 1 || p[..|p| - 1] in s.dirs)
  }

  function WithDirs(s: FsState, p: Path): FsState {
    s.(dirs := s.dirs + Ancestors(p))
  }

  function WithFile(s: FsState, p: Path, contents: string): FsState {
    s.(files := s.files[p := contents])
  }

  class FileSystem {
    var files: map<Path, string>
    var dirs: set<Path>

    function State(): FsState
      reads this
    {
      FsState(files, dirs)
    }

    constructor (files0: map<Path, string>, dirs0: set<Path>)
      ensures State() == FsState(files0, dirs0)
    {
      files := files0;
      dirs := dirs0;
    }

    /** `open(p).readlines()` before the split: the text of the file, or none when it is missing. */
    method ReadFile(p: Path) returns (text: Option<string>)
      ensures p in files ==> text == Some(files[p])
      ensures p !in files ==> text.None?
    {
      text := if p in files then Some(files[p]) else None;
    }

    /** `p.mkdir(parents=True, exist_ok=True)`. */
    method MakeDirs(p: Path)
      modifies this
      ensures State() == WithDirs(old(State()), p)
    {
      dirs := dirs + Ancestors(p);
    }

    /** `open(p, "w")` and writing `contents`; fails when the directory is missing. */
    method WriteFile(p: Path, contents: string) returns (ok: bool)
      modifies this
      ensures ok == CanCreate(old(State()), p)
      ensures State() == if ok then WithFile(old(State()), p, contents) else old(State())
    {
      ok := CanCreate(State(), p);
      if ok {
        files := files[p := contents];
      }
    }

    /** `shutil.copy(src, dst)` onto a file path: the bytes of `src` under the name `dst`. */
    method Copy(src: Path, dst: Path) returns (ok: bool)
      modifies this
      ensures ok == (src in old(files) && CanCreate(old(State()), dst))
      ensures State() == if ok then WithFile(old(State()), dst, old(files)[src]) else old(State())
    {
      ok := src in files && CanCreate(State(), dst);
      if ok {
        files := files[dst := files[src]];
      }
    }
  }

  // ---------------------------------------------------------------------------
  // The specification of a run
  // ---------------------------------------------------------------------------

  datatype Run = Run(outcome: Outcome<PyError>, fs: FsState)

  /** The geometry file of the directory `name`: `<name>/<name>.xyz`. */
  function XyzPath(outputDir: Path, name: string): Path {
    outputDir + [name, name + ".xyz"]
  }

  /** The copy in the directory `name`: `<name>/struc.xyz`. */
  function CopyPath(outputDir: Path, name: string): Path {
    outputDir + [name, CopyName]
  }

  function ManifestPath(outputDir: Path): Path {
    outputDir + [ManifestName]
  }

  /** The directory `name` with its parents, its geometry file and the copy, both holding `text`. */
  function WithIncrement(s: FsState, text: string, outputDir: Path, name: string): FsState {
    var s1 := WithDirs(s, outputDir + [name]);
    WithFile(WithFile(s1, XyzPath(outputDir, name), text), CopyPath(outputDir, name), text)
  }

  /** One iteration of the sweep loop. */
  function Step(s: FsState, header: seq<string>, atoms: seq<string>, outputDir: Path, v: real): Run {
    match FormatAtoms(atoms, v)
    case Failure(e) => Run(Fail(e), s)
    case Success(lines) => Run(Pass, WithIncrement(s, XyzText(header, lines), outputDir, DirName(v)))
  }

  /** The sweep loop over `values`, stopping at the first error. */
  function Sweep(s: FsState, header: seq<string>, atoms: seq<string>, outputDir: Path, values: seq<real>): Run
    decreases |values|
  {
    if values == [] then Run(Pass, s)
    else
      var before := Sweep(s, header, atoms, outputDir, values[..|values| - 1]);
      if before.outcome.Fail? then before
      else Step(before.fs, header, atoms, outputDir, values[|values| - 1])
  }

  /**
   * The values the loop visits: all sweep values when the loop stops by itself;
   * otherwise only `start`, for a run that ends only because its first
   * iteration raises.
   */
  function VisitedValues(start: real, stop: real, step: real): seq<real> {
    if SweepEnds(start, stop, step) then SweepValues(start, stop, step) else [start]
  }

  /**
   * The visited values are sweep values <= stop; the next value is past stop
   * exactly when the sweep values end, and otherwise only start is visited.
   */
  lemma VisitedValuesBounds(start: real, stop: real, step: real)
    ensures var values := VisitedValues(start, stop, step);
            forall k :: 0 <= k < |values| ==> values[k] == SweepValue(start, step, k) <= stop
    ensures SweepValue(start, step, |VisitedValues(start, stop, step)|) > stop <==> SweepEnds(start, stop, step)
    ensures !SweepEnds(start, stop, step) ==> VisitedValues(start, stop, step) == [start]
  {
    var values := VisitedValues(start, stop, step);
    if SweepEnds(start, stop, step) {
      assert values == SweepValues(start, stop, step);
    } else {
      assert values == [start] && SweepValue(start, step, 0) == start;
      SecondValueNotPast(start, stop, step);
    }
  }

  /** The loop over the visited values stops: past stop, or at a malformed first value. */
  lemma VisitedValuesStop(atoms: seq<string>, start: real, stop: real, step: real)
    requires SweepEnds(start, stop, step) || FormatAtoms(atoms, start).Failure?
    ensures LoopStops(atoms, start, stop, step, VisitedValues(start, stop, step))
  {
    VisitedValuesBounds(start, stop, step);
    if !SweepEnds(start, stop, step) {
      LastValueFails(atoms, start, stop, step, VisitedValues(start, stop, step), start);
    }
  }

  /** When the sweep does not end, its second value is not past stop either. */
  lemma SecondValueNotPast(start: real, stop: real, step: real)
    requires !SweepEnds(start, stop, step)
    ensures SweepValue(start, step, 1) <= stop
  {
  }

  lemma LastValueFails(atoms: seq<string>, start: real, stop: real, step: real, values: seq<real>, last: real)
    requires values != [] && values[|values| - 1] == last && FormatAtoms(atoms, last).Failure?
    ensures LoopStops(atoms, start, stop, step, values)
  {
  }

  /**
   * The runs that end: the input is missing, the loop stops by itself, or the
   * first iteration raises. Any other run repeats the same iteration forever.
   */
  predicate RunEnds(s: FsState, inputFile: Path, start: real, stop: real, step: real) {
    || inputFile !in s.files
    || SweepEnds(start, stop, step)
    || FormatAtoms(Atoms(ReadLines(s.files[inputFile])), start).Failure?
  }

  /** The whole of `increment_and_write_xyz(input_file, output_dir, start, stop, step)`. */
  function IncrementRun(s: FsState, inputFile: Path, outputDir: Path, start: real, stop: real, step: real): Run
    requires RunEnds(s, inputFile, start, stop, step)
  {
    if inputFile !in s.files then Run(Fail(FileNotFoundError(inputFile)), s)
    else
      var lines := ReadLines(s.files[inputFile]);
      var values := VisitedValues(start, stop, step);
      var swept := Sweep(s, Header(lines), Atoms(lines), outputDir, values);
      if swept.outcome.Fail? then swept
      else Finish(swept.fs, outputDir, Manifest(values))
  }

  /** The last write of a run: `.list.dirs` in the output directory, which must exist. */
  function Finish(s: FsState, outputDir: Path, manifest: string): Run {
    if CanCreate(s, ManifestPath(outputDir)) then Run(Pass, WithFile(s, ManifestPath(outputDir), manifest))
    else Run(Fail(FileNotFoundError(ManifestPath(outputDir))), s)
  }

  // ---------------------------------------------------------------------------
  // The generator
  // ---------------------------------------------------------------------------

  lemma {:induction false} SweepFailurePropagates(
    s: FsState, header: seq<string>, atoms: seq<string>, outputDir: Path, values: seq<real>, i: nat)
    requires i <= |values|
    requires Sweep(s, header, atoms, outputDir, values[..i]).outcome.Fail?
    ensures Sweep(s, header, atoms, outputDir, values) == Sweep(s, header, atoms, outputDir, values[..i])
    decreases |values| - i
  {
    if i < |values| {
      assert values[..i + 1][..i] == values[..i];
      SweepFailurePropagates(s, header, atoms, outputDir, values, i + 1);
    } else {
      assert values[..i] == values;
    }
  }

  /** The sweep over one more value is one more step, unless it has already failed. */
  lemma SweepStep(s: FsState, header: seq<string>, atoms: seq<string>, outputDir: Path, values: seq<real>, k: nat)
    requires k < |values|
    ensures var before := Sweep(s, header, atoms, outputDir, values[..k]);
            Sweep(s, header, atoms, outputDir, values[..k + 1])
              == if before.outcome.Fail? then before else Step(before.fs, header, atoms, outputDir, values[k])
  {
    assert values[..k + 1][..k] == values[..k];
  }

  /** The inner loop: the atom lines of one step, reformatted one by one. */
  method FormatAtomLines(atoms: seq<string>, currentY: real) returns (r: Result<seq<string>, PyError>)
    ensures r == FormatAtoms(atoms, currentY)
  {
    var modifiedAtoms: seq<string> := [];
    for i := 0 to |atoms|
      invariant MapResult(atoms[..i], AtomFormatter(currentY)) == Success(modifiedAtoms)
    {
      var formatted := FormatAtom(atoms[i], currentY);
      FormatAtomsStep(atoms, i, currentY, modifiedAtoms);
      if formatted.Failure? {
        return Failure(formatted.error);
      }
      modifiedAtoms := modifiedAtoms + [formatted.value];
    }
    assert atoms[..|atoms|] == atoms;
    return Success(modifiedAtoms);
  }

  /** One pass of the atoms loop: a line that formats extends the prefix, one that raises ends the whole step. */
  lemma FormatAtomsStep(atoms: seq<string>, i: nat, currentY: real, prev: seq<string>)
    requires i < |atoms|
    requires MapResult(atoms[..i], AtomFormatter(currentY)) == Success(prev)
    ensures FormatAtom(atoms[i], currentY).Success? ==>
              MapResult(atoms[..i + 1], AtomFormatter(currentY)) == Success(prev + [FormatAtom(atoms[i], currentY).value])
    ensures FormatAtom(atoms[i], currentY).Failure? ==>
              FormatAtoms(atoms, currentY) == Failure(FormatAtom(atoms[i], currentY).error)
  {
    var f := AtomFormatter(currentY);
    MapResultSnoc(atoms, i, f, prev);
    assert f(atoms[i]) == FormatAtom(atoms[i], currentY);
    if FormatAtom(atoms[i], currentY).Failure? {
      MapResultFailurePropagates(atoms, i + 1, f);
    }
  }

  /** Creates the directory `name`, writes the geometry into it and copies it to `struc.xyz`. */
  method WriteIncrement(fs: FileSystem, text: string, outputDir: Path, name: string) returns (incrementDir: Path)
    modifies fs
    ensures incrementDir == outputDir + [name]
    ensures fs.State() == WithIncrement(old(fs.State()), text, outputDir, name)
  {
    incrementDir := outputDir + [name];
    fs.MakeDirs(incrementDir);
    assert incrementDir == incrementDir[..|incrementDir|];
    var incrementFile := incrementDir + [name + ".xyz"];
    assert incrementFile[..|incrementFile| - 1] == incrementDir;
    var written := fs.WriteFile(incrementFile, text);
    var copy := incrementDir + [CopyName];
    assert copy[..|copy| - 1] == incrementDir;
    var copied := fs.Copy(incrementFile, copy);
    assert written && copied;
    assert incrementFile == XyzPath(outputDir, name);
    assert copy == CopyPath(outputDir, name);
  }

  /** The text of `.list.dirs`, built from the last component of every directory. */
  method ManifestText(directories: seq<Path>, ghost values: seq<real>, ghost outputDir: Path) returns (manifest: string)
    requires |directories| == |values|
    requires forall j :: 0 <= j < |values| ==> directories[j] == outputDir + [DirName(values[j])]
    ensures manifest == Manifest(values)
  {
    ghost var names := Names(values);
    manifest := "";
    for j := 0 to |directories|
      invariant manifest == Concat(WithSuffix(names[..j], "\n"))
    {
      var directory := directories[j];
      assert directory[|directory| - 1] == names[j];
      ManifestStep(names, j, manifest);
      manifest := manifest + directory[|directory| - 1] + "\n";
    }
    assert names[..|values|] == names;
  }

  /** One line of `.list.dirs`: the name of the next directory and a newline. */
  lemma ManifestStep(names: seq<string>, j: nat, done: string)
    requires j < |names| && done == Concat(WithSuffix(names[..j], "\n"))
    ensures done + names[j] + "\n" == Concat(WithSuffix(names[..j + 1], "\n"))
  {
    WithSuffixSnoc(names, j, "\n");
    AppendAssoc(done, names[j], "\n");
  }

  /**
   * The `while current_y <= stop` loop over `values`, the sweep values it
   * visits: each one is <= stop, and after the last one either the next value
   * is past stop or the last one has a malformed atom line.
   */
  method SweepLoop(fs: FileSystem, header: seq<string>, atoms: seq<string>, outputDir: Path,
                   start: real, stop: real, step: real, ghost values: seq<real>)
    returns (outcome: Outcome<PyError>, allDirectories: seq<Path>)
    requires forall k :: 0 <= k < |values| ==> values[k] == SweepValue(start, step, k) <= stop
    requires LoopStops(atoms, start, stop, step, values)
    modifies fs
    ensures Run(outcome, fs.State()) == Sweep(old(fs.State()), header, atoms, outputDir, values)
    ensures outcome.Pass? ==> SweepValue(start, step, |values|) > stop && |allDirectories| == |values|
    ensures outcome.Pass? ==> forall j :: 0 <= j < |allDirectories| ==> allDirectories[j] == outputDir + [DirName(values[j])]
  {
    ghost var s0 := fs.State();
    allDirectories := [];
    var currentY := start;
    ghost var k := 0;
    while currentY <= stop
      invariant 0 <= k <= |values|
      invariant k == |values| ==> SweepValue(start, step, k) > stop
      invariant currentY == SweepValue(start, step, k)
      invariant Sweep(s0, header, atoms, outputDir, values[..k]) == Run(Pass, fs.State())
      invariant |allDirectories| == k
      invariant forall j :: 0 <= j < k ==> allDirectories[j] == outputDir + [DirName(values[j])]
      decreases |values| - k
    {
      assert values[k] == currentY;
      SweepStep(s0, header, atoms, outputDir, values, k);
      var modifiedAtoms := FormatAtomLines(atoms, currentY);
      if modifiedAtoms.Failure? {
        SweepFailurePropagates(s0, header, atoms, outputDir, values, k + 1);
        return Fail(modifiedAtoms.error), allDirectories;
      }
      var incrementDir := WriteIncrement(fs, XyzText(header, modifiedAtoms.value), outputDir, DirName(currentY));
      DirectoriesAppend(allDirectories, incrementDir, outputDir, values, k);
      allDirectories := allDirectories + [incrementDir];
      LoopContinues(atoms, start, stop, step, values, k);
      SweepValueNext(start, step, k);
      currentY := currentY + step;
      k := k + 1;
    }
    assert values[..k] == values;
    outcome := Pass;
  }

  /**
   * The sweep of `increment_and_write_xyz` from start to stop: it visits
   * `VisitedValues`, and it completes only when the sweep values end.
   */
  method SweepIncrements(fs: FileSystem, header: seq<string>, atoms: seq<string>, outputDir: Path,
                         start: real, stop: real, step: real)
    returns (outcome: Outcome<PyError>, allDirectories: seq<Path>)
    requires SweepEnds(start, stop, step) || FormatAtoms(atoms, start).Failure?
    modifies fs
    ensures Run(outcome, fs.State()) == Sweep(old(fs.State()), header, atoms, outputDir, VisitedValues(start, stop, step))
    ensures outcome.Pass? ==> SweepEnds(start, stop, step) && |allDirectories| == |SweepValues(start, stop, step)|
    ensures outcome.Pass? ==> forall j :: 0 <= j < |allDirectories| ==>
              allDirectories[j] == outputDir + [DirName(SweepValues(start, stop, step)[j])]
  {
    VisitedValuesBounds(start, stop, step);
    VisitedValuesStop(atoms, start, stop, step);
    outcome, allDirectories := SweepLoop(fs, header, atoms, outputDir, start, stop, step, VisitedValues(start, stop, step));
  }

  /** After the last of `values`, the next value is past stop, or the last one has a malformed atom line. */
  predicate LoopStops(atoms: seq<string>, start: real, stop: real, step: real, values: seq<real>) {
    || SweepValue(start, step, |values|) > stop
    || (values != [] && FormatAtoms(atoms, values[|values| - 1]).Failure?)
  }

  /** A loop over `values` that gets past the k-th value without an error goes on to the next one, or stops. */
  lemma LoopContinues(atoms: seq<string>, start: real, stop: real, step: real, values: seq<real>, k: nat)
    requires LoopStops(atoms, start, stop, step, values)
    requires k < |values| && FormatAtoms(atoms, values[k]).Success?
    ensures k + 1 == |values| ==> SweepValue(start, step, k + 1) > stop
  {
  }

  /** Appending the k-th directory keeps the list of directories in step with the visited values. */
  lemma DirectoriesAppend(previous: seq<Path>, dir: Path, outputDir: Path, values: seq<real>, k: nat)
    requires |previous| == k < |values|
    requires forall j :: 0 <= j < k ==> previous[j] == outputDir + [DirName(values[j])]
    requires dir == outputDir + [DirName(values[k])]
    ensures forall j :: 0 <= j < k + 1 ==> (previous + [dir])[j] == outputDir + [DirName(values[j])]
  {
  }

  /** `increment_and_write_xyz`: read the input, run the sweep, then write `.list.dirs`. */
  method IncrementAndWriteXyz(fs: FileSystem, inputFile: Path, outputDir: Path, start: real, stop: real, step: real)
    returns (outcome: Outcome<PyError>)
    requires RunEnds(fs.State(), inputFile, start, stop, step)
    modifies fs
    ensures Run(outcome, fs.State()) == IncrementRun(old(fs.State()), inputFile, outputDir, start, stop, step)
  {
    var read := fs.ReadFile(inputFile);
    if read.None? {
      return Fail(FileNotFoundError(inputFile));
    }
    var lines := ReadLines(read.value);
    var allDirectories;
    outcome, allDirectories := SweepIncrements(fs, Header(lines), Atoms(lines), outputDir, start, stop, step);
    if outcome.Fail? {
      return;
    }
    var manifest := ManifestText(allDirectories, VisitedValues(start, stop, step), outputDir);
    var ok := fs.WriteFile(ManifestPath(outputDir), manifest);
    outcome := if ok then Pass else Fail(FileNotFoundError(ManifestPath(outputDir)));
  }

  // ---------------------------------------------------------------------------
  // What a run writes, for any directory names and texts
  // ---------------------------------------------------------------------------

  /** The file system after writing, in order, the directory `names[k]` holding `texts[k]`. */
  function Writes(s: FsState, outputDir: Path, names: seq<string>, texts: seq<string>): FsState
    requires |names| == |texts|
    decreases |names|
  {
    if names == [] then s
    else
      var n := |names|;
      WithIncrement(Writes(s, outputDir, names[..n - 1], texts[..n - 1]), texts[n - 1], outputDir, names[n - 1])
  }

  /** The directories made for `names`: every prefix of each of their paths. */
  function NameDirs(outputDir: Path, names: seq<string>): set<Path> {
    set name, d | name in names && d in Ancestors(outputDir + [name]) :: d
  }

  /** The files written for `names`: each one's geometry and copy. */
  function NamePaths(outputDir: Path, names: seq<string>): set<Path> {
    (set name | name in names :: XyzPath(outputDir, name)) + (set name | name in names :: CopyPath(outputDir, name))
  }

  /** No later entry of `names` repeats the k-th one. */
  predicate LastOfName(names: seq<string>, k: int)
    requires 0 <= k < |names|
  {
    forall j :: k < j < |names| ==> names[j] != names[k]
  }

  /** `p` is present in both maps with the same text, or absent from both. */
  predicate SameEntry(m: map<Path, string>, n: map<Path, string>, p: Path) {
    (p in m <==> p in n) && (p in m ==> m[p] == n[p])
  }

  /** The geometry and the copy of the directory `name` both hold `text`. */
  predicate HoldsGeometry(files: map<Path, string>, outputDir: Path, name: string, text: string) {
    && XyzPath(outputDir, name) in files && files[XyzPath(outputDir, name)] == text
    && CopyPath(outputDir, name) in files && files[CopyPath(outputDir, name)] == text
  }

  /** Geometry paths of distinct names, copy paths of distinct names, and a geometry and a copy path never coincide. */
  lemma PathsDistinct(outputDir: Path, a: string, b: string)
    requires a + ".xyz" != CopyName
    ensures XyzPath(outputDir, a) != CopyPath(outputDir, b)
    ensures a != b ==> XyzPath(outputDir, a) != XyzPath(outputDir, b) && CopyPath(outputDir, a) != CopyPath(outputDir, b)
  {
    assert XyzPath(outputDir, a)[|outputDir| + 1] == a + ".xyz";
    assert CopyPath(outputDir, b)[|outputDir| + 1] == CopyName;
    assert XyzPath(outputDir, a)[|outputDir|] == a && XyzPath(outputDir, b)[|outputDir|] == b;
    assert CopyPath(outputDir, a)[|outputDir|] == a && CopyPath(outputDir, b)[|outputDir|] == b;
  }

  /** `.list.dirs` sits directly in the output directory, apart from every geometry and copy. */
  lemma ManifestApart(outputDir: Path, name: string)
    ensures ManifestPath(outputDir) != XyzPath(outputDir, name)
    ensures ManifestPath(outputDir) != CopyPath(outputDir, name)
  {
    assert |ManifestPath(outputDir)| != |XyzPath(outputDir, name)|;
    assert |ManifestPath(outputDir)| != |CopyPath(outputDir, name)|;
  }

  lemma WritesLast(s: FsState, outputDir: Path, names: seq<string>, texts: seq<string>)
    requires |names| == |texts| && names != []
    ensures var n := |names|;
            && NameDirs(outputDir, names) == NameDirs(outputDir, names[..n - 1]) + Ancestors(outputDir + [names[n - 1]])
            && NamePaths(outputDir, names)
               == NamePaths(outputDir, names[..n - 1]) + {XyzPath(outputDir, names[n - 1]), CopyPath(outputDir, names[n - 1])}
  {
    var n := |names|;
    assert names == names[..n - 1] + [names[n - 1]];
    assert forall name :: name in names <==> name in names[..n - 1] || name == names[n - 1];
  }

  /** The written directories are the old ones plus every prefix of each name's directory. */
  lemma {:induction false} WritesDirs(s: FsState, outputDir: Path, names: seq<string>, texts: seq<string>)
    requires |names| == |texts|
    ensures Writes(s, outputDir, names, texts).dirs == s.dirs + NameDirs(outputDir, names)
    decreases |names|
  {
    if names != [] {
      var n := |names|;
      WritesDirs(s, outputDir, names[..n - 1], texts[..n - 1]);
      WritesLast(s, outputDir, names, texts);
    } else {
      assert NameDirs(outputDir, names) == {};
    }
  }

  /** Every file other than the names' geometries and copies is left as it was. */
  lemma {:induction false} WritesFrame(s: FsState, outputDir: Path, names: seq<string>, texts: seq<string>)
    requires |names| == |texts|
    ensures forall p :: p !in NamePaths(outputDir, names) ==> SameEntry(Writes(s, outputDir, names, texts).files, s.files, p)
    decreases |names|
  {
    if names != [] {
      var n := |names|;
      WritesFrame(s, outputDir, names[..n - 1], texts[..n - 1]);
      WritesLast(s, outputDir, names, texts);
    }
  }

  /** The geometry and copy of each name hold its text, unless a later entry writes the same name. */
  lemma {:induction false} WritesGeometries(s: FsState, outputDir: Path, names: seq<string>, texts: seq<string>)
    requires |names| == |texts|
    requires forall k :: 0 <= k < |names| ==> names[k] + ".xyz" != CopyName
    ensures forall k :: 0 <= k < |names| && LastOfName(names, k) ==>
              HoldsGeometry(Writes(s, outputDir, names, texts).files, outputDir, names[k], texts[k])
    decreases |names|
  {
    if names != [] {
      var n := |names|;
      var prefix, last := names[..n - 1], names[n - 1];
      WritesGeometries(s, outputDir, prefix, texts[..n - 1]);
      var before := Writes(s, outputDir, prefix, texts[..n - 1]);
      var after := Writes(s, outputDir, names, texts);
      PathsDistinct(outputDir, last, last);
      forall k | 0 <= k < n && LastOfName(names, k)
        ensures HoldsGeometry(after.files, outputDir, names[k], texts[k])
      {
        if k < n - 1 {
          assert prefix[k] == names[k] && texts[..n - 1][k] == texts[k];
          assert LastOfName(prefix, k);
          assert names[k] != last;
          PathsDistinct(outputDir, names[k], last);
          PathsDistinct(outputDir, last, names[k]);
        }
      }
    }
  }

  // ---------------------------------------------------------------------------
  // Properties of a run
  // ---------------------------------------------------------------------------

  lemma ColumnNoNewline(number: string)
    requires NoNewline(number)
    ensures NoNewline(Column(number))
  {
    var pad := PadLeftParts(number, 14);
    assert Column(number) == " " + pad + number;
  }

  /** An emitted atom line is a single line: no newline among its characters. */
  lemma AtomLineNoNewline(symbol: string, x: real, y: real, z: real)
    requires NoSpace(symbol)
    ensures NoNewline(AtomLine(symbol, x, y, z))
  {
    assert IsSpace('\n');
    var trail := PadRightParts(symbol, 2);
    FormatFixedChars(x, CoordinateDecimals);
    FormatFixedChars(y, CoordinateDecimals);
    FormatFixedChars(z, CoordinateDecimals);
    ColumnNoNewline(FormatFixed(x, CoordinateDecimals));
    ColumnNoNewline(FormatFixed(y, CoordinateDecimals));
    ColumnNoNewline(FormatFixed(z, CoordinateDecimals));
  }

  /** The text written for one sweep value, when every atom line is well formed. */
  function GeometryText(header: seq<string>, atoms: seq<string>, v: real): string
    requires forall k :: 0 <= k < |atoms| ==> WellFormedAtom(atoms[k])
  {
    XyzText(header, FormatAtoms(atoms, v).value)
  }

  /**
   * Read back, every geometry the generator writes keeps the header lines of
   * the input and has one line per atom line of the input, in the same order,
   * or one empty line when the input has no atom lines. The header lines must
   * end in a newline, as they do when the input has a third line or ends in one.
   */
  lemma GeometryLines(text: string, v: real)
    requires forall k :: 0 <= k < |Header(ReadLines(text))| ==> EndsWithNewline(Header(ReadLines(text))[k])
    requires forall k :: 0 <= k < |Atoms(ReadLines(text))| ==> WellFormedAtom(Atoms(ReadLines(text))[k])
    ensures var lines := ReadLines(text);
            var formatted := FormatAtoms(Atoms(lines), v).value;
            ReadLines(GeometryText(Header(lines), Atoms(lines), v))
              == Header(lines) + if formatted == [] then ["\n"] else WithSuffix(formatted, "\n")
  {
    var lines := ReadLines(text);
    var header, atoms := Header(lines), Atoms(lines);
    assert forall k :: 0 <= k < |header| ==> IsLine(header[k]) by {
      assert forall k :: 0 <= k < |header| ==> header[k] == lines[k];
    }
    var formatted := FormatAtoms(atoms, v).value;
    forall k | 0 <= k < |formatted| ensures NoNewline(formatted[k]) {
      AtomSelection(atoms[k], v);
      var parts := Split(atoms[k]);
      var y := if IsMoved(atoms[k]) then RoundFixed(v, SweepDecimals) else ParseFloat(parts[2]).value;
      AtomLineNoNewline(parts[0], ParseFloat(parts[1]).value, y, ParseFloat(parts[3]).value);
    }
    XyzTextLines(header, formatted);
  }

  /** Read back, `.list.dirs` has one line per sweep value: its directory name. */
  lemma ManifestLines(values: seq<real>)
    ensures ReadLines(Manifest(values)) == WithSuffix(Names(values), "\n")
  {
    var lines := WithSuffix(Names(values), "\n");
    forall k | 0 <= k < |lines| ensures IsLine(lines[k]) && EndsWithNewline(lines[k]) {
      DirNameShape(values[k]);
      assert lines[k] == DirName(values[k]) + "\n";
    }
    ReadLinesOfConcat(lines);
  }

  /** The geometry texts of a sweep, one per value. */
  function Texts(header: seq<string>, atoms: seq<string>, values: seq<real>): (texts: seq<string>)
    requires forall k :: 0 <= k < |atoms| ==> WellFormedAtom(atoms[k])
    ensures |texts| == |values|
    ensures forall k :: 0 <= k < |values| ==> texts[k] == GeometryText(header, atoms, values[k])
  {
    seq(|values|, k requires 0 <= k < |values| => GeometryText(header, atoms, values[k]))
  }

  /** With well-formed atom lines a step always succeeds and writes the value's geometry. */
  lemma StepSucceeds(fs: FsState, header: seq<string>, atoms: seq<string>, outputDir: Path, v: real)
    requires forall k :: 0 <= k < |atoms| ==> WellFormedAtom(atoms[k])
    ensures Step(fs, header, atoms, outputDir, v)
         == Run(Pass, WithIncrement(fs, GeometryText(header, atoms, v), outputDir, DirName(v)))
  {
  }

  /** The texts of a prefix of the sweep values are the prefix of the texts. */
  lemma TextsPrefix(header: seq<string>, atoms: seq<string>, values: seq<real>, n: nat)
    requires forall k :: 0 <= k < |atoms| ==> WellFormedAtom(atoms[k])
    requires n <= |values|
    ensures Texts(header, atoms, values)[..n] == Texts(header, atoms, values[..n])
    ensures Names(values)[..n] == Names(values[..n])
  {
  }

  lemma {:induction false} SweepWrites(s: FsState, header: seq<string>, atoms: seq<string>, outputDir: Path, values: seq<real>)
    requires forall k :: 0 <= k < |atoms| ==> WellFormedAtom(atoms[k])
    ensures Sweep(s, header, atoms, outputDir, values)
         == Run(Pass, Writes(s, outputDir, Names(values), Texts(header, atoms, values)))
    decreases |values|
  {
    if values != [] {
      var n := |values|;
      var prefix, v := values[..n - 1], values[n - 1];
      SweepWrites(s, header, atoms, outputDir, prefix);
      TextsPrefix(header, atoms, values, n - 1);
      StepSucceeds(Sweep(s, header, atoms, outputDir, prefix).fs, header, atoms, outputDir, v);
    }
  }


  /** A missing input file raises before anything is written. */
  lemma MissingInput(s: FsState, inputFile: Path, outputDir: Path, start: real, stop: real, step: real)
    requires inputFile !in s.files
    ensures IncrementRun(s, inputFile, outputDir, start, stop, step) == Run(Fail(FileNotFoundError(inputFile)), s)
  {
  }

  /**
   * When start > stop the loop never runs: no directory is made and, when the
   * output directory exists, an empty `.list.dirs` is the only file written.
   */
  lemma EmptySweep(s: FsState, inputFile: Path, outputDir: Path, start: real, stop: real, step: real)
    requires inputFile in s.files && start > stop
    ensures var r := IncrementRun(s, inputFile, outputDir, start, stop, step);
            && r.fs.dirs == s.dirs
            && (r.outcome == Pass <==> outputDir == [] || outputDir in s.dirs)
            && (r.outcome == Pass ==> r.fs.files == s.files[ManifestPath(outputDir) := ""])
            && (r.outcome != Pass ==> r.fs == s && r.outcome == Fail(FileNotFoundError(ManifestPath(outputDir))))
  {
    assert SweepValues(start, stop, step) == [];
    assert ManifestPath(outputDir)[..|outputDir|] == outputDir;
  }

  /** A sweep whose first step fails raises that step's error and leaves the file system as it was. */
  lemma FirstStepFails(s: FsState, header: seq<string>, atoms: seq<string>, outputDir: Path, values: seq<real>)
    requires values != [] && FormatAtoms(atoms, values[0]).Failure?
    ensures Sweep(s, header, atoms, outputDir, values) == Run(Fail(FormatAtoms(atoms, values[0]).error), s)
  {
    assert values[..1][..0] == [];
    SweepFailurePropagates(s, header, atoms, outputDir, values, 1);
  }

  /**
   * A malformed atom line aborts the first step, before its directory is made:
   * the run raises the error of the first malformed line and writes nothing.
   */
  lemma MalformedAtomAborts(s: FsState, inputFile: Path, outputDir: Path, start: real, stop: real, step: real, bad: nat)
    requires inputFile in s.files && start <= stop
    requires bad < |Atoms(ReadLines(s.files[inputFile]))|
    requires !WellFormedAtom(Atoms(ReadLines(s.files[inputFile]))[bad])
    ensures IncrementRun(s, inputFile, outputDir, start, stop, step)
         == Run(Fail(FormatAtoms(Atoms(ReadLines(s.files[inputFile])), start).error), s)
  {
    var lines := ReadLines(s.files[inputFile]);
    var values := VisitedValues(start, stop, step);
    assert SweepValue(start, step, 0) == start;
    assert values != [] && values[0] == start;
    FirstStepFails(s, Header(lines), Atoms(lines), outputDir, values);
  }

  /** The output directory is among those made for any non-empty list of names. */
  lemma OutputDirMade(outputDir: Path, names: seq<string>)
    requires outputDir != [] && names != []
    ensures outputDir in NameDirs(outputDir, names)
  {
    var p := outputDir + [names[0]];
    assert p[..|outputDir|] == outputDir;
    assert outputDir in Ancestors(p);
  }

  /**
   * Writing the directories `names` with `texts` and then `.list.dirs`: the run
   * fails only when nothing was written and the output directory is missing.
   */
  lemma FinishWrites(s: FsState, outputDir: Path, names: seq<string>, texts: seq<string>, manifest: string)
    requires |names| == |texts|
    requires forall k :: 0 <= k < |names| ==> names[k] + ".xyz" != CopyName
    ensures var r := Finish(Writes(s, outputDir, names, texts), outputDir, manifest);
            && (r.outcome == Pass <==> outputDir == [] || outputDir in s.dirs || names != [])
            && (r.outcome != Pass ==> r.fs == s && r.outcome == Fail(FileNotFoundError(ManifestPath(outputDir))))
            && r.fs.dirs == s.dirs + NameDirs(outputDir, names)
            && (r.outcome == Pass ==> ManifestPath(outputDir) in r.fs.files && r.fs.files[ManifestPath(outputDir)] == manifest)
            && (forall p :: p !in NamePaths(outputDir, names) && p != ManifestPath(outputDir) ==>
                  SameEntry(r.fs.files, s.files, p))
            && (forall k :: 0 <= k < |names| && LastOfName(names, k) ==>
                  HoldsGeometry(r.fs.files, outputDir, names[k], texts[k]))
  {
    FinishOutcome(s, outputDir, names, texts, manifest);
    FinishFiles(s, outputDir, names, texts, manifest);
  }

  /** Whether the manifest can be written, and the directories after the run. */
  lemma FinishOutcome(s: FsState, outputDir: Path, names: seq<string>, texts: seq<string>, manifest: string)
    requires |names| == |texts|
    ensures var r := Finish(Writes(s, outputDir, names, texts), outputDir, manifest);
            && (r.outcome == Pass <==> outputDir == [] || outputDir in s.dirs || names != [])
            && (r.outcome != Pass ==> r.fs == s && r.outcome == Fail(FileNotFoundError(ManifestPath(outputDir))))
            && r.fs.dirs == s.dirs + NameDirs(outputDir, names)
            && (r.outcome == Pass ==> ManifestPath(outputDir) in r.fs.files && r.fs.files[ManifestPath(outputDir)] == manifest)
  {
    var mp := ManifestPath(outputDir);
    WritesDirs(s, outputDir, names, texts);
    assert mp[..|outputDir|] == outputDir;
    if names != [] && outputDir != [] {
      OutputDirMade(outputDir, names);
    }
    if names == [] {
      assert NameDirs(outputDir, names) == {};
    }
  }

  /** The files after the run: the geometries, the manifest, and nothing else changed. */
  lemma FinishFiles(s: FsState, outputDir: Path, names: seq<string>, texts: seq<string>, manifest: string)
    requires |names| == |texts|
    requires forall k :: 0 <= k < |names| ==> names[k] + ".xyz" != CopyName
    ensures var r := Finish(Writes(s, outputDir, names, texts), outputDir, manifest);
            && (forall p :: p !in NamePaths(outputDir, names) && p != ManifestPath(outputDir) ==>
                  SameEntry(r.fs.files, s.files, p))
            && (forall k :: 0 <= k < |names| && LastOfName(names, k) ==>
                  HoldsGeometry(r.fs.files, outputDir, names[k], texts[k]))
  {
    var mp := ManifestPath(outputDir);
    WritesFrame(s, outputDir, names, texts);
    WritesGeometries(s, outputDir, names, texts);
    forall k | 0 <= k < |names| ensures XyzPath(outputDir, names[k]) != mp && CopyPath(outputDir, names[k]) != mp {
      ManifestApart(outputDir, names[k]);
    }
  }


  /**
   * With well-formed atom lines the run succeeds exactly when `.list.dirs` can be
   * created, which fails only for an empty sweep into a missing output
   * directory; it then lists every value's directory once per value, in sweep
   * order, and each value's geometry and copy hold its geometry text (the last
   * value wins when two values share a directory name). Nothing else is written.
   */
  lemma WellFormedRun(s: FsState, inputFile: Path, outputDir: Path, start: real, stop: real, step: real)
    requires SweepEnds(start, stop, step) && inputFile in s.files
    requires forall k :: 0 <= k < |Atoms(ReadLines(s.files[inputFile]))| ==> WellFormedAtom(Atoms(ReadLines(s.files[inputFile]))[k])
    ensures var r := IncrementRun(s, inputFile, outputDir, start, stop, step);
            var values := SweepValues(start, stop, step);
            var lines := ReadLines(s.files[inputFile]);
            && (r.outcome == Pass <==> outputDir == [] || outputDir in s.dirs || values != [])
            && (r.outcome != Pass ==> r.fs == s)
            && r.fs.dirs == s.dirs + NameDirs(outputDir, Names(values))
            && (r.outcome == Pass ==>
                  && ManifestPath(outputDir) in r.fs.files
                  && ReadLines(r.fs.files[ManifestPath(outputDir)]) == WithSuffix(Names(values), "\n"))
            && (forall p :: p !in NamePaths(outputDir, Names(values)) && p != ManifestPath(outputDir) ==>
                  SameEntry(r.fs.files, s.files, p))
            && (forall k :: 0 <= k < |values| && LastOfName(Names(values), k) ==>
                  HoldsGeometry(r.fs.files, outputDir, DirName(values[k]), GeometryText(Header(lines), Atoms(lines), values[k])))
  {
    var lines := ReadLines(s.files[inputFile]);
    var values := SweepValues(start, stop, step);
    var names, texts := Names(values), Texts(Header(lines), Atoms(lines), values);
    SweepWrites(s, Header(lines), Atoms(lines), outputDir, values);
    forall k | 0 <= k < |names| ensures names[k] + ".xyz" != CopyName {
      DirNameShape(values[k]);
    }
    FinishWrites(s, outputDir, names, texts, Manifest(values));
    ManifestLines(values);
  }
}
