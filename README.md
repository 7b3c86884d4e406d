# Dafny model of the SI-EEQ_BC analysis scripts

This project models the computational core of three Python scripts from the
supporting information of the EEQ_BC charge model (grimme-lab/SI-EEQ_BC).

- `scripts/methane_o2_structure_increments.py` is a structure generator. It reads
  an XYZ geometry of CH4 + O2. For each distance of a linear sweep it moves every
  oxygen atom whose y coordinate is 2.0 to that distance, and writes the geometry
  into the directory `<d>A/`, both as `<d>A.xyz` and as `struc.xyz`. It then lists
  the directories in `.list.dirs`.
- `scripts/ctcharge_methaneo2.py` post-processes the charges of that scan:
  - the periodic table `PSE` and its two derived maps;
  - the `--gas`/`--solvation` method filters and the filter to atom type 8;
  - the summing of charges per structure (CID) when a structure has several
    atoms of that type;
  - the conversion of the CID label (`1.5A`) to a distance, and the plot style
    of each method.
- `scripts/energies_nh4f.py` post-processes the energies of the NH4F scan. With
  `--set-to-zero <method>`, every method column is rebased on the last row of the
  reference method and converted from Hartree to kcal/mol. A plot style is looked
  up for each method.

Modules:

| file | module | what it holds |
|---|---|---|
| results.dfy | Results | `Option`, `Result`, `Outcome`, the Python exceptions raised (`FileNotFoundError`, `IndexError`, `ValueError`, `KeyError`), and `MapResult`, a loop that stops at the first exception |
| text.dfy | Text | `str.split()`, `readlines()`, `"".join`, `str.lower()`, `endswith`, substring `in`, the padding of format specs, and `str.replace(c, "")` |
| numbers.dfy | Numbers | `f"{x:.Nf}"` on exact reals (round half to even) and `float(token)` on a token without blanks; `None` stands for the `ValueError` |
| tables.dfy | Tables | the pandas and list operations the scripts use: `unique()`, `drop_duplicates(keep="first")`, and a comprehension with a condition |
| elements.dfy | Elements | `PSE`, `PSE_SYMBOLS`, `PSE_NUMBERS` |
| structure_increments.dfy | StructureIncrements | the generator, over an in-memory file system held in a `FileSystem` class |
| charge_table.dfy | ChargeTable | the charge table, from the pivoted rows onward |
| energy_table.dfy | EnergyTable | the energy table. The `EnergyFrame` class holds the columns that the shift-and-scale loop updates in place |

Some operations change state step by step in the source: the sweep loop with its
file writes, the per-method loop over `cumulative_df`, and the in-place `-=`/`*=`
loop. Each of them is a method with a loop. Its postcondition ties the outcome and
the new state to a specification function (`IncrementRun`, `Accumulate`, `Rebase`),
and lemmas prove what that function means.

## Model

Source paths are relative to the repository root.

| member | source | states |
|---|---|---|
| StructureIncrements.Header | scripts/methane_o2_structure_increments.py:13 | the header is the first two lines read (fewer if the file is shorter), unchanged |
| StructureIncrements.Atoms | scripts/methane_o2_structure_increments.py:14 | header followed by atoms gives back exactly the lines read |
| StructureIncrements.HeaderIsInputPrefix | scripts/methane_o2_structure_increments.py:9-13 | the header lines, joined, are a prefix of the input text |
| StructureIncrements.SelectYCases | scripts/methane_o2_structure_increments.py:26-29 | the selection test raises only when the symbol is `O` and token 2 is missing or not a number; it replaces token 2 by the 6-decimal sweep value exactly when the symbol is `O` and token 2 reads as 2.0, and otherwise leaves the tokens alone |
| StructureIncrements.SweepToken | scripts/methane_o2_structure_increments.py:29 | the replaced token reads back as the sweep value rounded to 6 decimals |
| StructureIncrements.ReformatCases | scripts/methane_o2_structure_increments.py:31 | reformatting succeeds exactly when tokens 1-3 exist and are numbers; the line is then the symbol padded to 2 and the three coordinates at width 14 with 8 decimals, and tokens after the fourth are dropped |
| StructureIncrements.ReformatReplaced | scripts/methane_o2_structure_increments.py:29-31 | replacing token 2 by a number changes only the y coordinate of the emitted line |
| StructureIncrements.AtomSelection | scripts/methane_o2_structure_increments.py:24-31 | an atom line is accepted exactly when it has a symbol and three numeric coordinates. The emitted line then has y replaced by the rounded sweep value if the atom is a marked oxygen, and the parsed y otherwise; x and z are always the parsed values |
| StructureIncrements.AtomErrorIndependentOfSweep | scripts/methane_o2_structure_increments.py:24-31 | whether and how an atom line fails does not depend on the sweep value |
| StructureIncrements.AtomLineFields | scripts/methane_o2_structure_increments.py:31 | an emitted atom line splits back into the symbol and the three formatted coordinates; with a symbol of at most 2 characters and coordinates of at most 14 it is 47 characters long |
| StructureIncrements.FormatAtoms | scripts/methane_o2_structure_increments.py:23-32 | the atom lines are formatted one per input atom line, in order; the step raises exactly when some atom line is malformed, with the error of the first malformed one |
| StructureIncrements.FormatAtomLines | scripts/methane_o2_structure_increments.py:22-32 | the inner loop builds exactly `FormatAtoms` |
| StructureIncrements.XyzTextLines | scripts/methane_o2_structure_increments.py:41-43 | read back, a written geometry is the header lines unchanged, then one line per atom line in order, each ending in a newline; with no atom lines, the header and one empty line |
| StructureIncrements.GeometryLines | scripts/methane_o2_structure_increments.py:41-43 | for a well-formed input whose header lines end in a newline, the written file reads back as the input's header followed by the formatted atom lines, or by one empty line when there are none |
| StructureIncrements.SweepValues | scripts/methane_o2_structure_increments.py:20-49 | the sweep values are start, start + step, ..., each at most stop, and the next one would exceed stop |
| StructureIncrements.SweepCountBounds | scripts/methane_o2_structure_increments.py:21 | every counted sweep value passes the loop test and the first uncounted one fails it |
| StructureIncrements.Names | scripts/methane_o2_structure_increments.py:35-37 | one directory name per sweep value, in order, each the value with 1 decimal and `A` |
| StructureIncrements.DirNameShape | scripts/methane_o2_structure_increments.py:35-38 | a directory name is non-empty, has no newline, and its `.xyz` file never has the name `struc.xyz` |
| StructureIncrements.ManifestLines | scripts/methane_o2_structure_increments.py:52-54 | read back, `.list.dirs` lists one directory name per line, in creation order, each ending in a newline |
| StructureIncrements.FileSystem.ReadFile | scripts/methane_o2_structure_increments.py:9-10 | opening the input gives its text, or nothing when it does not exist |
| StructureIncrements.FileSystem.MakeDirs | scripts/methane_o2_structure_increments.py:36 | `mkdir(parents=True, exist_ok=True)` adds the directory and all its ancestors and changes no file |
| StructureIncrements.FileSystem.WriteFile | scripts/methane_o2_structure_increments.py:41-43 | a write succeeds exactly when the parent directory exists, and then replaces that one file's text |
| StructureIncrements.FileSystem.Copy | scripts/methane_o2_structure_increments.py:46 | a copy succeeds exactly when the source exists and the target's directory exists, and then gives the target the source's text |
| StructureIncrements.WriteIncrement | scripts/methane_o2_structure_increments.py:35-46 | one iteration's writes make the directory with its parents and put the same text in `<name>.xyz` and `struc.xyz` |
| StructureIncrements.ManifestText | scripts/methane_o2_structure_increments.py:52-54 | the manifest loop writes exactly the directory names, each followed by a newline |
| StructureIncrements.SweepLoop | scripts/methane_o2_structure_increments.py:20-49 | the `while current_y <= stop` loop, run over values that pass the loop test and end past stop or at a malformed value, computes `Sweep` over them; when it completes, the next value is past stop and it has listed one directory per value, `output_dir / f"{v:.1f}A"`, in order |
| StructureIncrements.SweepIncrements | scripts/methane_o2_structure_increments.py:20-49 | the sweep from start to stop computes `Sweep` over the visited values; when it completes, the sweep values end and it has listed one directory per sweep value, in order. When the loop would not stop by itself, it raises in its first iteration |
| StructureIncrements.VisitedValuesBounds | scripts/methane_o2_structure_increments.py:21-48 | every visited value passes the loop test `current_y <= stop`; the value after the last one fails it exactly when the step is positive or start > stop, and otherwise only start is visited |
| StructureIncrements.VisitedValuesStop | scripts/methane_o2_structure_increments.py:21-31 | when the step would never end the sweep, the first value's malformed atom line ends the loop |
| StructureIncrements.IncrementAndWriteXyz | scripts/methane_o2_structure_increments.py:5-54 | for every run that ends, the generator's outcome and final file system are those of `IncrementRun`: read, sweep, then the manifest |
| StructureIncrements.SweepStep | scripts/methane_o2_structure_increments.py:21-49 | the sweep over one more value is the previous sweep followed by one iteration, unless the previous sweep raised |
| StructureIncrements.SweepFailurePropagates | scripts/methane_o2_structure_increments.py:21-49 | once an iteration raises, the rest of the sweep does nothing |
| StructureIncrements.SweepWrites | scripts/methane_o2_structure_increments.py:19-49 | for a well-formed input the sweep never raises and performs exactly the writes of each value's directory in order |
| StructureIncrements.PathsDistinct | scripts/methane_o2_structure_increments.py:38-46 | geometry and copy paths of different names never coincide, and a geometry path is never a copy path |
| StructureIncrements.ManifestApart | scripts/methane_o2_structure_increments.py:52 | `.list.dirs` is neither a geometry nor a copy path |
| StructureIncrements.WritesLast | scripts/methane_o2_structure_increments.py:35-46 | the directories and files of a sweep are those of the earlier values plus the last value's |
| StructureIncrements.WritesDirs | scripts/methane_o2_structure_increments.py:36 | after the sweep, the directories are the old ones plus each name's directory and its ancestors |
| StructureIncrements.WritesFrame | scripts/methane_o2_structure_increments.py:41-46 | the sweep changes no file other than the geometries and copies of the names |
| StructureIncrements.WritesGeometries | scripts/methane_o2_structure_increments.py:41-46 | the geometry and the copy of every directory name hold the text written for the last sweep value with that name |
| StructureIncrements.OutputDirMade | scripts/methane_o2_structure_increments.py:36 | writing any directory also creates the output directory |
| StructureIncrements.MissingInput | scripts/methane_o2_structure_increments.py:9-10 | a missing input raises `FileNotFoundError` naming it and changes nothing |
| StructureIncrements.EmptySweep | scripts/methane_o2_structure_increments.py:20-54 | with start > stop, whatever the step, no directory is made and the manifest is empty; writing it fails only when the output directory does not exist |
| StructureIncrements.FirstStepFails | scripts/methane_o2_structure_increments.py:23-31 | when the first value's atom lines fail, the sweep raises that error before any write |
| StructureIncrements.MalformedAtomAborts | scripts/methane_o2_structure_increments.py:24-31 | one malformed atom line makes the whole run raise with nothing written, whatever the step |
| StructureIncrements.FinishWrites | scripts/methane_o2_structure_increments.py:52-54 | after the sweep's writes, the manifest write succeeds exactly when the output directory exists or was made. It then holds the manifest and changes no other file. On failure nothing has changed |
| StructureIncrements.WellFormedRun | scripts/methane_o2_structure_increments.py:5-54 | for a well-formed input the run fails only when no directory could hold `.list.dirs`. It makes exactly the sweep's directories and lists their names in `.list.dirs`. Each name's `.xyz` and `struc.xyz` hold the header plus the atom lines for its last value. No other file changes |
| Numbers.ParseFormatFixed | scripts/methane_o2_structure_increments.py:29-31 | a number formatted with `.Nf` reads back as the number rounded to N decimals |
| Numbers.RoundFixedBound | scripts/methane_o2_structure_increments.py:29 | the number a `.Nf` text denotes lies within half a unit of the N-th decimal of the formatted number |
| Elements.NumberOfSymbol | scripts/ctcharge_methaneo2.py:17-137 | the letter-by-letter lookup of element n's lower-case symbol gives n, for n from 0 to 118 |
| Elements.SymbolsDistinct | scripts/ctcharge_methaneo2.py:17-137 | no two elements share a lower-case symbol |
| Elements.InverseInverts | scripts/ctcharge_methaneo2.py:138 | a dict comprehension that inverts a key function without repeats maps each key back to its value and holds nothing else |
| Elements.PseRoundTrip | scripts/ctcharge_methaneo2.py:17-139 | `PSE_NUMBERS[PSE_SYMBOLS[n]] == n` for n in 0..118 and the converse; both maps hold lower-case symbols only |
| Tables.UniqueInOrder | scripts/ctcharge_methaneo2.py:151 | `unique()` lists every value of the column and nothing else, with no repeats |
| Tables.UniqueInOrderOrder | scripts/ctcharge_methaneo2.py:151 | `unique()` lists values in order of first appearance, and returns a column without repeats unchanged |
| Tables.Filter | scripts/ctcharge_methaneo2.py:161-165 | a comprehension with a condition keeps exactly the elements that satisfy it |
| Tables.FilterAppend | scripts/ctcharge_methaneo2.py:161-165 | the comprehension keeps the elements in their relative order |
| Tables.FilterDistinct | scripts/ctcharge_methaneo2.py:161-165 | a comprehension adds no repeats |
| Tables.KeepFirst | scripts/ctcharge_methaneo2.py:187 | `drop_duplicates(subset=key, keep="first")` leaves each key once, and exactly the keys that were there |
| Tables.KeepFirstAreFirsts | scripts/ctcharge_methaneo2.py:187 | every row kept is the first row with its key |
| Tables.KeepFirstInOrder | scripts/ctcharge_methaneo2.py:187 | the rows kept follow the order of their keys' first occurrences |
| Tables.KeepFirstOfDistinct | scripts/ctcharge_methaneo2.py:187 | when no key repeats, nothing is dropped |
| ChargeTable.SelectMethodsMeaning | scripts/ctcharge_methaneo2.py:159-174 | without a flag the methods are unchanged. `--gas` keeps exactly the methods ending in neither `_DIELECTRIC` nor `_CPCM`, and `--solvation` exactly those ending in one of them. Both flags leave none, and no repeat appears |
| ChargeTable.SelectMethodsAppend | scripts/ctcharge_methaneo2.py:159-174 | the selection keeps the methods in their order |
| ChargeTable.DesiredRowsMeaning | scripts/ctcharge_methaneo2.py:177 | exactly the rows of atom type 8 remain, in their order |
| ChargeTable.GroupSumSameColumn | scripts/ctcharge_methaneo2.py:182-184 | the per-CID sum of a column depends only on the CIDs and that column |
| ChargeTable.SumColumnsKeepsIndex | scripts/ctcharge_methaneo2.py:180-185 | the summing loop keeps every row in place with its CID, atom number and atom type |
| ChargeTable.SumColumnsMeaning | scripts/ctcharge_methaneo2.py:180-185 | after the loop each row is the same row with every method's charge replaced by the sum over its CID's rows in the table before the loop; an earlier column does not disturb a later one |
| ChargeTable.CumulatedRows | scripts/ctcharge_methaneo2.py:179-188 | after the cumulative step each CID appears once, in order of its first row, and its row is that first row with every method's charge summed over the CID |
| ChargeTable.AccumulateKeepsRows | scripts/ctcharge_methaneo2.py:179-188 | every row left has the CID and atom type of an input row |
| ChargeTable.CumulativeStep | scripts/ctcharge_methaneo2.py:179-188 | the step computes `Accumulate`: when some CID repeats, sum per CID and keep the first row of each; otherwise the table is unchanged. Afterwards no CID repeats and the set of CIDs is the same |
| ChargeTable.AccumulatedRows | scripts/ctcharge_methaneo2.py:177-188 | after the two steps no CID repeats and every row has atom type 8 |
| ChargeTable.ParseCidOfDirName | scripts/ctcharge_methaneo2.py:196 | the label of distance v written by the generator converts back to v rounded to 1 decimal |
| ChargeTable.ParseCidDeletesEveryA | scripts/ctcharge_methaneo2.py:196 | every `A` in a label is deleted, not only a trailing one |
| ChargeTable.CidNumbersMeaning | scripts/ctcharge_methaneo2.py:196 | the conversion succeeds exactly when every label reads as a number and gives each row its number; otherwise it raises `ValueError` for a label that does not |
| ChargeTable.ChargeStyle | scripts/ctcharge_methaneo2.py:218-253 | exactly the eleven listed methods have a style; any other name raises `ValueError("Unknown method: <name>")` |
| ChargeTable.ChargeStyleVariants | scripts/ctcharge_methaneo2.py:218-253 | EEQ, EEQ_BC, GFN1-xTB, GFN2-xTB and wB97M-V each share colour and marker with their `_DIELECTRIC`/`_CPCM` variant, and the two labels differ |
| ChargeTable.ChargeStylesMeaning | scripts/ctcharge_methaneo2.py:217-253 | the plot loop gets a style for every method exactly when all are known; otherwise it raises for the first unknown one |
| ChargeTable.ChargePipelineMeaning | scripts/ctcharge_methaneo2.py:151-198 | `main` plots exactly when every CID label is a number and every selected method has a style, and raises `ValueError` otherwise. The plot has one row per CID, all of atom type 8, each at the distance its label names, and one style per method, with no method twice |
| ChargeTable.ChargeMain | scripts/ctcharge_methaneo2.py:144-198 | `main` step by step computes `ChargePipeline`, and its rows have distinct CIDs |
| EnergyTable.ShiftByZero | scripts/energies_nh4f.py:36 | subtracting 0 changes no cell |
| EnergyTable.LastShiftedBySelf | scripts/energies_nh4f.py:36-38 | a column rebased on its own last cell ends in 0, or NaN if that cell was NaN |
| EnergyTable.RebaseFailurePropagates | scripts/energies_nh4f.py:35-38 | once an iteration raises, the rest of the loop does nothing |
| EnergyTable.RebaseShape | scripts/energies_nh4f.py:35-38 | the loop keeps the set of columns and every column's length |
| EnergyTable.RebaseOutcome | scripts/energies_nh4f.py:35-38 | the loop completes exactly when there is no method, or every method and the reference are columns and the table has a row. When the first method is a column, a missing reference raises `KeyError` naming it and an empty table raises `IndexError` |
| EnergyTable.RebaseErrors | scripts/energies_nh4f.py:35-38 | the loop raises only `KeyError` or `IndexError` |
| EnergyTable.RebaseValues | scripts/energies_nh4f.py:35-38 | with distinct methods, columns that are not methods are unchanged and each method's column is shifted once and scaled once. Methods up to and including the reference are shifted by the reference's original last value L. Later ones are shifted by L - L, which is 0, or NaN when L is NaN. The reference ends in L - L |
| EnergyTable.RebaseAroundReference | scripts/energies_nh4f.py:35-38 | with a numeric last reference value, methods up to the reference are rebased on it and converted to kcal/mol; later methods are only converted, and the reference's last entry is 0 |
| EnergyTable.RebaseOnOtherColumn | scripts/energies_nh4f.py:35-38 | a reference column that is not among the methods is left unchanged, and every method is rebased on its last row |
| EnergyTable.EnergyFrame.SetToZero | scripts/energies_nh4f.py:33-38 | the in-place loop's outcome and new columns are those of `Rebase` |
| EnergyTable.EnergyStyle | scripts/energies_nh4f.py:63-88 | exactly the eight listed methods have a style; any other name raises `ValueError("Unknown method: <name>")` |
| EnergyTable.EnergyStyleVariants | scripts/energies_nh4f.py:63-88 | GFN1-xTB, GFN2-xTB, wB97M-V and wB97M-V_dSCF each share colour and marker with their `_CPCM` variant, and the two labels differ |
| EnergyTable.EnergyStylesMeaning | scripts/energies_nh4f.py:62-88 | the plot loop gets a style for every method exactly when all are known; otherwise it raises `ValueError("Unknown method: <name>")` for the first unknown one |
| EnergyTable.EnergyPipelineMeaning | scripts/energies_nh4f.py:32-46 | without `--set-to-zero` (absent or empty) the energies are untouched and `kcal` is false. With it, the columns are those the loop leaves and `kcal` is true. A plot is drawn exactly when the loop completes and every method has a style. Otherwise it raises `KeyError`, `IndexError` or `ValueError` |
| EnergyTable.EnergyPlotMethods | scripts/energies_nh4f.py:25 | the plotted methods are each distinct `Method` value once, in order of first appearance, each in its own style |
| EnergyTable.EnergyMain | scripts/energies_nh4f.py:19-46 | `main` step by step on the frame computes `EnergyPipeline` |

## Left out

- Plotting, the figure set-up, argparse, the verbosity prints, `read_csv`, `to_csv`, and the pandas `pivot`/`reset_index` with its row order. The charge and energy models start from the pivoted table as an input sequence of rows or a map of columns.
- `scripts/diactinide_mindless_molecules.py` is not part of this model. It drives a library that is not in the repository.
- The module-level driver at `scripts/methane_o2_structure_increments.py:57-68` is not modelled; its parameters are inputs of `IncrementAndWriteXyz`.
- Real file I/O is replaced by an in-memory file system (a map from path to text plus a set of directories). OS errors other than a missing file or a missing parent directory (permissions, a file where a directory is expected) are not modelled.
- IEEE-754 floating point is not modelled: numbers are exact reals. `current_y += step` does not drift, so sweep values are exactly start + k·step. `FormatFixed` rounds the exact value half to even, and `HARTREE_TO_KCAL` products are exact.
- StructureIncrements.AtomSelection: because the model has exact reals, there is no negative zero and no rounding when a token is read. A token such as `-0.00000000` reads as 0.0 and is written as `    0.00000000`, while Python writes `   -0.00000000`, so such a line of the written `.xyz` and `struc.xyz` differs from the source's output. Likewise, a y token such as `2.0000000000000001`, which Python reads as 2.0, is not equal to 2.0 in the model, so that oxygen atom is not moved.
- `float()` is modelled on a token without blanks in the forms `[+-]digits[.digits][e[+-]digits]`. `inf`, `nan`, digit separators and surrounding whitespace are not accepted, although Python accepts them.
- `readlines()` splits after `\n` only; universal newlines are not modelled. `str.lower()` is ASCII only.
- StructureIncrements.IncrementAndWriteXyz: requires a run that ends (`RunEnds`). The one case left out is an existing input whose atom lines are all well formed, with step <= 0 and start <= stop. There the source repeats the same iteration forever, and the model does not represent a run that never ends. Every other step <= 0 is covered: start > stop writes an empty `.list.dirs`, a missing input raises `FileNotFoundError`, and a malformed atom line raises in the first iteration.
- A NaN cell is a missing map key (charge table) or `None` (energy table). NaN propagation through `-` and `*` is modelled; pandas' `sum` skipping NaN is modelled as skipping missing keys, with an all-NaN group summing to 0.
- ChargeTable.CidNumbers: the `ValueError` carries the label after deleting `A`, not pandas' exact message.
- EnergyTable.EnergyPipelineMeaning: a `--set-to-zero` value naming the `CID` index column is not modelled (the columns map holds only method columns).
- ChargeTable.ChargeStyle, EnergyTable.EnergyStyle: the colours, markers and labels are stated concretely only for the listed pairs (`ChargeStyleVariants`, `EnergyStyleVariants`); `CEH-v2` has no variant.
