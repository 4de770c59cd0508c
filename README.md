# ShellList: the Gaussian basis of a molecule, evaluated on a grid

`ShellList` holds the contracted Gaussian shells that make up a molecule's
basis set. Each shell sits on an atom, has a kind (S, P, pure or Cartesian
D, F and G), and carries a number of basis functions fixed by its kind.
The list is built once from the raw shell data of a calculation, in input
order. From then on it provides:

- its size and the atom-by-atom layout of its shells and basis functions;
- the values of all basis functions at a grid point;
- the packed lower triangle of basis-function pair products;
- the electron densities of registered density matrices, evaluated only
  over the shells that are significant at the point;
- the values of registered molecular orbitals;
- a bounding box;
- a per-kind count of its shells.

The model is one Dafny module per concern:

- `Shells`: shell kinds and their basis counts, and the shell record.
- `PackedTriangle`: packed lower-triangle indexing, as used for the overlap,
  pair and density arrays.
- `BasisLayout`: basis offsets, the basis vector at a point, the significant
  subset, the atom offsets and the kind tally.
- `ShellConstruction`: the input record, the primitive cursor and the mapping
  from input shell codes to shells.
- `Density`: the density sum over the significant subset and over the full
  basis, and their equality.
- `Orbitals`: an orbital's value as a dot product with the basis vector.
- `Bounds`: the bounding box as the tightest box around the shells' boxes.
- `Data`: the class `ShellList`, whose fields and arrays are updated by
  methods proved against the functions above.

The two operations a shell does for itself are parameters, because they are
outside the list. One is `Shell::evaluate`, which returns nothing for a
negligible shell and otherwise one value per basis function. The other is
`Shell::boundingBox`.

The density loop of `densityValues` weights each off-diagonal pair by 4. It
computes `xij = 2·xi·xj` at line 353 and then adds `2·xij·D[Ti+jj]` at line
357. The symmetric quadratic form `Σi Σj xi·xj·Dij` weights each
off-diagonal pair by 2, and so does `shellPairValues` at line 299 (a single
factor `2.0·xi·xj`). The model follows the code: `DensityValues` states the
value the loop computes and relates it to the quadratic form (see
"## Findings").

## Model

| member | source | states |
|---|---|---|
| Shells.KindBasisCountClosedForm | src/Data/ShellList.C:159-168 | The per-kind weights used by the count table (1, 3, 5, 6, 7, 10, 9, 15) are 2l+1 for pure kinds and (l+1)(l+2)/2 for Cartesian kinds. |
| PackedTriangle.TriFormula | src/Data/ShellList.C:192-197 | n(n+1) is always even, and n(n+1)/2 (in either operand order) equals the packed-triangle size, so resize never takes its round-error branch. |
| PackedTriangle.PairIndexInRange | src/Data/ShellList.C:295-303 | Slot Ti+j of a pair j <= i < n lies inside the n(n+1)/2 packed array. |
| PackedTriangle.RowsBelow | src/Data/ShellList.C:295-303 | Every pair (i, j) with j <= i < n has its slot below the packed size. |
| PackedTriangle.PairIndexInjective | src/Data/ShellList.C:293-303 | Distinct pairs j <= i land in distinct packed slots, so no pair product overwrites another. |
| PackedTriangle.PairIndexOnto | src/Data/ShellList.C:293-303 | Every slot below n(n+1)/2 belongs to some pair j <= i < n, so the pair loop fills the whole array. |
| PackedTriangle.TriMonotone | src/Data/ShellList.C:295-303 | Packed sizes grow with the row count, so row i stays inside an array sized for n > i rows. |
| BasisLayout.OffsetStep | src/Data/ShellList.C:254-259 | The first basis index of shell s+1 is that of shell s plus shell s's basis count. |
| BasisLayout.OffsetMonotone | src/Data/ShellList.C:254-259 | Basis offsets never decrease along the list and never exceed the basis size. |
| BasisLayout.TotalBasisAppend | src/Data/ShellList.C:119-126 | The basis size of two concatenated lists is the sum of their sizes. |
| BasisLayout.BasisVectorLayout | src/Data/ShellList.C:265-285 | Basis index offset(s)+i holds the i-th value of shell s when it is significant and 0 when it is not, and lies below the basis size. |
| BasisLayout.SigShape | src/Data/ShellList.C:325-337 | The compacted indices strictly increase and lie below the basis size. There is one value per index, and no more of them than basis functions. |
| BasisLayout.SigValuesAt | src/Data/ShellList.C:325-337 | Each compacted value equals the full basis vector at its compacted index. |
| BasisLayout.SigOmittedAreZero | src/Data/ShellList.C:325-337 | Every basis index the compaction leaves out has value 0 in the full basis vector. |
| BasisLayout.SigMatchesBasisVector | src/Data/ShellList.C:325-337 | The compacted pair lists the basis vector exactly: the listed entries match and every unlisted entry is zero. |
| BasisLayout.AtomStartsShape | src/Data/ShellList.C:205-222 | The shell offsets start at 0, never decrease, and never pass the shell count. |
| BasisLayout.ContiguousPrefix | src/Data/ShellList.C:205-222 | Dropping the last shell of a list whose atoms are 0, 1, 2, … in blocks keeps that property. |
| BasisLayout.StartsAtomGrow | src/Data/ShellList.C:205-222 | A position where an atom's block starts stays one when a shell is appended. |
| BasisLayout.AtomStartsContiguous | src/Data/ShellList.C:205-222 | When the atoms come in contiguous blocks 0, 1, 2, …, there is one offset per atom, and offset a is where atom a's first shell sits. |
| BasisLayout.OffsetOfPrefix | src/Data/ShellList.C:224-242 | A shell's basis offset is the same in a prefix of the list as in the whole list. |
| BasisLayout.BasisAtomStartsAreOffsets | src/Data/ShellList.C:224-242 | The basis atom offsets are the basis offsets of the shells at the shell atom offsets. |
| BasisLayout.BasisAtomStartsShape | src/Data/ShellList.C:224-242 | The basis atom offsets start at 0, never decrease, and stay within the basis size. With contiguous atoms, offset a is the first basis function of atom a. |
| BasisLayout.ShellsBelowSplits | src/Data/ShellList.C:205-222 | With sorted atoms, the count of shells on atoms below a splits the list: every earlier shell is on an atom below a, every later one on a or above. |
| BasisLayout.AtomBoundariesStartAtoms | src/Data/ShellList.C:205-222 | With sorted atoms, entry a of the corrected offsets is atom a's first shell whenever atom a has a shell, even if a lower atom has none. |
| BasisLayout.StartsAtomIsShellsBelow | src/Data/ShellList.C:205-222 | With sorted atoms, atom a's first shell sits at the count of shells on lower atoms. |
| BasisLayout.ContiguousMonotone | src/Data/ShellList.C:205-222 | Contiguous atoms never decrease along the list. |
| BasisLayout.AtomStartsAreBoundaries | src/Data/ShellList.C:205-222 | When the atoms run contiguously from 0, the walk of shellAtomOffsets gives exactly the corrected offsets. |
| BasisLayout.AtomStartsSkippedAtom | src/Data/ShellList.C:205-222 | For shells on atoms 0, 2, 2, 3, the walk gives [0, 1, 2, 3], and entry 2 is not atom 2's first shell. The corrected offsets are [0, 1, 1, 3]. |
| BasisLayout.TallyStep | src/Data/ShellList.C:157-168 | Counting one more shell adds one to the count of its kind only. |
| BasisLayout.TallyMatchesTotal | src/Data/ShellList.C:157-172 | The per-kind counts, weighted by the basis count of each kind, give back nBasis, so dump's check always reads OK. |
| BasisLayout.TallyCountsShells | src/Data/ShellList.C:157-168 | The per-kind counts add up to the number of shells. |
| ShellConstruction.PrimStartStep | src/Data/ShellList.C:53-63 | The cursor advances past exactly shellPrimitives[s] primitives for input shell s. |
| ShellConstruction.PrimStartMonotone | src/Data/ShellList.C:53-63 | The primitive cursor never moves backwards. |
| ShellConstruction.PrimRangesTile | src/Data/ShellList.C:41-63 | Every primitive below the cursor's position after m input shells lies in the range of exactly one of them, so each exponent and coefficient is read once. |
| ShellConstruction.PrimRangesDisjoint | src/Data/ShellList.C:53-63 | The primitive ranges of two different input shells share no primitive. |
| ShellConstruction.PrimRangesCover | src/Data/ShellList.C:53-63 | Every primitive the cursor passes belongs to some input shell's range. |
| ShellConstruction.KindDetermined | src/Data/ShellList.C:65-101 | A shell kind is fixed by its angular momentum and whether it is pure. |
| ShellConstruction.Emit | src/Data/ShellList.C:65-101 | Code -1 yields an S shell and a P shell sharing the exponents, with the P shell taking the SP coefficients. Codes 0..4 yield one Cartesian shell of that angular momentum, -2..-4 one pure shell, and any other code nothing. Every emitted shell has the given atom, centre and exponents. |
| ShellConstruction.EmitBasisCount | src/Data/ShellList.C:65-101 | The shells emitted for a code carry 4 basis functions for -1, (l+1)(l+2)/2 for l = 0..4, 2l+1 for -l, and 0 otherwise. |
| ShellConstruction.EmitForShared | src/Data/ShellList.C:50-63 | Every shell built from input shell s sits on atom shellToAtom[s]-1, at that atom's position, with the converted exponents of s's primitive range. |
| ShellConstruction.EmitForBasisCount | src/Data/ShellList.C:65-101 | The basis count of the shells built from input shell s is the closed-form count of its code. |
| ShellConstruction.BuiltBasisCount | src/Data/ShellList.C:41-126 | nBasis of the built list is the sum of the closed-form counts of the input shell codes. |
| ShellConstruction.BuiltShellOrigin | src/Data/ShellList.C:41-101 | Every built shell comes from some input shell, whose atom, position and converted exponents it carries. |
| ShellConstruction.BuiltAtomsSorted | src/Data/ShellList.C:50-51 | If the input atom indices are non-decreasing, so are the built shells' atoms, which the offset lists rely on. |
| Density.FullAddressable | src/Data/ShellList.C:348-364 | With a density vector of n(n+1)/2 entries, every slot Ti+jj that the full basis reads exists. |
| Density.SparseDensityIsFull | src/Data/ShellList.C:318-368 | Summing only over the listed basis functions gives the same density as summing over the full basis, when every unlisted value is zero. |
| Density.OneFunctionDensity | src/Data/ShellList.C:362-364 | With one basis function the density is x²·D00. |
| Density.TwoFunctionDensity | src/Data/ShellList.C:348-364 | With two basis functions the density is x0²·D00 + 4·x0·x1·D01 + x1²·D11. |
| Density.SignificantDensityIsFull | src/Data/ShellList.C:318-368 | The density over the significant shells equals the density over the full basis vector at that point. |
| Density.FormColumn | src/Data/ShellList.C:348-365 | Widening every row of the quadratic form by one column adds that column's sum. |
| Density.ColumnIsRow | src/Data/ShellList.C:348-365 | By symmetry of the packed matrix, column m above the diagonal sums to row m left of it. |
| Density.PairRowIsTwiceRow | src/Data/ShellList.C:296-302 | Below the diagonal, a row of the pair buffer weighted by D is twice that row of the quadratic form. |
| Density.PairsUpToIsForm | src/Data/ShellList.C:296-302 | The first m rows of the pair buffer weighted by D equal the quadratic form over the first m basis functions. |
| Density.PairDensityIsQuadraticForm | src/Data/ShellList.C:293-305 | The pair buffer of shellPairValues (weight 2 off the diagonal) summed against D is the symmetric quadratic form. |
| Density.OffDiagonalIsTwicePairs | src/Data/ShellList.C:352-358 | Each off-diagonal term of the density loop is twice the pair buffer's term for the same pair. |
| Density.RowsUpToSplit | src/Data/ShellList.C:348-365 | The loop's first m rows equal the pair-buffer density of those rows plus their off-diagonal pair terms once more. |
| Density.FullDensitySplit | src/Data/ShellList.C:348-365 | The loop's density is the symmetric quadratic form plus the sum of 2·xi·xj·Dij over the pairs j < i. |
| Density.TwoFunctionPairDensity | src/Data/ShellList.C:293-305 | With two basis functions, the weight-2 density and the quadratic form are x0²·D00 + 2·x0·x1·D01 + x1²·D11. |
| Density.DensityWeightCounterexample | src/Data/ShellList.C:353-357 | For unit values on two functions and D = [0, 1, 0], the quadratic form is 2 and the loop gives 4. |
| Orbitals.OrbitalValueStep | src/Data/ShellList.C:392-405 | A significant shell adds the dot product of its values with its block of coefficients. A negligible shell adds nothing, but still advances the offset. |
| Orbitals.DotAtZeros | src/Data/ShellList.C:396-403 | Zero values contribute nothing to an orbital. |
| Orbitals.DotAtAppend | src/Data/ShellList.C:396-404 | A dot product over a concatenation splits into the two blocks, the second read at the first's length. |
| Orbitals.DotAtPrefix | src/Data/ShellList.C:396-404 | A partial dot product only reads the prefix it covers. |
| Orbitals.OrbitalIsDot | src/Data/ShellList.C:379-408 | The orbital value accumulated shell by shell equals the coefficient row dotted with the full basis vector. |
| Bounds.WidenContains | src/Data/ShellList.C:140-148 | One widening step covers both the old box and the shell's box. |
| Bounds.ContainsTransitive | src/Data/ShellList.C:140-148 | Box containment is transitive. |
| Bounds.WidenAllContains | src/Data/ShellList.C:137-149 | After the loop the box covers the starting box and every shell's box. |
| Bounds.WidenAllAttained | src/Data/ShellList.C:137-149 | Each side of the final box is a side of the starting box or of some shell's box. |
| Bounds.BoundingBoxTight | src/Data/ShellList.C:129-150 | A non-empty list's box contains every shell's box, and each of its six sides is a side of some shell's box. |
| Bounds.SingleShellBox | src/Data/ShellList.C:137-149 | The box of a one-shell list is that shell's box. |
| Data.ReadPrimitives | src/Data/ShellList.C:53-63 | From the cursor on, it reads n exponents multiplied by the conversion factor, n coefficients, and n SP coefficients only when the input has any. |
| Data.AppendShells | src/Data/ShellList.C:65-101 | The list grows by exactly the shells the code maps to. |
| Data.ReadShell | src/Data/ShellList.C:44-101 | One input shell, read at its cursor position, appends exactly the shells built from it. |
| Data.ReadShells | src/Data/ShellList.C:41-101 | The constructed list is the concatenation, in input order, of the shells built from each input shell. The cursor ends after the primitives of all shellTypes shells, within the exponent array. |
| Data.CountBasis | src/Data/ShellList.C:119-126 | The count is the sum of the shells' basis counts. |
| Data.CopyAt | src/Data/ShellList.C:256-258 | The values are written at the offset, and the array before and after them is unchanged. |
| Data.ZeroAt | src/Data/ShellList.C:278-280 | Zeros are written at the offset, and the array before and after them is unchanged. |
| Data.PairRow | src/Data/ShellList.C:293-302 | Row i of the packed pair array gets 2·xi·xj off the diagonal and xi² on it. The running slot counter enters the row at Tri(i) and leaves it at Tri(i+1). Every slot outside row i keeps its value. |
| Data.GatherShell | src/Data/ShellList.C:330-333 | A significant shell appends its values and its consecutive basis indices to the compacted lists. Every other entry of both arrays keeps its value. |
| Data.GatherStep | src/Data/ShellList.C:325-336 | One shell of the compaction extends the compacted lists from the list's first s shells to its first s+1, and leaves the entries after them as they were. |
| Data.AddDensityTerms | src/Data/ShellList.C:356-358 | Every density value gains its weighted matrix entry. |
| Data.AddDensityRow | src/Data/ShellList.C:349-364 | Every density value gains the full contribution of significant row i: the off-diagonal pairs and then the diagonal. |
| Data.AddOrbitalTerms | src/Data/ShellList.C:398-401 | Every selected orbital gains its coefficient at the column times the value. |
| Data.AddShellOrbitals | src/Data/ShellList.C:396-402 | Every selected orbital gains the dot product of the shell's values with its coefficients from the shell's offset on. |
| Data.ShellList.constructor | src/Data/ShellList.C:37-111 | The list is the input shells mapped in order. The overlap matrix is adopted exactly when its size is n(n+1)/2 for the built basis size. The buffers are sized by resize, and no densities or orbitals are registered. |
| Data.ShellList.NBasis | src/Data/ShellList.C:119-126 | nBasis is the total basis count of the list. |
| Data.ShellList.Resize | src/Data/ShellList.C:185-202 | Afterwards the value and index buffers hold nBasis entries and the pair buffer n(n+1)/2, freshly allocated, with everything else unchanged. |
| Data.ShellList.ShellAtomOffsets | src/Data/ShellList.C:205-222 | The result is the shell-position atom offsets, whose shape is stated by AtomStartsShape and AtomStartsContiguous. |
| Data.ShellList.BasisAtomOffsets | src/Data/ShellList.C:224-242 | Each offset is the basis offset of the shell at the matching shell offset. |
| Data.ShellList.ShellValuesAt | src/Data/ShellList.C:248-262 | When every shell is significant at the point, the value buffer holds the full basis vector. |
| Data.ShellList.ShellValues | src/Data/ShellList.C:265-285 | The value buffer holds the basis vector, with zeros for negligible shells. |
| Data.ShellList.ShellPairValues | src/Data/ShellList.C:289-306 | The pair buffer holds 2·xi·xj at slot Ti+j for j < i and xi² at Ti+i, for every pair, with x the basis vector. |
| Data.ShellList.SetDensityVectors | src/Data/ShellList.C:311-315 | The density matrices are registered and one output slot per matrix is allocated. Nothing else changes. |
| Data.ShellList.GatherSignificant | src/Data/ShellList.C:320-337 | The first nSig entries of the value and index buffers are the compacted significant values and indices. The entries from nSig on keep their old values. |
| Data.ShellList.AccumulateDensity | src/Data/ShellList.C:339-365 | Each output is the density sum over the compacted values and indices for its matrix. |
| Data.ShellList.DensityValues | src/Data/ShellList.C:318-368 | Each output equals the loop's density of its matrix over the full basis vector at the point. That is the symmetric quadratic form plus the off-diagonal pair terms once more. The compacted buffers are left as GatherSignificant leaves them. |
| Data.ShellList.SetOrbitalVectors | src/Data/ShellList.C:371-376 | The coefficient matrix and orbital indices are registered and one output slot per orbital is allocated. Nothing else changes. |
| Data.ShellList.OrbitalValues | src/Data/ShellList.C:379-408 | Each selected orbital's value is its coefficient row dotted with the full basis vector at the point. |
| Data.ShellList.BoundingBox | src/Data/ShellList.C:129-150 | The result is the box the source computes. BoundingBoxTight shows it is the tightest box around the shells' boxes, and the origin box for an empty list. |
| Data.ShellList.Dump | src/Data/ShellList.C:153-172 | It returns the per-kind counts and their weighted total, which equals nBasis, so the check is always OK. |

## Findings

| source | as written | input that shows it | evidently intended | confidence | as-written member | corrected member |
|---|---|---|---|---|---|---|
| src/Data/ShellList.C:353-357 | Each off-diagonal pair adds 2·(2·xi·xj)·D[Ti+jj], so off-diagonal density entries count with weight 4 | Basis values [1, 1] and packed density [0, 1, 0]: the loop gives 4 | The symmetric quadratic form, weight 2 off the diagonal, as the pair buffer of line 299 has it: the value 2 | medium, not executed; correct only if callers store off-diagonal density entries halved | Density.DensityWeightCounterexample | Density.PairDensityIsQuadraticForm |
| src/Data/ShellList.C:205-242 | Each shell's atom is compared with a counter that rises by one per recorded entry, so after an atom with no shells, shells are recorded until the counter catches up, and those entries are not their atoms' first shells | Shells on atoms 0, 2, 2, 3: shell offsets [0, 1, 2, 3], and entry 2 is the second shell of atom 2 (entry 3 is right again, since the counter has caught up) | One reading: one entry per atom number, entry a being where atom a's shells begin, [0, 1, 1, 3]. One entry per distinct atom present, [0, 1, 3], fits contiguous input equally well; the model proves the first | low, not executed; needs an atom without shells, e.g. one whose only type codes are unknown | BasisLayout.AtomStartsSkippedAtom | BasisLayout.AtomBoundariesStartAtoms |

The class methods model the code as written. `Data.ShellList.DensityValues`
states both the loop's value and, through `Density.FullDensitySplit`, how it
differs from the quadratic form. `Data.ShellList.ShellAtomOffsets` returns
the walk's offsets, and `BasisLayout.AtomStartsAreBoundaries` proves that they
equal the corrected offsets whenever the atoms run contiguously from 0.

## Left out

- `Shell` internals are not part of this model: evaluation, normalisation and the per-shell bounding box are parameters (`Evaluator`, `BoxQuery`).
- The geometry is a parameter `position`, and the bohr-to-angstrom factor `pow(BohrToAngstrom, -2)` is a parameter `convExponents`.
- Logging is not modelled: the `qDebug` output of the offset lists in resize, the round-error warning and the text of dump.
- Data.ShellList.Dump: returns the per-kind counts and the check result instead of printing them. The source's printout omits the G9 and G15 counts, which the tally still carries.
- `unsigned` arithmetic is unbounded in the model. `(n+1)*n/2`, the cursor and the offsets do not wrap at 2^32.
- An atom index of 0 (which `shellToAtom-1` would wrap) is excluded by `WellFormed`.
- Data.ShellList.Resize: does not state the buffer contents after the resize, which the source leaves unspecified. The model allocates fresh arrays, and `new[]`/`delete[]` and the destructor are not modelled.
- Density matrices and the orbital coefficient matrix are held by pointer in the source. The model stores copies as sequences, so aliasing with the caller is not captured.
- Floating point is modelled as exact `real` arithmetic.
- Data.ShellList.ShellValuesAt: requires every shell to be significant at the point, because the source dereferences the evaluation result without a null check.
- Data.ShellList.ShellPairValues: requires every shell to be significant at the point for the same reason, because line 291 fills the basis values through that same unchecked overload.
- Data.ShellList.DensityValues: requires each registered density vector to have at least n(n+1)/2 entries. The source reads them unchecked.
- Data.ShellList.OrbitalValues: requires the orbital indices to select existing rows of at least nBasis coefficients, which the source reads unchecked.
- ShellList.h (`setOverlapMatrix` and the inline accessors) is not part of this model. The adopted overlap matrix is kept as given, and the constructor states only when it is adopted.
