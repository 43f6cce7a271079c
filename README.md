# Shifting an XSF density, building determinant strings, and an old-maid card pile

This project is a Dafny model of three small programs.

- **shift_density.py** reads an electronic density in the XCrySDen XSF format:
  - the lattice vectors after `PRIMVEC`;
  - the atoms after `PRIMCOORD`;
  - a 3D data grid between `BEGIN_DATAGRID_3D_density` and `END_DATAGRID_3D_density`.

  It translates the atoms by a Cartesian displacement. It converts the displacement into whole grid steps along the three lattice directions, moves every grid value by those steps with wrap-around, and writes the result to `<name>_shifted.xsf`.
- **gen_det.py** builds occupation strings ("determinants"). It starts from the ground state, where the lowest `electrons` of `states` orbitals are occupied. For each hole/particle pair it gets, it writes one excitation line.
- **babanuki.py** holds the card piles of the game old maid (babanuki): a 33-card deck, dealing, discarding, and removing pairs of the same value and the same colour.

## How the model is organised

Each module follows one part of the source.

- `XsfRead` models `read_data`.
  - It splits the file into tokens and looks up markers as `list.index` does.
  - It reads fixed numbers of tokens with a cursor.
  - `Parse` is the specification. `ReadData` is the cursor loop, proved equal to it.
- `GridShift` covers three steps:
  - the truncation in `get_shift`;
  - the destination formula of the scatter loop and its proof of bijectivity;
  - the `Scatter` method on a 3D array.
- `XsfWrite` and `XsfHead` cover the output file:
  - `write_head`, the four-values-per-line loop, and `write_tail`, as methods;
  - each method is proved equal to a text function.
- `XsfAtoms` models the `Atoms` class.
- `ShiftDensity` models `main`.
  - `Shift` describes the whole run as a function of the answers to the two prompts and the file contents.
  - `ShiftMain` performs the same steps as the source and is proved equal to `Shift`.
- `GenDet` models `convert_integer_list`, `build_excitation`, the ground state and the answer loop.
- `Babanuki` models `samecolor`, the `Card`, `Pile` and `Deck` classes, and dealing.
- The supporting modules are:
  - `Tokens`: `str.split()` and `list.index`;
  - `Numerals`: `str` and `int` on integers;
  - `Lattice`: the inverse of the cell;
  - `DivMod`: arithmetic facts;
  - `Wrappers`: `Option` and `Result`.

Some parts of the source are not computable in Dafny, so the model takes them as parameters:

- Python's `float()` is `toFloat: string -> Option<real>`, where `None` means `ValueError`.
- The fixed-width float formats `:11.8f` and `:10.8f` are `fmt11` and `fmt10`, of type `real -> string`.
- The answers to `input()` are strings passed in.
- The shuffled deck is a given order.

Real arithmetic is exact.

The grid shift works on the full `nx × ny × nz` grid, exactly as the source does. The source has no separate interior grid and does not rebuild periodic boundary samples. One difference: the model allocates the grid in the corrected shape `(nz, ny, nx)`, the shape the source's indexing uses, where the source allocates `(nx, ny, nz)` (see Findings).

## Model

| member | source | states |
|---|---|---|
| XsfWrite.OutputName | shift_density.py:59 | the output name is the input name minus its last four characters (all of it when it is shorter) followed by `_shifted.xsf` |
| XsfWrite.OutputNameXsf | shift_density.py:59 | `<stem>.xsf` becomes `<stem>_shifted.xsf` |
| Tokens.Split | shift_density.py:70 | `str.split()` yields only non-empty tokens free of whitespace |
| Tokens.SplitAppend | shift_density.py:70 | splitting a text whose two parts meet at a blank splits each part separately |
| Tokens.SplitJoin | shift_density.py:70 | tokens joined with blanks split back into the same tokens |
| Tokens.IndexOf | shift_density.py:71 | `list.index` gives the first position holding the marker, and fails exactly when the marker is absent |
| Tokens.IndexOfAppend | shift_density.py:71 | the first occurrence in a concatenation lies in the first part when that part holds it, and otherwise is offset by the first part's length |
| XsfRead.Find | shift_density.py:71 | a marker lookup fails with that marker's name exactly when the marker is missing |
| XsfRead.ConvertOk | shift_density.py:73-76 | reading `n` tokens from the cursor succeeds exactly when all `n` exist and convert, and value `k` is token `cursor + k` converted |
| XsfRead.RowsAt | shift_density.py:71-76 | nine tokens after `PRIMVEC` fill the cell row-major: entry `(i, j)` is token `cursor + 3i + j` |
| XsfRead.ReadTokens | shift_density.py:73-76 | the cursor loop returns the specified conversion and leaves the cursor `n` further on |
| XsfRead.ReadAtomsOk | shift_density.py:84-89 | atom `k` is the label at `cursor + 4k` and the three numbers after it |
| XsfRead.ReadAtomList | shift_density.py:84-89 | the `for i in range(nat)` loop returns the atoms that reading four tokens per atom specifies, or the same error |
| XsfRead.AtomsOk | shift_density.py:79-90 | the atom count is the token after `PRIMCOORD`, one token is skipped, and there are `nat` labels and `nat` coordinate rows in four-token groups |
| XsfRead.ReadAtomBlock | shift_density.py:79-90 | the atom-reading loop computes the atom block of the specification |
| XsfRead.GridOk | shift_density.py:91-106 | the grid header is three counts, three origin numbers and nine basis numbers; the basis replaces the cell; the values are exactly the tokens from there up to the first `END_DATAGRID_3D_density` |
| XsfRead.ReadGridBlock | shift_density.py:91-106 | the grid-reading loops compute the grid block of the specification |
| XsfRead.Parse | shift_density.py:63-106 | a missing marker (`PRIMVEC`, `PRIMCOORD`, `BEGIN_DATAGRID_3D_density`, `END_DATAGRID_3D_density`) is an error; on success the atom count matches the labels and the rows |
| XsfRead.ParseOk | shift_density.py:71-106 | a successful read took the cell, atoms and grid from the token positions that the source's cursor visits |
| XsfRead.ReadData | shift_density.py:63-106 | `read_data` returns what `Parse` specifies, or the same error |
| Lattice.FractionalBack | shift_density.py:117 | `delta @ inv(cell)` expresses `delta` in lattice vectors: multiplying back by the cell gives `delta` |
| Lattice.FractionalZero | shift_density.py:117 | a zero displacement has zero fractional coordinates |
| GridShift.GridOffsets | shift_density.py:124-125 | each offset is `rotated[i] * nind[i]` truncated toward zero |
| GridShift.ZeroDisplacementOffsets | shift_density.py:124-125 | a zero displacement gives offsets `(0, 0, 0)` |
| GridShift.Dest | shift_density.py:188-194 | the destination cell of value number `count` lies inside the grid |
| GridShift.DestIsMove | shift_density.py:189-194 | the destination is the cell at position `count` in file order, moved by the offsets with wrap-around |
| GridShift.DestSrc | shift_density.py:188-196 | every cell receives the value whose number `Src` gives |
| GridShift.SrcDest | shift_density.py:188-196 | `Src` undoes `Dest` on the numbers of one full grid |
| GridShift.DestBijective | shift_density.py:188-196 | the scatter maps the numbers of one full grid one-to-one onto the cells |
| GridShift.WrittenPrefix | shift_density.py:188-196 | after at most one grid of values, a cell holds its source value if that value was read, and zero otherwise |
| GridShift.ShiftedFull | shift_density.py:188-196 | for a full grid, the value at file position `p` after the shift is the one read at the position of the cell that moved to `p` |
| GridShift.ZeroShiftIdentity | shift_density.py:188-196 | zero offsets leave a full grid in its original order |
| GridShift.ShiftCompose | shift_density.py:188-196 | shifting by `a` and then by `b` is shifting by `a + b` |
| GridShift.ShiftBack | shift_density.py:188-196 | shifting by the opposite offsets restores the grid |
| GridShift.Scatter | shift_density.py:186-196 | the scatter loop leaves every cell holding the last value sent to it, and the array in file order is the shifted layout |
| GridShift.AsWrittenOutOfBounds | shift_density.py:186-195 | with the shape the source allocates, a 2×1×1 grid stores out of bounds |
| GridShift.AsWrittenInBoundsIffCubic | shift_density.py:186-195 | with the shape the source allocates, every store is in bounds exactly when `nx == nz` |
| GridShift.AsWrittenReadOutOfBounds | shift_density.py:202-205 | with the shape the source allocates (line 186), the writer loop of a 2×1×1 grid reads `data[0, 0, 1]`, out of bounds, whatever the values |
| GridShift.AsWrittenReadsInBoundsIffCubic | shift_density.py:202-205 | with the shape the source allocates (line 186) and for positive counts, every read of the writer loop is in bounds exactly when `nx == nz` |
| ShiftDensity.Translated | shift_density.py:181-183 | every coordinate component `j` of every atom increases by `delta[j]` |
| ShiftDensity.TranslateAtoms | shift_density.py:181-183 | the loop translates every atom in place and leaves the labels and the count unchanged |
| ShiftDensity.TranslatedZero | shift_density.py:181-183 | a zero displacement leaves the atoms where they are |
| ShiftDensity.TranslatedBack | shift_density.py:181-183 | translating by `-delta` undoes translating by `delta` |
| ShiftDensity.TranslatedCompose | shift_density.py:181-183 | two translations compose into one by the sum |
| ShiftDensity.ParseShift | shift_density.py:55-58 | the shift is read exactly when the first three tokens of the answer exist and are numbers |
| ShiftDensity.GridValues | shift_density.py:186-195 | the values are stored exactly when no count is negative, no count is zero (unless there is no value at all) and every value is a number |
| ShiftDensity.Shift | shift_density.py:175-214 | a successful run writes to the derived output name |
| ShiftDensity.ShiftZero | shift_density.py:175-214 | with a zero displacement and a full grid, the output repeats the input's atoms and values in their original order |
| ShiftDensity.ShiftUndone | shift_density.py:186-196 | the written grid, shifted back by the opposite offsets, is the grid that was read |
| ShiftDensity.ShiftMain | shift_density.py:175-214 | `main` produces the output that `Shift` specifies, or stops with the same error |
| ShiftDensity.ShiftAndWrite | shift_density.py:180-214 | once the file is read, translating the atoms, computing the offsets, scattering the values and writing the output give what `ShiftRead` specifies, or its error |
| ShiftDensity.ScatterValues | shift_density.py:186-196 | storing the values fails exactly when converting them fails, with the same error, and otherwise leaves the shifted grid in file order |
| XsfHead.RowsAll | shift_density.py:143-146 | the `range(3)` loop writes the three cell vectors, one line each |
| XsfHead.AppendRows | shift_density.py:143-146 | the cell-writing loop appends the three cell lines |
| XsfHead.AppendAtoms | shift_density.py:149-153 | the atom-writing loop appends one line per atom, in order |
| XsfHead.WriteHead | shift_density.py:130-164 | `write_head` writes the header lines, the cell, the atoms, the counts, the origin and the cell again |
| XsfHead.WriteTail | shift_density.py:167-172 | `write_tail` writes the two closing lines |
| XsfWrite.CellsSnoc | shift_density.py:204-211 | one more value appends its text and its separator |
| XsfWrite.FullLine | shift_density.py:205-209 | four values fill a line that ends in a line break and the next indentation |
| XsfWrite.GridTextIsLines | shift_density.py:200-213 | the value text is four values per line with three-blank separators, and it ends with a line break only after a partial line |
| XsfWrite.SplitGrid | shift_density.py:200-213 | the value text splits back into the tokens of the values, in file order |
| XsfWrite.TokensOfWords | shift_density.py:205 | when every formatted value is a single token, the tokens are the formatted values |
| XsfWrite.EmitValue | shift_density.py:205-211 | one step of the loop appends the value and its separator, and the counter wraps after four |
| XsfWrite.WriteRow | shift_density.py:204-211 | the innermost loop extends the value text by the samples of one row, in order, and keeps the counter at the position within the current line |
| XsfWrite.WriteGrid | shift_density.py:200-213 | the loop writes the grid in z-outer, y, x-inner order as the value text |
| XsfAtoms.Atoms.constructor | shift_density.py:18-29 | the object holds copies of the count, the labels and the coordinates; it is consistent exactly when the three agree |
| XsfAtoms.Atoms.AddAtom | shift_density.py:38-46 | one label and the given rows are appended and the count grows by one; consistency is kept exactly when one row is given |
| XsfAtoms.Atoms.ShiftCoord | shift_density.py:31-36 | as written, component `i` of the shift is added to every component of row `i` for `i` in 0..2; with fewer than three rows it fails |
| Numerals.IntString | shift_density.py:148 | `str(n)` is a sign (for negatives) and decimal digits without a leading zero |
| Numerals.ParseInt | shift_density.py:80 | `int(token)` accepts an optional sign and decimal digits, and nothing else |
| Numerals.ParseIntString | shift_density.py:80 | `int(str(n)) == n` |
| Numerals.IntStringInjective | shift_density.py:157 | different integers are written differently |
| GenDet.ConvertIntegerList | gen_det.py:13-21 | the loop builds the in-order concatenation of `str(x)` |
| GenDet.ConcatBinary | gen_det.py:13-21 | for a 0/1 list the string has one digit per element, the element's digit |
| GenDet.PyIndex | gen_det.py:32-34 | a negative index counts from the end |
| GenDet.Excited | gen_det.py:32-34 | the copy has the same length, a 1 at the particle, a 0 at the hole when the two differ, and every other entry unchanged |
| GenDet.BuildExcitation | gen_det.py:24-40 | `build_excitation` returns a fresh array holding the excitation and leaves the input alone; the text is the excitation's digits plus the warning as specified |
| GenDet.SumUpdate | gen_det.py:35-36 | changing one entry changes the sum by the difference |
| GenDet.ExcitedSum | gen_det.py:32-36 | the electron count of the excitation, from the entries at the hole and the particle |
| GenDet.ExcitationConserves | gen_det.py:27-36 | moving an electron from an occupied hole to an empty particle keeps the electron count, and no warning is added |
| GenDet.ExcitationWarns | gen_det.py:35-39 | for 0/1 states and distinct indices, the warning is added exactly when the hole and the particle hold the same occupation |
| GenDet.GroundState | gen_det.py:55-56 | the ground state has `states` entries, each 0 or 1, and entry `n` is 1 exactly when `n < electrons` |
| GenDet.GroundStateCount | gen_det.py:55-56 | the ground state holds `min(electrons, states)` electrons |
| GenDet.Answer | gen_det.py:61-73 | an answer is rejected exactly when it holds two integers outside `[0, states - 1]`, and becomes a line exactly when they are inside |
| GenDet.RejectWritesNothing | gen_det.py:66-70 | a rejected answer adds nothing to the file |
| GenDet.GroundExcitation | gen_det.py:55-71 | exciting from an occupied to an empty orbital of the ground state gives a string without the warning and with the same electron count |
| GenDet.SessionLines | gen_det.py:58-75 | the file is the concatenation of `t + "\n"` over the written replies, in order, of the answers before the first answer that ends the loop (an invalid answer writes nothing and the loop goes on) |
| GenDet.FirstStop | gen_det.py:59-75 | the index of the first reply that ends the loop, or the number of replies when none does; no reply before it ends the loop |
| GenDet.Prompt | gen_det.py:61-73 | one round of the loop classifies the answer as specified and computes its line |
| GenDet.Run | gen_det.py:58-75 | the loop writes the file that `Session` specifies |
| Babanuki.SameColorCases | babanuki.py:20-27 | two suits have the same colour exactly when they are hearts and diamonds or clubs and spades, in either order |
| Babanuki.SameColorSymmetric | babanuki.py:20-27 | the colour test is symmetric and false for a suit and itself |
| Babanuki.Card.constructor | babanuki.py:34-36 | a card keeps its suit and value |
| Babanuki.Card.StrCases | babanuki.py:38-42 | a card prints as `Joker!` exactly when it is the joker, and as `<value> of <suit>` otherwise |
| Babanuki.Pile.constructor | babanuki.py:49-51 | a new pile is empty and consistent |
| Babanuki.Pile.Add | babanuki.py:65-67 | `add` appends the card at the end and keeps `ncards` equal to the number of cards |
| Babanuki.RemoveFirstCount | babanuki.py:69-71 | removing a card takes out exactly one copy of it, and an absent card changes nothing |
| Babanuki.Pile.Discard | babanuki.py:69-71 | `discard` succeeds exactly when the card is in the pile, then removes its first occurrence and keeps the count; otherwise nothing changes |
| Babanuki.Pile.CollectPairs | babanuki.py:73-78 | the nested loops collect exactly the cards that have a partner in the pile |
| Babanuki.Pile.RemovePairs | babanuki.py:73-80 | exactly the partnered cards leave the pile, and for a pile without repeated cards the rest stay in order |
| Babanuki.WithoutMembers | babanuki.py:79-80 | a card remains exactly when it was there and was not removed |
| Babanuki.RemoveFirstWithout | babanuki.py:79-80 | discarding the collected cards one at a time removes them from the pile |
| Babanuki.NoPairLeft | babanuki.py:73-80 | after the pairs are removed, no two remaining cards have the same value and same-coloured suits |
| Babanuki.PairsRemoved | babanuki.py:74-80 | a card stays exactly when it has no partner, so the joker always stays |
| Babanuki.Deck.constructor | babanuki.py:87-96 | a new deck has 33 distinct cards: the 4 × 8 suit and value product in order, then the joker |
| Babanuki.AddSuit | babanuki.py:90-92 | the inner loop appends the eight cards of one suit, value by value, keeping the cards distinct |
| Babanuki.EvensAt | babanuki.py:100-107 | the first hand gets the cards at even positions, in order |
| Babanuki.OddsAt | babanuki.py:100-107 | the second hand gets the cards at odd positions, in order |
| Babanuki.DealKeepsAll | babanuki.py:100-107 | together the two hands hold every card of the deck |
| Babanuki.Deck.Deal | babanuki.py:98-107 | dealing a shuffled order gives two fresh, consistent hands with the even and the odd positions; a deck without repeated cards deals hands without repeated cards |
| Babanuki.EvensDistinct | babanuki.py:102-104 | a deck without repeated cards deals a first hand without repeated cards |
| Babanuki.OddsDistinct | babanuki.py:102-106 | a deck without repeated cards deals a second hand without repeated cards |
| Babanuki.PermutationDistinct | babanuki.py:99 | shuffling a deck without repeated cards leaves none repeated |

## Left out

- Input, output and prompts are not modelled as effects. The file name, the shift line, the file contents and the gen_det answers are parameters. The file contents are returned as text. The gen_det state and excitation counts are integer parameters: the `ValueError` that `int()` raises on a count that is not an integer (gen_det.py:51-52), before the output file is opened, is not modelled.
- The `print` calls are left out. They only echo intermediate values.
- Floating point is left out. `float()` and the `:11.8f` / `:10.8f` formats are the parameters `toFloat`, `fmt11` and `fmt10`. Arithmetic on coordinates, on the cell and in `delta @ inv(cell)` is exact arithmetic on reals.
- Lattice.Singular: the model's test is the exact-arithmetic `det == 0`. `numpy.linalg.inv` instead fails on a zero pivot of its floating-point LU factorisation, and that can disagree with the exact test in either direction: the rows (1,2,3), (4,5,6), (7,8,9) usually get a huge "inverse" with no error, while the model reports `SingularCell` / `SingularBasis`. This follows from leaving floating point out.
- The numpy array of values is a real array, and converting a value token happens as the scatter stores it. The model converts all values first and then scatters. No other output happens between the two, so the effect is the same.
- Numerals.ParseInt: `int()` also accepts underscores between digits and non-ASCII decimal digits. These forms are not modelled.
- `random.shuffle`, `random.choice` and the interactive game loop of babanuki.py are left out. `Deal` takes the shuffled order as its argument.
- `Pile.__str__` and `printcards` of babanuki.py are left out. They only format text for the screen.
- Babanuki.Deck: in the source, `Deck` inherits `add`, `discard` and `remove_pairs` from `Pile`. The game applies those only to the hands, so the `Deck` class here has only its constructor and `Deal`.
- Babanuki.Pile.RemovePairs: the order of the remaining cards is stated only for a pile without repeated cards, as every pile dealt from a new deck is (`Deck.Deal`). With repeated objects, only the multiset of remaining cards is stated.
- GenDet.BuildExcitation: indices must be valid Python indices, between `-n` and `n - 1`. An `IndexError` for other indices is not modelled. The range check in `main` only passes indices in `[0, n - 1]`.
- The `try`/bare `except` that ends the gen_det loop is modelled as a `Stop` answer: one that does not hold two integers.
- Python's default arguments of `Atoms.__init__` (`nat=1`, `at_types=[1]`, `at_coord=[[0,0,0]]`, shift_density.py:18-23), `add_atom` (line 38) and `shift_coord` (`shift=[0,0,0]`, line 31) are not modelled: every argument is passed explicitly, and `main` never relies on a default.
- XsfAtoms.Atoms.ShiftCoord: modelled as written. It adds `shift[i]` to all of row `i` for the first three rows, and `main` never calls it.

## Findings

| source | as written | input that shows it | evidently intended | confidence | as-written member | corrected member |
|---|---|---|---|---|---|---|
| shift_density.py:186 | `data = numpy.zeros((nx, ny, nz))`, then `data[iz][iy][ix] = value` at line 195, and the writer loop at lines 202-205 reads `data[i,j,k]` with `i < nz`, `k < nx` | counts `nx = 2, ny = 1, nz = 1`, zero offset: value 1 goes to `data[0][0][1]` of a `(2, 1, 1)` array, which raises `IndexError`; the writer loop reads the same out-of-range `data[0,0,1]`, so whenever all three counts are positive and `nx != nz` it raises `IndexError` even with no values, after the head and part of the grid are written | allocate `(nz, ny, nx)`, the shape the indexing and the writer's `data[i,j,k]` loops (z, y, x) use | high (not executed) | GridShift.AsWrittenOutOfBounds, GridShift.AsWrittenInBoundsIffCubic, GridShift.AsWrittenReadOutOfBounds, GridShift.AsWrittenReadsInBoundsIffCubic | GridShift.Scatter |
