# Paranoia organisation engine, modelled in Dafny

Paranoia is a tool for organising a live "assassination" game: every player
secretly receives one other player as their target, plus a set of randomly
distributed extras (weapon, place, …). Its core is `_create_orga`, which
turns a list of declared data fields and one data file per field into the
organisation table:

1. **Validation.** Field names must be unique and exactly one field must be
   the player field (`CheckSchema`). Every field needs a data file; each file
   is read line by line, every line stripped of surrounding whitespace and
   blank lines dropped (`LoadFieldData`, `CleanLines`). The number N of
   player entries then fixes the game size, and every field's entry count is
   checked against it: the player field may not be marked `can_repeat` or
   `can_skip`, a field not marked `can_skip` may not have more than N
   entries, a field not marked `can_repeat` may not have fewer
   (`CheckCounts`).
2. **Generation.** The ids 0 .. N-1 are shuffled, the players are shuffled,
   and the targets are the shuffled players rotated left by one. Every other
   field's entries are sized to exactly N values (sampled down, extended by
   draws with replacement, or sampled when the field is both repeatable and
   skippable) and shuffled (`GenerateLists`, `SizeColumns`, `SizedColumn`).
3. **Assembly.** The lists are transposed into one row per participant,
   `(id, player, target, values…)`, and the rows are sorted; the source then
   asserts N rows of width 2 + number of fields (`Assemble`, `CreateOrga`).

Each abort of the source is an `Err` of `Fields.OrgaError` naming the
violated rule: the `_error_out` calls, the missing data file, and the
exceptions the standard library raises on its own (indexing an empty player
list, `random.sample` of more entries than there are, `random.choices` from
an empty list). The random calls are modelled by their contracts only: each
call may return any value its contract allows, so everything proved holds
for every outcome of the draws.

Modules: `Wrappers` (Option, Result), `Seqs` (ranges, maps, sortedness,
distinctness, permutations), `Fields` (`DataField`, the error type, schema
checks), `Lines` (whitespace stripping and cleaning of data files), `Random`
(shuffle, sample, choices), `Targets` (the rotation), `Table` (rows,
transpose, sort, following targets), `Orga` (the pipeline).

Behaviours of the code worth knowing, which the model keeps:

- A row has `3 + (number of non-player fields)` entries, which is
  `2 + len(fields)` because `fields` includes the player field; the code
  asserts the latter (paranoia.py:137).
- The code does not reject a game of one player: the lone player becomes their own
  target (`Targets.RotateSingle`, and the `n == 1` clause of
  `Orga.IsOrganization`).
- A field that is both repeatable and skippable and has fewer than N entries
  is not caught by validation; `random.sample` raises during generation
  (`Orga.SizingFailure`), after the ids and players have been shuffled.
- The code does not check player names for repeats. The single cycle and
  the absence of self-targets are therefore proved for distinct player
  names only; with a repeated name two rows share a player and following
  targets is no longer a function of the name. What holds for every list of
  names is proved as well: the rows can be ordered so that each targets the
  next one's player (`Table.Rotatable`).

## Model

| member | source | states |
|---|---|---|
| Fields.CheckSchema | paranoia.py:63-77 | succeeds exactly when the names are pairwise distinct and exactly one field is the player field; repeated names are reported first, with the set of repeated names, then a wrong player-field count; on success the value is a declared name and a field is the player field exactly when it has that name |
| Fields.NameSetSize | paranoia.py:64 | the set of names has as many elements as there are fields exactly when the names are pairwise distinct, so the cardinality test is the uniqueness test |
| Fields.UniqueCons | paranoia.py:64 | a list of fields has unique names exactly when the first name does not recur and the rest have unique names |
| Fields.Duplicates | paranoia.py:65-71 | the reported names are declared names; DuplicatesEmpty gives when the set is empty |
| Fields.DuplicatesEmpty | paranoia.py:65-71 | the reported set of repeated names is empty exactly when the names are pairwise distinct |
| Fields.PlayerNames | paranoia.py:74-77 | a name is listed exactly when some field flagged as player has it |
| Fields.SinglePlayerField | paranoia.py:74-77 | unique names, and the player fields being exactly the fields called `player`, give the single player name `player` |
| Fields.NoPlayerField | paranoia.py:74 | without a player flag among the fields no player name is found |
| Fields.NonPlayerFields | paranoia.py:115-117 | the fields that get a column are exactly the declared fields not flagged as player |
| Fields.NonPlayerFieldsSnoc | paranoia.py:115-117 | declaring one more field adds it to the column fields unless it is the player field |
| Fields.FieldPartition | paranoia.py:137 | player fields and column fields together account for every declared field |
| Fields.PlayerNamesAppend | paranoia.py:74-77 | the player names of two field lists joined are the two lists of player names joined |
| Lines.TrimStart | paranoia.py:87 | cuts a whitespace prefix and nothing else; what is left does not start with whitespace |
| Lines.TrimEnd | paranoia.py:87 | cuts a whitespace suffix and nothing else; what is left does not end with whitespace |
| Lines.Strip | paranoia.py:87 | the stripped line is no longer than the line and neither of its ends is whitespace |
| Lines.StripCutsSpace | paranoia.py:87 | the stripped line is a contiguous slice of the line and everything cut off on either side is whitespace |
| Lines.StripUnique | paranoia.py:87 | stripping any whitespace prefix and suffix off a part with non-whitespace ends gives that part back |
| Lines.StripIdempotent | paranoia.py:87 | stripping twice is stripping once |
| Lines.CleanLines | paranoia.py:87 | a file has no more entries than lines |
| Lines.CleanLinesTrimmed | paranoia.py:87 | every entry is non-empty and has no whitespace at either end |
| Lines.CleanLinesAppend | paranoia.py:87 | cleaning works line by line, so the entries keep the order of their lines |
| Lines.CleanLinesMember | paranoia.py:87 | a string is an entry exactly when it is non-empty and the stripped form of some line |
| Random.Shuffle | paranoia.py:107 | a shuffle returns a rearrangement of the same entries |
| Random.Sample | paranoia.py:121 | sampling k entries fails exactly when k exceeds the population; otherwise it gives k entries forming a sub-multiset of the population |
| Random.Choices | paranoia.py:123 | k draws with replacement fail exactly when k > 0 and the population is empty; otherwise they give k entries, each in the population |
| Seqs.MapPermutation | paranoia.py:134 | reordering the rows reorders any component read from them the same way: equal multisets of rows give equal multisets of components |
| Seqs.SortedUnique | paranoia.py:134 | two sorted arrangements of the same multiset are equal |
| Seqs.SortedPermutationOfRange | paranoia.py:106-134 | sorted, a rearrangement of 0 .. N-1 is 0 .. N-1 again |
| Seqs.DistinctCounts | paranoia.py:110 | in a sequence without repeats every value occurs at most once |
| Seqs.DistinctPermutation | paranoia.py:110 | shuffling keeps a sequence free of repeats |
| Targets.RotateLeft | paranoia.py:112 | the target list has N entries and entry i is player (i + 1) mod N |
| Targets.RotatePermutation | paranoia.py:112 | the targets are the players rearranged: everybody is somebody's target exactly once |
| Targets.RotateNoFixedPoint | paranoia.py:112 | with two or more distinct players no position holds its own player as target |
| Targets.RotateSingle | paranoia.py:112 | a lone player is their own target |
| Table.Transpose | paranoia.py:129-132 | N rows; row i holds entry i of the ids, the players, the targets and every field list, so reading a column back gives the first N entries of its list |
| Table.Assemble | paranoia.py:129-134 | N rows ordered by id, whose ids, players and targets are the first N entries of their lists, rearranged |
| Table.InsertById | paranoia.py:134 | inserting a row into a table sorted by id keeps it sorted and adds exactly that row |
| Table.SortById | paranoia.py:134 | the sorted table is ordered by id and holds exactly the same rows |
| Table.ColumnsPermutation | paranoia.py:134 | reordering rows keeps the number of rows and the multiset of every column: ids, players, targets and each field's values |
| Table.SortedIdsAreRowNumbers | paranoia.py:106-134 | once sorted, a table whose ids are a rearrangement of 0 .. N-1 has id k in row k |
| Table.StepMissing | paranoia.py:112-134 | a name nobody plays has no target to follow and stays put |
| Table.StepRow | paranoia.py:112-134 | a name somebody plays leads to the target of a row with that player |
| Table.StepPermutation | paranoia.py:134 | with distinct player names, the target of a name does not depend on the order of the rows |
| Table.FollowPermutation | paranoia.py:134 | with distinct player names, following targets k times does not depend on the order of the rows |
| Table.FollowRotated | paranoia.py:112 | when every row targets the next row's player, following targets k ≤ N times from row i reaches the player of row i + k, wrapping round |
| Table.CycleCloses | paranoia.py:112-134 | following targets N times from any player returns to that player |
| Table.CycleNotEarlier | paranoia.py:112-134 | following targets between 1 and N - 1 times never returns to the starting player |
| Table.CycleReaches | paranoia.py:112-134 | every player is reached from every player in fewer than N steps |
| Table.RotatedNoSelfTarget | paranoia.py:112-134 | with two or more distinct players no row targets its own player |
| Table.RotationIsSingleCycle | paranoia.py:112-134 | the rotated targets, in any row order, form one cycle through all N players and, from two players on, nobody targets themself |
| Table.AssembleRows | paranoia.py:129-136 | the assembled table has N rows, row k carrying id k, a value for every field list in each row, and the players, the targets and every field list reappearing as columns, rearranged |
| Table.AssembleShape | paranoia.py:129-136 | the sorted table has N rows, row k carrying id k, each with one value per field list |
| Table.AssembleColumns | paranoia.py:129-134 | sorting the transposed rows keeps the players, the targets and every field list as columns, rearranged |
| Table.AssembleTargets | paranoia.py:112-134 | with the targets taken from the rotated players, the assembled rows can always be ordered so that each targets the next one's player, whatever the names; a lone player targets themself; distinct players form a single cycle with no self-target |
| Orga.CleanedData | paranoia.py:79-87 | every declared name gets the entries of its file, no more entries than the file has lines |
| Orga.MissingData | paranoia.py:80-84 | no field lacks a data file exactly when the result is none; otherwise the name reported has no data file |
| Orga.MissingDataAt | paranoia.py:80-84 | the name reported is that of the first field, in declaration order, without a data file |
| Orga.LoadFieldData | paranoia.py:79-87 | aborts with the first field lacking a data file; otherwise maps every declared name to the cleaned lines of its file |
| Orga.FieldViolation | paranoia.py:93-103 | a field passes exactly when the player field is neither repeatable nor skippable, a non-skippable field has at most N entries and a non-repeatable one at least N |
| Orga.FirstFailure | paranoia.py:91-103 | no field is reported exactly when every field passes |
| Orga.FirstFailureAt | paranoia.py:91-103 | the reported failure is that of the first field that fails, in declaration order |
| Orga.FirstFailureNone | paranoia.py:91-103 | when every field passes nothing is reported |
| Orga.CheckCounts | paranoia.py:89-103 | the count loop reports the first broken count rule in declaration order, and nothing when all hold |
| Orga.Validate | paranoia.py:60-103 | an accepted input has unique names, one player field which is the only one carrying the player name, a data file for every field, the cleaned entries of every field and every count rule satisfied |
| Orga.CheckInput | paranoia.py:60-103 | the validation stage, run step by step, computes exactly Validate |
| Orga.ValidateComplete | paranoia.py:60-103 | every input meeting those conditions is accepted, with exactly that player field and data |
| Orga.SizingFailure | paranoia.py:120-123 | sizing a column fails only for a non-player field with fewer than N entries: when repeatable and skippable exactly then, otherwise exactly when it has no entries and N > 0 |
| Orga.SizedColumn | paranoia.py:119-127 | the column of a field fails as SizingFailure says; otherwise it has N values, all from the field's entries, sub-multiset of the entries when sampled, super-multiset when extended, the same multiset when already N |
| Orga.ColumnsFitStep | paranoia.py:115-127 | when the columns so far fit the fields so far, one more field keeps them fitting: the player field adds no column, any other field adds its own fitting column at the end |
| Orga.ColumnsFitIndexed | paranoia.py:115-127 | fitting columns are one per non-player field, each of N values, column j fitting the j-th non-player field |
| Orga.SizeColumns | paranoia.py:114-127 | aborts with the sizing failure of the first failing field; otherwise gives one column per non-player field, in order, each fitting its field |
| Orga.GenerateLists | paranoia.py:105-127 | aborts on an empty player list, then on the first sizing failure; otherwise the ids are a rearrangement of 0 .. N-1, the players of the player entries, the targets the players rotated by one, and every column fits its field |
| Orga.GenerationFailure | paranoia.py:105-127 | generation aborts exactly when there is no player (`player_list[0]`) or some field's column cannot be sized; with players, an abort means some non-player field has fewer than N entries |
| Orga.Failure | paranoia.py:60-127 | a run that does not abort had valid input, at least one player, and a column that can be sized for every field |
| Orga.ColumnFitsPermutation | paranoia.py:126-134 | whether a column fits its field does not depend on the order of its values |
| Orga.AssembleCorrect | paranoia.py:112-136 | transposing and sorting generated lists gives a table with every guarantee of IsOrganization, including rows that can be ordered so that each targets the next one's player |
| Orga.CreateOrga | paranoia.py:60-139 | aborts exactly when validation or generation fails, with the first error the source meets; otherwise returns N rows, row k carrying id k, players and targets each a rearrangement of the player entries, every column fitting its field, rows that can be ordered so that each targets the next one's player, a lone player targeting themself, a single target cycle without self-targets for distinct players, and every row of width 2 + number of fields |

## Left out

- The command-line interface, prompts, colouring and the printing in `_error_out` (paranoia.py:25-51): an abort is an `Err` naming the rule, not a message and an exit code.
- Building the fields from the YAML configuration (paranoia.py:61): the model starts from the list of `DataField` values; unknown configuration keys, which make the dataclass constructor raise, are not modelled.
- File system access (paranoia.py:81-86): the directory is a map from field name to the lines of `<name>.txt`; a missing key is the missing file. Path joining, encodings and read errors are not modelled.
- Persistence of the table, its printing and the PDF export (paranoia.py:142-360): I/O and library code outside the organisation engine.
- Random.Shuffle, Random.Sample, Random.Choices: only which results are possible is stated (a rearrangement, a sub-multiset of size k, k members of the population); their probability distribution is not modelled.
- Random.Shuffle: the source shuffles its lists in place; the model returns the shuffled sequence instead.
- Table.SortById: the source sorts the rows in place with Python's list sort comparing whole rows; the model is an insertion sort on row values comparing ids only, which orders the same because ids are unique. The sorting algorithm itself and the in-place update are not modelled.
- Orga.CreateOrga: the single target cycle and the absence of self-targets are stated for distinct player names only, because the source never checks the names and a repeated name breaks both; for repeated names the contract keeps the rotation itself (`Table.Rotatable`).
