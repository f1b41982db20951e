# Verified models of dalgo's in-memory adapter, record diff and access policies

This project models the parts of dalgo that keep state or decide something, and proves
what they promise:

- **Columnar storage** (`Values`, `Table`, `ReadBack`, `SlotLayout`, `Columnar`, `IndexScan`). Rows
  live at slots of parallel slices; deletes leave tombstones, inserts reuse them, and compaction renumbers
  every row. `Columnar.ColumnarEngine` is a class with those slices as fields. A ghost field
  `rows` says which map it stands for, and any run of operations answers as the map does. The
  rows all compactions move are bounded by the deletes, counted on the run itself. `ReadBack` says
  what each operation leaves for a load and a listing to reply, path by path.
- **Record diff** (`RecordDiff`, `Merge`, `Diff`, `Patch`, `DiffOutcome`, `DiffStatus`). Cursors over
  sorted streams feed a merge. `Diff.Outcome` says everything about a run, and the lemmas say what follows:
  the diff is a patch, complete, ordered, tells of each record what the inputs hold, and ends in
  the one error they contain.
- **Queries** (`Where`, `Ordering`, `Contests`, `Query`, `EngineQuery`, `Join`, `GroupKeys`, `Grouping`,
  `GroupedQuery`, `GroupedAnswers`, `RowOrder`, `Ties`, `PlainPrinter`, `Executor`, `Selection`,
  `AnswerOrder`, `Pairing`, `AggregateLaws`). Each executor is a method with the source's loops, proved against a function of the rows. The lemmas say when
  that function forgets the order rows come in, and what its answers mean: which rows WHERE, ON and
  HAVING select, in what order they come, and what the aggregates report, on values.
- **Access policies** (`Access`, `AccessTree`, `AccessDocument`, `PolicyDocument`, `PolicyRoundTrip`, `Text`). A
  rule tree is flattened and resolved by specificity, and the decision is stated on the tree as written;
  documents reorder siblings, and the round trip preserves every decision.
- **Branches and locks** (`Serialized`, `Branching`, `Isolation`, `Calls`, `ShownChanges`, `Noninterference`, `Locks`).
  Records hold pointers to key nodes in an explicit memory that callers may also write to.
  Isolation is stated over runs of any number of databases, checkpoints and branches, and as
  noninterference: what is seen in a database is what its own calls give. The two-lock
  protocol is a state machine over its steps.
- **DTQL** (`Dtql`): queries to documents and back.

`dafny verify dfyconfig.toml` checks everything. Functions in a module are the
specification; methods have the source's control flow; a class stands for an object whose
methods update its fields.

## Model

| member | source | states |
|---|---|---|
| `Columnar.ColumnarEngine.Run` | adapters/dalgo2memory/columnar.go:300-434 | Any run of store, update, delete, load, exists, rows answers exactly as a plain map from id to (cells, leftover, key) does; the compactions in it move exactly the rows `Table.MovedInRun` counts from the run's own states |
| `Columnar.ColumnarEngine.Perform` | adapters/dalgo2memory/columnar.go:300-412 | One operation: the map steps, the reply is the map's, and rows move only when this delete makes a compaction fire |
| `Columnar.ColumnarEngine.constructor` | adapters/dalgo2memory/columnar.go:96-166 | A new engine stands for the empty map; a map-backed one without declared columns is unusable |
| `Columnar.ColumnarEngine.Exists` | adapters/dalgo2memory/columnar.go:300-306 | Answers from the map, the empty id included |
| `Columnar.ColumnarEngine.Load` | adapters/dalgo2memory/columnar.go:344-353 | The stored row as a reader sees it, or why there is none |
| `Columnar.ColumnarEngine.Rows` | adapters/dalgo2memory/columnar.go:402-434 | Every stored id once, in strictly ascending order, with its row |
| `Columnar.ColumnarEngine.Store` | adapters/dalgo2memory/columnar.go:308-325 | Insert and overwrite on the map; a duplicate or a bad field changes nothing; what a reader then sees is ReadBack.StoreReads |
| `Columnar.ColumnarEngine.Update` | adapters/dalgo2memory/columnar.go:368-400 | Steps the map as `Table.Update`, a failure leaving it as it was; what a reader then sees is ReadBack.UpdateReads and UpdateKeeps |
| `Columnar.ColumnarEngine.Delete` | adapters/dalgo2memory/columnar.go:355-366 | Removes the id and nothing else; moves all rows exactly when the threshold is met |
| `Columnar.ColumnarEngine.AllocSlot` | adapters/dalgo2memory/columnar.go:491-515 | The id's own slot, else the last freed one, else a fresh one in every slice |
| `Columnar.ColumnarEngine.WriteSlot` | adapters/dalgo2memory/columnar.go:520-528 | Cells, leftover and strategies of one slot, and of no other |
| `Columnar.ColumnarEngine.FreeSlot` | adapters/dalgo2memory/columnar.go:533-548 | Tombstones the slot, clears its cells and puts it on the free list once |
| `Columnar.ColumnarEngine.PrepareWrite` | adapters/dalgo2memory/columnar.go:556-646 | All decoding, and so all failing, happens before a slot is taken |
| `Columnar.ColumnarEngine.MaybeCompact` | adapters/dalgo2memory/columnar.go:737-746 | Moves every live row when twice the dead slots reach all slots, none otherwise; the map stays |
| `Columnar.ColumnarEngine.CompactRows` | adapters/dalgo2memory/columnar.go:751-793 | After compaction the slices stand for the same map, with no dead slot |
| `Columnar.ColumnarEngine.CompactSlots` | adapters/dalgo2memory/columnar.go:751-793 | Live slots gathered in ascending order; `moved` grows by one per live slot, counted in the loop |
| `Columnar.ColumnarEngine.Renumber` | adapters/dalgo2memory/columnar.go:776-785 | Every id's new slot is the number of live slots below its old one |
| `Columnar.ColumnarEngine.RebuildStrategies` | adapters/dalgo2memory/columnar.go:798-807 | External strategies are told every slot again and keep what they knew of the stale tail |
| `Columnar.ColumnarEngine.CandidateRows` | adapters/dalgo2memory/columnar.go:442-486 | The rows the column's strategy selects, by ascending id, or no opinion |
| `Columnar.ColumnarEngine.AnswerSelects` | adapters/dalgo2memory/columnar.go:468-486 | No live slot is missed and stale slots name no row, whatever compactions went before |
| `Columnar.ColumnarEngine.SpaceBound` | adapters/dalgo2memory/columnar.go:737-746 | Slots never exceed twice the stored rows; with a dead slot they are fewer |
| `Columnar.Column.EqualSlots` | adapters/dalgo2memory/strategy.go:74-99 | The live slots whose value equals the constant; a redeclared column answers for its orphan |
| `SlotLayout.StoreRepresents` | adapters/dalgo2memory/columnar.go:308-325 | Adding a row to the slices keeps every structural invariant and stands for adding it to the map |
| `SlotLayout.RewriteRepresents` | adapters/dalgo2memory/columnar.go:385-399 | Overwriting in place keeps the stored key and every other row |
| `SlotLayout.FreeRepresents` | adapters/dalgo2memory/columnar.go:533-548 | Tombstoning keeps idToSlot a bijection onto live slots and the free list a duplicate-free list of the dead ones |
| `SlotLayout.CompactRepresents` | adapters/dalgo2memory/columnar.go:751-793 | Compaction renumbers every row and changes none; it moves as many rows as are stored |
| `SlotLayout.LiveSlotsCount` | adapters/dalgo2memory/columnar.go:752-758 | One live slot a stored id |
| `Table.StepValid` | adapters/dalgo2memory/columnar.go:300-434 | Every operation keeps the rows well typed |
| `Table.MovesAreAmortised` | adapters/dalgo2memory/columnar.go:18-18 | Over any run, rows moved by all compactions plus dead slots left are at most the deletes that removed a row plus the dead slots at the start; both sides are functions of states and operations |
| `Table.DecodeTyped` | adapters/dalgo2memory/columnar.go:569-646 | Whatever is decoded fits the columns' types |
| `Table.ViewOfDecoded` | adapters/dalgo2memory/columnar.go:686-731 | A stored record reads back as its normalised fields, absent declared columns as their zero, and nothing else |
| `Table.ViewDecodes` | adapters/dalgo2memory/columnar.go:686-703 | Reading a row and storing it again stores the same row |
| `Table.EmptyUpdateIsIdentity` | adapters/dalgo2memory/columnar.go:368-400 | An update without changes is the identity, through the whole decode and encode |
| `ReadBack.StoreReads` | adapters/dalgo2memory/columnar.go:308-325 | A store is refused as a duplicate if and only if the id loads and overwrite is off; after one that succeeds every path of the record reads back and the row is listed under the key given; a failure changes nothing; no other id loads or lists otherwise |
| `ReadBack.UpdateReads` | adapters/dalgo2memory/columnar.go:368-400 | After an update that succeeds, every path no update touches reads as before, and every other as the last update that touches it wrote it, normalised, a declared column without a value as its zero |
| `ReadBack.UpdateKeeps` | adapters/dalgo2memory/columnar.go:368-400 | An update keeps the row's key and every other id, and a failing one everything |
| `ReadBack.UpdateSucceedsIff` | adapters/dalgo2memory/columnar.go:368-400 | An update goes through if and only if the id loads, a struct knows the names, every path can be walked and the result fits the columns |
| `ReadBack.DeleteReads` | adapters/dalgo2memory/columnar.go:355-366 | After a delete the id is not found and every other id loads and lists as before |
| `ReadBack.RowsAreLoads` | adapters/dalgo2memory/columnar.go:402-434 | The listing has, by ascending id, exactly what a load of each id replies, with its key |
| `ReadBack.DecodesIff` | adapters/dalgo2memory/columnar.go:569-646 | A record can be stored if and only if it is an object, each column's field is null or reads like a value of the column's type, and in a struct every field has a column |
| `ReadBack.LoadTellsLastStore` | adapters/dalgo2memory/columnar.go:300-434 | At the end of any run a load replies, path by path, what the last write of the id stored, whatever happened to other ids since |
| `IndexScan.CandidatesSuffice` | adapters/dalgo2memory/join.go:206-222 | Re-filtering any candidates that include all matches gives the sequence a full scan gives |
| `IndexScan.SafeAgrees` | adapters/dalgo2memory/columnar.go:442-486 | For a Safe column and constant the index loses nothing, on every table |
| `IndexScan.UnsafeDisagrees` | adapters/dalgo2memory/columnar.go:442-486 | Outside Safe there is a table on which a matching row is lost |
| `IndexScan.IndexInvisibleIff` | adapters/dalgo2memory/columnar.go:436-441 | For a scalar constant: invisible on every table if and only if the constant has the column's own type and the column was not abandoned by a second declaration (or has an external strategy), or the strategy has no opinion, or no cell can equal the constant |
| `IndexScan.LostRows` | adapters/dalgo2memory/columnar.go:241-248 | An int column asked for int64(5), and a column declared twice, are outside; int(5) is inside |
| `Diff.DiffFunc` | recordops/diff.go:46-124 | A run's ids, diffs and error are an `Outcome` of its streams; a nil order is refused |
| `Diff.StreamCursor.Advance` | recordops/diff.go:144-169 | Moves to the next record, or ends, or fails exactly at the first record that is not in order |
| `Diff.StreamCursor.AdvancePast` | recordops/diff.go:101-114 | Only a cursor at x moves past x, and fails exactly if the record after it is bad |
| `Diff.Prime` | recordops/diff.go:76-85 | The first bad start, in stream order, ends the run before anything is merged |
| `Diff.SmallestID` | recordops/diff.go:171-192 | A least id among the live heads; none only when every stream is read to its end |
| `Diff.AssembleIDDiff` | recordops/diff.go:194-225 | Candidates in input order, each from its own head if that head is at the id |
| `Diff.AdvanceAt` | recordops/diff.go:101-114 | Every cursor at the id moves and no other; the first failure in stream order is the one reported |
| `Diff.MergeStep` | recordops/diff.go:88-114 | One turn: the diff of the smallest id, or the failure at it |
| `Diff.MergeLoop` | recordops/diff.go:88-123 | The loop ends, because each turn uses up input, and its result is an `Outcome` |
| `Diff.RunGoesOn` | recordops/diff.go:88-123 | A turn that succeeds skips no id, repeats none, and strictly shrinks what is left |
| `Diff.RunFinishes` | recordops/diff.go:89-92 | With every stream read, the run is complete |
| `Diff.RunFails` | recordops/diff.go:94-114 | With a failure at the smallest id, the run stops there |
| `Merge.MoveStands` | recordops/diff.go:101-114 | Moving past the smallest head keeps: merged ids are exactly those before the heads, in order, once |
| `Merge.HeadIsLookup` | recordops/diff.go:194-225 | At the smallest head, each stream's record for that id is its head or does not exist |
| `Merge.SmallestSplits` | recordops/diff.go:171-192 | Every smaller id was merged before, and nothing merged is greater |
| `Merge.DoneIsUnion` | recordops/diff.go:89-92 | When all streams are read the ids merged are the union |
| `RecordDiff.CompareMap` | recordops/compare.go:164-196 | The delta list of two maps, in key order; what it means is Patch.MapPatchAgrees |
| `RecordDiff.CompareStruct` | recordops/compare.go:142-162 | The sorted delta list of two structs, or incomparable when the fields do not pair up |
| `RecordDiff.ExtractAllFields` | recordops/compare.go:81-110 | The field list of a record, one branch a kind |
| `RecordDiff.BuildBaseline` | recordops/compare.go:54-75 | The baseline's fields shown with a diff |
| `RecordDiff.ClassifyPair` | recordops/diff.go:229-248 | The class of two records, as a function of both; what each status says of them is DiffStatus.StatusMeans |
| `Patch.PatchAt` | recordops/diff.go:229-248 | A patch sets or removes what it names and leaves every other field, in whatever order it is listed |
| `Patch.DeltasAreReal` | recordops/compare.go:164-196 | Every delta listed is a real difference of a field not ignored |
| `Patch.MapPatchAgrees` | recordops/compare.go:164-196 | Patching rebuilds the candidate up to the options, exactly without them; no deltas if and only if the records agree |
| `Patch.StructPatchAgrees` | recordops/compare.go:142-162 | The same for structs of one type, whose comparison never fails |
| `Patch.RecordPatchAgrees` | recordops/compare.go:21-48 | The same for any two records of one shape |
| `Patch.AllFieldsRebuild` | recordops/compare.go:81-110 | The fields of an Extra state are the whole record |
| `Patch.StateRebuilds` | recordops/diff.go:229-248 | One id, one candidate: applying its state to the baseline's record gives the candidate's |
| `Patch.CandidateAt` | recordops/diff.go:194-225 | candidates[i] depends on input i and the baseline at that id only |
| `Patch.DiffIsPatch` | recordops/diff.go:46-124 | Applying candidate i's states to the baseline rebuilds candidate i: its ids exactly, its records up to the options, exactly with default ones |
| `DiffOutcome.SeenIsPrefix` | recordops/diff.go:88-123 | Merged ids ascend strictly and are the union of the inputs below the id that stops the run |
| `DiffOutcome.OutcomeUnique` | recordops/diff.go:46-124 | The inputs determine diffs, error and stopping place |
| `DiffOutcome.SucceedsIff` | recordops/diff.go:46-124 | No error if and only if every stream is in order to its end and every common pair of records compares |
| `DiffOutcome.FaultTells` | recordops/diff.go:144-169 | A bad pull is a duplicate if and only if it equals its predecessor, unsorted if and only if it is smaller |
| `DiffOutcome.EmittedIsComplete` | recordops/diff.go:258-268 | Diffs come in strictly ascending id order; a good run emits exactly those of the union with something to say, all of it under WithIncludeMatched |
| `DiffOutcome.ErrorPrefix` | recordops/diff.go:101-121 | When the run fails moving past x, exactly the emit-worthy diffs below x were emitted: x's own was assembled and dropped |
| `DiffOutcome.LostDiff` | recordops/diff.go:101-121 | A baseline that fails after its first record: the run tells the error and no diff, though one was assembled |
| `DiffOutcome.MixedPatchIff` | recordops/compare.go:41-44 | Between records of different kinds: the diff rebuilds the candidate if and only if the candidate is a map or struct, or the baseline has no field besides `_value` |
| `DiffOutcome.MixedShapesDoNotPatch` | recordops/compare.go:41-44 | A map baseline against a string keeps the map's fields |
| `DiffStatus.StatusMeans` | recordops/diff.go:229-248 | On the two records: Missing if and only if the candidate has none, Extra if and only if only it has one, Matched if and only if both have one and they agree, Changed if and only if they do not; no status exactly when a struct field that counts has no partner |
| `DiffStatus.RecordsAgreeIff` | recordops/compare.go:21-48 | For records of one shape that agreement is agreement field by field outside the ignored names, except that two plain values are compared whatever is ignored |
| `DiffStatus.StatusTells` | recordops/diff.go:194-225 | Every status a run emits is the one the baseline's and the candidate's streams give for the id |
| `DiffStatus.ReportsDisturbed` | recordops/diff.go:258-268 | A good run reports exactly the ids for which some candidate lacks the record, has one more or disagrees; under WithIncludeMatched all ids |
| `DiffStatus.BaselineShows` | recordops/compare.go:54-75 | A diff has baseline fields if and only if the baseline has the record: all of them, or with WithOnlyChangedFields exactly those some candidate's delta names |
| `DiffStatus.DeltasAscend` | recordops/compare.go:142-196 | Deltas come by ascending field name |
| `Values.NormIdempotent` | adapters/dalgo2memory/columnar.go:569-599 | Normalising through JSON twice is normalising once |
| `Values.NormIs` | adapters/dalgo2memory/columnar.go:569-599 | A trip through JSON leaves exactly the values without integer-typed numbers as they are, makes every value one of those, and keeps every number, every list's length and every object's keys |
| `PathUpdate.PutGet` | adapters/dalgo2memory/engine.go:86-108 | What was set at a path reads back; what was deleted is absent |
| `PathUpdate.GetPut` | adapters/dalgo2memory/engine.go:86-108 | Setting what is there changes nothing |
| `PathUpdate.PutPut` | adapters/dalgo2memory/engine.go:86-108 | The last write to a path wins |
| `PathUpdate.PutElsewhere` | adapters/dalgo2memory/engine.go:86-108 | Every path neither above nor below reads as before |
| `PathUpdate.PutsCommute` | adapters/dalgo2memory/engine.go:66-108 | Writes on diverging paths commute when both succeed |
| `PathUpdate.PutFailsIff` | adapters/dalgo2memory/engine.go:97-105 | A write fails exactly when a proper prefix of its path reads as neither a map nor nil |
| `PathUpdate.FailedWalkLeavesNothing` | adapters/dalgo2memory/engine.go:86-108 | Though the walk inserts maps as it goes, a path that fails leaves the live map as it was |
| `PathUpdate.ApplyUpdates` | adapters/dalgo2memory/engine.go:66-81 | The loop over the live map: what it leaves and the error it stops with |
| `PathUpdate.FailedListLeavesPrefix` | adapters/dalgo2memory/engine.go:66-81 | A list that fails leaves exactly what the updates before the failing one did, so the copy is unchanged if and only if those cancel out |
| `PathUpdate.PartialChangeHappens` | adapters/dalgo2memory/engine.go:66-81 | A list whose second path fails leaves the first one's change on the copy |
| `PathUpdate.ApplyReads` | adapters/dalgo2memory/engine.go:66-108 | After a list of updates every path reads as before if none touches it, and otherwise as the last that does wrote it: its leaf, what the leaf holds there, or a map above it |
| `Where.CompareIsPreorder` | adapters/dalgo2memory/database.go:646-685 | On values that are all numbers or all not, the comparator is a total preorder |
| `Where.MixedColumnCycles` | adapters/dalgo2memory/database.go:646-668 | 9 before 10 before "1a" before 9 |
| `Ordering.SortForgetsOrder` | adapters/dalgo2memory/join.go:158-176 | Sorting by a strict total order forgets the order of its input |
| `Ordering.SortIsStable` | adapters/dalgo2memory/join.go:158-176 | Elements that tie keep their order |
| `Ordering.StrLessIff` | adapters/dalgo2memory/database.go:655-668 | Text order is decided where two strings first differ, a prefix first |
| `Resolving.OrderBySources` | adapters/dalgo2memory/join.go:158-176 | Rows sorted by their sources and ids, with the comparator's loop over the keys run per pair |
| `Resolving.RowLess` | adapters/dalgo2memory/join.go:159-175 | The comparator closure: first deciding key, direction applied, id last |
| `Resolving.ValidateOrderSources` | adapters/dalgo2memory/join.go:140-151 | The first ORDER BY field with an unknown source is the error |
| `Resolving.PrecedesIsTotal` | adapters/dalgo2memory/join.go:158-176 | On homogeneous columns and distinct ids ORDER BY is a strict total order |
| `Resolving.MixedColumnUnsortable` | adapters/dalgo2memory/join.go:158-176 | Three rows that are out of order in every arrangement |
| `Query.Execute` | adapters/dalgo2memory/database.go:361-437 | The whole ungrouped query: validation, WHERE and parent filter, order, limit, projection; its meaning is the lemmas below |
| `Query.KeepRows` | adapters/dalgo2memory/database.go:381-394 | Exactly the rows that match WHERE and the parent, in order; what matching is on values is Selection.NumbersSelect and the rows beside it |
| `Query.ValidateColumns` | adapters/dalgo2memory/project.go:13-24 | The first column that is not a field of a known source is the error |
| `Query.ProjectRow` | adapters/dalgo2memory/project.go:50-57 | A projected row, whose content is ProjectAt |
| `Query.ProjectAt` | adapters/dalgo2memory/project.go:39-57 | Under each output name the value of the last column so named, and nothing else |
| `Query.AnswerForgetsOrder` | adapters/dalgo2memory/database.go:381-437 | On homogeneous sort columns the answer is one sequence, in whatever order the rows come |
| `Query.PickedIsTop` | adapters/dalgo2memory/database.go:401-408 | The answer is the matching rows, each once, sorted with id last, cut to the first limit: all kept before all left out |
| `Selection.AnswerHas` | adapters/dalgo2memory/database.go:381-394 | The answer has only rows that match WHERE and have the parent asked for, and all of them unless LIMIT cuts some off |
| `Selection.AnswerToNumber` | adapters/dalgo2memory/database.go:551-561 | Over a numeric field and constant a row is in the answer to an inequality only if, and unless LIMIT cuts it off exactly if, it has the field and its number stands in the relation to the constant's |
| `Selection.NumbersSelect` | adapters/dalgo2memory/database.go:551-561 | The same of one record, for each of the four inequalities |
| `Selection.TextsSelect` | adapters/dalgo2memory/database.go:551-561 | Unless both are numbers: if and only if the printed text of the field stands in the relation to that of the normalised constant |
| `Selection.EqualitySelects` | adapters/dalgo2memory/database.go:551-554 | An equality holds if and only if the field is the normalised constant, or is missing and the constant is null; of stored numbers it is equality of numbers |
| `Selection.ContainsSelects` | adapters/dalgo2memory/database.go:572-630 | array-contains: the field is an array with an element like the normalised constant, numbers by value and no containers |
| `Selection.ContainsAnySelects` | adapters/dalgo2memory/database.go:565-612 | array-contains-any, under any operator: the field is an array with an element like one of those given |
| `Selection.GroupsSelect` | adapters/dalgo2memory/database.go:523-543 | AND needs every condition; OR and every other group select nothing |
| `Selection.RecordIs` | adapters/dalgo2memory/database.go:409-437 | A result record's key, and its data: the row's, none, or under each column's name the field of the row or null |
| `Selection.RefusedIff` | adapters/dalgo2memory/database.go:361-380 | A query over rows is refused if and only if an ORDER BY key or a column is qualified with a name the query does not have, or a column is no field |
| `AnswerOrder.AnswerIsInOrder` | adapters/dalgo2memory/join.go:158-176 | Along the answer, from any row to a later one that ties on the keys before: an ascending key does not fall and a descending one does not rise, as numbers or as text; rows that tie on all keys come by ascending id |
| `AnswerOrder.JoinIsInOrder` | adapters/dalgo2memory/join.go:158-183 | The same along the answer of a join |
| `Query.AnswerForgetsOrderIff` | adapters/dalgo2memory/database.go:381-437 | With no condition on columns: one answer for every order of the rows if and only if the query is rejected or at each place of the answer some row left goes before all others left |
| `Query.UnlimitedForgetsOrderIff` | adapters/dalgo2memory/database.go:381-437 | Without LIMIT: if and only if no three kept rows go in a circle |
| `Query.MixedColumnTwoAnswers` | adapters/dalgo2memory/database.go:646-668 | One set of three rows, two enumerations, two answers |
| `Contests.PrefixForgetsOrderIff` | adapters/dalgo2memory/join.go:158-176 | For any asymmetric comparator: every input order gives one prefix if and only if each place of it has a row that goes before all others left |
| `Contests.DecidedIffNoCircle` | adapters/dalgo2memory/join.go:158-176 | All places are decided if and only if no three rows go in a circle |
| `Query.NarrowedAnswer` | adapters/dalgo2memory/database.go:361-377 | Narrowing the rows first keeps the answer exactly when it does not empty them and save a bad query from rejection |
| `Query.IndexedAnswerIff` | adapters/dalgo2memory/database.go:357-376 | Through a Safe index a query answers like a scan if and only if the table is empty, the query is valid, the strategy has no opinion, or some cell equals the constant |
| `Query.EmptyCandidatesSkipValidation` | adapters/dalgo2memory/database.go:361-372 | One row with n = 1, asked for n = 2 ordered by an unknown source: no rows through the index, an error from the scan |
| `EngineQuery.LoadCandidateRows` | adapters/dalgo2memory/join.go:206-230 | The rows the engine's index selects, or all of them |
| `EngineQuery.ExecuteOn` | adapters/dalgo2memory/database.go:340-437 | A query over a columnar engine is the query over the rows its index selects |
| `EngineQuery.SerializedHasOneAnswer` | adapters/dalgo2memory/serialized.go:104-122 | Over the unordered engine a query has one answer |
| `Join.ExecuteJoinQuery` | adapters/dalgo2memory/join.go:25-125 | The whole two-source query, errors included |
| `Join.NestedLoop` | adapters/dalgo2memory/join.go:65-94 | Matches per base row in order, one padded row under LEFT when there is none |
| `Join.JoinForgetsOrder` | adapters/dalgo2memory/join.go:54-94 | Both sides are sorted by id first, so the join is one sequence for every enumeration |
| `Join.JoinAnswerForgetsOrder` | adapters/dalgo2memory/join.go:25-125 | So is the whole answer, ties and mixed columns included |
| `Join.LeftIsInnerPlusPads` | adapters/dalgo2memory/join.go:65-94 | LEFT is INNER plus exactly one padded row a base row without match, and fails exactly when INNER does |
| `Join.LeftKeepsEveryBase` | adapters/dalgo2memory/join.go:65-94 | Every base row occurs in a LEFT join, and no other |
| `Join.WhereOnJoinSideIsInner` | adapters/dalgo2memory/join.go:263-305 | A WHERE equality naming the joined source makes LEFT and INNER return the same rows |
| `Join.WherePushesDown` | adapters/dalgo2memory/join.go:263-305 | A WHERE equality over base fields can filter the base rows before the join instead |
| `Pairing.JoinRowsAre` | adapters/dalgo2memory/join.go:65-104 | The rows of a join query are exactly: the pairs whose every ON condition is met, and under LEFT the base rows with no partner, of those whose WHERE equality is met |
| `Pairing.MatchesIffMet` | adapters/dalgo2memory/join.go:246-305 | A condition holds if and only if it is an equality whose two sides are there and are equal numbers or equal values |
| `Pairing.PairShows` | adapters/dalgo2memory/join.go:69-94 | A pair has the fields of both rows, the joined row's where both have one, and each source its own row |
| `Pairing.RejectedIff` | adapters/dalgo2memory/join.go:25-53 | A join query is refused up front if and only if it does not join one source by INNER or LEFT, or names a source it does not have, or has a column that is no field |
| `GroupKeys.KeyInjective` | adapters/dalgo2memory/group.go:171-181 | On scalars without NUL two rows share a key exactly when their value tuples agree |
| `GroupKeys.KeyInjectiveIff` | adapters/dalgo2memory/group.go:168-181 | Over all scalars the key is injective if and only if there is at most one GROUP BY expression |
| `GroupKeys.TwoKeysCollide` | adapters/dalgo2memory/group.go:180-180 | For two expressions and more: two different tuples with one key |
| `PlainPrinter.FaithfulPrinterExists` | adapters/dalgo2memory/group.go:178-178 | What is asked of the `%v` text is satisfiable: a concrete printer, for any finite list of float64 values |
| `GroupKeys.Partition` | adapters/dalgo2memory/group.go:59-77 | The map and first-seen list make exactly the groups of the keys |
| `GroupKeys.FirstSeenOrder` | adapters/dalgo2memory/group.go:59-77 | Groups come in the order of their first rows |
| `GroupKeys.MembersOf` | adapters/dalgo2memory/group.go:59-77 | A group holds the rows with its key, all of them and no others, and only occurring keys have one |
| `GroupKeys.GroupsPartition` | adapters/dalgo2memory/group.go:59-77 | Every row is in exactly one group, as often as it occurs |
| `GroupKeys.GroupsConserve` | adapters/dalgo2memory/group.go:59-77 | Any sum over rows is the sum of its sums over groups |
| `Grouping.EvalAggregate` | adapters/dalgo2memory/group.go:212-283 | COUNT, SUM, AVG, MIN, MAX by one loop, with nil skipped and bad arguments refused |
| `Grouping.AggregatesConserve` | adapters/dalgo2memory/group.go:212-283 | Per-group COUNT and SUM add up to the COUNT and SUM of all rows |
| `Grouping.BestIsBest` | adapters/dalgo2memory/group.go:250-283 | MIN and MAX are values that occur, and none is better |
| `Grouping.BestOfGroups` | adapters/dalgo2memory/group.go:250-283 | The best of the groups' MIN or MAX is the global one |
| `AggregateLaws.CountIs` | adapters/dalgo2memory/group.go:212-249 | COUNT of a field is the number of rows with a value in it that is not null; COUNT of anything else is the number of rows |
| `AggregateLaws.SumIs` | adapters/dalgo2memory/group.go:212-249 | SUM of one row is its number, SUM adds up over any two lists of rows, and it is null if and only if no row has a number |
| `AggregateLaws.AverageIs` | adapters/dalgo2memory/group.go:212-249 | AVG times the number of rows with a number is SUM, and it is null if and only if there is none |
| `AggregateLaws.BestIs` | adapters/dalgo2memory/group.go:250-283 | MIN and MAX over values of one kind are a row's value that no row's is better than, by number or by text; null if and only if no row has one |
| `GroupedQuery.ExecuteGrouped` | adapters/dalgo2memory/group.go:30-166 | The whole grouped query, errors in the source's order |
| `GroupedQuery.HavingMeans` | adapters/dalgo2memory/group.go:288-327 | An OR group holds when some condition does, any other group when all do |
| `Selection.HavingSelects` | adapters/dalgo2memory/group.go:288-347 | A HAVING comparison holds of a group if and only if its two values stand in the relation, as numbers if both are and otherwise as printed text |
| `Selection.HavingGroups` | adapters/dalgo2memory/group.go:301-324 | Without errors OR keeps a group some condition holds for, and any other operator one no condition fails for |
| `Selection.GroupValueIs` | adapters/dalgo2memory/group.go:188-206 | A group's value: the output column of that name once projected, else the field of its first row, null if missing; a constant is normalised |
| `Selection.GroupRowNames` | adapters/dalgo2memory/group.go:80-90 | A group's output row has exactly the columns' names |
| `GroupedAnswers.ProjectedColumn` | adapters/dalgo2memory/group.go:80-90 | Each with the group's value of the last column of that name |
| `Selection.GroupRefusedIff` | adapters/dalgo2memory/group.go:30-58 | A grouped query is refused before any row is looked at if and only if a GROUP BY field is qualified with an unknown name, or a column is neither an aggregate nor prints like a GROUP BY expression |
| `GroupedQuery.SameGroupIffSameValues` | adapters/dalgo2memory/group.go:59-77 | Two rows share a group if and only if they agree on every GROUP BY expression |
| `GroupedQuery.RepresentativeIrrelevant` | adapters/dalgo2memory/group.go:188-206 | A projected GROUP BY column is the same from every member |
| `GroupedQuery.GroupsForgetOrder` | adapters/dalgo2memory/group.go:59-77 | In another row order every key has the same members |
| `GroupedQuery.GroupAggregateForgetsOrder` | adapters/dalgo2memory/group.go:212-283 | A group's COUNT and SUM do not depend on row order |
| `GroupedQuery.GroupOrderFollowsRows` | adapters/dalgo2memory/group.go:59-77 | Swapping two rows of different groups swaps the groups, whatever the keys are |
| `GroupedAnswers.TwoGroupedAnswers` | adapters/dalgo2memory/group.go:59-77 | The rows x = a and x = b grouped by x: two orders of one row set, two answers |
| `GroupedQuery.OrderByIsStable` | adapters/dalgo2memory/group.go:109-146 | ORDER BY sorts the groups and keeps first-seen order among ties |
| `AnswerOrder.GroupsAreInOrder` | adapters/dalgo2memory/group.go:109-146 | Along ordered groups that tie on the keys before, an ascending key does not fall and a descending one does not rise |
| `GroupedQuery.PagesTile` | adapters/dalgo2memory/group.go:148-158 | Consecutive pages tile the groups |
| `GroupedAnswers.AnswerGroupsByValue` | adapters/dalgo2memory/group.go:30-166 | The whole answer is as if rows were grouped by value, no text key involved |
| `GroupedAnswers.RowPerTuple` | adapters/dalgo2memory/group.go:59-90 | Without HAVING, ORDER BY, OFFSET and LIMIT: one output row a distinct value tuple, first-seen order, projected from exactly the rows with it |
| `GroupedAnswers.HavingFilters` | adapters/dalgo2memory/group.go:92-105 | HAVING keeps exactly the output rows of the groups it holds of, in place |
| `GroupedAnswers.OrderedPermutes` | adapters/dalgo2memory/group.go:109-146 | ORDER BY only rearranges the groups |
| `GroupedAnswers.PagingIsWindow` | adapters/dalgo2memory/group.go:148-158 | OFFSET and LIMIT are a window on the answer without them, errors the same |
| `GroupedAnswers.ColumnAddsUp` | adapters/dalgo2memory/group.go:80-166 | The COUNT or SUM column of the answer adds up to the COUNT or SUM over all rows |
| `RowOrder.RowOrderForgottenIff` | adapters/dalgo2memory/group.go:59-166 | Every order of the rows gives one answer or one error if and only if the query is refused up front, or the groups the first failing step fails on give one error, or, when none fails, the groups HAVING keeps that ORDER BY leaves tied show the same output row, those that OFFSET and LIMIT show |
| `RowOrder.AnswerByItems` | adapters/dalgo2memory/group.go:59-166 | The answer is the first error in the order of the steps, or the window of the sorted output rows of the groups HAVING keeps |
| `RowOrder.BestForgetsOrder` | adapters/dalgo2memory/group.go:256-279 | MIN and MAX do not depend on row order where values that compare equal are equal |
| `RowOrder.ItemForgetsOrder` | adapters/dalgo2memory/group.go:80-146 | A group's output row, sort keys and error do not depend on the order of its members, MIN and MAX included where comparing equal is being equal |
| `Ties.LooksOneWayIff` | adapters/dalgo2memory/group.go:127-158 | A stable sort makes a window look alike for every listing if and only if tied elements look alike, those that come to stand in the window |
| `Executor.ExecuteQuery` | adapters/dalgo2memory/database.go:340-437 | A structured query over one source or a join, plain or grouped: what each branch checks first, and which error comes first |
| `Executor.ClausesReach` | adapters/dalgo2memory/database.go:340-437 | The rows groups are made of are those that match WHERE and the parent, and every other clause reaches the branch that runs it |
| `Executor.ExecuteGroupedBase` | adapters/dalgo2memory/database.go:361-399 | The grouped branch over one source: no validation without rows, the columns checked with the groups |
| `Executor.ExecuteGroupedJoin` | adapters/dalgo2memory/join.go:25-104 | The grouped branch of a join: its groups are made of the joined and filtered rows |
| `Executor.JoinsHaveOneAnswer` | adapters/dalgo2memory/join.go:54-104 | A query over a join has one answer, grouped or not, with ORDER BY or without, whatever order the engines enumerate in |
| `Executor.GroupedOverBaseIff` | adapters/dalgo2memory/database.go:340-399 | A grouped query over one source has one answer in every enumeration if and only if there are no rows, it is rejected or refused, or the groups of the rows it keeps are order-free |
| `AccessPaths.LeavesAreSingle` | access/operation.go:45-47 | The bit trick accepts exactly the eight single operations |
| `AccessPaths.UnionContains` | access/operation.go:49-51 | A union contains what either side does; READ and WRITE split the leaves |
| `AccessPaths.BitsOfUnion` | access/operation.go:10-43 | Uniting sets of operations is or-ing their bits |
| `AccessPaths.BitsRoundTrip` | access/operation.go:53-55 | Bits without unknown ones are exactly a set of operations |
| `AccessPaths.EqualIdIsEquivalence` | access/resource.go:197-223 | Id equality across integer widths is an equivalence |
| `AccessPaths.PatternsMatch` | access/resource.go:172-195 | The loop decides structural prefix matching, for path resources only |
| `AccessPaths.MatchesConcat` | access/resource.go:165-195 | Matching an appended pattern is matching its parts one after the other |
| `AccessPaths.SegmentsForKey` | access/resource.go:97-114 | The segments of a key chain, root first |
| `AccessRules.CompileRuleInto` | access/rule.go:142-210 | The recursion through the shared slice appends exactly the rule's directives with their enclosing paths, or reports its first error |
| `AccessRules.CompileRules` | access/rule.go:125-140 | Flattened rules, refused if and only if two share a name |
| `AccessRules.FindMatching` | access/policy.go:169-191 | The rules that apply, most specific first; what the first has over the others is AccessRules.WinnerRanks |
| `AccessRules.CountLiterals` | access/rule.go:212-220 | The literal segments of a pattern |
| `AccessRules.SpecificityIsTotal` | access/policy.go:175-190 | Depth, then literals, then deny first, then name is a strict total order on one policy's rules |
| `AccessRules.WinnerIsUnique` | access/policy.go:134-159 | The winner is the one rule that applies and is more specific than every other that does |
| `AccessRules.WinnerRanks` | access/policy.go:175-190 | No rule that applies has a longer pattern than the winner's; none as long has more literal segments; of those as long and as literal a restrictive one wins; and among those of its effect the winner has the least name |
| `AccessRules.AllowedIff` | access/policy.go:134-159 | Allowed if and only if, of the rules that apply, some allow has a longer pattern, or one as long with more literal segments, than every deny |
| `AccessTree.CompiledAre` | access/rule.go:142-210 | The compiled rules are exactly the directives of the tree, each with the effect, operations and name it was written with, under the patterns of the scopes around it |
| `AccessTree.CompilesIff` | access/rule.go:142-210 | A tree compiles if and only if no rule in it offends: a directive whose effect or operations are not allowed, a scope inside a group's scope or an opaque one, one of those below a path, a group without a name |
| `AccessTree.AllowedIsTreeAllows` | access/policy.go:134-191 | The decision on the tree as written: allowed if and only if some allow about the request stands under a narrower pattern than every deny about it |
| `AccessTree.DeeperDenyDenies` | access/policy.go:175-190 | A deny inside scopes deeper than those of every allow about the request always denies |
| `AccessRules.WinnerForgetsOrder` | access/policy.go:169-191 | Permuting the compiled rules changes no winner |
| `AccessRules.DenyNarrows` | access/policy.go:134-159 | Adding a deny rule only narrows, and leaves the winner of what is still allowed |
| `AccessRules.FlatIsTree` | access/rule.go:142-210 | The compiled rules that apply are the directives a walk down the tree finds, in its order |
| `AccessRules.DecisionIsTreeDecision` | access/policy.go:169-191 | Deciding on the flat list is deciding on the tree |
| `AccessRules.SiblingsForgetOrder` | access/rule.go:125-210 | Permuting siblings permutes the compiled rules |
| `AccessRules.TreesDecideAlike` | access/rule.go:125-210 | Trees equal up to the order of siblings at every depth decide every request by the same rule |
| `AccessGuard.Decide` | access/policy.go:105-132 | Allowed if and only if every resource is; a denial is the first denied resource's decision |
| `AccessGuard.Authorize` | access/context.go:45-81 | Let through if and only if every policy permits and a required context policy is there; the first that does not is reported |
| `AccessGuard.PoliciesIntersect` | access/context.go:49-65 | Policies intersect: another one never widens, save by supplying a required context policy |
| `AccessGuard.BindIsContext` | access/context.go:39-43 | Binding policies once equals passing them with every call |
| `PercentEncoding.EscapeRoundTrips` | access/document.go:470-487 | Percent-encoding (section 2.1 of RFC 3986) loses nothing |
| `PercentEncoding.SplitJoin` | access/document.go:369-398 | Splitting a joined path gives its parts back |
| `AccessDocument.ParseOperations` | access/operation.go:73-102 | The or-loop gives the bits of the set the names denote, or the first bad name |
| `AccessDocument.WordsAre` | access/operation.go:10-43 | The words of a document and the bits they stand for |
| `Text.FoldForgets` | access/operation.go:73-102 | Blanks around a name and the case of its letters are forgotten, and nothing else |
| `AccessDocument.OperationNamesForDocument` | access/operation.go:104-124 | The shortest names of a set, in the source's order; its meaning is OperationsRoundTrip |
| `AccessDocument.OperationsRoundTrip` | access/operation.go:73-124 | Every valid set survives naming and parsing, and only valid sets are named |
| `AccessDocument.NewPath` | access/resource.go:138-159 | A pattern with one well-formed segment a part, collections and ids in turn, or the first bad part |
| `AccessDocument.WritePath` | access/document.go:470-487 | The document text of a path; its meaning is PathRoundTripsIff |
| `AccessDocument.ParseDocumentPath` | access/document.go:369-398 | The path a text denotes, or why it denotes none |
| `AccessDocument.PathRoundTripsIff` | access/document.go:369-398 | A path survives writing and reading if and only if every segment is any-id or non-empty text other than a lone star |
| `PolicyDocument.DocumentScopeFromRule` | access/document.go:417-457 | The scope a rule is written as, directives before scopes |
| `PolicyDocument.RuleFromDocumentScope` | access/document.go:289-352 | The rule a scope is read as, or its first error |
| `PolicyDocument.DirectiveRoundTripsIff` | access/document.go:459-468 | A directive travels if and only if it is named, its operations are valid and its effect allowed |
| `PolicyDocument.RuleRoundTripsIff` | access/document.go:289-457 | A rule comes back as itself, directives first, if and only if it is portable |
| `PolicyRoundTrip.ReorderedCompiles` | access/rule.go:142-210 | Putting directives first permutes the compiled rules and nothing else |
| `PolicyRoundTrip.NewPolicy` | access/policy.go:79-88 | A policy, or an error exactly when the rules make none |
| `PolicyRoundTrip.DocumentFromRules` | access/document.go:400-415 | The document of a policy, or the first rule's error |
| `PolicyRoundTrip.DecodePolicy` | access/document.go:125-196 | The policy a document denotes, or an error exactly when it denotes none; a wrong version, kind or default, a blank name or no scopes is the first error |
| `PolicyRoundTrip.PolicyRoundTrips` | access/document.go:125-457 | An encoded policy decodes to one that decides every request by the same winning rule |
| `PolicyRoundTrip.StarWidens` | access/document.go:388-391 | An id that is a lone star is read back as any id and covers other records |
| `PolicyRoundTrip.StarCollectionFails` | access/document.go:392-394 | A collection named by a lone star is written and never read back |
| `KeyMemory.AssignShowsIff` | dal/tx_inserter.go:140-162 | Assigning a key's id changes what another key says exactly when it lies on its chain and the id differs |
| `KeyMemory.RefillShowsIff` | adapters/dalgo2memory/branching.go:233-239 | Overwriting an id's array changes what a key says exactly when its chain uses the array and the fields differ |
| `KeyMemory.ChainStands` | adapters/dalgo2memory/branching.go:214-227 | A chain nobody wrote to says what it said |
| `KeyMemory.KeyHeap.Clone` | adapters/dalgo2memory/branching.go:214-239 | A structurally equal chain that shares no key and no array with what was there |
| `Serialized.SerializedEngine.Store` | adapters/dalgo2memory/serialized.go:46-64 | The normalised document and the caller's own key pointer under the id, a duplicate refused if and only if overwrite is off; on what is seen, ShownChanges.PutShows |
| `Serialized.SerializedEngine.Update` | adapters/dalgo2memory/serialized.go:79-102 | Paths applied to a decoded copy; a failing list stores nothing |
| `Serialized.SerializedEngine.Delete` | adapters/dalgo2memory/serialized.go:74-77 | Removes the id from both maps |
| `Serialized.SerializedEngine.Rows` | adapters/dalgo2memory/serialized.go:104-122 | A listing of the map: every record once, in no order, each with what its key says now |
| `Serialized.ListingsPermute` | adapters/dalgo2memory/serialized.go:104-122 | Any two listings are permutations with distinct ids |
| `ShownChanges.PutShows` | adapters/dalgo2memory/serialized.go:46-64 | On what is seen: a put fails as existing if and only if overwrite is off and the id is seen; after one that succeeds the id shows the normalised data under what the key says; no other record changes, and none when it fails |
| `ShownChanges.GenerateShows` | dal/tx_inserter.go:144-162 | An insert with a generator shows the data under the first generated id that is not seen, with a key that says it; the records there were show as before unless a stored chain passes through the key; all attempts taken is the error |
| `ShownChanges.PatchShows` | adapters/dalgo2memory/serialized.go:79-102 | On what is seen: a patch goes through if and only if the id is seen and its document can be patched; then every path reads as the updates say, and the key stays; no other record changes |
| `ShownChanges.RemoveShows` | adapters/dalgo2memory/serialized.go:74-77 | After a delete the id alone is gone |
| `ShownChanges.ListingShows` | adapters/dalgo2memory/serialized.go:104-122 | A listing shows every record's fields and key, a null document as no fields, and no other ids |
| `ShownChanges.NormalStays` | adapters/dalgo2memory/serialized.go:46-102 | Every document an operation leaves is as a trip through JSON leaves it |
| `Branching.Database.Apply` | adapters/dalgo2memory/database.go:236-329 | One operation of a session on store and key memory |
| `Branching.Database.Insert` | adapters/dalgo2memory/database.go:260-290 | Insert with an id generator assigns ids to the caller's key until one is free |
| `Branching.Database.Attempt` | dal/tx_inserter.go:142-161 | One attempt: done, or the id was taken and the next attempt follows |
| `Branching.Database.Engine` | adapters/dalgo2memory/schema.go:220-237 | The collection's engine, made at most once |
| `Branching.OperationTouches` | dal/tx_inserter.go:132-164 | An operation writes to no key but the one passed to it, and only when it generates an id |
| `Branching.AssignSeenIff` | dal/tx_inserter.go:132-164 | Assigning an id is seen in a database exactly when a stored chain passes through the key and the id differs |
| `Branching.RefillSeenIff` | adapters/dalgo2memory/branching.go:233-239 | The same for the array of a composite id |
| `Branching.CopyEngine` | adapters/dalgo2memory/branching.go:178-193 | A deep copy of every record and key chain |
| `Branching.CopyDatabase` | adapters/dalgo2memory/branching.go:164-176 | A copy of every engine under the same names that shares no key memory |
| `Branching.Capture` | adapters/dalgo2memory/branching.go:50-132 | A deep copy of all collections; or, without any change, the first by name of the engines of another mode, or if there are none the first such configured collection |
| `Branching.Checkpoint.Branch` | adapters/dalgo2memory/branching.go:253-303 | A database of its own holding what was captured, or nothing once released |
| `Isolation.Databases.RunAll` | adapters/dalgo2memory/branching.go:50-303 | Any run over sources, checkpoints and branches, with shared key memory, is a run of the world relation and keeps its invariant |
| `Isolation.StepKeepsSane` | adapters/dalgo2memory/branching.go:50-303 | No operation leaves a dangling pointer or a checkpoint whose keys a caller holds |
| `Isolation.StepSeenIff` | adapters/dalgo2memory/serialized.go:46-64 | An operation on one database is unseen in another if and only if it writes to nothing the other's stored keys reach, or writes what was there |
| `Isolation.IsolatedIff` | adapters/dalgo2memory/branching.go:50-303 | Over any run: a database not operated on shows the same throughout if and only if no step writes to a key node it reaches |
| `Isolation.SecludedRun` | adapters/dalgo2memory/branching.go:253-303 | A database that reaches no node the callers hold shows the same through any run not operating on it or reading keys out of it |
| `Isolation.CheckpointHolds` | adapters/dalgo2memory/branching.go:241-273 | A checkpoint holds what was captured through any run, until it is released and not after |
| `Isolation.BranchStartsAsCaptured` | adapters/dalgo2memory/branching.go:253-303 | A branch starts with exactly what the source showed when captured, whatever happened in between |
| `Isolation.BranchGoesItsOwnWay` | adapters/dalgo2memory/branching.go:253-303 | A branch nobody opened shows what was captured, whatever is done elsewhere, and after Release |
| `Calls.CalledIff` | adapters/dalgo2memory/database.go:236-329 | An operation's error, and what is seen after it, depend on what was seen before and on what the key passed says, if and only if a generated id is not written into a chain stored before |
| `Noninterference.StepFollowsIff` | adapters/dalgo2memory/branching.go:50-303 | A step changes what is seen in a database by the database's own call only, if and only if it writes no other value into what its stored keys lead to |
| `Noninterference.OwnCallsAlone` | adapters/dalgo2memory/branching.go:50-303 | Over any run, own operations included: at every step what is seen changes by own calls only if and only if no step writes into what the stored keys lead to; then view and replies are those of the own calls alone |
| `Noninterference.NoInterference` | adapters/dalgo2memory/branching.go:50-303 | Two runs that make the same calls of a database on the same records show the same in it and are answered the same, whatever else they do |
| `Noninterference.KeptApartAlone` | dal/tx_inserter.go:140-162 | Callers who write to no key, parent or array after passing it see exactly what their own calls give |
| `Noninterference.BranchFollowsItsCalls` | adapters/dalgo2memory/branching.go:253-303 | A branch holds what was captured changed by the calls made of it and nothing else, whatever is done to the source, to siblings and to the checkpoint |
| `Isolation.SharedKeyLeaks` | adapters/dalgo2memory/serialized.go:62-62 | A run in which an insert into a branch changes what the source shows |
| `Locks.StepKeeps` | adapters/dalgo2memory/database.go:65-77 | Every step of any worker keeps the lock invariant for all |
| `Locks.WritesAreAlone` | adapters/dalgo2memory/database.go:65-77 | No write overlaps a read, another write or a capture |
| `Locks.EnginesOnlyGrow` | adapters/dalgo2memory/schema.go:220-237 | An engine is registered once a collection and never replaced |
| `Locks.CaptureIsAlone` | adapters/dalgo2memory/branching.go:69-87 | While a capture copies, no other worker can move |
| `Locks.SnapshotIsAnInstant` | adapters/dalgo2memory/branching.go:69-87 | A finished snapshot is what the whole database holds at that instant, though copied engine by engine |
| `Locks.RunsAreSafe` | adapters/dalgo2memory/schema.go:220-237 | In every reachable state all lookups of a collection were given its one engine |
| `Locks.SnapshotsWereHeld` | adapters/dalgo2memory/branching.go:50-87 | Every snapshot taken in a run is what the whole database held in some state of that run |
| `Locks.SomeoneCanMove` | adapters/dalgo2memory/branching.go:69-87 | No deadlock while a worker is not done |
| `Locks.RunsAreBounded` | adapters/dalgo2memory/database.go:65-77 | Every schedule ends within a fixed total of steps |
| `Locks.ReachableIsSafe` | adapters/dalgo2memory/database.go:65-77 | From a database nobody has used: in every reachable state the invariant holds, lookups of a collection agree, no write overlaps an access, some worker that is not done can move; and no schedule is longer than the work there was |
| `Dtql.QueryToDocument` | dtql/serialize.go:48-93 | The document of a query, or the first construct out of scope |
| `Dtql.DocumentToQuery` | dtql/deserialize.go:25-57 | The query of a document, or its first error |
| `Dtql.WriteCond` | dtql/serialize.go:119-162 | Conditions and groups, recursively, with the first error |
| `Dtql.ReadCond` | dtql/deserialize.go:120-183 | Exactly one of comparison, and, or; recursively, with the first error |
| `Dtql.ExprRoundTrips` | dtql/serialize.go:106-117 | An expression comes back if and only if it is plain, and equal only then |
| `Dtql.CondRoundTrips` | dtql/serialize.go:119-162 | A condition comes back if and only if all in it are plain and its groups non-empty |
| `Dtql.ReadCondWrites` | dtql/deserialize.go:120-183 | Whatever is read is written back the same |
| `Dtql.ReadIsPlain` | dtql/deserialize.go:93-118 | Whatever is read is plain |
| `Dtql.EqualIsSame` | dtql/equal.go:77-133 | Equal says two conditions are the same exactly when they are and no array in them holds a list or a map |
| `Dtql.EqualIff` | dtql/equal.go:17-34 | Equal holds of exactly the queries with the same source, columns, condition, order, limit and offset that it can compare, whatever their HAVING, GROUP BY and target |
| `Dtql.EqualPanics` | dtql/equal.go:118-132 | A query with an array that holds a list is written and read back without loss, and comparing it with itself panics |
| `Dtql.ReadOfWritten` | dtql/deserialize.go:25-57 | Clause by clause what writing and reading back does: HAVING, the record function, the id kind and the recordset options are gone |
| `Dtql.WrittenShows` | dtql/serialize.go:44-162 | The document of an accepted query says, field by field, what the query does: source, columns, condition, order, limit and offset |
| `Dtql.QueryRoundTripsIff` | dtql/serialize.go:44-93 | An accepted query comes back Equal if and only if its fields are unqualified, not ids and named, constants and arrays non-nil, groups non-empty, and no array holds a list or a map |
| `Dtql.SameQueryIff` | dtql/equal.go:17-34 | It comes back the same if and only if it is plain, has no HAVING, and names no record function, id kind or recordset option |
| `Dtql.HavingIsDropped` | dtql/serialize.go:48-93 | A query with any HAVING and any target is accepted and loses both, and Equal does not notice |
| `Dtql.AliasIsForgotten` | dtql/deserialize.go:25-57 | A document whose alias repeats its name loses the alias |
| `Dtql.DocumentRoundTripsIff` | dtql/deserialize.go:25-57 | An accepted document is written back the same if and only if its alias is not its name |

## Findings

Where the code does not keep what it or its documentation says. The model follows the code; the last column is the exact condition proved.

| source | what fails | failing input | when it holds |
|---|---|---|---|
| adapters/dalgo2memory/serialized.go:62, adapters/dalgo2memory/database.go:491-496, dal/tx_inserter.go:144-162 | Stored keys are the caller's own pointers, and inserting with an id generator assigns to them. Storing one record object in a source and inserting it into a branch changes the id the source's queries return. No operation on one database should be observed in another | Isolation.SharedKeyLeaks | Isolation.StepSeenIff for one step, Isolation.IsolatedIff for a run: unseen if and only if the nodes written are not on a stored chain, or get the value they had |
| adapters/dalgo2memory/columnar.go:436-441, 241-248 | Candidate rows are documented to give the result of a full scan regardless of strategy. A constant of another Go number type than the column, or a column declared twice, loses rows | IndexScan.LostRows, IndexScan.UnsafeDisagrees | IndexScan.IndexInvisibleIff: the column and constant are Safe |
| adapters/dalgo2memory/database.go:361-372 | An index that selects no row makes the query skip its validation, so a bad query succeeds that a scan rejects | Query.EmptyCandidatesSkipValidation | Query.IndexedAnswerIff: the table is empty, the query valid, the strategy without opinion, or some cell equals the constant |
| adapters/dalgo2memory/database.go:646-668, adapters/dalgo2memory/join.go:158-176 | ORDER BY on a column that mixes numbers and text has no order: the answer depends on how the engine enumerates its rows | Query.MixedColumnTwoAnswers, Resolving.MixedColumnUnsortable | Query.AnswerForgetsOrderIff; without LIMIT Query.UnlimitedForgetsOrderIff: no three kept rows go in a circle |
| adapters/dalgo2memory/group.go:168-181 | The type tag is meant to keep group keys apart; a NUL inside a string moves the boundary between two parts and merges groups | GroupKeys.TwoKeysCollide, GroupKeys.NulMovesBoundary | GroupKeys.KeyInjectiveIff: at most one GROUP BY expression; GroupKeys.KeyInjective: or no NUL |
| adapters/dalgo2memory/group.go:59-77, adapters/dalgo2memory/serialized.go:104-122 | The order of groups follows the rows, and the simple engine enumerates rows in no order, so a grouped answer without a deciding ORDER BY varies | GroupedAnswers.TwoGroupedAnswers | Executor.GroupedOverBaseIff, RowOrder.RowOrderForgottenIff: tied groups in the window show the same output row |
| recordops/compare.go:41-44 | Between records of different kinds the diff lists one `_value` and no removals, so it is no patch of the baseline | DiffOutcome.MixedShapesDoNotPatch | DiffOutcome.MixedPatchIff: the candidate is a map or struct, or the baseline has no field besides `_value` |
| recordops/diff.go:101-121 | A diff is emitted only after advancing, so an error just after id x loses the diff of x, which was already assembled | DiffOutcome.LostDiff | DiffOutcome.ErrorPrefix: emitted are exactly the ids below x; DiffOutcome.SucceedsIff: no error if and only if every stream is in order to its end and all common records compare |
| access/document.go:388-394 | A literal id `*` is written escaped and read back as any id, so the rule widens; a collection `*` cannot be read back | PolicyRoundTrip.StarWidens, PolicyRoundTrip.StarCollectionFails | AccessDocument.PathRoundTripsIff, PolicyDocument.RuleRoundTripsIff: no segment is a lone star, none empty |
| dtql/serialize.go:44-93 | The translation is documented as the single enforcement point of losslessness, but HAVING, the record function, the id kind and the recordset options of a query are dropped without an error, and Equal ignores them | Dtql.HavingIsDropped | Dtql.SameQueryIff: plain, without HAVING and with no target; Dtql.QueryRoundTripsIff for Equal |
| dtql/equal.go:118-132 | Equal panics on two arrays that both hold a list, or a map, at the same place, although such queries are read and written without loss | Dtql.EqualPanics | Dtql.EqualIff: no array holds a list or a map |
| dtql/deserialize.go:25-57 | A document whose alias repeats its name is written back without the alias | Dtql.AliasIsForgotten | Dtql.DocumentRoundTripsIff: the alias differs from the name |
| adapters/dalgo2memory/engine.go:66-81 | A list of updates that fails part of the way leaves the map it was given changed (the engines pass a copy and drop it) | PathUpdate.PartialChangeHappens | PathUpdate.FailedListLeavesPrefix: the map is as it was if and only if the updates before the failing one cancel out |

## Left out

Outside the model:

- JSON and YAML bytes: a stored document is a value, and encoding it is `Norm` (numbers become float64) and `Decode`. Key order, number syntax and duplicate keys in the text are not modelled.
- `reflect` and struct tags: a collection's columns, and a struct's exported fields, are given as lists.
- Floating point: float64 values are reals, so rounding, NaN, infinities and negative zero are left out; Go integers are unbounded here.
- `time.Time` and other values besides nil, bool, int, int64, float64, string, arrays and maps. An array does not say what Go slice type it has.
- The non-faithful columnar mode (`WithColumnarRefBreaking(false)`), which shares references with the caller on purpose.
- Keys in the columnar engine are values: it keeps the caller's key pointer as the serialized engine does, and sharing of key nodes is modelled there.
- External column strategies are modelled as recording every SetValue and ClearValue, one a column; what another implementation answers is its own.
- `applyPathUpdate` mutates nested maps in place; here a document is a value and `Walk` returns the map it leaves together with the error. Aliasing of an update's value with the caller's own map is not captured.
- The text of an unknown-field error does not name the field.
- OFFSET on ungrouped queries: the source ignores it there, and so does the model.
- Printing: `%v`, expression texts and key paths are parameters (`Printer`, `Shower`, `Namer`, `PathPrinter`, `keyId`). `Faithful` is what grouping needs of `%v`, relative to the set of float64 values; `PlainPrinter` has one that satisfies it.
- `sort.SliceStable` is a stable insertion sort here. On a comparator that is no order, Go's block merging may arrange more than twenty rows otherwise; the if-and-only-if results say when that cannot matter.
- The nil map of a row padded by LEFT is an empty map.
- Text of access documents is bytes; `Text` trims ASCII blanks and folds ASCII letters only, so Unicode spaces and letters around names and effects are left out.
- Upstream iterators of a diff that do more than end or fail.
- Keys are nodes at addresses of an explicit memory; a key's collection and parent are never assigned after it is made. Nothing is promised on where a copy lies in memory.
- The hook `ValidateWithKey`: the record package is not part of this model.
- Collections other than serialized ones matter to branching only as what makes Capture fail; no operation touches them.
- Go's map iteration order is any order: `Serialized.SerializedEngine.Rows` may list records in any.
- Contexts, cancellation, nil sources, audit classification, and schema factories that return nil.
- Transaction rollback: the source undoes nothing, and no atomicity is claimed over several operations.
- Locks: a worker does not re-enter the database handle, and one access to an engine is one step.
- The random and time-based id generators: a generator is any function of the attempt.
- `orm`, `ddl`, `dbschema`, `recordset`, mocks and file adapters: delegation or generated code.

Stated weaker than the source, or under a condition:

- Columnar.ColumnarEngine.Load: the row's data; decoding it into a typed target is not modelled.
- IndexScan.IndexInvisibleIff: scalar constants only, because Go's `==` panics on lists and maps.
- IndexScan.SafeAgrees: scalar constants only, for the same reason.
- IndexScan.UnsafeDisagrees: scalar constants only, for the same reason.
- Diff.DiffFunc: the consumer reads to the end; one that stops early is not modelled.
- RecordDiff.CompareMap: `IsNilLike` knows the untyped nil only, so WithAbsentEqualsNil on a nil pointer, slice or map is not modelled.
- Grouping.EvalAggregate: an aggregate without arguments over at least one row indexes out of range in the source; it is an error here. The `dal` package builds aggregates with one argument.
- KeyMemory.KeyHeap.Clone: keys without an id but with an id kind are not modelled; the record package is not part of this model.
- Serialized.SerializedEngine.Update: a stored JSON null panics in the source; it is an error here.
- Query.AnswerForgetsOrderIff: asks for distinct ids and for distinct result keys. Two rows of one record object inserted twice share a key; they may then look alike wherever they stand.
- Query.UnlimitedForgetsOrderIff: asks for the same.
- RowOrder.RowOrderForgottenIff: asks for GROUP BY values that are scalars without NUL, for sort keys that are all numbers or all not, for no field that is not grouped by, and for MIN and MAX over values that are equal when they compare equal, because they report the first seen of those that do.
- Executor.GroupedOverBaseIff: asks for the same.
- GroupedAnswers.RowPerTuple: asks for GROUP BY values that are scalars without NUL, as where a NUL may stand keys collide.
- Contests.DecidedIffNoCircle: is about every place of the answer; with a LIMIT the exact condition is the one of `PrefixForgetsOrderIff`.
- Isolation.IsolatedIff: leaves runs that operate on the database itself to `Noninterference.OwnCallsAlone`.
- Isolation.BranchGoesItsOwnWay: leaves a branch that is itself operated on to `Noninterference.BranchFollowsItsCalls`.
- Query.KeepRows: an equality between two lists, or two maps, panics in the source; here equal contents match.
- Join.NestedLoop: the same of an ON condition.
- AnswerOrder.AnswerIsInOrder: asks for sort columns of one kind, as no order need exist otherwise.
- AnswerOrder.JoinIsInOrder: asks for the same.
- AggregateLaws.BestIs: asks for values of one kind, for the same reason.
- ShownChanges.PatchShows: asks for documents as JSON leaves them, which `ShownChanges.NormalStays` keeps.
- Patch.DiffIsPatch: asks for common records of one shape; `DiffOutcome.MixedPatchIff` says what happens otherwise.
