# Verification of the query language, the statement store and the merge protocol

Dafny models of three parts of a node that stores signed statements about objects, and proofs about them.
`dafny verify dfyconfig.toml` checks everything.

**The query language** (`mc/query`). A query text goes through a backtracking recogniser that leaves a list
of tokens, a stack machine that runs the recognised actions, a query tree, and a compiler that prints SQL
and picks the tables to read. A second, direct interpreter evaluates the same tree over a list of statements.

- `Grammar` holds the grammar as a value, `Peg` says what it derives, `Recognizer` is the backtracking
  recogniser with its shared position and growing token array, `ParseState` the stack machine. `Interpret`
  runs the grammar directly, performing actions while it matches; it is the bridge to `Reference`, a plain
  recursive descent reader. `ParserAgrees`, `RulesAgree`, `CriteriaAgree`, `ClausesAgree` and `QueryAgrees`
  prove rule by rule that the two read every text alike. `Printer`, `RoundTrip` and `ParsePrint` print queries
  and prove that parsing undoes it. `ParseQuery` puts the parser together.
- `Sql` is the SQL the compiler prints: a lexer, a grammar with SQL's precedence, column scoping, and the
  results a database may return for a SELECT over the three tables (inner joins, WHERE, DISTINCT, aggregates,
  ORDER BY, LIMIT). `Compile`, `CompileText` and `CompileQuery` are the compiler and what its text parses to.
  `Meaning` says what a query means without SQL, filter then project, and proves that compiling preserves it;
  `Pipeline` states it from query text to SQL text.
  `Rows` reads rows back and checks scoping. `Eval` is the interpreter; `EvalAgrees` and `IndexJoin` say
  where it and the compiled SQL agree. `Finding` says of the stored statements themselves what queries find, how
  often and in what order, and where the interpreter differs.

**The store** (`mcnode/db.go`, `mcnode/ds.go`, `mcnode/gc.go`, `mc/query/stmt.go`). `Tables` states the
invariant that ties the three tables together; it is the hypothesis under which leaving out joins is correct.
`StoreInv`, `Batches`, `Store` and `Deleting` are the writes with their transactions and rollbacks, `Datastore`
the object store, `Gc` and `NodeGc` the garbage collector. Calls into a database may fail at any point: each
class has a function that says which of its calls do, so that every error path is covered and "nothing failed"
can be said.

**Merge and push** (`mcnode/proto.go`, `mcnode/node.go`). `MergeData` is one exchange of missing objects with
a peer, on both ends. `MergeStream` is the merge of a statement stream as a transition system: a producer, a
bounded work channel, workers that look up keys, ask and take messages one at a time, a result channel, and other
sessions that write to the same stores, in every interleaving and whatever peers answer. `MergeExchange` proves
that a worker's steps refine the exchange of `MergeData`, `MergeRuns` what every run keeps and what a finished run
has done, `MergeLiveness` that every run finishes. `Verify` checks statements. `Push` says who may push, and
`PushSession` is the receiving end of a push together with the merge it feeds, as one transition system.
`PushQuery` is the sending end and `PushEnds` the two ends together; `Limits` says how ORDER BY orders rows, and
which of them LIMIT may keep and cut.

Where the code does less than one would expect, the model keeps the code and states exactly when it is right:

- The count of a delete with `wki` criteria counts matching references, not statements; with LIMIT 1 that is the
  same (`Deleting.IndexCount`).
- The garbage collector drops the error of `addKeys`, so an archive inside an envelope hides the objects of
  its later siblings (`Gc.GcLosesNothing`, `Gc.ArchiveHidesSiblings`).
- A cancelled context, or a row the database fails to deliver, ends the collector's query early without an error,
  and the objects of the statements not seen are removed (`Gc.CutShortLosesNothing`, `NodeGc.CutShortLoses`,
  `NodeGc.CancelledRunLoses`).
- The check for missing data counts answers; a peer that answers a key already held can stand in for a
  missing one (`MergeData.AnyPeerCompletes`).
- With LIMIT a push may send statements outside the namespaces it declared, unless it is ordered by namespace
  (`PushQuery.LimitedPush`, `PushQuery.NamespaceOrderIsSafe`).
- The join with Refs tests one reference at a time, the evaluator all of them
  (`IndexJoin.AgreeExactlyOnOneRef`).
- A row the database fails to deliver ends a result early without an error (`Store.SqlDb.Query`).
- A wildcard cuts its prefix before the dot, so `a.*` stands for `ab` too, in rules and in queries
  (`Push.WildcardAdmits`, `Meaning.WildcardReads`).
- An empty object counts as absent (`Datastore.RocksDs.Has`).

## Model

| member | source | states |
|---|---|---|
| `Grammar.Body` | mc/query/query.peg:60-64 | The two recursive rules are well founded: CompoundCriteria starts with neither of them, MultiCriteria only with CompoundCriteria, both consume input and every repetition inside consumes input, so recognition always ends |
| `Grammar.GrammarExpr` | mc/query/query.peg:14-133 | The whole grammar is well founded: no rule calls itself before input is consumed and no repetition can match nothing |
| `Recognizer.Recognizer.Expand` | mc/query/query.peg.go:474-481 | A full token array is doubled and keeps its tokens |
| `Recognizer.Recognizer.Add` | mc/query/query.peg.go:446-448 | Appends one token after those already there |
| `Recognizer.Recognizer.MatchWord` | mc/query/query.peg.go:718-741 | A literal is matched character by character: success exactly when it stands at the position, which then moves past it |
| `Recognizer.Recognizer.Run` | mc/query/query.peg.go:672-1000 | The recogniser accepts exactly what the grammar derives, the tokens added are exactly the post-order of that derivation whatever was tried and undone on the way, and a called rule that fails restores position and token index |
| `Recognizer.Recognizer.RunAlt` | mc/query/query.peg.go:1617-1641 | An alternative that fails is undone before the next is tried |
| `Recognizer.Recognizer.RunStar` | mc/query/query.peg.go:1607-1673 | A repetition keeps the tokens of its successful rounds only; the round that fails, for example the OR tried inside ORDER, leaves nothing |
| `Recognizer.Recognizer.RunRule` | mc/query/query.peg.go:1599-1681 | A rule adds its own token after those of its right-hand side, spanning what it matched |
| `ParseState.ParseState.PopStrings` | mc/query/parse.go:51-60 | Popping the whole stack yields the selectors in the order they were pushed |
| `ParseState.ParseState.PopSpecs` | mc/query/parse.go:125-134 | Popping the whole stack yields the order items in the order they were pushed |
| `ParseState.ParseState.AddCriteria` | mc/query/parse.go:78-123 | Each criterion action replaces its operands on the stack by the criterion built from them, operands in source order; an overflowing number is recorded and counts as 0 |
| `ParseState.ParseState.SetField` | mc/query/parse.go:36-76 | Each set action writes its field of the query from the stack or the captured text and leaves the rest of the query alone |
| `ParseState.ParseState.AddOrder` | mc/query/parse.go:136-147 | An order item is built from its column, and a direction changes the item below it |
| `ParseState.ParseState.Execute` | mc/query/query.peg.go:563-642 | Running a token list performs its actions in order, each with the text captured last |
| `Interpret.ExecuteIsInterpret` | mc/query/query.peg.go:563-642 | For every grammar expression and input: matching first and executing the token list afterwards equals performing the actions while matching, with whatever fails undone |
| `RulesAgree.SimpleAgrees` | mc/query/query.peg:66-102 | The rules for one criterion fail where the reference reader fails and otherwise push exactly its criterion |
| `CriteriaAgree.CompoundAgrees` | mc/query/query.peg:62-64 | NOT, parentheses and single criteria push exactly the tree recursive descent returns; NOT binds the next atom only |
| `CriteriaAgree.TailAgrees` | mc/query/query.peg:60 | AND/OR chains nest to the left without precedence, whatever else is on the stack |
| `ClausesAgree.CompoundSelectorAgrees` | mc/query/query.peg:41 | From an empty stack setCompoundSelector finds exactly its own selectors and leaves the stack empty |
| `QueryAgrees.OrderListAgrees` | mc/query/query.peg:104-120 | From an empty stack setOrder finds exactly its own items and leaves the stack empty |
| `QueryAgrees.GrammarAgrees` | mc/query/query.peg:14-133 | Every text: the grammar with its stack actions accepts exactly when the reference reader does, then has built its query and emptied the stack |
| `ParseQuery.TokensBuildQuery` | mc/query/parse.go:45-178 | The token list of any accepted text never pops an empty stack and never fails a type assertion, ends with an empty stack, and builds the tree defined recursively |
| `ParseQuery.ParseQuery` | mc/query/parse.go:8-23 | Parses any text to the query of the reference reader, a syntax error exactly where there is none, and the last overflowing number otherwise |
| `RoundTrip.CriteriaReads` | mc/query/query.peg:60-102 | A printed criteria tree reads back as that tree, in front of anything that does not continue it |
| `RoundTrip.OrderTail` | mc/query/query.peg:88-108 | ORDER behind a criterion is not taken for OR: an order list reads back whole |
| `RoundTrip.NamespaceReads` | mc/query/query.peg:52-56 | Every well-formed namespace pattern reads back whole |
| `ParsePrint.ParseUndoesPrint` | mc/query/query.peg:14-133 | Parsing the canonical text of any well-formed query returns that query |
| `ParsePrint.ParseReadsPrint` | mc/query/parse.go:8-23 | Parsing the canonical text of any query of well-formed shape, with numbers of any size, returns that query when every number fits an int, and otherwise an error with the text of the last one that does not |
| `ParsePrint.LimitTooLarge` | mc/query/parse.go:149-156 | A well-formed query followed by a LIMIT greater than the largest int is an error that names that number, never a query without limit |
| `ParsePrint.CriterionTooLarge` | mc/query/parse.go:87-99 | A timestamp or counter compared with a number greater than the largest int is an error that names that number |
| `ParsePrint.ParsedExactlyWellFormed` | mc/query/query.peg:14-133 | The queries the parser can return are exactly the well-formed ones |
| `ParsePrint.OneCharacterNames` | mc/query/query.peg:124-129 | The characters that namespaces, ids, publishers and references may have, by the texts that parse to a name of one of them |
| `Compile.CollectIndexCriteriaTables` | mc/query/compile.go:580-604 | The table map gains Refs exactly when some criterion, under any nesting, names `wki` |
| `Compile.RefusesNoNumbers` | mc/query/eval.go:357-378 | Compiling a well-formed query is refused exactly for MIN and MAX of anything but timestamp and counter |
| `CompileText.LexCriteria` | mc/query/compile.go:206-241 | The printed criteria text is the token list of the tree |
| `CompileText.ParseCriteria` | mc/query/compile.go:206-241 | Reading the printed criteria with SQL precedence (comparison over NOT over AND over OR) gives the original boolean tree |
| `CompileQuery.ParseWhereTokens` | mc/query/compile.go:159-175 | Prefixing the namespace test with AND captures no part of the criteria |
| `CompileQuery.JoinTables` | mc/query/compile.go:44-55 | Adds one join for each table of the map, each once, in whatever order the map yields them |
| `CompileQuery.CompileFrom` | mc/query/compile.go:36-55 | The FROM text is the one chosen for the query, with Refs joined exactly when a criterion needs it |
| `CompileQuery.CompileQuery` | mc/query/compile.go:31-86 | The text parses to exactly the planned SELECT; compilation fails exactly on a function applied to a column it does not allow; the row selector is the query's |
| `Pipeline.Prepare` | mcnode/proto.go:146-161 | Any query text, parsed and compiled: the SQL text that comes out, read by SQL's grammar on any store in step, allows exactly the answers the parsed query means; otherwise it is the parser's error or a function applied to a column it does not allow |
| `Meaning.BaseFits` | mc/query/compile.go:481-551 | The tables chosen always have every column the query uses |
| `Meaning.FromRowsAreRecords` | mc/query/compile.go:36-55 | Over stores in step, the rows of each FROM clause, Refs joined or not, are the records of the statements in order |
| `Meaning.LikePrefix` | mc/query/compile.go:194-204 | The LIKE pattern of a wildcard namespace matches exactly the names with that prefix up to ASCII case |
| `Finding.FoldsLetters` | mc/query/compile.go:194-204 | Up to ASCII case means: the letters A to Z and no other characters |
| `Meaning.WildcardReads` | mc/query/compile.go:194-204 | A wildcard query reads exactly the namespaces that begin, up to case, with what stands before its dot: `a.*` reads `ab` |
| `Meaning.WhereIsSelects` | mc/query/compile.go:159-175 | A row passes the compiled WHERE exactly when its record satisfies namespace and criteria |
| `Meaning.ProjectIsRow` | mc/query/compile.go:88-118 | The compiled select list shows exactly the selector's values of the record |
| `Meaning.SortIsRow` | mc/query/compile.go:177-192 | The compiled ORDER BY sorts by exactly the query's columns and directions |
| `Limits.SortIsLexicographic` | mc/query/compile.go:177-192 | A row may come before another exactly when they agree on all keys, or the first key they differ in puts it first: the smaller number or the text earlier in the alphabet, or the other way round under DESC |
| `Meaning.CompilePreservesMeaning` | mc/query/compile.go:31-86 | For every well-formed query and every store in step: the results the compiled SELECT allows are those of filtering and projecting the stored statements, with DISTINCT, aggregates, order and LIMIT |
| `Meaning.TableChoiceIsInvisible` | mc/query/compile.go:31-86 | Reading Statement alone, Envelope alone or the two joined allows the same results |
| `Rows.ScanReadsSelector` | mc/query/compile.go:243-278 | The row selector reads a selected row as the selector's object: the select list matches its slots in number, order and type |
| `Rows.AnswersScan` | mc/query/compile.go:294-440 | No row of an answer fails to scan, and each reads back as the object of a selected record |
| `Rows.AggregateScans` | mc/query/compile.go:378-440 | The one row of a function query reads back as a number: COUNT as that of the selected records, or of the different namespaces, publishers or sources among them; MIN and MAX as a timestamp or counter of a selected record that bounds all others, 0 when none is selected |
| `Rows.CompiledIsWellScoped` | mc/query/compile.go:36-55 | In every compiled SELECT each column of SELECT, WHERE, ORDER BY and JOIN belongs to exactly one table of FROM |
| `Eval.FilterEvals` | mc/query/eval.go:191-266 | The closure built for a criteria tree decides exactly the tree's truth, and building it never fails on a well-formed tree |
| `Eval.FirstDistinctMeans` | mc/query/eval.go:454-458 | What a simple result set collects are the values up to some point: all of them without a limit or when they are fewer, otherwise exactly `limit` different ones |
| `Eval.SimpleResultSet.End` | mc/query/eval.go:460-468 | The set is listed in some order, each value once |
| `Eval.MinMax` | mc/query/eval.go:320-350 | The extreme is a member and bounds all others; 0 for an empty list; an error exactly when some value is not a number |
| `Eval.EvalQuery` | mc/query/eval.go:11-33 | Evaluates filter, then the selector's result set, then the function over the distinct values, with the limit where each result set applies it |
| `EvalAgrees.ValuesAgree` | mc/query/eval.go:396-472 | Plain queries without LIMIT: simple selectors show the same set of values as the compiled SQL |
| `EvalAgrees.CompoundsAgree` | mc/query/eval.go:474-507 | Plain queries: compound selectors of several columns show the same objects as often as the compiled SQL |
| `EvalAgrees.CountsAgree` | mc/query/eval.go:315-317 | Plain queries: COUNT of anything but timestamp and counter reads back as the same number |
| `EvalAgrees.ExtremesAgree` | mc/query/eval.go:320-350 | Plain queries: MIN and MAX of timestamp are the same number, 0 when nothing is selected |
| `IndexJoin.IndexHits` | mc/query/compile.go:44-55 | Before LIMIT, a compiled `SELECT id` or DELETE with `wki` selects an id once for each single reference of its statement that satisfies the query |
| `IndexJoin.IndexRows` | mc/query/compile.go:44-55 | What a compiled `SELECT id` or DELETE with `wki` delivers: an id at most once for each such reference, and without LIMIT exactly so often |
| `IndexJoin.SafeIndexAgrees` | mc/query/eval.go:131-142 | Without NOT above `wki` and without AND over two `wki` sides, one reference at a time decides like the whole set |
| `IndexJoin.IndexAgreesWithEval` | mc/query/compile.go:206-241 | For such criteria the compiled query selects exactly the statements the evaluator selects, among those with a reference |
| `IndexJoin.AgreeExactlyOnOneRef` | mc/query/eval.go:191-266 | Join and evaluator agree on every `wki` tree a query text can carry exactly for statements with one reference, or with several of which no query text can name any; otherwise a NOT tells them apart |
| `Statements.StatementRefSet.MergeStatement` | mc/query/stmt.go:19-30 | Adds exactly the references of the statement, at any envelope depth |
| `Statements.StatementRefSet.MergeEnvelope` | mc/query/stmt.go:44-48 | Adds exactly the references of all statements of the envelope |
| `Statements.StatementRefSet.List` | mc/query/stmt.go:50-58 | Lists every reference once |
| `Statements.StatementRefs` | mc/query/stmt.go:7-11 | Builds exactly the set of references |
| `Statements.RefsOfEnvelope` | mc/query/stmt.go:44-48 | An envelope refers to what some statement inside it refers to |
| `Statements.NamesBodyByBody` | mcnode/gc.go:120-153 | A key is among those a statement names, and an identifier among its references, exactly when some simple statement at some depth has it as its object or a dependency, or among its references |
| `Statements.SourceEndsChain` | mc/query/stmt.go:60-73 | The source of a statement is the publisher at the end of its chain of first inner statements, at any depth; an empty envelope ends the chain |
| `StoreInv.AddKeepsInv` | mcnode/db.go:40-65 | Storing a new statement's rows keeps the three tables an exact index and appends it to the contents |
| `StoreInv.DeleteKeepsInv` | mcnode/db.go:236-252 | Deleting an id from the three tables keeps them an exact index and removes exactly its statement |
| `StoreInv.EveryHistoryIsExact` | mcnode/db.go:28-110 | From empty tables, every history of inserts, skips, rollbacks and deletes keeps the same ids in Statement and Envelope, each envelope the function of its statement, Refs exactly the references, and counters growing |
| `Store.SqlDb.InsertRefs` | mcnode/db.go:56-63 | Inserts one row for each reference, in any order |
| `Store.SqlDb.Put` | mcnode/db.go:28-66 | Stores the statement whole or changes nothing; fails only on a stored id or a failing database |
| `Store.SqlDb.PutBatch` | mcnode/db.go:68-110 | Stores all of the batch or nothing; a constraint fails only when an id repeats |
| `Store.SqlDb.Merge` | mcnode/db.go:431-441 | Reports whether the statement was new; a stored id is no error and changes nothing |
| `Store.SqlDb.MergeBatch` | mcnode/db.go:443-496 | The contents become the fold of Merge over the batch, the count is the number of statements stored, no constraint ever fails, and on an error nothing changed |
| `Batches.MergedConcat` | mcnode/db.go:443-496 | Merging a concatenation equals merging the parts in order |
| `Batches.MergedCount` | mcnode/db.go:443-496 | A merge stores as many statements as the batch has new ids |
| `Batches.MergedTwice` | mcnode/db.go:443-496 | Merging is idempotent |
| `Batches.FirstWins` | mcnode/db.go:443-496 | Of the statements that share a new id the first is stored |
| `Batches.MergedIds` | mcnode/db.go:443-496 | What is stored stays in place, and the ids are those of both sides, each once |
| `Batches.MergedFresh` | mcnode/db.go:68-110 | On new and different ids merging is appending: MergeBatch and PutBatch agree |
| `Store.SqlDb.Query` | mcnode/db.go:134-156 | Delivers the objects of the answer's rows, a prefix of them only when the database fails meanwhile, which goes unreported; each is what the selector shows of a selected record, or the number of the function over all of them; no row fails to scan |
| `Store.SqlDb.QueryStream` | mcnode/db.go:158-191 | The same as a stream; a cancelled context closes it early, which goes unreported too |
| `Store.SqlDb.DeleteRows` | mcnode/db.go:236-252 | Removes exactly the rows of one id from all three tables |
| `Store.SqlDb.Delete` | mcnode/db.go:211-275 | Removes exactly the statements whose ids were delivered and counts the ids delivered; on an error nothing changed |
| `Deleting.PlainDeletesSelected` | mcnode/db.go:211-275 | Without `wki` only statements the query selects are deleted, and without LIMIT all of them |
| `Deleting.CountExactly` | mcnode/db.go:211-275 | The count is the number of statements removed exactly when no id was delivered twice |
| `Deleting.PlainCount` | mcnode/db.go:211-275 | Without `wki` the count is the number removed: the number of statements selected, up to the LIMIT |
| `Deleting.IndexCount` | mcnode/db.go:211-275 | With `wki` the count is sure to be the number removed exactly when no statement has two references that satisfy the query on their own, or with LIMIT 1 |
| `Deleting.UnlimitedIndexCount` | mcnode/db.go:211-275 | Without LIMIT it is so for each answer the database may give |
| `Deleting.DeleteOvercounts` | mcnode/db.go:211-275 | `wki = a OR wki = b` counts a statement with both references twice |
| `Finding.FoundBySource` | mc/query/stmt.go:60-73 | `source = p` finds a stored statement exactly when p is the publisher at the end of its chain of first statements |
| `Finding.PutThenFindBySource` | mcnode/db.go:40-65 | So it is right after the statement was stored, whatever else the store holds |
| `Finding.FoundByReference` | mcnode/db.go:56-63 | `wki = w` finds a stored statement exactly when some simple statement inside it refers to w |
| `Finding.EachNameOnce` | mc/query/compile.go:141-146 | A namespace, publisher or source query lists each value of the selected records once, as many as there are or as LIMIT says |
| `Finding.EachRecordOnce` | mc/query/compile.go:31-86 | Any other selector lists a row for each selected record, as many as there are or as LIMIT says |
| `Finding.FoundByNumber` | mc/query/compile.go:206-241 | Each comparison with a timestamp or a counter is the comparison of numbers it says |
| `Finding.FoundByName` | mc/query/compile.go:206-241 | Ids and publishers are compared as texts |
| `Finding.DeliveredInTime` | mc/query/compile.go:177-192 | ORDER BY timestamp delivers statements in that order or, with DESC, the reverse; with a LIMIT what is delivered comes no later than what is not |
| `Finding.EvalSource` | mc/query/eval.go:64-67 | The evaluator compares the publisher where the compiled query compares the source |
| `Finding.EvalCounter` | mc/query/eval.go:122-125 | The evaluator takes the counter of every statement to be 0 |
| `Finding.EvalWildcard` | mc/query/eval.go:163-180 | Its wildcard compares letter by letter: `foo.*` does not find `Foo.x`, which the compiled query finds |
| `Datastore.PrefixRoundTrip` | mcnode/ds.go:116-142 | Stripping and restoring the key prefix is the identity exactly on SHA2-256 keys |
| `Datastore.HashDigest` | mc/util.go:21-33 | The key of data is its digest behind the two bytes 0x12 and 0x20 |
| `Datastore.RocksDs.Put` | mcnode/ds.go:67-71 | Stores data under its own digest and keeps every object under its own digest |
| `Datastore.RocksDs.PutBatch` | mcnode/ds.go:73-90 | Stores every object of the batch under its own digest, or none; all other objects keep their data; the keys come back in order |
| `Datastore.RocksDs.Has` | mcnode/ds.go:92-102 | True exactly when non-empty data is stored under the key: an empty object counts as absent |
| `Datastore.RocksDs.Get` | mcnode/ds.go:104-106 | The data under the key, if any |
| `Datastore.RocksDs.Delete` | mcnode/ds.go:108-110 | Removes exactly that key |
| `Datastore.RocksDs.IterKeys` | mcnode/ds.go:116-142 | Every stored key once, with its prefix restored; some of them when cancelled |
| `Gc.CollectsExactlyClean` | mcnode/gc.go:120-146 | Collecting reaches the end exactly when no body at any depth is an archive or unset, and never collects a key that is not named |
| `Gc.CollectsInFront` | mcnode/gc.go:120-146 | Collecting yields exactly the keys named in front of the first archive or unset body in document order, and fails exactly when there is one |
| `Gc.GcDb.AddKeys` | mcnode/gc.go:120-146 | Collects exactly the keys before the first archive or unset body |
| `Gc.GcDb.MergeKeys` | mcnode/gc.go:155-176 | All the keys are in the table afterwards, or on an error nothing changed; duplicates are skipped |
| `Gc.GcDb.Merge` | mcnode/gc.go:79-118 | After a success the table has gained exactly the keys collected from every statement, whatever the batches of 1024 |
| `Gc.GcDb.Gc` | mcnode/gc.go:178-207 | Removes exactly the objects it was given whose keys are not in the table, as many as the listing yields before a cancellation cuts it, and so leaves exactly those in the table when it is not cut; counts the removed ones on success and failure alike |
| `Gc.GcIsExact` | mcnode/gc.go:79-118 | When every stored statement is free of archive and unset bodies, exactly the objects named by some statement are kept |
| `Gc.GcKeepsOnlyReferenced` | mcnode/gc.go:178-207 | On any statements, what is kept is named by some statement |
| `Gc.GcLosesNothing` | mcnode/gc.go:91-99 | No stored object that a statement names is ever lost exactly when every object key named behind an archive or unset body is also named in front of the first one of some statement |
| `Gc.CutShortLosesNothing` | mcnode/gc.go:79-118 | A run that did not see every statement is sure to lose no object that one of any given statements names exactly when every object key they name is named by one it saw, in front of the first archive or unset body, or when its listing was cut before the first key |
| `Gc.CleanCutShort` | mcnode/gc.go:79-118 | When the statements seen are clean: exactly when every object key named is named by one of them, or no key was listed |
| `Gc.ArchiveHidesSiblings` | mcnode/gc.go:133-145 | An archive in an envelope hides its later siblings: their objects are removed although they are named |
| `NodeGc.DeliversContents` | mcnode/gc.go:80-88 | The query of the collector delivers every stored statement and only those |
| `NodeGc.DoGc` | mcnode/gc.go:17-35 | On an offline node: removes exactly those of the listed objects whose keys were not collected from the statements seen, where a cancelled context may cut the query and the listing short without an error; only when neither is cut and no database call fails are those all the stored statements and all objects. When a step fails only such objects are gone, and none at all unless the keys of every statement delivered had been collected; the count is the number removed on success and failure alike; an online node is left alone |
| `NodeGc.SecondRunRemovesNone` | mcnode/gc.go:17-35 | A second run, which collects again into a new table and may see the statements in another order, removes none |
| `NodeGc.CutShortKeeps` | mcnode/gc.go:79-118 | A run over clean statements that was cut short without a report keeps exactly the objects named by the statements it saw, of those it was given |
| `NodeGc.CutShortLoses` | mcnode/gc.go:79-118 | A statement whose row was not delivered loses its object |
| `NodeGc.CancelledRunLoses` | mcnode/gc.go:17-35 | A cancelled run in which nothing failed reports success and has removed the object of a stored statement |
| `MergeData.MergeObjectKey` | mcnode/proto.go:791-804 | The map gains the text with the key it decodes to, or fails exactly when it does not decode |
| `MergeData.MergeStatementKeys` | mcnode/proto.go:745-789 | Accepts exactly statements without archive or unset bodies whose keys decode, and then collects the same keys as the garbage collector |
| `MergeData.DataHandler` | mcnode/proto.go:179-241 | Sends the objects it holds of those asked for, in order, then exactly one end, or one error when a key does not decode or the datastore fails |
| `MergeData.DoMergeData` | mcnode/proto.go:655-733 | The count is the number of objects put, on success and failure alike; objects are only added, under their own hash; and no error from a peer that answers only what it is asked means nothing is missing |
| `MergeData.ReceiveKeeps` | mcnode/proto.go:687-722 | Receiving only adds objects under their own hash and closes one key for each |
| `MergeData.ReceivesExactly` | mcnode/proto.go:680-722 | Receiving ends without error exactly when the messages up to the end message are objects of different keys that were open, each with the hash its key says, and then their number is the count |
| `MergeData.AskedOnlyCompletes` | mcnode/proto.go:728-732 | With answers only to what was asked, no error means every key has its object |
| `MergeData.HonestPeerCompletes` | mcnode/proto.go:205-240 | With a peer that follows dataHandler, whatever it holds, no error means nothing is missing |
| `MergeData.HonestPeerDelivers` | mcnode/proto.go:205-240 | For keys as the node makes them, the exchange with a peer that follows dataHandler ends without error exactly when that peer holds every missing object |
| `MergeData.AnyPeerCompletes` | mcnode/proto.go:655-733 | For any keys and store: no error means nothing missing for whatever the peer answers exactly when no missing object can be made up for, that is when there are fewer other keys that data hashes to than are asked for |
| `MergeData.FoolableGenuine` | mcnode/proto.go:655-733 | For keys that all have data: exactly when nothing is missing or everything is asked for |
| `MergeExchange.CheckAsksMissing` | mcnode/proto.go:655-666 | A worker that looks up a key asks for it exactly when its object is missing, or held empty, in the datastore at that moment |
| `MergeExchange.ExchangeIsMergeOutcome` | mcnode/proto.go:655-733 | A worker of the merge, taking the peer's messages one by one, stores and counts what DoMergeData does, and goes on to its next batch exactly when that ends without error |
| `MergeExchange.MessageSound` | mcnode/proto.go:687-722 | Every message keeps account: a key that is not open any more has its object, and the datastore stays addressed by content |
| `MergeExchange.BatchComplete` | mcnode/proto.go:728-732 | A worker that goes on after being answered only what it asked for has every object of its batch in the datastore |
| `MergeExchange.HandlerAnswersAsked` | mcnode/proto.go:179-241 | Whatever its store holds, every message of a peer that follows dataHandler answers what was asked |
| `MergeRuns.EveryRun` | mcnode/proto.go:503-614 | The run invariant holds in every state of every interleaving of the producer, the workers with their exchanges and other sessions, whatever peers answer |
| `MergeRuns.MergeCompletes` | mcnode/proto.go:503-614 | A run without error, with peers that answer only what they are asked, has stored every statement of the stream, each checked, and every object and dependency they name at any depth is in the datastore under its own hash |
| `MergeRuns.StatementsStored` | mcnode/proto.go:519-602 | Whatever peers answer, a run without error has checked and stored every statement of the stream |
| `MergeRuns.MergeConserves` | mcnode/proto.go:503-614 | On success and failure alike the object count is the number of objects put by the run's workers, and the statement count the number of statements its batches inserted, which are stored under different ids |
| `MergeRuns.AllCollected` | mcnode/proto.go:602-614 | At the end every worker is gone and each left exactly one result, all consumed |
| `MergeRuns.TaintedStreamsStop` | mcnode/proto.go:519-602 | Whatever arrives and whatever peers answer, the statements handed to the store are the first of the stream and end before the first value that fails a check |
| `MergeRuns.FailedRunsStop` | mcnode/proto.go:584-602 | A run that has failed hands no more statements to the store and no more keys to its workers, and stays failed |
| `MergeRuns.BatchesAreFull` | mcnode/proto.go:515-602 | Statements go to the store by exactly 1024 and keys to a worker once there are 1024; only the last batch of each may be smaller |
| `MergeRuns.EarlyResultsFail` | mcnode/proto.go:553-562 | A result received before the work channel closes carries an error |
| `MergeLiveness.FailsExactlyForCause` | mcnode/proto.go:503-614 | A run that has returned reports an error exactly when, at some step, the context was cancelled, the store refused a batch, a stream or datastore call failed, a value was no complete statement signed by its publisher with keys to fetch, or a peer sent what was not to come |
| `MergeLiveness.RunsStart` | mcnode/proto.go:503-519 | On any stores that are in order a run starts and takes whatever comes first on the stream; it fails at once exactly when that value is a bad one |
| `MergeLiveness.NeverStuck` | mcnode/proto.go:508-613 | Until the producer returns some step is possible without any failure: a worker in an exchange can look up a key, ask or take a message; never stuck on a full work channel with nobody to drain it, never waiting for a result nobody will send |
| `MergeLiveness.RunsEnd` | mcnode/proto.go:508-653 | Under every schedule a run that has received so much of the stream has taken a bounded number of steps |
| `Verify.VerifyStatementCacheKeys` | mcnode/node.go:285-312 | On any statement, signed or not, verification through the key cache gives the verdict or the error of decoding the key directly, and the cache always agrees with decoding |
| `Verify.CheckedAreSigned` | mcnode/node.go:267-311 | The checks let a statement through exactly when it is complete and the key its publisher is named after accepts its signature over the rest of it |
| `Verify.EachFieldNeeded` | mcnode/node.go:267-283 | Each field is needed by itself: a complete statement stays complete with another value of it exactly when that one is there |
| `Verify.CompletePasses` | mcnode/node.go:267-283 | A statement with all fields is complete, whatever small values they have |
| `Verify.MadeStatementsPass` | mcnode/node.go:218-312 | A statement made with a key that accepts what it signs passes the checks of every node |
| `Verify.CheckAndCollect` | mcnode/proto.go:531-551 | The producer's checks accept exactly complete statements signed by their publisher whose keys can be collected, and then collect all keys they name |
| `Verify.DoImport` | mcnode/node.go:199-216 | The statements are merged when every one is complete and signed by its publisher, and only then is the result no error of the checks; one bad statement anywhere and nothing is stored. The count is the number of statements stored |
| `Verify.StatementMaker.MakeStatement` | mcnode/node.go:218-265 | A new statement carries its publisher, namespace and body, a signature over all of it, and an id with a counter used only once; it fails exactly on an unknown body or where signing does, and the counter is spent then too |
| `Verify.IdsDetermine` | mcnode/node.go:218-224 | Equal ids have the same publisher, time and counter |
| `Verify.CountersMakeIdsDiffer` | mcnode/node.go:161-223 | Ids made with different counters differ, whatever the times |
| `Push.PeerAuth.AuthorizeAllow` | mcnode/node.go:488-505 | A namespace is allowed exactly when some rule is `*`, its own name, or a wildcard whose prefix it has |
| `Push.PlainRuleAdmits` | mcnode/node.go:488-505 | `*` admits every namespace; a rule that is neither that nor a wildcard admits its own name alone |
| `Push.WildcardAdmits` | mcnode/node.go:494-498 | A wildcard admits exactly the names that begin with what stands before its dot, so also those that go on without a dot |
| `Push.WildcardAdmitsMore` | mcnode/node.go:494-498 | `a.*` admits `ab` |
| `Push.PeerAuth.Authorize` | mcnode/node.go:466-486 | A peer is let in exactly when it names at least one namespace and its rules allow every one |
| `Push.PeerAuth.SetRules` | mcnode/node.go:513-520 | From then on the peer is let in by the new rules alone, and every other peer as before |
| `PushSession.EverySession` | mcnode/proto.go:243-348 | The session invariant holds in every interleaving of the handler and the merge it feeds: the merge has heard only statements of declared namespaces, and all that were read while neither side failed |
| `PushSession.OnlyAllowedIsMerged` | mcnode/proto.go:243-348 | In every interleaving each statement handed to the store has a namespace that was declared and that a rule for the peer allows |
| `PushSession.AcceptsExactlyAdmitted` | mcnode/proto.go:262-273 | A request is answered by an accept, and a merge is started for the namespaces declared, exactly when the rules allow every one; otherwise by a reject |
| `PushSession.AdmittedCanStart` | mcnode/proto.go:269-289 | An admitted request can be accepted on any stores that are in order |
| `PushSession.OneEndPerAccept` | mcnode/proto.go:262-348 | A finished session sent nothing or one reject and started no merge, or an accept and exactly one end message, with the counts of the merge that has returned and the failure of either side, unless writing failed |
| `PushSession.NoEarlyEnd` | mcnode/proto.go:257-333 | Until it finishes a session has sent its accept and nothing else |
| `PushSession.EarlyResultsFail` | mcnode/proto.go:312-317 | A merge that reports while statements are still offered to it has failed, and the end message says so |
| `PushSession.CleanEndMeansStored` | mcnode/proto.go:243-348 | After an end message without error every statement that was pushed is stored and the objects it names are in the datastore under their own hash |
| `PushSession.CleanEndMeansEnded` | mcnode/proto.go:294-348 | After an end message without error the peer has sent statements of declared namespaces and then its own end message, and nothing else |
| `PushSession.NeverStuck` | mcnode/proto.go:278-333 | Handler and merge never wait for each other forever: until the session has finished some move is possible without a failure |
| `PushSession.SessionsEnd` | mcnode/proto.go:278-333 | Under every schedule a session that has read so much from its peer has made a bounded number of moves |
| `PushQuery.PushStaysDeclared` | mcnode/proto.go:806-822 | On an unchanged store and without LIMIT no statement is sent outside the declared namespaces |
| `PushQuery.LimitedPush` | mcnode/proto.go:806-822 | With LIMIT and any ORDER BY that is sure exactly when no namespace has a record with fewer than LIMIT records ahead of it and a record that LIMIT other namespaces can precede |
| `PushQuery.UnorderedPush` | mc/query/query.go:35-37 | Without ORDER BY it is sure exactly when the query selects no more namespaces than the LIMIT |
| `PushQuery.FewNamespacesAreSafe` | mc/query/query.go:35-37 | No more namespaces than the LIMIT are safe in every order |
| `PushQuery.NamespaceOrderIsSafe` | mc/query/query.go:35-37 | ORDER BY that starts with the namespace, in either direction, is always safe |
| `PushQuery.DoPush` | mcnode/proto.go:806-920 | Nothing is sent before the peer accepts; the namespaces declared are those of the answer, all of them unless the database fails; what is sent are the statements of the answer in order, the end value only as the last, and all of them unless the database fails or the loop is cancelled; each other outcome says why; without database failure every statement lies in a declared namespace if there is no LIMIT or it is safe |
| `PushEnds.PushesMeet` | mcnode/proto.go:243-348 | Both ends together: a session asked for the namespaces doPush declared and fed the values it sends, when these stay within them, fails only by a read failure, never by a statement outside or an unknown value |
| `PushEnds.EndFollowsMerge` | mcnode/proto.go:335-347 | Its end message then reports an error only when the merge failed |

## Left out

- HTTP handlers, command mains, logging, configuration files, the directory and identity programs, and the network layers below a message stream.
- Cryptography, base58, protobuf marshalling: functions passed in, with the inverses the code relies on (`Datastore.Sound`); marshalled statements are kept as statements, and a marshalling error is an error of the signature check or of signing.
- SQLite and RocksDB themselves: tables are sequences, a transaction is a snapshot that a rollback restores, a query answers from a snapshot, and text compares by character code.
- ORDER BY on a column that is not selected under DISTINCT, and which rows LIMIT takes without ORDER BY: the results the model allows are all that the database may choose.
- `sdb.Get`, `QueryOne`, vacuuming, compaction and opening of databases.
- The generated recogniser switches on the first character in some rules where the grammar lists alternatives in order, and keeps the depth of tokens and the furthest failure for error messages; the model tries the alternatives in order and leaves depth and error positions out. Its end-of-input sentinel is the end of the buffer.
- The stack of the parser is a sequence instead of a linked list; what a row selector scans into is a value, so the reuse of its buffers between rows is not captured.
- A nil inner body pointer, which the Go code would dereference, is treated as an unset body.
- Goroutines that stream rows or keys through a channel are sequences, with the point where the receiver stops as a parameter; the store's write lock makes its writes sequential.
- Eval.EvalQuery: requires a non-empty namespace, as every parsed query has; on an empty one the Go code indexes out of range.
- EvalAgrees.ValuesAgree: holds without LIMIT, without `wki`, `source` and `counter` criteria, without the `counter` selector, and when no stored namespace differs from the wildcard's prefix in case only, because there the evaluator and SQL treat queries differently by design; the same holds for the other lemmas of that module.
- MergeRuns.MergeCompletes: for peers that answer only what they are asked, as those that follow dataHandler do (`MergeExchange.HandlerAnswersAsked`); `MergeData.AnyPeerCompletes` says when another peer can stand in a held object for a missing one. Nothing is deleted from the stores while the run goes on.
- MergeLiveness.NeverStuck: takes the remote stream to go on or end and peers to answer; that a call into the network or a database returns is not modelled.
- NodeGc.DoGc: has both stores to itself. What a run would lose of statements published meanwhile is `Gc.CutShortLosesNothing` for the statements stored at its end.
- PushSession.NeverStuck: takes the pushing peer to send or hang up, and the peers of the merge to answer.
