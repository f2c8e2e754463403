# A verified model of the stateful machinery around the reasoning engine

The project models, in Dafny, what surrounds the reasoning engine of the repository, and proves what
that machinery promises:

* **Persistence.** Two backends implement the same repository ports: in-memory stores with secondary
  indexes and snapshot tokens, and SQLite stores of encoded blobs with filter columns. The codec is
  undone exactly, the SQLite backend refines the in-memory one for every admissible run, snapshots
  share no mutable container with the stores, and the v0 to v1 migration preserves every row and
  puts ownership where the world models put it. The parts compose: `Upgrade.UpgradedBackendsAgree`
  uses the codec round trip, the commuting of blob patching with encoding, and the simulation
  between the backends; and the store classes are tied to the same memory, the in-memory ones on the
  heap by what every memory with the same records does (`Takes`, `Gives`), the SQLite ones by what
  every memory the database simulates does (`Carries`, `Answers`). `Driver` puts them to work: one run
  of calls through the objects of both sides, and then any shared query is answered alike.
* **Call recording.** The retry loop, the exception classes (one of them inherited twice on purpose)
  and the manifest builder that is sealed once.
* **The extraction boundary.** Request-scoped participant labels, strict validation, completion of
  proposed standing, all-or-nothing extraction and engine ids counted across a transcript.
* **Three state machines.** The single-execution protocol on a shared directory, the prediction
  lifecycle log, and the registry of test cases with its run bookkeeping.

## How it is laid out

Python values are the tree `Domain.Value`; class, enum, member and attribute names, which the code only
compares for equality, are constructors rather than strings. `Codec` is written against an interface
(`Declarations`) and holds for any set of declarations; `Declared` instantiates it with the domain's.
`Tables` says what one port promises on insertion-ordered sequences and `Ports` what all of them do together;
`Containers`, `Keyed`, `InMemory`, `Semantic` and `Bundle` are the in-memory stores as classes over heap
containers, so that sharing a list is visible; `Sql` and `SqliteStores` are rows and statements on one
connection; `Refinement`, `Backends`, `Divergence` and `Isolation` relate the two, `Calls` says by the attributes of the
records what each query method answers and what each write does, `Driver` runs the objects of both side by side, and `Contexts` treats the one store that is not keyed by a column. `Patching`, `Migration`, `Fixpoint`, `Migrated`, `Upgrade`,
`Ownership`, `Misattributed` and `Migrator` are the migration: blobs, the step as a function, idempotence, what a
migrated row means, whole databases, ownership read off the legacy objects, one database written out, and the
statements as they run. `Failures`, `Manifest` and `Qwen` are call recording, and `Records` says what is recorded by
the classes of the exception;
`Texts`, `Participants`, `Standing`, `Validation` and `Extraction` the extraction boundary; `Runner`,
`Lifecycle`, `TestCases` and `Registry` the state machines, and `Forecasts` says what a lifecycle log means in terms
of the predictions that were made.

A method is proved against a specification function of the old and new contents, and the properties are
lemmas about those functions; where a function says what is selected, counted or recorded, a lemma describes its
result by positions, attributes or classes and without the function. `None`, `false` or a constructor such as `Raises` and `Aborts` stands for an
exception. Methods that promise a state after "anything at all" use the `modify` statement on every object
the stores can reach, which covers every sequence of operations and more.

## What the proofs found

* The backends agree only on registered classes and when ids are not reused. An evidence record with a
  standing or a source reference is accepted by SQLite and then cannot be read back, because the codec
  does not register those two classes: `Divergence.EvidenceLoads` is the exact condition,
  `Divergence.StandingIsLost` a record it happens to. Reusing a hypothesis record id for
  other content, or a prediction id at all, makes the backends answer differently.
  `Divergence.AgreementIsExact` and `Divergence.LogAgreementIsExact` show that nothing else does, for records
  and for ledger events.
* In memory, a prediction added under an id of another scope is taken away from that scope
  (`Isolation.TakeoverIsSeen`); in SQLite it is not.
* The evidence store's mapping between ids and source references is not two-way once a reference is
  reused: the index silently moves on to the newer record (`InMemory.AddKeepsBothWays`).
* The migration's documentation says the fallback is used only for rows no model references. In the code a
  referencing model whose subject is the empty string also falls through (`or`), and so does an empty sole
  evidence subject. The model follows the code (`Migration.Resolve`, `Upgrade.RightfulOwner`);
  `Upgrade.OwnerIsDocumented` and `Upgrade.ListedAsDocumented` say exactly when the documented rule holds, and
  `Misattributed.OwnPredictionIsLost` writes out a database the migration completes where it does not: a
  prediction of the empty subject is listed as somebody else's.
* A call that ends in something other than an `Exception`, such as an interrupt from the keyboard, leaves no
  record, and the run still seals its manifest. The interaction then reads success if its other calls gave
  text, and NOT_EXECUTED if it had none (`Qwen.InterruptedReadsAsSuccess`). `Qwen.StatusIsMeant` shows that
  nothing else makes a status misleading.
* A malformed error that is not also a model error is recorded as a model error, loses its raw reply and
  is retried (`Qwen.MalformedNeedsBoth`), which is why the reasoning invariant is typed as both.
* A finalized builder still lets a call through to the backend; the call then raises instead of returning
  its text, and leaves no record (`Manifest.CallDone`).
* A roster with the empty id can make standing completion fail in the domain constructor, which is not a
  governed rejection and ends the run (`Standing.InvalidExactly`).
* The setup-failure report says the evidence directory was removed whenever no backend call was counted.
  With other files in the directory and no call, that note is false (`Runner.NoteIsTrueExactly`); `Runner.NoteCanBeFalse` is a run
  that gets there.
* A test case whose dataset purpose is an empty object loses it when it is duplicated, or saved or
  exported and read in again (`Registry.SpecRoundTrip`).
* Saved definitions that share an id are listed twice under one case (`Registry.TestCaseManager.constructor`).

## Model

| member | source | states |
|---|---|---|
| Codec.RoundTrip | src/sanuvia/adapters/persistence/codec.py:64-100 | decoding an encoding gives the value back unchanged when every class and enum in it is registered, and raises otherwise; for every value built by constructors, however nested |
| Codec.EncodeInjective | src/sanuvia/adapters/persistence/codec.py:64-82 | two registered values with the same encoding are the same value |
| Codec.DecodeBuilds | src/sanuvia/adapters/persistence/codec.py:85-100 | whatever decoding returns, from any JSON tree, was accepted by its constructors and uses registered names only, and re-encoding it is stable |
| Codec.EncodeRepresents | src/sanuvia/adapters/persistence/codec.py:64-82 | the form on disk: primitives as themselves, enums, datetimes, tuples and objects each as an object with exactly its own markers, a tuple item by item and an object attribute by attribute |
| Declared.DomainIsCoherent | src/sanuvia/adapters/persistence/codec.py:24-61 | the domain's own declarations (defaults, constructor checks, registries) meet what the codec's proofs ask of them |
| Declared.DecodedIsSound | src/sanuvia/adapters/persistence/codec.py:85-100 | whatever JSON a value was decoded from, every object in it meets the invariants of its class, stated attribute by attribute (no evidence on both sides of a hypothesis, magnitudes in [0, 1], a committed event has a target, an edge has two ends, and so on) |
| Declared.IntegerMagnitude | src/sanuvia/domain/uncertainty.py:26-50 | a magnitude given as an integer is read as the float, and refused outside [0, 1] |
| Sql.LoadDump | src/sanuvia/adapters/persistence/sqlite_store.py:103-108 | a stored object loads back equal exactly when it is registered; any other raises on the way out, not on the way in |
| Tables.LatestPer | src/sanuvia/adapters/persistence/in_memory.py:212-226 | the latest-per-lineage listing has one record per distinct lineage id, in first-seen order, each the last of its lineage |
| Tables.LatestPerUnique | src/sanuvia/adapters/persistence/in_memory.py:212-226 | that description determines the listing |
| Refinement.ListedIsLatest | src/sanuvia/adapters/persistence/in_memory.py:178-226 | entry i of `list_for_subject` is what `latest` returns for that lineage and what `lineage` ends on |
| InMemory.InMemoryEvidenceStore.Add | src/sanuvia/adapters/persistence/in_memory.py:72-77 | a taken id is refused and changes nothing; otherwise the record is appended and the reference index follows; accepted and stored as by every memory holding the same records |
| InMemory.InMemoryEvidenceStore.GetById | src/sanuvia/adapters/persistence/in_memory.py:79-80 | the record with the id, if any |
| InMemory.InMemoryEvidenceStore.ListForScope | src/sanuvia/adapters/persistence/in_memory.py:82-91 | the loop gives the scope's records in insertion order, as every memory holding the same records answers |
| Tables.SelectIs | src/sanuvia/adapters/persistence/in_memory.py:82-91 | a listing consists of the records at the matching positions, each once and in order |
| InMemory.InMemoryEvidenceStore.IdForRef | src/sanuvia/adapters/persistence/in_memory.py:93-95 | the index answers as a scan of the records would |
| InMemory.InMemoryEvidenceStore.RefForId | src/sanuvia/adapters/persistence/in_memory.py:97-100 | the source reference of the record with the id |
| InMemory.RefIndexIs | src/sanuvia/adapters/persistence/in_memory.py:72-77 | the index knows a reference exactly when a record carries it, and gives the last such record |
| InMemory.AddKeepsBothWays | src/sanuvia/adapters/persistence/in_memory.py:57-77 | the id/reference mapping stays good in both directions exactly when the added reference is new; a reused one is taken over silently |
| InMemory.InMemoryEvidenceStore.Snapshot | src/sanuvia/adapters/persistence/in_memory.py:113-114 | copies of both containers, sharing neither |
| InMemory.InMemoryEvidenceStore.Restore | src/sanuvia/adapters/persistence/in_memory.py:116-123 | contents as in the token, in fresh containers |
| InMemory.InMemoryDictStore.Add | src/sanuvia/adapters/persistence/in_memory.py:132-135 | insert-only dict stores refuse a taken key; the others replace in place; for the table the store serves that is what the memory of the refinement does |
| InMemory.InMemoryDictStore.Lookup | src/sanuvia/adapters/persistence/in_memory.py:456-458 | a dict lookup is the query for its key |
| InMemory.InMemoryListStore.GetFirst | src/sanuvia/adapters/persistence/in_memory.py:170-176 | the first record satisfying the condition |
| InMemory.InMemoryListStore.Latest | src/sanuvia/adapters/persistence/in_memory.py:178-194 | the last record satisfying the condition |
| InMemory.InMemoryListStore.ListLatest | src/sanuvia/adapters/persistence/in_memory.py:212-226 | the loop over the list computes the latest record per lineage of the scope |
| InMemory.InMemoryPredictionRepository.Add | src/sanuvia/adapters/persistence/in_memory.py:246-249 | a reused id replaces the prediction where it stands; a new one goes last |
| InMemory.InMemoryPredictionRepository.ListForScope | src/sanuvia/adapters/persistence/in_memory.py:254-263 | the loop gives the scope's predictions in first-insertion order, as every memory holding them answers |
| InMemory.InMemoryWorldModelRepository.AppendVersion | src/sanuvia/adapters/persistence/in_memory.py:334-340 | a version is never overwritten, and the pointers are untouched |
| InMemory.InMemoryWorldModelRepository.SetCurrentPointer | src/sanuvia/adapters/persistence/in_memory.py:356-357 | the scope's pointer is replaced or added, the versions untouched |
| InMemory.InMemoryWorldModelRepository.GetVersion | src/sanuvia/adapters/persistence/in_memory.py:342-349 | the version under (space, subject, version) |
| InMemory.InMemoryWorldModelRepository.GetCurrentModel | src/sanuvia/adapters/persistence/in_memory.py:359-365 | the version the pointer of the scope names, whatever value names it; none without a pointer or without that version |
| InMemory.InMemoryRevisionLedgerStore.AppendEvent | src/sanuvia/adapters/persistence/in_memory.py:393-407 | an uncommitted event is refused; otherwise the next number of its scope, all other scopes and earlier entries unchanged, numbering invariant kept |
| InMemory.InMemoryRevisionLedgerStore.Read | src/sanuvia/adapters/persistence/in_memory.py:409-412 | a scope's entries, numbered 0..n-1 |
| InMemory.InMemoryRevisionLedgerStore.ReadSince | src/sanuvia/adapters/persistence/in_memory.py:414-425 | the loop gives the entries numbered above the given one, as every memory with the same books answers |
| InMemory.InMemoryRevisionLedgerStore.Snapshot | src/sanuvia/adapters/persistence/in_memory.py:432-437 | inner lists are copied too: no list of the token is a list of the store |
| InMemory.InMemoryRevisionLedgerStore.Restore | src/sanuvia/adapters/persistence/in_memory.py:439-445 | the books as in the token, so numbering resumes where the snapshot left it |
| Containers.DictOfLists.Append | src/sanuvia/adapters/persistence/in_memory.py:398-406 | `setdefault(k, []).append(v)` on heap-allocated inner lists that no two keys share |
| Containers.DictOfLists.Copy | src/sanuvia/adapters/persistence/in_memory.py:437 | equal contents, no list in common |
| Keyed.LookupIsSelect | src/sanuvia/adapters/persistence/in_memory.py:79-80 | looking a key up in a dict of records is selecting by its columns |
| Keyed.SetIsPut | src/sanuvia/adapters/persistence/in_memory.py:246-249 | assigning into the dict replaces in place or appends |
| Keyed.TakenIsRefused | src/sanuvia/adapters/persistence/in_memory.py:72-75 | the duplicate test refuses exactly what an insert-only table refuses |
| Semantic.InMemoryHypothesisLineageStore.Add | src/sanuvia/adapters/persistence/in_memory.py:598-612 | a refused duplicate changes nothing, index included; otherwise store and index grow together |
| Semantic.InMemoryHypothesisLineageStore.FindByKey | src/sanuvia/adapters/persistence/in_memory.py:617-638 | exactly the ids of the lineages with the bound's scope, signature subject and attribution, each once and in insertion order |
| Semantic.ScanIs | src/sanuvia/adapters/persistence/in_memory.py:617-638 | the scan gives the ids at exactly the positions whose scope, signature subject and attribution are the bound's |
| Semantic.InMemoryHypothesisLineageStore.ListForSubject | src/sanuvia/adapters/persistence/in_memory.py:640-648 | the loop gives the scope's lineages in insertion order |
| Semantic.InScopeIs | src/sanuvia/adapters/persistence/in_memory.py:640-648 | the listed lineages are those at the positions of the scope, each once and in order |
| Semantic.AddKeepsIndex | src/sanuvia/adapters/persistence/in_memory.py:598-612 | adding a lineage and appending its id under its bound keeps index and scan equal for every bound |
| Semantic.InMemoryHypothesisLineageStore.Restore | src/sanuvia/adapters/persistence/in_memory.py:651-667 | index and lineages agree again after a restore, in containers shared with nothing |
| Semantic.InMemoryStatementVersionStore.AppendVersion | src/sanuvia/adapters/persistence/in_memory.py:682-683 | the version goes last in its own lineage, the others unchanged |
| Semantic.InMemoryStatementVersionStore.Current | src/sanuvia/adapters/persistence/in_memory.py:690-692 | the last version of the history, if any |
| Semantic.InMemoryStatementVersionStore.Restore | src/sanuvia/adapters/persistence/in_memory.py:698-707 | contents as in the token, in fresh lists |
| Semantic.LineageIsolation | src/sanuvia/adapters/persistence/in_memory.py:617-648 | a lineage of one scope is invisible to every bound and listing of another |
| Bundle.UndoFlat | src/sanuvia/adapters/persistence/in_memory.py:113-123 | whatever was done to evidence, predictions, world models and modelling contexts and to every container they reach, restoring the token gives the snapshot state back, its queries can be asked again, and the token stays restorable |
| Bundle.UndoGroups | src/sanuvia/adapters/persistence/in_memory.py:748-799 | the same for the stores that keep one dict or one list each, however many |
| Bundle.UndoNested | src/sanuvia/adapters/persistence/in_memory.py:432-445 | the same for the dict-of-lists stores: ledger, lineages, statement versions |
| Bundle.RollbackFlatTwice | src/sanuvia/adapters/persistence/in_memory.py:270-278 | one snapshot, arbitrary writes, restore, arbitrary writes, restore again |
| Bundle.RollbackGroupsTwice | src/sanuvia/adapters/persistence/in_memory.py:748-799 | the same |
| Bundle.RollbackNestedTwice | src/sanuvia/adapters/persistence/in_memory.py:432-445 | the same, where a shallow copy would fail |
| Bundle.InMemoryReasoningStore.Restore | src/sanuvia/adapters/persistence/in_memory.py:748-799 | every store of the bundle is in the state of its token again, in containers that are new; the tokens still hold that state and share nothing with what the stores use now |
| Bundle.InMemoryReasoningStore.ValidIs | src/sanuvia/adapters/persistence/in_memory.py:748-799 | whether the stores can answer queries depends on the state alone, so a restored bundle can if the one that was snapshot could |
| Bundle.RollbackAll | src/sanuvia/adapters/persistence/in_memory.py:748-799 | the whole bundle: snapshot, anything at all to every store and container, restore, and every store holds what it held and answers queries |
| Bundle.RollbackAllTwice | src/sanuvia/adapters/persistence/in_memory.py:748-799 | and the same tokens serve again after anything at all is done to what the first restore put in place |
| Ledger.CommitIs | src/sanuvia/domain/revision.py:144-166 | committing happens once, sets status and target version and nothing else |
| Ledger.CommitThenAppend | src/sanuvia/adapters/persistence/in_memory.py:393-407 | the ledger refuses the event and takes its commitment, last in the same scope; there is no second commitment |
| Backends.CommitFits | src/sanuvia/domain/revision.py:144-166 | committing meets the checks of the constructor, and keeps an event one that may be logged |
| Ledger.LedgerRun | src/sanuvia/adapters/persistence/in_memory.py:385-425 | over every run of events: each scope is numbered in order with committed events of that scope, earlier entries never change, and the ledger is exactly the committed events in order |
| Ledger.SinceIsSuffix | src/sanuvia/adapters/persistence/in_memory.py:414-425 | `read_since(k)` is the suffix after entry k, for every integer k |
| Refinement.CountIsUnused | src/sanuvia/adapters/persistence/sqlite_store.py:362-380 | COUNT(*) equals the length of the scope ledger and is a number no row of the scope carries, so the insert cannot clash |
| SqliteStores.SqliteRevisionLedgerStore.AppendEvent | src/sanuvia/adapters/persistence/sqlite_store.py:362-380 | numbers by COUNT(*), never clashes on a ledger it wrote, refuses uncommitted events |
| Sql.SelectRowsAre | src/sanuvia/adapters/persistence/sqlite_store.py:116-140 | filtering rows by columns is filtering the records they stand for |
| Sql.WriteRowsAre | src/sanuvia/adapters/persistence/sqlite_store.py:116-125 | each statement does to the rows what the write does to the records, refusals included |
| SqliteStores.SqliteEvidenceStore.Add | src/sanuvia/adapters/persistence/sqlite_store.py:117-125 | accepts and refuses as every memory the database simulates does, and ends up simulating the memory after the call |
| SqliteStores.SqliteHypothesisRepository.GetRecord | src/sanuvia/adapters/persistence/sqlite_store.py:185-193 | the newest row of the record id, which is the record every simulated memory with unique record ids returns |
| SqliteStores.SqliteHypothesisRepository.Latest | src/sanuvia/adapters/persistence/sqlite_store.py:195-209 | the answer of every simulated memory |
| SqliteStores.SqliteHypothesisRepository.ListForSubject | src/sanuvia/adapters/persistence/sqlite_store.py:226-242 | the loop over rows, with a raise on the first bad blob, computes the latest row per lineage, and so the answer of every simulated memory |
| SqliteStores.SqlitePredictionRepository.Add | src/sanuvia/adapters/persistence/sqlite_store.py:246-251 | appends; for an id not used before, which the run theorem asks for, that is what memory does |
| SqliteStores.SqliteWorldModelRepository.AppendVersion | src/sanuvia/adapters/persistence/sqlite_store.py:309-320 | accepts and refuses as every simulated memory does, and carries the simulation across |
| SqliteStores.SqliteWorldModelRepository.SetCurrentPointer | src/sanuvia/adapters/persistence/sqlite_store.py:344-350 | the upsert of the json alone carries the simulation across |
| SqliteStores.SqliteWorldModelRepository.GetCurrentModel | src/sanuvia/adapters/persistence/sqlite_store.py:352-358 | through the pointer to the version it names: the answer of every simulated memory |
| SqliteStores.SqliteRevisionLedgerStore.ReadSince | src/sanuvia/adapters/persistence/sqlite_store.py:391-403 | filter, order by number, decode: the answer of every simulated memory |
| SqliteStores.SqliteReasoningStore.Reset | src/sanuvia/adapters/persistence/sqlite_store.py:525-546 | every table empty, which simulates the new in-memory stores |
| Refinement.RecordStep | src/sanuvia/adapters/persistence/sqlite_store.py:116-490 | a write carries the simulation (columns equal blob fields, blobs decode to the records) across |
| Refinement.LogStep | src/sanuvia/adapters/persistence/sqlite_store.py:362-380 | so does a ledger append |
| Refinement.ListingsAgree | src/sanuvia/adapters/persistence/sqlite_store.py:133-140 | every filtered listing, first and newest row comes out the same; what is selected by is said attribute by attribute in Calls.MemoryMeans and Calls.SqlMeans |
| Calls.MemoryMeans | src/sanuvia/adapters/persistence/in_memory.py:79-535 | in memory each of the 23 query methods answers by the attributes of the records: the edges from x are exactly those whose from_ref is x, each once and in order; get_record gives the first with that record_id and space; listings of lineages the last record of each; read_since the entries with a greater sequence number |
| Calls.SqlMeans | src/sanuvia/adapters/persistence/sqlite_store.py:116-474 | and so does SQLite, in every state that simulates a memory |
| Calls.RunMeans | src/sanuvia/adapters/persistence/sqlite_store.py:493-523 | after every admissible run from empty tables both backends do |
| Calls.QueriesAreCalls | src/sanuvia/adapters/persistence/sqlite_store.py:116-474 | the shared queries of the refinement are exactly those 23 methods |
| Calls.RecordMeansWrite | src/sanuvia/adapters/persistence/in_memory.py:72-529 | a record is refused when one with the same id (or space, subject and version) is there, or replaces it where it stands, or goes last, depending on the port; nothing else changes |
| Calls.LogMeans | src/sanuvia/adapters/persistence/in_memory.py:393-407 | an event is taken exactly when its status is COMMITTED, as the last entry of its own scope, with the next sequence number and its own time; all other scopes and all tables are unchanged |
| Calls.LedgerMeans | src/sanuvia/adapters/persistence/in_memory.py:385-412 | after any events a scope's entries are its committed events, each once and in order, numbered from zero |
| Refinement.OrderBySeqIs | src/sanuvia/adapters/persistence/sqlite_store.py:382-403 | ORDER BY seq gives the same rows in the order of their numbers |
| Refinement.LatestRowsAre | src/sanuvia/adapters/persistence/sqlite_store.py:226-242 | the row loop ends on the rows of the latest record per lineage |
| Refinement.LedgerReadsAgree | src/sanuvia/adapters/persistence/sqlite_store.py:382-403 | read and read_since agree |
| Refinement.CurrentModelsAgree | src/sanuvia/adapters/persistence/sqlite_store.py:352-358 | get_current_model agrees: the same pointer, and the same version behind it |
| Refinement.AnswersAgree | src/sanuvia/adapters/persistence/sqlite_store.py:116-474 | in simulating states every shared query of the twelve tables answers the same, get_current_model included |
| Backends.BackendsAgree | src/sanuvia/adapters/persistence/sqlite_store.py:493-523 | for every admissible run from any simulating pair, both backends accept and refuse the same calls and end up answering every shared query the same |
| Backends.FreshBackendsAgree | src/sanuvia/adapters/persistence/sqlite_store.py:525-546 | the same from empty tables, fresh or reset |
| Driver.StepInMemory | src/sanuvia/adapters/persistence/in_memory.py:748-799 | any call put to the stores of the bundle, each with containers of its own, does to the heap what it does to the memory |
| Driver.AskInMemory | src/sanuvia/adapters/persistence/in_memory.py:748-799 | any shared query put to the store it belongs to is answered as the memory answers it |
| Driver.RunBoth | src/sanuvia/adapters/persistence/sqlite_store.py:493-523 | one run of calls through the stores on the heap and the stores on the connection is the run of both models |
| Driver.SameAnswers | src/sanuvia/adapters/persistence/sqlite_store.py:493-523 | after any admissible run from a simulating pair both have accepted the same calls, and the heap answers every shared query as the database does |
| Driver.FromScratch | src/sanuvia/adapters/persistence/sqlite_store.py:525-546 | the same from newly constructed stores and a new connection, for each of the 23 query methods; and the one answer is what that method promises about the records that were accepted, by their attributes |
| Contexts.LastForIs | src/sanuvia/adapters/persistence/in_memory.py:553-563 | the context of a subject is the one put last for it |
| Contexts.InMemorySystemModellingContextStore.Put | src/sanuvia/adapters/persistence/in_memory.py:559-560 | after any calls of put the dict gives the last context of every subject |
| Contexts.SqliteSystemModellingContextStore.Put | src/sanuvia/adapters/persistence/sqlite_store.py:478-484 | after any calls of put the table holds one blob per subject, of its last context |
| Contexts.SqliteSystemModellingContextStore.Get | src/sanuvia/adapters/persistence/sqlite_store.py:486-490 | the last context if it is made of registered classes, otherwise a raise; none for an unknown subject |
| Contexts.SameContext | src/sanuvia/adapters/persistence/sqlite_store.py:477-490 | after the same calls both stores answer alike for a subject exactly when its last context, if any, is registered |
| Divergence.UnloadableRaises | src/sanuvia/adapters/persistence/codec.py:24-61 | an object of an unregistered class is accepted by SQLite and then makes the query for it raise |
| Divergence.EvidenceLoads | src/sanuvia/adapters/persistence/codec.py:24-61 | an evidence record whose other attributes are registered can be read back exactly when it has neither a source reference nor a standing |
| Divergence.EvidenceAgreement | src/sanuvia/adapters/persistence/sqlite_store.py:116-140 | and exactly then do the backends agree after it was added |
| Divergence.StandingIsLost | src/sanuvia/adapters/persistence/sqlite_store.py:116-140 | one such record, for every id: built with a standing, taken by a fresh database, and then the getter raises |
| Divergence.PlainIsKept | src/sanuvia/adapters/persistence/sqlite_store.py:116-140 | the same record without the standing is read back |
| Divergence.ReusedRecordId | src/sanuvia/adapters/persistence/sqlite_store.py:185-193 | a record id reused for other content: memory answers the first, SQLite the last |
| Divergence.ReusedPredictionId | src/sanuvia/adapters/persistence/sqlite_store.py:245-268 | a prediction id reused: memory lists one, SQLite both |
| Divergence.AgreementIsExact | src/sanuvia/adapters/persistence/sqlite_store.py:116-268 | an accepted record keeps the backends in agreement if and only if it is registered and reuses neither kind of id |
| Divergence.LogAgreementIsExact | src/sanuvia/adapters/persistence/sqlite_store.py:362-380 | an accepted event keeps the backends in agreement if and only if it is made of registered names; otherwise reading its ledger raises |
| Isolation.MemoryIsolation | src/sanuvia/adapters/persistence/in_memory.py:246-263 | a write of one (space, subject) changes no scoped query of another, unless it takes over one of its predictions |
| Isolation.TakeoverIsSeen | src/sanuvia/adapters/persistence/in_memory.py:246-263 | and that exception is exact: the other listing is unchanged if and only if no prediction is taken over |
| Isolation.SqlIsolation | src/sanuvia/adapters/persistence/sqlite_store.py:116-403 | in SQLite the same holds from any database, without exception |
| Isolation.MemoryElsewhere | src/sanuvia/adapters/persistence/in_memory.py:170-263 | in memory no answer about another space or another subject changes, unless a prediction the query selects is taken over |
| Isolation.RecordIsolation | src/sanuvia/adapters/persistence/sqlite_store.py:185-193 | a hypothesis record looked up in one space is untouched by writes of another, in both backends |
| Patching.PatchCommutes | src/sanuvia/adapters/persistence/sqlite_migration.py:77-83 | patching an encoding is encoding the object with the missing attributes added |
| Patching.LedgerPatchCommutes | src/sanuvia/adapters/persistence/sqlite_migration.py:264-271 | the same for the event nested in a ledger entry |
| Patching.PatchDecodes | src/sanuvia/adapters/persistence/sqlite_migration.py:77-83 | a patched legacy blob decodes to the legacy object with only the missing attributes added, defaults filled in |
| Patching.LedgerPatchDecodes | src/sanuvia/adapters/persistence/sqlite_migration.py:264-271 | the same for ledger blobs |
| Patching.PatchOnlyAdds | src/sanuvia/adapters/persistence/sqlite_migration.py:77-83 | no present attribute is changed, every added one is there |
| Patching.PatchIdempotent | src/sanuvia/adapters/persistence/sqlite_migration.py:77-83 | patching twice is patching once |
| Patching.LedgerPatchIdempotent | src/sanuvia/adapters/persistence/sqlite_migration.py:264-271 | the same for ledger blobs, of any shape |
| Migration.OwnersAreFirst | src/sanuvia/adapters/persistence/sqlite_migration.py:96-110 | the owner map credits each id to the first world model, in row order, that names it; what naming means is said by Migration.MembersHave and Ownership.NamedByFirstLister |
| Migration.StringsAre | src/sanuvia/adapters/persistence/sqlite_migration.py:86-90 | the members of a tuple are the strings at exactly the string positions of its items, each once and in order |
| Migration.MembersHave | src/sanuvia/adapters/persistence/sqlite_migration.py:86-90 | an id is a member exactly when the encoded tuple holds it as a string; anything but a tuple has none |
| Migration.RowsPreserved | src/sanuvia/adapters/persistence/sqlite_migration.py:96-136 | no row is lost, added or reordered; old columns keep their values, and so does a space that was there; blobs only gain attributes |
| Migration.InsertAllIsCopy | src/sanuvia/adapters/persistence/sqlite_migration.py:211-261 | refilling a recreated table copies it exactly when the new keys are distinct, and raises otherwise |
| Migrated.MigratesExactly | src/sanuvia/adapters/persistence/sqlite_migration.py:77-136 | the migration raises exactly when some blob it reads or patches is not of the shape of a record (an object whose fields, if any, are an object), or two rows of a table it rebuilds share a key, NULLs counting as distinct |
| Migration.RowFixed | src/sanuvia/adapters/persistence/sqlite_migration.py:147-208 | a migrated row is a fixpoint of the step |
| Fixpoint.RecoverKept | src/sanuvia/adapters/persistence/sqlite_migration.py:96-144 | a second run recovers the same owners and the same fallback |
| Fixpoint.MigrateTwice | src/sanuvia/adapters/persistence/sqlite_migration.py:96-136 | the unguarded step applied to its own output changes nothing |
| Migrated.MigratedRowIs | src/sanuvia/adapters/persistence/sqlite_migration.py:147-208 | a migrated row decodes to the legacy object with its ownership added, and every column agrees with the blob |
| Migrated.KeysStayDistinct | src/sanuvia/adapters/persistence/sqlite_migration.py:211-261 | distinct legacy keys stay distinct with the space in front |
| Migrated.MigratedEntryIs | src/sanuvia/adapters/persistence/sqlite_migration.py:247-271 | a migrated ledger row decodes to the entry whose event has the default space, filed under the scope of that event |
| Migrated.OldPredictionUpgrades | src/sanuvia/domain/prediction.py:69-97 | a prediction written without ownership is one the migration completes, for every id, hypothesis and likelihood in range: the hypotheses of the migration theorems can be met |
| Upgrade.UpgradeGoesThrough | src/sanuvia/adapters/persistence/sqlite_migration.py:96-136 | no legacy database makes the migration raise |
| Upgrade.UpgradeSimulates | src/sanuvia/adapters/persistence/sqlite_migration.py:96-136 | the migrated tables are simulated by a memory of the upgraded objects, in legacy order |
| Upgrade.UpgradedBackendsAgree | src/sanuvia/adapters/persistence/sqlite_migration.py:45-60 | after the migration every admissible run of the SQLite backend is the run of an in-memory backend holding the upgraded objects |
| Upgrade.OwnerIsRightful | src/sanuvia/adapters/persistence/sqlite_migration.py:96-113 | in any database, the recovered owner is the first naming model, else the sole evidence subject, else the sentinel; an empty subject counts as none, a missing table names nobody |
| Upgrade.OwnerIsDocumented | src/sanuvia/adapters/persistence/sqlite_migration.py:18-23 | in any database, the documented rule (fallback only for ids no model names) is followed if and only if the naming model, or failing one the sole evidence, has a subject other than the empty string |
| Upgrade.PredictionGoesTo | src/sanuvia/adapters/persistence/sqlite_migration.py:190-208 | after the migration a legacy prediction is listed in the scope of its recovered owner and in no other |
| Upgrade.ListedAsDocumented | src/sanuvia/adapters/persistence/sqlite_migration.py:18-23 | so it is listed where the documented rule puts it if and only if that rule does not hand on the empty subject |
| Upgrade.MisattributedPrediction | src/sanuvia/adapters/persistence/sqlite_migration.py:112-136 | in every legacy database where a model of the empty subject names it and the evidence is about one other subject, it is listed under that other and not under its own |
| Misattributed.OwnPredictionIsLost | src/sanuvia/adapters/persistence/sqlite_migration.py:96-136 | such a database written out in full (a world model, an evidence record, a prediction), which the migration completes, for every other subject, id, hypothesis and likelihood |
| Upgrade.SoleSubjectIs | src/sanuvia/adapters/persistence/sqlite_migration.py:139-144 | there is a fallback exactly when there is one distinct non-null evidence subject |
| Ownership.NamedByFirstLister | src/sanuvia/adapters/persistence/sqlite_migration.py:96-110 | on a legacy database a hypothesis (a prediction) is named by the first world model object whose own active_hypothesis_ids (active_prediction_ids) hold its id, and by none exactly when there is no such object |
| Ownership.FallbackIsSole | src/sanuvia/adapters/persistence/sqlite_migration.py:112-144 | the fallback is the subject all the legacy evidence objects that have one share |
| Ownership.OwnerByObjects | src/sanuvia/adapters/persistence/sqlite_migration.py:96-208 | the owner of a legacy object, over the legacy objects alone: the subject of the first model that lists its id unless empty, else the only subject of the evidence unless empty, else the sentinel |
| Ownership.PredictionByObjects | src/sanuvia/adapters/persistence/sqlite_migration.py:190-208 | after the migration a legacy prediction is listed in the default space for exactly that subject, and nowhere else |
| Ownership.UpgradedByObjects | src/sanuvia/adapters/persistence/sqlite_migration.py:96-136 | every migrated object keeps the attributes it had, is in the default space, has the recovered subject where it had none, and is otherwise completed with nothing but absent or empty values |
| Ownership.EntryIsUpgrade | src/sanuvia/adapters/persistence/sqlite_migration.py:247-271 | a migrated ledger entry keeps what it said, and its event keeps what it said and is in the default space |
| Ownership.MigratedMeans | src/sanuvia/adapters/persistence/sqlite_migration.py:45-60 | right after the migration every query method answers by the attributes of the upgraded objects |
| Upgrade.PredictionsListed | src/sanuvia/adapters/persistence/sqlite_migration.py:190-208 | `list_for_subject` on migrated predictions is exactly the legacy predictions owned by the subject, in legacy order, and nothing in any other space |
| Upgrade.HypothesesListed | src/sanuvia/adapters/persistence/sqlite_migration.py:169-187 | the same for hypotheses, as the latest record per lineage |
| Migrator.ClaimEach | src/sanuvia/adapters/persistence/sqlite_migration.py:107-110 | the setdefault loop over one tuple: every string of it is claimed for the subject unless it was claimed before, and nothing else |
| Migrator.RecoverOwners | src/sanuvia/adapters/persistence/sqlite_migration.py:97-113 | the scan over the world models and the fallback query |
| Migrator.RewriteBlobs | src/sanuvia/adapters/persistence/sqlite_migration.py:159-166 | every blob patched in place, row by row |
| Migrator.AddSpaceColumn | src/sanuvia/adapters/persistence/sqlite_migration.py:147-156 | column added, missing spaces filled in, blobs patched |
| Migrator.MigrateOwned | src/sanuvia/adapters/persistence/sqlite_migration.py:169-208 | owner, space and blob of every row, in place |
| Migrator.Recreate | src/sanuvia/adapters/persistence/sqlite_migration.py:211-261 | the table rebuilt row by row under its wider key |
| Migrator.MigrateV0InPlace | src/sanuvia/adapters/persistence/sqlite_migration.py:96-136 | the whole step on a connection does what the specification says, or raises where it does |
| Migrator.Migrate | src/sanuvia/adapters/persistence/sqlite_migration.py:45-60 | a current database keeps every row; an old one is migrated and stamped; a raise leaves the version behind |
| Manifest.StatusIs | sanuvia-phase1/src/sanuvia_phase1/manifest.py:164-185 | NOT_EXECUTED iff never started and never called; success iff executed with no failing call; otherwise the first failing call decides |
| Manifest.FirstFailureIs | sanuvia-phase1/src/sanuvia_phase1/manifest.py:171-174 | a failing call with none before it is the one reported |
| Manifest.RunManifestBuilder.RecordCall | sanuvia-phase1/src/sanuvia_phase1/manifest.py:151-154 | appends, or refuses once finalized |
| Manifest.RunManifestBuilder.MarkStarted | sanuvia-phase1/src/sanuvia_phase1/manifest.py:156-162 | marks, or refuses once finalized |
| Manifest.RunManifestBuilder.PerInteractionStatus | sanuvia-phase1/src/sanuvia_phase1/manifest.py:164-185 | the three passes compute one status per interaction, in order |
| Manifest.RunManifestBuilder.Finalize | sanuvia-phase1/src/sanuvia_phase1/manifest.py:187-207 | exactly once, with all calls and all statuses |
| Manifest.CallWithRecording | sanuvia-phase1/src/sanuvia_phase1/manifest.py:210-273 | for any outcome stream: how often the thunk is called, the one record written, and what is returned or raised; read off the classes of the exception in Records.CallSays |
| Manifest.CallIsDetermined | sanuvia-phase1/src/sanuvia_phase1/manifest.py:210-273 | for a stream of outcomes those conditions leave one possibility: how often the backend was asked, what is on record and what the caller gets |
| Manifest.RecordTells | sanuvia-phase1/src/sanuvia_phase1/manifest.py:224-273 | the record says success exactly when text is returned, and then holds that text |
| Records.StatusFits | sanuvia-phase1/src/sanuvia_phase1/failures.py:152-168 | the status recorded for an exception by its classes: timeout if and only if there are no retries and it is a ModelTimeout and no RetryExhaustedError; retry_exhausted when there are retries; malformed_output only for what is malformed and a model error; model_error for a plain one |
| Records.CallSays | sanuvia-phase1/src/sanuvia_phase1/manifest.py:210-273 | a whole call by the replies of the backend: how often it asks, every field of the record it writes, and what its caller gets, whatever was raised |
| Records.ServerIsRecorded | sanuvia-phase1/src/sanuvia_phase1/llama_server_backend.py:126-230 | without retries a request to the server that timed out is recorded as a timeout, every other transport failure as a model error, each after one request and with its reason |
| Qwen.EveryExceptionIsRecorded | sanuvia-phase1/src/sanuvia_phase1/qwen.py:233-255 | no Exception escapes the record |
| Qwen.MalformedNeedsBoth | sanuvia-phase1/src/sanuvia_phase1/llama_server_backend.py:55-80 | recorded malformed, raw kept, not retried exactly when the exception is both malformed and a model error; a bare malformed error is downgraded and retried |
| Qwen.QwenClient.GenerateRecorded | sanuvia-phase1/src/sanuvia_phase1/qwen.py:233-255 | at most retries + 1 requests; one record attributed to the current interaction, or none if the call was interrupted or the manifest sealed, and then no text either |
| Qwen.WholeRun | sanuvia-phase1/src/sanuvia_phase1/manifest.py:164-185 | over all calls of a run, recorded or not: an interaction reads success exactly when it ran and none of its calls failed with an Exception, and NOT_EXECUTED exactly when it was not started and all its calls were interrupted |
| Qwen.StatusIsMeant | sanuvia-phase1/src/sanuvia_phase1/run003_stage1.py:460-482 | success means that every call gave text, and NOT_EXECUTED that no call was made, if and only if no call of the interaction ended in something that is not an Exception |
| Qwen.InterruptedReadsAsSuccess | sanuvia-phase1/src/sanuvia_phase1/run003_stage1.py:460-482 | where it does not: a call that gives text and then one interrupted from the keyboard read as success, the interrupted one alone as NOT_EXECUTED |
| Qwen.Finish | sanuvia-phase1/src/sanuvia_phase1/manifest.py:187-207 | sealing an open manifest gives one, with the client's interactions and calls, and says exactly that of each interaction under its label |
| Qwen.ReasoningIsPoliced | sanuvia-phase1/src/sanuvia_phase1/llama_server_backend.py:206-230 | visible reasoning content is recorded malformed with the content kept; absent or blank reasoning is a success |
| Participants.LabelInjective | sanuvia-phase1/src/sanuvia_phase1/participants.py:110-125 | a label determines its request and its position |
| Participants.RequestIdInjective | sanuvia-phase1/src/sanuvia_phase1/evidence_extractors/external.py:119-121 | a request id determines transcript and interaction, colons in the transcript id or not |
| Participants.DependsOnSet | sanuvia-phase1/src/sanuvia_phase1/participants.py:110-125 | the vocabulary depends on the set of authorized ids only |
| Participants.EntriesDistinct | sanuvia-phase1/src/sanuvia_phase1/participants.py:110-125 | labels and participants are pairwise distinct |
| Participants.ResolveUndoesLabelFor | sanuvia-phase1/src/sanuvia_phase1/participants.py:79-107 | on the roster resolve undoes label_for; off it there is no label |
| Participants.ResolvesOnlyOffered | sanuvia-phase1/src/sanuvia_phase1/participants.py:90-107 | a label resolves exactly when it was offered, and to someone authorized |
| Participants.LabelReads | sanuvia-phase1/src/sanuvia_phase1/participants.py:90-125 | the labels are numbered from one over the sorted roster, and label i is read back as the i-th of it |
| Participants.RefusedElsewhere | sanuvia-phase1/src/sanuvia_phase1/participants.py:90-125 | a label minted for one interaction is refused by every other request, whatever its roster |
| Texts.SortedDistinctIs | sanuvia-phase1/src/sanuvia_phase1/participants.py:119-124 | `sorted(set(...))`: ascending, same members |
| Texts.StringLessIs | sanuvia-phase1/src/sanuvia_phase1/participants.py:119-124 | the order is by the first character that differs, a text after its own beginnings |
| Standing.RejectedExactly | sanuvia-phase1/src/sanuvia_phase1/standing.py:73-122 | a proposal is rejected exactly when something in it is not permitted |
| Standing.BreachIs | sanuvia-phase1/src/sanuvia_phase1/standing.py:73-122 | and each rejection says what was wrong first |
| Standing.CompletedIsSound | sanuvia-phase1/src/sanuvia_phase1/standing.py:50-135 | a completed standing takes the speaker from the transcript, names only the roster, and meets the constructor; with no empty id on the roster completion never fails there |
| Standing.CompletedAsProposed | sanuvia-phase1/src/sanuvia_phase1/standing.py:73-135 | role and subject kind are the proposed ones, and the subject is whoever the proposed label stands for |
| Standing.InvalidExactly | src/sanuvia/domain/evidence.py:121-134 | the constructor failure: exactly a permitted proposal whose speaker or needed subject is the empty id |
| Validation.ValidateExtraction | sanuvia-phase1/src/sanuvia_phase1/validation.py:242-304 | the item loop returns what the reply says and rejects it on the first item that says nothing |
| Validation.NothingInvented | sanuvia-phase1/src/sanuvia_phase1/validation.py:206-304 | an item is accepted as an observation if and only if every field of the observation is what the item says: text, class, three numbers in [0, 1] that are not booleans, span, and a standing that names no source |
| Validation.ClassExactly | sanuvia-phase1/src/sanuvia_phase1/validation.py:242-304 | an evidence class is read out of exactly its spellings: its name in any case with any whitespace around it |
| Validation.ReplyExactly | sanuvia-phase1/src/sanuvia_phase1/validation.py:242-304 | a reply is accepted if and only if it is an object whose list, if it has one, says these observations item by item |
| Extraction.AllOrNothing | sanuvia-phase1/src/sanuvia_phase1/evidence_extractors/external.py:110-175 | an interaction carries every reported observation in order, or none and a rejection that keeps the reply |
| Extraction.StandingsAreSound | sanuvia-phase1/src/sanuvia_phase1/evidence_extractors/external.py:142-174 | every standing that leaves extraction meets the domain constructor, with the transcript's speaker and the proposed role and subject kind, and there is one exactly when one was proposed |
| Extraction.StandRejects | sanuvia-phase1/src/sanuvia_phase1/evidence_extractors/external.py:142-174 | what ends an interaction early is the first observation whose standing cannot be completed, and the rejection names it by its place and keeps the reply |
| Extraction.RequestIs | sanuvia-phase1/src/sanuvia_phase1/evidence_extractors/external.py:110-135 | what is sent for an interaction is its text and, in order, the labels of the sorted roster, each read back as its participant in this interaction |
| Extraction.ExternalEvidenceExtractor.Run | sanuvia-phase1/src/sanuvia_phase1/evidence_extractors/external.py:110-175 | a hold asks nothing; otherwise one request, carrying the text and the labels only |
| Extraction.EngineIdsCount | sanuvia-phase1/src/sanuvia_phase1/pipeline.py:120-168 | engine ids read across interactions are evidence-1..evidence-N |
| Extraction.EngineIdsDistinct | sanuvia-phase1/src/sanuvia_phase1/pipeline.py:145-149 | and no two are equal |
| Extraction.EngineIdReads | sanuvia-phase1/src/sanuvia_phase1/pipeline.py:145-149 | the number of a piece of evidence reads back out of its engine id |
| Extraction.RejectionIsLocal | sanuvia-phase1/src/sanuvia_phase1/pipeline.py:124-168 | a rejection changes nothing elsewhere but the numbering, and that by what it lost |
| Extraction.BuildExtractedCase | sanuvia-phase1/src/sanuvia_phase1/pipeline.py:102-177 | the run ends exactly on a malformed or failed reply, never on a rejection, and otherwise builds the specified case and audit; the hook is told of every started interaction, in order, and the model is asked once for each of them that says something |
| Extraction.FiledUnderItsTurn | sanuvia-phase1/src/sanuvia_phase1/pipeline.py:84-162 | each piece of evidence is an observation of its own turn, with the engine id, ref, source line and pairs of that turn, spelled out |
| Extraction.MetadataTraces | sanuvia-phase1/src/sanuvia_phase1/pipeline.py:91-99 | equal metadata means equal extractor, transcript, interaction, label and span (an empty span and none look alike) |
| Extraction.MetadataSays | sanuvia-phase1/src/sanuvia_phase1/pipeline.py:91-99 | each entry stands under its own name, and there are no others |
| Extraction.AuditMatches | sanuvia-phase1/src/sanuvia_phase1/pipeline.py:136-167 | audit and case tell of the same evidence, that of their own turn, and the case records a rejection exactly where there was one, with nothing extracted |
| Runner.AtMostOneEnters | sanuvia-phase1/src/sanuvia_phase1/run003_stage1.py:408-476 | under every interleaving and any crashes the pipeline is entered at most once |
| Runner.StepKeeps | sanuvia-phase1/src/sanuvia_phase1/run003_stage1.py:408-445 | every operation of every attempt keeps the ownership invariant |
| Runner.RefusedExactly | sanuvia-phase1/src/sanuvia_phase1/run003_stage1.py:408-415 | an attempt that looks for the directory or tries to make it is refused exactly when it is there, and a refusal touches nothing; the directory only goes away by a handler that found it empty |
| Runner.CaughtFailure | sanuvia-phase1/src/sanuvia_phase1/run003_stage1.py:271-292 | a caught setup failure removes the directory exactly when it is empty |
| Runner.CanProceedExactly | sanuvia-phase1/src/sanuvia_phase1/run003_stage1.py:408-444 | some continuation enters the pipeline once more if and only if the directory is absent, or an attempt is in setup, or a failure handler has yet to remove an empty directory |
| Runner.EnteredIsShut | sanuvia-phase1/src/sanuvia_phase1/run003_stage1.py:408-476 | in a run nobody can enter after the first entry |
| Runner.ClosedForever | sanuvia-phase1/src/sanuvia_phase1/run003_stage1.py:408-413 | and that is for good, for instance after a crash in setup |
| Runner.NoteIsTrueExactly | sanuvia-phase1/src/sanuvia_phase1/run003_stage1.py:294-313 | the note in the failure report is true exactly when the directory was empty or calls were counted |
| Runner.NoteCanBeFalse | sanuvia-phase1/src/sanuvia_phase1/run003_stage1.py:271-313 | and a run reaches a false note: setup makes the directory, leaves one file in it and raises before any call |
| Lifecycle.LogReplays | src/sanuvia/adapters/http/testcase.py:493-521 | for every history each log is legal (created, strengthened or weakened in the stated direction, invalidated) and replays to the predictions of the last committed step |
| Lifecycle.LegalShape | src/sanuvia/adapters/http/testcase.py:493-521 | a legal log starts with a creation, and creations follow exactly invalidations |
| Lifecycle.LogRises | src/sanuvia/adapters/http/testcase.py:493-521 | steps strictly increase, and every event is dated by its own committed step and version |
| Lifecycle.LogRemembers | src/sanuvia/adapters/http/testcase.py:493-521 | replayed up to any step the log gives the predictions of the last step committed by then |
| Forecasts.LikelihoodsAre | src/sanuvia/adapters/http/testcase.py:503-507 | a step gives each hypothesis the rounded likelihood of the last of its predictions whose first hypothesis it is, and none exactly when there is no such prediction |
| Forecasts.CurrentStands | src/sanuvia/adapters/http/testcase.py:493-521 | the current predictions are what the last committed step that has a version gives |
| Forecasts.LogTells | src/sanuvia/adapters/http/testcase.py:508-519 | every event says how the dated step's own predictions differ from what stood before it: created, strengthened or weakened at the step's likelihood, or invalidated |
| Forecasts.ChangesAreLogged | src/sanuvia/adapters/http/testcase.py:508-519 | and a committed step has an event exactly when it changes what stood |
| Forecasts.ListedInOrder | src/sanuvia/adapters/http/testcase.py:493-521 | the hypotheses listed are those a committed step predicted from, once each, in the order in which that first happened |
| Lifecycle.PredictionLifecycle | src/sanuvia/adapters/http/testcase.py:493-521 | the loops list the hypotheses in the order they were first predicted from, each with its log; what the log says of the predictions is in Forecasts.LogTells and Forecasts.ChangesAreLogged |
| Lifecycle.ListedIs | src/sanuvia/adapters/http/testcase.py:493-521 | each hypothesis is listed once, and exactly those with something in their log |
| TestCases.TestCase.RunNext | src/sanuvia/adapters/http/testcase.py:432-435 | runs the next authored step, if any |
| TestCases.TestCase.RunAll | src/sanuvia/adapters/http/testcase.py:437-441 | a clean rebuild and one pass, whatever ran before |
| TestCases.RunTraces | src/sanuvia/adapters/http/testcase.py:425-441 | the history holds, step by step, what the engine left by the step before gives for the authored step, from a clean engine on |
| TestCases.StepThrough | src/sanuvia/adapters/http/testcase.py:369-441 | stepping to the end runs the part of the sequence that has not run yet, and arrives where running everything does exactly when what ran so far begins the sequence, which loading another sequence can undo |
| Registry.CaseIdReadsBack | src/sanuvia/adapters/http/manager.py:54-56 | the number in a minted id reads back as that number |
| Registry.SuffixIs | src/sanuvia/adapters/http/manager.py:54-76 | the suffix read off an id is what follows its last hyphen, or all of it |
| Registry.NextIsFresh | src/sanuvia/adapters/http/manager.py:54-56 | the next id is in no registered id |
| Registry.TestCaseManager.constructor | src/sanuvia/adapters/http/manager.py:23-39 | loads everything saved, in order: under every saved id the last definition saved with it and nothing else, the last one current, the counter at the highest number a saved id ends in; the listing is free of repeats exactly when the saved ids were |
| Registry.TestCaseManager.LoadOne | src/sanuvia/adapters/http/manager.py:68-76 | the saved definition goes under its id and the counter past the number in it |
| Registry.TestCaseManager.NewTestCase | src/sanuvia/adapters/http/manager.py:80-87 | an empty case under a fresh id, named by its number; every other case untouched |
| Registry.TestCaseManager.DuplicateCurrent | src/sanuvia/adapters/http/manager.py:89-96 | a copy under a fresh id of everything but the name, save that an empty purpose is dropped; the source untouched |
| Registry.TestCaseManager.ImportTestCase | src/sanuvia/adapters/http/manager.py:119-125 | an import never overwrites; sequence, subject, tags, notes, dataset, expectations, purpose and creation time are those sent, or the defaults |
| Registry.TestCaseManager.Select | src/sanuvia/adapters/http/manager.py:127-138 | an unknown id changes nothing |
| Registry.SpecRoundTrip | src/sanuvia/adapters/http/testcase.py:293-312 | a saved definition comes back whole exactly when it has a creation time and no empty purpose |
| Registry.SpecSays | src/sanuvia/adapters/http/testcase.py:293-312 | what a definition gives is taken as it is; what it lacks has a default, its id for the name, and the time of reading for a missing or empty creation time |
| Registry.TestCaseManager.ExportImport | src/sanuvia/adapters/http/manager.py:119-125 | exporting the current case and importing it loses at most an empty purpose and changes only the id |

## Left out

- The reasoning engine, scoring, the unit of work and its id counters: an interaction is an opaque deterministic step (`TestCases`) or a given result (`Lifecycle`).
- The HTTP server, controllers, rendering, samples, metrics and graph views: input and output only.
- JSON text, SQL text and key order inside a JSON object: the model works on JSON trees and row sequences.
- Datetimes are identified with their ISO text, so that printing and parsing undo each other is assumed; floats are reals, and NaN is not a `Domain.Value`.
- Which exception a failing decode, constructor or migration raises: all are `None` or `false`.
- A `__tuple__` marker over a string or an object, which Python would iterate: decoding raises in the model.
- Migrator.MigrateV0InPlace: the half-done tables of a migration that raises, and transactions and crashes between statements, are not described; the table steps are a loop over their fixed order.
- Sql.WriteRowsAre: primary-key columns hold text or numbers here; that SQLite counts NULL keys as distinct is modelled in the migration only (`Migration.Clash`).
- Bundle.RollbackAllTwice: the unit of work that decides when to roll back is not modelled.
- The SQLite classes for inference, inquiries, anomalies, provenance, recognition and dependencies: covered as statements in `Refinement`, not as classes.
- `all_edges` and `source_ref_index`, which only the in-memory stores have: the whole list, and a copy of the index.
- InMemory.InMemoryDictStore.Add: one class stands for the four stores that keep a dict keyed by the record's own id; the identity-adjudication records themselves are not modelled.
- InMemory.InMemoryListStore.ListLatest: one class stands for the hypothesis, inquiry, recognition and dependency lists.
- Registration of call sites in prompts, generation parameters, server provenance logs and subprocess probing: only the exception typing and the reasoning invariant of the backend are modelled.
- Validation.ValidateExtraction: parsing the reply text is a parameter; an integer confidence too large for a float raises OverflowError in Python and is malformed here; lower-casing is ASCII, which no known class name can tell apart.
- The appraisal, baseline and identity-resolution validators: the same primitives again.
- Extraction.BuildExtractedCase: appraisal script, hypothesis catalogue, case id, subject and space are passed on as they are and left out.
- Runner.AtMostOneEnters: nothing but the attempts removes the directory; other programs may add files to it at any time. Parent directories and the contents of the evidence files are not modelled.
- Lifecycle.PredictionLifecycle: rounding to three decimals is an arbitrary function.
- `hypothesis_evolution`, `world_model_timeline` and `revisions_by_interaction`: single passes over the history.
- TestCases.TestCase.RunNext: a step that raises is not modelled.
- Registry.NextIsFresh: ids ending in digits outside ASCII are treated as not ending in a number; Python would read some of them and raise on others.
- Registry.TestCaseManager.ImportTestCase: entries of the wrong type are not told apart, whether a definition builds is a parameter; expectations and purposes are carried as texts; the clock is a parameter that is never the empty text. Samples are definitions like any other.
