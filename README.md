# recLucene core in Dafny

recLucene is a small Java library that stores plain Java records in an
Apache Lucene index. It covers:

- **Schema.** Record classes, or free-form `RlValues` maps, are described by
  tables of fields (`RlField`). A field carries a primary-key flag, store and
  tokenize flags, an optional analyzer class and a string converter.
- **Writes.** A writer (`RlWriter`) turns records into Lucene documents. It
  adds them, or updates them by primary key, and it deletes by field or term.
  It counts its writes.
- **Queries.** Queries (`RlQuery`: Match, Prefix, Word, Range, And, Or, Not)
  translate into Lucene queries over a table.
- **Searchers.** A searcher (`RlSearcher`) reads records and field values back.
  A database searcher keeps one snapshot until it is reopened. A writer
  searcher reopens its reader whenever the writer has written since.
- **Concurrency gates.** Permit gates (`RlSemaphore`, `SemaphoreHandler`,
  `RlSemaphoreMulti`) and the sample `Locker` / `LockHolder` built on them
  coordinate readers, the single writer and resets.
- **Life cycle.** `RlWriterHolder` and `RlResetter` manage the life cycle of
  the Lucene writer and the reset of the store.

The model follows the Java code class by class. Values such as fields,
tables, queries, documents and records are Dafny datatypes. Objects whose
fields the code updates are Dafny classes with `modifies` frames:

- the gates, handlers and their holders;
- `Locker` and `LockHolder`;
- `RlValues`;
- `RlField.Impl`'s setup state and its analyzer cache;
- `RlTableSet`;
- `RlWriter`;
- `RlWriterHolder`;
- the reader caches of the two searcher kinds, and the searcher itself.

Each loop of the source is a method proved against a prefix-recursive
specification function, with three exceptions that are modelled by the
recursive function alone (no loop method): the `forEach` of
`RlClassTable.convertToValues` (ClassTables.SlotValues), that of
`convertFromValues` (ClassTables.ConvertFromValues), and the modifier filter
of the `RlTable` constructor (DeclaredFields.PersistentFields). The
properties the library relies on are proved about those functions:

- registration succeeds exactly when names are distinct and there is at
  most one primary key;
- every converter round-trips its values;
- a Word/And/Or/Not query matches what it should;
- an update by key leaves exactly one document with that key;
- a database searcher reads one snapshot until it is reopened;
- permits always add up: free + held = capacity.

Lucene itself is not modelled. Analysis (text to tokens) is the function
parameter `analyze`, and indexing (document to terms) is the parameter
`termsOf`. A Lucene document is a map from field name to (string, stored,
tokenized). A reader is a numbered snapshot of documents.

Files, with the modules each holds:

| file | module | source |
|---|---|---|
| wrappers.dfy | Wrappers | Option, Result and the library's exception kinds |
| seqs.dfy | Seqs | sequence helpers |
| gates.dfy | Gates, GateScenarios | RlSemaphore |
| handler.dfy | Handlers | SemaphoreHandler |
| gate_multi.dfy | MultiGates, MultiTryOutcome, MultiScenarios | RlSemaphoreMulti |
| locker.dfy, lock_holder.dfy | Lockers, LockerScenarios, LockHolders | sample Locker, LockHolder |
| database.dfy | Databases | the parts of RlDatabase the others use |
| resetter.dfy | Resetters, ResetterScenarios | RlResetter |
| writer_holder.dfy | WriterHolders, WriterHolderScenarios | RlWriterHolder |
| java_types.dfy | JavaTypes | Java classes and values, Misc.getReferenceClass |
| converters.dfy | Converters | RlFieldConverter |
| docs.dfy | Docs | Lucene documents and terms |
| values.dfy | Values, ValuesScenarios | RlValues |
| fields.dfy | Fields, FieldScenarios | RlField.Impl |
| field_index.dfy | FieldIndexes | the field loops shared by the table classes |
| tables.dfy | DeclaredFields, AnyTables, FieldMaps, Tables, ClassTables | RlTable, RlAnyTable, RlFieldMap, RlClassTable |
| table_set.dfy | TableSets | RlTableSet |
| analyzers.dfy | FieldAnalyzers | PerFieldAnalyzerCreator |
| queries.dfy | Queries | RlQuery |
| sort_fields.dfy | SortFieldSets | RlSortField, RlSortFields |
| writer.dfy | Writers, WriterScenarios | RlWriter |
| searchers.dfy, searcher_scenarios.dfy | Searchers, SearcherScenarios | RlSearcher.Impl, RlSearcherForDatabase, RlSearcherForWriter |

Where the library's documentation and its code disagree, the model follows
the code. Example: `RlWriterHolder.close` keeps its handles when closing the
searcher manager throws. There are two exceptions:

- `Searchers.NrtSource` models the near-real-time reader the writer searcher
  is documented to use. The code's `RlWriter.getIndexReader` always throws,
  and that as-written behaviour is modelled separately (Writers.GetIndexReader,
  Searchers.WriterSearchesFail).
- `MultiGates.Multi.TryAcquireAll` is the corrected all-or-nothing rule. The
  code as written is modelled by MultiTryOutcome and listed under Findings.

## Model

| member | source | states |
|---|---|---|
| Gates.Semaphore.constructor | src/com/cm55/recLucene/RlSemaphore.java:23-26 | a new gate has all of its permits free and no holder outstanding |
| Gates.Semaphore.Acquire | src/com/cm55/recLucene/RlSemaphore.java:32-39 | a one-permit holder is handed out, the free count drops by one and the holder joins the outstanding ones; the gate invariant (free + outstanding weight = capacity) is kept |
| Gates.Semaphore.TryAcquire | src/com/cm55/recLucene/RlSemaphore.java:45-49 | a holder is returned exactly when a permit was free; otherwise null and nothing changes |
| Gates.Semaphore.AcquireAll | src/com/cm55/recLucene/RlSemaphore.java:56-63 | a holder of the whole capacity is handed out and no permit is left free |
| Gates.Semaphore.TryAcquireAll | src/com/cm55/recLucene/RlSemaphore.java:70-75 | a full-capacity holder is returned exactly when every permit was free; otherwise null and nothing changes |
| Gates.Holder.constructor | src/com/cm55/recLucene/RlSemaphore.java:89-92 | a holder remembers its gate and its weight |
| Gates.Holder.Release | src/com/cm55/recLucene/RlSemaphore.java:97-101 | the first release gives the holder's permits back and removes it from the outstanding holders; a second release changes nothing |
| Gates.FullHoldDrains | src/com/cm55/recLucene/RlSemaphore.java:56-63 | while a holder of the whole capacity is unreleased, its gate has no permit free |
| GateScenarios.CapacityTwo | src/com/cm55/recLucene/RlSemaphoreTest.java:16-39 | with capacity two, a third try fails while two holders are out, succeeds after one is released, and both permits are free at the end |
| Handlers.Handler.constructor | src/com/cm55/recLucene/SemaphoreHandler.java:13-16 | a new handler has all of its permits free and no acquisition outstanding |
| Handlers.Handler.TryAcquire | src/com/cm55/recLucene/SemaphoreHandler.java:23-27 | an unreleased one-permit acquisition exactly when a permit was free; otherwise null and nothing changes |
| Handlers.Handler.Acquire | src/com/cm55/recLucene/SemaphoreHandler.java:35-42 | an unreleased one-permit acquisition; the free count drops by one; the invariant free + outstanding weight = capacity is kept |
| Handlers.Handler.TryAcquireAll | src/com/cm55/recLucene/SemaphoreHandler.java:49-54 | a full-capacity acquisition exactly when every permit was free; otherwise null and nothing changes |
| Handlers.Handler.AcquireAll | src/com/cm55/recLucene/SemaphoreHandler.java:61-68 | a full-capacity acquisition, after which no permit is free |
| Handlers.SinglePermitGrants | src/com/cm55/recLucene/SemaphoreHandler.java:35-42 | a one-permit handler has at most one acquisition outstanding |
| Handlers.FullHoldDrains | src/com/cm55/recLucene/SemaphoreHandler.java:61-68 | while a full-capacity acquisition is unreleased, no permit is free |
| Handlers.HoldWithholds | src/com/cm55/recLucene/SemaphoreHandler.java:94-99 | while an acquisition is unreleased, its permits are missing from the free count |
| Handlers.Acquisition.constructor | src/com/cm55/recLucene/SemaphoreHandler.java:86-89 | a new acquisition is unreleased and remembers its handler and weight |
| Handlers.Acquisition.NotReleased | src/com/cm55/recLucene/SemaphoreHandler.java:106-108 | true exactly until the first release |
| Handlers.Acquisition.Release | src/com/cm55/recLucene/SemaphoreHandler.java:94-99 | the permits go back exactly once: the first call returns them and marks the acquisition released, later calls change nothing |
| MultiGates.Multi.constructor | src/com/cm55/recLucene/RlSemaphoreMulti.java:15-17 | the composite keeps its gates in the given order |
| MultiGates.Multi.AcquireAll | src/com/cm55/recLucene/RlSemaphoreMulti.java:24-26 | every gate's full capacity is taken, in order, and one sub-holder per gate is kept |
| MultiGates.Multi.TryAcquireAll | src/com/cm55/recLucene/RlSemaphoreMulti.java:32-38 | corrected all-or-nothing rule: a holder exactly when every gate was entirely free; otherwise null and every gate is as before |
| MultiGates.Multi.GiveBack | src/com/cm55/recLucene/RlSemaphoreMulti.java:36 | the rollback releases the sub-holders already taken, restoring those gates |
| MultiGates.MultiHolder.constructor | src/com/cm55/recLucene/RlSemaphoreMulti.java:45-47 | the holder keeps the sub-holders in gate order |
| MultiGates.MultiHolder.Release | src/com/cm55/recLucene/RlSemaphoreMulti.java:48-50 | every sub-holder is released and each gate gets back exactly the permits still held; a second release changes nothing |
| MultiGates.MultiHolder.HeldDrains | src/com/cm55/recLucene/RlSemaphoreMulti.java:24-26 | in every state where a sub-holder of the composite is unreleased, its gate has no permit free |
| MultiGates.MultiHolder.SoleHoldRefilled | src/com/cm55/recLucene/RlSemaphoreMulti.java:48-50 | once release has given back a sub-holder that was its gate's only hold, that gate has every permit free and nothing outstanding |
| MultiTryOutcome.TryAllIntended | src/com/cm55/recLucene/RlSemaphoreMulti.java:32-38 | the intended try: granted exactly when every gate has its whole capacity free, refused otherwise |
| MultiTryOutcome.AsWrittenNeverRefuses | src/com/cm55/recLucene/RlSemaphoreMulti.java:32-38 | as written (blocking acquireAll inside the try), the call is never refused: it is granted exactly when all gates are free, else it waits at the first busy gate |
| MultiTryOutcome.AsWrittenWaitsWhenBusy | src/com/cm55/recLucene/RlSemaphoreMulti.java:32-38 | two one-permit gates, the second busy: as written the call waits at gate 1, the intended rule refuses |
| MultiScenarios.HeldBlocksMembers | src/com/cm55/recLucene/RlSemaphoreMultiTest.java:12-18 | while the composite holder is out, neither member gate grants a single permit |
| MultiScenarios.ReleaseRefillsMembers | src/com/cm55/recLucene/RlSemaphoreMultiTest.java:20-23 | after release both gates are full again, and a second release changes nothing |
| Lockers.Locker.constructor | sample/com/cm55/recLucene/sample/Locker.java:29-32 | the reader gate has 30 permits and the writer gate 1, all free |
| Lockers.Locker.GetReaderLock | sample/com/cm55/recLucene/sample/Locker.java:38-40 | the lock carries one reader permit and no writer acquisition |
| Lockers.Locker.GetWriterLock | sample/com/cm55/recLucene/sample/Locker.java:46-48 | the lock carries the writer permit and no reader acquisition |
| Lockers.Locker.TryWriterLock | sample/com/cm55/recLucene/sample/Locker.java:50-54 | a writer lock exactly when the writer permit was free; otherwise null and nothing taken |
| Lockers.Locker.GetResetterLock | sample/com/cm55/recLucene/sample/Locker.java:62-70 | the writer permit and then all 30 reader permits are taken; neither gate has a permit left |
| Lockers.AtMostOneWriter | sample/com/cm55/recLucene/sample/Locker.java:27-31 | at most one writer acquisition is ever outstanding |
| Lockers.ResetterExcludesAll | sample/com/cm55/recLucene/sample/Locker.java:62-70 | while a resetter lock is held, no reader or writer permit is free |
| Lockers.WriterExcludesWriter | sample/com/cm55/recLucene/sample/Locker.java:46-54 | while a writer lock is held, the writer gate has no permit free |
| LockerScenarios.ResetterShutsOut | sample/com/cm55/recLucene/sample/Locker.java:50-70 | during a reset a writer try fails and no reader permit is free; after release all are free and a writer try succeeds |
| LockHolders.LockHolder.constructor | sample/com/cm55/recLucene/sample/LockHolder.java:17-20 | the holder keeps the two acquisitions, either possibly null |
| LockHolders.LockHolder.HasReadLock | sample/com/cm55/recLucene/sample/LockHolder.java:23-25 | fails with "no read lock" exactly when the reader acquisition is absent |
| LockHolders.LockHolder.HasWriteLock | sample/com/cm55/recLucene/sample/LockHolder.java:28-30 | fails with "no write lock" exactly when the writer acquisition is absent |
| LockHolders.LockHolder.HasResetLock | sample/com/cm55/recLucene/sample/LockHolder.java:33-36 | succeeds exactly when both acquisitions are present, else fails with "no reset lock" |
| LockHolders.LockHolder.Release | sample/com/cm55/recLucene/sample/LockHolder.java:41-44 | each present acquisition is released and its gate gets its permits back once; absent ones are skipped |
| LockHolders.Describe | sample/com/cm55/recLucene/sample/LockHolder.java:50-52 | the text `reader:<bool> writer:<bool>`: after `reader:` it shows `t` exactly when a reader is held, and it ends in `true` exactly when a writer is held |
| LockHolders.LockHolder.ToString | sample/com/cm55/recLucene/sample/LockHolder.java:49-52 | the debug text shows the reader's presence after `reader:` and ends in `true` exactly when the writer acquisition is present |
| LockHolders.DescribeInjective | sample/com/cm55/recLucene/sample/LockHolder.java:50-52 | the debug text determines both presence flags |
| LockHolders.ToStringReportsPresence | sample/com/cm55/recLucene/sample/LockHolder.java:50-52 | two holders print alike exactly when they hold the same kinds of acquisition |
| Resetters.Resetter.constructor | src/com/cm55/recLucene/RlResetter.java:9-13 | the resetter keeps its database and both acquisitions |
| Resetters.Resetter.ResetAndClose | src/com/cm55/recLucene/RlResetter.java:15-18 | the database is emptied under the write acquisition, then the search acquisition's permits go back once |
| ResetterScenarios.ResetEmptiesStore | src/com/cm55/recLucene/RlResetterTest.java:15-27 | a store with one record is reset: a reader opened afterwards sees none, and all 30 reader permits are free |
| Databases.Database.OpenReader | src/com/cm55/recLucene/RlDatabase.java:166-172 | a new reader, numbered by the reader counter, over the committed documents; only the counter moves |
| Databases.Database.Commit | src/com/cm55/recLucene/RlWriter.java:331-338 | committed documents become the given ones; the reader counter stays |
| Databases.Database.Reset | src/com/cm55/recLucene/RlResetter.java:16 | after a reset no document is committed |
| WriterHolders.WriterHolder.constructor | src/com/cm55/recLucene/RlWriterHolder.java:17-20 | a new holder has no directory, table set, writer or manager |
| WriterHolders.WriterHolder.Close | src/com/cm55/recLucene/RlWriterHolder.java:74-91 | with no writer nothing happens and it succeeds; otherwise it succeeds exactly when a manager exists, its close does not throw and the writer's close does not throw (access denied is ignored); success drops both handles, failure keeps them |
| WriterHolders.WriterHolder.Reset | src/com/cm55/recLucene/RlWriterHolder.java:27-31 | close first; only when it succeeds are the new directory and table set recorded |
| WriterHolders.WriterHolder.Ensure | src/com/cm55/recLucene/RlWriterHolder.java:46-67 | an existing writer is kept; without a table set a NullPointerException; without a directory or a writer a wrapped error; otherwise the writer is kept and the manager is made, a manager failure leaving the writer without a manager |
| WriterHolders.WriterHolder.GetIndexWriter | src/com/cm55/recLucene/RlWriterHolder.java:34-37 | ensure, then the writer it leaves |
| WriterHolders.WriterHolder.GetSearcherManager | src/com/cm55/recLucene/RlWriterHolder.java:40-43 | ensure, then the manager it leaves (null after a half-open ensure) |
| WriterHolderScenarios.LifeCycle | src/com/cm55/recLucene/RlWriterHolder.java:27-91 | repeated getters return the same writer; close empties the holder and a second close does nothing |
| WriterHolderScenarios.HalfOpen | src/com/cm55/recLucene/RlWriterHolder.java:46-91 | a manager that fails to open leaves a writer whose manager getter returns null |
| Values.Lookup | src/com/cm55/recLucene/RlValues.java:21-23 | a name never put gives null; otherwise the stored value |
| Values.LookupAfterPut | src/com/cm55/recLucene/RlValues.java:15-23 | after a put, get of that name answers the value put and other names are untouched |
| Values.PutOverwrites | src/com/cm55/recLucene/RlValues.java:15-17 | a second put on a name hides the first |
| Values.RecordValues.constructor | src/com/cm55/recLucene/RlValues.java:12 | a new values object holds no entry |
| Values.RecordValues.Put | src/com/cm55/recLucene/RlValues.java:15-17 | the name is bound to the value; every other name reads as before |
| Values.RecordValues.Get | src/com/cm55/recLucene/RlValues.java:21-23 | the value under the name, or null |
| ValuesScenarios.PutGet | src/com/cm55/recLucene/RlValuesTest.java:18-40 | a string and a long put under two names are read back, and an unknown name reads null |
| JavaTypes.Wrapper | src/com/cm55/recLucene/Misc.java:7-14 | exactly void has no wrapper, and every wrapper is a reference class |
| JavaTypes.ReferenceClass | src/com/cm55/recLucene/Misc.java:5-16 | a reference class is returned as it is, a primitive gives its wrapper, void is "not supported"; the result is always a reference class |
| JavaTypes.ReferenceClassIdempotent | src/com/cm55/recLucene/Misc.java:5-16 | applying the map to its own result changes nothing |
| JavaTypes.WrapperInjective | src/com/cm55/recLucene/Misc.java:7-14 | no two primitives share a wrapper |
| Converters.Digits | src/com/cm55/recLucene/RlFieldConverter.java:93-95 | decimal digits without leading zeros |
| Converters.Decimal | src/com/cm55/recLucene/RlFieldConverter.java:93-95 | the printed number starts with '-' exactly when it is negative |
| Converters.ParseDecimal | src/com/cm55/recLucene/RlFieldConverter.java:97-100 | a parse succeeds only within the type's range and fails with NumberFormatException otherwise, also on the empty string |
| Converters.DigitsValueOfDigits | src/com/cm55/recLucene/RlFieldConverter.java:93-100 | reading back the printed digits gives the number |
| Converters.ParseDecimalOfDecimal | src/com/cm55/recLucene/RlFieldConverter.java:93-118 | parsing the printed form of any value in range gives the value back |
| Converters.DecimalInjective | src/com/cm55/recLucene/RlFieldConverter.java:93-118 | two values in range never print alike |
| Converters.ConverterType | src/com/cm55/recLucene/RlFieldConverter.java:26-32 | every converter declares a reference class, and no real converter declares String or Object |
| Converters.ConvertToString | src/com/cm55/recLucene/RlFieldConverter.java:48-118 | succeeds exactly on values of the converter's type; None always throws "not supported" |
| Converters.ConvertFromString | src/com/cm55/recLucene/RlFieldConverter.java:53-118 | a parsed value has the converter's type; None throws; BooleanConv answers whether the parsed int is positive |
| Converters.ConverterRoundTrip | src/com/cm55/recLucene/RlFieldConverter.java:71-118 | every accepted value in its Java range survives toString then fromString |
| Fields.AttrFlags | src/com/cm55/recLucene/RlField.java:248-300 | no attribute: not pk, not stored, tokenized, no analyzer or converter; a pk forces stored, untokenized, no analyzer; otherwise the flags are taken and the Default analyzer and the None converter markers become absent |
| Fields.DefaultAttrIsNoAttr | src/com/cm55/recLucene/RlField.java:259-300 | an attribute with all of its defaults configures the field as no attribute at all |
| Fields.CheckConverter | src/com/cm55/recLucene/RlField.java:227-246 | passes exactly when the field is a String, or has a converter whose type is the field's type or its primitive's wrapper; failures are library errors |
| Fields.FromJavaField | src/com/cm55/recLucene/RlField.java:195-208 | name and type come from the Java field, the flags from its annotation |
| Fields.FromName | src/com/cm55/recLucene/RlField.java:218-225 | a free-form field is a String unless its converter names another type |
| Fields.FromNameAlwaysFits | src/com/cm55/recLucene/RlField.java:218-225 | the converter check of a free-form field never fails |
| Fields.PrimitiveFieldFitsWrapperConverter | src/com/cm55/recLucene/RlField.java:238-245 | a primitive field is accepted with the converter of its wrapper |
| Fields.SetupsWellFormed | src/com/cm55/recLucene/RlField.java:195-225 | both setups yield a well-formed field whenever the check passes |
| Fields.ValueToString | src/com/cm55/recLucene/RlField.java:394-398 | null stays null; without a converter the value must be a String; otherwise the converter's text |
| Fields.StringToValue | src/com/cm55/recLucene/RlField.java:403-407 | null stays null; without a converter the string itself; otherwise the converter's value |
| Fields.StringRoundTrip | src/com/cm55/recLucene/RlField.java:394-407 | fromString undoes toString on every value the field can store |
| Fields.GetValue | src/com/cm55/recLucene/RlField.java:338-354 | a declared field reads its slot of a non-RlValues object, a free-form field reads an RlValues by name; the wrong kind of object is refused |
| Fields.SetValue | src/com/cm55/recLucene/RlField.java:365-383 | the same kind checks; on success a get of the field answers the value set and only that slot or entry changes |
| Fields.GetStringValue | src/com/cm55/recLucene/RlField.java:359-361 | getValue followed by toString |
| Fields.SetStringValue | src/com/cm55/recLucene/RlField.java:387-389 | fromString followed by setValue |
| Fields.GetLuceneField | src/com/cm55/recLucene/RlField.java:411-423 | no index field for a null value; otherwise one under the field's name with its string value and its store and tokenized flags |
| Fields.FieldImpl.Config | src/com/cm55/recLucene/RlField.java:145-170 | the configuration keeps the object's name and flags |
| Fields.FieldImpl.constructor | src/com/cm55/recLucene/RlField.java:141-170 | a field object as the injector creates it has nothing configured |
| Fields.FieldImpl.SetupWithoutAttr | src/com/cm55/recLucene/RlField.java:259-266 | the flags become those of no attribute; name, type and analyzer cache are untouched |
| Fields.FieldImpl.SetupWithAttr | src/com/cm55/recLucene/RlField.java:272-304 | the flags become those the attribute gives |
| Fields.FieldImpl.SetupFieldAttr | src/com/cm55/recLucene/RlField.java:248-254 | dispatch on the attribute's presence |
| Fields.FieldImpl.SetupJava | src/com/cm55/recLucene/RlField.java:195-208 | the configuration becomes the Java field's and the result is the converter check's |
| Fields.FieldImpl.SetupFree | src/com/cm55/recLucene/RlField.java:218-225 | the configuration becomes the free-form one and always passes |
| Fields.FieldImpl.GetAnalyzer | src/com/cm55/recLucene/RlField.java:441-451 | refused for an untokenized field; otherwise the cached analyzer, or a fresh one of the configured (or default) class, which is cached |
| FieldScenarios.ConverterRequired | src/com/cm55/recLucene/RlFieldTest.java:21-36 | a long field without converter is refused; with LongConv it is accepted, also as primitive long |
| FieldScenarios.PkIgnoresFlags | src/com/cm55/recLucene/RlField.java:275-283 | a primary key is stored and untokenized whatever the attribute says |
| FieldScenarios.AnalyzerCached | src/com/cm55/recLucene/RlField.java:441-451 | the second analyzer request returns the same object; an untokenized field is refused |
| FieldIndexes.Index | src/com/cm55/recLucene/RlTable.java:76-103 | a registered index lists the fields in order, maps each field's name to it and records its pk |
| FieldIndexes.IndexRefusal | src/com/cm55/recLucene/RlTable.java:82-93 | a refusal is either a second pk or a duplicate of one of the given names |
| FieldIndexes.IndexSucceeds | src/com/cm55/recLucene/RlTable.java:76-103 | registration succeeds exactly when the names are distinct and at most one field is a primary key |
| FieldIndexes.BuildIndex | src/com/cm55/recLucene/RlTable.java:76-103 | the constructor loop computes Index |
| FieldIndexes.PrefixFailure | src/com/cm55/recLucene/RlTable.java:82-93 | the first refusal ends the loop with its error |
| FieldIndexes.BuildDocument | src/com/cm55/recLucene/RlTable.java:196-203 | a document exists exactly when every field's index field can be made; it has only the fields' names |
| FieldIndexes.BuildDocumentEntries | src/com/cm55/recLucene/RlTable.java:197-202 | each field has its own entry exactly when its value is not null |
| FieldIndexes.FillDocument | src/com/cm55/recLucene/RlTable.java:196-203 | the getDocument loop computes BuildDocument |
| FieldIndexes.BuildRecord | src/com/cm55/recLucene/RlTable.java:226-230 | filling keeps the kind of record it started from (RlValues, or an object of the same class) |
| FieldIndexes.FillRecord | src/com/cm55/recLucene/RlTable.java:226-230 | the fromDocument loop computes BuildRecord |
| FieldIndexes.GetAfterOtherSet | src/com/cm55/recLucene/RlField.java:365-383 | setting one field leaves what a field of another slot reads unchanged |
| FieldIndexes.BuildRecordSetsEvery | src/com/cm55/recLucene/RlTable.java:226-230 | after the loop every field reads the value decoded from the document's string under its name |
| FieldIndexes.TokenizedNames | src/com/cm55/recLucene/RlAnyTable.java:123-138 | exactly the names of the tokenized fields |
| FieldIndexes.PkTerm | src/com/cm55/recLucene/RlTable.java:168-173 | the key's string value as a term under the key's name; refused exactly when that value is null or cannot be computed |
| DeclaredFields.PersistentFields | src/com/cm55/recLucene/RlTable.java:44-57 | exactly the declared fields that are neither transient nor static, in order |
| DeclaredFields.PersistentKeepsReflected | src/com/cm55/recLucene/RlTable.java:44-57 | filtering keeps distinct names and the declaring class |
| DeclaredFields.FieldsOf | src/com/cm55/recLucene/RlTable.java:56 | each kept Java field becomes its table field; the table is refused exactly when some converter check fails |
| AnyTables.ByNameAll | src/com/cm55/recLucene/RlAnyTable.java:21-23 | the fields are read by name, same names |
| AnyTables.AnyTableOf | src/com/cm55/recLucene/RlAnyTable.java:25-50 | built exactly when registration succeeds; the analyzer map covers exactly the tokenized names |
| AnyTables.NewAnyTable | src/com/cm55/recLucene/RlAnyTable.java:25-50 | the constructor loop computes AnyTableOf |
| AnyTables.PkNotAnalyzed | src/com/cm55/recLucene/RlAnyTable.java:123-138 | a primary key never gets an analyzer |
| AnyTables.Lookups | src/com/cm55/recLucene/RlAnyTable.java:70-77 | getFieldNames is the set of given names and getFieldByName finds exactly the given fields |
| AnyTables.DocumentOmitsNulls | src/com/cm55/recLucene/RlAnyTable.java:79-89 | getDocument leaves out exactly the fields whose value is null; every other field is stored as its string value with its store and tokenize flags |
| AnyTables.GetDocument | src/com/cm55/recLucene/RlAnyTable.java:79-89 | fails exactly when some field cannot be read by name from the values; only field names become entries |
| AnyTables.FromDocumentSetsEvery | src/com/cm55/recLucene/RlAnyTable.java:91-101 | each field's entry in the new values is what its converter reads from the document's string under its name, null where there is none |
| AnyTables.GetPkField | src/com/cm55/recLucene/RlAnyTable.java:56-58 | in a built table, the key field is one of its fields and is marked as key; without one, no field is a key |
| AnyTables.GetFieldNames | src/com/cm55/recLucene/RlAnyTable.java:70-72 | in a built table, exactly the names of its fields |
| AnyTables.GetFieldByName | src/com/cm55/recLucene/RlAnyTable.java:75-77 | found exactly for the registered names; in a built table, the field of that name |
| AnyTables.GetPkTerm | src/com/cm55/recLucene/RlAnyTable.java:108-120 | null without a key field; a null key value is refused; otherwise it succeeds exactly when the key's string value can be read, and the term is the key's name with that string |
| AnyTables.TableName | src/com/cm55/recLucene/RlAnyTable.java:142-145 | the name starts with "RlAnyTable" (the order of the joined names is under Left out) |
| FieldMaps.NewFieldMap | src/com/cm55/recLucene/RlFieldMap.java:21-41 | built exactly when names are distinct and at most one field is a key; failures name the cause |
| FieldMaps.GetPkField | src/com/cm55/recLucene/RlFieldMap.java:43-45 | in a built map, the key field is one of its fields and is marked as key; without one, no field is a key |
| FieldMaps.GetFieldNames | src/com/cm55/recLucene/RlFieldMap.java:55-57 | in a built map, exactly the names of its fields |
| FieldMaps.GetFieldByName | src/com/cm55/recLucene/RlFieldMap.java:59-61 | found exactly for the registered names; in a built map, the field of that name |
| FieldMaps.GetDocument | src/com/cm55/recLucene/RlFieldMap.java:63-73 | the document of the values' fields, nulls left out |
| FieldMaps.FromDocument | src/com/cm55/recLucene/RlFieldMap.java:75-85 | a new values object with every field set from the document |
| FieldMaps.GetPkTerm | src/com/cm55/recLucene/RlFieldMap.java:92-104 | null without a key field; otherwise the key term, refused when the key is null |
| FieldMaps.FromDocumentSetsEvery | src/com/cm55/recLucene/RlFieldMap.java:75-85 | each field reads its decoded document value and a missing entry becomes null |
| Tables.TableOfClass | src/com/cm55/recLucene/RlTable.java:37-60 | a class table has the class and exactly the persistent declared fields, set up from their Java fields, registered by init |
| Tables.TableOfClassSucceeds | src/com/cm55/recLucene/RlTable.java:37-103 | a class builds a table exactly when every kept field passes its converter check and at most one is a key |
| Tables.ClassFieldsPersistent | src/com/cm55/recLucene/RlTable.java:47-53 | no table field is transient or static |
| Tables.NewFromClass | src/com/cm55/recLucene/RlTable.java:37-60 | the constructor computes TableOfClass |
| Tables.NewFromFields | src/com/cm55/recLucene/RlTable.java:68-103 | a free-form table is built exactly when names are distinct and at most one is a key |
| Tables.GetRecordClass | src/com/cm55/recLucene/RlTable.java:108-110 | null exactly for a free-form table, which takes only RlValues; otherwise the class whose objects the table takes |
| Tables.GetPkField | src/com/cm55/recLucene/RlTable.java:124-126 | in a built table, the key field is one of its fields and is marked as key; without one, no field is a key |
| Tables.GetFieldNames | src/com/cm55/recLucene/RlTable.java:133-135 | in a built table, exactly the names of its fields |
| Tables.GetFieldByName | src/com/cm55/recLucene/RlTable.java:144-146 | found exactly for the registered names; in a built table, the field of that name |
| Tables.GetPkTerm | src/com/cm55/recLucene/RlTable.java:154-174 | null without a key field; the wrong kind of object is refused; a null key is refused; otherwise the key's term |
| Tables.GetDocument | src/com/cm55/recLucene/RlTable.java:183-204 | the object kind is checked first, then every non-null field is added |
| Tables.Blank | src/com/cm55/recLucene/RlTable.java:214-225 | a free-form table starts from an empty RlValues; a class table from a new instance, refused exactly when newInstance fails |
| Tables.FromDocument | src/com/cm55/recLucene/RlTable.java:213-232 | the blank record filled from the document; the result is of the kind the table accepts |
| Tables.ClassFromDocumentSetsEvery | src/com/cm55/recLucene/RlTable.java:226-230 | a class table sets every field from the document, null where the document has none |
| ClassTables.ClassTableOf | src/com/cm55/recLucene/RlClassTable.java:26-45 | built exactly when every persistent field sets up and the any-table accepts them |
| ClassTables.TwoPksRefused | src/com/cm55/recLucene/RlAnyTable.java:38-45 | two key fields refuse the class |
| ClassTables.FieldsArePersistent | src/com/cm55/recLucene/RlClassTable.java:32-42 | every field is a persistent declared field |
| ClassTables.SlotValues | src/com/cm55/recLucene/RlClassTable.java:121-129 | the conversion succeeds exactly when every field can read the object, and the values then have exactly the fields' names |
| ClassTables.SlotValuesMeaning | src/com/cm55/recLucene/RlClassTable.java:121-129 | with distinct field names, the value under each field's name is what that field reads from the object |
| ClassTables.ConvertToValues | src/com/cm55/recLucene/RlClassTable.java:119-130 | an RlValues passes through unchanged; an object of the class succeeds exactly when every field can read it, and then every field's name holds what the field reads from it |
| ClassTables.ConvertFromValues | src/com/cm55/recLucene/RlClassTable.java:134-150 | without a class the values themselves; a failing newInstance is wrapped; otherwise an object of the class |
| ClassTables.ConvertFromValuesSetsEvery | src/com/cm55/recLucene/RlClassTable.java:137-146 | after the conversion, every field of distinct slots reads exactly the value stored under its name (null where there is none) |
| ClassTables.GetPkTerm | src/com/cm55/recLucene/RlClassTable.java:100-104 | null without a key field, before any conversion; a failed conversion fails; for an RlValues the any-table's key term; for an object of the class the key field's own term read from the object |
| ClassTables.GetDocument | src/com/cm55/recLucene/RlClassTable.java:107-110 | for an RlValues, the document the any-table builds from its values; a failed conversion fails; for an object of the class, the same document the object's own fields build |
| ClassTables.FromDocument | src/com/cm55/recLucene/RlClassTable.java:113-116 | an object of the record class |
| ClassTables.FromDocumentReadsFields | src/com/cm55/recLucene/RlClassTable.java:113-116 | every field of the new object holds what its converter reads from the document's string under its name, null where the document has none |
| ClassTables.GetPkField | src/com/cm55/recLucene/RlClassTable.java:71-74 | in a built table, the key field is one of its fields and is marked as key; without one, no field is a key |
| ClassTables.GetFieldNames | src/com/cm55/recLucene/RlClassTable.java:81-84 | in a built table, exactly the names of its fields |
| ClassTables.GetFieldByName | src/com/cm55/recLucene/RlClassTable.java:92-95 | found exactly for the underlying table's names; in a built table, the field of that name |
| ClassTables.TableName | src/com/cm55/recLucene/RlClassTable.java:153-156 | the record class's name |
| TableSets.NamesDisjointPairwise | src/com/cm55/recLucene/RlTableSet.java:91-99 | the loop's condition is the pairwise one: no field name in two tables |
| TableSets.TableSet.constructor | src/com/cm55/recLucene/RlTableSet.java:77-78 | an empty set |
| TableSets.TableSet.Setup | src/com/cm55/recLucene/RlTableSet.java:84-110 | succeeds exactly when field names are disjoint across tables and record classes are unique; then every name and class maps to its own table |
| TableSets.TableSet.AddFieldNames | src/com/cm55/recLucene/RlTableSet.java:94-99 | one table's names are added exactly when no earlier table has them |
| TableSets.TableSet.AddRecordClass | src/com/cm55/recLucene/RlTableSet.java:101-108 | a table's record class is registered exactly when no earlier table has it; a table without one registers nothing |
| TableSets.TableSet.GetTable | src/com/cm55/recLucene/RlTableSet.java:114-116 | a table exactly for a registered class, and it is that class's table |
| TableSets.TableSet.GetFieldByName | src/com/cm55/recLucene/RlTableSet.java:120-124 | a field exactly for a registered name, and it is the owning table's |
| TableSets.TableSet.GetTables | src/com/cm55/recLucene/RlTableSet.java:128-130 | the tables in the order given |
| TableSets.FieldOfOwner | src/com/cm55/recLucene/RlTableSet.java:120-124 | a name owned by table i finds table i's field |
| TableSets.SameOwner | src/com/cm55/recLucene/RlTableSet.java:94-97 | when names are disjoint, two tables owning the same name are one table |
| TableSets.Create | src/com/cm55/recLucene/RlTableSet.java:54-58 | a new valid set of the given tables exactly when setup succeeds |
| TableSets.NewTables | src/com/cm55/recLucene/RlTableSet.java:47-50 | succeeds exactly when every class builds its table, and then gives those tables in the classes' order |
| TableSets.CreateFromClasses | src/com/cm55/recLucene/RlTableSet.java:46-52 | one table per class in order; any refused class refuses the set; when every class builds, the set is built exactly when field names are disjoint and classes unique |
| FieldAnalyzers.TokenizedMap | src/com/cm55/recLucene/PerFieldAnalyzerCreator.java:21-30 | one entry per tokenized field name, pointing at that field |
| FieldAnalyzers.AnalyzerMap | src/com/cm55/recLucene/PerFieldAnalyzerCreator.java:19-31 | every entry is a field of one of the tables; AnalyzerMapEntries and AnalyzerMapServes say which names get one and that it is tokenized |
| FieldAnalyzers.AnalyzerMapEntries | src/com/cm55/recLucene/PerFieldAnalyzerCreator.java:20-31 | a name has an entry exactly when some table has a tokenized field of that name |
| FieldAnalyzers.AnalyzerMapServes | src/com/cm55/recLucene/PerFieldAnalyzerCreator.java:23-29 | the entry under a name is a tokenized field of that very name |
| FieldAnalyzers.UntokenizedSkipped | src/com/cm55/recLucene/PerFieldAnalyzerCreator.java:23 | when table names are disjoint, an untokenized field gets no analyzer entry |
| FieldAnalyzers.Create | src/com/cm55/recLucene/PerFieldAnalyzerCreator.java:18-33 | no default analyzer, and the per-field map of every table's tokenized fields |
| FieldAnalyzers.PutTokenized | src/com/cm55/recLucene/PerFieldAnalyzerCreator.java:21-30 | the inner loop adds one table's tokenized fields |
| Queries.NewMatch | src/com/cm55/recLucene/RlQuery.java:52-87 | built exactly when name and value are non-null; otherwise NullPointerException |
| Queries.NewPrefix | src/com/cm55/recLucene/RlQuery.java:200-202 | built exactly when name and value are non-null |
| Queries.NewWord | src/com/cm55/recLucene/RlQuery.java:222-224 | built exactly when name and value are non-null |
| Queries.NewRange | src/com/cm55/recLucene/RlQuery.java:123-133 | built exactly when name, min and max are non-null, keeping the bounds and inclusion flags |
| Queries.NewClosedRange | src/com/cm55/recLucene/RlQuery.java:254-256 | both bounds included |
| Queries.Add | src/com/cm55/recLucene/RlQuery.java:290-293 | the new children go after the old ones; the kind stays |
| Queries.Count | src/com/cm55/recLucene/RlQuery.java:296-298 | the number of children |
| Queries.CountAfterAdd | src/com/cm55/recLucene/RlQuery.java:290-298 | add raises the count by the number added |
| Queries.Compact | src/com/cm55/recLucene/RlQuery.java:331-337 | as written: none for no children, the only child for one, the compound itself otherwise |
| Queries.CompactKeepingNot | src/com/cm55/recLucene/RlQuery.java:331-337 | corrected: as written except that a negation is kept |
| Queries.CheckEquals | src/com/cm55/recLucene/RlQuery.java:27-40 | two queries are equal exactly when they are the same kind with equal operands and equal children in order |
| Queries.CheckChildren | src/com/cm55/recLucene/RlQuery.java:313-321 | children equal exactly when same count and pairwise equal |
| Queries.AddExtendsText | src/com/cm55/recLucene/RlQuery.java:341-348 | adding a child to a non-empty compound appends ",(child)" to its text |
| Queries.EmptyText | src/com/cm55/recLucene/RlQuery.java:342 | an empty compound shows its label alone |
| Queries.ToString | src/com/cm55/recLucene/RlQuery.java:340-348 | the StringBuilder loop gives the compound's text |
| Queries.ChildrenText | src/com/cm55/recLucene/RlQuery.java:343-347 | the children parenthesised, comma separated |
| Queries.TokenClauses | src/com/cm55/recLucene/RlQuery.java:231-234 | one MUST term clause per token, in order |
| Queries.MatchQueryOf | src/com/cm55/recLucene/RlQuery.java:166-188 | unknown field: NullPointerException; tokenized: refused; otherwise a term query of the converted value when the value's class fits |
| Queries.WordQueryOf | src/com/cm55/recLucene/RlQuery.java:227-236 | unknown field: RuntimeException; an untokenized field has no analyzer; succeeds exactly for a tokenized field |
| Queries.RangeQueryOf | src/com/cm55/recLucene/RlQuery.java:259-272 | unknown field: RuntimeException; tokenized: refused; otherwise a range of the converted bounds |
| Queries.Boolean | src/com/cm55/recLucene/RlQuery.java:302-308 | a compound translates to a boolean query |
| Queries.Clauses | src/com/cm55/recLucene/RlQuery.java:304-306 | as many clauses as children translated |
| Queries.ClausesMeaning | src/com/cm55/recLucene/RlQuery.java:304-306 | clause i is child i's query under the compound's Occur; fails exactly when some child fails |
| Queries.WordMeansEveryToken | src/com/cm55/recLucene/RlQuery.java:227-236 | a Word query matches exactly the documents holding every token |
| Queries.AndMeansAll | src/com/cm55/recLucene/RlQuery.java:354-363 | an And matches exactly the documents every child matches |
| Queries.OrMeansAny | src/com/cm55/recLucene/RlQuery.java:375-384 | an Or matches exactly the documents some child matches |
| Queries.NotMeansNone | src/com/cm55/recLucene/RlQuery.java:409-416 | a Not matches exactly the documents no child matches |
| Queries.NegationsAloneMatchNothing | src/com/cm55/recLucene/RlQuery.java:411 | without the match-all clause a query of negations alone matches nothing |
| Queries.CompactKeepsMeaning | src/com/cm55/recLucene/RlQuery.java:331-337 | the corrected compaction matches exactly what the compound matches |
| Queries.OnlyChildMeaning | src/com/cm55/recLucene/RlQuery.java:331-337 | an And or an Or of a single child matches exactly what that child matches |
| Queries.CompactInvertsNot | src/com/cm55/recLucene/RlQuery.java:331-337 | as written, compacting Not(c) yields c, which matches exactly the documents Not(c) excludes |
| Queries.Lucene | src/com/cm55/recLucene/RlQuery.java:166-417 | a compound translates to a boolean query, and a Not's first clause is a MUST match-all; what each translation matches is proved by WordMeansEveryToken, AndMeansAll, OrMeansAny and NotMeansNone |
| Queries.GetLuceneQuery | src/com/cm55/recLucene/RlQuery.java:24 | the translation computes Lucene |
| Queries.GetWordQuery | src/com/cm55/recLucene/RlQuery.java:227-236 | the token loop computes WordQueryOf |
| Queries.GetClauses | src/com/cm55/recLucene/RlQuery.java:302-308 | the clause loop appends Clauses or stops with the first child's error |
| Queries.ClausesStop | src/com/cm55/recLucene/RlQuery.java:304-306 | the first failing child's error is the compound's |
| SortFieldSets.Ascending | src/com/cm55/recLucene/RlSortField.java:27-29 | the field, ascending |
| SortFieldSets.FieldTable | src/com/cm55/recLucene/RlField.java:331-333 | getTable always throws |
| SortFieldSets.CheckTables | src/com/cm55/recLucene/RlSortFields.java:30-34 | passes exactly when every field's table is the first field's |
| SortFieldSets.SortFieldsOf | src/com/cm55/recLucene/RlSortFields.java:23-35 | no table for no fields; otherwise built exactly when every field's table is the first's, keeping the fields |
| SortFieldSets.NewSortFields | src/com/cm55/recLucene/RlSortFields.java:23-35 | the constructor loop computes SortFieldsOf |
| SortFieldSets.CheckStops | src/com/cm55/recLucene/RlSortFields.java:31-33 | the first mismatch ends the check |
| SortFieldSets.OnlyEmptyBuilds | src/com/cm55/recLucene/RlSortFields.java:23-35 | with the library's fields only the empty specification builds |
| SortFieldSets.GetSort | src/com/cm55/recLucene/RlSortFields.java:43-54 | getSort always throws |
| Writers.Inc32 | src/com/cm55/recLucene/RlWriter.java:321 | Java int increment: one more, wrapping from the largest int to the smallest |
| Writers.UpdateByTerm | src/com/cm55/recLucene/RlWriter.java:314 | the new document comes last, and the others left are exactly those without the term |
| Writers.CountTerm | src/com/cm55/recLucene/RlWriter.java:314 | at most the number of documents, and zero exactly when no document has the term |
| Writers.DeleteTerm | src/com/cm55/recLucene/RlWriter.java:377 | exactly the documents without the term remain |
| Writers.UpdateLeavesOne | src/com/cm55/recLucene/RlWriter.java:314 | writing a keyed record leaves exactly one document with that key |
| Writers.UpdateKeepsOthers | src/com/cm55/recLucene/RlWriter.java:314 | a document with another key survives |
| Writers.DeleteField | src/com/cm55/recLucene/RlWriter.java:394-404 | the wildcard deletes exactly the documents for which the index holds a term in that field; a document whose field gave no term stays |
| Writers.Writer.constructor | src/com/cm55/recLucene/RlWriter.java:197-219 | an open writer, count zero, over the committed documents |
| Writers.Writer.WrittenCount | src/com/cm55/recLucene/RlWriter.java:326-328 | the write counter |
| Writers.Writer.IsClosed | src/com/cm55/recLucene/RlWriter.java:352-354 | true exactly when the Lucene writer was dropped |
| Writers.Writer.GetLuceneDocument | src/com/cm55/recLucene/RlWriter.java:264-281 | RlValues refused; unregistered class refused; otherwise the table's document |
| Writers.Writer.WriteDocument | src/com/cm55/recLucene/RlWriter.java:308-323 | without key the document is added, with a key it replaces those with the key; the counter increments with int wrap-around; a closed writer fails |
| Writers.Writer.Write | src/com/cm55/recLucene/RlWriter.java:291-300 | succeeds exactly when the record's class is registered, its document and key term can be built and the writer is open; then the document is added without a key and replaces those with its key otherwise; failures change nothing |
| Writers.KeyedDocumentHasKey | src/com/cm55/recLucene/RlWriter.java:293-297 | the document of a record of a keyed table carries the record's key term, so a key update leaves exactly it |
| Writers.Writer.WriteValues | src/com/cm55/recLucene/RlWriter.java:304-306 | succeeds exactly when the key term and the document can be built and the writer is open; otherwise the key term's error, then the wrong-kind refusal, then the document's error, then the closed writer's NPE; on success the document is added, or replaces those with the key |
| Writers.Writer.DeleteByField | src/com/cm55/recLucene/RlWriter.java:371-383 | tokenized refused; otherwise documents with the value's term go and the counter increments |
| Writers.Writer.Delete | src/com/cm55/recLucene/RlWriter.java:358-362 | an unknown field name is refused; for a known field, tokenized is refused and otherwise the documents with the value's term go |
| Writers.Writer.DeleteAllOfField | src/com/cm55/recLucene/RlWriter.java:394-404 | on an open writer, exactly the documents with a term in the field go, also for a tokenized field, and the counter increments; a closed writer fails unchanged |
| Writers.Writer.DeleteAll | src/com/cm55/recLucene/RlWriter.java:387-391 | an unknown field name is refused; for a known field, every document with a term in it goes on an open writer |
| Writers.Writer.DeleteEverything | src/com/cm55/recLucene/RlWriter.java:408-416 | the index is emptied and the counter increments |
| Writers.Writer.Commit | src/com/cm55/recLucene/RlWriter.java:331-338 | on an open writer, what it holds becomes what new readers see; a closed writer fails and nothing changes |
| Writers.Writer.Close | src/com/cm55/recLucene/RlWriter.java:342-349 | an open writer commits and closes; afterwards it is closed in any case, and a closed writer reports failure |
| Writers.GetIndexReader | src/com/cm55/recLucene/RlWriter.java:248-249 | always throws |
| WriterScenarios.SameKeyTwice | src/com/cm55/recLucene/RlWriter.java:291-328 | two public writes of one keyed record keep one document with its key and count two |
| Searchers.IndexSearcher.constructor | src/com/cm55/recLucene/RlSearcher.java:182 | a searcher over the given reader |
| Searchers.Stored | src/com/cm55/recLucene/RlSearcher.java:270 | a fetched document holds exactly the stored fields |
| Searchers.NrtSource.constructor | src/com/cm55/recLucene/RlSearcherForWriter.java:23-27 | a reader source over the writer, no reader opened yet |
| Searchers.NrtSource.OpenReader | src/com/cm55/recLucene/RlWriter.java:250-259 | a new reader over what the writer holds now, as the commented-out near-real-time code would open; the live code throws (see Left out) |
| Searchers.ReaderCache.ForDatabase | src/com/cm55/recLucene/RlSearcherForDatabase.java:25-29 | a database searcher's reader source, no reader cached |
| Searchers.ReaderCache.ForWriter | src/com/cm55/recLucene/RlSearcherForWriter.java:23-27 | a writer searcher's reader source, no reader cached |
| Searchers.ReaderCache.GetIndexReader | src/com/cm55/recLucene/RlSearcherForWriter.java:33-48 | the cached reader while current (for a writer: while the write count is unchanged), else a newly opened one, which is cached |
| Searchers.ReaderCache.CloseIndexReader | src/com/cm55/recLucene/RlSearcherForDatabase.java:40-48 | the cached reader is dropped; the remembered write count stays |
| Searchers.Matching | src/com/cm55/recLucene/RlSearcher.java:286 | exactly the documents the query matches |
| Searchers.Hits | src/com/cm55/recLucene/RlSearcher.java:286 | at most maxCount matching documents; all of them when fewer match, and exactly maxCount when more match |
| Searchers.AnyTermMeansField | src/com/cm55/recLucene/RlSearcher.java:315-316 | the wildcard matches exactly the documents with a term in the field |
| Searchers.Decoded | src/com/cm55/recLucene/RlSearcher.java:271 | a decoded record is of the table's kind |
| Searchers.ObjectsMeaning | src/com/cm55/recLucene/RlSearcher.java:324-331 | one record per hit, in order, each the table's decoding of that hit; fails exactly when some hit cannot be decoded |
| Searchers.FieldValuesDefined | src/com/cm55/recLucene/RlSearcher.java:247-252 | the set exists exactly when every hit's value of the field can be read back |
| Searchers.FieldValuesContents | src/com/cm55/recLucene/RlSearcher.java:247-252 | the set holds exactly the values read back from the hits |
| Searchers.HitsOutcome | src/com/cm55/recLucene/RlSearcher.java:281-296 | translation error first, then the reader's error, then getSort's error for a non-empty sort, then IllegalArgument for maxCount < 1; succeeds iff the query translates, the reader opens, no sort is given and maxCount >= 1, and then the result is the hits of the translated query over the reader's documents, each in the reader and matching |
| Searchers.SearchOutcome | src/com/cm55/recLucene/RlSearcher.java:262-279 | the error of searchHits when it fails; otherwise succeeds iff every hit can be read back, and record i is table.fromDocument of hit i, accepted by the table |
| Searchers.FieldSetOutcome | src/com/cm55/recLucene/RlSearcher.java:232-258 | an unstored field is refused before searching, then the error of searchHits; otherwise succeeds iff every hit's stored value converts, and the set holds exactly those converted values |
| Searchers.AllByFieldOutcome | src/com/cm55/recLucene/RlSearcher.java:310-321 | tokenized refused, then the reader's and maxCount's errors; otherwise succeeds iff every hit can be read back, with one record per hit, each hit a document with a term in the field, decoded in order and accepted by the table, and with at most maxCount matches every such document is a hit |
| Searchers.AnyTermHits | src/com/cm55/recLucene/RlSearcher.java:315-316 | the wildcard's hits are documents with a term in the field, all of them when they do not exceed maxCount |
| Searchers.DeleteAllUnmatched | src/com/cm55/recLucene/RlWriter.java:394-398 | deleteAll(field) keeps exactly the documents that getAllByField's wildcard does not match |
| Searchers.GetObjects | src/com/cm55/recLucene/RlSearcher.java:324-331 | the loop computes Objects |
| Searchers.CollectValues | src/com/cm55/recLucene/RlSearcher.java:244-257 | the loop computes FieldValues |
| Searchers.Searcher.constructor | src/com/cm55/recLucene/RlSearcher.java:125-131 | maxCount starts at Integer.MAX_VALUE / 2 |
| Searchers.Searcher.GetMaxCount | src/com/cm55/recLucene/RlSearcher.java:198-200 | the current maxCount |
| Searchers.Searcher.SetMaxCount | src/com/cm55/recLucene/RlSearcher.java:204-207 | maxCount becomes the value |
| Searchers.Searcher.GetIndexSearcher | src/com/cm55/recLucene/RlSearcher.java:162-187 | over the next reader; the old searcher is reused exactly when its reader is the same, otherwise a new one |
| Searchers.Searcher.Reopen | src/com/cm55/recLucene/RlSearcher.java:192-194 | the next search opens a new reader over the current documents |
| Searchers.Searcher.Close | src/com/cm55/recLucene/RlSearcher.java:334-347 | the searcher and reader are dropped and the acquisition's permits go back once |
| Searchers.Searcher.SearchHits | src/com/cm55/recLucene/RlSearcher.java:281-296 | the hits against the reader the call sees |
| Searchers.Searcher.Search | src/com/cm55/recLucene/RlSearcher.java:262-279 | the records against the reader the call sees |
| Searchers.Searcher.SearchFieldSet | src/com/cm55/recLucene/RlSearcher.java:232-258 | the field values against the reader the call sees |
| Searchers.Searcher.SearchPkSet | src/com/cm55/recLucene/RlSearcher.java:219-223 | no key field refused; otherwise the key values |
| Searchers.Searcher.SearchFieldSetByName | src/com/cm55/recLucene/RlSearcher.java:226-230 | unknown name refused |
| Searchers.Searcher.GetAllByField | src/com/cm55/recLucene/RlSearcher.java:310-321 | the records of documents having the field |
| Searchers.Searcher.GetAllByPk | src/com/cm55/recLucene/RlSearcher.java:298-302 | no key field refused |
| Searchers.Searcher.GetAllByFieldName | src/com/cm55/recLucene/RlSearcher.java:304-308 | unknown name refused |
| Searchers.WriterSearchesFail | src/com/cm55/recLucene/RlWriter.java:248-249 | through the writer's own reader every search fails |
| Searchers.ObjectsOfOne | src/com/cm55/recLucene/RlSearcher.java:324-331 | no hit gives no record; one hit gives its decoding |
| Searchers.UnlimitedHitsMatch | src/com/cm55/recLucene/RlSearcher.java:131 | under the default maxCount a smaller index gives all matches |
| Searchers.WriterSearcher | src/com/cm55/recLucene/RlWriter.java:237-246 | an unregistered class refused; otherwise a writer searcher over the table |
| SearcherScenarios.DatabaseSnapshot | src/com/cm55/recLucene/RlSearcherForDatabase.java:9-12 | a database searcher ignores later commits until reopened |
| SearcherScenarios.CloseTwice | src/com/cm55/recLucene/RlSearcherForDatabase.java:52-55 | closing twice returns the permits once |
| SearcherScenarios.NoResultsAllowed | src/com/cm55/recLucene/RlSearcher.java:204-207 | maxCount 0 makes a search fail |
| SearcherScenarios.WriterSearchRefreshes | src/com/cm55/recLucene/RlSearcherForWriter.java:33-48 | a writer searcher reuses its reader until the writer writes, then sees the write |

## Left out

- I/O exceptions from Lucene and the file system (`RlException.IO`) are not modelled; every Lucene call is taken to succeed unless the code itself throws.
- `synchronized`, threads and blocking are left out. A blocking `acquire`/`acquireAll` gets the precondition that enough permits are free, since the model has no other thread to release them.
- Gates.Semaphore.Acquire, Handlers.Handler.Acquire, Lockers.Locker.GetReaderLock and the other blocking acquires: the wait is replaced by a precondition, for the reason above.
- Lucene analysis, indexing and scoring are left out: they are the `analyze` and `termsOf` parameters. Hits come in index order and are not ranked.
- The wildcard query `*` of getAllByField is modelled as the prefix query with an empty prefix. Both match every document that has a term in the field.
- Searchers.Hits: a maxCount below one is modelled as `IllegalArgument`. In the library, Lucene's collector refuses such a count.
- Searchers.Searcher.Search: each hit's `getIndexSearcher()` call is modelled by the one fetch made for the query. While the reader is cached, those calls return the same searcher.
- `RlSearcherForDatabase.Factory` and `RlDatabase.createSearcher` are not modelled. createSearcher calls a two-argument constructor that does not exist, so the model builds the database searcher from an acquisition it is given.
- `RlSearcherForWriter`'s factory is not part of this model. `RlWriter.getIndexReader` always throws (Writers.GetIndexReader, Searchers.WriterSearchesFail), so the working writer searcher reads through `NrtSource`. NrtSource stands for a near-real-time reader over the writer's documents.
- Only the parts of `RlDatabase` that the other classes use are modelled, as `Databases.Database`: committed documents, opening a reader, commit and reset. Directory handling and `RlDatabase.Factory` are not part of this model.
- `RlWriterHolder`: the Lucene `IndexWriter`, `SearcherManager` and directory are opaque handles. Whether creating the writer or the manager succeeds is a parameter of `Ensure`, and whether closing them throws is a parameter of `Close`.
- `RlAnyTable` is written against a newer `RlField` that reads values by name. It is modelled by reading every field by name (AnyTables.ByName).
- `RlClassTable`'s field builder is modelled as `RlField.setup(javaField)`.
- Reflection is not modelled. A record class is its name and its declared fields (name, type, transient, static, annotation). `newInstance` is an optional blank slot map: absent when the constructor throws.
- `Class.isAssignableFrom` is modelled for the same class and for `Object` only.
- The `toString` of a value of an arbitrary class is shown as its class name.
- Queries.Add: `Compound.add` changes the compound in place; the model returns a new compound, so aliasing between queries is left out.
- `Integer.parseInt` and `Long.parseLong` are modelled for ASCII digits with an optional leading sign. Java also accepts the digits of other scripts; those are left out.
- Error messages are paraphrased in English. The exception kinds are kept.
- `RlSortFields.getSort` and `RlField.Impl.getTable` are not implemented in the library and always throw (SortFieldSets.GetSort, SortFieldSets.FieldTable). Only the empty sort specification can be built, and a search with a non-empty one fails.
- `RlAnalyzer`, the Japanese normalize filter, synonym lookup, `RlWriterReader`, `SampleMain` and the sample index classes are not part of this model. They are analysis or application code around the core.
- TableName: the field names are joined in registration order. Java joins the key set of a `HashMap`, whose iteration order the model does not fix.
- The same holds for getDocument and fromDocument, which walk `fieldMap.values()` and `entrySet()` (RlTable.java:197,226): registration order stands for the hash map's order.
- MultiGates.Multi.AcquireAll, MultiGates.Multi.TryAcquireAll: these require distinct gates. Java accepts a list that names a gate twice, and acquireAll then waits on itself; that case is not modelled.
- Lucene's limit of 1024 clauses in a BooleanQuery (`TooManyClauses`) is not modelled: a compound query of any width translates.
- `Object.toString`'s `@` and hash code suffix is not rendered; a value of an arbitrary class prints as its class name only.
- Java's reference equality of tables and readers is modelled as value equality; a reader carries a number that stands for its identity.
- Fields.Assignable: `Field.set` on a primitive slot accepts only that primitive's own wrapper. Java's widening conversions (an `Integer` into a `long` slot, say) are not modelled.
- Writers.Writer.GetLuceneDocument returns the document as a Dafny map. The order of fields inside a Lucene document is not modelled.

## Findings

| source | as written | input that shows it | evidently intended | confidence | as-written member | corrected member |
|---|---|---|---|---|---|---|
| src/com/cm55/recLucene/RlSemaphoreMulti.java:32-38 | tryAcquireAll maps every gate through the blocking acquireAll, so it waits at a busy gate instead of refusing | two one-permit gates, the second one held | refuse (null) and leave every gate as it was when some gate is not entirely free | not executed | MultiTryOutcome.AsWrittenWaitsWhenBusy | MultiGates.Multi.TryAcquireAll |
| src/com/cm55/recLucene/RlQuery.java:331-337 | compact returns the only child of a one-child compound, also for Not, which turns "not c" into "c" | Not(Match("id", v)) | keep a Not compound as it is, so compaction never changes what a query matches | not executed | Queries.CompactInvertsNot | Queries.CompactKeepingNot |
