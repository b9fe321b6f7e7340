# Savan/C in Dafny

Savan/C implements WS-Eventing (August 2004): clients subscribe to an event source, renew, query and end their
subscriptions, and a publisher sends events to the subscribers. This project models the parts in which that can go
wrong, and proves what they guarantee. `dafny verify dfyconfig.toml` checks all of it.

A subscription store is, to its callers, a map from ids to records (`Stores`). Two managers implement it.

* **The registry manager** keeps a subscription in two places: a resource below the collection of its filter, and an
  entry in the shared resource TopicIndex. `RegistryPaths` treats the paths, `RegistryStore` the operations as
  sequences of writes and the map they implement, `RegistryRuns` runs with operations that are cut off,
  `RegistryManager` the operations as calls on the remote registry. `RegistryInterleaving` lets any number of
  operations run at once, one registry call at a time, each with its own copy of the index, and any call may fail;
  `RegistryRaces` and `RegistryReturns` say exactly which races lose something or bring it back, `RegistryRenewals`
  what overlapping renewals leave alone, `RegistryReads` what an uninterrupted reader answers although calls fail, and
  `RegistryScans` when a scan is safe.
* **The SQLite manager** prints SQL text field by field and binds values by a running counter. `SqlText` reads SQL
  text character by character, `SqlStatements` gives the four statements a grammar, `SqlTable` executes them on a
  table, `SqliteCallbacks` has the row callbacks and the busy handler, and `SqliteManager` the operations: what was
  printed and bound, when executed, is the operation on the map.

On top of a store run the requests. `Requests` says what they ask for and which subscriptions are accepted.
`Protocol` has every request as a process that makes one store call at a time, in any interleaving, and `ProtocolRuns`
what serialised handlers add. `Server` has the in-handler, the subscription processor and the message receiver as
methods, `Service` puts the two phases of a request together and shows that it is the protocol's request, and
`Managers` shows that both managers are the one that the server relies on. `Client` has the client and its piling up
of headers, `Session` follows a client's request through the server to what the client is told, `SubscriberXml` has
the writer and reader of subscribers, `Publisher` the loop that sends an event, and `Events` says who is sent to, and
where, after any run of requests.

Four properties that one might expect are false, and the exact condition is proved instead:

* A subscription that was removed from the registry, or whose Unsubscribe was answered, may be returned again: if and
  only if its resource is there or a call can still put it, or a scan in flight has read it already
  (`RegistryReturns.NeverReturnedExactly`, `DeletedStaysDeleted`, `AnsweredUnsubscribe`). A listing of its collection
  returns it even if the index has no entry for it; a retrieve or a scan needs, besides, that the index or another call
  leads to it (`NeverReturnedByIdExactly`; the runs are in `AnsweredUnsubscribeCanBeListed` and
  `AnsweredUnsubscribeCanFail`). And an index entry can be lost, but only to a stale copy
  (`RegistryRaces.EntryLostOnlyToStaleCopies`).
* The last successful Renew need not decide the expiry. Counting the Renews that took effect it does if and only if no
  Renew without Expires writes back an outdated one; counting those that were reported as a success it does if and
  only if, besides, no write of an Expires other than the stored one is lost (`Protocol.ExpiriesRightIff`,
  `ProtocolRuns.StaleRenewLosesExpiry`, `LostRenewIsReported`).
* A statement with a pasted value is about that value if and only if the value holds no quote
  (`SqlStatements.RemoveTextSays`, `SelectTextSays`). Minted ids hold none; XPath filters may.
* A scan of the index is safe in every run if and only if no subscriber with a filter and without an address is ever
  inserted (`RegistryScans.ScansAreSafeExactly`); such a Subscribe is accepted.

The source comments that an expiry sent by the client should be considered on Subscribe, and that a subscription may
not be renewable; the code ignores the expiry and renews always, and the model follows the code
(src/core/savan_sub_processor.c:111-118, 366-374). A comment above the receiver's Unsubscribe says that the removal is
checked before the reply (src/msgreceivers/savan_msg_recv.c:334-336); a re-read that fails counts as absence, which
the contracts say.

## Assumptions

* One call on the remote registry is atomic, what it answers is a copy, deleting a missing resource fails, and the
  children of a resource are those one slash-free segment below it. A hash table loses a key that is set to NULL, and
  an attribute without a value reads as absent. For string concatenation a NULL argument ends the list. A resource
  always has a table of properties; the source tests for it (src/subs_mgrs/registry/subs_mgr.c:341, 423, 646).
* One SQLite statement is atomic. An execution may fail or be busy at any time, may have delivered any complete rows
  before it was busy, and if it ends well it has delivered exactly the rows of its query. `BEGIN READ_ONLY;` is not
  a statement of SQLite; its result is ignored, and so is it here. Closing a connection rolls a transaction back.
* `Protocol` and `ProtocolRuns` take a whole store call as one step. That is so for SQLite. For the registry it is an
  assumption of `ResponsesAreTruthful`, `ExpiriesRightIff`, `SerialisedHandlers` and `StoredDialects`; `EndIsFinal` and
  `GoneForever` are about SQLite only, and the `Registry...` modules say what holds of single registry calls.
* An XML lookup on a missing element answers NULL. Comparing a NULL string with another finds a difference.
* Minted ids are new. The receiver runs only after its handler succeeded. A header that was added to a service client
  stays for its later requests.
* A call of the registry manager returns when its last registry call is over: what a scan returns was read before, one
  entry at a time, while a listing of a collection is one call. What a listing returns has no id, so it is told apart
  by the last segment of the path.
* Outcomes of foreign calls (whether a connection opens, a call works, a reply arrives, what a filter says) are
  parameters, and the theorems hold for all of them.

## Model

| member | source | states |
|---|---|---|
| RegistryPaths.CollectionAsBuilt | src/subs_mgrs/registry/subs_mgr.c:344-345 | the concatenation that builds the index value is the collection of the filter, and just "/" for a NULL filter, where the concatenation stops |
| RegistryPaths.InsertPathAsBuilt | src/subs_mgrs/registry/subs_mgr.c:258-259 | the concatenation that builds the path of an insert is the collection, a slash and the id, and just "/" for a NULL filter |
| RegistryPaths.LookupPathAsBuilt | src/subs_mgrs/registry/subs_mgr.c:565-567 | the path that is looked up is the index value, a slash and the id |
| RegistryPaths.SplitsOnce | src/subs_mgrs/registry/subs_mgr.c:566 | a path splits in one way into a collection and a slash-free id |
| RegistryPaths.CollectionInjective | src/subs_mgrs/registry/subs_mgr.c:344-345 | different filters have different collections, whatever slashes they contain |
| RegistryPaths.NeverTheIndex | src/subs_mgrs/registry/subs_mgr.c:37-39 | no subscription is put at, or looked up at, the path of TopicIndex |
| RegistryPaths.PathsAreInjective | src/subs_mgrs/registry/subs_mgr.c:258-259 | for slash-free ids: two subscriptions share a path if and only if filter and id agree; the path that an insert writes is the one that a lookup reads; it is never TopicIndex |
| RegistryPaths.SlashedIdsCollide | src/subs_mgrs/registry/subs_mgr.c:258-259 | the condition on ids is needed: with slashes in ids, different filters and ids share a path |
| RegistryStore.ExtractNew | src/subs_mgrs/registry/subs_mgr.c:728-888 | reading the resource written for a subscriber gives back address, expiry ("*" if there was none), filter and dialect, and nothing if there was no address |
| RegistryStore.NewProperties | src/subs_mgrs/registry/subs_mgr.c:276-316 | the table of a new resource has exactly expiry, static flag, filter, dialect and the address of EndTo, each the subscriber's own or absent |
| RegistryStore.UpdatedProperties | src/subs_mgrs/registry/subs_mgr.c:406-456 | an update leaves the document, sets the filter, replaces of expiry, dialect and the address of EndTo those that it gives, and touches no other property |
| RegistryStore.AnyPropertiesAreRead | src/subs_mgrs/registry/subs_mgr.c:728-888 | a resource is read whatever its properties are, exactly if it has an address; each field comes from its own property |
| RegistryStore.EndpointDocument | src/subs_mgrs/registry/subs_mgr.c:728-888 | the address of NotifyTo is where the reader looks for it |
| RegistryStore.InsertRefines | src/subs_mgrs/registry/subs_mgr.c:236-367 | a completed insert is the insert of an abstract map: the subscriber reads back exactly when it has a filter and an address, no other id changes, and the invariant is kept |
| RegistryStore.UpdateRefines | src/subs_mgrs/registry/subs_mgr.c:370-473 | a completed update is the merge into the one record with the id, and changes no entry of the index |
| RegistryStore.RemoveRefines | src/subs_mgrs/registry/subs_mgr.c:476-533 | a completed remove takes exactly the one id out of the map and out of the index |
| RegistryStore.OperationRefines | src/subs_mgrs/registry/subs_mgr.c:236-533 | every operation keeps the invariant and is its abstract operation |
| RegistryStore.ReportedExactly | src/subs_mgrs/registry/subs_mgr.c:236-533 | what each operation reports: an insert succeeds whatever its puts do, an update if the id leads to a resource, a remove if it does and the delete works |
| RegistryStore.RunRefines | src/subs_mgrs/registry/subs_mgr.c:236-582 | every sequential run of operations refines the same run on a map from ids to records |
| RegistryRuns.StartIsConsistent | src/subs_mgrs/registry/subs_mgr.c:682-726 | the registry after initialisation is consistent and holds no subscriber |
| RegistryRuns.InsertCutOff | src/subs_mgrs/registry/subs_mgr.c:317-352 | an insert that stops after its first write leaves exactly one more orphan and the map as it was |
| RegistryRuns.RemoveCutOff | src/subs_mgrs/registry/subs_mgr.c:501-527 | a remove that stops after its delete leaves exactly one more dangling entry, and the id is gone from the map |
| RegistryRuns.UpdateCutOff | src/subs_mgrs/registry/subs_mgr.c:406-456 | an update is one write: it takes effect or not, and leaves no orphan and no dangling entry |
| RegistryRuns.EntryWithoutResource | src/subs_mgrs/registry/subs_mgr.c:317-352 | an insert whose first put fails goes on, and leaves exactly one more dangling entry and the map as it was |
| RegistryRuns.FailedPutsAreReportedAsSuccess | src/subs_mgrs/registry/subs_mgr.c:317-352 | which defect a failed put leaves behind a reported success: an orphan or a dangling entry of an insert, the old record of an update, a dangling entry of a remove |
| RegistryRuns.AttemptKeeps | src/subs_mgrs/registry/subs_mgr.c:236-533 | one operation, cut off anywhere and with any of its writes failing, keeps: whatever the index leads to is complete and in its own collection; at most one defect is added |
| RegistryRuns.RunKeeps | src/subs_mgrs/registry/subs_mgr.c:236-533 | over every run whose operations are cut off anywhere, with any writes failing: the map is that of the operations that took effect, in order, and there are at most as many orphans and dangling entries as operations that did one of their writes only |
| RegistryRuns.CompleteRunsStayConsistent | src/subs_mgrs/registry/subs_mgr.c:317-352 | over every run of complete operations, index entries and subscription resources stay in bijection |
| RegistryRuns.ListingIsScan | src/subs_mgrs/registry/subs_mgr.c:601-674 | in every consistent registry, listing the collection of a filter gives exactly the subscribers that the index scan finds with that filter, each once, without their ids |
| RegistryManager.Manager.constructor | src/subs_mgrs/registry/subs_mgr.c:682-726 | initialisation creates an empty TopicIndex unless there is one |
| RegistryManager.Manager.Insert | src/subs_mgrs/registry/subs_mgr.c:236-367 | the calls of an insert, any of whose puts may fail unnoticed, leave the registry and report the status that the specification says |
| RegistryManager.Manager.Update | src/subs_mgrs/registry/subs_mgr.c:370-473 | the same for an update, which reports success and marks the caller's subscriber as renewed even if its put fails |
| RegistryManager.Manager.Remove | src/subs_mgrs/registry/subs_mgr.c:476-533 | the same for a remove, which reports success once the delete worked, even if the put of the index fails |
| RegistryManager.Manager.Retrieve | src/subs_mgrs/registry/subs_mgr.c:536-582 | retrieve answers NULL exactly for ids that the abstract map lacks, and otherwise a new subscriber with the map's record |
| RegistryManager.Manager.RetrieveFiltered | src/subs_mgrs/registry/subs_mgr.c:601-631 | retrieve-all with a collection answers every subscriber under it once, without ids, and NULL if there is none |
| RegistryManager.Manager.RetrieveAll | src/subs_mgrs/registry/subs_mgr.c:632-674 | retrieve-all without a filter answers every record of the abstract map once |
| RegistryInterleaving.RunKeeps | src/subs_mgrs/registry/subs_mgr.c:236-674 | in every interleaving of the single registry calls of any number of operations, any of which may fail: every entry, in TopicIndex or in a copy in flight, names the collection its id was inserted under, and every resource belongs to its id |
| RegistryRaces.AloneWithFailures | src/subs_mgrs/registry/subs_mgr.c:236-533 | an operation that nobody interrupts, with any of its registry calls failing, leaves what its writes that were reached and worked leave, and is over: a failing put does not stop an insert, a failing read or delete stops any operation |
| RegistryRaces.AloneIsSequential | src/subs_mgrs/registry/subs_mgr.c:236-533 | with no failing call that is the sequential operation |
| RegistryRaces.DeletesAreFinalInEveryRun | src/subs_mgrs/registry/subs_mgr.c:563-671 | in every interleaving of inserts, removes, retrieves, scans, listings of collections, and updates of other ids: once the delete of an id has succeeded nothing reads it any more, even if a stale index write brings its entry back; a scan that returns it later had read it before the delete |
| RegistryRaces.EveryRun | src/subs_mgrs/registry/subs_mgr.c:236-674 | from the empty registry, in every interleaving: deletes are final in that sense, index entries name the collection of their own id, and what a retrieve, scan or listing returns for an id is the subscriber inserted with it |
| RegistryRaces.EntryLostOnlyToStaleCopies | src/subs_mgrs/registry/subs_mgr.c:333-352 | an index entry that nobody removes survives every continuation exactly when no operation in flight is about to write a copy of the index that lacks it |
| RegistryRaces.InsertsCanLoseAnEntry | src/subs_mgrs/registry/subs_mgr.c:333-352 | for any two new subscribers there is an interleaving of their inserts after which one of them is not in the index although both inserts finished |
| RegistryReturns.NeverReturnedExactly | src/subs_mgrs/registry/subs_mgr.c:554-674 | in every state: no call that follows returns an inserted id again if and only if it is not storable, or its resource is gone and no call is about to put it; and no scan in flight has read it |
| RegistryReturns.NeverReturnedByIdExactly | src/subs_mgrs/registry/subs_mgr.c:554-583 | the same for retrieves and scans alone, which go through the index: they do not return the id either if neither the index nor any call leads to it |
| RegistryReturns.DeletedStaysDeleted | src/subs_mgrs/registry/subs_mgr.c:492-528 | in every state: a deleted id is never returned again if and only if no update held its resource at the delete (or it has no address) and no scan had read it; by retrieves and scans, neither if nothing but the remove led to it |
| RegistryReturns.AnsweredUnsubscribe | src/msgreceivers/savan_msg_recv.c:349-383 | what an UnsubscribeResponse is worth over the registry: the id is never returned again if and only if its resource cannot be there any more and no scan in flight has read it; by retrieves and scans, neither if nothing but the re-read led to it |
| RegistryReturns.UndisturbedUnsubscribeIsFinal | src/msgreceivers/savan_msg_recv.c:349-383 | in every run, once the id's resource was deleted and while no update of it has begun: the id is never returned again if and only if no scan in flight has read it, and whatever a continuation returns for it was read before the delete |
| RegistryReturns.AnsweredUnsubscribeCanBeListed | src/msgreceivers/savan_msg_recv.c:349-383 | for any new storable subscriber there is a run, with a Renew in flight, in which its Unsubscribe is answered after its removal and a listing of its collection returns it afterwards |
| RegistryReturns.AnsweredUnsubscribeCanFail | src/msgreceivers/savan_msg_recv.c:349-383 | with another Subscribe in flight as well, a retrieve or a scan returns it afterwards |
| RegistryReturns.UpdateCanResurrect | src/subs_mgrs/registry/subs_mgr.c:406-456 | for any storable subscriber there is an interleaving of update and remove after which the deleted subscriber is returned again |
| RegistryRenewals.RenewalsChangeExpiryOnly | src/subs_mgrs/registry/subs_mgr.c:390-456 | in every interleaving of single registry calls in which updates write back edited copies of what was returned: what is returned for an id, by a listing as well, has the address, filter and dialect that were inserted with it, and the expiry inserted with it ("*" for none) or one that a Renew of that id carried |
| RegistryRenewals.ReturnedDialectsAreAccepted | src/core/savan_sub_processor.c:440-492 | so if only accepted subscribers are inserted, what is returned with a filter has an accepted dialect |
| RegistryScans.NullHasNoAddress | src/subs_mgrs/registry/subs_mgr.c:648-667 | in every interleaving: a scan finds a resource that is no subscriber exactly where the resource of a subscriber without an address is |
| RegistryScans.ScansAreSafeExactly | src/subs_mgrs/registry/subs_mgr.c:664-665 | over any kind of subscribers: no run brings a scan to setting the id of NULL if and only if none of the kind has a filter and no address |
| RegistryReads.RetrieveAlone | src/subs_mgrs/registry/subs_mgr.c:536-583 | a retrieve that nobody interrupts answers the store's record of the id, or that there is none; with a failing call it answers nothing of the store |
| RegistryReads.ListAlone | src/subs_mgrs/registry/subs_mgr.c:601-631 | a listing answers the subscriber of every readable resource in the collection and no other, whatever the index says |
| RegistryReads.ScanAlone | src/subs_mgrs/registry/subs_mgr.c:632-675 | a scan that nobody interrupts answers, in whatever order it reads the entries, exactly the records of the store whose read worked |
| SqlText.PrintedTextReads | src/subs_mgrs/sqlite/subs_mgr.c:412-490 | text printed from words, symbols and literals that are kept apart is read back, character by character, as exactly those tokens |
| SqlText.PastedValueReads | src/subs_mgrs/sqlite/subs_mgr.c:923-925 | a value pasted between quotes is read back as itself exactly when it holds no quote |
| SqlStatements.InsertTextSays | src/subs_mgrs/sqlite/subs_mgr.c:412-490 | whichever optional columns are present, the printed text is an insert of those columns between id and renewed, with as many placeholders as columns |
| SqlStatements.UpdateTextSays | src/subs_mgrs/sqlite/subs_mgr.c:636-703 | whichever optional columns are present, the printed text sets exactly those and renewed, for the row with the given id |
| SqlStatements.RemoveTextSays | src/subs_mgrs/sqlite/subs_mgr.c:847 | the remove statement names the row of its id if and only if the id holds no quote |
| SqlStatements.SelectTextSays | src/subs_mgrs/sqlite/subs_mgr.c:1025-1034 | the retrieve statements ask for the seven columns of all rows, or of the rows with the given value; the latter if and only if the value holds no quote |
| SqlTable.ColumnsGetTheirValues | src/subs_mgrs/sqlite/subs_mgr.c:514-567 | each listed column is bound to its own field, whichever other fields are present |
| SqlTable.InsertBuildsRow | src/subs_mgrs/sqlite/subs_mgr.c:499-576 | the insert with its bound values builds exactly the row of the subscriber, absent fields being NULL |
| SqlTable.InsertRefines | src/subs_mgrs/sqlite/subs_mgr.c:412-601 | running the printed and bound insert appends exactly that row, fails exactly when the id is taken, and is the insert of the abstract map |
| SqlTable.UpdateMergesRow | src/subs_mgrs/sqlite/subs_mgr.c:713-787 | the update with its bound values makes of a row the row with the present fields replaced and the absent ones kept |
| SqlTable.UpdateRefines | src/subs_mgrs/sqlite/subs_mgr.c:636-817 | running the printed and bound update merges the row with the id, leaves every other row, creates none, and is the update of the abstract map |
| SqlTable.SelectById | src/subs_mgrs/sqlite/subs_mgr.c:923-928 | selecting by id delivers exactly one row if the id is stored, and none otherwise |
| SqlTable.RemoveRefines | src/subs_mgrs/sqlite/subs_mgr.c:847-848 | running the remove statement for an id without a quote takes out the one row, and is the remove of the abstract map |
| SqliteCallbacks.RowSetsItsColumns | src/subs_mgrs/sqlite/subs_mgr.c:340-381 | a delivered row sets exactly the fields whose columns it has |
| SqliteCallbacks.IsSetExactly | src/subs_mgrs/sqlite/subs_mgr.c:373-380 | a text counts as true exactly if, after any zeros, it goes on with another digit |
| SqliteCallbacks.EmptyRowDrops | src/subs_mgrs/sqlite/subs_mgr.c:244-250 | a row without columns drops the subscriber or the list gathered so far |
| SqliteCallbacks.CompleteRowDecides | src/subs_mgrs/sqlite/subs_mgr.c:340-381 | a row with all seven columns leaves nothing of what was there before |
| SqliteCallbacks.ColumnOrderDoesNotMatter | src/subs_mgrs/sqlite/subs_mgr.c:340-381 | the order in which the seven columns come does not matter |
| SqliteCallbacks.RepeatedWhileBusy | src/subs_mgrs/sqlite/subs_mgr.c:1239-1247 | the busy handler goes on exactly while the statement is busy, at most 512 times |
| SqliteCallbacks.BusyOnlyAfterAll | src/subs_mgrs/sqlite/subs_mgr.c:1237-1249 | a statement ends as busy if and only if its first execution and all 512 repetitions were busy |
| SqliteCallbacks.RetrieveIsLastAttempt | src/subs_mgrs/sqlite/subs_mgr.c:1239-1247 | what the single-row callback has gathered over all attempts is what the last attempt delivered, if and only if that attempt delivered a row or no earlier one did |
| SqliteCallbacks.ListIsLastAttempt | src/subs_mgrs/sqlite/subs_mgr.c:232-310 | the list callback holds the rows of all attempts one after another, which is the last attempt's list if and only if busy attempts delivered none |
| SqliteCallbacks.Args.RetrieveCallback | src/subs_mgrs/sqlite/subs_mgr.c:313-385 | the single-row callback fills the subscriber it holds, creates it first if need be, and drops it for a row without columns |
| SqliteCallbacks.Args.FindCallback | src/subs_mgrs/sqlite/subs_mgr.c:232-310 | the list callback appends a new subscriber, or drops the list for a row without columns |
| SqliteCallbacks.Args.BusyHandler | src/subs_mgrs/sqlite/subs_mgr.c:1228-1250 | the loop re-executes as often as specified, returns the last result, and leaves in the argument what all its attempts delivered |
| SqliteCallbacks.Args.Run | src/subs_mgrs/sqlite/subs_mgr.c:927-933 | executing a statement and, if it was busy, repeating it, ends as its last attempt, with the rows of all attempts gathered |
| SqliteManager.PrintInsert | src/subs_mgrs/sqlite/subs_mgr.c:412-490 | the fields printed one by one make the insert text of the columns that are present, and the counter makes as many placeholders |
| SqliteManager.PrintUpdate | src/subs_mgrs/sqlite/subs_mgr.c:636-703 | the fields printed one by one make the update text of the columns that are present |
| SqliteManager.PrepareInsert | src/subs_mgrs/sqlite/subs_mgr.c:499-576 | the bound insert has id, present fields and renewed flag at its placeholders, in order |
| SqliteManager.PrepareUpdate | src/subs_mgrs/sqlite/subs_mgr.c:713-787 | the bound update has present fields, renewed flag and id at its placeholders, in order |
| SqliteManager.SelectIsAnswered | src/subs_mgrs/sqlite/subs_mgr.c:1025-1036 | a retrieve statement without a quote in its value is answered with exactly the rows that have the value |
| SqliteManager.RetrieveFindsRow | src/subs_mgrs/sqlite/subs_mgr.c:923-928 | the answer to the retrieve statement of an id is the abstract map's record of that id, or no row |
| SqliteManager.FoundIsFiltered | src/subs_mgrs/sqlite/subs_mgr.c:1025-1036 | the rows with a filter are the subscribers of the abstract map with that filter, each once |
| Stores.FilteredExactly | src/subs_mgrs/sqlite/subs_mgr.c:976-1096 | for a filter exactly the subscribers with that filter are listed, without one all of them |
| SqliteManager.Manager.Insert | src/subs_mgrs/sqlite/subs_mgr.c:388-602 | insert succeeds exactly when the database is open, the step completes and the id is new; the table then has one more row, the subscriber's, and the abstract map is the inserted one |
| SqliteManager.Manager.Update | src/subs_mgrs/sqlite/subs_mgr.c:605-817 | update merges into the row with the id, changes no other row, and is a success also if there is no such row |
| SqliteManager.Manager.Remove | src/subs_mgrs/sqlite/subs_mgr.c:820-879 | remove reports success exactly when the delete was executed, also when its COMMIT is lost and nothing was removed; otherwise exactly the one row is gone |
| SqliteManager.Manager.Retrieve | src/subs_mgrs/sqlite/subs_mgr.c:882-973 | retrieve answers the abstract map's record for a stored id, whatever busy attempts delivered, and NULL for others unless a busy attempt had delivered a row |
| SqliteManager.Manager.RetrieveAll | src/subs_mgrs/sqlite/subs_mgr.c:976-1096 | retrieve-all answers the rows of busy attempts followed by exactly the subscribers of the abstract map with the filter, each once; NULL exactly on failure |
| Xml.FirstChildIsFirst | src/util/savan_util.c:479-480 | lookup by qualified name answers the first child with the name, and none exactly if there is none |
| SubscriberXml.ProcessSubscriberNode | src/util/savan_util.c:441-564 | the reader sets exactly the fields that the element gives and leaves the others |
| SubscriberXml.OtherFieldsStay | src/util/savan_util.c:441-564 | a field whose element is missing is left alone, each on its own; id, delivery mode and renewed flag are never touched |
| SubscriberXml.FilterIsRead | src/util/savan_util.c:530-556 | text and dialect of the first Filter element are read independently of each other, whatever stands around it |
| SubscriberXml.TextsAreRead | src/util/savan_util.c:475-528 | the first EndTo, Expires and Delivery elements give end-to address, expiry and notify address, whatever stands around them |
| SubscriberXml.ProcessSavanSpecificSubscriberNode | src/subs_mgrs/service/subs_mgr.c:611-691 | the reader of the savan-specific wrapper makes a new subscriber with its id and nested Subscribe element |
| SubscriberXml.IdentifierIsRead | src/subs_mgrs/service/subs_mgr.c:611-691 | the id of a wrapper is the text of its own Identifier, and the rest is read from its Subscribe element |
| SubscriberXml.ProcessSubscriberListNode | src/subs_mgrs/service/subs_mgr.c:566-608 | the reader of a list reads every Subscriber child in order, and answers NULL, not an empty list, if there is none |
| SubscriberXml.OtherChildrenAreNoSubscribers | src/subs_mgrs/service/subs_mgr.c:566-608 | a child of a list with another name, wherever it stands, is not read as a subscriber |
| SubscriberXml.CreateSubscriberNode | src/util/savan_util.c:567-653 | the writer builds the Subscribe element child by child, and nothing for NULL |
| SubscriberXml.CreateSavanSpecificSubscriberNode | src/util/savan_util.c:656-720 | the writer of the wrapper puts id, its own Filter element and the nested Subscribe element |
| SubscriberXml.GetSubscriberList | src/subs_mgrs/service/subs_mgr_svc/subs_mgr.c:352-384 | the list that the service writes for a store; StoreArrives and ListThroughService say what that is |
| SubscriberXml.StoreArrives | src/subs_mgrs/service/subs_mgr_svc/subs_mgr.c:357-381 | read back, the answer has every subscriber of the store that is not NULL, in its order, between those before and those after it; nothing for a NULL entry |
| SubscriberXml.ListThroughService | src/subs_mgrs/service/subs_mgr_svc/subs_mgr.c:352-384 | writing and reading together: NULL exactly if no entry is a subscriber, and otherwise what is sent of each, in order |
| SubscriberXml.OtherChildrenDoNotMatter | src/util/savan_util.c:535-541 | a child with another name or namespace, wherever it stands, does not change what a lookup finds |
| SubscriberXml.SubscribeRoundTrip | src/util/savan_util.c:475-653 | reading what was written: addresses and expiry arrive; filter and dialect arrive if both are there, and neither if one is missing |
| SubscriberXml.SubscriberRoundTrip | src/util/savan_util.c:656-720 | the same through the wrapper, with the id; the wrapper's own Filter element is not taken for the nested one |
| SubscriberXml.ListRoundTrip | src/subs_mgrs/service/subs_mgr_svc/subs_mgr.c:352-384 | reading a written list gives the same subscribers in the same order; only the empty list comes back as NULL |
| SubscriberXml.SentUnchanged | src/util/savan_util.c:604-649 | exactly which subscribers come back unchanged |
| SubscriberXml.FiltersBehindTheService | src/subs_mgrs/service/subs_mgr_svc/subs_mgr.c:350-379 | listed from SQLite no filter arrives, as the table has no dialect; listed from the registry all but EndTo arrives as subscribed |
| Requests.Refusal | src/core/savan_sub_processor.c:377-519 | a subscriber is accepted if and only if its delivery mode is absent or Push, and its filter is absent or has an accepted dialect |
| Requests.RefusalExactly | src/core/savan_sub_processor.c:377-519 | which fault: an unknown delivery mode first; then a filter is accepted in the Synapse dialect, or in XPath if the server was built with filtering; XPath without filtering is FilteringNotSupported, every other dialect, or none, FilterUnavailable |
| Requests.NewSubscriberSays | src/core/savan_sub_processor.c:90-149 | what a Subscribe request makes of a subscriber that was written: its addresses, EndTo included, its filter with its dialect, the minted id, and "*" for whatever expiry it gave |
| Protocol.GoneForever | src/core/savan_sub_processor.c:152-241 | over SQLite, in every interleaving of subscribe, renew and unsubscribe, an id that was inserted and is not stored any more never comes back |
| Protocol.ResponsesAreTruthful | src/msgreceivers/savan_msg_recv.c:349-467 | in every run: after an answered Subscribe the id is stored, as the store keeps it, if and only if it can be stored and its write was not lost; RenewResponse and GetStatusResponse are built only from what is stored when the receiver re-reads; UnsubscribeResponse only for an id that the handler had found, and that is absent if the re-read worked |
| Protocol.EndIsFinal | src/msgreceivers/savan_msg_recv.c:349-383 | over SQLite: after a removal that took effect, or an UnsubscribeResponse whose re-read worked, the id is in no later store and in no later answer |
| Protocol.StepKeepsExpiries | src/subs_mgrs/common/subs_mgr.c:208-225 | a store call keeps all expiries at the last renewal's exactly when it is not a Renew without Expires that writes back an outdated expiry; and, where the last renewal is the last one reported as a success, not a lost write of an Expires other than the stored one |
| Protocol.ExpiriesRightIff | src/subs_mgrs/common/subs_mgr.c:208-225 | in every interleaving, both for the Renews that took effect and for those that were reported as a success: every expiry is always the Expires of the last one that carried one, or "*", if and only if no Renew without Expires writes back an outdated expiry and, for the reported ones, no write of an Expires other than the stored one is lost |
| ProtocolRuns.SerialisedKeepsCopies | src/core/savan_sub_processor.c:217-236 | with serialised handlers every copy that is written back is up to date |
| ProtocolRuns.SerialisedHandlers | src/msgreceivers/savan_msg_recv.c:506-537 | with serialised handlers, in every run: a stored subscription is what was subscribed with the expiry of the last Renew that took effect (or "*") and the renewed flag, and that is the expiry that GetStatus and Renew reported; the same for the last Renew reported as a success if no write of an Expires other than the stored one is lost |
| ProtocolRuns.ReportedRenewalsIff | src/subs_mgrs/registry/subs_mgr.c:456-472 | that condition is exact: with serialised handlers, every expiry is always that of the last Renew reported as a success if and only if no such write is lost |
| ProtocolRuns.LostRenewIsReported | src/subs_mgrs/registry/subs_mgr.c:456-472 | from every state: a Renew with a new Expires whose write is lost is reported as a success and answered with the old expiry |
| ProtocolRuns.StaleRenewLosesExpiry | src/core/savan_sub_processor.c:217-236 | without serialisation, from every state: two overlapping Renews of one id can both succeed and leave the old expiry |
| ProtocolRuns.StoredDialects | src/core/savan_sub_processor.c:440-492 | in every run of whole store calls over the registry, a stored subscriber with a filter has an accepted dialect; the SQLite table stores none |
| ProtocolRuns.RefusedSubscribe | src/core/savan_sub_processor.c:131-138 | a refused Subscribe leaves the store as it is, and its id is never inserted later |
| ProtocolRuns.SubscribeAlone | src/core/savan_sub_processor.c:90-149 | the store calls of a Subscribe handler that nobody interrupts change the store as the whole handler is specified to |
| ProtocolRuns.RenewAlone | src/core/savan_sub_processor.c:187-241 | the same for Renew |
| ProtocolRuns.UnsubscribeAlone | src/core/savan_sub_processor.c:152-184 | the same for Unsubscribe |
| Server.ActionsAreRecognised | src/util/savan_util.c:121-161 | a message type is recognised for exactly one action, and every action for its type |
| Server.ActionsOnTheWire | src/util/savan_util.c:121-161 | the eight actions by name, each recognised as its own type; no action is Unknown |
| Server.SubProcessor.ValidateSubscription | src/core/savan_sub_processor.c:495-519 | passes exactly the accepted subscribers, stated by dialect and built-in filtering, and sets the fault of the first check that fails |
| Server.SubProcessor.Subscribe | src/core/savan_sub_processor.c:90-149 | stores the new subscriber with expiry "*" exactly if it is accepted and can be inserted, leaves its id and itself for the receiver, and changes nothing on failure |
| Server.SubProcessor.Unsubscribe | src/core/savan_sub_processor.c:152-184 | succeeds exactly when the id is found, whether or not the removal worked |
| Server.SubProcessor.RenewSubscription | src/core/savan_sub_processor.c:187-241 | succeeds exactly when the id is found and the update does not fail; sets the fault if the id is not found |
| Server.SubProcessor.Handle | src/handlers/savan_in_handler.c:65-174 | dispatches on the message type; states the status, the store and the fault after every request, and that other messages change nothing |
| Server.MsgReceiver.Invoke | src/msgreceivers/savan_msg_recv.c:135-189 | dispatches on the message type; answers exactly as the re-read store says, sets the fault exactly on failure, and leaves the store as it is |
| Server.GetSubsMgr | src/subs_mgrs/common/subs_mgr.c:295-327 | the manager is created once and kept: handler and receiver get the same one |
| Service.Serve | src/msgreceivers/savan_msg_recv.c:135-189 | handler and receiver together, each asking for the manager of the configuration, for any outcomes of the store calls: which requests are answered, with which body, and what the store is then, answered or not; an UnsubscribeResponse only for an id that was found and, if the re-read worked, is gone, whatever was reported of the removal; nothing is answered without a manager |
| Service.OnlyTheseAreStored | src/core/savan_sub_processor.c:440-492 | what a served Subscribe stores under a new id: the subscriber asked for exactly if its filter is absent, in the Synapse dialect, or in XPath on a server with filtering; otherwise nothing, and it is not answered |
| Service.RenewIsProtocol | src/core/savan_sub_processor.c:187-241 | a Renew served on its own is the protocol's Renew: same store, answered in the same cases, with the same expiry |
| Service.UnsubscribeIsProtocol | src/core/savan_sub_processor.c:152-184 | the same for Unsubscribe |
| Service.StatusIsProtocol | src/core/savan_sub_processor.c:244-259 | the same for GetStatus |
| Service.SubscribeIsProtocol | src/core/savan_sub_processor.c:90-149 | the same for Subscribe, where it is answered whether or not its write was lost |
| Session.RenewAtServer | src/client/savan_client.c:181-265 | a client's Renew through the server and back: its own id is renewed however many requests it made before, and the client is told the Expires it asked for, or the stored one if it gave none or the write was lost, or nothing, in exactly the stated cases |
| Session.GetStatusAtServer | src/client/savan_client.c:314-390 | a client's GetStatus through the server and back: it is told the stored expiry of its own id exactly if that is stored and the re-read works, and the store is unchanged |
| Session.UnsubscribeAtServer | src/client/savan_client.c:268-311 | a client's Unsubscribe through the server and back: exactly its own id goes if it could be read and removed; it is told so exactly if its id was found and is then gone or cannot be re-read, or if a fault comes back, as any reply counts |
| Session.SubscribeAtServer | src/client/savan_client.c:78-178 | a client's Subscribe through the server and back: the client is told that it subscribed exactly if its filter is accepted and the insert is reported as a success, and then has the id under which it was stored |
| Session.RenewAfterSubscribe | src/core/savan_sub_processor.c:187-241 | renewing what was just subscribed: the expiry asked for is stored and told exactly if the subscriber can be stored |
| Session.SubscribeThenRenew | src/client/savan_client.c:78-265 | a new client that subscribes and renews without hindrance is told the expiry that it asked for, and the server keeps its subscription with it and all others as they were, if and only if its filter is accepted and what it asked for can be stored |
| SqliteAsSubsMgr.Insert | src/subs_mgrs/common/subs_mgr.c:37-44 | the SQLite manager's insert meets what the server relies on, in one of the outcomes |
| SqliteAsSubsMgr.Update | src/subs_mgrs/common/subs_mgr.c:46-53 | the same for its update |
| SqliteAsSubsMgr.Remove | src/subs_mgrs/common/subs_mgr.c:55-63 | the same for its remove, for ids without a quote, where a lost COMMIT is a lost removal |
| SqliteAsSubsMgr.Retrieve | src/subs_mgrs/common/subs_mgr.c:65-72 | the same for its retrieve, without a quote in the id and unless a busy attempt delivered something outdated |
| RegistryAsSubsMgr.Insert | src/subs_mgrs/common/subs_mgr.c:37-44 | the registry manager's insert of a new id meets it, whatever the subscriber has, where a failed put is a lost insert |
| RegistryAsSubsMgr.Update | src/subs_mgrs/common/subs_mgr.c:46-53 | the same for its update of an id whose resource, if the index leads to one, has an address, where a failed put is a lost update |
| RegistryAsSubsMgr.Remove | src/subs_mgrs/common/subs_mgr.c:55-63 | the same for its remove, which takes effect with its delete |
| RegistryAsSubsMgr.Retrieve | src/subs_mgrs/common/subs_mgr.c:65-72 | the same for its retrieve |
| Server.ExpiresArrives | src/client/savan_client.c:372-386 | the expiry that a response was built with is the one that a client reads from it |
| Client.SubscribeResponseRoundTrip | src/client/savan_client.c:438-517 | the client reads back the id and the manager's address that the server put in |
| Client.ResponseIsReported | src/client/savan_client.c:236-262 | a client reports the expiry that a response of the expected name was built with, and nothing for another response or none |
| Client.RequestSays | src/client/savan_client.c:196-220 | the body of a request is named after it and gives the Expires asked for |
| Client.WhatIsSent | src/client/savan_client.c:113-145 | what of the client's options leaves in its Subscribe: notify address and expiry always, filter and dialect only together, and no EndTo |
| Client.SavanClient.Subscribe | src/client/savan_client.c:78-178 | sends one Subscribe request for the options, restores the action, and remembers id and address exactly for a SubscribeResponse |
| Client.SavanClient.Renew | src/client/savan_client.c:181-265 | sends one Renew request after adding the header, restores the action, and reports the expiry of a RenewResponse |
| Client.SavanClient.Unsubscribe | src/client/savan_client.c:268-311 | the same for Unsubscribe; done exactly if there is a reply |
| Client.SavanClient.GetStatus | src/client/savan_client.c:314-390 | the same for GetStatus |
| Client.OldestHeaderIsRead | src/util/savan_util.c:202-208 | of the Identifier headers that have piled up, the server reads the oldest, whatever other headers there are |
| Client.FirstRequestDecides | src/client/savan_client.c:170-174 | every request resolves to the id at the first request on the service client; that is the client's current id if and only if it has not subscribed since, or was given the same id by its last subscription |
| Client.EveryRequestIsForItsOwn | src/client/savan_client.c:407-433 | from every state with own ids, every run of any number of clients that subscribe once keeps it so |
| Client.EveryRequestOfEveryClient | src/client/savan_client.c:407-433 | from the start: every request of every client resolves to the id minted for that client, and no two clients share an id |
| Client.WhatIsSubscribed | src/client/savan_client.c:113-131 | what the server makes of a client's options, and when it refuses: a filter given without a dialect is not sent, and the subscription is accepted without it |
| Publisher.DefaultPublisher.PublishToSubscriber | src/publishers/default/publisher.c:242-325 | one send exactly if the subscriber is admitted; a withheld subscriber is a failure exactly if an error is on record, possibly from before |
| Publisher.DefaultPublisher.Publish | src/publishers/default/publisher.c:132-239 | the loop sends once to each admitted subscriber that is not NULL, in store order |
| Publisher.OthersDoNotMatter | src/publishers/default/publisher.c:197-234 | what a subscriber gets does not depend on the ones before and after it, whatever becomes of them |
| Publisher.AdmittedAreMembers | src/publishers/default/publisher.c:281-317 | the admitted subscribers are exactly those of the list that the dialect and filter decision admits |
| Publisher.SentToNotifyTo | src/publishers/default/publisher.c:268-316 | every event that is sent goes under the id of an admitted subscriber to the address of its NotifyTo |
| Publisher.WhatOneGets | src/publishers/default/publisher.c:281-317 | what one subscriber gets: one event to NotifyTo exactly if the server is without filtering, or the dialect is Synapse's, or it has a filter that the filter module lets through |
| Publisher.WithheldSubscribers | src/publishers/default/publisher.c:281-317 | who is sent to is a success; who is withheld is one exactly if it was left to the filter module and no error is on record |
| Publisher.PublishedFromStore | src/publishers/default/publisher.c:284-310 | with filtering: a topic subscription kept by the registry is sent to; kept by SQLite it has lost its dialect and is left to the XPath filter |
| Events.PublishedInEveryRun | src/publishers/default/publisher.c:242-325 | in every run of requests over either store: a stored subscription is sent to under its id at the address it was subscribed with, exactly in the stated cases |
| Events.ClientIsSentTo | src/publishers/default/publisher.c:268-316 | so a client that subscribed is sent to at the notify address of its options |
| Events.AnsweredAreSentTo | src/publishers/default/publisher.c:155-234 | in every interleaving of single registry calls, whatever is answered for an id is sent to, if at all, at the address inserted with it |

## Left out

- Axis2/C, AXIOM, libxml2, libxslt, SQLite and the remote registry themselves: only what is listed under Assumptions.
- SOAP transport, logging, allocators, freeing, and running out of memory.
- How AXIOM treats an empty text: here a text, even an empty one, is read back as it was written.
- The XPath filter (src/filters/xpath/filter_mod.c): its verdict is an arbitrary function of the subscriber.
- The ESB publisher, the in-memory manager, the out handler, the samples, and the table of error messages.
- The code, subcode, reason and detail texts of a fault: a fault is one of five values here.
- Creating the database file and its permissions, and the fixed sizes of the SQL buffers (src/subs_mgrs/sqlite/subs_mgr.c:394, 629, 829, 894, 988, 1163-1226).
- Expiry by the clock: the code stores expiries as text and never ends a subscription on its own.
- The service manager's update, remove and topic operations, which do nothing (src/subs_mgrs/service/subs_mgr.c:225-257), and its AddSubscriber request, which puts the address where the reader does not look for it (lines 537-538).
- Topics, which are commented out or unused.
- SQL beyond the four statements that the manager prints: other statements are errors here. A row is a map from its columns, and the order of rows is that of insertion.
- The media type, description and author of a registry resource, and the registry cache.
- Subscribers without an id: the managers pass the id to functions that do not take NULL, so insert and update ask for one.
- SqliteManager.Manager.Retrieve: says nothing for ids with a quote, where the statement is about something else (SqlStatements.SelectTextSays).
- SqliteManager.Manager.Remove: says nothing about which rows go for ids with a quote, for the same reason (SqlStatements.RemoveTextSays).
- A NULL in the renewed column, which the table never holds, reads as false; the C library's number reader does not take NULL, nor are signs and leading blanks modelled.
- RegistryManager.Manager.RetrieveAll: asks that indexed resources have an address, because the source sets the id of a subscriber that would then be NULL; RegistryRuns.RunKeeps shows that runs of storable subscribers keep it so.
- RegistryRuns.RunKeeps: is about inserts of new ids with a filter and an address, and updates that keep the filter; a subscriber without a filter is put at the root path, where it is not found again (RegistryStore.InsertRefines covers that case).
- Protocol.GoneForever: is about SQLite; for the registry, RegistryReturns.NeverReturnedExactly says what holds instead.
- SqliteAsSubsMgr.Retrieve: says nothing for ids with a quote, or when a busy attempt delivered a row that the last one did not replace; then SqliteManager.Manager.Retrieve may answer something outdated.
- RegistryAsSubsMgr.Insert: is about an id that the registry knows nothing of, as minted ids are.
- RegistryAsSubsMgr.Update: is about an id whose resource has an address; without one the source updates it and reports success, although a retrieve answers NULL.
- SqliteAsSubsMgr.Remove: says nothing about ids with a quote, as SqliteManager.Manager.Remove.
- Listing a path that is not the collection of some filter.
- What happens where the source sets the id of a NULL subscriber: the interleaved scan passes over such an entry, and RegistryScans says exactly when it can meet one.
- RegistryRenewals.RenewalsChangeExpiryOnly: says which expiries are possible and not which of them is the last; Protocol.ExpiriesRightIff does, for whole store calls.
- RegistryInterleaving.RunKeeps: a registry call that fails has no effect; one that takes effect although it is reported as failed is not modelled.
- Protocol.EndIsFinal: is about SQLite; for the registry it is false, and RegistryReturns.AnsweredUnsubscribe has the exact condition.
- Publisher.DefaultPublisher.Publish: takes the listed subscribers as values, and a send to no address counts as a send, as the source makes the call.
