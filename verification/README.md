# A verified model of the web browser's derived and persisted state

This Dafny project models the components of the web browser and its webapp container that keep one
view of some data in step with another, one change at a time, and proves that they do. Every component
is a datatype of states with functions for its operations; the class beside it has the fields of the
original class, and every method of the class is proved to take the state to exactly what the function
says. What the component is for is then proved about the functions: over every run, for every input.

| file | models |
|---|---|
| `calendar.dfy` | `QDateTime::toTime_t` with its 32-bit sentinel, local calendar days |
| `history_db.dfy` | the history database and its worker thread: statements, the pending queue, the flush timer, switching databases, fetching |
| `history_model.dfy` | the history list of the UI thread |
| `history_edits.dfy` | what each edit does to the list and posts, entry by entry |
| `history_sync.dfy` | list edits against the statements they issue |
| `history_protocol.dfy` | both threads and the two event queues between them, as one state machine |
| `history_consistency.dfy`, `history_loading.dfy` | what it means that list, queues and file agree; exactly which edits are harmless while signals are on their way |
| `history_runs.dfy` | runs of both threads: the list can always be recovered from the file and the queues |
| `history_reload.dfy`, `history_visits.dfy` | a second session on the same file; order and visit counts over runs |
| `limit_proxy.dfy` | the proxy that shows the first rows of a source |
| `downloads.dfy` | the downloads list: pages of a table that changes between pages, and private entries |
| `cookies.dfy`, `cookie_protocol.dfy`, `cookie_helper.dfy` | the cookie helper: one request per host, asynchronous replies, one answer |
| `tabs.dfy` | the tabs, the current index and their signals |
| `date_list.dfy` | the list of visit dates over the rows of a source |
| `bookmarks.dfy` | bookmarks, their folders, both tables, and the list that groups bookmarks by folder |
| `hooks.dfy`, `hook_runs.dfy` | the click hook that brings the processed hooks in line with the installed ones: names and what is due, then whole runs on a disk |
| `collections.dfy`, `string_order.dfy` | shared facts about sequences, listeners and `QMap`'s key order |

`dafny verify dfyconfig.toml` checks the whole project.

How the surroundings appear in the model:

- A table is a sequence or a map of rows, a query or statement a function on it, and statements succeed.
  Where SQLite, a hash table or a directory listing is free to choose (the order of a hash iteration, the
  key of a new row, the time of a copied file), the choice is a parameter and the results hold for every
  choice.
- A queued Qt connection is a first-in first-out queue of events; a run is any interleaving of posting,
  delivering and timer steps. Clock readings, computed domains, existing files and answers of the cookie
  backend are parameters.
- `beginX`/`endX`/`dataChanged` are emitted signals. A listener that knows nothing but the signals, and
  re-reads what a signal tells it to re-read, replays them; a signal with a bad range or a wrong row count
  stops it.

What the model shows to be different from what one might expect (each has an exact condition or a concrete
input in the table below):

- For a clock ahead of UTC, removing 1 January 1970 drops entries from the history list but no row of the
  database (`HistorySync.EpochDayRemoval`, `HistorySync.EpochVisitStays`).
- An edit made while the history is still being fetched can leave list and file in disagreement for good: a
  visit of a url the fetch still has news about, a removal of rows still to arrive, showing a url that is
  about to be hidden, or a switch that overtakes a fetch. Which edits do is stated exactly
  (`HistoryLoading.Harmless`, `HistoryRuns.EditWhileArriving`); clients that wait for loaded() are safe
  (`HistoryRuns.WaitingIsEnough`).
- The destructor of the history model does not wait for events still posted to the worker: exactly those are
  lost (`HistoryProtocol.OperationsReachTheirDatabase`, `HistoryProtocol.QuitLosesAnOperation`).
- `LimitProxyModel::setLimit` takes the wrong branch between two different negative limits
  (`LimitProxy.SetLimitTracked`).
- Deleting a download deletes table rows by path but counts one row, so a path that is used again after its
  file is gone makes paging skip a row (`Downloads.DeletePaging`, `Downloads.DeleteLosesARow`); a failed
  rename still stores the new path once the type changed (`Downloads.FailedRenameAgrees`). These and an id
  that is used twice are the only operations that break the paging (`Downloads.StepKeepsValid`).
- The visit date list announces the removal of a row it does not have when the source lacks the role, and
  loses its default entry together with the last row that has no date (`DateList.RemovalHeard`,
  `DateList.RemoveKeepsValid`).
- Adding a folder whose name exists gives the table a second row but keeps the folder list as it is
  (`Bookmarks.AddFolderKeepsValid`).
- By default both hook folders lie inside the locations in which directives delete. A directive of a hook file
  without an underscore in its name, or of one named for the container itself, deletes a hook folder, and the
  run then does not do what it is meant to (`HookRuns.RunEffect`, `HookRuns.DefaultDeletes`,
  `HookRuns.WholeCacheDeleted`).
- Installing or updating a versioned click package deletes the directory of `package_app`, uninstalling it
  that of `package` (`Hooks.TargetsAgree`); a name without a separating underscore denotes the whole
  location (`Hooks.WholeLocation`). The function at `click-hooks/hook-utils.cpp:32-37` is named for
  unversioned ids, and only uninstalling calls it with one.

## Model

| member | source | states |
|---|---|---|
| HistoryRuns.ListAlwaysRecoverable | src/app/webbrowser/history-model.cpp:196-491 | Over every interleaving of both threads in which each edit is harmless when it is made, also during a fetch: the list that will be there when all signals have arrived is in step with the file that will be there when all operations have run; as soon as no switch or fetch waits for the worker, replaying the queued and then the posted operations on the database file gives exactly the list (url, domain, title, icon, visits, whole-second last visit) and the hidden urls with matching flags that the signals sent so far lead to, also after the destructor and for a session that quits during a fetch, where the operations still posted are those lost |
| HistoryRuns.EditWhileArriving | src/app/webbrowser/history-model.cpp:165-491 | In every consistent state, whatever signals and operations are on their way, an edit or a switch of the path leaves the list to come and the file to come in step if and only if it is harmless: a condition, edit by edit, on the list, the hidden urls, the signals on their way and the hidden urls of the file opened |
| HistoryRuns.WaitingIsEnough | src/app/webbrowser/history-model.cpp:537-615 | For clients that wait for loaded() before editing or switching, every run is one of harmless edits, and once the list is loaded nothing is on its way and the list is the file with the queued and posted operations applied |
| HistoryRuns.StepConsistent | src/app/webbrowser/history-model.cpp:508-678 | Every step of either thread keeps the list, once everything on its way has arrived, in step with the settled database file, and keeps urls distinct and flags right; the end of the worker keeps the list in step with the file and the lost operations |
| HistoryConsistency.FetchInStep | src/app/webbrowser/history-model.cpp:81-105 | The signals of one fetch, received in order by an empty list, bring it in step with the fetched file exactly when the file hides every url that the list hides already |
| HistoryLoading.EarlyEdit | src/app/webbrowser/history-model.cpp:196-491 | An edit made before given signals arrive, and the operations it posts, lead from a list and a file in step to a list and a file in step if and only if the edit is harmless; a harmless one has the effect it would have had later, or none |
| HistoryRuns.SwitchExactly | src/app/webbrowser/history-model.cpp:71-79 | A switch at any time, also during a fetch, leads to a list in step with the new file exactly when no row is still on its way and every hidden url on its way is hidden in the new file |
| HistoryRuns.SwitchTooEarly | src/app/webbrowser/history-model.cpp:165-176 | A concrete run in which a switch overtakes a fetch and the new list keeps a row of the old file |
| HistoryProtocol.StepIsWriteThrough | src/app/webbrowser/history-model.cpp:508-678 | However deliveries and timer fall, a step changes the settled store exactly by the events an edit posts: the write-behind queue refines writing through; the end of the worker leaves what it took |
| HistoryProtocol.HandledRefines | src/app/webbrowser/history-model.cpp:537-628 | The worker handling one event refines the store without a queue executing it at once, and signals the same rows |
| HistoryProtocol.TimeoutRefines | src/app/webbrowser/history-model.cpp:617-678 | When the flush timer fires cannot be observed in the store |
| HistoryProtocol.OperationsReachTheirDatabase | src/app/webbrowser/history-model.cpp:522-554 | After any run with any switches that ends whenever the destructor happens to run, the events issued are those the worker took followed by those still posted, and each named database file is its first content with exactly the operations taken, applied in issue order, that were issued while it was current: nothing but the events still posted is lost, and nothing is applied elsewhere |
| HistoryProtocol.EventsConserved | src/app/webbrowser/history-model.cpp:508-520 | Over every run the events posted or issued are those the worker takes, in order, and those still posted |
| HistoryProtocol.QuitLosesAnOperation | src/app/webbrowser/history-model.cpp:64-69 | A concrete run that ends without a visit made just before |
| HistoryProtocol.StoreAppliesIssued | src/app/webbrowser/history-model.cpp:537-554 | Through any posted events a file changes only by the operations posted while it is current |
| HistorySync.FirstVisitInStep | src/app/webbrowser/history-model.cpp:196-267 | A first visit and its INSERT keep list and database in step |
| HistorySync.NextVisitInStep | src/app/webbrowser/history-model.cpp:196-267 | A further visit, which moves the entry to the front, and its UPDATE keep list and database in step |
| HistorySync.UpdateInStep | src/app/webbrowser/history-model.cpp:278-308 | A changed title or icon and its UPDATE keep list and database in step |
| HistorySync.RemoveByUrlInStep | src/app/webbrowser/history-model.cpp:310-322 | Removing by url and its DELETE keep list and database in step |
| HistorySync.RemoveSelectedInStep | src/app/webbrowser/history-model.cpp:324-364 | Removing by day or domain in memory and the DELETE over truncated seconds or domains remove the same entries |
| HistorySync.ClearAllInStep | src/app/webbrowser/history-model.cpp:419-441 | Clearing empties list, hidden urls and both tables together |
| HistorySync.HideInStep | src/app/webbrowser/history-model.cpp:443-491 | Hiding and unhiding flag exactly the entries of the url and keep the hidden table in step |
| HistorySync.EpochDayRemoval | src/app/webbrowser/history-model.cpp:404-412 | On the day that straddles the epoch, list and database stay in step exactly when the list has no entry of that day |
| HistorySync.EpochVisitStays | src/app/webbrowser/history-model.cpp:404-412 | A concrete list, an hour ahead of UTC, whose visit at the epoch is removed while its row stays |
| HistoryEdits.FirstVisitEffect | src/app/webbrowser/history-model.cpp:202-217 | A first visit lists the url in front with the given title, icon, domain and time, one visit and its flag; the others follow unchanged, and one INSERT of exactly these values is posted |
| HistoryEdits.NextVisitEffect | src/app/webbrowser/history-model.cpp:218-263 | A further visit moves the entry to the front with the given title and icon, the time and one visit more, keeping domain and flag; the others keep their order, and one UPDATE of exactly these values is posted |
| HistoryEdits.UpdateEffect | src/app/webbrowser/history-model.cpp:278-304 | An update gives the listed url both title and icon in its place, and posts one UPDATE of the whole entry; one without news does nothing |
| HistoryEdits.NothingToUpdate | src/app/webbrowser/history-model.cpp:278-285 | An empty url or one that is not listed is not updated: list, hidden urls and posted events stay as they are |
| HistoryEdits.RemoveEffect | src/app/webbrowser/history-model.cpp:310-322 | The first entry of the url is taken out and no other; the DELETE is posted even without one |
| HistoryEdits.RemoveDayEffect | src/app/webbrowser/history-model.cpp:324-340 | Exactly the entries of other local days stay, in their order |
| HistoryEdits.RemoveDomainEffect | src/app/webbrowser/history-model.cpp:342-355 | Exactly the entries of other domains stay, in their order |
| HistoryEdits.BulkRemovalPosts | src/app/webbrowser/history-model.cpp:404-417 | The range of seconds or the domain posted, and the arguments that do nothing |
| HistoryEdits.ClearEffect | src/app/webbrowser/history-model.cpp:419-441 | A list with entries is emptied, no url stays hidden and both clearing statements are posted; an empty list is left alone even when urls are hidden |
| HistoryEdits.HideEffect | src/app/webbrowser/history-model.cpp:443-491 | Exactly the membership and the flags of the url change, with one statement, or nothing when it has that state already |
| HistoryEdits.SwitchEffect | src/app/webbrowser/history-model.cpp:165-176 | Another path empties list and hidden urls and posts opening its file, or the in-memory database for the empty path, before the fetch |
| HistoryEdits.RowReceivedEffect | src/app/webbrowser/history-model.cpp:86-105 | A fetched row is listed last with its own values, the computed domain only when it has none, and its flag |
| HistoryDb.MemoryStartsEmpty | src/app/webbrowser/history-model.cpp:537-554 | The in-memory database is empty whenever it is opened and gone with its connection |
| HistoryDb.TimerRunsForPending | src/app/webbrowser/history-model.cpp:617-628 | The flush timer runs exactly while operations wait for it |
| Calendar.DayTestsAgree | src/app/webbrowser/history-model.cpp:324-337 | For every fixed offset the local-day test on milliseconds and the range test on truncated seconds agree on every representable instant exactly for the days that do not straddle the epoch |
| Calendar.DayIsTimeTRange | src/app/webbrowser/history-model.cpp:404-412 | An instant lies on a local day if and only if its truncated second lies between the first and last second of the day |
| Calendar.TimeTExactly | src/app/webbrowser/history-model.cpp:404-412 | The conversion cuts to the whole second towards 1970 and answers the largest unsigned 32-bit number outside its range |
| HistoryReload.ReloadRoundTrip | src/app/webbrowser/history-model.cpp:591-615 | Storing, dropping memory and fetching gives a permutation of the list with times cut to seconds, newest first, same hidden flags, and the same order when seconds are distinct and the list was newest first |
| HistoryReload.RestartRoundTrip | src/app/webbrowser/history-model.cpp:522-615 | After every run of harmless edits that ends with everything delivered, every second run of both threads that starts from the files left behind and opens the same path loads a list that restores the first one in that sense |
| HistoryReload.LegacyRowsDiffer | src/app/webbrowser/history-model.cpp:86-105 | Whatever the computed domains, the rows shown after a fetch are the stored ones exactly when every row of the file names its domain |
| HistoryVisits.ListStaysChronological | src/app/webbrowser/history-model.cpp:196-267 | Over every run of both threads in which each edit is harmless, with fetches and switches anywhere, the clock does not go back and no file is ahead of it, the entries are ordered by non-increasing last visit in every state |
| HistoryVisits.EditVisits | src/app/webbrowser/history-model.cpp:196-364 | One edit adds one to the visits of a url when it visits it, sets them to 0 when it forgets it, and leaves them alone otherwise |
| HistoryVisits.VisitsAccumulate | src/app/webbrowser/history-model.cpp:196-267 | Over every run of both threads in which each edit is harmless and none forgets the url, its visits, in the list or on their way to it, are those of the start plus the adds of the run |
| HistoryVisits.VisitsSinceForgotten | src/app/webbrowser/history-model.cpp:310-364 | After a harmless edit forgot a url that was listed, or not on its way to the list, its visits are the adds of the run of harmless edits since then |
| HistoryLoading.VisitTooEarly | src/app/webbrowser/history-model.cpp:81-105 | A concrete run in which a url visited before its stored row arrives is listed twice |
| HistoryDb.DeletedRows | src/app/webbrowser/history-model.cpp:648-659 | A DELETE keeps exactly the rows its condition does not select |
| HistoryDb.SortByVisit | src/app/webbrowser/history-model.cpp:601-606 | The fetch order is a permutation of the rows with the most recent visit first |
| HistoryDb.DbWorker.DoFlush | src/app/webbrowser/history-model.cpp:630-678 | The dequeue loop applies every pending operation to the open file in order and leaves the queue empty |
| HistoryDb.DbWorker.DoResetDatabase | src/app/webbrowser/history-model.cpp:537-554 | Pending operations go to the old file before the new one is opened |
| HistoryDb.DbWorker.DoFetchEntries | src/app/webbrowser/history-model.cpp:591-615 | Hidden urls, then rows newest first, then loaded() are posted, from the open file or none |
| HistoryDb.DbWorker.Destroy | src/app/webbrowser/history-model.cpp:522-535 | A last flush, then the connection is closed |
| HistoryUi.HistoryModel.GetEntryIndex | src/app/webbrowser/history-model.cpp:178-188 | The position of the first entry with the url, or -1 |
| HistoryUi.HistoryModel.Add | src/app/webbrowser/history-model.cpp:196-267 | The whole new list and posted operation of a visit, and the returned visit count |
| HistoryUi.HistoryModel.Update | src/app/webbrowser/history-model.cpp:278-308 | The whole new list, the posted operation, and whether anything changed |
| HistoryUi.HistoryModel.RemoveEntryByUrl | src/app/webbrowser/history-model.cpp:310-322 | The whole new list and the posted operation, also for an unknown or empty url |
| HistoryUi.HistoryModel.RemoveEntriesByDate | src/app/webbrowser/history-model.cpp:324-340 | The backward removal loop keeps exactly the entries of other days; an invalid date does nothing |
| HistoryUi.HistoryModel.RemoveEntriesByDomain | src/app/webbrowser/history-model.cpp:342-355 | The backward removal loop keeps exactly the entries of other domains; an empty domain does nothing |
| HistoryUi.HistoryModel.ClearAll | src/app/webbrowser/history-model.cpp:419-441 | Both lists empty and both clearing operations posted |
| HistoryUi.HistoryModel.Hide | src/app/webbrowser/history-model.cpp:443-469 | The hidden set, every entry's flag and the posted operation |
| HistoryUi.HistoryModel.UnHide | src/app/webbrowser/history-model.cpp:471-491 | The hidden set, every entry's flag and the posted operation |
| HistoryUi.HistoryModel.SetDatabasePath | src/app/webbrowser/history-model.cpp:165-176 | The same path does nothing; another one drops the list and posts the switch and the fetch |
| HistoryUi.HistoryModel.OnEntryFetched | src/app/webbrowser/history-model.cpp:86-105 | The row is appended with its flag and a computed domain when it has none |
| LimitProxy.ListenerAlwaysInStep | src/app/webbrowser/limit-proxy-model.cpp:109-268 | Over every run of insertions, removals and limit changes, all but one between two different negative limits, each signal is well formed (range in bounds, count changing by the announced length), the proxy is idle between steps, and a listener always holds the shown rows |
| LimitProxy.ViewIsPrefix | src/app/webbrowser/limit-proxy-model.cpp:87-94 | The listener's view is exactly the first limit rows of the source, or all of them for -1 |
| LimitProxy.ViewObeysLastLimit | src/app/webbrowser/limit-proxy-model.cpp:87-146 | After any run the view is the first rows of the source, as many as the limit set last says, or all of them |
| LimitProxy.InsertTracked | src/app/webbrowser/limit-proxy-model.cpp:148-194 | In every case of an insertion the signals bring a listener to the new view |
| LimitProxy.RemoveTracked | src/app/webbrowser/limit-proxy-model.cpp:196-242 | In every case of a removal the signals bring a listener to the new view |
| LimitProxy.SetLimitTracked | src/app/webbrowser/limit-proxy-model.cpp:109-146 | A limit change is announced right exactly unless it goes from one negative limit to a different negative one |
| LimitProxy.LimitProxyModel.SetLimit | src/app/webbrowser/limit-proxy-model.cpp:109-146 | The new limit and the signals sent |
| LimitProxy.LimitProxyModel.SourceRowsAboutToBeInserted | src/app/webbrowser/limit-proxy-model.cpp:148-194 | The flags, the range kept for later and the insertion announced, case by case |
| LimitProxy.LimitProxyModel.SourceRowsAboutToBeRemoved | src/app/webbrowser/limit-proxy-model.cpp:196-242 | The flags, the range kept for later and the removal announced, case by case |
| LimitProxy.LimitProxyModel.SourceRowsInserted | src/app/webbrowser/limit-proxy-model.cpp:244-255 | The announced insertion ends, the kept range is reported, and the proxy is idle |
| LimitProxy.LimitProxyModel.SourceRowsRemoved | src/app/webbrowser/limit-proxy-model.cpp:257-268 | The announced removal ends, the kept range is reported, and the proxy is idle |
| LimitProxy.LimitProxyModel.InsertIntoSource | src/app/webbrowser/limit-proxy-model.cpp:148-255 | Both slots around a source insertion make the step of the run model |
| LimitProxy.LimitProxyModel.RemoveFromSource | src/app/webbrowser/limit-proxy-model.cpp:196-268 | Both slots around a source removal make the step of the run model |
| Downloads.PagingSurvives | src/app/webbrowser/downloads-model.cpp:95-136 | Under every interleaving of fetching, adding, deleting, cancelling, pruning, changing and moving, with arbitrary paths and destinations: the first fetchedCount rows are exactly those read, the stored entries are those rows minus the skipped ones in order, the next page is unread, and nothing is lost when fetching is over |
| Downloads.StepKeepsValid | src/app/webbrowser/downloads-model.cpp:225-452 | An operation keeps exact paging, the list a mirror of the rows read, and distinct ids, if and only if it is not an add of an id the table has, a delete whose statement hits other than one row read, or a failed rename that list and table see differently |
| Downloads.PageIsUnread | src/app/webbrowser/downloads-model.cpp:95-103 | A page is the next stretch of rows, none of them read before, and empty only at the end |
| Downloads.FetchKeepsValid | src/app/webbrowser/downloads-model.cpp:95-136 | Reading a page keeps the invariant; complete rows without a file are counted but not listed |
| Downloads.FetchEffect | src/app/webbrowser/downloads-model.cpp:95-136 | The next hundred rows of the table, or what is left, are read; listed last and in their order are exactly those that are not complete or whose path exists, skipped exactly those that are complete and whose path does not; the first empty page ends fetching |
| Downloads.AddEffect | src/app/webbrowser/downloads-model.cpp:225-244 | A download that starts is listed first with the given values, not complete, not paused and without error, and unless private is the newest row and counts as read |
| Downloads.DeletePathEffect | src/app/webbrowser/downloads-model.cpp:361-382 | The first entry with the path goes, and unless it was private exactly the rows with the path |
| Downloads.CancelEffect | src/app/webbrowser/downloads-model.cpp:384-407 | The first entry with the id goes, and unless it was private exactly the rows with the id |
| Downloads.PruneEffect | src/app/webbrowser/downloads-model.cpp:440-452 | Exactly the entries that are not private stay, in their order; the table is left alone |
| Downloads.ChangeEffect | src/app/webbrowser/downloads-model.cpp:246-286 | Completing, failing and pausing each write their own value to the entry and the rows of the id, unless the entry has it already |
| Downloads.UnlistedUnchanged | src/app/webbrowser/downloads-model.cpp:246-286 | Changing or moving an id that is not listed leaves list and table as they are |
| Downloads.MoveEffect | src/app/webbrowser/downloads-model.cpp:288-343 | The entry takes the type, and the path when the rename succeeds; the row takes type and path as soon as one of them was to change |
| Downloads.DeleteTakesEffect | src/app/webbrowser/downloads-model.cpp:361-407 | The first download hit is gone from the list and no other; no other has the path or id exactly when it was the only one; unless private, no row of the table has it any more; all other rows stay |
| Downloads.DeletePaging | src/app/webbrowser/downloads-model.cpp:454-461 | For any table, paging stays exact after a delete if and only if the statement hit exactly one of the rows read, or none was issued |
| Downloads.DeleteKeepsValid | src/app/webbrowser/downloads-model.cpp:361-407 | The whole invariant survives a delete or a cancel under the same condition, and only then |
| Downloads.AddStoredKeepsValid | src/app/webbrowser/downloads-model.cpp:225-244 | A stored download keeps the invariant, whatever its path, exactly when its id is not in the table |
| Downloads.ReuseLosesARow | src/app/webbrowser/downloads-model.cpp:225-244 | For every table of one row more than a page whose newest row is complete and lost its file: reading a page, downloading to the same path again, deleting that and reading on ends with the last row in the table and never read |
| Downloads.DeleteLosesARow | src/app/webbrowser/downloads-model.cpp:361-382 | A concrete run of that kind, from an unread table of 101 rows |
| Downloads.PruneKeepsValid | src/app/webbrowser/downloads-model.cpp:440-452 | Pruning keeps the invariant and removes exactly the private entries |
| Downloads.ChangeKeepsValid | src/app/webbrowser/downloads-model.cpp:246-286 | Changing a value keeps the entry and its one row equal |
| Downloads.MoveKeepsValid | src/app/webbrowser/downloads-model.cpp:288-343 | Moving a file to whatever path keeps the invariant exactly when the rename succeeds or list and table have nothing to differ about |
| Downloads.FailedRenameAgrees | src/app/webbrowser/downloads-model.cpp:322-339 | After a failed rename list and table agree exactly when the type did not change or the path is the old one anyway |
| Downloads.RenameFailsAfterNewType | src/app/webbrowser/downloads-model.cpp:322-339 | A concrete download whose row takes the new path while the file and the list keep the old one |
| Downloads.FreeDestination | src/app/webbrowser/downloads-model.cpp:313-321 | The collision loop ends for every set of files with a path not among them: the plain name, or the least free number |
| Downloads.NumberingInjective | src/app/webbrowser/downloads-model.cpp:318-321 | Different numbers give different candidate names |
| Downloads.DestinationNames | src/app/webbrowser/downloads-model.cpp:309-321 | A moved file keeps its name, or gets the number between base name and complete suffix; a name without a dot gets one at its end |
| Downloads.NumbersReadBack | src/app/webbrowser/downloads-model.cpp:318-321 | The number is written in decimal digits without leading zeros and reads back |
| Downloads.DownloadsModel.FetchMore | src/app/webbrowser/downloads-model.cpp:95-136 | The whole state after reading one page |
| Downloads.DownloadsModel.FetchAll | src/app/webbrowser/downloads-model.cpp:463-468 | Fetching while more can be fetched ends, with every row read |
| Downloads.DownloadsModel.GetIndex | src/app/webbrowser/downloads-model.cpp:470-481 | The first entry with the id, or path, or -1 |
| Downloads.DownloadsModel.Delete | src/app/webbrowser/downloads-model.cpp:361-407 | The whole state after deleting by path or cancelling by id |
| Downloads.DownloadsModel.PruneIncognitoDownloads | src/app/webbrowser/downloads-model.cpp:440-452 | The backward loop keeps exactly the stored entries in order |
| Downloads.DownloadsModel.SetComplete | src/app/webbrowser/downloads-model.cpp:246-265 | The value in the list and in the table, or no change |
| Downloads.DownloadsModel.SetError | src/app/webbrowser/downloads-model.cpp:267-286 | The value in the list and in the table, or no change |
| Downloads.DownloadsModel.SetPaused | src/app/webbrowser/downloads-model.cpp:409-428 | The value in the list and in the table, or no change |
| Downloads.DownloadsModel.MoveToDownloads | src/app/webbrowser/downloads-model.cpp:288-343 | The free destination found by the collision loop, and type and path in the list and in the table, for a rename that succeeds or fails |
| Cookies.EveryCookieGoesOutOnce | src/app/webcontainer/oxide-cookie-helper.cpp:92-130 | An accepted call makes one request per host in ascending order with that host's cookies in order, and the requests together are a permutation of the cookies with their domains restored |
| Cookies.RequestsAreByDomain | src/app/webcontainer/oxide-cookie-helper.cpp:92-130 | An accepted call asks once for every host that a domain names, itself or with a dot in front; a request has exactly the cookies of those domains in their order, unchanged with a dot and without a domain otherwise; no host starts with a dot when no domain starts with two |
| Cookies.SameHost | src/app/webcontainer/oxide-cookie-helper.cpp:96-104 | Two cookies belong to one host exactly when their domains are equal up to one dot in front |
| Cookies.EmptyCallAnswered | src/app/webcontainer/oxide-cookie-helper.cpp:75-86 | A call without cookies makes no request and queues an answer without cookies |
| Cookies.DeliveryKeepsOrder | src/app/webcontainer/oxide-cookie-helper.cpp:75-86 | Queued answers are sent in the order in which they were queued |
| Cookies.UnknownReply | src/app/webcontainer/oxide-cookie-helper.cpp:156-170 | A reply to a request that is not pending adds its cookies as they are, and is answered when nothing is pending |
| CookieProtocol.EveryCallAnsweredOnce | src/app/webcontainer/oxide-cookie-helper.cpp:59-170 | Over every run there are as many cookiesSet signals as accepted calls once nothing is queued or pending |
| CookieProtocol.AnswerIsComplete | src/app/webcontainer/oxide-cookie-helper.cpp:92-170 | An answer comes after exactly one reply to every accepted request and is, as a multiset, the cookies of the refused requests and those named in replies, each with its domain |
| Cookies.RefusedFail | src/app/webcontainer/oxide-cookie-helper.cpp:110-138 | The failures of requests refused at once are the cookies of their hosts |
| CookieProtocol.FailuresGather | src/app/webcontainer/oxide-cookie-helper.cpp:156-170 | While a call is pending failures only accumulate, no request is made, and the last reply sends everything gathered |
| CookieProtocol.RepliesSettle | src/app/webcontainer/oxide-cookie-helper.cpp:156-170 | Each reply settles one request and each settled request had one reply |
| CookieProtocol.CallsInProgressIgnored | src/app/webcontainer/oxide-cookie-helper.cpp:68-71 | Leaving out all calls made while requests are pending gives a run with the same end and the same replies |
| CookieProtocol.NamedAreOriginal | src/app/webcontainer/oxide-cookie-helper.cpp:141-154 | Cookies that a reply names come back as cookies of the call |
| Cookies.DomainRoundTrip | src/app/webcontainer/oxide-cookie-helper.cpp:94-154 | Stripping the domain for a request and restoring it from the host gives the cookie back |
| CookieHelper.OxideCookieHelper.Group | src/app/webcontainer/oxide-cookie-helper.cpp:92-108 | The grouping loop builds the map from each host to its cookies in order |
| CookieHelper.OxideCookieHelper.RequestAll | src/app/webcontainer/oxide-cookie-helper.cpp:92-130 | Grouping, then one request for each host in ascending order |
| CookieHelper.OxideCookieHelper.SetCookies | src/app/webcontainer/oxide-cookie-helper.cpp:59-139 | The whole state after a call: ignored, empty, all refused, or pending |
| CookieHelper.OxideCookieHelper.OxideCookiesUpdated | src/app/webcontainer/oxide-cookie-helper.cpp:156-170 | The whole state after a reply, and the signal after the last one |
| Tabs.SignalsAreExact | src/app/webbrowser/tabs-model.cpp:91-249 | currentIndexChanged is sent exactly when the index changed and currentTabChanged exactly when the tab object changed, each once |
| Tabs.RunKeepsValid | src/app/webbrowser/tabs-model.cpp:91-249 | Over every run the current index is -1 exactly without tabs and otherwise in range, tabs stay distinct, and the row signals replay to the tabs |
| Tabs.SignalsReplay | src/app/webbrowser/tabs-model.cpp:129-249 | The row signals of an operation replay to its tabs; a move's adjacent swaps replay to taking the tab out and putting it in |
| Tabs.MoveKeepsCurrentTab | src/app/webbrowser/tabs-model.cpp:215-249 | A move never changes the current tab object |
| Tabs.MoveThereAndBack | src/app/webbrowser/tabs-model.cpp:215-249 | Moving there and back restores tabs and current index |
| Tabs.RelocatedStep | src/app/webbrowser/tabs-model.cpp:221-237 | One more adjacent swap carries the tab one place further |
| Tabs.InsertEffect | src/app/webbrowser/tabs-model.cpp:129-160 | The tab is at the index or the nearest end and the others make room; the first tab, or one put in at the current index, becomes current, otherwise the current tab stays |
| Tabs.RemoveEffect | src/app/webbrowser/tabs-model.cpp:169-196 | The others keep their order; the current tab stays, or gives way to the next one, or to the one before when it was last |
| Tabs.MoveEffect | src/app/webbrowser/tabs-model.cpp:215-249 | The moved tab is at its new place, the others keep their order, and the current tab stays |
| Tabs.SelectEffect | src/app/webbrowser/tabs-model.cpp:91-101 | The index asked for is selected if there is a tab at it |
| Tabs.SignalsInOrder | src/app/webbrowser/tabs-model.cpp:129-249 | Rows are announced first, then the count, exactly when it changed, then the index, then the tab |
| Tabs.TabsModel.SetCurrentIndex | src/app/webbrowser/tabs-model.cpp:91-101 | New index and signals; an invalid or equal index does nothing |
| Tabs.TabsModel.Insert | src/app/webbrowser/tabs-model.cpp:129-160 | The clamped position, the new tabs and index, and the signals in order |
| Tabs.TabsModel.Remove | src/app/webbrowser/tabs-model.cpp:169-196 | The tab taken out, the new tabs and index, and the signals in order |
| Tabs.TabsModel.Shuffle | src/app/webbrowser/tabs-model.cpp:221-237 | The loop of adjacent swaps equals taking the tab out and putting it in |
| Tabs.TabsModel.Move | src/app/webbrowser/tabs-model.cpp:215-249 | The new tabs and index and the signals of a move |
| DateList.DatesFollowTheRows | src/app/webbrowser/history-lastvisitdatelist-model.cpp:121-179 | Over every run of insertions, removals and resets, without removals from a source that lacks the role and removals that take the last undated row while a dated one stays: the list is empty without rows and else the default entry and the distinct dates newest first, keys match, every row is once in exactly one bucket, and the signals replay to the list |
| DateList.StepConsistent | src/app/webbrowser/history-lastvisitdatelist-model.cpp:129-277 | One insertion, reset, or removal other than those two keeps all of that and its signals replay |
| DateList.EnterKeepsValid | src/app/webbrowser/history-lastvisitdatelist-model.cpp:236-277 | A new row joins the bucket of its date, and a new date is listed and announced at its sorted position |
| DateList.RemoveKeepsValid | src/app/webbrowser/history-lastvisitdatelist-model.cpp:146-179 | Removing rows keeps the list right if and only if it does not take the last undated row while a dated one stays; the signals replay in either case |
| DateList.RemovalHeard | src/app/webbrowser/history-lastvisitdatelist-model.cpp:173-178 | A removal is announced well exactly when the source has the role |
| DateList.UndatedRowBreaksTheList | src/app/webbrowser/history-lastvisitdatelist-model.cpp:161-166 | A concrete list that loses its default entry |
| DateList.HistoryLastVisitDateListModel.InsertNewHistoryEntry | src/app/webbrowser/history-lastvisitdatelist-model.cpp:236-277 | Buckets, list and signals after one row, with or without notification |
| DateList.HistoryLastVisitDateListModel.PopulateModel | src/app/webbrowser/history-lastvisitdatelist-model.cpp:129-137 | Every row of the source entered silently |
| DateList.HistoryLastVisitDateListModel.OnRowsInserted | src/app/webbrowser/history-lastvisitdatelist-model.cpp:139-144 | The rows of the announced range entered in order, with their signals |
| DateList.HistoryLastVisitDateListModel.EraseInvalid | src/app/webbrowser/history-lastvisitdatelist-model.cpp:151-159 | The in-place loop keeps exactly the valid indexes in order |
| DateList.HistoryLastVisitDateListModel.OnRowsRemoved | src/app/webbrowser/history-lastvisitdatelist-model.cpp:146-179 | Every bucket swept once, whatever the order, and the default entry removed with the last bucket |
| DateList.HistoryLastVisitDateListModel.OnModelReset | src/app/webbrowser/history-lastvisitdatelist-model.cpp:227-234 | Everything dropped and entered again |
| Bookmarks.GroupsPartitionTheBookmarks | src/app/webbrowser/bookmarks-folderlist-model.cpp:153-191 | Over every run urls are distinct and are the url set, each entry's folder name is stored under its id and is a key, each entry equals its row, the groups of the sorted folders hold every bookmark exactly once, and the list's signals replay to the sorted names |
| Bookmarks.PositionIsSorted | src/app/webbrowser/bookmarks-folderlist-model.cpp:164-181 | The scanned insertion row is the folder's position in sorted order |
| Bookmarks.FolderSignalsReplay | src/app/webbrowser/bookmarks-folderlist-model.cpp:164-181 | Announcing any names one by one replays to the sorted names |
| Bookmarks.GroupsPartition | src/app/webbrowser/bookmarks-folder-model.cpp:99-104 | The filters for distinct names that cover every entry show every entry exactly once |
| Bookmarks.StepKeepsValid | src/app/webbrowser/bookmarks-model.cpp:231-364 | Every operation keeps urls, folders, entries and rows in agreement |
| Bookmarks.StepKeepsKeys | src/app/webbrowser/bookmarks-model.cpp:231-415 | Every folder name that appears is announced, and no other |
| Bookmarks.AddFolderKeepsValid | src/app/webbrowser/bookmarks-model.cpp:231-239 | The answered id stands for the name; the table gains a row even for a name that exists |
| Bookmarks.AddTakesEffect | src/app/webbrowser/bookmarks-model.cpp:257-277 | A new bookmark is listed first with the given url, title, icon, time and folder, under a key that stands for the folder; its row holds the same, other rows stay, and it joins the group of its folder and no other; a known url changes nothing |
| Bookmarks.GroupIsFilter | src/app/webbrowser/bookmarks-folder-model.cpp:99-104 | The group of a folder is the bookmarks filed under its name, in their order |
| Bookmarks.NamesAnnounced | src/app/webbrowser/bookmarks-model.cpp:231-395 | A folder is announced by the operation that brings its name and by no other |
| Bookmarks.UpdateTakesEffect | src/app/webbrowser/bookmarks-model.cpp:335-364 | The url takes the new title and folder and keeps icon and creation time, in the list and in its row; no other entry or row changes |
| Bookmarks.RemoveTakesEffect | src/app/webbrowser/bookmarks-model.cpp:303-324 | The one entry of the url and its row are taken out, the others keep their order |
| Bookmarks.LoadIsValid | src/app/webbrowser/bookmarks-model.cpp:123-166 | From tables with one row per url and positive folder keys, loading gives a valid state and moves bookmarks of unknown folders to none |
| Bookmarks.LoadTakesEffect | src/app/webbrowser/bookmarks-model.cpp:123-166 | Loading lists the rows in the order of the query with their own values and folder names; a row of an unknown folder is filed under none, in the list and in the table |
| Bookmarks.ReloadRoundTrip | src/app/webbrowser/bookmarks-model.cpp:55-68 | Dropping memory and loading again gives the same bookmarks in the same folders, in the same order when creation times strictly decrease |
| Bookmarks.BookmarksModel.AddFolder | src/app/webbrowser/bookmarks-model.cpp:231-239 | The tables, the folders and the announcement |
| Bookmarks.BookmarksModel.GetFolderId | src/app/webbrowser/bookmarks-model.cpp:385-395 | Some id under which the name is stored, or a newly added folder |
| Bookmarks.BookmarksModel.Add | src/app/webbrowser/bookmarks-model.cpp:257-277 | The whole state after bookmarking; a known url does nothing |
| Bookmarks.BookmarksModel.Remove | src/app/webbrowser/bookmarks-model.cpp:303-324 | The whole state after removing; an unknown url does nothing |
| Bookmarks.BookmarksModel.Update | src/app/webbrowser/bookmarks-model.cpp:335-364 | The whole state after updating, with a folder id under which the table stores the new name; no change writes nothing |
| Bookmarks.BookmarksModel.PopulateFolders | src/app/webbrowser/bookmarks-model.cpp:123-137 | The folders with the nameless one, and their announcements |
| Bookmarks.BookmarksModel.PopulateEntries | src/app/webbrowser/bookmarks-model.cpp:139-166 | Entries in query order, the url set, and repaired rows |
| Bookmarks.BookmarksModel.ResetDatabase | src/app/webbrowser/bookmarks-model.cpp:55-68 | The whole state is what the opened tables hold |
| Bookmarks.BookmarksFolderListModel.OnFolderAdded | src/app/webbrowser/bookmarks-folderlist-model.cpp:164-181 | The key joins and its row is announced, or nothing for a known name |
| Bookmarks.BookmarksFolderListModel.PopulateModel | src/app/webbrowser/bookmarks-folderlist-model.cpp:153-162 | Every name of the source becomes a key once |
| Bookmarks.BookmarksFolderListModel.OnModelReset | src/app/webbrowser/bookmarks-folderlist-model.cpp:183-191 | The keys are the names of the source |
| HookRuns.RunEffect | click-hooks/hook.cpp:41-64 | Wherever the folders lie: after a run the visible processed files are exactly the installed unversioned ids, each a fresh copy when it was missing or older and untouched otherwise, and each package had exactly the directives due to it, if and only if no directive due deletes a hook folder with something to lose |
| HookRuns.RunServes | click-hooks/hook-utils.cpp:238-342 | In a run without harmful directives a new package gets the directives its file holds for installing, an outdated one those for updating, a vanished one those its processed file holds for uninstalling, and an up-to-date one none; a new or outdated package gets a copy, a vanished one loses its file |
| HookRuns.EveryDirectiveIsHeld | click-hooks/hook-utils.cpp:39-92 | In every run, harmful or not, each directive executed is the one an installed hook holds for installing or updating, or a processed hook for uninstalling |
| HookRuns.RunQuiet | click-hooks/hook-utils.cpp:57-92 | A run loses no hook folder exactly under that condition |
| HookRuns.DefaultDeletes | click-hooks/hook-utils.cpp:204-225 | In the default layout a directive deletes a hook folder exactly when its directory name is empty or the container's own |
| HookRuns.WholeCacheDeleted | click-hooks/hook-utils.cpp:238-271 | A concrete run whose only directive deletes the whole cache location: the folder of processed hooks is gone and nothing is copied |
| HookRuns.NothingStaleAfterRun | click-hooks/hook-utils.cpp:300-342 | After a run without harmful directives every processed file is at least as new as its installed file exactly when copies got a time no older than their source; after any other run exactly when the run left no installed hook |
| HookRuns.StaleAfterLoss | click-hooks/hook-utils.cpp:57-92 | When a harmful directive is due and no directive deletes the folder of installed hooks, the processed folder is gone after the run and exactly the installed hooks are stale |
| HookRuns.LostHookEffect | click-hooks/hook-utils.cpp:57-66 | A hook whose file was deleted during the run executes and copies nothing |
| HookRuns.NothingInstalledAfterLoss | click-hooks/hook-utils.cpp:238-271 | When a new package asks for the folder of installed hooks to be deleted, the run leaves no installed hook and so nothing stale |
| HookRuns.IdleExactly | click-hooks/hook.cpp:41-64 | A run changes nothing exactly when the processed folder exists and no directive is due |
| HookRuns.SecondRunIdle | click-hooks/hook.cpp:41-64 | After a run without harmful directives a second run changes nothing and executes no directive exactly when copies got a time no older than their source; after any other run exactly when the processed folder is there and shows nothing |
| Hooks.SyncedEffect | click-hooks/hook.cpp:46-64 | What the three phases do to each package when no folder is lost: its processed file and its directives afterwards |
| Hooks.HookFilesHold | click-hooks/hook-utils.cpp:185-201 | The listing has exactly the ids of the hook files, each with one of its files |
| Hooks.OnlyFile | click-hooks/hook-utils.cpp:185-201 | With distinct unversioned names every hook file is the file of its id |
| Hooks.IdIsVisible | click-hooks/hook-utils.cpp:168-183 | A processed file is listed by the next run because its name is visible |
| Hooks.RemoveVersionOnce | click-hooks/hook-utils.cpp:227-236 | Exactly names of three parts lose their last part, and doing it twice changes nothing more |
| Hooks.SplitJoin | click-hooks/hook-utils.cpp:227-236 | Splitting joined parts at the separator gives the parts back |
| Hooks.JoinSplit | click-hooks/hook-utils.cpp:227-236 | Joining the parts of a name gives the name back |
| Hooks.TargetsAgree | click-hooks/hook-utils.cpp:32-37 | Directives of install and uninstall name the same directory exactly when the file name carries no version |
| Hooks.TargetBeforeUnderscore | click-hooks/hook-utils.cpp:32-37 | The directory is what stands before the last underscore, and empty without one |
| Hooks.LastDotSplits | click-hooks/hook-utils.cpp:185-201 | A file name is what stands before its last dot, the dot, and a suffix without one |
| Hooks.WholeLocation | click-hooks/hook-utils.cpp:57-92 | The directory name is empty exactly when no underscore follows the first character |
| HookRuns.HookFolders.ListInstalled | click-hooks/hook-utils.cpp:185-201 | The map from ids to files, a later file replacing an earlier one |
| HookRuns.HookFolders.ListProcessed | click-hooks/hook-utils.cpp:168-183 | The visible processed names |
| HookRuns.HookFolders.HandleInstalls | click-hooks/hook-utils.cpp:238-271 | Each new id handled once, in any order: directives with what they delete, then the copy if folder and file are still there |
| HookRuns.HookFolders.HandleUpdates | click-hooks/hook-utils.cpp:300-342 | Each known id handled once, in any order: up-to-date files are left alone, the others get directives with what they delete, removal and copy |
| HookRuns.HookFolders.HandleUninstall | click-hooks/hook-utils.cpp:273-298 | Each vanished id handled once, in any order: directives of the processed copy with what they delete, then its removal |
| HookRuns.HookFolders.RunHook | click-hooks/hook.cpp:41-64 | The processed folder made, both folders listed, then the three phases |
| StringOrder.AscendingUnique | src/app/webbrowser/bookmarks-folderlist-model.cpp:167-174 | The key order of a map of strings is determined by its keys |
| StringOrder.FirstDifferenceDecides | src/app/webbrowser/bookmarks-folderlist-model.cpp:167-174 | Strings are ordered by the first place where they differ, or by length when there is none |

## Left out

- HistoryModel's row signals and the roles of dataChanged: the lists they describe are modelled whole.
- HistoryProtocol.OperationsReachTheirDatabase: speaks of named files; the in-memory database disappears with its connection. Deliveries are first-in first-out.
- HistoryRuns.ListAlwaysRecoverable: edits are harmless where they are made (`HistoryRuns.EditWhileArriving` says exactly when; the day that straddles the epoch and visits without a domain are among its cases); stored rows name their domain (`HistoryReload.LegacyRowsDiffer`).
- Calendar.DayTestsAgree: the UTC offset is fixed; daylight saving changes are not modelled, nor are times beyond the 32-bit range (2106), whose `toTime_t` is the sentinel.
- HistoryDb.SortByVisit: rows with equal seconds keep their table order; SQLite promises no order for them.
- HistoryVisits.VisitsAccumulate: visit counts are unbounded; the source stores them in a 32-bit int.
- Failing SQL statements and file operations (except the failed rename of a download), schema creation and migration, the length of timers.
- QUrl: urls and hosts are strings; `toString` is taken to be injective and hosts to be unchanged by normalisation. Computed domains (the public suffix list) are parameters.
- LimitProxy.ListenerAlwaysInStep: source moves and resets and the choice of the source model are Qt code. Steps from one negative limit to a different negative one are left out (`LimitProxy.SetLimitTracked` shows that each of them is announced wrong).
- Downloads.PagingSurvives: steps are the allowed ones (`Downloads.StepKeepsValid` shows that every other step breaks the invariant); rows are ordered by strictly increasing creation time so that the table order is the query order. Creation dates, type detection and deleting the file itself are not modelled.
- CookieProtocol.EveryCallAnsweredOnce: the backend stays the same, request ids are distinct among pending calls, and every accepted request gets one reply; a reply to an unknown request, which the code would count, does not occur. The conversion of cookies to and from variants and the cleanup of old signal connections are not modelled.
- Tabs: title, url and icon changes of a tab, and tab objects that are destroyed elsewhere. Tabs are distinct objects.
- DateList.DatesFollowTheRows: removals without the role are left out (`DateList.RemovalHeard`), and so are those of the last undated row (`DateList.RemoveKeepsValid`); rows keep their dates; `onRowsMoved` is not modelled, because an index that was moved stays in its old bucket when that date survives. The role is read at resets.
- StringOrder.AscendingUnique: characters are Unicode scalar values. `QString` compares UTF-16 units, so names that first differ in a character beyond U+FFFF and one from U+E000 to U+FFFF are ordered the other way round.
- Bookmarks.GroupsPartitionTheBookmarks: the bookmarks table has one row per url and folder keys are positive, as the model writes them. A folder's own filter model is its filter; its row signals and dataChanged of the folder list are not modelled.
- HookRuns.RunEffect: hook files are regular files, file operations succeed, and the two hook folders are different directories, without symbolic links. JSON parsing is not modelled; of what directives delete only the hook folders are. Hidden files of the installed folder are not listed.
- The domain list, the domain settings, permissions and user-agent models, and their announced rows.
- Single instance handling, session storage, favicons, the cookie store, url patterns, intents and scheme filters, QML registration, plugins and injected scripts: plumbing, or engines that are not visible in this repository.
