# Free-form events of the team calendar

This project models the free-form event source of the Team Calendar extension for Azure DevOps and the decision logic of its add/edit event dialogs.

The event source (`FreeFormEventsSource`) keeps a cache of the selected team's events, keyed by id. Behind the cache is the extension data store. There, events live in one collection per team and month, named `<team>.MM-YYYY`. The source has five operations:

- it adds, updates and deletes events in the right month collection;
- it fetches the month collections of a displayed range, each at most once;
- on first use, it reads the team's legacy single collection and plans the migration of its documents into month collections, on at most ten queues;
- it projects the cache into display records and per-category counts;
- it registers the category titles it sees.

The dialogs validate the order of two date fields and resolve the category, team member and iteration a user typed. They report the first failing field check.

Modules:

- `Wrappers`: `Option` and `Result`.
- `Text`: trimming, decimal rendering and zero-filling.
- `Calendar`: proleptic Gregorian dates at day granularity, the `MM-YYYY` month label and the months of a range.
- `Events`: event documents and the document store.
- `EventCache`: collection names, the fetch plan, merging documents into the cache, and the projection rules.
- `Migration`: the legacy migration plan.
- `FreeForm`: the event source class.
- `Dialogs`: the dialog logic.

The store is a class whose calls complete at once and never fail. Stored date texts are read as `Option<Date>`: `None` means the text does not parse.

## Model

| member | source | states |
|---|---|---|
| FreeForm.FreeFormEventsSource.constructor | src/FreeFormEventSource.ts:15-20 | Starts with no categories, no store, an empty cache, no fetched collections, an empty team and an empty summary. |
| FreeForm.FreeFormEventsSource.Initialize | src/FreeFormEventSource.ts:146-152 | Sets the team and the store. Clears the cache, the categories and the fetched collections. Keeps the summary. With a fresh store (no stored id still to be issued) the ids start fresh. |
| FreeForm.FreeFormEventsSource.GetCategories | src/FreeFormEventSource.ts:58-60 | Returns the registered titles, which never include "Uncategorized". |
| FreeForm.FreeFormEventsSource.AddEvent | src/FreeFormEventSource.ts:22-51 | The category becomes its title and is registered unless it is "Uncategorized". The event is created in its start month's collection, the store issues one id, and the created document is cached under that id. Nothing else in the store or the cache changes. When no stored or cached id was still to be issued, that stays so, the new id was not cached before, and the created document is the only stored one with its id. |
| FreeForm.FreeFormEventsSource.DeleteEvent | src/FreeFormEventSource.ts:53-56 | Removes exactly that id from the cache and that id's documents from the collection of `startDate`'s month. Keeps the ids fresh. |
| FreeForm.FreeFormEventsSource.UpdateEvent | src/FreeFormEventSource.ts:154-190 | Fails, changing nothing, iff the id is not cached. Otherwise the cached event gets the new fields. If the start month is unchanged it is updated in place in its collection. Otherwise it is deleted from the old month's collection and created in the new one, and the store's answer is cached under its id. The store issues an id only when a moved event had none. Keeps the ids fresh. |
| FreeForm.FreeFormEventsSource.GetEvents | src/FreeFormEventSource.ts:62-140 | Corrected (Findings rows 1 and 3): the range end becomes inclusive (one day earlier). The month collections of the range and the legacy collection are marked fetched. The cache becomes the fetched cache with every parseable event normalized. The categories gain the registered titles of the fetched cache. The records are exactly one per fetched event included in the range, and the summary is that of the records. A migration plan is returned iff the legacy collection was read for the first time and exists. Keeps the ids fresh. |
| FreeForm.FreeFormEventsSource.ProjectCache | src/FreeFormEventSource.ts:76-139 | Corrected (Findings rows 1 and 3): over every cached event, normalizes parseable events, registers their titles, and returns one record per included event, each event once. The published summary has exactly the categories of the records, each with its colour and record count. Its subtitle is "<n> events" when the count is above 1, and otherwise the title of that category's record. Keeps the cache keyed and "Uncategorized" unregistered. |
| FreeForm.FreeFormEventsSource.ProjectEvents | src/FreeFormEventSource.ts:76-129 | Corrected (Findings rows 1 and 3): after the forEach over the whole cache, the cache, the categories, the records and the running tally are those of the projection over every cached id: each event is visited once, in some order. |
| FreeForm.FreeFormEventsSource.ProjectEvent | src/FreeFormEventSource.ts:79-129 | Corrected (Findings rows 1 and 3): for one cached event, the cache and categories change as the normalization rule says. One record, `Display(e)`, is appended iff the event is included, and the running tally stays consistent with the records. |
| FreeForm.FreeFormEventsSource.NormalizeEvent | src/FreeFormEventSource.ts:80-91 | Reports whether both dates parse. Only then are the category title registered (unless it is "Uncategorized") and the cached event replaced by its normalized form. Nothing else changes. |
| FreeForm.FreeFormEventsSource.TallyRecord | src/FreeFormEventSource.ts:118-127 | Counting one more record keeps the tally equal to the per-category counts of the records. A new category starts with the record's colour and title. |
| FreeForm.Revised | src/FreeFormEventSource.ts:165-169 | Definition: the cached event with the new category, description, end, start and title; the id and every other field are kept. `FreeForm.FreeFormEventsSource.UpdateEvent` states that the cache and the store receive it. |
| FreeForm.ProjectedStep | src/FreeFormEventSource.ts:79-129 | Projecting one more id keeps the loop state: the normalized cache, registered titles, records and tally over the visited ids. |
| FreeForm.DisplayedGrow | src/FreeFormEventSource.ts:97-116 | Visiting one more id adds its record exactly when it is included. |
| FreeForm.TalliedGrowNew | src/FreeFormEventSource.ts:121-126 | The first record of a category starts its entry with count 1 and the record's title. |
| FreeForm.TalliedGrowExisting | src/FreeFormEventSource.ts:118-119 | A record of a known category adds one to its count. |
| FreeForm.TallyToSummary | src/FreeFormEventSource.ts:131-138 | The finished tally with the count subtitles satisfies the summary property. |
| FreeForm.FreeFormEventsSource.FetchEvents | src/FreeFormEventSource.ts:236-275 | Marks the range's month collections and the legacy collection fetched. Leaves the cache equal to `FetchedCache`: the old cache, with the documents of the newly queried month collections merged in order, then (first time only) the legacy documents. Returns a migration plan iff the legacy collection was not fetched before and exists. |
| FreeForm.FreeFormEventsSource.MarkToFetch | src/FreeFormEventSource.ts:241-247 | Queries the names not fetched before, each once, in order, and marks all the names fetched. |
| FreeForm.FreeFormEventsSource.CacheDocuments | src/FreeFormEventSource.ts:252-254 | Caches each document under its id, later ones overwriting earlier ones. |
| FreeForm.FreeFormEventsSource.CacheCollections | src/FreeFormEventSource.ts:250-256 | Caches the documents of every returned collection, skipping absent ones. |
| FreeForm.FreeFormEventsSource.FetchLegacy | src/FreeFormEventSource.ts:258-271 | Marks the legacy collection fetched and caches its documents. A plan is returned iff the collection exists, and the plan is `Plan` of those documents. |
| FreeForm.FreeFormEventsSource.ConvertData | src/FreeFormEventSource.ts:196-234 | The returned queues are exactly `Plan`: the round-robin chaining of every document's create and delete, followed by every legacy category document's delete. |
| FreeForm.FreeFormEventsSource.ChainCategoryDeletes | src/FreeFormEventSource.ts:220-233 | Continues the round robin with one delete per legacy category document. |
| Migration.Enqueue | src/FreeFormEventSource.ts:207-217 | Wraps the running index back to 0 at the queue count and appends the job to that queue. The queues stay the chains of the jobs handed out so far. |
| Migration.QueueCountAsWritten | src/FreeFormEventSource.ts:199 | The queue count as written: min(n, 10). It is 0 for no documents. |
| Migration.QueueCount | src/FreeFormEventSource.ts:199 | The corrected queue count, between 1 and 10. It equals the written count whenever there is a document. |
| Migration.Jobs | src/FreeFormEventSource.ts:207-232 | Job i is document i's create-then-delete. After the documents, each category document's delete follows. |
| Migration.Slot | src/FreeFormEventSource.ts:207-216 | The queue of job t is below the queue count. The first `size` jobs go to queues 0, 1, and so on. |
| Migration.SlotPeriodic | src/FreeFormEventSource.ts:207-216 | Round robin: job t + size goes to the same queue as job t. |
| Migration.ChainStep | src/FreeFormEventSource.ts:210-216 | One more job extends exactly the queue it is assigned to. |
| Migration.ChainedIsPlan | src/FreeFormEventSource.ts:196-234 | The chains of all jobs over the corrected queue count are the plan. |
| Migration.Chain | src/FreeFormEventSource.ts:207-233 | Definition: queue q's steps are the steps of every job whose `Slot` is q, in job order, as the `.then` chains at :211-216 and :227 build them. Characterised by `ChainStep`, `ChainHasJob`, `ChainHoldsJob`, `ChainOnlyJobs` and `ChainedIsPlan`. |
| Migration.ChainHoldsJob | src/FreeFormEventSource.ts:211-216 | A job's steps form one unbroken run of its queue, in the job's own order. |
| Migration.ChainHasJob | src/FreeFormEventSource.ts:210-216 | Every step of a job is in the queue it is assigned to. |
| Migration.ChainOnlyJobs | src/FreeFormEventSource.ts:210-216 | A queue holds only steps of jobs assigned to it. |
| Migration.Plan | src/FreeFormEventSource.ts:196-234 | The corrected plan has QueueCount(n) queues. |
| Migration.DocumentAssignedRoundRobin | src/FreeFormEventSource.ts:207-217 | Document i's create in its month collection and its legacy delete are both in queue Slot(i), and the delete comes right after the create in that queue. |
| Migration.CategoryDocumentDeleted | src/FreeFormEventSource.ts:220-233 | Every legacy category document's delete is in queue Slot(n + j). |
| Migration.PlanOnlyMigrates | src/FreeFormEventSource.ts:210-231 | The plan creates only legacy documents, each in its own month collection. It deletes only legacy documents and legacy category documents. |
| Migration.PlanAsWritten | src/FreeFormEventSource.ts:196-234 | Definition: with the written count min(n, 10), no queues when there are neither legacy documents nor category documents, None (the TypeError at :227) when there are category documents but no legacy documents, and otherwise the chains of all jobs. Characterised by `PlanAsWrittenAgrees` and `EmptyLegacyStrandsCategoriesAsWritten`. |
| Migration.PlanAsWrittenAgrees | src/FreeFormEventSource.ts:196-234 | With at least one legacy document the written and the corrected plans coincide. |
| Migration.EmptyLegacyStrandsCategoriesAsWritten | src/FreeFormEventSource.ts:199-227 | As written, no legacy documents plus one category document makes the plan fail. The corrected plan deletes that document. |
| EventCache.MonthCollection | src/FreeFormEventSource.ts:41 | Definition: the team id, ".", then `Calendar.MonthLabel` of the date, the collection addEvent creates in. Characterised by `MonthCollectionSameMonth` (same collection iff same month and year), `ShardIsNotLegacy` and `MonthCollectionsCover`. |
| EventCache.StampCollection | src/FreeFormEventSource.ts:163-171 | Definition: the collection named from a stored start text, as at :163 and :171 and in convertData at :212: `MonthCollection` of the date when it parses, and `<team>.Invalid date` when it does not. Characterised by `StampCollectionIsShard`; `DocumentAssignedRoundRobin` and `PlanOnlyMigrates` use it for the migration's creates. |
| EventCache.MonthCollections | src/FreeFormEventSource.ts:237-239 | The queried names are `<team>.` plus each month label of the range, in order. |
| EventCache.MonthCollectionSameMonth | src/FreeFormEventSource.ts:171-174 | Two dates share a collection iff they are in the same month of the same year (the move test of updateEvent). |
| EventCache.ShardIsNotLegacy | src/FreeFormEventSource.ts:258-262 | A month collection is never the legacy collection or the legacy categories collection. |
| EventCache.StampCollectionIsShard | src/FreeFormEventSource.ts:171 | The collection a stored start date names is a month collection of the team. |
| EventCache.MonthCollectionsCover | src/FreeFormEventSource.ts:236-239 | Every date of the range has its month collection among the queried names. |
| EventCache.MonthCollectionsAreShards | src/FreeFormEventSource.ts:237-239 | A fetch names only month collections of the team. |
| EventCache.MonthCollectionsExcludeLegacy | src/FreeFormEventSource.ts:237-239 | The legacy collection is never among the month collections. |
| EventCache.ToFetch | src/FreeFormEventSource.ts:241-247 | The queried names are exactly those of the range not fetched before, without repeats. |
| EventCache.ToFetchStep | src/FreeFormEventSource.ts:242-246 | One more name is queried unless it was fetched before or is already queued. |
| EventCache.AllFetchedQueriesNothing | src/FreeFormEventSource.ts:241-247 | Names all fetched already lead to no query. |
| EventCache.RefetchQueriesNothing | src/FreeFormEventSource.ts:241-247 | Fetching the same range again queries nothing. |
| EventCache.MergeDocs | src/FreeFormEventSource.ts:250-256 | Definition: the documents written into the cache one after another, each under its own id, as the forEach at :252-254 (and at :264-266 for the legacy documents) does. Characterised by `MergeDocsKeys`, `MergeDocsKeepsKeyed`, `MergeDocsValues`, `MergeDocsStep`, `MergeDocsAppend`, `MergeDocsUnique` and `FreeForm.FreeFormEventsSource.CacheDocuments`. |
| EventCache.FetchedCache | src/FreeFormEventSource.ts:236-268 | Definition: the old cache merged with the documents of the month collections of the range not fetched before, then, on first use only, with the legacy documents. Characterised by `FetchedCacheIsMerge`, `FetchedCacheValues`, `FetchedCacheHoldsQueried`, `FetchedCacheKeepsUnique`, `FetchedCacheKeysStored`, `FetchedCacheFresh` and `FreeForm.FreeFormEventsSource.FetchEvents`. |
| EventCache.MergeDocsKeys | src/FreeFormEventSource.ts:250-256 | After merging, the cache keys are the old keys plus the documents' ids. |
| EventCache.MergeDocsKeepsKeyed | src/FreeFormEventSource.ts:253 | Merging keeps every event cached under its own id. |
| EventCache.MergeDocsValues | src/FreeFormEventSource.ts:253 | Keys not among the documents keep their events. A document whose id does not recur later is what its id holds. |
| EventCache.MergeDocsStep | src/FreeFormEventSource.ts:253 | Merging one more document writes it over its id. |
| EventCache.MergeDocsAppend | src/FreeFormEventSource.ts:250-268 | Merging two lists in turn is merging their concatenation. |
| EventCache.FlattenContains | src/FreeFormEventSource.ts:251-252 | Each document of a returned collection is among the flattened documents. |
| EventCache.FlattenFrom | src/FreeFormEventSource.ts:251-252 | Each flattened document comes from one of the returned collections. |
| EventCache.FetchedCacheHoldsQueried | src/FreeFormEventSource.ts:241-256 | A document of a month collection of the range not fetched before ends up cached under its id, and it is what that id holds when no other fetched document has the id. |
| EventCache.FetchedCacheIsMerge | src/FreeFormEventSource.ts:236-268 | A fetch merges the queried month documents, then (first time only) the legacy documents, one after another. |
| EventCache.FetchedCacheValues | src/FreeFormEventSource.ts:250-268 | After a fetch the cache keys are the old ones plus the fetched ids. An id no fetched document has keeps its event. A fetched document whose id does not recur later is what its id holds. |
| EventCache.MergeDocsUnique | src/FreeFormEventSource.ts:253 | A document that is the only one with its id among those merged, or already cached and not among them, is what its id holds afterwards. |
| EventCache.FetchedDocsStored | src/FreeFormEventSource.ts:250-268 | A fetch caches only documents of the store. |
| EventCache.FetchedCacheKeepsUnique | src/FreeFormEventSource.ts:236-268 | A cached event that is the only stored document with its id is still what its id holds after any fetch. |
| EventCache.FetchedCacheKeysStored | src/FreeFormEventSource.ts:250-268 | Every id cached after a fetch was cached before or is the id of a stored document. |
| EventCache.FetchedCacheFresh | src/FreeFormEventSource.ts:236-268 | A fetch caches no id the store has still to issue, when neither the cache nor the store held one. |
| EventCache.AddedEventAfterFetch | src/FreeFormEventSource.ts:41-45 | Add, then fetch: the event addEvent cached, being the only stored document with its id, is what getEvents leaves under that id (normalized when its dates parse). |
| EventCache.StoredEventCached | src/FreeFormEventSource.ts:236-256 | An event stored in the collection of its start month, with the start in the range and that month not fetched before, is cached after the fetch. |
| EventCache.CategoryOf | src/FreeFormEventSource.ts:83-91 | The category an event is shown under is never empty. It is the category's title when that is non-empty, and "Uncategorized" when it is empty. |
| EventCache.Normalized | src/FreeFormEventSource.ts:83-91 | Normalizing changes only the category, to the plain name `CategoryOf` gives, and keeps the category it is shown under. |
| EventCache.Display | src/FreeFormEventSource.ts:98-116 | The record is all-day and editable, with id "FreeForm.<id>", the event's start, an exclusive end one day after the event's end, and the shown category with its colour. |
| EventCache.WithCountSubtitle | src/FreeFormEventSource.ts:131-138 | A category with more than one record gets the subtitle "<n> events". Otherwise the subtitle is kept. |
| EventCache.CountCategory | src/FreeFormEventSource.ts:118-127 | Definition: the number of display records of a category, the `eventCount` the tally reaches. Characterised by `CountCategoryStep`, `CountCategoryPositive`, `FreeForm.TalliedGrowNew`, `FreeForm.TalliedGrowExisting` and `FreeForm.TallyToSummary`. |
| EventCache.CountCategoryStep | src/FreeFormEventSource.ts:118-127 | One more record adds one to its category's count and no other. |
| EventCache.CountCategoryPositive | src/FreeFormEventSource.ts:118-127 | A category has a positive count iff some record has it. |
| EventCache.SummaryCategoriesAsWritten | src/FreeFormEventSource.ts:118-132 | As written, the summary lists exactly the categories of the records that are not names inherited from `Object.prototype`. |
| EventCache.InheritedCategoryDroppedAsWritten | src/FreeFormEventSource.ts:118-132 | As written, a record in category "constructor" gets no summary entry. |
| EventCache.UncategorizedNeverRegistered | src/FreeFormEventSource.ts:86-88 | "Uncategorized" is never registered. |
| EventCache.NormalizeShownIdempotent | src/FreeFormEventSource.ts:83-91 | A second projection changes no cached event. |
| EventCache.Shown | src/FreeFormEventSource.ts:82 | Corrected (Findings row 1). Definition: both stored dates parse (not NaN). Characterised by `ParsedEventInWindowIncluded`, `NormalizeShownIdempotent` and `FreeForm.FreeFormEventsSource.NormalizeEvent`. |
| EventCache.ShownAsWritten | src/FreeFormEventSource.ts:82 | Definition: both stored dates parse and neither is the epoch, whose `Date.parse` value 0 is falsy. Characterised by `EpochEventHiddenAsWritten`. |
| EventCache.InWindow | src/FreeFormEventSource.ts:97 | Definition: the date lies in [calendarStart, calendarEnd], both ends included. Characterised by `IncludedWithExclusiveEnd`, `EndInWindowIncluded` and `SpanningEventExcluded`. |
| EventCache.Included | src/FreeFormEventSource.ts:82-97 | Definition: the event is `Shown`, and its start or its end is `InWindow`. Characterised by `IncludedWithExclusiveEnd`, `EndInWindowIncluded`, `SpanningEventExcluded`, `ParsedEventInWindowIncluded`, `VisibleGrow` and `FreeForm.DisplayedGrow`. |
| EventCache.IncludedWithExclusiveEnd | src/FreeFormEventSource.ts:71-74 | With the inclusive end one day before the exclusive range end, an event is shown iff its start or end lies in [start, rangeEnd). |
| EventCache.EndInWindowIncluded | src/FreeFormEventSource.ts:97 | An event whose end alone lies in the window is shown. |
| EventCache.SpanningEventExcluded | src/FreeFormEventSource.ts:97 | An event that starts before the window and ends after it is not shown. |
| EventCache.EpochEventHiddenAsWritten | src/FreeFormEventSource.ts:82 | As written, an event stamped 1970-01-01 is hidden although it is in range. |
| EventCache.ParsedEventInWindowIncluded | src/FreeFormEventSource.ts:82-97 | Corrected: every event whose dates parse and whose start is in the window is shown. |
| EventCache.NormalizeShownGrow | src/FreeFormEventSource.ts:83-91 | Normalizing one more id changes that id's entry only. |
| EventCache.RegisteredGrow | src/FreeFormEventSource.ts:86-88 | One more id adds at most its title to the registered titles. |
| EventCache.VisibleGrow | src/FreeFormEventSource.ts:97 | One more id adds itself to the included ids exactly when it is included. |
| Events.RemoveId | src/FreeFormEventSource.ts:55 | The remaining documents are exactly those with another id. |
| Events.Upsert | src/FreeFormEventSource.ts:41 | The written document is the only one with its id. Documents with other ids stay, and nothing else is added. |
| Events.Move | src/FreeFormEventSource.ts:180-187 | A move touches only the source and target collections, and the target always exists afterwards. |
| Events.MoveLeavesOneCopy | src/FreeFormEventSource.ts:180-187 | Between different collections, no copy is left under the old key in the source and exactly the new document is in the target. |
| Events.Lookup | src/FreeFormEventSource.ts:250 | Per requested name: the collection, or absent. |
| Events.WithId | src/FreeFormEventSource.ts:41-44 | A created document always has an id. It keeps its own id if it had one, and otherwise gets the issued id. No other field changes. |
| Events.IssuedIdInjective | src/FreeFormEventSource.ts:41 | The store never issues the same id twice. |
| Events.IssuedIdSpent | src/FreeFormEventSource.ts:41 | The id issued at the n-th creation is not among those still to be issued afterwards. |
| Events.KeysFreshUpdate | src/FreeFormEventSource.ts:44 | Caching under a key already present, or under the id just issued, keeps the cache keys fresh. The id just issued was not cached before. |
| Events.CreateKeepsFresh | src/FreeFormEventSource.ts:41 | createDocument keeps the store fresh, and a document it gives an id is the only stored one with that id. |
| Events.UpdateKeepsFresh | src/FreeFormEventSource.ts:175 | updateDocument with an id not still to be issued keeps the store fresh. |
| Events.DeleteKeepsFresh | src/FreeFormEventSource.ts:55 | deleteDocument keeps the store fresh. |
| Events.DocumentStore.CreateDocument | src/FreeFormEventSource.ts:41 | Writes the document with an id into the named collection. Issues a fresh id only when the document had none. |
| Events.DocumentStore.UpdateDocument | src/FreeFormEventSource.ts:175 | Replaces the document with that id in the named collection. |
| Events.DocumentStore.DeleteDocument | src/FreeFormEventSource.ts:55 | Removes the documents with that id from the named collection, if it exists. |
| Events.DocumentStore.QueryCollectionsByName | src/FreeFormEventSource.ts:250 | Answers `Lookup` of the names. |
| Calendar.PrevDay | src/FreeFormEventSource.ts:73-74 | The previous day is valid, and a valid date is on or before it iff it is before the given day. |
| Calendar.NextDay | src/FreeFormEventSource.ts:99-100 | The next day is valid, and a valid date is on or after it iff it is after the given day. |
| Calendar.NextDayOfPrevDay | src/FreeFormEventSource.ts:73-100 | A day back, then a day forward, returns the same date. |
| Calendar.PrevDayOfNextDay | src/FreeFormEventSource.ts:99-100 | A day forward, then a day back, returns the same date. |
| Calendar.MonthLabel | src/FreeFormEventSource.ts:41 | Stands in for TimeLib's `formatDate(d, "MM-YYYY")`. Definition: the zero-filled month, "-", then the year. Characterised by `MonthLabelSpells` and `MonthLabelSameMonth`. |
| Calendar.MonthsInRange | src/FreeFormEventSource.ts:237 | Stands in for TimeLib's `getMonthYearInRange(start, end)`. Definition: the labels of every month from the start's to the end's, in order. Characterised by `MonthsInRangeCovers`, `MonthsInRangeOnlyCovered` and `MonthsInRangeDistinct`. |
| Calendar.MonthLabelSpells | src/FreeFormEventSource.ts:41 | The month label is the two-digit month, "-", and the year. |
| Calendar.MonthLabelSameMonth | src/FreeFormEventSource.ts:171-174 | Two dates have the same label iff they are in the same month and year. |
| Calendar.MonthsInRangeCovers | src/FreeFormEventSource.ts:237 | Every date of the range has its month label in the list. |
| Calendar.MonthsInRangeOnlyCovered | src/FreeFormEventSource.ts:237 | Every listed label is a month between the start's and the end's. |
| Calendar.MonthsInRangeDistinct | src/FreeFormEventSource.ts:237 | The listed labels are pairwise distinct. |
| Text.Trim | legacy/src/Calendar/Dialogs.ts:629 | The result is a slice of the input with only whitespace before and after it. It neither starts nor ends with whitespace, and it is empty iff the input is all whitespace. |
| Text.LeadingSpaces | legacy/src/Calendar/Dialogs.ts:629 | The count of leading whitespace characters: all of them are whitespace and the next one is not. |
| Text.TrailingSpaces | legacy/src/Calendar/Dialogs.ts:629 | The count of trailing whitespace characters: all of them are whitespace and the one before them is not. |
| Text.TrimCounts | legacy/src/Calendar/Dialogs.ts:629 | Cutting the leading and then the trailing whitespace removes exactly the edge whitespace. |
| Text.TrimIdempotent | legacy/src/Calendar/Dialogs.ts:629 | Trimming an already trimmed value changes nothing. |
| Text.TrimLeadingSpace | legacy/src/Calendar/Dialogs.ts:629 | A leading whitespace character never survives trimming. |
| Text.NatToString | src/FreeFormEventSource.ts:135 | The decimal rendering is non-empty, all digits, without a leading zero, and reads back as the number. |
| Text.ZeroFill | src/FreeFormEventSource.ts:41 | The zero-filled rendering reads back as the number and has at least the given width. |
| Dialogs.IsValid | legacy/src/Calendar/Dialogs.ts:823-853 | An empty field or relative-to field passes, and so does a date that does not parse. |
| Dialogs.IsValidRejects | legacy/src/Calendar/Dialogs.ts:823-853 | Rejected iff both texts are non-empty, both parse and the dates are in the wrong order for the comparison. |
| Dialogs.IsValidMirror | legacy/src/Calendar/Dialogs.ts:843-847 | "Field on or after the other" accepts exactly the pairs that "other on or before the field" accepts. |
| Dialogs.FirstIndex | legacy/src/Calendar/Dialogs.ts:749-762 | `filter(p)[0]`: the first index satisfying p, or none iff none does. |
| Dialogs.CheckResult | legacy/src/Calendar/Dialogs.ts:437-444 | A field check resolves to "valid" when it passes and to its message when it fails. |
| Dialogs.InvalidMessages | legacy/src/Calendar/Dialogs.ts:463-465 | Only non-"valid" results, empty iff every result is "valid", and the first is the first failing result. |
| Dialogs.FailureNamedValidIgnored | legacy/src/Calendar/Dialogs.ts:440-464 | A failing check whose message is "valid" is filtered out and does not block the dialog. |
| Dialogs.ErrorShown | legacy/src/Calendar/Dialogs.ts:527-533 | A message is shown iff it is non-empty and not "invalid". |
| Dialogs.EditEventDialog.SetError | legacy/src/Calendar/Dialogs.ts:527-533 | Shows the message iff it is non-empty and not "invalid", and clears the error otherwise. |
| Dialogs.EditEventDialog.Validate | legacy/src/Calendar/Dialogs.ts:411-475 | OK is enabled iff the contributions and all checks pass. With invalid contributions the error is cleared. Otherwise the first failure is reported when `showError` is set, and the error is untouched when it is not. |
| Dialogs.CategoryIndex | legacy/src/Calendar/Dialogs.ts:636 | The first known category titled exactly the untrimmed value. |
| Dialogs.EditFreeFormEventControl.CategoryCallback | legacy/src/Calendar/Dialogs.ts:628-643 | A known category titled exactly the value wins. Otherwise the category is the trimmed value ("Uncategorized" when empty) with id "freeForm.<title>". |
| Dialogs.MemberIndex | legacy/src/Calendar/Dialogs.ts:778 | The first member with that display name. |
| Dialogs.IterationIndex | legacy/src/Calendar/Dialogs.ts:766 | The first iteration with that name. |
| Dialogs.CurrentIteration | legacy/src/Calendar/Dialogs.ts:747-763 | The first iteration whose start and finish are set and enclose the date. None iff there is no such iteration. |
| Dialogs.Covers | legacy/src/Calendar/Dialogs.ts:754-757 | Definition: the iteration's start and finish are both set, and the date lies between them, both included. Characterised by `CurrentIteration`. |
| Dialogs.CheckMemberValid | legacy/src/Calendar/Dialogs.ts:789-793 | Valid iff some member is named by the trimmed value, or the raw value is "Everyone". |
| Dialogs.CheckIterationValid | legacy/src/Calendar/Dialogs.ts:773-775 | Valid iff some iteration is named by the trimmed value. |
| Dialogs.EditCapacityEventControl.MemberCallback | legacy/src/Calendar/Dialogs.ts:777-787 | Sets the first member named by the trimmed value, or else `{displayName: "Everyone"}`. |
| Dialogs.EditCapacityEventControl.IterationCallback | legacy/src/Calendar/Dialogs.ts:765-771 | Sets the id of the first iteration named by the trimmed value, and leaves it unchanged when none matches. |

## Left out

- Asynchrony: every store call completes at once, in program order, and never fails. Promise rejection paths and interleaving of concurrent fetches are not modelled.
- The migration is planned, not executed. `ConvertData` returns the queues of store calls instead of running them, so the store still holds the legacy data afterwards.
- Iteration order of `Object.keys` is not modelled. The projection visits the cached ids in an arbitrary order, and the ghost `order` ties each record to its id. The summary is a map from category to entry, not an ordered array.
- `getSummaryData` returns the summary observable and is not modelled separately: the summary is the `summaryData` field.
- `generateColor` (in `Color`) is a parameter.
- `TimeLib` is not part of this model. Its `shiftToUTC`, `shiftToLocal`, `formatDate` and `getMonthYearInRange` are replaced by day-granularity definitions: the time-zone shifts are the identity, `formatDate(d, "MM-YYYY")` is `Calendar.MonthLabel`, and `getMonthYearInRange` is `Calendar.MonthsInRange`. The model also assumes that `formatDate` of an invalid `Date` returns "Invalid date" (`EventCache.InvalidDateText`). That text only names the collection of an event whose stored start does not parse (src/FreeFormEventSource.ts:163, :171, :212, in `EventCache.StampCollection`).
- FreeForm.FreeFormEventsSource.UpdateEvent: the collection it deletes from is named from the stored UTC start text (src/FreeFormEventSource.ts:163, :171). `addEvent` names the collection from the local start date (:41). Because the shifts are the identity, the two always agree. The model does not capture what a real time-zone offset does to that agreement.
- FreeForm.FreeFormEventsSource.NormalizeEvent: applies the corrected date test `EventCache.Shown`, not the truthiness test written at src/FreeFormEventSource.ts:82. `EventCache.ShownAsWritten` models the written test. The first Findings row shows where they differ.
- FreeForm.FreeFormEventsSource.ConvertData: plans with the corrected queue count `Migration.QueueCount`, not the written `min(n, 10)`. `Migration.PlanAsWritten` models the written plan. The second Findings row shows where they differ.
- FreeForm.FreeFormEventsSource.TallyRecord: tallies every category as an own entry. As written, a category named after a member of `Object.prototype` ("constructor", "toString", "__proto__", …) finds that inherited member and gets no entry. `EventCache.SummaryCategoriesAsWritten` models the written summary. The third Findings row shows where they differ.
- An `undefined` category is conflated with the empty title "".
- Aliasing: the source mutates the cached event object in place, and the updated document the store returns may be the same object. The model replaces map entries by value.
- The DOM, jQuery, dialog layout, combo and validator wiring, and the sorting of member names (locale comparison) are not modelled.
- Dates in the dialogs are the numbers `Date.valueOf()` gives. The culture's short-date parser is a parameter, and an invalid `Date` (NaN) compares as in the parser's `None`.
- Dialogs.EditEventDialog.Validate: the group validators and the field checks are inputs (their outcomes and messages). `checkValid` is foreign and runs asynchronously.
- FreeForm.FreeFormEventsSource.FetchEvents: requires and ensures only that the cache is keyed, not the whole `Valid()`; the categories are outside its frame, so `Valid()` is restored by `GetEvents`.
- FreeForm.FreeFormEventsSource.Valid: it does not state that the cached events come from fetched collections, because the source keeps no such link.

## Findings

| source | as written | input that shows it | evidently intended | confidence | as-written member | corrected member |
|---|---|---|---|---|---|---|
| src/FreeFormEventSource.ts:82 | `Date.parse(...)` is used as a boolean, and it is 0 (false) for 1970-01-01T00:00:00Z | an event starting and ending on 1970-01-01 in a window holding that day | skip only texts that do not parse (NaN) | not executed | EventCache.EpochEventHiddenAsWritten | EventCache.ParsedEventInWindowIncluded |
| src/FreeFormEventSource.ts:199 | `maxSize = min(n, 10)` is 0 when the legacy collection exists but is empty, so `queue[0]` is undefined when a category document is chained | an empty legacy collection and one legacy category document | at least one queue whenever there is a job | not executed | Migration.EmptyLegacyStrandsCategoriesAsWritten | Migration.CategoryDocumentDeleted |
| src/FreeFormEventSource.ts:118 | `catagoryMap` is a plain object, so `catagoryMap[event.category]` finds an inherited `Object.prototype` member (truthy) for a category such as "constructor", and `Object.keys` at :132 never lists it | one displayed event whose category is "constructor" | every category of the displayed records gets a summary entry | not executed | EventCache.InheritedCategoryDroppedAsWritten | FreeForm.TallyToSummary |
