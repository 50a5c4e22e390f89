# Link Highlighter — a Dafny model

Link Highlighter is a browser extension. Its content script colours every link on a page by
how recently the browser history says it was visited: today, this week, this month, older,
or never. The script can also preserve page classes, and it keeps up with links the page adds
later. The popup lets the user tune the batching and throttling.

This project models, in Dafny:

- the content script's `LinkHighlighter` object (`src/content.js`):
  - the URL gate (`isValidLink`, `isValidUrl`, `normalizeAndValidateUrl`);
  - the visit cache with its one-query-per-URL de-duplication;
  - the recency classifier and the tooltip text;
  - the class and attribute edits on a link element;
  - the adaptive batch scheduler;
  - the mutation gate with its throttled and immediate modes;
  - configuration loading and updating, and the message listener;
  - the page-level cleanup that runs at most once;
- the popup's input validation (`src/popup.js`).

Modules, one file each:

| module | file | what it holds |
|---|---|---|
| `Seqs` | seqs.dfy | `Option`, filtering, and de-duplication in first-seen order (JavaScript's `new Set([...])`) |
| `Text` | text.dfy | `trim`, `includes`, `startsWith`, ASCII lower-casing, `${n}` and `parseInt(s, 10)` |
| `UrlGate` | url_gate.dfy | the link and URL predicates, and the cache key of a URL, over an already-parsed URL record |
| `Visits` | visits.dfy | the visit summary, the five categories, the classifier on integer milliseconds, the tooltip and `aria-label` text |
| `ClassList` | class_list.dfy | the DOM `class` attribute as `classList` sees it: ordered distinct tokens, `add`/`remove` with their DOMException on a bad token, and `split(' ')` |
| `Presentation` | presentation.dfy | class `Link`: an anchor element whose methods edit its class attribute, `title`, `aria-label` and dataset in place |
| `Scheduler` | scheduler.dfy | the page-size table, the back-off, the selection of links, and the batch chain as a loop over timer callbacks |
| `MutationGate` | mutation_gate.dfy | the scan of mutation records (nested loops), and the timer/frame gate as a state machine |
| `VisitCache` | cache.dfy | the cache and pending-query maps as explicit `Begin`/`Complete`/`Fail`/`Clear` steps |
| `Controller` | controller.dfy | class `LinkHighlighter` with the fields the source mutates, and class `Page` with the cleanup flag |
| `Popup` | popup.dfy | `readPositiveInt` and the apply handler's validation order |

Asynchronous code is split at each `await`. A method runs up to the await and reports what it
waits for. A second method runs the continuation once the environment delivers the result.
Timers, animation frames and history answers are explicit events or parameters. The current
time (`Date.now()`) is a parameter `now`, in integer milliseconds.

## Model

| member | source | states |
|---|---|---|
| Seqs.Dedup | src/content.js:682-684 | `new Set` over a sequence: the result holds each element of the input exactly once, no duplicates, and nothing else |
| Seqs.DedupOfDistinct | src/content.js:490 | de-duplicating a sequence without repeats gives it back unchanged |
| Text.Trim | src/popup.js:11 | `trim()` is the slice left after removing whitespace from both ends; it is empty exactly when the text is all whitespace, and otherwise starts and ends with a non-space |
| Text.TrimPadded | src/popup.js:11 | whitespace around text that neither starts nor ends with whitespace is exactly what trimming removes |
| Text.ParseIntOfIntToString | src/popup.js:14 | `parseInt` of a printed integer is that integer |
| Text.ParseIntIgnoresSuffix | src/popup.js:14 | `parseInt` reads only the leading digits and ignores the text after them |
| Text.ToLowerIdempotent | src/content.js:503-504 | lower-casing twice is lower-casing once |
| UrlGate.IsValidUrlIff | src/content.js:370-393 | `isValidUrl` accepts exactly when `href` has none of `<>"'(){}` and no backslash followed by `u`, is at most 2000 characters long, and the hostname is non-empty and drawn from `[A-Za-z0-9.-]` |
| UrlGate.IsValidUrl | src/content.js:370-393 | the definition of `isValidUrl`: the deny-list of `href` substrings, the 2000-character bound and the hostname pattern; no contract of its own, `IsValidUrlIff` characterises it |
| UrlGate.NoSuspiciousPattern | src/content.js:374-377 | some pattern of the deny-list occurs in `href` exactly when some character or character pair of the list does |
| UrlGate.OverlongUrlRejected | src/content.js:380-382 | a 2001-character URL is rejected, and it has no cache key |
| UrlGate.IsValidLinkIff | src/content.js:330-367 | `isValidLink` holds exactly when: the element has an `href`, is connected, has an offset parent and is not hidden; its trimmed `href` is not empty, `#`, `void(0)` or `javascript:`-prefixed; it parsed; the lower-cased protocol is not deny-listed; `isValidUrl` holds; and that protocol is in the allow-list |
| UrlGate.IsValidLink | src/content.js:330-367 | the definition of `isValidLink`, its tests in the source's order; no contract of its own, `IsValidLinkIff` characterises it |
| UrlGate.FileLinksNeverValid | src/content.js:385 | a URL with an empty hostname (every `file:` URL) is never a valid link, whatever the allow-list says |
| UrlGate.SkippedProtocolBeatsAllowList | src/content.js:353-356 | a deny-listed protocol is rejected even when the allow-list names it |
| UrlGate.ScriptHrefRejected | src/content.js:333-336 | an `href` that trims to something starting with `javascript:` is rejected |
| UrlGate.CollapseSlashes | src/content.js:505 | the result has no doubled slash, keeps the non-slash characters in order, keeps the first character and a trailing slash |
| UrlGate.CollapseDoubleSlash | src/content.js:505 | a doubled slash anywhere collapses exactly as a single one: `x//y` and `x/y` give the same result; with the contract above this fixes the function, so no single slash is dropped |
| UrlGate.NormalizePath | src/content.js:505 | the normalised path is the collapsed path, or the collapsed path without its one trailing `/`; it is `/` exactly when the collapsed path is empty or `/`; it never ends in `/` otherwise and has no doubled slash |
| UrlGate.NormalizePathIdempotent | src/content.js:505 | normalising a normalised path changes nothing |
| UrlGate.NormalizePathKeepsNonSlash | src/content.js:505 | normalising keeps every non-slash character of the path, in order |
| UrlGate.NormalizeAndValidateUrl | src/content.js:496-516 | no key (`null`) exactly when parsing failed or `isValidUrl` rejects; otherwise the key is lower-cased protocol, `//`, lower-cased hostname, normalised path and the search string, without the hash |
| UrlGate.Key | src/content.js:500-511 | the cache key of a parsed URL; no contract of its own, its properties are in `NormalizeAndValidateUrl`, `NormalizeIdempotent` and `SpellingsShareKey` |
| UrlGate.NormalizeIdempotent | src/content.js:496-516 | a record already in normal form gets the same key and the same verdict as the original |
| UrlGate.SpellingsShareKey | src/content.js:500-511 | two spellings differing in hostname case, doubled and trailing slashes and the hash get one key |
| Visits.MaxOf | src/content.js:557 | `Math.max` of a non-empty list is an element of it and no smaller than any element |
| Visits.MinOf | src/content.js:558 | `Math.min` of a non-empty list is an element of it and no larger than any element |
| Visits.FromVisitTimes | src/content.js:555-560 | the summary counts the visits; the last and first visit are the maximum and minimum visit times, and both are absent exactly when there are no visits |
| Visits.FirstNotAfterLast | src/content.js:557-558 | a summary with at least one visit has its first visit no later than its last |
| Visits.DetermineHighlightClass | src/content.js:567-580 | the category is `never` exactly when there is no (non-zero) last visit |
| Visits.ClassifierMatchesDays | src/content.js:567-580 | the integer classifier agrees, on every input, with the source's comparison of the real day count `(now - last) / 86400000` against 1, 7 and 30 |
| Visits.ClassifierMonotone | src/content.js:574-579 | a visit further in the past never gets a fresher category |
| Visits.ZeroLastVisitIsNever | src/content.js:568 | a last visit of 0 is `never`, whatever the visit count |
| Visits.DaysAgoIsFloor | src/content.js:589 | the whole day count is the floor of the real one |
| Visits.DaysAgoBuckets | src/content.js:589-597 | for a past visit, the whole day count is below 1, 7 or 30 exactly when the time difference is below 1, 7 or 30 days |
| Visits.RecencyText | src/content.js:591-596 | the recency phrase for a whole day count; no contract of its own, `PhrasesDiffer` states which phrase each day count gets |
| Visits.HighlighterText | src/content.js:584-599 | the text is `Never visited` exactly when there is no last visit, and starts with `Visited ` otherwise |
| Visits.RecencyTextMatchesCategory | src/content.js:574-597 | for a visit in the past, the recency phrase names the same bucket as the category: `Today` and today, `Yesterday` or `N days ago` and week, `weeks` and month, `months` and older |
| Visits.PhrasesDiffer | src/content.js:592-596 | each recency phrase is produced for exactly its own range of day counts |
| Visits.FutureVisitPhrase | src/content.js:567-596 | a visit time ahead of the clock is classified `today`, but the day count is negative and the phrase reads `-N days ago` |
| Visits.TitleFor | src/content.js:601-605 | the new title is the text alone when no non-empty original is stored; otherwise it is exactly the original, then ` \| `, then the text; it always ends with the text |
| Visits.AriaLabelFor | src/content.js:607 | the label is the link text, ` - `, then the highlighter text |
| Visits.LabelMentionsVisited | src/content.js:582-607 | for link text without the word `Visited`, the label holds `Visited` exactly when the link was visited, so `Never visited` labels do not |
| ClassList.Tokens | src/content.js:481 | the tokens are distinct, and a token is in `classList` exactly when it is one of the attribute's whitespace-separated `Words` |
| ClassList.WordsSplitAttribute | src/content.js:481 | `Words` is the attribute's split at whitespace: the attribute is its whitespace runs interleaved with its words, in order; every run is whitespace only, and the runs between two words are not empty |
| ClassList.WordsOfJoin | src/content.js:492-493 | reading a joined list of tokens gives the list back |
| ClassList.TokensOfJoin | src/content.js:492-493 | writing distinct tokens to the attribute and reading `classList` gives them back |
| ClassList.Without | src/content.js:451-463 | after `remove`, a token is present exactly when it was present and is not among those removed |
| ClassList.WithoutTwice | src/content.js:451-463 | removing the same tokens twice removes nothing more |
| ClassList.With | src/content.js:465-467 | after `add`, a token is present exactly when it was present or was added |
| ClassList.RemoveFrom | src/content.js:462 | `classList.remove` throws exactly when an argument is empty or holds whitespace; otherwise the new `classList` is the old one without the arguments |
| ClassList.AddTo | src/content.js:465-467 | `classList.add` throws exactly when an argument is not a token; otherwise the new `classList` is the old one plus the arguments |
| ClassList.WithFresh | src/content.js:467 | adding tokens that are all new appends them in order |
| ClassList.SplitSpace | src/content.js:477 | `split(' ')` gives at least one piece, no piece holds a space, and joining the pieces with spaces gives the string back |
| ClassList.SplitOfJoin | src/content.js:477 | splitting a space-joined list of space-free pieces gives the pieces back |
| Presentation.PreservedTitle | src/content.js:420-422 | the title is stored only when no non-empty title is stored yet; otherwise the stored one stays |
| Presentation.AfterRemovalIdempotent | src/content.js:718-736 | the per-link cleanup of `removeHighlights` applied twice is applied once |
| Presentation.Link.RemoveHighlighterClasses | src/content.js:451-463 | the six highlighter classes are gone, every other class stays in order, and nothing else changes |
| Presentation.Link.MergeOriginalClasses | src/content.js:476-494 | the class list and the no-exception flag are those of removing the current page classes and adding the union of the stored and current page classes |
| Presentation.Link.AddHighlighterClasses | src/content.js:465-473 | the category class and the marker are added, then the stored classes are merged when class preservation is on and something is stored |
| Presentation.Link.AddCategory | src/content.js:437-448 | the `try`/`catch` around adding a category: on an exception the `never` class is added instead |
| Presentation.AddClasses | src/content.js:465-473 | the class list `addHighlighterClasses` leaves; no contract of its own, `ApplyLeavesOneCategory` and `RemoveUndoesApply` state its effect |
| Presentation.TryAddClasses | src/content.js:437-448 | the `try`/`catch` around `addHighlighterClasses`; no contract of its own, `ApplyLeavesOneCategory` and `MergeFailureLosesPageClasses` state its two outcomes |
| Presentation.Link.PreserveOriginalAttributes | src/content.js:418-428 | `originalTitle` is stored unless a non-empty one is; `originalClasses` is stored when preservation is on and none (or an empty one) is stored; nothing else changes |
| Presentation.Link.UpdateLinkTitle | src/content.js:582-608 | the title becomes the stored original and the visit text, and the label becomes the link text and the visit text; the classes and dataset are unchanged |
| Presentation.Link.FinishHighlight | src/content.js:442-448 | after the query: the category of the summary is added and the title updated, or `never` is added when the query failed |
| Presentation.Link.RemoveHighlight | src/content.js:718-736 | the link's state is `AfterRemoval` of its state before: highlighter classes stripped, a non-empty stored title restored and deleted, a label with `Visited` removed, `originalClasses` deleted |
| Presentation.MergeSteps | src/content.js:476-494 | the two `classList` calls of the merge, on the attribute, give the current highlighter classes followed by the merged page classes |
| Presentation.MergedTokens | src/content.js:490-493 | the merged list is all valid tokens exactly when the stored pieces are |
| Presentation.ApplyLeavesOneCategory | src/content.js:430-494 | after applying a category with no exception, the element holds exactly that one category class and the marker; with merging, its page classes are the union of the stored and current ones, without duplicates |
| Presentation.MergeFailureLosesPageClasses | src/content.js:434-494 | when a stored piece holds a tab or a line break, the merge throws after the removal; the catch block adds `never` and throws again; the element keeps no page class and carries both the category class and `never` |
| Presentation.TabSeparatedClassesCannotMerge | src/content.js:477 | a class attribute stored with a tab cannot be merged |
| Presentation.RemoveUndoesApply | src/content.js:451-473 | removing a highlight applied without merging gives back the classes as they were without the highlighter's |
| Presentation.TitleRestored | src/content.js:720-726 | a non-empty title survives highlighting and removal |
| Presentation.EmptyTitleAccumulates | src/content.js:420-422 | an empty title is stored as `""`; removal leaves the tooltip text as the title, and the next pass stores that text as the original and puts it before the new text |
| Presentation.LabelClearedIffVisited | src/content.js:729-732 | `removeHighlights` clears the label the highlighter wrote exactly when the link was visited |
| Scheduler.AdjustedSettingsBounds | src/content.js:273-287 | the table gives a batch size of at least 1 and a delay between 50 and 200 that grows with the page size |
| Scheduler.LargePageBatches | src/content.js:274-276 | above 500 links the batch size is `⌊n/250⌋`, at least 2, and it grows with the page |
| Scheduler.AdjustPerformanceSettings | src/content.js:273-287 | the page-size table, row by row: more than 500 links give a batch of `max(1, n / 250)` (integer division) and 200 ms; 201 to 500 give 2 and 150 ms; 101 to 200 give 3 and 100 ms; at most 100 give 5 and 50 ms |
| Scheduler.CalculateNextDelay | src/content.js:321-328 | a batch over 32 ms makes the next delay `min(3 × processingDelay, 1000)`; otherwise the delay is unchanged |
| Scheduler.NextDelayBounds | src/content.js:321-328 | the back-off is at most 1000 ms or the current delay, whichever is larger, and never shortens a delay of at most 1000 ms |
| Scheduler.SliceEnd | src/content.js:259-260 | `slice(0, end)` clamps `end` into the array, counting a negative one from the back |
| Scheduler.SelectLinks | src/content.js:256-260 | the selection is a prefix of the kept links; for a limit `m >= 0` it has `min(kept, m)` links, and for `m < 0` it has `max(kept + m, 0)`, as `slice(0, m)` gives |
| Scheduler.SelectionBounds | src/content.js:256-260 | the selection is a prefix of the kept links, at most `maxLinksPerPage` of them, and all of them when there are no more |
| Scheduler.ProcessLinksAdaptively | src/content.js:289-308 | the loop over timer callbacks produces exactly the batches `Run` defines |
| Scheduler.Run | src/content.js:289-308 | the batches the chain runs; no contract of its own, `RunShape`, `RunStopsWhenDisabled` and `SteadyRunCovers` state them |
| Scheduler.RunShape | src/content.js:289-308 | every batch is a non-empty slice inside the list; each starts at the previous start plus the re-read batch size; at most one batch runs per callback; each delay comes from its own callback's readings only |
| Scheduler.RunStopsWhenDisabled | src/content.js:290 | the chain stops at the first callback that finds highlighting off |
| Scheduler.SteadyRunCovers | src/content.js:289-308 | with a constant batch size, highlighting on and enough callbacks, the batches cover every selected link once, in order |
| Scheduler.GrowingBatchSkipsLinks | src/content.js:292-300 | when the batch size grows while a batch is in flight, the links between the two slices are skipped |
| MutationGate.ScanIsDedupFilter | src/content.js:658-680 | the `Set` the scan fills is the passing candidates, de-duplicated in first-seen order |
| MutationGate.ScanNode | src/content.js:664-677 | scanning one added node extends the scan by the node itself when it is an anchor, then by its descendant links |
| MutationGate.ProcessMutations | src/content.js:658-688 | the new links are the de-duplicated passing links of the `childList` records' added nodes, and a batch is dispatched exactly when there is at least one |
| MutationGate.ScanFindsPassingLinks | src/content.js:658-680 | each passing candidate is found once, and nothing else is found |
| MutationGate.Immediately | src/content.js:629-637 | the new frame replaces the one held, the timeout handle and its burst are untouched, and the counter is kept |
| MutationGate.Throttled | src/content.js:639-656 | the timeout is re-armed with this burst; the counter grows exactly when a handle was held |
| MutationGate.TimerFires | src/content.js:647-654 | the timeout's callback schedules a frame for its burst: the timeout is no longer pending, a frame is pending with exactly the burst the timeout held and its handle is held; the throttle handle and the throttled-update count are kept |
| MutationGate.FrameFires | src/content.js:634-636 | the frame's callback hands its own burst to the scan and is no longer pending; the frame and throttle handles, the pending timeout and the throttled-update count are kept |
| MutationGate.StopGate | src/content.js:695-704 | stopping cancels and clears both handles and keeps the counter |
| MutationGate.OnlyLastBurstScanned | src/content.js:639-656 | of bursts that arrive before the timeout runs, only the last reaches the scan |
| MutationGate.SpacedBurstsStillCount | src/content.js:642-643 | since the timeout handle is never cleared after firing, every burst after the first counts as throttled, even spaced ones |
| MutationGate.SpacedBurstsArmed | src/content.js:642-643 | once the handle is held, each burst adds one to the counter |
| MutationGate.ImmediateKeepsLatest | src/content.js:629-637 | in immediate mode a second burst replaces the first before its frame runs |
| VisitCache.Begin | src/content.js:518-530 | a cached URL is answered from the cache; a pending one joins its query; any other URL gets a pending entry and one new query; all with no other change, and validity is kept |
| VisitCache.Complete | src/content.js:532-534 | on success the pending entry is deleted, the summary cached (the cached URLs gain this one), the query leaves the in-flight multiset once, and validity is kept |
| VisitCache.Fail | src/content.js:535-538 | on failure the pending entry is deleted, nothing is cached, and the query leaves the in-flight multiset once |
| VisitCache.Clear | src/content.js:186-190 | the cache and the pending entries are emptied; queries already issued stay in flight |
| VisitCache.OneQueryPerUrl | src/content.js:518-539 | without a clear in between, at most one query per URL is in flight, and exactly when the URL is pending |
| VisitCache.StepsKeepNoStrays | src/content.js:518-539 | lookups, completions and failures never leave a query without its pending entry |
| VisitCache.SecondLookupJoins | src/content.js:523-525 | a second lookup right after the first issues no second query |
| VisitCache.CompletedIsCached | src/content.js:518-534 | after a completion, the next lookup is answered from the cache with that summary |
| VisitCache.ClearAllowsSecondQuery | src/content.js:523-528 | a clear while a query is in flight lets a second query for the URL be issued |
| VisitCache.OlderQueryDeletesNewerEntry | src/content.js:532-538 | when the older of two queries for a URL settles, it deletes the newer query's pending entry, so a third lookup issues a third query |
| Controller.LoadedConfigFields | src/content.js:70-89 | each number is the stored one when it is present and not 0, and the default otherwise, so no loaded number is 0; each flag is on unless stored as `false`; the protocol list is replaced only when one is stored |
| Controller.LoadedConfig | src/content.js:70-89 | the configuration `loadConfig` builds from storage; no contract of its own, `LoadedConfigFields` states each field |
| Controller.NothingStoredGivesDefaults | src/content.js:70-77 | loading from empty storage gives the constructor's configuration |
| Controller.LoadedConfigForgetsPrevious | src/content.js:70-84 | loading depends on the previous configuration only through the protocol list, and loading twice changes nothing more |
| Controller.Updated | src/content.js:204-223 | an update sets each key present in the settings to its value and leaves every absent key, the protocols, the page limit and class preservation as they were |
| Controller.UpdatesCompose | src/content.js:204-223 | two updates are one update with the later keys winning; an empty update changes nothing; repeating an update changes nothing more |
| Controller.RemoveEach | src/content.js:707-736 | every link of the page is cleaned up as `AfterRemoval` says |
| Controller.LinkHighlighter.constructor | src/content.js:3-37 | highlighting on, the default configuration, nothing observed, processed or cached |
| Controller.LinkHighlighter.LoadConfig | src/content.js:55-95 | when storage answered, the flag and the configuration are loaded and the instance copies of the three numbers follow them; when the read failed, nothing changes |
| Controller.LinkHighlighter.Init | src/content.js:41-53 | the configuration is loaded; if on, highlighting starts with the links selected afresh, and the batch size and delay are the page-size table's when some were selected in adaptive mode, else the loaded ones |
| Controller.LinkHighlighter.UpdatePerformanceSettings | src/content.js:204-223 | the configuration becomes `Updated`, and the instance copies follow the keys present |
| Controller.LinkHighlighter.HighlightExistingLinks | src/content.js:256-271 | the selected links are the valid, unprocessed links of the page, cut at the page limit; the page-size table is applied only when some were selected and adaptive mode is on |
| Controller.LinkHighlighter.StartObserving | src/content.js:610-627 | observing afterwards, with nothing else changed; starting twice is starting once |
| Controller.LinkHighlighter.StopObserving | src/content.js:690-705 | not observing, with both gate handles cleared |
| Controller.LinkHighlighter.RemoveHighlights | src/content.js:707-741 | every page link is cleaned up, the cache is cleared and nothing is processed; the configuration, the flag and the gate are unchanged |
| Controller.LinkHighlighter.StartHighlighting | src/content.js:245-249 | the processed set is emptied, all valid links are selected afresh, and observing is on; the batch size and delay become the page-size table's when some were selected in adaptive mode, and are kept otherwise |
| Controller.LinkHighlighter.StopHighlighting | src/content.js:251-254 | highlights removed, cache cleared, nothing processed, not observing; the configuration and the batch size, delays and flag are kept |
| Controller.LinkHighlighter.Destroy | src/content.js:749-756 | highlighting stopped as by `stopHighlighting`; the configuration, flag, batch size and delays are kept |
| Controller.LinkHighlighter.GetVisitDataForLink | src/content.js:518-530 | the cache state and the answer are those of `Begin` |
| Controller.LinkHighlighter.SettleQuery | src/content.js:531-538 | the cache state becomes that of `Complete` on success or `Fail` on failure |
| Controller.LinkHighlighter.ApplyRealHighlightClass | src/content.js:430-449 | highlighter classes removed; without a key the `never` category is applied; with a key the lookup is `Begin`, a cached answer applies its category and, when that did not throw, the title and label of `updateLinkTitle`; otherwise the link waits for the query with only the highlighter classes gone and its title and label unchanged |
| Controller.LinkHighlighter.ApplyCategoryFor | src/content.js:436-449 | the part after the class removal: `never` without a key, otherwise the lookup, as `HighlightedAs` describes |
| Controller.LinkHighlighter.ApplyLookup | src/content.js:443-449 | the lookup is `Begin`; a cached summary applies its category, title and label at once; a pending or new query leaves the link waiting for that URL |
| Controller.LinkHighlighter.ProcessSingleLink | src/content.js:410-416 | skipped (nothing changes) exactly when highlighting is off, the link is invalid, or it is already processed; otherwise the link is marked processed before anything is awaited, its attributes are preserved, and its classes, title and label end as `ApplyRealHighlightClass` says |
| Controller.LinkHighlighter.ResumeLink | src/content.js:441-448 | the awaited answer applies its category, or `never` on failure; the title and label are those of `updateLinkTitle` when a summary came and its category did not throw, and unchanged otherwise |
| Controller.LinkHighlighter.ProcessLinkBatch | src/content.js:395-408 | while highlighting is off nothing changes: no progress, the cache, the processed set and every link as they were; otherwise every valid, unprocessed link of the batch joins the processed set, an entry is skipped exactly when its link came earlier in the batch, the links outside the valid ones are untouched, and the cache goes through a chain of states from the old to the new one in which each skipped entry keeps the cache and each other entry preserves its link's attributes and highlights it from its state before the batch as `HighlightedAs` says (`BatchAs`) |
| Controller.LinkHighlighter.ProcessEach | src/content.js:401-407 | the filtered links are processed in order: each joins the processed set, an entry is skipped exactly when its link came earlier, and the cache chain and each link's end state are as `BatchAs` says against the states before the batch |
| Controller.LinkHighlighter.ProcessBatchItem | src/content.js:401-416 | `processSingleLink` on a link that passed the filter: skipped exactly when it was already processed, in which case the link and cache are unchanged; it joins the processed set; otherwise its original title and classes are recorded and it is highlighted as `HighlightedAs` says |
| Controller.LinkHighlighter.ProcessNext | src/content.js:401-407 | one step of the batch: `EachDone` after `i` links gives `EachDone` after `i + 1`: the processed set, the skip pattern, the cache chain and the per-entry highlight extend by one, and the links not yet processed stay as they were before the batch |
| Controller.EachDoneSnoc | src/content.js:401-407 | the same step on values: a skip exactly on a repeat, the old prefix of link states kept, and the new entry as `BatchEntryAs` says extend `EachDone` by one link |
| Controller.BatchAsSnoc | src/content.js:401-407 | appending an entry that ran as `BatchEntryAs` says to a run that satisfies `BatchAs` keeps `BatchAs`, provided the earlier links' states are unchanged |
| Controller.LinkHighlighter.OnMutations | src/content.js:613-619 | the burst goes to the throttled or the immediate path, as the configuration says |
| Controller.LinkHighlighter.OnTimer | src/content.js:647-654 | the gate steps as `TimerFires` |
| Controller.LinkHighlighter.OnFrame | src/content.js:634-688 | the frame's burst is scanned against the current processed set; the new links and the dispatch flag are those of `processMutations` |
| Controller.LinkHighlighter.Toggle | src/content.js:157-164 | the flag and observing are set to the request's value and the processed set is emptied; turning on keeps the cache, the gate and every link and selects the eligible links afresh, with the page-size table's settings when adaptive; turning off clears the cache, cancels the gate's handles and takes the highlight off every link (`AfterRemoval`); the throttle delay is kept |
| Controller.LinkHighlighter.UpdateConfig | src/content.js:165-174 | the configuration is reloaded; when on, highlighting is stopped and started again under it: cache cleared, gate stopped, the highlight taken off every link (`AfterRemoval`), a fresh selection, and the page-size table's batch size and delay in adaptive mode; when off, the loaded numbers are taken and the cache, gate, processed set and every link are unchanged |
| Controller.LinkHighlighter.Refresh | src/content.js:182-185 | a stop and a start, even while highlighting is off: the flag and configuration are kept, the cache is cleared, the gate stopped, the highlight taken off every link (`AfterRemoval`) and the eligible links selected afresh; the batch size and delay are the page-size table's when some were selected in adaptive mode |
| Controller.LinkHighlighter.RestartIfOn | src/content.js:167-171 | after the reload: when on, a stop and a start (cache cleared, gate stopped, every link through `AfterRemoval`, fresh selection); when off, the cache, gate, processed set, settings and every link unchanged |
| Controller.LinkHighlighter.HandleRestart | src/content.js:157-185 | `toggleHighlighting`, `updateConfig` and `refresh` with the effects `Toggle`, `UpdateConfig` and `Refresh` state: flag, configuration, observing, processed set, cache, gate, selection, every link's state, the batch size and delay (`ChainSettings`) and the throttle delay |
| Controller.LinkHighlighter.HandleOther | src/content.js:175-201 | `getConfig` answers the configuration, flag and statistics and changes nothing; `clearCache` clears the cache and the processed set and keeps the rest; `updatePerformance` applies the settings it carries; `mergeClasses` and unknown actions change nothing, and an unknown action gets no answer; every one of these keeps the flag, observing and the gate, and all but `updatePerformance` with settings keep the batch size, delay and throttle delay |
| Controller.LinkHighlighter.ClearCache | src/content.js:186-190 | the cache, the pending queries and the processed set are emptied; links keep their classes |
| Controller.LinkHighlighter.HandleMessage | src/content.js:155-202 | every known action is answered with success, `getConfig` with the configuration, flag and statistics, and an unknown action gets no answer; `getConfig`, `mergeClasses` and unknown actions change nothing; `updatePerformance` applies its settings and the instance copies only when present; `toggleHighlighting` sets the flag and observing to the request's value; `updateConfig` loads the stored configuration and, when on, restarts as `UpdateConfig` says; `toggleHighlighting` off, `refresh` and `updateConfig` when on clear the cache, stop the gate and take the highlight off every link, while `toggleHighlighting` on keeps every link; `refresh` and `clearCache` clear the cache and the processed set; every other action leaves every link unchanged; `getConfig`, `mergeClasses`, unknown actions, `clearCache` and a settings-less `updatePerformance` keep the batch size, delay and throttle delay, and `updatePerformance` keeps observing and the gate; the restart actions set the batch size, delay and throttle delay as `Toggle`, `UpdateConfig` and `Refresh` say |
| Controller.LinkHighlighter.GetStats | src/content.js:225-239 | the statistics `getStats` reports: cache, pending and processed sizes, the flag, the three instance numbers, the throttle flag and the counter; no contract of its own |
| Controller.Page.Cleanup | src/content.js:779-790 | the first call destroys the highlighter; later calls return at once, so it is destroyed exactly once |
| Popup.ReadPositiveInt | src/popup.js:10-20 | an empty trimmed field reads as the fallback; otherwise it is accepted exactly when `parseInt` finds a number of at least `min`, with that number as its value; a rejection carries `<label> must be at least <min>` |
| Popup.ReadingAtLeastMin | src/popup.js:10-20 | a value read is at least `min` unless it is the fallback of an empty field |
| Popup.ReadsPrintedNumber | src/popup.js:10-20 | a number typed with surrounding spaces reads as itself when at least `min`, and is rejected with the field's message otherwise |
| Popup.ReadsLeadingDigits | src/popup.js:14 | `120ms` reads as 120 |
| Popup.RejectsNonNumbers | src/popup.js:14-17 | text without a leading number is rejected with the field's message |
| Popup.RejectsZero | src/popup.js:14-17 | `0` in a field with minimum 1 is rejected |
| Popup.FirstErrorWins | src/popup.js:102-111 | the first invalid field, in the order processing delay, batch size, throttle delay, gives the error shown, whatever the later fields hold; settings are sent exactly when all three are valid |
| Popup.ApplySettings | src/popup.js:102-118 | the apply handler's validation; no contract of its own, `FirstErrorWins` and `SentSettings` state it |
| Popup.SentSettings | src/popup.js:113-118 | the settings sent are exactly the three validated numbers and the checkbox, with no `adaptivePerformance` key, and the typed numbers meet their minimums 1, 1 and 50 |
| Popup.EmptyFieldsSendDefaults | src/popup.js:104-118 | empty fields send 50, 5 and 500 |
| Popup.SentSettingsKeepConfigSane | src/popup.js:113-124 | once the content script applies what the popup sent, the delay and batch size are positive, the throttle delay is at least 50, the throttle flag is the checkbox, and adaptive mode is untouched |

## Left out

- URL parsing (`new URL`) is the browser's implementation of the WHATWG URL Standard. The parsed record is an input (`Option<ParsedUrl>`, `None` where parsing throws).
- Chrome APIs are parameters or events:
  - `chrome.storage.local` is the `Stored` answer given to `LoadConfig`, `Init` and `UpdateConfig`.
  - `chrome.history.getVisits` and its 3000 ms timeout are the answer given to `SettleQuery` and `ResumeLink` (`None` for an error or the timeout).
  - `chrome.runtime.onMessage` is the `Request` given to `HandleMessage`.
  - `FromVisitTimes` builds the summary from the visit times the history returns.
- Timers and animation frames are explicit events: `OnTimer`, `OnFrame`, and the `Tick`s of the batch chain. The 100 ms delay before a mutation batch is left out; `OnFrame` returns the links to hand to `ProcessLinkBatch`.
- DOM checks are inputs: `isConnected`, `offsetParent` and `getComputedStyle` are booleans in `LinkFacts`. The page's `a[href]` list is a parameter. It holds each element once, as `querySelectorAll` returns it (`requires Distinct(page)`). `MutationObserver` wiring is not modelled.
- Timing metrics are not modelled: `performance.now()`, `updatePerformanceMetrics` with its floating-point average, and the `totalLinksProcessed` and `domUpdates` counters. The measured batch time enters `CalculateNextDelay` as an input.
- The stylesheet is not modelled: `injectStyles`, `updateStyles`, `hexToRgba`, the colour settings, and the style element `destroy` removes.
- SPA support (`setupSPASupport`) is not modelled. `Page.Cleanup` models the `cleanedUp` flag and the single `destroy()`, not the listener teardown.
- `testClassMerging` only logs, so the `mergeClasses` action is modelled as answering success with no state change.
- The rest of `popup.js` (status line, tab query, message sending, statistics display) is UI and I/O. The handler's message to the content script is modelled by `Updated` applied to what `ApplySettings` sends.
- Scheduler.ProcessLinksAdaptively: batch sizes are `Positive`. A zero or negative `maxLinksPerBatch` from storage or the popup cannot reach the chain in this model.
- Controller.LinkHighlighter.StartHighlighting: returns the selected links rather than running the first batch of the chain itself; the chain is `Scheduler.ProcessLinksAdaptively`. The page-size table is applied once per selection, as in the source.
- Controller.LinkHighlighter.ApplyRealHighlightClass: a cache hit finishes in the same step, without the microtask turns the source's `await` on a cached value yields.
- Controller.LinkHighlighter.ProcessLinkBatch: runs each link up to its first wait, in order. The interleaving of the awaited queries and `Promise.allSettled` are not modelled; continuations are `SettleQuery` and `ResumeLink`, in any order the caller chooses.
- UrlGate.IsValidUrl: strings are sequences of code points, not UTF-16 units, so the 2000-character bound on `href` counts code points, where the source's `length` counts UTF-16 units.
- Text.ParseInt: `parseInt` results that overflow to `Infinity` (over about 309 digits) are not modelled, and neither is the precision loss above 2^53.
- Controller.LinkHighlighter.LoadConfig: stored values are taken to have the right types; a stored non-number or non-list is not modelled.
- Presentation.Link.UpdateLinkTitle: `textContent` is a fixed field of the link.
- Visits.RecencyTextMatchesCategory: the source reads `Date.now()` twice, once for the category (content.js:572) and once for the day count (content.js:589); the model reads one `now` for both. A day boundary between the two reads, where the source can show `today` with `Yesterday`, is not modelled.
