# sa-mobile-lib-android-network, modelled in Dafny

This project models the core of the SuperAwesome Android network library:

- the download items, both `SADownloadItem` and `SAFileItem`, and how they name their files on disk;
- the download queues, `SADownloadQueue` and `SAFileQueue`;
- the two file downloaders:
  - `SAFileDownloader` is single-flight: each URL has one queued item, and every listener waits on that item;
  - `SASequentialFileDownloader` downloads one file at a time through `SAAsyncTask`;
- the list downloader `SAFileListDownloader`, which counts the answers of one download per file and then calls its listener;
- the pure parts of `SANetwork`: the endpoint and GET query built from a JSON object, the validity of a result, and what a request's listener is told.

The modules are:

| module | file | models |
|---|---|---|
| `JavaLang` | java_lang.dfy | null references (`Option`), `Integer.toString`, `lastIndexOf`, `split`, `replace` on strings |
| `Naming` | naming.dfy | file extensions, disk names, persistence keys, and the file name of a URL path |
| `Items` | download_item.dfy | the item class `DownloadItem` and its field values `ItemVal` |
| `Queues` | download_queue.dfy | the queue class `DownloadQueue` and its scans, on values |
| `Downloads` | downloads.dfy | listener calls, the preferences store, and who is waiting, shared by both downloaders |
| `FileDownloads` | file_downloader.dfy | `SAFileDownloader` |
| `SequentialDownloads` | sequential_downloader.dfy | `SASequentialFileDownloader` and `SAAsyncTask`'s hand-over of results |
| `ListDownloads` | list_downloader.dfy | `SAFileListDownloader` and `SAFileListItem` |
| `Network` | network.dfy | `SANetwork` and `SANetworkResult` |

## Approach

- Both item classes and both queue classes are one class each. The Java classes share their fields and code; they differ only in how a new item names its file.
- Queues and items are heap objects, and each downloader is a class over them. Every downloader method is proved against a function on values:
  - `StateOf(ValsOf(queue.items))` reads the downloader's state as a value;
  - `Drain` (for `SAFileDownloader`) and `Check` / `Complete` (for `SASequentialFileDownloader`) say what that state becomes.
- The lemmas about these functions state what each downloader promises:
  - one queued item per URL;
  - at most `MAX_RETRIES` failed attempts per item;
  - nobody waits on an item that is already on disk;
  - no listener is lost or called twice: whoever stops waiting has been called back exactly once;
  - for `SAFileDownloader`, when no fetch answers a status other than 200, a drain answers every listener it was holding; as written, one such status stalls the downloader for good;
  - for `SASequentialFileDownloader`, once enough task results have come in, every listener has been answered, unless an exception left `checkOnQueue` on the way.
- The downloader classes model the code as written, including its faults (see "## Findings"). The corrected behaviour is stated beside each fault as a separate function with its own lemmas.
- Exceptions that leave a method are modelled:
  - a method returns `threw`, and the state it leaves is the state at the throw;
  - `SASequentialFileDownloader` counts the exceptions that leave `checkOnQueue` in `thrown`, because they can leave the downloader with a pending item and nothing in flight.
- Whether a `Context` was passed is the flag `hasContext`, or `ctx` further down. Without one, `SAAsyncTask`'s constructor calls `onError()` at once, so no download can start.
- Inputs that the code takes from outside are parameters:
  - the network's outcomes: `net` for `SAFileDownloader`, and the async task results handed to `Deliver` for the sequential downloader;
  - the random disk-name tokens, `random`;
  - the outcome of `new URL(...)`, `parse`;
  - the shared preferences, as a map `store`, and the files on disk, as a set `files`.
- Listeners are identities, and their calls are appended to a log.

## Model

| member | source | states |
|---|---|---|
| JavaLang.Decimal | sanetwork/src/main/java/tv/superawesome/lib/sanetwork/file/SADownloadItem.java:139-152 | the decimal text of the random token is non-empty and all digits |
| JavaLang.DecimalRoundTrip | sanetwork/src/main/java/tv/superawesome/lib/sanetwork/file/SADownloadItem.java:139-152 | reading back the decimal text of n gives n |
| JavaLang.DecimalInjective | sanetwork/src/main/java/tv/superawesome/lib/sanetwork/file/SADownloadItem.java:139-152 | two different tokens never print the same |
| JavaLang.LastIndexOf | sanetwork/src/main/java/tv/superawesome/lib/sanetwork/file/SADownloadItem.java:125-133 | `lastIndexOf`: -1, or a position holding the character with none of it after |
| JavaLang.Tokens | sanetwork/src/main/java/tv/superawesome/lib/sanetwork/file/SAFileItem.java:141-149 | the pieces between separators: at least one, and none contains the separator |
| JavaLang.DropTrailingEmpty | sanetwork/src/main/java/tv/superawesome/lib/sanetwork/file/SAFileItem.java:141-149 | Java's `split` drops exactly the trailing empty pieces and keeps the rest in order |
| JavaLang.TokensOfPlain | sanetwork/src/main/java/tv/superawesome/lib/sanetwork/file/SAFileItem.java:141-149 | text without the separator is one piece |
| JavaLang.TokensAround | sanetwork/src/main/java/tv/superawesome/lib/sanetwork/file/SAFileItem.java:141-149 | splitting `a + sep + b` splits a and b independently |
| JavaLang.TakeBefore | sanetwork/src/main/java/tv/superawesome/lib/sanetwork/file/SASequentialFileDownloader.java:150-151 | the corrected read-back: the text before the first literal separator, a prefix of the text |
| JavaLang.TakeBeforeStopsAtSeparator | sanetwork/src/main/java/tv/superawesome/lib/sanetwork/file/SASequentialFileDownloader.java:150-151 | for the corrected read-back: the first piece stops right before the separator when the prefix cannot start one |
| JavaLang.RemoveChar | sanetwork/src/main/java/tv/superawesome/lib/sanetwork/request/SANetwork.java:321 | `replace("\"", "")` leaves no quote and never lengthens the text |
| JavaLang.RemoveAbsentChar | sanetwork/src/main/java/tv/superawesome/lib/sanetwork/request/SANetwork.java:321 | removing an absent character changes nothing |
| Naming.FileExt | sanetwork/src/main/java/tv/superawesome/lib/sanetwork/file/SADownloadItem.java:125-133 | `getFileExt`: null exactly for a null or empty name; otherwise a dot-free suffix after the last dot, or the whole name when it has no dot |
| Naming.FileExtEmptyIffTrailingDot | sanetwork/src/main/java/tv/superawesome/lib/sanetwork/file/SADownloadItem.java:125-133 | the extension is empty exactly when the name ends with '.' |
| Naming.NewDiskNameShape | sanetwork/src/main/java/tv/superawesome/lib/sanetwork/file/SADownloadItem.java:139-152 | `getNewDiskName`: set exactly for a non-empty URL not ending in '.', and then "samov_" + token + "." + extension |
| Naming.KeyForDiskName | sanetwork/src/main/java/tv/superawesome/lib/sanetwork/file/SADownloadItem.java:158-165 | `getKeyForDiskName`: a key exactly for a non-empty disk name |
| Naming.KeyForDiskNameRoundTrip | sanetwork/src/main/java/tv/superawesome/lib/sanetwork/file/SAFileItem.java:79-85 | a key starts with the key prefix and gives back its disk name, so distinct files never share a key |
| Naming.FileNameOf | sanetwork/src/main/java/tv/superawesome/lib/sanetwork/file/SAFileItem.java:141-149 | `fileNameOf`: the file name holds no '/' |
| Naming.TokensAllEmptyIffAllSeparators | sanetwork/src/main/java/tv/superawesome/lib/sanetwork/file/SAFileItem.java:141-149 | every piece of a split is empty exactly when the text is only separators |
| Naming.FileNameMissingIffOnlySlashes | sanetwork/src/main/java/tv/superawesome/lib/sanetwork/file/SAFileItem.java:141-149 | there is no file name exactly when the path is null or only '/' |
| Naming.FileNameOfLastSegment | sanetwork/src/main/java/tv/superawesome/lib/sanetwork/file/SAFileItem.java:141-149 | the file name of ".../dir/name" is "name" |
| Naming.FileNameIgnoresTrailingSlash | sanetwork/src/main/java/tv/superawesome/lib/sanetwork/file/SAFileItem.java:141-149 | a trailing '/' does not change the file name |
| Naming.DiskLocation | sanetwork/src/main/java/tv/superawesome/lib/sanetwork/file/SASequentialFileDownloader.java:71-73 | `getDiskLocation`: starts with "samov_" and is longer than it |
| Naming.SequentialKeyIsToken | sanetwork/src/main/java/tv/superawesome/lib/sanetwork/file/SASequentialFileDownloader.java:146-152 | as written, for an extension that is non-empty, has no '_' and starts with neither a digit nor '.', the key read back from a fresh disk location is the token's decimal text, whose value is the token |
| Naming.NoDotInDecimal | sanetwork/src/main/java/tv/superawesome/lib/sanetwork/file/SASequentialFileDownloader.java:148-151 | the token's text holds neither '.' nor '_', so the two splits cut where intended |
| Naming.SplitOfTokenPiece | sanetwork/src/main/java/tv/superawesome/lib/sanetwork/file/SASequentialFileDownloader.java:150-151 | the regular-expression split of digits + "." + an extension that is non-empty and starts with neither a digit nor '.' leaves exactly the digits |
| Naming.NoEarlyMatch | sanetwork/src/main/java/tv/superawesome/lib/sanetwork/file/SASequentialFileDownloader.java:150-151 | with such an extension the pattern matches nowhere inside the digits, so the split cannot cut them |
| Naming.DiskLocationPieces | sanetwork/src/main/java/tv/superawesome/lib/sanetwork/file/SASequentialFileDownloader.java:148-149 | split on '_', a disk location is "samov" and token + "." + extension |
| Naming.DiskLocationHasTokenPiece | sanetwork/src/main/java/tv/superawesome/lib/sanetwork/file/SASequentialFileDownloader.java:148-149 | whatever the extension, a fresh disk location split on '_' has "samov" and a second piece, so `c1[1]` never throws |
| JavaLang.FindDotMatch | sanetwork/src/main/java/tv/superawesome/lib/sanetwork/file/SASequentialFileDownloader.java:150 | the leftmost position from k where "." + extension matches: any character but a line terminator, then the extension |
| JavaLang.DotPieces | sanetwork/src/main/java/tv/superawesome/lib/sanetwork/file/SASequentialFileDownloader.java:150 | the pieces between successive matches: at least one |
| JavaLang.DotSplit | sanetwork/src/main/java/tv/superawesome/lib/sanetwork/file/SASequentialFileDownloader.java:150 | `split("." + ext)`: the text itself when nothing matches, otherwise the pieces without the trailing empty ones |
| Naming.EmptyExtensionThrows | sanetwork/src/main/java/tv/superawesome/lib/sanetwork/file/SASequentialFileDownloader.java:150-151 | as written, the empty extension makes every character a match, so reading the key throws |
| Naming.DigitExtensionMisreadsKey | sanetwork/src/main/java/tv/superawesome/lib/sanetwork/file/SASequentialFileDownloader.java:150-151 | as written, the extension "3" after the token 1234 gives the key "1" |
| Naming.LiteralKeyIsToken | sanetwork/src/main/java/tv/superawesome/lib/sanetwork/file/SASequentialFileDownloader.java:146-152 | the corrected read-back, cut at the literal "." + extension, gives the token for every extension without '_' |
| Items.NamedItem | sanetwork/src/main/java/tv/superawesome/lib/sanetwork/file/SADownloadItem.java:47-73 | `SADownloadItem(url)`: URL key set, nothing on disk, no retries; valid exactly for a non-empty URL not ending in '.', and then disk name and key built from the token |
| Items.FileItem | sanetwork/src/main/java/tv/superawesome/lib/sanetwork/file/SAFileItem.java:50-71 | `SAFileItem(url)`: a malformed URL names nothing; otherwise the disk name is the path's file name, the key is set exactly for a non-empty disk name, and the item is valid exactly then; a null or empty URL is never valid |
| Items.DownloadItem.Empty | sanetwork/src/main/java/tv/superawesome/lib/sanetwork/file/SADownloadItem.java:37-39 | the empty item has every field null, is not valid and has retries left |
| Items.DownloadItem.FromUrl | sanetwork/src/main/java/tv/superawesome/lib/sanetwork/file/SADownloadItem.java:47-57 | the new item's fields are `NamedItem` with nobody waiting |
| Items.DownloadItem.WithListener | sanetwork/src/main/java/tv/superawesome/lib/sanetwork/file/SADownloadItem.java:67-73 | as `FromUrl`, with a non-null listener waiting |
| Items.DownloadItem.FromFileUrl | sanetwork/src/main/java/tv/superawesome/lib/sanetwork/file/SAFileItem.java:50-61 | the new item's fields are `FileItem` |
| Items.DownloadItem.IncrementNrRetries | sanetwork/src/main/java/tv/superawesome/lib/sanetwork/file/SADownloadItem.java:79-81 | one more failed attempt, nothing else changes |
| Items.DownloadItem.AddResponse | sanetwork/src/main/java/tv/superawesome/lib/sanetwork/file/SADownloadItem.java:104-108 | a non-null listener joins the end of the waiting list; null is ignored |
| Items.DownloadItem.ClearResponses | sanetwork/src/main/java/tv/superawesome/lib/sanetwork/file/SADownloadItem.java:95-97 | nobody waits any more |
| Items.DownloadItem.SetOnDisk | sanetwork/src/main/java/tv/superawesome/lib/sanetwork/file/SADownloadItem.java:171-173 | sets one field only |
| Items.DownloadItem.SetUrlKey | sanetwork/src/main/java/tv/superawesome/lib/sanetwork/file/SADownloadItem.java:180-182 | sets one field only |
| Items.DownloadItem.SetKey | sanetwork/src/main/java/tv/superawesome/lib/sanetwork/file/SADownloadItem.java:189-191 | sets one field only |
| Items.DownloadItem.SetDiskName | sanetwork/src/main/java/tv/superawesome/lib/sanetwork/file/SADownloadItem.java:198-200 | sets one field only |
| Items.DownloadItem.SetDiskUrl | sanetwork/src/main/java/tv/superawesome/lib/sanetwork/file/SADownloadItem.java:207-209 | sets one field only |
| Queues.ScanFor | sanetwork/src/main/java/tv/superawesome/lib/sanetwork/file/SADownloadQueue.java:59-85 | the lookup's loop: a hit is the first item with the URL key, a miss passed every item, and a null key met first throws |
| Queues.ScanOfKeyedQueue | sanetwork/src/main/java/tv/superawesome/lib/sanetwork/file/SADownloadQueue.java:59-68 | on a queue whose items all have keys the lookup never throws, and finds the URL exactly when some item has it |
| Queues.ScanResumes | sanetwork/src/main/java/tv/superawesome/lib/sanetwork/file/SADownloadQueue.java:76-85 | the scan continues past the items it has passed over |
| Queues.FirstPending | sanetwork/src/main/java/tv/superawesome/lib/sanetwork/file/SADownloadQueue.java:92-102 | `getNext` on values: the first item not on disk, every earlier one on disk; none only when all are on disk |
| Queues.FirstPendingAt | sanetwork/src/main/java/tv/superawesome/lib/sanetwork/file/SADownloadQueue.java:92-102 | with the first i items on disk and item i not, the next item is i |
| Queues.IndexOf | sanetwork/src/main/java/tv/superawesome/lib/sanetwork/file/SADownloadQueue.java:35-39 | the first occurrence of the item |
| Queues.RemoveFirst | sanetwork/src/main/java/tv/superawesome/lib/sanetwork/file/SADownloadQueue.java:35-39 | `List.remove`: the first occurrence taken out, or no change when absent |
| Queues.RemoveFirstLosesOneCopy | sanetwork/src/main/java/tv/superawesome/lib/sanetwork/file/SADownloadQueue.java:35-39 | removing loses exactly one copy of the item and keeps every other item |
| Queues.MoveToBackRotates | sanetwork/src/main/java/tv/superawesome/lib/sanetwork/file/SADownloadQueue.java:47-50 | moving to the back is a permutation with the item last and the others in their order |
| Queues.DownloadQueue.constructor | sanetwork/src/main/java/tv/superawesome/lib/sanetwork/file/SADownloadQueue.java:17 | a new queue is empty |
| Queues.DownloadQueue.AddToQueue | sanetwork/src/main/java/tv/superawesome/lib/sanetwork/file/SADownloadQueue.java:24-28 | a non-null item is appended; null is ignored |
| Queues.DownloadQueue.RemoveFromQueue | sanetwork/src/main/java/tv/superawesome/lib/sanetwork/file/SADownloadQueue.java:35-39 | the first occurrence of a non-null item is removed; null is ignored |
| Queues.DownloadQueue.MoveToBackOfQueue | sanetwork/src/main/java/tv/superawesome/lib/sanetwork/file/SADownloadQueue.java:47-50 | remove, then add |
| Queues.DownloadQueue.HasItemForUrl | sanetwork/src/main/java/tv/superawesome/lib/sanetwork/file/SADownloadQueue.java:59-68 | found exactly when the scan hits; throws exactly when the scan meets a null key first |
| Queues.DownloadQueue.ItemForUrl | sanetwork/src/main/java/tv/superawesome/lib/sanetwork/file/SADownloadQueue.java:76-85 | the first item with the URL key, null when none, or a throw on a null key met first |
| Queues.DownloadQueue.ScanItems | sanetwork/src/main/java/tv/superawesome/lib/sanetwork/file/SADownloadQueue.java:59-85 | the shared loop computes `ScanFor` |
| Queues.DownloadQueue.GetNext | sanetwork/src/main/java/tv/superawesome/lib/sanetwork/file/SADownloadQueue.java:92-102 | the item at the first position not on disk, or null when all are on disk |
| Queues.DownloadQueue.GetLength | sanetwork/src/main/java/tv/superawesome/lib/sanetwork/file/SADownloadQueue.java:109-111 | the number of queued items |
| Downloads.Notify | sanetwork/src/main/java/tv/superawesome/lib/sanetwork/file/SAFileDownloader.java:262-264 | calling every waiter in order with the same result |
| Downloads.NotifyCallsEachWaiterOnce | sanetwork/src/main/java/tv/superawesome/lib/sanetwork/file/SAFileDownloader.java:300-302 | notifying calls each waiter exactly once, with the result given |
| Downloads.LogAfterNotify | sanetwork/src/main/java/tv/superawesome/lib/sanetwork/file/SASequentialFileDownloader.java:264-266 | the log grows by one event per waiter, and the callees grow by exactly the waiters |
| Downloads.WithoutText | sanetwork/src/main/java/tv/superawesome/lib/sanetwork/file/SAFileDownloader.java:324-356 | the store after cleanup keeps exactly its non-string entries |
| Downloads.FileNames | sanetwork/src/main/java/tv/superawesome/lib/sanetwork/file/SAFileDownloader.java:324-356 | the files the cleanup deletes are exactly those named by string entries |
| Downloads.WaitingRemove | sanetwork/src/main/java/tv/superawesome/lib/sanetwork/file/SADownloadQueue.java:35-39 | removing an item stops exactly its waiters from waiting |
| Downloads.WaitingMove | sanetwork/src/main/java/tv/superawesome/lib/sanetwork/file/SADownloadQueue.java:47-50 | moving an item to the back changes who waits only by its own waiters |
| Downloads.RemoveMovesWaiters | sanetwork/src/main/java/tv/superawesome/lib/sanetwork/file/SAFileDownloader.java:295-312 | giving up an item moves its waiters from waiting to called back, once each |
| Downloads.ReplaceMovesWaiters | sanetwork/src/main/java/tv/superawesome/lib/sanetwork/file/SAFileDownloader.java:234-277 | finishing an item moves its waiters from waiting to called back, once each |
| Downloads.AttemptsBounded | sanetwork/src/main/java/tv/superawesome/lib/sanetwork/file/SADownloadItem.java:88-90 | a queue of n items can cost at most 3n more fetches |
| Downloads.RetryBudget | sanetwork/src/main/java/tv/superawesome/lib/sanetwork/file/SADownloadItem.java:79-90 | after k more failures an item not on disk has retries left exactly when k is below its attempts left, and the attempts left drop by k, never below 0 |
| Downloads.FreshRetryBudget | sanetwork/src/main/java/tv/superawesome/lib/sanetwork/file/SADownloadItem.java:79-90 | a new item has retries left after 2 failures and none after 3 |
| Downloads.NobodyWaitsOnFinishedQueue | sanetwork/src/main/java/tv/superawesome/lib/sanetwork/file/SAFileDownloader.java:268-271 | when every item is on disk and finished items have no waiters, nobody waits |
| Downloads.ValsOfRemove | sanetwork/src/main/java/tv/superawesome/lib/sanetwork/file/SADownloadQueue.java:35-39 | removing the object at position i removes the value at position i |
| Downloads.ValsOfMoveToBack | sanetwork/src/main/java/tv/superawesome/lib/sanetwork/file/SADownloadQueue.java:47-50 | moving the object at position i to the back moves its value there |
| Downloads.DistinctItems | sanetwork/src/main/java/tv/superawesome/lib/sanetwork/file/SADownloadQueue.java:35-39 | items with different URL keys are different objects, so removal by reference removes the intended one |
| FileDownloads.Next | sanetwork/src/main/java/tv/superawesome/lib/sanetwork/file/SAFileDownloader.java:158-162 | the item `checkOnQueue` acts on is queued and not on disk |
| FileDownloads.StepGivesUp | sanetwork/src/main/java/tv/superawesome/lib/sanetwork/file/SAFileDownloader.java:295-312 | an item without retries left is given up |
| FileDownloads.StepSaves | sanetwork/src/main/java/tv/superawesome/lib/sanetwork/file/SAFileDownloader.java:234-277 | a fetch that writes the file finishes a valid item |
| FileDownloads.StepFails | sanetwork/src/main/java/tv/superawesome/lib/sanetwork/file/SAFileDownloader.java:279-286 | a fetch that throws counts a failure and moves the item to the back |
| FileDownloads.StepStalls | sanetwork/src/main/java/tv/superawesome/lib/sanetwork/file/SAFileDownloader.java:200-203 | as written, a status other than 200 leaves the downloader busy and changes nothing else |
| FileDownloads.AppendKeepsInvariant | sanetwork/src/main/java/tv/superawesome/lib/sanetwork/file/SAFileDownloader.java:127-137 | queueing a valid item for an unqueued URL keeps the queue invariant |
| FileDownloads.ScanOfValidQueue | sanetwork/src/main/java/tv/superawesome/lib/sanetwork/file/SAFileDownloader.java:102-105 | with only valid items queued, the URL lookup never throws |
| FileDownloads.DrainIdle | sanetwork/src/main/java/tv/superawesome/lib/sanetwork/file/SAFileDownloader.java:155-158 | `checkOnQueue` does nothing when busy or when every item is on disk |
| FileDownloads.DrainStep | sanetwork/src/main/java/tv/superawesome/lib/sanetwork/file/SAFileDownloader.java:155-315 | draining after one step ends where draining before it does |
| FileDownloads.StepMakesProgress | sanetwork/src/main/java/tv/superawesome/lib/sanetwork/file/SAFileDownloader.java:155-315 | each step that frees the downloader uses up an attempt or finishes an item, so the drain terminates |
| FileDownloads.Drain | sanetwork/src/main/java/tv/superawesome/lib/sanetwork/file/SAFileDownloader.java:155-315 | `checkOnQueue` with a synchronous executor ends idle with only valid items queued |
| FileDownloads.Cleaned | sanetwork/src/main/java/tv/superawesome/lib/sanetwork/file/SAFileDownloader.java:324-356 | cleanup removes every string entry and its file, keeps other entries, and touches nothing else |
| FileDownloads.StepPreservesInvariant | sanetwork/src/main/java/tv/superawesome/lib/sanetwork/file/SAFileDownloader.java:155-315 | one step keeps valid items, one item per URL, bounded retries and no waiter on a finished item |
| FileDownloads.DrainPreservesInvariant | sanetwork/src/main/java/tv/superawesome/lib/sanetwork/file/SAFileDownloader.java:155-315 | a drain keeps the queue invariant |
| FileDownloads.GiveUpConservesListeners | sanetwork/src/main/java/tv/superawesome/lib/sanetwork/file/SAFileDownloader.java:295-312 | giving up loses and duplicates no listener |
| FileDownloads.FinishConservesListeners | sanetwork/src/main/java/tv/superawesome/lib/sanetwork/file/SAFileDownloader.java:234-277 | finishing loses and duplicates no listener |
| FileDownloads.RetryConservesListeners | sanetwork/src/main/java/tv/superawesome/lib/sanetwork/file/SAFileDownloader.java:279-286 | retrying loses and duplicates no listener |
| FileDownloads.StepConservesListeners | sanetwork/src/main/java/tv/superawesome/lib/sanetwork/file/SAFileDownloader.java:155-315 | waiting plus called back is unchanged by a step |
| FileDownloads.DrainConservesListeners | sanetwork/src/main/java/tv/superawesome/lib/sanetwork/file/SAFileDownloader.java:155-315 | waiting plus called back is unchanged by a drain |
| FileDownloads.DrainBoundsFetches | sanetwork/src/main/java/tv/superawesome/lib/sanetwork/file/SAFileDownloader.java:158-176 | a drain fetches at most 3 times per queued item |
| FileDownloads.RequestPreservesInvariant | sanetwork/src/main/java/tv/superawesome/lib/sanetwork/file/SAFileDownloader.java:102-145 | a request keeps one item per URL and the other invariants |
| FileDownloads.AnswerAddsOneCall | sanetwork/src/main/java/tv/superawesome/lib/sanetwork/file/SAFileDownloader.java:114 | answering directly calls the listener once |
| FileDownloads.JoinAddsOneWaiter | sanetwork/src/main/java/tv/superawesome/lib/sanetwork/file/SAFileDownloader.java:120-122 | joining an item makes the listener wait once more |
| FileDownloads.AppendAddsOneWaiter | sanetwork/src/main/java/tv/superawesome/lib/sanetwork/file/SAFileDownloader.java:130-137 | a new item brings its one listener |
| FileDownloads.RequestConservesListeners | sanetwork/src/main/java/tv/superawesome/lib/sanetwork/file/SAFileDownloader.java:102-145 | a request adds exactly its listener, waiting or called back once, and loses or duplicates nobody |
| FileDownloads.QueuedRequestConservesListeners | sanetwork/src/main/java/tv/superawesome/lib/sanetwork/file/SAFileDownloader.java:102-125 | for a queued URL, the listener is called back from disk or joins the waiters |
| FileDownloads.NewRequestConservesListeners | sanetwork/src/main/java/tv/superawesome/lib/sanetwork/file/SAFileDownloader.java:126-145 | for a new URL, the listener waits on the new item and the drain loses nobody, or an invalid item answers it (false, null) |
| FileDownloads.RequestForQueuedUrl | sanetwork/src/main/java/tv/superawesome/lib/sanetwork/file/SAFileDownloader.java:102-125 | a queued URL is answered from disk or the listener joins its waiters; the queue is not checked |
| FileDownloads.RequestForNewUrl | sanetwork/src/main/java/tv/superawesome/lib/sanetwork/file/SAFileDownloader.java:127-145 | a new URL with a valid item is queued and drained; an invalid one gets (false, null) |
| FileDownloads.BusyDrainIsNoOp | sanetwork/src/main/java/tv/superawesome/lib/sanetwork/file/SAFileDownloader.java:158 | a busy downloader's drain does nothing |
| FileDownloads.Non200Stalls | sanetwork/src/main/java/tv/superawesome/lib/sanetwork/file/SAFileDownloader.java:200-203 | as written, a status other than 200 leaves the downloader busy for good, with nobody answered |
| FileDownloads.StalledDownloaderNeverAnswers | sanetwork/src/main/java/tv/superawesome/lib/sanetwork/file/SAFileDownloader.java:200-203 | as written, once stalled, a request for a new URL is queued and never answered: nothing is called back, the downloader stays busy, and the listener waits |
| FileDownloads.StalledDownloaderStrandsJoiners | sanetwork/src/main/java/tv/superawesome/lib/sanetwork/file/SAFileDownloader.java:102-125 | as written, once stalled, a request for a queued URL not on disk joins its waiters and is never answered: nothing is called back and a later drain does nothing |
| FileDownloads.Retrying | sanetwork/src/main/java/tv/superawesome/lib/sanetwork/file/SAFileDownloader.java:200-203 | the intended outcome: a status other than 200 fails like any other failure |
| FileDownloads.StepNeverStalls | sanetwork/src/main/java/tv/superawesome/lib/sanetwork/file/SAFileDownloader.java:155-315 | without a stall, no step leaves the downloader busy |
| FileDownloads.NeverStalledDrainFinishes | sanetwork/src/main/java/tv/superawesome/lib/sanetwork/file/SAFileDownloader.java:155-315 | without a stall, a drain ends free with every queued item on disk |
| FileDownloads.RetryingDrainAnswersEveryone | sanetwork/src/main/java/tv/superawesome/lib/sanetwork/file/SAFileDownloader.java:155-315 | the corrected failure handling (`Retrying`): a drain leaves nobody waiting, and everyone it held was called back exactly once |
| FileDownloads.FileDownloader.constructor | sanetwork/src/main/java/tv/superawesome/lib/sanetwork/file/SAFileDownloader.java:36-52 | an empty queue, not busy, no cleanup done yet |
| FileDownloads.FileDownloader.DownloadFileFrom | sanetwork/src/main/java/tv/superawesome/lib/sanetwork/file/SAFileDownloader.java:84-146 | a null context gets (false, null) and changes nothing; otherwise the one-time cleanup (unless debugging) and then `Request` |
| FileDownloads.FileDownloader.CleanupOnce | sanetwork/src/main/java/tv/superawesome/lib/sanetwork/file/SAFileDownloader.java:96-99 | the cleanup, as a change of state: `Cleaned` |
| FileDownloads.FileDownloader.Handle | sanetwork/src/main/java/tv/superawesome/lib/sanetwork/file/SAFileDownloader.java:102-145 | the new state is `Request` of the old one, and the invariant holds |
| FileDownloads.FileDownloader.Join | sanetwork/src/main/java/tv/superawesome/lib/sanetwork/file/SAFileDownloader.java:102-125 | the queued-URL branch, proved to be `Request` |
| FileDownloads.FileDownloader.AddWaiter | sanetwork/src/main/java/tv/superawesome/lib/sanetwork/file/SAFileDownloader.java:120-122 | the item's value gains the listener; every other item is unchanged |
| FileDownloads.FileDownloader.Enqueue | sanetwork/src/main/java/tv/superawesome/lib/sanetwork/file/SAFileDownloader.java:127-145 | the new-URL branch, proved to be `Request` |
| FileDownloads.FileDownloader.Launch | sanetwork/src/main/java/tv/superawesome/lib/sanetwork/file/SAFileDownloader.java:133-137 | queueing a valid item and draining |
| FileDownloads.FileDownloader.Admit | sanetwork/src/main/java/tv/superawesome/lib/sanetwork/file/SAFileDownloader.java:133-136 | the item is appended and the invariant holds |
| FileDownloads.FileDownloader.CheckOnQueue | sanetwork/src/main/java/tv/superawesome/lib/sanetwork/file/SAFileDownloader.java:155-315 | the new state is `Drain` of the old one with the network as it answers, a status other than 200 stalling, and the invariant holds |
| FileDownloads.FileDownloader.Attempt | sanetwork/src/main/java/tv/superawesome/lib/sanetwork/file/SAFileDownloader.java:158-312 | one activation is one `Step` |
| FileDownloads.FileDownloader.Fetch | sanetwork/src/main/java/tv/superawesome/lib/sanetwork/file/SAFileDownloader.java:167-286 | a fetch and its outcome are one `Step` |
| FileDownloads.FileDownloader.Save | sanetwork/src/main/java/tv/superawesome/lib/sanetwork/file/SAFileDownloader.java:234-277 | the success branch is `Finish` |
| FileDownloads.FileDownloader.Fail | sanetwork/src/main/java/tv/superawesome/lib/sanetwork/file/SAFileDownloader.java:279-286 | free, one more failure, not on disk, moved to the back |
| FileDownloads.FileDownloader.Requeue | sanetwork/src/main/java/tv/superawesome/lib/sanetwork/file/SAFileDownloader.java:284 | `moveToBackOfQueue`, as a move of the item's value |
| FileDownloads.FileDownloader.Discard | sanetwork/src/main/java/tv/superawesome/lib/sanetwork/file/SAFileDownloader.java:295-312 | the give-up branch is `GiveUp` |
| FileDownloads.FileDownloader.Drop | sanetwork/src/main/java/tv/superawesome/lib/sanetwork/file/SAFileDownloader.java:308 | `removeFromQueue`, as a removal of the item's value |
| FileDownloads.FileDownloader.NotifyAll | sanetwork/src/main/java/tv/superawesome/lib/sanetwork/file/SAFileDownloader.java:300-302 | the for-loop over the waiters appends `Notify` to the log |
| FileDownloads.FileDownloader.Cleanup | sanetwork/src/main/java/tv/superawesome/lib/sanetwork/file/SAFileDownloader.java:324-356 | every string entry is removed from the store and its file deleted |
| SequentialDownloads.Pick | sanetwork/src/main/java/tv/superawesome/lib/sanetwork/file/SASequentialFileDownloader.java:146-152 | the pick keeps the queue's length, what is in flight and the exception count |
| SequentialDownloads.Check | sanetwork/src/main/java/tv/superawesome/lib/sanetwork/file/SASequentialFileDownloader.java:134-323 | `checkOnQueue` ends with a download in flight or nothing left to fetch, unless reading a key throws, which adds exactly one exception; without a context it never leaves a download in flight |
| SequentialDownloads.PickKeepsStatus | sanetwork/src/main/java/tv/superawesome/lib/sanetwork/file/SASequentialFileDownloader.java:146-152 | the pick changes only the item's disk location and key, never renames a located item, and keeps the key when the read throws |
| SequentialDownloads.PickedKeyIsToken | sanetwork/src/main/java/tv/superawesome/lib/sanetwork/file/SASequentialFileDownloader.java:146-152 | a newly located item draws one token; with a plain extension its key is the token's decimal text; with the empty extension the read throws and the key is kept |
| SequentialDownloads.PickThenCheck | sanetwork/src/main/java/tv/superawesome/lib/sanetwork/file/SASequentialFileDownloader.java:140-160 | after a pick that does not throw, nothing is in flight, the same item is next, now located and with the same attempts left, and checking again ends the same way |
| SequentialDownloads.PickPreservesInvariant | sanetwork/src/main/java/tv/superawesome/lib/sanetwork/file/SASequentialFileDownloader.java:146-152 | the pick keeps the invariant and leaves the item with a disk location |
| SequentialDownloads.PickKeepsWaitersAndAttempts | sanetwork/src/main/java/tv/superawesome/lib/sanetwork/file/SASequentialFileDownloader.java:146-152 | the pick changes no waiter, call or attempt |
| SequentialDownloads.GiveUpPreservesInvariant | sanetwork/src/main/java/tv/superawesome/lib/sanetwork/file/SASequentialFileDownloader.java:305-320 | giving up keeps the invariant |
| SequentialDownloads.CheckPreservesInvariant | sanetwork/src/main/java/tv/superawesome/lib/sanetwork/file/SASequentialFileDownloader.java:134-323 | `checkOnQueue` keeps one item per URL, bounded retries, no waiter on a finished item, and a well-formed download in flight |
| SequentialDownloads.CheckConservesListeners | sanetwork/src/main/java/tv/superawesome/lib/sanetwork/file/SASequentialFileDownloader.java:134-323 | whoever stops waiting has been called back exactly once |
| SequentialDownloads.CheckKeepsAttempts | sanetwork/src/main/java/tv/superawesome/lib/sanetwork/file/SASequentialFileDownloader.java:134-323 | `checkOnQueue` never adds attempts, and with a context uses up none |
| SequentialDownloads.PickKeepsPlainExts | sanetwork/src/main/java/tv/superawesome/lib/sanetwork/file/SASequentialFileDownloader.java:146-152 | the pick keeps every extension plain, and a plain extension never makes the read throw |
| SequentialDownloads.CheckOnlyReportsFailures | sanetwork/src/main/java/tv/superawesome/lib/sanetwork/file/SASequentialFileDownloader.java:305-320 | `checkOnQueue` only calls waiters with (false, null) |
| SequentialDownloads.CheckWithPlainExts | sanetwork/src/main/java/tv/superawesome/lib/sanetwork/file/SASequentialFileDownloader.java:134-160 | with plain extensions `checkOnQueue` throws nothing and keeps them plain |
| SequentialDownloads.GiveUpKeepsPlainExts | sanetwork/src/main/java/tv/superawesome/lib/sanetwork/file/SASequentialFileDownloader.java:305-320 | giving an item up keeps every extension plain |
| SequentialDownloads.RequeuedKeepsPlainExts | sanetwork/src/main/java/tv/superawesome/lib/sanetwork/file/SASequentialFileDownloader.java:278-300 | counting a failure and moving the item to the back keeps every extension plain |
| SequentialDownloads.NoContextGivesUpEveryone | sanetwork/src/main/java/tv/superawesome/lib/sanetwork/asynctask/SAAsyncTask.java:122-127 | without a context, unless a key read throws, every pending item is given up: nothing in flight, nobody waiting, each waiter called once, and only with (false, null) |
| SequentialDownloads.InFlightHasAttempt | sanetwork/src/main/java/tv/superawesome/lib/sanetwork/file/SASequentialFileDownloader.java:155 | an item in flight has an attempt left |
| SequentialDownloads.DownloadedPreservesInvariant | sanetwork/src/main/java/tv/superawesome/lib/sanetwork/file/SASequentialFileDownloader.java:247-276 | recording a download keeps the invariant |
| SequentialDownloads.RequeuedPreservesInvariant | sanetwork/src/main/java/tv/superawesome/lib/sanetwork/file/SASequentialFileDownloader.java:278-300 | counting a failure keeps the invariant |
| SequentialDownloads.DownloadedAnswersWaiters | sanetwork/src/main/java/tv/superawesome/lib/sanetwork/file/SASequentialFileDownloader.java:251-276 | recording a download calls back exactly the item's waiters, who stop waiting, and uses up one attempt |
| SequentialDownloads.RequeuedKeepsWaiters | sanetwork/src/main/java/tv/superawesome/lib/sanetwork/file/SASequentialFileDownloader.java:278-300 | counting a failure keeps every waiter waiting, calls nobody, and uses up one attempt |
| SequentialDownloads.CompleteProperties | sanetwork/src/main/java/tv/superawesome/lib/sanetwork/file/SASequentialFileDownloader.java:247-300 | a result keeps the invariant, loses no listener, uses up one attempt, never lowers the exception count, and leaves the downloader ready unless reading a key threw |
| SequentialDownloads.HandledProperties | sanetwork/src/main/java/tv/superawesome/lib/sanetwork/file/SASequentialFileDownloader.java:247-300 | handling a result before `checkOnQueue` keeps the invariant, frees the downloader, calls back exactly those who stop waiting, and uses up one attempt |
| SequentialDownloads.CompleteWithPlainExts | sanetwork/src/main/java/tv/superawesome/lib/sanetwork/file/SASequentialFileDownloader.java:134-300 | with plain extensions, handling a result throws nothing and keeps them plain |
| SequentialDownloads.NullResultRetries | sanetwork/src/main/java/tv/superawesome/lib/sanetwork/asynctask/SAAsyncTask.java:98-109 | a null result (the async task threw) is handled exactly like a failed download |
| SequentialDownloads.Run | sanetwork/src/main/java/tv/superawesome/lib/sanetwork/file/SASequentialFileDownloader.java:247-300 | any sequence of results keeps the invariant and never lowers the exception count |
| SequentialDownloads.RunAnswersEveryone | sanetwork/src/main/java/tv/superawesome/lib/sanetwork/file/SASequentialFileDownloader.java:134-323 | unless reading a key threw, enough results leave nothing in flight and nobody waiting, and everyone held was called back exactly once |
| SequentialDownloads.RunWithPlainExtsNeverThrows | sanetwork/src/main/java/tv/superawesome/lib/sanetwork/file/SASequentialFileDownloader.java:134-300 | with plain extensions no sequence of results makes `checkOnQueue` throw, so `RunAnswersEveryone` holds outright |
| SequentialDownloads.AttemptsBoundResults | sanetwork/src/main/java/tv/superawesome/lib/sanetwork/file/SASequentialFileDownloader.java:155 | no item is downloaded more than 3 times |
| SequentialDownloads.NotifyPresent | sanetwork/src/main/java/tv/superawesome/lib/sanetwork/file/SASequentialFileDownloader.java:89-111 | a null listener is called by nobody, a listener once |
| SequentialDownloads.AppendFreshPreservesInvariant | sanetwork/src/main/java/tv/superawesome/lib/sanetwork/file/SASequentialFileDownloader.java:113-131 | appending the new item keeps the invariant |
| SequentialDownloads.RequestPreservesInvariant | sanetwork/src/main/java/tv/superawesome/lib/sanetwork/file/SASequentialFileDownloader.java:81-132 | a request keeps the invariant, and a ready downloader stays ready unless reading a key threw |
| SequentialDownloads.RequestConservesListeners | sanetwork/src/main/java/tv/superawesome/lib/sanetwork/file/SASequentialFileDownloader.java:81-132 | a request adds exactly its listener, waiting or called back once |
| SequentialDownloads.QueuedRequestConservesListeners | sanetwork/src/main/java/tv/superawesome/lib/sanetwork/file/SASequentialFileDownloader.java:89-111 | for a queued URL, the listener is called back from disk or joins the waiters, and nobody else changes |
| SequentialDownloads.JoinAddsWaiters | sanetwork/src/main/java/tv/superawesome/lib/sanetwork/file/SASequentialFileDownloader.java:104-109 | joining adds exactly the joiners to who waits |
| SequentialDownloads.AppendAddsWaiters | sanetwork/src/main/java/tv/superawesome/lib/sanetwork/file/SASequentialFileDownloader.java:113-131 | appending an item and checking adds exactly its waiters, waiting or called back |
| SequentialDownloads.RequestForQueuedUrl | sanetwork/src/main/java/tv/superawesome/lib/sanetwork/file/SASequentialFileDownloader.java:89-111 | a queued URL is answered from disk or joins the waiters, and the queue is not checked |
| SequentialDownloads.RequestForNewUrl | sanetwork/src/main/java/tv/superawesome/lib/sanetwork/file/SASequentialFileDownloader.java:113-131 | a new URL always queues a new item, valid or not, and checks the queue |
| SequentialDownloads.SequentialFileDownloader.constructor | sanetwork/src/main/java/tv/superawesome/lib/sanetwork/file/SASequentialFileDownloader.java:46-56 | an empty queue, nothing in flight, no cleanup done yet |
| SequentialDownloads.SequentialFileDownloader.CleanupOnce | sanetwork/src/main/java/tv/superawesome/lib/sanetwork/file/SASequentialFileDownloader.java:83-86 | the flag is set first; a null context throws with nothing else changed; otherwise the cleanup runs, throwing exactly when the store holds a non-string value, after removing what it passed |
| SequentialDownloads.SequentialFileDownloader.DownloadFileFrom | sanetwork/src/main/java/tv/superawesome/lib/sanetwork/file/SASequentialFileDownloader.java:81-132 | the first call throws on a null context and changes nothing, or runs the cleanup, which throws on a non-string entry; otherwise `Request` with the context's presence, and the invariant holds |
| SequentialDownloads.SequentialFileDownloader.Handle | sanetwork/src/main/java/tv/superawesome/lib/sanetwork/file/SASequentialFileDownloader.java:89-131 | the new state is `Request` of the old one; it throws exactly when the lookup meets a null key or an exception leaves `checkOnQueue` |
| SequentialDownloads.SequentialFileDownloader.Join | sanetwork/src/main/java/tv/superawesome/lib/sanetwork/file/SASequentialFileDownloader.java:89-111 | the queued-URL branch, proved to be `Request` |
| SequentialDownloads.SequentialFileDownloader.AddWaiter | sanetwork/src/main/java/tv/superawesome/lib/sanetwork/file/SASequentialFileDownloader.java:108 | the item's value gains the listener; every other item is unchanged |
| SequentialDownloads.SequentialFileDownloader.Enqueue | sanetwork/src/main/java/tv/superawesome/lib/sanetwork/file/SASequentialFileDownloader.java:113-131 | the new-URL branch: append the new item, then `Check` |
| SequentialDownloads.SequentialFileDownloader.AppendFresh | sanetwork/src/main/java/tv/superawesome/lib/sanetwork/file/SASequentialFileDownloader.java:118-127 | a new item with the URL key, the extension and the listener (if any) goes to the back; the items already queued are unchanged |
| SequentialDownloads.SequentialFileDownloader.CheckOnQueue | sanetwork/src/main/java/tv/superawesome/lib/sanetwork/file/SASequentialFileDownloader.java:134-323 | the new state is `Check` of the old one, and the invariant holds |
| SequentialDownloads.SequentialFileDownloader.Start | sanetwork/src/main/java/tv/superawesome/lib/sanetwork/file/SASequentialFileDownloader.java:140-160 | locating the next item and launching it is `Check`, including the exception when the key read throws |
| SequentialDownloads.SequentialFileDownloader.PickItem | sanetwork/src/main/java/tv/superawesome/lib/sanetwork/file/SASequentialFileDownloader.java:146-152 | the pick as a change of state: `Pick`, plus one counted exception exactly when `ReadThrows` |
| SequentialDownloads.SequentialFileDownloader.Launch | sanetwork/src/main/java/tv/superawesome/lib/sanetwork/file/SASequentialFileDownloader.java:155-320 | starting the download or giving the item up is `Check`; without a context the task's constructor calls `onError()` at once |
| SequentialDownloads.SequentialFileDownloader.GetDiskLocation | sanetwork/src/main/java/tv/superawesome/lib/sanetwork/file/SASequentialFileDownloader.java:71-73 | the next token's disk location, one draw used |
| SequentialDownloads.SequentialFileDownloader.Locate | sanetwork/src/main/java/tv/superawesome/lib/sanetwork/file/SASequentialFileDownloader.java:146-152 | the item gets a fresh disk location; the key is the first piece of the regular-expression split, and the call throws exactly when that split leaves no piece |
| SequentialDownloads.SequentialFileDownloader.Discard | sanetwork/src/main/java/tv/superawesome/lib/sanetwork/file/SASequentialFileDownloader.java:305-317 | every waiter gets (false, null) and the item leaves the queue |
| SequentialDownloads.SequentialFileDownloader.Drop | sanetwork/src/main/java/tv/superawesome/lib/sanetwork/file/SASequentialFileDownloader.java:316 | `removeFromQueue`, as a removal of the item's value |
| SequentialDownloads.SequentialFileDownloader.Deliver | sanetwork/src/main/java/tv/superawesome/lib/sanetwork/asynctask/SAAsyncTask.java:98-109 | a result goes to `onFinish`, no result to `onError`; the new state is `Complete` of the old one |
| SequentialDownloads.SequentialFileDownloader.OnFinish | sanetwork/src/main/java/tv/superawesome/lib/sanetwork/file/SASequentialFileDownloader.java:247-289 | true records the download, false counts a failure; then `Check` |
| SequentialDownloads.SequentialFileDownloader.OnError | sanetwork/src/main/java/tv/superawesome/lib/sanetwork/file/SASequentialFileDownloader.java:292-300 | counts a failure, then `Check` with the context the download was started with |
| SequentialDownloads.SequentialFileDownloader.Save | sanetwork/src/main/java/tv/superawesome/lib/sanetwork/file/SASequentialFileDownloader.java:251-276 | the key, null when it was never read, maps to the disk URL, the file exists, every waiter is called with (true, diskUrl), and the item is on disk with nobody waiting |
| SequentialDownloads.SequentialFileDownloader.Retreat | sanetwork/src/main/java/tv/superawesome/lib/sanetwork/file/SASequentialFileDownloader.java:278-286 | free, one more failure, not on disk, moved to the back |
| SequentialDownloads.SequentialFileDownloader.Requeue | sanetwork/src/main/java/tv/superawesome/lib/sanetwork/file/SASequentialFileDownloader.java:285-286 | remove then add, as a move of the item's value |
| SequentialDownloads.SequentialFileDownloader.NotifyAll | sanetwork/src/main/java/tv/superawesome/lib/sanetwork/file/SASequentialFileDownloader.java:264-266 | the for-loop over the waiters appends `Notify` to the log |
| SequentialDownloads.SequentialFileDownloader.Cleanup | sanetwork/src/main/java/tv/superawesome/lib/sanetwork/file/SASequentialFileDownloader.java:328-354 | throws exactly when the store holds a non-string value, leaving it partly cleaned; otherwise every string entry and its file is removed |
| ListDownloads.CompareTo | sanetwork/src/main/java/tv/superawesome/lib/sanetwork/listdownload/SAFileListDownloader.java:168-172 | 1, -1 or 0 exactly as this index is above, below or equal to the other |
| ListDownloads.CompareToIsTotalOrder | sanetwork/src/main/java/tv/superawesome/lib/sanetwork/listdownload/SAFileListDownloader.java:168-172 | `compareTo` is antisymmetric, transitive, total and reflexive |
| ListDownloads.InsertByIndex | sanetwork/src/main/java/tv/superawesome/lib/sanetwork/listdownload/SAFileListDownloader.java:87 | insertion adds exactly the item, at the front when it sorts before the first |
| ListDownloads.InsertKeepsOrder | sanetwork/src/main/java/tv/superawesome/lib/sanetwork/listdownload/SAFileListDownloader.java:87 | inserting into an ordered list keeps it ordered |
| ListDownloads.SortByIndex | sanetwork/src/main/java/tv/superawesome/lib/sanetwork/listdownload/SAFileListDownloader.java:87 | the sort is ordered by `compareTo` and a permutation |
| ListDownloads.Files | sanetwork/src/main/java/tv/superawesome/lib/sanetwork/listdownload/SAFileListDownloader.java:90-93 | entry k's file at position k |
| ListDownloads.SortedEntriesSitAtTheirIndex | sanetwork/src/main/java/tv/superawesome/lib/sanetwork/listdownload/SAFileListDownloader.java:84-93 | with one answer per index, the sorted entry at position k has index k |
| ListDownloads.ArrivalFiles | sanetwork/src/main/java/tv/superawesome/lib/sanetwork/listdownload/SAFileListDownloader.java:87-93 | as written, the files in the order their callbacks arrived |
| ListDownloads.DeliveredFiles | sanetwork/src/main/java/tv/superawesome/lib/sanetwork/listdownload/SAFileListDownloader.java:87-93 | as intended, one file per answer, each some answer's file |
| ListDownloads.DeliveredFilesInRequestOrder | sanetwork/src/main/java/tv/superawesome/lib/sanetwork/listdownload/SAFileListDownloader.java:175-181 | as intended, with one answer per index, file k's disk location is at position k |
| ListDownloads.ArrivalOrderIsNotIndexOrder | sanetwork/src/main/java/tv/superawesome/lib/sanetwork/listdownload/SAFileListDownloader.java:87 | two answers arriving out of order: as written, the list is in arrival order; as intended, in request order |
| ListDownloads.InOrderArrivalsAgree | sanetwork/src/main/java/tv/superawesome/lib/sanetwork/listdownload/SAFileListDownloader.java:84-93 | when the answers arrive in index order, the list as written and the intended one are the same |
| ListDownloads.Fired | sanetwork/src/main/java/tv/superawesome/lib/sanetwork/listdownload/SAFileListDownloader.java:81-97 | the listener is called at most once per batch |
| ListDownloads.FiresOnceWhenAllArrived | sanetwork/src/main/java/tv/superawesome/lib/sanetwork/listdownload/SAFileListDownloader.java:81-97 | the listener fires exactly once, when all n answers have arrived, with n files; an empty list never fires |
| ListDownloads.FiredStep | sanetwork/src/main/java/tv/superawesome/lib/sanetwork/listdownload/SAFileListDownloader.java:81-84 | one more answer fires exactly when it brings the count to n |
| ListDownloads.NextListener | sanetwork/src/main/java/tv/superawesome/lib/sanetwork/listdownload/SAFileListDownloader.java:49 | a non-null listener replaces the old one; null keeps it |
| ListDownloads.Requests | sanetwork/src/main/java/tv/superawesome/lib/sanetwork/listdownload/SAFileListDownloader.java:59-62 | one download per index, for that index's file |
| ListDownloads.FileListDownloader.constructor | sanetwork/src/main/java/tv/superawesome/lib/sanetwork/listdownload/SAFileListDownloader.java:35-38 | the no-op listener, and nothing done yet |
| ListDownloads.FileListDownloader.DownloadListOfFiles | sanetwork/src/main/java/tv/superawesome/lib/sanetwork/listdownload/SAFileListDownloader.java:47-103 | the listener updated, one download per file in order, and a fresh counter at 0 for this batch |
| ListDownloads.Batch.constructor | sanetwork/src/main/java/tv/superawesome/lib/sanetwork/listdownload/SAFileListDownloader.java:52-56 | the counter starts at 0 with nothing collected |
| ListDownloads.Batch.DidDownloadFileAtIndex | sanetwork/src/main/java/tv/superawesome/lib/sanetwork/listdownload/SAFileListDownloader.java:73-97 | the answer is collected and counted, and exactly when the count reaches the list's size the listener is called with the files in arrival order |
| ListDownloads.FileLocations | sanetwork/src/main/java/tv/superawesome/lib/sanetwork/listdownload/SAFileListDownloader.java:90-93 | the for-loop yields each entry's file, in order |
| Network.Pair | sanetwork/src/main/java/tv/superawesome/lib/sanetwork/request/SANetwork.java:318-323 | a pair is the key, '=', and then a value without '"' |
| Network.TerminatedIsJoinedPlusAmpersand | sanetwork/src/main/java/tv/superawesome/lib/sanetwork/request/SANetwork.java:326-337 | dropping the last character of the loop's text leaves the pairs joined by '&' |
| Network.FormGetQueryFromDict | sanetwork/src/main/java/tv/superawesome/lib/sanetwork/request/SANetwork.java:307-338 | the query is "" for an empty object, otherwise k1=v1&...&kn=vn |
| Network.PairStrings | sanetwork/src/main/java/tv/superawesome/lib/sanetwork/request/SANetwork.java:316-324 | the while-loop yields "key=value&" for each entry, in order |
| Network.QueryOfEntries | sanetwork/src/main/java/tv/superawesome/lib/sanetwork/request/SANetwork.java:307-338 | an empty object gives "", one entry gives its pair, more entries give the others' query, '&' and the last pair |
| Network.QueryEndsInLastPair | sanetwork/src/main/java/tv/superawesome/lib/sanetwork/request/SANetwork.java:333-334 | the query ends in the last pair, never in '&' |
| Network.QueryHasNoQuotes | sanetwork/src/main/java/tv/superawesome/lib/sanetwork/request/SANetwork.java:321 | with quote-free keys, the query holds no '"' |
| Network.Endpoint | sanetwork/src/main/java/tv/superawesome/lib/sanetwork/request/SANetwork.java:83 | the URL alone exactly when the query object is empty, otherwise the URL, '?' and the query |
| Network.JoinedIsNotEmpty | sanetwork/src/main/java/tv/superawesome/lib/sanetwork/request/SANetwork.java:333-337 | the loop's text is never shorter than 2, so the last character is always dropped |
| Network.Answer | sanetwork/src/main/java/tv/superawesome/lib/sanetwork/request/SANetwork.java:259-286 | success exactly for a valid result, passed on as it is; anything else, including no result, is (0, null, false) |
| Network.ListenerCalls | sanetwork/src/main/java/tv/superawesome/lib/sanetwork/request/SANetwork.java:266-285 | a non-null listener is called exactly once, a null one never |
| Network.AnswerRoundTrip | sanetwork/src/main/java/tv/superawesome/lib/sanetwork/request/SANetwork.java:259-276 | a successful answer is a valid result and the very one produced; a failed one carries no payload |
| Network.InvalidResultsFail | sanetwork/src/main/java/tv/superawesome/lib/sanetwork/request/SANetwork.java:389-391 | a status at or below -1, or a null payload, fails; a status of 0 or more with a payload succeeds |

## Left out

- The HTTP exchange, file writes and the shared preferences' persistence are outside the model. A fetch is one outcome taken from `net`, or the result handed to `Deliver`. `apply` and `commit` are a map update. Partial files of a failed download are not modelled.
- Timeouts, progress logging, `Log.d` and the `isDebug` switch's other effects are left out.
- The executors and `SAAsyncTask`'s threads and intent service are left out:
  - `SAFileDownloader` runs its executor synchronously, as the library's own tests do, so one `checkOnQueue` drains the queue;
  - `SASequentialFileDownloader` receives each task result as a separate call (`Deliver`), made only while a download is in flight. Interleavings with other threads are not modelled.
- FileDownloads.FileDownloader.Save calls the waiters directly, as the fallback at SAFileDownloader.java:260-265 does when there is no main looper. With a main looper, the posted runnable reads the waiters only after `clearResponses` has run, and that race is not modelled.
- JavaLang.DotSplit reads `split("." + ext)` as a regular expression whose leading '.' matches any character but a line terminator. The extension itself is matched literally, so an extension holding other regular-expression characters (`*`, `+`, `[`, `\` and the like) is not modelled. Such an extension could also make Java's `split` throw `PatternSyntaxException`.
- SequentialDownloads.CompleteProperties, SequentialDownloads.RunAnswersEveryone, SequentialDownloads.RequestPreservesInvariant and SequentialDownloads.NoContextGivesUpEveryone promise readiness and answered listeners only when no exception left `checkOnQueue`. As written, reading the key of an item whose extension is empty throws, and the item stays pending with nothing in flight (`Naming.EmptyExtensionThrows`). SequentialDownloads.RunWithPlainExtsNeverThrows shows that the condition always holds when every extension is plain.
- SequentialDownloads.SequentialFileDownloader.Deliver: an exception from `onFinish` is caught by `SAAsyncTask` (SAAsyncTask.java:101-105), and one from `onError` is not. Either way the model keeps the state at the throw, and which of the two reached the caller is not modelled.
- The other effects of a null context are not modelled. `new SAAsyncTask(null, …)` fails when it builds its `Intent` and calls `onError()` from its catch block (SAAsyncTask.java:122-127), and that is all the model keeps.
- The random generator is the parameter `random`, and a `new URL(...)` parse is the parameter `parse`.
- `SAFileItem.getResourceURL` (SAFileItem.java:151) is not part of this model. The item getters are field reads.
- Network.IsJsonEmpty: a JSON object is its list of entries. `toString()` equals "{}" exactly when there are no entries, so that test folds into the length test. JSON values are their `toString()` text.
- Network.FormGetQueryFromDict: keys and values are not URL-encoded, as in the source. The `length() > 1` fallback at SANetwork.java:333-337 cannot be reached, because every pair holds at least "=&" (`JoinedIsNotEmpty`).
- The request methods `sendGET`, `sendPOST` and `sendPUT`, the headers and the body are left out: they only carry data into the HTTP exchange.
- Listener interfaces are identities. Each call is an entry in a log, and the listeners' own code is not modelled.
- ListDownloads.FileListDownloader.DownloadListOfFiles records the downloads it asks `SAFileDownloader` for as a list of requests rather than calling that downloader. Each answer is a separate `Batch.DidDownloadFileAtIndex` call. The `success` flag is passed through but unused, as in the source.
- Integers are unbounded: retry counts and indices never come near the 32-bit limit in the source's use.

## Findings

The downloader classes follow the code as written. Each corrected member states the evident intent, next to the as-written one.

| source | as written | input that shows it | evidently intended | confidence | as-written member | corrected member |
|---|---|---|---|---|---|---|
| sanetwork/src/main/java/tv/superawesome/lib/sanetwork/file/SAFileDownloader.java:200-203 | a status other than 200 returns from the executor's runnable without clearing `isDownloaderBusy`, and the `success` flag stays true | a queued item whose fetch answers 404: the downloader stays busy, and that item's listeners and all later requests are never answered | a status other than 200 is a failed attempt: count a retry and move on, as `SASequentialFileDownloader` does | not executed | FileDownloads.StalledDownloaderNeverAnswers | FileDownloads.RetryingDrainAnswersEveryone |
| sanetwork/src/main/java/tv/superawesome/lib/sanetwork/listdownload/SAFileListDownloader.java:87 | `Arrays.sort(filesDownloaded.toArray())` sorts a copy, so the list handed to the listener keeps callback order | file 1's answer arriving before file 0's: the listener receives [file 1, file 0] | the disk locations in the order of the requested files | not executed | ListDownloads.ArrivalOrderIsNotIndexOrder | ListDownloads.DeliveredFilesInRequestOrder |
| sanetwork/src/main/java/tv/superawesome/lib/sanetwork/file/SASequentialFileDownloader.java:150-151 | `key1.split("." + ext)` takes a regular expression, so the '.' matches any character, and `c2[0]` is read without a length check | the empty extension: "." matches every character of "1234.", the split leaves no piece, and `c2[0]` throws; the extension "3" after the token 1234 matches at "23" and the key is "1" | the key is the token, cut at the literal "." + extension | not executed | Naming.EmptyExtensionThrows, Naming.DigitExtensionMisreadsKey | Naming.LiteralKeyIsToken |
