# EEMS media library: a verified model

EEMS is a media server for home storage. This project models its library: the
ordered key/value store that holds containers, media items and resources; the
scanner that fills it from directory trees; and the two services that read it,
browsing and content streaming. Everything is proved with Dafny 4.11; run
`dafny verify dfyconfig.toml`.

## How the model is laid out

| file | part of the program |
|---|---|
| `Keys`, `Records`, `KeyValue` | library keys and their comparator, the stored records, the ordered database with snapshot iterators and atomic batches |
| `StoreModel`, `StoreService` | the store operations on the map of records, and the service class that performs them through iterators and batches |
| `Text`, `Titles`, `Calendar`, `Folders` | byte strings and file names, title normalisation, dates, directory entries and sorted file maps |
| `ScanWalk`, `ScanPlan`, `MovieScanner` | the directory walk (recursive and with a stack), the batches of one directory, and the scanner and composer classes |
| `StoreInvariant`, `StoreRuns` | the invariant of the store, its preservation by one batch, and whole runs of batches |
| `Expected`, `ScanVideos` | what a scan is to leave in the library, told from the tree and its names alone, and that its items are the videos of the tree |
| `ScanProperties`, `ScanViews`, `StoredViews`, `ScanSessions` | what every scan writes, that it is what is expected, in the store as well, and sequences of scans |
| `FailedWrites`, `ScanSize` | what failed writes do to a scan, and how many ids a scan can need |
| `LibraryTree` | listing the library recursively |
| `Didl`, `Server`, `ContentService`, `Startup` | browse responses and paging, URL routing, range requests and streaming, start-up and browse requests |
| `Playback` | from a scanned video through its URL to its bytes |

A scan is described twice. The classes follow the source step by step: the
stack loop, the loops over directory entries and over matching files, the
counters, the batches. The specification is a pure list of batches computed
from the directory tree and the two id counters (`ScanWalk.WalkTree`,
`ScanPlan.PlanFolder`), which `StoreModel.Execute` then applies to a database
whose writes may fail. `MovieScanner.MovieScanner.ScanAll` proves that the code
does exactly what the specification says, including where an exception stops
it; the theorems about scans are proved on the specification.

What a scan comes to is told a third time, without batches and ids, in
`Expected`: the forest of collections and items that a tree stands for, by a
recursion over the tree, with file types, stems, prefixes, titles and artwork
read off the names. `ScanSessions.ScanStoresForest` proves that a scan adds just
these objects, numbered in preorder under the movies folder, and
`ScanSessions.NewLibraryIs` what a whole new library is. The functions on text
that both sides use are fixed by statements about single characters
(`Text.LessIs`, `Text.StemIs`, `Folders.MimeTypeIs`, `Titles.CharacterClasses`,
`Titles.NormalizedTitleMeaning` and others).

Environment as parameters: the result of each coming database write is a list
of booleans (`outcomes`), the directory tree is a finite value, the files that
are served are a map from path to bytes, and the reads and sends of a transfer
are a list of events, one for each turn of the streaming loop.

Conventions that a reader of both programs needs:

- A serialized key is represented by its value, since serializing is injective
  and gives the same bytes every time.
- An absent vector and an empty vector of a stored record are the same.
- Ids are mathematical integers. Only the id search, which seeks the largest
  64-bit id, and the content service, which parses a 64-bit id, depend on the
  width; there the bound is explicit.
- Reading a record whose type does not fit its key is undefined in the source;
  here it is an error, and `Didl.StoredObjectsSerialize` and
  `ScanSessions.ScanSucceeds` show that it never happens in a reachable store.
- The sort of an item's artwork by type is taken to be stable.
- A node that is being built when serializing fails is not kept; the source
  abandons the whole document with the exception.
- `hide` statements in proofs only keep definitions out of the solver's way.

## Where the code departs from its promises

- `bytes=F-L` with `L` at or past the end of the file is not clamped, and the
  suffix form `bytes=-N` computes another window than section 2.1 of RFC 7233
  selects, unless `N` is one less than the file size.
  `ContentService.MeetsRfcExactly` gives the exact condition and
  `ContentService.UnservedRanges` concrete ranges.
- For windows that leave the file the streaming loop never ends, since a read at
  the end of the file yields nothing and is no error.
  `ContentService.RequestEndsExactly` gives the exact condition on the range, and
  `ContentService.EndlessRequest` a request that never ends.
- The id search fails exactly when the largest 64-bit id is in use
  (`StoreService.StepBackIsNextId`; `StoreService.LargestIdInUse` for a store).
- A failed database write is only logged, and the scan goes on. It raises later
  exactly when a batch goes under a container whose write failed, or under a
  movies folder that was lost in an earlier scan (`FailedWrites.ScanRaisesExactly`,
  and `FailedWrites.SessionRaisesExactly` for any sequence of scans); otherwise it
  stores just the batches whose write succeeded (`FailedWrites.ScanStoresWritten`).
  `FailedWrites.FailingScans` has a scan of each kind. The store stays consistent
  (`ScanSessions.ScanKeepsConsistent`).
- January 1st 1970 is stored as day 0, the value for "no date"
  (`Didl.MovieDateShown`; `Didl.MovieOf1970` for a title).

## Model

| member | source | states |
|---|---|---|
| Keys.CompareIsTotalOrder | src/store/store_service.cpp:41-63 | the database comparator is a total order, by kind and then by id, and keys compare equal exactly when they are the same key |
| Text.LessTotal | src/scanner/movie_scanner.cpp:122-123 | any two different file names are ordered in the composer's maps |
| Text.LessTransitive | src/scanner/movie_scanner.cpp:122-123 | the order of file names is transitive |
| Text.LessIs | src/scanner/movie_scanner.cpp:122-123 | a name comes before another if it is a proper prefix of it or smaller at the first difference |
| Text.ContainsIs | src/scanner/movie_scanner.cpp:93-102 | a name contains a word exactly when the word starts somewhere in it |
| Text.PrefixNotAfter | src/scanner/movie_scanner.cpp:159-162 | a name that starts with a prefix never sorts before the prefix, so a search from the lower bound misses none |
| Text.PrefixConvex | src/scanner/movie_scanner.cpp:159-162 | names that share a prefix are contiguous in the order, so stopping at the first other name misses none |
| Text.ParseFormatInt | src/content_service.cpp:30-34 | every 64-bit id written in decimal is read back as itself by a parser that must consume the whole text |
| Text.ParseInt64Is | src/content_service.cpp:30-34 | a sign or none and digits are read as their value if it fits 64 bits |
| Text.ParseInt64Only | src/content_service.cpp:30-34 | no other text is read as an id |
| Text.FileNameOfJoin | src/scanner/movie_scanner.cpp:276-280 | the file name of a listed entry's path is the name it is listed under |
| Text.FileNameIs | src/scanner/movie_scanner.cpp:316-319 | a file name holds no slash, and a slash comes before it unless it is the whole path |
| Text.StemIs | src/scanner/movie_scanner.cpp:157-157 | a stem ends before the last dot that is not the first character, or is the whole name |
| Titles.CharacterClasses | src/scanner/movie_scanner.cpp:79-80 | which characters are word characters and spaces |
| Titles.YearsAre | src/scanner/movie_scanner.cpp:80-80 | a year is a 1 or 2 and three digits |
| Titles.NormalizeTitle | src/scanner/movie_scanner.cpp:76-91 | the in-place edits compute the specified title and year |
| Titles.NormalizedTitleMeaning | src/scanner/movie_scanner.cpp:79-90 | the title is the name with separators before word characters replaced, cut before the leftmost year and its opening parenthesis, and trimmed of exactly its outer spaces; the year is the number the four digits spell |
| Titles.NormalizedIsClean | src/scanner/movie_scanner.cpp:76-91 | a normalised title has no separator to replace and no year left; the year is 0 exactly when the name has none, and otherwise in 1000..2999 |
| Titles.NormalizeIsFixpoint | src/scanner/movie_scanner.cpp:76-91 | normalising a normalised title changes nothing and finds no year, for every byte string |
| Calendar.YearLength | src/scanner/movie_scanner.cpp:207-213 | consecutive January 1sts are 366 days apart in Gregorian leap years and 365 otherwise |
| Calendar.NextDayIs | src/scanner/movie_scanner.cpp:207-213 | day numbers count the days of the Gregorian calendar one by one |
| Calendar.DateRoundTrip | src/xml_serialization.cpp:128-137 | every date, stored as a day number, is decoded as the same year, month and day |
| Calendar.DayRoundTrip | src/xml_serialization.cpp:128-137 | every day number is decoded as the date it is the number of |
| Calendar.EpochIs1970 | src/xml_serialization.cpp:128-130 | the day number is 0 for January 1st of 1970 and no other date |
| Records.SerializeKeepsContainer | src/store/store_service.cpp:257-337 | reading a container and writing it back keeps its children and all metadata but a date |
| KeyValue.LowerBoundFinds | src/store/store_service.cpp:244-252 | seeking a key ends at that key exactly when it is stored, with its record |
| KeyValue.PutUpdates | src/store/store_service.cpp:166-190 | one put keeps the key order and updates exactly one key |
| KeyValue.PutAllUpdates | src/store/store_service.cpp:192-192 | the puts of a batch, applied in order to the sorted list, update the map in that order |
| KeyValue.Database.Write | src/store/store_service.cpp:192-196 | a batch is committed as a whole or not at all |
| StoreModel.ExecuteAppend | src/scanner/movie_scanner.cpp:349-356 | running two lists of batches in turn is running their concatenation, also when an exception ends the first |
| StoreModel.RaisedEarly | src/scanner/movie_scanner.cpp:349-356 | after an exception nothing more is written |
| StoreModel.NextId | src/store/store_service.cpp:115-143 | one more than the largest stored id of a kind, or 0 when none is stored |
| StoreModel.UpdateAllDistinct | src/store/store_service.cpp:162-190 | puts of distinct keys all survive, and no other key is touched |
| StoreModel.CommitAppends | src/store/store_service.cpp:153-196 | put_items of fresh records appends their keys to the parent's children in order, keeps the parent's metadata, stores the records and changes nothing else; after an exception or a failed write the store is unchanged |
| StoreService.StepBackIsNextId | src/store/store_service.cpp:115-143 | seeking the largest key of a kind and stepping back finds the next id exactly when the largest 64-bit id is unused |
| StoreService.LargestIdInUse | src/store/store_service.cpp:115-143 | a store in which the search misses the largest id |
| StoreService.StoreService.OpenDb | src/store/store_service.cpp:65-111 | an existing database is opened as it is; a new one holds the root container only, or an error is raised when that write fails |
| StoreService.StoreService.GetNextId | src/store/store_service.cpp:115-143 | the iterator moves return the next id exactly when the largest 64-bit id is unused |
| StoreService.StoreService.DeserializeContainer | src/store/store_service.cpp:257-299 | the children and metadata of a stored container, or the error for a missing or wrong record |
| StoreService.StoreService.PutItems | src/store/store_service.cpp:153-196 | the batch built item by item does to the database what the specification of put_items says, exceptions and failed writes included |
| StoreService.StoreService.List | src/store/store_service.cpp:222-231 | a listing holds the children and a snapshot of the database as of the call |
| StoreService.StoreService.Get | src/store/store_service.cpp:233-237 | a view of one key over a snapshot of the database |
| StoreService.StoreService.GetResource | src/store/store_service.cpp:239-255 | a resource is returned exactly when it is stored, and it is the stored one |
| StoreService.Cursor.Read | src/store/store_service.cpp:210-220 | an element is read from the view's snapshot, whatever was committed since |
| Folders.EmplaceAscending | src/scanner/movie_scanner.cpp:126-140 | inserting into a sorted file map keeps it sorted |
| Folders.CollectSorts | src/scanner/movie_scanner.cpp:255-294 | the files of a kind collected from a directory are exactly those listed, when names are distinct |
| Folders.CollectAscending | src/scanner/movie_scanner.cpp:255-294 | the collected files are sorted by name |
| Folders.MediaKindIsPrefix | src/scanner/movie_scanner.cpp:61-74 | the kind of a MIME type is decided by the part before its slash |
| Folders.MimeTypeIs | src/scanner/movie_scanner.cpp:40-59 | the type of a file is decided by the last four characters of its name, for each of the six types, with something before them; all other names have none |
| Folders.PrefixBlock | src/scanner/movie_scanner.cpp:159-162 | starting at the lower bound of a prefix and stopping at the first name without it yields exactly all names with the prefix, for every sorted map and prefix |
| ScanWalk.PushWalksSubfolders | src/scanner/movie_scanner.cpp:353-354 | pushing subdirectories in listing order walks them last listed first, before the rest of the stack |
| ScanWalk.StackStep | src/scanner/movie_scanner.cpp:349-356 | one turn of the stack loop leaves what the recursive walk has left to do, and shrinks the total size of what is pending |
| ScanWalk.StackIsTree | src/scanner/movie_scanner.cpp:341-357 | the loop's initial stack stands for the recursive walk of the whole tree |
| MovieScanner.ObjectComposer.StoreResource | src/scanner/movie_scanner.cpp:225-229 | a stored file gets the next resource id |
| MovieScanner.ObjectComposer.GetFolderArtwork | src/scanner/movie_scanner.cpp:231-245 | poster.jpg if there is one, else folder.jpg |
| MovieScanner.ObjectComposer.ComposeOwnArtwork | src/scanner/movie_scanner.cpp:159-174 | the prefix loop finds exactly the classified artwork among all files with the prefix |
| MovieScanner.ObjectComposer.ComposeArtwork | src/scanner/movie_scanner.cpp:159-185 | folder artwork is used only when the item has none of its own |
| MovieScanner.ObjectComposer.ComposeSubtitles | src/scanner/movie_scanner.cpp:187-194 | the prefix loop refers to exactly the subtitles with the prefix, numbered in order |
| MovieScanner.ObjectComposer.Compose | src/scanner/movie_scanner.cpp:142-223 | composing a video builds the specified item and stores its files in the specified order |
| MovieScanner.MovieScanner.CreateContainer | src/scanner/movie_scanner.cpp:400-425 | commits the specified collection batch and returns its id |
| MovieScanner.MovieScanner.GetMoviesFolderId | src/scanner/movie_scanner.cpp:359-398 | the remembered folder, else the root's child called "Movies", else a new one |
| MovieScanner.MovieScanner.ScanDirectory | src/scanner/movie_scanner.cpp:248-339 | a directory's batches, ids and the parents handed to its subdirectories are the specified ones |
| MovieScanner.MovieScanner.PutCollection | src/scanner/movie_scanner.cpp:296-325 | when a directory becomes a collection, and subdirectories are moved under it only if it has artwork |
| MovieScanner.MovieScanner.ScanTop | src/scanner/movie_scanner.cpp:349-356 | one turn of the loop in the code matches one step of the walk |
| MovieScanner.MovieScanner.ScanTree | src/scanner/movie_scanner.cpp:345-357 | the stack loop terminates and commits exactly the batches of the recursive walk, with collections off at the root only |
| MovieScanner.MovieScanner.ScanAll | src/scanner/movie_scanner.cpp:341-357 | a scan does to the database exactly what its specification says, and remembers the movies folder |
| MovieScanner.LoopStep | src/scanner/movie_scanner.cpp:349-356 | what a turn of the loop does to the database, also when it raises |
| StoreInvariant.FreshStoreConsistent | src/store/store_service.cpp:98-105 | the store of a new database is consistent |
| StoreInvariant.PartitionUnique | src/scanner/movie_scanner.cpp:142-194 | no resource of a batch is referred to twice |
| StoreInvariant.PartitionOnto | src/scanner/movie_scanner.cpp:142-194 | every resource of a batch is referred to by one of its items |
| StoreInvariant.ParentsListKept | src/store/store_service.cpp:171-190 | after a batch every object but the root is listed by a stored parent with a smaller id |
| StoreInvariant.ChildrenExistKept | src/store/store_service.cpp:171-190 | after a batch every listed child is stored and names the container that lists it |
| StoreInvariant.ChildrenAscendingKept | src/store/store_service.cpp:185-185 | after a batch every container lists its children in the order of their ids, none of them twice |
| StoreInvariant.RefsUniqueKept | src/store/store_service.cpp:164-183 | after a batch no resource is referred to twice in the whole store |
| StoreInvariant.ResourcesUsedKept | src/store/store_service.cpp:164-183 | after a batch every stored resource is referred to |
| StoreInvariant.AppendKeepsConsistent | src/store/store_service.cpp:153-196 | a committed batch keeps the whole invariant: typed records, the tree of parents and children, the bijection of references and resources, the movies folder as the root's only child |
| StoreRuns.CommitKeepsConsistent | src/store/store_service.cpp:153-196 | the invariant holds after every put_items call, committed, failed or refused |
| StoreRuns.RunKeepsConsistent | src/store/store_service.cpp:153-196 | the invariant holds after any run of batches with any failed writes |
| StoreRuns.EveryPrefixConsistent | src/scanner/movie_scanner.cpp:349-356 | the invariant holds wherever a run stops |
| StoreRuns.RunSucceeds | src/store/store_service.cpp:153-196 | without failed writes no batch of a run raises, all its records are stored, nothing else is new and nothing stored is lost |
| ScanProperties.SortPermutes | src/scanner/movie_scanner.cpp:198-198 | sorting artwork by type keeps every reference |
| ScanProperties.ItemCovers | src/scanner/movie_scanner.cpp:142-223 | an item refers to each resource stored for it exactly once |
| ScanProperties.ComposedAreOk | src/scanner/movie_scanner.cpp:330-336 | the items of a directory are numbered consecutively, carry the parent they are put under and share out their resources |
| ScanProperties.PlanFolderOk | src/scanner/movie_scanner.cpp:296-336 | every batch of a directory goes under a container known before it, and so do its subdirectories |
| ScanProperties.WalkTreeOk | src/scanner/movie_scanner.cpp:341-357 | all batches of a walk are numbered without gaps and go under containers known before them |
| ScanVideos.ScansAllVideos | src/scanner/movie_scanner.cpp:255-294 | the scan order of videos is a permutation of all files in the tree whose names end in one of the four video extensions |
| ScanVideos.ForestVideos | src/scanner/movie_scanner.cpp:151-153 | the first files of the expected items are the videos of the tree, in scan order |
| Expected.SortedNamesAre | src/scanner/movie_scanner.cpp:255-294 | the files of a kind are in strictly ascending order, and are the regular files with such a name |
| Expected.ItemOfStem | src/scanner/movie_scanner.cpp:157-213 | what an item is to be in terms of the video's stem and extension: title, date, subtitles and artwork, without and with a folder name |
| Expected.TwoVideosCollect | src/scanner/movie_scanner.cpp:296-325 | a directory with two videos is to become a collection that holds both |
| ScanViews.ItemLeads | src/scanner/movie_scanner.cpp:142-223 | each reference of an item leads to its own file: the first to the video, the next to the matching subtitles in order, and each artwork reference to the matching file of its type |
| ScanViews.ViewIsExpected | src/scanner/movie_scanner.cpp:157-223 | an item's title, date, subtitles and artwork are those expected of the video's name |
| ScanViews.ItemsBatchViews | src/scanner/movie_scanner.cpp:327-336 | the items of a directory are the expected ones, numbered in order under their parent |
| ScanViews.CollectionIs | src/scanner/movie_scanner.cpp:296-312 | which directories become collections |
| ScanViews.CollectionBatchViews | src/scanner/movie_scanner.cpp:314-319 | a collection is called by the stem of its directory's name and has its poster.jpg, or else its folder.jpg |
| ScanViews.PlanFolderViews | src/scanner/movie_scanner.cpp:296-336 | the items of a directory go under its collection or else the parent it was given, and its subdirectories under the collection exactly when that has artwork |
| ScanViews.WalkTreeViews | src/scanner/movie_scanner.cpp:341-357 | the objects of a walk are the forest expected of the tree, numbered in preorder |
| StoredViews.RunStored | src/store/store_service.cpp:153-196 | in the store the objects of a run lead to the same files |
| ScanSessions.FindMoviesFinds | src/scanner/movie_scanner.cpp:366-374 | in a consistent store the search raises nothing and finds the root's child if there is one |
| ScanSessions.ScanKeepsConsistent | src/scanner/movie_scanner.cpp:341-357 | a scan of any tree with any failed writes keeps the store consistent after every batch |
| ScanSessions.ScanSucceeds | src/scanner/movie_scanner.cpp:341-357 | without failed writes a scan raises nothing and stores all it writes below the movies folder |
| ScanSessions.WrittenIds | src/scanner/movie_scanner.cpp:443-451 | the object and resource ids of a scan are two blocks of consecutive numbers from the next free id on |
| ScanSessions.NextIdsAfter | src/store/store_service.cpp:115-143 | the next scan starts counting right after the ids of this one |
| ScanSessions.ScanStoresForest | src/scanner/movie_scanner.cpp:341-357 | without failed writes a scan adds exactly the forest expected of the tree under the movies folder, numbered in preorder, and the movies folder if there was none; the scanned directory itself never becomes a collection |
| ScanSessions.ScanStoresVideos | src/scanner/movie_scanner.cpp:341-357 | among them is exactly one media item for every video in the tree, whose first resource has that file's path |
| ScanSessions.NewResourcesReferencedOnce | src/scanner/movie_scanner.cpp:225-229 | the new resources are one block of ids, each referred to exactly once, by a new object, and new objects refer to nothing else |
| ScanSessions.SessionKeepsConsistent | src/main.cpp:27-40 | any sequence of scans by any scanners, with any failed writes, keeps the store consistent |
| ScanSessions.CallUsesMovies | src/scanner/movie_scanner.cpp:359-398 | every scan uses the root's only child, which is called "Movies" |
| ScanSessions.SessionSucceeds | src/main.cpp:27-40 | in a sequence of scans without failed writes, no scan raises and no object or resource id is given out twice |
| ScanSessions.FreshSession | src/main.cpp:27-30 | a new database starts such a sequence |
| ScanSessions.SessionAddsForests | src/main.cpp:30-39 | a sequence of scans without failed writes adds the forests of all its scans to the library, in order, and changes none of its objects |
| ScanSessions.NewLibraryIs | src/main.cpp:27-40 | the library that scans without failed writes make of a new database, object by object |
| ScanSessions.CallsScanAllVideos | src/main.cpp:30-39 | those items are all videos of all scanned trees, each once |
| FailedWrites.RunRaisesExactly | src/store/store_service.cpp:153-196 | a run raises exactly when a batch goes under a container missing from the start or of an earlier batch whose write failed, and then for a container that is not found; nothing stored is lost |
| FailedWrites.RunStoresWritten | src/store/store_service.cpp:189-195 | a run that raises nothing stores each batch whose write succeeds as a whole, and of the others nothing |
| FailedWrites.ScanRaisesExactly | src/scanner/movie_scanner.cpp:341-398 | when a scan raises, whatever the tree and the failed writes; what scanners remember is the movies folder, nothing, or a lost folder |
| FailedWrites.ScanStoresWritten | src/scanner/movie_scanner.cpp:341-398 | a scan that raises nothing stores exactly the batches whose write succeeds, the movies folder included |
| FailedWrites.FailingScans | src/scanner/movie_scanner.cpp:341-357 | a scan that raises after a failed write, and one that does not |
| FailedWrites.SessionRaisesExactly | src/main.cpp:27-40 | in a session of any scanners with any failed writes, exactly which calls raise |
| ScanSize.WalkTreeSize | src/scanner/movie_scanner.cpp:443-451 | a walk numbers no more objects than the tree has entries, one more for a collection at the top, and no more resources than the square of that |
| ScanSize.ScanStaysWithin | src/scanner/movie_scanner.cpp:341-357 | whatever writes fail, a scan moves the next ids no further than that |
| LibraryTree.RootIsAncestor | src/store/store_service.cpp:222-231 | every stored object is reached from the root |
| LibraryTree.ListingCounts | src/store/store_service.cpp:222-231 | a recursive listing meets an object once if it starts above it, and never otherwise |
| LibraryTree.ListingVisitsAllOnce | src/store/store_service.cpp:222-231 | listing recursively from the root ends and meets every stored object exactly once, and nothing else |
| Didl.XmlDocument.SerializeMediaObject | src/xml_serialization.cpp:114-192 | the loops over artwork and resources build the specified node or raise the specified error |
| Didl.BrowseResponse | src/xml_serialization.cpp:202-243 | the response holds the nodes of the requested window in order and counts them, and depends on the listed snapshot only |
| Didl.StoredObjectHasNode | src/xml_serialization.cpp:114-192 | every object of a consistent store has a node that shows its title, class, date, artwork types and protocols, and advertises exactly the resources the object refers to, all stored |
| Didl.StoredObjectsSerialize | src/xml_serialization.cpp:212-218 | serializing the listed objects of a consistent store never fails and skips none, and each node shows its object |
| Didl.EmittedUrlsResolve | src/xml_serialization.cpp:116-119 | every URL a response advertises is routed to the content service, which reads back the id of a stored resource |
| Didl.PagingLosesNothing | src/xml_serialization.cpp:212-234 | pages of any size put together are the whole child list in order, each child once and shown as it is stored, which is also what a request without a count returns; NumberReturned and TotalMatches are right (Browse, section 2.7.4 of UPnP ContentDirectory:1), for lists shorter than 2^32 |
| Didl.MovieDateShown | src/scanner/movie_scanner.cpp:207-213 | the node of a stored movie shows its title and class, and its year as the January 1st, or nothing for no year and for 1970 |
| Didl.MovieOf1970 | src/xml_serialization.cpp:128-137 | a title with the year 1970, for which no date is shown |
| Server.ParseTarget | src/server.cpp:26-36 | splits a target at its first question mark and loses nothing |
| Server.Dispatch | src/server.cpp:58-97 | the loops over path components route a target as specified |
| Server.RoutesAre | src/server.cpp:58-97 | which service the first name of a target selects, with the second as the path below it, whatever the query |
| Server.PathRoutesAre | src/server.cpp:58-97 | the same for paths of any length |
| Server.ContentRoute | src/server.cpp:58-91 | the target of a content URL goes to the content service with the id as path |
| ContentService.ParseRangeReadsBack | src/content_service.cpp:47-54 | every range of two optional 64-bit numbers is read as it is written |
| ContentService.ParseRangeOnly | src/content_service.cpp:47-54 | and no other text is read as a range |
| ContentService.RangeResponse | src/content_service.cpp:90-129 | overwriting both ends and the size in turn computes the specified window |
| ContentService.CreateResponse | src/content_service.cpp:27-130 | a path that is no id gets 404; a bad Range header 416; an id that is not stored, or whose file is missing, 404; any other the response for the file at the resource's location |
| ContentService.MeetsRfcExactly | src/content_service.cpp:95-121 | the announced window is the one section 2.1 of RFC 7233 selects exactly for the ranges of a condition a client can check |
| ContentService.UnservedRanges | src/content_service.cpp:100-120 | satisfiable ranges that get another window |
| ContentService.InsideExactly | src/content_service.cpp:100-120 | exactly which ranges get a window that lies in the file |
| ContentService.StreamEndsExactly | src/content_service.cpp:154-178 | the streaming loop ends, however short its reads, when its window lies in the file, and never otherwise |
| ContentService.RequestEndsExactly | src/content_service.cpp:95-178 | for which ranges the streaming loop of the request ends, and for which never |
| ContentService.EndlessRequest | src/content_service.cpp:95-178 | a request whose streaming never ends |
| ContentService.StreamBody | src/content_service.cpp:148-179 | the loop does what its turns do: for any non-empty short reads it ends and sends exactly the bytes of a window that lies in the file; a failure leaves a part of it from the start |
| ContentService.HandleRequest | src/content_service.cpp:132-180 | the same for whole replies: what a client gets is the file at the location of the resource with the id of the path, and a complete body is exactly what Content-Length announces; it becomes complete unless a read or send fails or its window leaves the file |
| ContentService.StreamableExactly | src/content_service.cpp:95-121 | for which ranges the announced window lies in the file |
| ContentService.ServedResponseIsSelection | src/content_service.cpp:95-127 | without a range the whole file, and for ranges the code serves the bytes section 2.1 of RFC 7233 selects, with matching Content-Range and Content-Length (section 4.2), or 416 |
| Startup.OpenAndScan | src/main.cpp:27-40 | start-up leaves a consistent library whatever writes fail, and stops on an exception exactly when the root is not written or a scan raises; without failures a new library is, object by object, what is expected of all directories, and its items are their videos, each once; 64-bit ids suffice for trees up to a size |
| Startup.ScanDirectories | src/main.cpp:30-39 | the loop over the configured directories, by one scanner, and exactly when it stops on an exception |
| Startup.HandleBrowse | src/upnp.cpp:61-97 | which flag lists children and which the object itself; whatever is committed between listing and responding, a browse shows the library as it was listed |
| Playback.HandleTarget | src/server.cpp:58-97 | the target of a resource is answered by the content service with the file at the resource's location |
| Playback.ItemPlays | src/xml_serialization.cpp:116-119 | the first URL of a stored item serves the bytes of its first file |
| Playback.ScannedVideoPlays | src/scanner/movie_scanner.cpp:341-357 | after a scan without failed writes every video of the tree has an item whose first URL serves exactly the bytes of that video |

## Left out

- The byte layout of keys and records and the inside of the database: library code; keys and records are values, the database a sorted list with atomic batches.
- File system calls, symbolic links and changes during a scan: the tree is a finite value.
- Networking, timeouts, the connection loop and the text of error responses.
- Device discovery, SOAP parsing, device and service descriptions, and XML text.
- Configuration, logging and the command line.
- Regular expressions in general: the two patterns in use are written out, with word characters and spaces as in the "C" locale.
- Errors of opening, measuring or seeking a file other than a missing file.
- Overflow of 64-bit ids: start-up requires trees whose size leaves the ids within 64 bits.
- Exclusive use of artwork and subtitle files: one file can match several videos, each of which then gets a resource of its own.
- Transfers as a whole: the streaming loop need not end, so a transfer is followed for any finite number of its turns; `ContentService.RequestEndsExactly` says when there is a last one.
