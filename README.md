# pyvideosearch search index, in Dafny

pyvideosearch serves a full-text search over the talks catalogued in the
pyvideo data repository. This project models the part that builds that search
index and keeps it current:

- **Slugify** (`slugify.dfy`): the slugifier, a partial port of Pelican's
  `slugify` that gives sessions and speakers their URL slugs.
- **Timestamps** (`timestamps.dfy`): how Go's `time.Parse` reads the three
  layouts of a session's `Recorded` text, on a proleptic Gregorian calendar
  counted in seconds from 0001-01-01 UTC (Go's zero time).
- **IndexData** (`data.dfy`): the records of a session file and a collection,
  and the document (`IndexedSession`) a session becomes in the index.
- **LegacyData** (`legacy_data.dfy`): the earlier, smaller document of the
  top-level `data.go`, and how it relates to the current one.
- **FileSystem** (`filesystem.dfy`): the file system as the indexer sees it.
  Directories list their entries in a fixed order, files hold text, and index
  directories are seen through the documents they hold. The `Disk` class is
  the one shared, changing state.
- **Indexing** (`indexing.dfy`): `parseSession`, `parseCollection`,
  `fillIndex`, `findIndex`, the `.state` file and `Index.Destroy`. The
  `Engine` class holds the documents of the index being filled.
- **Lifecycle** (`lifecycle.dfy`): `createNewIndex`, one pass of
  `WatchForUpdates` and its loop (the `Watcher` class), and `LoadIndex`.

Pure Go code is modelled as functions. Code that loops, appends or writes to
disk is modelled as methods. Each method is proved against a function that
states its result and its new state.

A few choices follow the code where a reader might expect otherwise:

- A missing or unreadable `.state` ends the watcher.
- A failed rebuild ends the watcher.
- `fillIndex` returns no error when its context is done, and applies no batch. A rebuild whose context is done before the first data folder therefore hands over an empty index and records it in `.state`.
- The old index is removed before the new one is handed over.
- Writing `.state` truncates it first. An encoder that then fails leaves `.state` partly written, so the watcher's next start fails when it reads `.state`.
- When `LoadIndex` rebuilds with `deleteOld`, it removes the old index before it builds the new one.
- `LoadIndex` opens the first directory under the index root. It does not open the one `.state` names.

## Model

| member | source | states |
|---|---|---|
| Slugify.Slugify | slugify/slugify.go:17-23 | Every slug is made of `[0-9a-z_-]`, has no `--` and does not end in `-`. |
| Slugify.StripTags | slugify/slugify.go:25-27 | The tag rewrite only drops runes: the result is no longer than the input, and each of its runes comes from the input. |
| Slugify.StripTagsLeavesNoTag | slugify/slugify.go:11 | After stripping, no `<` is followed by a `>`, so `<[^>]*>` matches nothing more. |
| Slugify.StripTagsIdempotent | slugify/slugify.go:25-27 | Stripping tags twice is the same as stripping them once. |
| Slugify.StripTagsUnchanged | slugify/slugify.go:25-27 | Text in which `<[^>]*>` matches nothing comes through unchanged. |
| Slugify.ToLower | slugify/slugify.go:29-32 | Lower-casing keeps the length and maps each rune on its own. |
| Slugify.LowercaseStaysLowercase | slugify/slugify.go:29-32 | No upper-case ASCII letter is left after `strings.ToLower`. |
| Slugify.ReplaceSpecialCharacters | slugify/slugify.go:34-40 | Every rune of the result is `-` or a `\w` rune of the input. There is never a `--`, and there is no trailing `-`. |
| Slugify.RemoveDisallowedKeeps | slugify/slugify.go:36 | Only runes of `[\w\s-]` that occur in the input survive the first rewrite. |
| Slugify.CollapseSeparators | slugify/slugify.go:37 | Runs of `[-\s]` leave no `--`, and a leading non-separator stays first. |
| Slugify.CollapseSeparatorsKeeps | slugify/slugify.go:37 | Every rune after the collapse is `-` or a non-separator rune of the input. |
| Slugify.ReplaceSpecialCharactersUnchanged | slugify/slugify.go:34-40 | Text that already has a slug's shape comes through unchanged. |
| Slugify.ReplaceSpecialCharactersIdempotent | slugify/slugify.go:34-40 | Replacing special characters a second time changes nothing. |
| Slugify.LeadingSeparatorKept | slugify/slugify.go:34-40 | Only a trailing `-` is trimmed: text that starts with a separator and holds a `\w` rune later comes out starting with `-`. |
| Slugify.SpaceThenWord | slugify/slugify.go:34-40 | A space before a lower-case word becomes `-` before that word. |
| Slugify.SlugifySpaceThenWord | slugify/slugify.go:17-40 | If the tables leave ASCII alone, a space before a lower-case word slugifies to `-` before that word. |
| Slugify.SlugifyLeadingSpace | slugify/slugify.go:34-40 | " hello" slugifies to "-hello": the leading space survives as a hyphen. |
| Slugify.SlugifyIdempotent | slugify/slugify.go:17-23 | If the tables leave ASCII alone, slugifying a slug gives it back. |
| Slugify.SlugifyTitle | slugify/slugify.go:17-40 | A title of ASCII words separated by gaps slugifies to the lower-cased words joined by single hyphens. A gap is punctuation and separators, with at least one separator. |
| Slugify.SlugifyConferenceTitle | slugify/slugify_test.go:14-17 | The first case of the slugify test gives "carl-meyer-about-django-instagram-at-django-under-the-hood-2016". |
| Slugify.SlugifySessionTitle | index/indexing_test.go:66-69 | "Some title" slugifies to "some-title". |
| Timestamps.ZeroIsFirstOfJanuaryYearOne | index/data.go:82-96 | The zero instant left for an unreadable `Recorded` is 0001-01-01 00:00:00 UTC, Go's zero time. |
| Timestamps.YearLengthIsDaysBetween | index/data.go:84-91 | The day count before each year grows by exactly that year's length, leap years included. |
| Timestamps.CivilSecondsOrdered | index/data.go:84-91 | An earlier valid civil time is a strictly earlier instant. |
| Timestamps.CivilSecondsInjective | index/data.go:84-91 | Two valid civil times give the same instant only when they are equal. |
| Timestamps.FirstMatchSound | index/data.go:84-91 | An instant that is found comes from some layout, and every layout before that one fails to read the text. |
| Timestamps.FirstMatchComplete | index/data.go:84-91 | A layout that reads the text, after all earlier layouts failed, decides the instant; later layouts are not consulted. |
| Timestamps.FirstMatchNone | index/data.go:84-91 | No instant is found exactly when every layout fails, in both directions. |
| Timestamps.FirstOffsetComplete | index/data.go:84-95 | The zone the text is formatted in comes from the same layout that gives the instant: the first one that reads the text. |
| Timestamps.FirstOffsetNone | index/data.go:92-95 | When no layout reads the text, the zone is UTC, the zone of the zero time. |
| Timestamps.DateOnlyRoundTrip | index/data.go:11 | "2006-01-02" reads back what it writes, at midnight UTC. |
| Timestamps.DateTimeRoundTrip | index/data.go:11 | "2006-01-02T15:04:05" reads back what it writes, in UTC. |
| Timestamps.RFC3339UtcRoundTrip | index/data.go:11 | RFC 3339 text with the zone `Z` reads back as the same instant. |
| Timestamps.RFC3339OffsetRoundTrip | index/data.go:11 | RFC 3339 text with a numeric zone reads back as the civil time less the offset, and the zone read is that offset. |
| Timestamps.DateOnlyTextIsReadByThirdLayout | index/data.go:11 | A date-only text fails RFC 3339 and the date-time layout, and the third layout reads it in UTC. |
| Timestamps.DateTimeTextIsReadBySecondLayout | index/data.go:11 | A date and time without zone fails RFC 3339, and the second layout reads it in UTC. |
| Timestamps.RFC3339TextIsReadByFirstLayout | index/data.go:11 | A text with a zone is read by the first layout, which applies its offset and keeps it as the zone. |
| Timestamps.RecordedDateOnlyCase | index/data_test.go:34-38 | "2016-02-05" is read as 2016-02-05 00:00:00, in UTC. |
| Timestamps.RecordedDateTimeCase | index/data_test.go:39-43 | "2016-02-05T18:30:00" is read as 2016-02-05 18:30:00, in UTC. |
| Timestamps.RecordedZoneCase | index/data_test.go:44-48 | "2016-02-05T18:30:00+01:00" is read as 17:30 UTC, an hour earlier, in the zone +01:00. |
| IndexData.NewIndexedSession | index/data.go:62-99 | The speaker loop and the layout loop build exactly the document `IndexedSessionOf` describes. |
| IndexData.SpeakerNamesKept | index/data.go:63-70 | The document lists the session's speakers by name, in order and all of them. |
| IndexData.SpeakerSlugs | index/data.go:63-70 | Each speaker entry carries the slug of its own name, and that slug has a slug's shape. |
| IndexData.SessionURLInjective | index/data.go:76 | Two sessions share a URL only when both collection slugs and both session slugs agree, given collection slugs without `/`. |
| IndexData.CollectionURLInjective | index/data.go:78 | Different collections never share a collection URL. |
| IndexData.DocumentFields | index/data.go:72-80 | Title, description, thumbnail and collection title are copied. The two URLs are formed from the slugs. The speaker names are the session's. The type is "session". |
| IndexData.EmptyRecorded | index/data.go:82 | An empty `Recorded` leaves the zero time and no formatted text. |
| IndexData.UnreadableRecorded | index/data.go:92-95 | A `Recorded` that no layout reads is not an error: the zero time stays, and its formatted text is that of the zero time in UTC. |
| IndexData.FirstReadingLayoutWins | index/data.go:84-95 | The first layout that reads `Recorded` gives the instant, and the formatted text is that instant in the zone that layout read. |
| IndexData.NewIndexedSessionCase | index/data_test.go:9-24 | The session "my-session" of collection "conf" keeps its title and gets the URL "/conf/my-session.html". |
| IndexData.RecordedZoneDocument | index/data_test.go:44-61 | The document of a session recorded "2016-02-05T18:30:00+01:00" holds 17:30 UTC and formats it in the zone +01:00. |
| IndexData.RecordedDateOnlyDocument | index/data_test.go:34-61 | The document of a session recorded "2016-02-05" holds midnight UTC of that day and formats it in UTC. |
| IndexData.RecordedDateTimeDocument | index/data_test.go:39-61 | The document of a session recorded "2016-02-05T18:30:00" holds 18:30 UTC and formats it in UTC. |
| LegacyData.AgreesWithCurrent | data.go:37-46 | The earlier document agrees with the current one on title, description, URL and type. Its collection is the current collection title, and its speakers are the names of the current speaker entries. |
| LegacyData.LegacyDocumentFields | data.go:37-46 | The earlier document copies title, description, collection title and speakers, and its type is "session". Given a collection slug without `/`, both slugs can be read back out of its URL. |
| LegacyData.NewIndexedSessionCase | data_test.go:5-20 | The earlier document also copies the title and gives "/conf/my-session.html". |
| FileSystem.Disk.RemoveAll | index/indexing.go:82-84 | The disk afterwards is `Removed` of the disk before. |
| FileSystem.Disk.WriteFile | index/indexing.go:382-390 | The write succeeds exactly when `Written` does, and then the disk is its result. On failure the disk is unchanged. |
| FileSystem.Disk.MkdirAll | index/indexing.go:160-162 | The call succeeds exactly when `MadeDirs` does, and the disk is its result. On failure the disk is unchanged. |
| FileSystem.Disk.CreateStore | index/indexing.go:124-127 | `bleve.New`, as the model takes it: it succeeds exactly when p's parent is a directory and nothing is at p yet, and then adds an empty index at p. Otherwise nothing changes. |
| FileSystem.Disk.SaveDocs | index/indexing.go:124-130 | The index made at p afterwards holds exactly the documents the fill put into it. Nothing else on disk changes, and a path that holds no index is left alone. |
| FileSystem.BaseOfJoin | index/indexing.go:202 | `filepath.Base` reads back the name `filepath.Join` appended. |
| FileSystem.RemovedSubtree | index/indexing.go:30-35 | `os.RemoveAll` takes away exactly the subtree at p. Everything else stays as it was, except that p's parent no longer lists p. |
| FileSystem.RemoveAllIdempotent | index/indexing.go:30-35 | Removing twice is removing once. |
| FileSystem.WriteThenRead | index/indexing.go:382-390 | What a successful write stores is what a read returns. |
| FileSystem.WriteLeavesOthers | index/indexing.go:382-390 | A write changes nothing but its own file and its parent's listing. |
| FileSystem.MadeDirsMakesPath | index/indexing.go:160-162 | After `MkdirAll`, every prefix of the path is a directory, and nothing that existed has gone. |
| FileSystem.MadeDirsOnlyAlongPath | index/indexing.go:160-162 | `MkdirAll` adds nodes only along the path. |
| FileSystem.RemovedSibling | index/indexing.go:82-84 | Removing one index directory leaves the other entries of the index root as they were. |
| Indexing.ParseCollection | index/indexing.go:189-232 | The entry-by-entry loop returns exactly `CollectionOf`: the collection, or the first error or cancellation. |
| Indexing.ParseSession | index/indexing.go:234-248 | It succeeds exactly when the path is a file that decodes; a missing file is an open error. A parsed session is the decoded one except for its slug. An explicit slug is kept; an empty one becomes the title's slug, which has a slug's shape. |
| Indexing.ParseSessionCase | index/indexing_test.go:56-70 | The test's session file, titled "Some title" without a slug, parses with the slug "some-title". |
| Indexing.SessionsOfJsonEntries | index/indexing.go:214-229 | On success there is one session per `.json` entry, in listing order, each as `parseSession` reads it. Other entries are passed over. |
| Indexing.SessionsFromOk | index/indexing.go:214-229 | The sessions come through exactly when no entry finds the context done and every `.json` entry parses. There is no partial result. |
| Indexing.FirstFailureWins | index/indexing.go:214-229 | The first failing entry decides the error: "Canceled" if the context is done by then, otherwise that session file's error. |
| Indexing.CollectionSlugIsFolderName | index/indexing.go:193-202 | A collection's slug is its folder's name, whatever `category.json` says. Its title is the one decoded from `category.json`. |
| Indexing.CollectionSessions | index/indexing.go:204-231 | A collection's sessions are those of the `.json` entries of its `videos` folder, in order. |
| Indexing.Engine.Batch | index/indexing.go:327 | Applying a batch is applying its puts in order. |
| Indexing.IndexCollection | index/indexing.go:322-327 | One collection adds its batch: one put per session, under the session's id. |
| Indexing.PutAllKeys | index/indexing.go:322-327 | A batch adds exactly its ids to the index. |
| Indexing.PutAllLastWins | index/indexing.go:322-327 | The last put under an id decides that id's document. |
| Indexing.PutAllKeeps | index/indexing.go:322-327 | Puts under other ids leave a document alone. |
| Indexing.BatchIds | index/indexing.go:323-325 | A collection's batch ids are its sessions' ids. |
| Indexing.CollectionDocuments | index/indexing.go:322-327 | A collection adds one document per distinct session slug. Sessions that share a slug keep the document of the last of them. |
| Indexing.LastSessionWins | index/indexing.go:323-325 | The last session with a given slug is the one stored under that id. |
| Indexing.DocKeyInjective | index/indexing.go:324 | Two ids agree only for the same collection and session slugs, given collection slugs without `:`. |
| Indexing.DocKeySameCollection | index/indexing.go:324 | Within one collection, different session slugs give different ids. |
| Indexing.DocKeyParts | index/indexing.go:324 | The collection slug and the session slug can be read back out of an id. |
| Indexing.DocKeyCollision | index/indexing.go:324 | With a `:` in a folder name, two different sessions share an id. |
| Indexing.FillIndex | index/indexing.go:250-347 | The folder loop and the indexing loop return exactly `Filled`'s error and leave the index holding `Filled`'s documents. |
| Indexing.NoCollectionWalk | index/indexing.go:280-287 | Folders that are all hidden or without `category.json` yield no collection and no error. |
| Indexing.NoCollectionFolders | index/indexing.go:280-287 | Hidden folders, and folders without `category.json`, are passed over: the index is untouched and there is no error. |
| Indexing.CollectionsOfFolders | index/indexing.go:278-303 | On success there is one collection per collection folder, in listing order, each as `parseCollection` reads it. |
| Indexing.FirstFailingFolder | index/indexing.go:288-300 | A failed walk carries the error of a collection folder that fails to parse, and every collection folder before it parses. |
| Indexing.FillErrorIsFolders | index/indexing.go:272-303 | A failed fill happened without the context being done in the folder loop. Its error is that of a folder that is not hidden, has a `category.json` and fails to parse, and the index is untouched. |
| Indexing.FolderErrorFailsWalk | index/indexing.go:288-300 | A collection folder that fails to parse makes the walk fail. |
| Indexing.FolderErrorFailsFill | index/indexing.go:288-300 | Unless the context is done in the folder loop, any such failing folder makes the whole fill fail and leaves the index untouched. |
| Indexing.IndexAllKeys | index/indexing.go:305-334 | Indexing collections adds exactly the ids of their sessions to the index. |
| Indexing.FillKeepsKeys | index/indexing.go:272-277 | The fill never removes a document. A context done during the folder loop leaves the index as it was and returns no error. |
| Indexing.FillIndexesEverySession | index/indexing.go:278-334 | A fill that succeeds without a done context holds a document for every session of every collection folder, under that session's id. |
| Indexing.CancelledFillReportsSuccess | index/indexing.go:272-277 | A context done at the first folder ends the fill with no error and nothing indexed, although a collection folder was there to index. |
| Indexing.SameFileSameSlug | index/indexing.go:244-246 | Session files with the same text and no slug all get the same derived slug. |
| Indexing.OneFolderFill | index/indexing.go:250-347 | A root with one collection folder fills the index with that collection's batch and returns no error. |
| Indexing.TwinSessionsOneDocument | index/indexing.go:322-327 | Two equal sessions make one document. |
| Indexing.ConferenceFolder | index/indexing_test.go:83-97 | The test's conference folder parses into a collection of two equal sessions. |
| Indexing.FillIndexCase | index/indexing_test.go:26-39 | The test's data folder fills without error and gives exactly one document. |
| Indexing.BrokenCategoryCase | index/indexing_test.go:44-54 | A `category.json` that does not decode makes the fill fail. |
| Indexing.FirstDirectory | index/indexing.go:105-110 | It finds the first listed entry that is a directory, or reports that there is none. |
| Indexing.FindIndex | index/indexing.go:92-111 | The loop over the root's entries returns exactly `FoundIndex`. |
| Indexing.FoundIndexIsFirstDirectory | index/indexing.go:92-111 | What is found is a directory directly under the root, listed before every other directory there. Nothing is found exactly when the root is missing or lists no directory. |
| Indexing.StateRoundTrip | index/indexing.go:368-390 | A state written with a faithful codec reads back. |
| Indexing.Index.Destroy | index/indexing.go:30-35 | An index without a path removes nothing. Otherwise exactly its subtree goes. |
| Lifecycle.CreateNewIndex | index/indexing.go:117-135 | The call succeeds exactly when `Created` does, with the index at p. The disk is `Created`'s. |
| Lifecycle.CreatedFrame | index/indexing.go:117-135 | createNewIndex adds only the index at p, which holds what the fill put in even when the fill fails. It succeeds exactly when the index can be made and the fill returns no error. |
| Lifecycle.StateStillWritable | index/indexing.go:75-81 | After a new index is made beside a readable `.state`, `.state` can still be written. |
| Lifecycle.Watcher.Step | index/indexing.go:42-88 | One pass's outcome, disk and handed-over index are exactly `PassOf`'s. |
| Lifecycle.Watcher.Rebuild | index/indexing.go:72-86 | The rebuilding part of a pass leaves exactly what `Rebuilt` describes. |
| Lifecycle.Watcher.Watch | index/indexing.go:41-90 | The loop's outcome, disk and handed-over indexes are exactly `Run`'s over the given passes. |
| Lifecycle.PassFailsEarly | index/indexing.go:51-70 | A failed pull, an unreadable HEAD, a missing or unreadable `.state`, or a failing `findIndex` ends the watcher. Nothing is changed and nothing is handed over. |
| Lifecycle.RebuildIffRefDiffers | index/indexing.go:72-86 | An equal revision changes nothing. An index is handed over exactly when the revisions differ, the build succeeds and `.state` is written. |
| Lifecycle.StateIsNoIndex | index/indexing.go:67-72 | The index that is found sits directly under the index root and is not `.state`. |
| Lifecycle.PassPublishes | index/indexing.go:72-85 | When an index is handed over, `.state` already records the new revision and directory, and the new index is on disk. The old index is gone exactly when deleting was asked for. |
| Lifecycle.CancelledRebuildPublishesEmptyIndex | index/indexing.go:72-85 | A rebuild whose context is done at the first data folder hands over an empty index and records it in `.state`, although the data folder was not looked at. |
| Lifecycle.RebuildPublishes | index/indexing.go:74-85 | The same, for the rebuilding part of a pass. |
| Lifecycle.FailedStateWriteKeepsOld | index/indexing.go:382-390 | A failed `.state` write (called at line 79) ends the watcher with that error, hands nothing over and keeps the old index. If the open fails, `.state` is unchanged. If the encoder fails after the truncating open, `.state` holds only the part of the new state it wrote. |
| Lifecycle.TruncatedStateEndsNextWatch | index/indexing.go:368-380 | After the encoder fails and leaves `.state` holding text that does not decode, `.state` is unreadable, and the next pass fails at once (line 60), changing nothing and handing nothing over. |
| Lifecycle.QuietPassKeeps | index/indexing.go:72-86 | A pass that hands nothing over keeps every entry of the index root and leaves it as it was. The one exception is `.state`, when the pass got as far as writing it (the revisions differed and the new index was built) and the encoder failed after the truncating open. |
| Lifecycle.QuietRebuildKeeps | index/indexing.go:74-81 | The same, for the rebuilding part of a pass: `.state` is kept unless the new index was built and the encoder then failed writing `.state`. |
| Lifecycle.PassKeepsRecorded | index/indexing.go:72-86 | Every pass keeps the watcher's invariant, unless it reached the writing of `.state` and the encoder failed there. A pass that fails earlier, or whose rebuild fails before that write, keeps it. The invariant: the index handed over last is the one `.state` records, and it is on disk. |
| Lifecycle.RunKeepsRecorded | index/indexing.go:41-90 | The invariant holds at the end of any run of passes, unless the pass that ended the run reached the writing of `.state` and the encoder failed there. |
| Lifecycle.LoadIndex | index/indexing.go:140-187 | The call returns the index `Loaded` names, or fails exactly when `Loaded` does, and the disk is `Loaded`'s. |
| Lifecycle.LoadOpensFound | index/indexing.go:145-152 | Without a forced rebuild, a found index is opened. The disk is not touched, `.state` is not consulted, and the first directory under the index root is served. |
| Lifecycle.LoadBuildsNew | index/indexing.go:154-176 | A forced rebuild, or a missing index, builds the index at the fresh name. On success `.state` records it with the data revision. |
| Lifecycle.RebuildDeletesFirst | index/indexing.go:154-168 | With `deleteOld`, a forced rebuild removes the old index first, so a failed build leaves no index where the old one was. |

## Left out

- The transliteration tables of go-unidecode and the NFKD tables of golang.org/x/text are not part of this model. They are parameters (`Slugify.Tables`), so the non-ASCII cases of slugify/slugify_test.go:18-33 are not stated.
- `strings.ToLower` is modelled on ASCII runes only; other runes are left as they are.
- The case at index/indexing_test.go:73-80 is not stated as the test writes it. It expects " hello" to slugify to "hello", but slugify/slugify.go:38 trims only a trailing "-", so the code as written gives "-hello". The model follows the code, and `Slugify.SlugifyLeadingSpace` states what it gives.
- Indexing.FillIndex: the goroutines of `fillIndex` become one sequential loop in listing order that stops at the first failing collection. The collection workers run under a background context, as `subContext` is. When a collection fails, the model applies no batch and reports the first failing folder's error. In Go the order of the workers is not fixed, so batches of other collections may already be applied and another failing folder's error may be reported. That interleaving is not modelled.
- Indexing.FillIndex: the error a failing collection folder reports is not wrapped with "Failed to load the collection data in" and its path.
- Indexing.Engine.Batch: the error `idx.Batch` returns, which the source ignores, is not modelled. bleve's mapping, analysis, search and `Close` are out of scope.
- `time.Time.Format` with "Mon Jan 2 2006" is a parameter (`IndexData.Formatter`), because it needs Go's weekday and month names. It takes the instant and the zone offset the text was read in, since Go formats a parsed time in that zone.
- Sub-second precision is not kept: a fraction after the seconds is accepted and dropped, and instants are whole seconds.
- Go's fast path for RFC 3339 is not modelled. `IndexData.IndexedSession.recorded` keeps only the instant, because bleve indexes a date as an instant and does not store its zone. The zone offset read from `Recorded` is kept for `recordedFormatted`; zone names are not.
- encoding/json is a parameter (`Indexing.Codec`). A state written and read back by it is assumed to round-trip only where a lemma requires it.
- `git pull`, `git rev-parse HEAD`, the uuid of a new index, `time.Sleep` and the channel the watcher sends on are inputs (`Lifecycle.Upstream`, `newName`, `ref`). A sent index is recorded in `Watcher.published`.
- Logging is not modelled, nor `LoadIndex`'s deferred log line.
- The HTTP server and the command line are outside the indexing core.
- Error texts are fixed strings without paths or `errors.Wrap` prefixes. Only whether an error occurs, and which step it comes from, is modelled.
- FileSystem.Disk.RemoveAll: errors of `os.RemoveAll` are not modelled. The disk model gives it no reason to fail, so the error branch at index/indexing.go:156-158 cannot occur.
- FileSystem.Disk.WriteFile: failures of the operating system that the disk model does not track, such as permissions or a full disk, are not modelled in the disk. For the watcher's `.state` write they are an input (`Lifecycle.StateWrite`). Either the open fails and `.state` is left alone, or the truncating open succeeds and the encoder fails after writing part of the encoding. Lifecycle.LoadIndex: its `.state` write fails only where the disk model says so.
- Lifecycle.PassKeepsRecorded: the watcher's invariant is not promised after a pass that reached the writing of `.state` and whose encoder failed there (`Lifecycle.PassTruncates`). The truncating open at index/indexing.go:384 has by then replaced the recorded state with a part of the new one.
- FileSystem.Disk.CreateStore: the model asks for an existing parent directory and a fresh name. `bleve.New` itself also makes missing parents and accepts an existing directory that holds no index yet; these paths are not modelled. `Lifecycle.CanCreate` states the model's condition.
- FileSystem.Listed: a new entry is listed after the existing ones. The order in which `Readdir` lists entries belongs to the file system and is not modelled otherwise.
- The files bleve keeps inside an index directory are not modelled: an index is seen through its documents, and `bleve.Open` is a check that the directory holds an index.
- `filepath.Clean` is not modelled: paths are lists of names, and `Join` appends a plain name.
- Lifecycle.LoadIndex: `getRepoState` and `newIndexName` are inputs. The first failure among the steps decides the error, as in the source.
