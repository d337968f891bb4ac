# cradle-robbing core, modelled in Dafny

This project models the three pieces of the cradle-robbing backend that
hold real logic:

- **Table replication** (`PandasGBQSync`). A warehouse table is copied
  into a Postgres schema. `sync_table` counts the rows. It then skips an
  empty table, or copies a small table in one fetch and one write, or
  copies a large table window by window (`LIMIT c OFFSET offset`). After
  a single-shot copy it creates indexes on columns whose names look like
  identifiers or dates. After a windowed copy the index step reads `df`,
  which only the single-shot branch assigns, so a large-table sync always
  ends in an error once its windows are written. Every failure becomes an
  error result. `sync_dataset` runs
  this for each listed table that is not excluded. `analyze_table` maps
  its catalog reads to a result or an error.
- **Response cache** (`CacheManager`):
  - a cache key is built from an operation's name and arguments;
  - tables are stored under a tagged encoding;
  - the `cache_response` wrapper reads the store, drops entries it cannot
    decode, runs the operation on a miss and stores the value with a
    lifetime. A fault in building the key, reading or deleting, or in the
    operation itself, reaches an outer handler that runs the operation (for
    the first time, or a second time when the operation raised). Decode,
    encode and store-write faults are swallowed.
- **Query helpers** (`QueryProcessor`): `qualify_table_references` turns
  backtick-quoted two-part names into three-part names with the project
  id, except a name whose first part already is the project id, which
  stays as it is. `generate_alias` derives a short alias from a table name.

Modules:

| module | file | contents |
|---|---|---|
| `Common` | `common.dfy` | `Option` and `Result` |
| `Text` | `text.dfy` | lower-casing, substring search, split/join, integer printing |
| `Sorting` | `sorting.dfy` | string order; sorting `(name, value)` items by name, as `sorted(dict.items())` does |
| `Json` | `json.dfy` | the `json.dumps(…, sort_keys=True)` rendering the key builder uses |
| `QueryProcessor` | `query_processor.dfy` | the scanner behind `re.sub`, the rewrite, and the alias |
| `CacheManager` | `cache_manager.dfy` | encoding and decoding; keys; the wrapper as a specification function, and the class `Cache` whose store is a `map` |
| `SyncManager` | `sync_manager.dfy` | the class `PandasGbqSync` and the specification functions its methods are proved against |

`PandasGbqSync` keeps `trace`, the list of every request it has made to
the warehouse or to Postgres. The requests are: count, fetch all, fetch
a window, write, read the catalog, create an index, and list the
tables. The environment `Env` gives:

- the row count of each table;
- its columns;
- the table listing;
- for every request, the error it raises, if any. A write names the offset
  of the rows it carries, so the writes of two windows are different
  requests and can fail independently.

Each method is proved to append exactly the requests of a specification
function (`SyncTableRun`, `ChunkLoop`, `SingleShotRun`, `IndexRun`,
`SyncDatasetRun`) and to return that function's result. The lemmas state
what the source promises about those functions.

`Cache` keeps the store as a `map` from key to entry (bytes and
lifetime). It also counts the invocations of wrapped operations. A
`Faults` value says which store calls raise: before or after they take
effect. Two outcomes are given for the operation, one for its first
invocation and one for its second. `CacheResponse` is proved to leave
the store, the count and the returned outcome that the function `Wrapper`
gives.

## Model

| member | source | states |
|---|---|---|
| `SyncManager.PandasGbqSync.SyncTable` | backend/app/core/sync_manager.py:19-105 | The requests made and the result returned are those of `SyncTableRun`: the count, then nothing for an empty table; the window loop and then an error for a table larger than the chunk size; or one fetch, one write and the index pass. Every raised error becomes an error result carrying its message. |
| `SyncManager.PandasGbqSync.TransferChunks` | backend/app/core/sync_manager.py:55-77 | The requests appended are those of the chunk loop over offsets 0, c, 2c, … below the total. The loop stops at the first request that raises, and that request's error is returned. |
| `SyncManager.PandasGbqSync.TransferWindow` | backend/app/core/sync_manager.py:58-77 | One pass fetches `c` rows at the offset, then writes them. It uses the caller's mode at offset 0 and append after that. It stops at whichever request raises. |
| `SyncManager.PandasGbqSync.TransferAll` | backend/app/core/sync_manager.py:78-98 | The single-shot branch fetches the whole table, writes it with the caller's mode, and runs the index pass. It succeeds with the counted rows, or fails with the first error raised. |
| `SyncManager.PandasGbqSync.CreateIndices` | backend/app/core/sync_manager.py:107-134 | It reads the catalog; an error there ends the pass and is returned. Then it issues one index statement per hinted column, in column order, and ignores statements that raise. |
| `SyncManager.PandasGbqSync.SyncDataset` | backend/app/core/sync_manager.py:136-174 | It lists the tables, then syncs each table not excluded, in listing order, with the default chunk size and mode. It returns one outcome per synced table. A failed listing gives the error result. |
| `SyncManager.Chunks` | backend/app/core/sync_manager.py:56-77 | The windows the loop visits: one per offset `offset, offset + c, …` below the total, each holding `min(c, total - offset)` rows and writing with the caller's mode only at offset 0. Its properties are the lemmas below. |
| `SyncManager.ChunksBounded` | backend/app/core/sync_manager.py:56-77 | No window is empty or wider than the chunk size. Only the window at offset 0 writes with the caller's mode; every later one appends. |
| `SyncManager.ChunksTile` | backend/app/core/sync_manager.py:56-77 | The first window starts at the first offset, each window starts where the previous one ends, and the last one ends at the total. |
| `SyncManager.ChunksOrdered` | backend/app/core/sync_manager.py:56-77 | Every window ends before any later window starts: no row is fetched twice, and the writes go in increasing offset order. |
| `SyncManager.ChunkOffsets` | backend/app/core/sync_manager.py:56-77 | The k-th window starts at `offset + k*c`. |
| `SyncManager.ChunkCount` | backend/app/core/sync_manager.py:55-77 | The number of windows `n` satisfies `(n-1)*c < total - offset <= n*c`, and equals the ceiling `(total - offset + c - 1)/c`. |
| `SyncManager.ChunkSizesSum` | backend/app/core/sync_manager.py:55-77 | The windows hold exactly `total - offset` rows between them. |
| `SyncManager.ChunksCover` | backend/app/core/sync_manager.py:55-77 | Every row from the offset up to the total lies in some window: the windows leave no gap. |
| `SyncManager.ChunkLoopFollowsPlan` | backend/app/core/sync_manager.py:57-77 | The loop issues a prefix of the planned fetch/write pairs. When no error occurs, it issues all of them. |
| `SyncManager.ChunkLoopStops` | backend/app/core/sync_manager.py:57-77 | Every request but the last one succeeded. A loop that ends in error ends right after the request that raised it. |
| `SyncManager.UnfailingChunksComplete` | backend/app/core/sync_manager.py:57-77 | When none of the planned requests raises, the loop issues exactly the plan and ends without an error. |
| `SyncManager.IndexStatementsExact` | backend/app/core/sync_manager.py:116-132 | A column gets `idx_{dataset}_{table}_{col}` exactly when its lower-cased name contains `id`, `key`, `code`, `date` or `time`, once per occurrence of the column. Every statement belongs to such a column. |
| `SyncManager.IndexFaultsIgnored` | backend/app/core/sync_manager.py:116-134 | Two environments that agree on the catalog read give the same index pass, whichever index statements raise. |
| `SyncManager.UserIdIsHint` | backend/app/core/sync_manager.py:119-124 | `user_id` is indexed. |
| `SyncManager.CreatedDateIsHint` | backend/app/core/sync_manager.py:127-132 | `Created_Date` is indexed: the name test ignores case. |
| `SyncManager.NotHintWithoutLetters` | backend/app/core/sync_manager.py:119-127 | A name whose lower-cased form lacks the letters i, k, c and d is not indexed. |
| `SyncManager.AmountIsNotHint` | backend/app/core/sync_manager.py:119-127 | `amount` is not indexed. |
| `SyncManager.EmptyTableSkipsTransfer` | backend/app/core/sync_manager.py:43-52 | An empty table is reported as a success with 0 rows, and nothing but the count is requested. |
| `SyncManager.SmallTableSingleShot` | backend/app/core/sync_manager.py:55-98 | A table no larger than the chunk size gets one full fetch, one write with the caller's mode, the catalog read and its index statements. The success reports the counted rows. |
| `SyncManager.LargeTableChunked` | backend/app/core/sync_manager.py:55-105 | A table larger than the chunk size always ends in an error, and its requests are a prefix of the window plan. When nothing raises, every window was transferred and the error is the unbound-variable one from line 91. |
| `SyncManager.SyncSucceedsExactly` | backend/app/core/sync_manager.py:43-105 | A sync succeeds if and only if the count works and the table is empty, or fits one chunk with its fetch, write and catalog read working. A success reports the counted total. |
| `SyncManager.Included` | backend/app/core/sync_manager.py:153-155 | A table is attempted exactly when it is listed and not excluded. |
| `SyncManager.OutcomesFollowTables` | backend/app/core/sync_manager.py:153-160 | There is one outcome per included table, in listing order. Each outcome is that table's `sync_table` result. |
| `SyncManager.DatasetStatus` | backend/app/core/sync_manager.py:143-174 | A dataset sync fails if and only if the listing fails. Otherwise it succeeds whatever the tables' results, and `tables_synced` equals the number of results, one per included table. |
| `SyncManager.MissingExclusionsAreEmpty` | backend/app/core/sync_manager.py:143 | A missing exclusion list behaves as an empty one. |
| `SyncManager.AnalyzeTable` | backend/app/core/sync_manager.py:194-235 | The result is an analysis exactly when both catalog reads work and the statistics are not empty; it then holds the first statistics row and all the columns. An empty statistics result or a failed read gives an error. |
| `CacheManager.Serialize` | backend/app/core/cache_manager.py:26-36 | A table becomes a dictionary carrying the `dataframe` marker. Any other value is returned unchanged. |
| `CacheManager.Deserialize` | backend/app/core/cache_manager.py:38-47 | An unmarked value is returned unchanged. A marked one decodes, if at all, to a table. |
| `CacheManager.RowRoundTrip` | backend/app/core/cache_manager.py:31-45 | With distinct column names, reading a row's record back under its columns gives the row with missing cells as nulls. |
| `CacheManager.TableRoundTrip` | backend/app/core/cache_manager.py:26-47 | Decoding the encoding of a table with distinct columns gives back its columns, its index and its rows, with missing cells turned into nulls. |
| `CacheManager.PlainValueRoundTrip` | backend/app/core/cache_manager.py:36-47 | A value that is neither a table nor a marked dictionary survives encoding and decoding unchanged. |
| `CacheManager.TaggedDictionaryNotRestored` | backend/app/core/cache_manager.py:39-46 | A dictionary result that carries the marker never comes back as itself. |
| `CacheManager.Sanitize` | backend/app/core/cache_manager.py:51-58 | The text an argument adds to the key: a model's sorted-key JSON dump, the salted hash of a table's shape and column list, the JSON string of a container's `str()`, or any other value's `str()`. Its properties are `ModelFieldOrderIgnored`, `FrameContentIgnored` and `ContainerQuoted`. |
| `CacheManager.CreateCacheKey` | backend/app/core/cache_manager.py:49-69 | The key starts with the operation name followed by `:`. |
| `CacheManager.KeyFields` | backend/app/core/cache_manager.py:63-69 | When no part holds `:`, the key splits back into the name, the positional text and the keyword text. |
| `CacheManager.KeyForgetsKeywordOrder` | backend/app/core/cache_manager.py:61-66 | Passing the same keyword arguments in any order gives the same key. |
| `CacheManager.PositionalOrderMatters` | backend/app/core/cache_manager.py:60-65 | Positional arguments are kept in order: swapping two arguments whose texts differ and contain no `,` always gives another key. |
| `CacheManager.DistinctOperationsDistinctKeys` | backend/app/core/cache_manager.py:63-69 | Two operations whose names differ and contain no `:` never share a key. |
| `CacheManager.ModelFieldOrderIgnored` | backend/app/core/cache_manager.py:52-53 | A model argument enters the key as sorted-key JSON, so its field order does not show. |
| `CacheManager.FrameContentIgnored` | backend/app/core/cache_manager.py:54-55 | Two tables with the same row count and column names give the same key text, whatever their cells. |
| `CacheManager.ContainerQuoted` | backend/app/core/cache_manager.py:56-57 | A dict, list or set enters the key as the JSON string of its text: quoted and pure printable ASCII. |
| `CacheManager.HitSkipsOperation` | backend/app/core/cache_manager.py:81-86 | A truthy stored entry that decodes is returned decoded. The operation does not run and the store is unchanged. |
| `CacheManager.CorruptEntryActsAsMiss` | backend/app/core/cache_manager.py:87-92 | A stored entry that does not decode is deleted. The call then behaves exactly as on the store without it. |
| `CacheManager.MissRunsOnce` | backend/app/core/cache_manager.py:92-101 | On a miss the operation runs once and its value is returned. The value is stored under the key with the lifetime, unless encoding fails, `setex` raises first, or the lifetime is not positive. |
| `CacheManager.FailingOperationRunsTwice` | backend/app/core/cache_manager.py:92-104 | When the operation raises, the outer handler runs it again and the second outcome, value or error, reaches the caller. Nothing is stored. |
| `CacheManager.ReadFaultBypassesCache` | backend/app/core/cache_manager.py:79-104 | A fault while building the key or reading the store runs the operation once, stores nothing and returns its outcome. |
| `CacheManager.InvocationsBounded` | backend/app/core/cache_manager.py:76-104 | The operation runs at most twice, and it runs zero times exactly on a decoded hit. |
| `CacheManager.OtherKeysUntouched` | backend/app/core/cache_manager.py:89-97 | Entries under other keys are left exactly as they were. |
| `CacheManager.RepeatedCallServedFromStore` | backend/app/core/cache_manager.py:81-97 | After a miss stores a value, the same call is answered from the store without running the operation. The answer is the value as decoding restores it. |
| `CacheManager.Cache.constructor` | backend/app/core/cache_manager.py:12-24 | A new cache has the given lifetime (300 by default). It is attached to a keyspace whose existing entries it keeps, and it has run nothing. |
| `CacheManager.Cache.StoredLifetime` | backend/app/core/cache_manager.py:72-97 | A miss that stores its value stores it with the lifetime the decorator was given, or else with the cache's own lifetime. |
| `CacheManager.Cache.CacheResponse` | backend/app/core/cache_manager.py:71-109 | The store, the invocation count and the outcome after a wrapped call are those `Wrapper` gives for the old store and the lifetime `TtlFor` chooses. |
| `CacheManager.Cache.Lookup` | backend/app/core/cache_manager.py:81-101 | The path after the key is built (read, decode or delete, compute) leaves the store, count and outcome that `Respond` gives. |
| `CacheManager.Cache.RunAndStore` | backend/app/core/cache_manager.py:92-101 | The miss path leaves the store, count and outcome that `Compute` gives. |
| `QueryProcessor.MatchAt` | backend/app/core/query_processor.py:41 | One attempt of the pattern at the start of a text. A match consumes at least five characters (two backticks, a dot and two non-empty parts) and never more than the text. |
| `QueryProcessor.Rewrite` | backend/app/core/query_processor.py:43-47 | The callback on one match. What it does to a match is stated by `RewriteCases`. |
| `QueryProcessor.Qualify` | backend/app/core/query_processor.py:49 | The `re.sub` scan: after a match it resumes past the match, otherwise it copies one character. Its properties are `QualifyAtReference`, `QualifyCopiesPlainText`, `QualifyNoBacktick`, `QualifyOwnedUnchanged` and `QualifyThreePart`. |
| `QueryProcessor.MatchAtSound` | backend/app/core/query_processor.py:41 | Whatever the scanner matches is a backtick-quoted name with two non-empty parts free of `.` and backticks. |
| `QueryProcessor.MatchAtComplete` | backend/app/core/query_processor.py:41 | Every such two-part reference is matched with its own parts and its whole length. |
| `QueryProcessor.ThreePartNotMatched` | backend/app/core/query_processor.py:41 | A quoted three-part name is never matched where it starts. |
| `QueryProcessor.DotTestAlwaysHolds` | backend/app/core/query_processor.py:41-45 | The `"." in table_ref` test holds for every match. |
| `QueryProcessor.StartsWithProjectIff` | backend/app/core/query_processor.py:45 | A matched `a.b` starts with the project id and a dot exactly when `a` is the project id. |
| `QueryProcessor.RewriteCases` | backend/app/core/query_processor.py:43-47 | A matched reference in the project's dataset is left as it is. Every other one becomes `` `project.a.b` ``. |
| `QueryProcessor.QualifyAtReference` | backend/app/core/query_processor.py:43-49 | A reference at the head of a query is rewritten, and the scan resumes right after its closing backtick. |
| `QueryProcessor.QualifyCopiesPlainText` | backend/app/core/query_processor.py:49 | Text without a backtick is copied verbatim. |
| `QueryProcessor.QualifyNoBacktick` | backend/app/core/query_processor.py:49 | A query without a backtick is returned unchanged. |
| `QueryProcessor.QualifyOwnedUnchanged` | backend/app/core/query_processor.py:41-49 | A query in which every position where the pattern matches (not only the positions the scan visits) names the project's dataset is returned unchanged, and so is a query with no match at all. |
| `QueryProcessor.QualifyThreePart` | backend/app/core/query_processor.py:41-49 | A quoted three-part name is copied unchanged, and the scan resumes at its closing backtick. |
| `QueryProcessor.GenerateAlias` | backend/app/core/query_processor.py:51-55 | The alias is never empty. It is no longer than the number of `_`-separated words of the last component. |
| `QueryProcessor.LongWordList` | backend/app/core/query_processor.py:54 | A word is in the list exactly when it is one of the words and is longer than two characters. |
| `QueryProcessor.InitialsAreFirstChars` | backend/app/core/query_processor.py:54 | The initials are, in order, the first characters of the words longer than two characters: the k-th initial starts the k-th such word. |
| `QueryProcessor.AliasShape` | backend/app/core/query_processor.py:53-55 | The alias is `t` when no word of the last component is longer than two characters. Otherwise its k-th character is the lower-cased first character of the k-th such word, and it has no other characters. |
| `QueryProcessor.AliasOfTwoLongWords` | backend/app/core/query_processor.py:53-55 | The alias of `abc_xyz` is `ax`. |
| `QueryProcessor.AliasSkipsShortWord` | backend/app/core/query_processor.py:53-55 | The alias of `ab_xyz` is `x`: a two-character word contributes nothing. |
| `QueryProcessor.AliasIgnoresQualifiers` | backend/app/core/query_processor.py:53 | Only the text after the last dot decides the alias. |
| `Sorting.SortForgetsOrder` | backend/app/core/cache_manager.py:61 | Sorting the items of two dicts with the same entries gives the same sequence, whatever their order. |
| `Json.DumpsForgetsMemberOrder` | backend/app/core/cache_manager.py:53 | The member order of an object does not show in its sorted-key JSON. |
| `Json.QuoteIsAscii` | backend/app/core/cache_manager.py:57 | A JSON-encoded string is printable ASCII only. |
| `Text.LastPartAfterSeparator` | backend/app/core/query_processor.py:53 | The last `.`-component of `x.y` is the last component of `y`. |

## Left out

- Clock readings (`datetime.now()` and the `duration` field) are not modelled. They are outside values that decide nothing.
- Request text is not modelled. The SQL and warehouse query strings of `sync_table`, `sync_dataset` and `_create_indices` become abstract requests that carry their parameters (dataset, table, limit, offset, mode, row count, index name and column).
- Reading rows is not modelled. A window write carries the number of rows its window holds. The warehouse's row order under `LIMIT`/`OFFSET` without `ORDER BY` is not modelled, so the proof that windows cover the table is about offsets, not about which rows come back.
- The engine's connection, `inspect` and `get_columns` are merged into one catalog-read request. Its failure ends the index pass, and the sync with it.
- `print` in `_create_indices` and in the cache wrapper is not modelled, because it only writes to the console.
- Transaction and commit behaviour of the DDL, and the effect of `to_sql` on existing tables, are not modelled. `if_exists` is a three-valued mode; a string outside `fail`/`replace`/`append` is not modelled.
- `SyncManager.LargeTableChunked`: the error message for the unbound `df` is a fixed constant. Its exact wording depends on the Python version.
- `get_sync_status`, `execute_query` and the SQL of `analyze_table` are not modelled: they pass queries through to Postgres or the warehouse. Only the error mapping of `analyze_table` is modelled, with the catalog reads as inputs.
- The Redis client is not modelled. The store is a map, and every store call is given a fault. A synchronous client whose results are awaited is the fault `FailsAfterEffect` (the call takes effect, then raises); for the read, that means the cache is never used.
- Redis expiry over time is not modelled. An entry keeps its lifetime but never expires in the model, because time is not modelled.
- The pickle byte format is not modelled. Stored bytes are either the pickle of a value or bytes that do not unpickle.
- Python's salted string `hash()` is a parameter of the key builder.
- The key's UTF-8 encoding is not modelled. The key is kept as text, since UTF-8 encoding is injective.
- `CacheManager.ColumnListText` renders `str(list(df.columns))` with every name between single quotes and its characters copied as they are. Python's `repr` is not modelled: its choice of double quotes for names that contain a single quote, and its escaping of backslashes and non-printable characters (a newline in a name prints as `\n`).
- Pandas is modelled only in part:
  - dtype inference is not modelled;
  - labels of non-string columns are not modelled;
  - cells are only nulls, missing values, integers, strings and booleans;
  - floats are not modelled.
- `CacheManager.Deserialize` decodes only the records form of `data` (a list of dictionaries, one per index label), which is the form `_serialize_dataframe` writes. Other shapes the table constructor accepts (a list of rows, a dictionary of columns, an empty `data` list under a non-empty index, which it fills with missing rows) give `None`, so such an entry is deleted and the value recomputed.
- `CacheManager.TableRoundTrip` requires distinct column names. With duplicate names a record keeps only the last column's value, and the round trip is not claimed.
- `Text.ToLower` folds ASCII letters only. Python's `str.lower` also folds other letters; this affects `_create_indices` and `generate_alias`.
- `json.dumps` is modelled only for the values a model's dump yields: null, booleans, integers, strings, lists and objects. Floats are not modelled.
- `convert_numpy_types`, `serialize_dataframe` and `execute_gbq_query` of the query processor are not modelled: they are type dispatch over numpy values, floats, and executor-offloaded I/O.
- The HTTP routes, the Postgres engine wrapper, the exploration CLI and configuration are not modelled. Of the request models, only the constraint that the chunk size is positive is used, as the precondition `chunksize > 0`.
- `async`/`await` and thread offloading are not modelled: the model is sequential.
