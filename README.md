# judumas-functions in Dafny

A model of the ingestion glue of the Vilnius mobility ("judumas") data functions:

- **Date ingestion.** The HTTP function `read_mobility_dates` and the one-off script `insert_date.main` number the rows of a dates CSV. Each row's `OBJECTID` is one above the routes-dates table's maximum plus its position. Each row then goes, in order, to the "check and add" operation of its travel mode. The HTTP function rejects an unknown travel type and stops at the first failure; the script always uses the drive operation, prints each failure and carries on.
- **Blob trigger.** `strava_zip_blob_trigger` queues an uploaded archive's name without its container.
- **Helpers.** The list and string helpers of `src/utils.py`: random row keys, the date strings of `get_time`, fixed-size chunks, the date-queue selection of `insert_dates`, the records of `zip_to_list`, and `convert_entities`.
- **ArcGIS.** The requests the ArcGIS REST connector sends, and `data_handler`'s feature list.
- **Azure Table and Queue.** The table operations the Azure Table handler builds, the keys `create_entity` stamps into a caller's dictionary, and the messages sent to a queue.
- **SQL heatmap.** The INSERT statement `update_heatmap` builds for a frame with a `Shape` geometry column, and the rows it binds to it: each row's cells in frame order, as `df.values.tolist()` gives them. Also the order of its delete and insert calls, and the corrected statement and row order beside the ones the code writes.

The modules follow the source files:

| file | source |
|---|---|
| `function_app.dfy` | `function_app.py` |
| `insert_date.dfy` | `src/insert_date.py` |
| `routes_dates.dfy` | the routes-dates store both of them call |
| `utils.dfy` | `src/utils.py` |
| `entity_conversion.dfy` | `convert_entities` from `src/utils.py`, kept apart because it calls the table handler |
| `arcgis.dfy` | `src/arcgis.py` |
| `azure_api.dfy` | `src/azure_api.py` |
| `connection.dfy` | `db/connection.py` |
| `base.dfy` | values, errors and Python's `str`/`int` on integers |
| `text.dfy` | the Python string operations used |

Code that updates things step by step is written as methods with loops. This covers the dispatch loops, the queue and table handlers, the connection object and the list-building loops of the helpers. Each such method is proved against a function that states its result.

## Model

| member | source | states |
|---|---|---|
| RoutesDates.ParseTravelType | function_app.py:75-84 | A mode is selected exactly by one of the four names `drive`, `bikes`, `public_transport`, `pedestrians`, compared exactly. Every mode's name selects that mode. A missing or other value selects none. |
| RoutesDates.StartId | function_app.py:54-59 | The batch starts at 0 when the table has no maximum. Otherwise it starts one above the maximum, so it is greater than every stored id. |
| RoutesDates.WithObjectIds | function_app.py:65 | Every row keeps its cells. Its `OBJECTID` is set to the start plus its 0-based position, and no row is added or lost. |
| RoutesDates.PlannedCalls | function_app.py:69-82 | One call per row, in order, with that row's `dates` and `OBJECTID` cells. A key absent from the record gives None, as `row.get` does. |
| RoutesDates.BatchCalls | function_app.py:54-82 | Row i is handled with its own `dates` cell and id StartId(max)+i. The ids increase strictly, so they are distinct, and all are above the stored maximum. |
| RoutesDates.FirstFailing | function_app.py:69-86 | The position of the first call in a range that raises, or the range's length when none does. No call before it raises. |
| RoutesDates.DateStore.GetMaxId | function_app.py:54 | `get_max_id` answers the table's maximum, None for an empty table, or its exception. |
| RoutesDates.DateStore.CheckAndAdd | function_app.py:76-82 | Every "check and add" call is logged with its mode, date and id. It raises exactly when its call number is one that fails. |
| FunctionApp.ReadMobilityDates | function_app.py:54-86 | If `get_max_id` raises, nothing is handled. An unknown travel type answers 400 with no store call, and 200 when there are no rows. Otherwise the mode's handler gets every row of BatchCalls in order, up to and including the first call that raises. That exception escapes, and 200 is answered only when no call raised. |
| FunctionApp.DispatchRows | function_app.py:69-86 | The same, for already-numbered rows: an unknown type makes no store call. |
| FunctionApp.DispatchMode | function_app.py:69-82 | The loop over the rows: calls are made in order and stop right after the first one that raises, whose exception is the result. Otherwise every call is made and the answer is 200. |
| FunctionApp.StripContainerDropsFirstSegment | function_app.py:19-22 | For a container without `/`, the queued name is exactly what follows the first `/`, with every later `/` kept. |
| FunctionApp.StripContainerWithoutSeparator | function_app.py:20-22 | A name without `/` gives the empty string. |
| FunctionApp.StripContainerRebuilds | function_app.py:19-22 | The container, a `/` and the queued name spell the trigger's name again. |
| FunctionApp.StripContainerExample | function_app.py:19-22 | `strava/a/b.zip` is queued as `a/b.zip`. |
| FunctionApp.StravaZipBlobTrigger | function_app.py:19-31 | Exactly one message is sent to the queue: the stripped name. |
| InsertDate.ImportDates | src/insert_date.py:21-39 | If `get_max_id` raises, nothing is handled. Otherwise every row goes, in file order, to the drive handler with its `dates` cell and id StartId(max)+i, one call per row whether earlier rows failed or not. The output is one printed line per failing call, in order. |
| InsertDate.ImportRows | src/insert_date.py:31-39 | The loop: one drive call per row, in order. An exception is printed and the loop continues. |
| InsertDate.FailuresSpec | src/insert_date.py:36-39 | At most one line per call. Nothing is printed if and only if no call fails, and every failing call's message is printed. |
| InsertDate.FailuresSplit | src/insert_date.py:31-39 | The lines of a run are those of its first part followed by those of the rest. |
| Utils.CreateRandom | src/utils.py:28 | `len_str` characters (none for a negative length), each an upper-case letter or a digit. |
| Utils.AlphabetSpelled | src/utils.py:28 | The alphabet is `ascii_uppercase + digits`. |
| Utils.CreateRandomReachesEveryString | src/utils.py:28 | Every string of upper-case letters and digits is a possible result. |
| Utils.GetTime | src/utils.py:47-56 | The hour slot is "08" if and only if the hour is below 11, and "15" if and only if it is 11 or later. `date_query` has 8 characters. |
| Utils.GetTimeDates | src/utils.py:48-50 | `yyyymmdd` is eight decimal digits. They read back as the year, month and day of the given instant. `yyyy-mm-dd` holds the same digits with dashes, and the timestamp starts with it. |
| Utils.GetTimeDigits | src/utils.py:48 | Every character of `yyyymmdd` is a decimal digit. |
| Utils.PadReadsBack | src/utils.py:48-50 | A zero-padded field below 10^width reads back as its number. |
| Utils.CreateChunks | src/utils.py:59-74 | Size 0 raises ZeroDivisionError, and only size 0 does. |
| Utils.ChunkCount | src/utils.py:73 | For a positive size the comprehension's range is ceil(len/n), and 0 exactly for empty data. |
| Utils.ChunkAt | src/utils.py:73 | Chunk i is the run of n elements from i*n, cut at the end of the data, and is never empty. |
| Utils.ChunksOfPositiveSize | src/utils.py:73 | The chunks concatenate to the data. All but the last have exactly n elements and the last has 1 to n. There are ceil(len/n) of them, and empty data gives none. |
| Utils.CollectInsertKeys | src/utils.py:100-106 | One key per insert message, in order: its content before the first `_`. |
| Utils.CollectDateEntries | src/utils.py:109-117 | One entry per date message, in order: its id and its content with every `/` removed. |
| Utils.PendingDatesMembers | src/utils.py:122-127 | An entry is selected if and only if it is a date entry whose date is not an insert key. The selection is never longer than the entries. |
| Utils.PendingDatesAppend | src/utils.py:123-125 | One more entry is appended to the selection exactly when its date is not an insert key. |
| Utils.PendingDatesAsWritten | src/utils.py:122-127 | As written, the loop finishes only with no date entries; any entry raises TypeError. |
| Utils.PendingDatesAsWrittenRaisesOnOneDate | src/utils.py:123-124 | One date that was never inserted: the code as written raises, while the corrected selection keeps it. |
| Utils.SelectPending | src/utils.py:122-127 | The corrected loop selects, in order, the entries of PendingDates. |
| Utils.InsertDates | src/utils.py:77-138 | The date entries whose date is not an insert key are printed in queue order (corrected lookup), and the returned feature list is empty. |
| Utils.ZipDict | src/utils.py:197 | Every key up to the shorter length is in the dictionary, and nothing else is. |
| Utils.ZipDictAt | src/utils.py:197 | A key whose last paired occurrence is at j maps to the j-th value. |
| Utils.ZipToList | src/utils.py:184-200 | One record per whitespace token, member by member and token by token, each being that token's record. |
| Utils.ArchiveRecordsAppend | src/utils.py:190-198 | Records are ordered by member: those of the first members come first. |
| Utils.FileRecordsCount | src/utils.py:193-198 | A member yields exactly one record per token, and a blank member yields none. |
| Utils.TokenRecordFields | src/utils.py:195-197 | With distinct columns, column j holds the token's j-th comma field, and the column after the last field holds the file name, up to the shorter list. |
| Text.JoinSplit | function_app.py:20-22 | Joining the `/`-pieces with `/` gives the name back. |
| Text.SplitAtFirst | function_app.py:20 | Splitting at a first separator gives the text before it, then the pieces of the rest. |
| Text.SplitWithout | function_app.py:20 | A string without the separator is one piece. |
| Text.BeforeFirst | src/utils.py:104 | `split("_")[0]` is a prefix without `_`, followed in the content by `_` when it is shorter. |
| Text.RemoveChar | src/utils.py:114 | `replace("/", "")` leaves no `/` and never lengthens the text. |
| Text.RemoveCharIsSplitJoin | src/utils.py:114 | Removing every `/` is splitting at `/` and joining with nothing. |
| Text.TokensShape | src/utils.py:193 | `split()` tokens are non-empty, hold no whitespace, and together are the text's non-whitespace characters, in order. |
| Text.TokensStep | src/utils.py:193 | Tokens are maximal: leading whitespace, then a run of non-whitespace ended by whitespace or the end of the text, gives that whole run as the first token, followed by the tokens of the rest. |
| Text.BlankHasNoTokens | src/utils.py:193 | Text made only of whitespace has no tokens. |
| EntityConversion.ConvertEntities | src/utils.py:175-181 | One converted entity per dictionary, in order. Each is the dictionary as it was on entry, stamped with its own call's keys and stringified, even when a dictionary occurs twice. Every dictionary ends up as its original plus its two keys, and they are the keys of the last call that stamped it. |
| EntityConversion.ConvertNext | src/utils.py:177-179 | One iteration keeps the loop's invariant: one more conversion is collected and one more dictionary is stamped. |
| EntityConversion.ConvertingStep | src/utils.py:177-179 | Stamping the next dictionary, which stamps every position holding the same object, keeps the invariant. The last stamp of each dictionary so far is the one it holds. |
| EntityConversion.ConvertOne | src/utils.py:178 | `create_entity` on an untouched or already stamped dictionary leaves it stamped over its original, and returns it stringified. |
| EntityConversion.ConvertedAllAppend | src/utils.py:179 | Converting one more dictionary appends its conversion. |
| EntityConversion.StampStep | src/azure_api.py:130-131 | Stamping an already stamped dictionary equals stamping its original. |
| ArcGis.TokenRequest | src/arcgis.py:38-45 | The token request goes to `<portal>/portal/sharing/rest/generateToken` with exactly `f=pjson`, the username, the password and the portal as referer. |
| ArcGis.QueryFcRequest | src/arcgis.py:75-77 | `<service>/query?` with exactly the where clause, `outFields=*`, `f=json` and the token. |
| ArcGis.InsertRecordsRequest | src/arcgis.py:110-111 | `<service>/addFeatures` with exactly `f=json`, the features and the token. |
| ArcGis.QueryMaxIdRequest | src/arcgis.py:120-121 | `<service>/query?` with exactly `f=json`, the token and the statistics. |
| ArcGis.QueriesShareEndpoint | src/arcgis.py:75-121 | Both queries use the same endpoint and differ in `where` and `outStatistics`. Every service request extends the service URL and carries the token and `f=json`. |
| ArcGis.DataHandler | src/arcgis.py:164-172 | An empty list raises IndexError, and only an empty list does. Otherwise element i is `{"attributes": data[i]}`, with the same length. |
| ArcGis.DataHandlerRoundTrip | src/arcgis.py:164-172 | The attributes of the features are the input rows: nothing is lost or reordered. |
| AzureApi.Stringified | src/azure_api.py:105-107 | Same keys as the entity, and each value replaced by `str(value)`. |
| AzureApi.StringifiedReadsBack | src/azure_api.py:107 | Text is sent unchanged, and an integer is sent as a decimal that reads back to it. |
| AzureApi.StringifyEntity | src/azure_api.py:133-135 | The key-by-key copy loop builds exactly the stringified entity. |
| AzureApi.Upserts | src/azure_api.py:101-109 | One `upsert` operation per entity, in order, with that entity's keys, each value being `str` of the entity's value. |
| AzureApi.Stamped | src/azure_api.py:130-131 | Both keys are added or overwritten with the given text, and every other property is kept. |
| AzureApi.StampTwice | src/azure_api.py:130-131 | Stamping twice is stamping once with the later keys. |
| AzureApi.TableHandler.QueryEntities | src/azure_api.py:77-84 | Every entity the query yields, in order. |
| AzureApi.TableHandler.InsetIntoTable | src/azure_api.py:99-112 | Exactly one transaction is submitted, holding Upserts of the entities. |
| AzureApi.TableHandler.CreateEntity | src/azure_api.py:129-137 | The caller's dictionary is stamped in place with today's date and an 8-character key, and the result is a separate stringified copy. |
| AzureApi.CreatedEntityKeys | src/azure_api.py:129-137 | The result has the entity's keys plus both keys. Its partition key is the 8-digit date of `now`, its row key is 8 letters or digits, and the other values are `str` of the originals. |
| AzureApi.QueueHandler.InsertQueueMessage | src/azure_api.py:262-273 | The message is sent once, after the earlier ones. |
| Base.ToStr | src/azure_api.py:107 | `str` keeps text. An integer's string reads back to it, and booleans and None are spelled as Python spells them. |
| Base.DecimalRoundTrip | src/azure_api.py:107 | `int(str(i)) == i` for every integer. |
| Base.NatDigits | src/azure_api.py:107 | The decimal digits of a natural number: none empty, every one a digit, and no leading zero except for 0 itself. |
| Base.DigitsValueOfNatDigits | src/azure_api.py:107 | The decimal digits of a natural number read back as it. |
| Connection.IndexOf | db/connection.py:122 | None if and only if the name is absent. Otherwise the position holds the name and no earlier position does. |
| Connection.RemoveFirst | db/connection.py:122 | ValueError if and only if `Shape` is absent. Otherwise the first occurrence is removed and the rest keep their order. |
| Connection.RemoveFirstDropsOne | db/connection.py:122 | Exactly one occurrence goes: the length drops by one and every other name keeps its count. |
| Connection.MoveToFrontSpec | db/connection.py:121-124 | Putting `Shape` first is a permutation that takes each position from a known source position. |
| Connection.InsertColumns | db/connection.py:121-124 | `re_fields` is `Shape` followed by the other columns in frame order, which is the frame's columns with the first `Shape` moved to the front. |
| Connection.Repeat | db/connection.py:125-127 | k copies of the string. |
| Connection.InsertSymbols | db/connection.py:125-127 | One `?` per remaining column. |
| Connection.CountRepeatJoin | db/connection.py:126-130 | The joined `?` list holds exactly one `?` per column. |
| Connection.GeometryPlaceholderMarks | db/connection.py:130 | The geometry call holds exactly one `?`. |
| Connection.PlaceholderCount | db/connection.py:125-130 | The statement has one VALUES item per inserted column. The placeholder count equals the column count, and no item is empty. |
| Connection.InsertStatementAgrees | db/connection.py:129-130 | With at least one column besides `Shape`, the statement as written is the corrected one. |
| Connection.InsertStatementAsWrittenShapeOnly | db/connection.py:129-130 | With only `Shape`, the statement as written ends in `, );`, while the corrected one ends right after the geometry. |
| Connection.BoundRows | db/connection.py:106 | One bound row per frame row. |
| Connection.BoundRowsAligned | db/connection.py:106-130 | Column k of the statement and cell k of every bound row come from the same frame column, and the geometry placeholder gets the `Shape` cell. |
| Connection.BoundRowsAsWrittenMisbinds | db/connection.py:106-130 | In a frame with `Shape` second, the rows as written bind the first column's cell to the geometry. |
| Connection.HeatmapAsIntendedWhenShapeFirst | db/connection.py:106-130 | With `Shape` first and at least one other column, the statement as written is the corrected one, and the rows as written are the corrected bound rows. |
| Connection.SqlServerConnection.DeleteAll | db/connection.py:85-95 | `DELETE FROM <table>` is executed once. Without a table attribute, AttributeError and nothing is sent. |
| Connection.SqlServerConnection.MultiProcess | db/connection.py:97-111 | The insert statement is executed once for all the rows. Without a statement, AttributeError and nothing is sent. |
| Connection.SqlServerConnection.UpdateHeatmap | db/connection.py:113-147 | The table and frame are set even when `remove` raises ValueError, and nothing is sent then. Otherwise the statement as written is stored, and `DELETE FROM` is sent if and only if `delete` holds, before any insert. At most 200 rows are inserted by one `_multi_process` call on the whole frame; more go to the process pool. Either way each row is bound in frame order. |

## Left out

- Environment variables, YAML and `.env` configuration, and client construction are I/O. This covers the blob, queue and table service clients, the SQL engine and pyodbc cursors, and `urlopen` with its JSON decoding. What they return is a parameter of the model and what they are sent is a recorded log. The constructor-signature mismatches (`conn_str` passed to `OpQueuesHandler`, keywords passed to `SQLServerConnection()`) are left out with them.
- RoutesDates.DateStore: the routes-dates table is not part of this model. Its operations are abstract: `get_max_id` answers a given result, and each "check and add" call is logged and raises exactly when its call number is listed as failing. The script calls `check_and_add_drive` while the HTTP function calls `check_and_add_drive_date`. Both are modelled as the drive operation, and a call that raises (for a missing attribute, say) is a failing call number.
- Reading the CSV and the frame mechanics of pandas: a CSV is a sequence of row dictionaries with the default 0..n-1 index.
- Base.Value: floats and datetimes are not modelled, so neither is `str` of a float (Python's shortest round-trip repr), nor NaN. pandas reads numeric CSV and heatmap columns as float64, and `df.values.tolist()` then gives floats. The model's cells are text, integers, booleans or None.
- RoutesDates.PlannedCalls: pandas reads an empty CSV cell as NaN with its key present, and `row.get` then answers NaN. The model's values have no NaN, so an empty cell is not modelled. Only a key absent from the record gives None.
- FunctionApp.DispatchRows: the source tests the travel type again on every row. The model tests it once, before the loop, since every test gives the same answer.
- Connection.SqlServerConnection.UpdateHeatmap: a frame of more than 200 rows is recorded as one parallel `executemany` of all its rows. The float divider, `np.array_split` and the process `Pool` behind it are not modelled. The run time and row count that `_multi_process` prints are not modelled either.
- InsertDate.ImportRows: the `tqdm` progress bar wrapped around the row loop (src/insert_date.py:31) writes to the terminal only and is not modelled. The rows are visited in the same order.
- Utils.CreateRandom: `random.choices` is replaced by its draws, one position per character.
- Utils.GetTime: `datetime.now()` is the parameter `now`. `%Y` is written as the year padded to four digits. For years below 1000 the platform's `strftime` decides the padding, and glibc writes none.
- Utils.GetTimeDates: the time-of-day part of `date_timestamp` is built like its date but has no contract of its own.
- Utils.InsertDates: queue messages are their id and text content, so `str(content)` and the `try`/`except` around each append cannot fail. `print` is the method's `printed` result. The queue handler decodes with `BinaryBase64DecodePolicy` (src/azure_api.py:259), so the real content is bytes and `str(content)` spells `b'...'` around it. The model treats the content as text and does not capture that prefix, which would stop every date from matching an insert key.
- Utils.ZipToList: the archive is its members' names and UTF-8-decoded texts, in `namelist()` order, and decoding errors are not modelled.
- ArcGis.QueryMaxIdRequest: the `outStatistics` list is carried as its text, and url-encoding is not modelled.
- `utils.query_max` (network and configuration), `OpBlobHandler` (blob upload and CSV/zip I/O), `get_messages` and `delete_messages` (queue I/O) are left out.
- `db/models.py`, `db/custom_dtypes.py`, the commented-out Databricks triggers in `function_app.py` and everything under `tests/` are left out: ORM wrappers, a type hook and ad-hoc scripts.
- The docstring of `create_chunks` calls `n` the number of chunks. The code uses it as the size of each chunk, and the model follows the code.

## Findings

`update_heatmap` is modelled as written: it stores the statement of `InsertStatementAsWritten` and binds each row in frame order. The corrected statement and row order are stated beside it, together with the frames on which the two agree.

| source | as written | input that shows it | evidently intended | confidence | as-written member | corrected member |
|---|---|---|---|---|---|---|
| src/utils.py:123-125 | `for date in dates: dates[date]` indexes the list of entries with an entry (a dict), which raises TypeError | one date message `m1` with content `2024/03/01` and no insert messages | keep each entry whose date is not an insert key, in order | not executed; high (list indices must be integers) | Utils.PendingDatesAsWritten, Utils.PendingDatesAsWrittenRaisesOnOneDate | Utils.SelectPending, Utils.PendingDatesMembers |
| db/connection.py:106 | `_df.values.tolist()` binds each row's cells in frame order, while the statement lists `Shape` first | a frame with columns `id, Shape` and row `7, POINT (25 54)`: the geometry placeholder receives 7 | bind each row with its `Shape` cell first, in the statement's column order | not executed; medium (harmless only when callers always put `Shape` first) | Connection.BoundRowsAsWritten, Connection.BoundRowsAsWrittenMisbinds, Connection.SqlServerConnection.UpdateHeatmap | Connection.BoundRows, Connection.BoundRowsAligned, Connection.HeatmapAsIntendedWhenShapeFirst |
| db/connection.py:129-130 | a comma always follows the geometry placeholder, even when no `?` follows it | a frame whose only column is `Shape`: the statement ends `4326), );` | close the VALUES list right after the geometry when there is no other column | not executed; high | Connection.InsertStatementAsWritten, Connection.InsertStatementAsWrittenShapeOnly, Connection.SqlServerConnection.UpdateHeatmap | Connection.InsertStatement, Connection.PlaceholderCount, Connection.HeatmapAsIntendedWhenShapeFirst |
