# OneSTools.EventLog in Dafny

This project models the reading and export core of OneSTools.EventLog and
proves properties of that model. OneSTools.EventLog reads the event log of
the 1C:Enterprise platform in its old format, which consists of:

- a reference file, `1Cv8.lgf`, a stream of bracket-file nodes that give
  users, computers, applications, events, metadata, servers and ports their
  numbers;
- data files, `*.lgp`, holding one bracket-file record per event.

The reader decodes each record into an `EventLogItem`. Exporters feed the
items in batches to ClickHouse or Elasticsearch. A manager watches the
cluster registry `1CV8Clst.lst` and runs one exporter per infobase.

The model covers these parts:

- **Reference resolver (`lgf_reader.dfy`).**
  - The class `LgfReader` keeps a forward cursor over the reference file's
    nodes. Each node is paired with the stream position at which it ends.
  - It has two growing tables: plain values, and (name, uuid) pairs for
    users and metadata.
  - `ReadTill` is proved against the specification function `Scan`.
  - Lemmas about `Scan` and `Absorb` state where the scan stops, what the
    tables hold afterwards, and that the last occurrence of a key wins.
- **Record reader (`lgp_reader.dfy`).**
  - The class `LgpReader` cuts the lines of a data file into records by
    counting braces. It saves and restores the stream position at the end
    of the file.
  - It maps a parsed record to an `EventLogItem` field by field and resolves
    reference numbers through the shared `LgfReader`.
  - It flattens the tagged `Data` payload (`GetData`, specified by
    `DataText`).
  - It maps transaction and severity codes to their presentations.
- **File sequencing (`event_log_reader.dfy`).**
  - The class `EventLogReader` numbers records without gaps.
  - It moves to the next data file by last-write time. The file chosen
    after a stable sort is proved to be the earliest newer file.
  - It tells apart three cases: the archive ends, a live-mode wait times out,
    or the data file is deleted.
- **Export loop (`exporter.dfy`).** `EventLogExporter` resumes at the stored
  position. It forwards the records it reads, in order, into a sequential
  batching block (`BatchBlock`), and a reader timeout forces out the partial
  batch.
- **Elasticsearch (`elastic.dfy`, `elastic_host.dfy`).**
  - Settings check.
  - Date-keyed partition of a batch into indices.
  - Round-robin failover over the nodes.
  - The group-by-group write with reconnect-and-retry.
  - Node equality and hashing by host.
- **ClickHouse (`clickhouse_core.dfy`).**
  - Extracting and stripping the `Database=` setting of the connection
    string, with a round trip.
  - The 24-value row in table-column order.
  - The stored position is the row with the largest id.
  - The connection is created at most once.
- **Cluster registry (`clst_watcher.dfy`, `clst_reader.dfy`).** Infobase
  discovery with template or pattern filters, and the added/deleted diff
  between snapshots.
- **Exporter registry (`exporters_manager.dfy`).**
  - Settings and time-zone checks.
  - Storage naming.
  - The dictionary of running exporters: start, stop, and cancel all.
  - The wiring of the registry events.

**Supporting modules:**

- `wrappers.dfy`: `Option`, `Result` and `Outcome`, and the error kinds that
  stand for the exceptions the source throws.
- `strings.dfy`: trimming, blank test, replace, `int` parse and print, and
  character count.
- `nodes.dfy`: bracket-file nodes and the casts `(string)node[i]` and
  `(int)node[i]`.
- `items.dfy`: object-type codes, `DateTime`, `EventLogItem` with its
  defaults, the checkpoint, and the reader settings.

**How outside effects are represented:**

- Files, directory listings, timeouts, cancellation and server replies are
  parameters of the operations:
  - a directory listing is a sequence of (name, last-write time, content);
  - the live-mode waits are a sequence of wait outcomes;
  - ping answers and bulk-index replies are sequences.
- The bracket-file parser is the parameter `parse`.
- The regular-expression engine for user masks and patterns is the parameter
  `matches`.

**Where the files disagree.** The source files come from different revisions,
and their signatures do not line up. For example:

- `EventLogReader.cs` builds a non-generic `LgpReader` with a time zone;
- `ExportersManager.cs` passes a pattern string to a `ClstWatcher` whose
  constructor takes templates.

Each file's logic is modelled as written, with two exceptions that follow the
corrected definitions of "## Findings": `ElasticStorage.GetGroupedData` keys
hours on a 24-hour clock, and `Manager.ExportersManager.OnClstEvent` starts
added infobases and stops deleted ones. The files are connected only through
the shared datatypes.

## Model

| member | source | states |
|---|---|---|
| Strings.TrimStart | OneSTools.EventLog/LgpReader.cs:193 | the result is the suffix of the input left after its leading white space, and does not begin with white space |
| Strings.TrimEnd | OneSTools.EventLog/LgpReader.cs:193 | the result is the prefix of the input left before its trailing white space, and does not end with white space |
| Strings.TrimIsWhiteSpaceFreeSlice | OneSTools.EventLog/LgpReader.cs:193 | `Trim` returns a slice of its input, only white space is cut on either side, and the slice begins and ends with text |
| Strings.TrimIdempotent | OneSTools.EventLog/LgpReader.cs:193 | trimming a trimmed string changes nothing |
| Strings.BlankIffTrimEmpty | OneSTools.EventLog.Exporter.Core/ClickHouse/ClickHouseStorage.cs:47-48 | `IsNullOrWhiteSpace` holds exactly when trimming leaves the empty string |
| Strings.ReplaceAbsent | OneSTools.EventLog.Exporter.Manager/ClstWatcher.cs:62 | replacing a pattern that does not occur returns the input unchanged |
| Strings.ReplaceAfterPattern | OneSTools.EventLog.Exporter.Manager/ClstWatcher.cs:62 | an occurrence at the start is replaced, and replacing goes on after it, not inside it |
| Strings.ParseInt32 | OneSTools.EventLog/LgpReader.cs:197-203 | `int.Parse` succeeds only with a value in the Int32 range; text that is not a signed decimal number fails with a format error, and a well-formed number outside Int32 overflows |
| Strings.IntToStringRoundTrip | OneSTools.EventLog/LgpReader.cs:197-203 | every Int32 printed in decimal parses back to itself |
| Strings.DigitsRoundTrip | OneSTools.EventLog/LgpReader.cs:197-203 | the decimal digits of a natural number read back as that number |
| Strings.CountAppend | OneSTools.EventLog/LgpReader.cs:130-132 | counting a character over a concatenation adds the counts of the parts |
| Strings.Count | OneSTools.EventLog/LgpReader.cs:130-132 | the number of occurrences of a character is at most the length of the string |
| Nodes.At | OneSTools.EventLog/LgfReader.cs:44 | indexing a node succeeds exactly on a list with the index in range and gives that child; anything else is a format error |
| Nodes.AsString | OneSTools.EventLog/LgfReader.cs:55 | a string node casts to its text; a list never casts; failures are the index's error or a format error |
| Nodes.AsInt | OneSTools.EventLog/LgfReader.cs:54 | a number node in the Int32 range casts to its value; every successful cast is in range; failures are the index's error, a format error or an overflow |
| Nodes.Count | OneSTools.EventLog/LgpReader.cs:241-265 | a node has a child count exactly when it is a list; otherwise the cast is a format error |
| Nodes.StringAt | OneSTools.EventLog/LgfReader.cs:55 | reading child i as a string fails only with a format error |
| Nodes.IntAt | OneSTools.EventLog/LgfReader.cs:54 | reading child i as an int fails only with a format error or an overflow |
| Items.ParseTimestamp | OneSTools.EventLog/LgpReader.cs:172 | `ParseExact` with `yyyyMMddHHmmss` accepts only 14 characters naming a valid calendar date and time; anything else is a format error |
| Items.ParseFormatted | OneSTools.EventLog/LgpReader.cs:172 | every valid date and time written as `yyyyMMddHHmmss` parses back to itself |
| Items.ParseIsFormatted | OneSTools.EventLog/LgpReader.cs:172 | every string that parses is the `yyyyMMddHHmmss` form of the date and time it parses to, so exactly the formatted valid dates and times are accepted |
| Items.FileStem | OneSTools.EventLog/LgpReader.cs:27 | the name without its extension is a prefix of the name |
| Items.FileStemCutsAtLastDot | OneSTools.EventLog/LgpReader.cs:27 | the stem is the name cut at its last '.', and is the whole name when it has no '.' |
| Items.StemOfLgpName | OneSTools.EventLog.Exporter.Core/EventLogExporter.cs:63 | appending ".lgp" to a stored file name and taking the stem again gives the stored name back |
| LgfReaderModel.Decode | OneSTools.EventLog/LgfReader.cs:44-79 | Users and Metadata nodes give a referenced entry, the other known types a plain entry, and a category of `Unknown` (9) or more is skipped exactly; a malformed node is a format error or an overflow |
| LgfReaderModel.Scan | OneSTools.EventLog/LgfReader.cs:38-92 | the scan only moves the cursor forward and never past the end of the file; it never removes a key from either table; it keeps each table's keys in its own categories |
| LgfReaderModel.ScanFailsOnlyOnFormat | OneSTools.EventLog/LgfReader.cs:42-55 | a scan fails only on a malformed node, with a format error or an overflow |
| LgfReaderModel.ScanStopsAtFirstStop | OneSTools.EventLog/LgfReader.cs:62-69 | when the nodes before node j pass and node j stops the scan (the sought key, or the target position reached), the scan ends right after node j at its end position |
| LgfReaderModel.ScanFailsAtFirstBadNode | OneSTools.EventLog/LgfReader.cs:42-55 | when the nodes before a malformed node pass, the scan fails there with that node's error |
| LgfReaderModel.ScanRunsToEnd | OneSTools.EventLog/LgfReader.cs:40 | when no node stops the scan, it consumes the whole file and passes |
| LgfReaderModel.ScanFindsPlainKey | OneSTools.EventLog/LgfReader.cs:72-88 | after a scan the plain table holds the key exactly when it held it before or a node the scan reached stores it, and then with that node's value |
| LgfReaderModel.ScanFindsRefKey | OneSTools.EventLog/LgfReader.cs:52-69 | the same for the referenced table and its (name, uuid) values |
| LgfReaderModel.ScanAbsorbs | OneSTools.EventLog/LgfReader.cs:40-92 | the tables after a scan are the tables before it, with every consumed node stored in file order |
| LgfReaderModel.AbsorbKeepsKeys | OneSTools.EventLog/LgfReader.cs:76-79 | storing nodes never removes a key: a key is present afterwards exactly when it was before or a stored node carries it |
| LgfReaderModel.AbsorbLastWins | OneSTools.EventLog/LgfReader.cs:57-60 | a key holds the value of the last node that carries it |
| LgfReaderModel.AbsorbUntouched | OneSTools.EventLog/LgfReader.cs:76-79 | a key that no stored node carries keeps its value |
| LgfReaderModel.LookupSucceedsIff | OneSTools.EventLog/LgfReader.cs:100-108 | for a key not yet cached, the rescan passes with the key present exactly when some node up to the scan's stop stores the key; otherwise the lookup throws |
| LgfReaderModel.PlainLookupSucceedsIff | OneSTools.EventLog/LgfReader.cs:95-109 | `GetObjectValue` finds a value exactly when the number is 0, the key is cached, or, without cancellation, a node ahead of the cursor stores the key with no malformed or stopping node before it |
| LgfReaderModel.NamedLookupSucceedsIff | OneSTools.EventLog/LgfReader.cs:111-125 | the same for `GetReferencedObjectValue` and the nodes of users and metadata |
| LgfReaderModel.LgfReader.constructor | OneSTools.EventLog/LgfReader.cs:29-32 | a new reader is closed, at the start of the file, with empty tables |
| LgfReaderModel.LgfReader.InitializeStreams | OneSTools.EventLog/LgfReader.cs:127-137 | the file is opened once; a missing file throws before opening |
| LgfReaderModel.LgfReader.ReadTill | OneSTools.EventLog/LgfReader.cs:34-93 | the new cursor, tables and outcome are exactly those of `Scan` from the old cursor; cancellation leaves the cursor; a missing file or a disposed reader throws |
| LgfReaderModel.LgfReader.ReadNode | OneSTools.EventLog/LgfReader.cs:42-90 | one iteration consumes one node, stores it, and reports whether the node stops the scan |
| LgfReaderModel.LgfReader.SetPosition | OneSTools.EventLog/LgfReader.cs:139-142 | the cursor and tables become those of `Scan` with a query for no key and the target position; cancellation leaves the cursor; a missing file or a disposed reader throws |
| LgfReaderModel.LgfReader.GetPosition | OneSTools.EventLog/LgfReader.cs:144-149 | the position is the end of the last consumed node, once the file is open |
| LgfReaderModel.LgfReader.GetObjectValue | OneSTools.EventLog/LgfReader.cs:95-109 | number 0 gives "" and touches nothing; a cached key is returned without moving the cursor; otherwise the scan runs and the value is looked up again, or the call throws |
| LgfReaderModel.LgfReader.GetReferencedObjectValue | OneSTools.EventLog/LgfReader.cs:111-125 | the same for the referenced table, with ("", "") for number 0 |
| LgfReaderModel.LgfReader.Dispose | OneSTools.EventLog/LgfReader.cs:151-168 | the reader is disposed; the first call closes the stream, so the position is back at the start of the file, and a second call changes nothing |
| LgpReaderModel.SeekFindsFirstAtOrAfter | OneSTools.EventLog/LgpReader.cs:45-50 | setting the position moves the cursor to the first line that starts at or after it |
| LgpReaderModel.SeekSavedPosition | OneSTools.EventLog/LgpReader.cs:110-121 | a position saved at a line boundary leads back to the same line |
| LgpReaderModel.Seek | OneSTools.EventLog/LgpReader.cs:45-50 | the line a position leads to lies within the file |
| LgpReaderModel.SeekFrom | OneSTools.EventLog/LgpReader.cs:45-50 | the seek stops at the first line whose start is at or after the position; every earlier line starts before it |
| LgpReaderModel.ResumeAfterGrowth | OneSTools.EventLog/LgpReader.cs:110-121 | the saved position still leads to the same line after lines are appended to the file |
| LgpReaderModel.FindStartIsFirst | OneSTools.EventLog/LgpReader.cs:123-124 | a record starts at the first line that begins with '{' |
| LgpReaderModel.FindEndIsFirst | OneSTools.EventLog/LgpReader.cs:134-140 | the record ends at the first line that closes it: a "}," line with brace balance 0, or the last line with an even balance |
| LgpReaderModel.FindStart | OneSTools.EventLog/LgpReader.cs:123-124 | the start search never goes back and stops on a line that begins with '{', or at the end of the file |
| LgpReaderModel.FindEnd | OneSTools.EventLog/LgpReader.cs:134-140 | the end search never goes back and stops on a line that closes the record, or at the end of the file |
| LgpReaderModel.TakeRecordLine | OneSTools.EventLog/LgpReader.cs:126-140 | an accepted line is appended with '\n', the balance and quote counts are updated, and the record ends exactly at a closing line |
| LgpReaderModel.RecordTextShape | OneSTools.EventLog/LgpReader.cs:150-161 | the text of a read is non-empty exactly when a start line remains; non-empty text begins with '{' and ends with '\n', so the trailing-comma strip never applies |
| LgpReaderModel.TransactionPresentation | OneSTools.EventLog/LgpReader.cs:210-225 | the presentation is non-empty exactly for the codes U, C, R and N |
| LgpReaderModel.TransactionPresentationInvertible | OneSTools.EventLog/LgpReader.cs:210-225 | the four codes have four different presentations, each leading back to its code |
| LgpReaderModel.SeverityPresentation | OneSTools.EventLog/LgpReader.cs:271-281 | the presentation is non-empty exactly for the codes I, E, W and N |
| LgpReaderModel.SeverityPresentationInvertible | OneSTools.EventLog/LgpReader.cs:271-281 | the four codes have four different presentations, each leading back to its code |
| LgpReaderModel.DataText | OneSTools.EventLog/LgpReader.cs:227-268 | R and S give `node[1]`; U gives ""; B gives "false" exactly when `node[1]` is "0" and "true" otherwise; an unknown tag gives ""; failures are format errors |
| LgpReaderModel.ItemLinesFailureSticks | OneSTools.EventLog/LgpReader.cs:257-263 | a sub-node that fails makes the whole complex value fail with its error |
| LgpReaderModel.ItemLines | OneSTools.EventLog/LgpReader.cs:241-265 | the lines of a complex value fail only with a format error |
| LgpReaderModel.EmptyItemsGiveNoLines | OneSTools.EventLog/LgpReader.cs:261-262 | sub-nodes with empty values add no lines |
| LgpReaderModel.SingleItemLine | OneSTools.EventLog/LgpReader.cs:257-263 | a single non-empty sub-node i gives exactly the line "Item i: value" |
| LgpReaderModel.GetData | OneSTools.EventLog/LgpReader.cs:227-268 | the recursive method returns `DataText` of its node |
| LgpReaderModel.LgpReader.constructor | OneSTools.EventLog/LgpReader.cs:29-33 | a new reader is closed, not disposed, at line 0 with no saved position |
| LgpReaderModel.LgpReader.InitializeStreams | OneSTools.EventLog/LgpReader.cs:59-85 | the file is opened once, at the first line after the header; a missing file throws and leaves the cursor |
| LgpReaderModel.LgpReader.SetPosition | OneSTools.EventLog/LgpReader.cs:45-50 | after opening, the cursor is `Seek` of the position |
| LgpReaderModel.LgpReader.GetPosition | OneSTools.EventLog/LgpReader.cs:52-57 | the position is the start of the cursor's line |
| LgpReaderModel.LgpReader.ReadLine | OneSTools.EventLog/LgpReader.cs:113 | the reader returns the next line and advances, or returns null at the end and stays |
| LgpReaderModel.LgpReader.ReadNextEventLogItemData | OneSTools.EventLog/LgpReader.cs:95-154 | cancellation changes nothing; otherwise the text, end position, new cursor and saved position are those of the record specification `RecordFrom`, from the line the saved position restores |
| LgpReaderModel.LgpReader.ReadNextEventLogItem | OneSTools.EventLog/LgpReader.cs:35-43 | a disposed reader throws `ObjectDisposedException` and a missing file throws, and neither moves the reader; otherwise the file is open afterwards, and the result is null exactly when cancelled or the next record (`NextRecord`) has no text; a cancelled read leaves the cursor where it stood (at the start when the file was just opened), any other leaves the cursor and saved position where that record ends; a returned item is that record mapped by `ItemOf` with the lookups chained from the reference cursor before the call, and with an open reference reader an item is returned exactly when the record's text parses and every lookup of `ItemOf` succeeds (`Mappable`); a null result leaves the reference reader unchanged |
| LgpReaderModel.LgpReader.ParseEventLogItemData | OneSTools.EventLog/LgpReader.cs:166-208 | the plain fields come from their fixed positions of the record node; the user, computer, application, event, metadata, server and ports are what `GetObjectValue` or `GetReferencedObjectValue` find for positions 3, 4, 5, 7, 10, 13, 14 and 15 in that order, each lookup starting from the cursor the one before left; the parse succeeds exactly when every lookup finds its value and the port texts are empty or Int32 numbers (`Maps`); the reference reader ends where the last lookup leaves it; failures are read faults |
| LgpReaderModel.LgpReader.ParseHeadFields | OneSTools.EventLog/LgpReader.cs:168-191 | the fields up to the metadata come from positions 0-10, the user, computer and application lookups chained from the starting cursor and the event and metadata lookups from where they end |
| LgpReaderModel.LgpReader.ParseFirstFields | OneSTools.EventLog/LgpReader.cs:168-183 | the time is `ParseExact` of position 0, the status the presentation of position 1, the file name and end position those of the read; the user (with its uuid), computer and application are the chained lookups of positions 3-5; the other fields keep their defaults |
| LgpReaderModel.LgpReader.ParseMiddleFields | OneSTools.EventLog/LgpReader.cs:184-191 | the connection, severity presentation and comment come from positions 6, 8 and 9; the event and metadata are the chained lookups of positions 7 and 10; nothing else changes |
| LgpReaderModel.LgpReader.ParseTailFields | OneSTools.EventLog/LgpReader.cs:193-205 | `Data` is the trimmed flattened payload of position 11, the presentation and session come from positions 12 and 16, the server and ports are the chained lookups of positions 13-15, an empty port text gives 0 and any other is parsed as an Int32; the fields before `Data` are unchanged |
| LgpReaderModel.LgpReader.ResolvePort | OneSTools.EventLog/LgpReader.cs:197-203 | the port is 0 when the looked-up text is empty and its Int32 value otherwise; an unparsable text is a format error; the reference reader ends where the lookup leaves it |
| LgpReaderModel.LgpReader.Resolve | OneSTools.EventLog/LgpReader.cs:182-187 | number 0 gives "" without a lookup; the call succeeds exactly when `PlainLookup` from the cursor before it finds a value, returns that value and leaves the cursor `PlainLookup` gives; failures are read faults |
| LgpReaderModel.LgpReader.ResolveNamed | OneSTools.EventLog/LgpReader.cs:178-189 | number 0 gives an empty name and uuid without a lookup; the call succeeds exactly when `NamedLookup` finds a value, returns that value and leaves the cursor `NamedLookup` gives; failures are read faults |
| LgpReaderModel.LgpReader.Dispose | OneSTools.EventLog/LgpReader.cs:283-301 | the reader ends disposed; the first call also closes the file, and a later call leaves the file as it was |
| LgpReaderModel.LgpReader.OnFileDeleted | OneSTools.EventLog/LgpReader.cs:87-93 | deleting the reader's own open file disposes it; any other path, or a closed reader, changes nothing |
| EventLogReaderModel.CandidatesAreTheOtherFiles | OneSTools.EventLog/EventLogReader.cs:116-129 | the candidates are exactly the listed files other than the open one, with their last-write times |
| EventLogReaderModel.SortByTimeSortsAndPermutes | OneSTools.EventLog/EventLogReader.cs:131 | the ordering is sorted by last-write time and is a permutation of the candidates |
| EventLogReaderModel.SortByTime | OneSTools.EventLog/EventLogReader.cs:131 | the ordering has as many files as the candidates |
| EventLogReaderModel.SelectionIsEarliestNewer | OneSTools.EventLog/EventLogReader.cs:131-133 | the first strictly newer file of the stably sorted list is the earliest newer candidate, the first in listing order among equal times |
| EventLogReaderModel.FirstNewer | OneSTools.EventLog/EventLogReader.cs:133 | a selected file is one of the sorted candidates and is strictly newer than the open one |
| EventLogReaderModel.EarliestNewerNone | OneSTools.EventLog/EventLogReader.cs:133-136 | there is no selection exactly when no candidate is newer |
| EventLogReaderModel.EarliestNewerMeaning | OneSTools.EventLog/EventLogReader.cs:131-133 | a selection is a candidate that is newer, no later than any newer candidate, and first among equal ones |
| EventLogReaderModel.SwitchMovesForward | OneSTools.EventLog/EventLogReader.cs:133-142 | the chosen file is not the open one, is strictly newer, and leaves fewer newer files behind |
| EventLogReaderModel.EventLogReader.LgpFileName | OneSTools.EventLog/EventLogReader.cs:27 | the file name is defined exactly when a data file is open, and is its stem |
| EventLogReaderModel.EventLogReader.constructor | OneSTools.EventLog/EventLogReader.cs:29-31 | a new reader keeps the settings' mode, timeout and starting id, and has no data reader yet |
| EventLogReaderModel.EventLogReader.Open | OneSTools.EventLog/EventLogReader.cs:29-43 | the reference reader is seeded at `LgfStartPosition`; a data file is opened at `LgpStartPosition` exactly when `LgpFileName` is non-empty; missing files throw |
| EventLogReaderModel.EventLogReader.SetNextLgpReader | OneSTools.EventLog/EventLogReader.cs:109-146 | it switches exactly when a newer file exists, disposes the old reader and opens the chosen file; otherwise the current reader is kept |
| EventLogReaderModel.EventLogReader.ReadNextEventLogItem | OneSTools.EventLog/EventLogReader.cs:50-107 | a returned record gets the id `ItemId + 1` and `ItemId` grows by one; otherwise `ItemId` is unchanged. The reads made form a trail: it is empty exactly when cancelled, when the open data reader was disposed (null, and the reader is dropped) or when no reader is open and no file is listed (a null reference). The first read is from the open reader, or from the earliest listed file. In archive mode each exhausted read is followed by the next newer file from its start (`NextRead`); in live mode by `NextRead` when a newer file is listed, and otherwise by the next wait, which must be signalled or, with an infinite timeout, timed out, and after which the same file is read again from where the last read ended, in the listing and reference file the wait delivered. Every read but the last found its file exhausted; the result is what the last read gives (`ReadOutcome`: null only when exhausted, a record exactly when that read's record maps), and the data reader stands after that read. A timeout throws exactly when the timeout is finite and the last wait timed out |
| EventLogReaderModel.EventLogReader.ReadStep | OneSTools.EventLog/EventLogReader.cs:62-75 | a disposed data reader throws `ObjectDisposedException`; otherwise the read's outcome is `ReadOutcome` of the read at the reader's state, and an unswitched reader stands after that read; when it yields nothing the reader switches exactly when a newer file is listed, to `NextRead`, with fewer newer files left |
| EventLogReaderModel.EventLogReader.ReadArchive | OneSTools.EventLog/EventLogReader.cs:60-104 | in archive mode the reads start at the open reader and run from file to file as `NextRead` says (`ArchiveChain`); all but the last found their file exhausted, the result is what the last read gives, and the data reader stands after it; null means no newer file remains or the data reader was disposed, which is dropped |
| EventLogReaderModel.EventLogReader.ReadLive | OneSTools.EventLog/EventLogReader.cs:60-104 | in live mode the reads start at the open reader; an exhausted read is followed by `NextRead` when a newer file is listed, and otherwise by one wait and a read of the same file from where it ended, in the listing and reference file the wait delivered (`LiveChain`); all but the last read found their file exhausted, the result is what the last read gives, and the data reader stands after it; a timeout throws exactly when the timeout is finite and the last wait timed out |
| EventLogReaderModel.EventLogReader.ReadOpenFile | OneSTools.EventLog/EventLogReader.cs:64 | a disposed reader throws and so does a missing file, and neither moves the reader; otherwise the file is open afterwards, the read gives null exactly when stopped or the record text is empty, a stopped read leaves the cursor where it stood, and any other leaves the data reader after the record read (`LeftAfter`); with an open reference reader a record is yielded exactly when that record maps (`MapsAt`) |
| EventLogReaderModel.ArchiveStep | OneSTools.EventLog/EventLogReader.cs:72-99 | an exhausted read with a newer file listed extends the archive trail by `NextRead` |
| EventLogReaderModel.ArchiveEnd | OneSTools.EventLog/EventLogReader.cs:64-104 | a read that yields, fails or finds no newer file ends the archive trail with its outcome |
| EventLogReaderModel.SwitchLinks | OneSTools.EventLog/EventLogReader.cs:74-77 | in live mode, an exhausted read with a newer file listed is followed by `NextRead` without a wait |
| EventLogReaderModel.WaitLinks | OneSTools.EventLog/EventLogReader.cs:79-88 | in live mode, an exhausted read without a newer file is followed, after a wait that goes on, by the read `AfterWait` of the same file |
| EventLogReaderModel.LiveStep | OneSTools.EventLog/EventLogReader.cs:60-99 | an exhausted read linked to the next one extends the live trail |
| EventLogReaderModel.LiveEnd | OneSTools.EventLog/EventLogReader.cs:60-104 | a read with its outcome, and the waits used, end the live trail |
| EventLogReaderModel.LiveChainExtend | OneSTools.EventLog/EventLogReader.cs:60-99 | a live trail extended by a linked read is still a live trail |
| EventLogReaderModel.RenumberedEnds | OneSTools.EventLog/EventLogReader.cs:93-99 | a record the trail's last read yields gets the next id and is otherwise the record read |
| EventLogReaderModel.EventLogReader.Dispose | OneSTools.EventLog/EventLogReader.cs:167-187 | the reader ends disposed with no data reader; the first call disposes the reference reader, which closes its stream, and the open data reader; a second call leaves the reference reader as it is |
| Exporter.Configure | OneSTools.EventLog.Exporter.Core/EventLogExporter.cs:30-39 | an empty or missing log folder throws; portion defaults to 10000 and live mode to true |
| Exporter.ResumePoint | OneSTools.EventLog.Exporter.Core/EventLogExporter.cs:58-63 | an empty stored name starts with no file at 0; otherwise the reader starts in the stored file, whose stem is the stored name, at the stored position |
| Exporter.BatchBlock.constructor | OneSTools.EventLog.Exporter.Core/EventLogExporter.cs:48-52 | a new block has the batch size, holds nothing, and is neither completed nor cancelled |
| Exporter.BatchBlock.Post | OneSTools.EventLog.Exporter.Core/EventLogExporter.cs:48-52 | an accepted item is appended; a batch is emitted exactly when `Portion` items are pending |
| Exporter.BatchBlock.TriggerBatch | OneSTools.EventLog.Exporter.Core/EventLogExporter.cs:91 | the pending partial batch is emitted, if there is one; the accepted items are unchanged |
| Exporter.BatchBlock.Complete | OneSTools.EventLog.Exporter.Core/EventLogExporter.cs:101 | the pending items are emitted and the block is completed |
| Exporter.BatchBlock.Cancel | OneSTools.EventLog.Exporter.Core/EventLogExporter.cs:48-52 | when the stopping token fires, the held items are dropped without being emitted, and the block ends cancelled |
| Exporter.ForwardOne | OneSTools.EventLog.Exporter.Core/EventLogExporter.cs:72-91 | a read record is appended to the accepted items; the held items become `HeldStep` of the outcome, so a timeout leaves none |
| Exporter.ForwardAll | OneSTools.EventLog.Exporter.Core/EventLogExporter.cs:65-92 | the records read before a stop or failure are accepted in read order, the items still held are `Held` of those outcomes, and the failure, if any, is returned |
| Exporter.HeldIsUnsentTail | OneSTools.EventLog.Exporter.Core/EventLogExporter.cs:48-52 | the items a block still holds are the last records forwarded, fewer than one batch |
| Exporter.ExportLoop | OneSTools.EventLog.Exporter.Core/EventLogExporter.cs:65-103 | a read failure completes the block, which sends every record read, and is rethrown; otherwise the stopping token cancels the block, the records it still held (`Held`) are not sent, and the run ends with the cancellation |
| Exporter.EventLogExporter.constructor | OneSTools.EventLog.Exporter.Core/EventLogExporter.cs:25-40 | a new exporter keeps its settings and has no batch block yet |
| Exporter.EventLogExporter.SendAsync | OneSTools.EventLog.Exporter.Core/EventLogExporter.cs:105-112 | the send is repeated until the target accepts, and the item is accepted exactly once |
| Exporter.EventLogExporter.StartAsync | OneSTools.EventLog.Exporter.Core/EventLogExporter.cs:41-104 | the method never returns normally; a portion below 1 fails before any block exists; a failed position read or reader construction is rethrown with nothing emitted, and the block is cancelled exactly when that failure is a cancellation; a successful position read starts the reader at `ResumePoint` of the stored position; once both succeed, a read failure completes the block, which sends every record read, and is rethrown, while the stopping token cancels the block, which drops the records it still holds (`Held`), and ends the run with a cancellation |
| ElasticStorage.CheckSettings | OneSTools.EventLog.Exporter.Core/ElasticSearch/ElasticSearchStorage.cs:154-161 | the settings pass exactly with at least one node and a non-empty index name |
| ElasticStorage.TwelveHourKeyMergesHours | OneSTools.EventLog.Exporter.Core/ElasticSearch/ElasticSearchStorage.cs:291 | with "hh", 01:00 and 13:00 of one day get the same hourly key |
| ElasticStorage.HourKeyIdentifiesHour | OneSTools.EventLog.Exporter.Core/ElasticSearch/ElasticSearchStorage.cs:291 | with a 24-hour key, two valid times share the key exactly when they fall in the same hour of the same day |
| ElasticStorage.KeysOfSortedAndComplete | OneSTools.EventLog.Exporter.Core/ElasticSearch/ElasticSearchStorage.cs:288-304 | the group keys are strictly ascending, every entity's key is listed, and every listed key has an entity |
| ElasticStorage.Members | OneSTools.EventLog.Exporter.Core/ElasticSearch/ElasticSearchStorage.cs:291-303 | a group holds exactly the entities with its key |
| ElasticStorage.GetGroupedData | OneSTools.EventLog.Exporter.Core/ElasticSearch/ElasticSearchStorage.cs:284-311 | any other separation gives the single group `index-all` with every entity; a date separation gives one group per key. The hourly key is the corrected 24-hour key (see "## Findings"), not the 12-hour key of line 291 |
| ElasticStorage.GroupsAscendAndAgree | OneSTools.EventLog.Exporter.Core/ElasticSearch/ElasticSearchStorage.cs:291-304 | the groups come in ascending key order, are named `index-key`, are non-empty, and hold only entities with their key |
| ElasticStorage.EachEntityInExactlyOneGroup | OneSTools.EventLog.Exporter.Core/ElasticSearch/ElasticSearchStorage.cs:291-306 | every entity lands in exactly one group |
| ElasticStorage.IndexOf | OneSTools.EventLog.Exporter.Core/ElasticSearch/ElasticSearchStorage.cs:244 | `IndexOf` gives the first node equal to the current one, or -1 when there is none |
| ElasticStorage.RotationVisitsInOrder | OneSTools.EventLog.Exporter.Core/ElasticSearch/ElasticSearchStorage.cs:238-247 | starting with no node, successive switches visit `nodes[0]`, `nodes[1]` and so on in order |
| ElasticStorage.WrapAfterLast | OneSTools.EventLog.Exporter.Core/ElasticSearch/ElasticSearchStorage.cs:246 | the switch after the last node goes back to the first |
| ElasticStorage.RotationWraps | OneSTools.EventLog.Exporter.Core/ElasticSearch/ElasticSearchStorage.cs:238-247 | the rotation repeats with period equal to the number of nodes |
| ElasticStorage.IndexOfDistinct | OneSTools.EventLog.Exporter.Core/ElasticSearch/ElasticSearchStorage.cs:244 | among nodes with distinct hosts, `IndexOf` finds each node at its own index |
| ElasticStorage.FirstTrue | OneSTools.EventLog.Exporter.Core/ElasticSearch/ElasticSearchStorage.cs:165-174 | the connect loop stops at the first successful ping; every earlier ping failed |
| ElasticStorage.CreateIndexTemplate | OneSTools.EventLog.Exporter.Core/ElasticSearch/ElasticSearchStorage.cs:178-234 | the template step succeeds exactly when the GET succeeds and the template exists or the PUT succeeds; the PUT is sent exactly when the GET succeeds and finds no template; a failure is rethrown |
| ElasticStorage.ElasticSearchStorage.Create | OneSTools.EventLog.Exporter.Core/ElasticSearch/ElasticSearchStorage.cs:27-38 | construction throws exactly when `CheckSettings` does, and otherwise starts with no current node |
| ElasticStorage.ElasticSearchStorage.constructor | OneSTools.EventLog.Exporter.Core/ElasticSearch/ElasticSearchStorage.cs:27-38 | a storage with checked settings starts with no current node and nothing written |
| ElasticStorage.ElasticSearchStorage.SwitchToNextNode | OneSTools.EventLog.Exporter.Core/ElasticSearch/ElasticSearchStorage.cs:236-282 | the current node becomes the next node of the rotation, and the result is the ping's answer |
| ElasticStorage.ElasticSearchStorage.Connect | OneSTools.EventLog.Exporter.Core/ElasticSearch/ElasticSearchStorage.cs:163-176 | switching goes on until a ping succeeds; the current node is the one reached after that many steps of the rotation; after a successful ping the outcome is that of the index-template step |
| ElasticStorage.ElasticSearchStorage.WriteEventLogData | OneSTools.EventLog.Exporter.Core/ElasticSearch/ElasticSearchStorage.cs:94-148 | with no current node it connects first: a connection that finds no node writes nothing, and one whose index-template step fails throws before writing; otherwise the outcome, the groups stored (the first `count` of `GetGroupedData`, in order) and the node reached are exactly those of the write loop `WriteRun` over the batch's groups |
| ElasticStorage.ElasticSearchStorage.WriteGroups | OneSTools.EventLog.Exporter.Core/ElasticSearch/ElasticSearchStorage.cs:101-147 | the loop stores the groups `WriteRun` counts, returns its outcome, and ends on the node reached after its reconnections |
| ElasticStorage.WriteRun | OneSTools.EventLog.Exporter.Core/ElasticSearch/ElasticSearchStorage.cs:101-147 | the loop stores a prefix of the groups; a failure leaves a group unstored and is the cancelled request, a failed index-template step of a reconnection, the null reference of item errors on a successful call, or names the first unstored group |
| ElasticStorage.WriteRunHealthy | OneSTools.EventLog.Exporter.Core/ElasticSearch/ElasticSearchStorage.cs:101-147 | when every reply succeeds, or fails without cancellation and reconnects with the index template in place, all without item errors, the loop passes and stores min(groups, i + successful calls) groups: all of them exactly when the successes cover them |
| ElasticHost.Equals | OneSTools.EventLog.Exporter.ElasticSearch/ElasticSearchHost.cs:15-19 | a node equals an object exactly when the object is a node with the same host; authentication fields are ignored |
| ElasticHost.GetHashCode | OneSTools.EventLog.Exporter.ElasticSearch/ElasticSearchHost.cs:21-24 | the hash depends only on the host |
| ElasticHost.EqualNodesHashEqually | OneSTools.EventLog.Exporter.ElasticSearch/ElasticSearchHost.cs:15-24 | equal nodes have equal hashes |
| ElasticHost.OpEq | OneSTools.EventLog.Exporter.ElasticSearch/ElasticSearchHost.cs:26-29 | null equals null, null never equals a node, and two nodes are equal exactly when their hosts are |
| ElasticHost.OpNeq | OneSTools.EventLog.Exporter.ElasticSearch/ElasticSearchHost.cs:31-34 | `!=` is the negation of `==` |
| ElasticHost.OpEqIsEquivalence | OneSTools.EventLog.Exporter.ElasticSearch/ElasticSearchHost.cs:26-29 | `==` is reflexive, symmetric and transitive |
| ClickHouseCore.FindKeyCI | OneSTools.EventLog.Exporter.Core/ClickHouse/ClickHouseStorage.cs:44 | the result is the first case-insensitive "Database=" at or after the start, or -1 when there is none |
| ClickHouseCore.MatchKeyCI | OneSTools.EventLog.Exporter.Core/ClickHouse/ClickHouseStorage.cs:44 | the result is the first case-insensitive "Database=" whose value closes before any '\n', or -1; every earlier key runs into a '\n' |
| ClickHouseCore.ExtractDatabase | OneSTools.EventLog.Exporter.Core/ClickHouse/ClickHouseStorage.cs:44 | the database name holds no ';' and no '\n', and is empty when there is no key |
| ClickHouseCore.ParseConnectionString | OneSTools.EventLog.Exporter.Core/ClickHouse/ClickHouseStorage.cs:39-49 | an empty string throws, and so does a blank database name; otherwise the name is the extracted value and the string has its "Database=" segments stripped; the legacy constructor (OneSTools.EventLog.Exporter.ClickHouse/ClickHouseStorage.cs:27-40) does the same |
| ClickHouseCore.StripPrefix | OneSTools.EventLog.Exporter.Core/ClickHouse/ClickHouseStorage.cs:45 | text in which no "Database=" starts is kept as it is |
| ClickHouseCore.StripSegment | OneSTools.EventLog.Exporter.Core/ClickHouse/ClickHouseStorage.cs:45 | a whole "Database=name;" segment is removed |
| ClickHouseCore.StripFinalSegment | OneSTools.EventLog.Exporter.Core/ClickHouse/ClickHouseStorage.cs:45 | a "Database=name" segment closed by a final '\n' is removed and the '\n' is kept |
| ClickHouseCore.ValueEnd | OneSTools.EventLog.Exporter.Core/ClickHouse/ClickHouseStorage.cs:44 | the value ends at the first ';' after the key, at the end of the string or before a final '\n', with no ';' or '\n' before that point; -1 when `.` would have to cross a '\n' |
| ClickHouseCore.ValueEndFails | OneSTools.EventLog.Exporter.Core/ClickHouse/ClickHouseStorage.cs:44 | the value fails to close only at a '\n' that is not the last character and has no ';' or '\n' before it |
| ClickHouseCore.StripDatabase | OneSTools.EventLog.Exporter.Core/ClickHouse/ClickHouseStorage.cs:45 | stripping never lengthens the connection string |
| ClickHouseCore.ConnectionStringRoundTrip | OneSTools.EventLog.Exporter.Core/ClickHouse/ClickHouseStorage.cs:44-45 | a base string with "Database=name;" appended parses back to the base string and the name, for a name without ';' or '\n' |
| ClickHouseCore.FinalLineFeedIsKept | OneSTools.EventLog.Exporter.Core/ClickHouse/ClickHouseStorage.cs:44-45 | with "Database=name" followed by a final '\n', the name is read and the connection string is the base string with the '\n' |
| ClickHouseCore.LineFeedInNameRejected | OneSTools.EventLog.Exporter.Core/ClickHouse/ClickHouseStorage.cs:44-48 | "Database=a\nb;" gives no match, so the constructor throws "Database name is not specified" |
| ClickHouseCore.LowerCaseKeyExtracted | OneSTools.EventLog.Exporter.Core/ClickHouse/ClickHouseStorage.cs:44 | a lower-case "database=" is still extracted, for a name without ';' or '\n' |
| ClickHouseCore.LowerCaseKeyNotStripped | OneSTools.EventLog.Exporter.Core/ClickHouse/ClickHouseStorage.cs:45 | a lower-case "database=" segment is not removed |
| ClickHouseCore.LowerCaseKeyIsKept | OneSTools.EventLog.Exporter.Core/ClickHouse/ClickHouseStorage.cs:44-45 | with a lower-case key, the name is extracted and the connection string is kept whole |
| ClickHouseCore.StoredTransactionDate | OneSTools.EventLog.Exporter.Core/ClickHouse/ClickHouseStorage.cs:144 | `MinValue` is stored as 1970-01-01, and every other date as itself |
| ClickHouseCore.RowFollowsColumns | OneSTools.EventLog.Exporter.Core/ClickHouse/ClickHouseStorage.cs:72-162 | a row has 24 values, and value k is the item's field for table column k; the legacy table has the same columns |
| ClickHouseCore.PositionOfRow | OneSTools.EventLog.Exporter.Core/ClickHouse/ClickHouseStorage.cs:114-122 | the position read from a written row is the item's file name, end positions and id |
| ClickHouseCore.LastPosition | OneSTools.EventLog.Exporter.Core/ClickHouse/ClickHouseStorage.cs:114-124 | there is no position exactly when the table is empty |
| ClickHouseCore.LastPositionIsMaxId | OneSTools.EventLog.Exporter.Core/ClickHouse/ClickHouseStorage.cs:114-124 | the stored position is that of a row whose id no row exceeds; the legacy query picks the same row |
| ClickHouseCore.RowsOf | OneSTools.EventLog.Exporter.Core/ClickHouse/ClickHouseStorage.cs:137-162 | one row per entity, in entity order |
| ClickHouseCore.ClickHouseStorage.Create | OneSTools.EventLog.Exporter.Core/ClickHouse/ClickHouseStorage.cs:21-49 | construction throws exactly when the connection string is rejected, and keeps its database name and stripped string |
| ClickHouseCore.ClickHouseStorage.constructor | OneSTools.EventLog.Exporter.Core/ClickHouse/ClickHouseStorage.cs:21-29 | a storage keeps the parsed connection string and database name and starts unconnected |
| ClickHouseCore.ClickHouseStorage.CreateConnection | OneSTools.EventLog.Exporter.Core/ClickHouse/ClickHouseStorage.cs:51-60 | the connection and schema are created once; later calls create nothing |
| ClickHouseCore.ClickHouseStorage.ReadEventLogPosition | OneSTools.EventLog.Exporter.Core/ClickHouse/ClickHouseStorage.cs:110-125 | the connection is created at most once, and the result is `LastPosition` of the table |
| ClickHouseCore.ClickHouseStorage.WriteEventLogData | OneSTools.EventLog.Exporter.Core/ClickHouse/ClickHouseStorage.cs:127-175 | a successful copy appends one row per entity; a failed one rethrows and changes nothing |
| Clst.FirstMatchIsFirst | OneSTools.EventLog.Exporter.Manager/ClstWatcher.cs:58-66 | the template chosen is the first whose mask matches |
| Clst.DataBaseNameIsFirstMatch | OneSTools.EventLog.Exporter.Manager/ClstWatcher.cs:58-66 | an infobase is kept exactly when some mask matches, and its database name is the first matching template with "[IBNAME]" replaced by the name |
| Clst.EntryAt | OneSTools.EventLog.Exporter.Manager/ClstWatcher.cs:53-56 | entry i reads (id, name) from elements 0 and 5 of a list element in range; anything else is a format error |
| Clst.ReadPrefixHoldsKept | OneSTools.EventLog.Exporter.Manager/ClstWatcher.cs:49-69 | a successful read maps every kept id to its name and database name |
| Clst.ReadPrefixKeysAreKept | OneSTools.EventLog.Exporter.Manager/ClstWatcher.cs:49-69 | every id of a successful read comes from a kept entry |
| Clst.KeptIdsDistinct | OneSTools.EventLog.Exporter.Manager/ClstWatcher.cs:63 | in a successful read no two kept entries share an id, because a repeated id throws |
| Clst.Except | OneSTools.EventLog.Exporter.Manager/ClstWatcher.cs:78-82 | `Except` holds the (id, value) pairs of one map that the other map does not hold |
| Clst.DiffRebuildsSnapshot | OneSTools.EventLog.Exporter.Manager/ClstWatcher.cs:76-86 | removing the deleted pairs from the old snapshot and adding the added ones gives the new snapshot |
| Clst.ChangedRecordReportedTwice | OneSTools.EventLog.Exporter.Manager/ClstWatcher.cs:78-84 | an id whose value changed is reported as added with its new value and as deleted with its old one |
| Clst.UnchangedNotReported | OneSTools.EventLog.Exporter.Manager/ClstWatcher.cs:78-84 | an unchanged entry raises nothing |
| Clst.Raise | OneSTools.EventLog.Exporter.Manager/ClstWatcher.cs:79-84 | one event per pair, of the given kind |
| Clst.MatchTemplate | OneSTools.EventLog.Exporter.Manager/ClstWatcher.cs:58-66 | the loop over the templates stops at the first match |
| Clst.ClstWatcher.Open | OneSTools.EventLog.Exporter.Manager/ClstWatcher.cs:27-37 | a missing 1CV8Clst.lst throws; otherwise the first snapshot is read and its errors propagate |
| Clst.ClstWatcher.constructor | OneSTools.EventLog.Exporter.Manager/ClstWatcher.cs:27-30 | a watcher keeps its folder, templates and first snapshot |
| Clst.ClstWatcher.ReadInfoBases | OneSTools.EventLog.Exporter.Manager/ClstWatcher.cs:39-72 | the counted loop gives the specification `InfoBasesOf`: element 2 holds the list, a count of 0 or less gives an empty map |
| Clst.ClstWatcher.ReadInfoBasesAndRaiseEvents | OneSTools.EventLog.Exporter.Manager/ClstWatcher.cs:74-87 | the added events come first, then the deleted ones, one per differing pair; the snapshot is then replaced; a read error changes nothing |
| ClstReader.EntryOf | EventLogExportersManager/ClstReader.cs:31-33 | entry i reads (guid, name) from elements 0 and 1 of a list element in range; anything else is a format error |
| ClstReader.ResultHoldsIncluded | EventLogExportersManager/ClstReader.cs:26-40 | a successful read maps every included name to its guid |
| ClstReader.ResultOnlyIncluded | EventLogExportersManager/ClstReader.cs:13-42 | every name of a successful read comes from an included entry |
| ClstReader.IncludedNamesDistinct | EventLogExportersManager/ClstReader.cs:38-39 | no two included entries share a name, because a repeated name throws |
| ClstReader.GetInfoBases | EventLogExportersManager/ClstReader.cs:11-43 | the counted loop gives the specification `InfoBasesOf`: a blank pattern includes every entry, and a count of 0 or less gives an empty result |
| Manager.CheckSettings | OneSTools.EventLog.Exporter.Manager/ExportersManager.cs:83-99 | the settings pass exactly when the storage type is set, the folder is named and exists, and both counts are positive; each failure has its own message, in the source's order |
| Manager.ResolveTimeZone | OneSTools.EventLog.Exporter.Manager/ExportersManager.cs:55-64 | a blank name keeps the system zone; a non-blank one must be a known zone, or the call throws |
| Manager.SettingsOf | OneSTools.EventLog.Exporter.Manager/ExportersManager.cs:41-81 | the constructor's checks in order, its defaults, and the storage-specific settings |
| Manager.Combine | OneSTools.EventLog.Exporter.Manager/ExportersManager.cs:128-132 | a combined path begins with its first part and ends with its second |
| Manager.GetStorage | OneSTools.EventLog.Exporter.Manager/ExportersManager.cs:189-215 | ClickHouse gets the base string with "Database=<name>-el;" appended; Elasticsearch gets the index "<name>-el"; an unknown type throws |
| Manager.ClickHouseDatabaseIsInfoBaseName | OneSTools.EventLog.Exporter.Manager/ExportersManager.cs:194 | for a base string without a "Database=" key and an infobase name without ';' or '\n', the ClickHouse database is "<name>-el" and the base string is kept |
| Manager.StartedRegistry | OneSTools.EventLog.Exporter.Manager/ExportersManager.cs:126-177 | an id is registered only when its 1Cv8.lgf exists and it is not present yet; other entries are unchanged |
| Manager.Wanted | OneSTools.EventLog.Exporter.Manager/ExportersManager.cs:111-136 | the wanted ids are exactly the snapshot's infobases whose 1Cv8.lgf exists |
| Manager.StoppedRegistry | OneSTools.EventLog.Exporter.Manager/ExportersManager.cs:179-187 | stopping cancels the id's token and removes nothing |
| Manager.CancelledRegistry | OneSTools.EventLog.Exporter.Manager/ExportersManager.cs:103-107 | every registered token is cancelled |
| Manager.RestartAfterStopDoesNothing | OneSTools.EventLog.Exporter.Manager/ExportersManager.cs:139 | after a stop, a start for the same id does nothing |
| Manager.StartIsIdempotent | OneSTools.EventLog.Exporter.Manager/ExportersManager.cs:138-170 | a second start of the same id does nothing |
| Manager.AddedInfoBaseNotStartedAsWritten | OneSTools.EventLog.Exporter.Manager/ExportersManager.cs:120-124 | with the handlers as wired, an added infobase gets no exporter and a deleted one gets a running exporter |
| Manager.AddedInfoBaseStarts | OneSTools.EventLog.Exporter.Manager/ExportersManager.cs:120-124 | with the intended wiring, an added infobase gets a running exporter on its log folder, and deleting an unregistered infobase does nothing |
| Manager.DeletedInfoBaseStops | OneSTools.EventLog.Exporter.Manager/ExportersManager.cs:120-124 | with the intended wiring, a deleted infobase's exporter is cancelled |
| Manager.ExportersManager.Create | OneSTools.EventLog.Exporter.Manager/ExportersManager.cs:41-81 | construction throws exactly when `SettingsOf` rejects the configuration, and starts with no exporters |
| Manager.ExportersManager.constructor | OneSTools.EventLog.Exporter.Manager/ExportersManager.cs:41-81 | a manager keeps its settings and starts with no exporters |
| Manager.ExportersManager.StartExporter | OneSTools.EventLog.Exporter.Manager/ExportersManager.cs:126-177 | the registry becomes `StartedRegistry` of the old one, or is unchanged when building the storage throws |
| Manager.ExportersManager.StopExporter | OneSTools.EventLog.Exporter.Manager/ExportersManager.cs:179-187 | the registry becomes `StoppedRegistry` of the old one |
| Manager.ExportersManager.OnClstEvent | OneSTools.EventLog.Exporter.Manager/ExportersManager.cs:114-124 | a registry event updates the registry as the intended handler `Handle` says |
| Manager.ExportersManager.StartAll | OneSTools.EventLog.Exporter.Manager/ExportersManager.cs:111-112 | existing entries are kept and only snapshot ids with a log are added (`Wanted`); after a run without failure the registry holds exactly the old ids and those; each exporter added runs its infobase's configuration and storage, not cancelled; a failure is the storage error of a wanted infobase that is not running |
| Manager.StartingStep | OneSTools.EventLog.Exporter.Manager/ExportersManager.cs:111-112 | starting one more snapshot infobase keeps the start-up loop's state: old entries kept, visited infobases with a log running, added exporters as `StartedAs` says |
| Manager.StartingDone | OneSTools.EventLog.Exporter.Manager/ExportersManager.cs:111-112 | once every infobase is visited, the registry's ids are the old ones and exactly the wanted ones |
| Manager.ExportersManager.CancelAll | OneSTools.EventLog.Exporter.Manager/ExportersManager.cs:103-107 | the registry becomes `CancelledRegistry` of the old one |

## Left out

- File-system plumbing is not modelled: `FileStream`, `StreamReader`, the
  byte-level header skip and the `FileSystemWatcher`s. A data file is the
  sequence of its lines after the header. The watchers' notifications are
  inputs: `OnFileDeleted`, and the `Signalled` wait outcome.
- Stream positions are abstract numbers carried with each line and node.
  The reflection-based byte offsets of `StreamReaderExtensions.cs` are not
  part of this model.
- The bracket-file parser library is not part of this model. Parsed nodes
  are input, and the parser is the parameter `parse`.
- The regular-expression engine for user masks and include patterns is the
  parameter `matches`.
- Only the two fixed "Database=" patterns are modelled concretely. Case
  folding in them covers ASCII letters only. The line-feed rules of `.`
  and `$` without the Multiline option are modelled; '\r' is an ordinary
  character.
- Time-zone conversion and calendar formatting (NodaTime) are not modelled.
  A time-zone lookup is the predicate `knownZone`. `DateTime` is a calendar
  record to the second, and date keys are numbers with the digit order of
  their strings.
- `MissingFileTicks` (the last-write time of a deleted file) is a fixed UTC
  tick value, with no local-time offset.
- TPL Dataflow concurrency is not modelled: `BoundedCapacity`, parallel
  writes and completion propagation. Batching is a sequential accumulator,
  and the write block's work is the emitted batches.
- Network clients are left out: NEST/Elasticsearch, the ClickHouse driver,
  bulk copy, SQL and the index template JSON. Their answers are inputs
  (ping answers, bulk-index replies, the copy's success). The stored table is
  a sequence of rows.
- `ElasticSearchStorage.ReadEventLogPositionAsync` (its search-and-retry
  loop) and the `MaximumRetries` and `MaxRetryTimeout` settings are not
  modelled.
- The legacy ClickHouse storage shares the model of the Core storage, since
  its constructor, row and position query are the same.
- Logging, hosting, `Program.cs`, the exporter services and the restart loop
  of the first manager are not modelled.
- The SqlServer storage and Vault are not part of this model.
- Null strings are not modelled: strings are always present. The `?? ""`
  guards in the ClickHouse row are therefore identities.
- `ItemId` and the positions are unbounded integers; 64-bit overflow is not
  modelled. Int32 range is checked where the source casts or parses an
  `int`.
- `Path.Combine` is modelled with '/' as the only separator.
- Dictionary enumeration order is not modelled. `StartAll` picks ids in an
  unspecified order (`:|`), and the diff's events come from sets.
- The helper methods `LgpReader.ReadStep`, `EventLogReader.ReadOpenFile`,
  `LgfReader.ReadNode`, `LgpReader.TakeRecordLine`, `LgfReader.Consume`,
  `EventLogReader.LiveRound`, `EventLogReader.WaitRound`,
  `EventLogReader.ReadAndNumber`,
  `ElasticSearchStorage.ConnectAndWrite`, `ElasticSearchStorage.FirstConnect`,
  `ElasticSearchStorage.Reconnect`, `LgpReader.ResolveAt` and
  `LgpReader.ResolveNamedAt` are model structure: each holds one loop, one
  loop iteration or one call of the source, split off so that each proof
  stays small. The same holds for `Strings.LeadingWhiteSpace` and
  `Strings.TextLength`, the two cut points that `TrimStart` and `TrimEnd`
  slice at.
- LgpReaderModel.LgpReader.InitializeStreams: a data file that holds only
  its header makes the source's header skip (LgpReader.cs:77-83) loop
  forever at the end of the stream, without checking cancellation. The
  model opens such a file with no lines, and the read gives null, after
  which live mode can reach the reading timeout.
- The live-mode wait outcomes form a finite sequence. Running out of them
  ends the call as a cancellation would, so an endless wait is not modelled.
- Exporter.EventLogExporter.SendAsync: the target's replies are finite and
  contain an acceptance, so a target that refuses forever (an endless loop
  in the source) is not modelled.
- Exporter.EventLogExporter.StartAsync: the reader is the sequence of its
  call outcomes, and the loop stops where that sequence stops or a
  cancellation appears. The reader's internal state is not threaded through
  the exporter. Constructing the reader is the parameter `construction`,
  the outcome `EventLogReader.Open` gives at the resume point; the method
  does not call `Open` itself. The write block is not modelled: `emitted`
  are the batches handed to it, and which of them the cancelled write block
  (capacity 2) still writes is not stated.
- ElasticStorage.Members: the contract states which entities form a group,
  not the order in which they appear. The definition filters the input in
  input order.
- LgfReaderModel.LgfReader.Dispose: the tables are not cleared in the model;
  the disposed flag stands for their absence. After disposal a lookup of a
  non-zero number throws a null reference, because the tables are gone.
- LgfReaderModel.LgfReader.ReadTill: after disposal the source reopens the
  stream (LgfReader.cs:36, 127-137). It returns normally when cancelled or
  at the end of the stream, skips nodes of unknown type, and throws a null
  reference at the first node of a known type, because its tables are null
  (LgfReader.cs:47-79). The model throws the null reference at once. The
  same holds for `SetPosition`, which calls it. No caller in the model sets
  the position of a disposed reader.
- EventLogReaderModel.EventLogReader.Dispose: the source also drops its
  reference reader (EventLogReader.cs:180-181), so a data reader that a later
  read opens gets none, and every lookup throws a null reference, even one
  for number 0. The model keeps the disposed reference reader. Its number-0
  lookups still give empty values.
- EventLogReaderModel.EventLogReader.ReadNextEventLogItem: a record is
  promised exactly when the record read maps (`MapsAt`) only while the
  reference reader is open and not disposed. `Open` leaves it so, and only
  `Dispose` changes that.
- ElasticStorage.GetGroupedData: groups hours by the corrected 24-hour key.
  The 12-hour key the source formats is modelled separately, as
  `HourKeyAsWritten`, and `TwelveHourKeyMergesHours` shows what it merges.
- LgfReaderModel.LgfReader.ReadTill: cancellation is one flag per call,
  while the source polls the token on every iteration (LgfReader.cs:40). A
  scan cut off midway by a token that fires during it is not modelled.
- LgpReaderModel.LgpReader.ReadNextEventLogItemData: cancellation is one
  flag per call, while the source polls the token on every iteration
  (LgpReader.cs:107). A record cut off midway by cancellation is not
  modelled.
- EventLogReaderModel.EventLogReader.ReadNextEventLogItem: cancellation is
  one flag per call, while the source polls the token on every pass of the
  loop (EventLogReader.cs:60). A live-mode cancellation arrives as the
  `CancelRequested` wait outcome instead.
- `NewLine` is "\r\n", the Windows `Environment.NewLine` that
  `StringBuilder.AppendLine` writes in `GetData`. Other platforms' line
  endings are not modelled.

## Findings

| source | as written | input that shows it | evidently intended | confidence | as-written member | corrected member |
|---|---|---|---|---|---|---|
| OneSTools.EventLog.Exporter.Core/ElasticSearch/ElasticSearchStorage.cs:291 | the hourly index key is formatted "yyyyMMddhh", a 12-hour clock | two items dated 2020-01-01 01:00 and 2020-01-01 13:00 get the same key "2020010101" and land in one index; 00:xx gets "12" and sorts after 01:xx | a 24-hour key "yyyyMMddHH", one index per hour of the day, in time order | not executed | ElasticStorage.TwelveHourKeyMergesHours | ElasticStorage.HourKeyIdentifiesHour |
| OneSTools.EventLog.Exporter.Manager/ExportersManager.cs:120-124 | `InfoBasesDeleted` is handled by `StartExporter`, and `InfoBasesAdded` by `StopExporter` | an infobase added to 1CV8Clst.lst with an old-format log gets no exporter; deleting it then starts one | added infobases are started and deleted ones are stopped | not executed | Manager.AddedInfoBaseNotStartedAsWritten | Manager.AddedInfoBaseStarts |
