# Elasticsearch logging starter and demo services — Dafny model

This project models the sequential logic of an Elasticsearch log shipper:
a Spring Boot starter that turns Logback events into documents and ships
them in bulk, plus two demo applications. Each core Java file is modelled
as written, one Dafny module per file:

- `IndexPatternResolver` rewrites `%{key}` date placeholders in an index
  name. Keys are matched case-insensitively and the clock is passed in.
- The starter's `ElasticsearchLogClient` keeps a bounded queue and a batch
  buffer. It drains up to `bulkSize` documents and sends them as one bulk
  request.
- The es-log-demo `LogStorageService` normalises its configuration,
  ignores null entries and flushes batches as maps to `SimpleEsWriter`.
- The sample `LogStorageService` drains an unbounded queue into text lines
  appended to a file.
- `SimpleEsWriter` filters empty documents out of a bulk write, counts
  shard copies and computes the paging offset.
- Both `RestClientFactory` versions parse the host list and build a
  singleton client.
- `LogEventConverter` maps a logging event to a log document. It falls
  back from `traceId` to `trace_id` and from `spanId` to `span_id`.
- `Utils` provides `isBlank` and `escapeJson`.
- `ThreadLocalMDC` is one thread's diagnostic map.
- `EsCustomCommandService` and `EsIndexManagementUtil` shape REST requests.
- The es-log-demo `TestController` validates paging and builds queries.

Helper modules:

- `Wrappers`: `Option` and `Result`.
- `JavaText`: the `java.lang.String` and `Integer` behaviour the sources
  rely on. This covers `trim`, which drops every character up to U+0020;
  `split`, which drops trailing empty strings; `replace` of all
  occurrences; ASCII `toLowerCase`; `parseInt`; and 32-bit wrap-around.
- `Time`: the fields of a `LocalDateTime` and the zero-padded date formats.
- `HttpHosts`: the `host[:port]` parsing the two factories share.
- `BlockingQueue`: `offer` and `drainTo` on a bounded queue.
- `LogEntries`: the demo's log entry record.

Network calls are modelled the same way throughout. A class records each
request it is given in a `seq` field, and the outcome (response, failure,
exception) is a parameter of the method that makes the call. The clock,
the formatters and JSON serialisation are parameters as well.

## Model

| member | source | states |
|---|---|---|
| JavaText.Wrap32 | es-log-demo/src/main/java/com/lz/sample/es/SimpleEsWriter.java:566 | Java `int` arithmetic: the result is a 32-bit value congruent to the exact one modulo 2^32, and equal to it when it fits |
| JavaText.Trim | elasticsearch-logging-starter/src/main/java/com/lz/logging/support/Utils.java:27 | `String.trim`: the result is the slice of the input that starts after its leading run of characters at most U+0020 and is followed only by such characters; it is empty exactly when every character is at most U+0020, otherwise it starts and ends with a character above U+0020, and an already trimmed string is returned unchanged |
| JavaText.LeadingTrimmable | elasticsearch-logging-starter/src/main/java/com/lz/logging/support/Utils.java:27 | the leading half of `trim`: the length of the run of characters at most U+0020 that starts the input, after which comes a character above U+0020 or the end |
| JavaText.TrimEnd | elasticsearch-logging-starter/src/main/java/com/lz/logging/support/Utils.java:27 | the trailing half of `trim`: a prefix of the input followed only by trimmable characters, ending in a non-trimmable one |
| JavaText.SplitRaw | elasticsearch-logging-starter/src/main/java/com/lz/logging/core/client/RestClientFactory.java:110 | splitting on a character before trailing empties are removed: at least one part, none containing the separator |
| JavaText.DropTrailingEmpty | elasticsearch-logging-starter/src/main/java/com/lz/logging/core/client/RestClientFactory.java:114 | `split` removes exactly the trailing run of empty parts: a prefix whose last part is non-empty |
| JavaText.Split | elasticsearch-logging-starter/src/main/java/com/lz/logging/core/client/RestClientFactory.java:110 | `String.split` on one character: a string without the separator is its own only part, no part contains the separator, and the last part is never empty once a separator occurs |
| JavaText.JoinSplitRaw | elasticsearch-logging-starter/src/main/java/com/lz/logging/client/RestClientFactory.java:56 | joining the raw parts with the separator gives back the input |
| JavaText.SplitRawFreePrefix | elasticsearch-logging-starter/src/main/java/com/lz/logging/client/RestClientFactory.java:56 | a separator-free prefix only extends the first raw part |
| JavaText.SplitRawJoin | elasticsearch-logging-starter/src/main/java/com/lz/logging/client/RestClientFactory.java:56 | splitting a join of separator-free parts gives back the parts |
| JavaText.SplitJoin | es-log-demo/src/main/java/com/lz/sample/es/util/EsIndexManagementUtil.java:107-113 | `split` inverts a join of non-empty separator-free parts |
| JavaText.ReplaceAbsent | elasticsearch-logging-starter/src/main/java/com/lz/logging/support/IndexPatternResolver.java:88 | `String.replace` leaves a string without the target unchanged |
| JavaText.ReplaceSkipsPrefix | elasticsearch-logging-starter/src/main/java/com/lz/logging/support/IndexPatternResolver.java:88 | a prefix that cannot start the target passes through `replace` untouched |
| JavaText.ReplaceCharConcat | elasticsearch-logging-starter/src/main/java/com/lz/logging/support/Utils.java:34-38 | replacing a one-character target distributes over concatenation |
| JavaText.ToLower | elasticsearch-logging-starter/src/main/java/com/lz/logging/support/IndexPatternResolver.java:102 | `toLowerCase`: same length, character by character, and no upper-case ASCII letter remains |
| JavaText.LowerCaseEqualsToLower | elasticsearch-logging-starter/src/main/java/com/lz/logging/support/IndexPatternResolver.java:102 | comparing case-insensitively against a lower-case key is the same as comparing `toLowerCase` of the key |
| JavaText.ToLowerIdempotent | elasticsearch-logging-starter/src/main/java/com/lz/logging/support/IndexPatternResolver.java:102 | lower-casing twice is lower-casing once |
| JavaText.DigitChar | elasticsearch-logging-starter/src/main/java/com/lz/logging/core/client/RestClientFactory.java:116 | a digit value maps to an ASCII digit |
| JavaText.DecimalString | elasticsearch-logging-starter/src/main/java/com/lz/logging/core/client/RestClientFactory.java:116 | the decimal form of a natural number is a non-empty string of digits |
| JavaText.DecimalStringValue | elasticsearch-logging-starter/src/main/java/com/lz/logging/core/client/RestClientFactory.java:116 | reading the decimal form back gives the number |
| JavaText.ParseInt | elasticsearch-logging-starter/src/main/java/com/lz/logging/core/client/RestClientFactory.java:116 | `Integer.parseInt`: a success is a 32-bit value, the input is a digit or a sign followed by at least one digit, and every later character is a digit; for a digit string, and for `+` followed by digits, the value is that of the digits and the parse succeeds exactly when it is at most 2147483647; for `-` followed by digits the value is the negated digits and the parse succeeds exactly when they are at most 2147483648; a failure carries the input |
| JavaText.ParseIntDecimal | elasticsearch-logging-starter/src/main/java/com/lz/logging/core/client/RestClientFactory.java:116 | `parseInt` reads back the decimal form of every non-negative `int` |
| Time.DaysInMonth | elasticsearch-logging-starter/src/main/java/com/lz/logging/support/IndexPatternResolver.java:104-116 | a calendar month has 28 to 31 days |
| Time.Pad | elasticsearch-logging-starter/src/main/java/com/lz/logging/support/IndexPatternResolver.java:113-116 | zero-padding to a fixed width: exactly that many digits, reading back as the number |
| Time.FormatDate | elasticsearch-logging-starter/src/main/java/com/lz/logging/support/IndexPatternResolver.java:103-108 | `yyyy?MM?dd` with a chosen separator: ten characters with the separator at positions 4 and 7 |
| Time.FormatDateReadsBack | elasticsearch-logging-starter/src/main/java/com/lz/logging/support/IndexPatternResolver.java:103-108 | the year, month and day digits of a formatted date read back as the date's fields |
| Time.IsoLocalDate | elasticsearch-logging-starter/src/main/java/com/lz/logging/support/IndexPatternResolver.java:109-110 | `ISO_LOCAL_DATE` for years 1..9999 is ten characters |
| Time.FormatYearMonth | elasticsearch-logging-starter/src/main/java/com/lz/logging/support/IndexPatternResolver.java:111-112 | `yyyy-MM` is the first seven characters of the ISO date |
| BlockingQueue.DrainCount | es-log-demo/src/main/java/com/lz/sample/service/LogStorageService.java:61 | `drainTo(c, max)` moves min(size, max) elements, and none when max is not positive |
| BlockingQueue.Offer | elasticsearch-logging-starter/src/main/java/com/lz/logging/client/ElasticsearchLogClient.java:87-89 | `offer` on a bounded queue appends at the tail exactly when there is room, else leaves the queue as it was; the queue never grows past its capacity |
| Utils.IsBlank | elasticsearch-logging-starter/src/main/java/com/lz/logging/support/Utils.java:26-28 | true exactly for null or a string whose characters are all at most U+0020 |
| Utils.EscapeChars | elasticsearch-logging-starter/src/main/java/com/lz/logging/support/Utils.java:34-38 | the output has no raw newline, CR or tab; every `"` in it follows a backslash; its length is the input's plus one per escaped character; a string with nothing to escape is unchanged |
| Utils.ReplaceChainIsEscapeChars | elasticsearch-logging-starter/src/main/java/com/lz/logging/support/Utils.java:34-38 | the five chained `replace` calls, backslash first, equal the one-pass character escape, so no escape sequence is escaped twice |
| Utils.ReplaceChainConcat | elasticsearch-logging-starter/src/main/java/com/lz/logging/support/Utils.java:34-38 | the chain of replacements distributes over concatenation |
| Utils.ReplaceChainChar | elasticsearch-logging-starter/src/main/java/com/lz/logging/support/Utils.java:34-38 | on one character the chain produces that character's escape |
| Utils.EscapeJson | elasticsearch-logging-starter/src/main/java/com/lz/logging/support/Utils.java:30-39 | null gives the empty string; otherwise the result is the character escape of the input |
| Utils.UnescapeEscapeJson | elasticsearch-logging-starter/src/main/java/com/lz/logging/support/Utils.java:34-38 | a left-to-right decoder of `\\`, `\"`, `\n`, `\r`, `\t` recovers the input from `escapeJson` |
| Utils.UnescapeEscapeChars | elasticsearch-logging-starter/src/main/java/com/lz/logging/support/Utils.java:34-38 | the same round trip, on the character escape |
| IndexPatternResolver.MatchAt | elasticsearch-logging-starter/src/main/java/com/lz/logging/support/IndexPatternResolver.java:66 | a match of `%\{([^}]+)\}` starting at a position: it starts with `%` and is at least four characters long |
| IndexPatternResolver.MatchAtIsRegex | elasticsearch-logging-starter/src/main/java/com/lz/logging/support/IndexPatternResolver.java:66 | a match at j ending at e exists exactly when the text there is `%{`, one or more non-`}` characters, then `}` |
| IndexPatternResolver.ClosingBrace | elasticsearch-logging-starter/src/main/java/com/lz/logging/support/IndexPatternResolver.java:66 | the found position holds `}` |
| IndexPatternResolver.ClosingBraceFirst | elasticsearch-logging-starter/src/main/java/com/lz/logging/support/IndexPatternResolver.java:66 | it is the first `}`, and none is reported only when none exists |
| IndexPatternResolver.FindFrom | elasticsearch-logging-starter/src/main/java/com/lz/logging/support/IndexPatternResolver.java:80-82 | `matcher.find()` from a position: a match at or after it |
| IndexPatternResolver.FindFromLeftmost | elasticsearch-logging-starter/src/main/java/com/lz/logging/support/IndexPatternResolver.java:80-82 | the found match is the leftmost one, and no match is reported only when there is none |
| IndexPatternResolver.StampsAt | elasticsearch-logging-starter/src/main/java/com/lz/logging/support/IndexPatternResolver.java:103-116 | the seven date strings for one clock reading: well formed, ten-character dates, two-digit day and hour |
| IndexPatternResolver.StampFormats | elasticsearch-logging-starter/src/main/java/com/lz/logging/support/IndexPatternResolver.java:103-116 | `yyyy-MM-dd` equals `ISO_LOCAL_DATE`; the dotted and underscored dates differ from it only in the separator; year, month, day and hour read back from the digits; `yyyy-MM` is the date's first seven characters |
| IndexPatternResolver.RecognisedKeyLowerCase | elasticsearch-logging-starter/src/main/java/com/lz/logging/support/IndexPatternResolver.java:102-116 | a key is recognised exactly when its lower-case form is one of the seven `case` labels |
| IndexPatternResolver.ResolvePlaceholder | elasticsearch-logging-starter/src/main/java/com/lz/logging/support/IndexPatternResolver.java:101-120 | for each of the seven keys, in any letter case, the stamp it selects: `yyyy.MM.dd` the dotted date, `yyyy-MM-dd` the dashed date, `yyyy_MM_dd` the underscored date, `date` the ISO date, `month` `yyyy-MM`, `day` `dd`, `hour` `HH`; every other key gives null; a replacement is a non-empty string without `%` |
| IndexPatternResolver.Resolve | elasticsearch-logging-starter/src/main/java/com/lz/logging/support/IndexPatternResolver.java:74-93 | the loop computes the rewrite specification; null or blank gives `"app-logs"`; a non-blank pattern without a match is returned as is, untrimmed |
| IndexPatternResolver.ResolveAt | elasticsearch-logging-starter/src/main/java/com/lz/logging/support/IndexPatternResolver.java:74-93 | the same, for one given set of date strings |
| IndexPatternResolver.ReplacePlaceholders | elasticsearch-logging-starter/src/main/java/com/lz/logging/support/IndexPatternResolver.java:79-92 | the `while (matcher.find())` loop: matches are found in the original pattern and every known one is replaced in the accumulated result |
| IndexPatternResolver.RewriteStep | elasticsearch-logging-starter/src/main/java/com/lz/logging/support/IndexPatternResolver.java:82-89 | one loop iteration moves past the match, replacing its placeholder only when the key is known |
| IndexPatternResolver.RewriteStepAt | elasticsearch-logging-starter/src/main/java/com/lz/logging/support/IndexPatternResolver.java:86-88 | a known key's placeholder text is replaced by its value |
| IndexPatternResolver.RewriteFirstMatch | elasticsearch-logging-starter/src/main/java/com/lz/logging/support/IndexPatternResolver.java:79-92 | when replacing the first match leaves no `%`, the whole rewrite is that single `replace` |
| IndexPatternResolver.UnknownKeysKeepText | elasticsearch-logging-starter/src/main/java/com/lz/logging/support/IndexPatternResolver.java:86-89 | when no match has a known key, the result is left as it was |
| IndexPatternResolver.UnknownKeysResolveToPattern | elasticsearch-logging-starter/src/main/java/com/lz/logging/support/IndexPatternResolver.java:86-89 | a non-blank pattern whose placeholders are all unknown resolves to itself, text kept literally and nothing fails |
| IndexPatternResolver.RewriteWithoutPercent | elasticsearch-logging-starter/src/main/java/com/lz/logging/support/IndexPatternResolver.java:88 | once no `%` is left, later iterations change nothing |
| IndexPatternResolver.ReplaceWithoutTarget | elasticsearch-logging-starter/src/main/java/com/lz/logging/support/IndexPatternResolver.java:88 | `replace` leaves a string alone when the target's first character is absent |
| IndexPatternResolver.FindSkipsPercentFree | elasticsearch-logging-starter/src/main/java/com/lz/logging/support/IndexPatternResolver.java:82 | searching across text without `%` finds the same next match |
| IndexPatternResolver.PlaceholderMatches | elasticsearch-logging-starter/src/main/java/com/lz/logging/support/IndexPatternResolver.java:66 | `%{key}` with a non-empty key free of `}` is one regex match whose group is the key |
| IndexPatternResolver.InterleavePercentFree | elasticsearch-logging-starter/src/main/java/com/lz/logging/support/IndexPatternResolver.java:88 | joining `%`-free segments with a `%`-free value leaves no `%` |
| IndexPatternResolver.ReplaceInterleave | elasticsearch-logging-starter/src/main/java/com/lz/logging/support/IndexPatternResolver.java:88 | `replace` substitutes every occurrence of a placeholder between `%`-free segments |
| IndexPatternResolver.RewriteEveryOccurrence | elasticsearch-logging-starter/src/main/java/com/lz/logging/support/IndexPatternResolver.java:88 | a known placeholder repeated between literal segments is replaced at every occurrence |
| IndexPatternResolver.ResolveEveryOccurrence | elasticsearch-logging-starter/src/main/java/com/lz/logging/support/IndexPatternResolver.java:74-93 | resolving such a pattern replaces every occurrence by the key's date string |
| IndexPatternResolver.EmptyBracesStayLiteral | elasticsearch-logging-starter/src/main/java/com/lz/logging/support/IndexPatternResolver.java:66 | `%{}` is not a placeholder and stays in the result |
| IndexPatternResolver.AppLogsExample | elasticsearch-logging-starter/src/main/java/com/lz/logging/support/IndexPatternResolver.java:20-26 | `app-logs-%{key}` with a recognised key resolves to `app-logs-` followed by that key's date string |
| IndexPatternResolver.DottedDateKey | elasticsearch-logging-starter/src/main/java/com/lz/logging/support/IndexPatternResolver.java:103-104 | `yyyy.MM.dd` gives the dotted date |
| IndexPatternResolver.DashedDateKey | elasticsearch-logging-starter/src/main/java/com/lz/logging/support/IndexPatternResolver.java:105-106 | `yyyy-MM-dd` gives the dashed date |
| IndexPatternResolver.UnderscoredDateKey | elasticsearch-logging-starter/src/main/java/com/lz/logging/support/IndexPatternResolver.java:107-108 | `yyyy_MM_dd` gives the underscored date |
| IndexPatternResolver.DocumentedFieldKeys | elasticsearch-logging-starter/src/main/java/com/lz/logging/support/IndexPatternResolver.java:109-116 | `date`, `month`, `day` and `hour` give the ISO date, `yyyy-MM`, `dd` and `HH` |
| IndexPatternResolver.MixedCaseKeys | elasticsearch-logging-starter/src/main/java/com/lz/logging/support/IndexPatternResolver.java:102 | `YYYY-MM-DD`, `Date` and `HOUR` resolve, since keys are lower-cased first |
| IndexPatternResolver.UnknownKeys | elasticsearch-logging-starter/src/main/java/com/lz/logging/support/IndexPatternResolver.java:117-118 | `year` and `yyyyMMdd` have no replacement |
| IndexPatternResolver.DocumentedLiteralPatterns | elasticsearch-logging-starter/src/main/java/com/lz/logging/support/IndexPatternResolver.java:28-32 | `app-logs` is kept, and empty, blank and null patterns give `app-logs` |
| StarterLogClient.IndexOperationsShape | elasticsearch-logging-starter/src/main/java/com/lz/logging/client/ElasticsearchLogClient.java:128-135 | one index operation per document, in order, all to the same index |
| StarterLogClient.OperationDocumentsOfBatch | elasticsearch-logging-starter/src/main/java/com/lz/logging/client/ElasticsearchLogClient.java:128-135 | the operations carry exactly the batch's documents, in order |
| StarterLogClient.Transport.Index | elasticsearch-logging-starter/src/main/java/com/lz/logging/client/ElasticsearchLogClient.java:108 | the transport records one index request and nothing else, and ends as the given outcome: indexed, an `IOException`, or a runtime exception |
| StarterLogClient.Transport.Bulk | elasticsearch-logging-starter/src/main/java/com/lz/logging/client/ElasticsearchLogClient.java:152 | the transport records one bulk request and nothing else |
| StarterLogClient.ElasticsearchLogClient.constructor | elasticsearch-logging-starter/src/main/java/com/lz/logging/client/ElasticsearchLogClient.java:48-74 | empty queue and buffer with capacity `queueSize`; the periodic consumer is scheduled only when bulk is enabled |
| StarterLogClient.ElasticsearchLogClient.ResolveIndexName | elasticsearch-logging-starter/src/main/java/com/lz/logging/client/ElasticsearchLogClient.java:253-255 | the configured index pattern, resolved |
| StarterLogClient.ElasticsearchLogClient.SendSync | elasticsearch-logging-starter/src/main/java/com/lz/logging/client/ElasticsearchLogClient.java:99-114 | exactly one index request, for the document, to the resolved index; an `IOException` is swallowed, while a runtime exception from the client escapes as an error |
| StarterLogClient.ElasticsearchLogClient.SendAsync | elasticsearch-logging-starter/src/main/java/com/lz/logging/client/ElasticsearchLogClient.java:79-94 | with `async` off, it sends at once, leaves the queue alone and lets the runtime exception of `sendSync` escape; otherwise it appends at the tail when there is room, drops the document when the queue is full, and never fails |
| StarterLogClient.ElasticsearchLogClient.SendBulk | elasticsearch-logging-starter/src/main/java/com/lz/logging/client/ElasticsearchLogClient.java:119-172 | null or empty input sends nothing; otherwise one bulk request with one operation per document, in order, to one index resolved once, with the configured timeout and refresh policy |
| StarterLogClient.ElasticsearchLogClient.GetQueueSize | elasticsearch-logging-starter/src/main/java/com/lz/logging/client/ElasticsearchLogClient.java:191-193 | the queue length, never above the capacity |
| StarterLogClient.ElasticsearchLogClient.DrainTo | elasticsearch-logging-starter/src/main/java/com/lz/logging/client/ElasticsearchLogClient.java:214 | removes up to the limit from the head, in FIFO order, and records them as drained |
| StarterLogClient.ElasticsearchLogClient.ConsumeBatch | elasticsearch-logging-starter/src/main/java/com/lz/logging/client/ElasticsearchLogClient.java:211-224 | removes min(size, bulkSize) documents from the head in FIFO order and sends them as one bulk request, nothing when none were drained; the buffer is empty afterwards |
| StarterLogClient.ElasticsearchLogClient.FlushRemainingLogs | elasticsearch-logging-starter/src/main/java/com/lz/logging/client/ElasticsearchLogClient.java:226-239 | empties the whole queue and sends it as one bulk request only if anything was drained |
| StarterLogClient.ElasticsearchLogClient.Close | elasticsearch-logging-starter/src/main/java/com/lz/logging/client/ElasticsearchLogClient.java:294-296 | shuts the scheduler down and leaves the queue as it is |
| DemoLogStorage.NormalizeBatchSize | es-log-demo/src/main/java/com/lz/sample/service/LogStorageService.java:94-99 | 200 when the value is at most 0, else min(value, 5000); always within 1..5000 |
| DemoLogStorage.NormalizeQueueCapacity | es-log-demo/src/main/java/com/lz/sample/service/LogStorageService.java:101-106 | 10000 when the value is at most 0, else the value; always positive |
| DemoLogStorage.ToEsDocument | es-log-demo/src/main/java/com/lz/sample/service/LogStorageService.java:77-84 | keys are exactly `@timestamp`, `level`, `message` and `app_name`; `app_name` is `es-log-demo`; level and message are copied; a missing timestamp gives the current instant, a present one its zone-converted instant |
| DemoLogStorage.ToEsDocuments | es-log-demo/src/main/java/com/lz/sample/service/LogStorageService.java:67-69 | one document per entry, in order, each entry reading the clock on its own |
| DemoLogStorage.BulkWriteSink.BulkWrite | es-log-demo/src/main/java/com/lz/sample/service/LogStorageService.java:71 | the writer records one call with the index and documents, and returns the given outcome |
| DemoLogStorage.LogStorageService.constructor | es-log-demo/src/main/java/com/lz/sample/service/LogStorageService.java:46-56 | the batch size and queue capacity are the normalised values, and the queue starts empty |
| DemoLogStorage.LogStorageService.AddLogToQueue | es-log-demo/src/main/java/com/lz/sample/service/LogStorageService.java:39-44 | null is a no-op; otherwise the entry is offered, which appends it when there is room and drops it when the queue is full |
| DemoLogStorage.LogStorageService.FlushQueueToElasticsearch | es-log-demo/src/main/java/com/lz/sample/service/LogStorageService.java:59-75 | removes the first min(size, batchSize) entries in FIFO order; when there were none it makes no call, otherwise one bulk write of one document per entry, in order, to the configured index, each entry without a timestamp stamped with its own clock reading; drained entries are never re-queued, even on failure |
| SampleLogStorage.LogLineParts | elasticsearch-logging-sample/src/main/java/com/lz/sample/service/LogStorageService.java:31-34 | a line is `[` + timestamp + `] ` + level + ` - ` + message + newline, and its parts can be read off by position |
| SampleLogStorage.LogLinesShape | elasticsearch-logging-sample/src/main/java/com/lz/sample/service/LogStorageService.java:30-36 | one line per entry, in order |
| SampleLogStorage.FirstNullTimestamp | elasticsearch-logging-sample/src/main/java/com/lz/sample/service/LogStorageService.java:32 | the first entry without a timestamp, where formatting throws |
| SampleLogStorage.LinesWritten | elasticsearch-logging-sample/src/main/java/com/lz/sample/service/LogStorageService.java:30-39 | the number of lines written never passes the first entry without a timestamp |
| SampleLogStorage.CompleteStoreWritesAll | elasticsearch-logging-sample/src/main/java/com/lz/sample/service/LogStorageService.java:30-36 | a store that completes writes every drained entry |
| SampleLogStorage.LogFile.Write | elasticsearch-logging-sample/src/main/java/com/lz/sample/service/LogStorageService.java:27-35 | the file is opened for appending: each write adds a line after the earlier contents |
| SampleLogStorage.LogStorageService.constructor | elasticsearch-logging-sample/src/main/java/com/lz/sample/service/LogStorageService.java:15-16 | empty queue; file `application_logs.txt` |
| SampleLogStorage.LogStorageService.AddLogToQueue | elasticsearch-logging-sample/src/main/java/com/lz/sample/service/LogStorageService.java:18-20 | an unbounded queue: the entry is appended at the tail; null is rejected and the queue is unchanged |
| SampleLogStorage.LogStorageService.StoreLogsToFile | elasticsearch-logging-sample/src/main/java/com/lz/sample/service/LogStorageService.java:22-41 | afterwards the queue is empty; the file gains the lines of the drained entries, in FIFO order, up to a write failure or the first entry without a timestamp; drained entries are lost rather than re-queued |
| SampleLogStorage.LogStorageService.WriteLines | elasticsearch-logging-sample/src/main/java/com/lz/sample/service/LogStorageService.java:27-39 | the `for` loop appends one line per entry until it fails |
| SimpleEsWriter.EsClient.Bulk | es-log-demo/src/main/java/com/lz/sample/es/SimpleEsWriter.java:307 | the client records one bulk request |
| SimpleEsWriter.EsClient.Search | es-log-demo/src/main/java/com/lz/sample/es/SimpleEsWriter.java:590 | the client records one search request |
| SimpleEsWriter.EsClient.Close | es-log-demo/src/main/java/com/lz/sample/es/SimpleEsWriter.java:636-644 | the client records one close |
| SimpleEsWriter.KeptConcat | es-log-demo/src/main/java/com/lz/sample/es/SimpleEsWriter.java:294-299 | filtering distributes over concatenation, which is what the loop relies on |
| SimpleEsWriter.KeptExactly | es-log-demo/src/main/java/com/lz/sample/es/SimpleEsWriter.java:294-297 | the kept documents are exactly the non-null, non-empty ones, never more than the input |
| SimpleEsWriter.KeptEmpty | es-log-demo/src/main/java/com/lz/sample/es/SimpleEsWriter.java:302-304 | nothing is kept exactly when every document is null or empty |
| SimpleEsWriter.Requests | es-log-demo/src/main/java/com/lz/sample/es/SimpleEsWriter.java:298-299 | one index request per document, in order, each to `indexName` |
| SimpleEsWriter.SimpleEsWriter.RestHighLevelClient | es-log-demo/src/main/java/com/lz/sample/es/SimpleEsWriter.java:76 | installs a fresh client with no recorded calls |
| SimpleEsWriter.SimpleEsWriter.BulkWrite | es-log-demo/src/main/java/com/lz/sample/es/SimpleEsWriter.java:288-316 | a null or all-empty list returns true with no request; otherwise one bulk request of exactly the non-empty documents, in order, and true iff there were no failures; an exception or a missing client gives false |
| SimpleEsWriter.SimpleEsWriter.SearchWithPagination | es-log-demo/src/main/java/com/lz/sample/es/SimpleEsWriter.java:563-600 | a negative offset or size fails with `分页查询失败` before any search is sent; otherwise one search at offset `(page - 1) * size` in `int` arithmetic, with the size, sorted by `@timestamp` descending, match-all when no query is given; a missing client or a failed search is reported with the same error |
| SimpleEsWriter.SimpleEsWriter.Close | es-log-demo/src/main/java/com/lz/sample/es/SimpleEsWriter.java:633-645 | closes the client only when one exists |
| SimpleEsWriter.SimpleEsWriter.GetShardCount | es-log-demo/src/main/java/com/lz/sample/es/SimpleEsWriter.java:321-342 | the loop computes the sum of the copy-array lengths, skipping non-array entries; 0 for a missing or non-object shards node |
| SimpleEsWriter.SimpleEsWriter.GetSuccessfulShards | es-log-demo/src/main/java/com/lz/sample/es/SimpleEsWriter.java:347-374 | the loop counts the copies in state `STARTED` |
| SimpleEsWriter.SimpleEsWriter.GetFailedShards | es-log-demo/src/main/java/com/lz/sample/es/SimpleEsWriter.java:379-406 | the loop counts the copies in any other state |
| SimpleEsWriter.PageOffset | es-log-demo/src/main/java/com/lz/sample/es/SimpleEsWriter.java:566 | `(page - 1) * size` in Java `int`: a 32-bit value, equal to the exact product when that fits |
| SimpleEsWriter.PageOffsetSteps | es-log-demo/src/main/java/com/lz/sample/es/SimpleEsWriter.java:566 | page 1 starts at 0 and each further page starts `size` later, as long as nothing overflows |
| SimpleEsWriter.StartedSplit | es-log-demo/src/main/java/com/lz/sample/es/SimpleEsWriter.java:363-367 | within one copy array, started plus not-started is its length |
| SimpleEsWriter.FieldsSplit | es-log-demo/src/main/java/com/lz/sample/es/SimpleEsWriter.java:355-368 | the same summed over the shards |
| SimpleEsWriter.ShardsBalance | es-log-demo/src/main/java/com/lz/sample/es/SimpleEsWriter.java:321-406 | successful + failed = total over the same shards node, so neither exceeds the total |
| HttpHosts.SplitEmptyIff | elasticsearch-logging-starter/src/main/java/com/lz/logging/core/client/RestClientFactory.java:114-115 | `split` returns no parts exactly when the input is non-empty and made only of separators, where `parts[0]` throws |
| HttpHosts.SplitFirst | elasticsearch-logging-starter/src/main/java/com/lz/logging/core/client/RestClientFactory.java:115 | the first part is the text before the first separator |
| HttpHosts.ParseHost | elasticsearch-logging-starter/src/main/java/com/lz/logging/core/client/RestClientFactory.java:114-117 | an entry without `:` is a host on port 9200; every parsed host has the given scheme and an `int` port |
| HttpHosts.ParseHostShape | elasticsearch-logging-starter/src/main/java/com/lz/logging/core/client/RestClientFactory.java:114-116 | the host name is the entry's text before the first `:`; an entry made only of colons throws an index error |
| HttpHosts.Collect | elasticsearch-logging-starter/src/main/java/com/lz/logging/core/client/RestClientFactory.java:113-119 | the stream succeeds when every entry does, with the hosts in order; otherwise it fails with the first error |
| HttpHosts.ParseAll | elasticsearch-logging-starter/src/main/java/com/lz/logging/core/client/RestClientFactory.java:113-119 | one host per entry, in order, each with the scheme; entries without `:` become hosts on port 9200 |
| HttpHosts.Trimmed | elasticsearch-logging-starter/src/main/java/com/lz/logging/core/client/RestClientFactory.java:111 | each entry trimmed, in order |
| HttpHosts.Credentials | elasticsearch-logging-starter/src/main/java/com/lz/logging/client/RestClientFactory.java:70-75 | credentials are set exactly when both username and password are non-null, and then they are that pair |
| HttpHosts.HostEntries | elasticsearch-logging-starter/src/main/java/com/lz/logging/core/client/RestClientFactory.java:110-119 | one `host:port` entry per host, the writer of the parser's input |
| HttpHosts.ParseHostEntry | elasticsearch-logging-starter/src/main/java/com/lz/logging/core/client/RestClientFactory.java:114-117 | parsing a written `host:port` gives back the host, and the entry survives trimming and splitting on `,` |
| HttpHosts.ParseAllEntries | elasticsearch-logging-starter/src/main/java/com/lz/logging/core/client/RestClientFactory.java:113-119 | parsing every written entry gives back the host list |
| CoreRestClientFactory.NonEmpty | elasticsearch-logging-starter/src/main/java/com/lz/logging/core/client/RestClientFactory.java:112 | the filter keeps only non-empty entries and never adds any |
| CoreRestClientFactory.NonEmptyExactly | elasticsearch-logging-starter/src/main/java/com/lz/logging/core/client/RestClientFactory.java:112 | an entry survives the filter exactly when it is non-empty |
| CoreRestClientFactory.NonEmptyKeepsAll | elasticsearch-logging-starter/src/main/java/com/lz/logging/core/client/RestClientFactory.java:112 | the filter keeps a list without blanks unchanged, in order |
| CoreRestClientFactory.ParseHosts | elasticsearch-logging-starter/src/main/java/com/lz/logging/core/client/RestClientFactory.java:109-120 | one host per non-blank comma-separated entry, each with the scheme |
| CoreRestClientFactory.ParseHostsRoundTrip | elasticsearch-logging-starter/src/main/java/com/lz/logging/core/client/RestClientFactory.java:109-120 | parsing the comma-joined `host:port` entries of a host list gives the list back, in order |
| CoreRestClientFactory.BuildClient | elasticsearch-logging-starter/src/main/java/com/lz/logging/core/client/RestClientFactory.java:61-107 | fails exactly when host parsing fails; the client has the parsed hosts, and credentials exactly when both username and password are given |
| CoreRestClientFactory.RestClientFactory.constructor | elasticsearch-logging-starter/src/main/java/com/lz/logging/core/client/RestClientFactory.java:44-47 | no client has been built yet |
| CoreRestClientFactory.RestClientFactory.CreateElasticsearchClient | elasticsearch-logging-starter/src/main/java/com/lz/logging/core/client/RestClientFactory.java:44-56 | built at most once: once a client exists it is returned whatever properties are passed; otherwise the result is `buildClient`, kept on success |
| ClientRestClientFactory.BlankEntryKept | elasticsearch-logging-starter/src/main/java/com/lz/logging/client/RestClientFactory.java:56-64 | there is no blank filtering: a blank entry is passed on to `HttpHost` as an empty name on port 9200, and the array has one host per part of the split (whether `HttpHost` then rejects the empty name is not modelled) |
| ClientRestClientFactory.EmptyEntryHost | elasticsearch-logging-starter/src/main/java/com/lz/logging/client/RestClientFactory.java:60-63 | an empty entry parses as an empty host name on port 9200 |
| ClientRestClientFactory.AgreesWithCore | elasticsearch-logging-starter/src/main/java/com/lz/logging/client/RestClientFactory.java:56-64 | with no blank entry, both factories parse the same host list |
| ClientRestClientFactory.ParseHostArray | elasticsearch-logging-starter/src/main/java/com/lz/logging/client/RestClientFactory.java:57-64 | the loop fills the array by index: the trimmed entries parsed in order, failing with the first entry's error |
| ClientRestClientFactory.RestClientFactory.constructor | elasticsearch-logging-starter/src/main/java/com/lz/logging/client/RestClientFactory.java:29-30 | neither client exists yet |
| ClientRestClientFactory.RestClientFactory.CreateRestClientWithPool | elasticsearch-logging-starter/src/main/java/com/lz/logging/client/RestClientFactory.java:54-126 | succeeds exactly when the hosts parse; the client has those hosts, credentials exactly when both username and password are given, and compression on; it is stored in `restClient` |
| ClientRestClientFactory.RestClientFactory.CreateElasticsearchClient | elasticsearch-logging-starter/src/main/java/com/lz/logging/client/RestClientFactory.java:35-49 | created once and reused on later calls; a new client wraps the rest client just stored |
| LogEventConverter.NewConverter | elasticsearch-logging-starter/src/main/java/com/lz/logging/logback/LogEventConverter.java:22-33 | null properties keep the system zone with no application or environment; an unparseable zone id keeps the system default; application and environment are copied |
| LogEventConverter.FirstPresent | elasticsearch-logging-starter/src/main/java/com/lz/logging/logback/LogEventConverter.java:68-78 | the primary key's value if present, else the secondary key's; anything found is a value of the map |
| LogEventConverter.Convert | elasticsearch-logging-starter/src/main/java/com/lz/logging/logback/LogEventConverter.java:39-82 | timestamp formatted in the converter's zone; level, logger, message and thread copied; exception set exactly when there is a throwable; the MDC attached only when non-null and non-empty; `traceId` from `traceId`, else `trace_id`, else unset; `spanId` the same way |
| LogEventConverter.DefaultConverterLeavesContextUnset | elasticsearch-logging-starter/src/main/java/com/lz/logging/logback/LogEventConverter.java:31-37 | with null properties or the no-arg constructor, application and environment are never set |
| LogEventConverter.PlainEventHasNoDiagnostics | elasticsearch-logging-starter/src/main/java/com/lz/logging/logback/LogEventConverter.java:57-78 | an event without throwable or MDC yields no exception, MDC, trace id or span id |
| ThreadLocalMdc.Lookup | elasticsearch-logging-starter/src/main/java/com/lz/logging/support/ThreadLocalMDC.java:47-49 | `HashMap.get`: null for an absent key, else the stored value |
| ThreadLocalMdc.ThreadLocalMdc.constructor | elasticsearch-logging-starter/src/main/java/com/lz/logging/support/ThreadLocalMDC.java:24-25 | the map starts empty |
| ThreadLocalMdc.ThreadLocalMdc.Put | elasticsearch-logging-starter/src/main/java/com/lz/logging/support/ThreadLocalMDC.java:34-39 | a null key is rejected and the map is unchanged; otherwise the key maps to the value, even a null one, so `get` then answers that value (null for a stored null, as for an absent key, while `containsKey` is true), and every other key reads as before |
| ThreadLocalMdc.ThreadLocalMdc.Get | elasticsearch-logging-starter/src/main/java/com/lz/logging/support/ThreadLocalMDC.java:47-49 | the value stored under the key, or null |
| ThreadLocalMdc.ThreadLocalMdc.Remove | elasticsearch-logging-starter/src/main/java/com/lz/logging/support/ThreadLocalMDC.java:57-59 | returns the previous value (or null), and afterwards the key is absent and nothing else has changed |
| ThreadLocalMdc.ThreadLocalMdc.Clear | elasticsearch-logging-starter/src/main/java/com/lz/logging/support/ThreadLocalMDC.java:64-66 | the map becomes empty |
| ThreadLocalMdc.ThreadLocalMdc.GetCopyOfContextMap | elasticsearch-logging-starter/src/main/java/com/lz/logging/support/ThreadLocalMDC.java:73-75 | a snapshot equal to the current map, held as a value and so unaffected by later updates |
| ThreadLocalMdc.ThreadLocalMdc.SetContextMap | elasticsearch-logging-starter/src/main/java/com/lz/logging/support/ThreadLocalMDC.java:82-88 | null resets to an empty map; otherwise the map becomes a copy of the argument |
| ThreadLocalMdc.ThreadLocalMdc.ContainsKey | elasticsearch-logging-starter/src/main/java/com/lz/logging/support/ThreadLocalMDC.java:96-98 | true exactly when the key is present |
| ThreadLocalMdc.ThreadLocalMdc.Size | elasticsearch-logging-starter/src/main/java/com/lz/logging/support/ThreadLocalMDC.java:105-107 | the number of keys |
| ThreadLocalMdc.ThreadLocalMdc.IsEmpty | elasticsearch-logging-starter/src/main/java/com/lz/logging/support/ThreadLocalMDC.java:114-116 | true exactly when the map is empty |
| EsCustomCommandService.ListIndices | es-log-demo/src/main/java/com/lz/sample/service/EsCustomCommandService.java:35-43 | a GET with no body to `/_cat/indices?` + options when options is non-empty, else to `/_cat/indices?v` |
| EsCustomCommandService.ListIndicesQueryString | es-log-demo/src/main/java/com/lz/sample/service/EsCustomCommandService.java:35-43 | the endpoint is always `/_cat/indices?` followed by the options or `v` |
| EsCustomCommandService.CreateIndex | es-log-demo/src/main/java/com/lz/sample/service/EsCustomCommandService.java:49-54 | a blank name gives the error text and no request; otherwise a PUT to `/` + name with no body |
| EsCustomCommandService.WriteData | es-log-demo/src/main/java/com/lz/sample/service/EsCustomCommandService.java:61-72 | a blank name gives the error text; a serialisation failure gives `Error: Failed to serialize data - ` + its message; otherwise a POST to `/` + name + `/_doc` with the serialised data |
| EsCustomCommandService.SearchData | es-log-demo/src/main/java/com/lz/sample/service/EsCustomCommandService.java:79-88 | a blank name gives the error text; otherwise a GET to `/` + name + `/_search` whose body is the query when it is not blank, else the match_all query |
| EsCustomCommandService.SearchBodyNeverBlank | es-log-demo/src/main/java/com/lz/sample/service/EsCustomCommandService.java:83-87 | a search that is sent always carries a non-blank body |
| EsCustomCommandService.GetIndexDetails | es-log-demo/src/main/java/com/lz/sample/service/EsCustomCommandService.java:94-99 | a blank name gives the error text; otherwise a GET to `/` + name with no body |
| EsCustomCommandService.DeleteIndex | es-log-demo/src/main/java/com/lz/sample/service/EsCustomCommandService.java:105-110 | a blank name gives the error text; otherwise a DELETE to `/` + name with no body |
| EsCustomCommandService.IndexOperationsDistinct | es-log-demo/src/main/java/com/lz/sample/service/EsCustomCommandService.java:49-110 | for one valid name, the five index operations send five different requests, each to an endpoint starting with `/` + name |
| EsIndexManagementUtil.WithBody | es-log-demo/src/main/java/com/lz/sample/es/util/EsIndexManagementUtil.java:47-51 | method and endpoint are kept; a body is attached exactly when it is non-null and not blank, and then verbatim |
| EsIndexManagementUtil.Acknowledged | es-log-demo/src/main/java/com/lz/sample/es/util/EsIndexManagementUtil.java:244 | true exactly when `acknowledged` is present and true; a non-boolean value raises a cast error |
| EsIndexManagementUtil.JoinNames | es-log-demo/src/main/java/com/lz/sample/es/util/EsIndexManagementUtil.java:107-113 | the `StringBuilder` join: empty exactly when every name is empty |
| EsIndexManagementUtil.JoinNamesIsJoin | es-log-demo/src/main/java/com/lz/sample/es/util/EsIndexManagementUtil.java:107-113 | for non-empty names the join is the names in order, separated by `,`, with no leading or trailing separator |
| EsIndexManagementUtil.JoinNamesSplit | es-log-demo/src/main/java/com/lz/sample/es/util/EsIndexManagementUtil.java:107-113 | splitting the joined names on `,` gives them back |
| EsIndexManagementUtil.LeadingEmptyNameAddsNoSeparator | es-log-demo/src/main/java/com/lz/sample/es/util/EsIndexManagementUtil.java:109-111 | the separator is added only when the builder is non-empty, so a leading empty name adds none, unlike `String.join` |
| EsIndexManagementUtil.JsonBody | es-log-demo/src/main/java/com/lz/sample/es/util/EsIndexManagementUtil.java:179-186 | no body stays none, a string body is sent verbatim, another body is serialised, and only a failed serialisation fails |
| EsIndexManagementUtil.BatchRequests | es-log-demo/src/main/java/com/lz/sample/es/util/EsIndexManagementUtil.java:188-194 | one request per operation performed, in order |
| EsIndexManagementUtil.Summaries | es-log-demo/src/main/java/com/lz/sample/es/util/EsIndexManagementUtil.java:197-204 | one summary per operation, in order, with its method and endpoint and status `completed` |
| EsIndexManagementUtil.EsIndexManagementUtil.ExecuteRequest | es-log-demo/src/main/java/com/lz/sample/es/util/EsIndexManagementUtil.java:47-60 | a null method or endpoint fails with a `NullPointerException` and sends nothing; otherwise it records exactly one request, the body attached by the blank rule, and answers the response map or an I/O error |
| EsIndexManagementUtil.EsIndexManagementUtil.DeleteDeprecationIndices | es-log-demo/src/main/java/com/lz/sample/es/util/EsIndexManagementUtil.java:93-120 | lists the `.deprecation*` indices; none gives true with no delete; otherwise one delete of the joined names, returning its acknowledgement |
| EsIndexManagementUtil.EsIndexManagementUtil.ExecuteBatchOperations | es-log-demo/src/main/java/com/lz/sample/es/util/EsIndexManagementUtil.java:169-205 | null or empty input gives an empty list; otherwise it succeeds exactly when no operation fails, sending every request in order and returning the summaries; on failure it stops at the first failing operation (a body that does not serialise, a null method or endpoint, or a request that throws), sends that operation's request only if it could be built, and propagates its exception: `NullPointerException` for the null method or endpoint, an I/O error otherwise |
| EsIndexManagementUtil.EsIndexManagementUtil.IndexExists | es-log-demo/src/main/java/com/lz/sample/es/util/EsIndexManagementUtil.java:214-226 | one `_cat/indices` request for the name; true exactly when it lists a row |
| EsIndexManagementUtil.EsIndexManagementUtil.AcknowledgedAction | es-log-demo/src/main/java/com/lz/sample/es/util/EsIndexManagementUtil.java:235-264 | checks existence first; an absent index gives false with no further request; otherwise one POST to the action endpoint, answered by its acknowledgement |
| EsIndexManagementUtil.EsIndexManagementUtil.OpenIndex | es-log-demo/src/main/java/com/lz/sample/es/util/EsIndexManagementUtil.java:235-245 | an absent index gives false after only the existence check; an existing one adds exactly a POST to `/` + name + `/_open`, and the result is an I/O error without a response, otherwise the `acknowledged` reading of the response (true only when it is true) |
| EsIndexManagementUtil.EsIndexManagementUtil.CloseIndex | es-log-demo/src/main/java/com/lz/sample/es/util/EsIndexManagementUtil.java:254-264 | the same with `/_close`: false after only the existence check when absent; otherwise one POST, an I/O error without a response, else the `acknowledged` reading |
| DemoTestController.BuildQuery | es-log-demo/src/main/java/com/lz/sample/controller/TestController.java:215-220 | null or blank gives no query; otherwise a query-string query over `message` with the text verbatim |
| DemoTestController.Delegate | es-log-demo/src/main/java/com/lz/sample/controller/TestController.java:84-90 | calls the service once; its result becomes 200 and an exception becomes 500 |
| DemoTestController.SearchWithPagination | es-log-demo/src/main/java/com/lz/sample/controller/TestController.java:73-91 | invalid paging gives 400 without calling the service; otherwise it searches with the built query, page and size; 400 is answered exactly when no call is made |
| DemoTestController.SearchAllWithPagination | es-log-demo/src/main/java/com/lz/sample/controller/TestController.java:103-118 | invalid paging gives 400 without calling the service; otherwise it makes a match-all page call; 400 is answered exactly when no call is made |
| DemoTestController.GetTotalCount | es-log-demo/src/main/java/com/lz/sample/controller/TestController.java:128-140 | always counts with the built query, and never answers 400 |
| DemoTestController.SearchAll | es-log-demo/src/main/java/com/lz/sample/controller/TestController.java:150-160 | always requests page 1 with size 10, which is valid paging |
| DemoTestController.ValidPaginationOffset | es-log-demo/src/main/java/com/lz/sample/controller/TestController.java:204-206 | for valid paging up to page 2147484 the writer's `int` offset is the exact non-negative `(page - 1) * size` |
| DemoTestController.ValidPaginationOffsetWraps | es-log-demo/src/main/java/com/lz/sample/controller/TestController.java:204-206 | the check admits page 2147485 with size 1000, whose offset overflows `int` and wraps to -2147483296, a negative offset that `SimpleEsWriter.SimpleEsWriter.SearchWithPagination` refuses with an error |
| DemoTestController.TestController.AddLog | es-log-demo/src/main/java/com/lz/sample/controller/TestController.java:42-46 | offers exactly one entry with the given level and message, stamped now, and answers `Log added to queue` |
| DemoTestController.TestController.AddEmptyMessageLog | es-log-demo/src/main/java/com/lz/sample/controller/TestController.java:55-61 | offers one entry with level `test` and an empty message |

## Left out

- Concurrency and timing are not modelled:
  - the scheduled consumer and health-check timers;
  - the 100 ms `offer` timeout, modelled as an immediate accept-or-drop;
  - the thread safety of `LinkedBlockingQueue`;
  - the per-thread nature of `ThreadLocal`, modelled as one map;
  - double-checked locking in both factories, modelled as sequential calls.
- Network transports (`RestHighLevelClient`, `ElasticsearchClient`, the low-level `performRequest`) are classes that record requests. Their responses, exceptions and per-item bulk failures are parameters.
- `isHealthy`, `startHealthCheck`, `startBulkProcessor`, `createIndexIfNotExists`, `createIndexWithMapping` and `destroy` in the starter client are not modelled. They are timers or index-API calls whose results come from the network.
- Clock and time zones are parameters:
  - the resolver receives the seven date strings of one clock reading;
  - the converter receives a zone and a formatter;
  - the demo storage receives a clock read once per converted entry, and a zone formatter;
  - the sample storage receives its `yyyy-MM-dd HH:mm:ss` formatter as an unconstrained function.
- IndexPatternResolver.Resolve: takes one clock reading for the whole pattern, while `resolvePlaceholder` calls `LocalDateTime.now()` once per placeholder. A pattern resolved across a date change can mix two dates in Java; the model cannot.
- DemoLogStorage.ToEsDocument: the `@timestamp` value is the clock reading or the zone formatter's result, both parameters. `ISO_INSTANT` formatting itself is not modelled.
- JavaText.ToLower: lowers ASCII letters only. None of the seven resolver keys contains `i` or `k`, the letters whose lower case can come from a non-ASCII character, so key matching is unaffected.
- JavaText.ParseInt: accepts only ASCII digits. Java also accepts other Unicode decimal digits in a port number.
- `%n` in the sample's line format is written as `\n`, the line separator on Unix.
- A null `hosts` string (a `NullPointerException` in both factories) is not modelled. Hosts are a `string`.
- `RestClient.builder`'s own checks are not modelled, and neither are `HttpHost`'s. This covers an empty host array, an empty host name, and the range of a port.
- The pool sizes, timeouts and IO-reactor settings of both factories are stored in the client record. Their effect is not modelled.
- `getDeprecationLogs`, `getKibanaIndices`, `getKibanaConfig`, `getIndexStats` and `clearIndexCache` in `EsIndexManagementUtil` are not modelled. Each forwards a fixed endpoint to `executeRequest`, which is modelled.
- A `ClassCastException` from an operation's method or endpoint value that is not a `String` is not modelled. The model's operations carry typed fields.
- Rows of the `.deprecation` listing without an `index` field are not modelled. The listing is given as the list of names.
- The null `RequestOptions` passed to the delete call in `deleteDeprecationIndices` is not modelled; its behaviour belongs to the client library.
- The Java `int` counters of the shard counts are unbounded here. A shard map with more than 2^31 - 1 copies cannot occur in practice.
- SimpleEsWriter operations other than `bulkWrite`, the shard counters, `searchWithPagination`'s request and `close` are not modelled. This covers index statistics, raw requests, `writeLog` and document extraction, all of which walk JSON responses or only forward to the client.
- The demo `LogStorageService`'s search, count and index-listing methods are not modelled separately. They forward to `SimpleEsWriter`, and the handlers take them as the `service` parameter.
- The `getAll` and `getAllIndex` handlers of `TestController` are not modelled. Neither validates its input; both only forward.
- Response bodies of 400 and 500 answers are absent (`None`), as in the source, which builds them without a body.
- JSON serialisation (Jackson) is a parameter that either produces text or fails. Parsing the `_cat/indices` answer is replaced by its row count and name list.
- `LogEventConverter` does not model the other `EsLogDocument` fields, which it never sets.
- `Utils.getProcessId` and `getHostname` are not modelled; they are JVM and network lookups.
- StarterLogClient.ElasticsearchLogClient.constructor: requires a positive `queueSize` and a non-negative `bulkSize`. The Java constructor throws `IllegalArgumentException` from `LinkedBlockingQueue` and `ArrayList` in those cases, and the model leaves that path out. It also throws `IllegalArgumentException` from `scheduleWithFixedDelay` in `startBulkProcessor` when bulk sending is enabled and `bulkInterval` is zero or negative; the model schedules the consumer without checking the interval and leaves that failure out. Finally, `RestClientFactory.createElasticsearchClient` can throw while the constructor builds its client, for a host list that does not parse; the model receives the client already built, so that failure is left out here and stated for the factory by `CoreRestClientFactory.BuildClient`.
