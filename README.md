# FirePHP query-profiler log target

This project models `FirePHPTarget`, a Yii2 log target. The target buffers the
SQL-profiling messages the host logger hands it. When the buffer is flushed, it
sends a FirePHP "Query summary" table, then one table for each finished query
(each `PROFILE_END` message). When explain mode is on, a query whose text names
a DML keyword also gets an `EXPLAIN` table.

The model has four modules.

- `LogMessages` holds the messages, their levels, the timing records and the
  host's message filter.
- `Text` holds the string functions the export applies to a query's text:
  - `trim()`;
  - `preg_replace('/\s+/', ' ', ...)`;
  - `strtoupper()`;
  - the case-insensitive DML keyword search.
- `ExportPass` holds the body of export's loop for one message (`Step`, and
  the value-level methods `ExportMessage` and `ExportQuery` that compute it).
  It also holds the whole pass under the single catch-all (`Chain`, `Run`).
- `Target` holds the target's state as a datatype, with `CollectSpec` and
  `ExportSpec` describing `collect` and `export`. It also holds the class
  `FirePHPTarget`, whose methods change its fields in place and are proved to
  produce exactly the state those functions describe.

The FirePHP console is the field `sent`, the list of tables sent so far, oldest
first. The messages the catch block echoes are the field `echoed`. Two ghost
fields record facts the source leaves implicit:
- `loggerCalls` counts how often the host logger was asked for timings;
- `exports` records each export's buffer and the value `exportInterval` had
  while the export ran.

The model follows the code in these places, which change what the target
reports:
- The elapsed time of a query is the gap to the message just before it in the
  buffer, not to its matching `PROFILE_BEGIN`.
- A `PROFILE_END` first in the buffer reads the element at index -1. Under
  Yii's error handler this raises an exception, which the catch block stops.
  As a result, no per-query table of that export is sent (`UndefinedOffset(-1)`).
- An EXPLAIN query that returns no rows reads row 0, which is missing. The
  query's own table has already been sent by then (`UndefinedOffset(0)`).
- The title is trimmed first and its whitespace runs collapsed second. The
  order matters because trim's characters include NUL and exclude form feed,
  while `\s` is the other way round.

## Model

| member | source | states |
|---|---|---|
| LogMessages.FilterMessages | FirePHPTarget.php:47 | the filtered batch holds exactly the accepted messages and is no longer than the batch |
| LogMessages.FilterAppend | FirePHPTarget.php:47 | the filter works message by message: filtering two batches together is filtering each and concatenating, in order |
| LogMessages.FilterAcceptAll | FirePHPTarget.php:47 | a filter that accepts every message returns the batch unchanged |
| LogMessages.SumAppend | FirePHPTarget.php:94-103 | the total query time is additive over concatenated timing lists |
| LogMessages.SumDurations | FirePHPTarget.php:94-103 | the total query time; with no negative duration it is non-negative |
| LogMessages.SumBoundsEach | FirePHPTarget.php:94-103 | with no negative duration the total bounds every single duration |
| LogMessages.SumBoundsAll | FirePHPTarget.php:94-103 | with no negative duration, every duration in the list is at most the total |
| Text.Trim | FirePHPTarget.php:117 | the result is a slice of the text with only trim characters cut from both ends, and neither of its ends is a trim character |
| Text.TrimFixesTrimmed | FirePHPTarget.php:117 | text with no trim character at either end is left unchanged |
| Text.TrimIdempotent | FirePHPTarget.php:117 | trimming twice is trimming once |
| Text.Collapse | FirePHPTarget.php:117 | the result has no two adjacent whitespace characters, is empty exactly when the input is, is never longer, and starts with whitespace exactly when the input does |
| Text.DropSpacesSkip | FirePHPTarget.php:117 | a whitespace run is consumed whole: dropping leading whitespace from the run followed by text not starting with whitespace leaves that text |
| Text.CollapseLeadingRun | FirePHPTarget.php:117 | a non-empty whitespace run at the start becomes one space in front of the collapsed rest |
| Text.CollapseRun | FirePHPTarget.php:117 | each maximal whitespace run becomes exactly one space: a non-empty run between text not ending and text not starting with whitespace is replaced by " " and the two sides are collapsed independently |
| Text.CollapseNoSpace | FirePHPTarget.php:117 | text with no whitespace character is left unchanged |
| Text.CollapseKeepsNonSpace | FirePHPTarget.php:117 | collapsing keeps every non-whitespace character, in order |
| Text.CollapseOnlySingleSpaces | FirePHPTarget.php:117 | every whitespace character left after collapsing is a plain space |
| Text.CollapseFixesCollapsed | FirePHPTarget.php:117 | text whose whitespace is already single spaces is left unchanged |
| Text.CollapseIdempotent | FirePHPTarget.php:117 | collapsing twice is collapsing once |
| Text.Upper | FirePHPTarget.php:118 | same length, no ASCII lower-case letter left; each lower-case letter moves down by 32 and every other character is kept |
| Text.UpperKeepsSpacing | FirePHPTarget.php:118 | upper-casing keeps the no-adjacent-whitespace property |
| Text.UpperFixesUpperCased | FirePHPTarget.php:118 | text without lower-case letters is its own upper-casing |
| Text.UpperIdempotent | FirePHPTarget.php:118 | upper-casing twice is upper-casing once |
| Text.Normalize | FirePHPTarget.php:117 | the trimmed and collapsed text has no adjacent whitespace, its only whitespace is plain spaces, and it keeps exactly the non-whitespace characters of the trimmed text |
| Text.CanonicalIsOwnTitle | FirePHPTarget.php:117-118 | text already trimmed, single-spaced and upper-cased is its own table title |
| Text.ScanDml | FirePHPTarget.php:119 | a successful scan from a position has found some DML keyword, in any case, at or after that position |
| Text.ScanDmlFinds | FirePHPTarget.php:119 | a DML keyword occurring at or after a position is found by the scan from that position |
| Text.ScanDmlIff | FirePHPTarget.php:119 | the scan from a position succeeds exactly when some DML keyword occurs, in any case, at or after that position |
| Text.ContainsDml | FirePHPTarget.php:119 | the keyword search matches exactly when SELECT, UPDATE, DELETE or INSERT occurs anywhere in the text, in any case |
| Text.ContainsDmlIgnoresCase | FirePHPTarget.php:119 | upper-casing the text first does not change whether the search matches |
| ExportPass.SummaryTable | FirePHPTarget.php:61-72 | the "Query summary" table carries the timings, their count and their total; with no negative duration the total is non-negative and bounds every duration |
| ExportPass.Step | FirePHPTarget.php:113-127 | the loop body for one message (no ensures of its own; its meaning is stated by `StepOutcome`, `StepTablesBelong` and `StepIgnoresDbUnlessExplain`) |
| ExportPass.QueryStep | FirePHPTarget.php:116-124 | the `PROFILE_END` case of the body (no ensures of its own; stated through `StepOutcome` and `StepTablesBelong`) |
| ExportPass.Chain | FirePHPTarget.php:111-130 | the loop under the catch-all from a given message on (no ensures of its own; stated by `ChainTurn`, `ChainFailsIff`, `FirstFailureAbandonsRest` and `NoFailureReportsAll`) |
| ExportPass.Run | FirePHPTarget.php:111-130 | the whole per-message pass (no ensures of its own; stated by `ChainFailsIff`, `FirstFailureAbandonsRest`, `ExplainOffOneTablePerProfileEnd` and `RunQueriesFromBuffer`) |
| ExportPass.QueryFor | FirePHPTarget.php:117-118 | a query table for the message at index k: title upper-cased with no adjacent whitespace and the same non-whitespace characters as the upper-cased, trimmed text; elapsed is the gap to the message at k-1; the message attached |
| ExportPass.UpperKeepsNonSpace | FirePHPTarget.php:117-118 | collapsing whitespace before upper-casing keeps the same non-whitespace characters |
| ExportPass.ExportMessage | FirePHPTarget.php:113-127 | the loop body for one message sends the tables and raises the exception that `Step` describes |
| ExportPass.ExportQuery | FirePHPTarget.php:116-124 | the `PROFILE_END` case sends the query table, then the EXPLAIN table or the exception that `QueryStep` describes |
| ExportPass.StepOutcome | FirePHPTarget.php:115-124 | both ways round: tables are sent exactly for a `PROFILE_END` with a message before it, query table first; a second (EXPLAIN) table exactly when EXPLAIN is triggered and rows come back; an exception exactly for a `PROFILE_END` first in the buffer or a triggered EXPLAIN that fails or returns no rows |
| ExportPass.StepIgnoresDbUnlessExplain | FirePHPTarget.php:119-121 | the database is consulted only for a message that triggers EXPLAIN |
| ExportPass.StepTablesBelong | FirePHPTarget.php:115-124 | every table a message's body sends is its own query table or, when EXPLAIN was triggered, the table titled "EXPLAIN " plus its normalised text |
| ExportPass.ChainTurn | FirePHPTarget.php:111-130 | one turn of the loop: a body that does not raise adds its tables and the pass goes on; a body that raises ends the pass with its exception |
| ExportPass.ProgressTurn | FirePHPTarget.php:113-127 | the loop invariant, what is sent so far plus the rest of the pass, survives one turn |
| ExportPass.ProgressDone | FirePHPTarget.php:111-130 | when the buffer is exhausted or a body raised, the tables collected are the whole pass |
| ExportPass.FirstFailureAbandonsRest | FirePHPTarget.php:111-130 | with the first exception at index k, the pass sends the tables of the bodies before k and what k sent before raising, and nothing for any later message |
| ExportPass.NoFailureReportsAll | FirePHPTarget.php:113-127 | without an exception, every body's tables are sent, in buffer order |
| ExportPass.ChainFailsIff | FirePHPTarget.php:111-130 | the pass stops with an exception exactly when some body raises, and the exception is one a body raised |
| ExportPass.ChainTablesFromSteps | FirePHPTarget.php:111-130 | every table the loop sends from a message on was sent by the body of that message or a later one |
| ExportPass.RunQueriesFromBuffer | FirePHPTarget.php:111-130 | every query table the pass sends carries a message of the buffer being exported |
| ExportPass.ProfileEnds | FirePHPTarget.php:115-116 | ascending indices that hold exactly the `PROFILE_END` messages from a position on |
| ExportPass.StepExplainOff | FirePHPTarget.php:115-119 | with explain off, a message after the first sends its query table if it is a `PROFILE_END` and nothing otherwise |
| ExportPass.ExplainOffOneTablePerProfileEnd | FirePHPTarget.php:113-127 | with explain off and no `PROFILE_END` first, the pass raises nothing and sends exactly one query table per `PROFILE_END`, in buffer order, and nothing for any other level |
| ExportPass.ProfileEndFirstReportsNothing | FirePHPTarget.php:118 | a `PROFILE_END` first in the buffer raises at index -1 before any per-query table is sent |
| Target.Initial | FirePHPTarget.php:20-21 | a new target profiles, does not explain, buffers nothing, has no cached timings, has not asked the logger and has sent and echoed nothing |
| Target.CachedTimings | FirePHPTarget.php:79-86 | the cached timings, else the logger's (no ensures of its own; stated by `FirePHPTarget.CalculateTimings` and `LaterSummaryRepeatsFirst`) |
| Target.ShouldExport | FirePHPTarget.php:49 | collect flushes only a non-empty buffer: always on a final call, never on a non-final call without a positive interval, and otherwise exactly when the interval is reached |
| Target.ExportSpec | FirePHPTarget.php:108-131 | export leaves the buffer and settings alone, fills the timing cache and keeps a filled one, sends the summary table first after what was sent before, echoes at most one exception, and records one export of the current buffer and interval |
| Target.CollectSpec | FirePHPTarget.php:44-59 | collect keeps the interval and modes, runs at most one export and then under interval 0 with an empty buffer afterwards, and only appends to what was sent |
| Target.CollectWithoutProfileIsNoop | FirePHPTarget.php:44-59 | with profiling off, collect changes nothing: buffer, interval and sink are all the same |
| Target.CollectExportsExactlyWhen | FirePHPTarget.php:47-57 | collect exports exactly when the grown buffer is non-empty and either the call is final or the interval is positive and reached; the export sees the grown buffer with the interval at 0, and the buffer is empty afterwards; without an export, the accepted messages are appended in order and nothing else changes; the interval is restored in both cases |
| Target.CollectKeepsBufferBelowInterval | FirePHPTarget.php:48-56 | with a positive interval, the buffer left by collect is shorter than the interval |
| Target.CollectKeepsConsistent | FirePHPTarget.php:79-86 | the timing cache is filled exactly when the logger has been asked, the logger is asked at most once, and a filled cache never changes |
| Target.QuietCollectAppends | FirePHPTarget.php:47-49 | with no positive interval, a non-final collect only appends the accepted messages |
| Target.QuietCollectsOnlyGrow | FirePHPTarget.php:44-59 | with no positive interval, any run of non-final collects never exports: the buffer grows by the accepted messages of every batch in arrival order and nothing else changes |
| Target.ExportKeepsAdmitted | FirePHPTarget.php:108-131 | if every buffered message and every query table sent so far passed the filter, the same holds after export |
| Target.CollectKeepsAdmitted | FirePHPTarget.php:44-59 | collect keeps that property: a message the filter rejects never reaches the buffer nor any query table |
| Target.LaterSummaryRepeatsFirst | FirePHPTarget.php:79-86 | the timings are computed on the first export only: a later export's summary repeats the first buffer's timings whatever it buffers, and the logger was asked once |
| Target.SelectOneTitle | FirePHPTarget.php:117-118 | "SELECT 1" is its own title |
| Target.PairRun | FirePHPTarget.php:113-127 | a buffer of an opening message and a `PROFILE_END` after it, with explain off, sends that query's table and raises nothing |
| Target.SelectOneRun | FirePHPTarget.php:113-127 | the pass over a begin at 10 s and "SELECT 1" ending at 12 s sends one table titled "SELECT 1" with 2 s elapsed |
| Target.SelectOneExample | FirePHPTarget.php:44-59 | a final collect of that query, with explain off, sends the summary and that one query table, echoes nothing and empties the buffer |
| Target.FirePHPTarget.constructor | FirePHPTarget.php:20-34 | a fresh target is in the initial state with the given filter and logger |
| Target.FirePHPTarget.Collect | FirePHPTarget.php:44-59 | the new state is the one `CollectSpec` describes, the timing cache stays consistent, and the buffer and every sent query table hold only messages the filter accepts |
| Target.FirePHPTarget.GetSummary | FirePHPTarget.php:61-72 | sends one summary table of the count, total time and the cached or freshly computed timings, and fills the cache |
| Target.FirePHPTarget.CalculateTimings | FirePHPTarget.php:79-86 | returns the cached timings if there are any, without asking the logger; otherwise asks the logger once and caches its answer |
| Target.FirePHPTarget.GetTotalQueryTime | FirePHPTarget.php:94-103 | the loop returns the sum of the durations, 0 for no timings |
| Target.FirePHPTarget.Export | FirePHPTarget.php:108-131 | the summary, then the per-message pass; an exception is echoed and not propagated; the new state is the one `ExportSpec` describes, keeping the filter property of the buffer and the sent query tables |
| Target.FirePHPTarget.ExportMessages | FirePHPTarget.php:111-130 | the sink grows by exactly the tables of the pass, and the exception returned is the first one raised |

## Left out

- The FirePHP transport (`\FirePHP::getInstance`, `table`) is a foreign library. A sent table is modelled as an element appended to `sent`, and table rows are fields of `Table`.
- `filterMessages`, the level, category and except filters, are inherited from Yii's `Target` and are not visible here. They are a message predicate `accepts` fixed at construction, applied order-preservingly.
- `Yii::getLogger()->calculateTimings` is the host's algorithm. It is an uninterpreted total function `logger`; a logger that throws is not modelled.
- The EXPLAIN query against `Yii::$app->db` is database I/O. It is a function parameter `db` that answers with rows or an exception message; the reshaping of the rows is reduced to the first row's column names plus the rows.
- `ob_start()` is process output buffering and is not modelled. `echo $e->getMessage()` is modelled as appending the caught failure to `echoed`.
- Timestamps, durations and the total query time are PHP floats. They are `real` here, so rounding is not modelled.
- PHP `\Error` throwables bypass the `\Exception` catch and would leave `exportInterval` at 0; they are not modelled.
- Reading index -1 or a missing row 0 raises an exception only under Yii's error handler, which turns notices into exceptions; that behaviour is assumed.
- `strtoupper` is modelled on ASCII letters only, and `\s` as the six ASCII whitespace characters of PCRE without UTF mode.
- Re-entrant calls to `collect` from inside an export are not modelled; the model records the guard value (`exportInterval` of 0) each export runs under.
- `init()` only fetches the FirePHP instance, and the `categories` default is host configuration; both are outside the model.
- Target.FirePHPTarget.ExportMessages: collects the pass's tables and appends them to `sent` once the loop ends rather than one at a time; the final sink is the same, but intermediate sink states are not modelled.
