# Gemini question solver — a Dafny model of its sequential core

The program takes photographed exam questions, sends each one with a prompt
to the Gemini vision API, and collects the answers into a Markdown report.
The web server keeps a per-session progress record, and a SQLite database
stores questions and sessions. This project models the parts of that
program whose behaviour can be stated exactly:

- **Retrying invoker** (`Gemini`, src/gemini_client.py). `solve_question`
  makes at most MAX_RETRIES = 3 attempts and stops at the first answer. Only
  a raised error (not a timeout) is followed by a sleep of
  `RETRY_DELAY * (attempt + 1)` seconds, and never after the last attempt.
  The back-off is linear although the source comment calls it exponential.
  The remote call is a `Script`: what each attempt produces (an answer, a
  timeout or an error) and how long it takes. The model's outputs are the
  result record, the number of attempts used, the list of sleeps, and the
  client's updated `_request_count` / `_total_time`. `get_stats` and the
  constructor's API-key check are modelled as well.
- **Order-preserving batch map** (`Parallel`, src/parallel_processor.py).
  `process_all` is modelled as a sequential map of the invoker over the
  images, because `asyncio.gather` returns results in task-creation order.
  It also covers the success and failure counts.
- **Report assembly** (`Reports`, src/report_generator.py). This covers the
  partition into successful and failed results, the time sum and average,
  and the exact `report_lines` list with its `"\n"` join.
- **Image selection and MIME types** (`Images`, `Paths`,
  src/image_loader.py). This covers the sorted suffix filter of
  `scan_directory`, the `get_mime_type` table, and the validation filter of
  `load_all`.
- **SQL statement builders** (`Database`, database.py). This is the text and
  the parameter list each query function hands to `cursor.execute`. Every
  builder is proved to produce as many `?` as parameters.
- **Session store** (`Server`, server.py). `active_sessions` is a map from
  session id to record. The model covers the request guards (404 / 400, and the 500 of an upload without a content type),
  session creation, the `process_session` loop that advances `progress` and
  `results` item by item, and the read-only endpoints.

Inputs stand in for the outside world. These are the directory listing,
`is_file`, file sizes, file existence, the image validator, the byte reader,
the clock, `uuid4()`, the configured API key and the float formatter
`f"{x:.1f}"`. Times are `real` seconds.

The model follows the code as written, including these points:

- The invoker sleeps only after a non-timeout error. A timeout is retried
  at once.
- The exhaustion message is `"Failed after 3 attempts"`, with a capital F.
- Results keep order because `gather` keeps task order. The code has no
  explicit sort by index.
- The code has no status machine with a `pending` state. A session record is
  `uploaded` or `processing` when created, and it ends `completed` or
  `error`.

## Model

| member | source | states |
|---|---|---|
| `Gemini.ResolveKey` | src/gemini_client.py:32-38 | The key is the argument when it is non-empty, else the configured one; the constructor fails with the ValueError message exactly when both are empty, and a resolved key is never empty |
| `Gemini.NewClient` | src/gemini_client.py:32-43 | Construction fails exactly when no key resolves; a constructed client has that key and zeroed counters, so no client exists without a key |
| `Gemini.GeminiClient.constructor` | src/gemini_client.py:40-43 | A new client starts with `_request_count = 0` and `_total_time = 0.0` |
| `Gemini.FailedMessage` | src/gemini_client.py:107 | The exhaustion message is "Failed after 3 attempts" |
| `Gemini.FirstAnswer` | src/gemini_client.py:61-89 | Finds the first answered attempt: none before it is answered; absent exactly when no attempt is answered |
| `Gemini.Solve` | src/gemini_client.py:45-109 | 1 to 3 attempts; every attempt but the last is unanswered; success iff some attempt is answered; on success the solution is that answer's text, error None, filename kept; on failure 3 attempts, solution None, error "Failed after 3 attempts"; time is the elapsed time since the start; sleeps are those the attempts caused |
| `Gemini.GeminiClient.SolveQuestion` | src/gemini_client.py:45-109 | The loop returns exactly what `Solve` specifies, and the counters grow by 1 and by `time_taken` on success only; a failed call leaves them unchanged |
| `Gemini.ElapsedStep` | src/gemini_client.py:91-99 | One more attempt adds its duration, plus a sleep of RETRY_DELAY*(n+1) only after a raised error that is not the last attempt |
| `Gemini.SolveAnsweredAt` | src/gemini_client.py:79-89 | An answer at attempt k, after k unanswered ones, yields success with k+1 attempts and that answer's text |
| `Gemini.SolveUnanswered` | src/gemini_client.py:101-109 | Without any answer the call fails after all 3 attempts with the fixed message |
| `Gemini.SleepsExactly` | src/gemini_client.py:91-99 | A sleep of d seconds happens iff some non-final attempt j raised an error and d = RETRY_DELAY*(j+1); a timeout never sleeps |
| `Gemini.SleepsIncrease` | src/gemini_client.py:98-99 | There are at most MAX_RETRIES-1 sleeps and they strictly increase (linear back-off) |
| `Gemini.NoErrorNoSleep` | src/gemini_client.py:91-92 | Attempts that only time out or answer cause no sleep |
| `Gemini.ElapsedIncludesEarlierAttempts` | src/gemini_client.py:59-79 | `time_taken` counts every consumed attempt, failed ones included, and every sleep, since `start_time` is read before the first attempt |
| `Gemini.FailTwiceThenAnswer` | src/gemini_client.py:61-99 | Two errors, then an answer: success on attempt 3 after sleeping 2 s and 4 s |
| `Gemini.AlwaysRaising` | src/gemini_client.py:94-109 | Three errors: failure after 3 attempts, sleeps [2, 4], none after the last |
| `Gemini.AlwaysTimingOut` | src/gemini_client.py:91-109 | Three timeouts: failure with no sleep at all, time equal to the three durations |
| `Gemini.GeminiClient.GetStats` | src/gemini_client.py:111-117 | Reports the counters; `avg_time * max(1, count) == total_time`, so it is 0 before any request |
| `Parallel.GatherKeepsOrder` | src/parallel_processor.py:90-96 | One result per image, and result i is exactly the invoker's result for image i (same filename) |
| `Parallel.ParallelProcessor.GetResults` | src/parallel_processor.py:110-112 | Returns the stored list of the last batch, and every entry is a success with a solution or a failure with an error |
| `Parallel.GatherStep` | src/parallel_processor.py:90-96 | Each further call appends its result at the end |
| `Parallel.SuccessPlusFailure` | src/parallel_processor.py:101-102 | Successes plus failures equal the number of results |
| `Parallel.Counts` | src/parallel_processor.py:101-102 | `failed = len(results) - successful` is the number of failed results |
| `Parallel.FiveImagesOneFailing` | src/parallel_processor.py:90-102 | Five images with the fourth never answered: results in input order, four successes and one failure |
| `Parallel.ParallelProcessor.constructor` | src/parallel_processor.py:24-32 | The processor keeps the client and limit given and starts with no results |
| `Parallel.ParallelProcessor.ProcessAll` | src/parallel_processor.py:55-108 | The result list is the ordered map of the invoker over the images; an empty list returns [] without calling the client or touching `self.results`; otherwise `self.results` (what `get_results` returns) is the returned list; the client's counters grow by the successes |
| `Reports.PartitionSizes` | src/report_generator.py:47-48 | `successful` and `failed` count the successes and failures and together have `len(results)` entries |
| `Reports.PartitionExactly` | src/report_generator.py:47-48 | Each result lands in exactly one list; `failed` holds exactly the failed results; both keep input order |
| `Reports.TotalTimeSplits` | src/report_generator.py:49 | The total time is the time of the successes plus that of the failures |
| `Reports.AverageTime` | src/report_generator.py:50 | `avg_time * len(results) == total_time` |
| `Reports.SuccessRate` | src/report_generator.py:75 | The rate is a percentage, 100 iff nothing failed and 0 iff nothing succeeded |
| `Reports.Summarize` | src/report_generator.py:46-77 | The statistics table: total, success and failure counts that add up, total time, average and rate |
| `Reports.ErrorText` | src/report_generator.py:113 | `f"{error}"` is the message, or "None" when there is none |
| `Reports.HeaderLengthIs` | src/report_generator.py:60-83 | The header has 22 lines, opens with the title and gives the question count on line 12 |
| `Reports.EntryLayout` | src/report_generator.py:86-120 | An entry is the heading, the image line only when the file exists, then the time and solution on success or the error line on failure, then `---` |
| `Reports.EntryAt` | src/report_generator.py:86-120 | Result k is rendered as entry k+1, between the offsets of k and k+1, in input order |
| `Reports.FailedSectionLayout` | src/report_generator.py:123-130 | The failure list is empty with no failures, else the title and one line per failure in order |
| `Reports.ReportFrame` | src/report_generator.py:60-136 | The lines start with the header (title first, count row) and end with an empty line and the footer |
| `Reports.ReportEntry` | src/report_generator.py:86-120 | The i-th result (1-based) appears right after the header with heading "### Soru i: `filename`", in input order |
| `Reports.ReportFailures` | src/report_generator.py:122-130 | The failure section is present iff some result failed, and it lists every failed filename with its error, in input order |
| `Reports.ReportText` | src/report_generator.py:133-139 | The written text begins with the title line and ends with the footer line |
| `Reports.OutputName` | src/report_generator.py:53-55 | The given file name, or `rapor_<stamp>.md` when it is missing or empty |
| `Reports.AppendEntry` | src/report_generator.py:86-120 | One loop pass appends exactly the entry of that result |
| `Reports.AppendFailedSection` | src/report_generator.py:122-130 | The `if failed:` block appends exactly the failure section |
| `Reports.RenderLines` | src/report_generator.py:59-136 | The step-by-step `report_lines` equals the specified report lines |
| `Reports.ReportGenerator.constructor` | src/report_generator.py:21-22 | The output directory is the argument when it is given and non-empty (truthy), else OUTPUT_DIR |
| `Reports.ReportGenerator.Generate` | src/report_generator.py:25-143 | No report for no results; otherwise the report path is under the output directory, and its lines and `"\n"`-joined content are as specified |
| `Common.Join` | src/report_generator.py:139 | Joining no parts gives "" and one part gives that part |
| `Common.JoinEndsWithLast` | src/report_generator.py:139 | A join ends with its last part |
| `Common.NatToString` | src/report_generator.py:72 | `f"{n}"` is a non-empty string of decimal digits without a leading zero |
| `Common.DecimalRoundTrip` | src/report_generator.py:72 | Reading back the decimal rendering of a count gives the count |
| `Common.FilterCounts` | src/report_generator.py:47-48 | A comprehension filter keeps each passing element as often as it occurs and drops the rest |
| `Common.Lower` | src/image_loader.py:32 | `str.lower` keeps the length and lower-cases each character in place |
| `Paths.Join` | src/report_generator.py:57 | `directory / name`: an empty name leaves the directory, an absolute name replaces it, any other name follows the directory after one `/` |
| `Paths.JoinEndsWithName` | server.py:215 | A joined path always ends with the name |
| `Paths.Suffix` | src/image_loader.py:32 | `Path.suffix` is empty, or a dot followed by dot-free text that ends the name |
| `Paths.SuffixOfStemAndExtension` | src/image_loader.py:32 | The suffix of `stem.ext` is `.ext` |
| `Paths.SuffixLower` | src/image_loader.py:59 | Taking the suffix and lower-casing commute |
| `Paths.SortAscending` | src/image_loader.py:31 | The modelled `sorted` yields an ascending list |
| `Paths.SortIsSorted` | src/image_loader.py:31 | Any ascending permutation of the names equals the modelled `sorted` result |
| `Images.MimeType` | src/image_loader.py:57-67 | `.png`, `.gif`, `.webp` map to their types, ignoring case; every other suffix, `.jpg` and `.jpeg` included, maps to image/jpeg |
| `Images.MimeTypeIgnoresCase` | src/image_loader.py:59 | The type and the supported test do not depend on the case of the name |
| `Images.MimeTypeOfExtension` | src/image_loader.py:57-67 | Each supported extension, in any case, maps to its type |
| `Images.SelectedExactly` | src/image_loader.py:30-35 | The scan keeps each entry with a supported lower-cased suffix as often as listed, no other, in ascending order |
| `Images.LoadedExactly` | src/image_loader.py:82-91 | The loaded list is the scanned files that pass validation, in scan order, each as (name, bytes, MIME type) |
| `Images.ImageLoader.constructor` | src/image_loader.py:21-23 | The loader keeps its directory |
| `Images.ImageLoader.ScanDirectory` | src/image_loader.py:26-35 | Fails exactly when the path is not a directory: FileNotFoundError's message when nothing is there, NotADirectoryError's when it is a file; otherwise exactly the selected entries |
| `Images.NotADirectoryMessage` | src/image_loader.py:31 | The `NotADirectoryError` text quotes the path and differs from the not-found message |
| `Images.ImageLoader.LoadAll` | src/image_loader.py:69-91 | Each of the scan's two errors propagates unchanged; no candidates give []; otherwise exactly the validated images in scan order |
| `Database.PlaceholdersMatch` | database.py:187-190 | A statement with one parameter per placeholder piece and no stray `?` has as many `?` in its text as parameters |
| `Database.NewQuestion` | database.py:96-106 | The defaults of `save_question`: topic "Genel", status "pending", the rest None |
| `Database.InsertQuestionShape` | database.py:111-115 | The INSERT text is the ten-column list and ten comma-separated placeholders, and has no other `?` |
| `Database.SaveQuestion` | database.py:96-119 | Ten parameters in column order, one per `?`; `solved_at` is non-null iff status is 'success' or 'failed', and is then the timestamp |
| `Database.SetListFacts` | database.py:136 | The SET clause is `", ".join(f"{k} = ?")` with one placeholder per key |
| `Database.UpdateText` | database.py:140 | `UPDATE t SET ... WHERE id = ?` has one placeholder per key plus one |
| `Database.UpdateStatement` | database.py:127-140 | Nothing is executed without kwargs; otherwise keys in call order, parameters the values then the id, balanced |
| `Database.UpdateQuestion` | database.py:127-143 | `update_question`: no statement iff no kwargs; SET in kwarg order; parameters are the values then the id |
| `Database.UpdateSession` | database.py:287-299 | `update_session`: the same rule for the sessions table with a text id |
| `Database.ConditionsOrdered` | database.py:168-185 | The filters keep the fixed order status, topic, archived, session_id |
| `Database.ConditionsExactly` | database.py:171-185 | A string filter is applied iff truthy and `archived` iff not None, bound to 1 for true and 0 for false |
| `Database.FilteredSelect` | database.py:168-185 | The step-by-step query and parameters are the SELECT plus one clause and one value per applied filter |
| `Database.QueryFacts` | database.py:168-188 | The query text is the SELECT, the clauses, then ORDER BY ... LIMIT ? OFFSET ?, with two more placeholders than filters |
| `Database.GetQuestions` | database.py:156-193 | The statement is as specified; the parameters end with limit and offset; `?` count equals `len(params)` |
| `Database.GetFailedQuestions` | database.py:196-198 | Exactly `get_questions(status='failed', archived=False)`: parameters ['failed', 0, 100, 0] |
| `Database.MarkListText` | database.py:207 | The placeholder pieces render as `",".join("?" * n)` |
| `Database.PlaceholdersShape` | database.py:207 | `",".join("?" * n)` is `?,?,...,?` with n placeholders |
| `Database.InListFacts` | database.py:207-209 | `... WHERE id IN (?,...,?)` has one placeholder per id |
| `Database.ByStatusFacts` | database.py:213-216 | The by-status statements have one placeholder |
| `Database.ArchiveQuestions` | database.py:201-221 | Non-empty ids use an IN list of `len(ids)` placeholders bound to the ids; otherwise archive by status among `archived = 0`; balanced |
| `Database.DeleteQuestions` | database.py:250-269 | Priority ids > truthy status > all; with none nothing is executed; balanced |
| `Server.NewSession` | server.py:110-118 | A new record has progress 0, no results, `total = len(files)`, the given status and no report or error |
| `Server.FolderInfos` | server.py:96-100 | One `files` entry per found name, with its size and path |
| `Server.FolderNamesExactly` | server.py:94-100 | The folder scan keeps each regular file with a supported suffix as often as listed, nothing else, in sorted order |
| `Server.Server.FindFolderImages` | server.py:94-100 | The loop builds exactly the records of the found names |
| `Server.Server.SolveFolder` | server.py:86-127 | 400 when no images are found, before 400 for a missing key; both leave the store unchanged; otherwise a new `processing` session with those files |
| `Server.UploadInfos` | server.py:219-223 | One `files` entry per kept upload, with its byte count and path |
| `Server.UploadsKept` | server.py:209-212 | Exactly the uploads that have a content type starting with "image/" are kept, each as often as sent |
| `Server.Server.SaveUploads` | server.py:208-223 | The loop fails with a 500 exactly when some upload has no content type (`None.startswith` raises); otherwise it keeps exactly the image uploads |
| `Server.Server.UploadFiles` | server.py:201-242 | 500 when an upload has no content type; else 400 exactly when no upload is an image; both leave the store unchanged; otherwise a new `uploaded` session of the kept files |
| `Server.Server.SolveQuestions` | server.py:245-262 | 404 for an unknown id, then 400 for a missing key, both changing nothing; otherwise only that session's status becomes `processing` |
| `Server.FirstUnreadable` | server.py:274-276 | The first file whose read raises, if any |
| `Server.LoadImagesFails` | server.py:272-289 | Loading fails exactly when some file cannot be read, with the first such file's message |
| `Server.LoadImagesSucceeds` | server.py:272-289 | Otherwise one image per file, in order, with its bytes and the MIME type of its suffix |
| `Server.Server.LoadSessionImages` | server.py:272-289 | The image-loading loop yields exactly that result |
| `Server.GatherRenderable` | server.py:291-304 | Results from the invoker can always be rendered into a report |
| `Server.IdPrefix` | server.py:304 | `session_id[:8]` is the first 8 characters, or the whole id when shorter |
| `Server.Server.SolveAll` | server.py:291-299 | After item i, progress is i+1 and results hold the first i+1 results in order, so progress never passes total |
| `Server.Server.GenerateReport` | server.py:301-304 | The report exists iff there are results; its path is `rapor_<id[:8]>.md` under the output directory |
| `Server.ProcessedOutcome` | server.py:265-311 | The task ends `completed` or `error`; `completed` exactly when the key is set, every file reads and (with files) the report is written; a completed task stores the report path of its results and one in-order result per file; a missing key gives the constructor's message, an unreadable file the first such file's message with nothing solved, a failed write its message after all items are solved |
| `Server.Server.SolveAndReport` | server.py:291-311 | After loading, the record becomes the specified finished record |
| `Server.Server.ProcessSession` | server.py:265-311 | Only the session run changes, and it becomes the specified processed record |
| `Server.Server.constructor` | server.py:36-41 | The server starts with no sessions |
| `Server.Server.GetProgress` | server.py:314-329 | 404 for an unknown session; otherwise its status, progress and total unchanged, with progress <= total |
| `Server.Server.GetResults` | server.py:332-344 | 404 for an unknown session; otherwise its status, results and report path |
| `Server.Server.GetImage` | server.py:130-149 | 404 when the file is missing; otherwise the file, with a media type from the case-insensitive suffix table that defaults to image/jpeg |

## Left out

- Concurrency: the semaphore of `ParallelProcessor` and the scheduling of `asyncio.gather` are not modelled. The calls run one after another, in list order, because their order is the only one the results can observe. `max_concurrent` is stored but has no effect.
- `asyncio.create_task(process_session(...))`: the background task is a separate call, `ProcessSession`, that runs to its end. A `get_progress` call in the middle of the task is described by the loop invariant of `SolveAll`, not by interleaved calls.
- The Gemini SDK, `asyncio.wait_for`, `to_thread`, real sleeps and `time.time()`: each attempt's outcome and duration are inputs, sleeps are recorded, and elapsed time is the sum of attempt durations and sleeps. The prompt (`custom_prompt` / QUESTION_PROMPT), the MIME type and the image bytes go only to the remote call, so they do not appear in the model.
- Console output (`rich`) and the progress bar are left out because they have no effect on results.
- Float presentation: `:.1f` is an input function, and `round(...)` in `get_statistics` is not modelled. Times are exact `real` values, not IEEE doubles.
- SQLite execution: connections, commits, `rowcount`, `lastrowid`, `init_database`, `get_statistics`, and the single-row helpers (`get_question`, `increment_retry`, `delete_question`, `create_session`, `get_session`) are not modelled. Only the statements of the builders listed above are.
- The file system and imaging: directory listing, `is_file`, `stat`, `exists`, `read_bytes`, `write_bytes`, `write_text`, `mkdir` and PIL's `Image.verify` are inputs. `validate_image` is the validator input, which never raises and answers False on any failure.
- The FastAPI routing, the static mount, `home`, `api_status`, `scan_folder`, `list_outputs`, `get_report`, `get_report_raw` and `FileResponse` are HTTP and UI concerns outside the modelled core. main.py is not part of this model; its `--concurrent` flag is never passed on anyway. The `load_image_base64` helper is not used by the core.
- `Parallel.ParallelProcessor.constructor`: does not model the `client or GeminiClient()` default, so a client must be supplied.
- `Common.Lower`: lower-cases ASCII letters only, which covers every suffix in SUPPORTED_FORMATS. Unicode case mapping is not modelled.
- `Paths.Suffix`: follows `PurePath.suffix` as in CPython 3.13 and earlier: a name ending in a dot has no suffix.
- `Paths.Join`: models the absolute and empty right operand of `PurePath.__truediv__`, but not normalisation (collapsing `//` and `.` parts, dropping a trailing `/`). A name containing `/` is kept as one component, so the MIME type of an uploaded `a/b.png` is taken from the whole name rather than from its last part.
- `Paths.Sort`: compares names code point by code point. This is how `sorted` orders the paths of one directory.
- `Reports.ReportGenerator.Generate`: requires every successful result to carry a solution string. The source would raise `TypeError` in `"\n".join` on a `None` solution, and the modelled invoker never produces one.
- `Server.Server.ProcessSession`: requires the session id to exist. The source would raise `KeyError` outside its `try`, and only ids stored by `solve_folder` / `solve_questions` reach it. A failure while writing the report is the input `writeError`. Exceptions raised elsewhere inside the task are not modelled.
- `Database.UpdateQuestion`: the `?` count is proved only for keyword names without a `?`. Python keyword arguments are identifiers, so every real call satisfies this.
- `Database.UpdateSession`: same restriction on keyword names as `Database.UpdateQuestion`.
