# Buddhimatta answer service, modelled in Dafny

Buddhimatta is an HTTP service that answers assignment questions. Three
server variants share one design:

- a table of known answers keyed by the exact question text;
- a fixed chain of handlers tried in order: exact lookup, then the
  archive handler (unzip the upload, read a column of the first CSV), then
  the code handler (run the fenced Python block, answer with its output),
  then the content handler (answer with the uploaded file's text), and
  finally a fixed default answer;
- a feedback endpoint that stores a corrected answer.

The variants differ in where failures and learned answers go:

- `vercel_main.py` turns every archive- and content-handler failure into
  HTTP 500. This includes the 400s it raises itself for a missing CSV or
  column, because its own `except Exception` catches them and re-raises
  them as "Error processing file: 400: ...". A failure in the code handler
  is swallowed instead, and dispatch falls through to the later handlers.
  Learned answers go to `training_data.json` and never back into lookup.
- `api/index.py` returns every archive- and content-handler failure as an
  answer string; the code handler's failures fall through here as well.
  It learns nothing, and feedback only updates the in-memory table.
- `main.py` looks answers up in a `BuddhimattaModel` when that class can
  be imported. An empty stored answer counts as a miss there. Learned
  answers and feedback go into the model, so a non-empty one is found next
  time; an empty one stays a miss. Without the model it uses a fixed
  fallback table, which behaves as a model holding only the seeded record,
  and writes only the training file.

`train_model.py`'s `BuddhimattaModel` is a dictionary from question to
answer, mirrored to `model_data.json` by a full rewrite after every change.

The modules:

- `Text`: `str.strip()`, whitespace and substring search.
- `Patterns`: the two regular expressions applied to the question text.
  These are the column-name pattern with its `"answer"` default, and the
  ```` ```python ```` fence. Each is modelled as the leftmost match that
  `re.search` finds, including the backtracking of greedy and lazy parts.
- `Csv`: parsed CSV rows and `read_csv_without_pandas`.
- `Storage`: the JSON files and `save_question_for_training`.
- `TrainModel`: the `BuddhimattaModel` class.
- `Dispatch`: the request, the outcomes, and the handlers the variants
  share.
- `VercelMain`, `ApiIndex`, `MainApp`: the three variants. Each has a pure
  `Resolve` function for the handler chain, and a `Server` class whose
  methods apply the background task and the feedback to the server's
  state.

`VercelMain.Resolve` and `MainApp.Resolve` return a `Reply`: the response,
plus whether a background task saves the `(question, answer)` pair after
it. `ApiIndex.Resolve` returns the answer string alone, since that variant
never learns and never answers with an error status. The service's inputs
are parameters:

- the uploaded archive as the handler sees it (broken, no CSV, an
  unparseable CSV, or a parsed table);
- the upload's bytes decoded as UTF-8, or the decoding error;
- the case-insensitive archive-trigger regex, as an uninterpreted
  predicate;
- the execution of submitted code, as an oracle;
- whether the JSON file can be opened for writing.

Some definitions carry no contract of their own and are stated through
the members that use them: `Storage.Overwrite` (the whole-file `json.dump`
rewrite), `Dispatch.FaultDetail` (the detail of an `HTTPException`),
`Dispatch.ExceptionText` (`str(e)` of a caught exception), `ApiIndex.Field`
(`body.get(key, "")`) and `MainApp.Lookup` (the lookup step of `main.py`:
it stands for `BuddhimattaModel.get_answer` followed by the truthiness test
of its result, and reads the model's pairs directly). The lemma
`Dispatch.MissingColumnText` unfolds `ExceptionText` for the handler's own
missing-column 400 and serves only as a proof step.

## Model

| member | source | states |
|---|---|---|
| Text.Strip | vercel_main.py:155 | `strip()`'s result neither starts nor ends with whitespace |
| Text.StripPadded | vercel_main.py:155 | the input is the stripped text with whitespace-only padding on each side |
| Text.StripIdempotent | vercel_main.py:139 | stripping twice is stripping once |
| Text.StripEmpty | vercel_main.py:155 | the stripped text is empty exactly when the input is all whitespace |
| Text.IndexOf | vercel_main.py:118 | the first occurrence at or after the start; `None` exactly when there is none |
| Text.Contains | vercel_main.py:118 | `sub in s`: the search from the start finds an occurrence |
| Text.ContainsIff | vercel_main.py:118 | `sub in s` holds iff `sub` occurs at some index of `s` |
| Patterns.ColumnMatchAt | vercel_main.py:97 | the pattern tried at one start captures a string the pattern allows there, and the longest one, as greedy backtracking does; it fails only when no capture is possible there |
| Patterns.CaptureBound | vercel_main.py:97 | every capture allowed at a start ends within the run of quote-free characters after the lead, and before its last place followed by the column tail |
| Patterns.ColumnSearch | vercel_main.py:97 | the result is the match at the leftmost start at or after `p` where the pattern matches; none exactly when no start has a match |
| Patterns.ColumnName | vercel_main.py:97-100 | the column name has no quote, and is "answer" when the pattern matches nowhere |
| Patterns.ColumnNameLeftmostLongest | vercel_main.py:97-100 | when the pattern matches, the column name is the longest capture at the leftmost start where it matches, which is `group(1)` of `re.search` |
| Patterns.NoLeadDefaultColumn | vercel_main.py:97-100 | without the case-sensitive "value in the " the column is "answer", however the trigger's case-insensitive phrase is written |
| Patterns.QuotedColumnName | vercel_main.py:97-100 | a question starting with the lead, a quoted quote-free name and the tail asks for exactly that name, without its quotes |
| Patterns.SkipSpaces | vercel_main.py:121 | a greedy `\s*` stops at the first character that is not whitespace |
| Patterns.FirstClose | vercel_main.py:121 | the lazy group ends at the first place where `\s*` and the closing fence match |
| Patterns.FenceBlock | vercel_main.py:121-123 | a block is the one captured at the leftmost opening fence; `None` exactly when no opening fence is followed by a closing one |
| Patterns.LaterOpenersFail | vercel_main.py:121 | when the match at an opening fence fails, the match at every later opening fence fails too, since the closing fence is searched to the end of the text |
| Patterns.SkipSpacesMonotone | vercel_main.py:121 | a greedy `\s*` started further right never stops further left |
| Patterns.FenceBlockTrimmed | vercel_main.py:121-123 | the extracted code neither starts nor ends with whitespace |
| Patterns.FenceBlockUnfenced | vercel_main.py:121-123 | the extracted code never contains a closing fence |
| Csv.FirstValue | vercel_main.py:53-60 | the value comes from a row that has the column; `None` exactly when no row has it |
| Csv.ReadCsvWithoutPandas | vercel_main.py:53-60 | the scan loop returns the value of the first row holding the column, or `None` |
| Csv.FirstValueIsFirstRow | vercel_main.py:55-59 | on a table DictReader produced, the result is the first data row's value when the header names the column, otherwise `None` |
| Storage.SaveQuestion | vercel_main.py:38-51 | the file changes only when it is writable and loadable, and then holds the pair; otherwise it is left exactly as it was |
| Storage.SaveQuestionRecords | vercel_main.py:38-51 | a readable training file then records the pair, keeps every other record and grows by at most one key; an unwritable one is unchanged |
| Storage.SaveQuestionIdempotent | vercel_main.py:46-49 | saving the same pair twice is saving it once |
| Storage.MalformedIsSticky | vercel_main.py:40-51 | a training file that cannot be loaded is never written again |
| TrainModel.OverrideContents | train_model.py:52-56 | after a batch of distinct pairs, the keys are the old keys plus the batch's keys, every pair is present, and untouched keys keep their answers |
| TrainModel.OverrideKeys | train_model.py:52-55 | a batch upsert adds exactly the batch's keys |
| TrainModel.OverrideKeeps | train_model.py:52-55 | keys the batch does not mention keep their answers |
| TrainModel.OverrideLastWins | train_model.py:52-55 | with distinct keys, every pair of the batch is present afterwards |
| TrainModel.BuddhimattaModel.constructor | train_model.py:10-13 | a new model holds the seeded record (file missing, and then saved), the file's pairs, or nothing (file unreadable) |
| TrainModel.BuddhimattaModel.LoadData | train_model.py:15-31 | a missing file seeds exactly one record and saves it; a readable file replaces the pairs; an unreadable one empties them and is left as it is |
| TrainModel.BuddhimattaModel.SaveData | train_model.py:33-40 | the file is rewritten with the pairs, or unchanged if unwritable; the pairs in memory never change |
| TrainModel.BuddhimattaModel.AddQaPair | train_model.py:42-46 | upsert: the key maps to the answer, every other key keeps its answer, at most one key is added, and the pair is in memory even if the write failed |
| TrainModel.BuddhimattaModel.GetAnswer | train_model.py:48-50 | exact-key lookup: `None` exactly when the question is not a key |
| TrainModel.BuddhimattaModel.Train | train_model.py:52-56 | the loop leaves the pairs equal to the old map overridden by the items in order |
| TrainModel.AddQaPairIdempotent | train_model.py:44-46 | adding the same pair again leaves the same map and size, and rewrites the file with the same contents |
| Dispatch.ArchiveApplies | vercel_main.py:77 | the archive handler runs when the trigger matches and a file was uploaded |
| Dispatch.ContentApplies | vercel_main.py:152 | the content handler runs exactly when a file was uploaded and one of its two phrases occurs in the question |
| Dispatch.CodeAnswer | vercel_main.py:118-149 | the code handler answers exactly when the marker, a fenced block and a successful run are all there; its answer is the stripped output of running that block |
| Dispatch.ArchiveLookup | vercel_main.py:91-107 | a missing-column failure names the column taken from the question |
| Dispatch.ArchiveLookupFirstRow | vercel_main.py:96-107 | for a parsed CSV: the first row's value when the header names the column and a row exists, otherwise the missing-column failure |
| Dispatch.LaterHandlers | vercel_main.py:117-165 | code, then content, then default: a code answer wins and is learned; otherwise the content handler's stripped text is learned; only answers are learned, and the only error is a 500 from the content handler |
| Dispatch.LaterHandlersDefault | vercel_main.py:164-165 | with no code answer and no content question, the reply is the fixed default, not learned |
| Dispatch.Interpreter.constructor | vercel_main.py:132 | standard output starts at the terminal |
| Dispatch.Interpreter.ExecCaptured | vercel_main.py:132-146 | the run's result is returned and standard output is restored whether the code printed or raised; `Resolve` uses the run oracle directly, so this method stands apart from the handler chain |
| VercelMain.ArchiveReply | vercel_main.py:77-115 | the archive handler learns exactly when it answers, and every failure is a 500 |
| VercelMain.Resolve | vercel_main.py:66-165 | only answers are learned; every error is a 500 and needs an uploaded file |
| VercelMain.KnownAnswerWins | vercel_main.py:73-74 | a known question gets its stored answer, even an empty one, whatever the file and the other handlers |
| VercelMain.ArchiveNeverFallsThrough | vercel_main.py:77-115 | once the archive handler is entered, the reply does not depend on the code oracle or the file's decoded text |
| VercelMain.ArchiveFailuresAre500 | vercel_main.py:91-115 | every archive failure is a 500 "Error processing file: ...", and a missing CSV arrives as a 500 carrying "400: No CSV file found in the zip" |
| VercelMain.ArchiveReadsFirstRow | vercel_main.py:96-112 | the first data row's value of the question's column is answered and learned; otherwise a 500 naming the column |
| VercelMain.CodeAnswerWins | vercel_main.py:118-144 | an unknown question outside the archive handler, with the marker, a block and a successful run, is answered with the stripped output and learned |
| VercelMain.CodeFallsThrough | vercel_main.py:118-149 | a question the code handler does not answer (no marker, no block, or code that raises) falls through to the content handler or the default |
| VercelMain.NoFileNoError | vercel_main.py:66-165 | without a file the reply is always an answer |
| VercelMain.ContentAnswer | vercel_main.py:152-162 | the content handler answers with the trimmed text, learned; text that is not UTF-8 is a 500 "Error reading file: ..." |
| VercelMain.FeedbackIsRecalled | vercel_main.py:172-175 | after feedback `(q, a)`, asking `q` answers `a` |
| VercelMain.Server.constructor | vercel_main.py:33-36 | the known answers start as the seeded record |
| VercelMain.Server.SaveQuestionForTraining | vercel_main.py:38-51 | read-modify-write of the training file, with failures swallowed |
| VercelMain.Server.ProcessQuestion | vercel_main.py:66-165 | the reply is `Resolve`'s; the known answers never change; the training file records the pair exactly when it is learned |
| VercelMain.Server.ProvideFeedback | vercel_main.py:167-179 | the pair is saved for training and upserted into the known answers; the acknowledgement is fixed |
| ApiIndex.Resolve | api/index.py:43-133 | a known question gets its stored answer |
| ApiIndex.ArchiveAnswer | api/index.py:54-89 | the archive handler's answer: the first row's value of the question's column, "No CSV file found in the zip", the missing-column message, or "Error processing file: ..." for an exception |
| ApiIndex.ArchiveAnswers | api/index.py:54-89 | the archive handler answers with the first row's value, or with "No CSV file found in the zip", the missing-column message or "Error processing file: ..." |
| ApiIndex.DefaultWhenNothingApplies | api/index.py:133 | when no handler applies, the answer is exactly the short default |
| ApiIndex.CodeAnswerWins | api/index.py:92-115 | with the marker, a block and a successful run, the answer is the stripped output |
| ApiIndex.CodeFallsThrough | api/index.py:92-120 | a question the code handler does not answer (no marker, no block, or code that raises) falls through to the content handler or the default |
| ApiIndex.DecodeFailureIsAnswer | api/index.py:123-130 | text that is not UTF-8 gets an "Error reading file: ..." answer, not an error status |
| ApiIndex.AgreesWithVercel | api/index.py:43-133 | wherever `vercel_main.py` answers with something other than its default, this variant gives the same text; where that one gives its default, this one gives its own |
| ApiIndex.FeedbackIsRecalled | api/index.py:143-144 | after feedback, the question answers the corrected text |
| ApiIndex.Server.constructor | api/index.py:25-28 | the known answers start as the seeded record |
| ApiIndex.Server.ProcessQuestion | api/index.py:43-133 | answering changes nothing; the answer is `Resolve`'s |
| ApiIndex.Server.ProvideFeedback | api/index.py:135-148 | missing fields read as ""; the pair is upserted into the known answers; an unreadable body changes nothing and is answered with the error |
| MainApp.FallbackIsSeedModel | main.py:76-81 | without the model, the fallback table looks up exactly as a model holding only the seeded record, whose answer is not empty |
| MainApp.FallbackResolvesAsSeedModel | main.py:69-174 | without the model, every reply is the one a model holding only the seeded record gives |
| MainApp.PandasLookup | main.py:97-117 | a value comes only from a parsed CSV whose header names the question's column and which has a first row, and it is that row's value |
| MainApp.Resolve | main.py:69-174 | only answers are learned; every error is a 500 and needs an uploaded file |
| MainApp.EmptyAnswerIsMiss | main.py:76-79 | an empty stored answer is a miss: the reply is the one for a store without that key |
| MainApp.StoredAnswerWins | main.py:76-79 | a non-empty stored answer wins over every handler |
| MainApp.LearnedAnswerIsRecalled | main.py:46-49 | a learned non-empty answer is the lookup answer next time; a learned empty one leaves dispatch as it was |
| MainApp.CodeAnswerWins | main.py:128-154 | on a lookup miss outside the archive handler, with the marker, a block and a successful run, the stripped output is answered and learned |
| MainApp.ArchiveReadsFirstRow | main.py:102-121 | with the column in the header and a data row, the first row's value is answered and learned |
| MainApp.ArchiveMissingColumn | main.py:106-125 | a header without the question's column is a 500 carrying the text of the handler's own 400 |
| MainApp.ArchiveFaultIs500 | main.py:123-125 | any fault of the pandas handler is a 500 "Error processing file: " followed by `str(e)`, not learned |
| MainApp.ArchiveNoDataRow | main.py:116-125 | a CSV with the column but no data row is a 500 with pandas' out-of-bounds message |
| MainApp.AgreesWithVercel | main.py:69-174 | when the stored answers are all non-empty, this variant answers and learns exactly where `vercel_main.py` does, with the same answers |
| MainApp.Server.constructor | main.py:14-26 | the model exists exactly when it can be imported, and is then loaded from its file |
| MainApp.Server.SaveQuestionForTraining | main.py:46-63 | through the model's upsert when there is one, otherwise a read-modify-write of the training file |
| MainApp.Server.ProcessQuestion | main.py:69-174 | the reply is `Resolve`'s; a learned pair is upserted into the model, or into the training file without one; nothing changes otherwise |
| MainApp.Server.ProvideFeedback | main.py:176-188 | into the model when there is one, otherwise only into the training file; the acknowledgement is fixed |

## Left out

- FastAPI routing, CORS, form and upload parsing, `BackgroundTasks` and uvicorn: a learned pair is applied right after the reply, in the same method.
- Saving the upload, ZIP extraction, temporary directories, and the order of `os.listdir` that decides which `.csv` is "first": the handler receives the chosen CSV, or the exception text, as data.
- CSV lexing by `csv.DictReader` and `pandas.read_csv`. Tables are parsed rows keyed by exactly the header. Short rows (which DictReader fills with `None`) and duplicate column names are not modelled.
- MainApp.PandasLookup: pandas' `str()` of a cell is taken to be the cell text. `nan` for empty cells and reformatted numbers are not modelled.
- Execution of submitted code: an oracle from code to printed output or failure. A `BaseException` that escapes `except Exception` is not modelled.
- VercelMain.NoFileNoError: the run oracle always returns, so submitted code that never terminates, which stalls the request because no timeout is enforced, is not modelled; the lemma holds for code that finishes.
- Console logging: the `print` calls in `train_model.py` (loading, saving, adding and training messages, and the `__main__` demo) and in the training-file error paths of `main.py` and `vercel_main.py` write nothing the service returns or stores.
- The archive-trigger regex: an uninterpreted predicate of the question.
- Whitespace outside ASCII: `str.strip()` and `\s` are modelled on the ASCII whitespace characters only.
- JSON values that are not strings, in the stored files and in the feedback body.
- Partial writes: a write either replaces the whole file or does nothing.
- Concurrent requests and lost updates between them.
- Upload truthiness: an uploaded file is taken to be present whenever one was sent.
- The text of `str(HTTPException)`: rendered as "status: detail", which is what the web framework's exception class produces.
- `client_example.py` and `test_api.py`: an interactive client and an HTTP test script, with no logic of the service.
- The root `GET /` endpoints: each returns a fixed welcome message.
