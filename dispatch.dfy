/** What the three server variants share: the request as the handlers see
    it, the outcomes they produce, and the handler steps that are written
    the same way in more than one variant.

    A request carries the question text and, optionally, an uploaded file.
    What the file turns out to be is given as data: the archive handler's
    view (saved, extracted, the first `.csv` of the directory listing,
    parsed) and the content handler's view (the bytes decoded as UTF-8).
    The case-insensitive archive trigger and the execution of submitted
    code are oracles in `Env`. */
module Dispatch {
  import opened Wrappers
  import opened Text
  import opened Patterns
  import opened Csv

  /** `exec(code)` with standard output captured: what it printed, or an
      exception. */
  datatype Exec = Printed(stdout: string) | Failed

  datatype CsvFile = Parsed(table: ParsedTable) | Unparseable(message: string)

  /** The uploaded archive after saving and extracting it: the first `.csv`
      file found, if any; or the text of the exception raised on the way. */
  datatype Archive = Extracted(firstCsv: Option<CsvFile>) | Broken(message: string)

  datatype Decoded = Utf8(text: string) | NotUtf8(message: string)

  datatype Upload = Upload(archive: Archive, content: Decoded)

  /** `archiveTrigger(q)`: the case-insensitive search for
      "Download and unzip file.*\.zip.*What is the value in the.*column";
      `run(code)`: executing the code with its output captured. */
  datatype Env = Env(archiveTrigger: string -> bool, run: string -> Exec)

  /** A JSON `{"answer": text}` response or an HTTP error status. */
  datatype Outcome = Answer(text: string) | HttpError(status: int, detail: string)

  /** The response, and whether a background task stores
      `(question, answer)` after it is sent. */
  datatype Reply = Reply(outcome: Outcome, learns: bool)

  /** Why the archive handler found no value. `Raised` carries `str(e)` of
      an exception from extraction or from reading the CSV. */
  datatype Fault = NoCsv | MissingColumn(column: string) | Raised(message: string)

  const CodeMarker: string := "What is the output of the following Python code?"
  const ContentMarker: string := "What is the content of"
  const ContainMarker: string := "What does the file contain"
  const NoCsvMessage: string := "No CSV file found in the zip"
  const ProcessingPrefix: string := "Error processing file: "
  const ReadingPrefix: string := "Error reading file: "

  function MissingColumnMessage(column: string): string {
    "No '" + column + "' column found in the CSV"
  }

  /** The archive handler runs only for a trigger match with a file. */
  predicate ArchiveApplies(question: string, file: Option<Upload>, env: Env) {
    env.archiveTrigger(question) && file.Some?
  }

  /** The content handler runs only with a file and one of its phrases,
      each tested as a substring anywhere in the question. */
  predicate ContentApplies(question: string, file: Option<Upload>)
    ensures ContentApplies(question, file) <==>
              file.Some? && ((exists i :: OccursAt(question, ContentMarker, i))
                             || (exists i :: OccursAt(question, ContainMarker, i)))
  {
    ContainsIff(question, ContentMarker);
    ContainsIff(question, ContainMarker);
    file.Some? && (Contains(question, ContentMarker) || Contains(question, ContainMarker))
  }

  /** The code handler: with the marker phrase and a fenced block whose
      execution succeeds, the trimmed output; otherwise `None`, and dispatch
      goes on to the later handlers. */
  function CodeAnswer(question: string, run: string -> Exec): (r: Option<string>)
    ensures r.Some? <==> Contains(question, CodeMarker) && FenceBlock(question).Some?
                         && run(FenceBlock(question).value).Printed?
    ensures r.Some? ==> r.value == Strip(run(FenceBlock(question).value).stdout)
    ensures r.Some? ==> Strip(r.value) == r.value
  {
    if !Contains(question, CodeMarker) then None
    else match FenceBlock(question)
      case None => None
      case Some(code) =>
        match run(code)
        case Printed(out) =>
          StripIdempotent(out);
          Some(Strip(out))
        case Failed => None
  }

  /** The archive handler with `read_csv_without_pandas`: the column named
      by the question, read from the first data row of the first CSV. */
  function ArchiveLookup(question: string, archive: Archive): (r: Result<string, Fault>)
    ensures r.Err? && r.error.MissingColumn? ==> r.error.column == ColumnName(question)
  {
    match archive
    case Broken(message) => Err(Raised(message))
    case Extracted(None) => Err(NoCsv)
    case Extracted(Some(Unparseable(message))) => Err(Raised(message))
    case Extracted(Some(Parsed(t))) =>
      var column := ColumnName(question);
      match FirstValue(t.rows, column)
      case Some(v) => Ok(v)
      case None => Err(MissingColumn(column))
  }

  /** For a parsed CSV the lookup gives the first row's value of the
      question's column, or reports that column as missing when the header
      lacks it or there is no data row. */
  lemma {:induction false} ArchiveLookupFirstRow(question: string, t: ParsedTable)
    ensures ArchiveLookup(question, Extracted(Some(Parsed(t))))
            == if ColumnName(question) in t.header && |t.rows| > 0
               then Ok(t.rows[0][ColumnName(question)])
               else Err(MissingColumn(ColumnName(question)))
  {
    FirstValueIsFirstRow(t, ColumnName(question));
  }

  /** The message of an `HTTPException` the handler itself raised. */
  function FaultDetail(f: Fault): string {
    match f
    case NoCsv => NoCsvMessage
    case MissingColumn(column) => MissingColumnMessage(column)
    case Raised(message) => message
  }

  /** `str(e)` of a caught exception: "status: detail" for the handler's
      own 400s, the message otherwise. */
  function ExceptionText(f: Fault): string {
    match f
    case Raised(message) => message
    case _ => "400: " + FaultDetail(f)
  }

  /** The text of the handler's own missing-column 400 as `str(e)` gives
      it, with the status in front of the detail. */
  lemma MissingColumnText(column: string)
    ensures ExceptionText(MissingColumn(column)) == "400: " + MissingColumnMessage(column)
  {
  }

  /** The acknowledgement every variant's feedback endpoint sends. */
  const FeedbackThanks: string := "Thank you for your feedback! This will help improve the system."

  const DefaultAnswer: string := "I don't have the answer to this question yet. Please provide feedback with the correct answer to improve the system."

  /** The handlers after the archive one, as `vercel_main.py` and `main.py`
      write them: code, then file content, then the default answer. The code
      and content handlers' answers are learned; a decoding failure is a
      500. */
  function LaterHandlers(question: string, file: Option<Upload>, env: Env): (r: Reply)
    ensures r.learns ==> r.outcome.Answer?
    ensures r.outcome.HttpError? ==> r.outcome.status == 500 && ContentApplies(question, file)
    ensures CodeAnswer(question, env.run).Some? ==> r == Reply(Answer(CodeAnswer(question, env.run).value), true)
    ensures CodeAnswer(question, env.run).None? && ContentApplies(question, file) && file.value.content.Utf8? ==>
              r == Reply(Answer(Strip(file.value.content.text)), true)
  {
    match CodeAnswer(question, env.run)
    case Some(output) => Reply(Answer(output), true)
    case None =>
      if ContentApplies(question, file) then
        match file.value.content
        case Utf8(text) => Reply(Answer(Strip(text)), true)
        case NotUtf8(message) => Reply(HttpError(500, ReadingPrefix + message), false)
      else Reply(Answer(DefaultAnswer), false)
  }

  /** With nothing for the later handlers to do, the answer is the fixed
      default, never an error, and nothing is learned. */
  lemma LaterHandlersDefault(question: string, file: Option<Upload>, env: Env)
    requires CodeAnswer(question, env.run).None? && !ContentApplies(question, file)
    ensures LaterHandlers(question, file, env) == Reply(Answer(DefaultAnswer), false)
  {
  }

  datatype Sink = Terminal | Captured

  /** The interpreter's `sys.stdout`. */
  class Interpreter {
    var stdout: Sink

    constructor ()
      ensures stdout == Terminal
    {
      stdout := Terminal;
    }

    /** The code handler's `exec` with standard output redirected to a
        buffer; the `finally` clause puts the old stream back whether the
        code printed or raised. */
    method ExecCaptured(code: string, run: string -> Exec) returns (r: Exec)
      modifies this
      ensures r == run(code)
      ensures stdout == old(stdout)
    {
      var saved := stdout;
      stdout := Captured;
      r := run(code);
      stdout := saved;
    }
  }
}
