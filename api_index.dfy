/** `api/index.py`: the deployment without learning. Failures of the
    archive and content handlers come back as answer strings, never as
    error statuses; a failing code block is swallowed and dispatch falls
    through. Feedback only upserts into the in-memory `KNOWN_ANSWERS`. */
module ApiIndex {
  import opened Wrappers
  import opened Text
  import opened Patterns
  import opened Csv
  import opened Dispatch
  import TrainModel
  import VercelMain

  const DefaultAnswer: string := "I don't have the answer to this question yet."
  const FeedbackErrorPrefix: string := "Error processing feedback: "

  /** The archive handler: its own failures are answered with their
      message, a caught exception with "Error processing file: ...". */
  function ArchiveAnswer(question: string, archive: Archive): (r: string)
    ensures archive.Broken? ==> r == ProcessingPrefix + archive.message
    ensures archive == Extracted(None) ==> r == NoCsvMessage
    ensures archive.Extracted? && archive.firstCsv.Some? && archive.firstCsv.value.Unparseable? ==>
              r == ProcessingPrefix + archive.firstCsv.value.message
    ensures archive.Extracted? && archive.firstCsv.Some? && archive.firstCsv.value.Parsed? ==>
              var t := archive.firstCsv.value.table;
              var column := ColumnName(question);
              r == if column in t.header && |t.rows| > 0 then t.rows[0][column] else MissingColumnMessage(column)
  {
    var answer := match ArchiveLookup(question, archive)
      case Ok(value) => value
      case Err(NoCsv) => NoCsvMessage
      case Err(MissingColumn(column)) => MissingColumnMessage(column)
      case Err(Raised(message)) => ProcessingPrefix + message;
    if archive.Extracted? && archive.firstCsv.Some? && archive.firstCsv.value.Parsed? then
      ArchiveLookupFirstRow(question, archive.firstCsv.value.table);
      answer
    else answer
  }

  /** `process_question`: exact lookup, archive, code, content, default;
      the result is always an answer. */
  function Resolve(known: map<string, string>, question: string, file: Option<Upload>, env: Env): (answer: string)
    ensures question in known ==> answer == known[question]
  {
    if question in known then known[question]
    else if ArchiveApplies(question, file, env) then ArchiveAnswer(question, file.value.archive)
    else match CodeAnswer(question, env.run)
      case Some(output) => output
      case None =>
        if ContentApplies(question, file) then
          match file.value.content
          case Utf8(text) => Strip(text)
          case NotUtf8(message) => ReadingPrefix + message
        else DefaultAnswer
  }

  /** The archive handler's answers: the first row's value of the
      question's column, or one of its three error answers. */
  lemma ArchiveAnswers(known: map<string, string>, question: string, file: Upload, env: Env)
    requires question !in known && env.archiveTrigger(question)
    ensures var answer := Resolve(known, question, Some(file), env);
            match file.archive
            case Broken(message) => answer == ProcessingPrefix + message
            case Extracted(None) => answer == "No CSV file found in the zip"
            case Extracted(Some(Unparseable(message))) => answer == ProcessingPrefix + message
            case Extracted(Some(Parsed(t))) =>
              var column := ColumnName(question);
              answer == if column in t.header && |t.rows| > 0 then t.rows[0][column]
                        else MissingColumnMessage(column)
  {
  }

  /** With no handler applying, the answer is exactly the short default. */
  lemma DefaultWhenNothingApplies(known: map<string, string>, question: string, file: Option<Upload>, env: Env)
    requires question !in known && !ArchiveApplies(question, file, env)
    requires CodeAnswer(question, env.run).None? && !ContentApplies(question, file)
    ensures Resolve(known, question, file, env) == "I don't have the answer to this question yet."
  {
  }

  /** A code question whose fenced block runs is answered with the
      program's trimmed output, ahead of the content handler. */
  lemma CodeAnswerWins(known: map<string, string>, question: string, file: Option<Upload>, env: Env)
    requires question !in known && !ArchiveApplies(question, file, env)
    requires Contains(question, CodeMarker) && FenceBlock(question).Some?
    requires env.run(FenceBlock(question).value).Printed?
    ensures Resolve(known, question, file, env) == Strip(env.run(FenceBlock(question).value).stdout)
  {
  }

  /** A question the code handler does not answer (no marker, no block, or
      code that raises) falls through. */
  lemma CodeFallsThrough(known: map<string, string>, question: string, file: Option<Upload>, env: Env)
    requires question !in known && !ArchiveApplies(question, file, env)
    requires CodeAnswer(question, env.run).None?
    ensures !ContentApplies(question, file) ==> Resolve(known, question, file, env) == DefaultAnswer
    ensures ContentApplies(question, file) && file.value.content.Utf8? ==>
              Resolve(known, question, file, env) == Strip(file.value.content.text)
  {
  }

  /** A file that is not UTF-8 gets an "Error reading file" answer. */
  lemma DecodeFailureIsAnswer(known: map<string, string>, question: string, file: Upload, env: Env)
    requires question !in known && !env.archiveTrigger(question) && CodeAnswer(question, env.run).None?
    requires ContentApplies(question, Some(file)) && file.content.NotUtf8?
    ensures Resolve(known, question, Some(file), env) == ReadingPrefix + file.content.message
  {
  }

  /** This variant answers wherever `vercel_main.py` answers, with the same
      text, except that its default message is the shorter one. */
  lemma {:induction false} AgreesWithVercel(known: map<string, string>, question: string, file: Option<Upload>, env: Env)
    ensures var v := VercelMain.Resolve(known, question, file, env);
            v.outcome.Answer? && v.outcome != Answer(Dispatch.DefaultAnswer) ==>
              Resolve(known, question, file, env) == v.outcome.text
    ensures var v := VercelMain.Resolve(known, question, file, env);
            v == Reply(Answer(Dispatch.DefaultAnswer), false) && question !in known ==>
              Resolve(known, question, file, env) == DefaultAnswer
  {
    if question !in known && ArchiveApplies(question, file, env) {
      match file.value.archive
      case Extracted(Some(Parsed(t))) => ArchiveLookupFirstRow(question, t);
      case _ =>
    }
  }

  /** The feedback request's JSON body, or the text of the exception raised
      while reading it. */
  datatype FeedbackBody = JsonObject(fields: map<string, string>) | Unreadable(message: string)

  /** `body.get(key, "")`. */
  function Field(fields: map<string, string>, key: string): string {
    if key in fields then fields[key] else ""
  }

  class Server {
    var known: map<string, string>

    constructor ()
      ensures known == TrainModel.SeedAnswers
    {
      known := TrainModel.SeedAnswers;
    }

    /** `process_question` reads `KNOWN_ANSWERS` and changes nothing. */
    method ProcessQuestion(question: string, file: Option<Upload>, env: Env) returns (answer: string)
      ensures answer == Resolve(known, question, file, env)
    {
      answer := Resolve(known, question, file, env);
    }

    /** `provide_feedback`: missing fields read as "", the pair is upserted
        into `KNOWN_ANSWERS` with nothing written to disk; a body that
        cannot be read changes nothing. */
    method ProvideFeedback(body: FeedbackBody) returns (message: string)
      modifies this
      ensures body.JsonObject? ==>
                known == old(known)[Field(body.fields, "question") := Field(body.fields, "correct_answer")]
                && message == FeedbackThanks
      ensures body.Unreadable? ==> known == old(known) && message == FeedbackErrorPrefix + body.message
    {
      match body
      case JsonObject(fields) =>
        known := known[Field(fields, "question") := Field(fields, "correct_answer")];
        message := FeedbackThanks;
      case Unreadable(error) =>
        message := FeedbackErrorPrefix + error;
    }
  }

  /** After feedback for `q`, asking `q` answers the corrected text. */
  lemma FeedbackIsRecalled(known: map<string, string>, question: string, answer: string, file: Option<Upload>, env: Env)
    ensures Resolve(known[question := answer], question, file, env) == answer
  {
  }
}
