/** `vercel_main.py`: the deployment whose known answers live in the
    module-level `KNOWN_ANSWERS`, which only feedback changes. Answers the
    handlers find are saved to `training_data.json` by a background task.
    Failures of the archive and content handlers come back as HTTP 500; a
    failing code block is swallowed and dispatch falls through. */
module VercelMain {
  import opened Wrappers
  import opened Text
  import opened Patterns
  import opened Csv
  import opened Storage
  import opened Dispatch
  import TrainModel


  /** The archive handler: the value, learned; every failure, including the
      handler's own 400s, caught by `except Exception` and re-raised as a
      500. */
  function ArchiveReply(question: string, archive: Archive): (r: Reply)
    ensures r.learns <==> r.outcome.Answer?
    ensures r.outcome.HttpError? ==> r.outcome.status == 500
  {
    match ArchiveLookup(question, archive)
    case Ok(value) => Reply(Answer(value), true)
    case Err(f) => Reply(HttpError(500, ProcessingPrefix + ExceptionText(f)), false)
  }

  /** `process_question`: exact lookup in `KNOWN_ANSWERS`, then the
      archive, code and content handlers, then the default answer. Only the
      archive and content handlers can fail, and only with status 500. */
  function Resolve(known: map<string, string>, question: string, file: Option<Upload>, env: Env): (r: Reply)
    ensures r.learns ==> r.outcome.Answer?
    ensures r.outcome.HttpError? ==> r.outcome.status == 500 && file.Some?
  {
    if question in known then Reply(Answer(known[question]), false)
    else if ArchiveApplies(question, file, env) then ArchiveReply(question, file.value.archive)
    else LaterHandlers(question, file, env)
  }

  /** A known question gets its stored answer, even an empty one, whatever
      the file and whatever the other handlers would do. */
  lemma KnownAnswerWins(known: map<string, string>, question: string, file: Option<Upload>, env: Env)
    requires question in known
    ensures Resolve(known, question, file, env) == Reply(Answer(known[question]), false)
  {
  }

  /** Once the archive handler is entered it decides the reply: the code
      oracle and the file's decoded content play no part. */
  lemma ArchiveNeverFallsThrough(known: map<string, string>, question: string, archive: Archive,
                                 content1: Decoded, content2: Decoded, env1: Env, env2: Env)
    requires question !in known && env1.archiveTrigger(question) && env2.archiveTrigger(question)
    ensures Resolve(known, question, Some(Upload(archive, content1)), env1)
            == Resolve(known, question, Some(Upload(archive, content2)), env2)
  {
  }

  /** Every archive failure is a 500 whose detail wraps `str(e)`; the 400
      raised for a missing CSV or column arrives as a 500 too. */
  lemma ArchiveFailuresAre500(known: map<string, string>, question: string, file: Option<Upload>, env: Env)
    requires question !in known && ArchiveApplies(question, file, env)
    requires ArchiveLookup(question, file.value.archive).Err?
    ensures var f := ArchiveLookup(question, file.value.archive).error;
            Resolve(known, question, file, env)
            == Reply(HttpError(500, ProcessingPrefix + ExceptionText(f)), false)
    ensures file.value.archive == Extracted(None) ==>
              Resolve(known, question, file, env).outcome
              == HttpError(500, ProcessingPrefix + ("400: " + NoCsvMessage))
  {
  }

  /** A CSV whose header names the question's column answers with the
      first data row's value, and the pair is learned; a header without the
      column, or no data row, is a 500 naming the column. */
  lemma ArchiveReadsFirstRow(known: map<string, string>, question: string, t: ParsedTable, content: Decoded, env: Env)
    requires question !in known && env.archiveTrigger(question)
    ensures var column := ColumnName(question);
            var r := Resolve(known, question, Some(Upload(Extracted(Some(Parsed(t))), content)), env);
            if column in t.header && |t.rows| > 0
            then r == Reply(Answer(t.rows[0][column]), true)
            else r == Reply(HttpError(500, ProcessingPrefix + ("400: " + MissingColumnMessage(column))), false)
  {
    ArchiveLookupFirstRow(question, t);
  }

  /** A code question whose fenced block runs is answered with the
      program's trimmed output, learned, ahead of the content handler. */
  lemma CodeAnswerWins(known: map<string, string>, question: string, file: Option<Upload>, env: Env)
    requires question !in known && !ArchiveApplies(question, file, env)
    requires Contains(question, CodeMarker) && FenceBlock(question).Some?
    requires env.run(FenceBlock(question).value).Printed?
    ensures Resolve(known, question, file, env)
            == Reply(Answer(Strip(env.run(FenceBlock(question).value).stdout)), true)
  {
  }

  /** A question the code handler does not answer (no marker, no fenced
      block, or code that raises) falls through to the content handler and
      the default answer. */
  lemma CodeFallsThrough(known: map<string, string>, question: string, file: Option<Upload>, env: Env)
    requires question !in known && !ArchiveApplies(question, file, env)
    requires CodeAnswer(question, env.run).None?
    ensures Resolve(known, question, file, env)
            == if ContentApplies(question, file) then LaterHandlers(question, file, env)
               else Reply(Answer(DefaultAnswer), false)
  {
  }

  /** A question with no file never gets an error: it is a known answer,
      code output, or the default. */
  lemma NoFileNoError(known: map<string, string>, question: string, env: Env)
    ensures Resolve(known, question, None, env).outcome.Answer?
  {
  }

  /** The content handler answers with the trimmed text, learned; a file
      that is not UTF-8 is a 500 "Error reading file". */
  lemma ContentAnswer(known: map<string, string>, question: string, file: Upload, env: Env)
    requires question !in known && !env.archiveTrigger(question) && CodeAnswer(question, env.run).None?
    requires Contains(question, ContentMarker) || Contains(question, ContainMarker)
    ensures file.content.Utf8? ==>
              Resolve(known, question, Some(file), env) == Reply(Answer(Strip(file.content.text)), true)
    ensures file.content.NotUtf8? ==>
              Resolve(known, question, Some(file), env)
              == Reply(HttpError(500, ReadingPrefix + file.content.message), false)
  {
  }

  /** After feedback `(q, a)`, asking `q` again answers `a`. */
  lemma FeedbackIsRecalled(known: map<string, string>, question: string, answer: string, file: Option<Upload>, env: Env)
    ensures Resolve(known[question := answer], question, file, env) == Reply(Answer(answer), false)
  {
  }

  class Server {
    var known: map<string, string>
    /** `training_data.json`. */
    var training: JsonFile

    constructor (training: JsonFile)
      ensures known == TrainModel.SeedAnswers && this.training == training
    {
      known := TrainModel.SeedAnswers;
      this.training := training;
    }

    /** `save_question_for_training`: read-modify-write of the training
        file; every failure is swallowed. */
    method SaveQuestionForTraining(question: string, answer: string, writable: bool)
      modifies this`training
      ensures training == SaveQuestion(old(training), question, answer, writable)
    {
      training := SaveQuestion(training, question, answer, writable);
    }

    /** `process_question` followed by its background task: a learned
        answer goes to the training file only, never into `KNOWN_ANSWERS`. */
    method ProcessQuestion(question: string, file: Option<Upload>, env: Env, writable: bool) returns (o: Outcome)
      modifies this`training
      ensures o == Resolve(known, question, file, env).outcome
      ensures known == old(known)
      ensures training == if Resolve(known, question, file, env).learns
                          then SaveQuestion(old(training), question, o.text, writable)
                          else old(training)
    {
      var r := Resolve(known, question, file, env);
      o := r.outcome;
      if r.learns {
        SaveQuestionForTraining(question, o.text, writable);
      }
    }

    /** `provide_feedback`: saves the pair for training and upserts it into
        `KNOWN_ANSWERS`; the acknowledgement is fixed. */
    method ProvideFeedback(question: string, correctAnswer: string, writable: bool) returns (message: string)
      modifies this
      ensures known == old(known)[question := correctAnswer]
      ensures training == SaveQuestion(old(training), question, correctAnswer, writable)
      ensures message == FeedbackThanks
    {
      SaveQuestionForTraining(question, correctAnswer, writable);
      known := known[question := correctAnswer];
      message := FeedbackThanks;
    }
  }
}
