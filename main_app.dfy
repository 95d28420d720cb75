/** `main.py`: the deployment backed by `BuddhimattaModel` when
    `train_model` imports, and by a fixed `KNOWN_ANSWERS` when it does not.
    With the model, answers the handlers find and feedback both go into the
    model, so later lookups see them unless the answer is empty, which the
    lookup treats as a miss; without it they go only to
    `training_data.json`. The archive handler reads the CSV with pandas. */
module MainApp {
  import opened Wrappers
  import opened Text
  import opened Patterns
  import opened Csv
  import opened Storage
  import opened Dispatch
  import opened TrainModel
  import VercelMain

  /** The `IndexError` pandas raises for `iloc[0]` of an empty column. */
  const NoRowMessage: string := "single positional indexer is out-of-bounds"

  /** The lookup step. With the model (`Some(pairs)`), `get_answer`, where
      an empty stored answer is falsy and counts as a miss; without it, the
      fallback `KNOWN_ANSWERS`, which holds only the seeded record. */
  function Lookup(model: Option<map<string, string>>, question: string): Option<string> {
    match model
    case Some(pairs) =>
      if question in pairs && pairs[question] != "" then Some(pairs[question]) else None
    case None =>
      if question in SeedAnswers then Some(SeedAnswers[question]) else None
  }

  /** Without the model, the fallback `KNOWN_ANSWERS` looks up like a model
      holding only the seeded record, because the seeded answer is not
      empty. */
  lemma FallbackIsSeedModel(question: string)
    ensures Lookup(None, question) == Lookup(Some(SeedAnswers), question)
  {
    assert |SeedAnswer| > 0;
  }

  /** So the whole dispatch without the model is the dispatch with a model
      that holds only the seeded record. */
  lemma FallbackResolvesAsSeedModel(question: string, file: Option<Upload>, env: Env)
    ensures Resolve(None, question, file, env) == Resolve(Some(SeedAnswers), question, file, env)
  {
    FallbackIsSeedModel(question);
  }

  /** The archive handler with pandas: the header must name the column,
      and `str(df[column].iloc[0])` needs a first row. */
  function PandasLookup(question: string, archive: Archive): (r: Result<string, Fault>)
    ensures r.Ok? ==> archive.Extracted? && archive.firstCsv.Some? && archive.firstCsv.value.Parsed?
    ensures r.Ok? ==> var t := archive.firstCsv.value.table;
                      ColumnName(question) in t.header && |t.rows| > 0 && r.value == t.rows[0][ColumnName(question)]
  {
    match archive
    case Broken(message) => Err(Raised(message))
    case Extracted(None) => Err(NoCsv)
    case Extracted(Some(Unparseable(message))) => Err(Raised(message))
    case Extracted(Some(Parsed(t))) =>
      var column := ColumnName(question);
      if column !in t.header then Err(MissingColumn(column))
      else if |t.rows| == 0 then Err(Raised(NoRowMessage))
      else Ok(t.rows[0][column])
  }

  /** `process_question`: lookup, archive, code, content, default. Archive
      failures, the handler's own 400s included, are 500s. */
  function Resolve(model: Option<map<string, string>>, question: string, file: Option<Upload>, env: Env): (r: Reply)
    ensures r.learns ==> r.outcome.Answer?
    ensures r.outcome.HttpError? ==> r.outcome.status == 500 && file.Some?
  {
    match Lookup(model, question)
    case Some(answer) => Reply(Answer(answer), false)
    case None =>
      if ArchiveApplies(question, file, env) then
        match PandasLookup(question, file.value.archive)
        case Ok(value) => Reply(Answer(value), true)
        case Err(f) => Reply(HttpError(500, ProcessingPrefix + ExceptionText(f)), false)
      else LaterHandlers(question, file, env)
  }

  /** A stored empty answer is a miss: dispatch goes on as if the question
      were not stored at all. */
  lemma EmptyAnswerIsMiss(pairs: map<string, string>, question: string, file: Option<Upload>, env: Env)
    requires question in pairs && pairs[question] == ""
    ensures Resolve(Some(pairs), question, file, env) == Resolve(Some(pairs - {question}), question, file, env)
  {
  }

  /** A stored non-empty answer wins over every handler. */
  lemma StoredAnswerWins(pairs: map<string, string>, question: string, file: Option<Upload>, env: Env)
    requires question in pairs && pairs[question] != ""
    ensures Resolve(Some(pairs), question, file, env) == Reply(Answer(pairs[question]), false)
  {
  }

  /** A learned non-empty answer is what the same question gets next time;
      a learned empty one is not looked up, and the question is dispatched
      to the handlers again. */
  lemma {:induction false} LearnedAnswerIsRecalled(pairs: map<string, string>, question: string,
                                                   file: Option<Upload>, env: Env, file': Option<Upload>, env': Env)
    requires Resolve(Some(pairs), question, file, env).learns
    ensures var a := Resolve(Some(pairs), question, file, env).outcome.text;
            a != "" ==> Resolve(Some(pairs[question := a]), question, file', env') == Reply(Answer(a), false)
    ensures var a := Resolve(Some(pairs), question, file, env).outcome.text;
            a == "" ==> Resolve(Some(pairs[question := a]), question, file', env') == Resolve(Some(pairs), question, file', env')
  {
    assert Lookup(Some(pairs), question).None?;
  }

  /** With no stored answer and no archive handler, a code question whose
      fenced block runs is answered with the program's trimmed output,
      learned, ahead of the content handler. */
  lemma CodeAnswerWins(model: Option<map<string, string>>, question: string, file: Option<Upload>, env: Env)
    requires Lookup(model, question).None? && !ArchiveApplies(question, file, env)
    requires Contains(question, CodeMarker) && FenceBlock(question).Some?
    requires env.run(FenceBlock(question).value).Printed?
    ensures Resolve(model, question, file, env)
            == Reply(Answer(Strip(env.run(FenceBlock(question).value).stdout)), true)
  {
  }

  /** The pandas handler answers with the first row's value of the
      question's column, and the pair is learned. */
  lemma ArchiveReadsFirstRow(model: Option<map<string, string>>, question: string, t: ParsedTable, content: Decoded, env: Env)
    requires Lookup(model, question).None? && env.archiveTrigger(question)
    requires ColumnName(question) in t.header && |t.rows| > 0
    ensures Resolve(model, question, Some(Upload(Extracted(Some(Parsed(t))), content)), env)
            == Reply(Answer(t.rows[0][ColumnName(question)]), true)
  {
    assert ArchiveApplies(question, Some(Upload(Extracted(Some(Parsed(t))), content)), env);
  }

  /** A header without the question's column is a 500 carrying the text of
      the handler's own 400. */
  lemma ArchiveMissingColumn(model: Option<map<string, string>>, question: string, t: ParsedTable, content: Decoded, env: Env)
    requires Lookup(model, question).None? && env.archiveTrigger(question)
    requires ColumnName(question) !in t.header
    ensures Resolve(model, question, Some(Upload(Extracted(Some(Parsed(t))), content)), env)
            == Reply(HttpError(500, ProcessingPrefix + ("400: " + MissingColumnMessage(ColumnName(question)))), false)
  {
    var archive := Extracted(Some(Parsed(t)));
    var column := ColumnName(question);
    assert PandasLookup(question, archive) == Err(MissingColumn(column));
    ArchiveFaultIs500(model, question, Upload(archive, content), env, MissingColumn(column));
    MissingColumnText(column);
  }

  /** A fault of the pandas handler is a 500 "Error processing file: "
      followed by `str(e)`. */
  lemma ArchiveFaultIs500(model: Option<map<string, string>>, question: string, file: Upload, env: Env, f: Fault)
    requires Lookup(model, question).None? && env.archiveTrigger(question)
    requires PandasLookup(question, file.archive) == Err(f)
    ensures Resolve(model, question, Some(file), env) == Reply(HttpError(500, ProcessingPrefix + ExceptionText(f)), false)
  {
    assert ArchiveApplies(question, Some(file), env);
  }

  /** A CSV with the column but no data row is a 500 with pandas'
      out-of-bounds message. */
  lemma ArchiveNoDataRow(model: Option<map<string, string>>, question: string, t: ParsedTable, content: Decoded, env: Env)
    requires Lookup(model, question).None? && env.archiveTrigger(question)
    requires ColumnName(question) in t.header && t.rows == []
    ensures Resolve(model, question, Some(Upload(Extracted(Some(Parsed(t))), content)), env)
            == Reply(HttpError(500, ProcessingPrefix + NoRowMessage), false)
  {
    assert ArchiveApplies(question, Some(Upload(Extracted(Some(Parsed(t))), content)), env);
  }

  /** With a model whose answers are all non-empty, `main.py` replies as
      `vercel_main.py` does with those answers as `KNOWN_ANSWERS`, except
      for the text of the 500 for a CSV with no data row. */
  lemma {:induction false} AgreesWithVercel(pairs: map<string, string>, question: string, file: Option<Upload>, env: Env)
    requires forall k :: k in pairs ==> pairs[k] != ""
    ensures var m := Resolve(Some(pairs), question, file, env);
            var v := VercelMain.Resolve(pairs, question, file, env);
            m.learns == v.learns && (m.outcome.Answer? <==> v.outcome.Answer?)
            && (m.outcome.Answer? ==> m.outcome == v.outcome)
  {
    if question !in pairs && ArchiveApplies(question, file, env) {
      match file.value.archive
      case Extracted(Some(Parsed(t))) => ArchiveLookupFirstRow(question, t);
      case _ =>
    }
  }

  class Server {
    /** `model`: `None` when `train_model` failed to import; fixed at start. */
    const model: BuddhimattaModel?
    /** `training_data.json`, written only in fallback mode. */
    var training: JsonFile

    constructor (modelImports: bool, modelFile: JsonFile, training: JsonFile, writable: bool)
      ensures modelImports <==> model != null
      ensures model != null ==> fresh(model) && model.dataFile == (if modelFile.Missing? then Overwrite(Missing, SeedAnswers, writable) else modelFile)
      ensures model != null ==> model.qaPairs == match modelFile
                                   case Missing => SeedAnswers
                                   case Holds(pairs) => pairs
                                   case Malformed => map[]
      ensures this.training == training
    {
      if modelImports {
        model := new BuddhimattaModel(modelFile, writable);
      } else {
        model := null;
      }
      this.training := training;
    }

    /** The lookup state `Resolve` sees. */
    function Store(): Option<map<string, string>>
      reads this, model
    {
      if model == null then None else Some(model.qaPairs)
    }

    /** `save_question_for_training`: through `model.add_qa_pair` when the
        model loaded, otherwise a read-modify-write of the training file. */
    method SaveQuestionForTraining(question: string, answer: string, writable: bool)
      modifies this`training, model
      ensures model != null ==> model.qaPairs == old(model.qaPairs)[question := answer]
                                && model.dataFile == Overwrite(old(model.dataFile), model.qaPairs, writable)
                                && training == old(training)
      ensures model == null ==> training == SaveQuestion(old(training), question, answer, writable)
    {
      if model != null {
        model.AddQaPair(question, answer, writable);
      } else {
        training := SaveQuestion(training, question, answer, writable);
      }
    }

    /** `process_question` followed by its background task. */
    method ProcessQuestion(question: string, file: Option<Upload>, env: Env, writable: bool) returns (o: Outcome)
      modifies this`training, model
      ensures o == Resolve(old(Store()), question, file, env).outcome
      ensures !Resolve(old(Store()), question, file, env).learns ==>
                training == old(training) && (model != null ==> model.qaPairs == old(model.qaPairs) && model.dataFile == old(model.dataFile))
      ensures Resolve(old(Store()), question, file, env).learns && model != null ==>
                model.qaPairs == old(model.qaPairs)[question := o.text]
                && model.dataFile == Overwrite(old(model.dataFile), model.qaPairs, writable)
                && training == old(training)
      ensures Resolve(old(Store()), question, file, env).learns && model == null ==>
                training == SaveQuestion(old(training), question, o.text, writable)
    {
      var r := Resolve(Store(), question, file, env);
      o := r.outcome;
      if r.learns {
        SaveQuestionForTraining(question, o.text, writable);
      }
    }

    /** `provide_feedback`: into the model when it loaded; otherwise only
        into the training file, so the fallback lookup never changes. */
    method ProvideFeedback(question: string, correctAnswer: string, writable: bool) returns (message: string)
      modifies this`training, model
      ensures model != null ==> model.qaPairs == old(model.qaPairs)[question := correctAnswer]
                                && model.dataFile == Overwrite(old(model.dataFile), model.qaPairs, writable)
                                && training == old(training)
      ensures model == null ==> training == SaveQuestion(old(training), question, correctAnswer, writable)
      ensures message == FeedbackThanks
    {
      if model != null {
        model.AddQaPair(question, correctAnswer, writable);
      } else {
        SaveQuestionForTraining(question, correctAnswer, writable);
      }
      message := FeedbackThanks;
    }
  }
}
