/** The JSON files the service keeps its answers in (`model_data.json`,
    `training_data.json`): each is missing, holds a JSON object mapping
    question text to answer text, or cannot be read as one. Whether the
    process may open a file for writing is a parameter, `writable`; a write
    that cannot open the file leaves it as it was. */
module Storage {

  datatype JsonFile = Missing | Holds(pairs: map<string, string>) | Malformed

  /** `json.dump(pairs, open(path, "w"))`: the whole file is replaced. */
  function Overwrite(f: JsonFile, pairs: map<string, string>, writable: bool): JsonFile
  {
    if writable then Holds(pairs) else f
  }

  /** `save_question_for_training(question, answer)`: load the training
      file if it exists, set the one key, write the whole object back. A
      load that raises ends the call before anything is written. */
  function SaveQuestion(f: JsonFile, question: string, answer: string, writable: bool): (r: JsonFile)
    ensures r != f ==> writable && !f.Malformed? && r.Holds?
    ensures r.Holds? ==> question in r.pairs || (f.Holds? && r == f)
    ensures writable && !f.Malformed? ==> r.Holds? && question in r.pairs && r.pairs[question] == answer
  {
    match f
    case Missing => Overwrite(f, map[question := answer], writable)
    case Holds(pairs) => Overwrite(f, pairs[question := answer], writable)
    case Malformed => f
  }

  /** A readable training file records the pair and keeps every other
      record; an unwritable one is left as it was. */
  lemma SaveQuestionRecords(f: JsonFile, question: string, answer: string, writable: bool)
    requires !f.Malformed?
    ensures writable ==> SaveQuestion(f, question, answer, writable).Holds?
    ensures writable ==> SaveQuestion(f, question, answer, writable).pairs[question] == answer
    ensures writable && f.Holds? ==> forall k :: k != question && k in f.pairs ==>
              k in SaveQuestion(f, question, answer, writable).pairs
              && SaveQuestion(f, question, answer, writable).pairs[k] == f.pairs[k]
    ensures writable ==> |SaveQuestion(f, question, answer, writable).pairs| <= (if f.Holds? then |f.pairs| else 0) + 1
    ensures !writable ==> SaveQuestion(f, question, answer, writable) == f
  {
  }

  /** Saving the same pair twice leaves the file as saving it once. */
  lemma SaveQuestionIdempotent(f: JsonFile, question: string, answer: string, writable: bool)
    ensures SaveQuestion(SaveQuestion(f, question, answer, writable), question, answer, writable)
            == SaveQuestion(f, question, answer, writable)
  {
  }

  /** A training file that cannot be loaded is never repaired: every later
      save fails at the load and writes nothing. */
  lemma MalformedIsSticky(question: string, answer: string, writable: bool)
    ensures SaveQuestion(Malformed, question, answer, writable) == Malformed
  {
  }
}
