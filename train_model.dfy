/** `BuddhimattaModel`: the answer store. An in-memory dictionary from
    exact question text to answer text, mirrored to `model_data.json` by a
    full rewrite after every change. */
module TrainModel {
  import opened Wrappers
  import opened Storage

  /** The question of the one record every store starts with. */
  const SeedQuestion: string := "Install and run Visual Studio Code. In your Terminal (or Command Prompt), type code -s and press Enter. Copy and paste the entire output below. What is the output ofcode -s?"

  const SeedAnswer: string := "Version:          Code 1.96.3 (91fbdddc47bc9c09064bf7acf133d22631cbf083, 2025-01-09T18:14:09.060Z)\nOS Version:       Windows_NT x64 10.0.26120\nCPUs:             11th Gen Intel(R) Core(TM) i5-11260H @ 2.60GHz (12 x 2611)\n"

  /** The seeded record; also the initial `KNOWN_ANSWERS` of each server. */
  const SeedAnswers: map<string, string> := map[SeedQuestion := SeedAnswer]

  /** The question keys of a sequence of `(question, answer)` items. */
  function KeysOf(items: seq<(string, string)>): set<string> {
    set i | 0 <= i < |items| :: items[i].0
  }

  /** The items are the entries of one dictionary: no key twice. */
  predicate DistinctKeys(items: seq<(string, string)>) {
    forall i, j :: 0 <= i < j < |items| ==> items[i].0 != items[j].0
  }

  /** `m` after `add_qa_pair` of every item, in order. */
  function Override(m: map<string, string>, items: seq<(string, string)>): map<string, string>
  {
    if items == [] then m
    else
      var last := items[|items| - 1];
      Override(m, items[..|items| - 1])[last.0 := last.1]
  }

  /** What `train(pairs)` promises: the keys are the old keys and the
      pairs', every pair is present afterwards, and keys the pairs do not
      mention keep their answers. */
  lemma {:induction false} OverrideContents(m: map<string, string>, items: seq<(string, string)>)
    requires DistinctKeys(items)
    ensures Override(m, items).Keys == m.Keys + KeysOf(items)
    ensures forall i :: 0 <= i < |items| ==> Override(m, items)[items[i].0] == items[i].1
    ensures forall k :: k in m && k !in KeysOf(items) ==> Override(m, items)[k] == m[k]
  {
    OverrideKeys(m, items);
    OverrideKeeps(m, items);
    forall i | 0 <= i < |items| ensures Override(m, items)[items[i].0] == items[i].1 {
      OverrideLastWins(m, items, i);
    }
  }

  /** The items' keys are the keys of the items before the last, and the
      last one's. */
  lemma KeysOfSnoc(items: seq<(string, string)>)
    requires items != []
    ensures KeysOf(items) == KeysOf(items[..|items| - 1]) + {items[|items| - 1].0}
  {
    var init := items[..|items| - 1];
    assert forall i :: 0 <= i < |init| ==> init[i] == items[i];
  }

  lemma {:induction false} OverrideKeys(m: map<string, string>, items: seq<(string, string)>)
    ensures Override(m, items).Keys == m.Keys + KeysOf(items)
  {
    if items != [] {
      OverrideKeys(m, items[..|items| - 1]);
      KeysOfSnoc(items);
    }
  }

  lemma {:induction false} OverrideKeeps(m: map<string, string>, items: seq<(string, string)>)
    ensures forall k :: k in m && k !in KeysOf(items) ==> k in Override(m, items) && Override(m, items)[k] == m[k]
  {
    if items != [] {
      OverrideKeys(m, items);
      OverrideKeeps(m, items[..|items| - 1]);
      KeysOfSnoc(items);
    }
  }

  /** With distinct keys, no later item overwrites item `i`. */
  lemma {:induction false} OverrideLastWins(m: map<string, string>, items: seq<(string, string)>, i: nat)
    requires DistinctKeys(items) && i < |items|
    ensures items[i].0 in Override(m, items) && Override(m, items)[items[i].0] == items[i].1
  {
    var n := |items| - 1;
    if i < n {
      var init := items[..n];
      assert DistinctKeys(init);
      assert init[i] == items[i];
      OverrideLastWins(m, init, i);
      assert items[i].0 != items[n].0;
    }
  }

  class BuddhimattaModel {
    var qaPairs: map<string, string>
    /** `model_data.json`. */
    var dataFile: JsonFile

    /** `__init__`: start empty, then `load_data()`. */
    constructor (dataFile: JsonFile, writable: bool)
      ensures dataFile.Missing? ==> qaPairs == SeedAnswers && this.dataFile == Overwrite(Missing, SeedAnswers, writable)
      ensures dataFile.Holds? ==> qaPairs == dataFile.pairs && this.dataFile == dataFile
      ensures dataFile.Malformed? ==> qaPairs == map[] && this.dataFile == Malformed
    {
      this.dataFile := dataFile;
      qaPairs := map[];
      new;
      LoadData(writable);
    }

    /** `load_data()`: a missing file seeds the one default record and
        saves it; a readable file replaces the pairs; a file that cannot be
        loaded leaves the store empty and the file as it is. */
    method LoadData(writable: bool)
      modifies this
      ensures old(dataFile).Missing? ==> qaPairs == SeedAnswers && |qaPairs| == 1 && dataFile == Overwrite(Missing, SeedAnswers, writable)
      ensures old(dataFile).Holds? ==> qaPairs == old(dataFile).pairs && dataFile == old(dataFile)
      ensures old(dataFile).Malformed? ==> qaPairs == map[] && dataFile == Malformed
    {
      match dataFile
      case Missing =>
        qaPairs := SeedAnswers;
        SaveData(writable);
      case Holds(pairs) =>
        qaPairs := pairs;
      case Malformed =>
        qaPairs := map[];
    }

    /** `save_data()`: rewrites the whole file; a failed write is swallowed
        and the in-memory pairs stay as they are. */
    method SaveData(writable: bool)
      modifies this`dataFile
      ensures dataFile == Overwrite(old(dataFile), qaPairs, writable)
      ensures qaPairs == old(qaPairs)
    {
      dataFile := Overwrite(dataFile, qaPairs, writable);
    }

    /** `add_qa_pair(question, answer)`: upsert, then save. The pair is in
        memory whether or not the write succeeded; every other key keeps its
        answer and at most one key is added. */
    method AddQaPair(question: string, answer: string, writable: bool)
      modifies this
      ensures qaPairs == old(qaPairs)[question := answer]
      ensures question in qaPairs && qaPairs[question] == answer
      ensures forall k :: k != question ==> (k in qaPairs <==> k in old(qaPairs))
      ensures forall k :: k != question && k in old(qaPairs) ==> qaPairs[k] == old(qaPairs)[k]
      ensures |qaPairs| <= |old(qaPairs)| + 1
      ensures dataFile == Overwrite(old(dataFile), qaPairs, writable)
    {
      qaPairs := qaPairs[question := answer];
      SaveData(writable);
    }

    /** `get_answer(question)`: exact-key lookup, `None` exactly when the
        question is not a key. */
    method GetAnswer(question: string) returns (r: Option<string>)
      ensures r.None? <==> question !in qaPairs
      ensures r.Some? ==> r.value == qaPairs[question]
    {
      if question in qaPairs {
        r := Some(qaPairs[question]);
      } else {
        r := None;
      }
    }

    /** `train(new_qa_pairs)`: `add_qa_pair` for every item in order, so
        the file is rewritten once per item. */
    method Train(items: seq<(string, string)>, writable: bool)
      modifies this
      ensures qaPairs == Override(old(qaPairs), items)
      ensures dataFile == if items != [] && writable then Holds(qaPairs) else old(dataFile)
    {
      for i := 0 to |items|
        invariant qaPairs == Override(old(qaPairs), items[..i])
        invariant dataFile == if i > 0 && writable then Holds(qaPairs) else old(dataFile)
      {
        assert items[..i + 1][..i] == items[..i];
        AddQaPair(items[i].0, items[i].1, writable);
      }
      assert items[..|items|] == items;
    }
  }

  /** Adding the same pair again changes nothing, in memory or on disk:
      the map and its size stay, and the second save writes what the first
      one wrote. */
  lemma AddQaPairIdempotent(m: map<string, string>, f: JsonFile, question: string, answer: string, writable: bool)
    ensures m[question := answer][question := answer] == m[question := answer]
    ensures |m[question := answer][question := answer]| == |m[question := answer]|
    ensures var f1 := Overwrite(f, m[question := answer], writable);
            Overwrite(f1, m[question := answer][question := answer], writable) == f1
  {
  }
}
