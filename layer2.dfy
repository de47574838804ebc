/** classifiers/layer2.py: the configurable layer-2 node. Labels come from the
    `labels-l2` section of the configuration; a label the dictionary does not know
    defaults to `MALIGN`; in regressor mode one-hot targets become class indices. */
module Layer2 {
  import opened Encoding
  import opened Dataset
  import opened ModelCache

  /** `if tmp[-1] not in attacks: tmp[-1] = "MALIGN"` */
  function Relabel(labelName: string, attacks: map<string, int>): string
  {
    if labelName !in attacks then "MALIGN" else labelName
  }

  /** One line of `parse_csvdataset`. An unknown label is looked up as `MALIGN`,
      so a row can only be unknown when `MALIGN` itself is missing, and the error
      then names `MALIGN`. */
  function ParseRow(line: string, attacks: map<string, int>, outputs: seq<seq<int>>): (r: RowResult)
    ensures r.Ok? ==> r.features == Features(line)
    ensures r.UnknownLabel? <==> LastField(line) !in attacks && "MALIGN" !in attacks
    ensures r.UnknownLabel? ==> r.labelName == "MALIGN"
    ensures r.TooManyLabels? <==>
      var l := Relabel(LastField(line), attacks); l in attacks && PyIndex(outputs, attacks[l]).None?
    ensures r.Ok? ==>
      var l := Relabel(LastField(line), attacks); l in attacks && PyIndex(outputs, attacks[l]) == Some(r.target)
  {
    Encode(Features(line), Relabel(LastField(line), attacks), attacks, outputs)
  }

  /** `parse_csvdataset(filename, attacks, outputs)` over the lines of the file. */
  method ParseDataset(lines: seq<string>, attacks: map<string, int>, outputs: seq<seq<int>>)
    returns (r: ParseResult)
    ensures r.Parsed? <==> forall k :: 0 <= k < |lines| ==> ParseRow(lines[k], attacks, outputs).Ok?
    ensures r.Parsed? ==> |r.x| == |lines| && |r.y| == |lines|
    ensures r.Parsed? ==> forall k :: 0 <= k < |lines| ==>
      r.x[k] == Features(lines[k]) && r.y[k] == ParseRow(lines[k], attacks, outputs).target
    ensures r.Aborted? ==>
      r.lineNo < |lines| && r.error == ParseRow(lines[r.lineNo], attacks, outputs) && !r.error.Ok?
      && forall k :: 0 <= k < r.lineNo ==> ParseRow(lines[k], attacks, outputs).Ok?
  {
    r := ParseLines(lines, Features, l => ParseRow(l, attacks, outputs), true);
  }

  /** `attacks` as `classify` builds it from the configured label names. */
  function Attacks(keys: seq<string>): map<string, int>
  {
    LabelDict(keys)
  }

  /** `outputs` as `classify` builds it: one one-hot row per dictionary entry. */
  function Outputs(keys: seq<string>): seq<seq<int>>
  {
    OneHotTable(|Attacks(keys)|)
  }

  /** With the dictionary and table that `classify` builds, the "more labels than
      allowed" branch cannot be taken. */
  lemma ConfiguredRowNeverOverflows(keys: seq<string>, line: string)
    requires Distinct(keys)
    ensures !ParseRow(line, Attacks(keys), Outputs(keys)).TooManyLabels?
  {
    LabelSetup(keys);
  }

  /** With `MALIGN` among the configured labels, every file parses: no line can
      fail, so `x_in` and `y_in` get one entry per line. */
  lemma ConfiguredWithMalignNeverFails(keys: seq<string>, lines: seq<string>)
    requires Distinct(keys) && "MALIGN" in keys
    ensures forall k :: 0 <= k < |lines| ==> ParseRow(lines[k], Attacks(keys), Outputs(keys)).Ok?
  {
    forall k | 0 <= k < |lines| ensures ParseRow(lines[k], Attacks(keys), Outputs(keys)).Ok? {
      ConfiguredRowNeverOverflows(keys, lines[k]);
    }
  }

  /** With the configured table, a parsed row's target is the one-hot vector of the
      index of its (rewritten) label, of width the number of labels, and argmax of
      that target gives the index back (regressor mode loses nothing). */
  lemma ConfiguredTarget(keys: seq<string>, line: string)
    requires Distinct(keys)
    requires ParseRow(line, Attacks(keys), Outputs(keys)).Ok?
    ensures var l := Relabel(LastField(line), Attacks(keys));
      var t := ParseRow(line, Attacks(keys), Outputs(keys)).target;
      |t| == |keys| && IsOneHot(t, Attacks(keys)[l]) && |t| > 0 && ArgMax(t) == Attacks(keys)[l]
  {
    LabelSetup(keys);
    var l := Relabel(LastField(line), Attacks(keys));
    ArgMaxOneHot(|keys|, Attacks(keys)[l]);
  }

  /** In regressor mode `classify` replaces the table by the argmax of each row,
      which is the list of indices 0 .. n-1. */
  lemma RegressorOutputsAreIndices(keys: seq<string>)
    requires Distinct(keys)
    ensures forall k :: 0 <= k < |Outputs(keys)| ==> |Outputs(keys)[k]| > 0
    ensures ClassIndices(Outputs(keys)) == seq(|keys|, i requires 0 <= i < |keys| => i)
  {
    LabelDictOfDistinct(keys);
    var n := |keys|;
    var idx := seq(n, i requires 0 <= i < n => i);
    ClassIndicesOfOneHot(n, idx, Outputs(keys));
  }

  /** `y_train = [np.argmax(x) for x in y_train]` in regressor mode: the targets of
      a parsed file become exactly the dictionary indices of the (rewritten) labels,
      line by line. */
  lemma RegressorTargets(keys: seq<string>, lines: seq<string>, y: seq<seq<int>>)
    requires Distinct(keys)
    requires |y| == |lines|
    requires forall k :: 0 <= k < |lines| ==>
      ParseRow(lines[k], Attacks(keys), Outputs(keys)).Ok? && y[k] == ParseRow(lines[k], Attacks(keys), Outputs(keys)).target
    ensures forall k :: 0 <= k < |y| ==> |y[k]| > 0
    ensures |ClassIndices(y)| == |lines|
    ensures forall k :: 0 <= k < |lines| ==>
      var l := Relabel(LastField(lines[k]), Attacks(keys)); l in Attacks(keys) && ClassIndices(y)[k] == Attacks(keys)[l]
  {
    var d := Attacks(keys);
    var idx := seq(|lines|, k requires 0 <= k < |lines| => d[Relabel(LastField(lines[k]), d)]);
    LabelDictOfDistinct(keys);
    forall k | 0 <= k < |lines| ensures 0 <= idx[k] < |keys| && y[k] == OneHotTable(|keys|)[idx[k]] {
      LabelSetup(keys);
    }
    ClassIndicesOfOneHot(|keys|, idx, y);
  }

  /** The training parse in `train_new_network` gets through: no line of the
      training file has an unknown label or an index outside the table. */
  predicate TrainingParses(trainLines: seq<string>, attacks: map<string, int>, outputs: seq<seq<int>>)
  {
    forall k :: 0 <= k < |trainLines| ==> ParseRow(trainLines[k], attacks, outputs).Ok?
  }

  /** One `classify` run with the configured labels `keys`, the lines of the
      training file, the model path `path` and the scaler file `scaler` (empty when
      no scaler is configured). When it trains, a bad training line exits before
      anything is saved; `numeric` false stands for every other failure before the
      scaler is saved (features that do not convert to floats, the import of the
      scaler module, the scaler's own `fit`); and a classifier `fit` that raises
      exits after the scaler is saved. */
  function Classify(saved: set<string>, keys: seq<string>, trainLines: seq<string>, path: string,
                    scaler: set<string>, disableLoad: bool, forceTrain: bool, numeric: bool, fitSucceeds: bool)
    : (r: RunResult)
    ensures r.decision == LoadSaved <==> path in saved && !disableLoad && !forceTrain
    ensures r.completed <==>
      r.decision == LoadSaved || (TrainingParses(trainLines, Attacks(keys), Outputs(keys)) && numeric && fitSucceeds)
    ensures r.completed ==> path in r.files
    ensures r.decision == TrainNew && !TrainingParses(trainLines, Attacks(keys), Outputs(keys)) ==>
      r.files == saved
  {
    var training :=
      if !TrainingParses(trainLines, Attacks(keys), Outputs(keys)) || !numeric then StoppedEarly
      else if fitSucceeds then Fitted
      else FitFailed;
    Layer2Run(saved, path, scaler, disableLoad, forceTrain, training)
  }

  /** With `MALIGN` among the configured labels the training parse never exits, so
      a run that trains gets through exactly when the features convert and `fit`
      returns. */
  lemma ConfiguredWithMalignTrains(saved: set<string>, keys: seq<string>, trainLines: seq<string>, path: string,
                                   scaler: set<string>, disableLoad: bool, forceTrain: bool, numeric: bool,
                                   fitSucceeds: bool)
    requires Distinct(keys) && "MALIGN" in keys
    ensures var r := Classify(saved, keys, trainLines, path, scaler, disableLoad, forceTrain, numeric, fitSucceeds);
      r.completed <==> r.decision == LoadSaved || (numeric && fitSucceeds)
  {
    ConfiguredWithMalignNeverFails(keys, trainLines);
  }
}
