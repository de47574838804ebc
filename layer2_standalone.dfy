/** classifiers/layer2-classifier.py: the stand-alone BENIGN / MALIGN script. Its
    labels are fixed: two outputs, a list of attack names that all count as
    `MALIGN`, and no default for a label it does not know. */
module Layer2Standalone {
  import opened Encoding
  import opened Dataset

  const LABELS: int := 2

  const ATTACK_TYPES: seq<string> := [
    "DoS-Attack", "PortScan", "FTP-Patator", "SSH-Patator", "Bot", "Infiltration",
    "Heartbleed", "DoS Hulk", "DoS GoldenEye", "DoS slowloris", "DoS Slowhttptest", "DDoS"
  ]

  const CLASSIFICATIONS: map<string, int> := map["BENIGN" := 0, "MALIGN" := 1]

  const OUTPUTS: seq<seq<int>> := OneHotTable(LABELS)

  /** `if tmp[-1] in ATTACK_TYPES: tmp[-1] = "MALIGN"` */
  function Relabel(labelName: string): string
  {
    if labelName in ATTACK_TYPES then "MALIGN" else labelName
  }

  /** One line of `parse_csvdataset`: the features are the inner fields and the
      target one of the two outputs; a failure names the label as rewritten. */
  function ParseRow(line: string): (r: RowResult)
    ensures r.Ok? ==> r.features == Features(line) && r.target in OUTPUTS
    ensures !r.Ok? ==> r.labelName == Relabel(LastField(line))
  {
    Encode(Features(line), Relabel(LastField(line)), CLASSIFICATIONS, OUTPUTS)
  }

  /** Attack names and `MALIGN` give the target `[0, 1]`, `BENIGN` gives `[1, 0]`,
      and the features are the inner fields of the line. */
  lemma KnownLabelTargets(line: string)
    ensures var l := LastField(line);
      (l in ATTACK_TYPES || l == "MALIGN" ==> ParseRow(line) == Ok(Features(line), [0, 1]))
      && (l == "BENIGN" ==> ParseRow(line) == Ok(Features(line), [1, 0]))
  {
    var l := LastField(line);
    assert "BENIGN" !in ATTACK_TYPES;
    assert OUTPUTS[0] == [1, 0] && OUTPUTS[1] == [0, 1];
  }

  /** A label is rejected as unknown exactly when it is neither an attack name nor
      `BENIGN` nor `MALIGN`; it is not defaulted, and the error names it as read. */
  lemma UnknownLabelIff(line: string)
    ensures var l := LastField(line);
      ParseRow(line).UnknownLabel? <==> l !in ATTACK_TYPES && l != "BENIGN" && l != "MALIGN"
    ensures ParseRow(line).UnknownLabel? ==> ParseRow(line).labelName == LastField(line)
  {
  }

  /** `CLASSIFICATIONS` yields only 0 or 1 and there are two outputs, so the "more
      labels than allowed" branch is never taken. */
  lemma NeverTooManyLabels(line: string)
    ensures !ParseRow(line).TooManyLabels?
  {
    assert |OUTPUTS| == 2;
  }

  /** `parse_csvdataset(filename)` over the lines of the file. */
  method ParseDataset(lines: seq<string>) returns (r: ParseResult)
    ensures r.Parsed? <==> forall k :: 0 <= k < |lines| ==> ParseRow(lines[k]).Ok?
    ensures r.Parsed? ==> |r.x| == |lines| && |r.y| == |lines|
    ensures r.Parsed? ==> forall k :: 0 <= k < |lines| ==>
      r.x[k] == Features(lines[k]) && r.y[k] == ParseRow(lines[k]).target
    ensures r.Aborted? ==>
      r.lineNo < |lines| && r.error == ParseRow(lines[r.lineNo]) && r.error.UnknownLabel?
      && forall k :: 0 <= k < r.lineNo ==> ParseRow(lines[k]).Ok?
  {
    r := ParseLines(lines, Features, ParseRow, true);
    if r.Aborted? {
      NeverTooManyLabels(lines[r.lineNo]);
    }
  }

  /** `label_count = [y_train.count(OUTPUTS[i]) for i in range(LABELS)]` */
  function TrainLabelCount(y: seq<seq<int>>): seq<nat>
  {
    LabelCount(y, OUTPUTS, LABELS)
  }

  /** The targets of a parsed training file are counted once each: the two counts
      add up to the number of rows. */
  lemma TrainLabelCountSum(lines: seq<string>, y: seq<seq<int>>)
    requires |y| == |lines|
    requires forall k :: 0 <= k < |lines| ==> ParseRow(lines[k]).Ok? && y[k] == ParseRow(lines[k]).target
    ensures |TrainLabelCount(y)| == 2
    ensures Sum(TrainLabelCount(y)) == |lines|
  {
    OneHotRowsDistinct(LABELS);
    forall k | 0 <= k < |y| ensures IsRowOf(y[k], OUTPUTS, LABELS) {
      var l := Relabel(LastField(lines[k]));
      assert y[k] == OUTPUTS[CLASSIFICATIONS[l]];
    }
    LabelCountSum(y, OUTPUTS, LABELS);
  }
}
