/** What the three `parse_csvdataset` variants of layer 2 share: a dataset line is
    stripped of newlines at both ends and split on commas; the features are every
    field but the first (a flow identifier) and the last (the label); the label,
    once rewritten by the variant's own rule, is looked up as
    `outputs[attacks[label]]`. A lookup failure ends the whole parse. */
module Dataset {
  import opened PyStr
  import opened Encoding

  /** The outcome of one labelled line. The two failures carry the label that
      was looked up (after rewriting), which is what the error message prints. */
  datatype RowResult =
    | Ok(features: seq<string>, target: seq<int>)
    | TooManyLabels(labelName: string)
    | UnknownLabel(labelName: string)

  /** The lists `(x_in, y_in)`, or the line at which the run was aborted. */
  datatype ParseResult =
    | Parsed(x: seq<seq<string>>, y: seq<seq<int>>)
    | Aborted(lineNo: nat, error: RowResult)

  /** `line.strip('\n').split(',')`: never empty. */
  function Fields(line: string): (fs: seq<string>)
    ensures |fs| >= 1
  {
    Split(Strip(line, {'\n'}), ',')
  }

  /** The fields hold no comma, and joined again they give back the stripped line. */
  lemma FieldsRoundTrip(line: string)
    ensures forall i :: 0 <= i < |Fields(line)| ==> ',' !in Fields(line)[i]
    ensures Join(Fields(line), ',') == Strip(line, {'\n'})
  {
    JoinSplit(Strip(line, {'\n'}), ',');
  }

  /** `tmp[1:-1]` */
  function Features(line: string): seq<string>
  {
    var fs := Fields(line);
    if |fs| >= 2 then fs[1..|fs| - 1] else []
  }

  /** The features are the fields without the first and the last, so there are two
      fewer of them than fields; Python's slice is empty when there are fewer than
      three fields. */
  lemma FeaturesAreInnerFields(line: string)
    ensures var fs := Fields(line);
      |Features(line)| == (if |fs| >= 2 then |fs| - 2 else 0)
      && forall k :: 0 <= k < |Features(line)| ==> Features(line)[k] == fs[k + 1]
  {
  }

  /** `tmp[-1]`: the label column (the only field of a line without commas). */
  function LastField(line: string): string
  {
    var fs := Fields(line);
    fs[|fs| - 1]
  }

  /** Identifier, features and label put back together with commas give the
      stripped line: the parse drops nothing but the first and last column. */
  lemma RowRoundTrip(line: string)
    requires |Fields(line)| >= 2
    ensures Join([Fields(line)[0]] + Features(line) + [LastField(line)], ',') == Strip(line, {'\n'})
  {
    var fs := Fields(line);
    FieldsRoundTrip(line);
    assert [fs[0]] + fs[1..|fs| - 1] + [fs[|fs| - 1]] == fs;
  }

  /** `outputs[attacks[label]]` inside the `try`: a missing key is `KeyError`
      (unknown label), an index outside the table is `IndexError` (more labels
      than allowed); otherwise the target is the table row the index picks. */
  function Encode(features: seq<string>, labelName: string, attacks: map<string, int>,
                  outputs: seq<seq<int>>): (r: RowResult)
    ensures r.UnknownLabel? <==> labelName !in attacks
    ensures r.TooManyLabels? <==> labelName in attacks && PyIndex(outputs, attacks[labelName]).None?
    ensures !r.Ok? ==> r.labelName == labelName
    ensures r.Ok? ==> r.features == features && PyIndex(outputs, attacks[labelName]) == Some(r.target)
  {
    if labelName !in attacks then UnknownLabel(labelName)
    else match PyIndex(outputs, attacks[labelName])
      case None => TooManyLabels(labelName)
      case Some(row) => Ok(features, row)
  }

  /** The `for line in fd` loop of `parse_csvdataset`. Every line appends its
      features to `x` (`tmp[1:-1]`; every variant passes `Features`); when the
      lines are `labelled` it also appends the target that `parseRow` gives, and
      the first line whose label fails aborts the run. Unlabelled runs never look
      at the label and leave `y` empty. */
  method ParseLines(lines: seq<string>, features: string -> seq<string>,
                    parseRow: string -> RowResult, labelled: bool)
    returns (r: ParseResult)
    ensures r.Parsed? ==> |r.x| == |lines| && forall k :: 0 <= k < |lines| ==> r.x[k] == features(lines[k])
    ensures !labelled ==> r.Parsed? && r.y == []
    ensures labelled ==> (r.Parsed? <==> forall k :: 0 <= k < |lines| ==> parseRow(lines[k]).Ok?)
    ensures labelled && r.Parsed? ==>
      |r.y| == |lines| && forall k :: 0 <= k < |lines| ==> r.y[k] == parseRow(lines[k]).target
    ensures r.Aborted? ==>
      labelled && r.lineNo < |lines| && r.error == parseRow(lines[r.lineNo]) && !r.error.Ok?
      && forall k :: 0 <= k < r.lineNo ==> parseRow(lines[k]).Ok?
  {
    var x: seq<seq<string>> := [];
    var y: seq<seq<int>> := [];
    var i := 0;
    while i < |lines|
      invariant 0 <= i <= |lines|
      invariant |x| == i && forall k :: 0 <= k < i ==> x[k] == features(lines[k])
      invariant |y| == (if labelled then i else 0)
      invariant forall k :: 0 <= k < |y| ==> parseRow(lines[k]).Ok? && y[k] == parseRow(lines[k]).target
    {
      var line := lines[i];
      x := x + [features(line)];
      if labelled {
        var row := parseRow(line);
        if !row.Ok? {
          return Aborted(i, row);
        }
        y := y + [row.target];
      }
      i := i + 1;
    }
    return Parsed(x, y);
  }
}
