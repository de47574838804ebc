/** classifiers/layer2_classifier.py: the layer-2 module driven by options.cfg.
    Its output width `LABELS`, its label names and its attack names come from the
    configuration; test files may be parsed without labels; trained models are
    cached under a path derived from the training file's name and MD5 digest. */
module Layer2Classifier {
  import opened PyStr
  import opened Encoding
  import opened Dataset
  import opened ModelCache

  /** The options read at load time: `labels` of section `l2` (LABELS), the option
      names of section `l2-labels` (the keys of CLASSIFICATIONS, in file order) and
      of section `l2-malign` (ATTACK_TYPES). */
  datatype Config = Config(labels: int, labelKeys: seq<string>, attackTypes: seq<string>)

  /** `CLASSIFICATIONS = dict(zip(labelKeys, range(len(labelKeys))))` */
  function Classifications(cfg: Config): map<string, int>
  {
    LabelDict(cfg.labelKeys)
  }

  /** `OUTPUTS`: the one-hot table of the configured width. */
  function Outputs(cfg: Config): seq<seq<int>>
  {
    OneHotTable(cfg.labels)
  }

  /** `if tmp[-1] in ATTACK_TYPES: tmp[-1] = "MALIGN"` */
  function Relabel(cfg: Config, labelName: string): string
  {
    if labelName in cfg.attackTypes then "MALIGN" else labelName
  }

  /** One labelled line of `parse_csvdataset`. Attack names are looked up as
      `MALIGN`; a label missing from `l2-labels` is unknown; an index the width
      `LABELS` does not cover is "more labels than allowed"; otherwise the target
      is the one-hot vector of the index, of width `LABELS`. */
  function ParseRow(cfg: Config, line: string): (r: RowResult)
    ensures var l := Relabel(cfg, LastField(line));
      (r.UnknownLabel? <==> l !in cfg.labelKeys)
      && (r.TooManyLabels? <==> l in cfg.labelKeys && Classifications(cfg)[l] >= cfg.labels)
      && (!r.Ok? ==> r.labelName == l)
      && (r.Ok? ==>
            r.features == Features(line) && |r.target| == cfg.labels && IsOneHot(r.target, Classifications(cfg)[l]))
  {
    Encode(Features(line), Relabel(cfg, LastField(line)), Classifications(cfg), Outputs(cfg))
  }

  /** `parse_csvdataset(filename, output_labels_known)`. Without known labels every
      line only contributes its features and `y_in` stays empty; with them the
      rows are parsed as by `ParseRow` and the first failing line aborts the run. */
  method ParseDataset(cfg: Config, lines: seq<string>, outputLabelsKnown: bool) returns (r: ParseResult)
    ensures !outputLabelsKnown ==>
      r.Parsed? && r.y == [] && |r.x| == |lines| && forall k :: 0 <= k < |lines| ==> r.x[k] == Features(lines[k])
    ensures outputLabelsKnown ==> (r.Parsed? <==> forall k :: 0 <= k < |lines| ==> ParseRow(cfg, lines[k]).Ok?)
    ensures outputLabelsKnown && r.Parsed? ==>
      |r.x| == |lines| && |r.y| == |lines|
      && forall k :: 0 <= k < |lines| ==> r.x[k] == Features(lines[k]) && r.y[k] == ParseRow(cfg, lines[k]).target
    ensures r.Aborted? ==>
      outputLabelsKnown && r.lineNo < |lines| && r.error == ParseRow(cfg, lines[r.lineNo]) && !r.error.Ok?
      && forall k :: 0 <= k < r.lineNo ==> ParseRow(cfg, lines[k]).Ok?
  {
    r := ParseLines(lines, Features, l => ParseRow(cfg, l), outputLabelsKnown);
  }

  /** `label_count = [y_train.count(OUTPUTS[i]) for i in range(LABELS)]` */
  function TrainLabelCount(cfg: Config, y: seq<seq<int>>): seq<nat>
  {
    LabelCount(y, Outputs(cfg), cfg.labels)
  }

  /** A training file that parses has every target inside the configured width,
      so the label counts add up to the number of rows. */
  lemma TrainLabelCountSum(cfg: Config, lines: seq<string>, y: seq<seq<int>>)
    requires |y| == |lines|
    requires forall k :: 0 <= k < |lines| ==> ParseRow(cfg, lines[k]).Ok? && y[k] == ParseRow(cfg, lines[k]).target
    ensures Sum(TrainLabelCount(cfg, y)) == |lines|
  {
    OneHotRowsDistinct(cfg.labels);
    forall k | 0 <= k < |y| ensures IsRowOf(y[k], Outputs(cfg), cfg.labels) {
      var l := Relabel(cfg, LastField(lines[k]));
      var i := Classifications(cfg)[l];
      assert y[k] == Outputs(cfg)[i];
    }
    LabelCountSum(y, Outputs(cfg), cfg.labels);
  }

  /** With at least as many outputs as configured labels, only an unknown label
      can make a file fail. */
  lemma WideEnoughNeverOverflows(cfg: Config, line: string)
    requires cfg.labels >= |cfg.labelKeys|
    ensures !ParseRow(cfg, line).TooManyLabels?
  {
  }

  // ---------------------------------------------------------------------------
  // The model cache
  // ---------------------------------------------------------------------------

  const CacheDir: string := "saved_neural_networks/layer2/"

  /** The argument of `str.strip('/.csv')`: a set of characters, not a suffix. */
  const StripChars: set<char> := {'/', '.', 'c', 's', 'v'}

  /** `train_filename.strip('/.csv').replace('/', '-')`: no '/' is left, and the
      name neither starts nor ends with a character `strip` removes, since those
      ends are kept by `replace`. */
  function CacheName(trainFilename: string): (n: string)
    ensures '/' !in n && |n| <= |trainFilename|
    ensures n != [] ==> n[0] !in StripChars && n[|n| - 1] !in StripChars
  {
    Replace(Strip(trainFilename, StripChars), '/', '-')
  }

  /** `saved_path`: the cache directory, then the file name with every leading and
      trailing '/', '.', 'c', 's' and 'v' removed and each remaining '/' made a '-',
      then '-' and the digest. */
  function CachePath(trainFilename: string, digest: string): (p: string)
    ensures |p| == |CacheDir| + |CacheName(trainFilename)| + 1 + |digest|
    ensures p[..|CacheDir|] == CacheDir
    ensures p[|CacheDir|..|p| - |digest| - 1] == Replace(Strip(trainFilename, StripChars), '/', '-')
    ensures p[|p| - |digest| - 1..] == "-" + digest
  {
    var name := CacheName(trainFilename);
    var p := CacheDir + name + "-" + digest;
    assert p[|CacheDir|..|p| - |digest| - 1] == name;
    p
  }

  /** Two trainings with different digests never share a cache file, whatever
      their file names: changed data is retrained rather than loaded. An MD5 hex
      digest always has 32 characters, so the digests have equal lengths. */
  lemma CachePathSeparatesDigests(f1: string, d1: string, f2: string, d2: string)
    requires |d1| == |d2|
    requires CachePath(f1, d1) == CachePath(f2, d2)
    ensures d1 == d2
  {
    var p := CachePath(f1, d1);
    assert p[|p| - |d1|..] == d1;
    assert p[|p| - |d2|..] == d2;
  }

  /** `strip` takes a character set: in "data/stats.csv" the final 's' of "stats"
      goes too, so the cache name is "data-stat". */
  lemma CacheNameStripsCharacters()
    ensures CacheName("data/stats.csv") == "data-stat"
  {
    var kept, dropped := "data/stat", "s.csv";
    assert kept[0] == 'd' && kept[|kept| - 1] == 't';
    StripTrailingRun(kept, dropped, StripChars);
    assert kept + dropped == "data/stats.csv";
    assert Replace(kept, '/', '-') == "data-stat";
  }

  /** The training parse `parse_csvdataset(train_filename, True)` gets through:
      every line's label is known and inside the width (see `ParseDataset`). */
  predicate TrainingParses(cfg: Config, trainLines: seq<string>)
  {
    forall k :: 0 <= k < |trainLines| ==> ParseRow(cfg, trainLines[k]).Ok?
  }

  /** One `layer2_classify` run on the training file `trainFilename` with lines
      `trainLines` and MD5 digest `digest`: the model at `saved_path` is loaded when
      that file exists and `load` is false; otherwise it is trained and saved
      there, unless the training parse exits on a bad label, or the conversion of
      the features or `fit` raises (`fitSucceeds` false); then nothing is saved. */
  function Classify(saved: set<string>, cfg: Config, trainFilename: string, trainLines: seq<string>,
                    digest: string, load: bool, fitSucceeds: bool): (r: RunResult)
    ensures var path := CachePath(trainFilename, digest);
      (r.decision == LoadSaved <==> path in saved && !load)
      && (r.completed ==> path in r.files)
      && (path in r.files <==> path in saved || (r.decision == TrainNew && TrainingParses(cfg, trainLines) && fitSucceeds))
      && saved <= r.files && r.files <= saved + {path}
    ensures r.decision == TrainNew && !TrainingParses(cfg, trainLines) ==> !r.completed && r.files == saved
  {
    CachedRun(saved, CachePath(trainFilename, digest), load, TrainingParses(cfg, trainLines) && fitSucceeds)
  }
}
