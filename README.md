# A model of the aba intrusion-detection data pipeline

The aba repository classifies network-flow records in two stages. Layer 1 sorts
flows into coarse attack families. Layer 2 separates benign from malign traffic,
or one attack from another. The statistics all come from an external
machine-learning library. What the repository itself decides is how records
become training data:

- how a CSV line is cut into features and a label;
- how labels are rewritten and then encoded as one-hot vectors;
- when a parse aborts;
- when a saved model is reused rather than retrained;
- how the data-selection script splits datasets into per-attack files.

This Dafny project models those decisions and proves properties of them.

| module | file | models |
|---|---|---|
| `PyStr` | `pystr.dfy` | The Python string operations the code relies on: `split`, `join`, `strip` with a character set, `sub in s`, one-character `replace`, `rsplit(sep, 1)` |
| `Encoding` | `encoding.dfy` | The label dictionary `dict(zip(keys, range(n)))`, the one-hot table, Python list indexing (negative indices included), `np.argmax` of one row, per-label counts |
| `Dataset` | `dataset.dfy` | The line parsing shared by the three layer-2 `parse_csvdataset` variants, and their parse loop (a method) |
| `ModelCache` | `model_cache.dfy` | The load-or-train guards, over a set of files that exist |
| `Layer2` | `layer2.dfy` | `classifiers/layer2.py` |
| `Layer2Standalone` | `layer2_standalone.dfy` | `classifiers/layer2-classifier.py` |
| `Layer2Classifier` | `layer2_classifier.dfy` | `classifiers/layer2_classifier.py` |
| `Layer1` | `layer1.dfy` | `classifiers/layer1.py` |
| `DataSelector` | `data_selector.dfy` | `scripts/nn1_data_selector.py` |

Python semantics are written out where they matter:

- `split` always yields at least one field.
- `tmp[1:-1]` is empty when a line has fewer than three fields.
- `strip('/.csv')` removes any of those five characters from both ends. It does not remove a suffix, so `data/stats.csv` becomes the cache name `data-stat`.
- A negative index counts from the end of the list.
- `range` of a negative number is empty.
- `np.argmax` returns the first maximum.
- The arguments of `dict(zip(...))` let a later key overwrite an earlier one.

Errors that Python raises are modelled as result values. The three layer-2
parsers abort at the first bad line with the rewritten label (`RowResult`, `ParseResult`).
Layer 1's `process_dataset` raises part-way through, after it has rewritten
the labels it has passed (`EncodeResult`). The data selector stops at the first
unreadable count (`Outcome.Failed`).

The three layer-2 variants differ in their details:

- Only `classifiers/layer2.py` defaults an unknown label to `MALIGN`. The other
  two layer-2 variants reject it.
- In `classifiers/layer2_classifier.py` a true `load` flag forces retraining
  rather than loading.
- `classifiers/layer2-classifier.py` loads a saved model only when `--load`
  names one. Otherwise it trains and saves to `neurals/neural_network2.sav`.

## Model

| member | source | states |
|---|---|---|
| PyStr.Split | classifiers/layer2.py:21 | `split(',')` yields at least one field, and no field holds the separator |
| PyStr.JoinSplit | classifiers/layer2.py:21 | joining the fields of a split with the separator gives back the line |
| PyStr.SplitJoin | classifiers/layer2.py:21 | splitting the join of separator-free fields gives back the fields (split and join are inverses) |
| PyStr.StripBounds | classifiers/layer2_classifier.py:77 | `strip(chars)` keeps one slice: everything before and after it is in the set, and the slice's end characters are not |
| PyStr.Strip | classifiers/layer2_classifier.py:77 | the stripped string is no longer than the input, and does not start or end with a stripped character |
| PyStr.StripKeeps | scripts/nn1_data_selector.py:18 | a string whose ends are outside the set is returned unchanged |
| PyStr.StripTrailingRun | classifiers/layer2_classifier.py:77 | set characters after a string whose ends are outside the set are exactly what strip removes |
| PyStr.ContainsIff | classifiers/layer1.py:22 | `sub in s` holds exactly when `sub` occurs at some position of `s` |
| PyStr.NotContainsFirstCharAbsent | classifiers/layer1.py:22 | a needle whose first character is absent from `s` is not in `s` |
| PyStr.Replace | scripts/nn1_data_selector.py:21 | one-character `replace` keeps the length, turns every `a` into `b`, keeps every other character, and leaves no `a` behind |
| PyStr.LastIndex | scripts/nn1_data_selector.py:18 | the result is the position of the last separator, or -1 when there is none |
| PyStr.RSplitOnce | scripts/nn1_data_selector.py:18 | `rsplit(' ', 1)` gives one part (no separator) or two parts that rebuild the line, cut at the last separator, the second holding no separator |
| PyStr.RSplitOnceAfter | scripts/nn1_data_selector.py:18 | a line made of any text, a space and a space-free word splits back into exactly that text and that word |
| Encoding.PyIndex | classifiers/layer2.py:25 | list indexing succeeds exactly for `-len <= i < len`, and a negative index counts from the end |
| Encoding.OneHotTable | classifiers/layer2.py:130 | the table has `max(n, 0)` rows, and row `i` has width `n` with a 1 only at position `i` |
| Encoding.OneHotRowsDistinct | classifiers/layer2.py:130 | different labels get different rows |
| Encoding.ArgMax | classifiers/layer2.py:71 | `np.argmax` of a non-empty row is a position of its largest value, with no earlier position as large |
| Encoding.ArgMaxOneHot | classifiers/layer2.py:71 | argmax of one-hot row `i` is `i` |
| Encoding.ClassIndices | classifiers/layer2.py:151 | each converted target is a position of a largest value in its row |
| Encoding.ClassIndicesOfOneHot | classifiers/layer2.py:70-71 | targets drawn from the one-hot table convert back to the indices they were drawn with |
| Encoding.LabelDict | classifiers/layer2.py:128 | the dictionary holds exactly the keys, and maps each to a position holding that key |
| Encoding.LabelDictOfDistinct | classifiers/layer2_classifier.py:21 | with distinct keys the `i`-th key maps to `i`, with one entry per key |
| Encoding.LabelSetup | classifiers/layer2.py:128-130 | every index the dictionary yields selects a table row, and that row is the one-hot vector of the index |
| Encoding.LabelCount | classifiers/layer2-classifier.py:64 | `label_count` has one entry per output, each the number of targets equal to that output |
| Encoding.LabelCountSum | classifiers/layer2_classifier.py:55 | when every target is a row of a table of distinct rows, the label counts add up to the number of targets |
| Dataset.Fields | classifiers/layer2.py:21 | a line always has at least one field |
| Dataset.FieldsRoundTrip | classifiers/layer2.py:21 | fields hold no comma, and joined with commas they give back the line with its leading and trailing newlines stripped |
| Dataset.FeaturesAreInnerFields | classifiers/layer2.py:22 | the features are the fields between the first and the last, and there are none when the line has fewer than three fields |
| Dataset.RowRoundTrip | classifiers/layer2.py:21-22 | identifier, features and label rebuild the line: the parse loses only the first and last columns |
| Dataset.Encode | classifiers/layer2.py:24-31 | a missing key is an unknown label and an index outside `outputs` is "more labels than allowed", each naming the label; otherwise the target is the selected table row |
| Dataset.ParseLines | classifiers/layer2.py:18-32 | the parse succeeds exactly when every line does, with features and targets line by line; otherwise it stops at the first failing line, all earlier lines having succeeded |
| ModelCache.ClassifyDecision | classifiers/layer1.py:54 | the saved model is loaded exactly when its file exists, loading is not disabled and training is not forced (the same guard as `classifiers/layer2.py`, line 137) |
| ModelCache.Layer2Run | classifiers/layer2.py:51-79 | `train_new_network` as far as it gets: training that stops before the scaler adds no file, a `fit` that raises leaves only the scaler (written at line 61), and a fitted model is saved at line 79; the run gets through exactly when it loads or fits, the model file then exists, and no file is removed |
| ModelCache.Layer2RerunLoads | classifiers/layer2.py:137-146 | a run that got through makes the next run with no flag set load that model and change nothing; a first run on a fresh path whose training stopped leaves the next run to train again |
| ModelCache.CachedRun | classifiers/layer2_classifier.py:78-82 | the model is loaded exactly when the file exists and `load` is false; the run gets through exactly when it loads or training returns, and only then does the cache file exist when it did not before; no other file changes |
| ModelCache.CachedRerunLoads | classifiers/layer2_classifier.py:78-82 | a run with `load` set always trains; when training returns the next run loads, and when it exits on a fresh path the next run trains again |
| Layer2.ParseRow | classifiers/layer2.py:21-31 | an unknown label is looked up as `MALIGN`, so a line fails as unknown exactly when both its label and `MALIGN` are missing, and the error names `MALIGN`; the other outcomes follow the dictionary and the table |
| Layer2.ParseDataset | classifiers/layer2.py:18-32 | the dataset parses exactly when every line does, with features and targets line by line; otherwise the first failing line is reported |
| Layer2.ConfiguredRowNeverOverflows | classifiers/layer2.py:128-130 | with the dictionary and table `classify` builds, "more labels than allowed" cannot happen |
| Layer2.ConfiguredWithMalignNeverFails | classifiers/layer2.py:23 | when `MALIGN` is configured, every line of every file parses |
| Layer2.ConfiguredTarget | classifiers/layer2.py:25 | a parsed target is the one-hot row of its label's index, of width the number of labels, and its argmax is that index |
| Layer2.RegressorOutputsAreIndices | classifiers/layer2.py:152 | in regressor mode the output table becomes the indices `0 .. n-1` |
| Layer2.RegressorTargets | classifiers/layer2.py:70-71 | in regressor mode each target becomes the dictionary index of its rewritten label |
| Layer2.Classify | classifiers/layer2.py:128-146 | the saved model is loaded exactly under the guard of line 137; otherwise the run gets through exactly when the training file parses, its features convert and `fit` returns, and a training file that does not parse leaves the files as they were |
| Layer2.ConfiguredWithMalignTrains | classifiers/layer2.py:23 | with `MALIGN` configured, a training run gets through exactly when the features convert and `fit` returns: the parse never exits |
| Layer2Standalone.ParseRow | classifiers/layer2-classifier.py:48-58 | a parsed line's features are the inner fields and its target one of the two outputs; a failing line reports its rewritten label |
| Layer2Standalone.KnownLabelTargets | classifiers/layer2-classifier.py:50-52 | attack names and `MALIGN` give `[0, 1]`, and `BENIGN` gives `[1, 0]` |
| Layer2Standalone.UnknownLabelIff | classifiers/layer2-classifier.py:50-58 | a label is unknown exactly when it is not an attack name, `BENIGN` or `MALIGN`; it is reported as read, not defaulted |
| Layer2Standalone.NeverTooManyLabels | classifiers/layer2-classifier.py:29-32 | with two outputs and indices 0 and 1, "more labels than allowed" never happens |
| Layer2Standalone.ParseDataset | classifiers/layer2-classifier.py:43-59 | the dataset parses exactly when every line does; a failure is always an unknown label |
| Layer2Standalone.TrainLabelCountSum | classifiers/layer2-classifier.py:64 | the two label counts of a parsed training file add up to its number of lines |
| Layer2Classifier.ParseRow | classifiers/layer2_classifier.py:41-49 | a line fails as unknown exactly when its rewritten label is not configured, and as "more labels than allowed" exactly when its index is at least `LABELS`; otherwise the target is one-hot of width `LABELS` |
| Layer2Classifier.ParseDataset | classifiers/layer2_classifier.py:33-50 | without known labels every line contributes only its features and no targets; with them, the parse succeeds exactly when every line does |
| Layer2Classifier.TrainLabelCountSum | classifiers/layer2_classifier.py:55 | the label counts of a parsed training file add up to its number of lines |
| Layer2Classifier.WideEnoughNeverOverflows | classifiers/layer2_classifier.py:20-22 | when `LABELS` is at least the number of configured labels, only an unknown label can fail |
| Layer2Classifier.CacheName | classifiers/layer2_classifier.py:77 | the name has no '/', is no longer than the training filename, and does not start or end with one of `/.csv` |
| Layer2Classifier.CachePath | classifiers/layer2_classifier.py:77 | the cache path is the directory, then the training filename with the characters `/.csv` stripped from both ends and every '/' made '-', then '-' and the digest |
| Layer2Classifier.CachePathSeparatesDigests | classifiers/layer2_classifier.py:75-77 | two trainings whose digests differ never share a cache file, whatever their file names, given digests of one length (an MD5 hex digest always has 32 characters) |
| Layer2Classifier.CacheNameStripsCharacters | classifiers/layer2_classifier.py:77 | `data/stats.csv` gives the cache name `data-stat`: the final `s` of `stats` is stripped as well |
| Layer2Classifier.Classify | classifiers/layer2_classifier.py:74-82 | the model is loaded exactly when its cache file exists and `load` is false; the cache file exists afterwards exactly when it existed or training returned, and a training file that does not parse (lines 33-50) leaves the files as they were |
| Layer1.NormalizeFolds | classifiers/layer1.py:20-22 | a label containing `dos` folds to `dos`, `BENIGN` folds to `dos`, only brute-force names and `bruteforce` fold to `bruteforce`, and any other label is kept |
| Layer1.BruteforceFolds | classifiers/layer1.py:21 | every brute-force name folds to `bruteforce` |
| Layer1.NormalizeIdempotent | classifiers/layer1.py:19-22 | folding an already folded label changes nothing, so a list processed in place encodes the same way again |
| Layer1.FoldLabel | classifiers/layer1.py:20-22 | the three `if`s, each testing the label as read, leave the folded label |
| Layer1.ProcessDataset | classifiers/layer1.py:8-26 | labels are folded in place up to and including the first one whose lookup raises, and the rest are untouched; without an error the targets are the table rows of the folded labels |
| Layer1.ConfiguredLookup | classifiers/layer1.py:45-48 | with the table `classify` builds, a folded label encodes exactly when it is configured, only `KeyError` is possible, and the target is one-hot of its index |
| Layer1.FoldedLabelsEncode | classifiers/layer1.py:19-23 | with `dos` and `bruteforce` configured, `BENIGN`, the brute-force names and every label containing the lowercase `dos` always encode |
| DataSelector.ParseConfigLine | scripts/nn1_data_selector.py:18 | a configuration line yields one or two parts, two exactly when it holds a space, none longer than the line |
| DataSelector.ParseConfigLineParts | scripts/nn1_data_selector.py:18 | a line without a space yields the line stripped; otherwise the two parts are the text before and after its last space, each stripped |
| DataSelector.ConfigLines | scripts/nn1_data_selector.py:18 | one entry per configuration line, each with a name |
| DataSelector.ParseIntAccepts | scripts/nn1_data_selector.py:29 | `int` accepts exactly an optional sign and at least one digit, and the sign gives the value's sign |
| DataSelector.ParseIntRoundTrip | scripts/nn1_data_selector.py:29 | a count written as a numeral reads back as itself |
| DataSelector.QuotaOfCases | scripts/nn1_data_selector.py:29 | an entry without a count raises `IndexError`, and a non-numeric count raises `ValueError` naming it; otherwise the count is the numeral's value |
| DataSelector.ConfigLineRoundTrip | scripts/nn1_data_selector.py:18 | `name count` reads back as that name and count, even when the name holds spaces |
| DataSelector.OutputPath | scripts/nn1_data_selector.py:21 | the output path is the directory, '/', the name with every space made '-', then `.csv` |
| DataSelector.OutputPathsDistinct | scripts/nn1_data_selector.py:21 | names without '-' get different output files |
| DataSelector.MatchingFilters | scripts/nn1_data_selector.py:29 | the matching lines are exactly the lines holding the name |
| DataSelector.SelectedFirstMatches | scripts/nn1_data_selector.py:23-31 | with counters, an output receives the first `count` lines holding its name, in order |
| DataSelector.SelectedIgnoringCounts | scripts/nn1_data_selector.py:31 | with `--ignore-counts`, an output receives every line holding its name when its count is positive, and none otherwise |
| DataSelector.Header | scripts/nn1_data_selector.py:22 | the header is the first line of the first input file, which is also the first line scanned, or empty when that file is empty |
| DataSelector.SelectionStep | scripts/nn1_data_selector.py:29-31 | a scanned line is taken exactly when the counter is below the count and the name occurs in it |
| DataSelector.EntryStep | scripts/nn1_data_selector.py:29-31 | taking a line appends it to the output and, without `--ignore-counts`, raises the counter by one |
| DataSelector.ScanEntry | scripts/nn1_data_selector.py:29-31 | one entry's step on a line keeps that entry's output equal to the header followed by its selection of every line scanned so far, with the counter equal to that selection's size, or 0 with `--ignore-counts` |
| DataSelector.ScanLine | scripts/nn1_data_selector.py:28-31 | after a line every output holds its selection so far; an unreadable count can only stop the scan at the very first line, after the entries before it |
| DataSelector.ScanFile | scripts/nn1_data_selector.py:26-31 | after an input file every output holds its selection of all lines read so far |
| DataSelector.Select | scripts/nn1_data_selector.py:20-31 | every output gets the header, then its selection of all input lines; or the run stops at the first line, at the first entry whose count cannot be read |
| DataSelector.Run | scripts/nn1_data_selector.py:11-31 | fewer than two file arguments is a usage error; otherwise the outcome is as for `Select` on the parsed configuration |

## Left out

- File and console I/O are not modelled. This covers opening, reading and closing files, `print`, progress bars and argument parsing. Files become sequences of lines, and a line keeps its newline.
- Exit codes are not modelled. `classifiers/layer2.py` calls `exit()`, which exits with status 0, while the others exit with 1. In the model all of these are an aborted parse.
- The machine-learning work is left out: `eval`/`exec` of classifier names, fitting, prediction, scaling and `print_stats`. It all happens in an external library. Whether the conversion of features to `float64` succeeds, and whether `fit` returns, are parameters of the run models.
- Layer 1's training and saving happen in `train_new_network` of `classifier_functions`, which is not part of this model; in `classifiers/layer1.py` the call that saves is commented out. Only layer 1's load-or-train guard is modelled.
- After training, each classifier parses the test file; an exit there leaves the files saved during training in place and is not modelled separately.
- `classifier_functions` is not part of this model. This covers `save_model`, `load_model` and `gen_saved_model_pathname`. Saving is modelled as adding a path to the set of existing files.
- The MD5 digest of the training file is not computed. It is an opaque string parameter.
- The configuration files are not parsed. The values read from `options.cfg` are parameters: the `l2` width, the option names of the label sections and the `force_train` flag. So are the lines of `train_data.config`, since `splitlines` is not modelled. Option names are distinct, as configuration sections require.
- The top level of `classifiers/layer2-classifier.py` is not modelled: its argument-count check, loading the file that `--load` names, and saving to `neurals/neural_network2.sav`. Its parser and label counts are.
- DataSelector.ParseInt: accepts only ASCII digits with an optional sign. Python's `int` also accepts `_` between digits and other Unicode decimal digits.
- DataSelector.Run: treats each configuration entry's output as a separate file. Two entries that map to the same path are not modelled; the real script opens that file twice for writing, each handle starts at offset 0, and the handles overwrite each other's bytes.
- ModelCache.Layer2Run: states whether the model file exists afterwards only when it is not also the scaler file. The two paths are built by `gen_saved_model_pathname` and by `train_new_network`, and the former is not part of this model.
- Encoding.LabelDict: for a repeated key, the contract says only that the index is a position of that key. It does not say it is the last one, as Python's `dict(zip(...))` gives. Configured option names are distinct, and for distinct keys `LabelDictOfDistinct` states the exact index.
- The commented-out code in the source files is not modelled.
