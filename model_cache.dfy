/** Whether a classification run reuses a model saved on disk or trains a new
    one, and which files exist afterwards. The set `saved` stands for the files
    that exist; the digest, the path and the model itself are opaque. Training
    can stop the process before anything is saved: the parse of the training
    file exits on a bad label, the conversion of its features to floats can
    raise, and so can a classifier's `fit`. */
module ModelCache {

  datatype Decision = LoadSaved | TrainNew

  /** How far training gets when it happens: it stops before writing anything
      (the training file's parse exits on a bad label, or its features do not
      convert to floats), `fit` raises after the scaler (if any) was saved, or the
      model is fitted. */
  datatype Training = StoppedEarly | FitFailed | Fitted

  /** The end of one run: the decision, whether the process got past loading or
      training (false when it exited there), and the files that exist afterwards. */
  datatype RunResult = RunResult(decision: Decision, completed: bool, files: set<string>)

  /** The guard of `classify` in layer1.py and layer2.py: the saved model is loaded
      only when its file exists, loading is not disabled and the configuration
      does not force training. */
  function ClassifyDecision(fileExists: bool, disableLoad: bool, forceTrain: bool): (d: Decision)
    ensures d == LoadSaved <==> fileExists && !disableLoad && !forceTrain
  {
    if fileExists && !disableLoad && !forceTrain then LoadSaved else TrainNew
  }

  /** One `classify` run of layer2.py. `scaler` is the `scalerX<node>` file that
      training writes when a scaler is configured (empty otherwise); the model is
      saved under `path` only when `fit` returns. A run that loads, or that fits
      a model, leaves the model on disk; a run whose training stops before the
      scaler adds nothing; no file is ever removed. */
  function Layer2Run(saved: set<string>, path: string, scaler: set<string>, disableLoad: bool, forceTrain: bool,
                     training: Training): (r: RunResult)
    ensures r.decision == LoadSaved <==> path in saved && !disableLoad && !forceTrain
    ensures r.completed <==> r.decision == LoadSaved || training == Fitted
    ensures r.completed ==> path in r.files
    ensures saved <= r.files && r.files <= saved + scaler + {path}
    ensures path !in scaler ==>
      (path in r.files <==> path in saved || (r.decision == TrainNew && training == Fitted))
    ensures forall f :: f in scaler && f !in saved ==>
      (f in r.files <==> r.decision == TrainNew && training != StoppedEarly)
  {
    var d := ClassifyDecision(path in saved, disableLoad, forceTrain);
    if d == LoadSaved then RunResult(d, true, saved)
    else match training
      case StoppedEarly => RunResult(d, false, saved)
      case FitFailed => RunResult(d, false, saved + scaler)
      case Fitted => RunResult(d, true, saved + scaler + {path})
  }

  /** A run of layer 2 that got through leaves its model behind, so the next run on
      the same training data and classifier, with no flag set, reuses it; a first
      run whose training exited leaves nothing to reuse, so the next run trains. */
  lemma Layer2RerunLoads(saved: set<string>, path: string, scaler: set<string>, disableLoad: bool, forceTrain: bool,
                         training: Training, next: Training)
    ensures var first := Layer2Run(saved, path, scaler, disableLoad, forceTrain, training);
      first.completed ==>
        Layer2Run(first.files, path, scaler, false, false, next) == RunResult(LoadSaved, true, first.files)
    ensures var first := Layer2Run(saved, path, scaler, disableLoad, forceTrain, training);
      path !in saved && path !in scaler && training != Fitted ==>
        Layer2Run(first.files, path, scaler, false, false, next).decision == TrainNew
  {
  }

  /** The guard of `layer2_classify` in layer2_classifier.py: the model is loaded
      only when the file exists and `load` is false; a true `load` flag retrains.
      `trains` says whether training returns (its parse, the conversion of the
      features and `fit` all succeed); otherwise the process exits before
      `save_model` and no file is added. */
  function CachedRun(saved: set<string>, path: string, load: bool, trains: bool): (r: RunResult)
    ensures r.decision == LoadSaved <==> path in saved && !load
    ensures r.completed <==> r.decision == LoadSaved || trains
    ensures r.completed ==> path in r.files
    ensures saved <= r.files && r.files <= saved + {path}
    ensures path in r.files <==> path in saved || (r.decision == TrainNew && trains)
  {
    if path in saved && !load then RunResult(LoadSaved, true, saved)
    else if trains then RunResult(TrainNew, true, saved + {path})
    else RunResult(TrainNew, false, saved)
  }

  /** A run with `load` set always trains; when its training returns, the run after
      it reuses that model, and when it exits on a fresh path the run after it
      has to train again. */
  lemma CachedRerunLoads(saved: set<string>, path: string, trains: bool, next: bool)
    ensures CachedRun(saved, path, true, trains).decision == TrainNew
    ensures trains ==> CachedRun(CachedRun(saved, path, true, trains).files, path, false, next).decision == LoadSaved
    ensures path !in saved && !trains ==>
      CachedRun(CachedRun(saved, path, true, trains).files, path, false, next).decision == TrainNew
  {
  }
}
