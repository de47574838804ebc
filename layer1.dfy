/** classifiers/layer1.py: the first classification layer. Its `process_dataset`
    folds the fine-grained labels of a dataset into the layer-1 classes, writing the
    folded label back into the caller's label list, and encodes each folded label
    as a row of the one-hot table; its `classify` builds that table from the
    `labels-l1` section and decides between loading and training a model (see ModelCache). */
module Layer1 {
  import opened PyStr
  import opened Encoding
  import opened Dataset

  /** The tuple the loop compares a label against to fold it into `bruteforce`. */
  const BruteforceLabels: seq<string> := ["ftpbruteforce", "sshbruteforce", "telnetbruteforce"]

  /** The label that the three `if`s leave in `y_in[i]`. All three test the label as
      it was read, so when several match the last one wins. */
  function Normalize(labelName: string): string
  {
    if Contains(labelName, "dos") then "dos"
    else if labelName in BruteforceLabels then "bruteforce"
    else if labelName == "BENIGN" then "dos"
    else labelName
  }

  /** A label containing "dos" always folds to "dos", "BENIGN" folds to "dos", only
      the brute-force names (and "bruteforce" itself) fold to "bruteforce", and any
      other label is kept as it is. */
  lemma NormalizeFolds(labelName: string)
    ensures Contains(labelName, "dos") ==> Normalize(labelName) == "dos"
    ensures labelName == "BENIGN" ==> Normalize(labelName) == "dos"
    ensures Normalize(labelName) != labelName ==> Normalize(labelName) in {"dos", "bruteforce"}
    ensures Normalize(labelName) == "bruteforce" <==>
      !Contains(labelName, "dos") && (labelName in BruteforceLabels || labelName == "bruteforce")
    ensures !Contains(labelName, "dos") && labelName != "BENIGN" && labelName !in BruteforceLabels ==>
      Normalize(labelName) == labelName
  {
    NotContainsFirstCharAbsent("BENIGN", "dos");
  }

  /** No brute-force name contains "dos", so the order of the last two `if`s never
      matters for them: they always fold to "bruteforce". */
  lemma BruteforceFolds(labelName: string)
    requires labelName in BruteforceLabels
    ensures Normalize(labelName) == "bruteforce"
  {
    NotContainsFirstCharAbsent(labelName, "dos");
  }

  /** Folding is idempotent: a label list that was already processed (the list is
      rewritten in place) folds to itself, so processing it again encodes the same
      targets. */
  lemma NormalizeIdempotent(labelName: string)
    ensures Normalize(Normalize(labelName)) == Normalize(labelName)
  {
    var r := Normalize(labelName);
    if r == "dos" {
      DosIsFixed();
    } else if r == "bruteforce" {
      BruteforceIsFixed();
    }
  }

  lemma DosIsFixed()
    ensures Normalize("dos") == "dos"
  {
    assert IsPrefix("dos", "dos");
  }

  lemma BruteforceIsFixed()
    ensures Normalize("bruteforce") == "bruteforce"
  {
    NotContainsFirstCharAbsent("bruteforce", "dos");
    assert "bruteforce" !in BruteforceLabels;
  }

  /** The three `if`s of the loop body, each testing the label as read. */
  method FoldLabel(labelName: string) returns (folded: string)
    ensures folded == Normalize(labelName)
  {
    folded := labelName;
    if labelName == "BENIGN" {
      folded := "dos";
    }
    if labelName in BruteforceLabels {
      folded := "bruteforce";
    }
    if Contains(labelName, "dos") {
      folded := "dos";
    }
  }

  /** How `process_dataset` ends: the encoded targets, or the index of the label
      whose lookup raised. An `UnknownLabel` error is Python's `KeyError` (the folded
      label is not in `attacks`), a `TooManyLabels` error its `IndexError` (the index
      is outside `outputs`). */
  datatype EncodeResult =
    | Encoded(y: seq<seq<int>>)
    | Raised(at: nat, error: RowResult)

  /** `outputs[attacks[label]]` for one folded label. */
  function Lookup(labelName: string, attacks: map<string, int>, outputs: seq<seq<int>>): RowResult
  {
    Encode([], labelName, attacks, outputs)
  }

  /** `process_dataset(data, attacks, outputs)` on the label list `yIn`. Each label
      is folded and written back before it is looked up, so when a lookup raises the
      labels up to and including the failing one are already rewritten and the rest
      are untouched. Without an error every label is folded and each target is the
      table row of its folded label. The conversion of the features to floats is not
      part of this model. */
  method ProcessDataset(yIn: array<string>, attacks: map<string, int>, outputs: seq<seq<int>>)
    returns (r: EncodeResult)
    modifies yIn
    ensures r.Encoded? <==> forall k :: 0 <= k < yIn.Length ==> Lookup(Normalize(old(yIn[k])), attacks, outputs).Ok?
    ensures r.Encoded? ==> |r.y| == yIn.Length
    ensures r.Encoded? ==> forall k :: 0 <= k < yIn.Length ==>
      r.y[k] == Lookup(Normalize(old(yIn[k])), attacks, outputs).target
    ensures r.Raised? ==>
      r.at < yIn.Length && r.error == Lookup(Normalize(old(yIn[r.at])), attacks, outputs) && !r.error.Ok?
      && forall k :: 0 <= k < r.at ==> Lookup(Normalize(old(yIn[k])), attacks, outputs).Ok?
    ensures var done := if r.Encoded? then yIn.Length else r.at + 1;
      forall k :: 0 <= k < yIn.Length ==> yIn[k] == (if k < done then Normalize(old(yIn[k])) else old(yIn[k]))
  {
    ghost var original := yIn[..];
    var encoded: seq<seq<int>> := [];
    var i := 0;
    while i < yIn.Length
      invariant 0 <= i <= yIn.Length
      invariant forall k :: 0 <= k < i ==> yIn[k] == Normalize(original[k])
      invariant forall k :: i <= k < yIn.Length ==> yIn[k] == original[k]
      invariant |encoded| == i
      invariant forall k :: 0 <= k < i ==>
        Lookup(yIn[k], attacks, outputs).Ok? && encoded[k] == Lookup(yIn[k], attacks, outputs).target
    {
      var labelName := yIn[i];
      var folded := FoldLabel(labelName);
      ghost var before := yIn[..];
      yIn[i] := folded;
      assert yIn[..] == before[i := folded];
      var row := Lookup(yIn[i], attacks, outputs);
      if !row.Ok? {
        return Raised(i, row);
      }
      encoded := encoded + [row.target];
      i := i + 1;
    }
    return Encoded(encoded);
  }

  /** `attacks` as `classify` builds it from the option names of `labels-l1`. */
  function Attacks(keys: seq<string>): map<string, int>
  {
    LabelDict(keys)
  }

  /** `outputs` as `classify` builds it: one one-hot row per dictionary entry. */
  function Outputs(keys: seq<string>): seq<seq<int>>
  {
    OneHotTable(|Attacks(keys)|)
  }

  /** With the dictionary and table that `classify` builds, a folded label is
      encoded exactly when it is one of the configured names, the only possible
      error is the `KeyError`, and the target is the one-hot row of the label's
      position among the names. */
  lemma ConfiguredLookup(keys: seq<string>, labelName: string)
    requires Distinct(keys)
    ensures var r := Lookup(labelName, Attacks(keys), Outputs(keys));
      (r.Ok? <==> labelName in keys)
      && (!r.Ok? ==> r.UnknownLabel?)
      && (r.Ok? ==> |r.target| == |keys| && IsOneHot(r.target, Attacks(keys)[labelName]))
  {
    LabelSetup(keys);
  }

  /** With "dos" and "bruteforce" configured, benign traffic, every brute-force
      label and every label containing "dos" is encoded without error. */
  lemma FoldedLabelsEncode(keys: seq<string>, labelName: string)
    requires Distinct(keys) && "dos" in keys && "bruteforce" in keys
    requires labelName == "BENIGN" || labelName in BruteforceLabels || Contains(labelName, "dos")
    ensures Lookup(Normalize(labelName), Attacks(keys), Outputs(keys)).Ok?
  {
    if labelName in BruteforceLabels {
      BruteforceFolds(labelName);
    }
    ConfiguredLookup(keys, Normalize(labelName));
  }
}
