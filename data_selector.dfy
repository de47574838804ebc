/** scripts/nn1_data_selector.py: splits labelled dataset files into one output file
    per configured attack. Each line of `train_data.config` names an attack and the
    number of lines to take for it; the script copies the header line of the first
    input to every output, then scans every line of every input and copies a line
    to each output whose attack name occurs in it, while that output's counter is
    below its count. With `--ignore-counts` the counters never move. */
module DataSelector {
  import opened PyStr
  import opened Encoding

  // ---------------------------------------------------------------------------
  // The configuration
  // ---------------------------------------------------------------------------

  /** `[i.strip() for i in line.rsplit(' ', 1)]`: the attack name, then (when the
      line has a space) its count, both stripped of white space. */
  function ParseConfigLine(line: string): (c: seq<string>)
    ensures 1 <= |c| <= 2
    ensures |c| == 2 <==> ' ' in line
    ensures forall k :: 0 <= k < |c| ==> |c[k]| <= |line|
  {
    var parts := RSplitOnce(line, ' ');
    if |parts| == 1 then [Strip(parts[0], Whitespace)]
    else [Strip(parts[0], Whitespace), Strip(parts[1], Whitespace)]
  }

  /** The parts of a configuration line: without a space, the stripped line;
      otherwise the stripped text before the last space and the stripped text
      after it. */
  lemma ParseConfigLineParts(line: string)
    ensures var c := ParseConfigLine(line);
      |c| == 1 ==> c[0] == Strip(line, Whitespace)
    ensures var c := ParseConfigLine(line); var k := LastIndex(line, ' ');
      |c| == 2 ==> 0 <= k && c[0] == Strip(line[..k], Whitespace) && c[1] == Strip(line[k + 1..], Whitespace)
  {
  }

  /** `conf_lines`, from the lines of the configuration file. */
  function ConfigLines(text: seq<string>): (conf: seq<seq<string>>)
    ensures |conf| == |text|
    ensures forall e :: 0 <= e < |conf| ==> |conf[e]| >= 1
  {
    seq(|text|, e requires 0 <= e < |text| => ParseConfigLine(text[e]))
  }

  // ---------------------------------------------------------------------------
  // int(c[1])
  // ---------------------------------------------------------------------------

  predicate IsDigit(ch: char)
  {
    '0' <= ch <= '9'
  }

  predicate AllDigits(s: string)
  {
    forall k :: 0 <= k < |s| ==> IsDigit(s[k])
  }

  /** The value of a string of decimal digits. */
  function DigitsValue(s: string): nat
    requires AllDigits(s)
    decreases |s|
  {
    if |s| == 0 then 0 else 10 * DigitsValue(s[..|s| - 1]) + (s[|s| - 1] as int - '0' as int)
  }

  /** `int(s)` on a string already stripped of white space: an optional sign and
      at least one decimal digit; anything else raises `ValueError` (None). */
  function ParseInt(s: string): Option<int>
  {
    if |s| > 0 && s[0] in {'+', '-'} then
      var digits := s[1..];
      if |digits| > 0 && AllDigits(digits) then
        var v: int := DigitsValue(digits);
        Some(if s[0] == '-' then -v else v)
      else None
    else if |s| > 0 && AllDigits(s) then Some(DigitsValue(s))
    else None
  }

  /** `int` accepts exactly an optional sign followed by at least one digit, and
      the sign gives the sign of the value. */
  lemma ParseIntAccepts(s: string)
    ensures ParseInt(s).Some? <==>
      (|s| > 0 && AllDigits(s)) || (|s| > 1 && s[0] in {'+', '-'} && AllDigits(s[1..]))
    ensures ParseInt(s).Some? && s[0] == '-' ==> ParseInt(s).value <= 0
    ensures ParseInt(s).Some? && s[0] != '-' ==> ParseInt(s).value >= 0
  {
    if |s| > 0 && s[0] in {'+', '-'} {
      assert !IsDigit(s[0]);
    }
  }

  function DigitChar(d: nat): char
    requires d < 10
  {
    ('0' as int + d) as char
  }

  /** The decimal numeral of `n`, as `str(n)` writes it. */
  function NatToString(n: nat): (s: string)
    ensures |s| > 0 && AllDigits(s)
    decreases n
  {
    if n < 10 then [DigitChar(n)] else NatToString(n / 10) + [DigitChar(n % 10)]
  }

  function IntToString(n: int): string
  {
    if n < 0 then "-" + NatToString(-n) else NatToString(n)
  }

  lemma {:induction false} DigitsValueOfNatToString(n: nat)
    ensures DigitsValue(NatToString(n)) == n
    decreases n
  {
    var s := NatToString(n);
    if n >= 10 {
      DigitsValueOfNatToString(n / 10);
      assert s[..|s| - 1] == NatToString(n / 10);
    }
  }

  /** `int(str(n)) == n`: every count written as a numeral reads back. */
  lemma ParseIntRoundTrip(n: int)
    ensures ParseInt(IntToString(n)) == Some(n)
  {
    if n < 0 {
      DigitsValueOfNatToString(-n);
      assert IntToString(n)[1..] == NatToString(-n);
    } else {
      DigitsValueOfNatToString(n);
    }
  }

  /** Why the count of an entry cannot be used: the line has no space
      (`IndexError` on `c[1]`) or its last word is not a number (`ValueError`). */
  datatype CountError = MissingCount | NotANumber(text: string)

  datatype Quota = Count(n: int) | Bad(error: CountError)

  /** `int(c[1])` for one configuration entry. */
  function QuotaOf(c: seq<string>): Quota
  {
    if |c| < 2 then Bad(MissingCount)
    else match ParseInt(c[1])
      case None => Bad(NotANumber(c[1]))
      case Some(n) => Count(n)
  }

  /** A configuration entry without a count fails with `IndexError`; one whose
      count is not a numeral fails with `ValueError` naming it; otherwise the count
      is the value of the numeral. */
  lemma QuotaOfCases(c: seq<string>)
    ensures QuotaOf(c) == Bad(MissingCount) <==> |c| < 2
    ensures QuotaOf(c).Bad? && !QuotaOf(c).error.MissingCount? ==>
      |c| >= 2 && ParseInt(c[1]).None? && QuotaOf(c).error.text == c[1]
    ensures QuotaOf(c).Count? <==> |c| >= 2 && ParseInt(c[1]).Some?
    ensures QuotaOf(c).Count? ==> ParseInt(c[1]) == Some(QuotaOf(c).n)
  {
  }

  /** A numeral holds no white space, so it is left alone by `strip` and never
      holds the space that `rsplit` cuts at. */
  lemma NumeralHasNoWhitespace(n: int)
    ensures var num := IntToString(n);
      num != [] && ' ' !in num && num[0] !in Whitespace && num[|num| - 1] !in Whitespace
  {
    var num := IntToString(n);
    var digits := NatToString(if n < 0 then -n else n);
    assert num == (if n < 0 then "-" else "") + digits;
    forall k | 0 <= k < |num| ensures num[k] != ' ' && num[k] !in Whitespace {
      NumeralCharIsNotWhitespace(num[k]);
    }
  }

  lemma NumeralCharIsNotWhitespace(ch: char)
    requires ch == '-' || IsDigit(ch)
    ensures ch != ' ' && ch !in Whitespace
  {
  }

  /** A configuration line written as the name, a space and a numeral reads back as
      that name and count, even when the name itself holds spaces (the line is cut
      at its last space). */
  lemma ConfigLineRoundTrip(name: string, n: int)
    requires name != [] && name[0] !in Whitespace && name[|name| - 1] !in Whitespace
    ensures ParseConfigLine(name + " " + IntToString(n)) == [name, IntToString(n)]
    ensures QuotaOf(ParseConfigLine(name + " " + IntToString(n))) == Count(n)
  {
    var num := IntToString(n);
    NumeralHasNoWhitespace(n);
    RSplitOnceAfter(name, num, ' ');
    assert name + " " + num == name + [' '] + num;
    StripKeeps(name, Whitespace);
    StripKeeps(num, Whitespace);
    ParseIntRoundTrip(n);
  }

  // ---------------------------------------------------------------------------
  // Output files
  // ---------------------------------------------------------------------------

  /** `'%s/%s.csv' % (files[-1], line[0].replace(' ', '-'))` */
  function OutputPath(outDir: string, name: string): (p: string)
    ensures |p| == |outDir| + |name| + 5
    ensures p[..|outDir| + 1] == outDir + "/" && p[|p| - 4..] == ".csv"
    ensures p[|outDir| + 1..|p| - 4] == Replace(name, ' ', '-')
    ensures ' ' !in p[|outDir| + 1..|p| - 4]
  {
    var p := outDir + "/" + Replace(name, ' ', '-') + ".csv";
    assert p[|outDir| + 1..|p| - 4] == Replace(name, ' ', '-');
    p
  }

  /** Names without '-' get different output files. (A name with a space and the
      same name with a '-' in its place share one file.) */
  lemma OutputPathsDistinct(outDir: string, a: string, b: string)
    requires '-' !in a && '-' !in b && a != b
    ensures OutputPath(outDir, a) != OutputPath(outDir, b)
  {
    if |a| == |b| {
      var k :| 0 <= k < |a| && a[k] != b[k];
      var ra, rb := Replace(a, ' ', '-'), Replace(b, ' ', '-');
      assert ra[k] != rb[k];
      var i := |outDir| + 1 + k;
      assert OutputPath(outDir, a)[i] == ra[k];
      assert OutputPath(outDir, b)[i] == rb[k];
    }
  }

  // ---------------------------------------------------------------------------
  // What each output receives
  // ---------------------------------------------------------------------------

  /** The counter of an output that has been written `written`: with
      `--ignore-counts` it stays at 0. */
  function Counter(ignoreCount: bool, written: seq<string>): nat
  {
    if ignoreCount then 0 else |written|
  }

  /** The lines an entry named `name` with count `quota` has taken after `lines`
      were scanned, one line at a time as the script does. */
  function Selected(name: string, quota: int, ignoreCount: bool, lines: seq<string>): seq<string>
    decreases |lines|
  {
    if |lines| == 0 then []
    else
      var prev := Selected(name, quota, ignoreCount, lines[..|lines| - 1]);
      var line := lines[|lines| - 1];
      if Counter(ignoreCount, prev) < quota && Contains(line, name) then prev + [line] else prev
  }

  /** The lines that hold `name`, in order. */
  function Matching(name: string, lines: seq<string>): (r: seq<string>)
    ensures |r| <= |lines|
    decreases |lines|
  {
    if |lines| == 0 then []
    else
      var line := lines[|lines| - 1];
      Matching(name, lines[..|lines| - 1]) + (if Contains(line, name) then [line] else [])
  }

  /** Exactly the lines holding `name` are matching ones. */
  lemma {:induction false} MatchingFilters(name: string, lines: seq<string>)
    ensures forall k :: 0 <= k < |Matching(name, lines)| ==> Contains(Matching(name, lines)[k], name)
    ensures forall l :: l in Matching(name, lines) <==> l in lines && Contains(l, name)
    decreases |lines|
  {
    if |lines| > 0 {
      var init := lines[..|lines| - 1];
      MatchingFilters(name, init);
      assert lines == init + [lines[|lines| - 1]];
    }
  }

  /** The first `q` elements of `s` (none when `q` is not positive). */
  function FirstN(s: seq<string>, q: int): (r: seq<string>)
    ensures |r| == (if q <= 0 then 0 else if q < |s| then q else |s|)
    ensures r == s[..|r|]
  {
    if q <= 0 then [] else if q < |s| then s[..q] else s
  }

  /** With counters, an entry takes the first `quota` matching lines. */
  lemma {:induction false} SelectedFirstMatches(name: string, quota: int, lines: seq<string>)
    ensures Selected(name, quota, false, lines) == FirstN(Matching(name, lines), quota)
    decreases |lines|
  {
    if |lines| > 0 {
      var init := lines[..|lines| - 1];
      var line := lines[|lines| - 1];
      SelectedFirstMatches(name, quota, init);
      var m := Matching(name, init);
      if Contains(line, name) && |m| < quota {
        assert Matching(name, lines) == m + [line];
        assert FirstN(m + [line], quota) == m + [line];
      } else if Contains(line, name) {
        assert Matching(name, lines) == m + [line];
        assert (m + [line])[..|FirstN(m, quota)|] == m[..|FirstN(m, quota)|];
      } else {
        assert Matching(name, lines) == m;
      }
    }
  }

  /** With `--ignore-counts`, an entry with a positive count takes every matching
      line and one with a count of at most 0 takes none. */
  lemma {:induction false} SelectedIgnoringCounts(name: string, quota: int, lines: seq<string>)
    ensures Selected(name, quota, true, lines) == (if quota > 0 then Matching(name, lines) else [])
    decreases |lines|
  {
    if |lines| > 0 {
      SelectedIgnoringCounts(name, quota, lines[..|lines| - 1]);
    }
  }

  /** What the script writes for entry `c` after the header, once `lines` were
      scanned. The count only matters once a line was scanned, and by then it
      has been read; before that nothing is written. */
  function Selection(c: seq<string>, ignoreCount: bool, lines: seq<string>): seq<string>
    requires |c| >= 1
  {
    if QuotaOf(c).Count? then Selected(c[0], QuotaOf(c).n, ignoreCount, lines) else []
  }

  /** Scanning one more line: the entry takes it when its counter is below its
      count and its name occurs in the line. */
  lemma SelectionStep(c: seq<string>, ignoreCount: bool, seen: seq<string>, line: string)
    requires |c| >= 1 && QuotaOf(c).Count?
    ensures var prev := Selection(c, ignoreCount, seen);
      Selection(c, ignoreCount, seen + [line])
      == if Counter(ignoreCount, prev) < QuotaOf(c).n && Contains(line, c[0]) then prev + [line] else prev
  {
    assert (seen + [line])[..|seen|] == seen;
  }

  // ---------------------------------------------------------------------------
  // The script
  // ---------------------------------------------------------------------------

  /** Every line of every input file, in the order the script reads them. */
  function Flatten(files: seq<seq<string>>): seq<string>
    decreases |files|
  {
    if |files| == 0 then [] else Flatten(files[..|files| - 1]) + files[|files| - 1]
  }

  lemma {:induction false} FlattenAppend(a: seq<seq<string>>, b: seq<seq<string>>)
    ensures Flatten(a + b) == Flatten(a) + Flatten(b)
    decreases |b|
  {
    if |b| > 0 {
      var b' := b[..|b| - 1];
      assert (a + b)[..|a + b| - 1] == a + b';
      FlattenAppend(a, b');
    } else {
      assert a + b == a;
    }
  }

  /** The line the loop reads at position `j` of input `x` comes right after all
      the lines of the inputs before `x` and the first `j` lines of `x`. */
  lemma FlattenAt(files: seq<seq<string>>, x: int, j: int)
    requires 0 <= x < |files| && 0 <= j < |files[x]|
    ensures |Flatten(files[..x])| + j < |Flatten(files)|
    ensures Flatten(files)[|Flatten(files[..x])| + j] == files[x][j]
  {
    assert files == files[..x] + ([files[x]] + files[x + 1..]);
    FlattenAppend(files[..x], [files[x]] + files[x + 1..]);
    FlattenAppend([files[x]], files[x + 1..]);
    assert [files[x]][..0] == [];
  }

  /** `open(files[0]).readline()`: the first line of the first input, or nothing
      when that file is empty. The header is also the first line the scan reads,
      so an output whose name occurs in it receives it twice. */
  function Header(inputs: seq<seq<string>>): (h: string)
    requires |inputs| >= 1
    ensures |inputs[0]| > 0 ==> |Flatten(inputs)| > 0 && h == Flatten(inputs)[0]
    ensures |inputs[0]| == 0 ==> h == ""
  {
    if |inputs[0]| > 0 then
      FlattenAt(inputs, 0, 0);
      inputs[0][0]
    else ""
  }

  /** How a run ends: a usage error (fewer than two file arguments), the outputs
      written, or the `int(c[1])` error that stopped the scan. The outputs are
      opened and given their header before the scan, so a failed run leaves them
      with what was written up to the failure. */
  datatype Outcome =
    | Usage
    | Written(paths: seq<string>, outputs: seq<seq<string>>)
    | Failed(entry: nat, error: CountError, paths: seq<string>, outputs: seq<seq<string>>)

  /** The state of the outputs after the lines `seen` were scanned: every count has
      been read once a line was seen, each output holds its header and its
      selection, and each counter is the number of lines it has taken (or 0). */
  ghost predicate Progress(conf: seq<seq<string>>, ignoreCount: bool, header: string, seen: seq<string>,
                           outputs: seq<seq<string>>, counters: seq<int>)
    requires forall e :: 0 <= e < |conf| ==> |conf[e]| >= 1
  {
    |outputs| == |conf| && |counters| == |conf|
    && (seen != [] ==> forall e :: 0 <= e < |conf| ==> QuotaOf(conf[e]).Count?)
    && forall e :: 0 <= e < |conf| ==> EntryState(conf[e], ignoreCount, header, seen, outputs[e], counters[e])
  }

  /** One output after `lines` were scanned: its header and its selection, and a
      counter equal to the number of lines taken (or 0). */
  ghost predicate EntryState(c: seq<string>, ignoreCount: bool, header: string, lines: seq<string>,
                             output: seq<string>, counter: int)
    requires |c| >= 1
  {
    output == [header] + Selection(c, ignoreCount, lines)
    && counter == Counter(ignoreCount, Selection(c, ignoreCount, lines))
  }

  /** One entry's part of the scan of `line`, from the state after `seen`. */
  lemma EntryStep(c: seq<string>, ignoreCount: bool, header: string, seen: seq<string>, line: string,
                  output: seq<string>, counter: int)
    requires |c| >= 1 && QuotaOf(c).Count?
    requires EntryState(c, ignoreCount, header, seen, output, counter)
    ensures var taken := counter < QuotaOf(c).n && Contains(line, c[0]);
      EntryState(c, ignoreCount, header, seen + [line],
                 if taken then output + [line] else output,
                 if taken && !ignoreCount then counter + 1 else counter)
  {
    SelectionStep(c, ignoreCount, seen, line);
  }

  /** The body of the inner loop for one entry whose count `quota` was read: the
      line is written to the entry's output when the counter is below the count
      and the name occurs in the line, and the counter then goes up unless counts
      are ignored. */
  method ScanEntry(c: seq<string>, quota: int, ignoreCount: bool, header: string, ghost seen: seq<string>,
                   line: string, output: seq<string>, counter: int)
    returns (output': seq<string>, counter': int)
    requires |c| >= 1 && QuotaOf(c) == Count(quota)
    requires EntryState(c, ignoreCount, header, seen, output, counter)
    ensures EntryState(c, ignoreCount, header, seen + [line], output', counter')
  {
    EntryStep(c, ignoreCount, header, seen, line, output, counter);
    output', counter' := output, counter;
    if counter < quota && Contains(line, c[0]) {
      output' := output + [line];
      if !ignoreCount {
        counter' := counter + 1;
      }
    }
  }

  /** An entry whose count could not be read. */
  datatype BadEntry = BadEntry(entry: nat, error: CountError)

  /** The `for i, c in enumerate(conf_lines)` loop for one input line: each entry
      in turn reads its count, then takes the line when its counter is below the
      count and its name occurs in the line. The first entry whose count cannot be
      read stops the scan; that can only happen at the first line, since every
      count was read at it. */
  method ScanLine(conf: seq<seq<string>>, ignoreCount: bool, header: string, ghost seen: seq<string>, line: string,
                  outputs: seq<seq<string>>, counters: seq<int>)
    returns (outputs': seq<seq<string>>, counters': seq<int>, bad: Option<BadEntry>)
    requires forall e :: 0 <= e < |conf| ==> |conf[e]| >= 1
    requires Progress(conf, ignoreCount, header, seen, outputs, counters)
    ensures bad.None? ==> Progress(conf, ignoreCount, header, seen + [line], outputs', counters')
    ensures bad.Some? ==>
      seen == [] && bad.value.entry < |conf| && QuotaOf(conf[bad.value.entry]) == Bad(bad.value.error)
      && (forall e :: 0 <= e < bad.value.entry ==> QuotaOf(conf[e]).Count?)
      && |outputs'| == |conf|
      && forall e :: 0 <= e < |conf| ==>
        outputs'[e] == [header] + (if e < bad.value.entry then Selection(conf[e], ignoreCount, [line]) else [])
  {
    var m := |conf|;
    ghost var next := seen + [line];
    outputs', counters' := outputs, counters;
    var e := 0;
    while e < m
      invariant 0 <= e <= m
      invariant |outputs'| == m && |counters'| == m
      invariant seen != [] ==> forall k :: 0 <= k < m ==> QuotaOf(conf[k]).Count?
      invariant forall k :: 0 <= k < e ==> QuotaOf(conf[k]).Count?
      invariant forall k :: 0 <= k < e ==> EntryState(conf[k], ignoreCount, header, next, outputs'[k], counters'[k])
      invariant forall k :: e <= k < m ==> EntryState(conf[k], ignoreCount, header, seen, outputs'[k], counters'[k])
    {
      var q := QuotaOf(conf[e]);
      if q.Bad? {
        assert next == [line];
        return outputs', counters', Some(BadEntry(e, q.error));
      }
      var output, counter := ScanEntry(conf[e], q.n, ignoreCount, header, seen, line, outputs'[e], counters'[e]);
      outputs', counters' := outputs'[e := output], counters'[e := counter];
      e := e + 1;
    }
    return outputs', counters', None;
  }

  /** The `for line in if_` loop over the lines of one input file. */
  method ScanFile(conf: seq<seq<string>>, ignoreCount: bool, header: string, ghost seen: seq<string>,
                  file: seq<string>, outputs: seq<seq<string>>, counters: seq<int>)
    returns (outputs': seq<seq<string>>, counters': seq<int>, bad: Option<BadEntry>)
    requires forall e :: 0 <= e < |conf| ==> |conf[e]| >= 1
    requires Progress(conf, ignoreCount, header, seen, outputs, counters)
    ensures bad.None? ==> Progress(conf, ignoreCount, header, seen + file, outputs', counters')
    ensures bad.Some? ==>
      seen == [] && |file| > 0 && bad.value.entry < |conf| && QuotaOf(conf[bad.value.entry]) == Bad(bad.value.error)
      && (forall e :: 0 <= e < bad.value.entry ==> QuotaOf(conf[e]).Count?)
      && |outputs'| == |conf|
      && forall e :: 0 <= e < |conf| ==>
        outputs'[e] == [header] + (if e < bad.value.entry then Selection(conf[e], ignoreCount, [file[0]]) else [])
  {
    outputs', counters' := outputs, counters;
    ghost var scanned := seen;
    var j := 0;
    while j < |file|
      invariant 0 <= j <= |file|
      invariant scanned == seen + file[..j]
      invariant Progress(conf, ignoreCount, header, scanned, outputs', counters')
    {
      var line := file[j];
      outputs', counters', bad := ScanLine(conf, ignoreCount, header, scanned, line, outputs', counters');
      if bad.Some? {
        assert j == 0;
        return;
      }
      scanned := scanned + [line];
      assert file[..j + 1] == file[..j] + [line];
      j := j + 1;
    }
    assert file[..j] == file;
    return outputs', counters', None;
  }

  /** Everything after the argument check and the reading of the configuration:
      the outputs are opened and given the header, then every line of every input
      is scanned. */
  method Select(conf: seq<seq<string>>, inputs: seq<seq<string>>, outDir: string, ignoreCount: bool)
    returns (r: Outcome)
    requires |inputs| >= 1
    requires forall e :: 0 <= e < |conf| ==> |conf[e]| >= 1
    ensures !r.Usage?
    ensures |r.paths| == |conf| && |r.outputs| == |conf|
    ensures forall e :: 0 <= e < |conf| ==> r.paths[e] == OutputPath(outDir, conf[e][0])
    ensures r.Written? ==>
      var all := Flatten(inputs);
      (all != [] ==> forall e :: 0 <= e < |conf| ==> QuotaOf(conf[e]).Count?)
      && forall e :: 0 <= e < |conf| ==> r.outputs[e] == [Header(inputs)] + Selection(conf[e], ignoreCount, all)
    ensures r.Failed? ==>
      var all := Flatten(inputs);
      all != [] && r.entry < |conf| && QuotaOf(conf[r.entry]) == Bad(r.error)
      && (forall e :: 0 <= e < r.entry ==> QuotaOf(conf[e]).Count?)
      && forall e :: 0 <= e < |conf| ==>
        r.outputs[e] == [Header(inputs)] + (if e < r.entry then Selection(conf[e], ignoreCount, all[..1]) else [])
  {
    var m := |conf|;
    var paths := seq(m, e requires 0 <= e < m => OutputPath(outDir, conf[e][0]));
    var header := Header(inputs);
    var outputs := seq(m, e => [header]);
    var counters := seq(m, e => 0);
    ghost var seen: seq<string> := [];
    var x := 0;
    while x < |inputs|
      invariant 0 <= x <= |inputs|
      invariant seen == Flatten(inputs[..x])
      invariant Progress(conf, ignoreCount, header, seen, outputs, counters)
    {
      var bad;
      outputs, counters, bad := ScanFile(conf, ignoreCount, header, seen, inputs[x], outputs, counters);
      if bad.Some? {
        FlattenAt(inputs, x, 0);
        assert Flatten(inputs)[..1] == [inputs[x][0]];
        return Failed(bad.value.entry, bad.value.error, paths, outputs);
      }
      seen := seen + inputs[x];
      assert inputs[..x + 1][..x] == inputs[..x];
      x := x + 1;
    }
    assert inputs[..x] == inputs;
    return Written(paths, outputs);
  }

  /** The script, given the lines of `train_data.config`, the lines of each input
      file (`files[:-1]`) and the output directory (`files[-1]`). The outputs are
      the lines written to each output file, header first. */
  method Run(configText: seq<string>, inputs: seq<seq<string>>, outDir: string, ignoreCount: bool)
    returns (r: Outcome)
    ensures r.Usage? <==> |inputs| == 0
    ensures !r.Usage? ==>
      |r.paths| == |configText| && |r.outputs| == |configText|
      && forall e :: 0 <= e < |configText| ==> r.paths[e] == OutputPath(outDir, ConfigLines(configText)[e][0])
    ensures r.Written? ==>
      var conf, all := ConfigLines(configText), Flatten(inputs);
      (all != [] ==> forall e :: 0 <= e < |conf| ==> QuotaOf(conf[e]).Count?)
      && forall e :: 0 <= e < |conf| ==> r.outputs[e] == [Header(inputs)] + Selection(conf[e], ignoreCount, all)
    ensures r.Failed? ==>
      var conf, all := ConfigLines(configText), Flatten(inputs);
      all != [] && r.entry < |conf| && QuotaOf(conf[r.entry]) == Bad(r.error)
      && (forall e :: 0 <= e < r.entry ==> QuotaOf(conf[e]).Count?)
      && forall e :: 0 <= e < |conf| ==>
        r.outputs[e] == [Header(inputs)] + (if e < r.entry then Selection(conf[e], ignoreCount, all[..1]) else [])
  {
    if |inputs| == 0 {
      return Usage;
    }
    r := Select(ConfigLines(configText), inputs, outDir, ignoreCount);
  }
}
