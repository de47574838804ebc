/** The few Python string operations the pipeline relies on: `str.split` with a
    one-character separator, `str.strip` with a character set, the substring test
    `sub in s`, `str.replace` of one character by another and `str.rsplit(sep, 1)`.
    Strings are sequences of Unicode scalar values, as in Python 3. */
module PyStr {

  // ---------------------------------------------------------------------------
  // s.split(sep)
  // ---------------------------------------------------------------------------

  /** `s.split(sep)` for a one-character separator: never empty, and no field
      holds the separator. */
  function Split(s: string, sep: char): (fields: seq<string>)
    ensures |fields| >= 1
    ensures forall i :: 0 <= i < |fields| ==> sep !in fields[i]
    decreases |s|
  {
    if |s| == 0 then [""]
    else
      var rest := Split(s[1..], sep);
      if s[0] == sep then [""] + rest
      else [[s[0]] + rest[0]] + rest[1..]
  }

  /** `sep.join(fields)` */
  function Join(fields: seq<string>, sep: char): string
    requires |fields| >= 1
    decreases |fields|
  {
    if |fields| == 1 then fields[0] else fields[0] + [sep] + Join(fields[1..], sep)
  }

  /** Joining the fields of a split gives back the string. */
  lemma {:induction false} JoinSplit(s: string, sep: char)
    ensures Join(Split(s, sep), sep) == s
    decreases |s|
  {
    if |s| > 0 {
      var rest := Split(s[1..], sep);
      JoinSplit(s[1..], sep);
      if s[0] == sep {
        assert Split(s, sep) == [""] + rest;
        assert ([""] + rest)[1..] == rest;
      } else if |rest| == 1 {
        assert Split(s, sep) == [[s[0]] + rest[0]];
      } else {
        var fields := [[s[0]] + rest[0]] + rest[1..];
        assert fields[1..] == rest[1..];
        assert Join(rest, sep) == rest[0] + [sep] + Join(rest[1..], sep);
      }
    }
  }

  /** Splitting a separator-free prefix glued to `t` extends the first field of `t`. */
  lemma {:induction false} SplitFreePrefix(a: string, t: string, sep: char)
    requires sep !in a
    ensures Split(a + t, sep) == [a + Split(t, sep)[0]] + Split(t, sep)[1..]
    decreases |a|
  {
    if |a| > 0 {
      assert (a + t)[1..] == a[1..] + t;
      assert (a + t)[0] == a[0];
      SplitFreePrefix(a[1..], t, sep);
      assert [a[0]] + (a[1..] + Split(t, sep)[0]) == a + Split(t, sep)[0];
    } else {
      var ft := Split(t, sep);
      assert a + t == t;
      assert a + ft[0] == ft[0];
      assert ft == [ft[0]] + ft[1..];
    }
  }

  /** Splitting the join of separator-free fields gives back the fields. */
  lemma {:induction false} SplitJoin(fields: seq<string>, sep: char)
    requires |fields| >= 1
    requires forall i :: 0 <= i < |fields| ==> sep !in fields[i]
    ensures Split(Join(fields, sep), sep) == fields
    decreases |fields|
  {
    if |fields| == 1 {
      SplitFreePrefix(fields[0], "", sep);
      assert fields[0] + "" == fields[0];
    } else {
      var tail := Join(fields[1..], sep);
      SplitJoin(fields[1..], sep);
      var t := [sep] + tail;
      assert Split(t, sep) == [""] + Split(tail, sep);
      SplitFreePrefix(fields[0], t, sep);
      assert fields[0] + [sep] + tail == fields[0] + t;
      assert Split(t, sep)[0] == "";
      assert Split(t, sep)[1..] == fields[1..];
      assert fields[0] + "" == fields[0];
      assert [fields[0]] + fields[1..] == fields;
    }
  }

  // ---------------------------------------------------------------------------
  // s.strip(chars)
  // ---------------------------------------------------------------------------

  /** Number of leading characters of `s` that belong to `cs`. */
  function LeadingIn(s: string, cs: set<char>): (n: nat)
    ensures n <= |s|
    ensures forall k :: 0 <= k < n ==> s[k] in cs
    ensures n < |s| ==> s[n] !in cs
    decreases |s|
  {
    if |s| == 0 || s[0] !in cs then 0 else 1 + LeadingIn(s[1..], cs)
  }

  /** Number of trailing characters of `s` that belong to `cs`. */
  function TrailingIn(s: string, cs: set<char>): (n: nat)
    ensures n <= |s|
    ensures forall k :: |s| - n <= k < |s| ==> s[k] in cs
    ensures n < |s| ==> s[|s| - 1 - n] !in cs
    decreases |s|
  {
    if |s| == 0 || s[|s| - 1] !in cs then 0 else 1 + TrailingIn(s[..|s| - 1], cs)
  }

  /** Characters of `cs` appended to `a` all count as trailing ones. */
  lemma {:induction false} TrailingInAppend(a: string, b: string, cs: set<char>)
    requires forall k :: 0 <= k < |b| ==> b[k] in cs
    ensures TrailingIn(a + b, cs) == |b| + TrailingIn(a, cs)
    decreases |b|
  {
    if |b| > 0 {
      var b' := b[..|b| - 1];
      assert (a + b)[..|a + b| - 1] == a + b';
      TrailingInAppend(a, b', cs);
    } else {
      assert a + b == a;
    }
  }

  /** The slice `s[lo..hi]` that `s.strip(chars)` keeps: everything outside it is
      in `cs`, and its first and last characters are not. */
  function StripBounds(s: string, cs: set<char>): (b: (nat, nat))
    ensures b.0 <= b.1 <= |s|
    ensures forall k :: 0 <= k < b.0 ==> s[k] in cs
    ensures forall k :: b.1 <= k < |s| ==> s[k] in cs
    ensures b.0 < b.1 ==> s[b.0] !in cs && s[b.1 - 1] !in cs
  {
    var lo := LeadingIn(s, cs);
    if lo == |s| then (lo, lo) else (lo, |s| - TrailingIn(s, cs))
  }

  /** `s.strip(chars)` with `chars` given as the set `cs`. */
  function Strip(s: string, cs: set<char>): (r: string)
    ensures |r| <= |s|
    ensures r != [] ==> r[0] !in cs && r[|r| - 1] !in cs
  {
    var b := StripBounds(s, cs);
    s[b.0..b.1]
  }

  /** A string whose ends are already outside `cs` is left alone by strip. */
  lemma StripKeeps(s: string, cs: set<char>)
    requires s == [] || (s[0] !in cs && s[|s| - 1] !in cs)
    ensures Strip(s, cs) == s
  {
    var b := StripBounds(s, cs);
    if s != [] {
      assert b.0 == 0;
      assert b.1 == |s|;
    }
  }

  /** Characters of `cs` after a string whose ends are outside `cs` are exactly
      what strip removes. */
  lemma StripTrailingRun(a: string, b: string, cs: set<char>)
    requires a != [] && a[0] !in cs && a[|a| - 1] !in cs
    requires forall k :: 0 <= k < |b| ==> b[k] in cs
    ensures Strip(a + b, cs) == a
  {
    var s := a + b;
    TrailingInAppend(a, b, cs);
    assert s[0] == a[0];
    assert s[|a| - 1] == a[|a| - 1];
    assert s[..|a|] == a;
  }

  /** Python's `str.isspace()` characters, which `str.strip()` removes when called
      without arguments. */
  const Whitespace: set<char> := {
    ' ', '\t', '\n', '\r', '\U{0B}', '\U{0C}', '\U{1C}', '\U{1D}', '\U{1E}', '\U{1F}',
    '\U{85}', '\U{A0}', '\U{1680}', '\U{2000}', '\U{2001}', '\U{2002}', '\U{2003}',
    '\U{2004}', '\U{2005}', '\U{2006}', '\U{2007}', '\U{2008}', '\U{2009}', '\U{200A}',
    '\U{2028}', '\U{2029}', '\U{202F}', '\U{205F}', '\U{3000}'
  }

  // ---------------------------------------------------------------------------
  // sub in s
  // ---------------------------------------------------------------------------

  predicate IsPrefix(p: string, s: string)
  {
    |p| <= |s| && s[..|p|] == p
  }

  predicate OccursAt(sub: string, s: string, i: int)
  {
    0 <= i && i + |sub| <= |s| && s[i..i + |sub|] == sub
  }

  /** Python's substring test `sub in s`. */
  predicate Contains(s: string, sub: string)
    decreases |s|
  {
    IsPrefix(sub, s) || (|s| > 0 && Contains(s[1..], sub))
  }

  /** `sub in s` holds exactly when `sub` occurs at some position of `s`. */
  lemma {:induction false} ContainsIff(s: string, sub: string)
    ensures Contains(s, sub) <==> exists i :: OccursAt(sub, s, i)
    decreases |s|
  {
    if IsPrefix(sub, s) {
      assert OccursAt(sub, s, 0);
    }
    if |s| > 0 {
      ContainsIff(s[1..], sub);
      if Contains(s[1..], sub) {
        var i :| OccursAt(sub, s[1..], i);
        assert s[1..][i..i + |sub|] == s[i + 1..i + 1 + |sub|];
        assert OccursAt(sub, s, i + 1);
      }
      if i :| OccursAt(sub, s, i) {
        if i > 0 {
          assert s[1..][i - 1..i - 1 + |sub|] == s[i..i + |sub|];
          assert OccursAt(sub, s[1..], i - 1);
        } else {
          assert IsPrefix(sub, s);
        }
      }
    } else {
      if i :| OccursAt(sub, s, i) {
        assert i == 0;
        assert IsPrefix(sub, s);
      }
    }
  }

  /** A non-empty needle whose first character never appears in `s` is not in `s`. */
  lemma {:induction false} NotContainsFirstCharAbsent(s: string, sub: string)
    requires |sub| > 0 && sub[0] !in s
    ensures !Contains(s, sub)
    decreases |s|
  {
    if |s| > 0 {
      assert s[0] != sub[0];
      NotContainsFirstCharAbsent(s[1..], sub);
    }
  }

  // ---------------------------------------------------------------------------
  // s.replace(a, b) for single characters
  // ---------------------------------------------------------------------------

  /** `s.replace(a, b)` where both are one character long: same length, every `a`
      becomes `b`, every other character is kept, and no `a` is left when `a != b`. */
  function Replace(s: string, a: char, b: char): (r: string)
    ensures |r| == |s|
    ensures forall k :: 0 <= k < |s| ==> (s[k] == a ==> r[k] == b) && (s[k] != a ==> r[k] == s[k])
    ensures a != b ==> a !in r
  {
    seq(|s|, k requires 0 <= k < |s| => if s[k] == a then b else s[k])
  }

  // ---------------------------------------------------------------------------
  // s.rsplit(sep, 1)
  // ---------------------------------------------------------------------------

  /** Index of the last `sep` in `s`, or -1 when there is none. */
  function LastIndex(s: string, sep: char): (k: int)
    ensures -1 <= k < |s|
    ensures k >= 0 ==> s[k] == sep
    ensures forall j :: k < j < |s| ==> s[j] != sep
    decreases |s|
  {
    if |s| == 0 then -1
    else if s[|s| - 1] == sep then |s| - 1
    else LastIndex(s[..|s| - 1], sep)
  }

  /** After a separator followed only by non-separators, that separator is the last. */
  lemma {:induction false} LastIndexAfter(a: string, b: string, sep: char)
    requires sep !in b
    ensures LastIndex(a + [sep] + b, sep) == |a|
    decreases |b|
  {
    var s := a + [sep] + b;
    if |b| > 0 {
      var b' := b[..|b| - 1];
      assert s[..|s| - 1] == a + [sep] + b';
      assert s[|s| - 1] == b[|b| - 1];
      LastIndexAfter(a, b', sep);
    } else {
      assert s[|s| - 1] == sep;
    }
  }

  /** `s.rsplit(sep, 1)`: cut at the last separator, if there is one. */
  function RSplitOnce(s: string, sep: char): (parts: seq<string>)
    ensures 1 <= |parts| <= 2
    ensures |parts| == 1 <==> sep !in s
    ensures |parts| == 1 ==> parts[0] == s
    ensures |parts| == 2 ==> parts[0] + [sep] + parts[1] == s && sep !in parts[1]
    ensures |parts| == 2 ==>
      var k := LastIndex(s, sep); 0 <= k && parts[0] == s[..k] && parts[1] == s[k + 1..]
  {
    var k := LastIndex(s, sep);
    if k < 0 then [s]
    else
      assert s == s[..k] + [sep] + s[k + 1..];
      [s[..k], s[k + 1..]]
  }

  /** Cutting `a + [sep] + b` at its last separator gives back `a` and `b` when `b`
      holds no separator, whatever `a` holds. */
  lemma RSplitOnceAfter(a: string, b: string, sep: char)
    requires sep !in b
    ensures RSplitOnce(a + [sep] + b, sep) == [a, b]
  {
    var s := a + [sep] + b;
    LastIndexAfter(a, b, sep);
    assert s[..|a|] == a;
    assert s[|a| + 1..] == b;
  }
}
