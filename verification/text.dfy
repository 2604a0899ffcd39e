/**
 * The handful of Python `str` operations the core relies on, defined the
 * way CPython performs them: `find` scans left to right, `split(sep)` and
 * `replace(pat, rep)` consume non-overlapping occurrences from the left, and
 * `sep.join(parts)` puts `sep` between consecutive parts.
 */
module Text {
  import opened Values

  /** `pat` occurs in `s` starting at index `i`. */
  predicate StartsAt(s: string, pat: string, i: nat) {
    i + |pat| <= |s| && s[i..i + |pat|] == pat
  }

  /** `pat in s` */
  predicate Contains(s: string, pat: string) {
    exists i: nat | i <= |s| :: StartsAt(s, pat, i)
  }

  /** `s.find(pat, from)`: the first occurrence of `pat` at or after `from`. */
  function FindFrom(s: string, pat: string, from: nat): (r: Option<nat>)
    requires |pat| > 0
    ensures r.Some? ==> from <= r.value && StartsAt(s, pat, r.value)
    ensures r.Some? ==> forall j: nat :: from <= j < r.value ==> !StartsAt(s, pat, j)
    ensures r.None? ==> forall j: nat :: from <= j ==> !StartsAt(s, pat, j)
    decreases |s| - from
  {
    if from + |pat| > |s| then None
    else if StartsAt(s, pat, from) then Some(from)
    else FindFrom(s, pat, from + 1)
  }

  /** `s.split(sep)` for a non-empty separator. */
  function Split(s: string, sep: string): (parts: seq<string>)
    requires |sep| > 0
    ensures |parts| >= 1
    decreases |s|
  {
    match FindFrom(s, sep, 0)
    case None => [s]
    case Some(i) => [s[..i]] + Split(s[i + |sep|..], sep)
  }

  /** `sep.join(parts)` */
  function Join(parts: seq<string>, sep: string): string
  {
    if |parts| == 0 then ""
    else if |parts| == 1 then parts[0]
    else parts[0] + sep + Join(parts[1..], sep)
  }

  /** `s.replace(pat, rep)` for a non-empty `pat`. */
  function ReplaceAll(s: string, pat: string, rep: string): string
    requires |pat| > 0
    decreases |s|
  {
    match FindFrom(s, pat, 0)
    case None => s
    case Some(i) => s[..i] + rep + ReplaceAll(s[i + |pat|..], pat, rep)
  }

  /** `s.split(sep)[-1]` */
  function LastPart(s: string, sep: string): string
    requires |sep| > 0
  {
    var parts := Split(s, sep);
    parts[|parts| - 1]
  }

  /** No part produced by `split` contains the separator. */
  lemma {:induction false} SplitPartsAvoidSeparator(s: string, sep: string)
    requires |sep| > 0
    ensures forall k :: 0 <= k < |Split(s, sep)| ==> !Contains(Split(s, sep)[k], sep)
    decreases |s|
  {
    match FindFrom(s, sep, 0)
    case None =>
      assert Split(s, sep) == [s];
    case Some(i) =>
      var rest := s[i + |sep|..];
      SplitPartsAvoidSeparator(rest, sep);
      assert Split(s, sep) == [s[..i]] + Split(rest, sep);
      forall j: nat | StartsAt(s[..i], sep, j)
        ensures false
      {
        assert s[..i][j..j + |sep|] == s[j..j + |sep|];
        assert StartsAt(s, sep, j);
      }
  }

  /** `Join` of a part followed by a non-empty list puts the separator between them. */
  lemma JoinCons(x: string, tail: seq<string>, sep: string)
    requires |tail| >= 1
    ensures Join([x] + tail, sep) == x + sep + Join(tail, sep)
  {
    assert ([x] + tail)[1..] == tail;
  }

  /** A string cut around an occurrence of `sep` is the two sides joined by `sep`. */
  lemma CutAround(s: string, sep: string, i: nat)
    requires StartsAt(s, sep, i)
    ensures s == s[..i] + sep + s[i + |sep|..]
  {
    assert s[..i] + s[i..i + |sep|] + s[i + |sep|..] == s;
  }

  /** One step of `split`: the text before the first separator, then the split of the rest. */
  lemma SplitStep(s: string, sep: string, i: nat)
    requires |sep| > 0 && FindFrom(s, sep, 0) == Some(i)
    ensures Split(s, sep) == [s[..i]] + Split(s[i + |sep|..], sep)
    ensures s == s[..i] + sep + s[i + |sep|..]
  {
    CutAround(s, sep, i);
  }

  /** Joining the parts of a split with the same separator gives back the string. */
  lemma {:induction false} JoinSplit(s: string, sep: string)
    requires |sep| > 0
    ensures Join(Split(s, sep), sep) == s
    decreases |s|
  {
    var f := FindFrom(s, sep, 0);
    if f.Some? {
      var i := f.value;
      var rest := s[i + |sep|..];
      SplitStep(s, sep, i);
      JoinSplit(rest, sep);
      JoinCons(s[..i], Split(rest, sep), sep);
    }
  }

  /**
   * `s.replace(pat, rep)` is `rep.join(s.split(pat))`: every occurrence the
   * split consumes is exactly one that the replacement rewrites.
   */
  lemma {:induction false} ReplaceIsJoinOfSplit(s: string, pat: string, rep: string)
    requires |pat| > 0
    ensures ReplaceAll(s, pat, rep) == Join(Split(s, pat), rep)
    decreases |s|
  {
    match FindFrom(s, pat, 0)
    case None =>
    case Some(i) =>
      var rest := s[i + |pat|..];
      ReplaceIsJoinOfSplit(rest, pat, rep);
      assert Split(s, pat) == [s[..i]] + Split(rest, pat);
  }

  /** Replacing by something shorter never lengthens the string, and shortens it when `pat` occurs. */
  lemma {:induction false} ReplaceShrinks(s: string, pat: string, rep: string)
    requires |rep| < |pat|
    ensures |ReplaceAll(s, pat, rep)| <= |s|
    ensures Contains(s, pat) ==> |ReplaceAll(s, pat, rep)| < |s|
    decreases |s|
  {
    var f := FindFrom(s, pat, 0);
    if f.Some? {
      var i := f.value;
      var rest := s[i + |pat|..];
      ReplaceShrinks(rest, pat, rep);
      assert ReplaceAll(s, pat, rep) == s[..i] + rep + ReplaceAll(rest, pat, rep);
    } else {
      assert ReplaceAll(s, pat, rep) == s;
    }
  }

  /** Replacing by something longer never shortens the string, and lengthens it when `pat` occurs. */
  lemma {:induction false} ReplaceGrows(s: string, pat: string, rep: string)
    requires 0 < |pat| < |rep|
    ensures |ReplaceAll(s, pat, rep)| >= |s|
    ensures Contains(s, pat) ==> |ReplaceAll(s, pat, rep)| > |s|
    decreases |s|
  {
    var f := FindFrom(s, pat, 0);
    if f.Some? {
      var i := f.value;
      var rest := s[i + |pat|..];
      ReplaceGrows(rest, pat, rep);
      assert ReplaceAll(s, pat, rep) == s[..i] + rep + ReplaceAll(rest, pat, rep);
    } else {
      assert ReplaceAll(s, pat, rep) == s;
    }
  }

  /**
   * A replacement by a different text leaves the string alone exactly when
   * `pat` does not occur in it.
   */
  lemma ReplaceUnchangedIff(s: string, pat: string, rep: string)
    requires |pat| > 0 && rep != pat
    ensures ReplaceAll(s, pat, rep) == s <==> !Contains(s, pat)
  {
    if |rep| < |pat| {
      ReplaceShrinks(s, pat, rep);
    } else if |rep| > |pat| {
      ReplaceGrows(s, pat, rep);
    } else {
      ReplaceSameLength(s, pat, rep);
    }
  }

  /** With a replacement of the same length, the first occurrence of `pat` becomes `rep` in place. */
  lemma ReplaceSameLength(s: string, pat: string, rep: string)
    requires |pat| > 0 && |rep| == |pat| && rep != pat
    ensures ReplaceAll(s, pat, rep) == s <==> !Contains(s, pat)
  {
    var f := FindFrom(s, pat, 0);
    if f.Some? {
      var i := f.value;
      var r := ReplaceAll(s, pat, rep);
      assert r == s[..i] + rep + ReplaceAll(s[i + |pat|..], pat, rep);
      assert r[i..i + |rep|] == rep;
    } else {
      assert ReplaceAll(s, pat, rep) == s;
    }
  }

  /**
   * The last part of a split is a suffix free of the separator, and it is
   * either the whole string or directly preceded by an occurrence of it.
   */
  lemma {:induction false} LastPartIsSuffixAfterSeparator(s: string, sep: string)
    requires |sep| > 0
    ensures var r := LastPart(s, sep);
      && |r| <= |s| && s[|s| - |r|..] == r
      && !Contains(r, sep)
      && (r == s || (|s| - |r| >= |sep| && StartsAt(s, sep, |s| - |r| - |sep|)))
  {
    SplitPartsAvoidSeparator(s, sep);
    LastPartIsSuffix(s, sep);
    LastPartFollowsSeparator(s, sep);
  }

  /**
   * Where the first separator is, if any, and what that means for the last
   * part: with none the string is its own last part, and otherwise the
   * last part is that of the text after the separator.
   */
  lemma FirstCut(s: string, sep: string) returns (cut: Option<nat>)
    requires |sep| > 0
    ensures cut.None? ==> LastPart(s, sep) == s
    ensures cut.Some? ==> cut.value + |sep| <= |s| && StartsAt(s, sep, cut.value)
    ensures cut.Some? ==> LastPart(s, sep) == LastPart(s[cut.value + |sep|..], sep)
  {
    cut := FindFrom(s, sep, 0);
    if cut.Some? {
      var i := cut.value;
      var tail := Split(s[i + |sep|..], sep);
      var parts := Split(s, sep);
      assert parts == [s[..i]] + tail;
      assert parts[|parts| - 1] == tail[|tail| - 1];
    }
  }

  /** An occurrence in a suffix of `s` is an occurrence in `s`. */
  lemma StartsInSuffix(s: string, k: nat, sep: string, p: nat)
    requires k <= |s| && StartsAt(s[k..], sep, p)
    ensures StartsAt(s, sep, k + p)
  {
    assert s[k..][p..p + |sep|] == s[k + p..k + p + |sep|];
  }

  /** The last part of a split is a suffix of the string. */
  lemma {:induction false} LastPartIsSuffix(s: string, sep: string)
    requires |sep| > 0
    ensures |LastPart(s, sep)| <= |s| && s[|s| - |LastPart(s, sep)|..] == LastPart(s, sep)
    decreases |s|
  {
    var cut := FirstCut(s, sep);
    if cut.Some? {
      var rest := s[cut.value + |sep|..];
      LastPartIsSuffix(rest, sep);
      var r := LastPart(rest, sep);
      assert rest[|rest| - |r|..] == s[|s| - |r|..];
    }
  }

  /** The last part is the whole string or comes right after a separator. */
  lemma {:induction false} LastPartFollowsSeparator(s: string, sep: string)
    requires |sep| > 0
    ensures var r := LastPart(s, sep);
      r == s || (|r| + |sep| <= |s| && StartsAt(s, sep, |s| - |r| - |sep|))
    decreases |s|
  {
    var cut := FirstCut(s, sep);
    if cut.Some? {
      var rest := s[cut.value + |sep|..];
      LastPartFollowsSeparator(rest, sep);
      OccurrenceCarriesOver(s, sep, cut.value, LastPart(rest, sep));
    }
  }

  /**
   * The step of `LastPartFollowsSeparator`: a piece that is the text after
   * an occurrence of `sep`, or follows an occurrence in that text, follows
   * an occurrence in the whole string.
   */
  lemma OccurrenceCarriesOver(s: string, sep: string, i: nat, r: string)
    requires StartsAt(s, sep, i)
    requires var rest := s[i + |sep|..];
      r == rest || (|r| + |sep| <= |rest| && StartsAt(rest, sep, |rest| - |r| - |sep|))
    ensures |r| + |sep| <= |s| && StartsAt(s, sep, |s| - |r| - |sep|)
  {
    var k := i + |sep|;
    var rest := s[k..];
    if r != rest {
      StartsInSuffix(s, k, sep, |rest| - |r| - |sep|);
    }
  }

  /** Joining two non-empty lists puts one separator between their joins. */
  lemma {:induction false} JoinAppend(a: seq<string>, b: seq<string>, sep: string)
    requires |a| > 0 && |b| > 0
    ensures Join(a + b, sep) == Join(a, sep) + sep + Join(b, sep)
    decreases |a|
  {
    if |a| == 1 {
      JoinCons(a[0], b, sep);
      assert a + b == [a[0]] + b;
    } else {
      JoinAppend(a[1..], b, sep);
      assert a + b == [a[0]] + (a[1..] + b);
      JoinCons(a[0], a[1..] + b, sep);
      JoinCons(a[0], a[1..], sep);
      assert a == [a[0]] + a[1..];
    }
  }

  /** `find` reports the first occurrence at or after `from`, whichever it is. */
  lemma FindFromIsFirst(s: string, pat: string, from: nat, i: nat)
    requires |pat| > 0 && from <= i && StartsAt(s, pat, i)
    requires forall j: nat :: from <= j < i ==> !StartsAt(s, pat, j)
    ensures FindFrom(s, pat, from) == Some(i)
  {
  }

  /** A string without `pat` splits into itself alone. */
  lemma SplitWithoutSeparator(b: string, sep: string)
    requires |sep| > 0 && !Contains(b, sep)
    ensures Split(b, sep) == [b]
  {
  }

  /**
   * A string made of two pieces joined by `sep` splits back into exactly
   * those pieces, when the first holds no character opening `sep` and the
   * second holds no `sep`.
   */
  lemma {:induction false} SplitOfPair(a: string, b: string, sep: string)
    requires |sep| > 0
    requires forall k :: 0 <= k < |a| ==> a[k] != sep[0]
    requires !Contains(b, sep)
    ensures Split(a + sep + b, sep) == [a, b]
  {
    var s := a + sep + b;
    assert s[|a|..|a| + |sep|] == sep;
    forall j: nat | j < |a|
      ensures !StartsAt(s, sep, j)
    {
      assert s[j] == a[j];
    }
    FindFromIsFirst(s, sep, 0, |a|);
    assert s[..|a|] == a && s[|a| + |sep|..] == b;
    SplitWithoutSeparator(b, sep);
    assert Split(s, sep) == [a] + Split(b, sep);
  }
}
