/** The Python `str` operations the service-listing parsers use:
    `strip()`, `splitlines()`, `split(None, n)`, `split(sep)`,
    `split(sep, 1)`, `startswith` and the `in` substring test.

    Every scan walks an index through one fixed string, so each operation
    on `s` is stated by positions in `s`; the `...From` functions are the
    same operation started at a given index. */
module Text {
  import opened Outcomes

  /** Python's `str.isspace` for one character. */
  predicate IsSpace(c: char)
  {
    var n := c as int;
    (9 <= n <= 13) || (0x1C <= n <= 0x20) || n == 0x85 || n == 0xA0 || n == 0x1680
    || (0x2000 <= n <= 0x200A) || n == 0x2028 || n == 0x2029 || n == 0x202F
    || n == 0x205F || n == 0x3000
  }

  /** The line boundaries `str.splitlines` splits on (`\r\n` counts as one). */
  predicate IsLineBreak(c: char)
  {
    var n := c as int;
    (10 <= n <= 13) || (0x1C <= n <= 0x1E) || n == 0x85 || n == 0x2028 || n == 0x2029
  }

  predicate AllSpace(s: string)
  {
    forall i :: 0 <= i < |s| ==> IsSpace(s[i])
  }

  predicate NoSpace(s: string)
  {
    forall i :: 0 <= i < |s| ==> !IsSpace(s[i])
  }

  predicate NoBreak(s: string)
  {
    forall i :: 0 <= i < |s| ==> !IsLineBreak(s[i])
  }

  /** The characters of `s` from index `a` up to, not including, `b`:
      Python's `s[a:b]`. */
  function Sub(s: string, a: nat, b: nat): (r: string)
    requires a <= b <= |s|
    ensures |r| == b - a
    ensures forall i :: 0 <= i < b - a ==> r[i] == s[a + i]
  {
    seq(b - a, i requires 0 <= i < b - a => s[a + i])
  }

  /** Adjacent slices concatenate to the slice that spans both. */
  lemma SubConcat(s: string, a: nat, b: nat, c: nat)
    requires a <= b <= c <= |s|
    ensures Sub(s, a, c) == Sub(s, a, b) + Sub(s, b, c)
  {
    assert Sub(s, a, c) == Sub(s, a, b) + Sub(s, b, c) by {
      forall i | 0 <= i < c - a
        ensures Sub(s, a, c)[i] == (Sub(s, a, b) + Sub(s, b, c))[i]
      {
        if i >= b - a {
          assert (Sub(s, a, b) + Sub(s, b, c))[i] == Sub(s, b, c)[i - (b - a)];
        }
      }
    }
  }

  /** Python's `s.startswith(prefix)`. */
  predicate StartsWith(s: string, prefix: string)
  {
    |prefix| <= |s| && Sub(s, 0, |prefix|) == prefix
  }

  /** Every line boundary is whitespace. */
  lemma NoSpaceNoBreak(s: string)
    requires NoSpace(s)
    ensures NoBreak(s)
  {
  }

  lemma NoBreakConcat(a: string, b: string)
    requires NoBreak(a) && NoBreak(b)
    ensures NoBreak(a + b)
  {
    assert forall i :: 0 <= i < |a + b| ==> (a + b)[i] == if i < |a| then a[i] else b[i - |a|];
  }

  // ----- Scanning -----

  /** The first index at or after `from` that does not hold whitespace. */
  function SkipSpace(s: string, from: nat): (k: nat)
    requires from <= |s|
    ensures from <= k <= |s|
    ensures k == |s| || !IsSpace(s[k])
    decreases |s| - from
  {
    if from == |s| || !IsSpace(s[from]) then from else SkipSpace(s, from + 1)
  }

  /** The first index at or after `from` that holds whitespace. */
  function SkipWord(s: string, from: nat): (k: nat)
    requires from <= |s|
    ensures from <= k <= |s|
    ensures k == |s| || IsSpace(s[k])
    decreases |s| - from
  {
    if from == |s| || IsSpace(s[from]) then from else SkipWord(s, from + 1)
  }

  /** Where the whitespace that ends just before `to` begins. */
  function SkipSpaceBack(s: string, to: nat): (k: nat)
    requires to <= |s|
    ensures k <= to
    ensures k == 0 || !IsSpace(s[k - 1])
  {
    if to == 0 || !IsSpace(s[to - 1]) then to else SkipSpaceBack(s, to - 1)
  }

  /** The scans pass only characters of the kind they skip. */
  lemma {:induction false} SkipSpaceSpan(s: string, from: nat)
    requires from <= |s|
    ensures forall i :: from <= i < SkipSpace(s, from) ==> IsSpace(s[i])
    decreases |s| - from
  {
    if from < |s| && IsSpace(s[from]) {
      SkipSpaceSpan(s, from + 1);
    }
  }

  lemma {:induction false} SkipWordSpan(s: string, from: nat)
    requires from <= |s|
    ensures forall i :: from <= i < SkipWord(s, from) ==> !IsSpace(s[i])
    decreases |s| - from
  {
    if from < |s| && !IsSpace(s[from]) {
      SkipWordSpan(s, from + 1);
    }
  }

  lemma {:induction false} SkipSpaceBackSpan(s: string, to: nat)
    requires to <= |s|
    ensures forall i :: SkipSpaceBack(s, to) <= i < to ==> IsSpace(s[i])
  {
    if to > 0 && IsSpace(s[to - 1]) {
      SkipSpaceBackSpan(s, to - 1);
    }
  }

  /** The scans are determined by the characters they pass and the one
      they stop at. */
  lemma {:induction false} SkipSpaceIs(s: string, from: nat, k: nat)
    requires from <= k <= |s|
    requires forall i :: from <= i < k ==> IsSpace(s[i])
    requires k == |s| || !IsSpace(s[k])
    ensures SkipSpace(s, from) == k
    decreases k - from
  {
    if from < k {
      SkipSpaceIs(s, from + 1, k);
    }
  }

  lemma {:induction false} SkipWordIs(s: string, from: nat, k: nat)
    requires from <= k <= |s|
    requires forall i :: from <= i < k ==> !IsSpace(s[i])
    requires k == |s| || IsSpace(s[k])
    ensures SkipWord(s, from) == k
    decreases k - from
  {
    if from < k {
      SkipWordIs(s, from + 1, k);
    }
  }

  lemma {:induction false} SkipSpaceBackIs(s: string, end: nat, k: nat)
    requires k <= end <= |s|
    requires forall i :: k <= i < end ==> IsSpace(s[i])
    requires k == 0 || !IsSpace(s[k - 1])
    ensures SkipSpaceBack(s, end) == k
    decreases end
  {
    if k < end {
      SkipSpaceBackIs(s, end - 1, k);
    }
  }

  // ----- strip -----

  /** Python's `s.strip()`. */
  function Strip(s: string): (r: string)
    ensures r == [] || (!IsSpace(r[0]) && !IsSpace(r[|r| - 1]))
    ensures |r| <= |s|
  {
    var a, b := SkipSpace(s, 0), SkipSpaceBack(s, |s|);
    if a < b then Sub(s, a, b) else []
  }

  /** `Strip` removes exactly the surrounding whitespace: whatever is
      wrapped in whitespace, and neither starts nor ends with it, comes out. */
  lemma StripSurrounded(pre: string, mid: string, post: string)
    requires AllSpace(pre) && AllSpace(post)
    requires mid == [] || (!IsSpace(mid[0]) && !IsSpace(mid[|mid| - 1]))
    ensures Strip(pre + mid + post) == mid
  {
    var s := pre + mid + post;
    var m := |pre| + |mid|;
    assert forall i :: 0 <= i < |s| ==>
      s[i] == if i < |pre| then pre[i] else if i < m then mid[i - |pre|] else post[i - m];
    if mid == [] {
      SkipSpaceIs(s, 0, |s|);
    } else {
      SkipSpaceIs(s, 0, |pre|);
      SkipSpaceBackIs(s, |s|, m);
      assert Sub(s, |pre|, m) == mid;
    }
  }

  /** A string without surrounding whitespace is its own strip. */
  lemma StripTrimmed(s: string)
    requires s == [] || (!IsSpace(s[0]) && !IsSpace(s[|s| - 1]))
    ensures Strip(s) == s
  {
    StripSurrounded([], s, []);
    assert [] + s + [] == s;
  }

  // ----- split(None, maxsplit) -----

  /** Python's `s.split(None, maxsplit)`: runs of whitespace separate the
      parts, at most `maxsplit` splits are made, leading whitespace is
      skipped, and the last part keeps whatever follows the last split
      (trailing whitespace included). */
  function SplitWs(s: string, maxsplit: nat): (parts: seq<string>)
    ensures |parts| <= maxsplit + 1
  {
    SplitWsFrom(s, 0, maxsplit)
  }

  /** `s[from:].split(None, maxsplit)`. */
  function SplitWsFrom(s: string, from: nat, maxsplit: nat): (parts: seq<string>)
    requires from <= |s|
    ensures |parts| <= maxsplit + 1
    decreases |s| - from
  {
    var a := SkipSpace(s, from);
    if a == |s| then []
    else if maxsplit == 0 then [Sub(s, a, |s|)]
    else
      var b := SkipWord(s, a);
      [Sub(s, a, b)] + SplitWsFrom(s, b, maxsplit - 1)
  }

  /** Every part is non-empty, and all parts but the remainder after the
      last split are free of whitespace. */
  lemma SplitWsFields(s: string, maxsplit: nat)
    ensures var parts := SplitWs(s, maxsplit);
              forall i :: 0 <= i < |parts| ==> parts[i] != [] && (i < maxsplit ==> NoSpace(parts[i]))
  {
    SplitWsFromFields(s, 0, maxsplit);
    assert SplitWs(s, maxsplit) == SplitWsFrom(s, 0, maxsplit);
  }

  lemma {:induction false} SplitWsFromFields(s: string, from: nat, maxsplit: nat)
    requires from <= |s|
    ensures var parts := SplitWsFrom(s, from, maxsplit);
              forall i :: 0 <= i < |parts| ==> parts[i] != [] && (i < maxsplit ==> NoSpace(parts[i]))
    decreases |s| - from
  {
    var a := SkipSpace(s, from);
    if a < |s| && maxsplit > 0 {
      var b := SkipWord(s, a);
      assert b == SkipWord(s, a + 1);
      SkipWordSpan(s, a);
      SplitWsFromFields(s, b, maxsplit - 1);
      SplitWsFromNext(s, from, a, b, maxsplit);
    }
  }

  /** Whitespace before the next part is skipped. */
  lemma SplitWsFromSpace(s: string, from: nat, maxsplit: nat)
    requires from < |s| && IsSpace(s[from])
    ensures SplitWsFrom(s, from, maxsplit) == SplitWsFrom(s, from + 1, maxsplit)
  {
    assert SkipSpace(s, from) == SkipSpace(s, from + 1);
  }

  /** A whitespace-free run that ends at whitespace or at the end of the
      string is split off as the next part. */
  lemma SplitWsFromWord(s: string, from: nat, to: nat, maxsplit: nat)
    requires from < to <= |s| && maxsplit > 0
    requires forall i :: from <= i < to ==> !IsSpace(s[i])
    requires to == |s| || IsSpace(s[to])
    ensures SplitWsFrom(s, from, maxsplit) == [Sub(s, from, to)] + SplitWsFrom(s, to, maxsplit - 1)
  {
    SkipSpaceIs(s, from, from);
    SkipWordIs(s, from, to);
  }

  /** One step of `SplitWsFrom` after leading whitespace, with a split left. */
  lemma SplitWsFromNext(s: string, from: nat, a: nat, b: nat, maxsplit: nat)
    requires from <= |s| && maxsplit > 0
    requires a == SkipSpace(s, from) && a < |s| && b == SkipWord(s, a)
    ensures SplitWsFrom(s, from, maxsplit) == [Sub(s, a, b)] + SplitWsFrom(s, b, maxsplit - 1)
  {
  }

  /** Only whitespace is left: no more parts. */
  lemma SplitWsFromEnd(s: string, from: nat, maxsplit: nat)
    requires from <= |s| && SkipSpace(s, from) == |s|
    ensures SplitWsFrom(s, from, maxsplit) == []
  {
  }

  /** No split left: what follows the whitespace is the last part. */
  lemma SplitWsFromRest(s: string, from: nat, a: nat)
    requires from <= |s| && a == SkipSpace(s, from) && a < |s|
    ensures SplitWsFrom(s, from, 0) == [Sub(s, a, |s|)]
  {
  }

  /** Splitting the end of `p + r` that lies in `r` is splitting `r`. */
  lemma {:induction false} SplitWsShift(p: string, r: string, k: nat, maxsplit: nat)
    requires k <= |r|
    ensures SplitWsFrom(p + r, |p| + k, maxsplit) == SplitWsFrom(r, k, maxsplit)
    decreases |r| - k
  {
    var a := SkipSpace(r, k);
    if a < |r| && maxsplit > 0 {
      var b := SkipWord(r, a);
      SplitWsShift(p, r, b, maxsplit - 1);
      SplitWsShiftStep(p, r, k, a, b, maxsplit);
    } else {
      SplitWsShiftLast(p, r, k, maxsplit);
    }
  }

  /** One part further: the next word of the shifted split is the next word
      of `r`. */
  lemma SplitWsShiftStep(p: string, r: string, k: nat, a: nat, b: nat, maxsplit: nat)
    requires k <= |r| && maxsplit > 0 && a == SkipSpace(r, k) && a < |r| && b == SkipWord(r, a)
    requires SplitWsFrom(p + r, |p| + b, maxsplit - 1) == SplitWsFrom(r, b, maxsplit - 1)
    ensures SplitWsFrom(p + r, |p| + k, maxsplit) == SplitWsFrom(r, k, maxsplit)
  {
    SkipSpaceShift(p, r, k);
    SkipWordShift(p, r, a);
    SplitWsFromNext(p + r, |p| + k, |p| + a, |p| + b, maxsplit);
    SplitWsFromNext(r, k, a, b, maxsplit);
    SubShift(p, r, a, b);
  }

  /** No word left to split off: both splits end the same way. */
  lemma SplitWsShiftLast(p: string, r: string, k: nat, maxsplit: nat)
    requires k <= |r| && (SkipSpace(r, k) == |r| || maxsplit == 0)
    ensures SplitWsFrom(p + r, |p| + k, maxsplit) == SplitWsFrom(r, k, maxsplit)
  {
    var s := p + r;
    SkipSpaceShift(p, r, k);
    var a := SkipSpace(r, k);
    if a == |r| {
      SplitWsFromEnd(s, |p| + k, maxsplit);
      SplitWsFromEnd(r, k, maxsplit);
    } else {
      SplitWsFromRest(s, |p| + k, |p| + a);
      SplitWsFromRest(r, k, a);
      SubShift(p, r, a, |r|);
    }
  }

  lemma SubShift(p: string, r: string, a: nat, b: nat)
    requires a <= b <= |r|
    ensures Sub(p + r, |p| + a, |p| + b) == Sub(r, a, b)
  {
    forall i | 0 <= i < b - a
      ensures Sub(p + r, |p| + a, |p| + b)[i] == Sub(r, a, b)[i]
    {
      assert (p + r)[|p| + (a + i)] == r[a + i];
    }
  }

  lemma SkipSpaceShift(p: string, r: string, k: nat)
    requires k <= |r|
    ensures SkipSpace(p + r, |p| + k) == |p| + SkipSpace(r, k)
  {
    var a := SkipSpace(r, k);
    SkipSpaceSpan(r, k);
    assert forall i :: |p| + k <= i < |p| + a ==> (p + r)[i] == r[i - |p|];
    SkipSpaceIs(p + r, |p| + k, |p| + a);
  }

  lemma SkipWordShift(p: string, r: string, k: nat)
    requires k <= |r|
    ensures SkipWord(p + r, |p| + k) == |p| + SkipWord(r, k)
  {
    var b := SkipWord(r, k);
    SkipWordSpan(r, k);
    assert forall i :: |p| + k <= i < |p| + b ==> (p + r)[i] == r[i - |p|];
    SkipWordIs(p + r, |p| + k, |p| + b);
  }

  /** Whitespace, then a word that whitespace (or the end) follows: the
      word is the next part, and splitting goes on in what follows it. */
  lemma SplitWsWord(g: string, w: string, r: string, maxsplit: nat)
    requires maxsplit > 0 && AllSpace(g) && w != [] && NoSpace(w)
    requires r == [] || IsSpace(r[0])
    ensures SplitWsFrom(g + (w + r), 0, maxsplit) == [w] + SplitWsFrom(r, 0, maxsplit - 1)
  {
    assert (w + r)[0] == w[0];
    SplitWsLead(g, w + r, maxsplit);
    SplitWsFirst(w, r, maxsplit);
  }

  /** Leading whitespace does not change the split. */
  lemma SplitWsLead(g: string, x: string, maxsplit: nat)
    requires AllSpace(g) && (x == [] || !IsSpace(x[0]))
    ensures SplitWsFrom(g + x, 0, maxsplit) == SplitWsFrom(x, 0, maxsplit)
  {
    SkipSpaceIs(x, 0, 0);
    SkipSpaceOver(g, x);
    SkipSpaceShift(g, x, 0);
    SplitWsSame(g + x, 0, |g|, maxsplit);
    SplitWsShift(g, x, 0, maxsplit);
  }

  /** A word at the start that whitespace (or the end) follows is the first
      part. */
  lemma SplitWsFirst(w: string, r: string, maxsplit: nat)
    requires maxsplit > 0 && w != [] && NoSpace(w) && (r == [] || IsSpace(r[0]))
    ensures SplitWsFrom(w + r, 0, maxsplit) == [w] + SplitWsFrom(r, 0, maxsplit - 1)
  {
    var x := w + r;
    assert x[0] == w[0];
    SkipSpaceIs(x, 0, 0);
    SkipWordOver(w, r);
    SplitWsFromNext(x, 0, 0, |w|, maxsplit);
    assert Sub(x, 0, |w|) == w;
    SplitWsShift(w, r, 0, maxsplit - 1);
  }

  /** Splits that start at the same word are the same. */
  lemma SplitWsSame(s: string, from: nat, to: nat, maxsplit: nat)
    requires from <= to <= |s| && SkipSpace(s, from) == SkipSpace(s, to)
    ensures SplitWsFrom(s, from, maxsplit) == SplitWsFrom(s, to, maxsplit)
  {
  }

  /** Leading whitespace is skipped up to the first other character. */
  lemma SkipSpaceOver(g: string, x: string)
    requires AllSpace(g) && (x == [] || !IsSpace(x[0]))
    ensures SkipSpace(g + x, 0) == |g|
  {
    assert forall i :: 0 <= i < |g| ==> (g + x)[i] == g[i];
    assert |g| < |g + x| ==> (g + x)[|g|] == x[0];
    SkipSpaceIs(g + x, 0, |g|);
  }

  /** A word ends where whitespace, or the end, follows it. */
  lemma SkipWordOver(w: string, r: string)
    requires NoSpace(w) && (r == [] || IsSpace(r[0]))
    ensures SkipWord(w + r, 0) == |w|
  {
    assert forall i :: 0 <= i < |w| ==> (w + r)[i] == w[i];
    assert |w| < |w + r| ==> (w + r)[|w|] == r[0];
    SkipWordIs(w + r, 0, |w|);
  }

  /** `" ".join(words).split(None, maxsplit) == words` for words that are
      non-empty and whitespace-free, except that the last of `maxsplit + 1`
      words only has to start with a non-space. */
  lemma SplitWsJoin(words: seq<string>, maxsplit: nat)
    requires words != [] && |words| <= maxsplit + 1
    requires forall i :: 0 <= i < |words| - 1 ==> words[i] != [] && NoSpace(words[i])
    requires Last(words) != [] && !IsSpace(Last(words)[0])
    requires |words| <= maxsplit ==> NoSpace(Last(words))
    ensures SplitWs(Join(words, " "), maxsplit) == words
  {
    var s := Join(words, " ");
    JoinLaid(words, " ");
    var offs :| Laid(s, words, " ", offs);
    SplitWsLaid(s, words, offs, maxsplit, 0);
    assert SplitWs(s, maxsplit) == SplitWsFrom(s, offs[0], maxsplit - 0);
    SameFromStart(SplitWsFrom(s, offs[0], maxsplit - 0), words);
  }

  /** Splitting a string laid out as `words` separated by single spaces,
      from where word `j` begins and with the splits that are left by then,
      gives the words from `j` on. */
  lemma {:induction false} SplitWsLaid(s: string, words: seq<string>, offs: seq<nat>, maxsplit: nat, j: nat)
    requires Laid(s, words, " ", offs) && j < |words| <= maxsplit + 1
    requires forall i :: 0 <= i < |words| - 1 ==> words[i] != [] && NoSpace(words[i])
    requires Last(words) != [] && !IsSpace(Last(words)[0])
    requires |words| <= maxsplit ==> NoSpace(Last(words))
    ensures offs[j] <= |s| && SameFrom(SplitWsFrom(s, offs[j], maxsplit - j), words, j)
    decreases |words| - j
  {
    if j + 1 == |words| {
      SplitWsLaidLast(s, words, offs, maxsplit);
    } else {
      SplitWsLaidNext(s, words, offs, maxsplit, j);
      SplitWsLaid(s, words, offs, maxsplit, j + 1);
      ConsFrom(words[j], SplitWsFrom(s, offs[j + 1], maxsplit - (j + 1)), words, j);
    }
  }

  /** The last word of the layout is the last part. */
  lemma SplitWsLaidLast(s: string, words: seq<string>, offs: seq<nat>, maxsplit: nat)
    requires Laid(s, words, " ", offs) && |words| <= maxsplit + 1
    requires Last(words) != [] && !IsSpace(Last(words)[0])
    requires |words| <= maxsplit ==> NoSpace(Last(words))
    ensures var j := |words| - 1;
              offs[j] <= |s| && SplitWsFrom(s, offs[j], maxsplit - j) == [words[j]]
  {
    var j := |words| - 1;
    var o, w := offs[j], words[j];
    LaidAt(s, words, " ", offs, j);
    SplitWsWordAtEnd(s, o, w, maxsplit - j);
  }

  /** A word of the layout before the last: it is the next part, and the
      split goes on after the space that follows it. */
  lemma SplitWsLaidNext(s: string, words: seq<string>, offs: seq<nat>, maxsplit: nat, j: nat)
    requires Laid(s, words, " ", offs) && j + 1 < |words| <= maxsplit + 1
    requires words[j] != [] && NoSpace(words[j])
    ensures offs[j + 1] <= |s|
    ensures SplitWsFrom(s, offs[j], maxsplit - j) == [words[j]] + SplitWsFrom(s, offs[j + 1], maxsplit - (j + 1))
  {
    var o, w := offs[j], words[j];
    LaidAt(s, words, " ", offs, j);
    assert s[o + |w|] == ' ' by {
      assert Sub(s, o + |w|, offs[j + 1])[0] == s[o + |w| + 0];
    }
    SplitWsWordThenSpace(s, o, w, maxsplit - j);
  }

  /** A word that ends the string is its last part. */
  lemma SplitWsWordAtEnd(s: string, o: nat, w: string, maxsplit: nat)
    requires o + |w| == |s| && Sub(s, o, |s|) == w
    requires w != [] && !IsSpace(w[0]) && (maxsplit > 0 ==> NoSpace(w))
    ensures SplitWsFrom(s, o, maxsplit) == [w]
  {
    assert s[o] == w[0] by {
      assert Sub(s, o, |s|)[0] == s[o + 0];
    }
    SkipSpaceIs(s, o, o);
    if maxsplit == 0 {
      SplitWsFromRest(s, o, o);
    } else {
      SubNoSpace(s, o, |s|);
      SplitWsFromWord(s, o, |s|, maxsplit);
      SkipSpaceIs(s, |s|, |s|);
      SplitWsFromEnd(s, |s|, maxsplit - 1);
    }
  }

  /** A word followed by a space is split off, and splitting goes on after
      the space with one split fewer. */
  lemma SplitWsWordThenSpace(s: string, o: nat, w: string, maxsplit: nat)
    requires o + |w| < |s| && Sub(s, o, o + |w|) == w && s[o + |w|] == ' '
    requires w != [] && NoSpace(w) && maxsplit > 0
    ensures SplitWsFrom(s, o, maxsplit) == [w] + SplitWsFrom(s, o + |w| + 1, maxsplit - 1)
  {
    assert s[o] == w[0] by {
      assert Sub(s, o, o + |w|)[0] == s[o + 0];
    }
    SkipSpaceIs(s, o, o);
    SubNoSpace(s, o, o + |w|);
    SplitWsFromWord(s, o, o + |w|, maxsplit);
    SplitWsFromSpace(s, o + |w|, maxsplit - 1);
  }

  /** The characters of a whitespace-free slice are not whitespace. */
  lemma SubNoSpace(s: string, a: nat, b: nat)
    requires a <= b <= |s| && NoSpace(Sub(s, a, b))
    ensures forall i :: a <= i < b ==> !IsSpace(s[i])
  {
    forall i | a <= i < b
      ensures !IsSpace(s[i])
    {
      assert Sub(s, a, b)[i - a] == s[i];
    }
  }

  // ----- find, in, split(sep) -----

  /** `t` occurs in `s` starting at index `j`. */
  predicate MatchAt(s: string, t: string, j: nat)
  {
    j + |t| <= |s| && Sub(s, j, j + |t|) == t
  }

  /** Position of the first occurrence of `t` in `s` (Python's `s.find(t)`). */
  function Find(s: string, t: string): (r: Option<nat>)
    ensures r.Some? ==> MatchAt(s, t, r.value)
    ensures r.Some? ==> forall j: nat :: j < r.value ==> !MatchAt(s, t, j)
    ensures r.None? ==> forall j: nat :: !MatchAt(s, t, j)
  {
    FindFrom(s, t, 0)
  }

  /** `s.find(t, from)`. */
  function FindFrom(s: string, t: string, from: nat): (r: Option<nat>)
    ensures r.Some? ==> from <= r.value && MatchAt(s, t, r.value)
    ensures r.Some? ==> forall j: nat :: from <= j < r.value ==> !MatchAt(s, t, j)
    ensures r.None? ==> forall j: nat :: from <= j ==> !MatchAt(s, t, j)
    decreases |s| - from
  {
    if |s| < from + |t| then None
    else if MatchAt(s, t, from) then Some(from)
    else FindFrom(s, t, from + 1)
  }

  /** Python's `t in s`. */
  predicate Contains(s: string, t: string)
  {
    Find(s, t).Some?
  }

  /** `Contains` is the substring test: some position of `s` holds `t`. */
  lemma ContainsAt(s: string, t: string)
    ensures Contains(s, t) <==> exists j: nat :: MatchAt(s, t, j)
  {
  }

  lemma SubOfSub(s: string, from: nat, to: nat, j: nat, n: nat)
    requires from <= to <= |s| && j + n <= to - from
    ensures Sub(Sub(s, from, to), j, j + n) == Sub(s, from + j, from + j + n)
  {
  }

  /** A stretch of `s` in which no match of `t` starts does not contain `t`. */
  lemma NoMatchBetween(s: string, t: string, from: nat, to: nat)
    requires from <= to <= |s|
    requires forall j: nat :: from <= j < to ==> !MatchAt(s, t, j)
    ensures t != [] ==> !Contains(Sub(s, from, to), t)
  {
    var u := Sub(s, from, to);
    forall j: nat | j + |t| <= |u| && t != []
      ensures !MatchAt(u, t, j)
    {
      SubOfSub(s, from, to, j, |t|);
      assert !MatchAt(s, t, from + j);
    }
  }

  /** Python's `s.split(sep)` for a non-empty separator. */
  function Split(s: string, sep: string): (parts: seq<string>)
    requires sep != []
    ensures |parts| >= 1
  {
    SplitFrom(s, sep, 0)
  }

  /** `s[from:].split(sep)`. */
  function SplitFrom(s: string, sep: string, from: nat): (parts: seq<string>)
    requires sep != [] && from <= |s|
    ensures |parts| >= 1
    decreases |s| - from
  {
    match FindFrom(s, sep, from)
    case None => [Sub(s, from, |s|)]
    case Some(i) => [Sub(s, from, i)] + SplitFrom(s, sep, i + |sep|)
  }

  /** No part holds the separator, the last one included. */
  lemma SplitNoSep(s: string, sep: string)
    requires sep != []
    ensures forall i :: 0 <= i < |Split(s, sep)| ==> !Contains(Split(s, sep)[i], sep)
  {
    SplitFromNoSep(s, sep, 0);
  }

  /** In particular the last part holds no separator. */
  lemma LastNoSep(s: string, sep: string)
    requires sep != []
    ensures !Contains(Last(Split(s, sep)), sep)
  {
    SplitNoSep(s, sep);
    assert Last(Split(s, sep)) == Split(s, sep)[|Split(s, sep)| - 1];
  }

  lemma {:induction false} SplitFromNoSep(s: string, sep: string, from: nat)
    requires sep != [] && from <= |s|
    ensures forall i :: 0 <= i < |SplitFrom(s, sep, from)| ==> !Contains(SplitFrom(s, sep, from)[i], sep)
    decreases |s| - from
  {
    match FindFrom(s, sep, from)
    case None =>
      NoMatchBetween(s, sep, from, |s|);
    case Some(i) =>
      var parts, rest := SplitFrom(s, sep, from), SplitFrom(s, sep, i + |sep|);
      assert parts == [Sub(s, from, i)] + rest;
      NoMatchBetween(s, sep, from, i);
      SplitFromNoSep(s, sep, i + |sep|);
      forall k | 0 <= k < |parts|
        ensures !Contains(parts[k], sep)
      {
        if k > 0 {
          assert parts[k] == rest[k - 1];
        }
      }
  }

  /** Where the last part of `s[from:].split(sep)` begins. */
  function LastStart(s: string, sep: string, from: nat): nat
    requires sep != [] && from <= |s|
    decreases |s| - from
  {
    match FindFrom(s, sep, from)
    case None => from
    case Some(i) => LastStart(s, sep, i + |sep|)
  }

  /** The last part of `s.split(sep)` is an end of `s` that follows an
      occurrence of the separator, or all of `s` when there is none. */
  lemma SplitLast(s: string, sep: string)
    requires sep != []
    ensures var l := Last(Split(s, sep));
              |l| <= |s| && l == Sub(s, |s| - |l|, |s|)
              && (|l| == |s| <==> !Contains(s, sep))
              && (|l| < |s| ==> |s| - |l| >= |sep| && MatchAt(s, sep, |s| - |l| - |sep|))
  {
    SplitFromLast(s, sep, 0);
    LastStartIs(s, sep, 0);
    var k := LastStart(s, sep, 0);
    assert |Last(Split(s, sep))| == |s| - k;
  }

  lemma {:induction false} SplitFromLast(s: string, sep: string, from: nat)
    requires sep != [] && from <= |s|
    ensures LastStart(s, sep, from) <= |s|
    ensures Last(SplitFrom(s, sep, from)) == Sub(s, LastStart(s, sep, from), |s|)
    decreases |s| - from
  {
    match FindFrom(s, sep, from)
    case None =>
    case Some(i) =>
      var rest := SplitFrom(s, sep, i + |sep|);
      assert SplitFrom(s, sep, from) == [Sub(s, from, i)] + rest;
      assert Last(SplitFrom(s, sep, from)) == Last(rest);
      SplitFromLast(s, sep, i + |sep|);
  }

  /** The last part starts where the scan began when no separator is
      found, and right after an occurrence of it otherwise. */
  lemma {:induction false} LastStartIs(s: string, sep: string, from: nat)
    requires sep != [] && from <= |s|
    ensures var k := LastStart(s, sep, from);
              from <= k <= |s|
              && (k == from <==> FindFrom(s, sep, from).None?)
              && (from < k ==> k >= |sep| && MatchAt(s, sep, k - |sep|))
    decreases |s| - from
  {
    match FindFrom(s, sep, from)
    case None =>
    case Some(i) =>
      LastStartIs(s, sep, i + |sep|);
  }

  /** A one-character separator occurs exactly where its character is. */
  lemma MatchChar(s: string, sep: string, j: nat)
    requires |sep| == 1
    ensures MatchAt(s, sep, j) <==> j < |s| && s[j] == sep[0]
  {
    if j < |s| {
      assert Sub(s, j, j + 1)[0] == s[j];
      if s[j] == sep[0] {
        assert Sub(s, j, j + 1) == sep;
      }
    }
  }

  /** After the last occurrence of a one-character separator comes the
      last part: `(pre + sep + rest).split(sep)[-1] == rest` for a `rest`
      without the separator. */
  lemma SplitAfterLast(pre: string, sep: string, rest: string)
    requires |sep| == 1 && !Contains(rest, sep)
    ensures Last(Split(pre + sep + rest, sep)) == rest
  {
    var s := pre + sep + rest;
    var l := Last(Split(s, sep));
    SplitLast(s, sep);
    SplitNoSep(s, sep);
    var start := |s| - |l|;
    if start <= |pre| {
      SepFromBefore(pre, sep, rest, start);
    } else if start > |pre| + 1 {
      SepInRest(pre, sep, rest, start - 1);
    } else {
      assert l == rest by {
        forall k | 0 <= k < |l| ensures l[k] == rest[k] {
          assert l[k] == s[start + k];
        }
      }
    }
  }

  /** An end of `pre + sep + rest` that starts inside `pre`, or at the
      separator, contains the separator. */
  lemma SepFromBefore(pre: string, sep: string, rest: string, start: nat)
    requires |sep| == 1 && start <= |pre|
    ensures Contains(Sub(pre + sep + rest, start, |pre + sep + rest|), sep)
  {
    var s := pre + sep + rest;
    var l := Sub(s, start, |s|);
    assert l[|pre| - start] == s[|pre|] == sep[0];
    MatchChar(l, sep, |pre| - start);
    ContainsAt(l, sep);
  }

  /** An occurrence of the separator past the one after `pre` lies in `rest`. */
  lemma SepInRest(pre: string, sep: string, rest: string, j: nat)
    requires |sep| == 1 && |pre| < j && MatchAt(pre + sep + rest, sep, j)
    ensures Contains(rest, sep)
  {
    var s := pre + sep + rest;
    MatchChar(s, sep, j);
    assert rest[j - (|pre| + 1)] == s[j];
    MatchChar(rest, sep, j - (|pre| + 1));
    ContainsAt(rest, sep);
  }

  /** Python's `s.split(sep, 1)`. */
  function SplitOnce(s: string, sep: string): (parts: seq<string>)
    requires sep != []
    ensures 1 <= |parts| <= 2
    ensures |parts| == 2 <==> Contains(s, sep)
    ensures |parts| == 2 ==> parts[0] + sep + parts[1] == s && !Contains(parts[0], sep)
    ensures |parts| == 1 ==> parts[0] == s
  {
    match Find(s, sep)
    case None => [s]
    case Some(i) =>
      assert Sub(s, 0, i) + sep + Sub(s, i + |sep|, |s|) == s by {
        assert Sub(s, i, i + |sep|) == sep;
      }
      NoMatchBetween(s, sep, 0, i);
      [Sub(s, 0, i), Sub(s, i + |sep|, |s|)]
  }

  /** Python's `sep.join(parts)`. */
  function Join(parts: seq<string>, sep: string): string
  {
    JoinFrom(parts, sep, 0)
  }

  /** `sep.join(parts[k:])`. */
  function JoinFrom(parts: seq<string>, sep: string, k: nat): string
    requires k <= |parts|
    decreases |parts| - k
  {
    if k == |parts| then []
    else if k + 1 == |parts| then parts[k]
    else parts[k] + sep + JoinFrom(parts, sep, k + 1)
  }

  function Last<T>(xs: seq<T>): T
    requires xs != []
  {
    xs[|xs| - 1]
  }

  lemma ConcatAssoc<T>(a: seq<T>, b: seq<T>, c: seq<T>)
    ensures (a + b) + c == a + (b + c)
  {
  }

  /** The prefix of a concatenation that drops its last element. */
  lemma ConcatInit<T>(a: seq<T>, b: seq<T>)
    requires b != []
    ensures (a + b)[..|a + b| - 1] == a + b[..|b| - 1]
    ensures Last(a + b) == Last(b)
  {
  }

  /** The prefix of `xs` of length `k`, without its last element, is the
      prefix of length `k - 1`; its last element is `xs[k - 1]`. */
  lemma TakeInit<T>(xs: seq<T>, k: nat)
    requires 0 < k <= |xs|
    ensures xs[..k][..k - 1] == xs[..k - 1]
    ensures Last(xs[..k]) == xs[k - 1]
  {
  }

  /** A prefix one element longer ends with that element. */
  lemma TakeSnoc<T>(xs: seq<T>, i: nat)
    requires i < |xs|
    ensures xs[..i + 1] == xs[..i] + [xs[i]]
  {
  }

  /** Where part `j` begins in `JoinFrom(parts, sep, k)`. */
  function Offset(parts: seq<string>, sep: string, k: nat, j: nat): nat
    requires k <= j <= |parts|
  {
    if j == k then 0 else Offset(parts, sep, k, j - 1) + |parts[j - 1]| + |sep|
  }

  /** Past part `k`, offsets are those in the join from part `k + 1`,
      moved by part `k` and a separator. */
  lemma {:induction false} OffsetTail(parts: seq<string>, sep: string, k: nat, j: nat)
    requires k < j <= |parts|
    ensures Offset(parts, sep, k, j) == |parts[k]| + |sep| + Offset(parts, sep, k + 1, j)
  {
    if j > k + 1 {
      OffsetTail(parts, sep, k, j - 1);
    }
  }

  /** Part `j` sits at its offset in the join. */
  lemma {:induction false} JoinPartAt(parts: seq<string>, sep: string, k: nat, j: nat)
    requires k <= j < |parts|
    ensures Offset(parts, sep, k, j) + |parts[j]| <= |JoinFrom(parts, sep, k)|
    ensures forall i :: Offset(parts, sep, k, j) <= i < Offset(parts, sep, k, j) + |parts[j]| ==>
              JoinFrom(parts, sep, k)[i] == parts[j][i - Offset(parts, sep, k, j)]
    decreases j - k
  {
    if k < j {
      JoinPartAt(parts, sep, k + 1, j);
      OffsetTail(parts, sep, k, j);
    }
  }

  /** The separator follows every part but the last. */
  lemma {:induction false} JoinSepAt(parts: seq<string>, sep: string, k: nat, j: nat)
    requires k <= j && j + 1 < |parts|
    ensures Offset(parts, sep, k, j) + |parts[j]| + |sep| <= |JoinFrom(parts, sep, k)|
    ensures forall i :: Offset(parts, sep, k, j) + |parts[j]| <= i < Offset(parts, sep, k, j) + |parts[j]| + |sep| ==>
              JoinFrom(parts, sep, k)[i] == sep[i - Offset(parts, sep, k, j) - |parts[j]|]
    decreases j - k
  {
    if k < j {
      JoinSepAt(parts, sep, k + 1, j);
      OffsetTail(parts, sep, k, j);
    }
  }

  /** The last part ends the join. */
  lemma {:induction false} JoinLength(parts: seq<string>, sep: string, k: nat)
    requires k < |parts|
    ensures |JoinFrom(parts, sep, k)| == Offset(parts, sep, k, |parts| - 1) + |Last(parts)|
    decreases |parts| - k
  {
    if k + 1 < |parts| {
      JoinLength(parts, sep, k + 1);
      OffsetTail(parts, sep, k, |parts| - 1);
    }
  }

  /** `p` holds the elements of `xs` from index `j` on. */
  ghost predicate SameFrom<T>(p: seq<T>, xs: seq<T>, j: nat)
  {
    |p| == |xs| - j && forall i :: 0 <= i < |p| ==> p[i] == xs[j + i]
  }

  lemma SameFromStart<T>(p: seq<T>, xs: seq<T>)
    requires SameFrom(p, xs, 0)
    ensures p == xs
  {
    assert forall i :: 0 <= i < |p| ==> p[i] == xs[i];
  }

  /** An element of `xs` put in front of the elements after it gives the
      elements from its own index on. */
  lemma ConsFrom<T>(x: T, rest: seq<T>, xs: seq<T>, j: nat)
    requires j < |xs| && xs[j] == x && SameFrom(rest, xs, j + 1)
    ensures SameFrom([x] + rest, xs, j)
  {
    var p := [x] + rest;
    forall i | 0 <= i < |p|
      ensures p[i] == xs[j + i]
    {
      if i > 0 {
        assert p[i] == rest[i - 1];
      }
    }
  }

  /** `s` is made of `parts` with `sep` between each two, part `j` starting
      at `offs[j]`: each part, and each separator, is the slice of `s` at
      its place. */
  predicate Laid(s: string, parts: seq<string>, sep: string, offs: seq<nat>)
  {
    parts != [] && |offs| == |parts| && offs[0] == 0 && |s| == offs[|parts| - 1] + |Last(parts)|
    && forall j {:trigger parts[j]} :: 0 <= j < |parts| ==>
         offs[j] + |parts[j]| <= |s|
         && Sub(s, offs[j], offs[j] + |parts[j]|) == parts[j]
         && (j + 1 < |parts| ==>
               offs[j + 1] == offs[j] + |parts[j]| + |sep| && offs[j + 1] <= |s|
               && Sub(s, offs[j] + |parts[j]|, offs[j + 1]) == sep)
  }

  /** Part `j` of a layout, and the separator after it. */
  lemma LaidAt(s: string, parts: seq<string>, sep: string, offs: seq<nat>, j: nat)
    requires Laid(s, parts, sep, offs) && j < |parts|
    ensures offs[j] + |parts[j]| <= |s|
    ensures Sub(s, offs[j], offs[j] + |parts[j]|) == parts[j]
    ensures j + 1 < |parts| ==>
              offs[j + 1] == offs[j] + |parts[j]| + |sep| && offs[j + 1] <= |s|
              && Sub(s, offs[j] + |parts[j]|, offs[j + 1]) == sep
  {
  }

  /** A join is laid out as its parts and separators. */
  lemma JoinLaid(parts: seq<string>, sep: string)
    requires parts != []
    ensures exists offs :: Laid(Join(parts, sep), parts, sep, offs)
  {
    var offs := seq(|parts|, j requires 0 <= j < |parts| => Offset(parts, sep, 0, j));
    JoinLaidAt(parts, sep, offs);
  }

  lemma JoinLaidAt(parts: seq<string>, sep: string, offs: seq<nat>)
    requires parts != [] && |offs| == |parts|
    requires forall j :: 0 <= j < |parts| ==> offs[j] == Offset(parts, sep, 0, j)
    ensures Laid(Join(parts, sep), parts, sep, offs)
  {
    var s := Join(parts, sep);
    JoinLength(parts, sep, 0);
    forall j | 0 <= j < |parts|
      ensures offs[j] + |parts[j]| <= |s|
      ensures Sub(s, offs[j], offs[j] + |parts[j]|) == parts[j]
      ensures j + 1 < |parts| ==>
                offs[j + 1] == offs[j] + |parts[j]| + |sep| && offs[j + 1] <= |s|
                && Sub(s, offs[j] + |parts[j]|, offs[j + 1]) == sep
    {
      JoinPart(parts, sep, j);
      if j + 1 < |parts| {
        JoinSepFits(parts, sep, j);
      }
    }
  }

  /** The separator after part `j` is the slice of the join after it. */
  lemma JoinSepFits(parts: seq<string>, sep: string, j: nat)
    requires j + 1 < |parts|
    ensures var a := Offset(parts, sep, 0, j) + |parts[j]|;
              a + |sep| <= |Join(parts, sep)| && Sub(Join(parts, sep), a, a + |sep|) == sep
  {
    JoinSepAt(parts, sep, 0, j);
  }

  /** Part `j` is the slice of the join at its offset. */
  lemma JoinPart(parts: seq<string>, sep: string, j: nat)
    requires j < |parts|
    ensures var o := Offset(parts, sep, 0, j);
              o + |parts[j]| <= |Join(parts, sep)| && Sub(Join(parts, sep), o, o + |parts[j]|) == parts[j]
  {
    JoinPartAt(parts, sep, 0, j);
  }

  /** The first and the last character of a join of non-empty parts are
      those of the first and the last part. */
  lemma JoinEnds(parts: seq<string>, sep: string)
    requires forall i :: 0 <= i < |parts| ==> parts[i] != []
    ensures var s := Join(parts, sep);
              parts == [] || (s != [] && s[0] == parts[0][0] && s[|s| - 1] == Last(parts)[|Last(parts)| - 1])
  {
    if parts != [] {
      JoinPartAt(parts, sep, 0, 0);
      JoinPartAt(parts, sep, 0, |parts| - 1);
      JoinLength(parts, sep, 0);
    }
  }

  /** Joining lines free of line boundaries with such a separator gives
      one line. */
  lemma JoinNoBreak(parts: seq<string>, sep: string)
    requires NoBreak(sep)
    requires forall i :: 0 <= i < |parts| ==> NoBreak(parts[i])
    ensures NoBreak(Join(parts, sep))
  {
    JoinFromNoBreak(parts, sep, 0);
  }

  lemma {:induction false} JoinFromNoBreak(parts: seq<string>, sep: string, k: nat)
    requires k <= |parts| && NoBreak(sep)
    requires forall i :: 0 <= i < |parts| ==> NoBreak(parts[i])
    ensures NoBreak(JoinFrom(parts, sep, k))
    decreases |parts| - k
  {
    if k + 1 < |parts| {
      JoinFromNoBreak(parts, sep, k + 1);
      NoBreakConcat(parts[k], sep);
      NoBreakConcat(parts[k] + sep, JoinFrom(parts, sep, k + 1));
    }
  }

  /** A part put in front of at least one more is joined to them by a
      separator. */
  lemma JoinCons(x: string, rest: seq<string>, sep: string)
    requires rest != []
    ensures Join([x] + rest, sep) == x + sep + Join(rest, sep)
  {
    JoinFromCons(x, rest, sep, 0);
  }

  lemma {:induction false} JoinFromCons(x: string, rest: seq<string>, sep: string, k: nat)
    requires k <= |rest|
    ensures JoinFrom([x] + rest, sep, k + 1) == JoinFrom(rest, sep, k)
    decreases |rest| - k
  {
    var xs := [x] + rest;
    assert |xs| == |rest| + 1;
    if k + 1 == |rest| {
      assert xs[k + 1] == rest[k];
    } else if k < |rest| {
      assert xs[k + 1] == rest[k];
      JoinFromCons(x, rest, sep, k + 1);
      assert JoinFrom(xs, sep, k + 1) == xs[k + 1] + sep + JoinFrom(xs, sep, k + 2);
    }
  }

  /** Parts that agree from `k` on join to the same text from `k` on. */
  lemma {:induction false} JoinFromSame(a: seq<string>, b: seq<string>, sep: string, k: nat)
    requires |a| == |b| && k <= |a|
    requires forall i :: k <= i < |a| ==> a[i] == b[i]
    ensures JoinFrom(a, sep, k) == JoinFrom(b, sep, k)
    decreases |a| - k
  {
    if k + 1 < |a| {
      JoinFromSame(a, b, sep, k + 1);
    }
  }

  /** A prefix of the first part is a prefix of the joined text. */
  lemma JoinFirst(parts: seq<string>, sep: string, p: string, x: string)
    requires parts != [] && parts[0] == p + x
    ensures Join(parts, sep) == p + Join(parts[0 := x], sep)
  {
    var parts' := parts[0 := x];
    if |parts| > 1 {
      JoinFromSame(parts, parts', sep, 1);
      var rest := JoinFrom(parts, sep, 1);
      assert Join(parts, sep) == (p + x) + sep + rest;
      assert Join(parts', sep) == x + sep + rest;
    }
  }

  /** A suffix of the last part is a suffix of the joined text. */
  lemma JoinLast(parts: seq<string>, sep: string, x: string, w: string)
    requires parts != [] && Last(parts) == x + w
    ensures Join(parts, sep) == Join(parts[|parts| - 1 := x], sep) + w
  {
    JoinFromLast(parts, sep, x, w, 0);
  }

  lemma {:induction false} JoinFromLast(parts: seq<string>, sep: string, x: string, w: string, k: nat)
    requires k < |parts| && Last(parts) == x + w
    ensures JoinFrom(parts, sep, k) == JoinFrom(parts[|parts| - 1 := x], sep, k) + w
    decreases |parts| - k
  {
    var parts' := parts[|parts| - 1 := x];
    if k + 1 < |parts| {
      JoinFromLast(parts, sep, x, w, k + 1);
      var rest' := JoinFrom(parts', sep, k + 1);
      assert parts'[k] == parts[k];
      assert JoinFrom(parts, sep, k) == parts[k] + sep + (rest' + w);
      assert JoinFrom(parts', sep, k) == parts[k] + sep + rest';
    }
  }

  /** Joining the parts of a split with the same separator gives the
      string back: `sep.join(s.split(sep)) == s`. */
  lemma JoinSplit(s: string, sep: string)
    requires sep != []
    ensures Join(Split(s, sep), sep) == s
  {
    JoinSplitFrom(s, sep, 0);
    assert Sub(s, 0, |s|) == s;
  }

  lemma {:induction false} JoinSplitFrom(s: string, sep: string, from: nat)
    requires sep != [] && from <= |s|
    ensures Join(SplitFrom(s, sep, from), sep) == Sub(s, from, |s|)
    decreases |s| - from
  {
    match FindFrom(s, sep, from)
    case None =>
      assert Join([Sub(s, from, |s|)], sep) == Sub(s, from, |s|);
    case Some(i) =>
      JoinSplitFrom(s, sep, i + |sep|);
      JoinSplitStep(s, sep, from, i);
  }

  /** The first separator found joins the part before it to the join of the
      parts after it. */
  lemma JoinSplitStep(s: string, sep: string, from: nat, i: nat)
    requires sep != [] && from <= |s| && FindFrom(s, sep, from) == Some(i)
    requires Join(SplitFrom(s, sep, i + |sep|), sep) == Sub(s, i + |sep|, |s|)
    ensures Join(SplitFrom(s, sep, from), sep) == Sub(s, from, |s|)
  {
    var head, rest := Sub(s, from, i), SplitFrom(s, sep, i + |sep|);
    assert Sub(s, i, i + |sep|) == sep;
    calc {
      Join(SplitFrom(s, sep, from), sep);
      Join([head] + rest, sep);
      { JoinCons(head, rest, sep); }
      head + sep + Join(rest, sep);
      head + sep + Sub(s, i + |sep|, |s|);
      { ConcatAssoc(head, sep, Sub(s, i + |sep|, |s|)); }
      head + (sep + Sub(s, i + |sep|, |s|));
      { SubConcat(s, i, i + |sep|, |s|); }
      head + Sub(s, i, |s|);
      { SubConcat(s, from, i, |s|); }
      Sub(s, from, |s|);
    }
  }

  // ----- splitlines -----

  /** The first line boundary at or after `from`, or the end. */
  function BreakFrom(s: string, from: nat): (k: nat)
    requires from <= |s|
    ensures from <= k <= |s|
    ensures k == |s| || IsLineBreak(s[k])
    decreases |s| - from
  {
    if from == |s| || IsLineBreak(s[from]) then from else BreakFrom(s, from + 1)
  }

  lemma {:induction false} BreakSpan(s: string, from: nat)
    requires from <= |s|
    ensures forall i :: from <= i < BreakFrom(s, from) ==> !IsLineBreak(s[i])
    decreases |s| - from
  {
    if from < |s| && !IsLineBreak(s[from]) {
      BreakSpan(s, from + 1);
    }
  }

  lemma {:induction false} BreakIs(s: string, from: nat, k: nat)
    requires from <= k <= |s|
    requires forall i :: from <= i < k ==> !IsLineBreak(s[i])
    requires k == |s| || IsLineBreak(s[k])
    ensures BreakFrom(s, from) == k
    decreases k - from
  {
    if from < k {
      BreakIs(s, from + 1, k);
    }
  }

  /** Python's `s.splitlines()`: no line keeps its terminator, `\r\n` ends a
      single line, and a final terminator does not open an empty line. */
  function SplitLines(s: string): seq<string>
  {
    LinesFrom(s, 0)
  }

  /** `s[from:].splitlines()`. */
  function LinesFrom(s: string, from: nat): seq<string>
    requires from <= |s|
    decreases |s| - from
  {
    if from == |s| then []
    else
      var k := BreakFrom(s, from);
      if k == |s| then [Sub(s, from, |s|)]
      else
        var width := if s[k] == '\r' && k + 1 < |s| && s[k + 1] == '\n' then 2 else 1;
        [Sub(s, from, k)] + LinesFrom(s, k + width)
  }

  /** No line holds a line boundary. */
  lemma SplitLinesNoBreak(s: string)
    ensures forall i :: 0 <= i < |SplitLines(s)| ==> NoBreak(SplitLines(s)[i])
  {
    LinesFromNoBreak(s, 0);
  }

  lemma {:induction false} LinesFromNoBreak(s: string, from: nat)
    requires from <= |s|
    ensures forall i :: 0 <= i < |LinesFrom(s, from)| ==> NoBreak(LinesFrom(s, from)[i])
    decreases |s| - from
  {
    if from < |s| {
      var k := BreakFrom(s, from);
      BreakSpan(s, from);
      assert NoBreak(Sub(s, from, k));
      if k < |s| {
        var width := if s[k] == '\r' && k + 1 < |s| && s[k + 1] == '\n' then 2 else 1;
        LinesFromNoBreak(s, k + width);
        assert LinesFrom(s, from) == [Sub(s, from, k)] + LinesFrom(s, k + width);
      }
    }
  }

  /** A line ended by a `\n` is split off in front of the lines after it. */
  lemma LinesFromNext(s: string, from: nat, k: nat, next: nat)
    requires from <= k < |s| && k == BreakFrom(s, from) && s[k] == '\n' && next == k + 1
    ensures LinesFrom(s, from) == [Sub(s, from, k)] + LinesFrom(s, next)
  {
  }

  /** A last line without a terminator is the last line. */
  lemma LinesFromLast(s: string, from: nat)
    requires from < |s| && BreakFrom(s, from) == |s|
    ensures LinesFrom(s, from) == [Sub(s, from, |s|)]
  {
  }

  /** `"\n".join(lines).splitlines() == lines` for lines without line
      boundaries whose last line is not empty. */
  lemma SplitLinesJoin(lines: seq<string>)
    requires forall i :: 0 <= i < |lines| ==> NoBreak(lines[i])
    requires lines == [] || Last(lines) != []
    ensures SplitLines(Join(lines, "\n")) == lines
  {
    if lines != [] {
      var s := Join(lines, "\n");
      JoinLaid(lines, "\n");
      var offs :| Laid(s, lines, "\n", offs);
      LinesLaid(s, lines, offs, 0);
      assert SplitLines(s) == LinesFrom(s, offs[0]);
      SameFromStart(LinesFrom(s, offs[0]), lines);
    }
  }

  /** The lines of a string laid out as `lines` separated by `\n`, from
      where line `j` begins, are the lines from `j` on. */
  lemma {:induction false} LinesLaid(s: string, lines: seq<string>, offs: seq<nat>, j: nat)
    requires Laid(s, lines, "\n", offs) && j < |lines|
    requires forall i :: 0 <= i < |lines| ==> NoBreak(lines[i])
    requires Last(lines) != []
    ensures offs[j] <= |s| && SameFrom(LinesFrom(s, offs[j]), lines, j)
    decreases |lines| - j
  {
    if j + 1 == |lines| {
      LinesLaidLast(s, lines, offs);
    } else {
      LaidAt(s, lines, "\n", offs, j);
      LineThenBreak(s, offs[j], lines[j], offs[j + 1]);
      LinesLaid(s, lines, offs, j + 1);
      ConsFrom(lines[j], LinesFrom(s, offs[j + 1]), lines, j);
    }
  }

  /** The last line of the layout is the last line. */
  lemma LinesLaidLast(s: string, lines: seq<string>, offs: seq<nat>)
    requires Laid(s, lines, "\n", offs)
    requires NoBreak(Last(lines)) && Last(lines) != []
    ensures var j := |lines| - 1; offs[j] <= |s| && LinesFrom(s, offs[j]) == [lines[j]]
  {
    var j := |lines| - 1;
    var o, l := offs[j], lines[j];
    LaidAt(s, lines, "\n", offs, j);
    LineAt(s, o, l);
    LinesFromLast(s, o);
  }

  /** A line followed by `\n` is split off in front of the lines after the
      `\n`. */
  lemma LineThenBreak(s: string, o: nat, l: string, next: nat)
    requires o + |l| <= next <= |s| && Sub(s, o, o + |l|) == l && NoBreak(l)
    requires Sub(s, o + |l|, next) == "\n"
    ensures LinesFrom(s, o) == [l] + LinesFrom(s, next)
  {
    assert Sub(s, o + |l|, next)[0] == s[o + |l|];
    LineAt(s, o, l);
    LinesFromNext(s, o, o + |l|, next);
  }

  /** A line of `s` that ends at the end or at a `\n` ends at the first
      line boundary after its start. */
  lemma LineAt(s: string, o: nat, l: string)
    requires o + |l| <= |s| && Sub(s, o, o + |l|) == l && NoBreak(l)
    requires o + |l| == |s| || s[o + |l|] == '\n'
    ensures BreakFrom(s, o) == o + |l|
  {
    forall i | o <= i < o + |l|
      ensures !IsLineBreak(s[i])
    {
      assert Sub(s, o, o + |l|)[i - o] == s[i];
    }
    BreakIs(s, o, o + |l|);
  }
}
