/**
 * The few Python `str` operations the core relies on, with Python's semantics:
 * `in`, `find`, `split(sep)`, `sep.join`, `replace`, `strip()` and `lower()`.
 * Character classes are the ASCII part of Python's Unicode classes.
 */
module Strings {
  import opened Wrappers

  /** `str.isspace()` / regex `\s` on ASCII: space, \t \n \v \f \r and the separators \x1c-\x1f. */
  predicate IsSpace(c: char) {
    c == ' ' || (9 <= c as int <= 13) || (28 <= c as int <= 31)
  }

  predicate IsDigit(c: char) {
    '0' <= c <= '9'
  }

  predicate IsLowerLetter(c: char) {
    'a' <= c <= 'z'
  }

  /** Regex `\w` on ASCII. */
  predicate IsWordChar(c: char) {
    IsLowerLetter(c) || ('A' <= c <= 'Z') || IsDigit(c) || c == '_'
  }

  /** The character classes the recognisers scan runs of: `\d`, `\s`, `\w` and `[\w-]`. */
  datatype CharClass = Digit | Space | Word | WordOrDash

  predicate InClass(c: char, k: CharClass) {
    match k
    case Digit => IsDigit(c)
    case Space => IsSpace(c)
    case Word => IsWordChar(c)
    case WordOrDash => IsWordChar(c) || c == '-'
  }

  predicate AllIn(s: string, k: CharClass) {
    forall i :: 0 <= i < |s| ==> InClass(s[i], k)
  }

  /** End of the maximal run of class-`k` characters starting at `i` (a greedy `k+` or `k*`). */
  function RunEnd(s: string, i: nat, k: CharClass): (e: nat)
    requires i <= |s|
    ensures i <= e <= |s|
    ensures forall j :: i <= j < e ==> InClass(s[j], k)
    ensures e == |s| || !InClass(s[e], k)
    decreases |s| - i
  {
    if i < |s| && InClass(s[i], k) then RunEnd(s, i + 1, k) else i
  }

  /** A run that ends at a character outside the class is the maximal one. */
  lemma {:induction false} RunEndAt(s: string, i: nat, e: nat, k: CharClass)
    requires i <= e <= |s|
    requires forall j :: i <= j < e ==> InClass(s[j], k)
    requires e == |s| || !InClass(s[e], k)
    ensures RunEnd(s, i, k) == e
    decreases e - i
  {
    if i < e { RunEndAt(s, i + 1, e, k); }
  }

  function LowerChar(c: char): char {
    if 'A' <= c <= 'Z' then (c as int + 32) as char else c
  }

  /** `str.lower()` on ASCII letters. */
  function Lower(s: string): (r: string)
    ensures |r| == |s|
    ensures forall i :: 0 <= i < |s| ==> r[i] == LowerChar(s[i])
  {
    if s == [] then [] else [LowerChar(s[0])] + Lower(s[1..])
  }

  /** Lowering twice is lowering once. */
  lemma LowerIdempotent(s: string)
    ensures Lower(Lower(s)) == Lower(s)
  {
    assert forall i :: 0 <= i < |s| ==> LowerChar(LowerChar(s[i])) == LowerChar(s[i]);
  }

  /** `pat` occurs in `s` starting at index `i`. */
  predicate OccursAt(s: string, pat: string, i: nat) {
    i + |pat| <= |s| && s[i..i + |pat|] == pat
  }

  /** `s.find(pat, from)`: the first occurrence at or after `from`. */
  function FindFrom(s: string, pat: string, from: nat): (r: Option<nat>)
    decreases |s| - from
    ensures r.Some? ==> from <= r.value && OccursAt(s, pat, r.value)
    ensures r.Some? ==> forall j :: from <= j < r.value ==> !OccursAt(s, pat, j)
    ensures r.None? ==> forall j :: from <= j ==> !OccursAt(s, pat, j)
  {
    if from + |pat| > |s| then None
    else if s[from..from + |pat|] == pat then Some(from)
    else FindFrom(s, pat, from + 1)
  }

  function Find(s: string, pat: string): Option<nat> {
    FindFrom(s, pat, 0)
  }

  /** Python's `pat in s`. */
  predicate Contains(s: string, pat: string) {
    Find(s, pat).Some?
  }

  /** A slice of a slice is a slice of the text. */
  lemma SliceOfSlice(s: string, i: nat, j: nat, a: nat, b: nat)
    requires i <= j <= |s| && a <= b <= j - i
    ensures s[i..j][a..b] == s[i + a..i + b]
  {
    forall k | 0 <= k < b - a ensures s[i..j][a..b][k] == s[i + a..i + b][k] {
      assert s[i..j][a..b][k] == s[i..j][a + k] == s[i + a + k];
    }
  }

  lemma ContainsAt(s: string, pat: string, i: nat)
    requires OccursAt(s, pat, i)
    ensures Contains(s, pat)
  {
  }

  lemma NotContains(s: string, pat: string, i: nat)
    requires !Contains(s, pat)
    ensures !OccursAt(s, pat, i)
  {
  }

  /** An occurrence with none before it is the one `find` reports. */
  lemma {:induction false} FindFromAt(s: string, pat: string, from: nat, i: nat)
    requires from <= i && OccursAt(s, pat, i)
    requires forall j :: from <= j < i ==> !OccursAt(s, pat, j)
    ensures FindFrom(s, pat, from) == Some(i)
    decreases i - from
  {
    if from < i {
      assert !OccursAt(s, pat, from);
      FindFromAt(s, pat, from + 1, i);
    }
  }

  /** Python's `any(w in s for w in words)`. */
  function ContainsAny(s: string, words: seq<string>): (r: bool)
    ensures r <==> exists i :: 0 <= i < |words| && Contains(s, words[i])
    decreases |words|
  {
    if words == [] then false
    else
      assert forall i :: 1 <= i < |words| ==> words[i] == words[1..][i - 1];
      Contains(s, words[0]) || ContainsAny(s, words[1..])
  }

  /** A pattern with a character the text lacks does not occur in it. */
  lemma MissingChar(s: string, pat: string, c: char)
    requires c in pat && c !in s
    ensures !Contains(s, pat)
  {
    var k :| 0 <= k < |pat| && pat[k] == c;
    forall i: nat ensures !OccursAt(s, pat, i) {
      if i + |pat| <= |s| {
        assert s[i..i + |pat|][k] == s[i + k];
      }
    }
  }

  /**
   * A pattern whose only `c` is its last character, placed right after a text
   * without `c`, is first found at that place.
   */
  lemma FindAfterFree(a: string, b: string, pat: string, c: char)
    requires |pat| > 0 && pat[|pat| - 1] == c && c !in pat[..|pat| - 1] && c !in a
    requires |pat| <= |b| && b[..|pat|] == pat
    ensures Find(a + b, pat) == Some(|a|)
  {
    var s := a + b;
    assert s[|a|..|a| + |pat|] == pat;
    forall j: nat | j < |a| && j + |pat| <= |s| ensures !OccursAt(s, pat, j) {
      var e := j + |pat| - 1;
      assert s[j..j + |pat|][|pat| - 1] == s[e];
      if e < |a| {
        assert s[e] == a[e];
      } else {
        var m := e - |a|;
        assert s[e] == b[m] == pat[m];
        assert pat[m] == pat[..|pat| - 1][m];
      }
    }
    FindFromAt(s, pat, 0, |a|);
  }

  /** Past its first part, a concatenation has an occurrence exactly where its second part has one. */
  lemma OccursShift(x: string, y: string, pat: string, j: nat)
    ensures OccursAt(x + y, pat, |x| + j) <==> OccursAt(y, pat, j)
  {
    if |x| + j + |pat| <= |x + y| {
      assert (x + y)[|x| + j..|x| + j + |pat|] == y[j..j + |pat|];
    }
  }

  /**
   * No occurrence of `pat` in `x0 + x1 + y`: none can end inside `x0 + x1` because
   * the character `pat[|x1|]` is missing there, none can start in `x1` because
   * `pat[0]` is missing there, and `y` has none.
   */
  lemma SkipAt(x0: string, x1: string, y: string, pat: string)
    requires |x1| < |pat|
    requires pat[|x1|] !in x0 && pat[|x1|] !in x1 && pat[0] !in x1
    requires !Contains(y, pat)
    ensures !Contains(x0 + x1 + y, pat)
  {
    var s := x0 + x1 + y;
    var k, n := |x1|, |x0| + |x1|;
    forall j: nat ensures !OccursAt(s, pat, j) {
      if j + |pat| <= |s| {
        var w := s[j..j + |pat|];
        if j + k < n {
          assert w[k] == s[j + k];
          if j + k < |x0| { assert s[j + k] == x0[j + k]; } else { assert s[j + k] == x1[j + k - |x0|]; }
        } else if j < n {
          assert w[0] == s[j] == x1[j - |x0|];
        } else {
          assert s == (x0 + x1) + y;
          NotContains(y, pat, j - n);
          OccursShift(x0 + x1, y, pat, j - n);
        }
      }
    }
  }

  /** A text shorter than the pattern does not contain it. */
  lemma TooShort(s: string, pat: string)
    requires |s| < |pat|
    ensures !Contains(s, pat)
  {
  }

  /** When `b` starts with `pat` and no occurrence fits before it, `find` reports `|a|`. */
  lemma FindAfter(a: string, b: string, pat: string)
    requires 0 < |pat| <= |b| && b[..|pat|] == pat
    requires !Contains(a + pat[..|pat| - 1], pat)
    ensures Find(a + b, pat) == Some(|a|)
  {
    var s := a + b;
    var w := a + pat[..|pat| - 1];
    assert s[..|w|] == w;
    forall j: nat | j < |a| ensures !OccursAt(s, pat, j) {
      NotContains(w, pat, j);
      if j + |pat| <= |s| {
        assert s[j..j + |pat|] == w[j..j + |pat|];
      }
    }
    assert s[|a|..|a| + |pat|] == pat;
    FindFromAt(s, pat, 0, |a|);
  }

  /** `s.split(sep)`: the pieces between the non-overlapping occurrences of `sep`, left to right. */
  function Split(s: string, sep: string): (parts: seq<string>)
    requires |sep| > 0
    ensures |parts| >= 1
    decreases |s|
  {
    match Find(s, sep)
    case None => [s]
    case Some(i) => [s[..i]] + Split(s[i + |sep|..], sep)
  }

  /** `sep.join(parts)`. */
  function Join(sep: string, parts: seq<string>): string {
    if |parts| == 0 then ""
    else if |parts| == 1 then parts[0]
    else parts[0] + sep + Join(sep, parts[1..])
  }

  /** `s.replace(old, new)`, which Python computes as `new.join(s.split(old))`. */
  function Replace(s: string, target: string, replacement: string): string
    requires |target| > 0
  {
    Join(replacement, Split(s, target))
  }

  /** Joining the pieces of a split with the same separator gives the string back. */
  lemma {:induction false} JoinSplit(s: string, sep: string)
    requires |sep| > 0
    ensures Join(sep, Split(s, sep)) == s
    decreases |s|
  {
    if Find(s, sep).Some? {
      var i := Find(s, sep).value;
      var rest := s[i + |sep|..];
      JoinSplit(rest, sep);
      SplitUnfold(s, sep, i);
      JoinCons(s[..i], sep, Split(rest, sep));
      Reassemble(s, i, i + |sep|);
    }
  }

  lemma SplitUnfold(s: string, sep: string, i: nat)
    requires |sep| > 0 && Find(s, sep) == Some(i)
    ensures i + |sep| <= |s|
    ensures Split(s, sep) == [s[..i]] + Split(s[i + |sep|..], sep)
  {
    assert OccursAt(s, sep, i);
  }

  lemma Reassemble(s: string, i: nat, j: nat)
    requires i <= j <= |s|
    ensures s == s[..i] + s[i..j] + s[j..]
  {
  }

  lemma JoinCons(head: string, sep: string, tail: seq<string>)
    requires |tail| >= 1
    ensures Join(sep, [head] + tail) == head + sep + Join(sep, tail)
  {
    assert ([head] + tail)[1..] == tail;
  }

  /** The text splits into a single piece exactly when it holds no separator. */
  lemma SplitSingle(s: string, sep: string)
    requires |sep| > 0
    ensures |Split(s, sep)| == 1 <==> !Contains(s, sep)
  {
    match Find(s, sep)
    case None =>
    case Some(i) =>
      assert |Split(s, sep)| == 1 + |Split(s[i + |sep|..], sep)|;
  }

  /** The first piece of a split is the text before the first separator. */
  lemma SplitHead(s: string, sep: string)
    requires |sep| > 0
    ensures Split(s, sep)[0] == match Find(s, sep) case None => s case Some(i) => s[..i]
  {
  }

  /** A piece free of the one-character separator `c` comes off the front of the split whole. */
  lemma SplitAtChar(a: string, c: char, b: string)
    requires c !in a
    ensures Split(a + [c] + b, [c]) == [a] + Split(b, [c])
  {
    var s := a + [c] + b;
    assert s == a + ([c] + b);
    assert ([c] + b)[..1] == [c];
    FindAfterFree(a, [c] + b, [c], c);
    SplitUnfold(s, [c], |a|);
    assert s[..|a|] == a && s[|a| + 1..] == b;
  }

  /** Text without the one-character separator splits into itself alone. */
  lemma SplitNoChar(s: string, c: char)
    requires c !in s
    ensures Split(s, [c]) == [s]
  {
    MissingChar(s, [c], c);
  }

  /** Pieces free of the one-character separator come back from splitting their join. */
  lemma {:induction false} SplitJoin(parts: seq<string>, c: char)
    requires |parts| >= 1 && forall i :: 0 <= i < |parts| ==> c !in parts[i]
    ensures Split(Join([c], parts), [c]) == parts
    decreases |parts|
  {
    if |parts| == 1 {
      SplitNoChar(parts[0], c);
    } else {
      var rest := parts[1..];
      assert forall i :: 0 <= i < |rest| ==> rest[i] == parts[i + 1];
      SplitJoin(rest, c);
      assert parts == [parts[0]] + rest;
      JoinCons(parts[0], [c], rest);
      SplitAtChar(parts[0], c, Join([c], rest));
    }
  }

  /** After the first separator, the remaining pieces are exactly the split of the rest. */
  lemma SplitTail(s: string, sep: string, i: nat)
    requires |sep| > 0 && Find(s, sep) == Some(i)
    ensures Split(s, sep)[1..] == Split(s[i + |sep|..], sep)
  {
    SplitUnfold(s, sep, i);
    var tail := Split(s[i + |sep|..], sep);
    assert ([s[..i]] + tail)[1..] == tail;
  }

  /** Dropping the first piece and re-joining gives the text after the first separator. */
  lemma JoinDropFirst(s: string, sep: string)
    requires |sep| > 0
    ensures Join(sep, Split(s, sep)[1..]) == match Find(s, sep) case None => "" case Some(i) => s[i + |sep|..]
  {
    match Find(s, sep)
    case None =>
      assert Split(s, sep)[1..] == [];
    case Some(i) =>
      JoinAfterFirst(s, sep, i);
  }

  lemma JoinAfterFirst(s: string, sep: string, i: nat)
    requires |sep| > 0 && Find(s, sep) == Some(i)
    ensures Join(sep, Split(s, sep)[1..]) == s[i + |sep|..]
  {
    SplitTail(s, sep, i);
    JoinSplit(s[i + |sep|..], sep);
  }

  /** The text before the first separator holds no separator. */
  lemma HeadFree(s: string, sep: string, i: nat)
    requires |sep| > 0 && Find(s, sep) == Some(i)
    ensures !Contains(s[..i], sep)
  {
    forall j: nat ensures !OccursAt(s[..i], sep, j) {
      if j + |sep| <= i {
        assert j < i;
        assert !OccursAt(s, sep, j);
        assert s[..i][j..j + |sep|] == s[j..j + |sep|];
      }
    }
  }

  /** No piece of a split contains the separator. */
  lemma {:induction false} SplitPiecesFree(s: string, sep: string)
    requires |sep| > 0
    ensures forall k :: 0 <= k < |Split(s, sep)| ==> !Contains(Split(s, sep)[k], sep)
    decreases |s|
  {
    match Find(s, sep)
    case None =>
    case Some(i) =>
      var rest := s[i + |sep|..];
      SplitPiecesFree(rest, sep);
      HeadFree(s, sep, i);
      SplitUnfold(s, sep, i);
      var parts := Split(s, sep);
      forall k | 0 <= k < |parts| ensures !Contains(parts[k], sep) {
        if k > 0 {
          assert parts[k] == Split(rest, sep)[k - 1];
        }
      }
  }

  /** Text without the one-character string `[c]` holds no `c`. */
  lemma CharFree(s: string, c: char)
    requires !Contains(s, [c])
    ensures c !in s && multiset(s)[c] == 0
  {
    forall k | 0 <= k < |s| ensures s[k] != c {
      NotContains(s, [c], k);
      assert s[k..k + 1] == [s[k]];
    }
  }

  /** Splitting on one character gives one piece more than there are occurrences of it. */
  lemma {:induction false} SplitCharCount(s: string, c: char)
    ensures |Split(s, [c])| == multiset(s)[c] + 1
    decreases |s|
  {
    match Find(s, [c])
    case None =>
      CharFree(s, c);
    case Some(i) =>
      SplitUnfold(s, [c], i);
      SplitCharCount(s[i + 1..], c);
      HeadFree(s, [c], i);
      CharFree(s[..i], c);
      assert s[i..i + 1] == [c];
      assert s == s[..i] + [c] + s[i + 1..];
  }

  /** Removing every occurrence of a one-character string leaves none of that character. */
  lemma {:induction false} RemoveCharGone(s: string, c: char)
    ensures forall k :: 0 <= k < |Replace(s, [c], "")| ==> Replace(s, [c], "")[k] != c
    decreases |s|
  {
    var parts := Split(s, [c]);
    SplitPiecesFree(s, [c]);
    JoinFree(parts, c);
  }

  lemma {:induction false} JoinFree(parts: seq<string>, c: char)
    requires forall k :: 0 <= k < |parts| ==> !Contains(parts[k], [c])
    ensures forall k :: 0 <= k < |Join("", parts)| ==> Join("", parts)[k] != c
  {
    if |parts| > 1 {
      JoinFree(parts[1..], c);
      var p := parts[0];
      forall k | 0 <= k < |p| ensures p[k] != c {
        NotContains(p, [c], k);
        assert p[k..k + 1] == [p[k]];
      }
    } else if |parts| == 1 {
      var p := parts[0];
      forall k | 0 <= k < |p| ensures p[k] != c {
        NotContains(p, [c], k);
        assert p[k..k + 1] == [p[k]];
      }
    }
  }

  /** Number of whitespace characters at the start of `s`. */
  function LeadingSpaces(s: string): (n: nat)
    ensures n <= |s|
    ensures forall i :: 0 <= i < n ==> IsSpace(s[i])
    ensures n == |s| || !IsSpace(s[n])
  {
    if |s| > 0 && IsSpace(s[0]) then 1 + LeadingSpaces(s[1..]) else 0
  }

  /** Number of whitespace characters at the end of `s`. */
  function TrailingSpaces(s: string): (n: nat)
    ensures n <= |s|
    ensures forall i :: |s| - n <= i < |s| ==> IsSpace(s[i])
    ensures n == |s| || !IsSpace(s[|s| - 1 - n])
  {
    if |s| > 0 && IsSpace(s[|s| - 1]) then 1 + TrailingSpaces(s[..|s| - 1]) else 0
  }

  /**
   * `s.strip()`: the slice of `s` from its first to its last non-space character;
   * everything cut off is whitespace.
   */
  function Strip(s: string): (r: string)
    ensures r == [] || (!IsSpace(r[0]) && !IsSpace(r[|r| - 1]))
    ensures LeadingSpaces(s) + |r| <= |s| && r == s[LeadingSpaces(s)..LeadingSpaces(s) + |r|]
    ensures forall i :: 0 <= i < |s| && !IsSpace(s[i]) ==> LeadingSpaces(s) <= i < LeadingSpaces(s) + |r|
  {
    var t := s[LeadingSpaces(s)..];
    t[..|t| - TrailingSpaces(t)]
  }

  /** Text without surrounding whitespace is its own strip. */
  lemma StripTrimmed(s: string)
    requires s == [] || (!IsSpace(s[0]) && !IsSpace(s[|s| - 1]))
    ensures Strip(s) == s
  {
  }

  lemma StripIdempotent(s: string)
    ensures Strip(Strip(s)) == Strip(s)
  {
    StripTrimmed(Strip(s));
  }

  /** Python's `str(n)` for a natural number. */
  function NatToString(n: nat): (r: string)
    ensures |r| > 0 && forall i :: 0 <= i < |r| ==> IsDigit(r[i])
    decreases n
  {
    if n < 10 then [DigitChar(n)] else NatToString(n / 10) + [DigitChar(n % 10)]
  }

  function DigitChar(d: nat): (c: char)
    requires d < 10
    ensures IsDigit(c) && c as int - '0' as int == d
  {
    ('0' as int + d) as char
  }

  /** Python's `int(ds)` for a string of ASCII digits. */
  function DigitsValue(ds: string): nat
    requires forall i :: 0 <= i < |ds| ==> IsDigit(ds[i])
  {
    if ds == [] then 0 else DigitsValue(ds[..|ds| - 1]) * 10 + DigitValue(ds[|ds| - 1])
  }

  function DigitValue(c: char): nat
    requires IsDigit(c)
  {
    c as int - '0' as int
  }

  /** `int(str(n)) == n`. */
  lemma {:induction false} NatToStringRoundTrip(n: nat)
    ensures DigitsValue(NatToString(n)) == n
    decreases n
  {
    if n >= 10 {
      NatToStringRoundTrip(n / 10);
      var r := NatToString(n);
      assert r[..|r| - 1] == NatToString(n / 10);
    }
  }

  /**
   * Stripping text made of whitespace, a part that starts and ends with a
   * non-space character, and whitespace gives that part.
   */
  lemma StripSurrounded(pre: string, mid: string, post: string)
    requires forall i :: 0 <= i < |pre| ==> IsSpace(pre[i])
    requires forall i :: 0 <= i < |post| ==> IsSpace(post[i])
    requires mid != [] && !IsSpace(mid[0]) && !IsSpace(mid[|mid| - 1])
    ensures Strip(pre + mid + post) == mid
  {
    var s := pre + mid + post;
    var n := LeadingSpaces(s);
    var r := Strip(s);
    assert s[|pre|] == mid[0];
    assert s[|pre| + |mid| - 1] == mid[|mid| - 1];
    assert n == |pre|;
    assert s[|pre|..|pre| + |mid|] == mid;
  }

  /** `t` is `s` lowered from index `i` on, checked one character at a time. */
  function LoweredFrom(s: string, t: string, i: nat): bool
    requires |s| == |t| && i <= |s|
    decreases |s| - i
  {
    i == |s| || (t[i] == LowerChar(s[i]) && LoweredFrom(s, t, i + 1))
  }

  lemma {:induction false} LoweredAll(s: string, t: string, i: nat)
    requires |s| == |t| && i <= |s| && LoweredFrom(s, t, i)
    ensures forall j :: i <= j < |s| ==> t[j] == LowerChar(s[j])
    decreases |s| - i
  {
    if i < |s| {
      LoweredAll(s, t, i + 1);
    }
  }

  /** A character-by-character check that `t` is `s.lower()`. */
  lemma LoweredIs(s: string, t: string)
    requires |s| == |t| && LoweredFrom(s, t, 0)
    ensures Lower(s) == t
  {
    LoweredAll(s, t, 0);
  }

  /** `pat[k..]` stands in `s` from index `i + k` on, checked one character at a time. */
  function MatchFrom(s: string, pat: string, i: nat, k: nat): bool
    requires k <= |pat|
    decreases |pat| - k
  {
    k == |pat| || (i + k < |s| && s[i + k] == pat[k] && MatchFrom(s, pat, i, k + 1))
  }

  lemma {:induction false} MatchFromIff(s: string, pat: string, i: nat, k: nat)
    requires k <= |pat| && i + |pat| <= |s|
    ensures MatchFrom(s, pat, i, k) <==> forall j :: k <= j < |pat| ==> s[i + j] == pat[j]
    decreases |pat| - k
  {
    if k < |pat| {
      MatchFromIff(s, pat, i, k + 1);
    }
  }

  /** The character check agrees with the slice comparison. */
  lemma MatchOccurs(s: string, pat: string, i: nat)
    requires i + |pat| <= |s|
    ensures MatchFrom(s, pat, i, 0) <==> OccursAt(s, pat, i)
  {
    MatchFromIff(s, pat, i, 0);
    var w := s[i..i + |pat|];
    assert forall j :: 0 <= j < |pat| ==> w[j] == s[i + j];
  }

  /** No start position from `j` on passes the character check. */
  function NoMatchFrom(s: string, pat: string, j: nat): bool
    decreases |s| + 1 - j
  {
    j + |pat| > |s| || (!MatchFrom(s, pat, j, 0) && NoMatchFrom(s, pat, j + 1))
  }

  lemma {:induction false} NoMatchNone(s: string, pat: string, j: nat)
    requires NoMatchFrom(s, pat, j)
    ensures forall i :: j <= i ==> !OccursAt(s, pat, i)
    decreases |s| + 1 - j
  {
    if j + |pat| <= |s| {
      MatchOccurs(s, pat, j);
      NoMatchNone(s, pat, j + 1);
    }
  }

  /** A pattern that fails the character check everywhere is not in the text. */
  lemma Absent(s: string, pat: string)
    requires NoMatchFrom(s, pat, 0)
    ensures !Contains(s, pat)
  {
    NoMatchNone(s, pat, 0);
  }

  /** A pattern that passes the character check somewhere is in the text. */
  lemma Present(s: string, pat: string, i: nat)
    requires i + |pat| <= |s| && MatchFrom(s, pat, i, 0)
    ensures Contains(s, pat)
  {
    MatchOccurs(s, pat, i);
  }

  lemma LowerAppend(a: string, b: string)
    ensures Lower(a + b) == Lower(a) + Lower(b)
  {
    var l := Lower(a) + Lower(b);
    assert forall i :: 0 <= i < |a + b| ==> Lower(a + b)[i] == l[i];
  }

  lemma ContainsAppend(a: string, b: string, pat: string)
    ensures Contains(a, pat) || Contains(b, pat) ==> Contains(a + b, pat)
  {
    var s := a + b;
    if Contains(a, pat) {
      var i := Find(a, pat).value;
      assert s[i..i + |pat|] == a[i..i + |pat|];
      ContainsAt(s, pat, i);
    } else if Contains(b, pat) {
      var i := Find(b, pat).value;
      assert s[|a| + i..|a| + i + |pat|] == b[i..i + |pat|];
      ContainsAt(s, pat, |a| + i);
    }
  }

  /**
   * An occurrence in `a + b` lies in `a`, in `b`, or in the window of
   * `|pat| - 1` characters on each side of the seam.
   */
  lemma AbsentAppend(a: string, b: string, pat: string, window: string)
    requires 0 < |pat| <= |a| + 1 && |pat| <= |b| + 1
    requires window == a[|a| - (|pat| - 1)..] + b[..|pat| - 1]
    requires !Contains(a, pat) && !Contains(b, pat) && !Contains(window, pat)
    ensures !Contains(a + b, pat)
  {
    var s := a + b;
    forall j: nat ensures !OccursAt(s, pat, j) {
      if j + |pat| <= |s| {
        if j + |pat| <= |a| {
          NotContains(a, pat, j);
          assert s[j..j + |pat|] == a[j..j + |pat|];
        } else if j >= |a| {
          NotContains(b, pat, j - |a|);
          assert s[j..j + |pat|] == b[j - |a|..j - |a| + |pat|];
        } else {
          var k := j - (|a| - (|pat| - 1));
          NotContains(window, pat, k);
          SeamSlice(a, b, |pat|, window, j);
        }
      }
    }
  }

  /** A stretch of `a + b` that crosses the seam is a stretch of the window around it. */
  lemma SeamSlice(a: string, b: string, n: nat, window: string, j: nat)
    requires 0 < n <= |a| + 1 && n <= |b| + 1
    requires window == a[|a| - (n - 1)..] + b[..n - 1]
    requires |a| - (n - 1) <= j < |a| && j + n <= |a| + |b|
    ensures (a + b)[j..j + n] == window[j - (|a| - (n - 1))..j - (|a| - (n - 1)) + n]
  {
    var m := n - 1;
    var k := j - (|a| - m);
    var here, there := (a + b)[j..j + n], window[k..k + n];
    forall i | 0 <= i < n ensures here[i] == there[i] {
      if j + i < |a| {
        assert here[i] == a[j + i];
        assert there[i] == window[k + i] == a[|a| - m + k + i];
      } else {
        assert here[i] == b[j + i - |a|];
        assert there[i] == window[k + i] == b[k + i - m];
      }
    }
  }
}
