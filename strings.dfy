/** The parts of Python's `str` that the bot relies on: whitespace stripping and
    splitting, substring search, `split(sep)`, `join`, `replace` and `lower`.
    Whitespace and case are ASCII only. */
module Strings {
  import opened Wrappers

  /** ASCII characters for which `str.isspace()` holds: tab, line feed, vertical tab,
      form feed, carriage return, the four information separators and space. */
  predicate IsSpace(c: char) {
    9 <= c as int <= 13 || 28 <= c as int <= 32
  }

  predicate NoSpace(s: string) {
    forall i :: 0 <= i < |s| ==> !IsSpace(s[i])
  }

  predicate AllSpace(s: string) {
    forall i :: 0 <= i < |s| ==> IsSpace(s[i])
  }

  // ---------------------------------------------------------------------------
  // strip

  /** `s.lstrip()`: the suffix left after dropping leading whitespace. */
  function LStrip(s: string): (r: string)
    ensures |r| <= |s| && r == s[|s| - |r|..]
    ensures r == [] || !IsSpace(r[0])
    ensures AllSpace(s[..|s| - |r|])
    decreases |s|
  {
    if |s| > 0 && IsSpace(s[0]) then
      var r := LStrip(s[1..]);
      assert s[..|s| - |r|] == [s[0]] + s[1..][..|s| - 1 - |r|];
      r
    else s
  }

  /** `s.rstrip()`: the prefix left after dropping trailing whitespace. */
  function RStrip(s: string): (r: string)
    ensures |r| <= |s| && r == s[..|r|]
    ensures r == [] || !IsSpace(r[|r| - 1])
    ensures AllSpace(s[|r|..])
    decreases |s|
  {
    if |s| > 0 && IsSpace(s[|s| - 1]) then
      var r := RStrip(s[..|s| - 1]);
      assert s[|r|..] == s[..|s| - 1][|r|..] + [s[|s| - 1]];
      r
    else s
  }

  /** `s.strip()`. */
  function Strip(s: string): string {
    RStrip(LStrip(s))
  }

  /** Stripping a string that ends in a visible character keeps that character last. */
  lemma StripKeepsLastVisible(s: string)
    requires |s| > 0 && !IsSpace(s[|s| - 1])
    ensures |Strip(s)| > 0 && Strip(s)[|Strip(s)| - 1] == s[|s| - 1]
  {
    var l := LStrip(s);
    LStripDropsOnlySpace(s);
    assert |l| > 0;
    assert l[|l| - 1] == s[|s| - 1];
    assert RStrip(l) == l;
  }

  /** Every character that `lstrip` drops is whitespace. */
  lemma LStripDropsOnlySpace(s: string)
    ensures forall i :: 0 <= i < |s| - |LStrip(s)| ==> IsSpace(s[i])
  {
    var n := |s| - |LStrip(s)|;
    forall i | 0 <= i < n ensures IsSpace(s[i]) {
      assert s[..n][i] == s[i];
    }
  }

  /** A string strips to nothing exactly when it is all whitespace. */
  lemma StripEmptyIffAllSpace(s: string)
    ensures Strip(s) == [] <==> AllSpace(s)
  {
    var l := LStrip(s);
    LStripDropsOnlySpace(s);
    assert l[0..] == l;
  }

  // ---------------------------------------------------------------------------
  // visible characters

  /** The characters of `s` that are not whitespace, in order. */
  function Visible(s: string): string
    decreases |s|
  {
    if s == [] then [] else (if IsSpace(s[0]) then [] else [s[0]]) + Visible(s[1..])
  }

  lemma {:induction false} VisibleConcat(a: string, b: string)
    ensures Visible(a + b) == Visible(a) + Visible(b)
    decreases |a|
  {
    if a != [] {
      assert (a + b)[1..] == a[1..] + b;
      VisibleConcat(a[1..], b);
    } else {
      assert a + b == b;
    }
  }

  lemma {:induction false} VisibleAllSpace(s: string)
    requires AllSpace(s)
    ensures Visible(s) == []
    decreases |s|
  {
    if s != [] {
      VisibleAllSpace(s[1..]);
    }
  }

  lemma VisibleLStrip(s: string)
    ensures Visible(LStrip(s)) == Visible(s)
  {
    var l := LStrip(s);
    assert s == s[..|s| - |l|] + l;
    VisibleConcat(s[..|s| - |l|], l);
    VisibleAllSpace(s[..|s| - |l|]);
  }

  lemma VisibleRStrip(s: string)
    ensures Visible(RStrip(s)) == Visible(s)
  {
    var r := RStrip(s);
    assert s == r + s[|r|..];
    VisibleConcat(r, s[|r|..]);
    VisibleAllSpace(s[|r|..]);
  }

  /** The strings of `parts` run together (`"".join(parts)`). */
  function Concat(parts: seq<string>): string
    decreases |parts|
  {
    if parts == [] then [] else parts[0] + Concat(parts[1..])
  }

  // ---------------------------------------------------------------------------
  // str.split() with no separator

  /** Length of the run of non-whitespace characters that opens `t`. */
  function WordLen(t: string): (n: nat)
    ensures n <= |t|
    ensures NoSpace(t[..n])
    ensures n < |t| ==> IsSpace(t[n])
    decreases |t|
  {
    if t == [] || IsSpace(t[0]) then 0 else 1 + WordLen(t[1..])
  }

  /** `s.split()`: the maximal runs of non-whitespace characters, in order. */
  function Words(s: string): (ws: seq<string>)
    ensures forall k :: 0 <= k < |ws| ==> |ws[k]| > 0 && NoSpace(ws[k])
    decreases |s|
  {
    var t := LStrip(s);
    if t == [] then []
    else
      var n := WordLen(t);
      var rest := Words(t[n..]);
      ConsWords(t[..n], rest);
      [t[..n]] + rest
  }

  /** A word in front of words gives words. */
  lemma ConsWords(w: string, ws: seq<string>)
    requires |w| > 0 && NoSpace(w)
    requires forall k :: 0 <= k < |ws| ==> |ws[k]| > 0 && NoSpace(ws[k])
    ensures forall k :: 0 <= k < 1 + |ws| ==> |([w] + ws)[k]| > 0 && NoSpace(([w] + ws)[k])
  {
    forall k | 0 <= k < 1 + |ws| ensures ([w] + ws)[k] == if k == 0 then w else ws[k - 1] {
    }
  }

  // ---------------------------------------------------------------------------
  // substring search

  /** `t` occurs in `s` starting at index `i`. */
  predicate OccursAt(s: string, t: string, i: nat) {
    i + |t| <= |s| && s[i..i + |t|] == t
  }

  /** The `j`-th character of an occurrence is the `j`-th character of what occurs. */
  lemma OccursAtIndex(s: string, t: string, p: nat, j: nat)
    requires OccursAt(s, t, p) && j < |t|
    ensures p + j < |s| && s[p + j] == t[j]
  {
    assert s[p..p + |t|][j] == s[p + j];
  }

  /** `t in s`. */
  predicate Contains(s: string, t: string) {
    exists i: nat :: i <= |s| && OccursAt(s, t, i)
  }

  predicate StartsWith(s: string, p: string) {
    |p| <= |s| && s[..|p|] == p
  }

  predicate EndsWith(s: string, p: string) {
    |p| <= |s| && s[|s| - |p|..] == p
  }

  /** `s.find(t, i)` as an option: the first occurrence of `t` at or after `i`. */
  function FindFrom(s: string, t: string, i: nat): (r: Option<nat>)
    ensures r.Some? ==> i <= r.value && OccursAt(s, t, r.value)
    ensures r.Some? ==> forall k: nat :: i <= k < r.value ==> !OccursAt(s, t, k)
    ensures r.None? ==> forall k: nat :: i <= k ==> !OccursAt(s, t, k)
    decreases |s| - i
  {
    if i + |t| > |s| then None
    else if OccursAt(s, t, i) then Some(i)
    else FindFrom(s, t, i + 1)
  }

  /** The last occurrence of `t` starting at or before `j`, or -1. */
  function RFindAtOrBefore(s: string, t: string, j: int): (r: int)
    ensures -1 <= r && (r >= 0 ==> r <= j)
    ensures r >= 0 ==> OccursAt(s, t, r)
    ensures forall k: nat :: r < k <= j ==> !OccursAt(s, t, k)
    decreases if j < 0 then 0 else j + 1
  {
    if j < 0 then -1
    else if OccursAt(s, t, j) then j
    else RFindAtOrBefore(s, t, j - 1)
  }

  /** `s.rfind(t, 0, end)`: the last occurrence of `t` lying inside `s[:end]`, or -1. */
  function RFind(s: string, t: string, end: nat): (r: int)
    ensures -1 <= r
    ensures r >= 0 ==> OccursAt(s, t, r) && r + |t| <= end
    ensures forall k: nat :: r < k && k + |t| <= end ==> !OccursAt(s, t, k)
  {
    RFindAtOrBefore(s, t, Min(end, |s|) - |t|)
  }

  // ---------------------------------------------------------------------------
  // split(sep) and join

  /** `s.split(sep)` for a non-empty separator. */
  function Split(s: string, sep: string): (parts: seq<string>)
    requires |sep| > 0
    ensures |parts| >= 1
    decreases |s|
  {
    match FindFrom(s, sep, 0)
    case None => [s]
    case Some(i) => [s[..i]] + Split(s[i + |sep|..], sep)
  }

  /** `sep.join(parts)`. */
  function Join(sep: string, parts: seq<string>): string
    decreases |parts|
  {
    if |parts| == 0 then ""
    else if |parts| == 1 then parts[0]
    else parts[0] + sep + Join(sep, parts[1..])
  }

  /** Joining the pieces of a split with the same separator gives the string back. */
  lemma {:induction false} JoinSplit(s: string, sep: string)
    requires |sep| > 0
    ensures Join(sep, Split(s, sep)) == s
    decreases |s|
  {
    match FindFrom(s, sep, 0)
    case None =>
    case Some(i) =>
      var rest := s[i + |sep|..];
      JoinSplit(rest, sep);
      JoinCons(sep, s[..i], Split(rest, sep));
      SliceThree(s, i, i + |sep|);
  }

  lemma SliceThree(s: string, i: nat, j: nat)
    requires i <= j <= |s|
    ensures s == s[..i] + s[i..j] + s[j..]
  {
  }

  lemma JoinCons(sep: string, head: string, tail: seq<string>)
    requires |tail| >= 1
    ensures Join(sep, [head] + tail) == head + sep + Join(sep, tail)
  {
    assert ([head] + tail)[1..] == tail;
  }

  /** Searching from the end of `x` skips `y` when `y` holds no first character of `t`. */
  lemma FindFromPast(x: string, y: string, t: string, z: string)
    requires |t| > 0 && forall k :: 0 <= k < |y| ==> y[k] != t[0]
    ensures FindFrom(x + y + t + z, t, |x|) == Some(|x| + |y|)
  {
    var s := x + y + t + z;
    assert s[|x| + |y|..|x| + |y| + |t|] == t;
    forall k | |x| <= k < |x| + |y| ensures s[k] != t[0] {
      assert s[k] == y[k - |x|];
    }
    FindFromFirst(s, t, |x|, |x| + |y|);
  }

  /** Where the first character of `t` does not appear between `i` and an occurrence at `p`,
      the search from `i` finds `p`. */
  lemma FindFromFirst(s: string, t: string, i: nat, p: nat)
    requires |t| > 0 && i <= p && OccursAt(s, t, p)
    requires forall k :: i <= k < p ==> s[k] != t[0]
    ensures FindFrom(s, t, i) == Some(p)
  {
    forall k: nat | i <= k < p ensures !OccursAt(s, t, k) {
      if k + |t| <= |s| {
        assert s[k..k + |t|][0] == s[k];
      }
    }
  }

  /** Splitting a join on a one-character separator that no part contains gives the parts
      back. */
  lemma {:induction false} SplitJoin(parts: seq<string>, c: char)
    requires |parts| >= 1
    requires forall k, j :: 0 <= k < |parts| && 0 <= j < |parts[k]| ==> parts[k][j] != c
    ensures Split(Join([c], parts), [c]) == parts
    decreases |parts|
  {
    if |parts| > 1 {
      var head, rest := parts[0], Join([c], parts[1..]);
      var s := Join([c], parts);
      assert s == head + [c] + rest;
      assert OccursAt(s, [c], |head|) by {
        assert s[|head|..|head| + 1] == [c];
      }
      forall k | 0 <= k < |head| ensures s[k] != c {
        assert s[k] == head[k];
      }
      FindFromFirst(s, [c], 0, |head|);
      assert s[..|head|] == head;
      assert s[|head| + 1..] == rest;
      SplitJoin(parts[1..], c);
    } else {
      var s := parts[0];
      assert Join([c], parts) == s;
      forall k: nat ensures !OccursAt(s, [c], k) {
        if k + 1 <= |s| {
          assert s[k..k + 1][0] == s[k];
        }
      }
    }
  }

  /** A string in which `sep` does not occur. */
  ghost predicate Free(s: string, sep: string) {
    forall k: nat :: !OccursAt(s, sep, k)
  }

  lemma FreeNotContains(s: string, sep: string)
    requires Free(s, sep)
    ensures !Contains(s, sep)
  {
  }

  /** No piece of a split contains the separator. */
  lemma {:induction false} SplitPiecesFree(s: string, sep: string)
    requires |sep| > 0
    ensures forall k :: 0 <= k < |Split(s, sep)| ==> Free(Split(s, sep)[k], sep)
    decreases |s|
  {
    match FindFrom(s, sep, 0)
    case None =>
    case Some(i) =>
      var rest := s[i + |sep|..];
      SplitPiecesFree(rest, sep);
      forall k: nat ensures !OccursAt(s[..i], sep, k) {
        if k + |sep| <= i {
          assert s[..i][k..k + |sep|] == s[k..k + |sep|];
          assert !OccursAt(s, sep, k);
        }
      }
  }

  /** The first piece of a split opens the string. */
  lemma SplitFirstIsPrefix(s: string, sep: string)
    requires |sep| > 0
    ensures StartsWith(s, Split(s, sep)[0])
  {
  }

  /** A prefix of a string in which `t` does not occur is free of `t` too. */
  lemma PrefixFree(s: string, p: string, t: string)
    requires StartsWith(s, p) && Free(s, t)
    ensures Free(p, t)
  {
    forall k: nat ensures !OccursAt(p, t, k) {
      if k + |t| <= |p| {
        assert p[k..k + |t|] == s[k..k + |t|];
        assert !OccursAt(s, t, k);
      }
    }
  }

  predicate NoChar(s: string, c: char) {
    forall k :: 0 <= k < |s| ==> s[k] != c
  }

  /** A string in which the separator does not occur splits into itself. */
  lemma SplitFree(s: string, sep: string)
    requires |sep| > 0 && Free(s, sep)
    ensures Split(s, sep) == [s]
  {
  }

  /** The split cuts first at the first occurrence of the separator. */
  lemma SplitAtFirst(s: string, sep: string, i: nat)
    requires |sep| > 0 && OccursAt(s, sep, i)
    requires forall k :: 0 <= k < i ==> s[k] != sep[0]
    ensures Split(s, sep) == [s[..i]] + Split(s[i + |sep|..], sep)
  {
    FindFromFirst(s, sep, 0, i);
  }

  /** A string in which the character does not occur splits into itself. */
  lemma SplitFreeOfChar(s: string, c: char)
    requires NoChar(s, c)
    ensures Split(s, [c]) == [s]
  {
    forall k: nat ensures !OccursAt(s, [c], k) {
      if k + 1 <= |s| {
        assert s[k..k + 1][0] == s[k];
      }
    }
  }

  // ---------------------------------------------------------------------------
  // replace and lower

  /** `s.replace(pat, rep)`: every non-overlapping occurrence, scanning from the left. */
  function Replace(s: string, pat: string, rep: string): string
    requires |pat| > 0
    decreases |s|
  {
    if s == [] then []
    else if StartsWith(s, pat) then rep + Replace(s[|pat|..], pat, rep)
    else [s[0]] + Replace(s[1..], pat, rep)
  }

  function LowerChar(c: char): char {
    if 'A' <= c <= 'Z' then (c as int + 32) as char else c
  }

  /** `s.lower()` on ASCII letters. */
  function Lower(s: string): (r: string)
    ensures |r| == |s|
    decreases |s|
  {
    if s == [] then [] else [LowerChar(s[0])] + Lower(s[1..])
  }

  // ---------------------------------------------------------------------------
  // map

  /** `f` applied to each element, in order. */
  function Map<T, U>(f: T -> U, xs: seq<T>): (ys: seq<U>)
    ensures |ys| == |xs|
    decreases |xs|
  {
    if xs == [] then [] else [f(xs[0])] + Map(f, xs[1..])
  }

  /** Element `k` of the image is the image of element `k`. */
  lemma {:induction false} MapAt<T, U>(f: T -> U, xs: seq<T>, k: nat)
    requires k < |xs|
    ensures Map(f, xs)[k] == f(xs[k])
    decreases |xs|
  {
    if k > 0 {
      MapAt(f, xs[1..], k - 1);
    }
  }

  /** Mapping one more element appends its image. */
  lemma {:induction false} MapAppend<T, U>(f: T -> U, xs: seq<T>, x: T)
    ensures Map(f, xs + [x]) == Map(f, xs) + [f(x)]
    decreases |xs|
  {
    if xs == [] {
      assert xs + [x] == [x];
    } else {
      assert (xs + [x])[1..] == xs[1..] + [x];
      MapAppend(f, xs[1..], x);
    }
  }

  lemma MapSnoc<T, U>(f: T -> U, xs: seq<T>, i: nat)
    requires i < |xs|
    ensures Map(f, xs[..i + 1]) == Map(f, xs[..i]) + [f(xs[i])]
  {
    assert xs[..i + 1] == xs[..i] + [xs[i]];
    MapAppend(f, xs[..i], xs[i]);
  }
}
