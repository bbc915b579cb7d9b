/** The ordinal `System.String` operations the generator edits its text files with.

    The searches that edit text are ordinal (`String.Contains(string)`,
    `IndexOf(…, StringComparison.Ordinal)`, `LastIndexOf(…, StringComparison.Ordinal)`,
    `Replace(string, string)`), so a string is a plain `seq<char>` and equality is
    character by character. The two file-name prefix tests of the boilerplate filter
    use the culture-sensitive `StartsWith(string)`; they are modelled with the same
    ordinal prefix test. A Dafny `char` is a Unicode scalar value, not a UTF-16 code
    unit; no text here holds characters outside the Basic Multilingual Plane. */
module Text {

  /** `t` occurs in `s` starting at index `i`. */
  predicate OccursAt(s: string, t: string, i: int) {
    0 <= i && i + |t| <= |s| && s[i..i + |t|] == t
  }

  /** `s.Contains(t)`. */
  predicate Contains(s: string, t: string) {
    exists i :: 0 <= i <= |s| - |t| && OccursAt(s, t, i)
  }

  /** `s.StartsWith(p)`, compared ordinally. */
  predicate StartsWith(s: string, p: string) {
    |p| <= |s| && s[..|p|] == p
  }

  /** A prefix of `p` is a prefix of anything that starts with `p`. */
  lemma StartsWithConcat(p: string, u: string, q: string)
    requires StartsWith(p, q)
    ensures StartsWith(p + u, q)
  {
    assert (p + u)[..|q|] == p[..|q|];
  }

  /** A suffix of `s` stays a suffix when text is put in front of `s`. */
  lemma EndsWithPrepend(pre: string, s: string, u: string)
    requires EndsWith(s, u)
    ensures EndsWith(pre + s, u)
  {
    assert (pre + s)[|pre + s| - |u|..] == s[|s| - |u|..];
  }

  /** `s.EndsWith(p)`, compared ordinally. */
  predicate EndsWith(s: string, p: string) {
    |p| <= |s| && s[|s| - |p|..] == p
  }

  /** `s.IndexOf(t, from, StringComparison.Ordinal)`: the first occurrence at or after `from`, or -1. */
  function IndexOfFrom(s: string, t: string, from: nat): (r: int)
    requires from <= |s|
    ensures r == -1 || (from <= r && OccursAt(s, t, r))
    ensures r != -1 ==> forall j :: from <= j < r ==> !OccursAt(s, t, j)
    ensures r == -1 ==> forall j :: from <= j ==> !OccursAt(s, t, j)
    decreases |s| - from
  {
    if OccursAt(s, t, from) then from
    else if from == |s| then -1
    else IndexOfFrom(s, t, from + 1)
  }

  /** `s.IndexOf(t, StringComparison.Ordinal)`. */
  function IndexOf(s: string, t: string): (r: int)
    ensures r == -1 <==> !Contains(s, t)
    ensures r != -1 ==> OccursAt(s, t, r) && forall j :: 0 <= j < r ==> !OccursAt(s, t, j)
  {
    var r := IndexOfFrom(s, t, 0);
    assert r != -1 ==> OccursAt(s, t, r);
    r
  }

  /** When `t` starts right after `pre` and `pre` never holds `t`'s first character,
      the first occurrence of `t` is right after `pre`. */
  lemma IndexOfAfterPrefix(pre: string, rest: string, t: string)
    requires |t| > 0 && StartsWith(rest, t)
    requires forall k :: 0 <= k < |pre| ==> pre[k] != t[0]
    ensures IndexOf(pre + rest, t) == |pre|
  {
    var s := pre + rest;
    forall j | 0 <= j < |pre| ensures !OccursAt(s, t, j) {
      assert s[j] == pre[j];
    }
    assert s[|pre|..|pre| + |t|] == rest[..|t|];
    assert OccursAt(s, t, |pre|);
  }

  /** The last occurrence of `t` starting at an index no greater than `i`, or -1. */
  function LastIndexOfUpTo(s: string, t: string, i: int): (r: int)
    ensures r == -1 || (0 <= r <= i && OccursAt(s, t, r))
    ensures r != -1 ==> forall j :: r < j <= i ==> !OccursAt(s, t, j)
    ensures r == -1 ==> forall j :: j <= i ==> !OccursAt(s, t, j)
    decreases i + 1
  {
    if i < 0 then -1
    else if OccursAt(s, t, i) then i
    else LastIndexOfUpTo(s, t, i - 1)
  }

  /** `s.LastIndexOf(t, StringComparison.Ordinal)`. */
  function LastIndexOf(s: string, t: string): (r: int)
    ensures r == -1 <==> !Contains(s, t)
    ensures r != -1 ==> OccursAt(s, t, r) && forall j :: r < j ==> !OccursAt(s, t, j)
  {
    if |t| > |s| then -1 else LastIndexOfUpTo(s, t, |s| - |t|)
  }

  /** `s.Insert(i, x)`; .NET throws when `i` is outside `0..s.Length`. */
  function Insert(s: string, i: nat, x: string): string
    requires i <= |s|
  {
    s[..i] + x + s[i..]
  }

  /** `s.Replace(a, b)`: every non-overlapping occurrence of `a`, scanning left to right,
      is replaced by `b`; the replacement text is not scanned again.
      .NET throws on an empty `a`; every caller passes a non-empty literal. */
  function Replace(s: string, a: string, b: string): string
    requires |a| > 0
    decreases |s|
  {
    if |s| < |a| then s
    else if s[..|a|] == a then b + Replace(s[|a|..], a, b)
    else [s[0]] + Replace(s[1..], a, b)
  }

  /** `s.Replace('\\', '/')`. */
  function NormalizeSeparators(s: string): (r: string)
    ensures |r| == |s|
    ensures forall i :: 0 <= i < |s| ==> r[i] == (if s[i] == '\\' then '/' else s[i])
  {
    seq(|s|, i requires 0 <= i < |s| => if s[i] == '\\' then '/' else s[i])
  }

  /** `string.Join(sep, xs)`. */
  function Join(sep: string, xs: seq<string>): string
    decreases |xs|
  {
    if |xs| == 0 then ""
    else if |xs| == 1 then xs[0]
    else xs[0] + sep + Join(sep, xs[1..])
  }

  /** Every element of `xs` is a substring of the joined text. */
  lemma {:induction false} JoinContainsElement(sep: string, xs: seq<string>, k: nat)
    requires k < |xs|
    ensures Contains(Join(sep, xs), xs[k])
    decreases |xs|
  {
    if |xs| == 1 {
      assert OccursAt(Join(sep, xs), xs[k], 0);
    } else if k == 0 {
      assert OccursAt(Join(sep, xs), xs[0], 0);
    } else {
      JoinContainsElement(sep, xs[1..], k - 1);
      var w :| 0 <= w <= |Join(sep, xs[1..])| - |xs[1..][k - 1]| && OccursAt(Join(sep, xs[1..]), xs[1..][k - 1], w);
      var j := Join(sep, xs);
      assert j == xs[0] + sep + Join(sep, xs[1..]);
      assert j[|xs[0] + sep| + w..|xs[0] + sep| + w + |xs[k]|] == Join(sep, xs[1..])[w..w + |xs[k]|];
      assert OccursAt(j, xs[k], |xs[0] + sep| + w);
    }
  }

  /** A joined list starts with its first element. */
  lemma JoinStartsWithHead(sep: string, xs: seq<string>)
    requires |xs| > 0
    ensures StartsWith(Join(sep, xs), xs[0])
  {
    if |xs| > 1 {
      assert Join(sep, xs) == xs[0] + (sep + Join(sep, xs[1..]));
    }
  }

  /** Two neighbouring elements appear in the joined text with the separator between them. */
  lemma {:induction false} JoinContainsPair(sep: string, xs: seq<string>, k: nat)
    requires k + 1 < |xs|
    ensures Contains(Join(sep, xs), xs[k] + sep + xs[k + 1])
    decreases |xs|
  {
    var rest := Join(sep, xs[1..]);
    assert Join(sep, xs) == xs[0] + sep + rest;
    if k == 0 {
      JoinStartsWithHead(sep, xs[1..]);
      var t := xs[0] + sep + xs[1];
      assert rest == xs[1] + rest[|xs[1]|..];
      assert Join(sep, xs) == t + rest[|xs[1]|..];
      assert OccursAt(Join(sep, xs), t, 0);
    } else {
      JoinContainsPair(sep, xs[1..], k - 1);
      assert xs[1..][k - 1] == xs[k] && xs[1..][k] == xs[k + 1];
      ContainsPrepends(xs[0] + sep, rest, xs[k] + sep + xs[k + 1]);
    }
  }

  /** `c` occurs nowhere in `s`. */
  predicate Lacks(s: string, c: char) {
    forall k :: 0 <= k < |s| ==> s[k] != c
  }

  lemma LacksConcat(a: string, b: string, c: char)
    requires Lacks(a, c) && Lacks(b, c)
    ensures Lacks(a + b, c)
  {
    forall k | 0 <= k < |a + b| ensures (a + b)[k] != c {
      if k >= |a| {
        assert (a + b)[k] == b[k - |a|];
      }
    }
  }

  /** A joined text lacks every character its separator and its elements lack. */
  lemma {:induction false} JoinLacks(sep: string, xs: seq<string>, c: char)
    requires Lacks(sep, c) && forall k :: 0 <= k < |xs| ==> Lacks(xs[k], c)
    ensures Lacks(Join(sep, xs), c)
    decreases |xs|
  {
    if |xs| > 1 {
      JoinLacks(sep, xs[1..], c);
      LacksConcat(xs[0], sep, c);
      LacksConcat(xs[0] + sep, Join(sep, xs[1..]), c);
    }
  }

  /** Inserting a text cannot create an occurrence of `a` when the inserted text holds
      no copy of `a`'s first character and `a` holds no copy of the inserted text's
      first character after its own first. */
  lemma InsertCreatesNoOccurrence(s: string, q: nat, x: string, a: string)
    requires q <= |s| && |x| > 0 && |a| > 0 && !Contains(s, a)
    requires Lacks(x, a[0]) && forall k :: 1 <= k < |a| ==> a[k] != x[0]
    ensures !Contains(Insert(s, q, x), a)
  {
    var r := Insert(s, q, x);
    InsertLayout(s, q, x);
    forall p | 0 <= p <= |r| - |a| ensures !OccursAt(r, a, p) {
      if p + |a| <= q {
        assert r[p..p + |a|] == s[p..p + |a|];
        assert !OccursAt(s, a, p);
      } else if p < q {
        assert r[q] == x[0] && r[p..p + |a|][q - p] == r[q];
      } else if p < q + |x| {
        assert r[p] == x[p - q] && r[p..p + |a|][0] == r[p];
      } else {
        assert r[p..p + |a|] == s[p - |x|..p - |x| + |a|];
        assert !OccursAt(s, a, p - |x|);
      }
    }
  }

  /** Where each character of an inserted text comes from. */
  lemma InsertLayout(s: string, q: nat, x: string)
    requires q <= |s|
    ensures |Insert(s, q, x)| == |s| + |x|
    ensures forall k :: 0 <= k < q ==> Insert(s, q, x)[k] == s[k]
    ensures forall k :: q <= k < q + |x| ==> Insert(s, q, x)[k] == x[k - q]
    ensures forall k :: q + |x| <= k < |s| + |x| ==> Insert(s, q, x)[k] == s[k - |x|]
  {
  }

  /** An occurrence of `a` cannot start inside an occurrence of a text it is not
      anchored in. */
  lemma OccurrencesApart(s: string, a: string, q: nat, t: string, i: nat)
    requires OccursAt(s, a, q) && OccursAt(s, t, i) && Unanchored(t, a) && i <= q
    ensures i + |t| <= q
  {
    forall j | 0 <= j < |a| && q + j < i + |t| ensures t[q - i + j] == a[j] {
      assert s[q + j] == a[j];
      assert s[i + (q - i + j)] == t[q - i + j];
    }
    assert q - i < |t| ==> DisagreesFrom(t, a, q - i);
  }

  /** A substring of a part is a substring of any text that has the part inside it. */
  lemma ContainsInside(pre: string, mid: string, post: string, t: string)
    requires Contains(mid, t)
    ensures Contains(pre + mid + post, t)
  {
    var w :| 0 <= w <= |mid| - |t| && OccursAt(mid, t, w);
    var s := pre + mid + post;
    assert s[|pre| + w..|pre| + w + |t|] == mid[w..w + |t|];
    assert OccursAt(s, t, |pre| + w);
  }

  /** Every text contains itself. */
  lemma ContainsSelf(t: string)
    ensures Contains(t, t)
  {
    assert OccursAt(t, t, 0);
  }

  /** Appending text keeps every substring. */
  lemma ContainsExtends(s: string, u: string, t: string)
    requires Contains(s, t)
    ensures Contains(s + u, t)
  {
    var i :| 0 <= i <= |s| - |t| && OccursAt(s, t, i);
    assert (s + u)[i..i + |t|] == s[i..i + |t|];
    assert OccursAt(s + u, t, i);
  }

  /** Text put in front keeps every occurrence. */
  lemma ContainsPrepends(pre: string, s: string, t: string)
    requires Contains(s, t)
    ensures Contains(pre + s, t)
  {
    var i :| 0 <= i <= |s| - |t| && OccursAt(s, t, i);
    assert (pre + s)[|pre| + i..|pre| + i + |t|] == s[i..i + |t|];
    assert OccursAt(pre + s, t, |pre| + i);
  }

  /** Occurrence is transitive: a substring of a substring is a substring. */
  lemma ContainsTrans(s: string, m: string, t: string)
    requires Contains(s, m) && Contains(m, t)
    ensures Contains(s, t)
  {
    var i :| 0 <= i <= |s| - |m| && OccursAt(s, m, i);
    var j :| 0 <= j <= |m| - |t| && OccursAt(m, t, j);
    assert forall k :: 0 <= k < |m| ==> s[i + k] == m[k];
    assert forall k :: 0 <= k < |t| ==> m[j + k] == t[k];
    assert s[i + j..i + j + |t|] == t;
    assert OccursAt(s, t, i + j);
  }

  // ---------------------------------------------------------------------------
  // What String.Replace does to the text it scans.
  // ---------------------------------------------------------------------------

  /** Without an occurrence of `a`, Replace returns the text unchanged. */
  lemma {:induction false} ReplaceAbsent(s: string, a: string, b: string)
    requires |a| > 0 && !Contains(s, a)
    ensures Replace(s, a, b) == s
    decreases |s|
  {
    if |s| >= |a| {
      assert !OccursAt(s, a, 0);
      forall i ensures !OccursAt(s[1..], a, i) {
        if OccursAt(s[1..], a, i) {
          assert s[i + 1..i + 1 + |a|] == s[1..][i..i + |a|];
          assert OccursAt(s, a, i + 1);
        }
      }
      ReplaceAbsent(s[1..], a, b);
    }
  }

  /** When `a` occurs, the replacement text `b` occurs in the result. */
  lemma {:induction false} ReplaceInserts(s: string, a: string, b: string)
    requires |a| > 0 && Contains(s, a)
    ensures Contains(Replace(s, a, b), b)
    decreases |s|
  {
    var i :| 0 <= i <= |s| - |a| && OccursAt(s, a, i);
    if s[..|a|] == a {
      assert OccursAt(Replace(s, a, b), b, 0);
    } else {
      assert i != 0;
      assert s[1..][i - 1..i - 1 + |a|] == s[i..i + |a|];
      assert OccursAt(s[1..], a, i - 1);
      ReplaceInserts(s[1..], a, b);
      ContainsInside([s[0]], Replace(s[1..], a, b), "", b);
      assert [s[0]] + Replace(s[1..], a, b) + "" == Replace(s, a, b);
    }
  }

  /** A prefix in which `a` starts nowhere passes through Replace unchanged. */
  lemma {:induction false} ReplaceKeepsCleanPrefix(s: string, a: string, b: string, m: nat)
    requires |a| > 0 && m <= |s|
    requires forall p :: 0 <= p < m ==> !OccursAt(s, a, p)
    ensures Replace(s, a, b) == s[..m] + Replace(s[m..], a, b)
    decreases m
  {
    if m > 0 {
      if |s| < |a| {
        assert Replace(s[m..], a, b) == s[m..];
        assert s == s[..m] + s[m..];
      } else {
        assert !OccursAt(s, a, 0);
        assert s[..|a|] != a;
        forall p | 0 <= p < m - 1 ensures !OccursAt(s[1..], a, p) {
          if OccursAt(s[1..], a, p) {
            assert s[p + 1..p + 1 + |a|] == s[1..][p..p + |a|];
            assert OccursAt(s, a, p + 1);
          }
        }
        ReplaceKeepsCleanPrefix(s[1..], a, b, m - 1);
        assert s[1..][m - 1..] == s[m..];
        assert [s[0]] + s[1..][..m - 1] == s[..m];
      }
    }
  }

  /** Replace copies the text up to the first occurrence of `a`, writes `b` for it
      and carries on after it. */
  lemma ReplaceAtFirst(s: string, a: string, b: string)
    requires |a| > 0 && Contains(s, a)
    ensures var m := IndexOf(s, a);
      0 <= m && m + |a| <= |s| && Replace(s, a, b) == s[..m] + (b + Replace(s[m + |a|..], a, b))
  {
    var m := IndexOf(s, a);
    ReplaceKeepsCleanPrefix(s, a, b, m);
    assert s[m..][..|a|] == a && s[m..][|a|..] == s[m + |a|..];
  }

  /** What a prefix or a suffix of `s` contains, `s` contains. */
  lemma ContainsInSlices(s: string, m: nat, k: nat, t: string)
    requires m <= |s| && k <= |s|
    ensures Contains(s[..m], t) ==> Contains(s, t)
    ensures Contains(s[k..], t) ==> Contains(s, t)
  {
    if Contains(s[..m], t) {
      ContainsExtends(s[..m], s[m..], t);
      assert s[..m] + s[m..] == s;
    }
    if Contains(s[k..], t) {
      ContainsPrepends(s[..k], s[k..], t);
      assert s[..k] + s[k..] == s;
    }
  }

  /** An occurrence that ends inside the front part of a text is an occurrence in
      that part. */
  lemma OccursInFront(pre: string, u: string, t: string, i: nat)
    requires OccursAt(pre + u, t, i)
    ensures i + |t| <= |pre| ==> OccursAt(pre, t, i)
  {
    if i + |t| <= |pre| {
      assert (pre + u)[i..i + |t|] == pre[i..i + |t|];
    }
  }

  /** An occurrence of `t` that Replace creates, when no occurrence can start in the
      text in front of a copy of `b`, starts inside a copy of `b`. */
  lemma {:induction false} ReplaceNewOccurrence(s: string, a: string, b: string, t: string)
    requires |a| > 0 && !Contains(s, t) && Contains(Replace(s, a, b), t)
    requires forall pre, tail, i :: !Contains(pre, t) && OccursAt(pre + (b + tail), t, i) ==> |pre| <= i
    ensures exists tail, j :: 0 <= j < |b| && OccursAt(b + tail, t, j)
    decreases |s|
  {
    if !Contains(s, a) {
      ReplaceAbsent(s, a, b);
      assert false;
    }
    ReplaceAtFirst(s, a, b);
    var m := IndexOf(s, a);
    var rest := s[m + |a|..];
    var tail := Replace(rest, a, b);
    var i :| 0 <= i <= |Replace(s, a, b)| - |t| && OccursAt(s[..m] + (b + tail), t, i);
    ContainsInSlices(s, m, m + |a|, t);
    OccurrenceAfterFront(s[..m], b, tail, t, i);
    if i >= m + |b| {
      ReplaceNewOccurrence(rest, a, b, t);
    }
  }

  /** An occurrence that does not start in the front part starts in the middle part
      or wholly inside the last. */
  lemma OccurrenceAfterFront(pre: string, b: string, tail: string, t: string, i: nat)
    requires OccursAt(pre + (b + tail), t, i) && |pre| <= i
    ensures i < |pre| + |b| ==> OccursAt(b + tail, t, i - |pre|)
    ensures |pre| + |b| <= i ==> OccursAt(tail, t, i - |pre| - |b|)
  {
    var r := pre + (b + tail);
    assert (b + tail)[i - |pre|..i - |pre| + |t|] == r[i..i + |t|];
    if |pre| + |b| <= i {
      assert tail[i - |pre| - |b|..i - |pre| - |b| + |t|] == r[i..i + |t|];
    }
  }

  /** `t` and `a` cannot overlap unless `a` lies wholly inside `t`, and it never
      does: no character of `a` after its first is `t`'s first, and at every position
      of `t` the text disagrees with `a` before either runs out. */
  predicate Unanchored(t: string, a: string) {
    && |t| > 0 && |a| > 0
    && (forall k :: 1 <= k < |a| ==> a[k] != t[0])
    && (forall p :: 0 <= p < |t| ==> DisagreesFrom(t, a, p))
  }

  /** From position `p` on, `t` differs from `a` before either of them runs out. */
  predicate DisagreesFrom(t: string, a: string, p: nat) {
    exists j :: 0 <= j < |a| && p + j < |t| && t[p + j] != a[j]
  }

  /** The common case: the first characters of `t` and `a` occur nowhere else in the
      other, and the two disagree somewhere in their common prefix. */
  lemma UnanchoredByFirstCharacters(t: string, a: string, j0: nat)
    requires |t| > 0 && |a| > 0
    requires forall k :: 1 <= k < |a| ==> a[k] != t[0]
    requires forall k :: 1 <= k < |t| ==> t[k] != a[0]
    requires j0 < |t| && j0 < |a| && t[j0] != a[j0]
    ensures Unanchored(t, a)
  {
    forall p | 0 <= p < |t| ensures DisagreesFrom(t, a, p) {
      if p == 0 {
        assert t[0 + j0] != a[j0];
      } else {
        assert t[p + 0] != a[0];
      }
    }
  }

  /** A match of `a` at the start of `s` and an occurrence of `t` cannot overlap. */
  lemma MatchAtStartPrecedes(s: string, a: string, t: string, i: nat)
    requires OccursAt(s, a, 0) && OccursAt(s, t, i) && Unanchored(t, a)
    ensures |a| <= i
  {
    forall q | 0 <= q < |a| ensures !OccursAt(s, t, q) {
      if q > 0 {
        assert s[q] == a[q];
      } else {
        assert DisagreesFrom(t, a, 0);
        var j :| 0 <= j < |a| && 0 + j < |t| && t[0 + j] != a[j];
        assert s[j] == a[j];
      }
    }
  }

  /** An occurrence of `t` at the start of `s` leaves no room for `a` to start inside it. */
  lemma NoMatchInsideLeading(s: string, a: string, t: string)
    requires OccursAt(s, t, 0) && Unanchored(t, a)
    ensures forall p :: 0 <= p < |t| ==> !OccursAt(s, a, p)
  {
    forall p | 0 <= p < |t| ensures !OccursAt(s, a, p) {
      assert DisagreesFrom(t, a, p);
      var j :| 0 <= j < |a| && p + j < |t| && t[p + j] != a[j];
      assert s[p + j] == t[p + j];
    }
  }

  /** Replace keeps every occurrence of a text that cannot overlap the searched text. */
  lemma {:induction false} ReplaceKeepsOccurrence(s: string, a: string, b: string, t: string, i: nat)
    requires OccursAt(s, t, i) && Unanchored(t, a)
    ensures Contains(Replace(s, a, b), t)
    decreases |s|
  {
    if |s| < |a| {
      assert OccursAt(Replace(s, a, b), t, i);
    } else if s[..|a|] == a {
      MatchAtStartPrecedes(s, a, t, i);
      assert s[|a|..][i - |a|..i - |a| + |t|] == s[i..i + |t|];
      ReplaceKeepsOccurrence(s[|a|..], a, b, t, i - |a|);
      ContainsInside(b, Replace(s[|a|..], a, b), "", t);
      assert b + Replace(s[|a|..], a, b) + "" == Replace(s, a, b);
    } else if i > 0 {
      assert s[1..][i - 1..i - 1 + |t|] == s[i..i + |t|];
      ReplaceKeepsOccurrence(s[1..], a, b, t, i - 1);
      ContainsInside([s[0]], Replace(s[1..], a, b), "", t);
      assert [s[0]] + Replace(s[1..], a, b) + "" == Replace(s, a, b);
    } else {
      NoMatchInsideLeading(s, a, t);
      ReplaceKeepsCleanPrefix(s, a, b, |t|);
      assert OccursAt(Replace(s, a, b), t, 0);
    }
  }

  /** Replace keeps every substring that cannot overlap the searched text. */
  lemma ReplaceKeepsContained(s: string, a: string, b: string, t: string)
    requires Contains(s, t) && Unanchored(t, a)
    ensures Contains(Replace(s, a, b), t)
  {
    var i :| 0 <= i <= |s| - |t| && OccursAt(s, t, i);
    ReplaceKeepsOccurrence(s, a, b, t, i);
  }

  /** Insert keeps an occurrence that the insertion point does not split. */
  lemma InsertKeepsOccurrence(s: string, q: nat, x: string, t: string, i: nat)
    requires q <= |s| && OccursAt(s, t, i)
    requires q <= i || i + |t| <= q
    ensures Contains(Insert(s, q, x), t)
  {
    var r := Insert(s, q, x);
    if q <= i {
      assert r[i + |x|..i + |x| + |t|] == s[i..i + |t|];
      assert OccursAt(r, t, i + |x|);
    } else {
      assert r[i..i + |t|] == s[i..i + |t|];
      assert OccursAt(r, t, i);
    }
  }

  /** Inserting at an occurrence of `a` keeps every occurrence of a text that has no
      copy of `a`'s first character after its own first character. */
  lemma InsertAtOccurrenceKeeps(s: string, a: string, q: nat, x: string, t: string, i: nat)
    requires OccursAt(s, a, q) && OccursAt(s, t, i) && |a| > 0
    requires forall k :: 1 <= k < |t| ==> t[k] != a[0]
    ensures q <= |s| && Contains(Insert(s, q, x), t)
  {
    assert forall k :: 0 <= k < |t| ==> s[i + k] == t[k];
    assert s[q] == a[0];
    InsertKeepsOccurrence(s, q, x, t, i);
  }

  /** Inserting at an occurrence of `a` keeps every text that cannot overlap `a`. */
  lemma InsertAtUnanchoredKeeps(s: string, a: string, q: nat, x: string, t: string)
    requires OccursAt(s, a, q) && Contains(s, t) && Unanchored(t, a)
    ensures q <= |s| && Contains(Insert(s, q, x), t)
  {
    var i :| 0 <= i <= |s| - |t| && OccursAt(s, t, i);
    if i <= q {
      OccurrencesApart(s, a, q, t, i);
    }
    InsertKeepsOccurrence(s, q, x, t, i);
  }

  /** Inserting, in front of the first occurrence of `a`, a text that holds no copy of
      `a`'s first character and starts with none of `a`'s later characters moves that
      first occurrence to just past the inserted text. */
  lemma IndexOfPastInsert(s: string, q: nat, x: string, a: string)
    requires |a| > 0 && |x| > 0 && IndexOf(s, a) == q
    requires Lacks(x, a[0]) && forall k :: 1 <= k < |a| ==> a[k] != x[0]
    ensures IndexOf(Insert(s, q, x), a) == q + |x|
  {
    var r := Insert(s, q, x);
    InsertLayout(s, q, x);
    forall p | 0 <= p < q + |x| ensures !OccursAt(r, a, p) {
      if p + |a| <= q {
        assert r[p..p + |a|] == s[p..p + |a|];
        assert !OccursAt(s, a, p);
      } else if p < q {
        assert r[q] == x[0] && r[p..p + |a|][q - p] == r[q];
      } else {
        assert r[p] == x[p - q] && r[p..p + |a|][0] == r[p];
      }
    }
    InsertTail(s, q, x);
    assert r[q + |x|..q + |x| + |a|] == r[q + |x|..][..|a|];
    assert OccursAt(r, a, q + |x|);
  }

  /** Where each of three joined texts sits in the result. */
  lemma ConcatLayout(x: string, y: string, z: string)
    ensures |x + y + z| == |x| + |y| + |z|
    ensures forall k :: 0 <= k < |x| ==> (x + y + z)[k] == x[k]
    ensures forall k :: |x| <= k < |x| + |y| ==> (x + y + z)[k] == y[k - |x|]
    ensures forall k :: |x| + |y| <= k < |x| + |y| + |z| ==> (x + y + z)[k] == z[k - |x| - |y|]
  {
  }

  /** An occurrence at or after the insertion point moves right by the inserted length. */
  lemma InsertShiftsOccurrence(s: string, q: nat, x: string, t: string, i: nat)
    requires q <= i && OccursAt(s, t, i)
    ensures OccursAt(Insert(s, q, x), t, i + |x|)
  {
    assert Insert(s, q, x)[i + |x|..i + |x| + |t|] == s[i..i + |t|];
  }

  /** What follows the inserted text is the rest of the original. */
  lemma InsertTail(s: string, i: nat, x: string)
    requires i <= |s|
    ensures Insert(s, i, x)[i + |x|..] == s[i..]
  {
    assert (s[..i] + x + s[i..])[i + |x|..] == s[i..];
  }
}
