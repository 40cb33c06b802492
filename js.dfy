/**
 * The JavaScript semantics the core relies on: `Array.prototype.slice` with
 * negative indices, `filter`, `reverse`, the decimal rendering of integers in
 * template literals, the character classes `\d`, `\w` and `\s` of regular
 * expressions, and truthiness of strings.
 */
module Js {
  import opened Wrappers

  function Min(a: int, b: int): int { if a <= b then a else b }

  /** How `slice` normalises an index: negative counts from the end, both clamped to [0, len]. */
  function RelativeIndex(i: int, len: nat): (r: nat)
    ensures r <= len
    ensures 0 <= i <= len ==> r == i
    ensures i < 0 && -i <= len ==> r == len + i
    ensures i < 0 && -i > len ==> r == 0
    ensures i > len ==> r == len
  {
    if i < 0 then (if len + i < 0 then 0 else len + i)
    else if i > len then len
    else i
  }

  /** `s.slice(start, end)` */
  function Slice<T>(s: seq<T>, start: int, end: int): (r: seq<T>)
    ensures |r| <= |s|
    ensures RelativeIndex(start, |s|) < RelativeIndex(end, |s|) ==>
              r == s[RelativeIndex(start, |s|)..RelativeIndex(end, |s|)]
    ensures RelativeIndex(start, |s|) >= RelativeIndex(end, |s|) ==> r == []
  {
    var a, b := RelativeIndex(start, |s|), RelativeIndex(end, |s|);
    if a < b then s[a..b] else []
  }

  /** `s.slice(-n)`: for a positive n the last n elements; note `slice(-0)` is the whole array. */
  function Last<T>(s: seq<T>, n: int): (r: seq<T>)
    ensures n > 0 ==> r == s[|s| - Min(n, |s|)..]
    ensures n == 0 ==> r == s
    ensures n < 0 ==> r == s[Min(-n, |s|)..]
  {
    Slice(s, -n, |s|)
  }

  /** `s.slice(0, n)` for n >= 0: the first n elements. */
  function First<T>(s: seq<T>, n: nat): (r: seq<T>)
    ensures r == s[..Min(n, |s|)]
  {
    Slice(s, 0, n)
  }

  /** `s.reverse()` (on a copy) */
  function Reverse<T>(s: seq<T>): (r: seq<T>)
    ensures |r| == |s|
    ensures forall i :: 0 <= i < |s| ==> r[i] == s[|s| - 1 - i]
  {
    if s == [] then [] else [s[|s| - 1]] + Reverse(s[..|s| - 1])
  }

  /** `s.filter(p)` */
  function Filter<T>(s: seq<T>, p: T -> bool): (r: seq<T>)
    ensures |r| <= |s|
    ensures forall x :: x in r ==> x in s && p(x)
    ensures forall x :: x in s && p(x) ==> x in r
  {
    if s == [] then [] else (if p(s[0]) then [s[0]] else []) + Filter(s[1..], p)
  }

  lemma {:induction false} FilterAppend<T>(a: seq<T>, b: seq<T>, p: T -> bool)
    ensures Filter(a + b, p) == Filter(a, p) + Filter(b, p)
  {
    if a == [] {
      assert a + b == b;
    } else {
      assert (a + b)[0] == a[0];
      assert (a + b)[1..] == a[1..] + b;
      FilterAppend(a[1..], b, p);
    }
  }

  /** Filtering keeps an element's multiplicity when it passes and drops it otherwise. */
  lemma {:induction false} FilterCount<T>(s: seq<T>, p: T -> bool, x: T)
    ensures multiset(Filter(s, p))[x] == if p(x) then multiset(s)[x] else 0
  {
    if s != [] {
      FilterCount(s[1..], p, x);
      assert s == [s[0]] + s[1..];
    }
  }

  lemma {:induction false} FilterNone<T>(s: seq<T>, p: T -> bool)
    requires forall x :: x in s ==> !p(x)
    ensures Filter(s, p) == []
  {
    if s != [] {
      assert s[0] in s;
      FilterNone(s[1..], p);
    }
  }

  /** `s.findIndex(p)`, as an option: the first position whose element satisfies `p`. */
  function FindIndex<T>(s: seq<T>, p: T -> bool): (r: Option<nat>)
    ensures r.None? <==> forall i :: 0 <= i < |s| ==> !p(s[i])
    ensures r.Some? ==> r.value < |s| && p(s[r.value]) && forall i :: 0 <= i < r.value ==> !p(s[i])
    decreases |s|
  {
    if s == [] then None
    else if p(s[0]) then Some(0)
    else match FindIndex(s[1..], p)
      case None => None
      case Some(i) => Some(i + 1)
  }

  // ---- Array.prototype.sort with a descending numeric comparator ----

  ghost predicate SortedDesc<T>(s: seq<T>, key: T -> int) {
    forall i, j :: 0 <= i < j < |s| ==> key(s[i]) >= key(s[j])
  }

  /** Insert `x` into a descending run after every element whose key is at least its own. */
  function InsertDesc<T>(s: seq<T>, x: T, key: T -> int): (r: seq<T>)
    ensures multiset(r) == multiset(s) + multiset{x}
    decreases |s|
  {
    if s == [] then [x]
    else if key(s[|s| - 1]) >= key(x) then s + [x]
    else
      assert s == s[..|s| - 1] + [s[|s| - 1]];
      InsertDesc(s[..|s| - 1], x, key) + [s[|s| - 1]]
  }

  lemma SortedSnoc<T>(a: seq<T>, z: T, key: T -> int)
    requires SortedDesc(a, key)
    requires forall y :: y in multiset(a) ==> key(y) >= key(z)
    ensures SortedDesc(a + [z], key)
  {
    forall i, j | 0 <= i < j < |a| + 1 ensures key((a + [z])[i]) >= key((a + [z])[j]) {
      if j == |a| {
        assert (a + [z])[i] == a[i] && a[i] in multiset(a);
      }
    }
  }

  lemma {:induction false} InsertDescSorted<T>(s: seq<T>, x: T, key: T -> int)
    requires SortedDesc(s, key)
    ensures SortedDesc(InsertDesc(s, x, key), key)
    decreases |s|
  {
    if s == [] {
    } else if key(s[|s| - 1]) >= key(x) {
      forall y | y in multiset(s) ensures key(y) >= key(x) {
        var i :| 0 <= i < |s| && s[i] == y;
      }
      SortedSnoc(s, x, key);
    } else {
      var init, last := s[..|s| - 1], s[|s| - 1];
      assert SortedDesc(init, key);
      InsertDescSorted(init, x, key);
      var r' := InsertDesc(init, x, key);
      forall y | y in multiset(r') ensures key(y) >= key(last) {
        if y != x {
          assert y in multiset(init);
          var i :| 0 <= i < |init| && init[i] == y;
          assert s[i] == y;
        }
      }
      SortedSnoc(r', last, key);
    }
  }

  /**
   * `s.sort((a, b) => key(b) - key(a))`: a stable sort by descending key,
   * built as the insertion sort that keeps ties in their original order.
   */
  function SortDesc<T>(s: seq<T>, key: T -> int): (r: seq<T>)
    ensures multiset(r) == multiset(s)
    ensures SortedDesc(r, key)
    decreases |s|
  {
    if s == [] then []
    else
      assert s == s[..|s| - 1] + [s[|s| - 1]];
      var sorted := SortDesc(s[..|s| - 1], key);
      InsertDescSorted(sorted, s[|s| - 1], key);
      InsertDesc(sorted, s[|s| - 1], key)
  }

  /**
   * A prefix of a descending sequence is descending, is a sub-multiset of it,
   * and nothing left out has a larger key than what is kept.
   */
  lemma SortedPrefix<T>(s: seq<T>, key: T -> int, n: nat)
    requires SortedDesc(s, key) && n <= |s|
    ensures SortedDesc(s[..n], key)
    ensures multiset(s[..n]) <= multiset(s)
    ensures forall a, b :: a in s[..n] && b in multiset(s) - multiset(s[..n]) ==> key(a) >= key(b)
  {
    assert s == s[..n] + s[n..];
    assert multiset(s) - multiset(s[..n]) == multiset(s[n..]);
    PrefixAboveRest(s, key, n);
  }

  /** In a descending sequence, everything before position `n` has a key at least that of everything after. */
  lemma PrefixAboveRest<T>(s: seq<T>, key: T -> int, n: nat)
    requires SortedDesc(s, key) && n <= |s|
    ensures forall a, b :: a in s[..n] && b in multiset(s[n..]) ==> key(a) >= key(b)
  {
    forall a, b | a in s[..n] && b in multiset(s[n..]) ensures key(a) >= key(b) {
      var i :| 0 <= i < n && s[i] == a;
      var j :| 0 <= j < |s| - n && s[n..][j] == b;
      assert s[n + j] == b;
    }
  }

  /** `s.slice(0, end)` is always a prefix of `s`. */
  lemma SliceFromStart<T>(s: seq<T>, end: int)
    ensures Slice(s, 0, end) == s[..|Slice(s, 0, end)|]
    ensures end >= 0 ==> |Slice(s, 0, end)| == Min(end, |s|)
    ensures end < 0 ==> |Slice(s, 0, end)| == |s| - Min(-end, |s|)
  {
    var e := RelativeIndex(end, |s|);
    if 0 < e { assert s[0..e] == s[..e]; }
  }

  /** Concatenation regroups freely; callers name the split they need. */
  lemma Assoc<T>(a: seq<T>, b: seq<T>, c: seq<T>)
    ensures a + b + c == a + (b + c)
  {
  }

  // ---- characters ----

  /** `\d` (ASCII digits: the patterns carry no `u` flag) */
  predicate IsDigit(c: char) { '0' <= c <= '9' }

  /** `\w` */
  predicate IsWordChar(c: char) {
    ('a' <= c <= 'z') || ('A' <= c <= 'Z') || IsDigit(c) || c == '_'
  }

  /** `\s`: white space and line terminators of ECMAScript */
  predicate IsSpace(c: char) {
    c == ' ' || c == '\t' || c == '\n' || c == '\r' || c == '\U{B}' || c == '\U{C}'
    || c == '\U{A0}' || c == '\U{1680}' || ('\U{2000}' <= c <= '\U{200A}')
    || c == '\U{2028}' || c == '\U{2029}' || c == '\U{202F}' || c == '\U{205F}'
    || c == '\U{3000}' || c == '\U{FEFF}'
  }

  // ---- numbers in template literals ----

  function DigitChar(d: nat): (c: char)
    requires d < 10
    ensures IsDigit(c)
  {
    ['0', '1', '2', '3', '4', '5', '6', '7', '8', '9'][d]
  }

  function DigitValue(c: char): nat
    requires IsDigit(c)
  {
    (c as int - '0' as int) as nat
  }

  /** `${n}` for a non-negative integer: its shortest decimal form. */
  function NatToString(n: nat): (r: string)
    ensures |r| >= 1
    ensures forall i :: 0 <= i < |r| ==> IsDigit(r[i])
    ensures r[0] == '0' ==> n == 0
  {
    if n < 10 then [DigitChar(n)] else NatToString(n / 10) + [DigitChar(n % 10)]
  }

  /** The number a string of decimal digits denotes. */
  function DecimalValue(s: string): nat
    requires forall i :: 0 <= i < |s| ==> IsDigit(s[i])
  {
    if s == [] then 0 else 10 * DecimalValue(s[..|s| - 1]) + DigitValue(s[|s| - 1])
  }

  lemma {:induction false} NatToStringValue(n: nat)
    ensures DecimalValue(NatToString(n)) == n
  {
    if n >= 10 {
      NatToStringValue(n / 10);
      var r := NatToString(n);
      assert r[..|r| - 1] == NatToString(n / 10);
    }
  }

  /** Distinct numbers render distinctly. */
  lemma NatToStringInjective(m: nat, n: nat)
    requires NatToString(m) == NatToString(n)
    ensures m == n
  {
    NatToStringValue(m);
    NatToStringValue(n);
  }

  /** `Math.round(p / q)` for non-negative p and positive q: round half up. */
  function RoundDiv(p: nat, q: nat): (r: nat)
    requires q > 0
    ensures 2 * p < (2 * r + 1) * q
    ensures (2 * r - 1) * q <= 2 * p
  {
    (2 * p + q) / (2 * q)
  }

  /** `x.toFixed(1)` of the ratio p / q, rounding ties upward. */
  function Fixed1(p: nat, q: nat): (r: string)
    requires q > 0
  {
    var tenths := RoundDiv(10 * p, q);
    NatToString(tenths / 10) + "." + [DigitChar(tenths % 10)]
  }

  // ---- truthiness ----

  /** `if (s)` for an optional string: present and non-empty. */
  predicate Truthy(s: Option<string>) { s.Some? && s.value != "" }
}
