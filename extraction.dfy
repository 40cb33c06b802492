/**
 * The four regular expressions that `generateRulesFromAnomaly` runs over an
 * anomaly's `details`, written out as leftmost-match searches. None of the
 * patterns has the `g` flag, so `match` reports the leftmost match and its
 * first group. Each greedy run in them is followed by a character its own
 * class excludes (a dot after `\d+`, `-` after `\w+` and `\s*`), so a run
 * never has to give characters back and its maximal length decides the match.
 */
module Extraction {
  import opened Wrappers
  import opened Js

  /** The length of the longest prefix of `s` whose characters all satisfy `p`. */
  function Run(s: string, p: char -> bool): (n: nat)
    ensures n <= |s|
    ensures forall i :: 0 <= i < n ==> p(s[i])
    ensures n < |s| ==> !p(s[n])
  {
    if s != [] && p(s[0]) then 1 + Run(s[1..], p) else 0
  }

  /** A run stops inside `x` or continues into `y`. */
  lemma {:induction false} RunConcat(x: string, y: string, p: char -> bool)
    ensures Run(x + y, p) == if Run(x, p) < |x| then Run(x, p) else |x| + Run(y, p)
  {
    if x == [] {
      assert x + y == y;
    } else {
      assert (x + y)[0] == x[0];
      assert (x + y)[1..] == x[1..] + y;
      if p(x[0]) {
        RunConcat(x[1..], y, p);
      }
    }
  }

  /** A run of a string whose characters all satisfy `p`. */
  lemma RunAll(x: string, p: char -> bool)
    requires forall i :: 0 <= i < |x| ==> p(x[i])
    ensures Run(x, p) == |x|
  {
  }

  // ---- the leftmost match ----

  /**
   * The leftmost position, from `from` on, at which the pattern `at` matches.
   * None of the four patterns matches the empty string, so position `|s|`
   * is never a match.
   */
  function Leftmost<T>(s: string, at: string -> Option<T>, from: nat): (r: Option<nat>)
    requires from <= |s|
    ensures r.None? <==> forall i :: from <= i < |s| ==> at(s[i..]).None?
    ensures r.Some? ==>
              && from <= r.value < |s| && at(s[r.value..]).Some?
              && forall i :: from <= i < r.value ==> at(s[i..]).None?
    decreases |s| - from
  {
    if from == |s| then None
    else if at(s[from..]).Some? then Some(from)
    else Leftmost(s, at, from + 1)
  }

  /** `i` is the leftmost position of `s` at which `at` matches. */
  ghost predicate LeftmostAt<T>(s: string, at: string -> Option<T>, i: int) {
    0 <= i < |s| && at(s[i..]).Some? && forall j :: 0 <= j < i ==> at(s[j..]).None?
  }

  /** When nothing matches inside the prefix `p`, the leftmost match of `p + x` starts where `x` does. */
  lemma LeftmostAfter<T>(p: string, x: string, at: string -> Option<T>)
    requires forall i :: 0 <= i < |p| ==> at((p + x)[i..]).None?
    requires x != [] && at(x).Some?
    ensures Leftmost(p + x, at, 0) == Some(|p|)
  {
    assert (p + x)[|p|..] == x;
    var r := Leftmost(p + x, at, 0);
    assert r.Some?;
    assert !(r.value < |p|);
  }

  /** Two stretches in which no match starts make one. */
  lemma NoMatchJoin<T>(p: string, q: string, x: string, at: string -> Option<T>)
    requires forall i :: 0 <= i < |p| ==> at((p + (q + x))[i..]).None?
    requires forall i :: 0 <= i < |q| ==> at((q + x)[i..]).None?
    ensures forall i :: 0 <= i < |p + q| ==> at((p + q + x)[i..]).None?
  {
    assert p + q + x == p + (q + x);
    forall i | |p| <= i < |p + q| ensures at((p + q + x)[i..]).None? {
      assert (p + q + x)[i..] == (q + x)[i - |p|..];
    }
  }

  /**
   * `s.match(re)?.[1]` for a pattern whose first group is its whole match
   * and that, at the start of a string, matches the length `at` gives.
   */
  function Capture(s: string, at: string -> Option<nat>): (r: Option<string>)
    requires forall x :: at(x).Some? ==> at(x).value <= |x|
    ensures r.None? <==> forall i :: 0 <= i < |s| ==> at(s[i..]).None?
    ensures r.Some? ==> exists i :: LeftmostAt(s, at, i) && r.value == s[i..i + at(s[i..]).value]
  {
    match Leftmost(s, at, 0)
    case None => None
    case Some(i) => Some(s[i..i + at(s[i..]).value])
  }

  /** When no match starts inside the prefix `p`, the capture is the match at the start of `x`. */
  lemma CaptureAfter(p: string, x: string, at: string -> Option<nat>)
    requires forall y :: at(y).Some? ==> at(y).value <= |y|
    requires forall i :: 0 <= i < |p| ==> at((p + x)[i..]).None?
    requires x != [] && at(x).Some?
    ensures Capture(p + x, at) == Some(x[..at(x).value])
  {
    LeftmostAfter(p, x, at);
    assert (p + x)[|p|..] == x;
    assert (p + x)[|p|..|p| + at(x).value] == x[..at(x).value];
  }

  // ---- \d+\.\d+\.\d+\.\d+ ----

  /** Where the run of digits that starts at position `i` of `s` ends. */
  function DigitsEnd(s: string, i: nat): (e: nat)
    requires i <= |s|
    ensures i <= e <= |s|
    ensures forall k :: i <= k < e ==> IsDigit(s[k])
    ensures e < |s| ==> !IsDigit(s[e])
    decreases |s| - i
  {
    if i < |s| && IsDigit(s[i]) then DigitsEnd(s, i + 1) else i
  }

  /**
   * The end of `parts` dot-separated runs of digits matched from position `i`
   * of `s`, if they match there.
   */
  function DottedAt(s: string, i: nat, parts: nat): (r: Option<nat>)
    requires i <= |s| && parts >= 1
    ensures r.Some? ==> i < r.value <= |s|
    decreases parts
  {
    var e := DigitsEnd(s, i);
    if e == i then None
    else if parts == 1 then Some(e)
    else if e < |s| && s[e] == '.' then DottedAt(s, e + 1, parts - 1)
    else None
  }

  /** `\d+\.\d+\.\d+\.\d+` at the start of `s`: the length it matches. */
  function QuadAt(s: string): (r: Option<nat>)
    ensures r.Some? ==> 0 < r.value <= |s|
  {
    DottedAt(s, 0, 4)
  }

  /** `s` is exactly four dot-separated runs of digits. */
  predicate IsQuad(s: string) {
    QuadAt(s) == Some(|s|)
  }

  lemma {:induction false} DigitsEndIs(s: string, i: nat, e: nat)
    requires i <= e <= |s|
    requires forall k :: i <= k < e ==> IsDigit(s[k])
    requires e == |s| || !IsDigit(s[e])
    ensures DigitsEnd(s, i) == e
    decreases e - i
  {
    if i < e {
      DigitsEndIs(s, i + 1, e);
    }
  }

  predicate AllDigits(s: string) {
    s != [] && forall k :: 0 <= k < |s| ==> IsDigit(s[k])
  }

  /** A run of digits inside `t` ends where it did once a tail that does not start with a digit is added. */
  lemma {:induction false} DigitsStable(t: string, y: string, i: nat)
    requires i <= |t|
    requires y == [] || !IsDigit(y[0])
    ensures DigitsEnd(t + y, i) == DigitsEnd(t, i)
    decreases |t| - i
  {
    if i < |t| {
      assert (t + y)[i] == t[i];
      if IsDigit(t[i]) {
        DigitsStable(t, y, i + 1);
      }
    } else if y != [] {
      assert (t + y)[i] == y[0];
    }
  }

  /** A match of dotted runs ending at the end of `t` is unaffected by a tail that does not start with a digit. */
  lemma {:induction false} DottedPrefix(t: string, y: string, i: nat, parts: nat)
    requires i <= |t| && parts >= 1
    requires DottedAt(t, i, parts) == Some(|t|)
    requires y == [] || !IsDigit(y[0])
    ensures DottedAt(t + y, i, parts) == Some(|t|)
    decreases parts
  {
    DigitsStable(t, y, i);
    var e := DigitsEnd(t, i);
    if parts > 1 {
      assert (t + y)[e] == t[e];
      DottedPrefix(t, y, e + 1, parts - 1);
    }
  }

  lemma QuadPrefix(t: string, y: string)
    requires IsQuad(t)
    requires y == [] || !IsDigit(y[0])
    ensures QuadAt(t + y) == Some(|t|)
  {
    DottedPrefix(t, y, 0, 4);
  }

  /** `details.match(/(\d+\.\d+\.\d+\.\d+)/)?.[1]` */
  function MatchIp(s: string): Option<string>
  {
    Capture(s, QuadAt)
  }


  // ---- IP\s+(\d+\.\d+\.\d+\.\d+) ----

  /** `IP\s+` followed by a quad at the start of `s`: where the quad starts and ends. */
  function LabelledQuadAt(s: string): (r: Option<(nat, nat)>)
    ensures r.Some? ==> 2 < r.value.0 < r.value.1 <= |s|
  {
    if |s| < 2 || s[0] != 'I' || s[1] != 'P' then None
    else
      var b := 2 + Run(s[2..], IsSpace);
      if b == 2 then None
      else match QuadAt(s[b..])
        case None => None
        case Some(e) => Some((b, b + e))
  }

  /** The quad a match at the start of `s` captures. */
  function LabelledGroup(s: string): string
    requires LabelledQuadAt(s).Some?
  {
    s[LabelledQuadAt(s).value.0..LabelledQuadAt(s).value.1]
  }

  /** `details.match(/IP\s+(\d+\.\d+\.\d+\.\d+)/)?.[1]` */
  function MatchLabelledIp(s: string): (r: Option<string>)
    ensures r.None? <==> forall i :: 0 <= i < |s| ==> LabelledQuadAt(s[i..]).None?
    ensures r.Some? ==> exists i :: LeftmostAt(s, LabelledQuadAt, i) && r.value == LabelledGroup(s[i..])
  {
    match Leftmost(s, LabelledQuadAt, 0)
    case None => None
    case Some(i) =>
      Some(LabelledGroup(s[i..]))
  }

  // ---- (\w+)\s*->\s*(\w+) ----

  /** `\s*->\s*\w` at the start of `t`: what has to follow the first group. */
  predicate ArrowTail(t: string) {
    var a := Run(t, IsSpace);
    && a + 2 <= |t| && t[a] == '-' && t[a + 1] == '>'
    && var b := a + 2 + Run(t[a + 2..], IsSpace);
       Run(t[b..], IsWordChar) > 0
  }

  /** The pattern at the start of `s`: where its first group ends. */
  function ArrowAt(s: string): (r: Option<nat>)
    ensures r.Some? ==> 0 < r.value <= |s|
  {
    var w := Run(s, IsWordChar);
    if w == 0 || !ArrowTail(s[w..]) then None else Some(w)
  }

  /** `details.match(/(\w+)\s*->\s*(\w+)/)?.[1]` */
  function MatchArrowSource(s: string): Option<string>
  {
    Capture(s, ArrowAt)
  }


  /**
   * No arrow match starts where a character that is neither a word
   * character, white space nor `-` comes before any `-`.
   */
  lemma NoArrowBefore(s: string, k: nat)
    requires k < |s| && !IsWordChar(s[k]) && !IsSpace(s[k]) && s[k] != '-'
    requires forall j :: 0 <= j < k ==> s[j] != '-'
    ensures ArrowAt(s) == None
  {
    var w := Run(s, IsWordChar);
    if w > 0 {
      var a := w + Run(s[w..], IsSpace);
      forall j | w <= j < a ensures IsSpace(s[j]) {
        assert s[w..][j - w] == s[j];
      }
    }
  }

  // ---- (\/[\w/]+) ----

  /** `[\w/]` */
  predicate IsPathChar(c: char) { IsWordChar(c) || c == '/' }

  /** `\/[\w/]+` at the start of `s`: the length it matches. */
  function PathAt(s: string): (r: Option<nat>)
    ensures r.Some? ==> 1 < r.value <= |s|
  {
    if s == [] || s[0] != '/' then None
    else
      var n := Run(s[1..], IsPathChar);
      if n == 0 then None else Some(1 + n)
  }

  /** `details.match(/(\/[\w/]+)/)?.[1]` */
  function MatchPath(s: string): Option<string>
  {
    Capture(s, PathAt)
  }


  // ---- what the patterns find in the texts the detectors write ----

  /** No quad starts at a character that is not a digit. */
  lemma NoQuadAtNonDigit(x: string)
    requires x != [] && !IsDigit(x[0])
    ensures QuadAt(x) == None
  {
    assert DigitsEnd(x, 0) == 0;
  }

  /**
   * A quad written after a text without digits and before a tail that does
   * not start with a digit is what `MatchIp` finds.
   */
  lemma MatchIpAfter(p: string, ip: string, rest: string)
    requires forall i :: 0 <= i < |p| ==> !IsDigit(p[i])
    requires IsQuad(ip)
    requires rest == [] || !IsDigit(rest[0])
    ensures MatchIp(p + ip + rest) == Some(ip)
  {
    var s := p + (ip + rest);
    assert p + ip + rest == s;
    forall i | 0 <= i < |p| ensures QuadAt(s[i..]).None? {
      assert s[i..][0] == p[i];
      NoQuadAtNonDigit(s[i..]);
    }
    QuadPrefix(ip, rest);
    LeftmostAfter(p, ip + rest, QuadAt);
    assert s[|p|..|p| + |ip|] == ip;
  }

  /** The three quads of the suspicious-source list. */
  lemma SampleQuads()
    ensures IsQuad("192.0.2.1") && IsQuad("198.51.100.42") && IsQuad("203.0.113.99")
  {
    FirstSampleQuad();
    SecondSampleQuad();
    ThirdSampleQuad();
  }

  lemma FirstSampleQuad()
    ensures IsQuad("192.0.2.1")
  {
    assert DigitsEnd("192.0.2.1", 0) == 3;
    assert DigitsEnd("192.0.2.1", 4) == 5;
    assert DigitsEnd("192.0.2.1", 6) == 7;
    assert DigitsEnd("192.0.2.1", 8) == 9;
  }

  lemma SecondSampleQuad()
    ensures IsQuad("198.51.100.42")
  {
    assert DigitsEnd("198.51.100.42", 0) == 3;
    assert DigitsEnd("198.51.100.42", 4) == 6;
    assert DigitsEnd("198.51.100.42", 7) == 10;
    assert DigitsEnd("198.51.100.42", 11) == 13;
  }

  lemma ThirdSampleQuad()
    ensures IsQuad("203.0.113.99")
  {
    assert DigitsEnd("203.0.113.99", 0) == 3;
    assert DigitsEnd("203.0.113.99", 4) == 5;
    assert DigitsEnd("203.0.113.99", 6) == 9;
    assert DigitsEnd("203.0.113.99", 10) == 12;
  }

  /**
   * `IP`, one space and a quad, after a text without the letter `I` and
   * before a tail that does not start with a digit: `MatchLabelledIp` finds
   * the quad.
   */
  lemma MatchLabelledIpAfter(p: string, ip: string, rest: string)
    requires forall i :: 0 <= i < |p| ==> p[i] != 'I'
    requires IsQuad(ip)
    requires rest == [] || !IsDigit(rest[0])
    ensures MatchLabelledIp(p + "IP " + ip + rest) == Some(ip)
  {
    var x := "IP " + (ip + rest);
    var s := p + x;
    assert p + "IP " + ip + rest == s;
    NoLabelBefore(p, x);
    LabelledGroupOf(ip, rest);
    LeftmostAfter(p, x, LabelledQuadAt);
    assert s[|p|..] == x;
  }

  lemma LabelledGroupOf(ip: string, rest: string)
    requires IsQuad(ip)
    requires rest == [] || !IsDigit(rest[0])
    ensures LabelledQuadAt("IP " + (ip + rest)).Some?
    ensures LabelledGroup("IP " + (ip + rest)) == ip
  {
    LabelledAtStart(ip, rest);
    LabelSlice(ip, rest);
  }

  lemma LabelSlice(ip: string, rest: string)
    ensures ("IP " + (ip + rest))[3..3 + |ip|] == ip
  {
  }

  lemma NoLabelBefore(p: string, x: string)
    requires forall i :: 0 <= i < |p| ==> p[i] != 'I'
    ensures forall i :: 0 <= i < |p| ==> LabelledQuadAt((p + x)[i..]).None?
  {
    forall i | 0 <= i < |p| ensures LabelledQuadAt((p + x)[i..]).None? {
      assert (p + x)[i..][0] == p[i];
      NoLabelAt((p + x)[i..]);
    }
  }

  lemma NoLabelAt(x: string)
    requires x != [] && x[0] != 'I'
    ensures LabelledQuadAt(x) == None
  {
  }

  lemma LabelledAtStart(ip: string, rest: string)
    requires IsQuad(ip)
    requires rest == [] || !IsDigit(rest[0])
    ensures LabelledQuadAt("IP " + (ip + rest)) == Some((3, 3 + |ip|))
  {
    var x := "IP " + (ip + rest);
    LabelledSpace(ip, rest);
    DropPrefix("IP ", ip + rest);
    QuadPrefix(ip, rest);
    assert x[0] == 'I' && x[1] == 'P';
  }

  /** The single space after `IP` is the whole white-space run before a quad. */
  lemma LabelledSpace(ip: string, rest: string)
    requires IsQuad(ip)
    ensures Run(("IP " + (ip + rest))[2..], IsSpace) == 1
  {
    assert ("IP " + (ip + rest))[2..] == " " + (ip + rest);
    QuadStartsWithDigit(ip, rest);
    SpaceThen(ip + rest);
  }

  lemma QuadStartsWithDigit(ip: string, rest: string)
    requires IsQuad(ip)
    ensures ip + rest != [] && !IsSpace((ip + rest)[0])
  {
    assert DigitsEnd(ip, 0) > 0;
    assert (ip + rest)[0] == ip[0];
  }

  /** Every character of `w` is a word character, and there is at least one. */
  predicate IsWord(w: string) {
    w != [] && forall i :: 0 <= i < |w| ==> IsWordChar(w[i])
  }

  /** A word, `" -> "` and a string that starts with a word character: an arrow whose first group is the word. */
  lemma ArrowOfWord(src: string, rest: string)
    requires IsWord(src)
    requires rest != [] && IsWordChar(rest[0])
    ensures ArrowAt(src + " -> " + rest) == Some(|src|)
  {
    var s := src + " -> " + rest;
    assert s == src + (" -> " + rest);
    WordThen(src, " -> " + rest);
    assert s[|src|..] == " -> " + rest;
    ArrowTailOf(rest);
  }

  /** The word run of a word followed by a character that is not a word character. */
  lemma WordThen(w: string, x: string)
    requires IsWord(w)
    requires x != [] && !IsWordChar(x[0])
    ensures Run(w + x, IsWordChar) == |w|
  {
    RunAll(w, IsWordChar);
    RunConcat(w, x, IsWordChar);
  }

  lemma ArrowTailOf(rest: string)
    requires rest != [] && IsWordChar(rest[0])
    ensures ArrowTail(" -> " + rest)
  {
    var t := " -> " + rest;
    assert t == " " + ("-> " + rest);
    SpaceThen("-> " + rest);
    assert t[3..] == " " + rest;
    SpaceThen(rest);
    assert t[4..] == rest;
    assert t[1] == '-' && t[2] == '>';
  }

  lemma SpaceThen(x: string)
    requires x != [] && !IsSpace(x[0])
    ensures Run(" " + x, IsSpace) == 1
  {
    RunConcat(" ", x, IsSpace);
  }

  /**
   * A text that ends in a character outside `[\w\s-]` and a space, with no
   * `-` anywhere: no arrow match starts inside it, whatever follows.
   */
  predicate ArrowFree(p: string) {
    && |p| >= 2 && p[|p| - 1] == ' '
    && !IsWordChar(p[|p| - 2]) && !IsSpace(p[|p| - 2])
    && forall j :: 0 <= j < |p| ==> p[j] != '-'
  }

  lemma LabelArrowFree()
    ensures ArrowFree("Unexpected communication: ")
  {
  }

  lemma NoArrowInPrefix(p: string, x: string)
    requires ArrowFree(p)
    ensures forall i :: 0 <= i < |p| ==> ArrowAt((p + x)[i..]).None?
  {
    var s := p + x;
    forall i | 0 <= i < |p| ensures ArrowAt(s[i..]).None? {
      if i < |p| - 1 {
        var k := |p| - 2 - i;
        assert s[i..][k] == p[|p| - 2];
        assert forall j :: 0 <= j < k ==> s[i..][j] == p[i + j];
        NoArrowBefore(s[i..], k);
      } else {
        assert s[i..][0] == ' ';
      }
    }
  }

  /** What `MatchArrowSource` finds after an arrow-free text `p` and a part `q` where no match starts. */
  lemma ArrowAfterLabel(p: string, q: string, x: string)
    requires ArrowFree(p)
    requires forall i :: 0 <= i < |q| ==> ArrowAt((q + x)[i..]).None?
    requires x != [] && ArrowAt(x).Some?
    ensures MatchArrowSource(p + q + x) == Some(x[..ArrowAt(x).value])
  {
    NoArrowInPrefix(p, q + x);
    NoMatchJoin(p, q, x, ArrowAt);
    CaptureAfter(p + q, x, ArrowAt);
  }

  /** After an arrow-free text, the arrow pattern captures a one-word source. */
  lemma ArrowFindsWordSource(p: string, src: string, dst: string)
    requires ArrowFree(p)
    requires IsWord(src)
    requires dst != [] && IsWordChar(dst[0])
    ensures MatchArrowSource(p + src + " -> " + dst) == Some(src)
  {
    var x := src + " -> " + dst;
    ArrowOfWord(src, dst);
    NoArrowInPrefix(p, x);
    CaptureAfter(p, x, ArrowAt);
    Assoc(p, src, " -> ");
    Assoc(p, src + " -> ", dst);
    assert x[..|src|] == src;
  }

  /** `-` followed by a word character cannot continue a `\w+\s*->`. */
  lemma NoArrowTailAtHyphen(y: string)
    requires y != [] && IsWordChar(y[0])
    ensures !ArrowTail("-" + y)
  {
    assert Run("-" + y, IsSpace) == 0;
    assert ("-" + y)[1] == y[0];
  }

  /** No arrow match starts inside `u-`, when `u` is a word and a word character follows. */
  lemma NoArrowInHyphenated(u: string, y: string)
    requires IsWord(u)
    requires y != [] && IsWordChar(y[0])
    ensures forall j :: 0 <= j < |u| + 1 ==> ArrowAt((u + "-" + y)[j..]).None?
  {
    var s := u + ("-" + y);
    assert u + "-" + y == s;
    forall j | 0 <= j < |u| + 1 ensures ArrowAt(s[j..]).None? {
      NoArrowAtHyphenSuffix(u, y, j);
    }
  }

  lemma NoArrowAtHyphenSuffix(u: string, y: string, j: nat)
    requires IsWord(u)
    requires y != [] && IsWordChar(y[0])
    requires j < |u| + 1
    ensures ArrowAt((u + ("-" + y))[j..]).None?
  {
    SuffixOfJoin(u, "-" + y, j);
    if j < |u| {
      NoArrowAtWordHyphen(u[j..], y);
    } else {
      assert u[j..] == [];
      NoArrowAtNonWord("-" + y);
    }
  }

  /** No arrow match starts at a character that is not a word character. */
  lemma NoArrowAtNonWord(x: string)
    requires x != [] && !IsWordChar(x[0])
    ensures ArrowAt(x) == None
  {
    assert Run(x, IsWordChar) == 0;
  }

  lemma DropPrefix<T>(a: seq<T>, b: seq<T>)
    ensures (a + b)[|a|..] == b
  {
  }

  lemma SuffixOfJoin<T>(a: seq<T>, b: seq<T>, j: nat)
    requires j <= |a|
    ensures (a + b)[j..] == a[j..] + b
  {
  }

  lemma NoArrowAtWordHyphen(w: string, y: string)
    requires IsWord(w)
    requires y != [] && IsWordChar(y[0])
    ensures ArrowAt(w + ("-" + y)) == None
  {
    WordThen(w, "-" + y);
    assert (w + ("-" + y))[|w|..] == "-" + y;
    NoArrowTailAtHyphen(y);
  }

  /**
   * After an arrow-free text, the arrow pattern captures only the part `v`
   * of a hyphenated source `u-v` that follows the hyphen.
   */
  lemma ArrowFindsLastSegment(p: string, u: string, v: string, dst: string)
    requires ArrowFree(p)
    requires IsWord(u) && IsWord(v)
    requires dst != [] && IsWordChar(dst[0])
    ensures MatchArrowSource(p + (u + "-" + v) + " -> " + dst) == Some(v)
  {
    var x := v + " -> " + dst;
    ArrowOfWord(v, dst);
    assert x[0] == v[0];
    NoArrowInHyphenated(u, x);
    ArrowAfterLabel(p, u + "-", x);
    Assoc(p, u + "-", v);
    Assoc(p + (u + "-"), v, " -> ");
    Assoc(p + (u + "-"), v + " -> ", dst);
    assert x[..|v|] == v;
  }

  /** A path after a text without `/`, ended by a character outside `[\w/]`, is what `MatchPath` finds. */
  lemma MatchPathAfter(p: string, r: string, rest: string)
    requires forall i :: 0 <= i < |p| ==> p[i] != '/'
    requires r != [] && forall i :: 0 <= i < |r| ==> IsPathChar(r[i])
    requires rest == [] || !IsPathChar(rest[0])
    ensures MatchPath(p + "/" + r + rest) == Some("/" + r)
  {
    assert p + "/" + r + rest == p + ("/" + (r + rest));
    PathAfter(p, r, rest);
  }

  lemma PathAfter(p: string, r: string, rest: string)
    requires forall i :: 0 <= i < |p| ==> p[i] != '/'
    requires r != [] && forall i :: 0 <= i < |r| ==> IsPathChar(r[i])
    requires rest == [] || !IsPathChar(rest[0])
    ensures MatchPath(p + ("/" + (r + rest))) == Some("/" + r)
  {
    var x := "/" + (r + rest);
    NoPathBefore(p, x);
    PathAtStart(r, rest);
    PathCaptureAfter(p, x);
    SlashPrefix(r, rest);
  }

  lemma SlashPrefix(r: string, rest: string)
    ensures ("/" + (r + rest))[..1 + |r|] == "/" + r
  {
  }

  lemma PathCaptureAfter(p: string, x: string)
    requires forall i :: 0 <= i < |p| ==> PathAt((p + x)[i..]).None?
    requires x != [] && PathAt(x).Some?
    ensures MatchPath(p + x) == Some(x[..PathAt(x).value])
  {
    CaptureAfter(p, x, PathAt);
  }

  lemma NoPathBefore(p: string, x: string)
    requires forall i :: 0 <= i < |p| ==> p[i] != '/'
    ensures forall i :: 0 <= i < |p| ==> PathAt((p + x)[i..]).None?
  {
    forall i | 0 <= i < |p| ensures PathAt((p + x)[i..]).None? {
      assert (p + x)[i..][0] == p[i];
    }
  }

  /** A path match at `/` runs to the first character outside `[\w/]`. */
  lemma PathAtStart(r: string, rest: string)
    requires r != [] && forall i :: 0 <= i < |r| ==> IsPathChar(r[i])
    requires rest == [] || !IsPathChar(rest[0])
    ensures PathAt("/" + (r + rest)) == Some(1 + |r|)
  {
    RunAll(r, IsPathChar);
    RunConcat(r, rest, IsPathChar);
    assert ("/" + (r + rest))[1..] == r + rest;
  }
}
