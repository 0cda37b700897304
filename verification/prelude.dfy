/**
 * The JavaScript built-ins the application leans on, restricted to ASCII text:
 * `toLowerCase`, `trim`, the `\s` and `\w` character classes, `startsWith`,
 * `endsWith`, `includes`, `String(n)` for a natural number, `Math.round` of an
 * exact quotient, and the first-occurrence order of `[...new Set(xs)]`.
 * Also the sequence facts about counting that several modules share.
 */
module Prelude {

  datatype Option<+T> = None | Some(value: T) {
    function GetOr(default: T): T {
      match this
      case Some(v) => v
      case None => default
    }
  }

  // ---------------------------------------------------------------- characters

  predicate IsUpper(c: char) { 'A' <= c <= 'Z' }

  predicate IsLowerLetter(c: char) { 'a' <= c <= 'z' }

  predicate IsDigit(c: char) { '0' <= c <= '9' }

  /** The ASCII members of JavaScript's `\s`: tab, line feed, vertical tab, form feed, carriage return, space. */
  predicate IsSpace(c: char) { 9 <= c as int <= 13 || c == ' ' }

  /** JavaScript's `\w`: `[A-Za-z0-9_]`. */
  predicate IsWordChar(c: char) { IsUpper(c) || IsLowerLetter(c) || IsDigit(c) || c == '_' }

  function ToLowerChar(c: char): (r: char)
    ensures !IsUpper(r)
    ensures IsUpper(c) ==> IsLowerLetter(r) && r as int == c as int + 32
    ensures !IsUpper(c) ==> r == c
  {
    if IsUpper(c) then (c as int + 32) as char else c
  }

  /** `String.prototype.toLowerCase` on ASCII text. */
  function Lower(s: string): (r: string)
    ensures |r| == |s|
    decreases |s|
  {
    if s == [] then [] else [ToLowerChar(s[0])] + Lower(s[1..])
  }

  /** Lowering works character by character. */
  lemma {:induction false} LowerAt(s: string)
    ensures forall i :: 0 <= i < |s| ==> Lower(s)[i] == ToLowerChar(s[i])
    decreases |s|
  {
    if s != [] {
      LowerAt(s[1..]);
      assert forall i :: 0 < i < |s| ==> Lower(s)[i] == Lower(s[1..])[i - 1];
    }
  }

  lemma LowerOfLowerCase(s: string)
    requires forall i :: 0 <= i < |s| ==> !IsUpper(s[i])
    ensures Lower(s) == s
  {
    LowerAt(s);
  }

  /** Lowering commutes with taking a slice. */
  lemma LowerSlice(s: string, i: nat, j: nat)
    requires i <= j <= |s|
    ensures Lower(s[i..j]) == Lower(s)[i..j]
  {
    LowerAt(s);
    LowerAt(s[i..j]);
  }

  // ---------------------------------------------------------------- trimming

  predicate Blank(s: string) { forall i :: 0 <= i < |s| ==> IsSpace(s[i]) }

  function TrimStart(s: string): (r: string)
    ensures |r| <= |s|
    ensures r != [] ==> !IsSpace(r[0])
  {
    if s != [] && IsSpace(s[0]) then TrimStart(s[1..]) else s
  }

  /** Trimming the start keeps a suffix. */
  lemma {:induction false} TrimStartSuffix(s: string)
    ensures TrimStart(s) == s[|s| - |TrimStart(s)|..]
    decreases |s|
  {
    if s != [] && IsSpace(s[0]) {
      TrimStartSuffix(s[1..]);
    }
  }

  /** Trimming the start leaves nothing exactly when the string is blank. */
  lemma {:induction false} TrimStartBlank(s: string)
    ensures TrimStart(s) == [] <==> Blank(s)
    decreases |s|
  {
    if s != [] && IsSpace(s[0]) {
      TrimStartBlank(s[1..]);
      assert Blank(s) <==> Blank(s[1..]) by {
        assert forall i :: 0 < i < |s| ==> s[i] == s[1..][i - 1];
      }
    } else if s != [] {
      assert !IsSpace(s[0]);
    }
  }

  function TrimEnd(s: string): (r: string)
    ensures |r| <= |s|
    ensures r != [] ==> r[0] == s[0] && !IsSpace(r[|r| - 1])
  {
    if s != [] && IsSpace(s[|s| - 1]) then TrimEnd(s[..|s| - 1]) else s
  }

  /** Trimming the end leaves nothing exactly when the string is blank. */
  lemma {:induction false} TrimEndBlank(s: string)
    ensures TrimEnd(s) == [] <==> Blank(s)
    decreases |s|
  {
    if s != [] && IsSpace(s[|s| - 1]) {
      TrimEndBlank(s[..|s| - 1]);
      assert Blank(s) <==> Blank(s[..|s| - 1]) by {
        assert forall i :: 0 <= i < |s| - 1 ==> s[i] == s[..|s| - 1][i];
      }
    } else if s != [] {
      assert !IsSpace(s[|s| - 1]);
    }
  }

  /** `String.prototype.trim`: drop leading and trailing white space. */
  function Trim(s: string): (r: string)
    ensures |r| <= |s|
    ensures r != [] ==> !IsSpace(r[0]) && !IsSpace(r[|r| - 1])
  {
    var t := TrimStart(s);
    TrimEnd(t)
  }

  /** Trimming leaves nothing exactly when the string is blank. */
  lemma TrimBlank(s: string)
    ensures Trim(s) == [] <==> Blank(s)
  {
    var t := TrimStart(s);
    TrimStartBlank(s);
    TrimEndBlank(t);
  }

  // ---------------------------------------------------------------- affixes

  predicate StartsWith(s: string, p: string) { |p| <= |s| && s[..|p|] == p }

  predicate EndsWith(s: string, p: string) { |p| <= |s| && s[|s| - |p|..] == p }

  /** `String.prototype.includes`: `p` occurs in `s` at some offset. */
  predicate Contains(s: string, p: string)
    decreases |s|
  {
    StartsWith(s, p) || (s != [] && Contains(s[1..], p))
  }

  lemma ContainsAt(s: string, p: string, k: nat)
    requires k + |p| <= |s| && s[k..k + |p|] == p
    ensures Contains(s, p)
    decreases k
  {
    if k > 0 {
      assert s[1..][k - 1..k - 1 + |p|] == s[k..k + |p|];
      ContainsAt(s[1..], p, k - 1);
    }
  }

  // ---------------------------------------------------------------- numbers

  lemma MulMonotone(k: int, a: int, b: int)
    requires k >= 0
    ensures a <= b ==> k * a <= k * b
  {
    assert k * b - k * a == k * (b - a);
  }

  lemma MulCancel(k: int, a: int, b: int)
    requires k > 0 && k * a < k * b
    ensures a < b
  {
    MulMonotone(k, b, a);
  }

  /**
   * `Math.round(p / q)` for an exact quotient: the integer nearest p/q, halves
   * rounding up (towards +infinity), that is floor(p/q + 1/2).
   */
  function RoundDiv(p: int, q: int): int
    requires q > 0
  {
    (2 * p + q) / (2 * q)
  }

  /** RoundDiv(p, q) is the r with r - 1/2 <= p/q < r + 1/2. */
  lemma RoundDivSpec(p: int, q: int)
    requires q > 0
    ensures 2 * q * RoundDiv(p, q) <= 2 * p + q < 2 * q * (RoundDiv(p, q) + 1)
  {
  }

  /** Rounding a quotient that lies in [0, c] gives a value in [0, c]. */
  lemma RoundDivWithin(p: int, q: int, c: int)
    requires q > 0 && 0 <= p <= c * q
    ensures 0 <= RoundDiv(p, q) <= c
  {
    var r := RoundDiv(p, q);
    RoundDivSpec(p, q);
    MulCancel(2 * q, -1, r);
    assert 2 * q * r <= 2 * q * c + q < 2 * q * (c + 1);
    MulCancel(2 * q, r, c + 1);
  }

  /** A larger denominator never rounds to a larger value. */
  lemma RoundDivAntitone(p: int, q1: int, q2: int)
    requires p >= 0 && 0 < q2 <= q1
    ensures RoundDiv(p, q1) <= RoundDiv(p, q2)
  {
    var a := RoundDiv(p, q1);
    var b := RoundDiv(p, q2);
    RoundDivSpec(p, q1);
    RoundDivSpec(p, q2);
    MulCancel(2 * q2, -1, b);
    if a >= 1 {
      // q2 * (2a - 1) <= q1 * (2a - 1) <= 2p, so 2 * q2 * a <= 2p + q2 < 2 * q2 * (b + 1)
      MulMonotone(2 * a - 1, q2, q1);
      assert q2 * (2 * a - 1) <= 2 * p;
      MulCancel(2 * q2, a, b + 1);
    }
  }

  /** An exact multiple rounds to itself. */
  lemma RoundDivExact(c: int, q: int)
    requires q > 0
    ensures RoundDiv(c * q, q) == c
  {
    var r := RoundDiv(c * q, q);
    RoundDivSpec(c * q, q);
    MulCancel(2 * q, r, c + 1);
    MulCancel(2 * q, c - 1, r);
  }

  function DigitChar(d: nat): (c: char)
    requires d < 10
    ensures IsDigit(c)
  {
    ('0' as int + d) as char
  }

  /** `String(n)` / template interpolation of a natural number, in decimal. */
  function NatToString(n: nat): (s: string)
    ensures 0 < |s|
    ensures forall i :: 0 <= i < |s| ==> IsDigit(s[i])
    ensures n < 10 <==> |s| == 1
    decreases n
  {
    if n < 10 then [DigitChar(n)] else NatToString(n / 10) + [DigitChar(n % 10)]
  }

  /** Distinct numbers print differently. */
  lemma {:induction false} NatToStringInjective(a: nat, b: nat)
    requires NatToString(a) == NatToString(b)
    ensures a == b
    decreases a
  {
    if a >= 10 && b >= 10 {
      var sa, sb := NatToString(a), NatToString(b);
      assert sa[..|sa| - 1] == NatToString(a / 10);
      assert sb[..|sb| - 1] == NatToString(b / 10);
      NatToStringInjective(a / 10, b / 10);
      assert DigitChar(a % 10) == DigitChar(b % 10);
    }
  }

  // ---------------------------------------------------------------- dedup and counting

  predicate NoDuplicates<T(==)>(xs: seq<T>) {
    forall i, j :: 0 <= i < j < |xs| ==> xs[i] != xs[j]
  }

  /**
   * `[...new Set(xs)]`: the distinct elements of xs in order of first
   * occurrence (a Set iterates in insertion order and ignores re-insertion).
   */
  function Dedup<T(==)>(xs: seq<T>): (r: seq<T>)
    ensures |r| <= |xs|
    decreases |xs|
  {
    if xs == [] then []
    else
      var d := Dedup(xs[..|xs| - 1]);
      var x := xs[|xs| - 1];
      if x in d then d else d + [x]
  }

  /** Dedup keeps each element of xs exactly once and adds nothing. */
  lemma {:induction false} DedupDistinct<T(!new)>(xs: seq<T>)
    ensures NoDuplicates(Dedup(xs))
    ensures forall x :: x in Dedup(xs) <==> x in xs
    decreases |xs|
  {
    if xs != [] {
      var p, x := xs[..|xs| - 1], xs[|xs| - 1];
      DedupDistinct(p);
      assert xs == p + [x];
    }
  }

  /** Position of the first occurrence of x in xs. */
  function IndexOf<T(==)>(xs: seq<T>, x: T): (k: nat)
    requires x in xs
    ensures k < |xs| && xs[k] == x && x !in xs[..k]
  {
    if xs[0] == x then 0
    else
      var k := IndexOf(xs[1..], x);
      assert xs[..k + 1] == [xs[0]] + xs[1..][..k];
      1 + k
  }

  lemma {:induction false} IndexOfUnique<T>(xs: seq<T>, x: T, k: nat)
    requires k < |xs| && xs[k] == x && x !in xs[..k]
    ensures IndexOf(xs, x) == k
  {
    if k > 0 {
      assert xs[0] != x by { assert xs[..k][0] == xs[0]; }
      assert xs[1..][..k - 1] == xs[..k][1..];
      IndexOfUnique(xs[1..], x, k - 1);
    }
  }

  /** Dedup lists the distinct elements in the order of their first occurrences. */
  lemma {:induction false} DedupFirstOccurrenceOrder<T(!new)>(xs: seq<T>, i: nat, j: nat)
    requires i < j < |Dedup(xs)|
    ensures Dedup(xs)[i] in xs && Dedup(xs)[j] in xs
    ensures IndexOf(xs, Dedup(xs)[i]) < IndexOf(xs, Dedup(xs)[j])
    decreases |xs|
  {
    var p := xs[..|xs| - 1];
    var x := xs[|xs| - 1];
    var d := Dedup(p);
    assert xs == p + [x];
    DedupDistinct(p);
    forall y | y in p ensures IndexOf(xs, y) == IndexOf(p, y) {
      var k := IndexOf(p, y);
      assert xs[..k] == p[..k];
      IndexOfUnique(xs, y, k);
    }
    if x in d {
      DedupFirstOccurrenceOrder(p, i, j);
    } else {
      if j < |d| {
        DedupFirstOccurrenceOrder(p, i, j);
      } else {
        assert Dedup(xs)[j] == x && x !in p;
        IndexOfUnique(xs, x, |xs| - 1);
      }
    }
  }

  /** Number of occurrences of x in xs. */
  function Count<T(==)>(xs: seq<T>, x: T): (n: nat)
    ensures n <= |xs|
    ensures n > 0 <==> x in xs
    decreases |xs|
  {
    if xs == [] then 0
    else
      var p := xs[..|xs| - 1];
      assert xs == p + [xs[|xs| - 1]];
      Count(p, x) + (if xs[|xs| - 1] == x then 1 else 0)
  }

  lemma CountSnoc<T>(xs: seq<T>, y: T, x: T)
    ensures Count(xs + [y], x) == Count(xs, x) + (if y == x then 1 else 0)
  {
    assert (xs + [y])[..|xs|] == xs;
  }

  lemma {:induction false} CountOfDistinct<T>(keys: seq<T>, y: T)
    requires NoDuplicates(keys)
    ensures Count(keys, y) == if y in keys then 1 else 0
    decreases |keys|
  {
    if keys != [] {
      var p := keys[..|keys| - 1];
      assert keys == p + [keys[|keys| - 1]];
      CountOfDistinct(p, y);
    }
  }

  /** Sum over keys of the number of occurrences of each key in xs. */
  function SumCounts<T(==)>(keys: seq<T>, xs: seq<T>): nat
    decreases |keys|
  {
    if keys == [] then 0
    else SumCounts(keys[..|keys| - 1], xs) + Count(xs, keys[|keys| - 1])
  }

  lemma {:induction false} SumCountsSnoc<T>(keys: seq<T>, xs: seq<T>, y: T)
    ensures SumCounts(keys, xs + [y]) == SumCounts(keys, xs) + Count(keys, y)
    decreases |keys|
  {
    if keys != [] {
      var p := keys[..|keys| - 1];
      var k := keys[|keys| - 1];
      SumCountsSnoc(p, xs, y);
      CountSnoc(xs, y, k);
      assert keys == p + [k];
      CountSnoc(p, k, y);
    }
  }

  lemma SumCountsAppendKey<T>(keys: seq<T>, k: T, xs: seq<T>)
    ensures SumCounts(keys + [k], xs) == SumCounts(keys, xs) + Count(xs, k)
  {
    assert (keys + [k])[..|keys|] == keys;
  }

  /** Counting every distinct element once accounts for every element: the counts sum to |xs|. */
  lemma {:induction false} SumCountsOfDedup<T(!new)>(xs: seq<T>)
    ensures SumCounts(Dedup(xs), xs) == |xs|
    decreases |xs|
  {
    if xs != [] {
      var p := xs[..|xs| - 1];
      var y := xs[|xs| - 1];
      var d := Dedup(p);
      assert xs == p + [y];
      DedupDistinct(p);
      SumCountsOfDedup(p);
      SumCountsSnoc(d, p, y);
      CountOfDistinct(d, y);
      if y !in d {
        SumCountsAppendKey(d, y, xs);
        CountSnoc(p, y, y);
      }
    }
  }
}
