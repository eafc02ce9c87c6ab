/**
 * String helpers standing for the JavaScript string methods the components
 * call: `toLowerCase`, `startsWith`, `includes`, `Array.prototype.join`,
 * and the decimal rendering of a count in a template literal.
 */
module Text {

  predicate IsUpper(c: char) { 'A' <= c <= 'Z' }

  predicate IsDigit(c: char) { '0' <= c <= '9' }

  /**
   * The ECMAScript WhiteSpace and LineTerminator code points: what `trim`
   * removes and what `parseFloat` skips before the number.
   */
  predicate IsJsWhitespace(c: char) {
    c in {'\t', '\n', '\U{000B}', '\U{000C}', '\r', ' ', '\U{00A0}', '\U{1680}',
          '\U{2028}', '\U{2029}', '\U{202F}', '\U{205F}', '\U{3000}', '\U{FEFF}'}
    || '\U{2000}' <= c <= '\U{200A}'
  }

  /** `toLowerCase` on one character, for the ASCII letters. */
  function LowerChar(c: char): (r: char)
    ensures !IsUpper(r)
    ensures IsUpper(c) ==> r as int == c as int + 32
    ensures !IsUpper(c) ==> r == c
  {
    if IsUpper(c) then (c as int + 32) as char else c
  }

  /** `s.toLowerCase()`, for the ASCII letters. */
  function Lower(s: string): (r: string)
    ensures |r| == |s|
    ensures forall i :: 0 <= i < |s| ==> r[i] == LowerChar(s[i])
  {
    seq(|s|, i requires 0 <= i < |s| => LowerChar(s[i]))
  }

  lemma LowerHasNoUpper(s: string)
    ensures forall i :: 0 <= i < |s| ==> !IsUpper(Lower(s)[i])
  {
  }

  lemma LowerIdempotent(s: string)
    ensures Lower(Lower(s)) == Lower(s)
  {
  }

  lemma LowerAppend(a: string, b: string)
    ensures Lower(a + b) == Lower(a) + Lower(b)
  {
  }

  predicate StartsWith(s: string, prefix: string) {
    |prefix| <= |s| && s[..|prefix|] == prefix
  }

  /** One differing character rules a prefix out. */
  lemma DiffersAt(s: string, prefix: string, k: nat)
    requires k < |prefix| && k < |s| && s[k] != prefix[k]
    ensures !StartsWith(s, prefix)
  {
    if |prefix| <= |s| {
      assert s[..|prefix|][k] == s[k];
    }
  }

  /** `part` occurs in `s` starting at index `i`. */
  predicate OccursAt(s: string, part: string, i: int) {
    0 <= i <= |s| - |part| && s[i..i + |part|] == part
  }

  /** `s.includes(part)`, searching from the left. */
  function Contains(s: string, part: string): bool
    decreases |s|
  {
    if StartsWith(s, part) then true
    else if |s| <= |part| then false
    else Contains(s[1..], part)
  }

  /** `includes` holds exactly when `part` occurs somewhere in `s`. */
  lemma {:induction false} ContainsIff(s: string, part: string)
    ensures Contains(s, part) <==> exists i :: OccursAt(s, part, i)
    decreases |s|
  {
    if StartsWith(s, part) {
      assert OccursAt(s, part, 0);
    } else if |s| > |part| {
      ContainsIff(s[1..], part);
      forall i | 1 <= i <= |s| - |part|
        ensures OccursAt(s, part, i) == OccursAt(s[1..], part, i - 1)
      {
        assert s[1..][i - 1..i - 1 + |part|] == s[i..i + |part|];
      }
      if Contains(s[1..], part) {
        var j :| OccursAt(s[1..], part, j);
        assert OccursAt(s, part, j + 1);
      }
    }
  }

  /** The occurrence `s[i..i + |part|]` is found by `includes`. */
  lemma ContainsOccurrence(s: string, part: string, i: int)
    requires OccursAt(s, part, i)
    ensures Contains(s, part)
  {
    ContainsIff(s, part);
  }

  /** `xs.join(sep)`. */
  function Join(xs: seq<string>, sep: string): string
    decreases |xs|
  {
    if |xs| == 0 then ""
    else if |xs| == 1 then xs[0]
    else xs[0] + sep + Join(xs[1..], sep)
  }

  /** Joining with a one-character separator that no part contains adds exactly one separator per gap. */
  lemma {:induction false} JoinSeparatorCount(xs: seq<string>, sep: char)
    requires forall i :: 0 <= i < |xs| ==> sep !in xs[i]
    ensures multiset(Join(xs, [sep]))[sep] == if |xs| == 0 then 0 else |xs| - 1
    decreases |xs|
  {
    if |xs| == 1 {
      assert sep !in xs[0];
    } else if |xs| > 1 {
      JoinSeparatorCount(xs[1..], sep);
      assert sep !in xs[0];
      assert multiset(xs[0] + [sep] + Join(xs[1..], [sep])) == multiset(xs[0]) + multiset([sep]) + multiset(Join(xs[1..], [sep]));
    }
  }

  function DigitChar(d: nat): (c: char)
    requires d < 10
    ensures IsDigit(c)
  {
    ((d + '0' as int) as char)
  }

  function DigitValue(c: char): (d: nat)
    requires IsDigit(c)
    ensures d < 10
  {
    c as int - '0' as int
  }

  /** The number a string of decimal digits denotes. */
  function DigitsValue(s: string): nat
    requires forall i :: 0 <= i < |s| ==> IsDigit(s[i])
    decreases |s|
  {
    if s == [] then 0 else DigitsValue(s[..|s| - 1]) * 10 + DigitValue(s[|s| - 1])
  }

  /** The decimal rendering of a count in a template literal (`${n}`). */
  function NatToString(n: nat): (r: string)
    ensures |r| > 0
    ensures forall i :: 0 <= i < |r| ==> IsDigit(r[i])
    decreases n
  {
    if n < 10 then [DigitChar(n)] else NatToString(n / 10) + [DigitChar(n % 10)]
  }

  /** Rendering a count and reading it back gives the count. */
  lemma {:induction false} NatToStringRoundTrip(n: nat)
    ensures DigitsValue(NatToString(n)) == n
    decreases n
  {
    var r := NatToString(n);
    if n >= 10 {
      NatToStringRoundTrip(n / 10);
      assert r[..|r| - 1] == NatToString(n / 10);
    }
  }

  /** A character that is neither in the parts nor the separator is not in the joined string. */
  lemma {:induction false} JoinAvoids(xs: seq<string>, sep: string, c: char)
    requires forall i :: 0 <= i < |xs| ==> c !in xs[i]
    requires c !in sep
    ensures c !in Join(xs, sep)
    decreases |xs|
  {
    if |xs| > 1 {
      JoinAvoids(xs[1..], sep, c);
    }
  }

  /** `s.indexOf(c)` for a character that occurs. */
  function IndexOf(s: string, c: char): (i: nat)
    requires c in s
    ensures i < |s| && s[i] == c && c !in s[..i]
    decreases |s|
  {
    if s[0] == c then 0
    else
      assert s == [s[0]] + s[1..];
      var j := IndexOf(s[1..], c);
      assert s[..j + 1] == [s[0]] + s[1..][..j];
      j + 1
  }

  /** The index of the first `c` is the only index before which no `c` occurs. */
  lemma IndexOfUnique(s: string, c: char, i: nat)
    requires i < |s| && s[i] == c && c !in s[..i]
    ensures IndexOf(s, c) == i
  {
  }

  /** `s.split(c)` for a one-character separator. */
  function Split(s: string, c: char): (r: seq<string>)
    ensures |r| > 0
    decreases |s|
  {
    if c in s then
      var i := IndexOf(s, c);
      [s[..i]] + Split(s[i + 1..], c)
    else [s]
  }

  /** Splitting `a + c + b` where `a` holds no `c` yields `a` and then the pieces of `b`. */
  lemma SplitAfter(a: string, c: char, b: string)
    requires c !in a
    ensures Split(a + [c] + b, c) == [a] + Split(b, c)
  {
    var s := a + [c] + b;
    assert s[..|a|] == a;
    IndexOfUnique(s, c, |a|);
    assert s[|a| + 1..] == b;
  }

  /** Splitting a join by a separator no part contains gives back the parts. */
  lemma {:induction false} SplitJoin(xs: seq<string>, c: char)
    requires |xs| > 0
    requires forall i :: 0 <= i < |xs| ==> c !in xs[i]
    ensures Split(Join(xs, [c]), c) == xs
    decreases |xs|
  {
    if |xs| == 1 {
      assert c !in xs[0];
    } else {
      SplitJoin(xs[1..], c);
      assert c !in xs[0];
      SplitAfter(xs[0], c, Join(xs[1..], [c]));
    }
  }

  /** `s.split(c)[0]`: everything before the first `c`, or all of `s`. */
  function BeforeFirst(s: string, c: char): (r: string)
    ensures c !in r
    ensures StartsWith(s, r)
    ensures |r| == |s| || s[|r|] == c
  {
    if c in s then s[..IndexOf(s, c)] else s
  }

  /** The part before the first `c` of `a + c + b` is `a`. */
  lemma BeforeFirstOf(a: string, c: char, b: string)
    requires c !in a
    ensures BeforeFirst(a + [c] + b, c) == a
  {
    var s := a + [c] + b;
    assert s[..|a|] == a;
    IndexOfUnique(s, c, |a|);
  }
}
