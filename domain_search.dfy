/**
 * The search box on the landing page (frontend/src/pages/Index.tsx): a blank
 * input is refused; any other input is cleaned (one leading `http://` or
 * `https://` removed, then one leading `www.`, then everything from the
 * first `/` that the pattern `\/.*$` can reach, then lower-cased) and the
 * browser is sent to `/archive/` followed by the cleaned domain passed
 * through `encodeURIComponent`.
 */
module DomainSearch {
  import opened Maybe
  import opened Text
  import opened Snapshots

  // ---- the emptiness test ----

  /** `s.trim()`: leading and trailing ECMAScript white space and line terminators removed. */
  function Trim(s: string): (r: string)
    ensures |r| <= |s|
    decreases |s|
  {
    if s == [] then []
    else if IsJsWhitespace(s[0]) then Trim(s[1..])
    else if IsJsWhitespace(s[|s| - 1]) then Trim(s[..|s| - 1])
    else s
  }

  predicate IsBlank(s: string) {
    forall i :: 0 <= i < |s| ==> IsJsWhitespace(s[i])
  }

  /** `!s.trim()` holds exactly when every character of `s` is white space. */
  lemma {:induction false} TrimEmptyIffBlank(s: string)
    ensures Trim(s) == [] <==> IsBlank(s)
    decreases |s|
  {
    if s != [] {
      if IsJsWhitespace(s[0]) {
        TrimEmptyIffBlank(s[1..]);
        assert IsBlank(s) <==> IsBlank(s[1..]) by {
          if IsBlank(s[1..]) {
            forall i | 0 <= i < |s|
              ensures IsJsWhitespace(s[i])
            {
              if i > 0 {
                assert s[i] == s[1..][i - 1];
              }
            }
          }
        }
      } else if IsJsWhitespace(s[|s| - 1]) {
        TrimEmptyIffBlank(s[..|s| - 1]);
        assert !IsBlank(s) && !IsBlank(s[..|s| - 1]) by {
          assert s[..|s| - 1][0] == s[0];
        }
      }
    }
  }

  // ---- cleaning ----

  /** `replace(/^https?:\/\//, "")`: at most one protocol prefix, matched case-sensitively. */
  function StripProtocol(s: string): (r: string)
    ensures StartsWith(s, "https://") ==> r == s[8..]
    ensures StartsWith(s, "http://") ==> r == s[7..]
    ensures !StartsWith(s, "https://") && !StartsWith(s, "http://") ==> r == s
  {
    assert StartsWith(s, "https://") ==> s[..8][4] == s[4] == 's';
    assert StartsWith(s, "http://") ==> s[..7][4] == s[4] == ':';
    if StartsWith(s, "https://") then s[8..]
    else if StartsWith(s, "http://") then s[7..]
    else s
  }

  /** `replace(/^www\./, "")`: at most one `www.` prefix, matched case-sensitively. */
  function StripWww(s: string): (r: string)
    ensures StartsWith(s, "www.") ==> r == s[4..]
    ensures !StartsWith(s, "www.") ==> r == s
  {
    if StartsWith(s, "www.") then s[4..] else s
  }

  /** The ECMAScript line terminators, which `.` in a pattern does not match. */
  predicate IsLineTerminator(c: char) {
    c == '\n' || c == '\r' || c == '\U{2028}' || c == '\U{2029}'
  }

  predicate NoLineTerminator(s: string) {
    forall i :: 0 <= i < |s| ==> !IsLineTerminator(s[i])
  }

  /**
   * `replace(/\/.*$/, "")`: cut at the first `/` after which no line
   * terminator occurs (`.*` must reach the end of the input); unchanged if
   * there is no such `/`.
   */
  function CutPath(s: string): (r: string)
    ensures StartsWith(s, r)
    decreases |s|
  {
    if s == [] then []
    else if s[0] == '/' && NoLineTerminator(s[1..]) then []
    else [s[0]] + CutPath(s[1..])
  }

  /** On a single line, the cut removes everything from the first `/`, so no `/` is left. */
  lemma {:induction false} CutPathRemovesSlash(s: string)
    requires NoLineTerminator(s)
    ensures '/' !in CutPath(s)
    ensures '/' in s ==> CutPath(s) == s[..IndexOf(s, '/')]
    ensures '/' !in s ==> CutPath(s) == s
    decreases |s|
  {
    if s != [] {
      assert NoLineTerminator(s[1..]) by {
        forall i | 0 <= i < |s| - 1
          ensures !IsLineTerminator(s[1..][i])
        {
          assert s[1..][i] == s[i + 1];
        }
      }
      if s[0] != '/' {
        CutPathRemovesSlash(s[1..]);
        assert s == [s[0]] + s[1..];
        if '/' in s {
          var k := IndexOf(s[1..], '/');
          assert s[..k + 1] == [s[0]] + s[1..][..k];
          IndexOfUnique(s, '/', k + 1);
        }
      } else {
        IndexOfUnique(s, '/', 0);
      }
    }
  }

  /** Across lines a `/` can survive: in "a/b" + newline + "c" the pattern finds no `/` whose rest is one line. */
  lemma CutPathKeepsSlashBeforeNewline()
    ensures CutPath("a/b\nc") == "a/b\nc"
    ensures '/' in CutPath("a/b\nc")
  {
    var s := "a/b\nc";
    assert !NoLineTerminator(s[2..]) by { assert s[2..][1] == '\n'; }
    assert CutPath(s[4..]) == "c";
    assert CutPath(s[3..]) == "\nc";
    assert CutPath(s[2..]) == "b\nc";
    assert CutPath(s[1..]) == "/b\nc";
  }

  /** The cleaned domain. */
  function CleanDomain(input: string): (r: string)
    ensures |r| <= |input|
    ensures forall i :: 0 <= i < |r| ==> !IsUpper(r[i])
  {
    LowerHasNoUpper(CutPath(StripWww(StripProtocol(input))));
    Lower(CutPath(StripWww(StripProtocol(input))))
  }

  /** Input on a single line cleans to a domain without `/`. */
  lemma CleanDomainHasNoSlash(input: string)
    requires NoLineTerminator(input)
    ensures '/' !in CleanDomain(input)
  {
    var stripped := StripWww(StripProtocol(input));
    assert NoLineTerminator(stripped) by {
      assert StripProtocol(input) == input[|input| - |StripProtocol(input)|..];
      assert stripped == StripProtocol(input)[|StripProtocol(input)| - |stripped|..];
      forall i | 0 <= i < |stripped|
        ensures !IsLineTerminator(stripped[i])
      {
        assert stripped[i] == input[|input| - |stripped| + i];
      }
    }
    CutPathRemovesSlash(stripped);
    var cut := CutPath(stripped);
    forall i | 0 <= i < |cut|
      ensures Lower(cut)[i] != '/'
    {
      assert cut[i] != '/';
    }
  }

  /** A domain that has no prefix to strip, no `/` and no capital is left as it is. */
  lemma CleanDomainKeepsPlainDomain(s: string)
    requires !StartsWith(s, "https://") && !StartsWith(s, "http://") && !StartsWith(s, "www.")
    requires '/' !in s && NoLineTerminator(s)
    requires forall i :: 0 <= i < |s| ==> !IsUpper(s[i])
    ensures CleanDomain(s) == s
  {
    CutPathRemovesSlash(s);
  }

  /** Cleaning text with no prefix, no `/` and no line terminator only lower-cases it. */
  lemma LowerOfPlain(s: string)
    requires StripWww(StripProtocol(s)) == s
    requires '/' !in s && NoLineTerminator(s)
    ensures CleanDomain(s) == Lower(s)
  {
    CutPathRemovesSlash(s);
  }

  /** The prefixes are matched before lower-casing: an upper-case `WWW.` is kept, in lower case. */
  lemma UpperCaseWwwKept(d: string)
    requires '/' !in d && NoLineTerminator(d)
    ensures CleanDomain("WWW." + d) == "www." + Lower(d)
  {
    var s := "WWW." + d;
    DiffersAt(s, "https://", 0);
    DiffersAt(s, "http://", 0);
    DiffersAt(s, "www.", 0);
    assert NoLineTerminator(s) by {
      forall i | 4 <= i < |s|
        ensures !IsLineTerminator(s[i])
      {
        assert s[i] == d[i - 4];
      }
    }
    LowerOfPlain(s);
    LowerAppend("WWW.", d);
    assert Lower("WWW.") == "www.";
  }

  /** On one line, everything from the first `/` goes. */
  lemma CutAtSlash(d: string, path: string)
    requires '/' !in d && NoLineTerminator(d) && NoLineTerminator(path)
    ensures CutPath(d + "/" + path) == d
  {
    var t := d + "/" + path;
    assert NoLineTerminator(t) by {
      forall i | 0 <= i < |t|
        ensures !IsLineTerminator(t[i])
      {
        if i < |d| {
          assert t[i] == d[i];
        } else if i > |d| {
          assert t[i] == path[i - |d| - 1];
        }
      }
    }
    CutPathRemovesSlash(t);
    IndexOfUnique(t, '/', |d|);
    assert t[..|d|] == d;
  }

  /** One protocol prefix and then one `www.` are removed, and the path goes. */
  lemma ProtocolThenWww(d: string, path: string)
    requires '/' !in d && NoLineTerminator(d) && NoLineTerminator(path)
    ensures CleanDomain("https://www." + d + "/" + path) == Lower(d)
    ensures CleanDomain("http://www." + d + "/" + path) == Lower(d)
  {
    var rest := d + "/" + path;
    var s := "https://www." + d + "/" + path;
    assert s[..8] == "https://";
    assert s[8..] == "www." + rest;
    assert (s[8..])[..4] == "www." && (s[8..])[4..] == rest;
    assert StripWww(StripProtocol(s)) == rest;
    var u := "http://www." + d + "/" + path;
    DiffersAt(u, "https://", 4);
    assert u[..7] == "http://";
    assert u[7..] == "www." + rest;
    assert (u[7..])[..4] == "www." && (u[7..])[4..] == rest;
    assert StripWww(StripProtocol(u)) == rest;
    CutAtSlash(d, path);
  }

  /** `trim` only decides emptiness: surrounding spaces stay in the cleaned domain. */
  lemma SpacesKept()
    ensures CleanDomain(" a.com ") == " a.com "
  {
    var s := " a.com ";
    DiffersAt(s, "https://", 0);
    DiffersAt(s, "http://", 0);
    DiffersAt(s, "www.", 0);
    LowerOfPlain(s);
    assert Lower(s) == s;
  }

  // ---- encodeURIComponent, and its inverse ----

  /** The characters `encodeURIComponent` leaves as they are. */
  predicate Unreserved(c: char) {
    ('A' <= c <= 'Z') || ('a' <= c <= 'z') || ('0' <= c <= '9') ||
    c in {'-', '_', '.', '!', '~', '*', '\'', '(', ')'}
  }

  /** The UTF-8 bytes of one character. */
  function Utf8(c: char): (bs: seq<nat>)
    ensures 1 <= |bs| <= 4
    ensures forall i :: 0 <= i < |bs| ==> bs[i] < 256
    ensures (c as int < 0x80) <==> |bs| == 1
  {
    var n := c as int;
    if n < 0x80 then [n]
    else if n < 0x800 then [0xC0 + n / 64, 0x80 + n % 64]
    else if n < 0x10000 then [0xE0 + n / 4096, 0x80 + (n / 64) % 64, 0x80 + n % 64]
    else [0xF0 + n / 262144, 0x80 + (n / 4096) % 64, 0x80 + (n / 64) % 64, 0x80 + n % 64]
  }

  function HexDigit(d: nat): (c: char)
    requires d < 16
    ensures IsHexDigit(c) && HexValue(c) == d
  {
    if d < 10 then (d + '0' as int) as char else (d - 10 + 'A' as int) as char
  }

  predicate IsHexDigit(c: char) {
    ('0' <= c <= '9') || ('A' <= c <= 'F') || ('a' <= c <= 'f')
  }

  function HexValue(c: char): (d: nat)
    requires IsHexDigit(c)
    ensures d < 16
  {
    if '0' <= c <= '9' then c as int - '0' as int
    else if 'A' <= c <= 'F' then c as int - 'A' as int + 10
    else c as int - 'a' as int + 10
  }

  /** `%XY` with upper-case hex digits. */
  function Percent(b: nat): (r: string)
    requires b < 256
    ensures |r| == 3 && r[0] == '%' && IsHexDigit(r[1]) && IsHexDigit(r[2])
    ensures HexValue(r[1]) * 16 + HexValue(r[2]) == b
  {
    ['%', HexDigit(b / 16), HexDigit(b % 16)]
  }

  function PercentAll(bs: seq<nat>): string
    requires forall i :: 0 <= i < |bs| ==> bs[i] < 256
    decreases |bs|
  {
    if bs == [] then [] else Percent(bs[0]) + PercentAll(bs[1..])
  }

  function EncodeChar(c: char): string {
    if Unreserved(c) then [c] else PercentAll(Utf8(c))
  }

  /** `encodeURIComponent(s)` on a string of Unicode scalar values. */
  function EncodeURIComponent(s: string): string
    decreases |s|
  {
    if s == [] then [] else EncodeChar(s[0]) + EncodeURIComponent(s[1..])
  }

  function PrependBytes(bs: seq<nat>, o: Option<seq<nat>>): Option<seq<nat>> {
    match o
    case None => None
    case Some(rest) => Some(bs + rest)
  }

  function PrependChar(c: char, o: Option<string>): Option<string> {
    match o
    case None => None
    case Some(rest) => Some([c] + rest)
  }

  /** The bytes an encoded component stands for: `%XY` is one byte, an ASCII character is its own byte. */
  function PercentBytes(t: string): Option<seq<nat>>
    decreases |t|
  {
    if t == [] then Some([])
    else if t[0] == '%' then
      if |t| >= 3 && IsHexDigit(t[1]) && IsHexDigit(t[2]) then
        PrependBytes([HexValue(t[1]) * 16 + HexValue(t[2])], PercentBytes(t[3..]))
      else None
    else if (t[0] as int) < 0x80 then PrependBytes([t[0] as int], PercentBytes(t[1..]))
    else None
  }

  predicate IsContinuation(b: nat) { 0x80 <= b < 0xC0 }

  /** How many bytes the sequence that `b` starts has (0 when `b` cannot start one). */
  function SequenceLength(b: nat): nat {
    if b < 0x80 then 1
    else if 0xC0 <= b < 0xE0 then 2
    else if 0xE0 <= b < 0xF0 then 3
    else if 0xF0 <= b < 0xF8 then 4
    else 0
  }

  /** The code point of one well-formed byte sequence. */
  function SequenceValue(bs: seq<nat>): int
    requires 1 <= |bs| <= 4
  {
    if |bs| == 1 then bs[0]
    else if |bs| == 2 then (bs[0] as int - 0xC0) * 64 + (bs[1] as int - 0x80)
    else if |bs| == 3 then (bs[0] as int - 0xE0) * 4096 + (bs[1] as int - 0x80) * 64 + (bs[2] as int - 0x80)
    else (bs[0] as int - 0xF0) * 262144 + (bs[1] as int - 0x80) * 4096 + (bs[2] as int - 0x80) * 64 + (bs[3] as int - 0x80)
  }

  predicate IsScalarValue(v: int) {
    (0 <= v < 0xD800) || (0xE000 <= v < 0x11_0000)
  }

  /** UTF-8 decoding of a byte sequence into characters; `None` if it is malformed. */
  function Utf8Decode(bs: seq<nat>): Option<string>
    decreases |bs|
  {
    if bs == [] then Some([])
    else
      var len := SequenceLength(bs[0]);
      if len == 0 || |bs| < len then None
      else if exists i :: 1 <= i < len && !IsContinuation(bs[i]) then None
      else
        var v := SequenceValue(bs[..len]);
        if !IsScalarValue(v) then None
        else PrependChar(v as char, Utf8Decode(bs[len..]))
  }

  /** `decodeURIComponent`, for the strings `encodeURIComponent` can produce. */
  function DecodeURIComponent(t: string): Option<string> {
    match PercentBytes(t)
    case None => None
    case Some(bs) => Utf8Decode(bs)
  }

  lemma {:induction false} PercentBytesOfPercents(bs: seq<nat>, rest: string)
    requires forall i :: 0 <= i < |bs| ==> bs[i] < 256
    ensures PercentBytes(PercentAll(bs) + rest) == PrependBytes(bs, PercentBytes(rest))
    decreases |bs|
  {
    if bs != [] {
      var t := PercentAll(bs) + rest;
      var p := Percent(bs[0]);
      assert t == p + (PercentAll(bs[1..]) + rest);
      assert t[0] == '%' && t[1] == p[1] && t[2] == p[2];
      assert t[3..] == PercentAll(bs[1..]) + rest;
      PercentBytesOfPercents(bs[1..], rest);
      match PercentBytes(rest)
      case Some(r) =>
        assert [bs[0]] + (bs[1..] + r) == bs + r;
      case None =>
    } else {
      assert PercentAll(bs) + rest == rest;
      match PercentBytes(rest)
      case Some(r) => assert bs + r == r;
      case None =>
    }
  }

  lemma PercentBytesOfChar(c: char, rest: string)
    ensures PercentBytes(EncodeChar(c) + rest) == PrependBytes(Utf8(c), PercentBytes(rest))
  {
    if Unreserved(c) {
      assert (EncodeChar(c) + rest)[1..] == rest;
    } else {
      PercentBytesOfPercents(Utf8(c), rest);
    }
  }

  /** The UTF-8 bytes of a whole string. */
  function Utf8All(s: string): seq<nat>
    decreases |s|
  {
    if s == [] then [] else Utf8(s[0]) + Utf8All(s[1..])
  }

  lemma {:induction false} PercentBytesOfEncoding(s: string)
    ensures PercentBytes(EncodeURIComponent(s)) == Some(Utf8All(s))
    decreases |s|
  {
    if s != [] {
      PercentBytesOfEncoding(s[1..]);
      PercentBytesOfChar(s[0], EncodeURIComponent(s[1..]));
    }
  }

  /** The first byte announces the length, the others are continuation bytes, and together they give the code point back. */
  lemma Utf8WellFormed(c: char)
    ensures SequenceLength(Utf8(c)[0]) == |Utf8(c)|
    ensures forall i :: 1 <= i < |Utf8(c)| ==> IsContinuation(Utf8(c)[i])
    ensures SequenceValue(Utf8(c)) == c as int
  {
    var n := c as int;
    if n < 0x80 {
    } else if n < 0x800 {
      assert n == (n / 64) * 64 + n % 64;
    } else if n < 0x10000 {
      var q := n / 64;
      assert n == q * 64 + n % 64;
      assert q == (q / 64) * 64 + q % 64;
      assert q / 64 == n / 4096;
    } else {
      var q := n / 64;
      var p := q / 64;
      assert n == q * 64 + n % 64;
      assert q == p * 64 + q % 64;
      assert p == (p / 64) * 64 + p % 64;
      assert p == n / 4096;
      assert p / 64 == n / 262144;
    }
  }

  /** The bytes of one character decode back to it, whatever follows. */
  lemma Utf8DecodeChar(c: char, rest: seq<nat>)
    ensures Utf8Decode(Utf8(c) + rest) == PrependChar(c, Utf8Decode(rest))
  {
    var bs := Utf8(c) + rest;
    var len := |Utf8(c)|;
    Utf8WellFormed(c);
    assert bs[..len] == Utf8(c);
    assert bs[len..] == rest;
    assert bs[0] == Utf8(c)[0];
    assert forall i :: 1 <= i < len ==> bs[i] == Utf8(c)[i];
  }

  lemma {:induction false} Utf8DecodeAll(s: string)
    ensures Utf8Decode(Utf8All(s)) == Some(s)
    decreases |s|
  {
    if s != [] {
      Utf8DecodeAll(s[1..]);
      Utf8DecodeChar(s[0], Utf8All(s[1..]));
      assert s == [s[0]] + s[1..];
    }
  }

  /** Decoding an encoded component gives back the component. */
  lemma DecodeEncode(s: string)
    ensures DecodeURIComponent(EncodeURIComponent(s)) == Some(s)
  {
    PercentBytesOfEncoding(s);
    Utf8DecodeAll(s);
  }

  /** An encoded component never contains `/`, so the route sees one path segment. */
  lemma {:induction false} EncodedHasNoSlash(s: string)
    ensures '/' !in EncodeURIComponent(s)
    decreases |s|
  {
    if s != [] {
      EncodedHasNoSlash(s[1..]);
      if !Unreserved(s[0]) {
        PercentAllHasNoSlash(Utf8(s[0]));
      }
    }
  }

  lemma {:induction false} PercentAllHasNoSlash(bs: seq<nat>)
    requires forall i :: 0 <= i < |bs| ==> bs[i] < 256
    ensures '/' !in PercentAll(bs)
    decreases |bs|
  {
    if bs != [] {
      PercentAllHasNoSlash(bs[1..]);
    }
  }

  /** A string made of unreserved characters is encoded as itself. */
  lemma {:induction false} EncodeUnreserved(s: string)
    requires forall i :: 0 <= i < |s| ==> Unreserved(s[i])
    ensures EncodeURIComponent(s) == s
    decreases |s|
  {
    if s != [] {
      EncodeUnreserved(s[1..]);
      assert s == [s[0]] + s[1..];
    }
  }

  // ---- the handler ----

  datatype SearchOutcome = DomainRequired(notice: Notice) | Navigate(path: string)

  const DomainRequiredNotice := Notice("Domain Required", "Please enter a domain to search archives", true)

  /** `handleSearch` on the current input. */
  function HandleSearch(input: string): (r: SearchOutcome)
    ensures r.DomainRequired? <==> IsBlank(input)
    ensures r.DomainRequired? ==> r.notice == DomainRequiredNotice
    ensures r.Navigate? ==> r.path == "/archive/" + EncodeURIComponent(CleanDomain(input))
  {
    TrimEmptyIffBlank(input);
    if Trim(input) == [] then DomainRequired(DomainRequiredNotice)
    else Navigate("/archive/" + EncodeURIComponent(CleanDomain(input)))
  }

  /**
   * The route after a search: `/archive/` and one segment, and the segment
   * decodes back to the cleaned domain.
   */
  lemma SearchTarget(input: string)
    requires !IsBlank(input)
    ensures var path := HandleSearch(input).path;
            StartsWith(path, "/archive/") && '/' !in path[9..] &&
            DecodeURIComponent(path[9..]) == Some(CleanDomain(input))
  {
    var enc := EncodeURIComponent(CleanDomain(input));
    assert HandleSearch(input).path[9..] == enc;
    EncodedHasNoSlash(CleanDomain(input));
    DecodeEncode(CleanDomain(input));
  }

  /** The example buttons, which put their domain into the input. */
  const ExampleDomains := ["example.com", "github.com", "stackoverflow.com", "wikipedia.org"]

  /** A plain lower-case domain, such as each example, searches for itself. */
  lemma PlainDomainSearchesItself(d: string)
    requires d != []
    requires forall i :: 0 <= i < |d| ==> ('a' <= d[i] <= 'z') || d[i] == '.' || d[i] == '-'
    requires !StartsWith(d, "www.")
    ensures HandleSearch(d) == Navigate("/archive/" + d)
  {
    assert !IsBlank(d) by { assert !IsJsWhitespace(d[0]); }
    if |d| > 5 {
      DiffersAt(d, "https://", 5);
    } else {
      assert !StartsWith(d, "https://");
    }
    if |d| > 4 {
      DiffersAt(d, "http://", 4);
    } else {
      assert !StartsWith(d, "http://");
    }
    assert '/' !in d;
    CleanDomainKeepsPlainDomain(d);
    EncodeUnreserved(d);
  }

  /** Each example button searches for its own domain. */
  lemma ExampleSearchesItself(i: nat)
    requires i < |ExampleDomains|
    ensures HandleSearch(ExampleDomains[i]) == Navigate("/archive/" + ExampleDomains[i])
  {
    var d := ExampleDomains[i];
    DiffersAt(d, "www.", if i == 3 then 1 else 0);
    PlainDomainSearchesItself(d);
  }
}
