/**
 * The Python `str` and `os.path` operations that crab.py applies to what it
 * reads from /proc and from the file system: `isspace`, `startswith`, `in`,
 * `strip`, `split`, `rfind`, slicing, `int()`, `isdigit`, `os.path.join` and
 * `os.path.dirname`.
 */
module Text {
  import opened Wrappers

  // ---------------------------------------------------------------------
  // Characters
  // ---------------------------------------------------------------------

  /**
   * `str.isspace()` on one character: the ASCII controls tab to carriage
   * return and the file, group, record and unit separators, space, and the
   * Unicode spaces and separators (next line, no-break space, ogham space
   * mark, the en quad to hair space block, line and paragraph separators,
   * narrow no-break space, medium mathematical space, ideographic space).
   * This is also the set `\s` matches in a `str` pattern.
   */
  predicate IsSpace(c: char) {
    || '\t' <= c <= '\r'
    || '\U{1c}' <= c <= ' '
    || c == '\U{85}' || c == '\U{a0}' || c == '\U{1680}'
    || '\U{2000}' <= c <= '\U{200a}'
    || c == '\U{2028}' || c == '\U{2029}' || c == '\U{202f}' || c == '\U{205f}' || c == '\U{3000}'
  }

  /** Text made of visible ASCII characters holds no whitespace. */
  lemma VisibleText(s: string)
    requires forall i | 0 <= i < |s| :: '!' <= s[i] <= '~'
    ensures NoneOf(s, IsSpace)
  {
    forall c | c in s ensures !IsSpace(c) {
    }
  }


  predicate AllSpace(s: string) {
    forall i | 0 <= i < |s| :: IsSpace(s[i])
  }

  /** No character of `s` satisfies `isSep`. */
  predicate NoneOf(s: string, isSep: char -> bool) {
    forall c | c in s :: !isSep(c)
  }

  /** An ASCII decimal digit. */
  predicate IsDigit(c: char) {
    '0' <= c <= '9'
  }

  function DigitValue(c: char): (d: nat)
    requires IsDigit(c)
    ensures d < 10
  {
    c as int - '0' as int
  }

  function DigitChar(d: nat): (c: char)
    requires d < 10
    ensures IsDigit(c) && DigitValue(c) == d
  {
    ('0' as int + d) as char
  }

  // ---------------------------------------------------------------------
  // Prefixes, substrings, slices
  // ---------------------------------------------------------------------

  /** `s.startswith(p)`. */
  predicate StartsWith(s: string, p: string) {
    |p| <= |s| && s[..|p|] == p
  }

  /** `sub in s`. */
  predicate Contains(s: string, sub: string) {
    exists i | 0 <= i <= |s| :: StartsWith(s[i..], sub)
  }

  lemma ContainsAt(s: string, sub: string, i: nat)
    requires i + |sub| <= |s| && s[i..i + |sub|] == sub
    ensures Contains(s, sub)
  {
    assert StartsWith(s[i..], sub);
  }

  /** A substring one of whose characters never occurs in `s` is not in `s`. */
  lemma MissingChar(s: string, sub: string, k: nat)
    requires k < |sub| && sub[k] !in s
    ensures !Contains(s, sub)
  {
    forall i | 0 <= i <= |s| ensures !StartsWith(s[i..], sub) {
      if |sub| <= |s[i..]| {
        assert s[i..][k] in s;
      }
    }
  }

  /** `s[k:]` for a non-negative `k`: the last `|s| - k` characters, none once `k` passes the end. */
  function Drop(s: string, k: nat): (r: string)
    ensures |r| == if k <= |s| then |s| - k else 0
    ensures r == s[|s| - |r|..]
  {
    if k >= |s| then [] else s[k..]
  }

  /** `s[:k]` for a non-negative `k`: the first `k` characters, all of `s` once `k` passes the end. */
  function Take(s: string, k: nat): (r: string)
    ensures |r| == if k <= |s| then k else |s|
    ensures r == s[..|r|]
  {
    if k >= |s| then s else s[..k]
  }

  /** `s[:k] + s[k:] == s`: the two slices at the same index split the string. */
  lemma TakeDrop(s: string, k: nat)
    ensures Take(s, k) + Drop(s, k) == s
  {
    if k < |s| {
      assert s[..k] + s[k..] == s;
    }
  }

  /** `s.rfind(c)`: the last index holding `c`, or -1. */
  function LastIndexOf(s: string, c: char): (i: int)
    ensures -1 <= i < |s|
    ensures i >= 0 ==> s[i] == c
    ensures forall k | i < k < |s| :: s[k] != c
  {
    if s == [] then -1
    else if s[|s| - 1] == c then |s| - 1
    else LastIndexOf(s[..|s| - 1], c)
  }

  lemma {:induction false} LastIndexOfAfter(a: string, c: char, b: string)
    requires c !in b
    ensures LastIndexOf(a + [c] + b, c) == |a|
  {
    var s := a + [c] + b;
    assert s[|a|] == c;
    assert forall k | |a| < k < |s| :: s[k] == b[k - |a| - 1];
  }

  // ---------------------------------------------------------------------
  // strip
  // ---------------------------------------------------------------------

  function TrimLeft(s: string): (r: string)
    ensures |r| <= |s| && r == s[|s| - |r|..]
    ensures AllSpace(s[..|s| - |r|])
    ensures r == [] || !IsSpace(r[0])
  {
    if s != [] && IsSpace(s[0]) then
      var r := TrimLeft(s[1..]);
      assert s[..|s| - |r|] == [s[0]] + s[1..][..|s| - 1 - |r|];
      r
    else s
  }

  function TrimRight(s: string): (r: string)
    ensures |r| <= |s| && r == s[..|r|]
    ensures AllSpace(s[|r|..])
    ensures r == [] || !IsSpace(r[|r| - 1])
  {
    if s != [] && IsSpace(s[|s| - 1]) then
      var r := TrimRight(s[..|s| - 1]);
      assert s[|r|..] == s[..|s| - 1][|r|..] + [s[|s| - 1]];
      r
    else s
  }

  /** `s.strip()`: drops leading and trailing whitespace. */
  function Strip(s: string): (r: string)
    ensures |r| <= |s|
    ensures r == [] || (!IsSpace(r[0]) && !IsSpace(r[|r| - 1]))
  {
    TrimRight(TrimLeft(s))
  }

  lemma {:induction false} TrimLeftPadded(a: string, u: string)
    requires AllSpace(a)
    requires u == [] || !IsSpace(u[0])
    ensures TrimLeft(a + u) == u
  {
    if a == [] {
      assert a + u == u;
    } else {
      assert (a + u)[1..] == a[1..] + u;
      TrimLeftPadded(a[1..], u);
    }
  }

  lemma {:induction false} TrimRightPadded(u: string, b: string)
    requires AllSpace(b)
    requires u == [] || !IsSpace(u[|u| - 1])
    ensures TrimRight(u + b) == u
  {
    if b == [] {
      assert u + b == u;
    } else {
      assert (u + b)[..|u + b| - 1] == u + b[..|b| - 1];
      TrimRightPadded(u, b[..|b| - 1]);
    }
  }

  /** Strip removes exactly the whitespace around a text that neither starts nor ends with whitespace. */
  lemma {:induction false} StripPadded(a: string, t: string, b: string)
    requires AllSpace(a) && AllSpace(b)
    requires t == [] || (!IsSpace(t[0]) && !IsSpace(t[|t| - 1]))
    ensures Strip(a + t + b) == t
  {
    if t == [] {
      assert a + t + b == a + b;
      TrimLeftPadded(a + b, []);
      assert a + b + [] == a + b;
    } else {
      assert a + t + b == a + (t + b);
      TrimLeftPadded(a, t + b);
      TrimRightPadded(t, b);
    }
  }

  /** Trailing whitespace after trimmed text is all that `strip()` removes. */
  lemma StripTrailing(t: string, b: string)
    requires AllSpace(b)
    requires t == [] || (!IsSpace(t[0]) && !IsSpace(t[|t| - 1]))
    ensures Strip(t + b) == t
  {
    assert [] + t + b == t + b;
    StripPadded([], t, b);
  }

  /** Stripping twice is stripping once. */
  lemma StripIdempotent(s: string)
    ensures Strip(Strip(s)) == Strip(s)
  {
    StripTrimmed(Strip(s));
  }

  lemma StripTrimmed(t: string)
    requires t == [] || (!IsSpace(t[0]) && !IsSpace(t[|t| - 1]))
    ensures Strip(t) == t
  {
    assert TrimLeft(t) == t;
  }

  // ---------------------------------------------------------------------
  // split
  // ---------------------------------------------------------------------

  /** The pieces of `s` between separator characters, empty pieces kept. */
  function SplitOn(s: string, isSep: char -> bool): (parts: seq<string>)
    ensures |parts| >= 1
    ensures forall k | 0 <= k < |parts| :: NoneOf(parts[k], isSep)
  {
    if s == [] then [[]]
    else
      var rest := SplitOn(s[1..], isSep);
      if isSep(s[0]) then [[]] + rest else [[s[0]] + rest[0]] + rest[1..]
  }

  /** The pieces joined back with one separator between neighbours (`sep.join(parts)`). */
  function Join(parts: seq<string>, sep: char): string {
    if |parts| == 0 then []
    else if |parts| == 1 then parts[0]
    else parts[0] + [sep] + Join(parts[1..], sep)
  }

  function NonEmpty(parts: seq<string>): (r: seq<string>)
    ensures forall k | 0 <= k < |r| :: r[k] != [] && r[k] in parts
  {
    if parts == [] then []
    else if parts[0] == [] then NonEmpty(parts[1..])
    else [parts[0]] + NonEmpty(parts[1..])
  }

  /** `s.split()`: the maximal runs of non-whitespace characters, in order. */
  function Words(s: string): (ws: seq<string>)
    ensures forall k | 0 <= k < |ws| :: ws[k] != [] && NoneOf(ws[k], IsSpace)
  {
    NonEmpty(SplitOn(s, IsSpace))
  }

  lemma {:induction false} SplitOnPrefix(p: string, t: string, isSep: char -> bool)
    requires NoneOf(p, isSep)
    ensures SplitOn(p + t, isSep) == [p + SplitOn(t, isSep)[0]] + SplitOn(t, isSep)[1..]
  {
    if p == [] {
      var parts := SplitOn(t, isSep);
      assert p + t == t && p + parts[0] == parts[0];
      assert [parts[0]] + parts[1..] == parts;
    } else {
      assert (p + t)[1..] == p[1..] + t;
      SplitOnPrefix(p[1..], t, isSep);
      assert [p[0]] + (p[1..] + SplitOn(t, isSep)[0]) == p + SplitOn(t, isSep)[0];
    }
  }

  /** Splitting at the separator undoes joining with it. */
  lemma {:induction false} SplitOnJoin(parts: seq<string>, sep: char, isSep: char -> bool)
    requires |parts| >= 1 && isSep(sep)
    requires forall k | 0 <= k < |parts| :: NoneOf(parts[k], isSep)
    ensures SplitOn(Join(parts, sep), isSep) == parts
  {
    if |parts| == 1 {
      SplitOnPrefix(parts[0], [], isSep);
      assert parts[0] + [] == parts[0];
    } else {
      var rest := Join(parts[1..], sep);
      SplitOnJoin(parts[1..], sep, isSep);
      assert SplitOn([sep] + rest, isSep) == [[]] + parts[1..] by {
        assert ([sep] + rest)[1..] == rest;
      }
      assert parts[0] + [sep] + rest == parts[0] + ([sep] + rest);
      SplitOnPrefix(parts[0], [sep] + rest, isSep);
      assert parts[0] + [] == parts[0];
      assert [parts[0]] + parts[1..] == parts;
    }
  }

  lemma {:induction false} NonEmptyKeeps(parts: seq<string>)
    requires forall k | 0 <= k < |parts| :: parts[k] != []
    ensures NonEmpty(parts) == parts
  {
    if parts != [] {
      NonEmptyKeeps(parts[1..]);
      assert [parts[0]] + parts[1..] == parts;
    }
  }

  /** `split()` recovers words joined with a whitespace character. */
  lemma WordsJoin(parts: seq<string>, sep: char)
    requires |parts| >= 1 && IsSpace(sep)
    requires forall k | 0 <= k < |parts| :: parts[k] != [] && NoneOf(parts[k], IsSpace)
    ensures Words(Join(parts, sep)) == parts
  {
    SplitOnJoin(parts, sep, IsSpace);
    NonEmptyKeeps(parts);
  }

  // ---------------------------------------------------------------------
  // Integers
  // ---------------------------------------------------------------------

  /** `s.isdigit()` for ASCII text: non-empty and all decimal digits. */
  predicate IsDigits(s: string) {
    s != [] && forall c | c in s :: IsDigit(c)
  }

  /** The value of a run of decimal digits, most significant first. */
  function DigitsValue(s: string): nat
    requires forall c | c in s :: IsDigit(c)
  {
    if s == [] then 0 else DigitsValue(s[..|s| - 1]) * 10 + DigitValue(s[|s| - 1])
  }

  /** `str(n)` for a natural number. */
  function NatToString(n: nat): (s: string)
    ensures IsDigits(s)
  {
    if n < 10 then [DigitChar(n)] else NatToString(n / 10) + [DigitChar(n % 10)]
  }

  lemma {:induction false} NatToStringValue(n: nat)
    ensures DigitsValue(NatToString(n)) == n
  {
    if n >= 10 {
      var s := NatToString(n);
      assert s[..|s| - 1] == NatToString(n / 10);
      NatToStringValue(n / 10);
    }
  }

  /** Digits, optionally with single underscores between them, as `int()` accepts. */
  predicate DigitGroups(s: string) {
    && s != []
    && IsDigit(s[0])
    && forall i | 0 <= i < |s| :: IsDigit(s[i]) || (s[i] == '_' && i + 1 < |s| && IsDigit(s[i + 1]))
  }

  function RemoveUnderscores(s: string): (r: string)
    ensures DigitGroups(s) ==> forall c | c in r :: IsDigit(c)
  {
    if s == [] then []
    else if s[0] == '_' then RemoveUnderscores(s[1..])
    else [s[0]] + RemoveUnderscores(s[1..])
  }

  function ParseUnsigned(s: string): Option<nat> {
    if DigitGroups(s) then Some(DigitsValue(RemoveUnderscores(s))) else None
  }

  /**
   * `int(s)` on text: surrounding whitespace is ignored, an optional sign
   * precedes the digits; anything else is a ValueError, here `None`.
   */
  function ParseInt(s: string): Option<int> {
    var t := Strip(s);
    if t == [] then None
    else if t[0] == '+' || t[0] == '-' then
      match ParseUnsigned(t[1..])
      case None => None
      case Some(n) => Some(if t[0] == '-' then -(n as int) else n)
    else ParseUnsigned(t)
  }

  /** `int()` rejects blank text, and only a leading minus sign gives a negative number. */
  lemma ParseIntShape(s: string)
    ensures AllSpace(s) ==> ParseInt(s).None?
    ensures ParseInt(s).Some? && ParseInt(s).value < 0 ==> Strip(s) != [] && Strip(s)[0] == '-'
  {
  }

  lemma {:induction false} RemoveUnderscoresDigits(s: string)
    requires forall c | c in s :: IsDigit(c)
    ensures RemoveUnderscores(s) == s
  {
    if s != [] {
      RemoveUnderscoresDigits(s[1..]);
      assert [s[0]] + s[1..] == s;
    }
  }

  lemma ParseUnsignedDigits(s: string)
    requires IsDigits(s)
    ensures ParseUnsigned(s) == Some(DigitsValue(s))
  {
    RemoveUnderscoresDigits(s);
    assert s[0] in s;
    assert DigitGroups(s);
  }

  lemma DigitNotSpace(c: char)
    requires IsDigit(c)
    ensures !IsSpace(c)
  {
  }

  lemma StripDigits(s: string)
    requires IsDigits(s)
    ensures Strip(s) == s
  {
    assert s[0] in s && s[|s| - 1] in s;
    DigitNotSpace(s[0]);
    DigitNotSpace(s[|s| - 1]);
    StripTrimmed(s);
  }

  /** `int()` reads a plain run of decimal digits as its value. */
  lemma ParseIntDigits(s: string)
    requires IsDigits(s)
    ensures ParseInt(s) == Some(DigitsValue(s))
  {
    StripDigits(s);
    ParseUnsignedDigits(s);
    assert s[0] in s;
  }

  /** `int(str(n)) == n`. */
  lemma ParseIntNatToString(n: nat)
    ensures ParseInt(NatToString(n)) == Some(n)
  {
    var s := NatToString(n);
    NatToStringValue(n);
    ParseIntDigits(s);
  }

  // ---------------------------------------------------------------------
  // Paths (posixpath)
  // ---------------------------------------------------------------------

  predicate AllSlashes(s: string) {
    forall c | c in s :: c == '/'
  }

  /** `s.rstrip(c)` for one character `c`. */
  function TrimRightChar(s: string, c: char): (r: string)
    ensures |r| <= |s| && r == s[..|r|]
    ensures forall k | |r| <= k < |s| :: s[k] == c
    ensures r == [] || r[|r| - 1] != c
  {
    if s != [] && s[|s| - 1] == c then TrimRightChar(s[..|s| - 1], c) else s
  }

  /** `os.path.dirname(p)`: everything before the last `/`, without trailing slashes unless it is all slashes. */
  function Dirname(p: string): (r: string)
    ensures StartsWith(p, r)
  {
    var i := LastIndexOf(p, '/') + 1;
    var head := p[..i];
    if head != [] && !AllSlashes(head) then TrimRightChar(head, '/') else head
  }

  /** `os.path.join(a, b)` for two components. */
  function PathJoin(a: string, b: string): string {
    if StartsWith(b, "/") then b
    else if a == [] || a[|a| - 1] == '/' then a + b
    else a + "/" + b
  }

  /** The parent of a path is the path itself exactly at a root: empty or made of slashes only. */
  lemma DirnameFixpoint(p: string)
    ensures Dirname(p) == p <==> AllSlashes(p)
  {
    var i := LastIndexOf(p, '/') + 1;
    var head := p[..i];
    if AllSlashes(p) {
      if p != [] {
        assert p[|p| - 1] in p;
        assert head == p;
      }
    } else {
      var r := Dirname(p);
      if i == |p| {
        assert head == p;
        assert p[|p| - 1] == '/';
      } else {
        assert |r| <= i < |p|;
      }
    }
  }

  /** `dirname(join(a, b)) == a` for a directory `a` not ending in `/` and a plain name `b`. */
  lemma DirnameOfJoin(a: string, b: string)
    requires a != [] && a[|a| - 1] != '/' && !StartsWith(b, "/")
    requires '/' !in b
    ensures Dirname(PathJoin(a, b)) == a
  {
    var p := a + "/" + b;
    assert p == a + ['/'] + b;
    LastIndexOfAfter(a, '/', b);
    assert p[..|a| + 1] == a + "/";
    assert a[|a| - 1] in a + "/";
    TrimOneSlash(a);
  }

  /** `rstrip("/")` of a path with one slash appended gives the path back when it did not end in a slash. */
  lemma TrimOneSlash(a: string)
    requires a != [] && a[|a| - 1] != '/'
    ensures TrimRightChar(a + "/", '/') == a
  {
    assert (a + "/")[..|a + "/"| - 1] == a;
  }
}
