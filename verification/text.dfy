/** The string primitives the source calls on JavaScript strings:
    `toLowerCase` (ASCII letters only), `includes`, `indexOf`, `trim`,
    `split` on a one-character separator, and the decimal rendering of a
    number inside a template literal. `Join`, which the source never calls,
    is here only to state the round trip of the CSV line splitter. */
module Text {

  // ---------------------------------------------------------------------------
  // Lower-casing

  /** `toLowerCase` on one character, restricted to ASCII letters. */
  function LowerChar(c: char): char
  {
    if 'A' <= c <= 'Z' then (c as int + 32) as char else c
  }

  /** `toLowerCase`, character by character; it never changes the length. */
  function Lower(s: string): (r: string)
    ensures |r| == |s|
    ensures forall i :: 0 <= i < |s| ==> r[i] == LowerChar(s[i])
  {
    seq(|s|, i requires 0 <= i < |s| => LowerChar(s[i]))
  }

  lemma LowerSlice(s: string, i: nat, j: nat)
    requires i <= j <= |s|
    ensures Lower(s[i..j]) == Lower(s)[i..j]
  {
  }

  /** A character that lower-cases to a letter is not whitespace. */
  lemma LetterIsNotWhitespace(c: char)
    requires 'a' <= LowerChar(c) <= 'z'
    ensures !IsWhitespace(c)
  {
  }

  // ---------------------------------------------------------------------------
  // Substring search

  /** `t` occurs in `s` starting at index `i`. */
  predicate OccursAt(s: string, t: string, i: int)
  {
    0 <= i && i + |t| <= |s| && s[i..i + |t|] == t
  }

  /** `s.includes(t)`. */
  predicate Contains(s: string, t: string)
  {
    exists i | 0 <= i <= |s| - |t| :: OccursAt(s, t, i)
  }

  /** `s.startsWith(t)`. */
  predicate StartsWith(s: string, t: string)
  {
    |t| <= |s| && s[..|t|] == t
  }

  /** `s.indexOf(t)`: the first index at which `t` occurs, or -1. */
  function IndexOf(s: string, t: string): (r: int)
    ensures r == -1 || OccursAt(s, t, r)
    ensures r == -1 <==> !Contains(s, t)
    ensures forall j :: 0 <= j < r ==> !OccursAt(s, t, j)
  {
    IndexFrom(s, t, 0)
  }

  function IndexFrom(s: string, t: string, k: nat): (r: int)
    requires k <= |s|
    ensures r == -1 || (k <= r && OccursAt(s, t, r))
    ensures r == -1 ==> forall j :: k <= j ==> !OccursAt(s, t, j)
    ensures forall j :: k <= j < r ==> !OccursAt(s, t, j)
    decreases |s| - k
  {
    if k + |t| > |s| then -1
    else if s[k..k + |t|] == t then k
    else IndexFrom(s, t, k + 1)
  }

  // ---------------------------------------------------------------------------
  // Trimming

  /** The characters `String.prototype.trim` strips: ECMAScript WhiteSpace
      and LineTerminator. */
  predicate IsWhitespace(c: char)
  {
    c == ' ' || c == '\t' || c == '\n' || c == '\r' || c == '\U{B}' || c == '\U{C}'
    || c == '\U{A0}' || c == '\U{FEFF}' || c == '\U{1680}' || ('\U{2000}' <= c <= '\U{200A}')
    || c == '\U{2028}' || c == '\U{2029}' || c == '\U{202F}' || c == '\U{205F}' || c == '\U{3000}'
  }

  /** Drops the leading whitespace: the result is the suffix of `s` that
      starts at its first non-whitespace character. */
  function TrimStart(s: string): (r: string)
    ensures |r| <= |s| && r == s[|s| - |r|..]
    ensures r == [] || !IsWhitespace(r[0])
    ensures forall i :: 0 <= i < |s| - |r| ==> IsWhitespace(s[i])
  {
    if |s| > 0 && IsWhitespace(s[0]) then TrimStart(s[1..]) else s
  }

  /** Drops the trailing whitespace: the result is the prefix of `s` that
      ends at its last non-whitespace character. */
  function TrimEnd(s: string): (r: string)
    ensures |r| <= |s| && r == s[..|r|]
    ensures r == [] || !IsWhitespace(r[|r| - 1])
    ensures forall i :: |r| <= i < |s| ==> IsWhitespace(s[i])
  {
    if |s| > 0 && IsWhitespace(s[|s| - 1]) then TrimEnd(s[..|s| - 1]) else s
  }

  /** `s.trim()`. */
  function Trim(s: string): (r: string)
    ensures |r| <= |s|
    ensures r == [] || (!IsWhitespace(r[0]) && !IsWhitespace(r[|r| - 1]))
  {
    TrimEnd(TrimStart(s))
  }

  /** `r` stands in `s` at index `p` with only whitespace before and after it. */
  predicate SurroundedAt(s: string, r: string, p: int)
  {
    && OccursAt(s, r, p)
    && (forall k :: 0 <= k < p ==> IsWhitespace(s[k]))
    && (forall k :: p + |r| <= k < |s| ==> IsWhitespace(s[k]))
  }

  /** `r` is `s` with its surrounding whitespace removed: a stretch of `s`
      with only whitespace around it and none at its own ends. */
  ghost predicate IsTrimOf(s: string, r: string)
  {
    && (r == [] || (!IsWhitespace(r[0]) && !IsWhitespace(r[|r| - 1])))
    && exists p :: SurroundedAt(s, r, p)
  }

  /** `trim` removes exactly the whitespace before the first and after the
      last non-whitespace character. */
  lemma TrimCharacterized(s: string)
    ensures IsTrimOf(s, Trim(s))
  {
    var t := TrimStart(s);
    var p := |s| - |t|;
    TrimEndStretch(s, p);
    assert TrimEnd(s[p..]) == Trim(s);
    assert SurroundedAt(s, Trim(s), p);
  }

  /** A string has only one trimmed form, so `IsTrimOf` pins `Trim` down. */
  lemma TrimIsUnique(s: string, a: string, b: string)
    requires IsTrimOf(s, a) && IsTrimOf(s, b)
    ensures a == b
  {
    var p :| SurroundedAt(s, a, p);
    var q :| SurroundedAt(s, b, q);
    if a != [] {
      assert a[0] == s[p] && a[|a| - 1] == s[p + |a| - 1];
    }
    if b != [] {
      assert b[0] == s[q] && b[|b| - 1] == s[q + |b| - 1];
    }
    if a == [] || b == [] {
      assert a == [] && b == [];
    } else {
      assert p == q;
      assert |a| == |b|;
    }
  }

  /** Trimming the end of a suffix of `s` leaves a stretch of `s` followed
      by whitespace only. */
  lemma TrimEndStretch(s: string, p: nat)
    requires p <= |s|
    ensures var r := TrimEnd(s[p..]);
      && OccursAt(s, r, p)
      && forall k :: p + |r| <= k < |s| ==> IsWhitespace(s[k])
  {
    var t := s[p..];
    var r := TrimEnd(t);
    assert s[p..p + |r|] == t[..|r|];
    forall k | p + |r| <= k < |s|
      ensures IsWhitespace(s[k])
    {
      assert s[k] == t[k - p];
    }
  }

  /** A string that begins with a non-whitespace character only loses
      trailing whitespace to `trim`. */
  lemma TrimFromNonWhitespace(x: string)
    requires |x| > 0 && !IsWhitespace(x[0])
    ensures 0 < |Trim(x)| && Trim(x) == x[..|Trim(x)|]
    ensures forall k :: |Trim(x)| <= k < |x| ==> IsWhitespace(x[k])
  {
    assert TrimStart(x) == x;
  }

  /** Trimming never cuts into a stretch that begins and ends with
      non-whitespace characters at the front of the string. */
  lemma TrimKeepsPrefix(x: string, n: nat)
    requires 0 < n <= |x|
    requires !IsWhitespace(x[0]) && !IsWhitespace(x[n - 1])
    ensures n <= |Trim(x)| && Trim(x)[..n] == x[..n]
  {
    assert TrimStart(x) == x;
  }

  // ---------------------------------------------------------------------------
  // Splitting and joining on one character

  /** Number of occurrences of `c` in `s`. */
  function CountChar(s: string, c: char): nat
  {
    if s == [] then 0 else (if s[0] == c then 1 else 0) + CountChar(s[1..], c)
  }

  lemma {:induction false} CountCharAppend(s: string, x: char, c: char)
    ensures CountChar(s + [x], c) == CountChar(s, c) + (if x == c then 1 else 0)
  {
    if s != [] {
      assert (s + [x])[1..] == s[1..] + [x];
      CountCharAppend(s[1..], x, c);
    }
  }

  /** `s.split(c)` for a one-character separator `c`. */
  function Split(s: string, c: char): (r: seq<string>)
    ensures |r| == CountChar(s, c) + 1
    ensures forall piece :: piece in r ==> c !in piece
  {
    if s == [] then [""]
    else
      var rest := Split(s[1..], c);
      if s[0] == c then [""] + rest
      else [[s[0]] + rest[0]] + rest[1..]
  }

  /** `parts.join([c])`. */
  function Join(parts: seq<string>, c: char): string
  {
    if |parts| == 0 then ""
    else if |parts| == 1 then parts[0]
    else parts[0] + [c] + Join(parts[1..], c)
  }

  /** Putting a character in front of the first part puts it in front of the join. */
  lemma JoinExtendHead(x: char, parts: seq<string>, c: char)
    requires |parts| >= 1
    ensures Join([[x] + parts[0]] + parts[1..], c) == [x] + Join(parts, c)
  {
    var ps := [[x] + parts[0]] + parts[1..];
    if |parts| > 1 {
      assert ps[1..] == parts[1..];
      assert Join(ps, c) == ([x] + parts[0]) + [c] + Join(parts[1..], c);
    }
  }

  /** An empty part in front joins to a leading separator. */
  lemma JoinEmptyHead(parts: seq<string>, c: char)
    requires |parts| >= 1
    ensures Join([""] + parts, c) == [c] + Join(parts, c)
  {
    assert ([""] + parts)[1..] == parts;
  }

  /** A string without the separator splits into itself. */
  lemma {:induction false} SplitWithoutSeparator(s: string, c: char)
    requires c !in s
    ensures Split(s, c) == [s]
  {
    if s != [] {
      assert c !in s[1..];
      SplitWithoutSeparator(s[1..], c);
      assert s == [s[0]] + s[1..];
    }
  }

  // ---------------------------------------------------------------------------
  // Decimal numerals

  predicate IsDigit(c: char)
  {
    '0' <= c <= '9'
  }

  /** The decimal numeral of `n`, as a template literal renders it. */
  function NatToString(n: nat): (r: string)
    ensures |r| >= 1
    ensures forall i :: 0 <= i < |r| ==> IsDigit(r[i])
  {
    if n < 10 then [('0' as int + n) as char]
    else NatToString(n / 10) + [('0' as int + n % 10) as char]
  }

  /** The value of a string of decimal digits. */
  function ParseNat(s: string): nat
    requires forall i :: 0 <= i < |s| ==> IsDigit(s[i])
  {
    if s == [] then 0
    else
      assert IsDigit(s[|s| - 1]);
      ParseNat(s[..|s| - 1]) * 10 + (s[|s| - 1] as int - '0' as int)
  }

  /** Round trip: reading back the numeral of `n` gives `n`. */
  lemma {:induction false} ParseNatToString(n: nat)
    ensures ParseNat(NatToString(n)) == n
  {
    if n >= 10 {
      var r := NatToString(n);
      assert r[..|r| - 1] == NatToString(n / 10);
      ParseNatToString(n / 10);
    }
  }
}
