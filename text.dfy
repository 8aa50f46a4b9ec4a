/** String operations of the JavaScript runtime that the order code relies on. */
module Text {
  import opened Common

  predicate IsDigit(c: char) { '0' <= c <= '9' }

  function DigitValue(c: char): (d: nat)
    requires IsDigit(c)
    ensures d < 10
  {
    (c as int) - ('0' as int)
  }

  /** The characters String.prototype.trim removes: white space and line terminators. */
  predicate IsSpace(c: char)
  {
    || c == ' ' || c == '\t' || c == '\n' || c == '\r' || c == '\U{B}' || c == '\U{C}'
    || c == '\U{A0}' || c == '\U{1680}' || ('\U{2000}' <= c <= '\U{200A}')
    || c == '\U{2028}' || c == '\U{2029}' || c == '\U{202F}' || c == '\U{205F}'
    || c == '\U{3000}' || c == '\U{FEFF}'
  }

  predicate AllSpace(s: string)
  {
    forall i :: 0 <= i < |s| ==> IsSpace(s[i])
  }

  /** How many white-space characters `s` starts with. */
  function LeadingSpaces(s: string): (n: nat)
    ensures n <= |s|
    ensures forall i :: 0 <= i < n ==> IsSpace(s[i])
    ensures n < |s| ==> !IsSpace(s[n])
  {
    if s != [] && IsSpace(s[0]) then 1 + LeadingSpaces(s[1..]) else 0
  }

  /** How many white-space characters `s` ends with. */
  function TrailingSpaces(s: string): (n: nat)
    ensures n <= |s|
    ensures forall i :: |s| - n <= i < |s| ==> IsSpace(s[i])
    ensures n < |s| ==> !IsSpace(s[|s| - 1 - n])
  {
    if s != [] && IsSpace(s[|s| - 1]) then 1 + TrailingSpaces(s[..|s| - 1]) else 0
  }

  /** No white space at either end. */
  predicate IsTrimmed(s: string)
  {
    s == [] || (!IsSpace(s[0]) && !IsSpace(s[|s| - 1]))
  }

  /** String.prototype.trim: `s` without its leading and its trailing white space. */
  function Trim(s: string): (r: string)
    ensures IsTrimmed(r)
    ensures |r| <= |s|
    ensures r == [] <==> AllSpace(s)
    ensures var a := LeadingSpaces(s);
      && a + |r| <= |s| && r == s[a..a + |r|]
      && AllSpace(s[..a]) && AllSpace(s[a + |r|..])
  {
    var a := LeadingSpaces(s);
    if a == |s| then [] else s[a..|s| - TrailingSpaces(s)]
  }

  /** No character beyond the Basic Multilingual Plane is white space. */
  lemma AstralNotSpace(c: char)
    requires c as int > 0xFFFF
    ensures !IsSpace(c)
  {
    assert c as int > '\U{FEFF}' as int;
  }

  /** Trimming a string that has no white space at either end changes nothing. */
  lemma TrimOfTrimmed(s: string)
    requires IsTrimmed(s)
    ensures Trim(s) == s
  {
  }

  /** Trimming twice is trimming once. */
  lemma TrimIdempotent(s: string)
    ensures Trim(Trim(s)) == Trim(s)
  {
    TrimOfTrimmed(Trim(s));
  }

  /** The variation selectors U+FE0E and U+FE0F, which validator.js leaves out of a length. */
  predicate IsVariationSelector(c: char)
  {
    c == '\U{FE0E}' || c == '\U{FE0F}'
  }

  /** The UTF-16 code units of one character: two beyond U+FFFF, else one. */
  function CodeUnits(c: char): (n: nat)
    ensures 1 <= n <= 2
  {
    if c as int > 0xFFFF then 2 else 1
  }

  /** A string's JavaScript `.length`, the measure of the schema's `maxlength`: its UTF-16 code units. */
  function Utf16Length(s: string): (n: nat)
    ensures |s| <= n <= 2 * |s|
  {
    if s == [] then 0 else CodeUnits(s[0]) + Utf16Length(s[1..])
  }

  /**
   * The length validator.js `isLength` measures: a surrogate pair counts as
   * one character and a variation selector as none.
   */
  function ValidatorLength(s: string): (n: nat)
    ensures n <= |s|
  {
    if s == [] then 0 else (if IsVariationSelector(s[0]) then 0 else 1) + ValidatorLength(s[1..])
  }

  /** Text on which both measures agree with the character count: no character beyond U+FFFF and no variation selector. */
  predicate Narrow(s: string)
  {
    forall i :: 0 <= i < |s| ==> s[i] as int <= 0xFFFF && !IsVariationSelector(s[i])
  }

  lemma {:induction false} NarrowLengths(s: string)
    requires Narrow(s)
    ensures ValidatorLength(s) == |s| == Utf16Length(s)
  {
    if s != [] {
      assert Narrow(s[1..]) by {
        forall i | 0 <= i < |s[1..]| ensures s[1..][i] as int <= 0xFFFF && !IsVariationSelector(s[1..][i]) {
          assert s[1..][i] == s[i + 1];
        }
      }
      NarrowLengths(s[1..]);
    }
  }

  /** Trimming keeps text narrow: the result is a piece of the input. */
  lemma TrimKeepsNarrow(s: string)
    requires Narrow(s)
    ensures Narrow(Trim(s))
  {
    var a := LeadingSpaces(s);
    var r := Trim(s);
    forall i | 0 <= i < |r| ensures r[i] as int <= 0xFFFF && !IsVariationSelector(r[i]) {
      assert r[i] == s[a + i];
    }
  }

  /** `n` copies of `c`. */
  function Repeat(c: char, n: nat): (r: string)
    ensures |r| == n && forall i :: 0 <= i < n ==> r[i] == c
  {
    if n == 0 then [] else [c] + Repeat(c, n - 1)
  }

  /** Both measures of a run of one character that is not a variation selector. */
  lemma {:induction false} RepeatLengths(c: char, n: nat)
    requires !IsVariationSelector(c)
    ensures ValidatorLength(Repeat(c, n)) == n
    ensures Utf16Length(Repeat(c, n)) == n * CodeUnits(c)
  {
    if n > 0 {
      var r := Repeat(c, n);
      assert r[1..] == Repeat(c, n - 1);
      RepeatLengths(c, n - 1);
    }
  }

  /** Number of occurrences of `c` in `s`. */
  function Occurrences(s: string, c: char): nat
  {
    multiset(s)[c]
  }

  /** String.prototype.split with a one-character separator. */
  function Split(s: string, sep: char): (parts: seq<string>)
    ensures |parts| == Occurrences(s, sep) + 1
    ensures forall i :: 0 <= i < |parts| ==> sep !in parts[i]
    ensures |parts[0]| <= |s| && parts[0] == s[..|parts[0]|]
    ensures |parts[0]| < |s| ==> s[|parts[0]|] == sep
  {
    if s == [] then [""]
    else
      assert s == [s[0]] + s[1..];
      var rest := Split(s[1..], sep);
      if s[0] == sep then [""] + rest
      else [[s[0]] + rest[0]] + rest[1..]
  }

  /** Array.prototype.join with a one-character separator. */
  function Join(parts: seq<string>, sep: char): string
    requires |parts| >= 1
  {
    if |parts| == 1 then parts[0] else parts[0] + [sep] + Join(parts[1..], sep)
  }

  /** Joining with an empty first piece puts the separator first. */
  lemma JoinEmptyFirst(rest: seq<string>, sep: char)
    requires |rest| >= 1
    ensures Join([""] + rest, sep) == [sep] + Join(rest, sep)
  {
    assert ([""] + rest)[1..] == rest;
  }

  /** Joining with a character prepended to the first piece prepends it to the whole. */
  lemma JoinConsFirst(c: char, rest: seq<string>, sep: char)
    requires |rest| >= 1
    ensures Join([[c] + rest[0]] + rest[1..], sep) == [c] + Join(rest, sep)
  {
    var p := [[c] + rest[0]] + rest[1..];
    if |rest| > 1 {
      assert p[1..] == rest[1..];
    }
  }

  /** Joining the pieces of a split gives back the original string. */
  lemma {:induction false} JoinSplit(s: string, sep: char)
    ensures Join(Split(s, sep), sep) == s
  {
    if s != [] {
      var rest := Split(s[1..], sep);
      assert s == [s[0]] + s[1..];
      if s[0] == sep {
        calc {
          Join(Split(s, sep), sep);
          Join([""] + rest, sep);
          { JoinEmptyFirst(rest, sep); }
          [sep] + Join(rest, sep);
          { JoinSplit(s[1..], sep); }
          [sep] + s[1..];
        }
      } else {
        calc {
          Join(Split(s, sep), sep);
          Join([[s[0]] + rest[0]] + rest[1..], sep);
          { JoinConsFirst(s[0], rest, sep); }
          [s[0]] + Join(rest, sep);
          { JoinSplit(s[1..], sep); }
          [s[0]] + s[1..];
        }
      }
    }
  }

  /** A string without the separator splits into itself alone. */
  lemma SplitWithout(s: string, sep: char)
    requires sep !in s
    ensures Split(s, sep) == [s]
  {
    var p := Split(s, sep);
    assert multiset(s)[sep] == 0;
    assert |p| == 1;
    if |p[0]| < |s| {
      assert false;
    }
    assert s[..|s|] == s;
    assert p[0] == s;
  }

  /** Joining three or more pieces: the first two, then the rest. */
  lemma JoinFirstTwo(p: seq<string>, sep: char)
    requires |p| >= 3
    ensures Join(p, sep) == p[0] + [sep] + p[1] + [sep] + Join(p[2..], sep)
  {
    assert p[1..][1..] == p[2..];
  }

  /** The parts around a marked element of a concatenation. */
  lemma SplitAround<T>(a: seq<T>, x: T, b: seq<T>)
    ensures (a + [x] + b)[..|a|] == a && (a + [x] + b)[|a|] == x
  {
    assert forall i :: 0 <= i < |a| ==> (a + [x] + b)[i] == a[i];
  }

  /** The text before the second separator: the first two pieces of a split, joined again. */
  lemma SplitFirstTwo(s: string, sep: char)
    requires Occurrences(s, sep) >= 2
    ensures var p := Split(s, sep); var r := p[0] + [sep] + p[1];
      |r| < |s| && r == s[..|r|] && s[|r|] == sep && Occurrences(r, sep) == 1
  {
    var p := Split(s, sep);
    var r := p[0] + [sep] + p[1];
    var tail := Join(p[2..], sep);
    assert s == r + [sep] + tail by {
      JoinSplit(s, sep);
      JoinFirstTwo(p, sep);
    }
    SplitAround(r, sep, tail);
    assert Occurrences(r, sep) == 1 by {
      assert sep !in p[0] && sep !in p[1];
      assert multiset(p[0])[sep] == 0 && multiset(p[1])[sep] == 0;
      assert multiset(r) == multiset(p[0]) + multiset{sep} + multiset(p[1]);
    }
  }

  predicate LexLe(a: string, b: string)
  {
    a == [] || (b != [] && (a[0] < b[0] || (a[0] == b[0] && LexLe(a[1..], b[1..]))))
  }

  lemma {:induction false} LexLeTotal(a: string, b: string)
    ensures LexLe(a, b) || LexLe(b, a)
  {
    if a != [] && b != [] && a[0] == b[0] {
      LexLeTotal(a[1..], b[1..]);
    }
  }

  lemma {:induction false} LexLeTransitive(a: string, b: string, c: string)
    requires LexLe(a, b) && LexLe(b, c)
    ensures LexLe(a, c)
  {
    if a != [] && b != [] && c != [] && a[0] == b[0] && b[0] == c[0] {
      LexLeTransitive(a[1..], b[1..], c[1..]);
    }
  }

  lemma {:induction false} LexLeAntisymmetric(a: string, b: string)
    requires LexLe(a, b) && LexLe(b, a)
    ensures a == b
  {
    if a != [] && b != [] {
      LexLeAntisymmetric(a[1..], b[1..]);
      assert a == [a[0]] + a[1..] && b == [b[0]] + b[1..];
    }
  }

  predicate AllDigits(s: string)
  {
    forall i :: 0 <= i < |s| ==> IsDigit(s[i])
  }

  /** Value of a string of decimal digits, most significant first. */
  function DigitsValue(s: string): nat
    requires AllDigits(s)
  {
    if s == [] then 0 else DigitsValue(s[..|s| - 1]) * 10 + DigitValue(s[|s| - 1])
  }

  /** Decimal rendering of a natural number, without leading zeros. */
  function DecimalText(n: nat): (s: string)
    ensures |s| >= 1 && AllDigits(s)
  {
    if n < 10 then ['0' + n as char] else DecimalText(n / 10) + ['0' + (n % 10) as char]
  }

  lemma {:induction false} DecimalTextValue(n: nat)
    ensures DigitsValue(DecimalText(n)) == n
  {
    var s := DecimalText(n);
    if n >= 10 {
      DecimalTextValue(n / 10);
      assert s[..|s| - 1] == DecimalText(n / 10);
    }
  }

  /** A string the integer check of the request validator accepts: `^[-+]?[0-9]+$`. */
  predicate IsIntText(s: string)
  {
    var body := if s != [] && (s[0] == '-' || s[0] == '+') then s[1..] else s;
    body != [] && AllDigits(body)
  }

  /** The number an integer text denotes (Number() on such a string). */
  function IntValue(s: string): (v: int)
    requires IsIntText(s)
    ensures s[0] != '-' ==> v >= 0
  {
    if s[0] == '-' then -(DigitsValue(s[1..]) as int)
    else if s[0] == '+' then DigitsValue(s[1..]) as int
    else DigitsValue(s) as int
  }

  /** Parsing the decimal rendering of a number gives the number back. */
  lemma DecimalTextRoundTrip(n: nat)
    ensures IsIntText(DecimalText(n)) && IntValue(DecimalText(n)) == n
  {
    DecimalTextValue(n);
  }
}
