/**
 * The few Python string and integer builtins that the firmware and the
 * MCP server rely on: substring `in`, `str.split(c, 1)`, `str.split(c)`,
 * `str.strip()`, `int(s)` and the decimal rendering of an `int` inside an
 * f-string. Strings are `seq<char>`; only ASCII digits and ASCII white
 * space are given meaning.
 */
module PyText {
  import opened Wrappers

  // ---------------------------------------------------------------------
  // Substring test: Python's `p in s` on two strings.
  // ---------------------------------------------------------------------

  /** `p` occurs in `s` starting at position `i`. */
  predicate OccursAt(s: string, p: string, i: int)
  {
    0 <= i <= |s| - |p| && s[i..i + |p|] == p
  }

  /** `p in s`: `p` occurs in `s` as a contiguous piece, tried from the left. */
  function Contains(s: string, p: string): bool
    decreases |s|
  {
    if |s| < |p| then false
    else if s[..|p|] == p then true
    else Contains(s[1..], p)
  }

  /** `p in s` holds exactly when `p` occurs in `s` at some position. */
  lemma {:induction false} ContainsOccurs(s: string, p: string)
    ensures Contains(s, p) <==> exists i :: OccursAt(s, p, i)
    decreases |s|
  {
    if |s| < |p| {
    } else if s[..|p|] == p {
      assert OccursAt(s, p, 0);
    } else {
      ContainsOccurs(s[1..], p);
      var r := Contains(s[1..], p);
      assert r ==> exists i :: OccursAt(s, p, i) by {
        if r {
          var j :| OccursAt(s[1..], p, j);
          assert s[j + 1..j + 1 + |p|] == s[1..][j..j + |p|];
          assert OccursAt(s, p, j + 1);
        }
      }
      assert (exists i :: OccursAt(s, p, i)) ==> r by {
        if exists i :: OccursAt(s, p, i) {
          var i :| OccursAt(s, p, i);
          assert i != 0;
          assert s[1..][i - 1..i - 1 + |p|] == s[i..i + |p|];
          assert OccursAt(s[1..], p, i - 1);
        }
      }
    }
  }

  /**
   * A pattern that starts with a character found nowhere in `s` after its
   * first position, and that `s` does not start with, does not occur in `s`.
   */
  lemma NotContainsByHead(s: string, p: string)
    requires p != []
    requires s == [] || p[0] !in s[1..]
    requires !(p <= s)
    ensures !Contains(s, p)
  {
    ContainsOccurs(s, p);
    forall i | 0 <= i <= |s| - |p|
      ensures !OccursAt(s, p, i)
    {
      if i == 0 {
        assert s[..|p|] != p;
      } else {
        assert s[i] == s[1..][i - 1];
        assert s[i..i + |p|][0] == s[i];
      }
    }
  }

  /** A pattern that does not occur in a text does not occur in any prefix of it. */
  lemma PrefixNotContains(s: string, k: nat, p: string)
    requires k <= |s|
    requires !Contains(s, p)
    ensures !Contains(s[..k], p)
  {
    ContainsOccurs(s, p);
    ContainsOccurs(s[..k], p);
    forall i | OccursAt(s[..k], p, i)
      ensures OccursAt(s, p, i)
    {
      assert s[..k][i..i + |p|] == s[i..i + |p|];
    }
  }

  /**
   * A pattern with no carriage return that does not occur in either of two
   * strings does not occur in their concatenation either, when the second
   * one starts with a carriage return (or is empty).
   */
  lemma NotContainsAcrossLineBreak(a: string, b: string, p: string)
    requires '\r' !in p
    requires b == [] || b[0] == '\r'
    requires !Contains(a, p) && !Contains(b, p)
    ensures !Contains(a + b, p)
  {
    var s := a + b;
    ContainsOccurs(a, p);
    ContainsOccurs(b, p);
    ContainsOccurs(s, p);
    forall i | 0 <= i <= |s| - |p|
      ensures !OccursAt(s, p, i)
    {
      if i + |p| <= |a| {
        assert s[i..i + |p|] == a[i..i + |p|];
        assert !OccursAt(a, p, i);
      } else if i >= |a| {
        assert s[i..i + |p|] == b[i - |a|..i - |a| + |p|];
        assert !OccursAt(b, p, i - |a|);
      } else {
        assert s[i..i + |p|][|a| - i] == '\r';
      }
    }
  }

  // ---------------------------------------------------------------------
  // `s.split(c, 1)`: the text before and after the first `c`.
  // ---------------------------------------------------------------------

  /** `s.split(c, 1)[0]`: everything before the first `c`, or all of `s`. */
  function Before(s: string, c: char): (r: string)
    ensures c !in r
    ensures r <= s
    ensures |r| < |s| ==> s[|r|] == c
  {
    if s == [] || s[0] == c then [] else [s[0]] + Before(s[1..], c)
  }

  /** When `c` occurs in `s`, the text before it stops short of the end of `s`. */
  lemma {:induction false} BeforeStopsAtSeparator(s: string, c: char)
    requires c in s
    ensures |Before(s, c)| < |s|
  {
    if s[0] != c {
      assert c in s[1..] by {
        var k :| 0 <= k < |s| && s[k] == c;
        assert s[1..][k - 1] == c;
      }
      BeforeStopsAtSeparator(s[1..], c);
    }
  }

  /** `s.split(c, 1)[1]`, which exists only when `c` occurs in `s`. */
  function After(s: string, c: char): (r: string)
    requires c in s
    ensures s == Before(s, c) + [c] + r
  {
    BeforeStopsAtSeparator(s, c);
    s[|Before(s, c)| + 1..]
  }

  /** The text before the first `c` is exactly the `c`-free prefix in front of it. */
  lemma {:induction false} BeforeFirst(a: string, c: char, b: string)
    requires c !in a
    ensures Before(a + [c] + b, c) == a
    ensures Before(a, c) == a
  {
    if a != [] {
      assert a[0] in a;
      assert (a + [c] + b)[1..] == a[1..] + [c] + b;
      BeforeFirst(a[1..], c, b);
    }
  }

  /** Splitting `a + [c] + b` once at `c`, when `a` has no `c`, gives back `a` and `b`. */
  lemma SplitOnceAt(a: string, c: char, b: string)
    requires c !in a
    ensures c in a + [c] + b
    ensures Before(a + [c] + b, c) == a && After(a + [c] + b, c) == b
  {
    var s := a + [c] + b;
    assert s[|a|] == c;
    BeforeFirst(a, c, b);
    assert s == a + [c] + After(s, c);
    assert After(s, c) == s[|a| + 1..] == b;
  }

  // ---------------------------------------------------------------------
  // `s.split(c)` and its inverse `c.join(parts)`.
  // ---------------------------------------------------------------------

  /** `c.join(parts)`. */
  function Join(parts: seq<string>, c: char): string
  {
    if parts == [] then []
    else if |parts| == 1 then parts[0]
    else parts[0] + [c] + Join(parts[1..], c)
  }

  /** `s.split(c)`: the text before the first `c`, then the split of the rest. */
  function Split(s: string, c: char): seq<string>
    decreases |s|
  {
    if c in s then [Before(s, c)] + Split(After(s, c), c) else [s]
  }

  /**
   * `s.split(c)` is never an empty list, no piece holds a `c`, and joining
   * the pieces with `c` gives `s` back.
   */
  lemma {:induction false} SplitPieces(s: string, c: char)
    ensures var r := Split(s, c);
      && |r| >= 1
      && (forall k :: 0 <= k < |r| ==> c !in r[k])
      && Join(r, c) == s
    decreases |s|
  {
    if c in s {
      var rest := Split(After(s, c), c);
      SplitPieces(After(s, c), c);
      var r := [Before(s, c)] + rest;
      assert forall k :: 0 < k < |r| ==> r[k] == rest[k - 1];
    }
  }

  /** Splitting the join of `c`-free pieces gives the pieces back. */
  lemma {:induction false} SplitJoin(parts: seq<string>, c: char)
    requires |parts| >= 1
    requires forall k :: 0 <= k < |parts| ==> c !in parts[k]
    ensures Split(Join(parts, c), c) == parts
    decreases |parts|
  {
    if |parts| > 1 {
      var tail := parts[1..];
      SplitOnceAt(parts[0], c, Join(tail, c));
      SplitJoin(tail, c);
    }
  }

  // ---------------------------------------------------------------------
  // White space: what `str.strip()` removes, and what `int()` skips.
  // ---------------------------------------------------------------------

  /** The white space MicroPython's `int()` skips around a number: the six ASCII spaces. */
  predicate IsSpace(ch: char)
  {
    ch == ' ' || ch == '\t' || ch == '\n' || ch == '\r' || ch == '\U{0B}' || ch == '\U{0C}'
  }

  /** Drop leading white space. */
  function TrimStart(s: string): string
  {
    if s != [] && IsSpace(s[0]) then TrimStart(s[1..]) else s
  }

  /** Drop trailing white space. */
  function TrimEnd(s: string): string
  {
    if s != [] && IsSpace(s[|s| - 1]) then TrimEnd(s[..|s| - 1]) else s
  }

  /** The text of a number once `int()` has skipped the white space around it. */
  function Strip(s: string): string
  {
    TrimEnd(TrimStart(s))
  }

  /** Text with no white space at either end is its own strip. */
  lemma StripNoSpace(s: string)
    requires forall k :: 0 <= k < |s| ==> !IsSpace(s[k])
    ensures Strip(s) == s
  {
    assert TrimStart(s) == s;
  }

  /** Text made of white space alone strips to nothing. */
  lemma {:induction false} StripAllSpace(s: string)
    requires forall k :: 0 <= k < |s| ==> IsSpace(s[k])
    ensures TrimStart(s) == [] && Strip(s) == []
  {
    if s != [] {
      assert IsSpace(s[0]);
      StripAllSpace(s[1..]);
    }
  }

  /**
   * What CPython's `str.isspace()` accepts: the ASCII spaces, the
   * separators U+001C to U+001F, NEL, the no-break space, and the Unicode
   * space and line-break characters.
   */
  predicate IsUnicodeSpace(ch: char)
  {
    || '\t' <= ch <= '\r'
    || '\U{1C}' <= ch <= ' '
    || ch == '\U{85}' || ch == '\U{A0}' || ch == '\U{1680}'
    || '\U{2000}' <= ch <= '\U{200A}'
    || ch == '\U{2028}' || ch == '\U{2029}' || ch == '\U{202F}' || ch == '\U{205F}' || ch == '\U{3000}'
  }

  /** CPython's `s.strip()`: white space dropped from the front, then from the back. */
  function PyStrip(s: string): (r: string)
  {
    if s != [] && IsUnicodeSpace(s[0]) then PyStrip(s[1..])
    else if s != [] && IsUnicodeSpace(s[|s| - 1]) then PyStrip(s[..|s| - 1])
    else s
  }

  /** `r` is the piece of `s` at `i`, with only white space before it and after it. */
  predicate Inside(s: string, r: string, i: nat)
  {
    && i + |r| <= |s| && r == s[i..i + |r|]
    && (forall k :: 0 <= k < i ==> IsUnicodeSpace(s[k]))
    && (forall k :: i + |r| <= k < |s| ==> IsUnicodeSpace(s[k]))
  }

  /** White space in front keeps a piece inside, one place further on. */
  lemma InsideAfterFront(s: string, r: string, j: nat)
    requires s != [] && IsUnicodeSpace(s[0]) && Inside(s[1..], r, j)
    ensures Inside(s, r, j + 1)
  {
    assert forall k :: 1 <= k < |s| ==> s[k] == s[1..][k - 1];
    assert s[j + 1..j + 1 + |r|] == s[1..][j..j + |r|];
  }

  /** White space behind keeps a piece inside, at the same place. */
  lemma InsideBeforeBack(s: string, r: string, i: nat)
    requires s != [] && IsUnicodeSpace(s[|s| - 1]) && Inside(s[..|s| - 1], r, i)
    ensures Inside(s, r, i)
  {
    assert forall k :: 0 <= k < |s| - 1 ==> s[k] == s[..|s| - 1][k];
    assert s[i..i + |r|] == s[..|s| - 1][i..i + |r|];
  }

  /**
   * `s.strip()` is the piece of `s` at some `i` between a run of white
   * space in front and a run behind.
   */
  lemma {:induction false} PyStripShape(s: string) returns (i: nat)
    ensures Inside(s, PyStrip(s), i)
  {
    if s != [] && IsUnicodeSpace(s[0]) {
      var j := PyStripShape(s[1..]);
      InsideAfterFront(s, PyStrip(s), j);
      i := j + 1;
    } else if s != [] && IsUnicodeSpace(s[|s| - 1]) {
      i := PyStripShape(s[..|s| - 1]);
      InsideBeforeBack(s, PyStrip(s), i);
    } else {
      i := 0;
      assert s[0..|s|] == s;
    }
  }

  /** `s.strip()` neither starts nor ends with white space. */
  lemma {:induction false} PyStripEnds(s: string)
    ensures var r := PyStrip(s); r == [] || (!IsUnicodeSpace(r[0]) && !IsUnicodeSpace(r[|r| - 1]))
  {
    if s != [] && IsUnicodeSpace(s[0]) {
      PyStripEnds(s[1..]);
    } else if s != [] && IsUnicodeSpace(s[|s| - 1]) {
      PyStripEnds(s[..|s| - 1]);
    }
  }

  // ---------------------------------------------------------------------
  // Integers: `int(s)` and `f"{n}"`.
  // ---------------------------------------------------------------------

  /** The value of a digit character in bases up to 36: `0`-`9`, then `a`-`z` in either case; 36 for anything else. */
  function Digit(c: char): nat
  {
    if '0' <= c <= '9' then c as int - '0' as int
    else if 'a' <= c <= 'z' then c as int - 'a' as int + 10
    else if 'A' <= c <= 'Z' then c as int - 'A' as int + 10
    else 36
  }

  /** An ASCII decimal digit. */
  predicate IsDigit(ch: char)
  {
    '0' <= ch <= '9'
  }

  predicate AllDigits(s: string)
  {
    forall k :: 0 <= k < |s| ==> IsDigit(s[k])
  }

  /** Every character is a digit of `base`. */
  predicate AllDigitsIn(s: string, base: nat)
  {
    s == [] || (Digit(s[0]) < base && AllDigitsIn(s[1..], base))
  }

  /** A digit of any base up to 36 is not white space. */
  lemma {:induction false} DigitsInNoSpace(s: string, base: nat)
    requires AllDigitsIn(s, base) && base <= 36
    ensures forall k :: 0 <= k < |s| ==> !IsSpace(s[k])
  {
    if s != [] {
      DigitsInNoSpace(s[1..], base);
      assert forall k :: 1 <= k < |s| ==> s[k] == s[1..][k - 1];
    }
  }

  /** Decimal digits are digits of base 10. */
  lemma {:induction false} DecimalDigitsIn(s: string)
    requires AllDigits(s)
    ensures AllDigitsIn(s, 10)
  {
    if s != [] {
      assert IsDigit(s[0]);
      DecimalDigitsIn(s[1..]);
    }
  }

  /** The number a run of digits spells in `base`, most significant first. */
  function DigitsValue(ds: string, base: nat): nat
  {
    if ds == [] then 0
    else DigitsValue(ds[..|ds| - 1], base) * base + Digit(ds[|ds| - 1])
  }

  /** The ASCII digit for `d`. */
  function DigitChar(d: nat): (ch: char)
    requires d < 10
    ensures IsDigit(ch) && Digit(ch) == d
  {
    ('0' as int + d) as char
  }

  /** `f"{n}"` for a natural number: its shortest decimal digits. */
  function FormatNat(n: nat): (r: string)
    ensures r != [] && AllDigits(r)
    ensures DigitsValue(r, 10) == n
    ensures |r| > 1 ==> r[0] != '0'
  {
    if n < 10 then
      assert [DigitChar(n)][..0] == [];
      [DigitChar(n)]
    else
      var r := FormatNat(n / 10) + [DigitChar(n % 10)];
      assert r[..|r| - 1] == FormatNat(n / 10);
      r
  }

  /** `f"{n}"` for any integer: a minus sign in front of negative numbers. */
  function FormatInt(n: int): (r: string)
    ensures r != []
    ensures forall k :: 0 <= k < |r| ==> IsDigit(r[k]) || r[k] == '-'
  {
    if n < 0 then "-" + FormatNat(-n) else FormatNat(n)
  }

  /** A run of at least one digit of `base`, and the number it spells. */
  function ReadDigits(ds: string, base: nat): Option<nat>
  {
    if ds != [] && AllDigitsIn(ds, base) then Some(DigitsValue(ds, base)) else None
  }

  /**
   * A number without its sign, as MicroPython's one-argument `int()` reads
   * it: a `0x`, `0o` or `0b` in front (either case) picks base 16, 8 or 2
   * for the digits after it; anything else is read in base 10.
   */
  function ParseMagnitude(body: string): Option<nat>
  {
    if |body| >= 2 && body[0] == '0' && (body[1] == 'x' || body[1] == 'X') then ReadDigits(body[2..], 16)
    else if |body| >= 2 && body[0] == '0' && (body[1] == 'o' || body[1] == 'O') then ReadDigits(body[2..], 8)
    else if |body| >= 2 && body[0] == '0' && (body[1] == 'b' || body[1] == 'B') then ReadDigits(body[2..], 2)
    else ReadDigits(body, 10)
  }

  /**
   * `int(s)`: white space around the number is skipped; then an optional
   * sign, an optional base prefix and at least one digit of that base must
   * make up the whole text; anything else is a ValueError, here `None`.
   */
  function ParseInt(s: string): Option<int>
  {
    var t := Strip(s);
    if t != [] && (t[0] == '-' || t[0] == '+') then
      match ParseMagnitude(t[1..])
      case None => None
      case Some(v) => var n: int := v; Some(if t[0] == '-' then -n else n)
    else ParseMagnitude(t)
  }

  /** The decimal text of an integer holds nothing but digits and a minus sign. */
  lemma FormatIntLacks(n: int, c: char)
    requires !IsDigit(c) && c != '-'
    ensures c !in FormatInt(n)
  {
  }

  /** A run of decimal digits is read in base 10: it cannot start with a base prefix. */
  lemma DecimalMagnitude(s: string)
    requires s != [] && AllDigits(s)
    ensures ParseMagnitude(s) == Some(DigitsValue(s, 10))
    ensures forall k :: 0 <= k < |s| ==> !IsSpace(s[k])
  {
    if |s| >= 2 {
      assert IsDigit(s[1]);
    }
    DecimalDigitsIn(s);
  }

  /** Reading back the decimal text of any integer gives the integer. */
  lemma ParseFormat(n: int)
    ensures ParseInt(FormatInt(n)) == Some(n)
  {
    var f := FormatInt(n);
    var m := FormatNat(if n < 0 then -n else n);
    DecimalMagnitude(m);
    StripNoSpace(f);
    assert IsDigit(m[0]);
    if n < 0 {
      assert f[0] == '-' && f[1..] == m;
    } else {
      assert f == m;
    }
  }

  /** A run of digits, with nothing around it, reads as the number it spells. */
  lemma ParseDigits(s: string)
    requires s != [] && AllDigits(s)
    ensures ParseInt(s) == Some(DigitsValue(s, 10))
  {
    DecimalMagnitude(s);
    StripNoSpace(s);
    assert IsDigit(s[0]);
  }

  /** Appending a digit shifts the value one decimal place and adds the digit. */
  lemma DigitsSnoc(s: string, c: char)
    requires AllDigits(s) && IsDigit(c)
    ensures AllDigits(s + [c]) && DigitsValue(s + [c], 10) == DigitsValue(s, 10) * 10 + Digit(c)
  {
    assert (s + [c])[..|s|] == s;
  }

  /** A run of digits worth `n` is read back as `n`. */
  lemma ParseValue(s: string, n: int)
    requires s != [] && AllDigits(s) && DigitsValue(s, 10) == n
    ensures ParseInt(s) == Some(n)
  {
    ParseDigits(s);
  }

  /**
   * A `0x`, `0o` or `0b` prefix (in either case) reads the digits after it
   * in base 16, 8 or 2: `int("0x14")` is 20.
   */
  lemma ParsePrefixed(p: char, ds: string, base: nat)
    requires (base == 16 && (p == 'x' || p == 'X')) || (base == 8 && (p == 'o' || p == 'O'))
          || (base == 2 && (p == 'b' || p == 'B'))
    requires ds != [] && AllDigitsIn(ds, base)
    ensures ParseInt(['0', p] + ds) == Some(DigitsValue(ds, base))
  {
    var s := ['0', p] + ds;
    assert s[2..] == ds;
    DigitsInNoSpace(ds, base);
    forall k | 0 <= k < |s|
      ensures !IsSpace(s[k])
    {
      if k >= 2 {
        assert s[k] == ds[k - 2];
      } else {
        assert s[k] == '0' || s[k] == p;
      }
    }
    StripNoSpace(s);
  }

  /** Text with nothing but white space in it (such as `""`) is not an integer. */
  lemma ParseIntBlank(s: string)
    requires forall k :: 0 <= k < |s| ==> IsSpace(s[k])
    ensures ParseInt(s) == None
  {
    StripAllSpace(s);
  }
}
