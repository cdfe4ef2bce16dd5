/**
 * JavaScript strings as the controllers see them: sequences of UTF-16 code
 * units, so that `length` and every offset handed to Telegram count code
 * units. The module also holds the string built-ins the controllers use:
 * number formatting, `trim()` with `replace(/\s+/g, ' ')`, `toLowerCase()`
 * and the case-insensitive regular-expression tests.
 */
module JsText {
  import opened Wrappers

  /** One UTF-16 code unit. */
  type Unit = u: int | 0 <= u < 0x1_0000

  /** A JavaScript string. */
  type Str = seq<Unit>

  const NL: Unit := 0x0A
  const SP: Unit := 0x20
  const MINUS: Unit := 0x2D
  const DOT: Unit := 0x2E
  const PERCENT: Unit := 0x25
  const ZERO: Unit := 0x30

  /**
   * The code units of a string literal of the source whose characters all lie
   * in the Basic Multilingual Plane, where one character is one code unit.
   * (The source's three emoji lie outside it and are written as their
   * surrogate pairs where they occur.)
   */
  function Units(s: string): (r: Str)
    ensures |r| == |s|
  {
    seq(|s|, i requires 0 <= i < |s| => if (s[i] as int) < 0x1_0000 then s[i] as int else 0xFFFD)
  }

  /** `u.repeat(n)` for a one-unit string `u`. */
  function Repeat(u: Unit, n: nat): (r: Str)
    ensures |r| == n
    ensures forall i :: 0 <= i < n ==> r[i] == u
  {
    seq(n, _ => u)
  }

  // ---------------------------------------------------------------------
  // Numbers as text
  // ---------------------------------------------------------------------

  predicate IsDigit(u: Unit) { ZERO <= u <= ZERO + 9 }

  /** Decimal digits of a natural number, most significant first (`String(n)`). */
  function NatToString(n: nat): (r: Str)
    ensures r != []
    ensures forall i :: 0 <= i < |r| ==> IsDigit(r[i])
    decreases n
  {
    if n < 10 then [ZERO + n] else NatToString(n / 10) + [ZERO + n % 10]
  }

  /** The value of a string of decimal digits, the inverse of NatToString. */
  function DigitsValue(s: Str): int
    requires forall i :: 0 <= i < |s| ==> IsDigit(s[i])
  {
    if s == [] then 0 else DigitsValue(s[..|s| - 1]) * 10 + (s[|s| - 1] - ZERO)
  }

  /** `String(i)` for an integer `i`. */
  function IntToString(i: int): (r: Str)
    ensures r != []
    ensures (r[0] == MINUS) <==> i < 0
  {
    if i < 0 then [MINUS] + NatToString(-i) else NatToString(i)
  }

  function Abs(i: int): nat { if i < 0 then -i else i }

  function Sign(i: int): Str { if i < 0 then [MINUS] else [] }

  /**
   * `x.toFixed(1)` for a number `x` that is a whole number of tenths; the
   * argument is that number of tenths.
   */
  function Fixed1(tenths: int): (r: Str)
    ensures |r| >= 3 && r[|r| - 2] == DOT
    ensures (r[0] == MINUS) <==> tenths < 0
  {
    Sign(tenths) + NatToString(Abs(tenths) / 10) + [DOT, ZERO + Abs(tenths) % 10]
  }

  /**
   * `String(x)` for a number `x` that is a whole number of tenths: no
   * fractional part is shown when it is zero.
   */
  function TenthsToString(tenths: int): (r: Str)
    ensures r != [] && ((r[0] == MINUS) <==> tenths < 0)
    ensures tenths % 10 == 0 <==> DOT !in r
  {
    Sign(tenths) + NatToString(Abs(tenths) / 10)
      + (if Abs(tenths) % 10 == 0 then [] else [DOT, ZERO + Abs(tenths) % 10])
  }

  predicate AllDigits(s: Str)
  {
    forall i :: 0 <= i < |s| ==> IsDigit(s[i])
  }

  /** Reads back digits with at most one digit after a point, as a number of tenths. */
  function ParseUnsigned(s: Str): Option<int>
  {
    if |s| >= 2 && s[|s| - 2] == DOT then
      if s[..|s| - 2] != [] && AllDigits(s[..|s| - 2]) && IsDigit(s[|s| - 1])
      then Some(DigitsValue(s[..|s| - 2]) * 10 + (s[|s| - 1] - ZERO)) else None
    else if s != [] && AllDigits(s) then Some(DigitsValue(s) * 10) else None
  }

  /**
   * Reads back a decimal with an optional minus sign and at most one digit
   * after the point, as a number of tenths; None for any other text.
   */
  function ParseTenths(s: Str): Option<int>
  {
    if s != [] && s[0] == MINUS then
      match ParseUnsigned(s[1..])
      case None => None
      case Some(v) => Some(-v)
    else
      match ParseUnsigned(s)
      case None => None
      case Some(v) => Some(v)
  }

  /** The digits of `n` and an optional ".d" read back as `n` and `d` tenths. */
  lemma ParseUnsignedDigits(n: nat, d: int, pointed: bool)
    requires 0 <= d < 10 && (pointed || d == 0)
    ensures ParseUnsigned(NatToString(n) + (if pointed then [DOT, ZERO + d] else [])) == Some(n * 10 + d)
  {
    var digits := NatToString(n);
    var body := digits + (if pointed then [DOT, ZERO + d] else []);
    DigitsRoundTrip(n);
    if pointed {
      assert body[..|body| - 2] == digits;
    } else {
      assert body == digits;
      if |body| >= 2 { assert !IsDigit(DOT); }
    }
  }

  /** A minus sign in front of an unsigned decimal negates it; without one the decimal reads as it is. */
  lemma ParseSigned(body: Str)
    requires body != [] && IsDigit(body[0])
    ensures ParseTenths(body) == ParseUnsigned(body)
    ensures ParseTenths([MINUS] + body) == if ParseUnsigned(body).Some? then Some(-ParseUnsigned(body).value) else None
  {
    assert ([MINUS] + body)[1..] == body;
  }

  /** A sign in front of the digits of `n` and an optional ".d" reads back with the sign. */
  lemma ParseDecimal(s: Str, negative: bool, n: nat, d: int, pointed: bool)
    requires 0 <= d < 10 && (pointed || d == 0)
    requires s == (if negative then [MINUS] else []) + (NatToString(n) + (if pointed then [DOT, ZERO + d] else []))
    ensures ParseTenths(s) == Some(if negative then -(n * 10 + d) else n * 10 + d)
  {
    var digits := NatToString(n);
    var body := digits + (if pointed then [DOT, ZERO + d] else []);
    ParseUnsignedDigits(n, d, pointed);
    assert body[0] == digits[0];
    ParseSigned(body);
    if !negative {
      assert s == body;
    }
  }

  lemma Fixed1Shape(tenths: int)
    ensures Fixed1(tenths)
         == (if tenths < 0 then [MINUS] else []) + (NatToString(Abs(tenths) / 10) + [DOT, ZERO + Abs(tenths) % 10])
  {
  }

  lemma TenthsToStringShape(tenths: int)
    ensures TenthsToString(tenths)
         == (if tenths < 0 then [MINUS] else [])
            + (NatToString(Abs(tenths) / 10) + (if Abs(tenths) % 10 != 0 then [DOT, ZERO + Abs(tenths) % 10] else []))
  {
  }

  /** `toFixed(1)` reads back as the number it printed. */
  lemma Fixed1RoundTrip(tenths: int)
    ensures ParseTenths(Fixed1(tenths)) == Some(tenths)
  {
    var n, d := Abs(tenths) / 10, Abs(tenths) % 10;
    assert n * 10 + d == Abs(tenths);
    Fixed1Shape(tenths);
    ParseDecimal(Fixed1(tenths), tenths < 0, n, d, true);
  }

  /** `String(x)` reads back as the number it printed. */
  lemma TenthsRoundTrip(tenths: int)
    ensures ParseTenths(TenthsToString(tenths)) == Some(tenths)
  {
    var n, d := Abs(tenths) / 10, Abs(tenths) % 10;
    assert n * 10 + d == Abs(tenths);
    TenthsToStringShape(tenths);
    ParseDecimal(TenthsToString(tenths), tenths < 0, n, d, d != 0);
  }

  /** `String(x)` and `x.toFixed(1)` differ only by the ".0" that String omits. */
  lemma TenthsToStringVersusFixed1(tenths: int)
    ensures tenths % 10 != 0 ==> TenthsToString(tenths) == Fixed1(tenths)
    ensures tenths % 10 == 0 ==> TenthsToString(tenths) + [DOT, ZERO] == Fixed1(tenths)
  {
  }

  function Pow10(k: nat): nat { if k == 0 then 1 else 10 * Pow10(k - 1) }

  /** Reading back the digits of a natural number gives the number. */
  lemma {:induction false} DigitsRoundTrip(n: nat)
    ensures DigitsValue(NatToString(n)) == n
    decreases n
  {
    if n >= 10 {
      DigitsRoundTrip(n / 10);
      var s := NatToString(n);
      assert s[..|s| - 1] == NatToString(n / 10);
    }
  }

  /** A number below 10^k has at most k digits. */
  lemma {:induction false} NatToStringLength(n: nat, k: nat)
    requires 1 <= k && n < Pow10(k)
    ensures |NatToString(n)| <= k
    decreases k
  {
    if n >= 10 {
      NatToStringLength(n / 10, k - 1);
    }
  }

  // ---------------------------------------------------------------------
  // Whitespace: String.prototype.trim and replace(/\s+/g, ' ')
  // ---------------------------------------------------------------------

  /** The units matched by `\s` and removed by `trim()`: WhiteSpace and LineTerminator. */
  predicate IsSpace(u: Unit)
  {
    u == 0x09 || u == 0x0A || u == 0x0B || u == 0x0C || u == 0x0D || u == 0x20
    || u == 0xA0 || u == 0x1680 || (0x2000 <= u <= 0x200A) || u == 0x2028
    || u == 0x2029 || u == 0x202F || u == 0x205F || u == 0x3000 || u == 0xFEFF
  }

  /** The index of the first non-whitespace unit of `s` at or after `k`, or `|s|`. */
  function SkipSpaces(s: Str, k: nat): (n: nat)
    requires k <= |s|
    ensures k <= n <= |s|
    ensures forall i :: k <= i < n ==> IsSpace(s[i])
    ensures n == |s| || !IsSpace(s[n])
    decreases |s| - k
  {
    if k < |s| && IsSpace(s[k]) then SkipSpaces(s, k + 1) else k
  }

  /** Drops the leading whitespace. */
  function TrimStart(s: Str): (r: Str)
    ensures |r| <= |s| && r == s[|s| - |r|..]
    ensures r == [] || !IsSpace(r[0])
    ensures forall i :: 0 <= i < |s| - |r| ==> IsSpace(s[i])
  {
    s[SkipSpaces(s, 0)..]
  }

  /** Drops the trailing whitespace. */
  function TrimEnd(s: Str): (r: Str)
    ensures |r| <= |s| && r == s[..|r|]
    ensures r == [] || !IsSpace(r[|r| - 1])
    ensures forall i :: |r| <= i < |s| ==> IsSpace(s[i])
  {
    if s != [] && IsSpace(s[|s| - 1]) then TrimEnd(s[..|s| - 1]) else s
  }

  /** `s.trim()` */
  function Trim(s: Str): (r: Str)
    ensures r == [] || (!IsSpace(r[0]) && !IsSpace(r[|r| - 1]))
  {
    TrimEnd(TrimStart(s))
  }

  /** `s.replace(/\s+/g, ' ')`: every maximal run of whitespace becomes one space. */
  function Collapse(s: Str): (r: Str)
    ensures (r == []) == (s == [])
    ensures s != [] ==> (IsSpace(r[0]) <==> IsSpace(s[0]))
    decreases |s|
  {
    if s == [] then []
    else if IsSpace(s[0]) then [SP] + Collapse(TrimStart(s[1..]))
    else [s[0]] + Collapse(s[1..])
  }

  /**
   * The same replacement read as one left-to-right scan: every
   * non-whitespace unit is kept; a whitespace unit becomes one space when it
   * starts a run (`afterSpace` is false) and is dropped otherwise.
   */
  function Runs(s: Str, afterSpace: bool): Str
    decreases |s|
  {
    if s == [] then []
    else if IsSpace(s[0]) then (if afterSpace then [] else [SP]) + Runs(s[1..], true)
    else [s[0]] + Runs(s[1..], false)
  }

  /** The non-whitespace units of `s`, in order. */
  function NonSpace(s: Str): Str
    decreases |s|
  {
    if s == [] then [] else (if IsSpace(s[0]) then [] else [s[0]]) + NonSpace(s[1..])
  }

  /** Two ways of dropping leading whitespace give the same suffix. */
  lemma TrimStartUnique(s: Str, r: Str)
    requires |r| <= |s| && r == s[|s| - |r|..]
    requires r == [] || !IsSpace(r[0])
    requires forall i :: 0 <= i < |s| - |r| ==> IsSpace(s[i])
    ensures TrimStart(s) == r
  {
  }

  /** Leading whitespace after a run of whitespace is dropped by the scan either way. */
  lemma {:induction false} RunsAfterSpace(s: Str)
    ensures Runs(s, true) == Runs(TrimStart(s), true)
    decreases |s|
  {
    if s != [] && IsSpace(s[0]) {
      RunsAfterSpace(s[1..]);
      TrimStartUnique(s, TrimStart(s[1..]));
    } else {
      TrimStartUnique(s, s);
    }
  }

  /** `replace(/\s+/g, ' ')` is the one-pass scan: each whitespace run becomes one space, all else is kept. */
  lemma {:induction false} CollapseByRuns(s: Str)
    ensures Collapse(s) == Runs(s, false)
    decreases |s|
  {
    if s != [] {
      if IsSpace(s[0]) {
        var t := TrimStart(s[1..]);
        CollapseByRuns(t);
        RunsAfterSpace(s[1..]);
        if t != [] { assert Runs(t, true) == Runs(t, false); }
      } else {
        CollapseByRuns(s[1..]);
      }
    }
  }

  lemma {:induction false} NonSpaceAppend(a: Str, b: Str)
    ensures NonSpace(a + b) == NonSpace(a) + NonSpace(b)
    decreases |a|
  {
    if a != [] {
      NonSpaceAppend(a[1..], b);
      assert (a + b)[1..] == a[1..] + b;
    } else {
      assert a + b == b;
    }
  }

  lemma {:induction false} NonSpaceOfSpaces(s: Str)
    requires forall i :: 0 <= i < |s| ==> IsSpace(s[i])
    ensures NonSpace(s) == []
    decreases |s|
  {
    if s != [] { NonSpaceOfSpaces(s[1..]); }
  }

  lemma {:induction false} RunsKeepsNonSpace(s: Str, afterSpace: bool)
    ensures NonSpace(Runs(s, afterSpace)) == NonSpace(s)
    decreases |s|
  {
    if s != [] {
      RunsKeepsNonSpace(s[1..], IsSpace(s[0]));
      var head := if IsSpace(s[0]) then (if afterSpace then [] else [SP]) else [s[0]];
      NonSpaceAppend(head, Runs(s[1..], IsSpace(s[0])));
      assert NonSpace([SP]) == [];
    }
  }

  /** The only whitespace is single plain spaces. */
  predicate SingleSpaced(s: Str)
  {
    forall i :: 0 <= i < |s| && IsSpace(s[i]) ==> s[i] == SP && (i + 1 < |s| ==> !IsSpace(s[i + 1]))
  }

  /** What `trim()` followed by `replace(/\s+/g, ' ')` promises of its result. */
  predicate IsNormalized(s: Str)
  {
    SingleSpaced(s) && (s != [] ==> !IsSpace(s[0]) && !IsSpace(s[|s| - 1]))
  }

  /** `String(x).trim().replace(/\s+/g, ' ')` */
  function Normalize(s: Str): Str
  {
    Collapse(Trim(s))
  }

  /** Putting a unit in front of a single-spaced string keeps it single-spaced when no space pair forms. */
  lemma SingleSpacedCons(x: Unit, c: Str)
    requires SingleSpaced(c)
    requires IsSpace(x) ==> x == SP && (c == [] || !IsSpace(c[0]))
    ensures SingleSpaced([x] + c)
  {
    var r := [x] + c;
    forall i | 0 <= i < |r| && IsSpace(r[i])
      ensures r[i] == SP && (i + 1 < |r| ==> !IsSpace(r[i + 1]))
    {
      if i > 0 { assert r[i] == c[i - 1]; }
    }
  }

  /** Collapse leaves only single plain spaces. */
  lemma {:induction false} CollapseSingleSpaced(s: Str)
    ensures SingleSpaced(Collapse(s))
    decreases |s|
  {
    if s != [] {
      if IsSpace(s[0]) {
        var t := TrimStart(s[1..]);
        CollapseSingleSpaced(t);
        SingleSpacedCons(SP, Collapse(t));
      } else {
        CollapseSingleSpaced(s[1..]);
        SingleSpacedCons(s[0], Collapse(s[1..]));
      }
    }
  }

  /** Collapse ends in whitespace exactly when its argument does. */
  lemma {:induction false} CollapseLast(s: Str)
    requires s != []
    ensures IsSpace(Collapse(s)[|Collapse(s)| - 1]) <==> IsSpace(s[|s| - 1])
    decreases |s|
  {
    if IsSpace(s[0]) {
      var t := TrimStart(s[1..]);
      if t == [] {
        assert IsSpace(s[|s| - 1]) by {
          if |s| > 1 { assert s[|s| - 1] == s[1..][|s| - 2]; }
        }
      } else {
        CollapseLast(t);
        assert t[|t| - 1] == s[|s| - 1];
      }
    } else if |s| > 1 {
      CollapseLast(s[1..]);
    }
  }

  /** The result of Normalize has no surrounding whitespace and single spaces only. */
  lemma NormalizeShape(s: Str)
    ensures IsNormalized(Normalize(s))
  {
    CollapseSingleSpaced(Trim(s));
    if Trim(s) != [] { CollapseLast(Trim(s)); }
  }

  /** Dropping the first unit keeps a string single-spaced. */
  lemma SingleSpacedTail(s: Str)
    requires s != [] && SingleSpaced(s)
    ensures SingleSpaced(s[1..])
  {
    var t := s[1..];
    forall i | 0 <= i < |t| && IsSpace(t[i])
      ensures t[i] == SP && (i + 1 < |t| ==> !IsSpace(t[i + 1]))
    {
      assert t[i] == s[i + 1];
    }
  }

  /** A single-spaced string is left alone by Collapse. */
  lemma {:induction false} CollapseFixes(s: Str)
    requires SingleSpaced(s)
    ensures Collapse(s) == s
    decreases |s|
  {
    if s != [] {
      SingleSpacedTail(s);
      CollapseFixes(s[1..]);
      if IsSpace(s[0]) {
        assert s[0] == SP;
        assert SkipSpaces(s[1..], 0) == 0;
        assert TrimStart(s[1..]) == s[1..];
      }
      assert [s[0]] + s[1..] == s;
    }
  }

  /**
   * Normalize keeps every non-whitespace unit, in order: it only drops the
   * surrounding whitespace and turns each inner whitespace run into one space.
   */
  lemma NormalizeKeepsNonSpace(s: Str)
    ensures NonSpace(Normalize(s)) == NonSpace(s)
    ensures Normalize(s) == Runs(Trim(s), false)
  {
    TrimKeepsNonSpace(s);
    CollapseByRuns(Trim(s));
    RunsKeepsNonSpace(Trim(s), false);
  }

  lemma TrimStartKeepsNonSpace(s: Str)
    ensures NonSpace(TrimStart(s)) == NonSpace(s)
  {
    var t := TrimStart(s);
    assert s == s[..|s| - |t|] + t;
    NonSpaceAppend(s[..|s| - |t|], t);
    NonSpaceOfSpaces(s[..|s| - |t|]);
  }

  lemma TrimEndKeepsNonSpace(s: Str)
    ensures NonSpace(TrimEnd(s)) == NonSpace(s)
  {
    var t := TrimEnd(s);
    assert s == t + s[|t|..];
    NonSpaceAppend(t, s[|t|..]);
    NonSpaceOfSpaces(s[|t|..]);
  }

  /** `trim()` drops whitespace only. */
  lemma TrimKeepsNonSpace(s: Str)
    ensures NonSpace(Trim(s)) == NonSpace(s)
  {
    TrimStartKeepsNonSpace(s);
    TrimEndKeepsNonSpace(TrimStart(s));
  }

  /** Normalize is the identity exactly on normalized strings, hence idempotent. */
  lemma NormalizeFixesNormalized(s: Str)
    ensures IsNormalized(s) <==> Normalize(s) == s
    ensures Normalize(Normalize(s)) == Normalize(s)
  {
    if IsNormalized(s) {
      assert TrimStart(s) == s;
      assert TrimEnd(s) == s;
      CollapseFixes(s);
    }
    NormalizeShape(s);
    var n := Normalize(s);
    assert TrimStart(n) == n;
    assert TrimEnd(n) == n;
    CollapseFixes(n);
  }

  // ---------------------------------------------------------------------
  // Case
  // ---------------------------------------------------------------------

  /**
   * `toLowerCase()` on one code unit, for the letters the members' names use:
   * ASCII, Latin-1 and the basic Cyrillic block.
   */
  function LowerUnit(u: Unit): Unit
  {
    if 0x41 <= u <= 0x5A then u + 0x20
    else if 0xC0 <= u <= 0xDE && u != 0xD7 then u + 0x20
    else if 0x410 <= u <= 0x42F then u + 0x20
    else if 0x400 <= u <= 0x40F then u + 0x50
    else u
  }

  /** A string that toLowerCase() leaves as it is. */
  predicate IsLowerCase(s: Str)
  {
    forall i :: 0 <= i < |s| ==> LowerUnit(s[i]) == s[i]
  }

  /**
   * `s.toLowerCase()`: unit by unit, so the length is kept; the result is
   * lower-case, and a string already lower-case is returned unchanged.
   */
  function Lower(s: Str): (r: Str)
    ensures |r| == |s|
    ensures IsLowerCase(r)
    ensures IsLowerCase(s) ==> r == s
    ensures forall i :: 0 <= i < |s| && !(0x41 <= s[i] <= 0x5A) && s[i] < 0x80 ==> r[i] == s[i]
    ensures forall i :: 0 <= i < |s| && 0x41 <= s[i] <= 0x5A ==> r[i] == s[i] + 0x20
    ensures forall i :: 0 <= i < |s| && 0xC0 <= s[i] <= 0xDE && s[i] != 0xD7 ==> r[i] == s[i] + 0x20
    ensures forall i :: 0 <= i < |s| && 0x410 <= s[i] <= 0x42F ==> r[i] == s[i] + 0x20
    ensures forall i :: 0 <= i < |s| && 0x400 <= s[i] <= 0x40F ==> r[i] == s[i] + 0x50
  {
    seq(|s|, i requires 0 <= i < |s| => LowerUnit(s[i]))
  }

  /** A regular expression with the `i` flag (and no `u` flag) folds the ASCII letters only. */
  function AsciiLowerUnit(u: Unit): Unit
  {
    if 0x41 <= u <= 0x5A then u + 0x20 else u
  }

  /** `/word/i.test(s)` for a lower-case ASCII `word`. */
  predicate ContainsIgnoringAsciiCase(s: Str, word: Str)
  {
    exists i :: 0 <= i <= |s| - |word| && MatchesAt(s, word, i)
  }

  /** `word` occurs in `s` at index `i`, ignoring the case of ASCII letters. */
  predicate MatchesAt(s: Str, word: Str, i: int)
    requires 0 <= i <= |s| - |word|
  {
    forall j :: 0 <= j < |word| ==> AsciiLowerUnit(s[i + j]) == word[j]
  }

  /** `/[<>]/.test(s)` */
  predicate HasAngleBracket(s: Str)
  {
    exists i :: 0 <= i < |s| && (s[i] == 0x3C || s[i] == 0x3E)
  }
}
