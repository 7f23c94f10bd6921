/**
 * The string operations of the Java and Python standard libraries that the caller and the
 * plotting script rely on: ASCII case folding, decimal rendering and parsing of 64-bit
 * integers, String.split on one character, str.strip and substring search.
 */
module JavaText {
  import opened Wrappers

  const LONG_MIN: int := -0x8000_0000_0000_0000
  const LONG_MAX: int := 0x7FFF_FFFF_FFFF_FFFF

  /** A value representable as a Java `long`. */
  predicate InLongRange(n: int) { LONG_MIN <= n <= LONG_MAX }

  // ---------------------------------------------------------------------------------------
  // Case folding (String.toLowerCase restricted to ASCII letters)

  function LowerChar(c: char): (r: char)
    ensures 'A' <= c <= 'Z' ==> 'a' <= r <= 'z'
    ensures !('A' <= c <= 'Z') ==> r == c
  {
    if 'A' <= c <= 'Z' then (c as int - 'A' as int + 'a' as int) as char else c
  }

  function Lower(s: string): (r: string)
    ensures |r| == |s|
    ensures forall i :: 0 <= i < |s| ==> r[i] == LowerChar(s[i])
  {
    if s == [] then [] else [LowerChar(s[0])] + Lower(s[1..])
  }

  // ---------------------------------------------------------------------------------------
  // Decimal digits

  predicate IsDigit(c: char) { '0' <= c <= '9' }

  predicate AllDigits(s: string) { forall i :: 0 <= i < |s| ==> IsDigit(s[i]) }

  function DigitChar(d: nat): (c: char)
    requires d < 10
    ensures IsDigit(c) && c as int - '0' as int == d
  {
    ('0' as int + d) as char
  }

  function DigitValue(c: char): nat
    requires IsDigit(c)
  {
    c as int - '0' as int
  }

  /** The decimal rendering of a natural number, without leading zeros. */
  function NatToString(n: nat): (r: string)
    decreases n
  {
    if n < 10 then [DigitChar(n)] else NatToString(n / 10) + [DigitChar(n % 10)]
  }

  /** The value of a string of decimal digits (most significant first). */
  function DigitsValue(s: string): nat
    requires AllDigits(s)
  {
    if s == [] then 0 else 10 * DigitsValue(s[..|s| - 1]) + DigitValue(s[|s| - 1])
  }

  lemma {:induction false} NatToStringDigits(n: nat)
    ensures |NatToString(n)| > 0 && AllDigits(NatToString(n))
    ensures DigitsValue(NatToString(n)) == n
    decreases n
  {
    if n >= 10 {
      NatToStringDigits(n / 10);
      var s := NatToString(n);
      assert s[..|s| - 1] == NatToString(n / 10);
    }
  }

  /** Java's decimal rendering of an integer (Long.toString / String.valueOf). */
  function IntToString(i: int): (r: string)
  {
    if i < 0 then "-" + NatToString(-i) else NatToString(i)
  }

  /**
   * Long.parseLong / Long.valueOf restricted to ASCII: an optional sign followed by at least
   * one digit '0'-'9', whose value fits in a `long`; anything else raises NumberFormatException
   * (None here). Java would also accept other Unicode decimal digits.
   */
  function ParseLong(s: string): (r: Option<int>)
    ensures r.Some? ==> InLongRange(r.value)
  {
    var neg := |s| > 0 && s[0] == '-';
    var body := if |s| > 0 && (s[0] == '-' || s[0] == '+') then s[1..] else s;
    if body == [] || !AllDigits(body) then None
    else
      var v: int := if neg then -(DigitsValue(body) as int) else DigitsValue(body);
      if InLongRange(v) then Some(v) else None
  }

  /** A character that is not a digit, anywhere after an optional leading sign, is rejected. */
  lemma ParseLongNonDigit(s: string, i: nat)
    requires i < |s| && !IsDigit(s[i])
    requires i == 0 ==> s[0] != '-' && s[0] != '+'
    ensures ParseLong(s) == None
  {
    if s[0] == '-' || s[0] == '+' {
      assert s[1..][i - 1] == s[i];
    }
  }

  lemma ParseLongRejectsEmpty()
    ensures ParseLong("") == None && ParseLong("-") == None && ParseLong("+") == None
  {
  }

  /** Parsing the decimal rendering of every `long` gives the number back. */
  lemma ParseLongRoundTrip(n: int)
    requires InLongRange(n)
    ensures ParseLong(IntToString(n)) == Some(n)
  {
    if n < 0 {
      NatToStringDigits(-n);
      var s := IntToString(n);
      assert s[1..] == NatToString(-n);
    } else {
      NatToStringDigits(n);
      assert NatToString(n)[0] != '-' && NatToString(n)[0] != '+';
    }
  }

  lemma IntToStringNoChar(n: int, c: char)
    requires c != '-' && !IsDigit(c)
    ensures c !in IntToString(n)
  {
    if n < 0 {
      NatToStringDigits(-n);
      assert IntToString(n) == "-" + NatToString(-n);
    } else {
      NatToStringDigits(n);
    }
  }

  // ---------------------------------------------------------------------------------------
  // Splitting on one character

  function IndexOf(s: string, c: char): (i: nat)
    requires c in s
    ensures i < |s| && s[i] == c && c !in s[..i]
  {
    if s[0] == c then 0 else 1 + IndexOf(s[1..], c)
  }

  /**
   * Every field between occurrences of `sep`, empty ones included: Python's `str.split(sep)`
   * and the raw match list behind Java's `String.split`.
   */
  function SplitOn(s: string, sep: char): (r: seq<string>)
    ensures |r| >= 1
    ensures forall k :: 0 <= k < |r| ==> sep !in r[k]
    decreases |s|
  {
    if sep !in s then [s]
    else
      var i := IndexOf(s, sep);
      [s[..i]] + SplitOn(s[i + 1..], sep)
  }

  /** Number of occurrences of `c` in `s`. */
  function Occurrences(s: string, c: char): nat
  {
    if s == [] then 0 else (if s[0] == c then 1 else 0) + Occurrences(s[1..], c)
  }

  lemma {:induction false} OccurrencesSplit(s: string, i: nat, c: char)
    requires i <= |s|
    ensures Occurrences(s, c) == Occurrences(s[..i], c) + Occurrences(s[i..], c)
    decreases i
  {
    if i > 0 {
      OccurrencesSplit(s[1..], i - 1, c);
      assert s[1..][..i - 1] == s[..i][1..];
      assert s[1..][i - 1..] == s[i..];
    }
  }

  lemma {:induction false} NoOccurrences(s: string, c: char)
    ensures Occurrences(s, c) == 0 <==> c !in s
  {
    if s != [] {
      NoOccurrences(s[1..], c);
      assert s == [s[0]] + s[1..];
    }
  }

  /** Splitting yields one more field than there are separators. */
  lemma {:induction false} SplitOnCount(s: string, sep: char)
    ensures |SplitOn(s, sep)| == Occurrences(s, sep) + 1
    decreases |s|
  {
    NoOccurrences(s, sep);
    if sep in s {
      var i := IndexOf(s, sep);
      SplitOnCount(s[i + 1..], sep);
      OccurrencesSplit(s, i, sep);
      NoOccurrences(s[..i], sep);
      assert s[i..] == [sep] + s[i + 1..];
      assert Occurrences(s[i..], sep) == 1 + Occurrences(s[i + 1..], sep);
    }
  }

  lemma {:induction false} IndexOfPrefix(a: string, sep: char, b: string)
    requires sep !in a
    ensures IndexOf(a + [sep] + b, sep) == |a|
  {
    if a != [] {
      IndexOfPrefix(a[1..], sep, b);
      assert (a + [sep] + b)[1..] == a[1..] + [sep] + b;
    }
  }

  lemma SplitOnPrefix(a: string, sep: char, b: string)
    requires sep !in a
    ensures SplitOn(a + [sep] + b, sep) == [a] + SplitOn(b, sep)
  {
    var s := a + [sep] + b;
    IndexOfPrefix(a, sep, b);
    assert s[..|a|] == a;
    assert s[|a| + 1..] == b;
  }

  function DropTrailingEmpty(fields: seq<string>): (r: seq<string>)
    ensures |r| <= |fields| && r == fields[..|r|]
    ensures r == [] || r[|r| - 1] != ""
    ensures forall k :: |r| <= k < |fields| ==> fields[k] == ""
  {
    if fields == [] then []
    else if fields[|fields| - 1] == "" then DropTrailingEmpty(fields[..|fields| - 1])
    else fields
  }

  /** A non-empty field survives the dropping of trailing empty fields, with all before it. */
  lemma {:induction false} DropTrailingEmptyKeeps(fields: seq<string>, k: nat)
    requires k < |fields| && fields[k] != ""
    ensures |DropTrailingEmpty(fields)| > k
    decreases |fields|
  {
    if fields[|fields| - 1] == "" {
      DropTrailingEmptyKeeps(fields[..|fields| - 1], k);
    }
  }

  /**
   * Java's `s.split(String.valueOf(sep))` with the default limit 0: leading empty fields are
   * kept, trailing empty fields are dropped, and a string without the separator is returned
   * whole (so "" splits into [""]).
   */
  function JavaSplit(s: string, sep: char): (r: seq<string>)
    ensures forall k :: 0 <= k < |r| ==> sep !in r[k]
  {
    if sep !in s then [s] else DropTrailingEmpty(SplitOn(s, sep))
  }

  // ---------------------------------------------------------------------------------------
  // Python's str.strip() and the `in` test on strings

  /** The ASCII characters for which Python's str.isspace() holds. */
  predicate IsPySpace(c: char)
  {
    c == ' ' || (9 <= c as int <= 13) || (0x1c <= c as int <= 0x1f)
  }

  function LStrip(s: string): (r: string)
    ensures |r| <= |s| && r == s[|s| - |r|..]
    ensures r == [] || !IsPySpace(r[0])
    ensures forall k :: 0 <= k < |s| - |r| ==> IsPySpace(s[k])
  {
    if s != [] && IsPySpace(s[0]) then LStrip(s[1..]) else s
  }

  function RStrip(s: string): (r: string)
    ensures |r| <= |s| && r == s[..|r|]
    ensures r == [] || !IsPySpace(r[|r| - 1])
    ensures forall k :: |r| <= k < |s| ==> IsPySpace(s[k])
  {
    if s != [] && IsPySpace(s[|s| - 1]) then RStrip(s[..|s| - 1]) else s
  }

  /** Python's `s.strip()`: leading and trailing whitespace removed. */
  function Strip(s: string): (r: string)
    ensures r == [] || (!IsPySpace(r[0]) && !IsPySpace(r[|r| - 1]))
  {
    RStrip(LStrip(s))
  }

  lemma {:induction false} StripKeeps(s: string, c: char)
    requires !IsPySpace(c)
    ensures Occurrences(Strip(s), c) == Occurrences(s, c)
  {
    var l := LStrip(s);
    OccurrencesSplit(s, |s| - |l|, c);
    NoSpaceOccurrences(s[..|s| - |l|], c);
    var r := RStrip(l);
    OccurrencesSplit(l, |r|, c);
    NoSpaceOccurrences(l[|r|..], c);
  }

  lemma {:induction false} NoSpaceOccurrences(s: string, c: char)
    requires !IsPySpace(c)
    requires forall k :: 0 <= k < |s| ==> IsPySpace(s[k])
    ensures Occurrences(s, c) == 0
  {
    if s != [] {
      NoSpaceOccurrences(s[1..], c);
    }
  }

  /** Python's `t in s` for strings: `t` occurs in `s` as a contiguous substring. */
  predicate HasSubstring(s: string, t: string)
    decreases |s|
  {
    |t| <= |s| && (s[..|t|] == t || HasSubstring(s[1..], t))
  }
}
