/**
 * The parts of java.lang the services depend on: String.isBlank, the UTF-16
 * length that @Size counts, String.startsWith/substring, equalsIgnoreCase, and
 * 32/64-bit two's complement arithmetic.
 */
module JavaLang {
  import opened Wrappers

  /** Character.isWhitespace: space, line and paragraph separators other than the
      no-break spaces U+00A0, U+2007, U+202F, plus the ASCII controls 9-13 and 28-31. */
  predicate IsWhitespace(c: char) {
    var n := c as int;
    (0x09 <= n <= 0x0D) || (0x1C <= n <= 0x20) || n == 0x1680
    || (0x2000 <= n <= 0x2006) || (0x2008 <= n <= 0x200A)
    || n == 0x2028 || n == 0x2029 || n == 0x205F || n == 0x3000
  }

  /** String.isBlank: the string is empty or holds whitespace code points only. */
  predicate IsBlank(s: string) {
    forall i :: 0 <= i < |s| ==> IsWhitespace(s[i])
  }

  /** String.trim().length() > 0: some character lies above U+0020. */
  predicate TrimNonEmpty(s: string) {
    exists i :: 0 <= i < |s| && s[i] > ' '
  }

  /** A string that Bean Validation's @NotBlank accepts may still be blank for
      String.isBlank (an ideographic space), and the other way round a string made of
      a NUL character is empty after trim yet not blank. */
  lemma BlankAndTrimDisagree()
    ensures IsBlank("\U{3000}") && TrimNonEmpty("\U{3000}")
    ensures !IsBlank("\0") && !TrimNonEmpty("\0")
  {
    assert "\U{3000}"[0] > ' ';
    assert "\0"[0] == '\0' && !IsWhitespace("\0"[0]);
  }

  /** On ASCII text the two notions agree in one direction: a blank string
      has nothing left after trim. */
  lemma {:induction false} AsciiBlankIsTrimEmpty(s: string)
    requires forall i :: 0 <= i < |s| ==> s[i] as int < 0x80
    requires IsBlank(s)
    ensures !TrimNonEmpty(s)
  {
    forall i | 0 <= i < |s| ensures s[i] <= ' ' {
      assert IsWhitespace(s[i]);
    }
  }

  /** The length String.length() reports: code points above U+FFFF take two UTF-16 units. */
  function Utf16Length(s: string): (n: nat)
    ensures |s| <= n <= 2 * |s|
    ensures (forall i :: 0 <= i < |s| ==> s[i] as int < 0x10000) ==> n == |s|
  {
    if s == [] then 0
    else (if s[0] as int >= 0x10000 then 2 else 1) + Utf16Length(s[1..])
  }

  lemma {:induction false} Utf16LengthAppend(a: string, b: string)
    ensures Utf16Length(a + b) == Utf16Length(a) + Utf16Length(b)
  {
    if a != [] {
      assert (a + b)[0] == a[0] && (a + b)[1..] == a[1..] + b;
      Utf16LengthAppend(a[1..], b);
    } else {
      assert a + b == b;
    }
  }

  predicate StartsWith(s: string, prefix: string) {
    |prefix| <= |s| && s[..|prefix|] == prefix
  }

  /** Character.toUpperCase restricted to the characters whose upper case is ASCII. */
  function ToUpper(c: char): char {
    if 'a' <= c <= 'z' then (c as int - 32) as char
    else if c == '\U{0131}' then 'I'   // dotless i
    else if c == '\U{017F}' then 'S'   // long s
    else c
  }

  /** Character.toLowerCase restricted to the characters whose lower case is ASCII. */
  function ToLower(c: char): char {
    if 'A' <= c <= 'Z' then (c as int + 32) as char
    else if c == '\U{0130}' then 'i'   // capital I with dot above
    else if c == '\U{212A}' then 'k'   // Kelvin sign
    else c
  }

  /** The per-character test of String.equalsIgnoreCase (regionMatches with ignoreCase). */
  predicate CharEqualsIgnoreCase(a: char, b: char) {
    a == b || ToUpper(a) == ToUpper(b) || ToLower(ToUpper(a)) == ToLower(ToUpper(b))
  }

  /** a.equalsIgnoreCase(b) for a non-null receiver; a null argument gives false. */
  predicate EqualsIgnoreCase(a: string, b: Option<string>) {
    b.Some? && |a| == |b.value|
    && forall i :: 0 <= i < |a| ==> CharEqualsIgnoreCase(a[i], b.value[i])
  }

  /** Exactly which strings equal "ADMIN" ignoring case: each letter in either
      case, and the I also as dotless i or as capital I with dot above. */
  lemma AdminIgnoringCase(s: string)
    ensures EqualsIgnoreCase("ADMIN", Some(s)) <==>
      |s| == 5 && (s[0] == 'A' || s[0] == 'a') && (s[1] == 'D' || s[1] == 'd')
      && (s[2] == 'M' || s[2] == 'm')
      && (s[3] == 'I' || s[3] == 'i' || s[3] == '\U{0131}' || s[3] == '\U{0130}')
      && (s[4] == 'N' || s[4] == 'n')
  {
    if |s| == 5 && EqualsIgnoreCase("ADMIN", Some(s)) {
      assert CharEqualsIgnoreCase('A', s[0]);
      assert CharEqualsIgnoreCase('D', s[1]);
      assert CharEqualsIgnoreCase('M', s[2]);
      assert CharEqualsIgnoreCase('I', s[3]);
      assert CharEqualsIgnoreCase('N', s[4]);
    }
  }

  const INT_MIN: int := -0x8000_0000
  const INT_MAX: int := 0x7FFF_FFFF
  const LONG_MIN: int := -0x8000_0000_0000_0000
  const LONG_MAX: int := 0x7FFF_FFFF_FFFF_FFFF

  /** Java int arithmetic keeps the low 32 bits, read as two's complement. */
  function ToInt(x: int): (r: int)
    ensures INT_MIN <= r <= INT_MAX
    ensures INT_MIN <= x <= INT_MAX ==> r == x
    ensures (r - x) % 0x1_0000_0000 == 0
  {
    (x - INT_MIN) % 0x1_0000_0000 + INT_MIN
  }

  /** Java long arithmetic keeps the low 64 bits, read as two's complement. */
  function ToLong(x: int): (r: int)
    ensures LONG_MIN <= r <= LONG_MAX
    ensures LONG_MIN <= x <= LONG_MAX ==> r == x
    ensures (r - x) % 0x1_0000_0000_0000_0000 == 0
  {
    (x - LONG_MIN) % 0x1_0000_0000_0000_0000 + LONG_MIN
  }

  function IntMul(a: int, b: int): int { ToInt(a * b) }

  function LongAdd(a: int, b: int): int { ToLong(a + b) }

  /** 1000 * 60 * 60 * 24 evaluated in int arithmetic, as the token code writes it. */
  const ONE_DAY_MILLIS: int := IntMul(IntMul(IntMul(1000, 60), 60), 24)

  /** The product fits in an int, so the widening to long loses nothing. */
  lemma OneDayFitsInInt()
    ensures ONE_DAY_MILLIS == 86_400_000
  {
  }

  /** Java's / on int and long truncates toward zero. */
  function JavaDiv(a: int, b: int): (q: int)
    requires b > 0
    ensures a >= 0 ==> q == a / b
    ensures a < 0 ==> q == -((-a) / b)
  {
    if a >= 0 then a / b else -((-a) / b)
  }
}
