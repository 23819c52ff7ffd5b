/**
 * Bean Validation constraints as Hibernate Validator evaluates them. Every
 * constraint except @NotNull and @NotBlank accepts a null value.
 */
module Constraints {
  import opened Wrappers
  import opened JavaLang

  /** A LocalDate, as a count of days. */
  type Date = int

  /** @NotNull */
  predicate NotNull<T>(x: Option<T>) {
    x.Some?
  }

  /** @NotBlank: not null, and something is left after String.trim(). */
  predicate NotBlank(s: Option<string>) {
    s.Some? && TrimNonEmpty(s.value)
  }

  /** @Size(min, max) on a String: UTF-16 length within the bounds. */
  predicate SizeBetween(s: Option<string>, min: nat, max: nat) {
    s.None? || min <= Utf16Length(s.value) <= max
  }

  /** @Size(min) on a String; the default max is Integer.MAX_VALUE. */
  predicate SizeAtLeast(s: Option<string>, min: nat) {
    SizeBetween(s, min, INT_MAX)
  }

  /** @Size(min) on a List. */
  predicate ListSizeAtLeast<T>(l: Option<seq<T>>, min: nat) {
    l.None? || min <= |l.value| <= INT_MAX
  }

  /** @PastOrPresent on a LocalDate, against the validator's clock. */
  predicate PastOrPresent(d: Option<Date>, today: Date) {
    d.None? || d.value <= today
  }

  /** @Email: null and the empty string pass; otherwise the address pattern
      (an input here) decides. */
  predicate Email(s: Option<string>, wellFormed: string -> bool) {
    s.None? || |s.value| == 0 || wellFormed(s.value)
  }

  /** @Size counts UTF-16 units: four letters and an emoji are five code points
      but six units, so they pass @Size(min = 6); three copies of any two code
      points pass; five code points of the Basic Multilingual Plane never do. */
  lemma PasswordSizeCountsUtf16()
    ensures SizeAtLeast(Some("abcd\U{1F600}"), 6)
    ensures forall s: string :: |s| == 2 ==> SizeAtLeast(Some(s + s + s), 6)
    ensures forall s: string :: |s| == 5 && (forall i :: 0 <= i < 5 ==> s[i] as int < 0x10000) ==> !SizeAtLeast(Some(s), 6)
  {
    assert Utf16Length("\U{1F600}") == 2;
    Utf16LengthAppend("abcd", "\U{1F600}");
    assert "abcd" + "\U{1F600}" == "abcd\U{1F600}";
  }
}
