/** Shared vocabulary of the model: optional values, the C# `int` range and its
    unchecked arithmetic, money and time, and .NET's notion of a blank string. */
module Basics {

  /** A value that may be absent: a C# `null` reference or nullable field. */
  datatype Option<+T> = None | Some(value: T)

  const MinInt32: int := -0x8000_0000
  const MaxInt32: int := 0x7FFF_FFFF
  const Modulus32: int := 0x1_0000_0000

  /** Whether `x` fits a C# `int`. */
  predicate IsInt32(x: int)
  {
    MinInt32 <= x <= MaxInt32
  }

  /** The values of a C# `int`. */
  type Int32 = x: int | IsInt32(x)

  /** Money in cents: the columns holding prices and totals are decimal(10,2). */
  type Money = int

  /** An instant, in seconds. */
  type Time = int

  const SecondsPerHour: int := 3600

  /** The result of unchecked C# `int` arithmetic whose exact value is `x`:
      the one 32-bit value congruent to `x` modulo 2^32. */
  function Wrap32(x: int): (r: Int32)
    ensures (r - x) % Modulus32 == 0
    ensures MinInt32 <= x <= MaxInt32 ==> r == x
  {
    (x + 0x8000_0000) % 0x1_0000_0000 - 0x8000_0000
  }

  /** Wrapping after every step is the same as wrapping once at the end. */
  lemma WrapThenSubtract(x: int, c: int)
    ensures Wrap32(Wrap32(x) - c) == Wrap32(x - c)
  {
    var k := (x + 0x8000_0000) / 0x1_0000_0000;
    assert Wrap32(x) == x - k * 0x1_0000_0000;
    assert (Wrap32(x) - c + 0x8000_0000) % 0x1_0000_0000
        == (x - c + 0x8000_0000 - k * 0x1_0000_0000) % 0x1_0000_0000;
  }

  /** .NET `char.IsWhiteSpace`: the space, line and paragraph separators of
      Unicode, the controls U+0009 to U+000D, and U+0085. */
  predicate IsWhiteSpace(c: char)
  {
    || c == ' ' || ('\t' <= c <= '\r') || c == '\U{85}' || c == '\U{A0}'
    || c == '\U{1680}' || ('\U{2000}' <= c <= '\U{200A}')
    || c == '\U{2028}' || c == '\U{2029}' || c == '\U{202F}'
    || c == '\U{205F}' || c == '\U{3000}'
  }

  /** .NET `string.IsNullOrWhiteSpace`. */
  predicate IsNullOrWhiteSpace(s: Option<string>)
  {
    match s
    case None => true
    case Some(text) => forall i :: 0 <= i < |text| ==> IsWhiteSpace(text[i])
  }

  /** A string passes `[Required]` (with empty strings disallowed, the default)
      exactly when it is not null, empty or blank. */
  predicate RequiredString(s: Option<string>)
  {
    !IsNullOrWhiteSpace(s)
  }

  /** .NET `string.Length`: the number of UTF-16 code units, two for every
      character outside the Basic Multilingual Plane. */
  function Utf16Length(s: string): nat
  {
    if s == [] then 0 else (if s[0] as int >= 0x1_0000 then 2 else 1) + Utf16Length(s[1..])
  }

  /** A string has at least as many code units as characters and at most
      twice as many, and exactly as many when every character lies in the
      Basic Multilingual Plane. */
  lemma {:induction false} Utf16LengthBounds(s: string)
    ensures |s| <= Utf16Length(s) <= 2 * |s|
    ensures (forall i :: 0 <= i < |s| ==> s[i] as int < 0x1_0000) ==> Utf16Length(s) == |s|
  {
    if s != [] {
      Utf16LengthBounds(s[1..]);
      assert forall i :: 0 <= i < |s[1..]| ==> s[1..][i] == s[i + 1];
    }
  }

  /** A string made only of characters outside the Basic Multilingual Plane
      has two code units per character. */
  lemma {:induction false} Utf16LengthAstral(s: string)
    requires forall i :: 0 <= i < |s| ==> s[i] as int >= 0x1_0000
    ensures Utf16Length(s) == 2 * |s|
  {
    if s != [] {
      assert forall i :: 0 <= i < |s[1..]| ==> s[1..][i] == s[i + 1];
      Utf16LengthAstral(s[1..]);
    }
  }

  /** `[MaxLength(n)]` on a string: null passes, otherwise at most n UTF-16
      code units, as `string.Length` counts them. */
  predicate WithinMaxLength(s: Option<string>, n: nat)
  {
    s.None? || Utf16Length(s.value) <= n
  }
}
