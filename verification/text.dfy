/** String helpers shared by validation and search: the length bound of the
    validators, ASCII case folding, substring search, and the decimal form of
    numbers used when a query parameter is coerced to a number. */
module Text {
  import opened Outcomes

  /** The `@MaxLength(255)` bound used by every string field. */
  const MaxLength := 255

  /** True when `s` is a string that `@MaxLength(255)` accepts. */
  predicate WithinMaxLength(s: string) {
    |s| <= MaxLength
  }

  /** `@IsNotEmpty()`: the key is present and is not the empty string. For
      a string this is also JavaScript truthiness. */
  predicate IsNotEmpty(v: Option<string>) {
    v.Some? && v.value != ""
  }

  /** `@MaxLength(255)`: the key is present and holds a string of at most
      255 characters. An absent key fails this rule. */
  predicate HasMaxLength(v: Option<string>) {
    v.Some? && WithinMaxLength(v.value)
  }

  /** ASCII lower-casing of one character; every other character is kept. */
  function LowerChar(c: char): char {
    if 'A' <= c <= 'Z' then (c as int + 32) as char else c
  }

  function Lower(s: string): (r: string)
    ensures |r| == |s|
    ensures forall i :: 0 <= i < |s| ==> r[i] == LowerChar(s[i])
  {
    seq(|s|, i requires 0 <= i < |s| => LowerChar(s[i]))
  }

  predicate IsPrefix(p: string, s: string) {
    |p| <= |s| && s[..|p|] == p
  }

  /** `needle` occurs as a contiguous piece of `hay`. */
  predicate IsInfix(needle: string, hay: string)
    decreases |hay|
  {
    IsPrefix(needle, hay) || (|hay| > 0 && IsInfix(needle, hay[1..]))
  }

  /** `needle` occurs in `hay` starting at offset `k`. */
  predicate OccursAt(needle: string, hay: string, k: int) {
    0 <= k <= |hay| - |needle| && hay[k..k + |needle|] == needle
  }

  /** The recursive infix search agrees with its declarative reading: an
      occurrence at some offset. */
  lemma {:induction false} InfixAt(needle: string, hay: string)
    ensures IsInfix(needle, hay) <==> exists k :: OccursAt(needle, hay, k)
    decreases |hay|
  {
    if IsPrefix(needle, hay) {
      assert OccursAt(needle, hay, 0);
    } else {
      if |hay| > 0 {
        InfixAt(needle, hay[1..]);
        if IsInfix(needle, hay[1..]) {
          var k :| OccursAt(needle, hay[1..], k);
          assert OccursAt(needle, hay, k + 1);
        }
      }
      if exists k :: OccursAt(needle, hay, k) {
        var k :| OccursAt(needle, hay, k);
        if k > 0 {
          assert OccursAt(needle, hay[1..], k - 1);
        }
      }
    }
  }

  /** A `contains` filter with `mode: 'insensitive'`: `needle` occurs in
      `hay` once both are lower-cased. */
  predicate ContainsInsensitive(hay: string, needle: string) {
    IsInfix(Lower(needle), Lower(hay))
  }

  predicate IsDigit(c: char) {
    '0' <= c <= '9'
  }

  predicate AllDigits(s: string) {
    forall i :: 0 <= i < |s| ==> IsDigit(s[i])
  }

  function DigitChar(d: nat): (c: char)
    requires d < 10
    ensures IsDigit(c)
  {
    ('0' as int + d) as char
  }

  function DigitValue(c: char): (d: nat)
    requires IsDigit(c)
    ensures d < 10 && DigitChar(d) == c
  {
    c as int - '0' as int
  }

  /** `Number(s)` for a string of decimal digits; `None` stands for every
      string the model does not read as a whole number (JavaScript's NaN and
      the number forms this model leaves out). */
  function ParseDecimal(s: string): (r: Option<nat>)
    ensures r.Some? <==> |s| > 0 && AllDigits(s)
    decreases |s|
  {
    if |s| == 0 || !IsDigit(s[|s| - 1]) then None
    else if |s| == 1 then Some(DigitValue(s[0]))
    else
      match ParseDecimal(s[..|s| - 1])
      case None => None
      case Some(v) => Some(10 * v + DigitValue(s[|s| - 1]))
  }

  /** A leading zero does not change the value read. With
      `ParseShowDecimal` this fixes the value of every digit string. */
  lemma {:induction false} LeadingZero(s: string)
    requires |s| > 0 && AllDigits(s)
    ensures ParseDecimal("0" + s) == ParseDecimal(s)
    decreases |s|
  {
    if |s| > 1 {
      LeadingZero(s[..|s| - 1]);
      assert ("0" + s)[..|"0" + s| - 1] == "0" + s[..|s| - 1];
    }
  }

  /** The decimal rendering of a natural number, as a query string carries
      it. */
  function ShowDecimal(n: nat): (s: string)
    ensures |s| > 0 && AllDigits(s)
    decreases n
  {
    if n < 10 then [DigitChar(n)] else ShowDecimal(n / 10) + [DigitChar(n % 10)]
  }

  /** Parsing the rendering of a number gives the number back. */
  lemma {:induction false} ParseShowDecimal(n: nat)
    ensures ParseDecimal(ShowDecimal(n)) == Some(n)
    decreases n
  {
    if n >= 10 {
      var s := ShowDecimal(n);
      ParseShowDecimal(n / 10);
      assert s[..|s| - 1] == ShowDecimal(n / 10);
      assert DigitValue(s[|s| - 1]) == n % 10;
    }
  }
}
