/** The string operations the core applies: ASCII lower-casing (standing in for
    `toLowerCase`), the UTF-16 `length`, `includes`, `split`, `parseInt`
    (radix 10), integer `toString`, and the lexicographic order used to sort
    by name. */
module Text {
  import opened Wrappers

  function LowerChar(c: char): char {
    if 'A' <= c <= 'Z' then (c as int + 32) as char else c
  }

  /** Lower-case every ASCII letter; every other character is kept. */
  function Lower(s: string): (r: string)
    ensures |r| == |s|
    ensures forall i :: 0 <= i < |s| ==> r[i] == LowerChar(s[i])
  {
    seq(|s|, i requires 0 <= i < |s| => LowerChar(s[i]))
  }

  /** Lower-casing twice is lower-casing once. */
  lemma LowerIdempotent(s: string)
    ensures Lower(Lower(s)) == Lower(s)
  {
    assert forall i :: 0 <= i < |s| ==> Lower(Lower(s))[i] == Lower(s)[i];
  }

  /** A character outside the Basic Multilingual Plane, which JavaScript
      stores as a surrogate pair. */
  predicate Astral(c: char) {
    c as int > 0xFFFF
  }

  /** `s.length` in JavaScript: the number of UTF-16 code units, two for each
      astral character and one for every other. */
  function Utf16Length(s: string): (n: nat)
    ensures |s| <= n <= 2 * |s|
    ensures n == |s| <==> forall i :: 0 <= i < |s| ==> !Astral(s[i])
    decreases |s|
  {
    if s == [] then 0
    else
      var rest := Utf16Length(s[1..]);
      assert forall i :: 1 <= i < |s| ==> s[i] == s[1..][i - 1];
      (if Astral(s[0]) then 2 else 1) + rest
  }

  /** `hay.includes(needle)`: `needle` occurs somewhere in `hay`. */
  predicate Contains(hay: string, needle: string)
    decreases |hay|
  {
    needle <= hay || (|hay| > 0 && Contains(hay[1..], needle))
  }

  /** `needle` occurs in `hay` starting at position `i`. */
  predicate OccursAt(hay: string, needle: string, i: int) {
    0 <= i && i + |needle| <= |hay| && hay[i..i + |needle|] == needle
  }

  lemma OccursAtStart(hay: string, needle: string)
    requires OccursAt(hay, needle, 0)
    ensures needle <= hay
  {
    assert hay[..|needle|] == hay[0..|needle|];
  }

  lemma OccursAtShift(hay: string, needle: string, i: int)
    requires i > 0 && OccursAt(hay, needle, i)
    ensures OccursAt(hay[1..], needle, i - 1)
  {
    var shifted, original := hay[1..][i - 1..i - 1 + |needle|], hay[i..i + |needle|];
    assert forall k :: 0 <= k < |needle| ==> shifted[k] == original[k];
  }

  /** `Contains` agrees with the positional definition of a substring. */
  lemma {:induction false} ContainsAt(hay: string, needle: string)
    ensures Contains(hay, needle) <==> exists i :: OccursAt(hay, needle, i)
    decreases |hay|
  {
    if needle <= hay {
      assert hay[0..|needle|] == needle;
      assert OccursAt(hay, needle, 0);
    } else if |hay| > 0 {
      ContainsAt(hay[1..], needle);
      if Contains(hay[1..], needle) {
        var i :| OccursAt(hay[1..], needle, i);
        assert hay[i + 1..i + 1 + |needle|] == hay[1..][i..i + |needle|];
        assert OccursAt(hay, needle, i + 1);
      } else {
        forall i | OccursAt(hay, needle, i)
          ensures false
        {
          if i == 0 {
            OccursAtStart(hay, needle);
          } else {
            OccursAtShift(hay, needle, i);
          }
        }
      }
    } else {
      assert !exists i :: OccursAt(hay, needle, i);
    }
  }

  /** Every string contains the empty string. */
  lemma ContainsEmpty(hay: string)
    ensures Contains(hay, "")
  {
  }

  /** Index of the first occurrence of `c` in `s`. */
  function IndexOf(s: string, c: char): (i: nat)
    requires c in s
    ensures i < |s| && s[i] == c && c !in s[..i]
  {
    if s[0] == c then 0
    else
      var j := IndexOf(s[1..], c);
      assert s[..j + 1] == [s[0]] + s[1..][..j];
      j + 1
  }

  /** `s.split(sep)`: the pieces between separators, at least one of them. */
  function Split(s: string, sep: char): (r: seq<string>)
    ensures |r| >= 1
    ensures sep !in s ==> r == [s]
    ensures sep in s ==> |r| >= 2 && r[0] == s[..IndexOf(s, sep)]
    ensures sep in s ==> r[1..] == Split(s[IndexOf(s, sep) + 1..], sep)
    decreases |s|
  {
    if sep !in s then [s]
    else
      var i := IndexOf(s, sep);
      [s[..i]] + Split(s[i + 1..], sep)
  }

  /** The second piece of `prefix + t + rest` split at `sep` is `t` when `prefix`
      holds exactly one separator, at its end, and `t` holds none. */
  lemma {:induction false} SecondPieceOf(prefix: string, t: string, rest: string, sep: char)
    requires |prefix| >= 1 && prefix[|prefix| - 1] == sep && sep !in prefix[..|prefix| - 1]
    requires sep !in t
    requires rest == [] || rest[0] == sep
    ensures Split(prefix + t + rest, sep)[1] == t
  {
    var s := prefix + t + rest;
    assert s[..|prefix| - 1] == prefix[..|prefix| - 1];
    assert s[|prefix| - 1] == sep;
    assert IndexOf(s, sep) == |prefix| - 1;
    var tail := s[|prefix|..];
    assert tail == t + rest;
    if rest == [] {
      assert tail == t;
      assert Split(tail, sep) == [t];
    } else {
      assert tail[|t|] == sep;
      assert tail[..|t|] == t;
      assert IndexOf(tail, sep) == |t|;
    }
  }

  predicate IsDigit(c: char) {
    '0' <= c <= '9'
  }

  predicate AllDigits(s: string) {
    forall i :: 0 <= i < |s| ==> IsDigit(s[i])
  }

  /** The longest prefix of `s` made of decimal digits. */
  function LeadingDigits(s: string): (r: string)
    ensures r <= s && AllDigits(r)
    ensures |r| < |s| ==> !IsDigit(s[|r|])
  {
    if |s| > 0 && IsDigit(s[0]) then [s[0]] + LeadingDigits(s[1..]) else []
  }

  /** The value of a string of decimal digits, most significant first. */
  function DigitsValue(s: string): nat
    requires AllDigits(s)
  {
    if s == [] then 0 else 10 * DigitsValue(s[..|s| - 1]) + (s[|s| - 1] as int - '0' as int)
  }

  /** What follows a leading sign, if any. */
  function Unsigned(s: string): string {
    if |s| > 0 && (s[0] == '-' || s[0] == '+') then s[1..] else s
  }

  /** The value of a digit string under a sign; `None` (NaN) without digits. */
  function SignedValue(negative: bool, digits: string): Option<int>
    requires AllDigits(digits)
  {
    if digits == [] then None
    else if negative then Some(0 - DigitsValue(digits))
    else Some(DigitsValue(digits))
  }

  /** `parseInt(s, 10)`: an optional sign, then the leading decimal digits;
      `None` (NaN) when there are no digits. */
  function ParseInt(s: string): Option<int> {
    SignedValue(|s| > 0 && s[0] == '-', LeadingDigits(Unsigned(s)))
  }

  function DigitChar(d: nat): (c: char)
    requires d < 10
    ensures IsDigit(c) && c as int - '0' as int == d
  {
    ('0' as int + d) as char
  }

  /** The decimal numeral of a natural number, without leading zeros. */
  function NatToString(n: nat): (s: string)
    ensures |s| >= 1 && AllDigits(s)
    decreases n
  {
    if n < 10 then [DigitChar(n)] else NatToString(n / 10) + [DigitChar(n % 10)]
  }

  /** `n.toString()` for an integer `n`. */
  function IntToString(n: int): string {
    if n < 0 then "-" + NatToString(-n) else NatToString(n)
  }

  lemma {:induction false} NatToStringValue(n: nat)
    ensures DigitsValue(NatToString(n)) == n
    decreases n
  {
    if n >= 10 {
      var s := NatToString(n);
      assert s[..|s| - 1] == NatToString(n / 10);
      NatToStringValue(n / 10);
    }
  }

  lemma {:induction false} LeadingDigitsOfDigits(s: string)
    requires AllDigits(s)
    ensures LeadingDigits(s) == s
  {
    if |s| > 0 {
      LeadingDigitsOfDigits(s[1..]);
    }
  }

  /** `parseInt` of an unsigned numeral is its value. */
  lemma ParseIntOfNumeral(s: string)
    requires |s| >= 1 && AllDigits(s)
    ensures ParseInt(s) == Some(DigitsValue(s))
  {
    assert IsDigit(s[0]);
    assert Unsigned(s) == s;
    LeadingDigitsOfDigits(s);
  }

  /** `parseInt` of `-` followed by a numeral is the negated value. */
  lemma ParseIntOfNegatedNumeral(t: string)
    requires |t| >= 2 && t[0] == '-' && AllDigits(t[1..])
    ensures ParseInt(t) == Some(0 - DigitsValue(t[1..]))
  {
    assert Unsigned(t) == t[1..];
    LeadingDigitsOfDigits(t[1..]);
  }

  /** `parseInt` reads back what `toString` wrote. */
  lemma ParseIntToString(n: int)
    ensures ParseInt(IntToString(n)) == Some(n)
  {
    var m: nat := if n < 0 then -n else n;
    var numeral := NatToString(m);
    NatToStringValue(m);
    if n < 0 {
      var t := IntToString(n);
      assert t == "-" + numeral;
      assert t[1..] == numeral;
      ParseIntOfNegatedNumeral(t);
    } else {
      ParseIntOfNumeral(numeral);
    }
  }

  /** Lexicographic order by character code. */
  predicate LexLe(a: string, b: string)
    decreases |a|
  {
    if a == [] then true
    else if b == [] then false
    else if a[0] != b[0] then a[0] < b[0]
    else LexLe(a[1..], b[1..])
  }

  lemma {:induction false} LexLeTotal(a: string, b: string)
    ensures LexLe(a, b) || LexLe(b, a)
    decreases |a|
  {
    if a != [] && b != [] && a[0] == b[0] {
      LexLeTotal(a[1..], b[1..]);
    }
  }

  lemma {:induction false} LexLeTransitive(a: string, b: string, c: string)
    requires LexLe(a, b) && LexLe(b, c)
    ensures LexLe(a, c)
    decreases |a|
  {
    if a != [] && b != [] && c != [] && a[0] == b[0] && b[0] == c[0] {
      LexLeTransitive(a[1..], b[1..], c[1..]);
    }
  }
}
