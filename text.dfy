/** The string primitives the tables and forms rely on: `toLowerCase`
    (ASCII letters only), `includes`, `Number()` on decimal numerals and
    the default ordering of `Array.prototype.sort` on strings. */
module Text {
  import opened Types

  function LowerChar(c: char): char {
    if 'A' <= c <= 'Z' then (c as int + 32) as char else c
  }

  /** `toLowerCase`, restricted to the ASCII letters A-Z. */
  function Lower(s: string): string {
    seq(|s|, i requires 0 <= i < |s| => LowerChar(s[i]))
  }

  predicate IsLower(s: string) {
    forall i :: 0 <= i < |s| ==> !('A' <= s[i] <= 'Z')
  }

  /** Lowering leaves no upper-case letter, and lowering twice is lowering once. */
  lemma LowerNormalises(s: string)
    ensures IsLower(Lower(s))
    ensures Lower(Lower(s)) == Lower(s)
    ensures IsLower(s) ==> Lower(s) == s
  {
  }

  /** `sub` occurs in `s` starting at position `i`. */
  predicate OccursAt(s: string, sub: string, i: nat) {
    i + |sub| <= |s| && s[i..i + |sub|] == sub
  }

  /** `String.prototype.includes`. */
  function Includes(s: string, sub: string): (b: bool)
    ensures b <==> exists i: nat :: OccursAt(s, sub, i)
    decreases |s|
  {
    if |sub| <= |s| && s[..|sub|] == sub then
      assert OccursAt(s, sub, 0);
      true
    else if s == [] then
      false
    else
      var b := Includes(s[1..], sub);
      assert forall i: nat :: OccursAt(s[1..], sub, i) <==> OccursAt(s, sub, i + 1);
      assert forall i: nat :: OccursAt(s, sub, i) && i > 0 ==> OccursAt(s[1..], sub, i - 1);
      b
  }

  /** The empty search term occurs in every string. */
  lemma IncludesEmpty(s: string)
    ensures Includes(s, "")
  {
    assert OccursAt(s, "", 0);
  }

  /** The case-insensitive search of the tables: lower-case both sides, then `includes`. */
  function MatchesIgnoringCase(s: string, term: string): bool {
    Includes(Lower(s), Lower(term))
  }

  /** The search box of both tables: the term occurs, ignoring case, in the name or the description. */
  predicate MatchesSearch(name: string, description: string, term: string) {
    MatchesIgnoringCase(name, term) || MatchesIgnoringCase(description, term)
  }

  /** An empty search box matches every record, and the case of the term does not matter. */
  lemma MatchesSearchProperties(name: string, description: string, term: string)
    ensures MatchesSearch(name, description, "")
    ensures MatchesSearch(name, description, term) == MatchesSearch(name, description, Lower(term))
  {
    assert Lower("") == "";
    IncludesEmpty(Lower(name));
    LowerNormalises(term);
  }

  lemma {:induction false} MatchesIgnoringCaseExample()
    ensures MatchesIgnoringCase("Financial Fraud", "fraud")
    ensures MatchesIgnoringCase("Financial Fraud", "FRAUD")
    ensures !MatchesIgnoringCase("Data Encryption", "fraud")
  {
    assert Lower("Financial Fraud") == "financial fraud";
    assert Lower("FRAUD") == "fraud";
    assert Lower("fraud") == "fraud";
    assert OccursAt("financial fraud", "fraud", 10);
    assert Lower("Data Encryption") == "data encryption";
    forall i: nat ensures !OccursAt("data encryption", "fraud", i) {
      if i + 5 <= 15 {
        assert "data encryption"[i..i + 5][0] == "data encryption"[i];
        assert "data encryption"[i] != 'f';
      }
    }
  }

  predicate IsDigit(c: char) {
    '0' <= c <= '9'
  }

  predicate AllDigits(s: string) {
    forall i :: 0 <= i < |s| ==> IsDigit(s[i])
  }

  /** The value of a string of decimal digits, read from the last (least significant) digit. */
  function DigitsValue(s: string): nat
    requires AllDigits(s)
  {
    if s == [] then 0
    else DigitsValue(s[..|s| - 1]) * 10 + (s[|s| - 1] as int - '0' as int)
  }

  /** `Number(value)` for the values a form control produces: a plain decimal numeral,
      or the empty string, which JavaScript reads as 0. Anything else (signs, fractions,
      exponents, whitespace, NaN) is outside the model and yields None. */
  function ToNumber(s: string): Option<int> {
    if AllDigits(s) then Some(DigitsValue(s)) else None
  }

  function DigitChar(d: nat): (c: char)
    requires d < 10
    ensures IsDigit(c) && c as int - '0' as int == d
  {
    ('0' as int + d) as char
  }

  /** The decimal numeral of a natural number, as the `<option value={n}>` attribute renders it. */
  function NatToDecimal(n: nat): (s: string)
    ensures AllDigits(s) && s != []
  {
    if n < 10 then [DigitChar(n)] else NatToDecimal(n / 10) + [DigitChar(n % 10)]
  }

  /** Reading back a rendered number yields that number. */
  lemma {:induction false} NumberRoundTrip(n: nat)
    ensures ToNumber(NatToDecimal(n)) == Some(n)
  {
    var s := NatToDecimal(n);
    if n < 10 {
      assert s[..0] == [];
      assert DigitsValue(s) == DigitsValue(s[..0]) * 10 + (s[0] as int - '0' as int);
    } else {
      NumberRoundTrip(n / 10);
      assert s[..|s| - 1] == NatToDecimal(n / 10);
    }
  }

  /** Code-unit-wise lexicographic order: the comparison `sort()` applies to strings. */
  predicate StrLess(a: string, b: string)
    decreases |a|
  {
    if a == [] then b != []
    else if b == [] then false
    else if a[0] != b[0] then a[0] < b[0]
    else StrLess(a[1..], b[1..])
  }

  lemma {:induction false} StrLessIrreflexive(a: string)
    ensures !StrLess(a, a)
  {
    if a != [] {
      StrLessIrreflexive(a[1..]);
    }
  }

  lemma {:induction false} StrLessTransitive(a: string, b: string, c: string)
    requires StrLess(a, b) && StrLess(b, c)
    ensures StrLess(a, c)
    decreases |a|
  {
    if a != [] && b != [] && c != [] && a[0] == b[0] && b[0] == c[0] {
      StrLessTransitive(a[1..], b[1..], c[1..]);
    }
  }

  lemma {:induction false} StrLessTotal(a: string, b: string)
    ensures a == b || StrLess(a, b) || StrLess(b, a)
    decreases |a|
  {
    if a != [] && b != [] && a[0] == b[0] {
      StrLessTotal(a[1..], b[1..]);
      if a[1..] == b[1..] {
        assert a == [a[0]] + a[1..] && b == [b[0]] + b[1..];
      }
    }
  }

  predicate NoDuplicates(s: seq<string>) {
    forall i, j :: 0 <= i < j < |s| ==> s[i] != s[j]
  }

  /** Strictly increasing: sorted, and hence each element once. */
  predicate StrictlySorted(s: seq<string>) {
    forall i, j :: 0 <= i < j < |s| ==> StrLess(s[i], s[j])
  }

  lemma StrictlySortedNoDuplicates(s: seq<string>)
    requires StrictlySorted(s)
    ensures NoDuplicates(s)
  {
    forall i, j | 0 <= i < j < |s| ensures s[i] != s[j] {
      StrLessIrreflexive(s[i]);
    }
  }

  /** Insert `x`, absent from the strictly sorted `s`, at its place. */
  function InsertSorted(x: string, s: seq<string>): (r: seq<string>)
    requires StrictlySorted(s) && x !in s
    ensures StrictlySorted(r)
    ensures forall y :: y in r <==> y == x || y in s
    ensures |r| == |s| + 1
  {
    if s == [] then [x]
    else if StrLess(x, s[0]) then
      assert forall j :: 0 <= j < |s| ==> StrLess(x, s[j]) by {
        forall j | 0 <= j < |s| ensures StrLess(x, s[j]) {
          if j > 0 { StrLessTransitive(x, s[0], s[j]); }
        }
      }
      [x] + s
    else
      StrLessTotal(x, s[0]);
      assert StrictlySorted(s[1..]);
      var rest := InsertSorted(x, s[1..]);
      assert forall y :: y in rest ==> StrLess(s[0], y) by {
        forall y | y in rest ensures StrLess(s[0], y) {
          if y != x {
            var j :| 0 <= j < |s[1..]| && s[1..][j] == y;
            assert s[j + 1] == y;
          }
        }
      }
      [s[0]] + rest
  }

  /** `sort()` applied to a list without duplicates (the contents of a `Set`). */
  function SortDistinct(s: seq<string>): (r: seq<string>)
    requires NoDuplicates(s)
    ensures StrictlySorted(r)
    ensures forall y :: y in r <==> y in s
    ensures |r| == |s|
  {
    if s == [] then []
    else
      assert s[0] !in s[1..];
      InsertSorted(s[0], SortDistinct(s[1..]))
  }
}
