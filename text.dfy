/** Character strings: ASCII lower-casing, substring containment and decimal rendering. */
module Text {

  /** `c.toLowerCase()` for one character (ASCII letters only). */
  function LowerChar(c: char): (l: char)
    ensures 'A' <= c <= 'Z' ==> l as int == c as int + 32
    ensures !('A' <= c <= 'Z') ==> l == c
  {
    if 'A' <= c <= 'Z' then (c as int + 32) as char else c
  }

  /** `s.toLowerCase()`, character by character. */
  function Lower(s: string): (l: string)
    ensures |l| == |s|
    ensures forall i :: 0 <= i < |s| ==> l[i] == LowerChar(s[i])
  {
    seq(|s|, i requires 0 <= i < |s| => LowerChar(s[i]))
  }

  /** `sub` occurs in `s` starting at index `i`. */
  predicate OccursAt(s: string, sub: string, i: int) {
    0 <= i && i + |sub| <= |s| && s[i..i + |sub|] == sub
  }

  /** `s.includes(sub)`. */
  predicate Contains(s: string, sub: string) {
    exists i | 0 <= i <= |s| :: OccursAt(s, sub, i)
  }

  lemma LowerCharIdempotent(c: char)
    ensures LowerChar(LowerChar(c)) == LowerChar(c)
  {
  }

  /** Lower-casing twice is lower-casing once. */
  lemma LowerIdempotent(s: string)
    ensures Lower(Lower(s)) == Lower(s)
  {
    forall i | 0 <= i < |s| ensures Lower(Lower(s))[i] == Lower(s)[i] {
      LowerCharIdempotent(s[i]);
    }
  }

  /** Lower-casing commutes with taking a slice. */
  lemma LowerSlice(s: string, a: int, b: int)
    requires 0 <= a <= b <= |s|
    ensures Lower(s)[a..b] == Lower(s[a..b])
  {
  }

  /** Lower-casing distributes over concatenation. */
  lemma LowerAppend(s: string, t: string)
    ensures Lower(s + t) == Lower(s) + Lower(t)
  {
  }

  /** Containment is transitive: a string containing `mid` contains everything `mid` contains. */
  lemma ContainsTransitive(s: string, mid: string, sub: string)
    requires Contains(s, mid) && Contains(mid, sub)
    ensures Contains(s, sub)
  {
    var i :| 0 <= i <= |s| && OccursAt(s, mid, i);
    var j :| 0 <= j <= |mid| && OccursAt(mid, sub, j);
    assert mid == s[i..i + |mid|];
    forall k | 0 <= k < |sub| ensures s[i + j + k] == sub[k] {
      assert sub[k] == mid[j + k];
    }
    assert OccursAt(s, sub, i + j);
  }

  /** A string contains each of its slices. */
  lemma ContainsSlice(s: string, a: int, b: int)
    requires 0 <= a <= b <= |s|
    ensures Contains(s, s[a..b])
  {
    assert OccursAt(s, s[a..b], a);
  }

  /** A lower-cased string contains the lower-cased form of each of its slices. */
  lemma LowerContainsLowerSlice(s: string, a: int, b: int)
    requires 0 <= a <= b <= |s|
    ensures Contains(Lower(s), Lower(s[a..b]))
  {
    LowerSlice(s, a, b);
    ContainsSlice(Lower(s), a, b);
  }

  /** The decimal digit for `d`. */
  function DigitChar(d: int): (c: char)
    requires 0 <= d < 10
    ensures '0' <= c <= '9' && c as int - '0' as int == d
  {
    ('0' as int + d) as char
  }

  /** `String(n)` for a non-negative integer: its decimal digits, without leading zeros. */
  function NatToString(n: nat): (s: string)
    ensures |s| >= 1 && s[|s| - 1] == DigitChar(n % 10)
    ensures n < 10 <==> |s| == 1
    ensures forall i :: 0 <= i < |s| ==> '0' <= s[i] <= '9'
  {
    if n < 10 then [DigitChar(n)] else NatToString(n / 10) + [DigitChar(n % 10)]
  }

  /** `String(n)` for an integer: a minus sign before the digits of a negative number. */
  function IntToString(n: int): (s: string)
    ensures |s| >= 1
    ensures (s[0] == '-') <==> n < 0
  {
    if n < 0 then "-" + NatToString(-n) else NatToString(n)
  }

  /** Distinct numbers have distinct decimal renderings. */
  lemma {:induction false} NatToStringInjective(m: nat, n: nat)
    requires NatToString(m) == NatToString(n)
    ensures m == n
  {
    var sm, sn := NatToString(m), NatToString(n);
    if m >= 10 && n >= 10 {
      assert sm[..|sm| - 1] == NatToString(m / 10);
      assert sn[..|sn| - 1] == NatToString(n / 10);
      NatToStringInjective(m / 10, n / 10);
    }
  }

  /** Distinct integers have distinct decimal renderings. */
  lemma IntToStringInjective(m: int, n: int)
    requires IntToString(m) == IntToString(n)
    ensures m == n
  {
    SameSign(m, n);
    if m < 0 {
      SameMagnitudeDigits(m, n);
      NatToStringInjective(-m, -n);
    } else {
      NatToStringInjective(m, n);
    }
  }

  /** Two negative numbers with one rendering have the same digits after the sign. */
  lemma SameMagnitudeDigits(m: int, n: int)
    requires m < 0 && n < 0 && IntToString(m) == IntToString(n)
    ensures NatToString(-m) == NatToString(-n)
  {
    NegativeDigits(m);
    NegativeDigits(n);
  }

  /** After the minus sign of a negative number come the digits of its magnitude. */
  lemma NegativeDigits(n: int)
    requires n < 0
    ensures IntToString(n)[1..] == NatToString(-n)
  {
    var digits := NatToString(-n);
    assert IntToString(n) == "-" + digits;
    assert ("-" + digits)[1..] == digits;
  }

  /** Equal renderings start alike, so both numbers are negative or neither is. */
  lemma SameSign(m: int, n: int)
    requires IntToString(m) == IntToString(n)
    ensures m < 0 <==> n < 0
  {
    var s := IntToString(m);
    assert s[0] == IntToString(n)[0];
  }

}
