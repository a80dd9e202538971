/** String helpers with the JavaScript meaning the views rely on:
    `toLowerCase`, `toUpperCase`, `includes`, `replace` of the first
    occurrence of a character, and `Number.prototype.toString` on integers.
    Case mapping is the ASCII one. */
module Text {

  function LowerChar(c: char): char {
    if 'A' <= c <= 'Z' then (c as int + 32) as char else c
  }

  function UpperChar(c: char): char {
    if 'a' <= c <= 'z' then (c as int - 32) as char else c
  }

  /** `s.toLowerCase()` */
  function ToLower(s: string): (r: string)
    ensures |r| == |s|
    ensures forall i :: 0 <= i < |s| ==> r[i] == LowerChar(s[i])
    ensures forall i :: 0 <= i < |r| ==> !('A' <= r[i] <= 'Z')
  {
    seq(|s|, i requires 0 <= i < |s| => LowerChar(s[i]))
  }

  /** `s.toUpperCase()` */
  function ToUpper(s: string): (r: string)
    ensures |r| == |s|
    ensures forall i :: 0 <= i < |s| ==> r[i] == UpperChar(s[i])
    ensures forall i :: 0 <= i < |r| ==> !('a' <= r[i] <= 'z')
  {
    seq(|s|, i requires 0 <= i < |s| => UpperChar(s[i]))
  }

  /** Lower-casing twice is lower-casing once. */
  lemma ToLowerIdempotent(s: string)
    ensures ToLower(ToLower(s)) == ToLower(s)
  {
    assert forall i :: 0 <= i < |s| ==> LowerChar(LowerChar(s[i])) == LowerChar(s[i]);
  }

  /** A string with no upper-case letter is its own lower-case form. */
  lemma ToLowerOfLower(s: string)
    requires forall i :: 0 <= i < |s| ==> !('A' <= s[i] <= 'Z')
    ensures ToLower(s) == s
  {
  }

  /** Reads off `toLowerCase` character by character. */
  lemma ToLowerChars(s: string, expected: string)
    requires |s| == |expected|
    requires forall i :: 0 <= i < |s| ==> LowerChar(s[i]) == expected[i]
    ensures ToLower(s) == expected
  {
  }

  /** Reads off `toUpperCase` character by character. */
  lemma ToUpperChars(s: string, expected: string)
    requires |s| == |expected|
    requires forall i :: 0 <= i < |s| ==> UpperChar(s[i]) == expected[i]
    ensures ToUpper(s) == expected
  {
  }

  /** `s.includes(t)`: t occurs in s as a contiguous block. Every string
      includes the empty string, and none includes a longer one. */
  predicate Contains(s: string, t: string)
    ensures t == [] ==> Contains(s, t)
    ensures Contains(s, t) ==> |t| <= |s|
  {
    t <= s || (|s| > 0 && Contains(s[1..], t))
  }

  /** The reference reading of `includes`: some position of s starts a copy of t. */
  ghost predicate OccursAt(s: string, t: string, i: int)
  {
    0 <= i && i + |t| <= |s| && s[i..i + |t|] == t
  }

  lemma {:induction false} ContainsIff(s: string, t: string)
    ensures Contains(s, t) <==> exists i :: OccursAt(s, t, i)
  {
    if t <= s {
      assert s[0..|t|] == t;
      assert OccursAt(s, t, 0);
    } else if |s| == 0 {
    } else {
      ContainsIff(s[1..], t);
      if exists i :: OccursAt(s, t, i) {
        var i :| OccursAt(s, t, i);
        assert s[1..][i - 1..i - 1 + |t|] == s[i..i + |t|];
        assert OccursAt(s[1..], t, i - 1);
      }
      if exists i :: OccursAt(s[1..], t, i) {
        var i :| OccursAt(s[1..], t, i);
        assert s[i + 1..i + 1 + |t|] == s[1..][i..i + |t|];
        assert OccursAt(s, t, i + 1);
      }
    }
  }

  /** Whatever occurs in a letter-free string has no letters either. */
  lemma OccursLetterFree(s: string, u: string, i: int)
    requires forall k :: 0 <= k < |s| ==> !('a' <= s[k] <= 'z') && !('A' <= s[k] <= 'Z')
    requires OccursAt(s, u, i)
    ensures forall k :: 0 <= k < |u| ==> !('a' <= u[k] <= 'z') && !('A' <= u[k] <= 'Z')
  {
    forall k | 0 <= k < |u|
      ensures !('a' <= u[k] <= 'z') && !('A' <= u[k] <= 'Z')
    {
      assert u[k] == s[i..i + |u|][k] == s[i + k];
    }
  }

  /** A letter-free string includes t exactly when it includes t lower-cased:
      either way t has no letters, so lower-casing leaves it as it is. */
  lemma ContainsLowerInLetterFree(s: string, t: string)
    requires forall i :: 0 <= i < |s| ==> !('a' <= s[i] <= 'z') && !('A' <= s[i] <= 'Z')
    ensures Contains(s, t) <==> Contains(s, ToLower(t))
  {
    ContainsIff(s, t);
    ContainsIff(s, ToLower(t));
    if Contains(s, t) {
      var i :| OccursAt(s, t, i);
      OccursLetterFree(s, t, i);
      ToLowerOfLower(t);
    } else if Contains(s, ToLower(t)) {
      var i :| OccursAt(s, ToLower(t), i);
      OccursLetterFree(s, ToLower(t), i);
      assert forall k :: 0 <= k < |t| ==> !('A' <= t[k] <= 'Z');
      ToLowerOfLower(t);
    }
  }

  /** The first position at or after k that holds c, -1 if there is none. */
  function IndexFrom(s: string, c: char, k: nat): (r: int)
    requires k <= |s|
    ensures r == -1 || k <= r < |s|
    ensures r == -1 ==> forall j :: k <= j < |s| ==> s[j] != c
    ensures r >= 0 ==> s[r] == c && forall j :: k <= j < r ==> s[j] != c
    decreases |s| - k
  {
    if k == |s| then -1 else if s[k] == c then k else IndexFrom(s, c, k + 1)
  }

  /** `s.replace(from, to)` for a one-character pattern: without the pattern
      nothing changes; otherwise exactly the position of its first
      occurrence becomes the replacement. */
  function ReplaceFirst(s: string, from: char, to: char): (r: string)
    ensures |r| == |s|
    ensures forall i :: 0 <= i < |s| ==> r[i] == s[i] || (s[i] == from && r[i] == to)
    ensures from !in s ==> r == s
    ensures forall i :: 0 <= i < |s| && s[i] == from && from !in s[..i] ==> r == s[i := to]
    ensures forall i :: 0 <= i < |s| ==>
              r[i] == if s[i] == from && from !in s[..i] then to else s[i]
  {
    var k := IndexFrom(s, from, 0);
    if k < 0 then s else s[k := to]
  }

  function DigitChar(d: int): char
    requires 0 <= d < 10
  {
    ('0' as int + d) as char
  }

  /** Decimal digits of a natural number, most significant first. */
  function Digits(n: nat): (r: string)
    ensures |r| >= 1
    ensures forall i :: 0 <= i < |r| ==> '0' <= r[i] <= '9'
    ensures r[0] == '0' <==> n == 0
    ensures n == 0 ==> r == "0"
  {
    if n < 10 then [DigitChar(n)] else Digits(n / 10) + [DigitChar(n % 10)]
  }

  /** `n.toString()` for an integer. */
  function IntToString(n: int): (r: string)
    ensures |r| >= 1
    ensures forall i :: 0 < i < |r| ==> '0' <= r[i] <= '9'
    ensures r[0] == '-' <==> n < 0
    ensures forall i :: 0 <= i < |r| ==> r[i] == '-' || '0' <= r[i] <= '9'
    ensures n >= 0 ==> r == "0" || r[0] != '0'
    ensures n < 0 ==> |r| >= 2 && r[1] != '0'
  {
    if n < 0 then "-" + Digits(-n) else Digits(n)
  }

  /** Reads a string of decimal digits back as a number. */
  function DigitsValue(s: string): int
  {
    if s == [] then 0 else 10 * DigitsValue(s[..|s| - 1]) + (s[|s| - 1] as int - '0' as int)
  }

  /** Reading the digits back gives the number they were written from. */
  lemma {:induction false} DigitsRoundTrip(n: nat)
    ensures DigitsValue(Digits(n)) == n
  {
    if n >= 10 {
      DigitsRoundTrip(n / 10);
      var s := Digits(n / 10) + [DigitChar(n % 10)];
      assert s[..|s| - 1] == Digits(n / 10);
    }
  }

  /** A non-empty run of decimal digits with no leading zero, as `toString`
      writes a natural number. */
  predicate IsCanonicalDigits(s: string)
  {
    |s| >= 1 && (forall i :: 0 <= i < |s| ==> '0' <= s[i] <= '9') && (s == "0" || s[0] != '0')
  }

  lemma {:induction false} DigitsValueNonNegative(s: string)
    requires forall i :: 0 <= i < |s| ==> '0' <= s[i] <= '9'
    ensures DigitsValue(s) >= 0
  {
    if s != [] {
      DigitsValueNonNegative(s[..|s| - 1]);
    }
  }

  /** The other direction of the round trip: a digit string without a leading
      zero is exactly what `toString` writes for the number it reads as. */
  lemma {:induction false} CanonicalDigitsRoundTrip(s: string)
    requires IsCanonicalDigits(s)
    ensures DigitsValue(s) >= 0
    ensures Digits(DigitsValue(s)) == s
  {
    DigitsValueNonNegative(s);
    if |s| >= 2 {
      var init := s[..|s| - 1];
      var d := s[|s| - 1] as int - '0' as int;
      assert init[0] == s[0];
      CanonicalDigitsRoundTrip(init);
      var vi := DigitsValue(init);
      assert vi >= 1;
      var v := DigitsValue(s);
      assert v == 10 * vi + d;
      assert v / 10 == vi && v % 10 == d;
      assert s == init + [s[|s| - 1]];
    }
  }

  /** `toString` loses nothing: the sign and the digits give the number back. */
  lemma IntToStringRoundTrip(n: int)
    ensures n >= 0 ==> DigitsValue(IntToString(n)) == n
    ensures n < 0 ==> DigitsValue(IntToString(n)[1..]) == -n
  {
    if n < 0 {
      DigitsRoundTrip(-n);
      assert IntToString(n)[1..] == Digits(-n);
    } else {
      DigitsRoundTrip(n);
    }
  }
}
