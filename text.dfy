/** Text helpers shared by the model: the decimal form that Rust's `to_string`
    gives an unsigned integer, the byte-wise lexicographic order of `String`'s
    `Ord`, and lower-case hexadecimal. */
module Text {

  predicate IsDigit(c: char) {
    '0' <= c <= '9'
  }

  predicate AllDigits(s: string) {
    forall i :: 0 <= i < |s| ==> IsDigit(s[i])
  }

  predicate IsHexDigit(c: char) {
    '0' <= c <= '9' || 'a' <= c <= 'f' || 'A' <= c <= 'F'
  }

  /** An Ethereum-style address as text: "0x" followed by 40 hex digits. */
  predicate IsHexAddress(s: string) {
    |s| == 42 && s[0] == '0' && s[1] == 'x' &&
    forall i :: 2 <= i < |s| ==> IsHexDigit(s[i])
  }

  function DigitChar(d: nat): (c: char)
    requires d < 10
    ensures IsDigit(c) && c as int - '0' as int == d
  {
    ('0' as int + d) as char
  }

  /** `n.to_string()` for an unsigned integer: most significant digit first,
      no leading zeros, "0" for zero. */
  function DecimalString(n: nat): (s: string)
    ensures |s| >= 1 && AllDigits(s)
    ensures |s| == 1 <==> n < 10
    ensures s[0] == '0' <==> n == 0
    decreases n
  {
    if n < 10 then [DigitChar(n)] else DecimalString(n / 10) + [DigitChar(n % 10)]
  }

  /** The value of a string of decimal digits (a reference reading of `DecimalString`). */
  function DecimalValue(s: string): nat
    requires AllDigits(s)
    decreases |s|
  {
    if |s| == 0 then 0
    else 10 * DecimalValue(s[..|s| - 1]) + (s[|s| - 1] as int - '0' as int)
  }

  lemma {:induction false} DecimalRoundTrip(n: nat)
    ensures DecimalValue(DecimalString(n)) == n
    decreases n
  {
    if n >= 10 {
      DecimalRoundTrip(n / 10);
      var s := DecimalString(n);
      assert s[..|s| - 1] == DecimalString(n / 10);
    }
  }

  /** Distinct numbers have distinct decimal strings. */
  lemma DecimalInjective(a: nat, b: nat)
    ensures DecimalString(a) == DecimalString(b) ==> a == b
  {
    DecimalRoundTrip(a);
    DecimalRoundTrip(b);
  }

  function Pow10(k: nat): (p: nat)
    ensures p >= 1
  {
    if k == 0 then 1 else 10 * Pow10(k - 1)
  }

  /** A number with exactly k digits has a k-character decimal string. */
  lemma {:induction false} DecimalLength(n: nat, k: nat)
    requires 1 <= k
    requires k == 1 || Pow10(k - 1) <= n
    requires n < Pow10(k)
    ensures |DecimalString(n)| == k
    decreases k
  {
    if k > 1 {
      assert n >= 10 by {
        assert Pow10(k - 1) >= 10 by { assert Pow10(k - 1) == 10 * Pow10(k - 2); }
      }
      DecimalLength(n / 10, k - 1);
    }
  }

  /** `Ord for str`: byte-wise lexicographic order, a proper prefix first.
      Digits and the other characters used here are ASCII, so comparing
      characters compares their UTF-8 bytes. */
  predicate LexLess(a: string, b: string)
    decreases |a|
  {
    |b| > 0 && (|a| == 0 || a[0] < b[0] || (a[0] == b[0] && LexLess(a[1..], b[1..])))
  }

  /** At position `k` the two texts first differ, and `a` has the smaller character. */
  predicate FirstDifferenceLess(a: string, b: string, k: int) {
    0 <= k < |a| && k < |b| && a[..k] == b[..k] && a[k] < b[k]
  }

  /** A prefix of a non-empty text is its first character and a prefix of the rest. */
  lemma PrefixCons(s: string, n: nat)
    requires 0 < n <= |s|
    ensures s[..n] == [s[0]] + s[1..][..n - 1]
  {
    assert s[..n] == s[..1] + s[1..n];
  }

  /** The order spelled out: `a` is a proper prefix of `b`, or `a` has the
      smaller character where the two first differ. */
  lemma {:induction false} LexLessMeaning(a: string, b: string)
    ensures LexLess(a, b) <==>
              (|a| < |b| && a == b[..|a|]) || (exists k :: FirstDifferenceLess(a, b, k))
    decreases |a|
  {
    if |a| > 0 && |b| > 0 {
      if a[0] < b[0] {
        assert FirstDifferenceLess(a, b, 0);
      } else if a[0] > b[0] {
        forall k | 0 < k <= |a| && k <= |b| ensures a[..k] != b[..k] {
          assert a[..k][0] == a[0] && b[..k][0] == b[0];
        }
      } else {
        var a', b' := a[1..], b[1..];
        LexLessMeaning(a', b');
        if |a| < |b| {
          PrefixCons(b, |a|);
          assert a == [a[0]] + a';
        }
        forall k | FirstDifferenceLess(a, b, k) ensures FirstDifferenceLess(a', b', k - 1) {
          PrefixCons(a, k);
          PrefixCons(b, k);
        }
        forall k' | FirstDifferenceLess(a', b', k') ensures FirstDifferenceLess(a, b, k' + 1) {
          PrefixCons(a, k' + 1);
          PrefixCons(b, k' + 1);
        }
      }
    } else if |a| == 0 < |b| {
      assert a == b[..0];
    }
  }

  predicate LexLessEq(a: string, b: string) {
    a == b || LexLess(a, b)
  }

  lemma {:induction false} LexIrreflexive(a: string)
    ensures !LexLess(a, a)
    decreases |a|
  {
    if |a| > 0 {
      LexIrreflexive(a[1..]);
    }
  }

  lemma {:induction false} LexTransitive(a: string, b: string, c: string)
    requires LexLess(a, b) && LexLess(b, c)
    ensures LexLess(a, c)
    decreases |a|
  {
    if |a| > 0 && a[0] == b[0] && b[0] == c[0] {
      LexTransitive(a[1..], b[1..], c[1..]);
    }
  }

  lemma {:induction false} LexTotal(a: string, b: string)
    ensures a == b || LexLess(a, b) || LexLess(b, a)
    decreases |a|
  {
    if |a| > 0 && |b| > 0 && a[0] == b[0] {
      LexTotal(a[1..], b[1..]);
      if a[1..] == b[1..] {
        assert a == [a[0]] + a[1..] && b == [b[0]] + b[1..];
      }
    }
  }

  lemma LexAsymmetric(a: string, b: string)
    requires LexLess(a, b)
    ensures !LexLess(b, a)
  {
    if LexLess(b, a) {
      LexTransitive(a, b, a);
      LexIrreflexive(a);
    }
  }

  lemma LexLessEqTransitive(a: string, b: string, c: string)
    requires LexLessEq(a, b) && LexLessEq(b, c)
    ensures LexLessEq(a, c)
  {
    if a != b && b != c {
      LexTransitive(a, b, c);
    }
  }

  lemma LexLessEqAntisymmetric(a: string, b: string)
    requires LexLessEq(a, b) && LexLessEq(b, a)
    ensures a == b
  {
    if a != b {
      LexAsymmetric(a, b);
    }
  }

  /** Comparing two equal-length strings each extended by one character:
      the prefixes decide unless they are equal. */
  lemma {:induction false} LexAppend(s: string, t: string, c: char, d: char)
    requires |s| == |t|
    ensures LexLess(s + [c], t + [d]) <==> LexLess(s, t) || (s == t && c < d)
    decreases |s|
  {
    if |s| > 0 {
      assert (s + [c])[1..] == s[1..] + [c];
      assert (t + [d])[1..] == t[1..] + [d];
      LexAppend(s[1..], t[1..], c, d);
      if s[0] == t[0] && s[1..] == t[1..] {
        assert s == [s[0]] + s[1..] && t == [t[0]] + t[1..];
      }
    }
  }

  /** For decimal strings of the same length, text order is numeric order. */
  lemma {:induction false} SameLengthDecimalOrder(a: nat, b: nat)
    requires |DecimalString(a)| == |DecimalString(b)|
    ensures LexLess(DecimalString(a), DecimalString(b)) <==> a < b
    decreases a
  {
    if a >= 10 {
      assert b >= 10;
      SameLengthDecimalOrder(a / 10, b / 10);
      LexAppend(DecimalString(a / 10), DecimalString(b / 10), DigitChar(a % 10), DigitChar(b % 10));
      DecimalInjective(a / 10, b / 10);
    }
  }

  /** Across lengths the two orders part ways: "10002" sorts before "9999". */
  lemma TextOrderIsNotNumericOrder()
    ensures 9999 < 10002 && LexLess(DecimalString(10002), DecimalString(9999))
  {
    assert DecimalString(10002) == "10002";
    assert DecimalString(9999) == "9999";
  }

  /** The value of a hex digit, in either case. */
  function HexDigitValue(c: char): (d: nat)
    requires IsHexDigit(c)
    ensures d < 16
  {
    if '0' <= c <= '9' then c as int - '0' as int
    else if 'a' <= c <= 'f' then c as int - 'a' as int + 10
    else c as int - 'A' as int + 10
  }

  /** `{:x}` of one digit value: the lower-case digit whose value it is. */
  function HexDigitLower(d: nat): (c: char)
    requires d < 16
    ensures IsHexDigit(c) && HexDigitValue(c) == d
    ensures !('A' <= c <= 'F')
  {
    if d < 10 then ('0' as int + d) as char else ('a' as int + d - 10) as char
  }

  predicate AllBytes(bytes: seq<nat>) {
    forall i :: 0 <= i < |bytes| ==> bytes[i] < 256
  }

  predicate AllHexDigits(s: string) {
    forall i :: 0 <= i < |s| ==> IsHexDigit(s[i])
  }

  /** `{:02x}` of each byte, concatenated: the high digit, then the low digit. */
  function HexLower(bytes: seq<nat>): (s: string)
    requires AllBytes(bytes)
    ensures |s| == 2 * |bytes| && AllHexDigits(s)
    ensures forall i :: 0 <= i < |bytes| ==>
              s[2 * i] == HexDigitLower(bytes[i] / 16) && s[2 * i + 1] == HexDigitLower(bytes[i] % 16)
  {
    if bytes == [] then []
    else [HexDigitLower(bytes[0] / 16), HexDigitLower(bytes[0] % 16)] + HexLower(bytes[1..])
  }

  /** Reads hex text back, two digits to a byte, the high digit first. */
  function HexDecode(s: string): (bytes: seq<nat>)
    requires |s| % 2 == 0 && AllHexDigits(s)
    ensures |bytes| == |s| / 2 && AllBytes(bytes)
    decreases |s|
  {
    if s == [] then [] else [16 * HexDigitValue(s[0]) + HexDigitValue(s[1])] + HexDecode(s[2..])
  }

  /** The hex text of bytes reads back to the same bytes. */
  lemma {:induction false} HexRoundTrip(bytes: seq<nat>)
    requires AllBytes(bytes)
    ensures HexDecode(HexLower(bytes)) == bytes
  {
    if bytes != [] {
      var s := HexLower(bytes);
      assert s[2..] == HexLower(bytes[1..]);
      HexRoundTrip(bytes[1..]);
      assert 16 * (bytes[0] / 16) + bytes[0] % 16 == bytes[0];
    }
  }

  /** The hex text of a concatenation is the concatenation of the hex texts. */
  lemma {:induction false} HexLowerAppend(a: seq<nat>, b: seq<nat>)
    requires AllBytes(a) && AllBytes(b)
    ensures AllBytes(a + b) && HexLower(a + b) == HexLower(a) + HexLower(b)
  {
    assert AllBytes(a + b) by {
      forall i | 0 <= i < |a + b| ensures (a + b)[i] < 256 {
        if i >= |a| { assert (a + b)[i] == b[i - |a|]; }
      }
    }
    if a != [] {
      assert (a + b)[1..] == a[1..] + b;
      HexLowerAppend(a[1..], b);
    } else {
      assert a + b == b;
    }
  }
}
