/** ASCII text: letter case, splitting at a separator, and the decimal form of 64-bit numbers. */
module Text {

  import opened Powers
  import opened Wrappers

  predicate IsAscii(s: string) {
    forall i | 0 <= i < |s| :: s[i] < 128 as char
  }

  predicate IsLower(c: char) {
    'a' <= c <= 'z'
  }

  predicate IsUpper(c: char) {
    'A' <= c <= 'Z'
  }

  predicate HasLower(s: string) {
    exists i :: 0 <= i < |s| && IsLower(s[i])
  }

  predicate HasUpper(s: string) {
    exists i :: 0 <= i < |s| && IsUpper(s[i])
  }

  function LowerChar(c: char): char {
    if IsUpper(c) then (c as int + 32) as char else c
  }

  function UpperChar(c: char): char {
    if IsLower(c) then (c as int - 32) as char else c
  }

  function ToLower(s: string): (t: string)
    ensures |t| == |s| && forall i | 0 <= i < |s| :: t[i] == LowerChar(s[i])
  {
    seq(|s|, i requires 0 <= i < |s| => LowerChar(s[i]))
  }

  function ToUpper(s: string): (t: string)
    ensures |t| == |s| && forall i | 0 <= i < |s| :: t[i] == UpperChar(s[i])
  {
    seq(|s|, i requires 0 <= i < |s| => UpperChar(s[i]))
  }

  /** Upper-casing loses nothing that lower-casing does not bring back, when no letter was upper case. */
  lemma LowerOfUpper(s: string)
    requires !HasUpper(s)
    ensures ToLower(s) == s && ToLower(ToUpper(s)) == s && !HasLower(ToUpper(s))
  {
  }

  // ---------------------------------------------------------------------------------------
  // Splitting
  // ---------------------------------------------------------------------------------------

  /** The pieces of `s` between separators; one more piece than there are separators. */
  function Split(s: string, sep: char): (parts: seq<string>)
    ensures |parts| >= 1
  {
    if s == [] then [[]]
    else
      var rest := Split(s[1..], sep);
      if s[0] == sep then [[]] + rest else [[s[0]] + rest[0]] + rest[1..]
  }

  lemma {:induction false} SplitWhole(s: string, sep: char)
    requires sep !in s
    ensures Split(s, sep) == [s]
  {
    if s != [] {
      SplitWhole(s[1..], sep);
      assert s == [s[0]] + s[1..];
    }
  }

  lemma {:induction false} SplitFirst(a: string, b: string, sep: char)
    requires sep !in a
    ensures Split(a + [sep] + b, sep) == [a] + Split(b, sep)
  {
    var s := a + [sep] + b;
    if a == [] {
      assert s[1..] == b;
    } else {
      SplitFirst(a[1..], b, sep);
      assert s[1..] == a[1..] + [sep] + b;
      assert a == [a[0]] + a[1..];
    }
  }

  lemma {:induction false} SplitLast(a: string, b: string, sep: char)
    requires sep !in b
    ensures Split(a + [sep] + b, sep) == Split(a, sep) + [b]
  {
    var s := a + [sep] + b;
    if a == [] {
      assert s[1..] == b;
      SplitWhole(b, sep);
    } else {
      SplitLast(a[1..], b, sep);
      assert s[1..] == a[1..] + [sep] + b;
      var rest := Split(a[1..], sep);
      assert (rest + [b])[1..] == rest[1..] + [b];
    }
  }

  /** Two pieces determine the whole. */
  lemma {:induction false} SplitInTwo(s: string, sep: char)
    requires |Split(s, sep)| == 2
    ensures var parts := Split(s, sep);
            s == parts[0] + [sep] + parts[1] && sep !in parts[0] && sep !in parts[1]
  {
    if s[0] == sep {
      SplitInOne(s[1..], sep);
      assert s == [] + [sep] + s[1..];
    } else {
      SplitInTwo(s[1..], sep);
      var rest := Split(s[1..], sep);
      assert s == [s[0]] + s[1..];
      assert s == ([s[0]] + rest[0]) + [sep] + rest[1];
    }
  }

  lemma {:induction false} SplitInOne(s: string, sep: char)
    requires |Split(s, sep)| == 1
    ensures Split(s, sep) == [s] && sep !in s
  {
    if s != [] {
      SplitInOne(s[1..], sep);
      assert s == [s[0]] + s[1..];
    }
  }

  lemma {:induction false} SplitKeepsLower(s: string, sep: char, k: nat)
    requires ToLower(s) == s && k < |Split(s, sep)|
    ensures ToLower(Split(s, sep)[k]) == Split(s, sep)[k]
  {
    if s != [] {
      assert LowerChar(s[0]) == ToLower(s)[0];
      assert ToLower(s[1..]) == ToLower(s)[1..];
      var head := if s[0] == sep then 1 else 0;
      if k == 0 {
        if s[0] != sep {
          SplitKeepsLower(s[1..], sep, 0);
        }
      } else {
        SplitKeepsLower(s[1..], sep, k - head);
      }
    }
  }

  // ---------------------------------------------------------------------------------------
  // Decimal numbers
  // ---------------------------------------------------------------------------------------

  predicate IsDigit(c: char) {
    '0' <= c <= '9'
  }

  predicate AllDigits(s: string) {
    forall i | 0 <= i < |s| :: IsDigit(s[i])
  }

  function DigitValue(c: char): nat
    requires IsDigit(c)
  {
    c as int - '0' as int
  }

  function DigitChar(d: nat): (c: char)
    requires d < 10
    ensures IsDigit(c) && DigitValue(c) == d
  {
    (d + '0' as int) as char
  }

  function Value(s: string): nat
    requires AllDigits(s)
  {
    if s == [] then 0 else 10 * Value(s[..|s| - 1]) + DigitValue(s[|s| - 1])
  }

  /** The decimal form without leading zeros. */
  function Print(n: nat): (s: string)
    ensures |s| >= 1 && AllDigits(s)
  {
    if n < 10 then [DigitChar(n)] else Print(n / 10) + [DigitChar(n % 10)]
  }

  /** `str::parse::<u64>`: an optional plus sign, then digits, within 64 bits. */
  function ParseU64(s: string): Option<nat> {
    var digits := if s != [] && s[0] == '+' then s[1..] else s;
    if digits == [] || !AllDigits(digits) || Value(digits) >= TWO_64 then None
    else Some(Value(digits))
  }

  lemma {:induction false} ValueOfPrint(n: nat)
    ensures Value(Print(n)) == n
  {
    if n >= 10 {
      ValueOfPrint(n / 10);
      assert Print(n)[..|Print(n)| - 1] == Print(n / 10);
    }
  }

  lemma ParsePrinted(n: nat)
    requires n < TWO_64
    ensures ParseU64(Print(n)) == Some(n)
  {
    ValueOfPrint(n);
    assert IsDigit(Print(n)[0]);
  }
}
