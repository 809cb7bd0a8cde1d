/**
 * Decimal text: the digit loops of sh_itoa (src/shell.c) and of the status bar
 * (src/vga.c), and the loop of killprocess that reads a number back, in
 * 32-bit arithmetic.
 */
module Decimal {
  import opened Machine32

  predicate IsDigit(c: char) { '0' <= c <= '9' }

  function DigitChar(d: nat): char
    requires d < 10
  {
    '0' + d as char
  }

  function DigitValue(c: char): nat
    requires IsDigit(c)
  {
    c as nat - '0' as nat
  }

  /** The usual decimal notation of `n`. */
  function Digits(n: nat): (s: string)
    ensures s != "" && forall i :: 0 <= i < |s| ==> IsDigit(s[i])
    ensures n > 0 ==> s[0] != '0'
  {
    (if n < 10 then "" else Digits(n / 10)) + [DigitChar(n % 10)]
  }

  /** The number a string of digits stands for. */
  function Value(s: string): nat
    requires forall i :: 0 <= i < |s| ==> IsDigit(s[i])
  {
    if s == "" then 0 else 10 * Value(s[..|s| - 1]) + DigitValue(s[|s| - 1])
  }

  lemma {:induction false} ValueOfDigits(n: nat)
    ensures Value(Digits(n)) == n
  {
    var s := Digits(n);
    assert s[..|s| - 1] == if n < 10 then "" else Digits(n / 10);
    if n >= 10 { ValueOfDigits(n / 10); }
  }

  function Power10(k: nat): (p: nat)
    ensures p > 0
  {
    if k == 0 then 1 else 10 * Power10(k - 1)
  }

  lemma {:induction false} DigitsAreFew(n: nat, k: nat)
    requires k > 0
    ensures |Digits(n)| <= k <==> n < Power10(k)
  {
    if n >= 10 && k > 1 {
      DigitsAreFew(n / 10, k - 1);
    } else {
      assert n >= 10 ==> |Digits(n)| == |Digits(n / 10)| + 1 && Digits(n / 10) != "";
      assert Power10(k) == 10 * Power10(k - 1);
    }
  }

  /** Ten digits are enough for a 32-bit number, and eight for one divided by 100. */
  lemma DigitsFit(n: nat)
    requires n < WORD
    ensures |Digits(n)| <= 10 && |Digits(n / 100)| <= 8
  {
    assert Power10(4) == 10000;
    assert Power10(8) == 100000000;
    assert Power10(10) == 10000000000;
    DigitsAreFew(n, 10);
    DigitsAreFew(n / 100, 8);
  }

  /** What the first loop still has to write when `m` is left. */
  function Unwritten(m: nat): string { if m == 0 then "" else Digits(m) }

  lemma LastDigit(m: nat)
    requires m > 0
    ensures Unwritten(m) == Unwritten(m / 10) + [DigitChar(m % 10)]
  {
  }

  /** The first digit loop: divides the number down and stores its digits, least significant first. */
  method Collect(n: nat, tmp: array<char>) returns (i: nat)
    requires n > 0 && |Digits(n)| <= tmp.Length
    modifies tmp
    ensures i == |Digits(n)| && forall k :: 0 <= k < i ==> tmp[k] == Digits(n)[i - 1 - k]
  {
    hide Digits;
    ghost var digits := Digits(n);
    var m := n;
    i := 0;
    while m != 0
      invariant |Unwritten(m)| == |digits| - i && Unwritten(m) <= digits
      invariant forall k :: 0 <= k < i ==> tmp[k] == digits[|digits| - 1 - k]
      decreases m
    {
      LastDigit(m);
      assert digits[|digits| - i - 1] == DigitChar(m % 10);
      tmp[i] := DigitChar(m % 10);
      i := i + 1;
      m := m / 10;
    }
  }

  /** The second digit loop: copies the first `count` characters of `tmp`, last one first. */
  method TurnRound(tmp: array<char>, count: nat, buf: array<char>, at: nat, ghost text: string) returns (end: nat)
    requires tmp != buf && count == |text| <= tmp.Length && at + count <= buf.Length
    requires forall k :: 0 <= k < count ==> tmp[k] == text[count - 1 - k]
    modifies buf
    ensures end == at + count && buf[..end] == old(buf[..at]) + text && buf[end..] == old(buf[end..])
  {
    var i: nat := count;
    end := at;
    while i > 0
      invariant i <= count && end == at + count - i
      invariant buf[..end] == old(buf[..at]) + text[..count - i]
      invariant buf[end..] == old(buf[end..])
    {
      i := i - 1;
      buf[end] := tmp[i];
      end := end + 1;
    }
  }
}
