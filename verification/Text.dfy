/** The string helpers the query engine leans on: decimal integers and ASCII case. */
module Text {
  import opened Common

  const INT64_MIN: int := -0x8000_0000_0000_0000
  const INT64_MAX: int := 0x7fff_ffff_ffff_ffff

  predicate IsInt64(n: int) { INT64_MIN <= n <= INT64_MAX }

  predicate IsDigit(c: char) { '0' <= c <= '9' }

  function DigitValue(c: char): nat
    requires IsDigit(c)
  {
    c as nat - '0' as nat
  }

  predicate AllDigits(s: string) {
    forall i :: 0 <= i < |s| ==> IsDigit(s[i])
  }

  /** The number a run of decimal digits stands for. */
  function DigitsValue(s: string): nat
    requires AllDigits(s)
  {
    if s == [] then 0 else 10 * DigitsValue(s[..|s| - 1]) + DigitValue(s[|s| - 1])
  }

  /** strconv.Atoi on a 64-bit machine: an optional sign, at least one digit, within range. */
  function Atoi(s: string): Option<int> {
    var digits := if s != [] && (s[0] == '-' || s[0] == '+') then s[1..] else s;
    if digits == [] || !AllDigits(digits) then None
    else
      var d: int := DigitsValue(digits);
      var n := if s[0] == '-' then -d else d;
      if IsInt64(n) then Some(n) else None
  }

  function NatText(n: nat): string {
    var last := [(('0' as nat) + n % 10) as char];
    if n < 10 then last else NatText(n / 10) + last
  }

  /** strconv.Itoa and FormatInt in base ten. */
  function Itoa(n: int): string {
    if n < 0 then "-" + NatText(-n) else NatText(n)
  }

  lemma {:induction false} NatTextValue(n: nat)
    ensures NatText(n) != [] && AllDigits(NatText(n)) && DigitsValue(NatText(n)) == n
  {
    var s := NatText(n);
    if n >= 10 {
      NatTextValue(n / 10);
      assert s[..|s| - 1] == NatText(n / 10);
    } else {
      assert s[..|s| - 1] == [];
    }
  }

  lemma AtoiDigits(s: string)
    requires s != [] && AllDigits(s) && IsInt64(DigitsValue(s))
    ensures Atoi(s) == Some(DigitsValue(s))
  {
    assert IsDigit(s[0]);
  }

  lemma AtoiNegative(s: string)
    requires s != [] && AllDigits(s) && IsInt64(0 - DigitsValue(s))
    ensures var n := 0 - DigitsValue(s); Atoi("-" + s) == Some(n)
  {
    assert ("-" + s)[1..] == s;
  }

  /** Every 64-bit integer survives being printed and read back. */
  lemma AtoiItoa(n: int)
    requires IsInt64(n)
    ensures Atoi(Itoa(n)) == Some(n)
  {
    if n < 0 {
      NatTextValue(-n);
      AtoiNegative(NatText(-n));
    } else {
      NatTextValue(n);
      AtoiDigits(NatText(n));
    }
  }

  function LowerChar(c: char): char {
    if 'A' <= c <= 'Z' then ((c as int - 'A' as int) + 'a' as int) as char else c
  }

  /** strings.ToLower on the ASCII letters. */
  function Lower(s: string): string {
    seq(|s|, i requires 0 <= i < |s| => LowerChar(s[i]))
  }

  /** What Atoi reads: up to 9223372036854775807 above zero, with or without a plus. */
  lemma AtoiRange(s: string)
    requires s != [] && AllDigits(s)
    ensures Atoi(s) == if DigitsValue(s) <= 9223372036854775807 then Some(DigitsValue(s)) else None
  {
    assert IsDigit(s[0]);
  }

  lemma AtoiPlus(s: string)
    requires s != [] && AllDigits(s)
    ensures Atoi("+" + s) == Atoi(s)
  {
    AtoiRange(s);
    assert ("+" + s)[1..] == s;
  }

  /** And down to -9223372036854775808. */
  lemma AtoiRangeBelow(s: string)
    requires s != [] && AllDigits(s)
    ensures var n := 0 - DigitsValue(s);
            Atoi("-" + s) == if DigitsValue(s) <= 9223372036854775808 then Some(n) else None
  {
    assert ("-" + s)[1..] == s;
  }

  /** A number is printed as digits, with a minus in front exactly when it is negative, and no leading zero. */
  lemma {:induction false} ItoaForm(n: int)
    ensures var s := Itoa(n);
            if n < 0 then s != [] && s[0] == '-' && AllDigits(s[1..]) && Itoa(-n) == s[1..]
            else AllDigits(s) && s != [] && (s[0] == '0' ==> n == 0)
    decreases if n < 0 then 1 else 0, if n < 0 then 0 else n
  {
    if n < 0 {
      ItoaForm(-n);
    } else {
      NatTextValue(n);
      if n >= 10 { ItoaForm(n / 10); }
    }
  }

  /** The 26 capital letters become small ones; every other character stays. */
  lemma LowerLetters(s: string, k: nat)
    requires k < |s|
    ensures |Lower(s)| == |s|
    ensures var i := s[k] as int - 65;
            if 0 <= i < 26 then "ABCDEFGHIJKLMNOPQRSTUVWXYZ"[i] == s[k] && Lower(s)[k] == "abcdefghijklmnopqrstuvwxyz"[i]
            else Lower(s)[k] == s[k]
  {
  }

  /** strings.Cut at the first `sep`. */
  function Cut(s: string, sep: char): Option<(string, string)> {
    if s == [] then None
    else if s[0] == sep then Some(([], s[1..]))
    else
      var r := Cut(s[1..], sep);
      if r.None? then None else Some(([s[0]] + r.value.0, r.value.1))
  }

  lemma {:induction false} CutAt(left: string, sep: char, right: string)
    requires sep !in left
    ensures Cut(left + [sep] + right, sep) == Some((left, right))
  {
    var s := left + [sep] + right;
    if left == [] {
      assert s[1..] == right;
    } else {
      assert s[1..] == left[1..] + [sep] + right;
      CutAt(left[1..], sep, right);
      assert [s[0]] + left[1..] == left;
    }
  }
}
