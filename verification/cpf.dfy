/**
 The CPF (Cadastro de Pessoas Fisicas) validator: a candidate string is
 normalised to its decimal digits, which must be eleven, not all equal, and
 end in the two modulus-11 check digits of the Receita Federal rule.
 */
module Cpf {

  /** An ASCII decimal digit: the characters that survive the `\D` filter. */
  predicate IsDigit(c: char) {
    '0' <= c <= '9'
  }

  predicate AllDigits(t: string) {
    forall i :: 0 <= i < |t| ==> IsDigit(t[i])
  }

  // ---------------------------------------------------------------------------
  // Normalisation
  // ---------------------------------------------------------------------------

  /** Removes every character that is not a digit, keeping the rest in order. */
  function StripNonDigits(s: string): (t: string)
    ensures AllDigits(t)
    ensures |t| <= |s|
  {
    if |s| == 0 then []
    else StripNonDigits(s[..|s| - 1]) + (if IsDigit(s[|s| - 1]) then [s[|s| - 1]] else [])
  }

  /** A string of digits alone is left unchanged by normalisation. */
  lemma {:induction false} StripKeepsDigitString(s: string)
    requires AllDigits(s)
    ensures StripNonDigits(s) == s
  {
    if |s| > 0 {
      StripKeepsDigitString(s[..|s| - 1]);
    }
  }

  /**
   `p` lists where the characters of `t` sit in `s`: one position per
   character of `t`, holding that character, in increasing order, and
   covering every digit of `s` and nothing else.
   */
  ghost predicate PositionsOf(s: string, t: string, p: seq<nat>) {
    && |p| == |t|
    && (forall k :: 0 <= k < |p| ==> p[k] < |s| && s[p[k]] == t[k])
    && (forall k, l :: 0 <= k < l < |p| ==> p[k] < p[l])
    && (forall i :: 0 <= i < |s| ==> (IsDigit(s[i]) <==> i in p))
  }

  /**
   The positions of the digits of `s`. Its contract states that
   normalisation keeps exactly the digit characters of the input, each taken
   from its own position, in their original order.
   */
  function DigitPositions(s: string): (p: seq<nat>)
    ensures PositionsOf(s, StripNonDigits(s), p)
  {
    if |s| == 0 then []
    else
      var init, c := s[..|s| - 1], s[|s| - 1];
      var p' := DigitPositions(init);
      PositionsExtend(init, c, StripNonDigits(init), p');
      assert init + [c] == s;
      p' + (if IsDigit(c) then [|init|] else [])
  }

  /** Appending one character to the input appends its position when it is a digit. */
  lemma PositionsExtend(s: string, c: char, t: string, p: seq<nat>)
    requires PositionsOf(s, t, p)
    ensures PositionsOf(s + [c], t + (if IsDigit(c) then [c] else []), p + (if IsDigit(c) then [|s|] else []))
  {
  }

  /** Normalising a concatenation normalises each part. */
  lemma {:induction false} StripAppend(a: string, b: string)
    ensures StripNonDigits(a + b) == StripNonDigits(a) + StripNonDigits(b)
    decreases |b|
  {
    if |b| == 0 {
      assert a + b == a;
    } else {
      var b' := b[..|b| - 1];
      assert (a + b)[..|a + b| - 1] == a + b';
      StripAppend(a, b');
    }
  }

  /** Normalisation is idempotent. */
  lemma StripIdempotent(s: string)
    ensures StripNonDigits(StripNonDigits(s)) == StripNonDigits(s)
  {
    StripKeepsDigitString(StripNonDigits(s));
  }

  /** The value of one digit character, as `int(c)` gives it. */
  function DigitValue(c: char): (v: int)
    requires IsDigit(c)
    ensures 0 <= v <= 9
  {
    (c as int) - ('0' as int)
  }

  /** The digit values of an all-digit string, position by position. */
  function Digits(t: string): (d: seq<int>)
    requires AllDigits(t)
    ensures |d| == |t|
    ensures forall i :: 0 <= i < |d| ==> 0 <= d[i] <= 9
  {
    seq(|t|, i requires 0 <= i < |t| => DigitValue(t[i]))
  }

  /** Distinct all-digit strings have distinct digit values. */
  lemma DigitsInjective(a: string, b: string)
    requires AllDigits(a) && AllDigits(b)
    requires Digits(a) == Digits(b)
    ensures a == b
  {
    forall i | 0 <= i < |a|
      ensures a[i] == b[i]
    {
      assert Digits(a)[i] == Digits(b)[i];
    }
  }

  /** The digit values of the input once every non-digit has been removed. */
  function Normalize(s: string): (d: seq<int>)
    ensures |d| == |StripNonDigits(s)|
    ensures forall i :: 0 <= i < |d| ==> 0 <= d[i] <= 9
  {
    Digits(StripNonDigits(s))
  }

  // ---------------------------------------------------------------------------
  // Check digits
  // ---------------------------------------------------------------------------

  /** The sum of `d[i] * (top - i)` over the first `n` digits. */
  function WeightedSum(d: seq<int>, n: nat, top: int): int
    requires n <= |d|
  {
    if n == 0 then 0 else WeightedSum(d, n - 1, top) + d[n - 1] * (top - (n - 1))
  }

  /**
   The check digit that follows the first `n` digits: eleven minus the
   remainder of their weighted sum (weights `n + 1` down to 2) modulo 11,
   with the two-digit results 10 and 11 replaced by 0.
   */
  function CheckDigit(d: seq<int>, n: nat): (c: int)
    requires n <= |d|
    ensures 0 <= c <= 9
    ensures c == 0 <==> WeightedSum(d, n, n + 1) % 11 < 2
    ensures (WeightedSum(d, n, n + 1) + c) % 11 == 0 <==> WeightedSum(d, n, n + 1) % 11 != 1
  {
    var raw := 11 - WeightedSum(d, n, n + 1) % 11;
    if raw >= 10 then 0 else raw
  }

  /**
   The same check digit, computed the way the source does: accumulate the
   weighted sum term by term, then reduce it.
   */
  method CheckDigitBySummation(d: seq<int>, n: nat) returns (c: int)
    requires n <= |d|
    ensures c == CheckDigit(d, n)
  {
    var sum := 0;
    var i := 0;
    while i < n
      invariant 0 <= i <= n
      invariant sum == WeightedSum(d, i, n + 1)
    {
      sum := sum + d[i] * (n + 1 - i);
      i := i + 1;
    }
    c := 11 - sum % 11;
    if c >= 10 {
      c := 0;
    }
  }

  // ---------------------------------------------------------------------------
  // The validator
  // ---------------------------------------------------------------------------

  /** `c` repeated `n` times, the string `cpf[0] * 11` of the source. */
  function Repeat(c: char, n: nat): string {
    seq(n, _ => c)
  }

  /**
   The validator: normalise, demand eleven digits that are not all the same,
   and compare digits 10 and 11 with the check digits computed from the
   first nine and the first ten digits respectively.
   */
  function ValidarCpf(s: string): (ok: bool)
    ensures |StripNonDigits(s)| != 11 ==> !ok
    ensures |StripNonDigits(s)| == 11 && (forall i :: 0 <= i < 11 ==> StripNonDigits(s)[i] == StripNonDigits(s)[0]) ==> !ok
  {
    var t := StripNonDigits(s);
    if |t| != 11 then false
    else if t == Repeat(t[0], 11) then false
    else
      var d := Digits(t);
      d[9] == CheckDigit(d, 9) && d[10] == CheckDigit(d, 10)
  }

  // ---------------------------------------------------------------------------
  // Reference statement of the rule
  // ---------------------------------------------------------------------------

  /** Weighted sum of the first nine digits, weights 10 down to 2. */
  function FirstSum(d: seq<int>): int
    requires |d| >= 9
  {
    10 * d[0] + 9 * d[1] + 8 * d[2] + 7 * d[3] + 6 * d[4] + 5 * d[5] + 4 * d[6] + 3 * d[7] + 2 * d[8]
  }

  /** Weighted sum of the first ten digits, weights 11 down to 2. */
  function SecondSum(d: seq<int>): int
    requires |d| >= 10
  {
    11 * d[0] + 10 * d[1] + 9 * d[2] + 8 * d[3] + 7 * d[4] + 6 * d[5] + 5 * d[6] + 4 * d[7] + 3 * d[8] + 2 * d[9]
  }

  /** A raw check digit of 10 or 11 stands for 0. */
  function Clamp(raw: int): int {
    if raw >= 10 then 0 else raw
  }

  /**
   The CPF rule for a digit sequence: eleven digits, not all equal, whose
   tenth digit is the clamped `11 - FirstSum mod 11` and whose eleventh is the
   clamped `11 - SecondSum mod 11`, the latter taken over the digits as given
   (the tenth included as it stands).
   */
  predicate CpfRule(d: seq<int>) {
    && |d| == 11
    && (exists i :: 0 <= i < 11 && d[i] != d[0])
    && d[9] == Clamp(11 - FirstSum(d) % 11)
    && d[10] == Clamp(11 - SecondSum(d) % 11)
  }

  lemma {:induction false} FirstSumIsWeightedSum(d: seq<int>)
    requires |d| >= 9
    ensures WeightedSum(d, 9, 10) == FirstSum(d)
  {
    assert WeightedSum(d, 1, 10) == WeightedSum(d, 0, 10) + 10 * d[0];
    assert WeightedSum(d, 2, 10) == WeightedSum(d, 1, 10) + 9 * d[1];
    assert WeightedSum(d, 3, 10) == WeightedSum(d, 2, 10) + 8 * d[2];
    assert WeightedSum(d, 4, 10) == WeightedSum(d, 3, 10) + 7 * d[3];
    assert WeightedSum(d, 5, 10) == WeightedSum(d, 4, 10) + 6 * d[4];
    assert WeightedSum(d, 6, 10) == WeightedSum(d, 5, 10) + 5 * d[5];
    assert WeightedSum(d, 7, 10) == WeightedSum(d, 6, 10) + 4 * d[6];
    assert WeightedSum(d, 8, 10) == WeightedSum(d, 7, 10) + 3 * d[7];
    assert WeightedSum(d, 9, 10) == WeightedSum(d, 8, 10) + 2 * d[8];
  }

  lemma {:induction false} SecondSumIsWeightedSum(d: seq<int>)
    requires |d| >= 10
    ensures WeightedSum(d, 10, 11) == SecondSum(d)
  {
    assert WeightedSum(d, 1, 11) == WeightedSum(d, 0, 11) + 11 * d[0];
    assert WeightedSum(d, 2, 11) == WeightedSum(d, 1, 11) + 10 * d[1];
    assert WeightedSum(d, 3, 11) == WeightedSum(d, 2, 11) + 9 * d[2];
    assert WeightedSum(d, 4, 11) == WeightedSum(d, 3, 11) + 8 * d[3];
    assert WeightedSum(d, 5, 11) == WeightedSum(d, 4, 11) + 7 * d[4];
    assert WeightedSum(d, 6, 11) == WeightedSum(d, 5, 11) + 6 * d[5];
    assert WeightedSum(d, 7, 11) == WeightedSum(d, 6, 11) + 5 * d[6];
    assert WeightedSum(d, 8, 11) == WeightedSum(d, 7, 11) + 4 * d[7];
    assert WeightedSum(d, 9, 11) == WeightedSum(d, 8, 11) + 3 * d[8];
    assert WeightedSum(d, 10, 11) == WeightedSum(d, 9, 11) + 2 * d[9];
  }

  /** An all-digit string repeats one character iff its digit values repeat one value. */
  lemma RepeatIffSameDigits(t: string)
    requires AllDigits(t) && |t| == 11
    ensures t == Repeat(t[0], 11) <==> forall i :: 0 <= i < 11 ==> Digits(t)[i] == Digits(t)[0]
  {
    var d := Digits(t);
    if forall i :: 0 <= i < 11 ==> d[i] == d[0] {
      var r := Repeat(t[0], 11);
      assert AllDigits(r);
      assert Digits(r) == d by {
        assert forall i :: 0 <= i < 11 ==> Digits(r)[i] == DigitValue(t[0]) == d[0];
      }
      DigitsInjective(r, t);
    }
  }

  /**
   Soundness and completeness: the validator accepts exactly the inputs whose
   digits satisfy the CPF rule.
   */
  lemma ValidarCpfMatchesRule(s: string)
    ensures ValidarCpf(s) <==> CpfRule(Normalize(s))
  {
    var t := StripNonDigits(s);
    var d := Normalize(s);
    if |t| == 11 {
      RepeatIffSameDigits(t);
      FirstSumIsWeightedSum(d);
      SecondSumIsWeightedSum(d);
      if t != Repeat(t[0], 11) {
        var i :| 0 <= i < 11 && d[i] != d[0];
      }
    }
  }

  /** Inserting a non-digit character anywhere leaves the verdict unchanged. */
  lemma NonDigitIgnored(a: string, c: char, b: string)
    requires !IsDigit(c)
    ensures StripNonDigits(a + [c] + b) == StripNonDigits(a + b)
    ensures ValidarCpf(a + [c] + b) == ValidarCpf(a + b)
  {
    StripAppend(a + [c], b);
    StripAppend(a, [c]);
    StripAppend(a, b);
    assert StripNonDigits([c]) == [] by {
      assert [c][..0] == [];
    }
    SameDigitsSameVerdict(a + [c] + b, a + b);
  }

  /** Inputs that normalise to the same digits get the same verdict. */
  lemma SameDigitsSameVerdict(a: string, b: string)
    requires StripNonDigits(a) == StripNonDigits(b)
    ensures ValidarCpf(a) == ValidarCpf(b)
  {
  }

  /** Eleven copies of one digit, with or without separators, are rejected. */
  lemma RepeatedDigitRejected(c: char, s: string)
    requires IsDigit(c)
    requires StripNonDigits(s) == Repeat(c, 11)
    ensures !ValidarCpf(s)
  {
  }

  /** On a string of digits alone, the verdict is the CPF rule on its digit values. */
  lemma ValidarCpfOnDigits(t: string)
    requires AllDigits(t)
    ensures ValidarCpf(t) <==> CpfRule(Digits(t))
  {
    StripKeepsDigitString(t);
    ValidarCpfMatchesRule(t);
  }

  /** "11144477735" is a valid CPF: its check digits are 3 and 5. */
  lemma ValidReferenceVector()
    ensures ValidarCpf("11144477735")
  {
    var d := [1, 1, 1, 4, 4, 4, 7, 7, 7, 3, 5];
    assert CpfRule(d) by {
      assert d[3] != d[0];
    }
    assert Digits("11144477735") == d;
    ValidarCpfOnDigits("11144477735");
  }

  /** "11144477736" is rejected: its last digit should be 5. */
  lemma InvalidReferenceVector()
    ensures Digits("11144477736") == [1, 1, 1, 4, 4, 4, 7, 7, 7, 3, 6]
    ensures CheckDigit(Digits("11144477736"), 9) == 3
    ensures CheckDigit(Digits("11144477736"), 10) == 5
    ensures !ValidarCpf("11144477736")
  {
    var d := [1, 1, 1, 4, 4, 4, 7, 7, 7, 3, 6];
    assert Digits("11144477736") == d;
    InvalidVectorCheckDigits(d);
    ValidarCpfOnDigits("11144477736");
  }

  /** The check digits of 1,1,1,4,4,4,7,7,7,3,6 are 3 and 5, so the rule fails on the last digit. */
  lemma InvalidVectorCheckDigits(d: seq<int>)
    requires d == [1, 1, 1, 4, 4, 4, 7, 7, 7, 3, 6]
    ensures CheckDigit(d, 9) == 3 && CheckDigit(d, 10) == 5
    ensures !CpfRule(d)
  {
    FirstSumIsWeightedSum(d);
    SecondSumIsWeightedSum(d);
  }

  /** Normalising a digit string followed by one separator gives the digit string. */
  lemma StripDigitsThenSeparator(t: string, c: char)
    requires AllDigits(t) && !IsDigit(c)
    ensures StripNonDigits(t + [c]) == t
  {
    assert (t + [c])[..|t|] == t;
    StripKeepsDigitString(t);
  }

  /** Four digit groups joined by three separators, as in `ddd.ddd.ddd-dd`. */
  function Formatted(g1: string, c1: char, g2: string, c2: char, g3: string, c3: char, g4: string): string {
    (g1 + [c1]) + (g2 + [c2]) + (g3 + [c3]) + g4
  }

  /**
   A CPF written in the usual `ddd.ddd.ddd-dd` layout, or with any other
   non-digit separators between the groups, normalises to its digit groups run
   together.
   */
  lemma FormattedNormalizes(g1: string, c1: char, g2: string, c2: char, g3: string, c3: char, g4: string)
    requires AllDigits(g1) && AllDigits(g2) && AllDigits(g3) && AllDigits(g4)
    requires !IsDigit(c1) && !IsDigit(c2) && !IsDigit(c3)
    ensures StripNonDigits(Formatted(g1, c1, g2, c2, g3, c3, g4)) == g1 + g2 + g3 + g4
  {
    var a, b, c := g1 + [c1], g2 + [c2], g3 + [c3];
    assert StripNonDigits(a + b) == g1 + g2 by {
      StripDigitsThenSeparator(g1, c1);
      StripDigitsThenSeparator(g2, c2);
      StripAppend(a, b);
    }
    assert StripNonDigits(a + b + c) == g1 + g2 + g3 by {
      StripDigitsThenSeparator(g3, c3);
      StripAppend(a + b, c);
    }
    StripKeepsDigitString(g4);
    StripAppend(a + b + c, g4);
  }

  /** The punctuated form "111.444.777-35" normalises to "11144477735". */
  lemma PunctuatedNormalizes()
    ensures StripNonDigits("111.444.777-35") == "11144477735"
  {
    FormattedNormalizes("111", '.', "444", '.', "777", '-', "35");
    assert Formatted("111", '.', "444", '.', "777", '-', "35") == "111.444.777-35";
    assert "111" + "444" + "777" + "35" == "11144477735";
  }

  /** The punctuated form "111.444.777-35" is accepted like the plain one. */
  lemma PunctuatedReferenceVector()
    ensures ValidarCpf("111.444.777-35")
  {
    PunctuatedNormalizes();
    StripKeepsDigitString("11144477735");
    SameDigitsSameVerdict("111.444.777-35", "11144477735");
    ValidReferenceVector();
  }
}
