/**
 The Unified Social Credit Code check of models/schemas.py (`is_valid_credit_code`), the check
 character rule of GB 32100-2015. What a checksum is for is what is proved: one wrong character
 is always noticed, and so is a transposition, except of the two positions of weight 1.
 */
module CreditCode {
  const CHARS := "0123456789ABCDEFGHJKLMNPQRTUWXY"
  const LENGTH := 18
  const CHECK := 17

  /** `pow(3, i, 31)`. */
  function Power3(i: nat): nat {
    if i == 0 then 1 else Power3(i - 1) * 3 % 31
  }

  /** `_USCC_WEIGHTS`; the check character itself counts once. */
  function Weight(position: nat): nat {
    if position == CHECK then 1 else Power3(position)
  }

  /** `_USCC_CHARS.index(ch)`; 31 stands for a character that is not there. */
  function Value(ch: char): nat {
    IndexFrom(CHARS, ch, 0)
  }

  function IndexFrom(chars: string, ch: char, i: nat): (v: nat)
    requires i <= |chars|
    ensures i <= v <= |chars|
    ensures ch in chars[i..] ==> v < |chars| && chars[v] == ch
    decreases |chars| - i, ch
  {
    if i == |chars| || chars[i] == ch then i else IndexFrom(chars, ch, i + 1)
  }

  /** `[0-9A-HJ-NPQRTUWXY]`, and `[0-9]` for the six digits of the region. */
  predicate InClass(position: nat, ch: char) {
    ('0' <= ch <= '9')
    || (!(2 <= position < 8)
        && ('A' <= ch <= 'H' || 'J' <= ch <= 'N' || 'P' <= ch <= 'R' || ch == 'T' || ch == 'U' || 'W' <= ch <= 'Y'))
  }

  /** `_USCC_RE.match`: its `$` also matches before one final newline. */
  predicate MatchesPattern(code: string) {
    LENGTH <= |code|
    && (forall i | 0 <= i < LENGTH :: InClass(i, code[i]))
    && (|code| == LENGTH || code[LENGTH..] == "\n")
  }

  function Values(code: string): (v: seq<int>)
    requires LENGTH <= |code|
    ensures |v| == LENGTH && forall i | 0 <= i < LENGTH :: v[i] == Value(code[i])
  {
    seq(LENGTH, i requires 0 <= i < LENGTH <= |code| => Value(code[i]))
  }

  function Weights(): (w: seq<int>)
    ensures |w| == LENGTH && forall i | 0 <= i < LENGTH :: w[i] == Weight(i)
  {
    seq(LENGTH, i requires 0 <= i < LENGTH => Weight(i))
  }

  /** `v * w`, written as a sum so that the solver meets no product of two unknowns. */
  function Times(v: int, w: int): int
    decreases if v < 0 then -v else v
  {
    if v == 0 then 0 else if v > 0 then Times(v - 1, w) + w else Times(v + 1, w) - w
  }

  /** The weighted sum of the first `n` values. */
  function Total(values: seq<int>, weights: seq<int>, n: nat): int
    requires n <= |values| && n <= |weights|
  {
    if n == 0 then 0 else Total(values, weights, n - 1) + Times(values[n - 1], weights[n - 1])
  }

  /** All eighteen characters weighed, the check character included. */
  function Checksum(code: string): int
    requires LENGTH <= |code|
  {
    var values := Values(code);
    Total(values, Weights(), |values|)
  }

  function CheckValue(total: int): int {
    (31 - total % 31) % 31
  }

  /** `is_valid_credit_code`. */
  predicate IsValid(code: string) {
    MatchesPattern(code)
    && var values := Values(code);
       CHARS[CheckValue(Total(values, Weights(), |values| - 1))] == code[CHECK]
  }

  // -------------------------------------------------------------- characters

  /** Where a character of the set stands in it. */
  function Position(ch: char): int {
    var c := ch as int;
    if c <= 57 then c - 48 else if c <= 72 then c - 55 else if c <= 78 then c - 56 else
    if c <= 82 then c - 57 else if c <= 85 then c - 58 else c - 59
  }

  /** The set counts in the order of the characters. */
  lemma {:induction false} SetIsSorted(i: nat, j: nat)
    requires i < j < |CHARS|
    ensures CHARS[i] < CHARS[j]
  {
    CharsInOrder(i);
    CharsInOrder(j);
    assert CHARS[j - 1] < CHARS[j];
    if i < j - 1 {
      SetIsSorted(i, j - 1);
    }
  }

  /** Outside the digits of the region a place takes just the characters of the set. */
  lemma ClassIsTheSet(position: nat, ch: char)
    ensures InClass(position, ch) <==> if 2 <= position < 8 then '0' <= ch <= '9' else ch in CHARS
  {
    if InClass(position, ch) {
      assert CHARS[Position(ch)] == ch;
    }
  }

  lemma CharsInOrder(i: nat)
    requires i < |CHARS|
    ensures Position(CHARS[i]) == i
  {
  }

  lemma ClassValue(position: nat, ch: char)
    requires InClass(position, ch)
    ensures Value(ch) < 31 && CHARS[Value(ch)] == ch
  {
    assert CHARS[Position(ch)] == ch;
    assert ch in CHARS[0..];
  }

  lemma SameValue(p: nat, a: char, q: nat, b: char)
    requires InClass(p, a) && InClass(q, b)
    ensures Value(a) == Value(b) <==> a == b
  {
    ClassValue(p, a);
    ClassValue(q, b);
  }

  function Multiple(k: int): int {
    31 * k
  }

  /** `n % 31 == 0`, in linear terms. */
  ghost predicate Divisible(n: int) {
    exists k: int :: n == Multiple(k)
  }

  lemma DivisibleIsMod(n: int)
    ensures Divisible(n) <==> n % 31 == 0
  {
    if n % 31 == 0 {
      assert n == Multiple(n / 31);
    }
  }

  lemma CheckDigit(total: int, check: int)
    requires 0 <= check < 31
    ensures Divisible(total + check) <==> check == CheckValue(total)
  {
    var r, q := total % 31, total / 31;
    assert total == 31 * q + r;
    if check == CheckValue(total) {
      assert total + check == Multiple(if r == 0 then q else q + 1);
    }
    if Divisible(total + check) {
      var k :| total + check == Multiple(k);
      assert r + check == 31 * (k - q);
    }
  }

  lemma ChecksumSplits(code: string)
    requires LENGTH <= |code|
    ensures Checksum(code) == Total(Values(code), Weights(), |Values(code)| - 1) + Value(code[CHECK])
  {
    var values := Values(code);
    LastWeight(values, Weights());
  }

  lemma LastWeight(values: seq<int>, weights: seq<int>)
    requires |values| == |weights| == LENGTH && weights[CHECK] == 1
    ensures Total(values, weights, |values|) == Total(values, weights, |values| - 1) + values[CHECK]
  {
    TimesIsProduct(values[CHECK], weights[CHECK]);
  }

  lemma CheckCharacter(total: int, check: nat, ch: char)
    requires check < 31 && CHARS[check] == ch
    ensures Divisible(total + check) <==> CHARS[CheckValue(total)] == ch
  {
    CheckDigit(total, check);
    if CHARS[CheckValue(total)] == ch {
      CharsInOrder(CheckValue(total));
      CharsInOrder(check);
    }
  }

  /** Validity as one congruence: the weighted sum of all eighteen is a multiple of 31. */
  lemma ValidIsCongruence(code: string) returns (sum: int)
    requires MatchesPattern(code)
    ensures sum == Checksum(code)
    ensures IsValid(code) <==> Divisible(sum)
    ensures IsValid(code) <==> Checksum(code) % 31 == 0
  {
    var values := Values(code);
    var total, check := Total(values, Weights(), |values| - 1), Value(code[CHECK]);
    ChecksumSplits(code);
    ClassValue(CHECK, code[CHECK]);
    CheckCharacter(total, check, code[CHECK]);
    sum := total + check;
    DivisibleIsMod(sum);
  }

  /** Given one valid code, another is valid just when their sums differ by a multiple of 31. */
  lemma ValidTogether(c: string, d: string, delta: int)
    requires IsValid(c) && MatchesPattern(d) && delta == Checksum(d) - Checksum(c)
    ensures IsValid(d) <==> Divisible(delta)
  {
    var x := ValidIsCongruence(c);
    var y := ValidIsCongruence(d);
    Multiples(x, y);
  }

  // ------------------------------------------------------- arithmetic mod 31

  /** 31 is prime: every residue but 0 has an inverse. */
  function Inverse(w: int): int
    decreases w > 15
  {
    if w <= 15 then
      (match w case 1 => 1 case 2 => 16 case 3 => 21 case 4 => 8 case 5 => 25 case 6 => 26 case 7 => 9
               case 8 => 4 case 9 => 7 case 10 => 28 case 11 => 17 case 12 => 13 case 13 => 12 case 14 => 20
               case _ => 29)
    else if w <= 30 then 31 - Inverse(31 - w)
    else 0
  }

  lemma SmallInverse(w: int)
    requires 0 < w <= 15
    ensures w * Inverse(w) % 31 == 1
  {
    assert w == 1 || w == 2 || w == 3 || w == 4 || w == 5 || w == 6 || w == 7 || w == 8 || w == 9 || w == 10
           || w == 11 || w == 12 || w == 13 || w == 14 || w == 15;
  }

  lemma InverseWorks(w: int)
    requires 0 < w < 31
    ensures w * Inverse(w) % 31 == 1
    decreases w > 15
  {
    if w <= 15 {
      SmallInverse(w);
    } else {
      var u := 31 - w;
      InverseWorks(u);
      var v := Inverse(u);
      assert w * (31 - v) == 31 * (31 - u - v) + u * v;
    }
  }

  lemma NoZeroDivisors(d: int, w: int)
    requires 0 < d < 31 && 0 < w < 31
    ensures !Divisible(d * w)
  {
    InverseWorks(w);
    if Divisible(d * w) {
      var q :| d * w == Multiple(q);
      Regroup(d, w, Inverse(w), q, w * Inverse(w) / 31);
    }
  }

  lemma Regroup(d: int, w: int, v: int, q: int, p: int)
    requires d * w == 31 * q && w * v == 31 * p + 1
    ensures d % 31 == 0
  {
    assert d * (31 * p + 1) == 31 * (d * p) + d;
    assert d * (w * v) == (d * w) * v;
    assert (31 * q) * v == 31 * (q * v);
    assert d == 31 * (q * v - d * p);
  }

  /** The exponent of a power of 3: 3 generates the residues, so no two weights coincide. */
  function Exponent(w: nat): nat {
    match w
    case 1 => 0 case 3 => 1 case 9 => 2 case 27 => 3 case 19 => 4 case 26 => 5 case 16 => 6 case 17 => 7 case 20 => 8
    case 29 => 9 case 25 => 10 case 13 => 11 case 8 => 12 case 24 => 13 case 10 => 14 case 30 => 15 case 28 => 16
    case _ => 30
  }

  lemma PowersOf3(i: nat)
    requires i < CHECK
    ensures 0 < Power3(i) < 31 && Exponent(Power3(i)) == i
  {
    if i < 9 {
      LowPowers();
    } else {
      HighPowers();
    }
  }

  lemma LowPowers()
    ensures Power3(0) == 1 && Power3(1) == 3 && Power3(2) == 9 && Power3(3) == 27 && Power3(4) == 19
    ensures Power3(5) == 26 && Power3(6) == 16 && Power3(7) == 17 && Power3(8) == 20
  {
  }

  lemma HighPowers()
    ensures Power3(9) == 29 && Power3(10) == 25 && Power3(11) == 13 && Power3(12) == 8
    ensures Power3(13) == 24 && Power3(14) == 10 && Power3(15) == 30 && Power3(16) == 28
  {
    LowPowers();
  }

  /** The weights are residues other than 0, and only the first and the check position share one. */
  lemma WeightsDiffer(i: nat, j: nat)
    requires i < j < LENGTH
    ensures 0 < Weight(i) < 31 && 0 < Weight(j) < 31
    ensures Weight(i) == Weight(j) <==> i == 0 && j == CHECK
  {
    PowersOf3(i);
    if j < CHECK {
      PowersOf3(j);
    }
  }

  lemma Multiples(x: int, y: int)
    requires Divisible(x)
    ensures Divisible(y) <==> Divisible(y - x)
  {
    var k :| x == Multiple(k);
    if Divisible(y) {
      var l :| y == Multiple(l);
      assert y - x == Multiple(l - k);
    }
    if Divisible(y - x) {
      var l :| y - x == Multiple(l);
      assert y == Multiple(l + k);
    }
  }

  // ---------------------------------------------------------- what it detects

  /** How the sum moves when only positions `i` and `j` change. */
  lemma {:induction false} TwoChanges(x: seq<int>, y: seq<int>, w: seq<int>, i: nat, j: nat, n: nat)
    requires i < j < |w| && n <= |w| && |x| == |y| == |w|
    requires forall k | 0 <= k < |w| && k != i && k != j :: x[k] == y[k]
    ensures Total(y, w, n) - Total(x, w, n) ==
            (if n <= i then 0 else Times(y[i], w[i]) - Times(x[i], w[i])) +
            (if n <= j then 0 else Times(y[j], w[j]) - Times(x[j], w[j]))
  {
    if n > 0 {
      TwoChanges(x, y, w, i, j, n - 1);
    }
  }

  lemma {:induction false} TimesIsProduct(v: int, w: int)
    ensures Times(v, w) == v * w
    decreases if v < 0 then -v else v
  {
    if v > 0 {
      TimesIsProduct(v - 1, w);
    } else if v < 0 {
      TimesIsProduct(v + 1, w);
    }
  }

  lemma UnequalProduct(d: int, w: int)
    requires -31 < d < 31 && d != 0 && -31 < w < 31 && w != 0
    ensures !Divisible(d * w)
  {
    var a, b := if d > 0 then d else -d, if w > 0 then w else -w;
    NoZeroDivisors(a, b);
    assert d * w == a * b || d * w == -(a * b);
    Negation(a * b);
  }

  /** A value replaced by another moves its term off the multiples of 31. */
  lemma TermMoves(x: int, y: int, w: int) returns (delta: int)
    requires 0 <= x < 31 && 0 <= y < 31 && x != y && 0 < w < 31
    ensures delta == Times(y, w) - Times(x, w) && !Divisible(delta)
  {
    TimesIsProduct(x, w);
    TimesIsProduct(y, w);
    UnequalProduct(y - x, w);
    delta := (y - x) * w;
    assert y * w - x * w == delta;
  }

  /** So does trading the places of two values, unless the places weigh the same. */
  lemma TermsTraded(x: int, y: int, v: int, w: int) returns (delta: int)
    requires 0 <= x < 31 && 0 <= y < 31 && 0 < v < 31 && 0 < w < 31
    ensures delta == Times(y, v) - Times(x, v) + (Times(x, w) - Times(y, w))
    ensures Divisible(delta) <==> x == y || v == w
  {
    delta := (y - x) * (v - w);
    TimesIsProduct(x, v);
    TimesIsProduct(y, v);
    TimesIsProduct(x, w);
    TimesIsProduct(y, w);
    assert y * v - x * v + (x * w - y * w) == delta;
    if x != y && v != w {
      UnequalProduct(y - x, v - w);
    } else {
      assert delta == Multiple(0);
    }
  }

  lemma Negation(p: int)
    ensures Divisible(-p) ==> Divisible(p)
  {
    if Divisible(-p) {
      var k :| -p == Multiple(k);
      assert p == Multiple(-k);
    }
  }

  /** One changed value moves the sum off the multiples of 31. */
  lemma OneError(x: seq<int>, y: seq<int>, w: seq<int>, i: nat) returns (delta: int)
    requires |x| == |y| == |w| >= 2 && i < |w| && 0 < w[i] < 31
    requires 0 <= x[i] < 31 && 0 <= y[i] < 31 && x[i] != y[i]
    requires forall k | 0 <= k < |w| && k != i :: x[k] == y[k]
    ensures delta == Total(y, w, |y|) - Total(x, w, |x|) && !Divisible(delta)
  {
    if i == 0 {
      TwoChanges(x, y, w, 0, 1, |x|);
    } else {
      TwoChanges(x, y, w, 0, i, |x|);
    }
    delta := TermMoves(x[i], y[i], w[i]);
  }

  lemma OneWrongCharacter(c: string, d: string, i: nat) returns (delta: int)
    requires MatchesPattern(c) && MatchesPattern(d) && i < LENGTH && c[i] != d[i]
    requires forall j | 0 <= j < LENGTH && j != i :: c[j] == d[j]
    ensures delta == Checksum(d) - Checksum(c) && !Divisible(delta)
  {
    var x, y, w := Values(c), Values(d), Weights();
    assert 0 <= x[i] < 31 && 0 <= y[i] < 31 && x[i] != y[i] by {
      ClassValue(i, c[i]);
      ClassValue(i, d[i]);
    }
    assert 0 < w[i] < 31 by {
      WeightInRange(i);
    }
    delta := OneError(x, y, w, i);
  }

  /** No single wrong character goes unnoticed: valid codes differ in two places or in none. */
  lemma TwoValidCodesDifferTwice(c: string, d: string, i: nat)
    requires IsValid(c) && IsValid(d)
    requires i < LENGTH && c[i] != d[i]
    ensures exists j | 0 <= j < LENGTH && j != i :: c[j] != d[j]
  {
    if forall j | 0 <= j < LENGTH && j != i :: c[j] == d[j] {
      var delta := OneWrongCharacter(c, d, i);
      ValidTogether(c, d, delta);
    }
  }

  lemma WeightInRange(i: nat)
    requires i < LENGTH
    ensures 0 < Weight(i) < 31
  {
    if i < CHECK {
      PowersOf3(i);
    }
  }

  function Swap(code: string, i: nat, j: nat): (r: string)
    requires i < j < |code|
    ensures |r| == |code| && r[i] == code[j] && r[j] == code[i]
    ensures forall k | 0 <= k < |code| && k != i && k != j :: r[k] == code[k]
  {
    code[i := code[j]][j := code[i]]
  }

  /** A swap goes unnoticed just when it changes nothing or trades the two positions of weight 1. */
  lemma SwapDetected(code: string, i: nat, j: nat)
    requires IsValid(code) && i < j < LENGTH
    ensures IsValid(Swap(code, i, j)) <==> code[i] == code[j] || (i == 0 && j == CHECK)
  {
    if i == 0 && j == CHECK {
      SwapKeepsPattern(code);
    }
    if code[i] == code[j] {
      assert Swap(code, i, j) == code;
    }
    if MatchesPattern(Swap(code, i, j)) {
      SwapSum(code, i, j);
      WeightsDiffer(i, j);
      SameValue(i, code[i], j, code[j]);
    }
  }

  lemma SwapSum(code: string, i: nat, j: nat)
    requires IsValid(code) && i < j < LENGTH && MatchesPattern(Swap(code, i, j))
    ensures IsValid(Swap(code, i, j)) <==> Value(code[i]) == Value(code[j]) || Weight(i) == Weight(j)
  {
    var delta := SwapMoves(code, i, j);
    ValidTogether(code, Swap(code, i, j), delta);
  }

  lemma SwapMoves(code: string, i: nat, j: nat) returns (delta: int)
    requires MatchesPattern(code) && i < j < LENGTH
    ensures delta == Checksum(Swap(code, i, j)) - Checksum(code)
    ensures Divisible(delta) <==> Value(code[i]) == Value(code[j]) || Weight(i) == Weight(j)
  {
    var x, y, w := Values(code), Values(Swap(code, i, j)), Weights();
    TwoChanges(x, y, w, i, j, |x|);
    assert x[i] < 31 && x[j] < 31 by {
      ClassValue(i, code[i]);
      ClassValue(j, code[j]);
    }
    assert 0 < w[i] < 31 && 0 < w[j] < 31 by {
      WeightsDiffer(i, j);
    }
    delta := TermsTraded(x[i], x[j], w[i], w[j]);
  }

  /** The first and the check position admit the same characters. */
  lemma SwapKeepsPattern(code: string)
    requires MatchesPattern(code)
    ensures MatchesPattern(Swap(code, 0, CHECK))
  {
    var swapped := Swap(code, 0, CHECK);
    assert swapped[LENGTH..] == code[LENGTH..];
  }

  /** What a caller that does not strip its input must know: one trailing newline is let through. */
  lemma TrailingNewline(code: string)
    ensures IsValid(code) <==>
            LENGTH <= |code| && IsValid(code[..LENGTH]) && (|code| == LENGTH || code[LENGTH..] == "\n")
  {
    if LENGTH <= |code| && (|code| == LENGTH || code[LENGTH..] == "\n") {
      var core := code[..LENGTH];
      assert MatchesPattern(core) <==> MatchesPattern(code) by {
        assert forall i | 0 <= i < LENGTH :: core[i] == code[i];
      }
      assert Values(core) == Values(code);
    }
  }

  // ------------------------------------------------------------- a code in use

  /** One more place of the weighted sum. */
  lemma Weighs(code: string, n: nat, v: nat, w: int)
    requires |code| == LENGTH && n < CHECK && InClass(n, code[n]) && v < |CHARS| && CHARS[v] == code[n] && Power3(n) == w
    ensures Total(Values(code), Weights(), n + 1) == Total(Values(code), Weights(), n) + v * w
  {
    ClassValue(n, code[n]);
    CharsInOrder(v);
    CharsInOrder(Value(code[n]));
    TimesIsProduct(v, w);
  }

  predicate BeginsAsKnown(code: string) {
    |code| == LENGTH && code[..CHECK] == "91330100799655058"
  }

  lemma KnownHalf(code: string)
    requires BeginsAsKnown(code)
    ensures Total(Values(code), Weights(), 9) == 286
  {
    hide Total, Values, Weights, Value, Power3;
    LowPowers();
    assert forall i | 0 <= i < CHECK :: code[i] == "91330100799655058"[i];
    NothingWeighed(code);
    Weighs(code, 0, 9, 1);
    Weighs(code, 1, 1, 3);
    Weighs(code, 2, 3, 9);
    Weighs(code, 3, 3, 27);
    Weighs(code, 4, 0, 19);
    Weighs(code, 5, 1, 26);
    Weighs(code, 6, 0, 16);
    Weighs(code, 7, 0, 17);
    Weighs(code, 8, 7, 20);
  }

  lemma KnownSum(code: string)
    requires BeginsAsKnown(code)
    ensures Total(Values(code), Weights(), CHECK) == 1384
  {
    hide Total, Values, Weights, Value, Power3;
    KnownHalf(code);
    HighPowers();
    assert forall i | 0 <= i < CHECK :: code[i] == "91330100799655058"[i];
    Weighs(code, 9, 9, 29);
    Weighs(code, 10, 9, 25);
    Weighs(code, 11, 6, 13);
    Weighs(code, 12, 5, 8);
    Weighs(code, 13, 5, 24);
    Weighs(code, 14, 0, 10);
    Weighs(code, 15, 5, 30);
    Weighs(code, 16, 8, 28);
  }

  lemma NothingWeighed(code: string)
    requires |code| == LENGTH
    ensures Total(Values(code), Weights(), 0) == 0
  {
  }

  /** Of the codes that begin like 91330100799655058B, which is in use, only that one is valid. */
  lemma KnownCode(code: string)
    requires |code| == LENGTH && BeginsAsKnown(code)
    ensures IsValid(code) <==> code[CHECK] == 'B'
  {
    hide IsValid, MatchesPattern, BeginsAsKnown, CheckCharOf;
    KnownSum(code);
    KnownPattern(code);
    ByItsSum(code, 1384);
    KnownCheck();
  }

  function CheckCharOf(total: int): char {
    CHARS[CheckValue(total)]
  }

  lemma KnownCheck()
    ensures CheckCharOf(1384) == 'B'
  {
  }

  lemma ByItsSum(code: string, total: int)
    requires |code| == LENGTH && Total(Values(code), Weights(), CHECK) == total
    ensures IsValid(code) <==> MatchesPattern(code) && CheckCharOf(total) == code[CHECK]
  {
    hide Total, MatchesPattern;
  }

  lemma KnownPattern(code: string)
    requires |code| == LENGTH && BeginsAsKnown(code)
    ensures code[CHECK] == 'B' ==> MatchesPattern(code)
  {
    assert forall i | 0 <= i < CHECK :: code[i] == code[..CHECK][i] && '0' <= code[i] <= '9';
  }
}
