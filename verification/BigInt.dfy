/** Decimal big integers kept as digit strings: schoolbook addition and subtraction. */
module BigInts {

  predicate IsDigit(c: char) {
    '0' <= c <= '9'
  }

  predicate AllDigits(s: string) {
    forall i :: 0 <= i < |s| ==> IsDigit(s[i])
  }

  function DigitOf(c: char): int {
    c as int - '0' as int
  }

  function CharOf(d: int): (c: char)
    requires 0 <= d < 10
    ensures IsDigit(c) && DigitOf(c) == d
  {
    (d + '0' as int) as char
  }

  /** The number a digit string denotes. */
  function Value(s: string): int {
    if s == [] then 0 else 10 * Value(s[..|s| - 1]) + DigitOf(s[|s| - 1])
  }

  /** No leading zero, except in "0" itself. */
  predicate Canonical(s: string) {
    s != [] && AllDigits(s) && (|s| > 1 ==> s[0] != '0')
  }

  /** The decimal digits of a number (of zero, for a negative one). */
  function Digits(n: int): (s: string)
    ensures s != [] && AllDigits(s)
    decreases if n < 0 then 0 else n
  {
    if n < 10 then [CharOf(if n < 0 then 0 else n)] else Digits(n / 10) + [CharOf(n % 10)]
  }

  /** n times the k-th power of ten. */
  function Scale(n: int, k: nat): int {
    if k == 0 then n else 10 * Scale(n, k - 1)
  }

  lemma {:induction false} ScaleAdds(m: int, n: int, k: nat)
    ensures Scale(m + n, k) == Scale(m, k) + Scale(n, k)
    decreases k
  {
    if k > 0 {
      ScaleAdds(m, n, k - 1);
    }
  }

  lemma {:induction false} ScaleGrows(m: int, n: int, k: nat)
    requires m <= n
    ensures Scale(m, k) <= Scale(n, k)
    decreases k
  {
    if k > 0 {
      ScaleGrows(m, n, k - 1);
    }
  }

  lemma {:induction false} ScaleTen(n: int, k: nat)
    ensures Scale(10 * n, k) == Scale(n, k + 1)
    decreases k
  {
    if k > 0 {
      ScaleTen(n, k - 1);
    }
  }

  lemma {:induction false} ScaleZero(k: nat)
    ensures Scale(0, k) == 0
    decreases k
  {
    if k > 0 {
      ScaleZero(k - 1);
    }
  }

  // ---------- digit strings and numbers ----------

  lemma {:induction false} ValuePrepend(c: char, s: string)
    ensures Value([c] + s) == Scale(DigitOf(c), |s|) + Value(s)
    decreases |s|
  {
    var t := [c] + s;
    if s == [] {
      assert t[..0] == [];
    } else {
      assert t[..|t| - 1] == [c] + s[..|s| - 1];
      ValuePrepend(c, s[..|s| - 1]);
    }
  }

  lemma ValueFirst(s: string)
    requires s != []
    ensures Value(s) == Scale(DigitOf(s[0]), |s| - 1) + Value(s[1..])
  {
    ValuePrepend(s[0], s[1..]);
    assert [s[0]] + s[1..] == s;
  }

  lemma {:induction false} ValueBound(s: string)
    requires AllDigits(s)
    ensures 0 <= Value(s) < Scale(1, |s|)
    decreases |s|
  {
    if s != [] {
      ValueBound(s[..|s| - 1]);
    }
  }

  /** The first digit is not zero exactly when the number needs all the places. */
  lemma LeadingDigit(s: string)
    requires s != [] && AllDigits(s)
    ensures s[0] != '0' <==> Value(s) >= Scale(1, |s| - 1)
  {
    ValueFirst(s);
    ValueBound(s[1..]);
    if s[0] == '0' {
      ScaleZero(|s| - 1);
    } else {
      ScaleGrows(1, DigitOf(s[0]), |s| - 1);
    }
  }

  lemma {:induction false} DigitsCanonical(n: nat)
    ensures Canonical(Digits(n)) && Value(Digits(n)) == n
    decreases n
  {
    var s := Digits(n);
    if n < 10 {
      assert s[..0] == [];
    } else {
      DigitsCanonical(n / 10);
      assert s[..|s| - 1] == Digits(n / 10);
      assert s[0] == Digits(n / 10)[0];
      if |Digits(n / 10)| == 1 {
        assert Digits(n / 10)[..0] == [];
      }
    }
  }

  /** A number has one canonical digit string. */
  lemma {:induction false} CanonicalUnique(s: string)
    requires Canonical(s)
    ensures s == Digits(Value(s))
    decreases |s|
  {
    var rest := s[..|s| - 1];
    if |s| == 1 {
      assert rest == [];
    } else {
      LeadingDigit(rest);
      assert rest[0] == s[0];
      CanonicalUnique(rest);
      assert s == rest + [s[|s| - 1]];
    }
  }

  // ---------- the order of the code ----------

  /** std::string's order on strings of one length. */
  predicate LexLess(s: string, t: string)
    requires |s| == |t|
  {
    s != [] && (s[0] < t[0] || (s[0] == t[0] && LexLess(s[1..], t[1..])))
  }

  /** Shorter first, then character by character. */
  predicate Before(s: string, t: string) {
    |s| < |t| || (|s| == |t| && LexLess(s, t))
  }

  lemma {:induction false} LexIsNumeric(s: string, t: string)
    requires |s| == |t| && AllDigits(s) && AllDigits(t)
    ensures LexLess(s, t) <==> Value(s) < Value(t)
    ensures s == t <==> Value(s) == Value(t)
    decreases |s|
  {
    if s != [] {
      LexIsNumeric(s[1..], t[1..]);
      ValueFirst(s);
      ValueFirst(t);
      ValueBound(s[1..]);
      ValueBound(t[1..]);
      assert s == [s[0]] + s[1..] && t == [t[0]] + t[1..];
      if DigitOf(s[0]) < DigitOf(t[0]) {
        FirstDigitDecides(DigitOf(s[0]), DigitOf(t[0]), Value(s[1..]), Value(t[1..]), |s| - 1);
      } else if DigitOf(t[0]) < DigitOf(s[0]) {
        FirstDigitDecides(DigitOf(t[0]), DigitOf(s[0]), Value(t[1..]), Value(s[1..]), |s| - 1);
      }
    }
  }

  lemma FirstDigitDecides(a: int, b: int, x: nat, y: nat, k: nat)
    requires a < b && x < Scale(1, k)
    ensures Scale(a, k) + x < Scale(b, k) + y
  {
    ScaleAdds(a, 1, k);
    ScaleGrows(a + 1, b, k);
  }

  /** On canonical strings the order of the code is the order of the numbers. */
  lemma OrderIsNumeric(s: string, t: string)
    requires Canonical(s) && Canonical(t)
    ensures Before(s, t) <==> Value(s) < Value(t)
    ensures s == t <==> Value(s) == Value(t)
  {
    if |s| == |t| {
      LexIsNumeric(s, t);
    } else if |s| < |t| {
      ShorterIsLess(s, t);
    } else {
      ShorterIsLess(t, s);
    }
  }

  lemma ShorterIsLess(s: string, t: string)
    requires Canonical(s) && Canonical(t) && |s| < |t|
    ensures Value(s) < Value(t)
  {
    ValueBound(s);
    LeadingDigit(t);
    MorePlaces(|s|, |t| - 1);
  }

  lemma {:induction false} MorePlaces(j: nat, k: nat)
    requires j <= k
    ensures 1 <= Scale(1, j) <= Scale(1, k)
    decreases k
  {
    if j < k {
      MorePlaces(j, k - 1);
    } else if j > 0 {
      MorePlaces(j - 1, j - 1);
    }
  }

  // ---------- what subtraction answers ----------

  /** The digits of a number, or nothing for zero: all zeros are stripped. */
  function DigitsOrNothing(n: int): string {
    if n <= 0 then [] else Digits(n)
  }

  /** A number of k places after a borrow from a place that is not there. */
  function Wrapped(x: int, k: nat): int {
    if x < 0 then x + Scale(1, k) else x
  }

  /** The answer of the code on any two digit strings: the digits of the later string
      minus the earlier one, wrapped around at the places of the later one, and a minus
      mark at the end when they were exchanged. */
  function Difference(a: string, b: string): string {
    if a == b then "0"
    else if Before(a, b) then DigitsOrNothing(Wrapped(Value(b) - Value(a), |b|)) + "-"
    else DigitsOrNothing(Wrapped(Value(a) - Value(b), |a|))
  }

  /** The answer hoped for. */
  function Expected(a: string, b: string): string {
    var x, y := Value(a), Value(b);
    if x == y then "0" else if x < y then Digits(y - x) + "-" else Digits(x - y)
  }

  lemma RightWhenOrdered(a: string, b: string)
    requires AllDigits(a) && AllDigits(b)
    requires a == b || (Value(a) != Value(b) && (Before(a, b) <==> Value(a) < Value(b)))
    ensures Difference(a, b) == Expected(a, b)
  {
  }

  /** Subtraction is right exactly on the pairs whose strings are ordered as their
      numbers are: with leading zeros a longer string may denote a smaller number, or
      two different strings the same one. */
  lemma RightIffOrdered(a: string, b: string)
    requires AllDigits(a) && AllDigits(b)
    ensures Difference(a, b) == Expected(a, b) <==>
            a == b || (Value(a) != Value(b) && (Before(a, b) <==> Value(a) < Value(b)))
  {
    var d, e := Difference(a, b), Expected(a, b);
    if a == b || (Value(a) != Value(b) && (Before(a, b) <==> Value(a) < Value(b))) {
      RightWhenOrdered(a, b);
    } else {
      assert Value(a) != Value(b) ==> (Value(a) < Value(b) <==> e[|e| - 1] == '-');
      assert d == [] || (Before(a, b) <==> d[|d| - 1] == '-');
    }
  }

  /** In particular on canonical strings: the canonical digits of the distance, with a
      minus mark exactly when the first number is the smaller. */
  lemma CanonicalDifference(a: string, b: string)
    requires Canonical(a) && Canonical(b)
    ensures Difference(a, b) == Expected(a, b)
  {
    OrderIsNumeric(a, b);
    RightWhenOrdered(a, b);
  }

  /** Read as numbers: a mark, and the canonical digits of the distance before it, exactly
      when the first number is the smaller; otherwise just the canonical digits. */
  lemma DifferenceMeans(a: string, b: string)
    requires Canonical(a) && Canonical(b)
    ensures var d := Difference(a, b);
      if Value(a) < Value(b) then
        && |d| > 1 && d[|d| - 1] == '-'
        && Canonical(d[..|d| - 1]) && Value(d[..|d| - 1]) == Value(b) - Value(a)
      else Canonical(d) && Value(d) == Value(a) - Value(b)
  {
    CanonicalDifference(a, b);
    var x, y := Value(a), Value(b);
    if x < y {
      DigitsCanonical(y - x);
      assert (Digits(y - x) + "-")[..|Digits(y - x)|] == Digits(y - x);
    } else {
      DigitsCanonical(x - y);
    }
  }

  lemma LeadingZerosMislead()
    ensures Difference("7", "007") == "-"
  {
    assert "7"[..0] == "" && "00"[..1] == "0" && "0"[..0] == "" && "007"[..2] == "00";
    assert Value("7") == 7 && Value("0") == 0 && Value("00") == 0 && Value("007") == 7;
  }

  /** Adding and then subtracting the same number gives back the same string. */
  lemma SubtractUndoesAdd(a: string, b: string)
    requires Canonical(a) && Canonical(b)
    ensures Difference(Digits(Value(a) + Value(b)), b) == a
  {
    ValueBound(a);
    ValueBound(b);
    var sum := Value(a) + Value(b);
    DigitsCanonical(sum);
    CanonicalDifference(Digits(sum), b);
    ExpectedOfSum(Digits(sum), b, Value(a));
    CanonicalUnique(a);
  }

  lemma ExpectedOfSum(sum: string, b: string, x: int)
    requires Value(sum) == x + Value(b) && x >= 0
    ensures Expected(sum, b) == Digits(x)
  {
  }

  // ---------- the loops ----------

  function Reversed(s: string): (r: string)
    ensures |r| == |s|
  {
    if s == [] then [] else Reversed(s[1..]) + [s[0]]
  }

  lemma {:induction false} ReversedPush(s: string, c: char)
    ensures Reversed(s + [c]) == [c] + Reversed(s)
    decreases |s|
  {
    if s == [] {
      assert Reversed([c]) == Reversed([]) + [c];
    } else {
      assert (s + [c])[1..] == s[1..] + [c];
      ReversedPush(s[1..], c);
    }
  }

  /** Appending a digit to a number written lowest digit first. */
  lemma PushDigit(r: string, d: int)
    requires 0 <= d < 10
    ensures Reversed(r + [CharOf(d)]) == [CharOf(d)] + Reversed(r)
    ensures Value(Reversed(r + [CharOf(d)])) == Value(Reversed(r)) + Scale(d, |r|)
  {
    var t := Reversed(r);
    ReversedPush(r, CharOf(d));
    ValuePrepend(CharOf(d), t);
  }

  /** What is written so far, a signed carry in the next place and what is not yet
      added make up the total. */
  ghost predicate Adds(total: int, r: string, rest: int) {
    && AllDigits(Reversed(r))
    && Value(Reversed(r)) + Scale(rest, |r|) == total
  }

  /** One step of either loop: the lowest place of what is left is written. */
  lemma PlaceWritten(total: int, r: string, rest: int, d: int, q: int)
    requires Adds(total, r, rest) && 0 <= d < 10 && rest == d + 10 * q
    ensures Adds(total, r + [CharOf(d)], q)
  {
    PushDigit(r, d);
    ScaleAdds(d, 10 * q, |r|);
    ScaleTen(q, |r|);
  }

  lemma DropLast(s: string, i: nat)
    requires i < |s|
    ensures Value(s[..i + 1]) == 10 * Value(s[..i]) + DigitOf(s[i])
  {
    assert s[..i + 1][..i] == s[..i];
  }

  function Bit(b: bool): int {
    if b then 1 else 0
  }

  /** What is left of a string whose last unread index is i. */
  function Left(s: string, i: int): int
    requires -1 <= i < |s|
  {
    Value(s[..i + 1])
  }

  lemma AddsNothing(total: int)
    ensures Adds(total, "", total)
  {
  }

  lemma NothingWritten(s: string)
    ensures Left(s, |s| - 1) == Value(s)
  {
    assert s[..|s|] == s;
  }

  method Add(lhs: string, rhs: string) returns (result: string)
    requires AllDigits(lhs) && AllDigits(rhs)
    ensures AllDigits(result) && Value(result) == Value(lhs) + Value(rhs)
    ensures Canonical(lhs) && Canonical(rhs) ==> result == Digits(Value(lhs) + Value(rhs))
  {
    var r, flag, i, j, left := AddCommon(lhs, rhs);
    ghost var total := Value(lhs) + Value(rhs);
    if i >= 0 {
      r, flag := AddRest(lhs, i, r, flag, total);
    }
    if j >= 0 {
      r, flag := AddRest(rhs, j, r, flag, total);
    }
    result := Finish(r, flag, total);
    if Canonical(lhs) && Canonical(rhs) {
      SumIsCanonical(lhs, rhs, result, flag);
      CanonicalUnique(result);
    }
  }

  /** One place both operands have. */
  method AddPlace(lhs: string, i: nat, rhs: string, j: nat, r: string, flag: bool, ghost total: int, ghost left: int)
    returns (r': string, flag': bool, ghost left': int)
    requires AllDigits(lhs) && AllDigits(rhs) && i < |lhs| && j < |rhs|
    requires left == Left(lhs, i) + Left(rhs, j) + Bit(flag) && Adds(total, r, left)
    ensures |r'| == |r| + 1
    ensures left' == Left(lhs, i - 1) + Left(rhs, j - 1) + Bit(flag') && Adds(total, r', left')
  {
    DropLast(lhs, i);
    DropLast(rhs, j);
    ghost var rest := Left(lhs, i - 1) + Left(rhs, j - 1);
    r', flag' := WritePlace(r, DigitOf(lhs[i]) + DigitOf(rhs[j]), flag, total, left, rest);
    left' := rest + Bit(flag');
  }

  /** The places both operands have. */
  method AddCommon(lhs: string, rhs: string) returns (r: string, flag: bool, i: int, j: int, ghost left: int)
    requires AllDigits(lhs) && AllDigits(rhs)
    ensures -1 <= i < |lhs| && -1 <= j < |rhs| && (i == -1 || j == -1)
    ensures |r| == |lhs| - 1 - i == |rhs| - 1 - j
    ensures left == Left(lhs, i) + Left(rhs, j) + Bit(flag) && Adds(Value(lhs) + Value(rhs), r, left)
  {
    r, flag, i, j := "", false, |lhs| - 1, |rhs| - 1;
    ghost var total := Value(lhs) + Value(rhs);
    left := total;
    NothingWritten(lhs);
    NothingWritten(rhs);
    AddsNothing(total);
    while i >= 0 && j >= 0
      invariant -1 <= i < |lhs| && -1 <= j < |rhs| && |r| == |lhs| - 1 - i == |rhs| - 1 - j
      invariant left == Left(lhs, i) + Left(rhs, j) + Bit(flag) && Adds(total, r, left)
    {
      r, flag, left := AddPlace(lhs, i, rhs, j, r, flag, total, left);
      i, j := i - 1, j - 1;
    }
  }

  /** The places only one operand has, with the carry running on. */
  method AddRest(s: string, i: int, r: string, flag: bool, ghost total: int) returns (r': string, flag': bool)
    requires AllDigits(s) && -1 <= i < |s| && Adds(total, r, Left(s, i) + Bit(flag))
    ensures |r'| == |r| + i + 1 && Adds(total, r', Bit(flag'))
  {
    r', flag' := r, flag;
    var k := i;
    while k >= 0
      invariant -1 <= k < |s| && |r'| == |r| + i - k
      invariant Adds(total, r', Left(s, k) + Bit(flag'))
    {
      DropLast(s, k);
      r', flag' := WritePlace(r', DigitOf(s[k]), flag', total, Left(s, k) + Bit(flag'), Left(s, k - 1));
      k := k - 1;
    }
  }

  /** The last carry, and the digits put in reading order. */
  method Finish(r: string, flag: bool, ghost total: int) returns (result: string)
    requires Adds(total, r, Bit(flag))
    ensures AllDigits(result) && Value(result) == total && |result| == |r| + Bit(flag)
    ensures flag ==> result[0] == '1'
  {
    ScaleZero(|r|);
    result := r;
    if flag {
      PlaceWritten(total, r, 1, 1, 0);
      ScaleZero(|r| + 1);
      assert CharOf(1) == '1';
      ReversedPush(r, '1');
      result := result + ['1'];
    }
    result := Reversed(result);
  }

  /** The carry handling shared by the three loops of the addition. */
  method WritePlace(r: string, digit: int, flag: bool, ghost total: int, ghost left: int, ghost rest: int)
    returns (r': string, flag': bool)
    requires 0 <= digit <= 18 && Adds(total, r, left) && left == 10 * rest + digit + Bit(flag)
    ensures |r'| == |r| + 1 && Adds(total, r', rest + Bit(flag'))
  {
    var ret := digit;
    flag' := false;
    if flag {
      ret := ret + 1;
    }
    if ret >= 10 {
      ret := ret % 10;
      flag' := true;
    }
    PlaceWritten(total, r, left, ret, rest + Bit(flag'));
    r' := r + [CharOf(ret)];
  }

  /** A number as long as a canonical one that is not greater is canonical too. */
  lemma NotShorter(a: string, s: string)
    requires Canonical(a) && AllDigits(s) && |s| == |a| && Value(s) >= Value(a)
    ensures Canonical(s)
  {
    LeadingDigit(a);
    LeadingDigit(s);
  }

  lemma SumIsCanonical(a: string, b: string, s: string, flag: bool)
    requires Canonical(a) && Canonical(b) && AllDigits(s) && Value(s) == Value(a) + Value(b)
    requires |s| == (if |a| > |b| then |a| else |b|) + Bit(flag)
    requires flag ==> s[0] == '1'
    ensures Canonical(s)
  {
    ValueBound(a);
    ValueBound(b);
    if flag {
    } else if |a| > |b| {
      NotShorter(a, s);
    } else {
      NotShorter(b, s);
    }
  }

  /** The borrow handling shared by the two loops of the subtraction. */
  method WriteBorrow(r: string, digit: int, flag: bool, ghost total: int, ghost left: int, ghost rest: int)
    returns (r': string, flag': bool)
    requires -9 <= digit <= 9 && Adds(total, r, left) && left == 10 * rest + digit - Bit(flag)
    ensures |r'| == |r| + 1 && Adds(total, r', rest - Bit(flag'))
  {
    var ret := digit;
    flag' := false;
    if flag {
      ret := ret - 1;
    }
    if ret < 0 {
      ret := ret + 10;
      flag' := true;
    }
    PlaceWritten(total, r, left, ret, rest - Bit(flag'));
    r' := r + [CharOf(ret)];
  }

  /** One place both operands have. */
  method BorrowPlace(hi: string, i: nat, lo: string, j: nat, r: string, flag: bool, ghost total: int, ghost left: int)
    returns (r': string, flag': bool, ghost left': int)
    requires AllDigits(hi) && AllDigits(lo) && i < |hi| && j < |lo|
    requires left == Left(hi, i) - Left(lo, j) - Bit(flag) && Adds(total, r, left)
    ensures |r'| == |r| + 1
    ensures left' == Left(hi, i - 1) - Left(lo, j - 1) - Bit(flag') && Adds(total, r', left')
  {
    DropLast(hi, i);
    DropLast(lo, j);
    ghost var rest := Left(hi, i - 1) - Left(lo, j - 1);
    r', flag' := WriteBorrow(r, DigitOf(hi[i]) - DigitOf(lo[j]), flag, total, left, rest);
    left' := rest - Bit(flag');
  }

  /** The places of hi minus those of lo, lowest first, with the last borrow. */
  method Borrowing(hi: string, lo: string) returns (r: string, flag: bool)
    requires AllDigits(hi) && AllDigits(lo) && |hi| >= |lo|
    ensures |r| == |hi| && Adds(Value(hi) - Value(lo), r, -Bit(flag))
  {
    r, flag := "", false;
    var i, j := |hi| - 1, |lo| - 1;
    ghost var total := Value(hi) - Value(lo);
    ghost var left := total;
    NothingWritten(hi);
    NothingWritten(lo);
    AddsNothing(total);
    while i >= 0 && j >= 0
      invariant -1 <= i < |hi| && -1 <= j < |lo| && |r| == |hi| - 1 - i == |lo| - 1 - j
      invariant left == Left(hi, i) - Left(lo, j) - Bit(flag) && Adds(total, r, left)
    {
      r, flag, left := BorrowPlace(hi, i, lo, j, r, flag, total, left);
      i, j := i - 1, j - 1;
    }
    r, flag := BorrowRest(hi, i, r, flag, total);
  }

  /** The places only the larger operand has, with the borrow running on. */
  method BorrowRest(s: string, i: int, r: string, flag: bool, ghost total: int) returns (r': string, flag': bool)
    requires AllDigits(s) && -1 <= i < |s| && Adds(total, r, Left(s, i) - Bit(flag))
    ensures |r'| == |r| + i + 1 && Adds(total, r', -Bit(flag'))
  {
    r', flag' := r, flag;
    var k := i;
    while k >= 0
      invariant -1 <= k < |s| && |r'| == |r| + i - k
      invariant Adds(total, r', Left(s, k) - Bit(flag'))
    {
      DropLast(s, k);
      r', flag' := WriteBorrow(r', DigitOf(s[k]), flag', total, Left(s, k) - Bit(flag'), Left(s, k - 1));
      k := k - 1;
    }
  }

  /** Without its leading zeros. */
  function Stripped(s: string): string {
    if s == [] || s[0] != '0' then s else Stripped(s[1..])
  }

  lemma {:induction false} StrippedDigits(s: string)
    requires AllDigits(s)
    ensures Stripped(s) == DigitsOrNothing(Value(s))
    decreases |s|
  {
    ValueBound(s);
    if s != [] {
      if s[0] == '0' {
        ValueFirst(s);
        ScaleZero(|s| - 1);
        StrippedDigits(s[1..]);
      } else {
        LeadingDigit(s);
        MorePlaces(0, |s| - 1);
        CanonicalUnique(s);
      }
    }
  }

  /** What is left over after the last place is the borrow that could not be repaid. */
  lemma LastBorrow(total: int, r: string, flag: bool, k: nat)
    requires Adds(total, r, -Bit(flag)) && |r| == k && -Scale(1, k) < total < Scale(1, k)
    ensures Value(Reversed(r)) == Wrapped(total, k) && (flag <==> total < 0)
  {
    ValueBound(Reversed(r));
    ScaleAdds(1, -1, k);
    ScaleZero(k);
  }

  /** Subtraction of any two digit strings. On canonical ones the answer is the expected
      one: the canonical digits of the distance, marked when negative, and no borrow is
      left over. */
  method Subtract(lhs: string, rhs: string) returns (result: string)
    requires AllDigits(lhs) && AllDigits(rhs)
    ensures result == Difference(lhs, rhs)
    ensures Canonical(lhs) && Canonical(rhs) ==> result == Expected(lhs, rhs)
  {
    if Canonical(lhs) && Canonical(rhs) {
      CanonicalDifference(lhs, rhs);
    }
    var maxStr, minStr, minor := lhs, rhs, false;
    if |maxStr| < |minStr| {
      maxStr, minStr, minor := rhs, lhs, true;
    } else if |maxStr| == |minStr| {
      LexIsNumeric(lhs, rhs);
      if LexLess(maxStr, minStr) {
        maxStr, minStr, minor := rhs, lhs, true;
      } else if maxStr == minStr {
        return "0";
      }
    }
    result := Magnitude(maxStr, minStr);
    if minor {
      result := result + "-";
    }
  }

  method Magnitude(hi: string, lo: string) returns (digits: string)
    requires AllDigits(hi) && AllDigits(lo) && |hi| >= |lo|
    ensures digits == DigitsOrNothing(Wrapped(Value(hi) - Value(lo), |hi|))
  {
    var r, flag := Borrowing(hi, lo);
    ValueBound(hi);
    ValueBound(lo);
    MorePlaces(|lo|, |hi|);
    LastBorrow(Value(hi) - Value(lo), r, flag, |hi|);
    var s := Reversed(r);
    StrippedDigits(s);
    var k := 0;
    while k < |s| && s[k] == '0'
      invariant k <= |s| && Stripped(s) == Stripped(s[k..])
    {
      assert s[k..][1..] == s[k + 1..];
      k := k + 1;
    }
    digits := s[k..];
  }
}
