/** Amounts as text: printing with a fixed number of decimals, and reading back. */
module AmountText {
  import opened Arithmetic
  import opened Options

  const MAX_SHARE_SUPPLY: int := 100_000_000_000_000_000
  const MAX_INT64: int := 0x7fff_ffff_ffff_ffff

  // ---- Digits ----

  predicate IsDigit(c: char) {
    '0' <= c <= '9'
  }

  predicate AllDigits(s: string) {
    forall i :: 0 <= i < |s| ==> IsDigit(s[i])
  }

  function DigitChar(d: nat): (c: char)
    requires d < 10
    ensures IsDigit(c) && c as int - '0' as int == d
  {
    ('0' as int + d) as char
  }

  /** The decimal digits of a number. */
  function Digits(n: nat): (s: string)
    ensures s != [] && AllDigits(s)
  {
    if n < 10 then [DigitChar(n)] else Digits(n / 10) + [DigitChar(n % 10)]
  }

  /** The number a string of digits stands for. */
  function Value(s: string): nat
    requires AllDigits(s)
  {
    if s == [] then 0 else Value(s[..|s| - 1]) * 10 + (s[|s| - 1] as int - '0' as int)
  }

  lemma {:induction false} ValueOfDigits(n: nat)
    ensures Value(Digits(n)) == n
  {
    if n < 10 {
    } else {
      ValueOfDigits(n / 10);
      assert Digits(n)[..|Digits(n)| - 1] == Digits(n / 10);
    }
  }

  function Pow10(p: nat): (r: nat)
    ensures r >= 1
  {
    if p == 0 then 1 else 10 * Pow10(p - 1)
  }

  lemma {:induction false} ValueBound(s: string)
    requires AllDigits(s)
    ensures Value(s) < Pow10(|s|)
  {
    if s == [] {
    } else {
      ValueBound(s[..|s| - 1]);
    }
  }

  lemma {:induction false} ValueSplit(s: string, t: string)
    requires AllDigits(s) && AllDigits(t)
    ensures AllDigits(s + t) && Value(s + t) == Value(s) * Pow10(|t|) + Value(t)
  {
    if t == [] {
      assert s + t == s;
    } else {
      var u := t[..|t| - 1];
      ValueSplit(s, u);
      assert (s + t)[..|s + t| - 1] == s + u;
      assert AllDigits(s + u) && AllDigits(s + t);
      OneMoreDigit(Value(s), Pow10(|u|), Value(u), t[|t| - 1] as int - '0' as int);
    }
  }

  lemma OneMoreDigit(v: int, p: int, w: int, d: int)
    ensures (v * p + w) * 10 + d == v * (10 * p) + (w * 10 + d)
  {
  }

  lemma {:induction false} DigitCount(n: nat, k: nat)
    requires n < Pow10(k + 1) && (k > 0 ==> Pow10(k) <= n)
    ensures |Digits(n)| == k + 1
  {
    if k == 0 {
    } else {
      assert Pow10(k + 1) == 10 * Pow10(k) && Pow10(k) == 10 * Pow10(k - 1);
      assert n >= 10;
      DigitCount(n / 10, k - 1);
    }
  }

  // ---- Printing ----

  /** Division as the machine does it, towards zero. */
  function TruncDiv(a: int, b: nat): int
    requires b > 0
  {
    if a >= 0 then a / b else -(-a / b)
  }

  function TruncMod(a: int, b: nat): int
    requires b > 0
  {
    a - TruncDiv(a, b) * b
  }

  function ToString(n: int): (s: string)
    ensures s != []
  {
    if n >= 0 then Digits(n) else "-" + Digits(-n)
  }

  /** The printed amount; the decimals are padded by way of a leading one. */
  function Printed(amount: int, precision: nat): string {
    var scale := Pow10(precision);
    var decimals := TruncMod(amount, scale);
    var whole := ToString(TruncDiv(amount, scale));
    if decimals == 0 then whole else whole + "." + ToString(scale + decimals)[1..]
  }

  method AmountToString(amount: int, precision: nat) returns (result: string)
    ensures result == Printed(amount, precision)
  {
    var scaledPrecision := 1;
    var i := 0;
    while i < precision
      invariant 0 <= i <= precision && scaledPrecision == Pow10(i)
    {
      scaledPrecision := scaledPrecision * 10;
      i := i + 1;
    }
    result := ToString(TruncDiv(amount, scaledPrecision));
    var decimals := TruncMod(amount, scaledPrecision);
    if decimals != 0 {
      var text := ToString(scaledPrecision + decimals);
      result := result + "." + text[1..];
    }
  }

  // ---- Reading ----

  /** Where `c` first is; the length when it is not there. */
  function Find(s: string, c: char): (i: nat)
    ensures i <= |s| && (i < |s| ==> s[i] == c)
    ensures forall j :: 0 <= j < i ==> s[j] != c
  {
    if s == [] || s[0] == c then 0 else Find(s[1..], c) + 1
  }

  /** The length up to the last character that is not a zero. */
  function Kept(s: string): (n: nat)
    ensures n <= |s| && (n > 0 ==> s[n - 1] != '0')
    ensures forall j :: n <= j < |s| ==> s[j] == '0'
  {
    if s == [] then 0 else if s[|s| - 1] != '0' then |s| else Kept(s[..|s| - 1])
  }

  /** Without the zeros that end the decimals, and without a point that then ends the text. */
  function WithoutTrailingZeros(s: string): string {
    var point := Find(s, '.');
    if point == |s| then s
    else
      PointKept(s, point);
      if Kept(s) == point + 1 then s[..point] else s[..Kept(s)]
  }

  lemma PointKept(s: string, point: nat)
    requires point < |s| && s[point] != '0'
    ensures Kept(s) > point
  {
  }

  function Count(s: string, c: char): nat {
    if s == [] then 0 else Count(s[..|s| - 1], c) + if s[|s| - 1] == c then 1 else 0
  }

  /** Digits, with at most one sign and at most one point among them. */
  predicate Readable(s: string) {
    && Count(s, '-') <= 1 && Count(s, '.') <= 1
    && forall i :: 0 <= i < |s| ==> IsDigit(s[i]) || s[i] == '-' || s[i] == '.'
  }

  function LeadingDigits(s: string): (n: nat)
    ensures n <= |s| && AllDigits(s[..n])
    ensures n < |s| ==> !IsDigit(s[n])
  {
    if s == [] || !IsDigit(s[0]) then 0 else LeadingDigits(s[1..]) + 1
  }

  /** Reads a sign and the digits after it, up to the first other character; fails without digits or beyond 64 bits. */
  function Stoll(s: string): Option<int> {
    var negative := s != [] && s[0] == '-';
    var body := if negative then s[1..] else s;
    var n := LeadingDigits(body);
    if n == 0 then None
    else
      var v: int := if negative then 0 - Value(body[..n]) else Value(body[..n]);
      if -MAX_INT64 - 1 <= v <= MAX_INT64 then Some(v) else None
  }

  function Substr(s: string, from: nat, count: nat): string
    requires from <= |s|
  {
    if from + count <= |s| then s[from..from + count] else s[from..]
  }

  function Padded(s: string, n: nat): string
    decreases n - |s|
  {
    if |s| >= n then s else Padded(s + "0", n)
  }

  /** A number with `places` more decimal places. */
  function Shift(v: int, places: nat): (r: int)
    ensures v >= 0 ==> r >= v
  {
    if places == 0 then v else 10 * Shift(v, places - 1)
  }

  /** Which is the number times the scale. */
  lemma {:induction false} ShiftIsProduct(v: int, places: nat)
    ensures Shift(v, places) == v * Pow10(places)
  {
    if places == 0 {
    } else {
      ShiftIsProduct(v, places - 1);
    }
  }

  /** The whole part, scaled; nothing counts as zero. */
  function WholeValue(lhs: string, precision: nat): Option<int> {
    if lhs == [] then Some(0)
    else
      var v := Stoll(lhs);
      if v.None? then None
      else if -MAX_INT64 - 1 <= Shift(v.value, precision) <= MAX_INT64 then Some(Shift(v.value, precision))
      else None
  }

  /** The decimals, filled up with zeros; none count as zero. */
  function DecimalValue(rhs: string, precision: nat): Option<int> {
    var filled := Padded(rhs, precision);
    if filled == [] then Some(0) else Stoll(filled)
  }

  /** The amount a text stands for; nothing when the text or the precision is refused. */
  function Parsed(text: string, precision: nat): Option<int> {
    ParsedTrimmed(WithoutTrailingZeros(text), precision)
  }

  function ParsedTrimmed(s: string, precision: nat): Option<int> {
    if !Readable(s) || precision >= 19 then None
    else
      var whole, decimals := WholeValue(WholePart(s), precision), DecimalsIn(s, precision);
      Assembled(Negative(s), whole, decimals)
  }

  function Negative(s: string): (negative: bool)
    ensures negative ==> s != []
  {
    Count(s, '-') == 1
  }

  /** From behind the sign, as many characters as stand before the point. */
  function WholePart(s: string): string {
    Substr(s, if Negative(s) then 1 else 0, Find(s, '.'))
  }

  function DecimalsIn(s: string, precision: nat): Option<int> {
    var point := Find(s, '.');
    if point < |s| then DecimalValue(Substr(s, point + 1, precision), precision) else Some(0)
  }

  function Assembled(negative: bool, whole: Option<int>, decimals: Option<int>): Option<int> {
    if whole.None? || decimals.None? || whole.value + decimals.value > MAX_SHARE_SUPPLY then None
    else Some(if negative then -(whole.value + decimals.value) else whole.value + decimals.value)
  }

  lemma {:induction false} CountPositive(s: string, c: char)
    ensures Count(s, c) > 0 <==> c in s
  {
    if s == [] {
    } else {
      CountPositive(s[..|s| - 1], c);
      assert s == s[..|s| - 1] + [s[|s| - 1]];
    }
  }

  /** The check of the characters, one by one. */
  method CheckCharacters(s: string) returns (ok: bool, negativeFound: bool, decimalFound: bool)
    ensures ok == Readable(s)
    ensures ok ==> negativeFound == (Count(s, '-') == 1) && decimalFound == (Find(s, '.') < |s|)
  {
    negativeFound, decimalFound := false, false;
    var i := 0;
    while i < |s|
      invariant 0 <= i <= |s| && Readable(s[..i])
      invariant Count(s[..i], '-') == if negativeFound then 1 else 0
      invariant Count(s[..i], '.') == if decimalFound then 1 else 0
    {
      var c := s[i];
      assert s[..i + 1][..i] == s[..i];
      if IsDigit(c) {
      } else if c == '-' && !negativeFound {
        negativeFound := true;
      } else if c == '.' && !decimalFound {
        decimalFound := true;
      } else {
        NotReadable(s, i);
        return false, false, false;
      }
      i := i + 1;
    }
    assert s[..i] == s;
    CountPositive(s, '.');
    return true, negativeFound, decimalFound;
  }

  lemma NotReadable(s: string, i: nat)
    requires i < |s| && !Readable(s[..i + 1])
    ensures !Readable(s)
  {
    CountPrefix(s, i + 1, '-');
    CountPrefix(s, i + 1, '.');
    assert forall j :: 0 <= j < i + 1 ==> s[..i + 1][j] == s[j];
  }

  lemma {:induction false} CountPrefix(s: string, n: nat, c: char)
    requires n <= |s|
    ensures Count(s[..n], c) <= Count(s, c)
    decreases |s|
  {
    if n < |s| {
      CountPrefix(s[..|s| - 1], n, c);
      assert s[..|s| - 1][..n] == s[..n];
    } else {
      assert s[..n] == s;
    }
  }

  method AmountFromString(text: string, precision: nat) returns (r: Option<int>)
    ensures r == Parsed(text, precision)
  {
    var s := WithoutTrailingZeros(text);
    var ok, negativeFound, decimalFound := CheckCharacters(s);
    if !ok || precision >= 19 {
      return None;
    }
    r := SumParts(s, negativeFound, decimalFound, precision);
  }

  /** The whole part and the decimals, each read if it is there, and the sign last. */
  method SumParts(s: string, negativeFound: bool, decimalFound: bool, precision: nat) returns (r: Option<int>)
    requires Readable(s) && precision < 19
    requires negativeFound == Negative(s) && decimalFound == (Find(s, '.') < |s|)
    ensures r == ParsedTrimmed(s, precision)
  {
    var decimalPos := Find(s, '.');
    var lhs := Substr(s, if negativeFound then 1 else 0, decimalPos);
    var rhs := if decimalFound then Substr(s, decimalPos + 1, precision) else "";
    r := Assemble(lhs, decimalFound, rhs, negativeFound, precision);
  }

  method Assemble(lhs: string, decimalFound: bool, rhs: string, negativeFound: bool, precision: nat) returns (r: Option<int>)
    requires |rhs| <= precision
    ensures r == Assembled(negativeFound, WholeValue(lhs, precision), if decimalFound then DecimalValue(rhs, precision) else Some(0))
  {
    var satoshis := 0;
    var whole := WholeValue(lhs, precision);
    if whole.None? {
      return None;
    }
    satoshis := satoshis + whole.value;
    if decimalFound {
      var decimals := ReadDecimals(rhs, precision);
      if decimals.None? {
        return None;
      }
      satoshis := satoshis + decimals.value;
    }
    if satoshis > MAX_SHARE_SUPPLY {
      return None;
    }
    if negativeFound {
      satoshis := satoshis * -1;
    }
    return Some(satoshis);
  }

  /** The loop that fills up the decimals: as many as the scale has digits after its first. */
  method ReadDecimals(digits: string, precision: nat) returns (r: Option<int>)
    requires |digits| <= precision
    ensures r == DecimalValue(digits, precision)
  {
    ScaleDigits(precision);
    var maxRhsSize := |ToString(Pow10(precision))[1..]|;
    var rhs := digits;
    while |rhs| < maxRhsSize
      invariant Padded(rhs, precision) == Padded(digits, precision)
      decreases maxRhsSize - |rhs|
    {
      rhs := rhs + "0";
    }
    if rhs == [] {
      return Some(0);
    }
    r := Stoll(rhs);
  }

  lemma ScaleDigits(precision: nat)
    ensures |ToString(Pow10(precision))| == precision + 1
  {
    DigitCount(Pow10(precision), precision);
  }

  // ---- Reading what was printed ----

  lemma {:induction false} LeadingBefore(s: string, t: string)
    requires AllDigits(s) && (t == [] || !IsDigit(t[0]))
    ensures LeadingDigits(s + t) == |s|
  {
    if s == [] {
      assert s + t == t;
    } else {
      assert (s + t)[1..] == s[1..] + t;
      LeadingBefore(s[1..], t);
    }
  }

  lemma {:induction false} DigitsNotCounted(s: string, c: char)
    requires AllDigits(s) && !IsDigit(c)
    ensures Count(s, c) == 0
  {
    if s == [] {
    } else {
      DigitsNotCounted(s[..|s| - 1], c);
    }
  }

  lemma {:induction false} CountJoin(s: string, t: string, c: char)
    ensures Count(s + t, c) == Count(s, c) + Count(t, c)
  {
    if t == [] {
      assert s + t == s;
    } else {
      assert (s + t)[..|s + t| - 1] == s + t[..|t| - 1];
      CountJoin(s, t[..|t| - 1], c);
    }
  }

  /** The printed whole part: digits, with a sign or without. */
  ghost predicate Signed(sign: string, whole: string) {
    (sign == "" || sign == "-") && AllDigits(whole) && whole != []
  }

  lemma CountSigned(sign: string, whole: string, c: char)
    requires Signed(sign, whole) && !IsDigit(c)
    ensures Count(sign + whole, c) == if sign == "-" && c == '-' then 1 else 0
  {
    DigitsNotCounted(whole, c);
    CountJoin(sign, whole, c);
    assert "-"[..0] == "";
  }

  /** A signed whole part passes the check of the characters. */
  lemma WholeReadable(sign: string, whole: string)
    requires Signed(sign, whole)
    ensures Readable(sign + whole) && Negative(sign + whole) == (sign == "-") && Find(sign + whole, '.') == |sign + whole|
  {
    CountSigned(sign, whole, '-');
    CountSigned(sign, whole, '.');
  }

  /** So does one with a point and digits behind it. */
  lemma PlainReadable(sign: string, whole: string, rest: string)
    requires Signed(sign, whole) && AllDigits(rest)
    ensures var s := sign + whole + "." + rest;
            Readable(s) && Negative(s) == (sign == "-") && Find(s, '.') == |sign + whole|
  {
    CountPlain(sign, whole, rest, '-');
    CountPlain(sign, whole, rest, '.');
    assert (sign + whole + "." + rest)[|sign + whole|] == '.';
  }

  lemma CountPlain(sign: string, whole: string, rest: string, c: char)
    requires Signed(sign, whole) && AllDigits(rest) && !IsDigit(c)
    ensures Count(sign + whole + "." + rest, c) == if c == '.' || (c == '-' && sign == "-") then 1 else 0
  {
    CountSigned(sign, whole, c);
    DigitsNotCounted(rest, c);
    CountJoin(sign + whole + ".", rest, c);
    CountJoin(sign + whole, ".", c);
    assert "."[..0] == "";
  }

  /** Cutting the zeros off the text is cutting them off the decimals, and the point when none are left. */
  lemma CutText(sign: string, whole: string, decimals: string)
    requires Signed(sign, whole) && AllDigits(decimals)
    ensures WithoutTrailingZeros(sign + whole + "." + decimals)
         == if Kept(decimals) == 0 then sign + whole else sign + whole + "." + decimals[..Kept(decimals)]
  {
    var text, n := sign + whole + "." + decimals, Kept(decimals);
    PlainReadable(sign, whole, decimals);
    KeptJoin(sign + whole + ".", decimals);
    assert text[..|sign + whole| + 1 + n] == sign + whole + "." + decimals[..n];
    assert text[..|sign + whole|] == sign + whole;
    CutAt(text, |sign + whole|, n);
  }

  lemma CutAt(text: string, point: nat, n: nat)
    requires Find(text, '.') == point && point + 1 + n <= |text| && Kept(text) == point + 1 + n
    ensures WithoutTrailingZeros(text) == if n == 0 then text[..point] else text[..point + 1 + n]
  {
  }

  lemma {:induction false} KeptJoin(s: string, t: string)
    ensures Kept(s + t) == if Kept(t) > 0 then |s| + Kept(t) else Kept(s)
    decreases |t|
  {
    if t == [] {
      assert s + t == s;
    } else if t[|t| - 1] == '0' {
      assert (s + t)[..|s + t| - 1] == s + t[..|t| - 1];
      KeptJoin(s, t[..|t| - 1]);
    }
  }

  /** Filling up with zeros makes up for the zeros that were taken off. */
  lemma {:induction false} PaddedAgain(s: string, n: nat, m: nat)
    requires n <= |s| <= m && forall i :: n <= i < |s| ==> s[i] == '0'
    ensures Padded(s[..n], m) == Padded(s, m)
    decreases |s| - n
  {
    if n == |s| {
      assert s[..n] == s;
    } else {
      assert s[..n] + "0" == s[..n + 1];
      PaddedAgain(s, n + 1, m);
    }
  }

  /** Every zero filled in is a factor of ten. */
  lemma {:induction false} PaddedValue(s: string, n: nat)
    requires AllDigits(s) && |s| <= n
    ensures AllDigits(Padded(s, n)) && |Padded(s, n)| == n
    ensures Value(Padded(s, n)) == Value(s) * Pow10(n - |s|)
    decreases n - |s|
  {
    if |s| == n {
    } else {
      assert (s + "0")[..|s|] == s;
      PaddedValue(s + "0", n);
      TenTimes(Value(s), Pow10(n - |s| - 1));
    }
  }

  lemma TenTimes(a: nat, b: nat)
    ensures a * 10 * b == a * (10 * b)
  {
  }

  lemma {:induction false} PowOrder(m: nat, n: nat)
    requires m <= n
    ensures Pow10(m) <= Pow10(n)
    decreases n
  {
    if m == n {
    } else {
      PowOrder(m, n - 1);
    }
  }

  /** The largest scale is within 64 bits. */
  lemma LargestScale()
    ensures Pow10(18) <= MAX_INT64
  {
    assert Pow10(2) == 100 && Pow10(4) == 100 * Pow10(2);
    PowSum(4, 4);
    PowSum(8, 8);
    PowSum(16, 2);
  }

  lemma CutFirst(text: string, s: string, precision: nat, r: Option<int>)
    requires WithoutTrailingZeros(text) == s && ParsedTrimmed(s, precision) == r
    ensures Parsed(text, precision) == r
  {
  }

  // ---- What any plain text is read as ----

  /** As many of the decimals as the precision has room for. */
  function Used(decimals: string, precision: nat): string {
    if |decimals| > precision then decimals[..precision] else decimals
  }

  /** The number that digits, a point and digits stand for, in units of the last decimal; further decimals are dropped. */
  function Meant(whole: string, decimals: string, precision: nat): nat
    requires AllDigits(whole) && AllDigits(decimals)
  {
    var used := Used(decimals, precision);
    Shift(Value(whole), precision) + Shift(Value(used), precision - |used|)
  }

  /** An amount with its sign, unless it is too large. */
  function InRange(negative: bool, amount: nat): Option<int> {
    if amount > MAX_SHARE_SUPPLY then None else Some(if negative then 0 - amount else amount)
  }

  lemma StollExactly(s: string, t: string)
    requires s != [] && AllDigits(s) && (t == [] || !IsDigit(t[0]))
    ensures Stoll(s + t) == if Value(s) <= MAX_INT64 then Some(Value(s)) else None
  {
    LeadingBefore(s, t);
    assert (s + t)[..|s|] == s;
  }

  lemma WholeExactly(whole: string, t: string, precision: nat)
    requires whole != [] && AllDigits(whole) && (t == [] || !IsDigit(t[0]))
    ensures WholeValue(whole + t, precision)
         == if Shift(Value(whole), precision) <= MAX_INT64 then Some(Shift(Value(whole), precision)) else None
  {
    StollExactly(whole, t);
    ShiftIsProduct(Value(whole), precision);
  }

  /** Every zero filled in moves the number by a place. */
  lemma PaddedShift(s: string, n: nat)
    requires AllDigits(s) && |s| <= n
    ensures AllDigits(Padded(s, n)) && |Padded(s, n)| == n && Value(Padded(s, n)) == Shift(Value(s), n - |s|)
  {
    PaddedValue(s, n);
    ShiftIsProduct(Value(s), n - |s|);
  }

  lemma DecimalsExactly(used: string, precision: nat)
    requires AllDigits(used) && |used| <= precision <= 18
    ensures DecimalValue(used, precision) == Some(Shift(Value(used), precision - |used|))
  {
    var filled := Padded(used, precision);
    PaddedShift(used, precision);
    if filled != [] {
      FilledRead(filled);
    }
  }

  lemma FilledRead(filled: string)
    requires filled != [] && AllDigits(filled) && |filled| <= 18
    ensures Stoll(filled) == Some(Value(filled))
  {
    ValueBound(filled);
    PowOrder(|filled|, 18);
    LargestScale();
    assert filled + "" == filled;
    StollExactly(filled, "");
  }

  /** The zeros that end the decimals do not change what is used of them. */
  lemma CutUsed(decimals: string, precision: nat)
    requires AllDigits(decimals)
    ensures var kept, used := Used(decimals[..Kept(decimals)], precision), Used(decimals, precision);
            Shift(Value(kept), precision - |kept|) == Shift(Value(used), precision - |used|)
  {
    var n, used := Kept(decimals), Used(decimals, precision);
    var kept := decimals[..n];
    if n < precision {
      assert used[..n] == kept;
      ZerosCut(used, kept, precision);
    } else {
      assert used == decimals[..precision] && Used(kept, precision) == used;
    }
  }

  lemma ZerosCut(used: string, kept: string, precision: nat)
    requires AllDigits(used) && AllDigits(kept) && |kept| <= |used| <= precision && kept == used[..|kept|]
    requires forall i :: |kept| <= i < |used| ==> used[i] == '0'
    ensures Shift(Value(kept), precision - |kept|) == Shift(Value(used), precision - |used|)
  {
    PaddedAgain(used, |kept|, precision);
    PaddedShift(used, precision);
    PaddedShift(kept, precision);
  }

  lemma ReadInParts(s: string, negative: bool, w: nat, d: nat, precision: nat)
    requires Readable(s) && precision <= 18 && Negative(s) == negative
    requires WholeValue(WholePart(s), precision) == if w <= MAX_INT64 then Some(w) else None
    requires DecimalsIn(s, precision) == Some(d)
    ensures ParsedTrimmed(s, precision) == InRange(negative, w + d)
  {
  }

  /** A text without a point. */
  lemma WholeReads(sign: string, whole: string, precision: nat)
    requires Signed(sign, whole) && precision <= 18
    ensures ParsedTrimmed(sign + whole, precision) == InRange(sign == "-", Shift(Value(whole), precision))
    ensures WithoutTrailingZeros(sign + whole) == sign + whole
  {
    var s := sign + whole;
    WholeReadable(sign, whole);
    assert WholePart(s) == whole && whole + "" == whole;
    WholeExactly(whole, "", precision);
    ReadInParts(s, sign == "-", Shift(Value(whole), precision), 0, precision);
  }

  /** A text with a point and decimals that do not end in a zero. */
  lemma PointReads(sign: string, whole: string, rest: string, precision: nat)
    requires Signed(sign, whole) && AllDigits(rest) && rest != [] && precision <= 18
    ensures ParsedTrimmed(sign + whole + "." + rest, precision) == InRange(sign == "-", Meant(whole, rest, precision))
  {
    var used := Used(rest, precision);
    PlainReadable(sign, whole, rest);
    WholeBefore(sign, whole, rest, precision);
    DecimalsAfter(sign, whole, rest, precision);
    ReadInParts(sign + whole + "." + rest, sign == "-", Shift(Value(whole), precision), Shift(Value(used), precision - |used|), precision);
  }

  lemma WholeBefore(sign: string, whole: string, rest: string, precision: nat)
    requires Signed(sign, whole) && AllDigits(rest)
    ensures WholeValue(WholePart(sign + whole + "." + rest), precision)
         == if Shift(Value(whole), precision) <= MAX_INT64 then Some(Shift(Value(whole), precision)) else None
  {
    var s := sign + whole + "." + rest;
    PlainReadable(sign, whole, rest);
    if sign == "-" {
      assert WholePart(s) == whole + ".";
      WholeExactly(whole, ".", precision);
    } else {
      assert WholePart(s) == whole + "";
      WholeExactly(whole, "", precision);
    }
  }

  lemma DecimalsAfter(sign: string, whole: string, rest: string, precision: nat)
    requires Signed(sign, whole) && AllDigits(rest) && precision <= 18
    ensures var used := Used(rest, precision);
            DecimalsIn(sign + whole + "." + rest, precision) == Some(Shift(Value(used), precision - |used|))
  {
    var s := sign + whole + "." + rest;
    PlainReadable(sign, whole, rest);
    assert s[|sign + whole| + 1..] == rest;
    assert Substr(s, |sign + whole| + 1, precision) == Used(rest, precision);
    DecimalsExactly(Used(rest, precision), precision);
  }

  /**
    * Digits, with a sign or without, are read as the number they stand for, and
    * refused exactly when that is more than the largest supply.
    */
  lemma WholeReadsExactly(sign: string, whole: string, precision: nat)
    requires Signed(sign, whole) && precision <= 18
    ensures Parsed(sign + whole, precision) == InRange(sign == "-", Shift(Value(whole), precision))
  {
    WholeReads(sign, whole, precision);
    CutFirst(sign + whole, sign + whole, precision, InRange(sign == "-", Shift(Value(whole), precision)));
  }

  /** So are digits, a point and decimals, to as many of these as there is room for. */
  lemma ReadsExactly(sign: string, whole: string, decimals: string, precision: nat)
    requires Signed(sign, whole) && AllDigits(decimals) && precision <= 18
    ensures Parsed(sign + whole + "." + decimals, precision) == InRange(sign == "-", Meant(whole, decimals, precision))
  {
    var text, kept := sign + whole + "." + decimals, decimals[..Kept(decimals)];
    CutText(sign, whole, decimals);
    MeantKept(whole, decimals, precision);
    if kept == [] {
      MeantWhole(whole, precision);
      NothingKept(text, sign, whole, Meant(whole, decimals, precision), precision);
    } else {
      SomeKept(text, sign, whole, kept, Meant(whole, decimals, precision), precision);
    }
  }

  lemma MeantKept(whole: string, decimals: string, precision: nat)
    requires AllDigits(whole) && AllDigits(decimals)
    ensures Meant(whole, decimals, precision) == Meant(whole, decimals[..Kept(decimals)], precision)
  {
    CutUsed(decimals, precision);
  }

  lemma MeantWhole(whole: string, precision: nat)
    requires AllDigits(whole)
    ensures Meant(whole, "", precision) == Shift(Value(whole), precision)
  {
    ZeroShift(precision);
  }

  lemma {:induction false} ZeroShift(places: nat)
    ensures Shift(0, places) == 0
  {
    if places == 0 {
    } else {
      ZeroShift(places - 1);
    }
  }

  lemma NothingKept(text: string, sign: string, whole: string, amount: nat, precision: nat)
    requires Signed(sign, whole) && precision <= 18 && WithoutTrailingZeros(text) == sign + whole
    requires amount == Shift(Value(whole), precision)
    ensures Parsed(text, precision) == InRange(sign == "-", amount)
  {
    WholeReads(sign, whole, precision);
    CutFirst(text, sign + whole, precision, InRange(sign == "-", amount));
  }

  lemma SomeKept(text: string, sign: string, whole: string, kept: string, amount: nat, precision: nat)
    requires Signed(sign, whole) && AllDigits(kept) && kept != [] && precision <= 18
    requires WithoutTrailingZeros(text) == sign + whole + "." + kept && amount == Meant(whole, kept, precision)
    ensures Parsed(text, precision) == InRange(sign == "-", amount)
  {
    PointReads(sign, whole, kept, precision);
    CutFirst(text, sign + whole + "." + kept, precision, InRange(sign == "-", amount));
  }

  // ---- What is refused ----

  /** The cutting takes away zeros and one point, nothing else. */
  lemma CutKeeps(text: string, i: nat)
    requires i < |text| && text[i] != '0' && (text[i] == '.' ==> exists j :: 0 <= j < i && text[j] == '.')
    ensures i < |WithoutTrailingZeros(text)| && WithoutTrailingZeros(text) <= text
  {
    assert Kept(text) > i;
  }

  lemma {:induction false} CountTwo(s: string, i: nat, j: nat, c: char)
    requires i < j < |s| && s[i] == c && s[j] == c
    ensures Count(s, c) >= 2
  {
    var n := |s| - 1;
    if j < n {
      CountTwo(s[..n], i, j, c);
    } else {
      CountPositive(s[..n], c);
      assert s[..n][i] == c;
    }
  }

  /** Nothing is read that has another character in it, two signs or two points, or with more than 18 decimals to fill. */
  lemma Refused(text: string, precision: nat)
    requires || precision >= 19
             || (exists i :: 0 <= i < |text| && !IsDigit(text[i]) && text[i] != '-' && text[i] != '.')
             || (exists i, j :: 0 <= i < j < |text| && text[i] == text[j] && (text[i] == '-' || text[i] == '.'))
    ensures Parsed(text, precision).None?
  {
    var s := WithoutTrailingZeros(text);
    if i :| 0 <= i < |text| && !IsDigit(text[i]) && text[i] != '-' && text[i] != '.' {
      CutKeeps(text, i);
      assert s[i] == text[i];
    } else if i, j :| 0 <= i < j < |text| && text[i] == text[j] && (text[i] == '-' || text[i] == '.') {
      CutKeeps(text, j);
      assert s[i] == text[i] && s[j] == text[j];
      CountTwo(s, i, j, text[i]);
    }
  }

  // ---- Amounts from zero up ----

  /** The printed decimals: as many digits as the precision, worth the remainder. */
  lemma DecimalsOf(scale: nat, r: nat, precision: nat)
    requires scale == Pow10(precision) && r < scale
    ensures var text := Digits(scale + r);
            && |text| == precision + 1 && AllDigits(text[1..]) && Value(text[1..]) == r
  {
    var text := Digits(scale + r);
    assert Pow10(precision + 1) == 10 * scale;
    DigitCount(scale + r, precision);
    ValueOfDigits(scale + r);
    var first, rest := text[..1], text[1..];
    assert text == first + rest;
    ValueSplit(first, rest);
    ValueBound(rest);
    LeadingOne(Value(first), Value(rest), r, scale);
  }

  lemma LeadingOne(d: nat, rest: nat, r: nat, scale: nat)
    requires scale + r == d * scale + rest && rest < scale && r < scale
    ensures rest == r
  {
    DivUnique(scale + r, 1, r, scale);
    DivUnique(scale + r, d, rest, scale);
  }

  /**
    * An amount is printed as its whole part, and with decimals as a point and as
    * many digits as the precision, worth the rest.
    */
  lemma PrintedExactly(amount: nat, precision: nat) returns (rest: string)
    ensures var scale := Pow10(precision);
            && AllDigits(rest) && Value(rest) == amount % scale && Value(Digits(amount / scale)) == amount / scale
            && (amount % scale == 0 ==> rest == "" && Printed(amount, precision) == Digits(amount / scale))
            && (amount % scale > 0 ==> |rest| == precision && Printed(amount, precision) == Digits(amount / scale) + "." + rest)
  {
    var q, r := Truncated(amount, Pow10(precision));
    DivUnique(amount, q, r, Pow10(precision));
    ValueOfDigits(q);
    if r == 0 {
      rest := "";
    } else {
      rest := Digits(Pow10(precision) + r)[1..];
      DecimalsOf(Pow10(precision), r, precision);
    }
  }

  // ---- Negative amounts ----

  /** Negative decimals are printed without the first digit of the scale less them; the rest are never read as them. */
  lemma DecimalsLost(r: nat, precision: nat)
    requires 0 < r < Pow10(precision)
    ensures var rest := Digits(Pow10(precision) - r)[1..];
            AllDigits(rest) && |rest| < precision && Value(rest) * Pow10(precision - |rest|) != r
  {
    var text := Digits(Pow10(precision) - r);
    var first, rest := text[..1], text[1..];
    var m := |rest|;
    DigitsFit(Pow10(precision) - r, precision);
    FirstDigit(Pow10(precision) - r);
    ValueOfDigits(Pow10(precision) - r);
    assert text == first + rest && first[..0] == "";
    ValueSplit(first, rest);
    ValueBound(rest);
    PowSum(m, precision - m);
    if Value(rest) * Pow10(precision - m) == r {
      NoSuchRest(Value(first), Value(rest), Pow10(precision - m - 1), r, m);
    }
  }

  lemma {:induction false} DigitsFit(n: nat, p: nat)
    requires n < Pow10(p) && p > 0
    ensures |Digits(n)| <= p
  {
    if p == 1 {
      assert Pow10(1) == 10 * Pow10(0);
    } else if n >= 10 {
      DigitsFit(n / 10, p - 1);
    }
  }

  /** No number but zero is printed with a zero in front. */
  lemma {:induction false} FirstDigit(n: nat)
    requires n > 0
    ensures Digits(n)[0] != '0'
  {
    if n < 10 {
    } else {
      FirstDigit(n / 10);
    }
  }

  lemma {:induction false} PowSum(m: nat, n: nat)
    ensures Pow10(m + n) == Pow10(m) * Pow10(n)
  {
    if m == 0 {
    } else {
      PowSum(m - 1, n);
      TenFirst(Pow10(m - 1), Pow10(n));
    }
  }

  lemma TenFirst(a: nat, b: nat)
    ensures 10 * (a * b) == 10 * a * b
  {
  }

  /** The powers of ten in the right-hand side are all in `w`, because ten times `x` and one share no factor with ten. */
  lemma {:induction false} TensDivide(w: nat, x: nat, c: int, m: nat) returns (u: int)
    requires w * (10 * x + 1) == c * Pow10(m)
    ensures w == u * Pow10(m)
  {
    if m == 0 {
      u := w;
    } else {
      var v := c * Pow10(m - 1) - w * x;
      OneTen(w, x, c, Pow10(m - 1), v);
      u := TensDivide(v, x, c, m - 1);
      TenTimesInt(u, Pow10(m - 1));
    }
  }

  lemma TenTimesInt(a: int, b: int)
    ensures a * (10 * b) == 10 * (a * b)
  {
  }

  lemma OneTen(w: nat, x: nat, c: int, t: nat, v: int)
    requires w * (10 * x + 1) == c * (10 * t) && v == c * t - w * x
    ensures w == 10 * v && v >= 0 && v * (10 * x + 1) == c * t
  {
    TenTimesInt(c, t);
    TenTimesInt(w, x);
    assert w * (10 * x + 1) == w * (10 * x) + w;
    assert 10 * v * (10 * x + 1) == 10 * (v * (10 * x + 1));
  }

  lemma NoSuchRest(a: nat, w: nat, x: nat, r: nat, m: nat)
    requires 1 <= a <= 9 && x >= 1 && w < Pow10(m)
    requires Pow10(m) * (10 * x) - r == a * Pow10(m) + w
    ensures w * (10 * x) != r
  {
    if w * (10 * x) == r {
      assert w * (10 * x + 1) == w * (10 * x) + w;
      assert (10 * x - a) * Pow10(m) == 10 * x * Pow10(m) - a * Pow10(m);
      var u := TensDivide(w, x, 10 * x - a, m);
      SmallMultiple(u, Pow10(m));
      SmallMultiple(10 * x - a, Pow10(m));
    }
  }

  lemma SmallMultiple(u: int, t: nat)
    requires t >= 1
    ensures u >= 1 ==> u * t >= t
    ensures u <= -1 ==> u * t <= 0 - t
  {
  }

  // ---- The round trip ----

  /**
    * Reading the printed amount gives it back, for every precision and every
    * amount up to the largest supply on either side of zero, if and only if it
    * is not negative or has no decimals.
    */
  lemma AmountRoundTrip(amount: int, precision: nat)
    requires precision <= 18 && -MAX_SHARE_SUPPLY <= amount <= MAX_SHARE_SUPPLY
    ensures Parsed(Printed(amount, precision), precision) == Some(amount)
       <==> amount >= 0 || TruncMod(amount, Pow10(precision)) == 0
  {
    var sign, q, r, rest, d := Split(amount, precision);
    var negative, w := amount < 0 && Shift(q, precision) > 0, Shift(q, precision);
    PartsRead(Printed(amount, precision), sign, negative, q, w, r, rest, d, precision);
    SumRead(Printed(amount, precision), amount, negative, w, d, r, precision);
  }

  /** The printed amount is read as its whole part and some decimals. */
  lemma PartsRead(text: string, sign: string, negative: bool, q: nat, w: nat, r: nat, rest: string, d: nat, precision: nat)
    requires (sign == "" || sign == "-") && negative == (sign == "-") && w == Shift(q, precision)
    requires precision <= 18 && AllDigits(rest) && |rest| <= precision
    requires text == if r == 0 then sign + Digits(q) else sign + Digits(q) + "." + rest
    requires d == if r == 0 then 0 else Shift(Value(rest), precision - |rest|)
    ensures Parsed(text, precision) == InRange(negative, w + d)
  {
    ValueOfDigits(q);
    if r == 0 {
      WholeRead(text, sign, negative, Digits(q), w, precision);
    } else {
      BothRead(text, sign, negative, Digits(q), w, rest, d, precision);
    }
  }

  lemma WholeRead(text: string, sign: string, negative: bool, whole: string, w: nat, precision: nat)
    requires Signed(sign, whole) && negative == (sign == "-") && w == Shift(Value(whole), precision) && precision <= 18
    requires text == sign + whole
    ensures Parsed(text, precision) == InRange(negative, w)
  {
    WholeReadsExactly(sign, whole, precision);
  }

  lemma BothRead(text: string, sign: string, negative: bool, whole: string, w: nat, rest: string, d: nat, precision: nat)
    requires Signed(sign, whole) && negative == (sign == "-") && w == Shift(Value(whole), precision) && precision <= 18
    requires AllDigits(rest) && |rest| <= precision && d == Shift(Value(rest), precision - |rest|)
    requires text == sign + whole + "." + rest
    ensures Parsed(text, precision) == InRange(negative, w + d)
  {
    FewDecimals(whole, rest, precision);
    ReadsExactly(sign, whole, rest, precision);
  }

  lemma FewDecimals(whole: string, rest: string, precision: nat)
    requires AllDigits(whole) && AllDigits(rest) && |rest| <= precision
    ensures Meant(whole, rest, precision) == Shift(Value(whole), precision) + Shift(Value(rest), precision - |rest|)
  {
  }

  lemma SumRead(text: string, amount: int, negative: bool, w: nat, d: nat, r: nat, precision: nat)
    requires Parsed(text, precision) == InRange(negative, w + d)
    requires -MAX_SHARE_SUPPLY <= amount <= MAX_SHARE_SUPPLY && negative == (amount < 0 && w > 0)
    requires amount == if amount < 0 then 0 - (w + r) else w + r
    requires d == r <==> amount >= 0 || r == 0
    ensures Parsed(text, precision) == Some(amount) <==> amount >= 0 || r == 0
  {
  }

  /** The whole part and the decimals of an amount, and how they are printed. */
  lemma Split(amount: int, precision: nat) returns (sign: string, q: nat, r: nat, rest: string, d: nat)
    ensures sign == "" || sign == "-"
    ensures (sign == "-") == (amount < 0 && Shift(q, precision) > 0)
    ensures TruncMod(amount, Pow10(precision)) == if amount < 0 then 0 - r else r
    ensures amount == if amount < 0 then 0 - (Shift(q, precision) + r) else Shift(q, precision) + r
    ensures Printed(amount, precision) == if r == 0 then sign + Digits(q) else sign + Digits(q) + "." + rest
    ensures AllDigits(rest) && |rest| <= precision
    ensures d == if r == 0 then 0 else Shift(Value(rest), precision - |rest|)
    ensures d == r <==> amount >= 0 || r == 0
  {
    q, r := Truncated(amount, Pow10(precision));
    ShiftIsProduct(q, precision);
    StepApart(q, 0, Pow10(precision));
    rest, d := RestOf(amount < 0, r, precision);
    sign := if amount < 0 && q > 0 then "-" else "";
    assert "" + Digits(q) == Digits(q);
  }

  lemma Truncated(amount: int, scale: nat) returns (q: nat, r: nat)
    requires scale > 0
    ensures amount == (if amount < 0 then 0 - (q * scale + r) else q * scale + r) && r < scale
    ensures TruncDiv(amount, scale) == if amount < 0 then 0 - q else q
    ensures TruncMod(amount, scale) == if amount < 0 then 0 - r else r
  {
    var size: nat := if amount < 0 then 0 - amount else amount;
    Quotient(size, scale);
    q, r := size / scale, size % scale;
    assert (0 - q) * scale == 0 - (q * scale);
  }

  /** The digits printed behind the point, and what they are worth. */
  lemma RestOf(negative: bool, r: nat, precision: nat) returns (rest: string, d: nat)
    requires r < Pow10(precision)
    ensures r > 0 ==> rest == Digits(if negative then Pow10(precision) - r else Pow10(precision) + r)[1..]
    ensures AllDigits(rest) && |rest| <= precision
    ensures d == if r == 0 then 0 else Shift(Value(rest), precision - |rest|)
    ensures d == r <==> !negative || r == 0
  {
    if r == 0 {
      rest, d := "", 0;
    } else if negative {
      rest := Digits(Pow10(precision) - r)[1..];
      DecimalsLost(r, precision);
      d := Shift(Value(rest), precision - |rest|);
      ShiftIsProduct(Value(rest), precision - |rest|);
    } else {
      rest, d := Digits(Pow10(precision) + r)[1..], r;
      DecimalsOf(Pow10(precision), r, precision);
    }
  }

  /** A negative amount with decimals that is not read back: -1.50 comes out as -1.0. */
  lemma NegativeAmountLost()
    ensures Printed(-150, 2) == "-1.0"
    ensures Parsed("-1.0", 2) == Some(-100)
  {
    assert Pow10(2) == 100 && Pow10(1) == 10;
    assert Digits(1) == "1" && Digits(50) == "50";
    assert "50"[1..] == "0";
    MinusOneTrimmed();
    MinusOneRead();
  }

  lemma MinusOneTrimmed()
    ensures WithoutTrailingZeros("-1.0") == "-1"
  {
    assert "-1.0"[..3] == "-1." && "-1."[..2] == "-1";
  }

  lemma MinusOneRead()
    ensures ParsedTrimmed("-1", 2) == Some(-100)
  {
    assert "-1"[..1] == "-" && "-"[..0] == "";
    assert Count("-1", '-') == 1 && Count("-1", '.') == 0;
    assert WholePart("-1") == "1";
    assert "1"[..0] == "" && "1"[1..] == "" && "1"[..1] == "1";
    assert Stoll("1") == Some(1);
    assert Shift(1, 2) == 100;
  }
}
