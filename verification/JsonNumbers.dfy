/** Numbers of JSON documents (section 6 of RFC 8259) as internal/observability/rollout_shadow.go compares them: the
    literal is read as a decimal, and two literals are the same number if their values are equal as rationals. Go's
    `big.Rat.SetString` refuses exponents beyond a limit, which is a parameter here. */
module JsonNumbers {
  import opened Options
  import opened ShadowParity

  datatype Sign = NoSign | Plus | Minus

  datatype Exponent = NoExponent | Exponent(upper: bool, sign: Sign, digits: string)

  /** The parts of a number, as they are written. */
  datatype Literal = Literal(negative: bool, whole: string, frac: Option<string>, exp: Exponent)

  predicate IsDigit(c: char) {
    '0' <= c <= '9'
  }

  predicate AllDigits(s: string) {
    forall i :: 0 <= i < |s| ==> IsDigit(s[i])
  }

  /** The grammar: no leading zeros, and no empty run of digits. */
  predicate WellFormed(l: Literal) {
    && l.whole != [] && AllDigits(l.whole) && (|l.whole| > 1 ==> l.whole[0] != '0')
    && FracOk(l.frac) && ExpOk(l.exp)
  }

  function FracText(frac: Option<string>): string {
    if frac.Some? then "." + frac.value else ""
  }

  function SignText(sign: Sign): string {
    match sign case NoSign => "" case Plus => "+" case Minus => "-"
  }

  function ExpText(exp: Exponent): string {
    if exp.NoExponent? then "" else (if exp.upper then "E" else "e") + (SignText(exp.sign) + exp.digits)
  }

  function Written(l: Literal): string {
    (if l.negative then "-" else "") + (l.whole + (FracText(l.frac) + ExpText(l.exp)))
  }

  // ----- Reading

  /** Text cut behind its leading digits. */
  datatype Cut = Cut(digits: string, rest: string)

  ghost predicate IsCut(s: string, c: Cut) {
    s == c.digits + c.rest && AllDigits(c.digits) && (c.rest != [] ==> !IsDigit(c.rest[0]))
  }

  function CutDigits(s: string): (c: Cut)
    ensures IsCut(s, c)
  {
    if s == [] || !IsDigit(s[0]) then Cut([], s)
    else
      var c := CutDigits(s[1..]);
      Cut([s[0]] + c.digits, c.rest)
  }

  function ReadSigned(upper: bool, sign: Sign, s: string): Option<Exponent> {
    var c := CutDigits(s);
    if c.digits != [] && c.rest == [] then Some(Exponent(upper, sign, c.digits)) else None
  }

  function ReadExp(s: string): Option<Exponent> {
    if s == [] then Some(NoExponent)
    else if s[0] != 'e' && s[0] != 'E' then None
    else if |s| > 1 && s[1] == '+' then ReadSigned(s[0] == 'E', Plus, s[2..])
    else if |s| > 1 && s[1] == '-' then ReadSigned(s[0] == 'E', Minus, s[2..])
    else ReadSigned(s[0] == 'E', NoSign, s[1..])
  }

  function WithExp(negative: bool, whole: string, frac: Option<string>, exp: Option<Exponent>): Option<Literal> {
    if exp.Some? then Some(Literal(negative, whole, frac, exp.value)) else None
  }

  function ReadTail(negative: bool, whole: string, s: string): Option<Literal> {
    if s != [] && s[0] == '.' then
      var c := CutDigits(s[1..]);
      if c.digits == [] then None else WithExp(negative, whole, Some(c.digits), ReadExp(c.rest))
    else WithExp(negative, whole, None, ReadExp(s))
  }

  function ReadUnsigned(negative: bool, s: string): Option<Literal> {
    var c := CutDigits(s);
    if c.digits == [] || (|c.digits| > 1 && c.digits[0] == '0') then None else ReadTail(negative, c.digits, c.rest)
  }

  function ReadNumber(s: string): Option<Literal> {
    if s != [] && s[0] == '-' then ReadUnsigned(true, s[1..]) else ReadUnsigned(false, s)
  }

  /** There is one cut. */
  lemma CutUnique(s: string, c: Cut, d: Cut)
    requires IsCut(s, c) && IsCut(s, d)
    ensures c == d
  {
    assert forall i :: 0 <= i < |c.digits| ==> s[i] == c.digits[i];
    assert forall i :: 0 <= i < |d.digits| ==> s[i] == d.digits[i];
    assert |c.digits| < |s| ==> s[|c.digits|] == c.rest[0];
    assert |d.digits| < |s| ==> s[|d.digits|] == d.rest[0];
    assert |c.digits| == |d.digits|;
    assert c.digits == s[..|c.digits|] == d.digits && c.rest == s[|c.digits|..] == d.rest;
  }

  lemma CutOf(digits: string, rest: string)
    requires AllDigits(digits) && (rest != [] ==> !IsDigit(rest[0]))
    ensures CutDigits(digits + rest) == Cut(digits, rest)
  {
    CutUnique(digits + rest, CutDigits(digits + rest), Cut(digits, rest));
  }

  predicate ExpOk(exp: Exponent) {
    exp.Exponent? ==> exp.digits != [] && AllDigits(exp.digits)
  }

  predicate FracOk(frac: Option<string>) {
    frac.Some? ==> frac.value != [] && AllDigits(frac.value)
  }

  lemma ReadsExp(exp: Exponent)
    requires ExpOk(exp)
    ensures ReadExp(ExpText(exp)) == Some(exp)
    ensures ExpText(exp) != [] ==> !IsDigit(ExpText(exp)[0]) && ExpText(exp)[0] != '.'
  {
    if exp.Exponent? {
      ReadsSigned(exp);
      if exp.sign.NoSign? {
        assert "" + exp.digits == exp.digits;
        UnsignedExp(exp.upper, exp.digits);
      } else {
        SignedExp(exp.upper, exp.sign, exp.digits);
      }
    }
  }

  lemma UnsignedExp(upper: bool, digits: string)
    requires digits != [] && IsDigit(digits[0])
    ensures ReadExp((if upper then "E" else "e") + digits) == ReadSigned(upper, NoSign, digits)
  {
    var s := (if upper then "E" else "e") + digits;
    assert s[1..] == digits && s[1] == digits[0];
  }

  lemma SignedExp(upper: bool, sign: Sign, digits: string)
    requires !sign.NoSign?
    ensures ReadExp((if upper then "E" else "e") + (SignText(sign) + digits)) == ReadSigned(upper, sign, digits)
  {
    var s := (if upper then "E" else "e") + (SignText(sign) + digits);
    assert s[2..] == digits && s[1] == SignText(sign)[0];
  }

  lemma ReadsSigned(exp: Exponent)
    requires exp.Exponent? && ExpOk(exp)
    ensures ReadSigned(exp.upper, exp.sign, exp.digits) == Some(exp)
  {
    CutOf(exp.digits, []);
    assert exp.digits + [] == exp.digits;
  }

  lemma ReadsTail(negative: bool, whole: string, frac: Option<string>, exp: Exponent)
    requires FracOk(frac) && ExpOk(exp)
    ensures ReadTail(negative, whole, FracText(frac) + ExpText(exp)) == Some(Literal(negative, whole, frac, exp))
    ensures FracText(frac) + ExpText(exp) != [] ==> !IsDigit((FracText(frac) + ExpText(exp))[0])
  {
    ReadsExp(exp);
    TailText(negative, whole, frac, ExpText(exp));
  }

  lemma TailText(negative: bool, whole: string, frac: Option<string>, e: string)
    requires FracOk(frac) && (e != [] ==> !IsDigit(e[0]) && e[0] != '.')
    ensures ReadTail(negative, whole, FracText(frac) + e) == WithExp(negative, whole, frac, ReadExp(e))
    ensures FracText(frac) + e != [] ==> !IsDigit((FracText(frac) + e)[0])
  {
    var s := FracText(frac) + e;
    if frac.Some? {
      assert s[1..] == frac.value + e;
      CutOf(frac.value, e);
    } else {
      assert s == e;
    }
  }

  /** Every literal of the grammar is read back as it was written. */
  lemma ReadsWritten(l: Literal)
    requires WellFormed(l)
    ensures ReadNumber(Written(l)) == Some(l)
  {
    ReadsTail(l.negative, l.whole, l.frac, l.exp);
    SignedText(l.negative, l.whole, FracText(l.frac) + ExpText(l.exp));
  }

  lemma SignedText(negative: bool, whole: string, tail: string)
    requires whole != [] && AllDigits(whole) && (|whole| > 1 ==> whole[0] != '0') && (tail != [] ==> !IsDigit(tail[0]))
    ensures ReadNumber((if negative then "-" else "") + (whole + tail)) == ReadTail(negative, whole, tail)
  {
    CutOf(whole, tail);
    var s := whole + tail;
    assert s[0] == whole[0];
    if negative { assert ("-" + s)[1..] == s; } else { assert "" + s == s; }
  }

  lemma SignedIsWritten(upper: bool, sign: Sign, s: string)
    requires ReadSigned(upper, sign, s).Some?
    ensures ReadSigned(upper, sign, s).value == Exponent(upper, sign, s) && ExpOk(Exponent(upper, sign, s))
  {
    var c := CutDigits(s);
    assert c.digits + [] == c.digits;
  }

  lemma ExpIsWritten(s: string)
    requires ReadExp(s).Some?
    ensures ExpOk(ReadExp(s).value) && ExpText(ReadExp(s).value) == s
  {
    if s != [] {
      if |s| > 1 && (s[1] == '+' || s[1] == '-') {
        SignedIsWritten(s[0] == 'E', if s[1] == '+' then Plus else Minus, s[2..]);
        assert s == [s[0]] + ([s[1]] + s[2..]);
      } else {
        SignedIsWritten(s[0] == 'E', NoSign, s[1..]);
        assert "" + s[1..] == s[1..];
        assert s == [s[0]] + s[1..];
      }
    }
  }

  lemma TailIsWritten(negative: bool, whole: string, s: string)
    requires ReadTail(negative, whole, s).Some?
    ensures var l := ReadTail(negative, whole, s).value;
            && l.negative == negative && l.whole == whole && FracOk(l.frac) && ExpOk(l.exp)
            && FracText(l.frac) + ExpText(l.exp) == s
  {
    if s != [] && s[0] == '.' {
      var c := CutDigits(s[1..]);
      ExpIsWritten(c.rest);
      DotText(s, c.digits, c.rest);
    } else {
      ExpIsWritten(s);
      assert "" + s == s;
    }
  }

  lemma DotText(s: string, digits: string, rest: string)
    requires s != [] && s[0] == '.' && s[1..] == digits + rest
    ensures FracText(Some(digits)) + rest == s
  {
    assert s == "." + s[1..];
    assert "." + digits + rest == "." + (digits + rest);
  }

  /** Nothing else is read: what is read is a literal of the grammar, and was written like that. */
  lemma ReadIsWritten(s: string)
    requires ReadNumber(s).Some?
    ensures WellFormed(ReadNumber(s).value) && Written(ReadNumber(s).value) == s
  {
    var l := ReadNumber(s).value;
    if s != [] && s[0] == '-' {
      UnsignedIsWritten(true, s[1..], l);
      assert s == "-" + s[1..];
    } else {
      UnsignedIsWritten(false, s, l);
      assert "" + s == s;
    }
  }

  lemma UnsignedIsWritten(negative: bool, s: string, l: Literal)
    requires ReadUnsigned(negative, s) == Some(l)
    ensures WellFormed(l) && Written(l) == (if negative then "-" else "") + s
  {
    var c := CutDigits(s);
    TailIsWritten(negative, c.digits, c.rest);
  }

  // ----- Values

  /** `mantissa` times ten to the power of `exponent`. */
  datatype Decimal = Decimal(mantissa: int, exponent: int)

  function DigitsValue(s: string): nat
    requires AllDigits(s)
  {
    if s == [] then 0 else 10 * DigitsValue(s[..|s| - 1]) + (s[|s| - 1] as int - '0' as int)
  }

  function DecimalOf(l: Literal): Decimal
    requires WellFormed(l)
  {
    var frac := if l.frac.Some? then l.frac.value else "";
    var digits := DigitsValue(l.whole + frac);
    var exp := if l.exp.NoExponent? then 0 else (if l.exp.sign.Minus? then -1 else 1) * DigitsValue(l.exp.digits);
    Decimal(if l.negative then 0 - digits else digits, exp - |frac|)
  }

  function TenTo(n: nat): nat {
    if n == 0 then 1 else 10 * TenTo(n - 1)
  }

  function Power(e: int): real
    decreases if e < 0 then -e else e
  {
    if e == 0 then 1.0 else if e > 0 then 10.0 * Power(e - 1) else Power(e + 1) / 10.0
  }

  function Value(d: Decimal): real {
    d.mantissa as real * Power(d.exponent)
  }

  /** Equal after both have been brought to the smaller exponent; no fractions are needed. */
  predicate SameDecimal(a: Decimal, b: Decimal) {
    if a.exponent >= b.exponent then a.mantissa * TenTo(a.exponent - b.exponent) == b.mantissa
    else a.mantissa == b.mantissa * TenTo(b.exponent - a.exponent)
  }

  lemma {:induction false} PowerPositive(e: int)
    ensures Power(e) > 0.0
    decreases if e < 0 then -e else e
  {
    if e > 0 { PowerPositive(e - 1); } else if e < 0 { PowerPositive(e + 1); }
  }

  lemma PowerNext(e: int)
    ensures Power(e + 1) == 10.0 * Power(e)
  {
    if e < 0 { assert Power(e) == Power(e + 1) / 10.0; }
  }

  /** Ten times larger from one exponent to the next. */
  ghost predicate Geometric(f: int -> real) {
    forall i, j :: j == i + 1 ==> f(j) == 10.0 * f(i)
  }

  lemma {:induction false} GeometricShift(f: int -> real, e: int, n: nat)
    requires Geometric(f)
    ensures f(e + n) == TenTo(n) as real * f(e)
  {
    if n > 0 {
      GeometricShift(f, e, n - 1);
      ShiftStep(TenTo(n - 1), TenTo(n), f(e), f(e + (n - 1)), f(e + n));
    }
  }

  lemma PowerShift(e: int, n: nat)
    ensures Power(e + n) == TenTo(n) as real * Power(e)
  {
    var f := (i: int) => Power(i);
    forall i, j | j == i + 1 ensures f(j) == 10.0 * f(i) { PowerNext(i); }
    GeometricShift(f, e, n);
  }

  lemma ShiftStep(t: nat, t': nat, p: real, q: real, q': real)
    requires q == t as real * p && t' == 10 * t && q' == 10.0 * q
    ensures q' == t' as real * p
  {
    Regroup(10, t, p, q);
  }

  lemma Regroup(a: int, b: int, x: real, y: real)
    requires y == b as real * x
    ensures (a * b) as real * x == a as real * y
  {
    assert (a * b) as real == a as real * b as real;
  }

  lemma Cancel(a: int, b: int, x: real)
    requires x > 0.0
    ensures a as real * x == b as real * x <==> a == b
  {
    if a as real * x == b as real * x { assert (a as real - b as real) * x == 0.0; }
  }

  /** `q` is `p` times the power of ten `t`. */
  lemma AlignedExact(m: int, t: nat, k: int, p: real, q: real)
    requires p > 0.0 && q == t as real * p
    ensures m as real * q == k as real * p <==> m * t == k
  {
    Regroup(m, t, p, q);
    Cancel(m * t, k, p);
  }

  lemma ScaledExact(m: int, e: int, n: nat, k: int)
    ensures m as real * Power(e + n) == k as real * Power(e) <==> m * TenTo(n) == k
  {
    PowerShift(e, n);
    PowerPositive(e);
    AlignedExact(m, TenTo(n), k, Power(e), Power(e + n));
  }

  lemma OrderedExact(a: Decimal, b: Decimal)
    requires a.exponent >= b.exponent
    ensures Value(a) == Value(b) <==> a.mantissa * TenTo(a.exponent - b.exponent) == b.mantissa
  {
    ScaledExact(a.mantissa, b.exponent, a.exponent - b.exponent, b.mantissa);
  }

  /** The comparison as rationals is the comparison of integers. */
  lemma ValueExact(a: Decimal, b: Decimal)
    ensures Value(a) == Value(b) <==> SameDecimal(a, b)
  {
    if a.exponent >= b.exponent { OrderedExact(a, b); } else { OrderedExact(b, a); }
  }

  // ----- The comparison of literals

  const MAX64 := 0x7fff_ffff_ffff_ffff

  /** The exponent is scanned first, and must fit 64 bits even if the number is 0. */
  predicate Accepts(limit: nat, l: Literal)
    requires WellFormed(l)
  {
    var d := DecimalOf(l);
    && (l.exp.Exponent? ==> DigitsValue(l.exp.digits) <= MAX64)
    && (d.mantissa == 0 || 0 - limit <= d.exponent <= limit)
  }

  /** Which literals are read as numbers. */
  lemma AcceptsExact(limit: nat, l: Literal)
    requires WellFormed(l)
    ensures Accepts(limit, l)
       <==> && (l.exp.Exponent? ==> DigitsValue(l.exp.digits) <= 9_223_372_036_854_775_807)
            && (DecimalOf(l).mantissa != 0 ==> -(limit as int) <= DecimalOf(l).exponent && DecimalOf(l).exponent <= limit)
  {}

  /** `big.Rat.SetString` on the numbers a JSON decoder lets through. */
  function GoRat(limit: nat): Rat {
    s =>
      var l := ReadNumber(s);
      if l.None? || !WellFormed(l.value) || !Accepts(limit, l.value) then None else Some(Value(DecimalOf(l.value)))
  }

  /** Main result: two literals of the grammar compare as equal exactly if both are within the limit and their
      decimals are the same after alignment. */
  lemma LiteralsCompare(limit: nat, a: Literal, b: Literal)
    requires WellFormed(a) && WellFormed(b)
    ensures ValuesEqual(GoRat(limit), Num(Written(a)), Num(Written(b)))
       <==> Accepts(limit, a) && Accepts(limit, b) && SameDecimal(DecimalOf(a), DecimalOf(b))
  {
    RatOf(limit, a);
    RatOf(limit, b);
    NumbersEqual(GoRat(limit), Written(a), Written(b));
    ValueExact(DecimalOf(a), DecimalOf(b));
  }

  lemma RatOf(limit: nat, l: Literal)
    requires WellFormed(l)
    ensures GoRat(limit)(Written(l)) == if Accepts(limit, l) then Some(Value(DecimalOf(l))) else None
  {
    ReadsWritten(l);
  }

  lemma NumbersEqual(rat: Rat, s: string, t: string)
    ensures ValuesEqual(rat, Num(s), Num(t)) <==> rat(s).Some? && rat(t).Some? && rat(s).value == rat(t).value
  {}

  lemma ZeroDigit(s: string)
    requires AllDigits(s)
    ensures AllDigits(s + "0") && DigitsValue(s + "0") == 10 * DigitsValue(s)
  {
    assert (s + "0")[..|s|] == s;
  }

  lemma Shifted(m: int, e: int)
    ensures SameDecimal(Decimal(m, e), Decimal(10 * m, e - 1))
  {
    assert TenTo(1) == 10 * TenTo(0);
  }

  /** A zero at the end of the fraction, or a fraction of one zero, changes nothing. */
  lemma TrailingZero(l: Literal)
    requires WellFormed(l)
    ensures var frac := if l.frac.Some? then l.frac.value else "";
            var longer := l.(frac := Some(frac + "0"));
            WellFormed(longer) && SameDecimal(DecimalOf(l), DecimalOf(longer))
  {
    var frac := if l.frac.Some? then l.frac.value else "";
    ZeroDigit(frac);
    ZeroDigit(l.whole + frac);
    assert l.whole + (frac + "0") == l.whole + frac + "0";
    var d := DecimalOf(l);
    Shifted(d.mantissa, d.exponent);
  }

  lemma OneDigits()
    ensures DigitsValue("1") == 1 && DigitsValue("10") == 10
  {
    assert "1"[..0] == "" && "10"[..1] == "1";
  }

  lemma OneDecimals()
    ensures WellFormed(Literal(false, "1", None, NoExponent)) && DecimalOf(Literal(false, "1", None, NoExponent)) == Decimal(1, 0)
    ensures var l := Literal(false, "10", None, Exponent(false, Minus, "1")); WellFormed(l) && DecimalOf(l) == Decimal(10, -1)
  {
    OneDigits();
    assert "1" + "" == "1" && "10" + "" == "10";
  }

  /** 1, 1.0 and 10e-1 are the same number. */
  lemma OneThreeTimes(limit: nat)
    requires limit >= 1
    ensures ValuesEqual(GoRat(limit), Num("1"), Num("1.0")) && ValuesEqual(GoRat(limit), Num("1"), Num("10e-1"))
  {
    var one, shifted := Literal(false, "1", None, NoExponent), Literal(false, "10", None, Exponent(false, Minus, "1"));
    var point := one.(frac := Some("" + "0"));
    OneDecimals();
    Shifted(1, 0);
    TrailingZero(one);
    assert Written(one) == "1" && Written(point) == "1.0" && Written(shifted) == "10e-1";
    LiteralsCompare(limit, one, point);
    LiteralsCompare(limit, one, shifted);
  }
}
