// Market prices: exact unit conversion, Steam's fee grid and the search for the
// highest seller price under a buyer cap (apps/server/src/inventory/money.ts).
module Money {
  import opened Results

  const SAFE_INTEGER := 9_007_199_254_740_991
  const MAX_AMOUNT := 1_000_000_000

  datatype MoneyError =
    | UnsupportedFee
    | InvalidAmount
    | UnsupportedWallet
    | OutsidePrecision
    | InvalidSettings
    | CurrencyUnbound
    | CurrencyMismatch
    | BoundsReversed
    | OffPriceGrid
    | UnsupportedReference
    | CapOutOfRange
    | OutsidePriceLimits
    | BelowMinimumFees

  datatype Rate = Rate(numerator: nat, denominator: nat)

  datatype Wallet = Wallet(
    currencyId: nat,
    minorUnit: nat,
    minimum: nat,
    increment: nat,
    steamRate: Rate,
    publisherRate: Rate,
    steamBase: nat)

  // ---- Integer division facts -------------------------------------------

  lemma MulMonotone(a: int, b: int, c: int)
    requires a <= b && 0 <= c
    ensures a * c <= b * c
  {}

  lemma DivMonotone(x: nat, y: nat, d: nat)
    requires x <= y && 0 < d
    ensures x / d <= y / d
  {
    var p, q := x / d, y / d;
    assert x == p * d + x % d && y == q * d + y % d;
    assert (q + 1) * d == q * d + d;
    if q < p {
      MulMonotone(q + 1, p, d);
      assert false;
    }
  }

  lemma DivUnique(x: int, d: nat, q: int)
    requires 0 < d && q * d <= x < q * d + d
    ensures x / d == q
  {
    var p := x / d;
    assert x == p * d + x % d;
    assert (p + 1) * d == p * d + d && (q + 1) * d == q * d + d;
    if p < q {
      MulMonotone(p + 1, q, d);
      assert false;
    } else if q < p {
      MulMonotone(q + 1, p, d);
      assert false;
    }
  }

  lemma DivShift(x: nat, k: nat, d: nat)
    requires 0 < d
    ensures (x + k * d) / d == x / d + k
  {
    assert x == (x / d) * d + x % d;
    assert (x / d + k) * d == (x / d) * d + k * d;
    DivUnique(x + k * d, d, x / d + k);
  }

  // ---- Fee rates ----------------------------------------------------------

  function Pow10(n: nat): (p: nat)
    ensures 1 <= p
  {
    if n == 0 then 1 else 10 * Pow10(n - 1)
  }

  predicate IsDigit(c: char) { '0' <= c <= '9' }

  predicate AllDigits(s: string) { forall i :: 0 <= i < |s| ==> IsDigit(s[i]) }

  function DigitsValue(s: string): nat
    requires AllDigits(s)
  {
    if s == "" then 0 else 10 * DigitsValue(s[..|s| - 1]) + (s[|s| - 1] - '0') as nat
  }

  // The pattern (0|1)(.d{1,8})? of the original.
  predicate IsRateText(raw: string)
  {
    && 1 <= |raw|
    && (raw[0] == '0' || raw[0] == '1')
    && (|raw| == 1 || (3 <= |raw| <= 10 && raw[1] == '.' && AllDigits(raw[2..])))
  }

  function Fraction(raw: string): string
  {
    if |raw| < 3 then "" else raw[2..]
  }

  predicate ValidRate(rate: Rate) { 0 < rate.denominator && rate.numerator <= rate.denominator }

  function ParseRate(raw: string): (parsed: Result<Rate, MoneyError>)
    ensures parsed.Ok? ==> ValidRate(parsed.value)
    ensures parsed.Err? ==> parsed.error == UnsupportedFee
  {
    if !IsRateText(raw) then Err(UnsupportedFee)
    else
      var digits := [raw[0]] + Fraction(raw);
      var rate := Rate(DigitsValue(digits), Pow10(|Fraction(raw)|));
      if rate.numerator > rate.denominator then Err(UnsupportedFee) else Ok(rate)
  }

  // What a decimal text is worth, place by place.
  function PlaceValue(fraction: string): real
    requires AllDigits(fraction)
  {
    if fraction == "" then 0.0
    else
      PlaceValue(fraction[..|fraction| - 1])
      + (fraction[|fraction| - 1] - '0') as real / Pow10(|fraction|) as real
  }

  function DecimalValue(raw: string): real
    requires IsRateText(raw)
  {
    (raw[0] - '0') as real + PlaceValue(Fraction(raw))
  }

  // The number is the value in so many parts.
  predicate Counts(number: nat, value: real, parts: nat)
  {
    number as real == value * parts as real
  }

  // Read as one number, the digits count the decimal in powers of ten.
  lemma {:induction false} DigitsAreDecimal(whole: char, fraction: string)
    requires IsDigit(whole) && AllDigits(fraction)
    ensures Counts(DigitsValue([whole] + fraction), (whole - '0') as real + PlaceValue(fraction), Pow10(|fraction|))
  {
    var digits := [whole] + fraction;
    if fraction == "" {
      assert digits == [whole] && digits[..0] == "";
    } else {
      var front, last := fraction[..|fraction| - 1], (fraction[|fraction| - 1] - '0') as nat;
      DigitsAreDecimal(whole, front);
      assert digits[..|digits| - 1] == [whole] + front;
      hide Counts;
      var before := (whole - '0') as real + PlaceValue(front);
      AddPlace(before, Pow10(|front|), DigitsValue([whole] + front), last);
      assert DigitsValue(digits) == 10 * DigitsValue([whole] + front) + last;
      assert Pow10(|fraction|) == 10 * Pow10(|front|);
      assert (whole - '0') as real + PlaceValue(fraction) == before + last as real / Pow10(|fraction|) as real;
    }
  }

  lemma AddPlace(before: real, unit: nat, smaller: nat, digit: nat)
    requires unit > 0 && Counts(smaller, before, unit)
    ensures Counts(10 * smaller + digit, before + digit as real / (10 * unit) as real, 10 * unit)
  {
    var u, d := (10 * unit) as real, digit as real;
    assert u == 10.0 * unit as real;
    assert d / u * u == d;
    assert (before + d / u) * u == before * u + d / u * u;
    assert before * u == 10.0 * (before * unit as real);
  }

  // A rate is accepted exactly when its text is a decimal of at most one, and
  // the fraction is that decimal.
  lemma ParseRateIsDecimal(raw: string)
    ensures ParseRate(raw).Ok? <==> IsRateText(raw) && DecimalValue(raw) <= 1.0
    ensures ParseRate(raw).Ok? ==> Counts(ParseRate(raw).value.numerator, DecimalValue(raw), ParseRate(raw).value.denominator)
  {
    hide Counts;
    if IsRateText(raw) {
      var fraction := Fraction(raw);
      DigitsAreDecimal(raw[0], fraction);
      CountsAtMostOne(DigitsValue([raw[0]] + fraction), DecimalValue(raw), Pow10(|fraction|));
      hide DigitsValue, PlaceValue, Pow10;
    }
  }

  lemma CountsAtMostOne(number: nat, value: real, parts: nat)
    requires parts > 0 && Counts(number, value, parts)
    ensures number <= parts <==> value <= 1.0
  {
    if value <= 1.0 {
      assert (1.0 - value) * parts as real >= 0.0;
    } else {
      assert (value - 1.0) * parts as real > 0.0;
    }
  }

  // Equal decimals written with a trailing zero give a proportional fraction.
  lemma TrailingZeroScalesRate(raw: string)
    requires ParseRate(raw).Ok? && 3 <= |raw| <= 9
    ensures ParseRate(raw + "0").Ok?
    ensures ParseRate(raw + "0").value
         == Rate(10 * ParseRate(raw).value.numerator, 10 * ParseRate(raw).value.denominator)
  {
    var longer := raw + "0";
    assert longer[2..] == raw[2..] + "0";
    var digits := [raw[0]] + raw[2..];
    var longerDigits := [longer[0]] + longer[2..];
    assert longerDigits[..|longerDigits| - 1] == digits;
    assert longerDigits[|longerDigits| - 1] == '0';
  }

  // ---- Exact conversion between Steam's hundredths and minor units ---------

  predicate Safe(amount: int) { -SAFE_INTEGER <= amount <= SAFE_INTEGER }

  function ToMinorUnits(steamAmount: int, minorUnit: int): Result<int, MoneyError>
  {
    if !Safe(steamAmount) || minorUnit < 0 || 3 < minorUnit then Err(InvalidAmount)
    else
      var numerator := steamAmount * Pow10(minorUnit);
      if numerator % 100 != 0 then Err(OutsidePrecision)
      else if !Safe(numerator / 100) then Err(InvalidAmount)
      else Ok(numerator / 100)
  }

  function FromMinorUnits(amount: int, minorUnit: int): Result<int, MoneyError>
  {
    if !Safe(amount) || minorUnit < 0 || 3 < minorUnit then Err(InvalidAmount)
    else
      var numerator := amount * 100;
      var denominator := Pow10(minorUnit);
      if numerator % denominator != 0 then Err(OutsidePrecision)
      else if !Safe(numerator / denominator) then Err(InvalidAmount)
      else Ok(numerator / denominator)
  }

  lemma Pow10Values()
    ensures Pow10(0) == 1 && Pow10(1) == 10 && Pow10(2) == 100 && Pow10(3) == 1000
  {
    assert Pow10(1) == 10 * Pow10(0);
    assert Pow10(2) == 10 * Pow10(1);
    assert Pow10(3) == 10 * Pow10(2);
  }

  // Both conversions decide the same exact proportion.
  predicate Proportional(steamAmount: int, amount: int, minorUnit: int)
  {
    && Safe(steamAmount) && Safe(amount)
    && 0 <= minorUnit <= 3
    && steamAmount * Pow10(minorUnit) == 100 * amount
  }

  lemma ToMinorUnitsIsProportional(steamAmount: int, amount: int, minorUnit: int)
    ensures ToMinorUnits(steamAmount, minorUnit) == Ok(amount) <==> Proportional(steamAmount, amount, minorUnit)
  {
    if 0 <= minorUnit {
      var numerator := steamAmount * Pow10(minorUnit);
      assert numerator == 100 * amount <==> numerator % 100 == 0 && numerator / 100 == amount;
    }
  }

  lemma FromMinorUnitsIsProportional(steamAmount: int, amount: int, minorUnit: int)
    ensures FromMinorUnits(amount, minorUnit) == Ok(steamAmount) <==> Proportional(steamAmount, amount, minorUnit)
  {
    Pow10Values();
    hide Pow10;
    QuotientIff(100 * amount, steamAmount, 10);
    QuotientIff(100 * amount, steamAmount, 100);
    QuotientIff(100 * amount, steamAmount, 1000);
    QuotientIff(100 * amount, steamAmount, 1);
  }

  lemma QuotientIff(numerator: int, quotient: int, denominator: nat)
    requires 0 < denominator
    ensures numerator == quotient * denominator <==> numerator % denominator == 0 && numerator / denominator == quotient
  {
    if numerator == quotient * denominator {
      DivUnique(numerator, denominator, quotient);
    }
    assert numerator == (numerator / denominator) * denominator + numerator % denominator;
  }

  // Each conversion is exactly the inverse relation of the other, for signed
  // amounts and for every precision: neither loses or invents an amount.
  lemma ConversionsInvert(steamAmount: int, amount: int, minorUnit: int)
    ensures ToMinorUnits(steamAmount, minorUnit) == Ok(amount)
       <==> FromMinorUnits(amount, minorUnit) == Ok(steamAmount)
  {
    hide ToMinorUnits, FromMinorUnits;
    ToMinorUnitsIsProportional(steamAmount, amount, minorUnit);
    FromMinorUnitsIsProportional(steamAmount, amount, minorUnit);
  }

  lemma ConversionIsAdditive(a: int, b: int, minorUnit: int)
    requires ToMinorUnits(a, minorUnit).Ok? && ToMinorUnits(b, minorUnit).Ok?
    requires Safe(a + b) && Safe(ToMinorUnits(a, minorUnit).value + ToMinorUnits(b, minorUnit).value)
    ensures ToMinorUnits(a + b, minorUnit)
         == Ok(ToMinorUnits(a, minorUnit).value + ToMinorUnits(b, minorUnit).value)
  {
    hide ToMinorUnits;
    var x, y := ToMinorUnits(a, minorUnit).value, ToMinorUnits(b, minorUnit).value;
    ToMinorUnitsIsProportional(a, x, minorUnit);
    ToMinorUnitsIsProportional(b, y, minorUnit);
    assert (a + b) * Pow10(minorUnit) == a * Pow10(minorUnit) + b * Pow10(minorUnit);
    ToMinorUnitsIsProportional(a + b, x + y, minorUnit);
  }

  lemma ConversionScales(a: int, count: nat, minorUnit: int)
    requires ToMinorUnits(a, minorUnit).Ok?
    requires Safe(a * count) && Safe(ToMinorUnits(a, minorUnit).value * count)
    ensures ToMinorUnits(a * count, minorUnit) == Ok(ToMinorUnits(a, minorUnit).value * count)
  {
    hide ToMinorUnits, Pow10;
    var value := ToMinorUnits(a, minorUnit).value;
    ToMinorUnitsIsProportional(a, value, minorUnit);
    assert (a * count) * Pow10(minorUnit) == (a * Pow10(minorUnit)) * count;
    assert (100 * value) * count == 100 * (value * count);
    ToMinorUnitsIsProportional(a * count, value * count, minorUnit);
  }

  lemma ConversionIsMonotone(a: int, b: int, minorUnit: int)
    requires a <= b
    requires ToMinorUnits(a, minorUnit).Ok? && ToMinorUnits(b, minorUnit).Ok?
    ensures ToMinorUnits(a, minorUnit).value <= ToMinorUnits(b, minorUnit).value
  {
    Pow10Values();
    MulMonotone(a, b, Pow10(minorUnit));
  }

  // ---- The wallet ----------------------------------------------------------

  // What Steam's wallet data carries. minorUnit is None when the currency code
  // is unknown; an absent optional field is None.
  datatype RawWallet = RawWallet(
    currencyId: nat,
    minorUnit: Option<nat>,
    countryKnown: bool,
    marketMinimum: Option<nat>,
    feeMinimum: nat,
    currencyIncrement: Option<nat>,
    feeDisabled: bool,
    feePercent: string,
    publisherPercent: string,
    feeBase: Option<nat>)

  function OrElse<T>(value: Option<T>, fallback: T): T
  {
    match value case Some(v) => v case None => fallback
  }

  function ParseWallet(raw: RawWallet): Result<Wallet, MoneyError>
  {
    var minimum := OrElse(raw.marketMinimum, raw.feeMinimum);
    var increment := OrElse(raw.currencyIncrement, 1);
    var base := if raw.marketMinimum.Some? then 0 else OrElse(raw.feeBase, 0);
    if raw.currencyId > 1000 then Err(InvalidAmount)
    else if raw.minorUnit.None? || !raw.countryKnown then Err(UnsupportedWallet)
    else if minimum > MAX_AMOUNT || increment > MAX_AMOUNT then Err(InvalidAmount)
    else if minimum < 1 || increment < 1 || minimum % increment != 0 then Err(UnsupportedWallet)
    else
      var steamRate := ParseRate(if raw.feeDisabled then "0" else raw.feePercent);
      var publisherRate := ParseRate(raw.publisherPercent);
      if steamRate.Err? then Err(steamRate.error)
      else if publisherRate.Err? then Err(publisherRate.error)
      else if base > MAX_AMOUNT then Err(InvalidAmount)
      else if ToMinorUnits(minimum, raw.minorUnit.value).Err? then
        Err(ToMinorUnits(minimum, raw.minorUnit.value).error)
      else if ToMinorUnits(increment, raw.minorUnit.value).Err? then
        Err(ToMinorUnits(increment, raw.minorUnit.value).error)
      else
        Ok(Wallet(raw.currencyId, raw.minorUnit.value, minimum, increment,
                  steamRate.value, publisherRate.value, base))
  }

  // Everything the fee arithmetic relies on.
  predicate ValidWallet(w: Wallet)
  {
    && 1 <= w.minimum <= MAX_AMOUNT
    && 1 <= w.increment <= MAX_AMOUNT
    && w.minimum % w.increment == 0
    && ValidRate(w.steamRate)
    && ValidRate(w.publisherRate)
    && w.steamBase <= MAX_AMOUNT
    && ToMinorUnits(w.increment, w.minorUnit).Ok?
  }

  // What a wallet must carry to be usable at all.
  ghost predicate UsableWallet(raw: RawWallet)
  {
    && raw.currencyId <= 1000 && raw.minorUnit.Some? && raw.countryKnown
    && exists w :: ReadsWallet(raw, w) && ValidWallet(w) && ToMinorUnits(w.minimum, w.minorUnit).Ok?
  }

  // Which field each amount comes from. New wallets name a market minimum, and
  // for those the older minimum and the base fee are ignored.
  ghost predicate ReadsWallet(raw: RawWallet, w: Wallet)
  {
    && w.currencyId == raw.currencyId && raw.minorUnit == Some(w.minorUnit)
    && (match raw.marketMinimum
        case Some(minimum) => w.minimum == minimum && w.steamBase == 0
        case None => w.minimum == raw.feeMinimum && (raw.feeBase.Some? ==> w.steamBase == raw.feeBase.value)
                     && (raw.feeBase.None? ==> w.steamBase == 0))
    && (raw.currencyIncrement.Some? ==> w.increment == raw.currencyIncrement.value)
    && (raw.currencyIncrement.None? ==> w.increment == 1)
    && (raw.feeDisabled ==> w.steamRate == Rate(0, 1))
    && (!raw.feeDisabled ==> IsRateOf(raw.feePercent, w.steamRate))
    && IsRateOf(raw.publisherPercent, w.publisherRate)
  }

  // The rate is the decimal of the text, in as many parts as it has places.
  ghost predicate IsRateOf(text: string, rate: Rate)
  {
    && IsRateText(text) && DecimalValue(text) <= 1.0
    && rate.denominator == Pow10(|Fraction(text)|)
    && Counts(rate.numerator, DecimalValue(text), rate.denominator)
  }

  lemma ParseRateIsRateOf(text: string, rate: Rate)
    ensures ParseRate(text) == Ok(rate) <==> IsRateOf(text, rate)
  {
    ParseRateIsDecimal(text);
    assert ParseRate(text).Ok? ==> ParseRate(text).value.denominator == Pow10(|Fraction(text)|);
    hide ParseRate, DecimalValue, Pow10, Counts, IsRateText;
    if IsRateText(text) && ParseRate(text).Ok? {
      CountsOnce(ParseRate(text).value.numerator, rate.numerator, DecimalValue(text), Pow10(|Fraction(text)|));
    }
  }

  lemma CountsOnce(a: nat, b: nat, value: real, parts: nat)
    requires Counts(a, value, parts)
    ensures Counts(b, value, parts) <==> a == b
  {
    assert a as real == b as real <==> a == b;
  }

  // A wallet is accepted exactly when it is usable, and every amount is then
  // the one its field carries.
  lemma ParsedWalletIsValid(raw: RawWallet)
    ensures ParseWallet(raw).Ok? <==> UsableWallet(raw)
    ensures ParseWallet(raw).Ok? ==> ValidWallet(ParseWallet(raw).value) && ReadsWallet(raw, ParseWallet(raw).value)
  {
    forall rate ensures ParseRate(raw.feePercent) == Ok(rate) <==> IsRateOf(raw.feePercent, rate) {
      ParseRateIsRateOf(raw.feePercent, rate);
    }
    forall rate ensures ParseRate(raw.publisherPercent) == Ok(rate) <==> IsRateOf(raw.publisherPercent, rate) {
      ParseRateIsRateOf(raw.publisherPercent, rate);
    }
    ZeroRate();
    hide IsRateOf, ParseRate, ToMinorUnits;
  }

  lemma ZeroRate()
    ensures ParseRate("0") == Ok(Rate(0, 1))
  {
    assert "0" + Fraction("0") == "0" && "0"[..0] == "";
    assert DigitsValue("0") == 0;
  }

  // ---- Fees ----------------------------------------------------------------

  // Half-up rounding onto the wallet's price grid.
  function RoundToGrid(amount: nat, increment: nat): nat
    requires 0 < increment
  {
    ((2 * amount + increment) / (2 * increment)) * increment
  }

  // The rate's share of an amount, rounded down.
  function Share(base: nat, rate: Rate): nat
    requires ValidRate(rate)
  {
    base * rate.numerator / rate.denominator
  }

  function Fee(base: nat, rate: Rate, w: Wallet): nat
    requires ValidWallet(w) && ValidRate(rate)
  {
    if rate.numerator == 0 then 0
    else
      var floor := Share(base, rate);
      if floor <= w.minimum then w.minimum
      else RoundToGrid(floor, w.increment)
  }

  lemma RoundMonotone(a: nat, b: nat, increment: nat)
    requires a <= b && 0 < increment
    ensures RoundToGrid(a, increment) <= RoundToGrid(b, increment)
  {
    DivMonotone(2 * a + increment, 2 * b + increment, 2 * increment);
    MulMonotone((2 * a + increment) / (2 * increment), (2 * b + increment) / (2 * increment), increment);
  }

  lemma RoundShift(a: nat, increment: nat)
    requires 0 < increment
    ensures RoundToGrid(a + increment, increment) == RoundToGrid(a, increment) + increment
  {
    var units := (2 * a + increment) / (2 * increment);
    DivShift(2 * a + increment, 1, 2 * increment);
    assert 2 * (a + increment) + increment == 2 * a + increment + 1 * (2 * increment);
    assert (units + 1) * increment == units * increment + increment;
  }

  lemma RoundKeepsGrid(a: nat, increment: nat)
    requires 0 < increment && a % increment == 0
    ensures RoundToGrid(a, increment) == a
  {
    var k := a / increment;
    assert a == k * increment;
    assert k * (2 * increment) == 2 * a;
    DivUnique(2 * a + increment, 2 * increment, k);
  }

  // The rounded amount is the multiple of the increment nearest to the amount,
  // halves going up.
  lemma RoundIsNearest(a: nat, increment: nat)
    requires 0 < increment
    ensures RoundToGrid(a, increment) % increment == 0
    ensures 2 * RoundToGrid(a, increment) <= 2 * a + increment < 2 * RoundToGrid(a, increment) + 2 * increment
  {
    var x := 2 * a + increment;
    var units := x / (2 * increment);
    assert x == units * (2 * increment) + x % (2 * increment);
    assert units * (2 * increment) == 2 * (units * increment);
    MultipleOfIncrement(units, increment);
  }

  lemma MultipleOfIncrement(units: nat, increment: nat)
    requires 0 < increment
    ensures (units * increment) % increment == 0
    ensures (units * increment) / increment == units
  {
    DivUnique(units * increment, increment, units);
    var x := units * increment;
    assert x == (x / increment) * increment + x % increment;
  }

  lemma ShareMonotone(a: nat, b: nat, rate: Rate)
    requires ValidRate(rate) && a <= b
    ensures Share(a, rate) <= Share(b, rate)
  {
    MulMonotone(a, b, rate.numerator);
    DivMonotone(a * rate.numerator, b * rate.numerator, rate.denominator);
  }

  lemma ShareStep(base: nat, step: nat, rate: Rate)
    requires ValidRate(rate)
    ensures Share(base + step, rate) <= Share(base, rate) + step
  {
    var n, d := rate.numerator, rate.denominator;
    assert (base + step) * n == base * n + step * n;
    MulMonotone(n, d, step);
    DivMonotone((base + step) * n, base * n + step * d, d);
    DivShift(base * n, step, d);
  }

  lemma FeeMonotone(a: nat, b: nat, rate: Rate, w: Wallet)
    requires ValidWallet(w) && ValidRate(rate) && a <= b
    ensures Fee(a, rate, w) <= Fee(b, rate, w)
  {
    hide RoundToGrid, Share;
    var lowFloor, highFloor := Share(a, rate), Share(b, rate);
    ShareMonotone(a, b, rate);
    if rate.numerator != 0 && w.minimum < highFloor {
      RoundKeepsGrid(w.minimum, w.increment);
      RoundMonotone(w.minimum, highFloor, w.increment);
      RoundMonotone(lowFloor, highFloor, w.increment);
    }
  }

  // One step on the price grid raises a fee by at most one increment, because
  // no rate exceeds one.
  lemma FeeStep(base: nat, rate: Rate, w: Wallet)
    requires ValidWallet(w) && ValidRate(rate)
    ensures Fee(base + w.increment, rate, w) <= Fee(base, rate, w) + w.increment
  {
    hide RoundToGrid, Share, ToMinorUnits;
    ShareStep(base, w.increment, rate);
    ShareMonotone(base, base + w.increment, rate);
    var here := Share(base, rate);
    var next := Share(base + w.increment, rate);
    RoundKeepsGrid(w.minimum, w.increment);
    RoundShift(w.minimum, w.increment);
    RoundShift(here, w.increment);
    if w.minimum < next {
      if here <= w.minimum {
        RoundMonotone(next, w.minimum + w.increment, w.increment);
      } else {
        RoundMonotone(next, here + w.increment, w.increment);
      }
    }
  }

  lemma FeeOnGrid(base: nat, rate: Rate, w: Wallet)
    requires ValidWallet(w) && ValidRate(rate)
    ensures Fee(base, rate, w) % w.increment == 0
  {
    RoundIsNearest(Share(base, rate), w.increment);
    assert w.minimum % w.increment == 0 && 0 % w.increment == 0;
    hide RoundToGrid, Share, ValidWallet;
  }

  // The share of the base, without what is below one unit.
  ghost predicate IsShare(floor: nat, base: nat, rate: Rate)
  {
    floor * rate.denominator <= base * rate.numerator < (floor + 1) * rate.denominator
  }

  // The multiple of the increment nearest to the amount, halves going up.
  ghost predicate NearestOnGrid(rounded: nat, amount: nat, increment: nat)
    requires 0 < increment
  {
    rounded % increment == 0 && 2 * rounded <= 2 * amount + increment < 2 * rounded + 2 * increment
  }

  // A fee as Steam charges it: nothing at a rate of zero, the minimum while the
  // share is no larger, and from there the share on the price grid.
  ghost predicate IsFee(fee: nat, base: nat, rate: Rate, w: Wallet)
    requires ValidWallet(w)
  {
    if rate.numerator == 0 then fee == 0
    else exists floor: nat :: && IsShare(floor, base, rate)
                              && if floor <= w.minimum then fee == w.minimum
                                 else NearestOnGrid(fee, floor, w.increment)
  }

  lemma ShareIsFloor(base: nat, rate: Rate, floor: nat)
    requires ValidRate(rate)
    ensures IsShare(floor, base, rate) <==> floor == Share(base, rate)
  {
    var n, d := base * rate.numerator, rate.denominator;
    assert (floor + 1) * d == floor * d + d;
    if IsShare(floor, base, rate) {
      DivUnique(n, d, floor);
    }
    assert n == (n / d) * d + n % d;
  }

  // Two different multiples are at least one increment apart.
  lemma GridGap(low: nat, high: nat, increment: nat)
    requires 0 < increment && low % increment == 0 && high % increment == 0 && low < high
    ensures low + increment <= high
  {
    var p, q := low / increment, high / increment;
    assert low == p * increment && high == q * increment;
    if q < p + 1 {
      MulMonotone(q, p, increment);
    }
    MulMonotone(p + 1, q, increment);
    assert (p + 1) * increment == p * increment + increment;
  }

  lemma NearestIsUnique(a: nat, b: nat, amount: nat, increment: nat)
    requires 0 < increment && NearestOnGrid(a, amount, increment) && NearestOnGrid(b, amount, increment)
    ensures a == b
  {
    if a < b {
      GridGap(a, b, increment);
    } else if b < a {
      GridGap(b, a, increment);
    }
  }

  lemma FeeIsCharged(fee: nat, base: nat, rate: Rate, w: Wallet)
    requires ValidWallet(w) && ValidRate(rate)
    ensures fee == Fee(base, rate, w) <==> IsFee(fee, base, rate, w)
  {
    assert 0 < w.increment;
    hide ValidWallet;
    var share := Share(base, rate);
    forall floor: nat
      ensures IsShare(floor, base, rate) <==> floor == share
    {
      ShareIsFloor(base, rate, floor);
    }
    hide IsShare, Share;
    RoundIsNearest(share, w.increment);
    if NearestOnGrid(fee, share, w.increment) {
      NearestIsUnique(fee, RoundToGrid(share, w.increment), share, w.increment);
    }
    hide RoundToGrid;
  }

  // No charged fee is below the minimum, and it is the minimum exactly while
  // the exact share has not reached the next unit.
  lemma FeeAtLeastMinimum(base: nat, rate: Rate, w: Wallet)
    requires ValidWallet(w) && ValidRate(rate) && 0 < rate.numerator
    ensures w.minimum <= Fee(base, rate, w)
    ensures base * rate.numerator < (w.minimum + 1) * rate.denominator ==> Fee(base, rate, w) == w.minimum
  {
    hide ToMinorUnits;
    var share := Share(base, rate);
    ShareIsFloor(base, rate, share);
    if w.minimum < share {
      RoundKeepsGrid(w.minimum, w.increment);
      RoundMonotone(w.minimum, share, w.increment);
      MulMonotone(w.minimum + 1, share, rate.denominator);
    }
  }

  lemma ShareIgnoresTrailingZero(base: nat, rate: Rate)
    requires ValidRate(rate)
    ensures Share(base, Rate(10 * rate.numerator, 10 * rate.denominator)) == Share(base, rate)
  {
    var n, d := rate.numerator, rate.denominator;
    var floor := base * n / d;
    assert base * n == floor * d + (base * n) % d;
    assert base * (10 * n) == 10 * (base * n);
    assert floor * (10 * d) == 10 * (floor * d);
    DivUnique(base * (10 * n), 10 * d, floor);
  }

  // The way a percentage is written does not change what it costs.
  lemma FeeIgnoresTrailingZero(base: nat, rate: Rate, w: Wallet)
    requires ValidWallet(w) && ValidRate(rate)
    ensures Fee(base, Rate(10 * rate.numerator, 10 * rate.denominator), w) == Fee(base, rate, w)
  {
    ShareIgnoresTrailingZero(base, rate);
    hide Share, RoundToGrid;
  }

  // ---- Quotes --------------------------------------------------------------

  datatype Quote = Quote(base: nat, steamFee: nat, publisherFee: nat, buyerPays: nat)

  function Calculate(base: nat, w: Wallet, publisherRate: Rate): Quote
    requires ValidWallet(w) && ValidRate(publisherRate)
  {
    var steamFee := Fee(base, w.steamRate, w) + w.steamBase;
    var publisher := Fee(base, publisherRate, w);
    Quote(base, steamFee, publisher, base + steamFee + publisher)
  }

  // What a base costs the buyer: Steam's fee with the wallet's base fee, and
  // the publisher's fee, both charged on the base.
  ghost predicate IsQuote(quote: Quote, w: Wallet, publisherRate: Rate)
    requires ValidWallet(w)
  {
    && w.steamBase <= quote.steamFee
    && IsFee(quote.steamFee - w.steamBase, quote.base, w.steamRate, w)
    && IsFee(quote.publisherFee, quote.base, publisherRate, w)
    && quote.buyerPays == quote.base + quote.steamFee + quote.publisherFee
  }

  lemma CalculateIsQuote(quote: Quote, w: Wallet, publisherRate: Rate)
    requires ValidWallet(w) && ValidRate(publisherRate)
    ensures IsQuote(quote, w, publisherRate) <==> quote == Calculate(quote.base, w, publisherRate)
  {
    if w.steamBase <= quote.steamFee {
      FeeIsCharged(quote.steamFee - w.steamBase, quote.base, w.steamRate, w);
    }
    FeeIsCharged(quote.publisherFee, quote.base, publisherRate, w);
    hide Fee, IsFee;
  }

  function BuyerPays(base: nat, w: Wallet, publisherRate: Rate): nat
    requires ValidWallet(w) && ValidRate(publisherRate)
  {
    Calculate(base, w, publisherRate).buyerPays
  }

  lemma BuyerPaysStrictlyMonotone(a: nat, b: nat, w: Wallet, publisherRate: Rate)
    requires ValidWallet(w) && ValidRate(publisherRate) && a <= b
    ensures BuyerPays(a, w, publisherRate) + (b - a) <= BuyerPays(b, w, publisherRate)
  {
    hide Fee;
    FeeMonotone(a, b, w.steamRate, w);
    FeeMonotone(a, b, publisherRate, w);
  }

  predicate Listable(base: nat, w: Wallet)
    requires ValidWallet(w)
  {
    w.minimum <= base && base % w.increment == 0
  }

  // The specification of the search: nothing listable above this base fits.
  ghost predicate IsBestBase(base: nat, cap: int, w: Wallet, publisherRate: Rate)
    requires ValidWallet(w) && ValidRate(publisherRate)
  {
    && Listable(base, w)
    && BuyerPays(base, w, publisherRate) <= cap
    && forall other: nat :: Listable(other, w) && BuyerPays(other, w, publisherRate) <= cap ==> other <= base
  }

  // A listing's publisher fee overrides the wallet's default one.
  function PublisherRate(w: Wallet, publisherFee: Option<string>): Result<Rate, MoneyError>
  {
    if publisherFee.None? then Ok(w.publisherRate) else ParseRate(publisherFee.value)
  }

  // ---- The search for the best base ----------------------------------------

  function OnGrid(units: nat, w: Wallet): nat
    requires ValidWallet(w)
  {
    units * w.increment
  }

  predicate Fits(units: nat, cap: int, w: Wallet, publisherRate: Rate)
    requires ValidWallet(w) && ValidRate(publisherRate)
  {
    BuyerPays(OnGrid(units, w), w, publisherRate) <= cap
  }

  // Smaller bases fit wherever a larger one does; this is what lets the search
  // halve its range.
  lemma FitsDownward(low: nat, high: nat, cap: int, w: Wallet, rate: Rate)
    requires ValidWallet(w) && ValidRate(rate) && low <= high
    ensures Fits(high, cap, w, rate) ==> Fits(low, cap, w, rate)
  {
    hide Fee;
    MulMonotone(low, high, w.increment);
    BuyerPaysStrictlyMonotone(OnGrid(low, w), OnGrid(high, w), w, rate);
  }

  lemma NothingFitsAboveCap(units: nat, cap: int, w: Wallet, rate: Rate)
    requires ValidWallet(w) && ValidRate(rate) && cap / w.increment < units
    ensures !Fits(units, cap, w, rate)
  {
    hide Fee, ToMinorUnits;
    var q := cap / w.increment;
    assert cap == q * w.increment + cap % w.increment;
    MulMonotone(q + 1, units, w.increment);
    assert (q + 1) * w.increment == q * w.increment + w.increment;
  }

  lemma LargestFittingUnitIsBest(units: nat, cap: int, w: Wallet, rate: Rate)
    requires ValidWallet(w) && ValidRate(rate) && w.minimum / w.increment <= units
    requires Fits(units, cap, w, rate) && !Fits(units + 1, cap, w, rate)
    ensures IsBestBase(OnGrid(units, w), cap, w, rate)
    ensures BuyerPays(w.minimum, w, rate) <= cap
  {
    hide Fee, ToMinorUnits;
    var first := w.minimum / w.increment;
    assert first * w.increment == w.minimum;
    MulMonotone(first, units, w.increment);
    MultipleOfIncrement(units, w.increment);
    FitsDownward(first, units, cap, w, rate);
    forall other: nat | Listable(other, w) && BuyerPays(other, w, rate) <= cap
      ensures other <= OnGrid(units, w)
    {
      var otherUnits := other / w.increment;
      assert other == OnGrid(otherUnits, w);
      if units < otherUnits {
        FitsDownward(units + 1, otherUnits, cap, w, rate);
      }
      MulMonotone(otherUnits, units, w.increment);
    }
  }

  // The binary search, on numbers of increments.
  method QuoteFromBuyerCap(buyerCap: int, w: Wallet, publisherFee: Option<string>)
    returns (result: Result<Quote, MoneyError>)
    requires ValidWallet(w)
    ensures PublisherRate(w, publisherFee).Err? ==> result == Err(UnsupportedFee)
    ensures PublisherRate(w, publisherFee).Ok? ==>
              QuoteIsBest(result, buyerCap, w, PublisherRate(w, publisherFee).value)
  {
    hide Fee, OnGrid, ToMinorUnits, IsBestBase;
    var parsed := PublisherRate(w, publisherFee);
    if parsed.Err? {
      return Err(parsed.error);
    }
    var rate := parsed.value;
    var low: int := w.minimum / w.increment;
    var high: int := buyerCap / w.increment;
    var best: Option<Quote> := None;
    ghost var first: nat, bestUnits: nat := low, 0;
    NothingFitsAboveCap(if high < 0 then 0 else high + 1, buyerCap, w, rate);
    while low <= high
      invariant first <= low
      invariant best.None? ==> low == first
      invariant best.Some? ==> first <= bestUnits && low == bestUnits + 1 && Fits(bestUnits, buyerCap, w, rate)
      invariant best.Some? ==> best.value == Calculate(OnGrid(bestUnits, w), w, rate)
      invariant !Fits(if high < 0 then 0 else high + 1, buyerCap, w, rate)
      invariant best.Some? ==> low <= high + 1
    {
      var middle := (low + high) / 2;
      var quote := Calculate(OnGrid(middle, w), w, rate);
      if quote.buyerPays <= buyerCap {
        best := Some(quote);
        bestUnits := middle;
        low := middle + 1;
      } else {
        high := middle - 1;
      }
    }
    if best.None? {
      var above: nat := if high < 0 then 0 else high + 1;
      FirstUnitIsMinimum(w);
      FitsDownward(above, first, buyerCap, w, rate);
      return Err(BelowMinimumFees);
    }
    LargestFittingUnitIsBest(bestUnits, buyerCap, w, rate);
    return Ok(best.value);
  }

  lemma FirstUnitIsMinimum(w: Wallet)
    requires ValidWallet(w)
    ensures OnGrid(w.minimum / w.increment, w) == w.minimum
  {}

  // What the search promises: the best base with its fees, or a refusal exactly
  // when even the minimum listing costs more than the cap.
  ghost predicate QuoteIsBest(result: Result<Quote, MoneyError>, cap: int, w: Wallet, rate: Rate)
    requires ValidWallet(w) && ValidRate(rate)
  {
    match result
    case Ok(quote) => IsBestBase(quote.base, cap, w, rate) && quote == Calculate(quote.base, w, rate)
    case Err(error) => error == BelowMinimumFees && cap < BuyerPays(w.minimum, w, rate)
  }

  ghost predicate FitsCap(quote: Quote, cap: int, w: Wallet, rate: Rate)
    requires ValidWallet(w)
  {
    IsQuote(quote, w, rate) && Listable(quote.base, w) && quote.buyerPays <= cap
  }

  // The same promise over all quotes there are: the answer is one that fits and
  // no other that fits has a larger base; it is a refusal when none fits.
  lemma BestQuoteFits(result: Result<Quote, MoneyError>, cap: int, w: Wallet, rate: Rate)
    requires ValidWallet(w) && ValidRate(rate) && QuoteIsBest(result, cap, w, rate)
    ensures result.Ok? ==> FitsCap(result.value, cap, w, rate)
    ensures result.Ok? ==> forall other :: FitsCap(other, cap, w, rate) ==> other.base <= result.value.base
    ensures result.Err? ==> forall other :: !FitsCap(other, cap, w, rate)
  {
    hide ValidWallet, IsQuote, Fee;
    forall quote
      ensures FitsCap(quote, cap, w, rate) <==>
              quote == Calculate(quote.base, w, rate) && Listable(quote.base, w) && quote.buyerPays <= cap
    {
      CalculateIsQuote(quote, w, rate);
    }
    forall other | FitsCap(other, cap, w, rate)
      ensures BuyerPays(w.minimum, w, rate) <= cap
    {
      BuyerPaysStrictlyMonotone(w.minimum, other.base, w, rate);
    }
  }

  // The rate of the listing's own text when it has one, or else the wallet's.
  lemma PublisherRateInForce(w: Wallet, publisherFee: Option<string>, rate: Rate)
    ensures PublisherRate(w, publisherFee) == Ok(rate) <==>
            (publisherFee.Some? ==> IsRateOf(publisherFee.value, rate)) && (publisherFee.None? ==> rate == w.publisherRate)
  {
    if publisherFee.Some? { ParseRateIsRateOf(publisherFee.value, rate); }
  }

  // The fee grid leaves a gap below the cap of less than three increments.
  lemma QuoteGapBelowThreeIncrements(base: nat, cap: int, w: Wallet, rate: Rate)
    requires ValidWallet(w) && ValidRate(rate)
    requires IsBestBase(base, cap, w, rate)
    ensures 0 <= cap - BuyerPays(base, w, rate) < 3 * w.increment
  {
    hide Fee;
    var next := base + w.increment;
    var units := base / w.increment;
    assert base == units * w.increment;
    assert next == (units + 1) * w.increment;
    MultipleOfIncrement(units + 1, w.increment);
    assert Listable(next, w);
    FeeStep(base, w.steamRate, w);
    FeeStep(base, rate, w);
    assert cap < BuyerPays(next, w, rate);
  }

  // The bound is met: with both rates at one hundred percent and a grid of ten,
  // a cap of 59 is quoted at 30.
  lemma QuoteGapIsTight()
    ensures var full := Rate(1, 1);
            var w := Wallet(1, 2, 10, 10, full, full, 0);
            ValidWallet(w) && IsBestBase(10, 59, w, full) && 59 - BuyerPays(10, w, full) == 3 * w.increment - 1
  {
    var full := Rate(1, 1);
    var w := Wallet(1, 2, 10, 10, full, full, 0);
    Pow10Values();
    assert BuyerPays(20, w, full) == 60;
    forall other: nat | Listable(other, w) && BuyerPays(other, w, full) <= 59
      ensures other <= 10
    {
      BuyerPaysStrictlyMonotone(if other < 20 then other else 20, other, w, full);
    }
  }

  // Raising the cap never lowers what the seller receives.
  lemma HigherCapNeverPaysLess(low: nat, high: nat, lowCap: int, highCap: int, w: Wallet, rate: Rate)
    requires ValidWallet(w) && ValidRate(rate) && lowCap <= highCap
    requires IsBestBase(low, lowCap, w, rate) && IsBestBase(high, highCap, w, rate)
    ensures low <= high
    ensures BuyerPays(low, w, rate) + (high - low) <= BuyerPays(high, w, rate)
  {
    BuyerPaysStrictlyMonotone(low, high, w, rate);
  }
}
