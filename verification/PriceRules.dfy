// The user's price rules over a quote, and the amounts of a sale row
// (apps/server/src/inventory/money.ts, service.ts and batch.ts).
module PriceRules {
  import opened Results
  import opened Money

  datatype PriceMode = LowestSellOrder | HighestBuyOrder | UnknownMode

  datatype PriceSettings = PriceSettings(
    priceMode: PriceMode,
    adjustment: int,
    delaySeconds: int,
    currencyId: Option<int>,
    minBuyerPrice: Option<int>,
    maxBuyerPrice: Option<int>)

  predicate PlainLimit(limit: Option<int>) { limit.None? || 0 <= limit.value <= MAX_AMOUNT }

  predicate WellFormed(settings: PriceSettings)
  {
    && !settings.priceMode.UnknownMode?
    && -MAX_AMOUNT <= settings.adjustment <= MAX_AMOUNT
    && 1 <= settings.delaySeconds <= 60
    && (settings.currencyId.None? || 1 <= settings.currencyId.value <= 1000)
    && PlainLimit(settings.minBuyerPrice)
    && PlainLimit(settings.maxBuyerPrice)
  }

  predicate MoneyCustomized(settings: PriceSettings)
  {
    settings.adjustment != 0 || settings.minBuyerPrice.Some? || settings.maxBuyerPrice.Some?
  }

  // An amount of the settings must be exact in Steam's units and on its grid.
  function GridError(amount: Option<int>, w: Wallet): Option<MoneyError>
    requires ValidWallet(w)
  {
    if amount.None? then None
    else
      match FromMinorUnits(amount.value, w.minorUnit)
      case Err(error) => Some(error)
      case Ok(steamAmount) => if steamAmount % w.increment != 0 then Some(OffPriceGrid) else None
  }

  function ValidatePriceSettings(w: Wallet, settings: PriceSettings): Option<MoneyError>
    requires ValidWallet(w)
  {
    if !WellFormed(settings) then Some(InvalidSettings)
    else if MoneyCustomized(settings) && settings.currencyId.None? then Some(CurrencyUnbound)
    else if settings.currencyId.Some? && settings.currencyId.value != w.currencyId then Some(CurrencyMismatch)
    else if settings.minBuyerPrice.Some? && settings.maxBuyerPrice.Some?
            && settings.minBuyerPrice.value > settings.maxBuyerPrice.value then Some(BoundsReversed)
    else if GridError(Some(settings.adjustment), w).Some? then GridError(Some(settings.adjustment), w)
    else if GridError(settings.minBuyerPrice, w).Some? then GridError(settings.minBuyerPrice, w)
    else GridError(settings.maxBuyerPrice, w)
  }

  function CheckBounds(steamPrice: int, w: Wallet, settings: PriceSettings): Option<MoneyError>
  {
    match ToMinorUnits(steamPrice, w.minorUnit)
    case Err(error) => Some(error)
    case Ok(amount) =>
      if settings.minBuyerPrice.Some? && amount < settings.minBuyerPrice.value then Some(OutsidePriceLimits)
      else if settings.maxBuyerPrice.Some? && amount > settings.maxBuyerPrice.value then Some(OutsidePriceLimits)
      else None
  }

  datatype RuledQuote = RuledQuote(quote: Quote, buyerCap: nat)

  // The buyer cap the settings ask for, or the reason there is none.
  function BuyerCap(reference: int, w: Wallet, settings: PriceSettings): Result<nat, MoneyError>
    requires ValidWallet(w)
  {
    if ValidatePriceSettings(w, settings).Some? then Err(ValidatePriceSettings(w, settings).value)
    else if reference < 1 || reference > MAX_AMOUNT || reference % w.increment != 0 then Err(UnsupportedReference)
    else
      match FromMinorUnits(settings.adjustment, w.minorUnit)
      case Err(error) => Err(error)
      case Ok(adjustment) =>
        if 1 <= reference + adjustment <= MAX_AMOUNT then Ok(reference + adjustment) else Err(CapOutOfRange)
  }

  // An amount of the settings that Steam's units express exactly, on the grid.
  ghost predicate OnWalletGrid(amount: Option<int>, w: Wallet)
    requires ValidWallet(w)
  {
    amount.Some? ==> exists steam :: Proportional(steam, amount.value, w.minorUnit) && steam % w.increment == 0
  }

  // Settings the wallet can follow: amounts of the user's own need the currency
  // they are written in, and the limits leave room.
  ghost predicate Acceptable(w: Wallet, settings: PriceSettings)
    requires ValidWallet(w)
  {
    && WellFormed(settings)
    && (settings.currencyId.Some? ==> settings.currencyId.value == w.currencyId)
    && (settings.currencyId.None? ==> settings.adjustment == 0 && settings.minBuyerPrice.None? && settings.maxBuyerPrice.None?)
    && (settings.minBuyerPrice.Some? && settings.maxBuyerPrice.Some? ==>
          settings.minBuyerPrice.value <= settings.maxBuyerPrice.value)
    && OnWalletGrid(Some(settings.adjustment), w)
    && OnWalletGrid(settings.minBuyerPrice, w)
    && OnWalletGrid(settings.maxBuyerPrice, w)
  }

  lemma GridErrorIff(amount: Option<int>, w: Wallet)
    requires ValidWallet(w)
    ensures GridError(amount, w).None? <==> OnWalletGrid(amount, w)
  {
    hide ValidWallet, FromMinorUnits, Proportional;
    if amount.Some? {
      forall steam
        ensures FromMinorUnits(amount.value, w.minorUnit) == Ok(steam) <==> Proportional(steam, amount.value, w.minorUnit)
      {
        FromMinorUnitsIsProportional(steam, amount.value, w.minorUnit);
      }
      var converted := FromMinorUnits(amount.value, w.minorUnit);
      if converted.Ok? {
        assert Proportional(converted.value, amount.value, w.minorUnit);
      }
    }
  }

  lemma SettingsAcceptedIff(w: Wallet, settings: PriceSettings)
    requires ValidWallet(w)
    ensures ValidatePriceSettings(w, settings).None? <==> Acceptable(w, settings)
  {
    GridErrorIff(Some(settings.adjustment), w);
    GridErrorIff(settings.minBuyerPrice, w);
    GridErrorIff(settings.maxBuyerPrice, w);
    hide GridError, OnWalletGrid, ValidWallet;
  }

  // Prices saved for another currency are named as such, whatever else is off
  // with them.
  lemma MismatchIsNamed(w: Wallet, settings: PriceSettings)
    requires ValidWallet(w) && WellFormed(settings)
    ensures ValidatePriceSettings(w, settings) == Some(CurrencyMismatch) <==>
            settings.currencyId.Some? && settings.currencyId.value != w.currencyId
  {
    hide ValidWallet;
  }

  // The cap is the reference price and the adjustment together, both in Steam's
  // units, and there is one exactly for acceptable settings, a reference on the
  // grid and a sum in range.
  lemma CapIsAdjustedReference(reference: int, w: Wallet, settings: PriceSettings, cap: nat)
    requires ValidWallet(w)
    ensures BuyerCap(reference, w, settings) == Ok(cap) <==>
            && Acceptable(w, settings)
            && 1 <= reference <= MAX_AMOUNT && reference % w.increment == 0
            && 1 <= cap <= MAX_AMOUNT
            && Proportional(cap - reference, settings.adjustment, w.minorUnit)
  {
    SettingsAcceptedIff(w, settings);
    FromMinorUnitsIsProportional(cap - reference, settings.adjustment, w.minorUnit);
    hide ValidatePriceSettings, Acceptable, FromMinorUnits, Proportional;
  }

  // What the user is promised about an accepted price: it is the best one
  // under the cap the settings ask for, both prices respect the limits, and
  // the gap under the cap is below three increments.
  ghost predicate PromisedQuote(ruled: RuledQuote, reference: int, w: Wallet, rate: Rate, settings: PriceSettings)
    requires ValidWallet(w) && ValidRate(rate)
  {
    && BuyerCap(reference, w, settings) == Ok(ruled.buyerCap)
    && IsBestBase(ruled.quote.base, ruled.buyerCap, w, rate)
    && ruled.quote == Calculate(ruled.quote.base, w, rate)
    && 0 <= ruled.buyerCap - ruled.quote.buyerPays < 3 * w.increment
    && InsideLimits(ruled.quote.buyerPays, w, settings)
    && InsideLimits(ruled.buyerCap, w, settings)
  }

  // The limits read as the user wrote them, in minor units.
  ghost predicate InsideLimits(steamPrice: int, w: Wallet, settings: PriceSettings)
  {
    exists amount :: && Proportional(steamPrice, amount, w.minorUnit)
                     && (settings.minBuyerPrice.Some? ==> settings.minBuyerPrice.value <= amount)
                     && (settings.maxBuyerPrice.Some? ==> amount <= settings.maxBuyerPrice.value)
  }

  ghost predicate Converts(steamAmount: int, minorUnit: int)
  {
    exists amount :: Proportional(steamAmount, amount, minorUnit)
  }

  lemma ConvertsIff(steamAmount: int, minorUnit: int)
    ensures ToMinorUnits(steamAmount, minorUnit).Ok? <==> Converts(steamAmount, minorUnit)
  {
    hide ToMinorUnits, Proportional;
    forall amount
      ensures ToMinorUnits(steamAmount, minorUnit) == Ok(amount) <==> Proportional(steamAmount, amount, minorUnit)
    {
      ToMinorUnitsIsProportional(steamAmount, amount, minorUnit);
    }
    if ToMinorUnits(steamAmount, minorUnit).Ok? {
      assert Proportional(steamAmount, ToMinorUnits(steamAmount, minorUnit).value, minorUnit);
    }
  }

  lemma CheckBoundsIsInsideLimits(steamPrice: int, w: Wallet, settings: PriceSettings)
    ensures CheckBounds(steamPrice, w, settings).None? <==> InsideLimits(steamPrice, w, settings)
    ensures CheckBounds(steamPrice, w, settings).Some? ==>
              LimitError(CheckBounds(steamPrice, w, settings).value, steamPrice, w, settings)
  {
    ConvertsIff(steamPrice, w.minorUnit);
    if ToMinorUnits(steamPrice, w.minorUnit).Err? { ToMinorUnitsNeverBreaksLimits(steamPrice, w.minorUnit); }
    hide Converts;
    hide ToMinorUnits, Proportional;
    forall amount
      ensures ToMinorUnits(steamPrice, w.minorUnit) == Ok(amount) <==> Proportional(steamPrice, amount, w.minorUnit)
    {
      ToMinorUnitsIsProportional(steamPrice, amount, w.minorUnit);
    }
    var converted := ToMinorUnits(steamPrice, w.minorUnit);
    if converted.Ok? {
      assert Proportional(steamPrice, converted.value, w.minorUnit);
    }
  }

  // Some rate is in force, a cap exists, the minimum listing fits under it and
  // the best quote under it lies inside the limits.
  ghost predicate QuoteExists(
      reference: int, w: Wallet, publisherFee: Option<string>, settings: PriceSettings)
    requires ValidWallet(w)
  {
    && BuyerCap(reference, w, settings).Ok?
    && PublisherRate(w, publisherFee).Ok?
    && var cap := BuyerCap(reference, w, settings).value;
       var rate := PublisherRate(w, publisherFee).value;
       && InsideLimits(cap, w, settings)
       && exists base :: IsBestBase(base, cap, w, rate) && InsideLimits(BuyerPays(base, w, rate), w, settings)
  }

  // A price outside the limits is refused as such, one that does not convert
  // for that reason.
  ghost predicate LimitError(error: MoneyError, steamPrice: int, w: Wallet, settings: PriceSettings)
  {
    && !InsideLimits(steamPrice, w, settings)
    && if Converts(steamPrice, w.minorUnit) then error == OutsidePriceLimits
       else error == InvalidAmount || error == OutsidePrecision
  }

  // Why there is no price, in the order the reasons are looked for.
  ghost predicate RefusedFor(error: MoneyError, reference: int, w: Wallet, publisherFee: Option<string>, settings: PriceSettings)
    requires ValidWallet(w)
  {
    match BuyerCap(reference, w, settings)
    case Err(reason) => error == reason
    case Ok(cap) =>
      if !InsideLimits(cap, w, settings) then LimitError(error, cap, w, settings)
      else
        match PublisherRate(w, publisherFee)
        case Err(_) => error == UnsupportedFee
        case Ok(rate) =>
          if cap < BuyerPays(w.minimum, w, rate) then error == BelowMinimumFees
          else exists base :: IsBestBase(base, cap, w, rate) && LimitError(error, BuyerPays(base, w, rate), w, settings)
  }

  method QuoteWithRules(reference: int, w: Wallet, publisherFee: Option<string>, settings: PriceSettings)
    returns (result: Result<RuledQuote, MoneyError>)
    requires ValidWallet(w)
    ensures result.Ok? <==> QuoteExists(reference, w, publisherFee, settings)
    ensures result.Ok? ==> PromisedQuote(result.value, reference, w, PublisherRate(w, publisherFee).value, settings)
    ensures result.Err? ==> RefusedFor(result.error, reference, w, publisherFee, settings)
  {
    hide Fee, ValidatePriceSettings, ToMinorUnits, FromMinorUnits, Listable, InsideLimits, ParseRate, BuyerCap, LimitError;
    var cap := BuyerCap(reference, w, settings);
    if cap.Err? {
      return Err(cap.error);
    }
    var buyerCap := cap.value;
    CheckBoundsIsInsideLimits(buyerCap, w, settings);
    var outside := CheckBounds(buyerCap, w, settings);
    if outside.Some? {
      return Err(outside.value);
    }
    var quoted := QuoteFromBuyerCap(buyerCap, w, publisherFee);
    NoBestBaseBelowMinimum(buyerCap, w, publisherFee);
    if quoted.Err? {
      return Err(quoted.error);
    }
    var quote := quoted.value;
    hide IsBestBase;
    ghost var rate := PublisherRate(w, publisherFee).value;
    CheckBoundsIsInsideLimits(quote.buyerPays, w, settings);
    BestBaseIsUnique(buyerCap, w, rate);
    QuoteGapBelowThreeIncrements(quote.base, buyerCap, w, rate);
    assert quote.buyerPays == BuyerPays(quote.base, w, rate);
    // The grid can leave the quote below the user's lower limit.
    outside := CheckBounds(quote.buyerPays, w, settings);
    if outside.Some? {
      return Err(outside.value);
    }
    return Ok(RuledQuote(quote, buyerCap));
  }

  lemma BestBaseIsUnique(cap: int, w: Wallet, rate: Rate)
    requires ValidWallet(w) && ValidRate(rate)
    ensures forall a, b :: IsBestBase(a, cap, w, rate) && IsBestBase(b, cap, w, rate) ==> a == b
  {
    hide Fee, ToMinorUnits;
  }

  lemma NoBestBaseBelowMinimum(cap: int, w: Wallet, publisherFee: Option<string>)
    requires ValidWallet(w)
    ensures PublisherRate(w, publisherFee).Ok? ==>
              var rate := PublisherRate(w, publisherFee).value;
              cap < BuyerPays(w.minimum, w, rate) ==> forall base :: !IsBestBase(base, cap, w, rate)
  {
    hide Fee, ToMinorUnits, ParseRate;
    if PublisherRate(w, publisherFee).Ok? {
      var rate := PublisherRate(w, publisherFee).value;
      forall base | IsBestBase(base, cap, w, rate)
        ensures BuyerPays(w.minimum, w, rate) <= cap
      {
        BuyerPaysStrictlyMonotone(w.minimum, base, w, rate);
      }
    }
  }

  // The second limit check can only fail on the lower side: a price under a cap
  // that respects the upper limit respects it too.
  lemma QuoteNeverBreaksUpperLimit(steamPrice: int, cap: int, w: Wallet, settings: PriceSettings)
    requires steamPrice <= cap
    requires CheckBounds(cap, w, settings).None?
    requires CheckBounds(steamPrice, w, settings) == Some(OutsidePriceLimits)
    ensures settings.minBuyerPrice.Some?
    ensures ToMinorUnits(steamPrice, w.minorUnit).Ok?
    ensures ToMinorUnits(steamPrice, w.minorUnit).value < settings.minBuyerPrice.value
  {
    hide ToMinorUnits;
    if ToMinorUnits(steamPrice, w.minorUnit).Ok? {
      ConversionIsMonotone(steamPrice, cap, w.minorUnit);
    } else {
      ToMinorUnitsNeverBreaksLimits(steamPrice, w.minorUnit);
    }
  }

  lemma ToMinorUnitsNeverBreaksLimits(steamPrice: int, minorUnit: int)
    requires ToMinorUnits(steamPrice, minorUnit).Err?
    ensures ToMinorUnits(steamPrice, minorUnit).error != OutsidePriceLimits
  {}

  // ---- Sale rows -------------------------------------------------------------

  datatype Row = Row(buyerPays: Option<int>, sellerReceives: Option<int>,
                     steamFee: Option<int>, publisherFee: Option<int>, ready: bool)

  const UnavailableRow := Row(None, None, None, None, false)

  // The row of a batch preview: totals are converted, fees are converted per
  // item and multiplied. A conversion that throws makes the row unavailable.
  function SaleRow(quote: Quote, quantity: nat, minorUnit: int): Row
  {
    var buyerPays := ToMinorUnits(quote.buyerPays * quantity, minorUnit);
    var sellerReceives := ToMinorUnits(quote.base * quantity, minorUnit);
    var steamFee := ToMinorUnits(quote.steamFee, minorUnit);
    var publisherFee := ToMinorUnits(quote.publisherFee, minorUnit);
    if buyerPays.Err? || sellerReceives.Err? || steamFee.Err? || publisherFee.Err?
       || ToMinorUnits(quote.buyerPays, minorUnit).Err? || ToMinorUnits(quote.base, minorUnit).Err? then UnavailableRow
    else Row(Some(buyerPays.value), Some(sellerReceives.value),
             Some(steamFee.value * quantity), Some(publisherFee.value * quantity), true)
  }

  // A row is ready exactly when the prices of one item and of all of them
  // convert, and it shows these amounts.
  lemma SaleRowIsExact(quote: Quote, quantity: nat, minorUnit: int)
    ensures var row := SaleRow(quote, quantity, minorUnit);
            && (row.ready <==>
                  && Converts(quote.buyerPays, minorUnit) && Converts(quote.buyerPays * quantity, minorUnit)
                  && Converts(quote.base, minorUnit) && Converts(quote.base * quantity, minorUnit)
                  && Converts(quote.steamFee, minorUnit) && Converts(quote.publisherFee, minorUnit))
            && (!row.ready ==> row == UnavailableRow)
            && (row.ready ==>
                  && row.buyerPays.Some? && Proportional(quote.buyerPays * quantity, row.buyerPays.value, minorUnit)
                  && row.sellerReceives.Some? && Proportional(quote.base * quantity, row.sellerReceives.value, minorUnit)
                  && (forall fee :: Proportional(quote.steamFee, fee, minorUnit) ==> row.steamFee == Some(fee * quantity))
                  && (forall fee :: Proportional(quote.publisherFee, fee, minorUnit) ==> row.publisherFee == Some(fee * quantity)))
  {
    forall steamAmount, amount
      ensures ToMinorUnits(steamAmount, minorUnit) == Ok(amount) <==> Proportional(steamAmount, amount, minorUnit)
    {
      ToMinorUnitsIsProportional(steamAmount, amount, minorUnit);
    }
    ConvertsIff(quote.buyerPays, minorUnit);
    ConvertsIff(quote.buyerPays * quantity, minorUnit);
    ConvertsIff(quote.base, minorUnit);
    ConvertsIff(quote.base * quantity, minorUnit);
    ConvertsIff(quote.steamFee, minorUnit);
    ConvertsIff(quote.publisherFee, minorUnit);
    hide ToMinorUnits, Proportional, Converts;
  }

  // An amount that Steam's hundredths and the currency's minor units share.
  predicate Exact(amount: nat, minorUnit: nat) { amount * Pow10(minorUnit) % 100 == 0 }

  lemma ExactConverts(amount: nat, minorUnit: nat)
    requires minorUnit <= 3 && amount <= 100 * MAX_AMOUNT
    ensures Converts(amount, minorUnit) <==> Exact(amount, minorUnit)
  {
    Pow10Values();
    var scaled := amount * Pow10(minorUnit);
    if Exact(amount, minorUnit) {
      assert Proportional(amount, scaled / 100, minorUnit);
    }
  }

  lemma ExactSum(a: nat, b: nat, minorUnit: nat)
    requires Exact(a, minorUnit) && Exact(b, minorUnit)
    ensures Exact(a + b, minorUnit)
  {
    hide Pow10;
    var x, y := a * Pow10(minorUnit) / 100, b * Pow10(minorUnit) / 100;
    assert a * Pow10(minorUnit) == 100 * x && b * Pow10(minorUnit) == 100 * y;
    assert (a + b) * Pow10(minorUnit) == 100 * (x + y) by {
      assert (a + b) * Pow10(minorUnit) == a * Pow10(minorUnit) + b * Pow10(minorUnit);
    }
  }

  lemma ExactMultiple(a: nat, count: nat, minorUnit: nat)
    requires Exact(a, minorUnit)
    ensures Exact(a * count, minorUnit)
  {
    hide Pow10;
    var hundreds := a * Pow10(minorUnit) / 100;
    assert a * Pow10(minorUnit) == 100 * hundreds;
    assert a * count * Pow10(minorUnit) == 100 * (hundreds * count) by {
      assert a * count * Pow10(minorUnit) == (a * Pow10(minorUnit)) * count;
    }
  }

  lemma GridIsExact(amount: nat, w: Wallet)
    requires ValidWallet(w) && amount % w.increment == 0
    ensures w.minorUnit <= 3 && Exact(amount, w.minorUnit)
  {
    ExactMultiple(w.increment, amount / w.increment, w.minorUnit);
    assert w.increment * (amount / w.increment) == amount;
  }

  lemma QuoteIsExact(quote: Quote, w: Wallet, rate: Rate)
    requires ValidWallet(w) && ValidRate(rate) && FitsCap(quote, MAX_AMOUNT, w, rate) && Exact(w.steamBase, w.minorUnit)
    ensures w.minorUnit <= 3
    ensures Exact(quote.base, w.minorUnit) && Exact(quote.steamFee, w.minorUnit)
    ensures Exact(quote.publisherFee, w.minorUnit) && Exact(quote.buyerPays, w.minorUnit)
    ensures quote.buyerPays == quote.base + quote.steamFee + quote.publisherFee <= MAX_AMOUNT
  {
    var m, fee := w.minorUnit, quote.steamFee - w.steamBase;
    FeeIsCharged(fee, quote.base, w.steamRate, w);
    FeeIsCharged(quote.publisherFee, quote.base, rate, w);
    FeeOnGrid(quote.base, w.steamRate, w);
    FeeOnGrid(quote.base, rate, w);
    hide Exact, Fee, IsFee, ToMinorUnits, ValidRate;
    GridIsExact(quote.base, w);
    GridIsExact(fee, w);
    GridIsExact(quote.publisherFee, w);
    hide ValidWallet;
    ExactSum(fee, w.steamBase, m);
    ExactSum(quote.base, quote.steamFee, m);
    ExactSum(quote.base + quote.steamFee, quote.publisherFee, m);
  }

  lemma TotalConverts(amount: nat, quantity: nat, minorUnit: nat)
    requires minorUnit <= 3 && amount <= MAX_AMOUNT && quantity <= 100 && Exact(amount, minorUnit)
    ensures Converts(amount, minorUnit) && Converts(amount * quantity, minorUnit)
  {
    hide Exact, Converts;
    ExactMultiple(amount, quantity, minorUnit);
    Money.MulMonotone(quantity, 100, amount);
    assert amount * quantity <= 100 * amount;
    ExactConverts(amount, minorUnit);
    ExactConverts(amount * quantity, minorUnit);
  }

  // A quote always gives a ready row, for any quantity that can be sold at once,
  // where the wallet's base fee converts; the wallets with a market minimum have
  // none.
  lemma QuotedRowIsReady(quote: Quote, quantity: nat, w: Wallet, rate: Rate)
    requires ValidWallet(w) && ValidRate(rate) && FitsCap(quote, MAX_AMOUNT, w, rate)
    requires quantity <= 100 && Exact(w.steamBase, w.minorUnit)
    ensures SaleRow(quote, quantity, w.minorUnit).ready
  {
    hide *;
    QuoteIsExact(quote, w, rate);
    TotalConverts(quote.base, quantity, w.minorUnit);
    TotalConverts(quote.buyerPays, quantity, w.minorUnit);
    TotalConverts(quote.steamFee, 1, w.minorUnit);
    TotalConverts(quote.publisherFee, 1, w.minorUnit);
    SaleRowIsExact(quote, quantity, w.minorUnit);
  }

  predicate Balanced(row: Row)
  {
    row.ready ==> && row.buyerPays.Some? && row.sellerReceives.Some?
                  && row.steamFee.Some? && row.publisherFee.Some?
                  && row.buyerPays.value
                     == row.sellerReceives.value + row.steamFee.value + row.publisherFee.value
  }

  // Converting the totals and converting the fees per item agree to the unit.
  lemma SaleRowBalances(quote: Quote, quantity: nat, minorUnit: int)
    requires quote.buyerPays == quote.base + quote.steamFee + quote.publisherFee
    ensures Balanced(SaleRow(quote, quantity, minorUnit))
  {
    var row := SaleRow(quote, quantity, minorUnit);
    if row.ready {
      var unit := Pow10(minorUnit);
      var steamFee := ToMinorUnits(quote.steamFee, minorUnit).value;
      var publisherFee := ToMinorUnits(quote.publisherFee, minorUnit).value;
      ToMinorUnitsIsProportional(quote.buyerPays * quantity, row.buyerPays.value, minorUnit);
      ToMinorUnitsIsProportional(quote.base * quantity, row.sellerReceives.value, minorUnit);
      ToMinorUnitsIsProportional(quote.steamFee, steamFee, minorUnit);
      ToMinorUnitsIsProportional(quote.publisherFee, publisherFee, minorUnit);
      ScaleProportion(quote.steamFee, steamFee, unit, quantity);
      ScaleProportion(quote.publisherFee, publisherFee, unit, quantity);
      DistributeTotal(quote.base, quote.steamFee, quote.publisherFee, quantity, unit);
    }
  }

  lemma ScaleProportion(steamAmount: int, amount: int, unit: int, count: int)
    requires steamAmount * unit == 100 * amount
    ensures steamAmount * count * unit == 100 * (amount * count)
  {
    assert steamAmount * count * unit == (steamAmount * unit) * count;
  }

  lemma DistributeTotal(a: int, b: int, c: int, count: int, unit: int)
    ensures (a + b + c) * count * unit == a * count * unit + b * count * unit + c * count * unit
  {
    assert (a + b + c) * count == a * count + b * count + c * count;
  }

  // The totals of a batch preview: an absent amount counts as zero.
  function Total(rows: seq<Row>, amount: Row -> Option<int>): int
  {
    if rows == [] then 0
    else Total(rows[..|rows| - 1], amount) + OrElse(amount(rows[|rows| - 1]), 0)
  }

  // One row counts with its amount, and the totals of two batches add up.
  lemma {:induction false} TotalsAddUp(first: seq<Row>, second: seq<Row>, amount: Row -> Option<int>)
    ensures Total(first + second, amount) == Total(first, amount) + Total(second, amount)
    ensures forall row: Row :: Total([row], amount) == OrElse(amount(row), 0)
    decreases |second|
  {
    assert forall row: Row :: [row][..0] == [];
    if second == [] {
      assert first + second == first;
    } else {
      var rest := second[..|second| - 1];
      assert (first + second)[..|first + second| - 1] == first + rest;
      TotalsAddUp(first, rest, amount);
    }
  }

  // Whatever rows are unavailable, a batch's buyer total is exactly its seller
  // total plus the fees shown on its rows.
  lemma {:induction false} BatchTotalsBalance(rows: seq<Row>)
    requires forall i :: 0 <= i < |rows| ==> Balanced(rows[i]) && (rows[i].ready || rows[i] == UnavailableRow)
    ensures Total(rows, (row: Row) => row.buyerPays)
         == Total(rows, (row: Row) => row.sellerReceives)
            + Total(rows, (row: Row) => row.steamFee) + Total(rows, (row: Row) => row.publisherFee)
  {
    if rows != [] {
      assert Balanced(rows[|rows| - 1]);
      BatchTotalsBalance(rows[..|rows| - 1]);
    }
  }
}
