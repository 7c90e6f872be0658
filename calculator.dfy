/**
 * The calculator component of app/page.tsx: the loaded price data, the
 * `calculateInvestment` handler with its chain of early exits, the first-match
 * lookup of the purchase-month observation, and the stored result.
 */
module Calculator {
  import opened DateKey
  import opened Returns

  datatype Option<T> = None | Some(value: T)

  /** One entry of a symbol's historical series (the `CryptoData` shape). */
  datatype Observation = Observation(date: string, price: real)

  /** Why `calculateInvestment` stopped early; each case is one of its alerts. */
  datatype Stop = StillLoading | LoadError | NoSeriesForSymbol | NoDataForDate

  /** What one call of `calculateInvestment` does: store a result or stop. */
  datatype Outcome = Done(result: InvestmentResult) | Stopped(reason: Stop)

  /** The initial current-price table (app/page.tsx:20-25). */
  function DefaultPrices(): map<string, real>
  {
    map["BTC" := 69000.0, "BNB" := 595.0, "SOL" := 175.0, "ETHER" := 2523.0]
  }

  /**
   * What the rest of the page guarantees about the data it hands the
   * calculator: every symbol with a series also has a current price (the
   * fetch loop loads exactly the four symbols of the price table), and no
   * historical price is zero (division by it has no real value).
   */
  ghost predicate Consistent(cryptoData: map<string, seq<Observation>>, currentPrices: map<string, real>)
  {
    (forall s :: s in cryptoData ==> s in currentPrices) &&
    (forall s, i :: s in cryptoData && 0 <= i < |cryptoData[s]| ==> cryptoData[s][i].price != 0.0)
  }

  /** The error message guard `if (error)`: null and the empty string are both falsy. */
  predicate HasError(error: Option<string>)
  {
    error.Some? && error.value != ""
  }

  /** `i` is the position of the first observation in `series` dated `key`. */
  ghost predicate FirstMatchAt(series: seq<Observation>, key: string, i: int)
  {
    0 <= i < |series| && series[i].date == key &&
    forall j :: 0 <= j < i ==> series[j].date != key
  }

  /** `series.find(o => o.date === key)`: the first observation dated `key`, if any. */
  function Find(series: seq<Observation>, key: string): (r: Option<Observation>)
    ensures r.None? <==> forall j :: 0 <= j < |series| ==> series[j].date != key
    ensures r.Some? ==> exists i :: FirstMatchAt(series, key, i) && series[i] == r.value
  {
    if series == [] then None
    else if series[0].date == key then
      assert FirstMatchAt(series, key, 0);
      Some(series[0])
    else
      var r := Find(series[1..], key);
      if r.Some? then
        assert forall i :: FirstMatchAt(series[1..], key, i) ==> FirstMatchAt(series, key, i + 1);
        r
      else
        assert forall j :: 1 <= j < |series| ==> series[j].date == series[1..][j - 1].date;
        r
  }

  /**
   * The reference behaviour of `calculateInvestment` (app/page.tsx:63-101)
   * for the selected symbol, the date input's value and the parsed amount:
   * the guards in their order, then the first observation of the purchase
   * month and the return arithmetic.
   */
  function Calculate(isLoading: bool, error: Option<string>,
                     cryptoData: map<string, seq<Observation>>, currentPrices: map<string, real>,
                     symbol: string, purchaseDate: string, amount: real): (r: Outcome)
    requires Consistent(cryptoData, currentPrices) && amount != 0.0
    ensures r == Stopped(StillLoading) <==> isLoading
    ensures r == Stopped(LoadError) <==> !isLoading && HasError(error)
    ensures r == Stopped(NoSeriesForSymbol) <==> !isLoading && !HasError(error) && symbol !in cryptoData
    ensures r == Stopped(NoDataForDate) <==>
      !isLoading && !HasError(error) && symbol in cryptoData &&
      forall i :: 0 <= i < |cryptoData[symbol]| ==> cryptoData[symbol][i].date != LookupKey(purchaseDate)
    ensures r.Done? <==>
      !isLoading && !HasError(error) && symbol in cryptoData &&
      exists i :: 0 <= i < |cryptoData[symbol]| && cryptoData[symbol][i].date == LookupKey(purchaseDate)
    ensures r.Done? ==>
      exists i :: FirstMatchAt(cryptoData[symbol], LookupKey(purchaseDate), i) &&
        r.result == Compute(amount, cryptoData[symbol][i].price, currentPrices[symbol])
  {
    if isLoading then Stopped(StillLoading)
    else if HasError(error) then Stopped(LoadError)
    else if symbol !in cryptoData then Stopped(NoSeriesForSymbol)
    else
      match Find(cryptoData[symbol], LookupKey(purchaseDate))
      case None => Stopped(NoDataForDate)
      case Some(purchase) =>
        Done(Compute(amount, purchase.price, currentPrices[symbol]))
  }

  /** The state `calculateInvestment` reads and writes (app/page.tsx:19-36). */
  class CryptoCalculator {
    var cryptoData: map<string, seq<Observation>>
    var currentPrices: map<string, real>
    var isLoading: bool
    var error: Option<string>
    var result: Option<InvestmentResult>

    ghost predicate Valid()
      reads this
    {
      Consistent(cryptoData, currentPrices)
    }

    /** The initial state: no data yet, still loading, default prices, no result. */
    constructor ()
      ensures Valid()
      ensures cryptoData == map[] && currentPrices == DefaultPrices()
      ensures isLoading && error == None && result == None
    {
      cryptoData := map[];
      currentPrices := DefaultPrices();
      isLoading := true;
      error := None;
      result := None;
    }

    /**
     * The Calculate button's handler. It reports which guard stopped it, and
     * writes `result`, all four fields at once, only when every guard passes.
     */
    method CalculateInvestment(selectedCrypto: string, purchaseDate: string, amount: real)
      returns (outcome: Outcome)
      requires Valid() && amount != 0.0
      modifies this`result
      ensures Valid()
      ensures outcome == Calculate(isLoading, error, cryptoData, currentPrices, selectedCrypto, purchaseDate, amount)
      ensures result == if outcome.Done? then Some(outcome.result) else old(result)
    {
      if isLoading {
        return Stopped(StillLoading);
      }
      if HasError(error) {
        return Stopped(LoadError);
      }
      if selectedCrypto !in cryptoData {
        return Stopped(NoSeriesForSymbol);
      }
      var historicalData := cryptoData[selectedCrypto];
      var formattedDate := LookupKey(purchaseDate);
      var purchasePrice := Find(historicalData, formattedDate);
      if purchasePrice.None? {
        return Stopped(NoDataForDate);
      }
      assert purchasePrice.value.price != 0.0;
      var amountPurchased := amount / purchasePrice.value.price;
      var currentValue := amountPurchased * currentPrices[selectedCrypto];
      var profitLoss := currentValue - amount;
      var profitLossPercentage := (profitLoss / amount) * 100.0;
      var computed := InvestmentResult(amountPurchased, currentValue, profitLoss, profitLossPercentage);
      assert computed == Compute(amount, purchasePrice.value.price, currentPrices[selectedCrypto]);
      assert Calculate(isLoading, error, cryptoData, currentPrices, selectedCrypto, purchaseDate, amount) == Done(computed);
      result := Some(computed);
      outcome := Done(computed);
    }
  }

  /** Every day of a month gives the same outcome: the day of the date input is ignored. */
  lemma DayIsIgnored(isLoading: bool, error: Option<string>,
                     cryptoData: map<string, seq<Observation>>, currentPrices: map<string, real>,
                     symbol: string, year: string, month: string, day1: string, day2: string, amount: real)
    requires Consistent(cryptoData, currentPrices) && amount != 0.0
    requires '-' !in year && '-' !in month && '-' !in day1 && '-' !in day2
    ensures Calculate(isLoading, error, cryptoData, currentPrices, symbol, year + "-" + month + "-" + day1, amount)
         == Calculate(isLoading, error, cryptoData, currentPrices, symbol, year + "-" + month + "-" + day2, amount)
  {
    SameMonthSameKey(year, month, day1, day2);
  }

  /**
   * Once loaded, a purchase in a month whose first day is in the series is
   * always priced, on whatever day of that month it was made.
   */
  lemma FirstOfMonthIsFound(cryptoData: map<string, seq<Observation>>, currentPrices: map<string, real>,
                            symbol: string, year: string, month: string, day: string, amount: real, k: int)
    requires Consistent(cryptoData, currentPrices) && amount != 0.0
    requires '-' !in year && '-' !in month && '-' !in day
    requires symbol in cryptoData && 0 <= k < |cryptoData[symbol]|
    requires cryptoData[symbol][k].date == month + "/01/" + year
    ensures Calculate(false, None, cryptoData, currentPrices, symbol, year + "-" + month + "-" + day, amount).Done?
  {
    IsoDateKey(year, month, day);
  }

  /**
   * An observation whose `MM/DD/YYYY` day field is not "01" is never the one
   * looked up, whatever well-formed date is entered.
   */
  lemma OffFirstNeverMatched(o: Observation, year: string, month: string, day: string)
    requires '-' !in year && '-' !in month && '-' !in day && '/' !in year && '/' !in month
    requires |Split(o.date, '/')| >= 2 && Split(o.date, '/')[1] != "01"
    ensures o.date != LookupKey(year + "-" + month + "-" + day)
  {
    IsoDateKey(year, month, day);
    if o.date == month + "/01/" + year {
      KeyFields(month, year);
    }
  }

  /** With distinct dates in the series, the lookup finds exactly the observation dated `key`. */
  lemma {:induction false} FindDistinctDates(series: seq<Observation>, key: string, k: int)
    requires forall i, j :: 0 <= i < j < |series| ==> series[i].date != series[j].date
    requires 0 <= k < |series| && series[k].date == key
    ensures Find(series, key) == Some(series[k])
  {
    if k > 0 {
      FindDistinctDates(series[1..], key, k - 1);
    }
  }

  /**
   * The worked example: 1000 dollars of BTC bought on any day of January 2024,
   * priced by the series' 01/01/2024 observation at 40000 and valued at the
   * default 69000.
   */
  lemma BitcoinScenario(day: string)
    requires '-' !in day
    ensures Calculate(false, None, map["BTC" := [Observation("01/01/2024", 40000.0)]], DefaultPrices(),
                      "BTC", "2024-01-" + day, 1000.0)
         == Done(InvestmentResult(0.025, 1725.0, 725.0, 72.5))
  {
    var series := [Observation("01/01/2024", 40000.0)];
    var data := map["BTC" := series];
    assert data.Keys == {"BTC"};
    assert Consistent(data, DefaultPrices());
    assert "2024" + "-" + "01" + "-" + day == "2024-01-" + day;
    IsoDateKey("2024", "01", day);
    assert Find(series, "01/01/2024") == Some(series[0]);
    BitcoinGainExample();
  }
}
