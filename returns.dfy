/**
 * The return arithmetic of the calculator (app/page.tsx:90-93) and the sign
 * rule that labels a result "Profit" or "Loss" (app/page.tsx:168), over exact
 * reals.
 */
module Returns {

  /** The four numbers the calculator stores as its result. */
  datatype InvestmentResult = InvestmentResult(
    amountPurchased: real,
    currentValue: real,
    profitLoss: real,
    profitLossPercentage: real)

  /** How the page labels a result. */
  datatype Label = Profit | Loss

  /**
   * The result of investing `amount` dollars at `purchasePrice` and valuing
   * the holding at `currentPrice`. Each field is the unique solution of the
   * equation the source evaluates: quantity times purchase price is the amount
   * paid, value is quantity times current price, profit is what the value
   * exceeds the amount by, and the percentage is that excess per hundred
   * dollars invested.
   */
  function Compute(amount: real, purchasePrice: real, currentPrice: real): (r: InvestmentResult)
    requires amount != 0.0 && purchasePrice != 0.0
    ensures r.amountPurchased * purchasePrice == amount
    ensures r.currentValue == r.amountPurchased * currentPrice
    ensures r.profitLoss + amount == r.currentValue
    ensures r.profitLossPercentage * amount == r.profitLoss * 100.0
  {
    var amountPurchased := amount / purchasePrice;
    var currentValue := amountPurchased * currentPrice;
    var profitLoss := currentValue - amount;
    InvestmentResult(amountPurchased, currentValue, profitLoss, (profitLoss / amount) * 100.0)
  }

  /** A non-negative profit is labelled "Profit", a negative one "Loss". */
  function LabelOf(r: InvestmentResult): Label
  {
    if r.profitLoss >= 0.0 then Profit else Loss
  }

  /** With positive amount and prices, the return is the relative price change. */
  lemma PercentageIsPriceChange(amount: real, purchasePrice: real, currentPrice: real)
    requires amount > 0.0 && purchasePrice > 0.0 && currentPrice > 0.0
    ensures Compute(amount, purchasePrice, currentPrice).profitLossPercentage
         == (currentPrice / purchasePrice - 1.0) * 100.0
  {
    var r := Compute(amount, purchasePrice, currentPrice);
    var ratio := currentPrice / purchasePrice;
    assert r.amountPurchased == amount / purchasePrice;
    assert r.currentValue == amount * ratio by {
      assert amount / purchasePrice * currentPrice == amount * (currentPrice / purchasePrice);
    }
    assert r.profitLoss == amount * (ratio - 1.0);
    calc {
      r.profitLossPercentage * amount;
      r.profitLoss * 100.0;
      (amount * (ratio - 1.0)) * 100.0;
      ((ratio - 1.0) * 100.0) * amount;
    }
    CancelFactor(r.profitLossPercentage, (ratio - 1.0) * 100.0, amount);
  }

  /** A nonzero factor cancels from both sides of an equation. */
  lemma CancelFactor(x: real, y: real, k: real)
    requires k != 0.0 && x * k == y * k
    ensures x == y
  {
    assert (x - y) * k == 0.0;
  }

  /** The percentage does not depend on how much was invested. */
  lemma PercentageIndependentOfAmount(a1: real, a2: real, purchasePrice: real, currentPrice: real)
    requires a1 > 0.0 && a2 > 0.0 && purchasePrice > 0.0 && currentPrice > 0.0
    ensures Compute(a1, purchasePrice, currentPrice).profitLossPercentage
         == Compute(a2, purchasePrice, currentPrice).profitLossPercentage
  {
    PercentageIsPriceChange(a1, purchasePrice, currentPrice);
    PercentageIsPriceChange(a2, purchasePrice, currentPrice);
  }

  /** The result is labelled "Profit" exactly when the price has not fallen. */
  lemma ProfitIffPriceNotFallen(amount: real, purchasePrice: real, currentPrice: real)
    requires amount > 0.0 && purchasePrice > 0.0
    ensures LabelOf(Compute(amount, purchasePrice, currentPrice)) == Profit
        <==> currentPrice >= purchasePrice
  {
    var r := Compute(amount, purchasePrice, currentPrice);
    var q := amount / purchasePrice;
    assert q > 0.0;
    assert r.profitLoss == q * (currentPrice - purchasePrice) by {
      assert q * purchasePrice == amount;
    }
    if currentPrice >= purchasePrice {
      assert q * (currentPrice - purchasePrice) >= 0.0;
    } else {
      assert q * (purchasePrice - currentPrice) > 0.0;
    }
  }

  /** The percentage has the same sign as the profit, so either one decides the label. */
  lemma PercentageSignMatchesProfit(amount: real, purchasePrice: real, currentPrice: real)
    requires amount > 0.0 && purchasePrice != 0.0
    ensures var r := Compute(amount, purchasePrice, currentPrice);
      (r.profitLossPercentage >= 0.0 <==> r.profitLoss >= 0.0)
  {
    var r := Compute(amount, purchasePrice, currentPrice);
    var f := r.profitLoss / amount;
    assert f * amount == r.profitLoss;
    if r.profitLoss >= 0.0 {
      assert f >= 0.0;
    } else {
      assert f < 0.0;
    }
  }

  /** Bitcoin bought at 40000 with 1000 dollars, valued at the default 69000. */
  lemma BitcoinGainExample()
    ensures Compute(1000.0, 40000.0, 69000.0) == InvestmentResult(0.025, 1725.0, 725.0, 72.5)
    ensures LabelOf(Compute(1000.0, 40000.0, 69000.0)) == Profit
  {
  }

  /** The same purchase valued at 30000 is a 25 percent loss. */
  lemma BitcoinLossExample()
    ensures Compute(1000.0, 40000.0, 30000.0) == InvestmentResult(0.025, 750.0, -250.0, -25.0)
    ensures LabelOf(Compute(1000.0, 40000.0, 30000.0)) == Loss
  {
  }
}
