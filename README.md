# Crypto investment calculator: a verified model

This project models the calculation at the heart of the crypto-calculator web
page: given the historical price series of four cryptocurrencies (BTC, SOL,
ETHER, BNB), a table of current prices, a selected symbol, a purchase date
and a dollar amount, the Calculate button's handler `calculateInvestment`
works out how much of the asset the amount would have bought, what that is
worth now, and the profit or loss in dollars and per cent.

The handler runs a chain of early exits (data still loading, loading failed,
no series for the symbol), rewrites the date input's `YYYY-MM-DD` value into
the series' `MM/01/YYYY` form, takes the first observation carrying exactly
that date, and only then stores a new result. The model has three modules:

- `DateKey` (date_key.dfy): JavaScript's `split` on one character, the
  destructuring of its pieces (a missing piece reads as the text
  `undefined`), and the lookup key. Lemmas show that a well-formed date
  `Y-M-D` is keyed as exactly `M/01/Y`, that the day is thrown away, and that
  month and year are kept.
- `Returns` (returns.dfy): the four return formulas over exact reals, and the
  sign rule that labels a result "Profit" or "Loss".
- `Calculator` (calculator.dfy): the `CryptoData` observation shape, the
  first-match lookup `Find`, the reference function `Calculate` for the whole
  handler, and the class `CryptoCalculator` holding the page state. Its method
  `CalculateInvestment` runs the guards in the source's order. It is proved to
  agree with `Calculate` and to leave `result` untouched on every early exit.

The handler's form inputs (selected symbol, date text, parsed amount) are
parameters of `CalculateInvestment`. The loaded data, the current prices, the
loading and error flags and the result are fields of the class. The alert the
source shows on an early exit is returned as the reason in `Outcome`.

The handler does not validate the amount, does not reject a symbol beyond
checking that a series was loaded for it, does not guard against a zero
historical price, and compares dates as text after replacing the day by `01`.
The model adds none of these checks; the zero-amount and zero-price cases are
excluded by preconditions (see Left out).

## Model

| member | source | states |
|---|---|---|
| `DateKey.Split` | app/page.tsx:80 | `split('-')` yields one more piece than there are separators, no piece holds the separator, and joining the pieces with it gives back the input |
| `DateKey.SplitJoin` | app/page.tsx:80 | splitting undoes joining when no piece contains the separator, so the pieces of a well-formed date are exactly its fields |
| `DateKey.IsoDateKey` | app/page.tsx:80-81 | for a date `Y-M-D` the lookup key is exactly `M + "/01/" + Y` |
| `DateKey.SameMonthSameKey` | app/page.tsx:80-81 | two dates in the same year and month give the same key whatever their days |
| `DateKey.KeyDeterminesMonthAndYear` | app/page.tsx:80-81 | equal keys of well-formed dates mean equal month and equal year: only the day is lost |
| `DateKey.KeyFields` | app/page.tsx:81 | the key, read back as `MM/DD/YYYY`, always has day field `01` |
| `DateKey.EmptyDateKey` | app/page.tsx:80-81 | an unset date input (empty text) gives the key `undefined/01/` |
| `Returns.Compute` | app/page.tsx:90-93 | quantity times purchase price is the amount, value is quantity times current price, profit plus amount is the value, percentage times amount is 100 times profit |
| `Returns.PercentageIsPriceChange` | app/page.tsx:90-93 | with positive amount and prices the percentage is `(current / purchase - 1) * 100` |
| `Returns.PercentageIndependentOfAmount` | app/page.tsx:90-93 | the percentage is the same for every positive amount invested |
| `Returns.ProfitIffPriceNotFallen` | app/page.tsx:168 | with positive amount and purchase price, the label is Profit iff the current price is at least the purchase price |
| `Returns.PercentageSignMatchesProfit` | app/page.tsx:92-93 | for a positive amount, the percentage is non-negative iff the profit is |
| `Returns.BitcoinGainExample` | app/page.tsx:90-93 | 1000 dollars at 40000, valued at 69000, gives 0.025 units, 1725, 725 and 72.5 per cent, labelled Profit |
| `Returns.BitcoinLossExample` | app/page.tsx:90-93 | the same purchase valued at 30000 gives 750, -250 and -25 per cent, labelled Loss |
| `Calculator.Find` | app/page.tsx:83 | no result iff no observation carries the key; otherwise the result is the observation at the first position carrying it |
| `Calculator.Calculate` | app/page.tsx:63-101 | each of the five outcomes is characterised both ways: StillLoading iff loading; LoadError iff not loading and an error is set; NoSeriesForSymbol iff those pass and the symbol has no series; NoDataForDate iff those pass and no observation carries the key; a result iff all guards pass and some observation carries the key, and it is the return computed from the first such observation's price and the symbol's current price |
| `Calculator.CryptoCalculator.constructor` | app/page.tsx:19-36 | initial state: no data, default prices, loading, no error, no result |
| `Calculator.CryptoCalculator.CalculateInvestment` | app/page.tsx:63-101 | keeps the state valid; the outcome is the one `Calculate` gives; `result` becomes the new result, all four fields at once, on success and keeps its previous value on every early exit |
| `Calculator.DayIsIgnored` | app/page.tsx:80-83 | the whole handler gives the same outcome for every day of the same month |
| `Calculator.FirstOfMonthIsFound` | app/page.tsx:80-88 | once loaded without error, a month whose first day is in the symbol's series is always priced, whatever day was entered |
| `Calculator.OffFirstNeverMatched` | app/page.tsx:81-83 | an observation whose day field is not `01` is never matched by a well-formed date |
| `Calculator.FindDistinctDates` | app/page.tsx:83 | in a series with distinct dates, the lookup returns exactly the observation carrying the key |
| `Calculator.BitcoinScenario` | app/page.tsx:79-100 | BTC bought for 1000 on any day of January 2024 against a `01/01/2024` observation at 40000 and the default price 69000 yields 0.025, 1725, 725 and 72.5 per cent |

## Left out

- The fetch loop that loads `/data/*.json` (app/page.tsx:38-61): network I/O and asynchronous error handling. The fields it sets are plain fields that callers assign.
- The form handlers and React state hooks (app/page.tsx:103-109): the form values are parameters of `CalculateInvestment`.
- Rendering, `alert` text, `toFixed` formatting and `Math.abs` display (app/page.tsx:111-182), and all of app/layout.tsx.
- `parseFloat` and IEEE floating point: the amount is taken as a `real` already parsed. Empty or non-numeric amounts (NaN) and a zero historical price (Infinity) have no real counterpart.
- Calculator.CryptoCalculator.CalculateInvestment: requires a nonzero amount and nonzero historical prices (`Consistent`), and every symbol with a series to have a current price. The source divides without these checks and would produce NaN or Infinity instead.
- Calculator.Calculate: requires the same nonzero amount, nonzero prices and current price for each loaded symbol, for the same reason.
- Returns.Compute: requires a nonzero amount and purchase price, because real division by zero is undefined.
- Property lookups that reach JavaScript's object prototype (a symbol such as `constructor`): the data are modelled as maps holding only what was loaded.
