# City Gross receipt summary — Dafny model

`citygross.py` logs in to the City Gross public API, downloads the user's
receipts and prints one table row per article bought. Its only logic is a
two-stage pipeline, and this project models that pipeline and proves what
it promises.

1. **Aggregation** (`parse_receipts`). One pass goes over the decoded receipts
   and, inside each receipt, over its item lines. It fills a dictionary from
   article number to `Article(name, purchases)`. The entry is created, named
   after the line's `itemText`, the first time its number is seen. Every line,
   the first one included, then appends `Purchase(unitPrice, total)`. A missing
   key (`items`, `article`, `itemNumber`, `itemText`, `unitPrice`, `total`)
   raises `KeyError` and aborts the pass.
2. **Report** (`list_of_purchases`). The dictionary's values are sorted. Python
   compares the `Article` tuples by name, then by purchase list. One row is
   emitted per article: `(count, name, sum of totals, unit prices joined with ", ")`.

Modules, one per stage:

- `Receipts` (receipts.dfy) holds the decoded JSON shapes. Every key the
  source looks up is an `Option`, so an absent key is explicit. The module
  also holds the `Purchase`/`Article` records and the reading of item lines.
  The error is `Failure(KeyError(key))`.
- `Aggregation` (aggregation.dfy) holds the grouping pass. `Aggregate` and
  `FirstSeen` are specification functions. `ParseReceipts` is the source's
  loop over the receipts. `RecordItems` is its inner loop over one receipt's
  lines, written as a method of its own. Both are proved equal to the
  specification functions. A Python dict keeps insertion order, so
  the result `ArticleDict` holds both the key order and the map.
  `dict.values()` is `ArticleDict.Values`.
- `Ordering` (ordering.dfy) holds Python's comparison of `str`, of lists of
  tuples and of `Article` tuples, proved to be a total order. `sorted()` is
  an insertion sort. Its result is proved to be the only non-decreasing
  permutation, so it equals what any sorting algorithm returns.
- `Report` (report.dfy) holds `list_of_purchases` and `print_receipts`, minus
  the network and the printing. Alongside it are the reference definitions the
  rows are proved against, computed from the item lines alone.
- `Scenarios` (scenarios.dfy) holds two worked examples. In the first, two
  receipts that each buy "Milk" give the row `(2, "Milk", 22, "10, 12")`. In
  the second, a line without `unitPrice` fails the whole pass.

Prices are integers in minor currency units. `str(price)` is a parameter
`show: Price -> string` of the report functions, and nothing is assumed
about it. The one exception is the unit-price round trip, which requires
that `show` never produces a comma.

Two consequences of the code worth stating:

- A failure names only the missing key, as Python's `KeyError` does; no
  receipt index is carried.
- Articles with equal names are ordered by their purchase lists, as tuple
  comparison does; item numbers play no part in the order.

## Model

| member | source | states |
|---|---|---|
| `Receipts.ParseLine` | citygross.py:55-63 | reading one item line succeeds exactly when `article`, `itemNumber`, `itemText`, `unitPrice` and `total` are all present, and then yields those fields; a failure names the first key, in the order `article`, `itemNumber`, `itemText`, `unitPrice`, `total`, that is missing (`FirstMissing`) |
| `Receipts.CompleteIffPresent` | citygross.py:56-63 | a line is complete exactly when each of the five keys the source looks up on it is present |
| `Receipts.ParseItemsCorrect` | citygross.py:55-63 | `ParseItems`, the loop over a receipt's lines: a receipt's lines are read exactly when every line is complete, and then they are its lines in order |
| `Receipts.ParseDataCorrect` | citygross.py:54-63 | `ParseData`, the loop over the receipts: the whole response is read exactly when every receipt has `items` and every line is complete; the lines read are the first receipt's lines, then the second's, and so on |
| `Receipts.ParseItemsFailureSticks` | citygross.py:55-63 | once a prefix of a receipt's lines fails, the receipt fails with the same error: lines after the first missing key are never looked at |
| `Receipts.ParseDataFailureSticks` | citygross.py:54-63 | once a prefix of the receipts fails, the whole aggregation fails with the same error; there is no partial result |
| `Receipts.LineFailsAt` | citygross.py:55-63 | a missing key in line j of a receipt, after all earlier lines were read, is the error of the whole receipt |
| `Receipts.ReceiptFailsAt` | citygross.py:54-63 | a receipt that fails (no `items`, or a line with a missing key), after all earlier receipts were read, fails the whole aggregation with the same error |
| `Aggregation.AggregateKeys` | citygross.py:52-60 | `Aggregate`, the dictionary after the pass, each line added by `Record`: its keys are exactly the item numbers over all lines |
| `Aggregation.AggregatePurchases` | citygross.py:54-63 | each number's purchase list is the `(unitPrice, total)` of the lines carrying it, in input order, nothing merged; a number absent from the dictionary has no line |
| `Aggregation.PurchaseCount` | citygross.py:59-63 | a number has as many purchases as there are lines carrying it, repeats counted |
| `Aggregation.AggregateName` | citygross.py:59-60 | an article's name is the `itemText` of the first line with its number; later lines never rename it |
| `Aggregation.FirstSeenKeys` | citygross.py:59-60 | `FirstSeen`, the dictionary's key order, lists every key exactly once, so there are as many keys as distinct numbers |
| `Aggregation.FirstIndex` | citygross.py:59-60 | the first line carrying a number: it carries the number and no earlier line does |
| `Aggregation.ArticleDict.Values` | citygross.py:84 | `values()` gives one entry per key, as many entries as keys, in key order, and every entry of the dictionary is among them |
| `Aggregation.ParseSpec` | citygross.py:50-65 | aggregation fails exactly when a key is missing; otherwise keys, purchase lists, counts and names are as above, and no receipts give an empty dictionary |
| `Aggregation.RecordItems` | citygross.py:55-63 | the inner loop, started from the dictionary of the lines read so far, fails with the receipt's first missing key, or else leaves the key order and entries of those lines followed by this receipt's lines |
| `Aggregation.ParseReceipts` | citygross.py:50-65 | the loop over the receipts, which threads the dictionary through the loop, returns exactly the specified result, including the first missing key |
| `Ordering.LexLeAntisymmetric` | citygross.py:70 | Python's sequence comparison is antisymmetric over a strict total element order |
| `Ordering.LexLeTransitive` | citygross.py:70 | Python's sequence comparison is transitive |
| `Ordering.LexLeTotal` | citygross.py:70 | any two sequences are comparable |
| `Ordering.ArticleLeReflexive` | citygross.py:70 | `ArticleLe`, `Article` tuple comparison (name, then purchases) is reflexive |
| `Ordering.ArticleLeAntisymmetric` | citygross.py:70 | two articles that compare both ways are equal |
| `Ordering.ArticleLeTransitive` | citygross.py:70 | `Article` tuple comparison is transitive |
| `Ordering.ArticleLeTotal` | citygross.py:70 | any two articles are comparable |
| `Ordering.InsertCorrect` | citygross.py:70 | inserting into a sorted list keeps it sorted and adds exactly that article |
| `Ordering.SortCorrect` | citygross.py:70 | `Sort`, the model of `sorted()`, gives a non-decreasing permutation of its input |
| `Ordering.SortedUnique` | citygross.py:70 | two non-decreasing permutations of the same articles are equal, so the sorted order is fully determined |
| `Report.JoinSplit` | citygross.py:73 | `Join`, the model of `", ".join`, is undone by cutting at `", "` (`Split`) when no part contains a comma |
| `Report.UnitPricesRoundTrip` | citygross.py:73 | a row's unit-price column lists the article's rendered unit prices in purchase order |
| `Report.RowsSort` | citygross.py:70-74 | sorting before producing rows keeps the same rows |
| `Report.ListOfPurchasesCorrect` | citygross.py:68-74 | `ListOfPurchases` gives one row per article given, the rows a permutation of the articles' rows, names non-decreasing |
| `Report.ListOfPurchasesOrder` | citygross.py:70 | the rows come in the order of `(name, purchases)` tuple comparison, ties included |
| `Report.TotalOfSum` | citygross.py:72 | `SumTotals`, the sum of an article's purchase totals, from 0, equals the sum of the totals of its lines |
| `Report.AggregateRow` | citygross.py:71-74 | the row of an aggregated article is the row its lines call for: count, first name, summed total, unit prices in order |
| `Report.DictRows` | citygross.py:84 | the rows of the dictionary's values are the expected rows, one per distinct number in insertion order |
| `Report.PrintReceipts` | citygross.py:77-85 | the report fails exactly when a key is missing, with the aggregation's error; otherwise it has one row per distinct item number, each the expected row, in ascending name order, and it equals the rows of every non-decreasing arrangement of the dictionary's values, so equal names are ordered by purchase list |
| `Scenarios.MilkScenario` | citygross.py:50-74 | two receipts each buying "Milk" once, at 10 and 12, give the single row `(2, "Milk", 22, "10, 12")` |
| `Scenarios.MissingUnitPrice` | citygross.py:62-63 | a line without `unitPrice` fails the whole aggregation with that key |

## Left out

- `login` (citygross.py:21-31) is not modelled: it is a network call, JSON decoding and the bearer token.
- The HTTP request in `get_receipts` (citygross.py:34-46) is not modelled either. Only its last step is: the decoded response goes to `parse_receipts`, which `PrintReceipts` starts with.
- The asyncio event loop, the aiohttp session, `tabulate` and `print` in `print_receipts` and `main` (citygross.py:77-109) are not modelled: they are foreign libraries and I/O. The rows that would be printed are the result.
- The argparse command-line handling in `main` is not modelled, for the same reason.
- Float prices are not modelled. Prices are integers, so float rounding and `NaN` comparison are out of scope.
- `str()` on prices is a parameter, not Python's number formatting.
- The `TypeError` Python raises when a JSON value has the wrong shape is not modelled; only missing keys are. Examples are `items` that is not a list, or `article` that is not an object.
- The generator's laziness is not modelled: the rows are one finished sequence.
- Appending to each `Article.purchases` list in place is not modelled; the model rebuilds the map entry instead. The lists are never shared between entries, so nothing can observe the difference.
