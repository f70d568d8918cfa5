/** The report of citygross.py: list_of_purchases turns the aggregated
    articles into rows (count, name, total price, unit prices), sorted; and
    print_receipts chains the aggregation of the decoded receipts with it. */
module Report {
  import opened Receipts
  import opened Aggregation
  import opened Ordering

  /** One report row, under the headers Count, Item, Total Price, Unit Prices. */
  datatype Row = Row(count: nat, name: string, totalPrice: Price, unitPrices: string)

  /** sum() over the purchases' total prices, starting from 0. */
  function SumTotals(ps: seq<Purchase>): Price {
    if ps == [] then 0 else ps[0].totalPrice + SumTotals(ps[1..])
  }

  /** ", ".join(parts). */
  function Join(parts: seq<string>): string {
    if |parts| == 0 then ""
    else if |parts| == 1 then parts[0]
    else parts[0] + ", " + Join(parts[1..])
  }

  /** Cuts a string at every ", ": the reading of a unit-price column. */
  function Split(s: string): (parts: seq<string>)
    ensures |parts| >= 1
    decreases |s|
  {
    if |s| == 0 then [""]
    else if |s| >= 2 && s[0] == ',' && s[1] == ' ' then [""] + Split(s[2..])
    else
      var rest := Split(s[1..]);
      [[s[0]] + rest[0]] + rest[1..]
  }

  /** The rendering of a price never contains a comma (true of str() on
      Python numbers). */
  ghost predicate CommaFree(show: Price -> string) {
    forall x :: ',' !in show(x)
  }

  /** The purchases' unit prices, each rendered by show (the source's str()). */
  function UnitPriceStrings(ps: seq<Purchase>, show: Price -> string): seq<string> {
    seq(|ps|, i requires 0 <= i < |ps| => show(ps[i].unitPrice))
  }

  /** The row of one article. */
  function RowOf(a: Article, show: Price -> string): Row {
    Row(|a.purchases|, a.name, SumTotals(a.purchases), Join(UnitPriceStrings(a.purchases, show)))
  }

  function Rows(articles: seq<Article>, show: Price -> string): seq<Row> {
    seq(|articles|, i requires 0 <= i < |articles| => RowOf(articles[i], show))
  }

  /** list_of_purchases: the row of each article, articles in sorted() order. */
  function ListOfPurchases(articles: seq<Article>, show: Price -> string): seq<Row> {
    Rows(Sort(articles), show)
  }

  ghost predicate NamesAscending(rows: seq<Row>) {
    forall i, j :: 0 <= i < j < |rows| ==> LexLe(rows[i].name, rows[j].name, CharLt)
  }

  lemma {:induction false} SplitWhole(p: string)
    requires ',' !in p
    ensures Split(p) == [p]
    decreases |p|
  {
    if |p| > 0 {
      SplitWhole(p[1..]);
      assert p == [p[0]] + p[1..];
    }
  }

  lemma {:induction false} SplitAfter(p: string, t: string)
    requires ',' !in p
    ensures Split(p + ", " + t) == [p] + Split(t)
    decreases |p|
  {
    var s := p + ", " + t;
    if |p| == 0 {
      assert s[2..] == t;
    } else {
      assert s[1..] == p[1..] + ", " + t;
      SplitAfter(p[1..], t);
      assert p == [p[0]] + p[1..];
    }
  }

  /** Split undoes Join when no part contains a comma: the unit-price column
      can be read back into its parts, in order. */
  lemma {:induction false} JoinSplit(parts: seq<string>)
    requires |parts| >= 1
    requires forall i :: 0 <= i < |parts| ==> ',' !in parts[i]
    ensures Split(Join(parts)) == parts
    decreases |parts|
  {
    if |parts| == 1 {
      SplitWhole(parts[0]);
    } else {
      SplitAfter(parts[0], Join(parts[1..]));
      JoinSplit(parts[1..]);
      assert parts == [parts[0]] + parts[1..];
    }
  }

  /** The unit-price column of a row lists the article's unit prices in
      purchase order, separated by ", ". */
  lemma UnitPricesRoundTrip(a: Article, show: Price -> string)
    requires |a.purchases| >= 1 && CommaFree(show)
    ensures Split(RowOf(a, show).unitPrices) == UnitPriceStrings(a.purchases, show)
  {
    JoinSplit(UnitPriceStrings(a.purchases, show));
  }

  lemma RowsCons(a: Article, s: seq<Article>, show: Price -> string)
    ensures Rows([a] + s, show) == [RowOf(a, show)] + Rows(s, show)
  {
  }

  lemma {:induction false} RowsInsert(a: Article, s: seq<Article>, show: Price -> string)
    ensures multiset(Rows(Insert(a, s), show)) == multiset(Rows(s, show)) + multiset{RowOf(a, show)}
  {
    if s == [] {
    } else if ArticleLe(a, s[0]) {
      RowsCons(a, s, show);
    } else {
      RowsInsert(a, s[1..], show);
      RowsCons(s[0], Insert(a, s[1..]), show);
      RowsCons(s[0], s[1..], show);
      assert s == [s[0]] + s[1..];
    }
  }

  lemma {:induction false} RowsSort(s: seq<Article>, show: Price -> string)
    ensures multiset(Rows(Sort(s), show)) == multiset(Rows(s, show))
  {
    if s != [] {
      RowsSort(s[1..], show);
      RowsInsert(s[0], Sort(s[1..]), show);
      RowsCons(s[0], s[1..], show);
      assert s == [s[0]] + s[1..];
    }
  }

  /** One row per article, and rows ordered by article name. */
  lemma ListOfPurchasesCorrect(articles: seq<Article>, show: Price -> string)
    ensures |ListOfPurchases(articles, show)| == |articles|
    ensures multiset(ListOfPurchases(articles, show)) == multiset(Rows(articles, show))
    ensures NamesAscending(ListOfPurchases(articles, show))
  {
    SortCorrect(articles);
    RowsSort(articles, show);
    var sorted := Sort(articles);
    assert |sorted| == |multiset(sorted)| == |multiset(articles)| == |articles|;
    forall i, j | 0 <= i < j < |sorted|
      ensures LexLe(sorted[i].name, sorted[j].name, CharLt)
    {
      LexLeReflexive(sorted[i].name, CharLt);
    }
  }

  /** The rows follow the order of (name, purchases) tuple comparison, ties
      included: they are the rows of any non-decreasing arrangement of the
      articles. */
  lemma ListOfPurchasesOrder(articles: seq<Article>, show: Price -> string, s: seq<Article>)
    requires IsSorted(s) && multiset(s) == multiset(articles)
    ensures ListOfPurchases(articles, show) == Rows(s, show)
  {
    SortCorrect(articles);
    SortedUnique(Sort(articles), s);
  }

  /** Reference total of number k: the sum of the totals of its lines. */
  function TotalOf(lines: seq<Line>, k: ItemNumber): Price {
    if lines == [] then 0
    else (if lines[0].itemNumber == k then lines[0].total else 0) + TotalOf(lines[1..], k)
  }

  lemma {:induction false} TotalOfSum(lines: seq<Line>, k: ItemNumber)
    ensures SumTotals(PurchasesOf(lines, k)) == TotalOf(lines, k)
  {
    if lines != [] {
      TotalOfSum(lines[1..], k);
      var rest := PurchasesOf(lines[1..], k);
      if lines[0].itemNumber == k {
        assert ([PurchaseOf(lines[0])] + rest)[1..] == rest;
      } else {
        assert [] + rest == rest;
      }
    }
  }

  /** The row number k should get, stated on the lines alone: as many
      purchases as lines carry k, the text of the first such line, the sum of
      their totals, and their unit prices in line order. */
  function ExpectedRow(lines: seq<Line>, k: ItemNumber, show: Price -> string): Row
    requires k in Numbers(lines)
  {
    Row(multiset(Numbers(lines))[k], lines[FirstIndex(lines, k)].itemText,
        TotalOf(lines, k), Join(UnitPriceStrings(PurchasesOf(lines, k), show)))
  }

  /** One expected row per distinct item number. */
  ghost function ExpectedRows(lines: seq<Line>, show: Price -> string): seq<Row> {
    var keys := FirstSeen(lines);
    FirstSeenKeys(lines);
    AggregateKeys(lines);
    assert forall i :: 0 <= i < |keys| ==> keys[i] in Aggregate(lines).Keys;
    seq(|keys|, i requires 0 <= i < |keys| => ExpectedRow(lines, keys[i], show))
  }

  /** The row of an aggregated article is the row its lines call for. */
  lemma AggregateRow(lines: seq<Line>, k: ItemNumber, show: Price -> string)
    requires k in Numbers(lines)
    ensures k in Aggregate(lines)
    ensures RowOf(Aggregate(lines)[k], show) == ExpectedRow(lines, k, show)
  {
    AggregateName(lines, k);
    AggregatePurchases(lines);
    PurchaseCount(lines, k);
    TotalOfSum(lines, k);
  }

  lemma DictRows(lines: seq<Line>, show: Price -> string)
    ensures ArticleDict(FirstSeen(lines), Aggregate(lines)).Valid()
    ensures Rows(ArticleDict(FirstSeen(lines), Aggregate(lines)).Values(), show)
         == ExpectedRows(lines, show)
  {
    FirstSeenKeys(lines);
    AggregateKeys(lines);
    var d := ArticleDict(FirstSeen(lines), Aggregate(lines));
    var got, want := Rows(d.Values(), show), ExpectedRows(lines, show);
    forall i | 0 <= i < |got|
      ensures got[i] == want[i]
    {
      AggregateRow(lines, d.order[i], show);
    }
  }

  /** print_receipts without the network and the table printing: aggregate
      the decoded receipts, then list the purchases of the dictionary's
      values. It fails exactly when a key is missing; otherwise it gives one
      row per distinct item number, each the row its lines call for, in
      ascending name order, and articles of equal name in the order of their
      purchase lists. */
  method PrintReceipts(data: seq<RawReceipt>, show: Price -> string) returns (r: Result<seq<Row>>)
    ensures r.Success? <==> WellFormed(data)
    ensures r.Failure? ==> ParseData(data) == Failure(r.error)
    ensures r.Success? ==> |r.value| == |set k | k in Numbers(Flatten(data))|
    ensures r.Success? ==> multiset(r.value) == multiset(ExpectedRows(Flatten(data), show))
    ensures r.Success? ==> NamesAscending(r.value)
    ensures r.Success? ==>
              && Parse(data).Success? && Parse(data).value.Valid()
              && forall s :: IsSorted(s) && multiset(s) == multiset(Parse(data).value.Values())
                   ==> r.value == Rows(s, show)
  {
    var parsed := ParseReceipts(data);
    ParseDataCorrect(data);
    match parsed
    case Failure(e) =>
      r := Failure(e);
    case Success(dict) =>
      ghost var lines := Flatten(data);
      assert dict == ArticleDict(FirstSeen(lines), Aggregate(lines));
      DictRows(lines, show);
      var rows := ListOfPurchases(dict.Values(), show);
      ListOfPurchasesCorrect(dict.Values(), show);
      FirstSeenKeys(lines);
      AggregateKeys(lines);
      assert |Aggregate(lines)| == |Aggregate(lines).Keys|;
      forall s | IsSorted(s) && multiset(s) == multiset(dict.Values())
        ensures rows == Rows(s, show)
      {
        ListOfPurchasesOrder(dict.Values(), show, s);
      }
      r := Success(rows);
  }
}
