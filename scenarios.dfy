/** A worked example: two receipts that each buy the same article once,
    at 10 and at 12, report one row (2, "Milk", 22, "10, 12"). */
module Scenarios {
  import opened Receipts
  import opened Aggregation
  import opened Ordering
  import opened Report

  /** A receipt with one line for article "A1", "Milk", at the given price. */
  function MilkReceipt(price: Price): RawReceipt {
    RawReceipt(Some([RawItem(Some(RawArticle(Some("A1"), Some("Milk"))), Some(price), Some(price))]))
  }

  function MilkLine(price: Price): Line {
    Line("A1", "Milk", price, price)
  }

  lemma MilkReceiptLines(price: Price)
    ensures ParseReceipt(MilkReceipt(price)) == Success([MilkLine(price)])
  {
    var items := MilkReceipt(price).items.value;
    assert items[..0] == [];
    assert ParseLine(items[0]) == Success(MilkLine(price));
    assert ParseItems(items) == Success([] + [MilkLine(price)]);
    assert [] + [MilkLine(price)] == [MilkLine(price)];
  }

  lemma MilkLines()
    ensures ParseData([MilkReceipt(10), MilkReceipt(12)]) == Success([MilkLine(10), MilkLine(12)])
  {
    var data := [MilkReceipt(10), MilkReceipt(12)];
    MilkReceiptLines(10);
    MilkReceiptLines(12);
    var first := [MilkReceipt(10)];
    assert first[..0] == [] && data[..|data| - 1] == first;
    assert ParseData(first) == Success([] + [MilkLine(10)]);
    assert [] + [MilkLine(10)] == [MilkLine(10)];
    assert data[|data| - 1] == MilkReceipt(12);
    assert ParseData(data) == Success([MilkLine(10)] + [MilkLine(12)]);
    assert [MilkLine(10)] + [MilkLine(12)] == [MilkLine(10), MilkLine(12)];
  }

  lemma MilkAggregate()
    ensures Aggregate([MilkLine(10), MilkLine(12)])
         == map["A1" := Article("Milk", [Purchase(10, 10), Purchase(12, 12)])]
    ensures FirstSeen([MilkLine(10), MilkLine(12)]) == ["A1"]
  {
    var lines := [MilkLine(10), MilkLine(12)];
    var first := [MilkLine(10)];
    assert lines[..1] == first && first[..0] == [];
    assert [] + [Purchase(10, 10)] == [Purchase(10, 10)];
    var once := map["A1" := Article("Milk", [Purchase(10, 10)])];
    assert Aggregate(first) == once;
    assert Aggregate(lines) == Record(once, MilkLine(12));
    assert [Purchase(10, 10)] + [Purchase(12, 12)] == [Purchase(10, 10), Purchase(12, 12)];
    assert FirstSeen(first) == [] + ["A1"];
  }

  lemma MilkValues()
    ensures Parse([MilkReceipt(10), MilkReceipt(12)]).Success?
    ensures Parse([MilkReceipt(10), MilkReceipt(12)]).value.Valid()
    ensures Parse([MilkReceipt(10), MilkReceipt(12)]).value.Values()
         == [Article("Milk", [Purchase(10, 10), Purchase(12, 12)])]
  {
    var data := [MilkReceipt(10), MilkReceipt(12)];
    var milk := Article("Milk", [Purchase(10, 10), Purchase(12, 12)]);
    MilkLines();
    MilkAggregate();
    var d := ArticleDict(["A1"], map["A1" := milk]);
    assert Parse(data) == Success(d);
    assert d.Valid();
    assert d.Values()[0] == milk;
  }

  lemma MilkRows(show: Price -> string)
    ensures ListOfPurchases([Article("Milk", [Purchase(10, 10), Purchase(12, 12)])], show)
         == [Row(2, "Milk", 22, show(10) + ", " + show(12))]
  {
    var milk := Article("Milk", [Purchase(10, 10), Purchase(12, 12)]);
    assert Sort([milk]) == [milk];
    assert milk.purchases[1..] == [Purchase(12, 12)] && milk.purchases[1..][1..] == [];
    assert SumTotals(milk.purchases) == 22;
    assert UnitPriceStrings(milk.purchases, show) == [show(10), show(12)];
    assert [show(10), show(12)][1..] == [show(12)];
    assert Join([show(10), show(12)]) == show(10) + ", " + show(12);
    assert Rows([milk], show) == [RowOf(milk, show)];
  }

  /** The example's report, for any rendering of prices. */
  lemma MilkScenario(show: Price -> string)
    ensures Parse([MilkReceipt(10), MilkReceipt(12)]).Success?
    ensures Parse([MilkReceipt(10), MilkReceipt(12)]).value.Valid()
    ensures ListOfPurchases(Parse([MilkReceipt(10), MilkReceipt(12)]).value.Values(), show)
         == [Row(2, "Milk", 22, show(10) + ", " + show(12))]
  {
    MilkValues();
    MilkRows(show);
  }

  /** A line without "unitPrice" fails the whole aggregation with that key,
      even after earlier complete receipts. */
  lemma MissingUnitPrice()
    ensures var broken := RawReceipt(Some([RawItem(Some(RawArticle(Some("A2"), Some("Bread"))), None, Some(5))]));
            Parse([MilkReceipt(10), broken]) == Failure(KeyError(UnitPriceKey))
  {
    var broken := RawReceipt(Some([RawItem(Some(RawArticle(Some("A2"), Some("Bread"))), None, Some(5))]));
    var data := [MilkReceipt(10), broken];
    MilkReceiptLines(10);
    var first := [MilkReceipt(10)];
    assert first[..0] == [] && data[..|data| - 1] == first;
    assert ParseData(first) == Success([] + [MilkLine(10)]);
    var items := broken.items.value;
    assert items[..0] == [];
    assert ParseItems(items) == Failure(KeyError(UnitPriceKey));
  }
}
