/** The decoded JSON that the receipts endpoint returns, as far as the
    aggregation looks into it, and the complete item lines extracted from it.
    Every key the source looks up may be absent; an absent key raises
    KeyError in the source, modelled here as a Failure naming the key. */
module Receipts {

  datatype Option<T> = None | Some(value: T)

  /** A JSON key the aggregation looks up. */
  datatype Key =
    | ItemsKey        // "items", on a receipt
    | ArticleKey      // "article", on an item line
    | ItemNumberKey   // "itemNumber", on the article
    | ItemTextKey     // "itemText", on the article
    | UnitPriceKey    // "unitPrice", on an item line
    | TotalKey        // "total", on an item line

  datatype KeyError = KeyError(key: Key)

  datatype Result<T> = Success(value: T) | Failure(error: KeyError)

  type ItemNumber = string

  /** A price in minor currency units. */
  type Price = int

  datatype RawArticle = RawArticle(itemNumber: Option<ItemNumber>, itemText: Option<string>)
  datatype RawItem = RawItem(article: Option<RawArticle>, unitPrice: Option<Price>, total: Option<Price>)
  datatype RawReceipt = RawReceipt(items: Option<seq<RawItem>>)

  /** An item line whose four fields are all present. */
  datatype Line = Line(itemNumber: ItemNumber, itemText: string, unitPrice: Price, total: Price)

  /** The source's two record shapes. */
  datatype Purchase = Purchase(unitPrice: Price, totalPrice: Price)
  datatype Article = Article(name: string, purchases: seq<Purchase>)

  predicate Complete(item: RawItem) {
    && item.article.Some?
    && item.article.value.itemNumber.Some?
    && item.article.value.itemText.Some?
    && item.unitPrice.Some?
    && item.total.Some?
  }

  predicate AllComplete(items: seq<RawItem>) {
    forall j :: 0 <= j < |items| ==> Complete(items[j])
  }

  predicate ReceiptComplete(receipt: RawReceipt) {
    receipt.items.Some? && AllComplete(receipt.items.value)
  }

  /** Every receipt has "items" and every item line has all four fields. */
  predicate WellFormed(data: seq<RawReceipt>) {
    forall i :: 0 <= i < |data| ==> ReceiptComplete(data[i])
  }

  function ToLine(item: RawItem): Line
    requires Complete(item)
  {
    Line(item.article.value.itemNumber.value, item.article.value.itemText.value,
         item.unitPrice.value, item.total.value)
  }

  /** Reference reading of complete item lines: one line each, in order. */
  function ToLines(items: seq<RawItem>): seq<Line>
    requires AllComplete(items)
  {
    if items == [] then [] else [ToLine(items[0])] + ToLines(items[1..])
  }

  /** Reference reading of a well-formed response: the lines of the first
      receipt, then those of the second, and so on. */
  function Flatten(data: seq<RawReceipt>): seq<Line>
    requires WellFormed(data)
  {
    if data == [] then [] else ToLines(data[0].items.value) + Flatten(data[1..])
  }

  /** The keys of an item line in the order the source looks them up. */
  const ItemKeys: seq<Key> := [ArticleKey, ItemNumberKey, ItemTextKey, UnitPriceKey, TotalKey]

  /** Whether looking up key on the item line succeeds; "itemNumber" and
      "itemText" are looked up inside "article", so they need it too. */
  predicate Present(item: RawItem, key: Key) {
    match key
    case ArticleKey => item.article.Some?
    case ItemNumberKey => item.article.Some? && item.article.value.itemNumber.Some?
    case ItemTextKey => item.article.Some? && item.article.value.itemText.Some?
    case UnitPriceKey => item.unitPrice.Some?
    case TotalKey => item.total.Some?
    case ItemsKey => false
  }

  /** The i-th key in lookup order is the first one missing from the line. */
  predicate FirstMissing(item: RawItem, i: int) {
    && 0 <= i < |ItemKeys|
    && !Present(item, ItemKeys[i])
    && forall j :: 0 <= j < i ==> Present(item, ItemKeys[j])
  }

  /** One item line, its keys looked up in the order the source looks them
      up: the article (twice), its number, its text, the unit price, the
      total. A failure names the first key in that order that is missing. */
  function ParseLine(item: RawItem): (r: Result<Line>)
    ensures r.Success? <==> Complete(item)
    ensures r.Success? ==> r.value == ToLine(item)
    ensures r.Failure? ==> r.error.key != ItemsKey
    ensures r.Failure? ==> exists i :: FirstMissing(item, i) && ItemKeys[i] == r.error.key
  {
    if item.article.None? then
      assert FirstMissing(item, 0);
      Failure(KeyError(ArticleKey))
    else if item.article.value.itemNumber.None? then
      assert FirstMissing(item, 1);
      Failure(KeyError(ItemNumberKey))
    else if item.article.value.itemText.None? then
      assert FirstMissing(item, 2);
      Failure(KeyError(ItemTextKey))
    else if item.unitPrice.None? then
      assert FirstMissing(item, 3);
      Failure(KeyError(UnitPriceKey))
    else if item.total.None? then
      assert FirstMissing(item, 4);
      Failure(KeyError(TotalKey))
    else Success(ToLine(item))
  }

  /** A line is complete exactly when every key the source looks up on it is
      present. */
  lemma CompleteIffPresent(item: RawItem)
    ensures Complete(item) <==> forall i :: 0 <= i < |ItemKeys| ==> Present(item, ItemKeys[i])
  {
    if !Complete(item) {
      var r := ParseLine(item);
      var i :| FirstMissing(item, i) && ItemKeys[i] == r.error.key;
    }
  }

  /** The lines of one receipt, stopping at the first incomplete one. */
  function ParseItems(items: seq<RawItem>): Result<seq<Line>>
    decreases |items|
  {
    if items == [] then Success([])
    else
      match ParseItems(items[..|items| - 1])
      case Failure(e) => Failure(e)
      case Success(lines) =>
        match ParseLine(items[|items| - 1])
        case Failure(e) => Failure(e)
        case Success(line) => Success(lines + [line])
  }

  function ParseReceipt(receipt: RawReceipt): Result<seq<Line>> {
    if receipt.items.None? then Failure(KeyError(ItemsKey)) else ParseItems(receipt.items.value)
  }

  /** All lines of all receipts in the order the source visits them,
      stopping at the first missing key. */
  function ParseData(data: seq<RawReceipt>): Result<seq<Line>>
    decreases |data|
  {
    if data == [] then Success([])
    else
      match ParseData(data[..|data| - 1])
      case Failure(e) => Failure(e)
      case Success(lines) =>
        match ParseReceipt(data[|data| - 1])
        case Failure(e) => Failure(e)
        case Success(more) => Success(lines + more)
  }

  lemma {:induction false} ToLinesSnoc(items: seq<RawItem>, item: RawItem)
    requires AllComplete(items) && Complete(item)
    ensures AllComplete(items + [item])
    ensures ToLines(items + [item]) == ToLines(items) + [ToLine(item)]
  {
    if items != [] {
      assert (items + [item])[1..] == items[1..] + [item];
      ToLinesSnoc(items[1..], item);
    }
  }

  lemma {:induction false} FlattenSnoc(data: seq<RawReceipt>, receipt: RawReceipt)
    requires WellFormed(data) && ReceiptComplete(receipt)
    ensures WellFormed(data + [receipt])
    ensures Flatten(data + [receipt]) == Flatten(data) + ToLines(receipt.items.value)
  {
    if data == [] {
      assert [receipt][1..] == [];
    } else {
      assert (data + [receipt])[1..] == data[1..] + [receipt];
      FlattenSnoc(data[1..], receipt);
    }
  }

  /** The lines of a receipt are read successfully exactly when every line is
      complete, and then they are the lines in order. */
  lemma {:induction false} ParseItemsCorrect(items: seq<RawItem>)
    ensures ParseItems(items).Success? <==> AllComplete(items)
    ensures ParseItems(items).Success? ==> ParseItems(items).value == ToLines(items)
  {
    if items != [] {
      var prefix, last := items[..|items| - 1], items[|items| - 1];
      assert items == prefix + [last];
      ParseItemsCorrect(prefix);
      if AllComplete(prefix) && Complete(last) {
        ToLinesSnoc(prefix, last);
      } else if !AllComplete(prefix) {
        var j :| 0 <= j < |prefix| && !Complete(prefix[j]);
        assert !Complete(items[j]);
      } else {
        assert !Complete(items[|items| - 1]);
      }
    }
  }

  /** One receipt is read exactly when it has "items" and every line is
      complete, and then its lines are read in order. */
  lemma ParseReceiptCorrect(receipt: RawReceipt)
    ensures ParseReceipt(receipt).Success? <==> ReceiptComplete(receipt)
    ensures ParseReceipt(receipt).Success? ==> ParseReceipt(receipt).value == ToLines(receipt.items.value)
  {
    if receipt.items.Some? {
      ParseItemsCorrect(receipt.items.value);
    }
  }

  /** The aggregation reads the whole response exactly when it is well formed
      (a missing key anywhere makes it fail), and the lines it reads are the
      receipts' lines in order, receipt after receipt. */
  lemma {:induction false} ParseDataCorrect(data: seq<RawReceipt>)
    ensures ParseData(data).Success? <==> WellFormed(data)
    ensures ParseData(data).Success? ==> ParseData(data).value == Flatten(data)
  {
    if data != [] {
      var prefix, last := data[..|data| - 1], data[|data| - 1];
      assert data == prefix + [last];
      ParseDataCorrect(prefix);
      ParseReceiptCorrect(last);
      if WellFormed(prefix) && ReceiptComplete(last) {
        FlattenSnoc(prefix, last);
      } else if !WellFormed(prefix) {
        var i :| 0 <= i < |prefix| && !ReceiptComplete(prefix[i]);
        assert !ReceiptComplete(data[i]);
      } else {
        assert !ReceiptComplete(data[|data| - 1]);
      }
    }
  }

  /** Once a prefix of a receipt's lines fails, the receipt fails with the
      same error: nothing after the first missing key is looked at. */
  lemma {:induction false} ParseItemsFailureSticks(items: seq<RawItem>, j: nat)
    requires j <= |items| && ParseItems(items[..j]).Failure?
    ensures ParseItems(items) == ParseItems(items[..j])
    decreases |items| - j
  {
    if j < |items| {
      var prefix := items[..|items| - 1];
      assert prefix[..j] == items[..j];
      ParseItemsFailureSticks(prefix, j);
    } else {
      assert items[..j] == items;
    }
  }

  /** Once a prefix of the receipts fails, the whole response fails with the
      same error. */
  lemma {:induction false} ParseDataFailureSticks(data: seq<RawReceipt>, i: nat)
    requires i <= |data| && ParseData(data[..i]).Failure?
    ensures ParseData(data) == ParseData(data[..i])
    decreases |data| - i
  {
    if i < |data| {
      var prefix := data[..|data| - 1];
      assert prefix[..i] == data[..i];
      ParseDataFailureSticks(prefix, i);
    } else {
      assert data[..i] == data;
    }
  }

  /** One more complete line of a receipt is read after the ones before it. */
  lemma ParseItemsStep(items: seq<RawItem>, j: nat, cur: seq<Line>)
    requires j < |items| && ParseItems(items[..j]) == Success(cur) && Complete(items[j])
    ensures ParseItems(items[..j + 1]) == Success(cur + [ToLine(items[j])])
  {
    var pre := items[..j + 1];
    assert pre[..|pre| - 1] == items[..j] && pre[|pre| - 1] == items[j];
  }

  /** A receipt whose lines were all read adds them after the earlier lines. */
  lemma ParseDataStep(data: seq<RawReceipt>, i: nat, done: seq<Line>, cur: seq<Line>)
    requires i < |data| && data[i].items.Some?
    requires ParseData(data[..i]) == Success(done)
    requires ParseItems(data[i].items.value) == Success(cur)
    ensures ParseData(data[..i + 1]) == Success(done + cur)
  {
    var pre := data[..i + 1];
    assert pre[..|pre| - 1] == data[..i] && pre[|pre| - 1] == data[i];
  }

  /** A missing key in line j of a receipt, after the lines before it were
      read, is the error of the whole receipt. */
  lemma LineFailsAt(items: seq<RawItem>, j: nat, cur: seq<Line>)
    requires j < |items| && ParseItems(items[..j]) == Success(cur)
    requires ParseLine(items[j]).Failure?
    ensures ParseItems(items) == Failure(ParseLine(items[j]).error)
  {
    var pre := items[..j + 1];
    assert pre[..|pre| - 1] == items[..j] && pre[|pre| - 1] == items[j];
    assert ParseItems(pre) == Failure(ParseLine(items[j]).error);
    ParseItemsFailureSticks(items, j + 1);
  }

  /** A receipt that fails, after the receipts before it were read, fails the
      whole response with the same error. */
  lemma ReceiptFailsAt(data: seq<RawReceipt>, i: nat, done: seq<Line>)
    requires i < |data| && ParseData(data[..i]) == Success(done)
    requires ParseReceipt(data[i]).Failure?
    ensures ParseData(data) == Failure(ParseReceipt(data[i]).error)
  {
    var pre := data[..i + 1];
    assert pre[..|pre| - 1] == data[..i] && pre[|pre| - 1] == data[i];
    ParseDataLastFails(pre);
    ParseDataFailureSticks(data, i + 1);
  }

  /** A response whose last receipt fails after the others were read fails. */
  lemma ParseDataLastFails(data: seq<RawReceipt>)
    requires data != [] && ParseData(data[..|data| - 1]).Success?
    requires ParseReceipt(data[|data| - 1]).Failure?
    ensures ParseData(data) == Failure(ParseReceipt(data[|data| - 1]).error)
  {
  }
}
