/** The grouping pass of citygross.py (parse_receipts): one pass over the
    receipts and their item lines, building a dictionary from item number to
    Article(name, purchases). The dictionary is a Python dict, so it also
    remembers the order in which its keys were first inserted. */
module Aggregation {
  import opened Receipts

  /** The item numbers of the lines, in order, repeats included. */
  function Numbers(lines: seq<Line>): seq<ItemNumber> {
    seq(|lines|, i requires 0 <= i < |lines| => lines[i].itemNumber)
  }

  function PurchaseOf(line: Line): Purchase {
    Purchase(line.unitPrice, line.total)
  }

  /** One step of the pass: create the entry, named after this line's text,
      only when the number is absent; then append this line's purchase. */
  function Record(m: map<ItemNumber, Article>, line: Line): map<ItemNumber, Article> {
    var k := line.itemNumber;
    var a := if k in m then m[k] else Article(line.itemText, []);
    m[k := a.(purchases := a.purchases + [PurchaseOf(line)])]
  }

  /** The dictionary after the pass over the given lines. */
  function Aggregate(lines: seq<Line>): map<ItemNumber, Article>
    decreases |lines|
  {
    if lines == [] then map[] else Record(Aggregate(lines[..|lines| - 1]), lines[|lines| - 1])
  }

  /** The dictionary's key order: each number when it is first inserted. */
  function FirstSeen(lines: seq<Line>): seq<ItemNumber>
    decreases |lines|
  {
    if lines == [] then []
    else
      var seen := FirstSeen(lines[..|lines| - 1]);
      var k := lines[|lines| - 1].itemNumber;
      if k in seen then seen else seen + [k]
  }

  /** An insertion-ordered dictionary: its keys without repeats in insertion
      order, and the entries they map to. */
  datatype ArticleDict = ArticleDict(order: seq<ItemNumber>, entries: map<ItemNumber, Article>)
  {
    ghost predicate Valid() {
      && (forall i, j :: 0 <= i < j < |order| ==> order[i] != order[j])
      && (forall k :: k in entries <==> k in order)
    }

    /** dict.values(): one entry per key, in key order. */
    function Values(): (vs: seq<Article>)
      requires Valid()
      ensures |vs| == |order| == |entries|
      ensures forall i :: 0 <= i < |order| ==> order[i] in entries && vs[i] == entries[order[i]]
      ensures forall k :: k in entries ==> entries[k] in vs
    {
      DistinctCardinality(order);
      assert entries.Keys == set k | k in order;
      seq(|order|, i requires 0 <= i < |order| => entries[order[i]])
    }
  }

  /** A sequence without repeats has as many distinct elements as positions. */
  lemma {:induction false} DistinctCardinality(s: seq<ItemNumber>)
    requires forall i, j :: 0 <= i < j < |s| ==> s[i] != s[j]
    ensures |set x | x in s| == |s|
  {
    if s != [] {
      var t, last := s[..|s| - 1], s[|s| - 1];
      assert s == t + [last];
      DistinctCardinality(t);
      assert last !in t by {
        forall i | 0 <= i < |t|
          ensures t[i] != last
        {
          assert t[i] == s[i];
        }
      }
      assert forall x :: x in s <==> x in t || x == last;
      assert (set x | x in s) == (set x | x in t) + {last};
    }
  }

  /** Reference definitions, independent of the pass. */

  /** The purchases of the lines carrying number k, in line order. */
  function PurchasesOf(lines: seq<Line>, k: ItemNumber): seq<Purchase> {
    if lines == [] then []
    else (if lines[0].itemNumber == k then [PurchaseOf(lines[0])] else []) + PurchasesOf(lines[1..], k)
  }

  lemma NumbersCons(lines: seq<Line>)
    requires lines != []
    ensures Numbers(lines) == [lines[0].itemNumber] + Numbers(lines[1..])
  {
    assert Numbers(lines)[1..] == Numbers(lines[1..]);
  }

  lemma NumbersSnoc(lines: seq<Line>, line: Line)
    ensures Numbers(lines + [line]) == Numbers(lines) + [line.itemNumber]
  {
  }

  /** The position of the first line carrying number k. */
  function FirstIndex(lines: seq<Line>, k: ItemNumber): (i: nat)
    requires k in Numbers(lines)
    ensures i < |lines| && lines[i].itemNumber == k
    ensures forall j :: 0 <= j < i ==> lines[j].itemNumber != k
  {
    NumbersCons(lines);
    if lines[0].itemNumber == k then 0 else FirstIndex(lines[1..], k) + 1
  }

  lemma {:induction false} PurchasesOfSnoc(lines: seq<Line>, line: Line, k: ItemNumber)
    ensures PurchasesOf(lines + [line], k)
         == PurchasesOf(lines, k) + (if line.itemNumber == k then [PurchaseOf(line)] else [])
  {
    var tail := if line.itemNumber == k then [PurchaseOf(line)] else [];
    if lines == [] {
      assert [line][1..] == [];
      assert PurchasesOf([line], k) == tail + PurchasesOf([], k);
    } else {
      var head := if lines[0].itemNumber == k then [PurchaseOf(lines[0])] else [];
      assert (lines + [line])[0] == lines[0];
      assert (lines + [line])[1..] == lines[1..] + [line];
      PurchasesOfSnoc(lines[1..], line, k);
      assert PurchasesOf(lines + [line], k) == head + (PurchasesOf(lines[1..], k) + tail);
      assert PurchasesOf(lines, k) == head + PurchasesOf(lines[1..], k);
    }
  }

  /** Key set: the dictionary's keys are exactly the item numbers of the lines. */
  lemma {:induction false} AggregateKeys(lines: seq<Line>)
    ensures Aggregate(lines).Keys == set k | k in Numbers(lines)
  {
    if lines != [] {
      var prefix, last := lines[..|lines| - 1], lines[|lines| - 1];
      assert lines == prefix + [last];
      AggregateKeys(prefix);
      NumbersSnoc(prefix, last);
    }
  }

  /** Order preserved, nothing merged: the purchases of each number are the
      purchases of the lines carrying it, in line order; a number not in the
      dictionary has no line. */
  lemma {:induction false} AggregatePurchases(lines: seq<Line>)
    ensures forall k :: PurchasesOf(lines, k)
                     == if k in Aggregate(lines) then Aggregate(lines)[k].purchases else []
  {
    if lines != [] {
      var prefix, last := lines[..|lines| - 1], lines[|lines| - 1];
      assert lines == prefix + [last];
      AggregatePurchases(prefix);
      forall k
        ensures PurchasesOf(lines, k)
             == if k in Aggregate(lines) then Aggregate(lines)[k].purchases else []
      {
        PurchasesOfSnoc(prefix, last, k);
      }
    }
  }

  /** Purchase count: as many purchases for number k as lines carry k. */
  lemma {:induction false} PurchaseCount(lines: seq<Line>, k: ItemNumber)
    ensures |PurchasesOf(lines, k)| == multiset(Numbers(lines))[k]
  {
    if lines != [] {
      NumbersCons(lines);
      PurchaseCount(lines[1..], k);
    }
  }

  /** Name is first seen: a number's entry is named after the text of the
      first line carrying that number. */
  lemma {:induction false} AggregateName(lines: seq<Line>, k: ItemNumber)
    requires k in Numbers(lines)
    ensures k in Aggregate(lines)
    ensures Aggregate(lines)[k].name == lines[FirstIndex(lines, k)].itemText
  {
    var prefix, last := lines[..|lines| - 1], lines[|lines| - 1];
    assert lines == prefix + [last];
    NumbersSnoc(prefix, last);
    var i := FirstIndex(lines, k);
    if k in Numbers(prefix) {
      AggregateName(prefix, k);
      var i' := FirstIndex(prefix, k);
      assert i == i';
    } else {
      AggregateKeys(prefix);
      assert k !in Aggregate(prefix);
      assert last.itemNumber == k;
      forall j | 0 <= j < |prefix|
        ensures lines[j].itemNumber != k
      {
        assert lines[j] == prefix[j] && Numbers(prefix)[j] == prefix[j].itemNumber;
      }
    }
  }

  /** The key order lists every key of the dictionary exactly once. */
  lemma {:induction false} FirstSeenKeys(lines: seq<Line>)
    ensures forall k :: k in FirstSeen(lines) <==> k in Aggregate(lines)
    ensures forall i, j :: 0 <= i < j < |FirstSeen(lines)| ==> FirstSeen(lines)[i] != FirstSeen(lines)[j]
    ensures |FirstSeen(lines)| == |Aggregate(lines)|
  {
    if lines != [] {
      var prefix, last := lines[..|lines| - 1], lines[|lines| - 1];
      FirstSeenKeys(prefix);
      var m := Aggregate(prefix);
      if last.itemNumber in m {
        assert Aggregate(lines).Keys == m.Keys;
      } else {
        assert Aggregate(lines).Keys == m.Keys + {last.itemNumber};
      }
    }
  }

  /** parse_receipts as a function of the decoded response. */
  function Parse(data: seq<RawReceipt>): Result<ArticleDict> {
    match ParseData(data)
    case Failure(e) => Failure(e)
    case Success(lines) => Success(ArticleDict(FirstSeen(lines), Aggregate(lines)))
  }

  /** What parse_receipts promises: it fails exactly when a key is missing;
      otherwise its keys are the item numbers over all lines of all receipts,
      each article holds one purchase per line with its number in input order,
      and is named after the first such line. No receipts, empty dictionary. */
  lemma ParseSpec(data: seq<RawReceipt>)
    ensures Parse(data).Success? <==> WellFormed(data)
    ensures data == [] ==> Parse(data) == Success(ArticleDict([], map[]))
    ensures Parse(data).Success? ==>
      var d, lines := Parse(data).value, Flatten(data);
      && d.Valid()
      && (forall k :: k in d.entries <==> k in Numbers(lines))
      && forall k :: k in d.entries ==>
           && d.entries[k].purchases == PurchasesOf(lines, k)
           && |d.entries[k].purchases| == multiset(Numbers(lines))[k]
           && d.entries[k].name == lines[FirstIndex(lines, k)].itemText
  {
    ParseDataCorrect(data);
    if WellFormed(data) {
      var lines := Flatten(data);
      FirstSeenKeys(lines);
      AggregateKeys(lines);
      AggregatePurchases(lines);
      forall k | k in Aggregate(lines)
        ensures |Aggregate(lines)[k].purchases| == multiset(Numbers(lines))[k]
        ensures Aggregate(lines)[k].name == lines[FirstIndex(lines, k)].itemText
      {
        PurchaseCount(lines, k);
        AggregateName(lines, k);
      }
    }
  }

  /** One more line of the pass: the key order and the dictionary grow as
      FirstSeen and Aggregate say. */
  lemma RecordStep(done: seq<Line>, cur: seq<Line>, line: Line)
    ensures FirstSeen(done + (cur + [line]))
         == if line.itemNumber in Aggregate(done + cur) then FirstSeen(done + cur)
            else FirstSeen(done + cur) + [line.itemNumber]
    ensures Aggregate(done + (cur + [line])) == Record(Aggregate(done + cur), line)
  {
    var all := done + (cur + [line]);
    assert all == done + cur + [line];
    assert all[..|all| - 1] == done + cur;
    FirstSeenKeys(done + cur);
  }

  /** The inner loop of parse_receipts, over the lines of one receipt: given
      the dictionary (key order and entries) after the lines done so far, it
      extends it in place line by line, stopping at the first missing key. */
  method RecordItems(items: seq<RawItem>, ghost done: seq<Line>,
                     order0: seq<ItemNumber>, allItems0: map<ItemNumber, Article>)
    returns (r: Result<(seq<ItemNumber>, map<ItemNumber, Article>)>)
    requires order0 == FirstSeen(done) && allItems0 == Aggregate(done)
    ensures ParseItems(items).Failure? ==> r == Failure(ParseItems(items).error)
    ensures ParseItems(items).Success? ==>
              r == Success((FirstSeen(done + ParseItems(items).value),
                            Aggregate(done + ParseItems(items).value)))
  {
    var order, allItems := order0, allItems0;
    ghost var cur: seq<Line> := [];
    assert done + cur == done;
    for j := 0 to |items|
      invariant ParseItems(items[..j]) == Success(cur)
      invariant order == FirstSeen(done + cur) && allItems == Aggregate(done + cur)
    {
      var item := items[j];
      if item.article.None? {
        LineFailsAt(items, j, cur);
        return Failure(KeyError(ArticleKey));
      }
      if item.article.value.itemNumber.None? {
        LineFailsAt(items, j, cur);
        return Failure(KeyError(ItemNumberKey));
      }
      var articleNumber := item.article.value.itemNumber.value;
      if item.article.value.itemText.None? {
        LineFailsAt(items, j, cur);
        return Failure(KeyError(ItemTextKey));
      }
      var articleText := item.article.value.itemText.value;
      if articleNumber !in allItems {
        allItems := allItems[articleNumber := Article(articleText, [])];
        order := order + [articleNumber];
      }
      if item.unitPrice.None? {
        LineFailsAt(items, j, cur);
        return Failure(KeyError(UnitPriceKey));
      }
      if item.total.None? {
        LineFailsAt(items, j, cur);
        return Failure(KeyError(TotalKey));
      }
      var purchase := Purchase(item.unitPrice.value, item.total.value);
      allItems := allItems[articleNumber := allItems[articleNumber].(
                    purchases := allItems[articleNumber].purchases + [purchase])];
      ghost var line := ToLine(item);
      ParseItemsStep(items, j, cur);
      RecordStep(done, cur, line);
      cur := cur + [line];
    }
    assert items[..|items|] == items;
    r := Success((order, allItems));
  }

  /** parse_receipts: the loop over the receipts, each receipt's lines added
      to the dictionary in place by the inner loop. */
  method ParseReceipts(data: seq<RawReceipt>) returns (r: Result<ArticleDict>)
    ensures r == Parse(data)
  {
    var order: seq<ItemNumber> := [];
    var allItems: map<ItemNumber, Article> := map[];
    ghost var lines: seq<Line> := [];
    for i := 0 to |data|
      invariant ParseData(data[..i]) == Success(lines)
      invariant order == FirstSeen(lines) && allItems == Aggregate(lines)
    {
      var receipt := data[i];
      if receipt.items.None? {
        ReceiptFailsAt(data, i, lines);
        return Failure(KeyError(ItemsKey));
      }
      var added := RecordItems(receipt.items.value, lines, order, allItems);
      if added.Failure? {
        ReceiptFailsAt(data, i, lines);
        return Failure(added.error);
      }
      order, allItems := added.value.0, added.value.1;
      ghost var cur := ParseItems(receipt.items.value).value;
      ParseDataStep(data, i, lines, cur);
      lines := lines + cur;
    }
    assert data[..|data|] == data;
    r := Success(ArticleDict(order, allItems));
  }
}
