/** The order in which list_of_purchases emits its rows: Python's sorted()
    over Article records, which compares them as tuples (name, purchases);
    names compare as strings, code point by code point, and purchase lists as
    lists of (unit_price, total_price) tuples. */
module Ordering {
  import opened Receipts

  /** Python's `a <= b` on two sequences (str or list) whose elements are
      ordered by the strict order lt: the first differing position decides,
      and a proper prefix comes first. */
  predicate LexLe<T(==)>(a: seq<T>, b: seq<T>, lt: (T, T) -> bool)
    decreases |a|
  {
    |a| == 0 || (|b| > 0 && (lt(a[0], b[0]) || (a[0] == b[0] && LexLe(a[1..], b[1..], lt))))
  }

  ghost predicate StrictTotalOrder<T(!new)>(lt: (T, T) -> bool) {
    && (forall x :: !lt(x, x))
    && (forall x, y, z :: lt(x, y) && lt(y, z) ==> lt(x, z))
    && (forall x, y :: x != y ==> lt(x, y) || lt(y, x))
  }

  /** `<` on characters of a Python str: by code point. */
  predicate CharLt(c: char, d: char) {
    c < d
  }

  /** `<` on Purchase tuples: by unit price, then by total price. */
  predicate PurchaseLt(p: Purchase, q: Purchase) {
    p.unitPrice < q.unitPrice || (p.unitPrice == q.unitPrice && p.totalPrice < q.totalPrice)
  }

  /** Python's `x <= y` on Article tuples: by name, then by purchase list. */
  predicate ArticleLe(x: Article, y: Article) {
    if x.name != y.name then LexLe(x.name, y.name, CharLt)
    else LexLe(x.purchases, y.purchases, PurchaseLt)
  }

  lemma CharLtIsStrictTotal()
    ensures StrictTotalOrder(CharLt)
  {
  }

  lemma PurchaseLtIsStrictTotal()
    ensures StrictTotalOrder(PurchaseLt)
  {
  }

  lemma {:induction false} LexLeReflexive<T>(a: seq<T>, lt: (T, T) -> bool)
    ensures LexLe(a, a, lt)
    decreases |a|
  {
    if |a| > 0 {
      LexLeReflexive(a[1..], lt);
    }
  }

  /** Lexicographic order is antisymmetric when the element order is a strict total order. */
  lemma {:induction false} LexLeAntisymmetric<T(!new)>(a: seq<T>, b: seq<T>, lt: (T, T) -> bool)
    requires StrictTotalOrder(lt)
    requires LexLe(a, b, lt) && LexLe(b, a, lt)
    ensures a == b
    decreases |a|
  {
    if |a| > 0 {
      assert a[0] == b[0];
      LexLeAntisymmetric(a[1..], b[1..], lt);
      assert a == [a[0]] + a[1..] && b == [b[0]] + b[1..];
    }
  }

  lemma {:induction false} LexLeTransitive<T(!new)>(a: seq<T>, b: seq<T>, c: seq<T>, lt: (T, T) -> bool)
    requires StrictTotalOrder(lt)
    requires LexLe(a, b, lt) && LexLe(b, c, lt)
    ensures LexLe(a, c, lt)
    decreases |a|
  {
    if |a| > 0 && a[0] == b[0] && b[0] == c[0] {
      LexLeTransitive(a[1..], b[1..], c[1..], lt);
    }
  }

  lemma {:induction false} LexLeTotal<T(!new)>(a: seq<T>, b: seq<T>, lt: (T, T) -> bool)
    requires StrictTotalOrder(lt)
    ensures LexLe(a, b, lt) || LexLe(b, a, lt)
    decreases |a|
  {
    if |a| > 0 && |b| > 0 && a[0] == b[0] {
      LexLeTotal(a[1..], b[1..], lt);
    }
  }

  /** Article comparison is a total order: reflexive, antisymmetric,
      transitive and total, so sorting by it has exactly one outcome. */
  lemma ArticleLeReflexive(x: Article)
    ensures ArticleLe(x, x)
  {
    LexLeReflexive(x.purchases, PurchaseLt);
  }

  lemma ArticleLeAntisymmetric(x: Article, y: Article)
    requires ArticleLe(x, y) && ArticleLe(y, x)
    ensures x == y
  {
    CharLtIsStrictTotal();
    PurchaseLtIsStrictTotal();
    if x.name != y.name {
      LexLeAntisymmetric(x.name, y.name, CharLt);
    } else {
      LexLeAntisymmetric(x.purchases, y.purchases, PurchaseLt);
    }
  }

  lemma ArticleLeTransitive(x: Article, y: Article, z: Article)
    requires ArticleLe(x, y) && ArticleLe(y, z)
    ensures ArticleLe(x, z)
  {
    CharLtIsStrictTotal();
    PurchaseLtIsStrictTotal();
    if x.name == y.name && y.name == z.name {
      LexLeTransitive(x.purchases, y.purchases, z.purchases, PurchaseLt);
    } else if x.name == y.name || y.name == z.name {
    } else {
      LexLeTransitive(x.name, y.name, z.name, CharLt);
      if x.name == z.name {
        LexLeAntisymmetric(x.name, y.name, CharLt);
      }
    }
  }

  lemma ArticleLeTotal(x: Article, y: Article)
    ensures ArticleLe(x, y) || ArticleLe(y, x)
  {
    CharLtIsStrictTotal();
    PurchaseLtIsStrictTotal();
    LexLeTotal(x.name, y.name, CharLt);
    LexLeTotal(x.purchases, y.purchases, PurchaseLt);
  }

  ghost predicate IsSorted(s: seq<Article>) {
    forall i, j :: 0 <= i < j < |s| ==> ArticleLe(s[i], s[j])
  }

  /** Insertion of one article in front of the first one it does not exceed. */
  function Insert(a: Article, s: seq<Article>): seq<Article> {
    if s == [] then [a]
    else if ArticleLe(a, s[0]) then [a] + s
    else [s[0]] + Insert(a, s[1..])
  }

  /** sorted(): any algorithm gives the same list (SortedUnique), so this
      one is insertion sort. */
  function Sort(s: seq<Article>): seq<Article> {
    if s == [] then [] else Insert(s[0], Sort(s[1..]))
  }

  lemma {:induction false} InsertCorrect(a: Article, s: seq<Article>)
    requires IsSorted(s)
    ensures IsSorted(Insert(a, s))
    ensures multiset(Insert(a, s)) == multiset(s) + multiset{a}
  {
    if s == [] {
    } else if ArticleLe(a, s[0]) {
      forall j | 0 <= j < |s|
        ensures ArticleLe(a, s[j])
      {
        if j > 0 {
          ArticleLeTransitive(a, s[0], s[j]);
        }
      }
    } else {
      var t := Insert(a, s[1..]);
      InsertCorrect(a, s[1..]);
      ArticleLeTotal(a, s[0]);
      assert s == [s[0]] + s[1..];
      forall j | 0 <= j < |t|
        ensures ArticleLe(s[0], t[j])
      {
        assert t[j] in multiset(t);
        if t[j] == a {
        } else {
          assert t[j] in multiset(s[1..]);
          var k :| 0 <= k < |s[1..]| && s[1..][k] == t[j];
          assert s[k + 1] == t[j];
        }
      }
    }
  }

  /** sorted() returns a non-decreasing permutation of its input. */
  lemma {:induction false} SortCorrect(s: seq<Article>)
    ensures IsSorted(Sort(s))
    ensures multiset(Sort(s)) == multiset(s)
  {
    if s != [] {
      SortCorrect(s[1..]);
      InsertCorrect(s[0], Sort(s[1..]));
      assert s == [s[0]] + s[1..];
    }
  }

  lemma SortedHeadIsLeast(s: seq<Article>, x: Article)
    requires IsSorted(s) && x in s
    ensures ArticleLe(s[0], x)
  {
    var k :| 0 <= k < |s| && s[k] == x;
    if k == 0 {
      ArticleLeReflexive(x);
    }
  }

  lemma MultisetTail(s: seq<Article>)
    requires s != []
    ensures multiset(s[1..]) == multiset(s) - multiset{s[0]}
  {
    assert s == [s[0]] + s[1..];
  }

  lemma SortedTail(s: seq<Article>)
    requires IsSorted(s) && s != []
    ensures IsSorted(s[1..])
  {
    forall i, j | 0 <= i < j < |s[1..]|
      ensures ArticleLe(s[1..][i], s[1..][j])
    {
      assert s[1..][i] == s[i + 1] && s[1..][j] == s[j + 1];
    }
  }

  /** Two non-empty non-decreasing permutations of each other start alike. */
  lemma SortedSameHead(a: seq<Article>, b: seq<Article>)
    requires IsSorted(a) && IsSorted(b) && a != []
    requires multiset(a) == multiset(b)
    ensures b != [] && a[0] == b[0]
  {
    assert a[0] in multiset(b);
    assert b[0] in multiset(a);
    SortedHeadIsLeast(a, b[0]);
    SortedHeadIsLeast(b, a[0]);
    ArticleLeAntisymmetric(a[0], b[0]);
  }

  /** Two non-decreasing permutations of the same articles are equal: the
      sorted order is fully determined, ties included. */
  lemma {:induction false} SortedUnique(a: seq<Article>, b: seq<Article>)
    requires IsSorted(a) && IsSorted(b)
    requires multiset(a) == multiset(b)
    ensures a == b
    decreases |a|
  {
    if a == [] {
      assert |multiset(b)| == 0;
    } else {
      SortedSameHead(a, b);
      MultisetTail(a);
      MultisetTail(b);
      SortedTail(a);
      SortedTail(b);
      SortedUnique(a[1..], b[1..]);
      assert a == [a[0]] + a[1..] && b == [b[0]] + b[1..];
    }
  }
}
