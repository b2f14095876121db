/**
 * The products page's client-side ordering (`sortedItems`): a comparator built from a
 * primary key, a tie-break on the numeric id and a direction factor, and the sort of a
 * fresh copy of `items` by it. The sort is modelled as a stable insertion sort, which
 * is what any stable sort yields with this comparator.
 */
module SortOrder {
  import opened Text

  /** A product row as the page receives it from the list call. */
  datatype Item = Item(id: int, description: string, quantity: int, deleted: bool)

  /** The value held in `items`: the last list response, which need not be an array. */
  datatype Listing = Array(elements: seq<Item>) | NotArray

  datatype SortKey = ById | ByDescription | ByQuantity | ByStatus

  datatype SortDir = Asc | Desc

  // ---------------------------------------------------------------------------
  // The comparator

  /** `cmpNum`: -1, 0 or 1 as `a` is below, equal to or above `b`. */
  function CompareNum(a: int, b: int): (r: int)
    ensures r == 0 <==> a == b
    ensures r < 0 <==> a < b
    ensures r > 0 <==> a > b
    ensures -1 <= r <= 1
  {
    if a == b then 0 else if a > b then 1 else -1
  }

  /** `statusValue`: active rows count 0, deleted rows 1. */
  function StatusValue(p: Item): int {
    if p.deleted then 1 else 0
  }

  /** The comparison by the chosen key alone; STATUS falls back on the description. */
  function PrimaryCompare(a: Item, b: Item, key: SortKey): int {
    match key
    case ById => CompareNum(a.id, b.id)
    case ByQuantity => CompareNum(a.quantity, b.quantity)
    case ByDescription => CompareText(a.description, b.description)
    case ByStatus =>
      var c := CompareNum(StatusValue(a), StatusValue(b));
      if c == 0 then CompareText(a.description, b.description) else c
  }

  /** The comparator before the direction is applied: primary key, then id ascending. */
  function AscendingCompare(a: Item, b: Item, key: SortKey): int {
    var c := PrimaryCompare(a, b, key);
    if c == 0 then CompareNum(a.id, b.id) else c
  }

  /** The comparator handed to the sort: `c * dir`, with dir 1 for ASC and -1 for DESC. */
  function Compare(a: Item, b: Item, key: SortKey, dir: SortDir): int {
    var c := AscendingCompare(a, b, key);
    if dir == Asc then c * 1 else c * -1
  }

  /** The primary comparison orders items by a total preorder. */
  lemma PrimaryLaws(a: Item, b: Item, c: Item, key: SortKey)
    ensures PrimaryCompare(a, b, key) == -PrimaryCompare(b, a, key)
    ensures PrimaryCompare(a, b, key) <= 0 && PrimaryCompare(b, c, key) <= 0 ==> PrimaryCompare(a, c, key) <= 0
  {
    CompareTextIsTotalPreorder(a.description, b.description, c.description);
  }

  /** The full comparator is antisymmetric and transitive, in either direction, and it
      answers 0 only for items with the same id. */
  lemma CompareLaws(a: Item, b: Item, c: Item, key: SortKey, dir: SortDir)
    ensures Compare(a, b, key, dir) == -Compare(b, a, key, dir)
    ensures Compare(a, b, key, dir) <= 0 && Compare(b, c, key, dir) <= 0 ==> Compare(a, c, key, dir) <= 0
    ensures Compare(a, b, key, dir) == 0 ==> a.id == b.id
    ensures -1 <= Compare(a, b, key, dir) <= 1
  {
    CompareTextIsTotalPreorder(a.description, b.description, c.description);
    CompareTextIsTotalPreorder(b.description, c.description, a.description);
    CompareTextIsTotalPreorder(c.description, a.description, b.description);
    CompareTextIsTotalPreorder(a.description, c.description, b.description);
    CompareTextIsTotalPreorder(c.description, b.description, a.description);
    CompareTextIsTotalPreorder(b.description, a.description, c.description);
  }

  /** With distinct ids the comparator never reports two items as equal. */
  lemma DistinctIdsNeverTie(a: Item, b: Item, key: SortKey, dir: SortDir)
    requires a.id != b.id
    ensures Compare(a, b, key, dir) != 0
  {
  }

  // ---------------------------------------------------------------------------
  // Sorting

  /** Every earlier item compares at most equal to every later one. */
  predicate Sorted(s: seq<Item>, key: SortKey, dir: SortDir) {
    forall i, j :: 0 <= i < j < |s| ==> Compare(s[i], s[j], key, dir) <= 0
  }

  /** `x` placed before the first item it does not compare above. */
  function Insert(x: Item, s: seq<Item>, key: SortKey, dir: SortDir): (r: seq<Item>)
    ensures multiset(r) == multiset(s) + multiset{x}
    ensures |r| == |s| + 1
  {
    if s == [] then [x]
    else if Compare(x, s[0], key, dir) <= 0 then [x] + s
    else
      assert s == [s[0]] + s[1..];
      [s[0]] + Insert(x, s[1..], key, dir)
  }

  lemma {:induction false} InsertKeepsLowerBound(y: Item, x: Item, s: seq<Item>, key: SortKey, dir: SortDir)
    requires forall j :: 0 <= j < |s| ==> Compare(y, s[j], key, dir) <= 0
    requires Compare(y, x, key, dir) <= 0
    ensures forall j :: 0 <= j < |Insert(x, s, key, dir)| ==> Compare(y, Insert(x, s, key, dir)[j], key, dir) <= 0
  {
    var r := Insert(x, s, key, dir);
    forall j | 0 <= j < |r| ensures Compare(y, r[j], key, dir) <= 0 {
      assert r[j] in multiset(r);
      if r[j] != x {
        assert r[j] in multiset(s);
        var k :| 0 <= k < |s| && s[k] == r[j];
      }
    }
  }

  lemma {:induction false} InsertSorted(x: Item, s: seq<Item>, key: SortKey, dir: SortDir)
    requires Sorted(s, key, dir)
    ensures Sorted(Insert(x, s, key, dir), key, dir)
  {
    if s == [] {
    } else if Compare(x, s[0], key, dir) <= 0 {
      forall j | 0 <= j < |s| ensures Compare(x, s[j], key, dir) <= 0 {
        CompareLaws(x, s[0], s[j], key, dir);
      }
    } else {
      var tail := s[1..];
      InsertSorted(x, tail, key, dir);
      CompareLaws(x, s[0], x, key, dir);
      InsertKeepsLowerBound(s[0], x, tail, key, dir);
    }
  }

  /** The stable sort of `s` by the comparator: a sorted permutation of `s`. */
  function Sort(s: seq<Item>, key: SortKey, dir: SortDir): (r: seq<Item>)
    ensures multiset(r) == multiset(s)
    ensures |r| == |s|
    ensures Sorted(r, key, dir)
  {
    if s == [] then []
    else
      var rest := Sort(s[1..], key, dir);
      InsertSorted(s[0], rest, key, dir);
      assert s == [s[0]] + s[1..];
      Insert(s[0], rest, key, dir)
  }

  /** `sortedItems`: a sorted copy of `items` when it is an array, and no rows when it
      is not; `items` itself is left alone. */
  function SortedItems(items: Listing, key: SortKey, dir: SortDir): (r: seq<Item>)
    ensures items.NotArray? ==> r == []
    ensures items.Array? ==> multiset(r) == multiset(items.elements) && Sorted(r, key, dir)
  {
    match items
    case Array(elements) => Sort(elements, key, dir)
    case NotArray => []
  }

  // ---------------------------------------------------------------------------
  // Determinism

  predicate DistinctIds(s: seq<Item>) {
    forall i, j :: 0 <= i < j < |s| ==> s[i].id != s[j].id
  }

  /** Two members of `s` with the same id are the same item. */
  predicate IdsIdentify(s: seq<Item>) {
    forall x, y :: x in s && y in s && x.id == y.id ==> x == y
  }

  lemma DistinctIdsIdentify(s: seq<Item>)
    requires DistinctIds(s)
    ensures IdsIdentify(s)
  {
    forall x, y | x in s && y in s && x.id == y.id ensures x == y {
      var i :| 0 <= i < |s| && s[i] == x;
      var j :| 0 <= j < |s| && s[j] == y;
      assert !(i < j) && !(j < i);
    }
  }

  lemma IdsIdentifyPermutation(a: seq<Item>, b: seq<Item>)
    requires multiset(a) == multiset(b) && IdsIdentify(a)
    ensures IdsIdentify(b)
  {
    forall x | x in b ensures x in a {
      assert x in multiset(b);
    }
  }

  /** The first items of two sorted arrangements of one collection coincide. */
  lemma SortedHeadsAgree(a: seq<Item>, b: seq<Item>, key: SortKey, dir: SortDir)
    requires a != [] && multiset(a) == multiset(b)
    requires IdsIdentify(a)
    requires Sorted(a, key, dir) && Sorted(b, key, dir)
    ensures b != [] && a[0] == b[0]
  {
    assert a[0] in multiset(b) && b[0] in multiset(a);
    var k :| 0 <= k < |b| && b[k] == a[0];
    var m :| 0 <= m < |a| && a[m] == b[0];
    CompareLaws(a[0], b[0], b[0], key, dir);
    assert Compare(a[0], b[0], key, dir) == 0 by {
      if m > 0 { assert Compare(a[0], a[m], key, dir) <= 0; }
      if k > 0 { assert Compare(b[0], b[k], key, dir) <= 0; }
    }
  }

  lemma TailsPermutation(a: seq<Item>, b: seq<Item>)
    requires a != [] && b != [] && a[0] == b[0] && multiset(a) == multiset(b)
    ensures multiset(a[1..]) == multiset(b[1..])
  {
    assert a == [a[0]] + a[1..] && b == [b[0]] + b[1..];
    assert multiset(a[1..]) == multiset(a) - multiset{a[0]};
    assert multiset(b[1..]) == multiset(b) - multiset{b[0]};
  }

  /** When ids identify items, the comparator admits only one sorted arrangement of a
      collection: the order is total and the sort deterministic. */
  lemma {:induction false} SortedPermutationUnique(a: seq<Item>, b: seq<Item>, key: SortKey, dir: SortDir)
    requires multiset(a) == multiset(b)
    requires IdsIdentify(a)
    requires Sorted(a, key, dir) && Sorted(b, key, dir)
    ensures a == b
  {
    if a == [] {
      assert |b| == |multiset(b)| == 0;
    } else {
      SortedHeadsAgree(a, b, key, dir);
      TailsPermutation(a, b);
      forall x, y | x in a[1..] && y in a[1..] && x.id == y.id ensures x == y {
        assert x in a && y in a;
      }
      SortedPermutationUnique(a[1..], b[1..], key, dir);
      assert a == [a[0]] + a[1..] && b == [b[0]] + b[1..];
    }
  }

  /** A sorted sequence is its own sort. */
  lemma {:induction false} SortOfSorted(s: seq<Item>, key: SortKey, dir: SortDir)
    requires Sorted(s, key, dir)
    ensures Sort(s, key, dir) == s
  {
    if s != [] {
      var t := s[1..];
      assert Sorted(t, key, dir) by {
        forall i, j | 0 <= i < j < |t| ensures Compare(t[i], t[j], key, dir) <= 0 {
          assert t[i] == s[i + 1] && t[j] == s[j + 1];
        }
      }
      SortOfSorted(t, key, dir);
      if t == [] {
        assert Insert(s[0], t, key, dir) == [s[0]];
      } else {
        assert Compare(s[0], t[0], key, dir) <= 0;
        assert Insert(s[0], t, key, dir) == [s[0]] + t;
      }
      assert s == [s[0]] + t;
    }
  }

  /** Sorting an already sorted view again changes nothing. */
  lemma SortIsIdempotent(s: seq<Item>, key: SortKey, dir: SortDir)
    ensures Sort(Sort(s, key, dir), key, dir) == Sort(s, key, dir)
  {
    SortOfSorted(Sort(s, key, dir), key, dir);
  }

  function Reverse(s: seq<Item>): (r: seq<Item>)
    ensures |r| == |s| && multiset(r) == multiset(s)
    ensures forall i :: 0 <= i < |s| ==> r[i] == s[|s| - 1 - i]
  {
    if s == [] then []
    else
      var r := Reverse(s[1..]) + [s[0]];
      assert s == [s[0]] + s[1..];
      r
  }

  /** With distinct ids, the DESC view is exactly the ASC view reversed, tie-breaks
      included. */
  lemma SortDescIsReverseOfAsc(s: seq<Item>, key: SortKey)
    requires DistinctIds(s)
    ensures Sort(s, key, Desc) == Reverse(Sort(s, key, Asc))
  {
    var up := Sort(s, key, Asc);
    var down := Sort(s, key, Desc);
    var flipped := Reverse(up);
    forall i, j | 0 <= i < j < |flipped| ensures Compare(flipped[i], flipped[j], key, Desc) <= 0 {
      var n := |up|;
      assert Compare(up[n - 1 - j], up[n - 1 - i], key, Asc) <= 0;
      CompareLaws(flipped[i], flipped[j], flipped[j], key, Asc);
    }
    DistinctIdsIdentify(s);
    IdsIdentifyPermutation(s, down);
    SortedPermutationUnique(down, flipped, key, Desc);
  }

  /** Sorting by STATUS ascending puts every active row before every deleted one, orders
      rows of one status by description, and rows with equal descriptions by id. */
  lemma SortByStatusPutsActiveFirst(s: seq<Item>)
    ensures var r := Sort(s, ByStatus, Asc);
      forall i, j :: 0 <= i < j < |r| ==>
        (r[i].deleted ==> r[j].deleted) &&
        (r[i].deleted == r[j].deleted ==> CompareText(r[i].description, r[j].description) <= 0) &&
        (r[i].deleted == r[j].deleted && CompareText(r[i].description, r[j].description) == 0 ==> r[i].id <= r[j].id)
  {
    var r := Sort(s, ByStatus, Asc);
    forall i, j | 0 <= i < j < |r|
      ensures r[i].deleted ==> r[j].deleted
      ensures r[i].deleted == r[j].deleted ==> CompareText(r[i].description, r[j].description) <= 0
    {
      assert Compare(r[i], r[j], ByStatus, Asc) <= 0;
    }
  }

  /** Two active rows "banana" (id 1) and "apple" (id 2) sorted by description ascending
      come out apple first. */
  lemma DescriptionScenario()
    ensures Sort([Item(1, "banana", 5, false), Item(2, "apple", 5, false)], ByDescription, Asc)
         == [Item(2, "apple", 5, false), Item(1, "banana", 5, false)]
  {
    var banana := Item(1, "banana", 5, false);
    var apple := Item(2, "apple", 5, false);
    assert Lower("banana") == "banana" && Lower("apple") == "apple";
    assert CompareText("banana", "apple") == 1;
    assert Sort([apple], ByDescription, Asc) == [apple];
    assert [banana, apple][1..] == [apple];
  }
}
