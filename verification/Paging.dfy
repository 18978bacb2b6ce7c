// Listing: normalisation of the page query, ordering, and the slice a page shows.
module Paging {
  import opened Records

  datatype Item = Item(id: nat, row: Row)

  datatype Page = Page(items: seq<Item>, total: nat, page: int, pageSize: int)

  // The repository's normalisation.
  function NormalizePage(page: int, pageSize: int): (int, int) {
    (if page < 1 then 1 else page,
     if pageSize < 1 then 20 else if pageSize > 100 then 100 else pageSize)
  }

  // The handler's normalisation, which runs first.
  function BindPage(page: int, pageSize: int): (int, int) {
    (if page < 1 then 1 else page,
     if pageSize < 1 || pageSize > 100 then 20 else pageSize)
  }

  // What the handler has normalised the repository leaves alone; by themselves the two differ
  // exactly on page sizes above 100.
  lemma Normalisations(page: int, pageSize: int)
    ensures var (p, n) := BindPage(page, pageSize);
            NormalizePage(p, n) == (p, n) && p >= 1 && 1 <= n <= 100
    ensures BindPage(page, pageSize) == NormalizePage(page, pageSize) <==> pageSize <= 100
    ensures 1 <= pageSize <= 100 ==> BindPage(page, pageSize).1 == pageSize
    ensures pageSize < 1 ==> BindPage(page, pageSize).1 == 20
    ensures pageSize > 100 ==> BindPage(page, pageSize).1 == 20 && NormalizePage(page, pageSize).1 == 100
    ensures BindPage(page, pageSize).0 == if page < 1 then 1 else page
  {
  }

  // updated_at DESC, id DESC
  predicate Before(a: Item, b: Item) {
    a.row.updatedAt > b.row.updatedAt || (a.row.updatedAt == b.row.updatedAt && a.id > b.id)
  }

  function Insert(sorted: seq<Item>, x: Item): seq<Item> {
    if sorted == [] || Before(x, sorted[0]) then [x] + sorted else [sorted[0]] + Insert(sorted[1..], x)
  }

  function Ordered(items: seq<Item>): seq<Item> {
    if items == [] then [] else Insert(Ordered(items[1..]), items[0])
  }

  function Matching(table: seq<Item>, filter: Item -> bool): seq<Item> {
    if table == [] then []
    else (if !table[0].row.deleted && filter(table[0]) then [table[0]] else []) + Matching(table[1..], filter)
  }

  function Min(a: int, b: int): int { if a < b then a else b }

  // How many of total items the first pages hold.
  function PageEnd(pages: int, pageSize: int, total: nat): (end: int)
    requires pages >= 0 && pageSize >= 1
    ensures 0 <= end <= total
  {
    PageStartIsNatural(pages, pageSize);
    Min(pages * pageSize, total)
  }

  lemma PageStartIsNatural(pages: int, pageSize: int)
    requires pages >= 0 && pageSize >= 1
    ensures 0 <= pages * pageSize
  {
  }

  lemma PageEndsGrow(page: int, pageSize: int, total: nat)
    requires page >= 1 && pageSize >= 1
    ensures PageEnd(page - 1, pageSize, total) <= PageEnd(page, pageSize, total)
  {
    assert page * pageSize == (page - 1) * pageSize + pageSize;
  }

  // Rows (page - 1) * pageSize up to page * pageSize of the ordered list.
  function Slice(all: seq<Item>, page: int, pageSize: int): seq<Item>
    requires page >= 1 && pageSize >= 1
  {
    PageEndsGrow(page, pageSize, |all|);
    all[PageEnd(page - 1, pageSize, |all|)..PageEnd(page, pageSize, |all|)]
  }

  function List(table: seq<Item>, filter: Item -> bool, page: int, pageSize: int): Page {
    var (p, n) := NormalizePage(page, pageSize);
    var all := Ordered(Matching(table, filter));
    Page(Slice(all, p, n), |all|, p, n)
  }

  // Pages 1 to count one after the other.
  function Pages(table: seq<Item>, filter: Item -> bool, count: nat, pageSize: int): seq<Item> {
    if count == 0 then [] else Pages(table, filter, count - 1, pageSize) + List(table, filter, count, pageSize).items
  }

  // ---- ordering -----------------------------------------------------------------------------

  ghost predicate Descending(items: seq<Item>) {
    forall i, j :: 0 <= i < j < |items| ==> Before(items[i], items[j])
  }

  ghost predicate UniqueIds(items: seq<Item>) {
    forall i, j :: 0 <= i < j < |items| ==> items[i].id != items[j].id
  }

  lemma {:induction false} InsertKeepsAll(sorted: seq<Item>, x: Item)
    ensures multiset(Insert(sorted, x)) == multiset(sorted) + multiset{x}
  {
    if sorted != [] && !Before(x, sorted[0]) {
      InsertKeepsAll(sorted[1..], x);
      assert sorted == [sorted[0]] + sorted[1..];
    }
  }

  lemma {:induction false} InsertDescending(sorted: seq<Item>, x: Item)
    requires Descending(sorted) && forall y :: y in sorted ==> y.id != x.id
    ensures Descending(Insert(sorted, x))
    ensures forall y :: y in Insert(sorted, x) ==> y in sorted || y == x
  {
    if sorted == [] {
    } else if Before(x, sorted[0]) {
      assert forall i :: 0 < i < |sorted| ==> Before(sorted[0], sorted[i]);
    } else {
      InsertDescending(sorted[1..], x);
      var rest := Insert(sorted[1..], x);
      assert sorted[0] in sorted;
      forall j | 0 <= j < |rest| ensures Before(sorted[0], rest[j]) {
        assert rest[j] in rest;
        assert rest[j] in sorted[1..] || rest[j] == x;
      }
    }
  }

  // The list holds every item once, in strictly descending order.
  lemma {:induction false} OrderedSorts(items: seq<Item>)
    requires UniqueIds(items)
    ensures Descending(Ordered(items)) && multiset(Ordered(items)) == multiset(items)
  {
    if items != [] {
      var sorted := Ordered(items[1..]);
      OrderedSorts(items[1..]);
      InsertKeepsAll(sorted, items[0]);
      assert items == [items[0]] + items[1..];
      forall y | y in sorted ensures y.id != items[0].id {
        assert y in multiset(items[1..]);
        var k :| 0 <= k < |items[1..]| && items[1..][k] == y;
        assert items[k + 1] == y;
      }
      InsertDescending(sorted, items[0]);
    }
  }

  lemma {:induction false} MatchingExactly(table: seq<Item>, filter: Item -> bool, x: Item)
    ensures multiset(Matching(table, filter))[x] == if !x.row.deleted && filter(x) then multiset(table)[x] else 0
  {
    if table != [] {
      MatchingExactly(table[1..], filter, x);
      assert table == [table[0]] + table[1..];
    }
  }

  lemma {:induction false} MatchingUnique(table: seq<Item>, filter: Item -> bool)
    requires UniqueIds(table)
    ensures forall x :: x in Matching(table, filter) ==> x in table
    ensures UniqueIds(Matching(table, filter))
  {
    if table != [] {
      var rest := Matching(table[1..], filter);
      MatchingUnique(table[1..], filter);
      forall i | 0 <= i < |rest| ensures rest[i].id != table[0].id {
        assert rest[i] in table[1..];
        var k :| 0 <= k < |table[1..]| && table[1..][k] == rest[i];
        assert table[k + 1] == rest[i];
      }
    }
  }

  // ---- tiling ---------------------------------------------------------------------------------

  function PageCount(total: nat, pageSize: int): nat
    requires pageSize >= 1
  {
    (total + pageSize - 1) / pageSize
  }

  lemma SliceFollows(all: seq<Item>, page: int, pageSize: int)
    requires page >= 1 && pageSize >= 1
    ensures all[..PageEnd(page - 1, pageSize, |all|)] + Slice(all, page, pageSize) == all[..PageEnd(page, pageSize, |all|)]
  {
    PageEndsGrow(page, pageSize, |all|);
  }

  lemma {:induction false} FirstPages(table: seq<Item>, filter: Item -> bool, count: nat, pageSize: int)
    requires 1 <= pageSize <= 100
    ensures var all := Ordered(Matching(table, filter));
            Pages(table, filter, count, pageSize) == all[..PageEnd(count, pageSize, |all|)]
  {
    if count > 0 {
      FirstPages(table, filter, count - 1, pageSize);
      SliceFollows(Ordered(Matching(table, filter)), count, pageSize);
    }
  }

  lemma EnoughPages(total: nat, pageSize: int)
    requires pageSize >= 1
    ensures PageCount(total, pageSize) * pageSize >= total
  {
    var n := total + pageSize - 1;
    assert n == n / pageSize * pageSize + n % pageSize;
  }

  lemma AllPages(table: seq<Item>, filter: Item -> bool, pageSize: int)
    requires 1 <= pageSize <= 100
    ensures var all := Ordered(Matching(table, filter));
            Pages(table, filter, PageCount(|all|, pageSize), pageSize) == all
  {
    var all := Ordered(Matching(table, filter));
    EnoughPages(|all|, pageSize);
    FirstPages(table, filter, PageCount(|all|, pageSize), pageSize);
    assert all[..|all|] == all;
  }

  // Newest first, and for equal times the higher id first.
  lemma DescendingColumns(items: seq<Item>)
    ensures Descending(items) <==>
              forall i, j :: 0 <= i < j < |items| ==>
                || items[i].row.updatedAt > items[j].row.updatedAt
                || (items[i].row.updatedAt == items[j].row.updatedAt && items[i].id > items[j].id)
  {
    assert forall i, j :: 0 <= i < j < |items| ==>
             (Before(items[i], items[j]) <==>
                || items[i].row.updatedAt > items[j].row.updatedAt
                || (items[i].row.updatedAt == items[j].row.updatedAt && items[i].id > items[j].id));
  }

  // Tiling: for a fixed table and filter, pages 1 to ceil(total / pageSize) in a row are every live
  // matching row exactly once, newest first, and for equal times the higher id first.
  lemma PagesTile(table: seq<Item>, filter: Item -> bool, pageSize: int)
    requires UniqueIds(table) && 1 <= pageSize <= 100
    ensures var total := List(table, filter, 1, pageSize).total;
            var all := Pages(table, filter, PageCount(total, pageSize), pageSize);
            && |all| == total
            && (forall i, j :: 0 <= i < j < |all| ==>
                  || all[i].row.updatedAt > all[j].row.updatedAt
                  || (all[i].row.updatedAt == all[j].row.updatedAt && all[i].id > all[j].id))
            && (forall x :: multiset(all)[x] == if !x.row.deleted && filter(x) then multiset(table)[x] else 0)
  {
    AllPages(table, filter, pageSize);
    MatchingUnique(table, filter);
    OrderedSorts(Matching(table, filter));
    DescendingColumns(Ordered(Matching(table, filter)));
    OrderedLength(Matching(table, filter));
    forall x { MatchingExactly(table, filter, x); }
  }

  lemma OrderedLength(items: seq<Item>)
    requires UniqueIds(items)
    ensures |Ordered(items)| == |items|
  {
    OrderedSorts(items);
    assert |multiset(Ordered(items))| == |multiset(items)|;
  }

  // Item i of page p is item (p - 1) * pageSize + i of all pages in a row, and every page but the last is full.
  lemma PageShows(table: seq<Item>, filter: Item -> bool, page: int, pageSize: int)
    requires 1 <= pageSize <= 100 && page >= 1
    ensures var shown := List(table, filter, page, pageSize);
            var all := Pages(table, filter, PageCount(shown.total, pageSize), pageSize);
            var start := (page - 1) * pageSize;
            && shown.page == page && shown.pageSize == pageSize && shown.total == |all| && 0 <= start
            && |shown.items| == (if start >= |all| then 0 else if start + pageSize <= |all| then pageSize else |all| - start)
            && forall i :: 0 <= i < |shown.items| ==> shown.items[i] == all[start + i]
  {
    var all := Ordered(Matching(table, filter));
    AllPages(table, filter, pageSize);
    PageStartIsNatural(page - 1, pageSize);
    PageBounds(page, pageSize, |all|);
    assert List(table, filter, page, pageSize).items == Slice(all, page, pageSize);
  }

  lemma PageBounds(page: int, pageSize: int, total: nat)
    requires page >= 1 && pageSize >= 1
    ensures var start := (page - 1) * pageSize;
            && PageEnd(page - 1, pageSize, total) == (if start < total then start else total)
            && PageEnd(page, pageSize, total) == (if start + pageSize < total then start + pageSize else total)
  {
    assert page * pageSize == (page - 1) * pageSize + pageSize;
  }
}
