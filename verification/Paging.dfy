/**
 * ListAsync: filter, order by newest then id, skip and take. `(Page - 1) * PageSize` is a 32-bit
 * product that wraps around silently.
 */
module Paging {
  import opened Prelude
  import D = Delivery

  const INT_MAX := 0x7FFF_FFFF
  const TWO_TO_THE_32 := 0x1_0000_0000

  type Int32 = n: int | -0x8000_0000 <= n <= INT_MAX

  datatype Item = Item(id: nat, task: D.Task)

  // `needle` stands for the ILIKE match on title or description.
  datatype Query = Query(page: Int32, pageSize: Int32, status: Option<D.Status>, priority: Option<D.Priority>,
                         needle: Option<Item -> bool>)

  // What model binding lets through.
  predicate ValidQuery(q: Query) {
    1 <= q.page && 1 <= q.pageSize <= 100
  }

  datatype PagedResult = PagedResult(items: seq<Item>, page: Int32, pageSize: Int32, totalItems: Int32)

  // A negative OFFSET is refused by the database.
  datatype ListError = NegativeOffset

  // What an unchecked 32-bit operation leaves of n.
  function Wrap32(n: int): (r: Int32)
    ensures -0x8000_0000 <= n <= INT_MAX <==> r == n
  {
    (n + 0x8000_0000) % TWO_TO_THE_32 - 0x8000_0000
  }

  /* ---------- the unique order ---------- */

  // Newest first, then id.
  predicate Before(a: Item, b: Item) {
    a.task.createdAt > b.task.createdAt || (a.task.createdAt == b.task.createdAt && a.id < b.id)
  }

  ghost predicate Ordered(s: seq<Item>) {
    forall i, j | 0 <= i < j < |s| :: Before(s[i], s[j])
  }

  // Rows of a table have distinct primary keys.
  ghost predicate DistinctIds(s: seq<Item>) {
    forall i, j | 0 <= i < j < |s| :: s[i].id != s[j].id
  }

  function Place(x: Item, s: seq<Item>): seq<Item> {
    if s == [] || Before(x, s[0]) then [x] + s else [s[0]] + Place(x, s[1..])
  }

  function Sorted(s: seq<Item>): seq<Item> {
    if s == [] then [] else Place(s[0], Sorted(s[1..]))
  }

  lemma {:induction false} PlaceContents(x: Item, s: seq<Item>)
    ensures multiset(Place(x, s)) == multiset(s) + multiset{x} && |Place(x, s)| == |s| + 1
  {
    if s != [] && !Before(x, s[0]) {
      PlaceContents(x, s[1..]);
      assert s == [s[0]] + s[1..];
    }
  }

  lemma {:induction false} PlaceOrdered(x: Item, s: seq<Item>)
    requires Ordered(s) && forall i | 0 <= i < |s| :: s[i].id != x.id
    ensures Ordered(Place(x, s))
  {
    if s != [] && !Before(x, s[0]) {
      PlaceOrdered(x, s[1..]);
      PlaceContents(x, s[1..]);
      var t := Place(x, s[1..]);
      forall j | 0 <= j < |t| ensures Before(s[0], t[j]) {
        assert t[j] in multiset(t);
        assert t[j] in multiset(s[1..]) || t[j] == x;
        if t[j] != x {
          var k :| 0 <= k < |s[1..]| && s[1..][k] == t[j];
          assert Before(s[0], s[k + 1]);
        }
      }
    }
  }

  lemma {:induction false} SortedContents(s: seq<Item>)
    ensures multiset(Sorted(s)) == multiset(s) && |Sorted(s)| == |s|
  {
    if s != [] {
      SortedContents(s[1..]);
      PlaceContents(s[0], Sorted(s[1..]));
      assert s == [s[0]] + s[1..];
    }
  }

  lemma {:induction false} SortedOrdered(s: seq<Item>)
    requires DistinctIds(s)
    ensures Ordered(Sorted(s))
  {
    if s != [] {
      SortedOrdered(s[1..]);
      SortedContents(s[1..]);
      var t := Sorted(s[1..]);
      forall i | 0 <= i < |t| ensures t[i].id != s[0].id {
        assert t[i] in multiset(t);
        var k :| 0 <= k < |s[1..]| && s[1..][k] == t[i];
        assert s[0].id != s[k + 1].id;
      }
      PlaceOrdered(s[0], t);
    }
  }

  lemma HeadComesFirst(s: seq<Item>, x: Item)
    requires Ordered(s) && x in s
    ensures s[0] == x || Before(s[0], x)
  {
    var i :| 0 <= i < |s| && s[i] == x;
  }

  lemma FirstIsFirst(a: seq<Item>, b: seq<Item>)
    requires Ordered(a) && Ordered(b) && multiset(a) == multiset(b) && a != [] && b != []
    ensures a[0] == b[0]
  {
    assert a[0] in multiset(b) && b[0] in multiset(a);
    HeadComesFirst(a, b[0]);
    HeadComesFirst(b, a[0]);
  }

  /** The order is total on distinct ids, so the database has one list to return. */
  lemma {:induction false} OrderIsUnique(a: seq<Item>, b: seq<Item>)
    requires Ordered(a) && Ordered(b) && multiset(a) == multiset(b)
    ensures a == b
  {
    assert |a| == |multiset(a)| == |multiset(b)| == |b|;
    if a == [] {
    } else {
      FirstIsFirst(a, b);
      assert a == [a[0]] + a[1..] && b == [b[0]] + b[1..];
      assert multiset(a[1..]) == multiset(a) - multiset{a[0]};
      assert multiset(b[1..]) == multiset(b) - multiset{b[0]};
      OrderIsUnique(a[1..], b[1..]);
    }
  }

  /* ---------- the listing ---------- */

  predicate Matches(q: Query, x: Item) {
    && (q.status.Some? ==> x.task.status == q.status.value)
    && (q.priority.Some? ==> x.task.priority == q.priority.value)
    && (q.needle.Some? ==> q.needle.value(x))
  }

  function Where(s: seq<Item>, p: Item -> bool): (r: seq<Item>)
    ensures |r| <= |s|
  {
    if s == [] then [] else if p(s[0]) then [s[0]] + Where(s[1..], p) else Where(s[1..], p)
  }

  lemma {:induction false} WhereKeepsDistinct(s: seq<Item>, p: Item -> bool)
    requires DistinctIds(s)
    ensures DistinctIds(Where(s, p)) && forall x | x in Where(s, p) :: x in s && p(x)
  {
    if s != [] {
      WhereKeepsDistinct(s[1..], p);
      var t := Where(s[1..], p);
      forall j | 0 <= j < |t| ensures t[j].id != s[0].id {
        assert t[j] in t;
        var k :| 0 <= k < |s[1..]| && s[1..][k] == t[j];
        assert s[0].id != s[k + 1].id;
      }
    }
  }

  function Both(p: Item -> bool, r: Item -> bool): Item -> bool {
    x => p(x) && r(x)
  }

  lemma {:induction false} WhereTwice(s: seq<Item>, p: Item -> bool, r: Item -> bool)
    ensures Where(Where(s, p), r) == Where(s, Both(p, r))
  {
    if s != [] {
      WhereTwice(s[1..], p, r);
      if p(s[0]) {
        var t := [s[0]] + Where(s[1..], p);
        assert t[0] == s[0] && t[1..] == Where(s[1..], p);
      }
    }
  }

  function Filtered(table: seq<Item>, q: Query): seq<Item> {
    Where(table, x => Matches(q, x))
  }

  function Slice(s: seq<Item>, skip: nat, take: nat): seq<Item> {
    if skip >= |s| then [] else if skip + take >= |s| then s[skip..] else s[skip..skip + take]
  }

  // Where a page starts, with unbounded arithmetic.
  function Offset(page: int, size: nat): int {
    (page - 1) * size
  }

  // The page the query asks for, with unbounded arithmetic.
  function Page(table: seq<Item>, q: Query): seq<Item>
    requires ValidQuery(q)
  {
    OffsetsGrow(1, q.page, q.pageSize);
    Slice(Sorted(Filtered(table, q)), Offset(q.page, q.pageSize), q.pageSize)
  }

  // The query is built progressively, one Where for each part that is present.
  method List(table: seq<Item>, q: Query) returns (r: Result<PagedResult, ListError>)
    requires ValidQuery(q) && |table| <= INT_MAX
    ensures var skip := Wrap32(Offset(q.page, q.pageSize));
      r == if skip < 0 then Err(NegativeOffset)
           else Ok(PagedResult(Slice(Sorted(Filtered(table, q)), skip, q.pageSize), q.page, q.pageSize, |Filtered(table, q)|))
  {
    var rows := table;
    ghost var p := (x: Item) => true;
    WhereAll(table);
    if q.status.Some? {
      var byStatus := (x: Item) => q.status == Some(x.task.status);
      WhereTwice(table, p, byStatus);
      rows := Where(rows, byStatus);
      p := Both(p, byStatus);
    }
    if q.priority.Some? {
      var byPriority := (x: Item) => q.priority == Some(x.task.priority);
      WhereTwice(table, p, byPriority);
      rows := Where(rows, byPriority);
      p := Both(p, byPriority);
    }
    if q.needle.Some? {
      WhereTwice(table, p, q.needle.value);
      rows := Where(rows, q.needle.value);
      p := Both(p, q.needle.value);
    }
    WhereSame(table, p, x => Matches(q, x));
    var skip := Wrap32(Offset(q.page, q.pageSize));
    if skip < 0 {
      return Err(NegativeOffset);
    }
    r := Ok(PagedResult(Slice(Sorted(rows), skip, q.pageSize), q.page, q.pageSize, |rows|));
  }

  lemma {:induction false} WhereAll(s: seq<Item>)
    ensures Where(s, x => true) == s
  {
    if s != [] {
      WhereAll(s[1..]);
    }
  }

  lemma {:induction false} WhereSame(s: seq<Item>, p: Item -> bool, r: Item -> bool)
    requires forall x | x in s :: p(x) == r(x)
    ensures Where(s, p) == Where(s, r)
  {
    if s != [] {
      assert s[0] in s && forall x | x in s[1..] :: x in s;
      WhereSame(s[1..], p, r);
    }
  }

  /* ---------- pages ---------- */

  // (int)Math.Ceiling(TotalItems / (double)PageSize); these quotients are far from any rounding.
  function TotalPages(totalItems: nat, pageSize: nat): int {
    if pageSize == 0 then 0 else -((-(totalItems as real / pageSize as real)).Floor)
  }

  lemma {:induction false} RealProduct(a: nat, b: nat)
    ensures (a * b) as real == a as real * b as real
  {
    if b > 0 {
      RealProduct(a, b - 1);
      assert a * b == a * (b - 1) + a;
      assert a as real * b as real == a as real * (b - 1) as real + a as real;
    }
  }

  lemma TimesSize(x: real, y: real, size: real)
    requires size > 0.0 && x <= y
    ensures x * size <= y * size && (x < y ==> x * size < y * size)
  {}

  // n <= t * size exactly when n / size <= t.
  lemma QuotientBelow(n: nat, size: nat, t: nat)
    requires size > 0
    ensures n <= t * size <==> n as real / size as real <= t as real
  {
    var x := n as real / size as real;
    assert x * size as real == n as real;
    RealProduct(t, size);
    if x <= t as real {
      TimesSize(x, t as real, size as real);
    } else {
      TimesSize(t as real, x, size as real);
    }
  }

  predicate IsCeiling(n: nat, size: nat, t: nat) {
    n <= t * size && (t > 0 ==> (t - 1) * size < n)
  }

  lemma CeilingFloor(x: real)
    requires x >= 0.0
    ensures var t := -((-x).Floor); t >= 0 && x <= t as real && (t > 0 ==> (t - 1) as real < x)
  {}

  lemma TotalPagesIsCeiling(n: nat, size: nat)
    requires size > 0
    ensures TotalPages(n, size) >= 0 && IsCeiling(n, size, TotalPages(n, size))
  {
    var x := n as real / size as real;
    assert x >= 0.0;
    CeilingFloor(x);
    var t := TotalPages(n, size);
    QuotientBelow(n, size, t);
    if t > 0 {
      QuotientBelow(n, size, t - 1);
    }
  }

  function PagesUpTo(s: seq<Item>, size: nat, k: nat): seq<Item> {
    if k == 0 then []
    else
      OffsetsGrow(1, k, size);
      PagesUpTo(s, size, k - 1) + Slice(s, Offset(k, size), size)
  }

  lemma OffsetsGrow(j: int, k: int, size: nat)
    requires 1 <= j <= k
    ensures 0 <= Offset(j, size) <= Offset(k, size) && Offset(k + 1, size) == Offset(k, size) + size
  {
    assert (k - 1) * size == (j - 1) * size + (k - j) * size;
  }

  lemma {:induction false} PagesArePrefix(s: seq<Item>, size: nat, k: nat)
    requires size > 0
    ensures 0 <= Offset(k + 1, size)
    ensures PagesUpTo(s, size, k) == if Offset(k + 1, size) >= |s| then s else s[..Offset(k + 1, size)]
  {
    if k > 0 {
      PagesArePrefix(s, size, k - 1);
      OffsetsGrow(1, k, size);
    }
  }

  predicate Within(size: nat, k: int) {
    0 <= Offset(k, size) <= INT_MAX
  }

  ghost predicate FullPage(s: seq<Item>, size: nat, k: int) {
    0 <= Offset(k, size) && |Slice(s, Offset(k, size), size)| == size
  }

  lemma PagesCoverAt(s: seq<Item>, size: nat, n: nat)
    requires 1 <= size && |s| <= INT_MAX && |s| <= Offset(n + 1, size) && (n > 0 ==> Offset(n, size) < |s|)
    ensures PagesUpTo(s, size, n) == s
    ensures forall k: int | 1 <= k < n :: FullPage(s, size, k)
    ensures n > 0 ==> Offset(n, size) >= 0 && 0 < |Slice(s, Offset(n, size), size)| <= size
    ensures forall k: int | 1 <= k <= n :: Within(size, k)
  {
    PagesArePrefix(s, size, n);
    forall k: int | 1 <= k <= n ensures Within(size, k) && (k < n ==> FullPage(s, size, k)) {
      PageFits(s, size, n, k);
    }
    if n > 0 {
      OffsetsGrow(1, n, size);
    }
  }

  lemma PageFits(s: seq<Item>, size: nat, n: nat, k: int)
    requires |s| <= INT_MAX && 1 <= k <= n && Offset(n, size) < |s|
    ensures Within(size, k) && (k < n ==> FullPage(s, size, k))
  {
    OffsetsGrow(1, k, size);
    OffsetsGrow(k, n, size);
    if k < n {
      OffsetsGrow(k + 1, n, size);
    }
  }

  /** Pages 1 to TotalPages, joined, are the filtered list in its unique order; every page before
      the last is full; the last is not empty; and none of their offsets overflows. */
  lemma PagesCover(s: seq<Item>, size: nat)
    requires 1 <= size <= 100 && |s| <= INT_MAX
    ensures var n := TotalPages(|s|, size);
      && n >= 0 && PagesUpTo(s, size, n) == s
      && (forall k: int | 1 <= k < n :: FullPage(s, size, k))
      && (n > 0 ==> Offset(n, size) >= 0 && 0 < |Slice(s, Offset(n, size), size)| <= size)
      && (forall k: int | 1 <= k <= n :: Within(size, k))
  {
    TotalPagesIsCeiling(|s|, size);
    PagesCoverAt(s, size, TotalPages(|s|, size));
  }

  // A page beyond the last is empty when its offset does not overflow.
  lemma LaterPagesAreEmpty(s: seq<Item>, size: nat, page: nat)
    requires 1 <= size <= 100 && page > TotalPages(|s|, size)
    ensures Offset(page, size) >= |s| && Slice(s, Offset(page, size), size) == []
  {
    TotalPagesIsCeiling(|s|, size);
    EmptyFrom(s, size, TotalPages(|s|, size), page);
  }

  lemma EmptyFrom(s: seq<Item>, size: nat, n: nat, page: int)
    requires |s| <= Offset(n + 1, size) && n < page
    ensures Offset(page, size) >= |s|
  {
    OffsetsGrow(n + 1, page, size);
  }

  // What List returns for a query: the page, or an error.
  ghost predicate ReturnsPage(table: seq<Item>, q: Query)
    requires ValidQuery(q)
  {
    var skip := Wrap32(Offset(q.page, q.pageSize));
    skip >= 0 && Slice(Sorted(Filtered(table, q)), skip, q.pageSize) == Page(table, q)
  }

  function Plain(page: Int32, pageSize: Int32): Query {
    Query(page, pageSize, None, None, None)
  }

  function Filler(n: nat): seq<Item> {
    seq(n, i requires 0 <= i < n => Item(i, D.Task(D.Text(""), None, D.Todo, D.Low, None, 0, 0)))
  }

  // Where an overflowing offset lands on a row, that row is returned instead of nothing.
  lemma OverflowShowsWrongPage(q: Query)
    requires ValidQuery(q) && Offset(q.page, q.pageSize) > INT_MAX
    requires 0 <= Wrap32(Offset(q.page, q.pageSize)) < INT_MAX
    requires q.status.None? && q.priority.None? && q.needle.None?
    ensures exists table :: |table| <= INT_MAX && DistinctIds(table) && !ReturnsPage(table, q)
  {
    var skip := Wrap32(Offset(q.page, q.pageSize));
    var table := Filler(skip + 1);
    FillerIsListed(q, table);
    var s := Sorted(Filtered(table, q));
    assert |Slice(s, skip, q.pageSize)| == 1;
    assert Page(table, q) == [];
  }

  lemma FillerIsListed(q: Query, table: seq<Item>)
    requires q.status.None? && q.priority.None? && q.needle.None?
    ensures |Sorted(Filtered(table, q))| == |table|
  {
    WhereSame(table, x => true, x => Matches(q, x));
    WhereAll(table);
    SortedContents(table);
  }

  /** The unfiltered page is right for every table exactly when the caller's product fits in 32
      bits, or wraps to the one offset no table can reach. */
  lemma PageIsRightExactlyWhen(page: Int32, pageSize: Int32)
    requires ValidQuery(Plain(page, pageSize))
    ensures (forall table | |table| <= INT_MAX && DistinctIds(table) :: ReturnsPage(table, Plain(page, pageSize)))
            <==> (Offset(page, pageSize) <= INT_MAX || Wrap32(Offset(page, pageSize)) == INT_MAX)
  {
    var q := Plain(page, pageSize);
    var product := Offset(page, pageSize);
    OffsetsGrow(1, page, pageSize);
    if product <= INT_MAX {
    } else if Wrap32(product) == INT_MAX {
      forall table | |table| <= INT_MAX && DistinctIds(table) ensures ReturnsPage(table, q) {
        SortedContents(Filtered(table, q));
      }
    } else if Wrap32(product) < 0 {
      assert !ReturnsPage([], q);
      assert DistinctIds([]);
    } else {
      OverflowShowsWrongPage(q);
    }
  }

  /** Page 42949674 of 100 asks for rows from 4294967300 and is given the rows from 4. */
  lemma FarPageWrapsAround()
    ensures (42949674 - 1) * 100 > INT_MAX && Wrap32((42949674 - 1) * 100) == 4
  {}

  lemma {:induction false} WhereMembers(s: seq<Item>, p: Item -> bool)
    ensures forall x :: x in Where(s, p) <==> x in s && p(x)
  {
    if s != [] {
      WhereMembers(s[1..], p);
      assert s == [s[0]] + s[1..];
    }
  }

  /** Asking for pages 1 to TotalPages of an unchanged table gives every matching row exactly once,
      in the one order newest first, then id: no page is refused or cut short by the offset. */
  lemma EveryRowIsListedOnce(table: seq<Item>, q: Query)
    requires ValidQuery(q) && DistinctIds(table) && |table| <= INT_MAX
    ensures var s := Sorted(Filtered(table, q)); var n := TotalPages(|Filtered(table, q)|, q.pageSize);
      && |s| == |Filtered(table, q)|
      && (forall i, j | 0 <= i < j < |s| ::
            || s[i].task.createdAt > s[j].task.createdAt
            || (s[i].task.createdAt == s[j].task.createdAt && s[i].id < s[j].id))
      && (forall x :: x in s <==>
            && x in table && (q.status.None? || x.task.status == q.status.value)
            && (q.priority.None? || x.task.priority == q.priority.value)
            && (q.needle.None? || q.needle.value(x)))
      && 0 <= n <= INT_MAX && PagesUpTo(s, q.pageSize, n) == s
      && (forall k: int | 1 <= k <= n :: k <= INT_MAX && ReturnsPage(table, q.(page := k)))
  {
    var s := Sorted(Filtered(table, q));
    ListedRows(table, q);
    PagesCover(s, q.pageSize);
    var n := TotalPages(|s|, q.pageSize);
    TotalPagesIsCeiling(|s|, q.pageSize);
    PagesAreNoMoreThanRows(|s|, q.pageSize, n);
    forall k: int | 1 <= k <= n ensures k <= INT_MAX && ReturnsPage(table, q.(page := k)) {
      SameFilter(table, q, k);
      assert Within(q.pageSize, k);
    }
  }

  // The rows that match, each once, in order.
  lemma ListedRows(table: seq<Item>, q: Query)
    requires DistinctIds(table)
    ensures var s := Sorted(Filtered(table, q));
      && Ordered(s) && |s| == |Filtered(table, q)| && |s| <= |table|
      && (forall x :: x in s <==> x in table && Matches(q, x))
  {
    var all := Filtered(table, q);
    WhereKeepsDistinct(table, x => Matches(q, x));
    WhereMembers(table, x => Matches(q, x));
    SortedOrdered(all);
    SortedContents(all);
    var s := Sorted(all);
    forall x ensures x in s <==> x in table && Matches(q, x) {
      assert x in s <==> x in multiset(s);
      assert x in all <==> x in multiset(all);
    }
  }

  lemma {:induction false} ProductAtLeast(a: nat, size: nat)
    requires size >= 1
    ensures a * size >= a
  {
    if a > 0 {
      ProductAtLeast(a - 1, size);
      assert a * size == (a - 1) * size + size;
    }
  }

  lemma PagesAreNoMoreThanRows(rows: nat, size: nat, n: nat)
    requires size >= 1 && IsCeiling(rows, size, n)
    ensures n <= rows
  {
    if n > 0 {
      ProductAtLeast(n - 1, size);
    }
  }

  lemma SameFilter(table: seq<Item>, q: Query, k: Int32)
    ensures Filtered(table, q.(page := k)) == Filtered(table, q)
  {
    var q' := q.(page := k);
    WhereSame(table, x => Matches(q', x), x => Matches(q, x));
  }
}
