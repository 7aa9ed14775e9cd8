/**
 The project activity feed: three tables are read from the newest row down,
 merged, sorted and cut into pages; the last row of a page is the cursor for the
 next one.
 */
module ActivityFeed {
  import opened Prelude

  datatype Kind = StatusChange | CommentAdded | DueChange
  /** `id` stands for the position of the row's id in the one total order that database and JavaScript agree on. */
  datatype Item = Item(kind: Kind, occurredAt: int, id: int, taskId: Id)
  datatype Cursor = Cursor(occurredAt: int, id: int)
  datatype Page = Page(items: seq<Item>, nextCursor: Option<Cursor>)
  /** The three tables; `visible` are the tasks the caller may list. */
  datatype Db = Db(events: seq<Item>, comments: seq<Item>, dueChanges: seq<Item>)

  /** `compareActivityItems(a, b) < 0`: `a` is listed before `b`. */
  predicate Before(a: Item, b: Item) {
    a.occurredAt > b.occurredAt || (a.occurredAt == b.occurredAt && a.id > b.id)
  }

  /** The `where` clause built from the cursor. */
  predicate Below(cursor: Option<Cursor>, x: Item) {
    cursor.Some? ==>
      || x.occurredAt < cursor.value.occurredAt
      || (x.occurredAt == cursor.value.occurredAt && x.id < cursor.value.id)
  }

  predicate Selected(visible: set<Id>, cursor: Option<Cursor>, x: Item) {
    x.taskId in visible && Below(cursor, x)
  }

  function Select(table: seq<Item>, visible: set<Id>, cursor: Option<Cursor>): seq<Item> {
    if table == [] then []
    else if Selected(visible, cursor, table[0]) then [table[0]] + Select(table[1..], visible, cursor)
    else Select(table[1..], visible, cursor)
  }

  function Insert(x: Item, s: seq<Item>): seq<Item> {
    if s == [] || !Before(s[0], x) then [x] + s else [s[0]] + Insert(x, s[1..])
  }

  /** Any sort by `compareActivityItems` gives this list when no two rows share time and id (SortIsUnique). */
  function Sort(s: seq<Item>): seq<Item> {
    if s == [] then [] else Insert(s[0], Sort(s[1..]))
  }

  function Take(s: seq<Item>, n: nat): seq<Item> {
    if |s| <= n then s else s[..n]
  }

  /** `findMany` with the where clause, newest first, at most `n` rows. */
  function FindMany(table: seq<Item>, visible: set<Id>, cursor: Option<Cursor>, n: nat): seq<Item> {
    Take(Sort(Select(table, visible, cursor)), n)
  }

  function CursorOf(x: Item): Cursor {
    Cursor(x.occurredAt, x.id)
  }

  class ProjectActivityService {
    var db: Db

    constructor (db: Db)
      ensures this.db == db
    {
      this.db := db;
    }

    method GetActivity(visible: set<Id>, limit: nat, cursor: Option<Cursor>) returns (page: Page)
      requires limit >= 1
      ensures page == MergedPage(db, visible, limit, cursor)
      ensures UniqueKeys(Everything(db)) ==> page == PageOf(Sort(Select(Everything(db), visible, cursor)), limit)
    {
      var fetchLimit := limit + 1;
      var events := FindMany(db.events, visible, cursor, fetchLimit);
      var comments := FindMany(db.comments, visible, cursor, fetchLimit);
      var dueChanges := FindMany(db.dueChanges, visible, cursor, fetchLimit);

      var items := events + comments + dueChanges;
      items := Sort(items);
      var page' := Take(items, limit);
      var hasMore := |items| > limit;
      var nextCursor := if hasMore && |page'| > 0 then Some(CursorOf(page'[|page'| - 1])) else None;
      if UniqueKeys(Everything(db)) {
        FetchIsEnough(db, visible, cursor, limit);
      }
      return Page(page', nextCursor);
    }
  }

  // ----- the simple feed: sort everything once, then cut

  function Everything(db: Db): seq<Item> {
    db.events + db.comments + db.dueChanges
  }

  function PageOf(sorted: seq<Item>, limit: nat): Page
    requires limit >= 1
  {
    Page(Take(sorted, limit), if |sorted| > limit then Some(CursorOf(sorted[limit - 1])) else None)
  }

  /** The page made from the top `limit + 1` rows of each table. */
  function MergedPage(db: Db, visible: set<Id>, limit: nat, cursor: Option<Cursor>): Page
    requires limit >= 1
  {
    PageOf(Sort(FindMany(db.events, visible, cursor, limit + 1) + FindMany(db.comments, visible, cursor, limit + 1)
                + FindMany(db.dueChanges, visible, cursor, limit + 1)), limit)
  }

  /** No two rows of the three tables share both time and id. */
  ghost predicate UniqueKeys(s: seq<Item>) {
    forall i, j :: 0 <= i < j < |s| ==> s[i].occurredAt != s[j].occurredAt || s[i].id != s[j].id
  }

  ghost predicate Descending(s: seq<Item>) {
    forall i, j :: 0 <= i < j < |s| ==> Before(s[i], s[j])
  }

  lemma ConsDescending(x: Item, s: seq<Item>)
    requires Descending(s) && forall y :: y in s ==> Before(x, y)
    ensures Descending([x] + s)
  {
  }

  lemma UnconsDescending(s: seq<Item>)
    requires Descending(s) && s != []
    ensures Descending(s[1..]) && forall y :: y in s[1..] ==> Before(s[0], y)
    ensures s == [s[0]] + s[1..]
  {
  }

  lemma {:induction false} InsertDescending(x: Item, s: seq<Item>)
    requires Descending(s) && forall y :: y in s ==> Before(x, y) || Before(y, x)
    ensures Descending(Insert(x, s)) && multiset(Insert(x, s)) == multiset(s) + multiset{x}
    ensures forall y :: y in Insert(x, s) <==> y == x || y in s
  {
    if s == [] {
    } else {
      UnconsDescending(s);
      if Before(s[0], x) {
        InsertDescending(x, s[1..]);
        ConsDescending(s[0], Insert(x, s[1..]));
      } else {
        assert Before(x, s[0]);
        ConsDescending(x, s);
      }
    }
  }

  lemma {:induction false} SortDescending(s: seq<Item>)
    requires UniqueKeys(s)
    ensures Descending(Sort(s)) && multiset(Sort(s)) == multiset(s)
    ensures forall y :: y in Sort(s) <==> y in s
  {
    if s != [] {
      SortDescending(s[1..]);
      assert s == [s[0]] + s[1..];
      InsertDescending(s[0], Sort(s[1..]));
    }
  }

  /** A strictly descending list is determined by its rows, so every sort yields the same list. */
  lemma {:induction false} SortIsUnique(a: seq<Item>, b: seq<Item>)
    requires Descending(a) && Descending(b) && forall x :: x in a <==> x in b
    ensures a == b
  {
    assert |b| > 0 ==> b[0] in b;
    if a != [] {
      assert a[0] in b && b[0] in a;
      UnconsDescending(a);
      UnconsDescending(b);
      assert a[0] == b[0];
      assert forall x :: x in a[1..] <==> x in a && x != a[0];
      assert forall x :: x in b[1..] <==> x in b && x != b[0];
      SortIsUnique(a[1..], b[1..]);
    }
  }

  function Merge(a: seq<Item>, b: seq<Item>): seq<Item> {
    if a == [] then b
    else if b == [] then a
    else if Before(a[0], b[0]) then [a[0]] + Merge(a[1..], b)
    else [b[0]] + Merge(a, b[1..])
  }

  lemma {:induction false} MergeDescending(a: seq<Item>, b: seq<Item>)
    requires Descending(a) && Descending(b) && forall x, y :: x in a && y in b ==> Before(x, y) || Before(y, x)
    ensures Descending(Merge(a, b)) && multiset(Merge(a, b)) == multiset(a) + multiset(b)
    ensures forall x :: x in Merge(a, b) <==> x in a || x in b
  {
    if a != [] && b != [] {
      UnconsDescending(a);
      UnconsDescending(b);
      if Before(a[0], b[0]) {
        MergeDescending(a[1..], b);
        ConsDescending(a[0], Merge(a[1..], b));
      } else {
        assert b[0] in b && a[0] in a;
        MergeDescending(a, b[1..]);
        ConsDescending(b[0], Merge(a, b[1..]));
      }
    }
  }

  /** Sorting a concatenation is merging the sorted parts. */
  lemma SortOfConcat(a: seq<Item>, b: seq<Item>)
    requires UniqueKeys(a + b)
    ensures Sort(a + b) == Merge(Sort(a), Sort(b))
  {
    assert forall i :: 0 <= i < |a| ==> (a + b)[i] == a[i];
    assert forall i :: 0 <= i < |b| ==> (a + b)[|a| + i] == b[i];
    SortDescending(a);
    SortDescending(b);
    SortDescending(a + b);
    forall x, y | x in Sort(a) && y in Sort(b) ensures Before(x, y) || Before(y, x) {
      var i :| 0 <= i < |a| && a[i] == x;
      var j :| 0 <= j < |b| && b[j] == y;
      assert (a + b)[i] == x && (a + b)[|a| + j] == y;
    }
    MergeDescending(Sort(a), Sort(b));
    SortIsUnique(Sort(a + b), Merge(Sort(a), Sort(b)));
  }

  lemma TakeOfCons(x: Item, s: seq<Item>, n: nat)
    requires n > 0
    ensures Take([x] + s, n) == [x] + Take(s, n - 1)
  {
  }

  lemma MergeOfCons(x: Item, s: seq<Item>, y: Item, t: seq<Item>)
    ensures Merge([x] + s, [y] + t) ==
      if Before(x, y) then [x] + Merge(s, [y] + t) else [y] + Merge([x] + s, t)
  {
    assert ([x] + s)[1..] == s && ([y] + t)[1..] == t;
  }

  /** The first `n` rows of a merge need only the first `n` rows of each part. */
  lemma {:induction false} TakeOfMerge(a: seq<Item>, b: seq<Item>, i: nat, j: nat, n: nat)
    requires i >= n && j >= n
    ensures Take(Merge(a, b), n) == Take(Merge(Take(a, i), Take(b, j)), n)
    decreases |a| + |b|
  {
    if a == [] || b == [] || n == 0 {
      TakeTwice(a, i, n);
      TakeTwice(b, j, n);
    } else {
      var x, s, y, t := a[0], a[1..], b[0], b[1..];
      assert a == [x] + s && b == [y] + t;
      TakeOfCons(x, s, i);
      TakeOfCons(y, t, j);
      MergeOfCons(x, s, y, t);
      MergeOfCons(x, Take(s, i - 1), y, Take(t, j - 1));
      if Before(x, y) {
        TakeOfMerge(s, b, i - 1, j, n - 1);
        TakeOfCons(x, Merge(s, b), n);
        TakeOfCons(x, Merge(Take(s, i - 1), Take(b, j)), n);
      } else {
        TakeOfMerge(a, t, i, j - 1, n - 1);
        TakeOfCons(y, Merge(a, t), n);
        TakeOfCons(y, Merge(Take(a, i), Take(t, j - 1)), n);
      }
    }
  }

  lemma TakeTwice(s: seq<Item>, i: nat, n: nat)
    requires n <= i
    ensures Take(Take(s, i), n) == Take(s, n)
  {
  }

  lemma {:induction false} SelectOfConcat(a: seq<Item>, b: seq<Item>, visible: set<Id>, cursor: Option<Cursor>)
    ensures Select(a + b, visible, cursor) == Select(a, visible, cursor) + Select(b, visible, cursor)
  {
    if a == [] {
      assert a + b == b;
    } else {
      assert (a + b)[1..] == a[1..] + b;
      SelectOfConcat(a[1..], b, visible, cursor);
    }
  }

  lemma {:induction false} SelectAre(s: seq<Item>, visible: set<Id>, cursor: Option<Cursor>)
    requires UniqueKeys(s)
    ensures UniqueKeys(Select(s, visible, cursor))
    ensures forall x :: x in Select(s, visible, cursor) <==> x in s && Selected(visible, cursor, x)
  {
    if s != [] {
      assert s == [s[0]] + s[1..];
      SelectAre(s[1..], visible, cursor);
      forall x | x in Select(s[1..], visible, cursor) ensures x.occurredAt != s[0].occurredAt || x.id != s[0].id {
        var k :| 0 <= k < |s[1..]| && s[1..][k] == x;
        assert s[k + 1] == x;
      }
    }
  }

  lemma SortOfSorted(s: seq<Item>)
    requires Descending(s)
    ensures UniqueKeys(s) && Sort(s) == s
  {
    SortDescending(s);
    SortIsUnique(Sort(s), s);
  }

  lemma UniqueParts(a: seq<Item>, b: seq<Item>)
    requires UniqueKeys(a + b)
    ensures UniqueKeys(a) && UniqueKeys(b)
  {
    assert forall i :: 0 <= i < |a| ==> (a + b)[i] == a[i];
    assert forall i :: 0 <= i < |b| ==> (a + b)[|a| + i] == b[i];
  }

  lemma ConcatUnique(a: seq<Item>, b: seq<Item>)
    requires UniqueKeys(a) && UniqueKeys(b) && forall x, y :: x in a && y in b ==> Before(x, y) || Before(y, x)
    ensures UniqueKeys(a + b)
  {
    var s := a + b;
    forall i, j | 0 <= i < j < |s| ensures s[i].occurredAt != s[j].occurredAt || s[i].id != s[j].id {
      if i < |a| <= j {
        assert s[i] in a && s[j] in b;
      }
    }
  }

  lemma Apart(a: seq<Item>, b: seq<Item>, x: Item, y: Item)
    requires UniqueKeys(a + b) && x in a && y in b
    ensures Before(x, y) || Before(y, x)
  {
    var i :| 0 <= i < |a| && a[i] == x;
    var j :| 0 <= j < |b| && b[j] == y;
    assert (a + b)[i] == x && (a + b)[|a| + j] == y;
  }

  lemma TopAre(s: seq<Item>, n: nat)
    requires UniqueKeys(s)
    ensures Descending(Take(Sort(s), n)) && UniqueKeys(Take(Sort(s), n))
    ensures forall x :: x in Take(Sort(s), n) ==> x in s
  {
    SortDescending(s);
    SortOfSorted(Take(Sort(s), n));
  }

  /**
   Let `x` hold the top `n` rows of `a`. Then `x` and the top `n` rows of a
   further table `b` hold the top `n` rows of both in full.
   */
  lemma AddTable(x: seq<Item>, a: seq<Item>, b: seq<Item>, n: nat)
    requires UniqueKeys(a + b) && UniqueKeys(x) && (forall y :: y in x ==> y in a)
    requires Take(Sort(x), n) == Take(Sort(a), n)
    ensures var y := x + Take(Sort(b), n);
            && UniqueKeys(y) && (forall z :: z in y ==> z in a + b)
            && Take(Sort(y), n) == Take(Sort(a + b), n)
  {
    var top := Take(Sort(b), n);
    UniqueParts(a, b);
    TopAre(b, n);
    forall u, v | u in x && v in top ensures Before(u, v) || Before(v, u) {
      Apart(a, b, u, v);
    }
    ConcatUnique(x, top);
    SortOfConcat(x, top);
    SortOfConcat(a, b);
    SortOfSorted(top);
    TakeOfMerge(Sort(x), top, n, n, n);
    TakeOfMerge(Sort(a), Sort(b), n, n, n);
    TakeTwice(Sort(b), n, n);
  }

  /** Fetching `limit + 1` rows of each table decides the page and whether there is a next one. */
  lemma FetchIsEnough(db: Db, visible: set<Id>, cursor: Option<Cursor>, limit: nat)
    requires limit >= 1 && UniqueKeys(Everything(db))
    ensures MergedPage(db, visible, limit, cursor)
         == PageOf(Sort(Select(Everything(db), visible, cursor)), limit)
  {
    var n := limit + 1;
    var a, b := Select(db.events, visible, cursor), Select(db.comments, visible, cursor);
    var c := Select(db.dueChanges, visible, cursor);
    SelectOfConcat(db.events, db.comments, visible, cursor);
    SelectOfConcat(db.events + db.comments, db.dueChanges, visible, cursor);
    SelectAre(Everything(db), visible, cursor);
    UniqueParts(a + b, c);
    UniqueParts(a, b);
    var x := Take(Sort(a), n);
    TopAre(a, n);
    SortOfSorted(x);
    TakeTwice(Sort(a), n, n);
    AddTable(x, a, b, n);
    AddTable(x + Take(Sort(b), n), a + b, c, n);
    SamePage(Sort(x + Take(Sort(b), n) + Take(Sort(c), n)), Sort(a + b + c), limit);
  }

  /** A page is decided by the first `limit + 1` rows. */
  lemma SamePage(s: seq<Item>, t: seq<Item>, limit: nat)
    requires limit >= 1 && Take(s, limit + 1) == Take(t, limit + 1)
    ensures PageOf(s, limit) == PageOf(t, limit)
  {
    TakeTwice(s, limit + 1, limit);
    TakeTwice(t, limit + 1, limit);
    assert |s| > limit <==> |Take(s, limit + 1)| > limit;
    assert |t| > limit <==> |Take(t, limit + 1)| > limit;
    assert |s| > limit ==> Take(s, limit + 1)[limit - 1] == s[limit - 1];
    assert |t| > limit ==> Take(t, limit + 1)[limit - 1] == t[limit - 1];
  }
}
