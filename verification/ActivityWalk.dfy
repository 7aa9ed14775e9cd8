/** Reading the feed page by page, while new rows may arrive between two requests. */
module ActivityWalk {
  import opened Prelude
  import opened ActivityFeed

  /** The simple feed: sort everything below the cursor, then cut. */
  function Fetch(db: Db, visible: set<Id>, limit: nat, cursor: Option<Cursor>): Page
    requires limit >= 1
  {
    PageOf(Sort(Select(Everything(db), visible, cursor)), limit)
  }

  /** Page `i` is fetched from `dbs[i]` with `limits[i]`, starting at the cursor page `i - 1` returned. */
  ghost predicate IsWalk(dbs: seq<Db>, visible: set<Id>, limits: seq<nat>, pages: seq<Page>) {
    && |dbs| == |limits| == |pages| > 0
    && (forall i :: 0 <= i < |dbs| ==> limits[i] >= 1 && UniqueKeys(Everything(dbs[i])))
    && pages[0] == MergedPage(dbs[0], visible, limits[0], None)
    && (forall i :: 0 <= i < |pages| - 1 ==> pages[i].nextCursor.Some?)
    && (forall i :: 0 < i < |pages| ==> pages[i] == MergedPage(dbs[i], visible, limits[i], pages[i - 1].nextCursor))
  }

  lemma PageIsFetched(dbs: seq<Db>, visible: set<Id>, limits: seq<nat>, pages: seq<Page>, i: nat)
    requires IsWalk(dbs, visible, limits, pages) && i < |pages|
    ensures pages[i] == Fetch(dbs[i], visible, limits[i], if i == 0 then None else pages[i - 1].nextCursor)
  {
    FetchIsEnough(dbs[i], visible, if i == 0 then None else pages[i - 1].nextCursor, limits[i]);
  }

  /** The table grew, and no new row is below the cursor. */
  ghost predicate GrewAbove(before: seq<Item>, after: seq<Item>, cursor: Option<Cursor>) {
    before <= after && forall x :: x in after[|before|..] ==> !Below(cursor, x)
  }

  ghost predicate OnlyNewRowsAbove(dbs: seq<Db>, pages: seq<Page>)
    requires |dbs| == |pages|
  {
    forall i :: 0 < i < |dbs| ==>
      var cursor := pages[i - 1].nextCursor;
      && GrewAbove(dbs[i - 1].events, dbs[i].events, cursor)
      && GrewAbove(dbs[i - 1].comments, dbs[i].comments, cursor)
      && GrewAbove(dbs[i - 1].dueChanges, dbs[i].dueChanges, cursor)
  }

  function Listed(pages: seq<Page>): seq<Item> {
    if pages == [] then [] else Listed(pages[..|pages| - 1]) + pages[|pages| - 1].items
  }

  /** What is still to come after the last page. */
  function Rest(db: Db, visible: set<Id>, last: Page): seq<Item> {
    if last.nextCursor.None? then [] else Sort(Select(Everything(db), visible, last.nextCursor))
  }

  lemma {:induction false} SelectOfAbove(extra: seq<Item>, visible: set<Id>, cursor: Option<Cursor>)
    requires forall x :: x in extra ==> !Below(cursor, x)
    ensures Select(extra, visible, cursor) == []
  {
    if extra != [] {
      assert extra[0] in extra;
      SelectOfAbove(extra[1..], visible, cursor);
    }
  }

  lemma SelectOfGrown(before: seq<Item>, after: seq<Item>, visible: set<Id>, cursor: Option<Cursor>)
    requires GrewAbove(before, after, cursor)
    ensures Select(after, visible, cursor) == Select(before, visible, cursor)
  {
    assert after == before + after[|before|..];
    SelectOfConcat(before, after[|before|..], visible, cursor);
    SelectOfAbove(after[|before|..], visible, cursor);
  }

  lemma SelectOfEverything(db: Db, visible: set<Id>, cursor: Option<Cursor>)
    ensures Select(Everything(db), visible, cursor) ==
            Select(db.events, visible, cursor) + Select(db.comments, visible, cursor)
            + Select(db.dueChanges, visible, cursor)
  {
    SelectOfConcat(db.events, db.comments, visible, cursor);
    SelectOfConcat(db.events + db.comments, db.dueChanges, visible, cursor);
  }

  /** In a descending list, the rows below entry `k - 1` are the ones from `k` on. */
  lemma BelowIsAfter(sorted: seq<Item>, k: nat, x: Item)
    requires Descending(sorted) && 0 < k <= |sorted|
    ensures x in sorted && Below(Some(CursorOf(sorted[k - 1])), x) <==> x in sorted[k..]
  {
    if x in sorted {
      var i :| 0 <= i < |sorted| && sorted[i] == x;
      if i >= k {
        assert sorted[k..][i - k] == x;
        assert Before(sorted[k - 1], sorted[i]);
      } else if i < k - 1 {
        assert Before(sorted[i], sorted[k - 1]);
      }
      if x in sorted[k..] {
        var j :| 0 <= j < |sorted| - k && sorted[k..][j] == x;
        assert Before(sorted[k - 1], sorted[k + j]);
      }
    }
  }

  /** The rows below a page's cursor are exactly the rows after its last one. */
  lemma NextPageStartsHere(db: Db, visible: set<Id>, limit: nat, cursor: Option<Cursor>)
    requires limit >= 1 && UniqueKeys(Everything(db))
    ensures var sorted := Sort(Select(Everything(db), visible, cursor));
            |sorted| > limit ==>
              Sort(Select(Everything(db), visible, Some(CursorOf(sorted[limit - 1])))) == sorted[limit..]
  {
    var all := Everything(db);
    var sorted := Sort(Select(all, visible, cursor));
    if |sorted| > limit {
      var last := sorted[limit - 1];
      var next := Some(CursorOf(last));
      SelectAre(all, visible, cursor);
      SelectAre(all, visible, next);
      SortDescending(Select(all, visible, cursor));
      SortDescending(Select(all, visible, next));
      assert last in sorted && Below(cursor, last);
      forall x ensures x in Sort(Select(all, visible, next)) <==> x in sorted[limit..] {
        BelowIsAfter(sorted, limit, x);
      }
      SortIsUnique(Sort(Select(all, visible, next)), sorted[limit..]);
    }
  }

  /** Rows that only arrive above the cursor do not change what is below it. */
  lemma GrowthAboveIsUnseen(before: Db, after: Db, visible: set<Id>, cursor: Option<Cursor>)
    requires GrewAbove(before.events, after.events, cursor)
    requires GrewAbove(before.comments, after.comments, cursor)
    requires GrewAbove(before.dueChanges, after.dueChanges, cursor)
    ensures Select(Everything(after), visible, cursor) == Select(Everything(before), visible, cursor)
  {
    SelectOfGrown(before.events, after.events, visible, cursor);
    SelectOfGrown(before.comments, after.comments, visible, cursor);
    SelectOfGrown(before.dueChanges, after.dueChanges, visible, cursor);
    SelectOfEverything(before, visible, cursor);
    SelectOfEverything(after, visible, cursor);
  }

  /** A page and what comes after it are what was to come before it. */
  lemma PageAndRest(db: Db, visible: set<Id>, limit: nat, cursor: Option<Cursor>)
    requires limit >= 1 && UniqueKeys(Everything(db))
    ensures var page := Fetch(db, visible, limit, cursor);
            && page.items + Rest(db, visible, page) == Sort(Select(Everything(db), visible, cursor))
            && (page.nextCursor.Some? ==> page.items != [] && Rest(db, visible, page) != [])
  {
    NextPageStartsHere(db, visible, limit, cursor);
  }

  lemma WalkFront(dbs: seq<Db>, visible: set<Id>, limits: seq<nat>, pages: seq<Page>)
    requires IsWalk(dbs, visible, limits, pages) && OnlyNewRowsAbove(dbs, pages) && |pages| > 1
    ensures var n := |pages| - 1;
            && IsWalk(dbs[..n], visible, limits[..n], pages[..n]) && OnlyNewRowsAbove(dbs[..n], pages[..n])
  {
  }

  lemma WalkLastPage(dbs: seq<Db>, visible: set<Id>, limits: seq<nat>, pages: seq<Page>)
    requires IsWalk(dbs, visible, limits, pages) && OnlyNewRowsAbove(dbs, pages) && |pages| > 1
    ensures var n := |pages| - 1;
            && pages[n - 1].nextCursor.Some?
            && pages[n] == Fetch(dbs[n], visible, limits[n], pages[n - 1].nextCursor)
            && Select(Everything(dbs[n]), visible, pages[n - 1].nextCursor)
               == Select(Everything(dbs[n - 1]), visible, pages[n - 1].nextCursor)
  {
    var n := |pages| - 1;
    PageIsFetched(dbs, visible, limits, pages, n);
    GrowthAboveIsUnseen(dbs[n - 1], dbs[n], visible, pages[n - 1].nextCursor);
  }

  lemma ListedAppend(front: seq<Page>, last: Page, prior: seq<Item>, rest: seq<Item>)
    requires last.items + rest == prior
    ensures Listed(front + [last]) + rest == Listed(front) + prior
  {
    assert (front + [last])[..|front|] == front;
  }

  /** At every point of a walk: what was listed, then what is to come, is the sorted feed of the first request. */
  lemma {:induction false} WalkIsAPrefix(dbs: seq<Db>, visible: set<Id>, limits: seq<nat>, pages: seq<Page>)
    requires IsWalk(dbs, visible, limits, pages) && OnlyNewRowsAbove(dbs, pages)
    ensures Listed(pages) + Rest(dbs[|pages| - 1], visible, pages[|pages| - 1])
            == Sort(Select(Everything(dbs[0]), visible, None))
  {
    var n := |pages| - 1;
    var front := pages[..n];
    assert pages == front + [pages[n]];
    if n == 0 {
      PageIsFetched(dbs, visible, limits, pages, 0);
      var feed := Sort(Select(Everything(dbs[0]), visible, None));
      PageAndRest(dbs[0], visible, limits[0], None);
      ListedAppend([], pages[0], feed, Rest(dbs[0], visible, pages[0]));
      assert Listed([]) + feed == feed;
    } else {
      WalkFront(dbs, visible, limits, pages);
      WalkLastPage(dbs, visible, limits, pages);
      WalkIsAPrefix(dbs[..n], visible, limits[..n], front);
      WalkGoesOn(dbs[n - 1], dbs[n], visible, limits[n], front, pages[n]);
    }
  }

  lemma WalkGoesOn(before: Db, after: Db, visible: set<Id>, limit: nat, front: seq<Page>, last: Page)
    requires limit >= 1 && UniqueKeys(Everything(after)) && front != []
    requires var cursor := front[|front| - 1].nextCursor;
             && cursor.Some? && last == Fetch(after, visible, limit, cursor)
             && Select(Everything(after), visible, cursor) == Select(Everything(before), visible, cursor)
    ensures Listed(front + [last]) + Rest(after, visible, last)
            == Listed(front) + Rest(before, visible, front[|front| - 1])
  {
    PageAndRest(after, visible, limit, front[|front| - 1].nextCursor);
    ListedAppend(front, last, Rest(before, visible, front[|front| - 1]), Rest(after, visible, last));
  }

  /**
   Walking until there is no cursor lists exactly the rows visible at the first
   request, newest first, none twice and none left out, whatever the page sizes
   and whatever newer rows arrive meanwhile.
   */
  lemma {:induction false} WalkListsEverythingOnce(dbs: seq<Db>, visible: set<Id>, limits: seq<nat>, pages: seq<Page>)
    requires IsWalk(dbs, visible, limits, pages) && OnlyNewRowsAbove(dbs, pages)
    requires pages[|pages| - 1].nextCursor.None?
    ensures Descending(Listed(pages))
    ensures forall x :: x in Listed(pages) <==> x in Everything(dbs[0]) && x.taskId in visible
  {
    var all := Select(Everything(dbs[0]), visible, None);
    SelectAre(Everything(dbs[0]), visible, None);
    SortDescending(all);
    WalkIsAPrefix(dbs, visible, limits, pages);
    assert Listed(pages) == Sort(all);
  }

  /** The special case of an unchanging database: the pages are the sorted feed cut up. */
  lemma {:induction false} WalkIsTheSortedFeed(db: Db, visible: set<Id>, limits: seq<nat>, pages: seq<Page>)
    requires IsWalk(seq(|pages|, i => db), visible, limits, pages)
    requires pages[|pages| - 1].nextCursor.None?
    ensures Listed(pages) == Sort(Select(Everything(db), visible, None))
  {
    var dbs := seq(|pages|, i => db);
    WalkIsAPrefix(dbs, visible, limits, pages);
    assert Listed(pages) + [] == Listed(pages);
  }

  lemma {:induction false} PagesAreFull(dbs: seq<Db>, visible: set<Id>, limits: seq<nat>, pages: seq<Page>)
    requires IsWalk(dbs, visible, limits, pages) && OnlyNewRowsAbove(dbs, pages)
    ensures |pages| > 1 || pages[|pages| - 1].nextCursor.Some? ==> |Listed(pages)| >= |pages|
  {
    var n := |pages| - 1;
    var cursor := if n == 0 then None else pages[n - 1].nextCursor;
    assert Listed(pages) == Listed(pages[..n]) + pages[n].items;
    PageIsFetched(dbs, visible, limits, pages, n);
    PageAndRest(dbs[n], visible, limits[n], cursor);
    if n > 0 {
      PageIsFetched(dbs, visible, limits, pages, n - 1);
      WalkFront(dbs, visible, limits, pages);
      WalkLastPage(dbs, visible, limits, pages);
      PagesAreFull(dbs[..n], visible, limits[..n], pages[..n]);
      PageAndRest(dbs[n - 1], visible, limits[n - 1], if n == 1 then None else pages[n - 2].nextCursor);
    }
  }

  /** The walk ends: it never takes more requests than there are rows, except one for an empty feed. */
  lemma WalkEnds(dbs: seq<Db>, visible: set<Id>, limits: seq<nat>, pages: seq<Page>)
    requires IsWalk(dbs, visible, limits, pages) && OnlyNewRowsAbove(dbs, pages)
    ensures |pages| <= 1 || |pages| <= |Sort(Select(Everything(dbs[0]), visible, None))|
    ensures pages[|pages| - 1].nextCursor.Some? ==> |pages| < |Sort(Select(Everything(dbs[0]), visible, None))|
  {
    WalkIsAPrefix(dbs, visible, limits, pages);
    PagesAreFull(dbs, visible, limits, pages);
    var n := |pages| - 1;
    PageIsFetched(dbs, visible, limits, pages, n);
    PageAndRest(dbs[n], visible, limits[n], if n == 0 then None else pages[n - 1].nextCursor);
  }

  /** Sorted by the feed's order, rows with the same time and id in any order among themselves. */
  ghost predicate Sorted(s: seq<Item>) {
    forall i, j :: 0 <= i < j < |s| ==> !Before(s[j], s[i])
  }

  predicate SameKey(x: Item, y: Item) {
    x.occurredAt == y.occurredAt && x.id == y.id
  }

  /**
   What a page boundary may not do, keys distinct or not. No row of the page is
   below its cursor, so nothing is listed twice; and every row after the page is
   below it exactly when the boundary does not separate two rows with equal keys.
   */
  lemma BoundaryLosesNothingIff(sorted: seq<Item>, k: nat)
    requires Sorted(sorted) && 0 < k < |sorted|
    ensures var cursor := Some(CursorOf(sorted[k - 1]));
      && (forall i :: 0 <= i < k ==> !Below(cursor, sorted[i]))
      && ((forall i :: k <= i < |sorted| ==> Below(cursor, sorted[i])) <==> !SameKey(sorted[k - 1], sorted[k]))
  {
    var cursor := Some(CursorOf(sorted[k - 1]));
    forall i | 0 <= i < k
      ensures !Below(cursor, sorted[i])
    {
      assert i < k - 1 ==> !Before(sorted[k - 1], sorted[i]);
    }
    assert Below(cursor, sorted[k]) <==> Before(sorted[k - 1], sorted[k]);
    forall i | k < i < |sorted| && Below(cursor, sorted[k])
      ensures Below(cursor, sorted[i])
    {
      assert !Before(sorted[i], sorted[k]);
    }
    assert !Before(sorted[k], sorted[k - 1]);
  }

  /**
   So distinct keys matter: two rows with the same time and id, in different
   tables, and a page cut between them. The second row is never listed.
   */
  lemma TiedRowIsLost() returns (db: Db, first: Page, second: Page)
    ensures |Everything(db)| == 2 && Everything(db)[0] != Everything(db)[1]
    ensures first == MergedPage(db, {0}, 1, None) && first.nextCursor.Some?
    ensures second == MergedPage(db, {0}, 1, first.nextCursor) && second.nextCursor.None?
    ensures |first.items + second.items| == 1
  {
    var x, y := Item(StatusChange, 0, 0, 0), Item(CommentAdded, 0, 0, 0);
    db := Db([x], [y], []);
    assert Everything(db) == [x, y];
    Single(x, None, 2);
    Single(y, None, 2);
    assert Sort([x, y]) == [x, y] by {
      assert [x, y][1..] == [y];
    }
    assert [x] + [y] + [] == [x, y];
    first := MergedPage(db, {0}, 1, None);
    Single(x, first.nextCursor, 2);
    Single(y, first.nextCursor, 2);
    second := MergedPage(db, {0}, 1, first.nextCursor);
  }

  lemma Single(x: Item, cursor: Option<Cursor>, n: nat)
    requires n >= 1
    ensures FindMany([x], {0}, cursor, n) == if Selected({0}, cursor, x) then [x] else []
    ensures FindMany([], {0}, cursor, n) == [] && Sort([x]) == [x]
  {
    assert [x][1..] == [];
    if Selected({0}, cursor, x) {
      assert Select([x], {0}, cursor) == [x];
      assert Sort([x]) == Insert(x, Sort([x][1..])) == [x];
    } else {
      assert Select([x], {0}, cursor) == [];
    }
  }
}
