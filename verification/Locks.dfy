/** File locks: keyset pagination of the lock list. */
module Locks {
  import opened Content

  type LockId = nat

  datatype Lock = Lock(path: string, owner: string)

  type LockTable = map<LockId, Lock>

  /** The optional filters of a list request. */
  datatype Query = Query(path: Option<string>, id: Option<LockId>)

  datatype Page = Page(locks: seq<LockId>, next: Option<LockId>)

  predicate Selects(q: Query, id: LockId, lock: Lock) {
    (q.path.None? || lock.path == q.path.value) && (q.id.None? || id == q.id.value)
  }

  predicate Listable(table: LockTable, q: Query, id: LockId) {
    id in table && Selects(q, id, table[id])
  }

  predicate Beyond(cursor: Option<LockId>, id: LockId) {
    cursor.None? || cursor.value < id
  }

  function Matching(table: LockTable, q: Query, cursor: Option<LockId>): (ids: set<LockId>) {
    set id | id in table && Selects(q, id, table[id]) && Beyond(cursor, id)
  }

  ghost predicate Ascending(ids: seq<LockId>) {
    forall i, j :: 0 <= i < j < |ids| ==> ids[i] < ids[j]
  }

  lemma {:induction false} LeastExists(ids: set<LockId>) returns (least: LockId)
    requires ids != {}
    ensures least in ids && forall id :: id in ids ==> least <= id
  {
    var some :| some in ids;
    var rest := ids - {some};
    if rest == {} {
      least := some;
    } else {
      least := LeastExists(rest);
      least := if some < least then some else least;
    }
    forall id | id in ids ensures least <= id {
      if id != some { assert id in rest; }
    }
  }

  ghost function Least(ids: set<LockId>): (least: LockId)
    requires ids != {}
    ensures least in ids && forall id :: id in ids ==> least <= id
  {
    assert exists m :: m in ids && forall id :: id in ids ==> m <= id by {
      var m := LeastExists(ids);
    }
    var m :| m in ids && forall id :: id in ids ==> m <= id;
    m
  }

  /** `ORDER BY id LIMIT k`. */
  ghost function Smallest(ids: set<LockId>, k: nat): (r: seq<LockId>) {
    if k == 0 || ids == {} then [] else [Least(ids)] + Smallest(ids - {Least(ids)}, k - 1)
  }

  /** The `k` smallest ids, ascending. */
  lemma {:induction false} SmallestAscend(ids: set<LockId>, k: nat)
    ensures Ascending(Smallest(ids, k)) && |Smallest(ids, k)| == if |ids| < k then |ids| else k
    ensures forall id :: id in Smallest(ids, k) ==> id in ids
  {
    if k > 0 && ids != {} {
      var least := Least(ids);
      SmallestAscend(ids - {least}, k - 1);
      AscendingJoin([least], Smallest(ids - {least}, k - 1));
    }
  }

  /** What is left out is larger than everything listed, and is left out only for lack of room. */
  lemma {:induction false} SmallestLeaveLarger(ids: set<LockId>, k: nat, id: LockId)
    requires id in ids && id !in Smallest(ids, k)
    ensures |Smallest(ids, k)| == k
    ensures forall other :: other in Smallest(ids, k) ==> other < id
  {
    if k > 0 {
      var least := Least(ids);
      var rest := Smallest(ids - {least}, k - 1);
      assert Smallest(ids, k) == [least] + rest;
      assert least in Smallest(ids, k);
      assert id !in rest by { assert id in rest ==> id in [least] + rest; }
      SmallestLeaveLarger(ids - {least}, k - 1, id);
    }
  }

  function Limit(requested: Option<nat>): (n: nat)
    ensures 1 <= n <= 100
  {
    match requested
    case None => 100
    case Some(n) => if n < 1 then 1 else if n > 100 then 100 else n
  }

  /** `load_locks_page`: one row more than the limit is read to see whether a further page exists. */
  ghost function LoadPage(table: LockTable, q: Query, cursor: Option<LockId>, requested: Option<nat>): (r: Page) {
    var limit := Limit(requested);
    var rows := Smallest(Matching(table, q, cursor), limit + 1);
    var locks := if |rows| > limit then rows[..limit] else rows;
    Page(locks, if |rows| > limit then Some(locks[limit - 1]) else None)
  }

  /** A page lists, in id order, exactly the matching locks beyond its cursor up to its own next cursor; there
      is a next cursor exactly when a matching lock lies beyond the page, and then the page is full. */
  ghost predicate IsSlice(page: Page, table: LockTable, q: Query, cursor: Option<LockId>, limit: nat) {
    && Ascending(page.locks) && |page.locks| <= limit
    && (forall id: LockId :: id in page.locks <==>
          && Listable(table, q, id) && Beyond(cursor, id)
          && (page.next.Some? ==> id <= page.next.value))
    && (page.next.Some? ==>
          && |page.locks| == limit && page.next.value in page.locks
          && exists id: LockId :: Listable(table, q, id) && page.next.value < id)
  }

  lemma PageIsSlice(table: LockTable, q: Query, cursor: Option<LockId>, requested: Option<nat>)
    ensures IsSlice(LoadPage(table, q, cursor, requested), table, q, cursor, Limit(requested))
  {
    var limit := Limit(requested);
    var ids := Matching(table, q, cursor);
    var rows := Smallest(ids, limit + 1);
    SmallestAscend(ids, limit + 1);
    forall id | id in ids && id !in rows
      ensures |rows| == limit + 1 && rows[limit] < id
    {
      SmallestLeaveLarger(ids, limit + 1, id);
      assert rows[limit] in rows;
    }
    FirstRowsAreSlice(table, q, cursor, limit, rows);
  }

  /** A page is as long as it can be: the matching locks beyond its cursor, up to the requested number, which is
      clamped to [1, 100] and is 100 when none is given. */
  lemma PageLength(table: LockTable, q: Query, cursor: Option<LockId>, requested: Option<nat>)
    ensures var length := |LoadPage(table, q, cursor, requested).locks|;
      var beyond := |set id | && id in table && (q.path.Some? ==> table[id].path == q.path.value)
                              && (q.id.Some? ==> id == q.id.value) && (cursor.Some? ==> cursor.value < id)|;
      && (requested.None? ==> length == Smaller(beyond, 100))
      && (requested.Some? && requested.value < 1 ==> length == Smaller(beyond, 1))
      && (requested.Some? && 1 <= requested.value <= 100 ==> length == Smaller(beyond, requested.value))
      && (requested.Some? && 100 < requested.value ==> length == Smaller(beyond, 100))
  {
    var ids := Matching(table, q, cursor);
    var beyond := set id | && id in table && (q.path.Some? ==> table[id].path == q.path.value)
                           && (q.id.Some? ==> id == q.id.value) && (cursor.Some? ==> cursor.value < id);
    assert ids == beyond by {
      forall id ensures id in ids <==> id in beyond {
      }
    }
    SmallestAscend(ids, Limit(requested) + 1);
    hide Smallest, Matching, Selects;
  }

  function Smaller(a: nat, b: nat): (c: nat) {
    if a < b then a else b
  }

  lemma FirstRowsAreSlice(table: LockTable, q: Query, cursor: Option<LockId>, limit: nat, rows: seq<LockId>)
    requires 1 <= limit && |rows| <= limit + 1 && Ascending(rows)
    requires forall id :: id in rows ==> id in Matching(table, q, cursor)
    requires forall id :: id in Matching(table, q, cursor) && id !in rows ==> |rows| == limit + 1 && rows[limit] < id
    ensures |rows| <= limit ==> IsSlice(Page(rows, None), table, q, cursor, limit)
    ensures |rows| > limit ==> IsSlice(Page(rows[..limit], Some(rows[..limit][limit - 1])), table, q, cursor, limit)
  {
    if |rows| > limit {
      var locks, extra := rows[..limit], rows[limit];
      assert rows == locks + [extra];
      assert extra in rows;
      assert Listable(table, q, extra) && locks[limit - 1] < extra;
      assert locks[limit - 1] in locks;
      forall id: LockId
        ensures id in locks <==> Listable(table, q, id) && Beyond(cursor, id) && id <= locks[limit - 1]
      {
        if id in locks {
          assert id in rows;
        } else if Listable(table, q, id) && Beyond(cursor, id) {
          assert id in Matching(table, q, cursor);
          assert id !in rows || id == extra;
        }
      }
    } else {
      forall id: LockId | Listable(table, q, id) && Beyond(cursor, id) ensures id in rows {
        assert id in Matching(table, q, cursor);
      }
    }
  }

  // ------------------------------------------------------------------ following the cursor

  function CursorOf(pages: seq<Page>, n: nat): (cursor: Option<LockId>)
    requires n <= |pages|
  {
    if n == 0 then None else pages[n - 1].next
  }

  /** A client starts without a cursor and follows `next_cursor` while there is one. Page `n` is read from
      `tables[n]`: between two pages locks may come and go. */
  ghost predicate IsWalk(tables: seq<LockTable>, limits: seq<Option<nat>>, q: Query, pages: seq<Page>)
    decreases |pages|
  {
    && |tables| == |limits| == |pages|
    && (pages != [] ==>
          var n := |pages| - 1;
          && IsWalk(tables[..n], limits[..n], q, pages[..n])
          && (n > 0 ==> CursorOf(pages, n).Some?)
          && pages[n] == LoadPage(tables[n], q, CursorOf(pages, n), limits[n]))
  }

  ghost predicate Complete(pages: seq<Page>) {
    |pages| > 0 && pages[|pages| - 1].next.None?
  }

  function Listed(pages: seq<Page>): (ids: seq<LockId>) {
    if pages == [] then [] else Listed(pages[..|pages| - 1]) + pages[|pages| - 1].locks
  }

  lemma WalkPrefix(tables: seq<LockTable>, limits: seq<Option<nat>>, q: Query, pages: seq<Page>)
    requires IsWalk(tables, limits, q, pages) && pages != []
    ensures |tables| == |limits| == |pages|
    ensures var n := |pages| - 1; IsWalk(tables[..n], limits[..n], q, pages[..n])
    ensures var n := |pages| - 1; pages[n] == LoadPage(tables[n], q, CursorOf(pages, n), limits[n])
    ensures var n := |pages| - 1; n > 0 ==> CursorOf(pages, n) == pages[..n][n - 1].next && pages[n - 1].next.Some?
  {
    hide LoadPage;
  }

  /** Whatever happens between pages, no lock is listed twice and the order is the id order; everything listed
      so far is at most the next cursor, and was listable when its page was read. */
  lemma {:induction false} WalkAscends(tables: seq<LockTable>, limits: seq<Option<nat>>, q: Query, pages: seq<Page>)
    requires IsWalk(tables, limits, q, pages)
    ensures Ascending(Listed(pages))
    ensures forall id: LockId :: id in Listed(pages) ==>
              exists i :: 0 <= i < |pages| && id in pages[i].locks && Listable(tables[i], q, id)
    ensures pages != [] && pages[|pages| - 1].next.Some? ==>
              forall id: LockId :: id in Listed(pages) ==> id <= pages[|pages| - 1].next.value
  {
    if pages != [] {
      var n := |pages| - 1;
      WalkPrefix(tables, limits, q, pages);
      WalkAscends(tables[..n], limits[..n], q, pages[..n]);
      PageIsSlice(tables[n], q, CursorOf(pages, n), limits[n]);
      hide LoadPage, Listable, IsWalk;
      var before, page := Listed(pages[..n]), pages[n];
      forall a, b | a in before && b in page.locks ensures a < b {
        assert Beyond(CursorOf(pages, n), b);
      }
      AscendingJoin(before, page.locks);
      forall id: LockId | id in Listed(pages)
        ensures exists i :: 0 <= i < |pages| && id in pages[i].locks && Listable(tables[i], q, id)
        ensures page.next.Some? ==> id <= page.next.value
      {
        if id in page.locks {
          assert Listable(tables[n], q, id);
        } else {
          var i :| 0 <= i < n && id in pages[..n][i].locks && Listable(tables[..n][i], q, id);
          assert id in pages[i].locks && Listable(tables[i], q, id);
          assert page.next.Some? ==> page.next.value in page.locks;
        }
      }
    }
  }

  lemma AscendingJoin(left: seq<LockId>, right: seq<LockId>)
    requires Ascending(left) && Ascending(right)
    requires forall a, b :: a in left && b in right ==> a < b
    ensures Ascending(left + right)
  {
    forall i, j | 0 <= i < j < |left + right| ensures (left + right)[i] < (left + right)[j] {
      if i < |left| <= j {
        assert left[i] in left && right[j - |left|] in right;
      }
    }
  }

  lemma SliceHas(page: Page, table: LockTable, q: Query, cursor: Option<LockId>, limit: nat, id: LockId)
    requires IsSlice(page, table, q, cursor, limit) && Listable(table, q, id) && Beyond(cursor, id)
    requires page.next.None? || id <= page.next.value
    ensures id in page.locks
  {
    hide Listable;
  }

  /** The lock was there, and matched, at every page. */
  ghost predicate Throughout(tables: seq<LockTable>, q: Query, id: LockId) {
    forall i :: 0 <= i < |tables| ==> Listable(tables[i], q, id)
  }

  lemma ThroughoutPrefix(tables: seq<LockTable>, q: Query, id: LockId, n: nat)
    requires Throughout(tables, q, id) && n < |tables|
    ensures Throughout(tables[..n], q, id) && Listable(tables[n], q, id)
  {
    hide Listable;
  }

  /** Every lock that was listable throughout, and is not beyond the walk, has been listed. */
  lemma {:induction false} WalkMissesNothing(tables: seq<LockTable>, limits: seq<Option<nat>>, q: Query,
                                             pages: seq<Page>, id: LockId)
    requires IsWalk(tables, limits, q, pages) && Throughout(tables, q, id)
    requires pages != [] && (pages[|pages| - 1].next.None? || id <= pages[|pages| - 1].next.value)
    ensures id in Listed(pages)
  {
    hide LoadPage, Listable, IsWalk, Throughout, IsSlice, Smallest, Matching, Selects, Least;
    var n := |pages| - 1;
    WalkPrefix(tables, limits, q, pages);
    ThroughoutPrefix(tables, q, id, n);
    if Beyond(CursorOf(pages, n), id) {
      PageIsSlice(tables[n], q, CursorOf(pages, n), limits[n]);
      SliceHas(pages[n], tables[n], q, CursorOf(pages, n), Limit(limits[n]), id);
    } else {
      WalkMissesNothing(tables[..n], limits[..n], q, pages[..n], id);
    }
  }

  /** A finished walk over a changing table: no lock twice, ids ascending, only locks that were there, and
      every lock that was there throughout. */
  lemma ChangingTableWalk(tables: seq<LockTable>, limits: seq<Option<nat>>, q: Query, pages: seq<Page>)
    requires IsWalk(tables, limits, q, pages) && Complete(pages)
    ensures Ascending(Listed(pages))
    ensures forall id: LockId :: id in Listed(pages) ==> exists i :: 0 <= i < |tables| && Listable(tables[i], q, id)
    ensures forall id: LockId :: Throughout(tables, q, id) ==> id in Listed(pages)
  {
    WalkAscends(tables, limits, q, pages);
    forall id: LockId | Throughout(tables, q, id)
      ensures id in Listed(pages)
    {
      WalkMissesNothing(tables, limits, q, pages, id);
    }
  }

  /** Every page with a next cursor lists at least one lock. */
  lemma {:induction false} PagesAreNotEmpty(tables: seq<LockTable>, limits: seq<Option<nat>>, q: Query,
                                            pages: seq<Page>)
    requires IsWalk(tables, limits, q, pages)
    ensures |pages| <= |Listed(pages)| + 1
    ensures pages != [] && pages[|pages| - 1].next.Some? ==> |pages| <= |Listed(pages)|
  {
    if pages != [] {
      var n := |pages| - 1;
      WalkPrefix(tables, limits, q, pages);
      PagesAreNotEmpty(tables[..n], limits[..n], q, pages[..n]);
      PageIsSlice(tables[n], q, CursorOf(pages, n), limits[n]);
      hide LoadPage;
    }
  }

  lemma {:induction false} AscendingSize(ids: seq<LockId>, bound: set<LockId>)
    requires Ascending(ids) && forall id :: id in ids ==> id in bound
    ensures |ids| <= |bound|
  {
    if ids != [] {
      var n := |ids| - 1;
      forall id | id in ids[..n] ensures id in bound - {ids[n]} {
        var i :| 0 <= i < n && ids[i] == id;
        assert ids[i] < ids[n];
      }
      AscendingSize(ids[..n], bound - {ids[n]});
    }
  }

  /** On a fixed table, with any sequence of limits: a walk has at most one page more than there are matching
      locks, so following the cursor ends, and a finished walk lists every matching lock exactly once, in id
      order, and nothing else. */
  lemma FixedTableWalk(table: LockTable, limits: seq<Option<nat>>, q: Query, pages: seq<Page>)
    requires IsWalk(seq(|limits|, i => table), limits, q, pages)
    ensures |pages| <= |Matching(table, q, None)| + 1
    ensures Ascending(Listed(pages))
    ensures Complete(pages) ==> forall id: LockId :: id in Listed(pages) <==>
      && id in table && (q.path.Some? ==> table[id].path == q.path.value)
      && (q.id.Some? ==> id == q.id.value)
  {
    var tables := seq(|limits|, i => table);
    WalkAscends(tables, limits, q, pages);
    PagesAreNotEmpty(tables, limits, q, pages);
    forall id | id in Listed(pages) ensures Listable(table, q, id) && id in Matching(table, q, None) {
      var i :| 0 <= i < |pages| && id in pages[i].locks && Listable(tables[i], q, id);
    }
    AscendingSize(Listed(pages), Matching(table, q, None));
    if Complete(pages) {
      ChangingTableWalk(tables, limits, q, pages);
    }
  }
}
