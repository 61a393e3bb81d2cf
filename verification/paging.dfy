/** Keyset pagination of GET /places (ListPlaces in cmd/api/main.go). */
module Paging {
  import opened Models

  /** The sort key of a row; the cursor of a page is the key of its last row. */
  datatype Key = Key(updatedAt: Time, id: PlaceId)

  /** A row as the query sees it; `shown` says whether it passes the request's filters. */
  datatype Listed = Listed(updatedAt: Time, shown: bool)
  type Table = map<PlaceId, Listed>

  /** ORDER BY updated_at DESC, id ASC. */
  predicate Before(a: Key, b: Key) {
    a.updatedAt > b.updatedAt || (a.updatedAt == b.updatedAt && a.id < b.id)
  }

  /** The filter, and the cursor's WHERE clause. */
  function Hits(t: Table, cursor: Option<Key>): set<Key> {
    set id | id in t && t[id].shown && (cursor.Some? ==> Before(cursor.value, Key(t[id].updatedAt, id))) :: Key(t[id].updatedAt, id)
  }

  ghost predicate IsFirst(ks: set<Key>, k: Key) {
    k in ks && forall j :: j in ks && j != k ==> Before(k, j)
  }

  lemma {:induction false} FirstExists(ks: set<Key>)
    requires ks != {}
    ensures exists k :: IsFirst(ks, k)
    decreases |ks|
  {
    var x :| x in ks;
    var rest := ks - {x};
    assert forall j :: j in ks ==> j == x || j in rest;
    if rest == {} {
      assert IsFirst(ks, x);
    } else {
      FirstExists(rest);
      var z :| IsFirst(rest, z);
      assert IsFirst(ks, if Before(x, z) then x else z);
    }
  }

  function Sorted(ks: set<Key>): (s: seq<Key>)
    ensures |s| == |ks|
    decreases |ks|
  {
    if ks == {} then []
    else
      FirstExists(ks);
      var k :| k in ks && forall j :: j in ks && j != k ==> Before(k, j);
      [k] + Sorted(ks - {k})
  }

  ghost predicate Ascending(s: seq<Key>) {
    forall i, j :: 0 <= i < j < |s| ==> Before(s[i], s[j])
  }

  lemma {:induction false} SortedIsSorted(ks: set<Key>)
    ensures Ascending(Sorted(ks))
    ensures forall k :: k in Sorted(ks) <==> k in ks
    decreases |ks|
  {
    if ks != {} {
      FirstExists(ks);
      var k := Sorted(ks)[0];
      assert IsFirst(ks, k) && Sorted(ks) == [k] + Sorted(ks - {k});
      SortedIsSorted(ks - {k});
      forall j
        ensures j in Sorted(ks) <==> j in ks
      {
        assert j in Sorted(ks) <==> j == k || j in Sorted(ks - {k});
      }
      var s := Sorted(ks);
      forall i, j | 0 <= i < j < |s|
        ensures Before(s[i], s[j])
      {
        assert s[j] == Sorted(ks - {k})[j - 1] && s[j] in Sorted(ks - {k});
        if i > 0 {
          assert s[i] == Sorted(ks - {k})[i - 1];
        }
      }
    }
  }

  /** The sorted listing of a set of keys is unique. */
  lemma {:induction false} AscendingIsUnique(a: seq<Key>, b: seq<Key>)
    requires Ascending(a) && Ascending(b) && forall k :: k in a <==> k in b
    ensures a == b
    decreases |a|
  {
    assert b != [] ==> b[0] in b;
    if a != [] {
      assert a[0] in b && b != [] && b[0] in a;
      assert a[0] == b[0];
      forall k
        ensures k in a[1..] <==> k in b[1..]
      {
        assert k in a <==> k == a[0] || k in a[1..];
        assert k in b <==> k == b[0] || k in b[1..];
        assert a[0] !in a[1..] && b[0] !in b[1..];
      }
      AscendingIsUnique(a[1..], b[1..]);
      assert a == [a[0]] + a[1..] && b == [b[0]] + b[1..];
    }
  }

  datatype Page = Page(data: seq<Key>, next: Option<Key>)

  /** limit + 1 rows are fetched; a surplus row means there is a next page. */
  function ListPlaces(t: Table, cursor: Option<Key>, limit: nat): Page
    requires limit >= 1
  {
    var places := Sorted(Hits(t, cursor));
    if |places| > limit then Page(places[..limit], Some(places[limit - 1])) else Page(places, None)
  }

  /** A page holds exactly the hits up to its last row, and all of them when there is no next page. */
  lemma PageMeaning(t: Table, cursor: Option<Key>, limit: nat)
    requires limit >= 1
    ensures var p := ListPlaces(t, cursor, limit);
            && Ascending(p.data)
            && (forall k :: k in p.data ==> k in Hits(t, cursor))
            && (p.next.None? ==> forall k :: k in Hits(t, cursor) ==> k in p.data)
            && (p.next.Some? ==> |p.data| == limit && p.next.value == p.data[limit - 1] && p.next.value in Hits(t, cursor))
            && (p.next.Some? ==> forall k :: k in Hits(t, cursor) ==> (k in p.data <==> !Before(p.next.value, k)))
  {
    var hits := Hits(t, cursor);
    var places := Sorted(hits);
    SortedIsSorted(hits);
    if |places| > limit {
      var last := places[limit - 1];
      forall k | k in hits
        ensures k in places[..limit] <==> !Before(last, k)
      {
        var i :| 0 <= i < |places| && places[i] == k;
        if i < limit {
          assert k == places[..limit][i];
          assert i == limit - 1 || Before(k, last);
        } else {
          assert Before(last, k);
          assert k !in places[..limit];
        }
      }
    }
  }

  // ---------------------------------------------------------------- following next_cursor

  /** One request per snapshot of the table until there is no next cursor or no snapshot left. */
  datatype Walk = Walk(rows: seq<Key>, done: bool)

  function Follow(snaps: seq<Table>, cursor: Option<Key>, limit: nat): Walk
    requires limit >= 1
  {
    if snaps == [] then Walk([], false)
    else
      var p := ListPlaces(snaps[0], cursor, limit);
      if p.next.None? then Walk(p.data, true)
      else var rest := Follow(snaps[1..], p.next, limit); Walk(p.data + rest.rows, rest.done)
  }

  /** Whatever happens to the table in between, the rows come in strictly ascending key order,
      beyond the cursor. */
  lemma {:induction false} WalkAscends(snaps: seq<Table>, cursor: Option<Key>, limit: nat)
    requires limit >= 1
    ensures Ascending(Follow(snaps, cursor, limit).rows)
    ensures cursor.Some? ==> forall k :: k in Follow(snaps, cursor, limit).rows ==> Before(cursor.value, k)
    decreases |snaps|
  {
    if snaps != [] {
      PageMeaning(snaps[0], cursor, limit);
      var p := ListPlaces(snaps[0], cursor, limit);
      if p.next.Some? {
        WalkAscends(snaps[1..], p.next, limit);
        var rest := Follow(snaps[1..], p.next, limit).rows;
        JoinAscending(p.data, rest);
        assert Before(p.data[0], p.next.value) || p.data[0] == p.next.value;
      }
    }
  }

  lemma JoinAscending(a: seq<Key>, b: seq<Key>)
    requires Ascending(a) && Ascending(b) && a != []
    requires forall k :: k in b ==> Before(a[|a| - 1], k)
    ensures Ascending(a + b)
  {
    var s, last := a + b, a[|a| - 1];
    forall i, j | 0 <= i < j < |s|
      ensures Before(s[i], s[j])
    {
      if i < |a| <= j {
        assert s[j] == b[j - |a|] && s[j] in b;
        assert s[i] == last || Before(s[i], last);
      } else if |a| <= i {
        assert s[i] == b[i - |a|] && s[j] == b[j - |a|];
      }
    }
  }

  /** Row `k` is in every snapshot, unchanged and shown. */
  ghost predicate Untouched(snaps: seq<Table>, k: Key) {
    forall i :: 0 <= i < |snaps| ==> k.id in snaps[i] && snaps[i][k.id] == Listed(k.updatedAt, true)
  }

  function Occurrences(rows: seq<Key>, id: PlaceId): nat {
    if rows == [] then 0 else (if rows[0].id == id then 1 else 0) + Occurrences(rows[1..], id)
  }

  /** A row left alone during a completed traversal is returned exactly once, whatever inserts,
      updates and deletes hit the other rows between the pages. */
  lemma UntouchedRowIsReturnedOnce(snaps: seq<Table>, limit: nat, k: Key)
    requires limit >= 1 && Untouched(snaps, k) && Follow(snaps, None, limit).done
    ensures Occurrences(Follow(snaps, None, limit).rows, k.id) == 1
    ensures k in Follow(snaps, None, limit).rows
  {
    UntouchedRowIsReturned(snaps, None, limit, k);
    WalkAscends(snaps, None, limit);
    OnlyOneKey(snaps, None, limit, k);
    CountOnce(Follow(snaps, None, limit).rows, k);
  }

  lemma {:induction false} UntouchedRowIsReturned(snaps: seq<Table>, cursor: Option<Key>, limit: nat, k: Key)
    requires limit >= 1 && Untouched(snaps, k) && Follow(snaps, cursor, limit).done
    requires cursor.Some? ==> Before(cursor.value, k)
    ensures k in Follow(snaps, cursor, limit).rows
    decreases |snaps|
  {
    PageMeaning(snaps[0], cursor, limit);
    assert k in Hits(snaps[0], cursor);
    var p := ListPlaces(snaps[0], cursor, limit);
    if k !in p.data {
      UntouchedRowIsReturned(snaps[1..], p.next, limit, k);
    }
  }

  lemma {:induction false} OnlyOneKey(snaps: seq<Table>, cursor: Option<Key>, limit: nat, k: Key)
    requires limit >= 1 && Untouched(snaps, k)
    ensures forall j :: j in Follow(snaps, cursor, limit).rows && j.id == k.id ==> j == k
    decreases |snaps|
  {
    if snaps != [] {
      PageMeaning(snaps[0], cursor, limit);
      OnlyOneKey(snaps[1..], ListPlaces(snaps[0], cursor, limit).next, limit, k);
    }
  }

  lemma {:induction false} CountOnce(rows: seq<Key>, k: Key)
    requires Ascending(rows) && forall j :: j in rows && j.id == k.id ==> j == k
    ensures Occurrences(rows, k.id) == if k in rows then 1 else 0
    decreases |rows|
  {
    if rows != [] {
      assert forall j :: j in rows[1..] ==> j in rows;
      assert rows[0] in rows && (k in rows <==> k == rows[0] || k in rows[1..]);
      CountOnce(rows[1..], k);
    }
  }

  // ---------------------------------------------------------------- no row twice

  /** updated_at never goes back. */
  ghost predicate ClockMovesOn(snaps: seq<Table>) {
    forall a, b, id :: 0 <= a <= b < |snaps| && id in snaps[a] && id in snaps[b] ==> snaps[a][id].updatedAt <= snaps[b][id].updatedAt
  }

  lemma {:induction false} RowsComeFromSnapshots(snaps: seq<Table>, cursor: Option<Key>, limit: nat, k: Key)
    requires limit >= 1 && k in Follow(snaps, cursor, limit).rows
    ensures exists a :: 0 <= a < |snaps| && k.id in snaps[a] && snaps[a][k.id].updatedAt == k.updatedAt
    decreases |snaps|
  {
    PageMeaning(snaps[0], cursor, limit);
    var p := ListPlaces(snaps[0], cursor, limit);
    if k !in p.data {
      RowsComeFromSnapshots(snaps[1..], p.next, limit, k);
      var a :| 0 <= a < |snaps[1..]| && k.id in snaps[1..][a] && snaps[1..][a][k.id].updatedAt == k.updatedAt;
      assert snaps[a + 1] == snaps[1..][a];
    }
  }

  /** A row that comes after a row of the first page is another place: with the same id it would be
      the same row, or an update, which moves it in front. */
  lemma LaterRowIsAnother(snaps: seq<Table>, cursor: Option<Key>, limit: nat, a: Key, b: Key)
    requires snaps != [] && limit >= 1 && ClockMovesOn(snaps)
    requires a in ListPlaces(snaps[0], cursor, limit).data && b in Follow(snaps, cursor, limit).rows && Before(a, b)
    ensures a.id != b.id
  {
    PageMeaning(snaps[0], cursor, limit);
    assert a in Hits(snaps[0], cursor);
    RowsComeFromSnapshots(snaps, cursor, limit, b);
    var n :| 0 <= n < |snaps| && b.id in snaps[n] && snaps[n][b.id].updatedAt == b.updatedAt;
  }

  /** As long as updates only move updated_at forward, no place is returned twice, even if it is
      updated again and again during the traversal. */
  lemma {:induction false} NoPlaceIsReturnedTwice(snaps: seq<Table>, cursor: Option<Key>, limit: nat)
    requires limit >= 1 && ClockMovesOn(snaps)
    ensures DistinctIds(Follow(snaps, cursor, limit).rows)
    decreases |snaps|
  {
    if snaps != [] {
      var p := ListPlaces(snaps[0], cursor, limit);
      var rest: seq<Key> := [];
      if p.next.Some? {
        rest := Follow(snaps[1..], p.next, limit).rows;
        NoPlaceIsReturnedTwice(snaps[1..], p.next, limit);
      }
      WalkAscends(snaps, cursor, limit);
      assert Follow(snaps, cursor, limit).rows == p.data + rest;
      forall a, b | a in p.data && b in p.data + rest && Before(a, b)
        ensures a.id != b.id
      {
        LaterRowIsAnother(snaps, cursor, limit, a, b);
      }
      DistinctAcross(p.data, rest);
    }
  }

  ghost predicate DistinctIds(rows: seq<Key>) {
    forall i, j :: 0 <= i < j < |rows| ==> rows[i].id != rows[j].id
  }

  lemma DistinctAcross(x: seq<Key>, y: seq<Key>)
    requires Ascending(x + y)
    requires forall a, b :: a in x && b in x + y && Before(a, b) ==> a.id != b.id
    requires DistinctIds(y)
    ensures DistinctIds(x + y)
  {
    var rows := x + y;
    forall i, j | 0 <= i < j < |rows|
      ensures rows[i].id != rows[j].id
    {
      if i < |x| {
        assert rows[i] == x[i] && rows[j] in rows && Before(rows[i], rows[j]);
      } else {
        assert rows[i] == y[i - |x|] && rows[j] == y[j - |x|];
      }
    }
  }

  // ---------------------------------------------------------------- a table at rest

  function Still(t: Table, n: nat): (snaps: seq<Table>)
    ensures |snaps| == n && forall i :: 0 <= i < n ==> snaps[i] == t
  {
    if n == 0 then [] else [t] + Still(t, n - 1)
  }

  /** On a table that does not change, n pages are enough for n * limit rows, and together they
      are the filtered table in key order. */
  lemma {:induction false} PagesConcatenateToTheTable(t: Table, cursor: Option<Key>, limit: nat, n: nat)
    requires limit >= 1 && n >= 1 && |Hits(t, cursor)| <= n * limit
    ensures Follow(Still(t, n), cursor, limit) == Walk(Sorted(Hits(t, cursor)), true)
    decreases n
  {
    var hits := Hits(t, cursor);
    PageMeaning(t, cursor, limit);
    var p := ListPlaces(t, cursor, limit);
    if p.next.Some? {
      assert Still(t, n)[1..] == Still(t, n - 1);
      LaterHits(t, cursor, limit);
      OneFewer(|Hits(t, cursor)|, n, limit);
      PagesConcatenateToTheTable(t, p.next, limit, n - 1);
    }
  }

  lemma OneFewer(hits: nat, n: nat, limit: nat)
    requires hits > limit >= 1 && n >= 1 && hits <= n * limit
    ensures n > 1 && hits - limit <= (n - 1) * limit
  {
    assert n == 1 ==> n * limit == limit;
    assert (n - 1) * limit == n * limit - limit;
  }

  lemma LaterHits(t: Table, cursor: Option<Key>, limit: nat)
    requires limit >= 1 && ListPlaces(t, cursor, limit).next.Some?
    ensures var p := ListPlaces(t, cursor, limit);
            && Sorted(Hits(t, cursor)) == p.data + Sorted(Hits(t, p.next))
            && |Hits(t, cursor)| > limit && |Hits(t, p.next)| == |Hits(t, cursor)| - limit
  {
    var p := ListPlaces(t, cursor, limit);
    var hits, later := Hits(t, cursor), Hits(t, p.next);
    SortedIsSorted(hits);
    SortedIsSorted(later);
    var all := Sorted(hits);
    assert all[limit - 1] in all;
    LaterHitsAre(t, cursor, all[limit - 1]);
    SortedTail(hits, limit, later);
    HeadAndTail(all, limit);
  }

  lemma HeadAndTail<T>(all: seq<T>, n: nat)
    requires n <= |all|
    ensures all == all[..n] + all[n..]
  {
  }

  lemma LaterHitsAre(t: Table, cursor: Option<Key>, last: Key)
    requires last in Hits(t, cursor)
    ensures Hits(t, Some(last)) == set k | k in Hits(t, cursor) && Before(last, k)
  {
  }

  lemma SortedTail(ks: set<Key>, n: nat, later: set<Key>)
    requires 0 < n <= |ks|
    requires later == set k | k in ks && Before(Sorted(ks)[n - 1], k)
    ensures Sorted(ks)[n..] == Sorted(later)
  {
    SortedIsSorted(ks);
    SortedIsSorted(later);
    Tail(Sorted(ks), n, Sorted(later));
  }

  /** The tail of an ascending sequence is the ascending sequence of what comes after its head part. */
  lemma Tail(all: seq<Key>, n: nat, rest: seq<Key>)
    requires Ascending(all) && Ascending(rest) && 0 < n <= |all|
    requires forall k :: k in rest <==> k in all && Before(all[n - 1], k)
    ensures all[n..] == rest
  {
    forall k
      ensures k in all[n..] <==> k in rest
    {
      if k in all[n..] {
        var i :| 0 <= i < |all[n..]| && all[n..][i] == k;
        assert all[n + i] == k && Before(all[n - 1], all[n + i]);
      }
      if k in rest {
        var i :| 0 <= i < |all| && all[i] == k;
        assert i < n ==> i == n - 1 || Before(all[i], all[n - 1]);
        assert i >= n && all[n..][i - n] == k;
      }
    }
    AscendingIsUnique(all[n..], rest);
  }

  // ---------------------------------------------------------------- the rows behind the keys

  /** The key of a row of the table that passes the filters. */
  predicate IsShownRow(t: Table, k: Key) {
    k.id in t && t[k.id].shown && t[k.id].updatedAt == k.updatedAt
  }

  /** Newest updates come first, equal times by ascending id. */
  predicate ComesAfter(a: Key, b: Key) {
    b.updatedAt < a.updatedAt || (b.updatedAt == a.updatedAt && a.id < b.id)
  }

  ghost predicate InOrder(rows: seq<Key>) {
    forall i, j :: 0 <= i < j < |rows| ==> ComesAfter(rows[i], rows[j])
  }

  /** The shown rows beyond the cursor. */
  predicate IsDue(t: Table, cursor: Option<Key>, k: Key) {
    IsShownRow(t, k) && (cursor.Some? ==> ComesAfter(cursor.value, k))
  }

  /** A page holds keys of shown rows beyond the cursor, newest first, and skips none before its last.
      There is a next cursor, the last key of a full page, exactly when shown rows are left. */
  lemma PageHoldsShownRows(t: Table, cursor: Option<Key>, limit: nat)
    requires limit >= 1
    ensures var p := ListPlaces(t, cursor, limit);
            && InOrder(p.data) && |p.data| <= limit
            && (forall k :: k in p.data ==> IsDue(t, cursor, k))
            && (forall k :: IsDue(t, cursor, k) && k !in p.data ==> p.next.Some? && ComesAfter(p.next.value, k))
            && (p.next.Some? ==> |p.data| == limit && p.next.value == p.data[limit - 1])
            && (p.next.Some? ==> exists k :: IsDue(t, cursor, k) && k !in p.data)
  {
    var p := ListPlaces(t, cursor, limit);
    PageMeaning(t, cursor, limit);
    SortedIsSorted(Hits(t, cursor));
    forall k | IsDue(t, cursor, k) && k !in p.data
      ensures p.next.Some? && ComesAfter(p.next.value, k)
    {
      assert k in Hits(t, cursor);
    }
    if p.next.Some? {
      var all := Sorted(Hits(t, cursor));
      assert all[limit] in all && Before(all[limit - 1], all[limit]);
      assert IsDue(t, cursor, all[limit]);
      LastComesLast(p.data, all[limit]);
    }
  }

  lemma LastComesLast(page: seq<Key>, k: Key)
    requires page != [] && InOrder(page) && ComesAfter(page[|page| - 1], k)
    ensures k !in page
  {
  }

  /** The pages of a walk, one for each request made. */
  function Pages(snaps: seq<Table>, cursor: Option<Key>, limit: nat): (pages: seq<seq<Key>>)
    requires limit >= 1
    ensures |pages| <= |snaps|
  {
    if snaps == [] then []
    else
      var p := ListPlaces(snaps[0], cursor, limit);
      [p.data] + if p.next.None? then [] else Pages(snaps[1..], p.next, limit)
  }

  function Joined(pages: seq<seq<Key>>): seq<Key> {
    if pages == [] then [] else pages[0] + Joined(pages[1..])
  }

  /** Each page holds rows that its own request found shown, beyond the cursor. */
  ghost predicate AllShown(snaps: seq<Table>, cursor: Option<Key>, pages: seq<seq<Key>>) {
    && |pages| <= |snaps|
    && forall i :: 0 <= i < |pages| ==> PageShown(snaps[i], cursor, pages[i])
  }

  ghost predicate PageShown(t: Table, cursor: Option<Key>, page: seq<Key>) {
    forall k :: k in page ==> IsDue(t, cursor, k)
  }

  /** A walk is its pages one after another, and each page holds rows that its own request found shown,
      beyond the cursor the walk started from. */
  lemma {:induction false} WalkReturnsShownRows(snaps: seq<Table>, cursor: Option<Key>, limit: nat)
    requires limit >= 1
    ensures Follow(snaps, cursor, limit).rows == Joined(Pages(snaps, cursor, limit))
    ensures AllShown(snaps, cursor, Pages(snaps, cursor, limit))
    decreases |snaps|
  {
    if snaps != [] {
      var p := ListPlaces(snaps[0], cursor, limit);
      PageHoldsShownRows(snaps[0], cursor, limit);
      if p.next.Some? {
        var rest := Pages(snaps[1..], p.next, limit);
        WalkReturnsShownRows(snaps[1..], p.next, limit);
        assert ([p.data] + rest)[1..] == rest;
        PageMeaning(snaps[0], cursor, limit);
        assert p.next.value in p.data;
        MorePages(snaps, cursor, p.next.value, p.data, rest);
      } else {
        assert [p.data][1..] == [];
      }
    }
  }

  lemma MorePages(snaps: seq<Table>, cursor: Option<Key>, next: Key, page: seq<Key>, rest: seq<seq<Key>>)
    requires snaps != [] && PageShown(snaps[0], cursor, page) && next in page && AllShown(snaps[1..], Some(next), rest)
    ensures AllShown(snaps, cursor, [page] + rest)
  {
    var pages := [page] + rest;
    forall i | 0 <= i < |pages|
      ensures PageShown(snaps[i], cursor, pages[i])
    {
      if i > 0 {
        assert pages[i] == rest[i - 1] && snaps[i] == snaps[1..][i - 1];
        assert PageShown(snaps[i], Some(next), pages[i]);
      }
    }
  }

  lemma {:induction false} NoMoreHitsThanRows(t: Table, cursor: Option<Key>)
    ensures |Hits(t, cursor)| <= |t|
    decreases |t|
  {
    if t == map[] {
      assert Hits(t, cursor) == {};
    } else {
      var id :| id in t;
      var k, rest := Key(t[id].updatedAt, id), t - {id};
      NoMoreHitsThanRows(rest, cursor);
      forall j | j in Hits(t, cursor) && j != k
        ensures j in Hits(rest, cursor)
      {
        assert j.id in rest && rest[j.id] == t[j.id];
      }
      SubsetSize(Hits(t, cursor), Hits(rest, cursor) + {k});
    }
  }

  /** On a table at rest, enough requests return exactly the shown rows, each once, newest first. */
  lemma WholeTableIsTheShownRows(t: Table, limit: nat, n: nat)
    requires limit >= 1 && n >= 1 && |t| <= n * limit
    ensures var walk := Follow(Still(t, n), None, limit);
            && walk.done && InOrder(walk.rows) && DistinctIds(walk.rows)
            && forall k :: k in walk.rows <==> IsShownRow(t, k)
  {
    NoMoreHitsThanRows(t, None);
    PagesConcatenateToTheTable(t, None, limit, n);
    SortedRowsAreShown(t);
  }

  lemma SortedRowsAreShown(t: Table)
    ensures var rows := Sorted(Hits(t, None));
            InOrder(rows) && DistinctIds(rows) && forall k :: k in rows <==> IsShownRow(t, k)
  {
    var rows := Sorted(Hits(t, None));
    SortedIsSorted(Hits(t, None));
    forall k
      ensures k in rows <==> IsShownRow(t, k)
    {
      assert k in rows <==> k in Hits(t, None);
    }
    forall i, j | 0 <= i < j < |rows|
      ensures rows[i].id != rows[j].id
    {
      assert rows[i] in rows && rows[j] in rows && Before(rows[i], rows[j]);
    }
  }
}
