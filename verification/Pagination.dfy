/**
 * Keyset pagination over (createdAt descending, id descending), the page query
 * of the post repository, and the walk a client makes by following nextCursor
 * while posts come and go between its requests.
 */
module Pagination {
  import opened Domain
  import Collections

  datatype Cursor = Cursor(createdAt: int, id: PostId)

  datatype Row = Row(id: PostId, post: Post)

  datatype Page = Page(data: seq<Row>, nextCursor: Option<Cursor>, hasNextPage: bool)

  function Position(r: Row): Cursor {
    Cursor(r.post.createdAt, r.id)
  }

  /** The resume predicate: p comes strictly after c in the feed order. */
  predicate Below(p: Cursor, c: Cursor) {
    p.createdAt < c.createdAt || (p.createdAt == c.createdAt && p.id < c.id)
  }

  predicate Resumes(p: Cursor, after: Option<Cursor>) {
    after.None? || Below(p, after.value)
  }

  ghost predicate StrictlyDescending(rows: seq<Row>) {
    forall i, j :: 0 <= i < j < |rows| ==> Below(Position(rows[j]), Position(rows[i]))
  }

  /** The posts the query still has to return when it resumes after the cursor. */
  function Remaining(posts: Posts, after: Option<Cursor>): Posts {
    map id | id in posts && Resumes(Cursor(posts[id].createdAt, id), after) :: posts[id]
  }

  ghost predicate IsNewest(posts: Posts, id: PostId) {
    id in posts &&
    forall other :: other in posts && other != id ==>
      Below(Cursor(posts[other].createdAt, other), Cursor(posts[id].createdAt, id))
  }

  lemma NewestExists(posts: Posts)
    requires posts != map[]
    ensures exists id :: IsNewest(posts, id)
    decreases |posts|
  {
    var some :| some in posts;
    var rest := posts - {some};
    if rest == map[] {
      assert posts.Keys == {some} + rest.Keys;
      assert IsNewest(posts, some);
    } else {
      NewestExists(rest);
      var best :| IsNewest(rest, best);
      var newer := Below(Cursor(posts[best].createdAt, best), Cursor(posts[some].createdAt, some));
      var winner := if newer then some else best;
      assert forall other :: other in posts ==> other == some || other in rest;
      assert IsNewest(posts, winner);
    }
  }

  ghost function Newest(posts: Posts): (id: PostId)
    requires posts != map[]
    ensures IsNewest(posts, id)
  {
    NewestExists(posts);
    var id :| IsNewest(posts, id);
    id
  }

  /** The order the database returns the matching posts in. */
  ghost function Sorted(posts: Posts): seq<Row>
    decreases |posts|
  {
    if posts == map[] then []
    else var id := Newest(posts); [Row(id, posts[id])] + Sorted(posts - {id})
  }

  ghost predicate Holds(posts: Posts, r: Row) {
    r.id in posts && posts[r.id] == r.post
  }

  /** The listing holds exactly the rows of the collection. */
  ghost predicate Lists(rows: seq<Row>, posts: Posts) {
    forall r :: r in rows <==> Holds(posts, r)
  }

  lemma {:induction false} SortedLists(posts: Posts)
    ensures Lists(Sorted(posts), posts)
    ensures |Sorted(posts)| == |posts|
    decreases |posts|
  {
    if posts != map[] {
      var id := Newest(posts);
      var rest := posts - {id};
      SortedLists(rest);
      assert posts.Keys == {id} + rest.Keys;
      forall r ensures r in Sorted(posts) <==> Holds(posts, r) {
        assert r in Sorted(rest) <==> Holds(rest, r);
      }
    }
  }

  lemma {:induction false} SortedDescends(posts: Posts)
    ensures StrictlyDescending(Sorted(posts))
    decreases |posts|
  {
    if posts != map[] {
      var id := Newest(posts);
      var rest := posts - {id};
      SortedDescends(rest);
      SortedLists(rest);
      var tail := Sorted(rest);
      forall k | 0 <= k < |tail| ensures Below(Position(tail[k]), Cursor(posts[id].createdAt, id)) {
        assert Holds(rest, tail[k]);
      }
    }
  }

  /** A strictly descending listing of a collection is the only one there is. */
  lemma {:induction false} SortedIsUnique(posts: Posts, rows: seq<Row>)
    requires StrictlyDescending(rows) && Lists(rows, posts)
    ensures rows == Sorted(posts)
    decreases |rows|
  {
    assert rows == [] || rows[0] in rows;
    if posts != map[] {
      var id := Newest(posts);
      var top := Row(id, posts[id]);
      assert Holds(posts, top);
      var j :| 0 <= j < |rows| && rows[j] == top;
      assert Holds(posts, rows[0]);
      assert j > 0 ==> Below(Position(rows[j]), Position(rows[0]));
      var rest := posts - {id};
      forall r ensures r in rows[1..] <==> Holds(rest, r) {
        if r in rows[1..] {
          var k :| 1 <= k < |rows| && rows[k] == r;
          assert Below(Position(rows[k]), Position(rows[0]));
          assert Holds(posts, r);
        }
        if Holds(rest, r) { assert Holds(posts, r); }
      }
      SortedIsUnique(rest, rows[1..]);
      assert rows == [top] + rows[1..];
    }
  }

  function Take(rows: seq<Row>, n: nat): seq<Row> {
    if |rows| <= n then rows else rows[..n]
  }

  /**
   * One page: fetch limit + 1 rows past the cursor, keep limit, and hand out
   * the last kept row as the next cursor when there was one row too many.
   */
  ghost function FindManyCursor(matching: Posts, limit: nat, after: Option<Cursor>): Page {
    var rows := Take(Sorted(Remaining(matching, after)), limit + 1);
    var hasNextPage := |rows| > limit;
    var data := if hasNextPage then rows[..limit] else rows;
    var nextCursor := if hasNextPage && |data| > 0 then Some(Position(data[|data| - 1])) else None;
    Page(data, nextCursor, hasNextPage)
  }

  /** What a page promises: the newest rows past the cursor, in order, no more than asked. */
  ghost predicate IsPageOf(page: Page, matching: Posts, limit: nat, after: Option<Cursor>) {
    && (page.hasNextPage <==> |Remaining(matching, after)| > limit)
    && (page.nextCursor.Some? <==> page.hasNextPage && limit > 0)
    && |page.data| <= limit
    && StrictlyDescending(page.data)
    && (forall r :: r in page.data ==> Holds(matching, r) && Resumes(Position(r), after))
    && (page.nextCursor.Some? ==> |page.data| == limit && page.nextCursor.value == Position(page.data[limit - 1]))
    && (forall r :: Holds(Remaining(matching, after), r) && r !in page.data ==>
          page.hasNextPage && (page.nextCursor.Some? ==> Below(Position(r), page.nextCursor.value)))
  }

  lemma PageIsExact(matching: Posts, limit: nat, after: Option<Cursor>)
    ensures IsPageOf(FindManyCursor(matching, limit, after), matching, limit, after)
  {
    var rest := Remaining(matching, after);
    var all := Sorted(rest);
    SortedLists(rest);
    SortedDescends(rest);
    var page := FindManyCursor(matching, limit, after);
    assert page.data == Take(all, limit);
    assert StrictlyDescending(page.data) by {
      assert forall k :: 0 <= k < |page.data| ==> page.data[k] == all[k];
    }
    forall r | r in page.data ensures Holds(matching, r) && Resumes(Position(r), after) {
      assert r in all && Holds(rest, r);
    }
    forall r | Holds(rest, r) && r !in page.data
      ensures page.hasNextPage && (page.nextCursor.Some? ==> Below(Position(r), page.nextCursor.value))
    {
      var k :| 0 <= k < |all| && all[k] == r;
      assert k >= limit;
    }
  }

  // --- Following nextCursor ---

  /** One request of a walk: what the filter matches when it runs, and its page size. */
  datatype Fetch = Fetch(matching: Posts, limit: nat)

  ghost function PageAt(f: Fetch, after: Option<Cursor>): Page {
    FindManyCursor(f.matching, f.limit, after)
  }

  /** All rows a client collects by following nextCursor through the fetches. */
  ghost function Walk(fetches: seq<Fetch>, after: Option<Cursor>): seq<Row> {
    if fetches == [] then []
    else
      var page := PageAt(fetches[0], after);
      if page.nextCursor.None? then page.data else page.data + Walk(fetches[1..], page.nextCursor)
  }

  /** The walk reaches a page that hands out no further cursor. */
  ghost predicate ReachesEnd(fetches: seq<Fetch>, after: Option<Cursor>) {
    fetches != [] &&
    var page := PageAt(fetches[0], after);
    page.nextCursor.None? || ReachesEnd(fetches[1..], page.nextCursor)
  }

  ghost predicate ValidSizes(fetches: seq<Fetch>) {
    forall f :: f in fetches ==> f.limit >= 1
  }

  /** createdAt is written once and ids are never reused. */
  ghost predicate StableTimestamps(fetches: seq<Fetch>) {
    forall f, g, id :: f in fetches && g in fetches && id in f.matching && id in g.matching ==>
      f.matching[id].createdAt == g.matching[id].createdAt
  }

  /** However the collection changes between pages, the walk is strictly descending. */
  lemma {:induction false} WalkDescends(fetches: seq<Fetch>, after: Option<Cursor>)
    requires ValidSizes(fetches)
    ensures StrictlyDescending(Walk(fetches, after))
    ensures forall r :: r in Walk(fetches, after) ==> Resumes(Position(r), after)
  {
    if fetches != [] {
      var page := PageAt(fetches[0], after);
      assert fetches[0] in fetches;
      PageIsExact(fetches[0].matching, fetches[0].limit, after);
      if page.nextCursor.Some? {
        WalkDescends(fetches[1..], page.nextCursor);
        Joins(page.data, Walk(fetches[1..], page.nextCursor), after);
      }
    }
  }

  /** Rows below the last row of a page continue the page in order. */
  lemma Joins(data: seq<Row>, tail: seq<Row>, after: Option<Cursor>)
    requires data != [] && StrictlyDescending(data) && StrictlyDescending(tail)
    requires forall r :: r in data ==> Resumes(Position(r), after)
    requires forall r :: r in tail ==> Below(Position(r), Position(data[|data| - 1]))
    ensures StrictlyDescending(data + tail)
    ensures forall r :: r in data + tail ==> Resumes(Position(r), after)
  {
    var all := data + tail;
    var last := data[|data| - 1];
    assert last in data;
    forall i, j | 0 <= i < j < |all| ensures Below(Position(all[j]), Position(all[i])) {
      if i < |data| <= j {
        assert all[j] in tail;
        assert i < |data| - 1 ==> Below(Position(last), Position(data[i]));
      }
    }
  }

  /** The walk makes its fetch number i, after this cursor. */
  ghost predicate Makes(fetches: seq<Fetch>, after: Option<Cursor>, i: nat, cursor: Option<Cursor>)
    decreases i
  {
    i < |fetches| &&
    if i == 0 then cursor == after
    else
      var page := PageAt(fetches[0], after);
      page.nextCursor.Some? && Makes(fetches[1..], page.nextCursor, i - 1, cursor)
  }

  /** Fetch number i returned the row. */
  ghost predicate ReturnedBy(fetches: seq<Fetch>, after: Option<Cursor>, i: nat, r: Row) {
    i < |fetches| && exists cursor :: Makes(fetches, after, i, cursor) && r in PageAt(fetches[i], cursor).data
  }

  /** Every collected row was returned by a fetch of the walk, and is a post that matched when that page was read. */
  lemma {:induction false} WalkIsSound(fetches: seq<Fetch>, after: Option<Cursor>, r: Row) returns (i: nat)
    requires r in Walk(fetches, after)
    ensures ReturnedBy(fetches, after, i, r) && Holds(fetches[i].matching, r)
  {
    var next := FirstFetch(fetches, after, r);
    if next.None? {
      i := 0;
    } else {
      var k := WalkIsSound(fetches[1..], next, r);
      i := k + 1;
      LaterFetch(fetches, after, next, k, r);
    }
  }

  /** A collected row is on the first page, or is collected from the cursor of that page on. */
  lemma FirstFetch(fetches: seq<Fetch>, after: Option<Cursor>, r: Row) returns (next: Option<Cursor>)
    requires r in Walk(fetches, after)
    ensures fetches != []
    ensures next.None? ==> ReturnedBy(fetches, after, 0, r) && Holds(fetches[0].matching, r)
    ensures next.Some? ==> LeadsOn(fetches, after, next) && r in Walk(fetches[1..], next)
  {
    PageIsExact(fetches[0].matching, fetches[0].limit, after);
    var page := PageAt(fetches[0], after);
    next := if r in page.data then None else page.nextCursor;
    assert Makes(fetches, after, 0, after);
  }

  ghost predicate LeadsOn(fetches: seq<Fetch>, after: Option<Cursor>, next: Option<Cursor>) {
    fetches != [] && PageAt(fetches[0], after).nextCursor == next
  }

  lemma LaterFetch(fetches: seq<Fetch>, after: Option<Cursor>, next: Option<Cursor>, k: nat, r: Row)
    requires LeadsOn(fetches, after, next) && next.Some?
    requires ReturnedBy(fetches[1..], next, k, r)
    ensures ReturnedBy(fetches, after, k + 1, r) && fetches[1..][k] == fetches[k + 1]
  {
    var cursor :| Makes(fetches[1..], next, k, cursor) && r in PageAt(fetches[1..][k], cursor).data;
    assert Makes(fetches, after, k + 1, cursor);
  }

  /** No post is returned twice. */
  lemma WalkNeverRepeats(fetches: seq<Fetch>, after: Option<Cursor>, i: nat, j: nat)
    requires ValidSizes(fetches) && StableTimestamps(fetches)
    requires i < j < |Walk(fetches, after)|
    ensures Walk(fetches, after)[i].id != Walk(fetches, after)[j].id
  {
    WalkDescends(fetches, after);
    var rows := Walk(fetches, after);
    var a := WalkIsSound(fetches, after, rows[i]);
    var b := WalkIsSound(fetches, after, rows[j]);
    assert fetches[a] in fetches && fetches[b] in fetches;
  }

  /** A post that matches throughout, and lies past the cursor, is returned. */
  lemma {:induction false} WalkSkipsNothing(fetches: seq<Fetch>, after: Option<Cursor>, id: PostId, createdAt: int)
    requires ReachesEnd(fetches, after)
    requires forall f :: f in fetches ==> id in f.matching && f.matching[id].createdAt == createdAt
    requires Resumes(Cursor(createdAt, id), after)
    requires ValidSizes(fetches)
    ensures exists r :: r in Walk(fetches, after) && r.id == id
  {
    var f := fetches[0];
    var page := PageAt(f, after);
    assert f in fetches;
    PageIsExact(f.matching, f.limit, after);
    var row := Row(id, f.matching[id]);
    assert Holds(Remaining(f.matching, after), row);
    if row in page.data {
      assert row in Walk(fetches, after);
    } else {
      WalkSkipsNothing(fetches[1..], page.nextCursor, id, createdAt);
    }
  }

  /**
   * The promise of the feed: with any page sizes of at least one and any
   * inserts and deletes in between, a finished walk from the start returns
   * every post that matched throughout exactly once.
   */
  lemma WalkReturnsExactlyOnce(fetches: seq<Fetch>, id: PostId)
    requires ReachesEnd(fetches, None)
    requires ValidSizes(fetches) && StableTimestamps(fetches)
    requires forall f :: f in fetches ==> id in f.matching
    ensures exists i :: 0 <= i < |Walk(fetches, None)| && Walk(fetches, None)[i].id == id &&
              forall j :: 0 <= j < |Walk(fetches, None)| && Walk(fetches, None)[j].id == id ==> j == i
  {
    var rows := Walk(fetches, None);
    WalkSkipsNothing(fetches, None, id, fetches[0].matching[id].createdAt);
    var r :| r in rows && r.id == id;
    var i :| 0 <= i < |rows| && rows[i] == r;
    forall j | 0 <= j < |rows| && rows[j].id == id ensures j == i {
      if j < i { WalkNeverRepeats(fetches, None, j, i); }
      if i < j { WalkNeverRepeats(fetches, None, i, j); }
    }
  }

  /** On a collection that stands still, the pages concatenate to the whole sorted feed. */
  lemma {:induction false} WalkOfFixedCollection(fetches: seq<Fetch>, posts: Posts, after: Option<Cursor>)
    requires ReachesEnd(fetches, after) && ValidSizes(fetches)
    requires forall f :: f in fetches ==> f.matching == posts
    ensures Walk(fetches, after) == Sorted(Remaining(posts, after))
  {
    WalkDescends(fetches, after);
    var rest := Remaining(posts, after);
    var rows := Walk(fetches, after);
    forall r ensures r in rows <==> Holds(rest, r) {
      if r in rows {
        var k := WalkIsSound(fetches, after, r);
        assert fetches[k] in fetches;
      }
      if Holds(rest, r) {
        WalkSkipsNothing(fetches, after, r.id, r.post.createdAt);
        var s :| s in rows && s.id == r.id;
        var k := WalkIsSound(fetches, after, s);
        assert fetches[k] in fetches;
      }
    }
    SortedIsUnique(rest, rows);
  }

  /** Every page that hands out a cursor returns a post, so less remains past that cursor. */
  lemma PageLeavesLess(page: Page, posts: Posts, limit: nat, after: Option<Cursor>)
    requires IsPageOf(page, posts, limit, after) && page.nextCursor.Some?
    ensures |Remaining(posts, page.nextCursor)| < |Remaining(posts, after)|
  {
    var left, right := Remaining(posts, page.nextCursor), Remaining(posts, after);
    var last := page.data[|page.data| - 1];
    assert last in page.data;
    assert left.Keys <= right.Keys;
    assert last.id in right.Keys && last.id !in left.Keys;
    Collections.SubsetIsNoLarger(left.Keys, right.Keys - {last.id});
  }

  /** A walk over a standing collection ends, in no more pages than there are posts, plus one. */
  lemma {:induction false} WalkEnds(fetches: seq<Fetch>, posts: Posts, after: Option<Cursor>)
    requires ValidSizes(fetches)
    requires forall f :: f in fetches ==> f.matching == posts
    requires |fetches| > |Remaining(posts, after)|
    ensures ReachesEnd(fetches, after)
    decreases |fetches|
  {
    var f := fetches[0];
    assert f in fetches;
    var page := PageAt(f, after);
    PageIsExact(posts, f.limit, after);
    if page.nextCursor.Some? {
      PageLeavesLess(page, posts, f.limit, after);
      WalkEnds(fetches[1..], posts, page.nextCursor);
    }
  }

  // --- The page size of a request ---

  /** parseInt of the limit parameter, None standing for NaN, clamped to 1..50. */
  function PageSize(parsed: Option<int>): (size: nat)
    ensures 1 <= size <= 50
    ensures parsed.Some? && 1 <= parsed.value <= 50 ==> size == parsed.value
    ensures parsed.Some? && parsed.value > 50 ==> size == 50
    ensures parsed.Some? && parsed.value < 0 ==> size == 1
    ensures parsed == None || parsed == Some(0) ==> size == 20
  {
    var asked := if parsed.None? || parsed.value == 0 then 20 else parsed.value;
    var atLeastOne := if asked < 1 then 1 else asked;
    if atLeastOne > 50 then 50 else atLeastOne
  }
}
