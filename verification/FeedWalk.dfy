/**
 * A client that reads its feed page by page, over the runs of the feed
 * protocol: what it is served, from the cache or not, by following nextCursor.
 */
module FeedWalk {
  import opened Domain
  import opened Pagination
  import opened FeedProtocol
  import opened FeedCache
  import opened PostUpdates

  // --- A reader answers the call it was asked for ---

  predicate KeyServes(call: Call, key: Key) {
    call.GetFeed? && key.user == call.user && key.size == PageSize(call.limit) && key.after == call.after
  }

  predicate ReaderServes(s: State, r: RequestId) {
    r in s.requests && r in s.calls &&
    match s.requests[r]
    case Started(call) => s.calls[r] == call
    case ProbeCache(key) => KeyServes(s.calls[r], key)
    case ReadFollowing(key) => KeyServes(s.calls[r], key)
    case ReadPosts(key, _, _) => KeyServes(s.calls[r], key)
    case WriteCache(key, _) => KeyServes(s.calls[r], key)
    case Served(key, _) => KeyServes(s.calls[r], key)
    case _ => true
  }

  lemma StepKeepsReader(s: State, e: Event, r: RequestId)
    requires (r in s.requests ==> ReaderServes(s, r)) && r in Step(s, e).requests
    ensures ReaderServes(Step(s, e), r)
  {
    if e.Advance? && e.r in s.requests { MoveShape(s, e.r, NextMove(s, e.r, s.requests[e.r], e.listed)); }
  }

  lemma {:induction false} ReadersServe(events: seq<Event>, r: RequestId)
    requires r in Run(Init(), events).requests
    ensures ReaderServes(Run(Init(), events), r)
  {
    if events != [] {
      var head := events[..|events| - 1];
      if r in Run(Init(), head).requests { ReadersServe(head, r); }
      StepKeepsReader(Run(Init(), head), events[|events| - 1], r);
    }
  }

  // --- A reader is served ---

  /** How many store calls a getFeed has yet to make at most; None for other requests. */
  function Left(pc: Pc): Option<nat> {
    match pc
    case Started(call) => if call.GetFeed? then Some(5) else None
    case ProbeCache(_) => Some(4)
    case ReadFollowing(_) => Some(3)
    case ReadPosts(_, _, _) => Some(2)
    case WriteCache(_, _) => Some(1)
    case Served(_, _) => Some(0)
    case _ => None
  }

  function OwnCalls(events: seq<Event>, r: RequestId): nat {
    if events == [] then 0
    else
      var e := events[|events| - 1];
      OwnCalls(events[..|events| - 1], r) + if e.Advance? && e.r == r then 1 else 0
  }

  lemma OwnMoveBringsCloser(s: State, r: RequestId, pc: Pc, listed: seq<UserId>)
    requires Left(pc).Some?
    ensures var left := Left(NextMove(s, r, pc, listed).next);
      left.Some? && left.value <= Left(pc).value && (left.value == 0 || left.value < Left(pc).value)
  {
  }

  lemma StepBringsCloser(s: State, e: Event, r: RequestId)
    requires r in s.requests && Left(s.requests[r]).Some?
    ensures r in Step(s, e).requests
    ensures var left := Left(Step(s, e).requests[r]);
      left.Some? && left.value <= Left(s.requests[r]).value &&
      (e.Advance? && e.r == r ==> left.value == 0 || left.value < Left(s.requests[r]).value)
  {
    if e.Advance? && e.r in s.requests { MoveShape(s, e.r, NextMove(s, e.r, s.requests[e.r], e.listed)); }
    if e.Advance? && e.r == r { OwnMoveBringsCloser(s, r, s.requests[r], e.listed); }
  }

  /** Whatever interleaves, a getFeed that has made five store calls has been served. */
  lemma {:induction false} ReadersAreServed(s: State, r: RequestId, later: seq<Event>)
    requires r in s.requests && Left(s.requests[r]).Some?
    ensures r in Run(s, later).requests
    ensures var left := Left(Run(s, later).requests[r]);
      left.Some? && (left.value == 0 || left.value + OwnCalls(later, r) <= Left(s.requests[r]).value)
    ensures OwnCalls(later, r) >= 5 ==> Run(s, later).requests[r].Served?
  {
    if later != [] {
      ReadersAreServed(s, r, later[..|later| - 1]);
      StepBringsCloser(Run(s, later[..|later| - 1]), later[|later| - 1], r);
    }
  }

  /** The next n store calls are all made by request r. */
  ghost function Alone(s: State, r: RequestId, n: nat): State
    decreases n
  {
    if n == 0 then s else Alone(Step(s, Advance(r, [])), r, n - 1)
  }

  predicate ServedFromCache(s: State, r: RequestId, key: Key) {
    r in s.requests && key in s.cache && s.requests[r] == Served(key, s.cache[key])
  }

  /** A hit is served at once, without a look at the database. */
  lemma HitsAreServed(s: State, r: RequestId, key: Key)
    requires r in s.requests && s.requests[r] == ProbeCache(key) && key in s.cache
    ensures var s' := Step(s, Advance(r, []));
      s' == s.(requests := s'.requests) && s'.cache == s.cache && ServedFromCache(s', r, key)
  {
  }

  lemma ReadingReadsNow(s: State, r: RequestId, key: Key)
    requires r in s.requests && s.requests[r] == ReadFollowing(key)
    ensures var read := Read(Uncached(s.db, key), |s.past|, |s.past|);
      Step(Step(s, Advance(r, [])), Advance(r, [])) == s.(requests := s.requests[r := WriteCache(key, read)])
  {
    var s1 := Step(s, Advance(r, []));
    assert s1 == s.(requests := s.requests[r := ReadPosts(key, Following(s.db, key.user), |s.past|)]);
  }

  lemma WritingFillsTheCache(s: State, r: RequestId, key: Key, read: Read)
    requires r in s.requests && s.requests[r] == WriteCache(key, read)
    ensures var s' := Step(s, Advance(r, []));
      ServedFromCache(s', r, key) && s'.cache == s.cache[key := read]
  {
  }

  /** A miss nobody interrupts is served the page of the moment, and leaves it in the cache for the next reader. */
  lemma MissesFillTheCache(s: State, r: RequestId, key: Key)
    requires r in s.requests && s.requests[r] == ProbeCache(key) && key !in s.cache
    ensures var s' := Alone(s, r, 4);
      ServedFromCache(s', r, key) && s'.cache == s.cache[key := s'.cache[key]] &&
      IsFeedPage(s'.cache[key].page, s.db, s.db, key.user, key.size, key.after)
  {
    var s1 := Step(s, Advance(r, []));
    assert s1 == s.(requests := s.requests[r := ReadFollowing(key)]);
    var s2 := Step(s1, Advance(r, []));
    var s3 := Step(s2, Advance(r, []));
    ReadingReadsNow(s1, r, key);
    WritingFillsTheCache(s3, r, key, Read(Uncached(s.db, key), |s.past|, |s.past|));
    QueryIsAPage(key, s.db, s.db);
    assert Alone(s, r, 4) == Alone(s1, r, 3) == Alone(s2, r, 2) == Alone(s3, r, 1) == Step(s3, Advance(r, []));
  }

  lemma {:induction false} OthersKeepTheirPlace(s: State, r: RequestId, q: RequestId, n: nat)
    requires r in s.requests && q in s.requests && q != r
    ensures var s' := Alone(s, r, n); r in s'.requests && q in s'.requests && s'.requests[q] == s.requests[q]
    decreases n
  {
    if n > 0 {
      MoveShape(s, r, NextMove(s, r, s.requests[r], []));
      OthersKeepTheirPlace(Step(s, Advance(r, [])), r, q, n - 1);
    }
  }

  /** One read serves both: the next reader of the same key is served the very page the first computed. */
  lemma TheNextReaderIsServedTheSame(s: State, r: RequestId, q: RequestId, key: Key)
    requires r in s.requests && q in s.requests && q != r && key !in s.cache
    requires s.requests[r] == ProbeCache(key) && s.requests[q] == ProbeCache(key)
    ensures var s' := Step(Alone(s, r, 4), Advance(q, []));
      && ServedFromCache(s', r, key) && ServedFromCache(s', q, key)
      && IsFeedPage(s'.cache[key].page, s.db, s.db, key.user, key.size, key.after)
  {
    MissesFillTheCache(s, r, key);
    OthersKeepTheirPlace(s, r, q, 4);
    var s1 := Alone(s, r, 4);
    HitsAreServed(s1, q, key);
    MoveShape(s1, q, NextMove(s1, q, s1.requests[q], []));
  }

  // --- A post keeps its creation date ---

  ghost predicate Dated(s: State, db: Db) {
    forall id :: id in db.posts ==> id in s.stories && db.posts[id].createdAt == s.stories[id].original.createdAt
  }

  ghost predicate DatesKept(s: State) {
    forall i :: 0 <= i <= |s.past| ==> Dated(s, At(s, i))
  }

  lemma ApplyKeepsDates(s: State, effect: Effect)
    requires DatesKept(s) && (effect.Insert? ==> effect.id !in s.stories)
    ensures DatesKept(Apply(s, effect))
  {
    var s' := Apply(s, effect);
    StoriesKeepDates(s, effect);
    forall i | 0 <= i <= |s'.past| ensures Dated(s', At(s', i)) {
      if i <= |s.past| && (i < |s.past| || s'.past == s.past || i < |s'.past|) {
        assert Dated(s, At(s, i));
        if s'.past != s.past { assert At(s', i) == At(s, i); }
      } else {
        assert Dated(s, At(s, |s.past|));
      }
    }
  }

  lemma StoriesKeepDates(s: State, effect: Effect)
    requires effect.Insert? ==> effect.id !in s.stories
    ensures var s' := Apply(s, effect); forall id :: id in s.stories ==>
      id in s'.stories && s'.stories[id].original.createdAt == s.stories[id].original.createdAt
  {
  }

  lemma StepKeepsDates(s: State, e: Event)
    requires DatesKept(s)
    ensures DatesKept(Step(s, e))
  {
    if e.Advance? && e.r in s.requests {
      var m := NextMove(s, e.r, s.requests[e.r], e.listed);
      ApplyKeepsDates(s, m.effect);
      var mid, s' := Apply(s, m.effect), Step(s, e);
      forall i | 0 <= i <= |s'.past| ensures Dated(s', At(s', i)) { assert Dated(mid, At(mid, i)); }
    } else {
      var s' := Step(s, e);
      forall i | 0 <= i <= |s'.past| ensures Dated(s', At(s', i)) { assert Dated(s, At(s, i)); }
    }
  }

  lemma {:induction false} DatesAreKept(events: seq<Event>)
    ensures DatesKept(Run(Init(), events))
  {
    if events != [] {
      DatesAreKept(events[..|events| - 1]);
      StepKeepsDates(Run(Init(), events[..|events| - 1]), events[|events| - 1]);
    }
  }

  // --- Following nextCursor over served pages ---

  function PageOf(s: State, r: RequestId): Page
    requires r in s.requests && s.requests[r].Served?
  {
    s.requests[r].read.page
  }

  /**
   * The requests are getFeed calls of the user that were served, each asking
   * past the cursor the one before it was handed, the first past start.
   */
  ghost predicate Follows(s: State, u: UserId, rs: seq<RequestId>, start: Option<Cursor>) {
    rs == [] ||
    (rs[0] in s.requests && rs[0] in s.calls && s.requests[rs[0]].Served? &&
     s.calls[rs[0]].GetFeed? && s.calls[rs[0]].user == u && s.calls[rs[0]].after == start &&
     (|rs| > 1 ==> PageOf(s, rs[0]).nextCursor.Some?) &&
     Follows(s, u, rs[1..], PageOf(s, rs[0]).nextCursor))
  }

  /** All rows the client is served. */
  ghost function Collected(s: State, u: UserId, rs: seq<RequestId>, start: Option<Cursor>): seq<Row>
    requires Follows(s, u, rs, start)
  {
    if rs == [] then [] else PageOf(s, rs[0]).data + Collected(s, u, rs[1..], PageOf(s, rs[0]).nextCursor)
  }

  /** What the filter of a served request matched, at the moments it read, and the page size it asked for. */
  ghost function FetchOf(s: State, u: UserId, r: RequestId): Fetch
    requires r in s.requests && r in s.calls && s.requests[r].Served? && s.calls[r].GetFeed?
  {
    var read := s.requests[r].read;
    Fetch(FeedFilter(Following(At(s, read.followsAt), u), At(s, read.postsAt).posts), PageSize(s.calls[r].limit))
  }

  ghost function Fetches(s: State, u: UserId, rs: seq<RequestId>, start: Option<Cursor>): (fetches: seq<Fetch>)
    requires Follows(s, u, rs, start)
    ensures |fetches| == |rs|
    ensures ValidSizes(fetches)
  {
    if rs == [] then [] else [FetchOf(s, u, rs[0])] + Fetches(s, u, rs[1..], PageOf(s, rs[0]).nextCursor)
  }

  /** A served page is the page of its fetch, past the cursor of its call. */
  lemma ServedIsFetched(events: seq<Event>, u: UserId, r: RequestId)
    requires var s := Run(Init(), events);
      r in s.requests && r in s.calls && s.requests[r].Served? && s.calls[r].GetFeed? && s.calls[r].user == u
    ensures var s := Run(Init(), events); PageOf(s, r) == PageAt(FetchOf(s, u, r), s.calls[r].after)
  {
    EveryRunIsCoherent(events);
    ReadersServe(events, r);
    var s := Run(Init(), events);
    assert GoodPc(s, s.requests[r]);
  }

  /**
   * In every run the pages served to a client that follows nextCursor, cached
   * or not, whatever happens in between, are the pages of a walk over what its
   * filter matched when each page was read.
   */
  lemma {:induction false} ServedPagesAreAWalk(events: seq<Event>, u: UserId, rs: seq<RequestId>, start: Option<Cursor>)
    requires Follows(Run(Init(), events), u, rs, start)
    ensures var s := Run(Init(), events);
      Collected(s, u, rs, start) == Walk(Fetches(s, u, rs, start), start)
  {
    var s := Run(Init(), events);
    if rs != [] {
      var page, next := PageOf(s, rs[0]), PageOf(s, rs[0]).nextCursor;
      ServedIsFetched(events, u, rs[0]);
      ServedPagesAreAWalk(events, u, rs[1..], next);
      var fetches := Fetches(s, u, rs, start);
      assert fetches[1..] == Fetches(s, u, rs[1..], next);
      if next.None? {
        assert rs[1..] == [];
        assert page.data + [] == page.data;
      }
    }
  }

  /** What a fetch matched carries the dates of the posts' stories. */
  ghost predicate FetchDated(s: State, f: Fetch) {
    forall id :: id in f.matching ==> id in s.stories && f.matching[id].createdAt == s.stories[id].original.createdAt
  }

  lemma FetchIsDated(events: seq<Event>, u: UserId, r: RequestId)
    requires var s := Run(Init(), events);
      r in s.requests && r in s.calls && s.requests[r].Served? && s.calls[r].GetFeed?
    ensures FetchDated(Run(Init(), events), FetchOf(Run(Init(), events), u, r))
  {
    DatesAreKept(events);
    EveryRunIsCoherent(events);
    var s := Run(Init(), events);
    assert GoodPc(s, s.requests[r]);
    assert Dated(s, At(s, s.requests[r].read.postsAt));
  }

  lemma {:induction false} FetchesAreDated(events: seq<Event>, u: UserId, rs: seq<RequestId>, start: Option<Cursor>)
    requires Follows(Run(Init(), events), u, rs, start)
    ensures var s := Run(Init(), events); forall f :: f in Fetches(s, u, rs, start) ==> FetchDated(s, f)
  {
    if rs != [] {
      FetchIsDated(events, u, rs[0]);
      FetchesAreDated(events, u, rs[1..], PageOf(Run(Init(), events), rs[0]).nextCursor);
    }
  }

  lemma DatedIsStable(s: State, fetches: seq<Fetch>)
    requires forall f :: f in fetches ==> FetchDated(s, f)
    ensures StableTimestamps(fetches)
  {
    forall f, g, id | f in fetches && g in fetches && id in f.matching && id in g.matching
      ensures f.matching[id].createdAt == g.matching[id].createdAt
    {
      assert FetchDated(s, f) && FetchDated(s, g);
    }
  }

  /** The last of the requests was handed no further cursor. */
  predicate ReadToTheEnd(s: State, rs: seq<RequestId>) {
    rs != [] &&
    var last := rs[|rs| - 1];
    last in s.requests && s.requests[last].Served? && PageOf(s, last).nextCursor.None?
  }

  lemma {:induction false} LastPageEnds(events: seq<Event>, u: UserId, rs: seq<RequestId>, start: Option<Cursor>)
    requires Follows(Run(Init(), events), u, rs, start) && ReadToTheEnd(Run(Init(), events), rs)
    ensures ReachesEnd(Fetches(Run(Init(), events), u, rs, start), start)
  {
    var s := Run(Init(), events);
    var fetches := Fetches(s, u, rs, start);
    ServedIsFetched(events, u, rs[0]);
    if |rs| > 1 {
      var next := PageOf(s, rs[0]).nextCursor;
      assert rs[1..][|rs[1..]| - 1] == rs[|rs| - 1];
      LastPageEnds(events, u, rs[1..], next);
      assert fetches[1..] == Fetches(s, u, rs[1..], next);
    }
  }

  ghost predicate MatchedByAll(fetches: seq<Fetch>, id: PostId) {
    forall f :: f in fetches ==> id in f.matching
  }

  ghost predicate Shows(rows: seq<Row>, id: PostId) {
    exists i :: 0 <= i < |rows| && rows[i].id == id
  }

  /** Every post that all fetches matched is in the rows, the rows descend, and no post is in them twice. */
  ghost predicate ExactlyOnce(rows: seq<Row>, fetches: seq<Fetch>) {
    && StrictlyDescending(rows)
    && (forall i, j :: 0 <= i < j < |rows| ==> rows[i].id != rows[j].id)
    && (forall id :: MatchedByAll(fetches, id) ==> Shows(rows, id))
  }

  lemma FinishedWalkIsExact(fetches: seq<Fetch>)
    requires ReachesEnd(fetches, None) && ValidSizes(fetches) && StableTimestamps(fetches)
    ensures ExactlyOnce(Walk(fetches, None), fetches)
  {
    var rows := Walk(fetches, None);
    WalkDescends(fetches, None);
    forall i, j | 0 <= i < j < |rows| ensures rows[i].id != rows[j].id { WalkNeverRepeats(fetches, None, i, j); }
    forall id | MatchedByAll(fetches, id) ensures Shows(rows, id) { WalkReturnsExactlyOnce(fetches, id); }
  }

  /**
   * The promise of the feed, end to end: a client that follows nextCursor over
   * the served pages, from the first to one without a next, gets strictly
   * descending rows, no post twice, and every post that each page's filter
   * matched, exactly once.
   */
  lemma FollowingTheFeedReturnsExactlyOnce(events: seq<Event>, u: UserId, rs: seq<RequestId>)
    requires Follows(Run(Init(), events), u, rs, None) && ReadToTheEnd(Run(Init(), events), rs)
    ensures var s := Run(Init(), events); ExactlyOnce(Collected(s, u, rs, None), Fetches(s, u, rs, None))
  {
    var s := Run(Init(), events);
    ServedPagesAreAWalk(events, u, rs, None);
    FetchesAreDated(events, u, rs, None);
    DatedIsStable(s, Fetches(s, u, rs, None));
    LastPageEnds(events, u, rs, None);
    FinishedWalkIsExact(Fetches(s, u, rs, None));
  }
}
