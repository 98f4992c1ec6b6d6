/** What a user's feed contains, over the runs of the feed protocol. */
module FeedContents {
  import opened Domain
  import opened Pagination
  import opened FeedProtocol

  // --- The feed shows exactly the readable posts of followed authors ---

  ghost predicate NobodyFollowsThemselves(s: State) {
    && (forall e :: e in s.db.follows ==> e.0 != e.1)
    && (forall r :: r in s.requests && s.requests[r].FollowChecked? ==>
          s.requests[r].follower != s.requests[r].followee)
  }

  lemma StepKeepsFollowsIrreflexive(s: State, e: Event)
    requires NobodyFollowsThemselves(s)
    ensures NobodyFollowsThemselves(Step(s, e))
  {
    if e.Advance? && e.r in s.requests {
      var m := NextMove(s, e.r, s.requests[e.r], e.listed);
      MoveShape(s, e.r, m);
      assert m.next.FollowChecked? ==> m.next.follower != m.next.followee;
      assert m.effect.Link? ==> m.effect.follower != m.effect.followee;
      var added := if m.effect.Link? then {(m.effect.follower, m.effect.followee)} else {};
      assert Step(s, e).db.follows <= s.db.follows + added;
    }
  }

  lemma {:induction false} RunKeepsFollowsIrreflexive(s: State, events: seq<Event>)
    requires NobodyFollowsThemselves(s)
    ensures NobodyFollowsThemselves(Run(s, events))
  {
    if events != [] {
      RunKeepsFollowsIrreflexive(s, events[..|events| - 1]);
      StepKeepsFollowsIrreflexive(Run(s, events[..|events| - 1]), events[|events| - 1]);
    }
  }

  /**
   * In every reachable state the uncached pages of a user, with any page
   * sizes, together hold exactly the posts by authors they follow that the
   * visibility gate lets them read, each with its current content.
   */
  lemma FeedIsTheReadablePostsOfFollowees(events: seq<Event>, u: UserId, fetches: seq<Fetch>, row: Row)
    requires var s := Run(Init(), events);
      forall f :: f in fetches ==> f.matching == FeedFilter(Following(s.db, u), s.db.posts)
    requires ValidSizes(fetches) && ReachesEnd(fetches, None)
    ensures var s := Run(Init(), events);
      row in Walk(fetches, None) <==>
        row.id in s.db.posts && s.db.posts[row.id] == row.post &&
        (u, row.post.author) in s.db.follows && MayRead(u, row.post.author, row.post.visibility, s.db.follows)
  {
    var s := Run(Init(), events);
    RunKeepsFollowsIrreflexive(Init(), events);
    var shown := FeedFilter(Following(s.db, u), s.db.posts);
    WalkOfFixedCollection(fetches, shown, None);
    assert Remaining(shown, None) == shown;
    SortedLists(shown);
    assert row in Walk(fetches, None) <==> Holds(shown, row);
    assert row.post.author in Following(s.db, u) <==> (u, row.post.author) in s.db.follows by {
      assert (u, row.post.author).0 == u;
    }
  }
}
