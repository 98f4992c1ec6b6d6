/** The invalidation loop of the feed service, as it runs. */
module FeedInvalidation {
  import opened Domain
  import opened FeedProtocol

  // --- The invalidation loop ---

  /** The stores after the loop of invalidateFollowerFeedCaches has gone through the ids. */
  function BumpAll(s: State, ids: seq<UserId>): State {
    if ids == [] then s else Apply(BumpAll(s, ids[..|ids| - 1]), Incr(ids[|ids| - 1]))
  }

  /** Every listed follower is bumped once per listing, nobody else is, and nothing else changes. */
  lemma {:induction false} BumpAllIsExact(s: State, ids: seq<UserId>, u: UserId)
    ensures Version(BumpAll(s, ids), u) == Version(s, u) + multiset(ids)[u]
    ensures BumpAll(s, ids).(bumps := s.bumps) == s
  {
    if ids != [] {
      var n := |ids| - 1;
      assert ids == ids[..n] + [ids[n]];
      BumpAllIsExact(s, ids[..n], u);
    }
  }

  class FeedService {
    var stores: State

    constructor ()
      ensures stores == Init()
    {
      stores := Init();
    }

    /** The version of the user rises by one; no other version and nothing else in the stores changes. */
    method BumpFeedVersion(u: UserId)
      modifies this
      ensures stores == Apply(old(stores), Incr(u))
      ensures Version(stores, u) == Version(old(stores), u) + 1
      ensures forall v :: v != u ==> Version(stores, v) == Version(old(stores), v)
      ensures stores.db == old(stores).db && stores.cache == old(stores).cache &&
        stores.requests == old(stores).requests
    {
      stores := Apply(stores, Incr(u));
    }

    /** The for-loop over the follower listing, run without interference. */
    method InvalidateFollowerFeedCaches(followerIds: seq<UserId>)
      modifies this
      ensures stores == BumpAll(old(stores), followerIds)
      ensures forall u :: Version(stores, u) == Version(old(stores), u) + multiset(followerIds)[u]
    {
      ghost var start := stores;
      var i := 0;
      while i < |followerIds|
        invariant 0 <= i <= |followerIds|
        invariant stores == BumpAll(start, followerIds[..i])
      {
        assert followerIds[..i + 1][..i] == followerIds[..i];
        BumpFeedVersion(followerIds[i]);
        i := i + 1;
      }
      assert followerIds[..i] == followerIds;
      forall u { BumpAllIsExact(start, followerIds, u); }
    }
  }
}
