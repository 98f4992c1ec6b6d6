/**
 * The session repository as an object over its collection, and the services
 * that are sequences of its calls, run without interference. Every call states
 * the whole new collection.
 */
module SessionStore {
  import opened Domain
  import opened Sessions

  type Docs = map<SessionId, Session>

  /** Exactly the matching documents are rewritten: they are revoked at the given time. */
  ghost predicate RevokedWhere(before: Docs, after: Docs, which: set<SessionId>, now: int) {
    after.Keys == before.Keys &&
    forall sid :: sid in before ==> after[sid] == if sid in which then Revoked(before[sid], now) else before[sid]
  }

  predicate Idle(session: Session, cutoff: int) {
    session.revokedAt.None? && session.lastActiveAt < cutoff
  }

  /** The set holds exactly the idle sessions. */
  ghost predicate AreIdle(sids: set<SessionId>, docs: Docs, cutoff: int) {
    forall sid :: sid in sids <==> sid in docs && Idle(docs[sid], cutoff)
  }

  predicate Expired(session: Session, cutoff: int) {
    session.revokedAt.Some? && session.expiresAt < cutoff
  }

  /**
   * The work of a sweep: the idle sessions are revoked now, what is then
   * revoked and expired before the cutoff is gone, all else is as it was.
   */
  ghost predicate Swept(before: Docs, after: Docs, now: int, cutoff: int) {
    && (forall sid :: sid in after ==>
          sid in before &&
          after[sid] == if Idle(before[sid], cutoff) then Revoked(before[sid], now) else before[sid])
    && (forall sid :: sid in before && sid !in after ==>
          before[sid].expiresAt < cutoff && (before[sid].revokedAt.Some? || Idle(before[sid], cutoff)))
    && (forall sid :: sid in after ==> !Expired(after[sid], cutoff))
  }

  /** Exactly the given sessions got a marker written at the given time. */
  ghost predicate MarkedAt(before: map<SessionId, int>, after: map<SessionId, int>, sids: set<SessionId>, now: int) {
    && after.Keys == before.Keys + sids
    && forall sid :: sid in after ==> after[sid] == if sid in sids then now else before[sid]
  }

  /** Exactly the revoked sessions that expired before the cutoff are gone. */
  ghost predicate KeptUnexpired(before: Docs, after: Docs, cutoff: int) {
    && (forall sid :: sid in after <==> sid in before && !Expired(before[sid], cutoff))
    && (forall sid :: sid in after ==> after[sid] == before[sid])
  }

  /** Revoking the idle and deleting the expired, one call after the other, is a sweep. */
  lemma SweepInTwoSteps(before: Docs, mid: Docs, after: Docs, matched: set<SessionId>, now: int, cutoff: int)
    requires AreIdle(matched, before, cutoff)
    requires RevokedWhere(before, mid, matched, now)
    requires KeptUnexpired(mid, after, cutoff)
    ensures Swept(before, after, now, cutoff)
  {
    forall sid | sid in before && sid !in after
      ensures before[sid].expiresAt < cutoff && (before[sid].revokedAt.Some? || Idle(before[sid], cutoff))
    {
      assert Expired(mid[sid], cutoff);
    }
  }

  /**
   * After a sweep every session is live and active since the cutoff, or
   * revoked and not yet expired by it; sessions live and active since the
   * cutoff are untouched; no session came back to life.
   */
  lemma SweepLeavesTheActive(before: Docs, after: Docs, now: int, cutoff: int, sid: SessionId)
    requires Swept(before, after, now, cutoff)
    ensures sid in after ==>
      if after[sid].revokedAt.None? then after[sid].lastActiveAt >= cutoff else after[sid].expiresAt >= cutoff
    ensures sid in before && before[sid].revokedAt.None? && before[sid].lastActiveAt >= cutoff ==>
      sid in after && after[sid] == before[sid]
    ensures sid in after && sid in before && before[sid].revokedAt.Some? ==> after[sid] == before[sid]
  {
    assert sid in after ==> sid in before && !Expired(after[sid], cutoff);
  }

  class SessionRepository {
    var docs: Docs
    /** When each revocation marker was last written. */
    var markers: map<SessionId, int>

    constructor ()
      ensures docs == map[] && markers == map[]
    {
      docs, markers := map[], map[];
    }

    /** Compare-and-set on the stored hash; a revoked session still rotates, and stays revoked. */
    method RotateIfCurrent(sid: SessionId, currentHash: Hash, nextHash: Hash, expiresAt: int, now: int)
      returns (found: Option<Session>)
      modifies this`docs
      ensures found.Some? <==> sid in old(docs) && old(docs)[sid].hash == currentHash
      ensures found.None? ==> docs == old(docs)
      ensures found.Some? ==>
        && docs == old(docs)[sid := found.value]
        && found.value == Session(old(docs)[sid].user, nextHash, now, expiresAt, old(docs)[sid].revokedAt)
    {
      if sid in docs && docs[sid].hash == currentHash {
        var next := docs[sid].(hash := nextHash, expiresAt := expiresAt, lastActiveAt := now);
        docs := docs[sid := next];
        return Some(next);
      }
      return None;
    }

    method Revoke(sid: SessionId, now: int)
      modifies this`docs
      ensures docs == if sid in old(docs) then old(docs)[sid := old(docs)[sid].(revokedAt := Some(now))] else old(docs)
    {
      if sid in docs {
        docs := docs[sid := docs[sid].(revokedAt := Some(now))];
      }
    }

    /** Find the live sessions of the user, then revoke those found. */
    method RevokeAllByUser(user: UserId, now: int) returns (matched: set<SessionId>)
      modifies this`docs
      ensures matched == set sid | sid in old(docs) && old(docs)[sid].user == user && old(docs)[sid].revokedAt.None?
      ensures RevokedWhere(old(docs), docs, matched, now)
      ensures forall sid :: sid in docs && docs[sid].user == user ==> docs[sid].revokedAt.Some?
    {
      matched := set sid | sid in docs && docs[sid].user == user && docs[sid].revokedAt.None?;
      if matched != {} {
        docs := map sid | sid in docs ::
          if sid in matched && docs[sid].revokedAt.None? then Revoked(docs[sid], now) else docs[sid];
      }
    }

    method SweepInactive(idleBefore: int, now: int) returns (matched: set<SessionId>)
      modifies this`docs
      ensures AreIdle(matched, old(docs), idleBefore)
      ensures RevokedWhere(old(docs), docs, matched, now)
    {
      matched := set sid | sid in docs && docs[sid].revokedAt.None? && docs[sid].lastActiveAt < idleBefore;
      if matched != {} {
        docs := map sid | sid in docs ::
          if sid in matched && docs[sid].revokedAt.None? then Revoked(docs[sid], now) else docs[sid];
      }
    }

    method DeleteExpired(cutoff: int) returns (deleted: nat)
      modifies this`docs
      ensures KeptUnexpired(old(docs), docs, cutoff)
      ensures deleted == |old(docs).Keys - docs.Keys|
    {
      var gone := set sid | sid in docs && docs[sid].revokedAt.Some? && docs[sid].expiresAt < cutoff;
      docs := map sid | sid in docs && sid !in gone :: docs[sid];
      assert gone == old(docs).Keys - docs.Keys;
      deleted := |gone|;
    }

    method MarkSessionsRevoked(sids: set<SessionId>, now: int)
      modifies this`markers
      ensures MarkedAt(old(markers), markers, sids, now)
    {
      markers := map sid | sid in markers.Keys + sids :: if sid in sids then now else markers[sid];
    }

    /**
     * The sweep, alone: it leaves the collection Swept; the idle sessions,
     * exactly, are marked; and it counts what it revoked and what it deleted.
     */
    method SweepInactiveSessions(now: int, idleTtl: nat)
      returns (revoked: nat, deleted: nat, ghost matched: set<SessionId>)
      modifies this
      ensures AreIdle(matched, old(docs), now - idleTtl)
      ensures Swept(old(docs), docs, now, now - idleTtl)
      ensures MarkedAt(old(markers), markers, matched, now)
      ensures revoked == |matched| && deleted == |old(docs).Keys - docs.Keys|
    {
      var cutoff := now - idleTtl;
      var ids := SweepInactive(cutoff, now);
      matched := ids;
      MarkSessionsRevoked(ids, now);
      ghost var swept := docs;
      deleted := DeleteExpired(cutoff);
      revoked := |ids|;
      SweepInTwoSteps(old(docs), swept, docs, matched, now, cutoff);
    }
  }
}
