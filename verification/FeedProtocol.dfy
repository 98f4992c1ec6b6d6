/**
 * The personalised feed as a shared-state protocol. Every await on a store is
 * one atomic step; a run is any sequence of events, so requests interleave
 * freely. Readers go through the version-keyed read-through cache; writers
 * change the database first and bump follower versions later, one by one.
 */
module FeedProtocol {
  import opened Domain
  import opened Pagination

  // --- The database and the query behind a feed page ---

  datatype Db = Db(follows: set<(UserId, UserId)>, posts: Posts)

  function Following(db: Db, u: UserId): set<UserId> {
    set e | e in db.follows && e.0 == u :: e.1
  }

  function Followers(db: Db, author: UserId): set<UserId> {
    set e | e in db.follows && e.1 == author :: e.0
  }

  predicate FeedVisible(v: Visibility) {
    v == Public || v == FollowersOnly
  }

  function FeedFilter(authors: set<UserId>, posts: Posts): Posts {
    map id | id in posts && posts[id].author in authors && FeedVisible(posts[id].visibility) :: posts[id]
  }

  datatype Key = Key(user: UserId, version: nat, size: nat, after: Option<Cursor>)

  ghost function Query(key: Key, authors: set<UserId>, posts: Posts): Page {
    FindManyCursor(FeedFilter(authors, posts), key.size, key.after)
  }

  /** The page the database alone would produce now. */
  ghost function Uncached(db: Db, key: Key): Page {
    Query(key, Following(db, key.user), db.posts)
  }

  // --- Requests ---

  datatype Call =
    | GetFeed(user: UserId, limit: Option<int>, after: Option<Cursor>)
    | CreatePost(id: PostId, author: UserId, content: string, visibility: Visibility, createdAt: int)
    | UpdatePost(id: PostId, caller: UserId, expected: nat, patch: Patch)
    | DeletePost(id: PostId, caller: UserId)
    | Follow(follower: UserId, followee: UserId, followeeExists: bool)
    | Unfollow(follower: UserId, followee: UserId)

  datatype Reply =
    | Created(id: PostId) | Updated(id: PostId, version: nat) | Deleted(id: PostId)
    | Followed | Unfollowed
    | NotFound | OwnershipRequired | Conflict | SelfFollow

  /** A computed page, with the database moments its two reads saw. */
  datatype Read = Read(page: Page, followsAt: nat, postsAt: nat)

  /** Where a request stands; each value names the store call it makes next. */
  datatype Pc =
    | Started(call: Call)
    | ProbeCache(key: Key)
    | ReadFollowing(key: Key)
    | ReadPosts(key: Key, authors: set<UserId>, followsAt: nat)
    | WriteCache(key: Key, read: Read)
    | Served(key: Key, read: Read)
    | UpdateChecked(id: PostId, caller: UserId, expected: nat, patch: Patch)
    | DeleteChecked(id: PostId, caller: UserId)
    | FollowChecked(follower: UserId, followee: UserId)
    | FanoutTimelines(author: UserId, reply: Reply)
    | ListFollowers(author: UserId, reply: Reply)
    | Bumping(remaining: seq<UserId>, reply: Reply)
    | Answered(reply: Reply)

  /** A successful update of a post, and the history of one post. */
  datatype Win = Win(writer: RequestId, patch: Patch)
  datatype Story = Story(original: Post, wins: seq<Win>)

  /**
   * past, calls, stories and the moments in bumps are history: no step reads them.
   * The counter of a user is the number of INCRs recorded in bumps, each with
   * the database moment it happened at; a missing counter reads as 0.
   */
  datatype State = State(
    past: seq<Db>,
    db: Db,
    bumps: map<UserId, seq<nat>>,
    cache: map<Key, Read>,
    requests: map<RequestId, Pc>,
    calls: map<RequestId, Call>,
    stories: map<PostId, Story>)

  function Init(): State {
    State([], Db({}, map[]), map[], map[], map[], map[], map[])
  }

  /** The database at moment i; the present is moment |past|. */
  function At(s: State, i: nat): Db {
    if i < |s.past| then s.past[i] else s.db
  }

  function Bumps(s: State, u: UserId): seq<nat> {
    if u in s.bumps then s.bumps[u] else []
  }

  function Version(s: State, u: UserId): nat {
    |Bumps(s, u)|
  }

  /** The moment at which the counter of u reached version v. */
  function Born(s: State, u: UserId, v: nat): nat {
    if 0 < v <= Version(s, u) then Bumps(s, u)[v - 1] else 0
  }

  // --- Steps ---

  /**
   * Begin accepts a request under a fresh id; Advance lets a request make its
   * next store call, listed being the order in which a follower listing comes
   * back; Evict is the cache TTL.
   */
  datatype Event =
    | Begin(r: RequestId, call: Call)
    | Advance(r: RequestId, listed: seq<UserId>)
    | Evict(key: Key)

  /** What a single store call changes. */
  datatype Effect =
    | Pure
    | Insert(id: PostId, post: Post)
    | Modify(id: PostId, patch: Patch, writer: RequestId)
    | Remove(id: PostId)
    | Link(follower: UserId, followee: UserId)
    | Unlink(follower: UserId, followee: UserId)
    | Incr(user: UserId)
    | Fill(key: Key, read: Read)

  datatype Move = Move(effect: Effect, next: Pc)

  function Patched(p: Post, patch: Patch): Post {
    p.(content := if patch.content.Some? then patch.content.value else p.content,
       visibility := if patch.visibility.Some? then patch.visibility.value else p.visibility,
       version := p.version + 1)
  }

  function Commit(s: State, db: Db, stories: map<PostId, Story>): State {
    s.(past := s.past + [s.db], db := db, stories := stories)
  }

  function Apply(s: State, effect: Effect): State {
    match effect
    case Pure => s
    case Insert(id, post) =>
      Commit(s, s.db.(posts := s.db.posts[id := post]), s.stories[id := Story(post, [])])
    case Modify(id, patch, writer) =>
      if id in s.db.posts && id in s.stories then
        Commit(s, s.db.(posts := s.db.posts[id := Patched(s.db.posts[id], patch)]),
               s.stories[id := s.stories[id].(wins := s.stories[id].wins + [Win(writer, patch)])])
      else s
    case Remove(id) => Commit(s, s.db.(posts := s.db.posts - {id}), s.stories)
    case Link(f, g) => Commit(s, s.db.(follows := s.db.follows + {(f, g)}), s.stories)
    case Unlink(f, g) => Commit(s, s.db.(follows := s.db.follows - {(f, g)}), s.stories)
    case Incr(u) => s.(bumps := s.bumps[u := Bumps(s, u) + [|s.past|]])
    case Fill(key, read) => s.(cache := s.cache[key := read])
  }

  /** The first store call of a request. */
  function StartMove(s: State, r: RequestId, call: Call): Move {
    match call
    case GetFeed(u, limit, after) => Move(Pure, ProbeCache(Key(u, Version(s, u), PageSize(limit), after)))
    case CreatePost(id, author, content, visibility, createdAt) =>
      if id in s.stories then Move(Pure, Started(call))
      else Move(Insert(id, Post(author, content, visibility, 0, createdAt)), FanoutTimelines(author, Created(id)))
    case UpdatePost(id, caller, expected, patch) =>
      Move(Pure, if id !in s.db.posts then Answered(NotFound)
                 else if s.db.posts[id].author != caller then Answered(OwnershipRequired)
                 else UpdateChecked(id, caller, expected, patch))
    case DeletePost(id, caller) =>
      Move(Pure, if id !in s.db.posts then Answered(NotFound)
                 else if s.db.posts[id].author != caller then Answered(OwnershipRequired)
                 else DeleteChecked(id, caller))
    case Follow(follower, followee, followeeExists) =>
      Move(Pure, if follower == followee then Answered(SelfFollow)
                 else if !followeeExists then Answered(NotFound)
                 else FollowChecked(follower, followee))
    case Unfollow(follower, followee) =>
      if (follower, followee) !in s.db.follows then Move(Pure, Answered(NotFound))
      else Move(Unlink(follower, followee), Bumping([follower], Unfollowed))
  }

  ghost function NextMove(s: State, r: RequestId, pc: Pc, listed: seq<UserId>): Move {
    match pc
    case Started(call) => StartMove(s, r, call)
    case ProbeCache(key) =>
      Move(Pure, if key in s.cache then Served(key, s.cache[key]) else ReadFollowing(key))
    case ReadFollowing(key) => Move(Pure, ReadPosts(key, Following(s.db, key.user), |s.past|))
    case ReadPosts(key, authors, followsAt) =>
      Move(Pure, WriteCache(key, Read(Query(key, authors, s.db.posts), followsAt, |s.past|)))
    case WriteCache(key, read) => Move(Fill(key, read), Served(key, read))
    case UpdateChecked(id, caller, expected, patch) =>
      if id in s.db.posts && s.db.posts[id].version == expected
      then Move(Modify(id, patch, r), ListFollowers(caller, Updated(id, expected)))
      else Move(Pure, Answered(Conflict))
    case DeleteChecked(id, caller) => Move(Remove(id), ListFollowers(caller, Deleted(id)))
    case FollowChecked(follower, followee) =>
      if (follower, followee) in s.db.follows then Move(Pure, Answered(Conflict))
      else Move(Link(follower, followee), Bumping([follower], Followed))
    case FanoutTimelines(author, reply) => Move(Pure, ListFollowers(author, reply))
    case ListFollowers(author, reply) =>
      Move(Pure, if (set u | u in listed) == Followers(s.db, author) then Bumping(listed, reply) else pc)
    case Bumping(remaining, reply) =>
      if remaining == [] then Move(Pure, Answered(reply))
      else Move(Incr(remaining[0]), Bumping(remaining[1..], reply))
    case Served(_, _) => Move(Pure, pc)
    case Answered(_) => Move(Pure, pc)
  }

  ghost function Make(s: State, r: RequestId, m: Move): State {
    var s' := Apply(s, m.effect);
    s'.(requests := s'.requests[r := m.next])
  }

  ghost function Step(s: State, e: Event): State {
    match e
    case Begin(r, call) =>
      if r in s.requests then s else s.(requests := s.requests[r := Started(call)], calls := s.calls[r := call])
    case Advance(r, listed) =>
      if r in s.requests then Make(s, r, NextMove(s, r, s.requests[r], listed)) else s
    case Evict(key) => s.(cache := s.cache - {key})
  }

  ghost function Run(s: State, events: seq<Event>): State {
    if events == [] then s else Step(Run(s, events[..|events| - 1]), events[|events| - 1])
  }

  /** The answer a request has, or is about to give once it has invalidated what it must. */
  function ReplyOf(pc: Pc): Option<Reply> {
    match pc
    case FanoutTimelines(_, reply) => Some(reply)
    case ListFollowers(_, reply) => Some(reply)
    case Bumping(_, reply) => Some(reply)
    case Answered(reply) => Some(reply)
    case _ => None
  }

  // --- What a step changes ---

  lemma MoveShape(s: State, r: RequestId, m: Move)
    ensures var s' := Make(s, r, m);
      && s'.requests == s.requests[r := m.next]
      && s'.calls == s.calls
      && s'.cache == (if m.effect.Fill? then s.cache[m.effect.key := m.effect.read] else s.cache)
      && (forall u :: Bumps(s', u) == if m.effect == Incr(u) then Bumps(s, u) + [|s.past|] else Bumps(s, u))
  {
    ApplyShape(s, m.effect);
  }

  lemma ApplyShape(s: State, effect: Effect)
    ensures var s' := Apply(s, effect);
      && s'.requests == s.requests && s'.calls == s.calls
      && s'.cache == (if effect.Fill? then s.cache[effect.key := effect.read] else s.cache)
      && (forall u :: Bumps(s', u) == if effect == Incr(u) then Bumps(s, u) + [|s.past|] else Bumps(s, u))
  {
    match effect
    case Incr(u) =>
    case Fill(_, _) =>
    case _ => assert Apply(s, effect).bumps == s.bumps;
  }
}
