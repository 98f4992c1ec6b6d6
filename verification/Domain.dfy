/** Values shared by the protocol models: identifiers, options and posts. */
module Domain {

  type UserId = nat
  type PostId = nat
  type RequestId = nat

  datatype Option<+T> = None | Some(value: T)

  datatype Visibility = Public | FollowersOnly | Private

  datatype Post = Post(author: UserId, content: string, visibility: Visibility, version: nat, createdAt: int)

  /** The fields an update may set; an absent field is left alone. */
  datatype Patch = Patch(content: Option<string>, visibility: Option<Visibility>)

  type Posts = map<PostId, Post>

  /** The visibility gate: the public may read public posts, followers followers-only posts, authors their own. */
  predicate MayRead(reader: UserId, author: UserId, visibility: Visibility, follows: set<(UserId, UserId)>) {
    visibility.Public? || author == reader || (visibility.FollowersOnly? && (reader, author) in follows)
  }
}
