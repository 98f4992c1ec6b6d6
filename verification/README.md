# Verification model of the social API

The repository is a social API (accounts, posts, follows, comments,
notifications) over two shared stores, a document database and Redis. Its
interesting logic is a handful of protocols in which requests interleave at
every `await` on a store, and a few sequential algorithms beside them. This
project models those protocols and algorithms and proves what they are for.

`dafny verify dfyconfig.toml` checks everything.

## How the protocols are modelled

Each store call is one atomic step. A request is a small program counter whose
value names the store call it makes next; a run is any sequence of events
(accept a request, let a request make its next call, let time pass, let an
entry lapse), so a theorem about `Run(Init(), events)` holds for every
interleaving of every set of requests, including requests that stop for ever.
Fields called history in a state record what happened; no step reads them.

| module | what it models | transition functions |
|---|---|---|
| Pagination | the keyset page query and a client following `nextCursor` while posts come and go | `FindManyCursor`, `Walk` |
| FeedProtocol, FeedCache, FeedWalk, PostUpdates, FeedReplies, FeedContents, FeedInvalidation | the version-keyed feed cache against post and follow writers; a client that reads its feed page by page; optimistic locking of posts; what answers mean; what a feed shows; the bump loop | `StartMove`, `NextMove`, `Apply` |
| Base64Url, Utf, Json, CursorCodec, CursorFormats, Keys | the cursor as text and the cache key | `EncodeCursor`, `DecodeCursor`, `CacheKey` |
| Sessions, SessionOwners, ReuseDetection, RefreshOutcomes, Revocation, RevocationLookup, SessionSweep, SessionStore, AccessGate, GoodTokens, SessionRaces | the session protocol and its chains of refresh tokens; whose sessions a request acts on; reuse; what a refresh is answered; revocation from the call to its answer, and exactly what it ends; lifetimes and deletion; the repository as an object; the acceptance decision and the lifetimes of markers and blacklist entries; that good tokens get through; runs that show where the promises end | `StartMove`, `NextMove`, `Apply`, `Authenticate` |
| Idempotency | claim, execute, capture, replay | `FirstPc`, `Next`, `Capture`, `Replay` |
| Notifications, DeliveryOutcomes, InlineRunner | delivery against a unique index under retries and crashes; what a notification says; the retry loop and the dead-letter buffer | `Decide`, `Make`, `RunInline` |
| Comments, CommentOutcomes | idempotent creation, one notification per comment, the parent relation; when a comment is made | `Next` |
| MemoryRedis | the in-memory Redis with its timers, as a deadline store | `MemoryClient` |
| Resolver, References, ReferenceCycles | the multi-file `$ref` resolver with its file cache; what the text of a reference says; which contracts it resolves | `Resolve`, `ContractResolver` |

### How the feed cache argument goes

A cached page is keyed by the user's version, and writers bump that version
only after they have changed the database, follower by follower. Three
invariants hold in every reachable state: the author of a post never changes
(so the followers that will be listed are those who see the post); the user's
view stands still from the moment of their last bump unless some request still
owes them one; and every cached or computed page was read after its version was
born. Together they give `CacheNeverStale` and `QuietFeedIsExact`.

### What the proofs show beyond the promises

- A token of a marked session is refused for ever if and only if it is
  blacklisted, expired, or minted no later than the marker covers
  (`MarkedTokenIsRefusedIff`): for lifetimes of whole seconds, in a second that
  had begun when the marker was written. A refresh that has passed its checks
  when a revocation starts can mint later than that; its access token is then
  accepted on the dead session (`RacingRefreshOutlivesTheMarker`), although the
  service comment promises immediate rejection. Its refresh token is dead
  (`RevocationIsPermanent`).
- A request that verifies a covered token before its expiry and reads the marker
  after the marker lapsed passes (`StraddlingRequestPasses`); this is the only
  gap (`OnlyStraddlingRequestsPass`). The blacklist has none, because it is read
  first (`LoggedOutTokenIsRefusedForEver`).
- `rotateIfCurrent` does not look at `revokedAt`, so a refresh that races with
  a revocation rotates a revoked session (`RacingRefreshOutlivesTheMarker`). The
  session stays revoked.
- `revokeAllByUser` is described as atomic but looks up and updates in two
  calls: it ends exactly the sessions of its lookup (`GlobalRevocationIsExact`),
  and a session opened in between survives (`LateSessionSurvives`).
- `sweepInactive` likewise ends exactly the sessions that were idle when it
  looked (`SweepRevokesOnlyTheIdle`), so one that is refreshed in between is
  revoked while active (`RefreshedSessionIsSwept`).
- The memory store loses a lifetime above 2147483 seconds after a millisecond,
  since a timer cannot hold it (`LifetimeIsKeptIff`).
- Unauthenticated clients are told apart by address. Two identities can reach
  one idempotency entry if and only if one is the other, a colon and more, within
  the length a key may have (`IdentitiesShareIff`); user ids never are, two IPv6
  addresses can be (`ColonIdentitiesCanCollide`).
- A property named `$ref` that holds no string is left in a resolved contract
  (`NonStringRefStays`).

## Model

| member | source | states |
|---|---|---|
| Pagination.PageIsExact | backend/src/repositories/implementations/mongoose/post.repository.js:116-142 | a page holds the newest matching rows strictly past the cursor, in strictly descending order, at most limit of them; there is a next page iff more remain, and its cursor is the position of the last row |
| Pagination.SortedIsUnique | backend/src/repositories/implementations/mongoose/post.repository.js:126-131 | the order (createdAt desc, _id desc) leaves only one listing of a collection |
| Pagination.WalkDescends | backend/src/repositories/implementations/mongoose/post.repository.js:105-110 | however the collection changes between pages, what a client collects by following nextCursor is strictly descending |
| Pagination.WalkIsSound | backend/src/repositories/implementations/mongoose/post.repository.js:116-142 | every collected row was returned by one of the fetches the walk makes, after the cursor it makes it with, and is a post that matched when that page was read |
| Pagination.WalkNeverRepeats | backend/src/repositories/implementations/mongoose/post.repository.js:105-110 | no post is returned twice, under any inserts and deletes between pages |
| Pagination.WalkSkipsNothing | backend/src/repositories/implementations/mongoose/post.repository.js:105-110 | a post that matches throughout and lies past the cursor is returned |
| Pagination.WalkReturnsExactlyOnce | backend/src/service/feed.service.js:128-135 | a finished walk from the start, with any page sizes of at least one, returns every post that matched throughout exactly once |
| Pagination.WalkOfFixedCollection | backend/src/repositories/implementations/mongoose/post.repository.js:116-142 | on a standing collection the pages concatenate to the whole sorted feed |
| Pagination.WalkEnds | backend/src/repositories/implementations/mongoose/post.repository.js:132-141 | on a standing collection the walk ends within one page more than there are posts left |
| Pagination.PageSize | backend/src/service/feed.service.js:142 | the page size is the one asked for when that is between 1 and 50, the nearer of those bounds when it is not, and 20 when none or zero was asked for |
| FeedCache.MovesAreAccountable | backend/src/service/post.service.js:17-70 | every write is followed by the invalidation it owes: a post write by listing the followers of the post's author, a follow write by bumping the follower, a bump loop forgets exactly the user it bumped |
| FeedCache.EveryRunIsCoherent | backend/src/service/feed.service.js:65-178 | in every run authors are kept, the view of a user stands still since their last bump unless one is pending, and every page was read after its version was born |
| FeedCache.CacheNeverStale | backend/src/service/feed.service.js:65-178 | in every interleaving an entry under a user's current version is what the database would compute now, unless a bump for the user is pending: the page, of the size and past the cursor of the key, of the visible posts by those the user follows |
| FeedCache.ServedPageIsNoOlderThanItsRequest | backend/src/service/feed.service.js:141-178 | a page served, hit or miss, is the page of the size and past the cursor asked for, of the visible posts at one database moment by those followed at another, both no older than the last bump before the request read the version; with no bump pending then, neither moment shows the user anything older than the database at that point |
| FeedCache.QuietFeedIsExact | backend/src/service/feed.service.js:141-178 | a getFeed that overlaps no unfinished change of what its user sees returns exactly the page, of the size and past the cursor asked for, that the database holds for the user at its start and at its end |
| FeedWalk.ServedPagesAreAWalk | backend/src/service/feed.service.js:141-178 | in every run, what a client collects by passing each served cursor to its next getFeed, from the cache or not, is the walk over the posts its filter matched when each page was read |
| FeedWalk.FollowingTheFeedReturnsExactlyOnce | backend/src/service/feed.service.js:128-178 | a client that follows the served cursors from the first page to one without a next gets strictly descending rows, no post twice, and every post that matched whenever one of its pages was read exactly once, whatever is written in between |
| FeedWalk.ReadersAreServed | backend/src/service/feed.service.js:141-178 | in every interleaving a getFeed has been served after five store calls of its own |
| FeedWalk.TheNextReaderIsServedTheSame | backend/src/service/feed.service.js:149-177 | of two requests that ask for the same uncached page the second, coming after the first was served, is served from the cache the very page the first computed, the page of the moment |
| FeedWalk.MissesFillTheCache | backend/src/service/feed.service.js:162-177 | a miss nobody interrupts is served the page of the moment and leaves exactly that in the cache |
| PostUpdates.VersionsAreConsumedOnce | backend/src/repositories/implementations/mongoose/post.repository.js:43-51 | each version of a post is consumed by exactly one request, and it is that request's own update |
| PostUpdates.NoLostUpdates | backend/src/service/post.service.js:38-56 | in every interleaving a stored post is the fold of its winners' partial updates in version order, and its version is their number |
| PostUpdates.StoredFieldsAreTheLatest | backend/src/service/post.service.js:38-56 | in every run the content and the visibility of a stored post are those of the latest successful update that set them, or as created when none did; author and creation date never change |
| FeedReplies.ReportedChangesWereMade | backend/src/service/post.service.js:17-70 | in every run whoever is answered that it created, updated or deleted a post, or began or ceased to follow, made in one of its own steps exactly the change its call asked for, field by field, and no other: the post or the edge was not there before, or was |
| FeedReplies.WritersDoAsAsked | backend/src/service/post.service.js:17-70 | in every reachable state a writer nobody interrupts makes its change iff the post is there, is its own and has the version expected, or the edge is to be made or removed, and is otherwise told which of these failed while nothing changes |
| FeedContents.RunKeepsFollowsIrreflexive | backend/src/service/follow.service.js:30-48 | in every run nobody follows themselves, with self-follow checks pending at any moment |
| FeedContents.FeedIsTheReadablePostsOfFollowees | backend/src/service/feed.service.js:162-167 | in every reachable state the uncached pages hold exactly the posts by followed authors that the visibility gate of the comment service would let the user read |
| FeedInvalidation.BumpAllIsExact | backend/src/service/feed.service.js:78-90 | the loop raises a version by the number of times its user is listed and changes nothing else |
| FeedInvalidation.FeedService.BumpFeedVersion | backend/src/service/feed.service.js:65-71 | the version of the user rises by one; no other version changes, nor do the database, the cache or any request |
| FeedInvalidation.FeedService.InvalidateFollowerFeedCaches | backend/src/service/feed.service.js:78-90 | the for-loop over the listing bumps every listed follower once per listing and nobody else |
| Base64Url.DecodeUndoesEncode | backend/src/service/feed.service.js:14-19 | any bytes come back from their unpadded base64url text, padding added or not |
| Base64Url.LengthIsNeverOneMore | backend/src/service/feed.service.js:148 | no base64url text has a length of one more than a multiple of four, so none is the word start |
| CursorFormats.LettersAreTheAlphabet | backend/src/service/feed.service.js:13-14 | the digits are the 64 letters of the URL-safe alphabet of RFC 4648, in its order |
| Utf.BufferKeepsWellFormedText | backend/src/service/feed.service.js:14-19 | UTF-16 text without unpaired surrogates survives being made into UTF-8 bytes and read back |
| Json.ParseUndoesStringify | backend/src/service/feed.service.js:14-19 | JSON.parse gives back every record of strings that JSON.stringify printed, whatever code units the strings hold |
| Json.StringifyIsWellFormed | backend/src/service/feed.service.js:14 | the printed text has no unpaired surrogate, even for strings that have |
| CursorCodec.CursorRoundTrips | backend/src/repositories/implementations/mongoose/post.repository.js:135-140 | the cursor the repository prints decodes in the feed service to the same two strings and prints again as the identical text, whatever the strings hold, also when a client padded it |
| CursorCodec.CursorTextsAreDistinct | backend/src/service/feed.service.js:13-14 | two positions have the same text iff they are the same |
| CursorCodec.StartIsNoCursor | backend/src/service/feed.service.js:148 | no cursor text is the word that stands for the first page |
| CursorCodec.CacheKeysAreSeparate | backend/src/service/feed.service.js:147-148 | cache keys are equal iff user, version, page size and position are |
| CursorFormats.CursorTextIsItsJson | backend/src/repositories/implementations/mongoose/post.repository.js:135-140 | for dates and ids in printable ASCII the text of a cursor is the base64url of the codes of its JSON, createdAt first and without spaces |
| CursorFormats.IncompleteRecordsAreNoCursor | backend/src/service/feed.service.js:16-27 | a record of strings that lacks either part is read as no cursor |
| Sessions.StoredHashesFormAChain | backend/src/repositories/implementations/mongoose/session.repository.js:40-48 | the hashes a session ever stored form one never-repeating chain of exactly the tokens handed out for it, whose tail is the stored hash |
| Sessions.OnlyTheTailRotates | backend/src/repositories/implementations/mongoose/session.repository.js:40-48 | a stored hash changes only when a request holding the tail's token rotates it, and the chain grows by exactly the new hash |
| Sessions.TokensAreExchangedAtMostOnce | backend/src/service/auth.service.js:136-165 | in every interleaving at most one request is answered new tokens for a refresh token |
| SessionOwners.TokensBelongToTheirSession | backend/src/service/auth.service.js:30-42 | the access and the refresh token of one answer carry the same session and user, the session was opened for that user, and after a refresh they are those of the presented token |
| SessionOwners.RevocationsAreWarranted | backend/src/service/session.service.js:99-138 | in every run a request revokes only its user's sessions, the one session named and owned by its user, the session of the genuine token it logs out with, or sessions of the owner of the genuine token it refreshes with |
| ReuseDetection.ReadTellsReuse | backend/src/service/auth.service.js:118-146 | a request that reads a live session is from then on treated as reuse iff its token had been rotated away |
| ReuseDetection.ReuseDetectionIsSound | backend/src/service/auth.service.js:118-145 | AUTH_REUSE_DETECTED is answered only if the presented token had been rotated away before the request read the session |
| ReuseDetection.ReuseDetectionIsComplete | backend/src/service/auth.service.js:118-145 | a request that reads a live session with a token rotated away, and whose user still exists when it looks, can only be answered AUTH_REUSE_DETECTED |
| RefreshOutcomes.RemovedUserGetsNoTokens | backend/src/service/auth.service.js:130-134 | a refresh that looks its user up after the account was removed gets no tokens in any continuation: it is on its way to revoke its session, or has been told that the user or the session is gone, and then the session is dead |
| RefreshOutcomes.CurrentTokenIsExchanged | backend/src/service/auth.service.js:107-165 | a refresh with the current token of a live session and an existing user, interrupted by nobody, is answered an access token of this moment and the next refresh token, whose hash the session then stores for a full lifetime; no other session changes |
| RefreshOutcomes.RefusedAtOnce | backend/src/service/auth.service.js:107-126 | a token that is not genuine or whose session is unknown is invalid, one whose session is revoked is forbidden, and nothing changes |
| RefreshOutcomes.LoginOpensASession | backend/src/service/auth.service.js:30-42 | a login opens exactly one live session of its user, storing the hash of the refresh token it is answered with |
| RevocationLookup.ReuseRevokesEverySession | backend/src/service/auth.service.js:44-57 | whoever is answered AUTH_REUSE_DETECTED looked up once the sessions of the owner of the presented token: every session that user had then is dead, the reused one included, and nothing else was revoked |
| Revocation.GlobalRevocationIsComplete | backend/src/service/session.service.js:116-120 | from the call on: revoking all sessions of a user is answered with success, and by then every session the user had when the call began is dead |
| RevocationLookup.GlobalRevocationIsExact | backend/src/repositories/implementations/mongoose/session.repository.js:67-76 | an answered revocation of all sessions made one lookup: every session the user had at that moment is dead, and what it revoked was live and theirs then; a session opened later is not touched |
| Revocation.AnswersKeepTheirPromise | backend/src/service/session.service.js:99-138 | from any call to its answer, a session the call concerns is dead once the answer promises so |
| Revocation.ForeignSessionsAreNotFound | backend/src/service/session.service.js:99-103 | naming a session that is not the user's ends in not found and revokes nothing |
| Revocation.SingleRevocationIsComplete | backend/src/service/session.service.js:99-138 | from the call on: a revocation of one session by its owner, a logout with a genuine refresh token, and a refresh whose user is gone leave that session dead once answered, whatever the answer |
| RefreshOutcomes.OwnerEndsTheSession | backend/src/service/session.service.js:99-109 | a revocation by the owner of a live session, interrupted by nobody, is answered with success, having revoked and marked that session and no other |
| Revocation.RevocationIsPermanent | backend/src/repositories/implementations/mongoose/session.repository.js:40-111 | a revoked session is never live again, under any interleaving, racing rotations and the sweep included |
| Revocation.NoTokensAfterRevocation | backend/src/service/auth.service.js:118-126 | a refresh that reads the session after its revocation, or after the sweep deleted it, is never answered with tokens |
| ReuseDetection.LosingTheRaceRevokesNothing | backend/src/service/auth.service.js:154-163 | a request that only loses the compare-and-set, or wins it, has revoked nothing |
| SessionSweep.OnlyRevokedSessionsAreDeleted | backend/src/repositories/implementations/mongoose/session.repository.js:105-111 | under any interleaving a session document disappears only when it is revoked, expired before the idle horizon, and so unused for the whole refresh lifetime before that |
| SessionSweep.VisitsDeleteTheExpired | backend/src/repositories/implementations/mongoose/session.repository.js:105-111 | a sweep that visits documents in any order deletes exactly those of them that are revoked and expired past its cutoff |
| RevocationLookup.SweepRevokesOnlyTheIdle | backend/src/repositories/implementations/mongoose/session.repository.js:84-98 | a sweep looks once for live sessions idle past the horizon: under any interleaving it revokes no other, and when it is done all of them are dead, also those used again after it looked |
| SessionSweep.RunKeepsOnTime | backend/src/service/session.service.js:48-59 | in every run a session expires exactly a refresh lifetime after its last activity, login or rotation |
| SessionStore.SessionRepository.RotateIfCurrent | backend/src/repositories/implementations/mongoose/session.repository.js:40-48 | compare-and-set on the stored hash: the whole new document, revokedAt kept, or no change |
| SessionStore.SessionRepository.Revoke | backend/src/repositories/implementations/mongoose/session.repository.js:55-59 | sets revokedAt of that document, an unknown id changes nothing |
| SessionStore.SessionRepository.RevokeAllByUser | backend/src/repositories/implementations/mongoose/session.repository.js:67-76 | exactly the live sessions of the user are revoked, and their ids returned |
| SessionStore.SessionRepository.SweepInactive | backend/src/repositories/implementations/mongoose/session.repository.js:84-98 | exactly the live sessions idle past the cutoff are revoked, and their ids returned |
| SessionStore.SessionRepository.DeleteExpired | backend/src/repositories/implementations/mongoose/session.repository.js:105-111 | exactly the revoked sessions that expired before the cutoff go, and they are counted |
| SessionStore.SessionRepository.MarkSessionsRevoked | backend/src/service/session.service.js:23-31 | exactly the given sessions get a marker |
| SessionStore.SessionRepository.SweepInactiveSessions | backend/src/service/session.service.js:147-154 | running alone, the sweep leaves the collection swept, marks exactly the sessions it revoked, and returns both counts |
| SessionStore.SweepLeavesTheActive | backend/src/service/session.service.js:140-154 | after a sweep every session is live and active since the cutoff or revoked and unexpired by it; sessions live and active since then are untouched; none came back to life |
| AccessGate.RevocationTtl | backend/src/service/session.service.js:15-18 | the marker lives for the lifetime of an access token rounded up to whole seconds, and at least for one |
| AccessGate.MarkerOutlivesToken | backend/src/service/session.service.js:15-21 | a token minted no later than the marker was written is expired when the marker lapses |
| AccessGate.MarkedTokenIsRefusedForEver | backend/src/middleware/auth.middleware.js:22-38 | once its session is marked, a token minted before is refused at every later instant |
| AccessGate.OnlyStraddlingRequestsPass | backend/src/middleware/auth.middleware.js:22-38 | with the checks made at different instants, such a token passes only if verified before its expiry and looked up after the marker lapsed |
| AccessGate.MarkerSufficesIff | backend/src/service/session.service.js:15-21 | a marker written at w covers a token at every later instant iff the second the token was minted in, less the second by which the lifetime was rounded up, had begun by w |
| AccessGate.MarkedTokenIsRefusedIff | backend/src/middleware/auth.middleware.js:22-45 | over runs: a token of a marked session is refused at every later instant iff it is blacklisted, expired, or minted no later than its marker covers |
| AccessGate.RevokedAccessIsRefused | backend/src/service/session.service.js:20-31 | however a session ends, an access token handed out while it was live is refused for ever as soon as the session is dead and nobody is still bound to mark it |
| AccessGate.RevocationRefusesAccess | backend/src/service/session.service.js:99-138 | from any call that revokes: once it is answered, an access token handed out to a session it concerned, live at the call, is refused for ever, unless another request revoked that session in between and is still to mark it |
| AccessGate.GlobalRevocationRefusesAccess | backend/src/service/session.service.js:111-120 | once a revocation of all sessions of a user is answered, every access token handed out to a session of theirs that was live at the call is refused for ever, with the same exception |
| AccessGate.LoggedOutTokenIsRefusedForEver | backend/src/service/auth.service.js:171-182 | a token presented at logout is refused by every request that starts later, for ever, whenever its checks are made |
| GoodTokens.DeadMeansRevoked | backend/src/service/session.service.js:20-31 | in every run only sessions that some request revoked are dead, and only those are marked |
| GoodTokens.GoodTokenIsAccepted | backend/src/middleware/auth.middleware.js:22-52 | in every run a token that no logout presented before the blacklist is read, of a session nobody revoked before the marker is read, is decided by its age in whole seconds and its user alone: expired, user not found, or accepted as its own user and session |
| SessionRaces.RacingRefreshOutlivesTheMarker | backend/src/service/auth.service.js:118-165 | a run in which a refresh mints and rotates after all sessions of its user were revoked and marked: it is answered tokens, and its access token is not refused for ever although the session is dead |
| SessionRaces.StraddlingRequestPasses | backend/src/middleware/auth.middleware.js:22-38 | a run in which a request passes with a token covered by its marker, verified just before expiry and looked up after the marker lapsed |
| SessionRaces.LateSessionSurvives | backend/src/repositories/implementations/mongoose/session.repository.js:67-76 | a run in which a session opened after the lookup survives the revocation of all sessions |
| SessionRaces.RefreshedSessionIsSwept | backend/src/repositories/implementations/mongoose/session.repository.js:84-98 | a run in which a session that is refreshed after the sweep looked is revoked while active |
| Idempotency.ReplayIsFaithful | backend/src/middleware/idempotency.middleware.js:46-77 | every finished response is captured, and replaying the capture puts the same status and text on the wire |
| Idempotency.PassesThroughIff | backend/src/middleware/idempotency.middleware.js:34-38 | in every run a request is passed through to its handler iff its verb is none of the four or its key is not 1 to 255 characters long |
| Idempotency.HandlerRunsOncePerRetention | backend/src/middleware/idempotency.middleware.js:43-92 | in every interleaving, of all guarded requests of one client with one key at most one more has its handler run, in whatever way, than the entry lapsed |
| Idempotency.OthersAreReplayedOrRefused | backend/src/middleware/idempotency.middleware.js:43-58 | while the entry is unexpired one guarded request runs the handler, no other is passed through, and any other that is done got exactly its captured response or a conflict |
| Idempotency.LateRequestsAreReplayed | backend/src/middleware/idempotency.middleware.js:44-53 | a request that probes after the first one finished, before the entry lapses, can be neither refused nor run whatever interleaves: its own next store call has it replayed, status and text, what the handler of the finished request answered |
| Idempotency.FinishedIsSettled | backend/src/middleware/idempotency.middleware.js:79-86 | in every run in which the entry has not lapsed, the store holds exactly what the finished request of the key captured |
| Idempotency.FreshKeyRunsTheHandler | backend/src/middleware/idempotency.middleware.js:43-92 | the first request with a key, interrupted by nobody, claims it, runs its handler once and leaves the captured response stored; no other entry changes |
| Idempotency.PendingKeyIsAConflict | backend/src/middleware/idempotency.middleware.js:43-58 | a request that arrives while the key is claimed and nothing stored is refused with a conflict, and nothing changes |
| Idempotency.IdentitiesAreSeparate | backend/src/middleware/idempotency.middleware.js:40-41 | two identities, neither of which is the other, a colon and more, never share an entry |
| Idempotency.IdentitiesShareIff | backend/src/middleware/idempotency.middleware.js:37-41 | different identities can reach one entry with keys the middleware takes iff one is the other, a colon and more, and longer by at most 254 characters |
| Idempotency.ColonIdentitiesCanCollide | backend/src/middleware/idempotency.middleware.js:40-41 | two identities with colons that share an entry |
| Notifications.DeliveredEffectivelyOnce | backend/src/service/notification.service.js:48-91 | under any interleaving of repeated, retried and interrupted deliveries there is one notification per dedupe key, all deliveries return it, at most the delivery that inserted it reports creating it, and its content is that job's payload with the name that delivery itself read for the actor before it found the recipient |
| DeliveryOutcomes.EveryNotificationTellsItsJob | backend/src/service/notification.service.js:80-90 | in every run each notification goes to the recipient of the valid job that created it, who is not the actor, and carries that job's actor, kind, resource and key, the words for its kind, and the summary and link given or the defaults |
| DeliveryOutcomes.DeliveryIsSettled | backend/src/service/notification.service.js:48-91 | a delivery nobody interrupts is settled within four store calls: an invalid job or a missing actor fails as the client's error, a job to oneself or to a missing recipient is dropped, and any other yields the notification its key has or one new one that tells it |
| Notifications.RefetchFindsTheWinner | backend/src/repositories/implementations/mongoose/notification.repository.js:20-26 | a delivery whose insert meets a taken key delivers the row that took it with its next two store calls, whatever others do in between |
| Notifications.AttemptsAreBounded | backend/src/workers/notification.worker.js:93-112 | a job makes one to five attempts, an invalid or self-directed job never creates a notification, and a settled job was settled by the attempt at which the inline runner settles such outcomes |
| InlineRunner.SettlesOnce | backend/src/workers/notification.worker.js:93-112 | the attempt that settles a job is unique |
| DeliveryOutcomes.SettlesIff | backend/src/workers/notification.worker.js:44-50 | of five outcomes the job is settled by the first that is a success or a domain error below 500, or else by the fifth |
| InlineRunner.Worker.RecordDeadLetter | backend/src/workers/notification.worker.js:52-75 | a letter the durable queue did not take is kept; the buffer is the last min(n, 100) letters in order |
| InlineRunner.Worker.ClearDeadLetters | backend/src/workers/notification.worker.js:40-42 | the buffer is emptied |
| InlineRunner.Worker.RunInline | backend/src/workers/notification.worker.js:93-112 | the first attempt that does not fail retryably, or the fifth, settles the job; it is dead-lettered, once and with that attempt's error, exactly when that attempt failed |
| Comments.OneCommentPerKey | backend/src/service/comment.service.js:74-107 | for one author and key at most one comment is stored, every successful call returns it, at most one call created it, and it is what that call asked for and that call published exactly one notification |
| Comments.OnlyCreatorsPublish | backend/src/service/comment.service.js:96-107 | a notification is published only for a comment whose call is answered created, and once |
| Comments.RefetchFindsTheWinner | backend/src/service/comment.service.js:88-94 | a keyed call whose insert meets a taken key is answered by its next two store calls, whatever others do in between, with the comment that took the key |
| Comments.KeyedCallsNeverFailOnDuplicates | backend/src/service/comment.service.js:88-94 | in no run is a keyed call answered with the bare duplicate-key error |
| Comments.CommentersPassedTheGate | backend/src/service/comment.service.js:30-40 | in every run the call of each stored comment itself read the post and, where that was for followers only, then itself read that its author follows the author of the post |
| CommentOutcomes.GateIsMayRead | backend/src/service/comment.service.js:30-40 | with nothing changing between its two reads, the gate lets through exactly those who may read the post and reports it missing to all others |
| CommentOutcomes.CommentIsCreatedIff | backend/src/service/comment.service.js:30-107 | a call nobody interrupts, under a key not used before, makes exactly its comment and publishes it once iff its author may read the post and the parent named, if any, is a comment on it; otherwise it is told that the post is missing or the parent invalid, and nothing changes |
| Comments.PathStaysOnPost | backend/src/service/comment.service.js:67-72 | following parents that precede their children ends at a root without leaving the post |
| Comments.CommentsFormAForest | backend/src/service/comment.service.js:64-87 | in every reachable state parentCommentId leads from any comment to a root, every comment on the way on the same post |
| MemoryRedis.LifetimeIsKeptIff | backend/src/configs/redis.js:45-51 | a lifetime in seconds is kept iff it is between 1 and 2147483 |
| MemoryRedis.GetReturnsTheLastSet | backend/src/configs/redis.js:39-67 | over any history GET returns v iff v was given by the last SET carried out, not deleted since and not past its deadline |
| MemoryRedis.HitsAreExact | backend/src/configs/redis.js:60-67 | DEL counts the distinct keys that were there |
| MemoryRedis.MemoryClient.Set | backend/src/configs/redis.js:40-53 | SET with EX, NX and XX acts on the view of the deadline store; the timer table stays consistent, so no timer of an old value can delete a newer one |
| MemoryRedis.MemoryClient.Get | backend/src/configs/redis.js:54-56 | GET reads the view: the value if its deadline has not passed |
| MemoryRedis.MemoryClient.Del | backend/src/configs/redis.js:60-67 | exactly the given keys go, with their timers, and those present are counted once |
| MemoryRedis.MemoryClient.Advance | backend/src/configs/redis.js:46-50 | when time passes, the timers that fall due, in any order, delete exactly the entries past their deadline |
| Resolver.SplitIsExact | backend/src/docs/resolve-openapi.js:15 | splitting a reference or pointer loses nothing and leaves no separator in a part |
| References.SplitUndoesIntersperse | backend/src/docs/resolve-openapi.js:15 | splitting takes apart exactly the parts that were joined |
| References.ReferenceIsRead | backend/src/docs/resolve-openapi.js:14-27 | of a reference file#/key/key the file part is what stands before the hash, and the steps are the decoded keys after the slash, in order |
| References.ReferenceLeadsToItsKeys | backend/src/docs/resolve-openapi.js:14-31 | such a reference leads, in the file it names joined to the one it appears in, or in that one itself when it names none, to what reading its decoded keys one after the other gives; a missing file throws |
| References.ReferenceLeadsToTheFile | backend/src/docs/resolve-openapi.js:17-25 | a reference without a fragment leads to the whole document it names |
| References.LastStepIsLast | backend/src/docs/resolve-openapi.js:26-30 | reading a path and one more key is reading the path and then that key: keys are taken from the root down |
| References.ItemsAreReadByIndex | backend/src/docs/resolve-openapi.js:29 | item i of an array is read under the decimal text of i |
| References.KeyOfAnotherFile | backend/src/docs/resolve-openapi.js:14-31 | a reference such as ./schemas.yaml#/Error is the value under that key in the other file |
| Resolver.LookupIsJumpWalk | backend/src/docs/resolve-openapi.js:34-53 | looking up any path in the resolved contract is walking the original files and jumping through every reference relative to the file it is in, then resolving what is there |
| Resolver.LookupShowsTheOriginal | backend/src/docs/resolve-openapi.js:34-53 | every path of the resolved contract shows the scalar, the length or the keys that the jump walk finds |
| Resolver.ResolvedHasNoRefs | backend/src/docs/resolve-openapi.js:34-53 | with string-valued references the resolved contract contains no `$ref` |
| Resolver.NonStringRefStays | backend/src/docs/resolve-openapi.js:39 | a `$ref` that is no string is left in the output |
| Resolver.BoundDoesNotMatter | backend/src/docs/resolve-openapi.js:34-53 | the measure that proves termination does not influence the result |
| ReferenceCycles.CyclesHaveNoRank | backend/src/docs/resolve-openapi.js:40-43 | a reference that leads back to itself, over any chain of files, has no rank |
| ReferenceCycles.ResolvableIff | backend/src/docs/resolve-openapi.js:34-53 | the results on resolution, its termination among them, cover a document iff none of its references runs into a cycle of references |
| Resolver.ContractResolver.ResolveRef | backend/src/docs/resolve-openapi.js:12-32 | the loop with the file cache finds exactly the target of the reference; the cache never changes a result |
| Resolver.ContractResolver.ResolveAll | backend/src/docs/resolve-openapi.js:34-53 | resolution with loops and cache terminates and computes exactly the resolved contract, throwing iff a file it needs is missing |

## Left out

- Account deletion: its bulk rewrites of authors sit outside the cache-bump and idempotency-key protocols; the runs here have none.
- Store failures: swallowed bumps, markers and cache writes, and the fail-open path of the idempotency middleware, are best effort by design; store calls succeed here. In Notifications they may fail.
- Legacy refresh tokens: the migration from the old Redis entry is a one-off path; the old store is taken to be empty.
- Cryptography: hashing is injective, signatures unforgeable, nonces and ids fresh; whether a refresh token verifies is an input of the request.
- Feed rows: the populated author name and email, and the form dates take in a cached page, are not part of a row.
- Timeline lists: `feed:timeline` is written and never read; of the fanout only its follower listing is a step.
- Durable queue: BullMQ workers and their dead-letter queue depend on library behaviour; only the inline path is modelled, with the durable write of a dead letter as an input.
- Notifications: the two user reads of a delivery run in parallel in the code and one after the other here; schema validation is an input.
- Express: how `json`, `send` and `end` call one another is modelled from Express's documented behaviour, and a handler answers once.
- Idempotency store: an entry that is no JSON cannot arise from the middleware's own writes and is not modelled.
- Cursor contents: a client can forge a cursor whose two strings are empty or no date; the page query's answer to those is not modelled, only decoding them is.
- Dates and ids as text: a position's date and id are strings in CursorCodec and ordered numbers in Pagination; printing a date is not modelled.
- Reading a Buffer: the decoders follow the documented behaviour of base64url and UTF-8 in Node for malformed input; parse depth is unbounded.
- Resolver: the file system, path resolution and percent-decoding are parameters; indexing a string, `length` and inherited properties are taken as undefined; a contract that runs into a reference cycle is outside the results (`ResolvableIff`).
- Timers: a timer fires exactly when it is due.
- Comments: a comment's id is its place in the log; audit entries, likes and the update of comments are not modelled.
- MemoryRedis.MemoryClient.Set: values are strings; a lifetime that is no whole number of seconds is not modelled.
- SessionSweep.RunKeepsOnTime: takes the clock readings that one request makes between two store calls as one instant, where the code reads the clock once for each date; a stored expiry can differ from the last activity plus the lifetime by that lag.
- SessionSweep.OnlyRevokedSessionsAreDeleted: its bound on the last activity rests on the same simplification of clock readings.
- Contract route checker, offset pagination, roles, permissions, rate limits, routing, cookies and schemas: library behaviour or easy claims only.
