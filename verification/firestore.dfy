/** The Firestore documents the match protocols read and write, and the
    store holding them. A document is a record whose fields may be
    absent; server timestamps are abstract clock values passed in by
    the caller. */
module Firestore {
  import opened Wrappers

  /** A server timestamp, resolved by the store when a write commits. */
  type Time = int

  /** A document of the `waves` collection. Three writers share the
      collection: the transactional protocol (`a`, `b`, `wavedBy`), the
      non-transactional one (`wavers`, `matchedAt`) and the wave button
      (`from`, `to`, `timestamp`). */
  datatype WaveDoc = WaveDoc(
    a: Option<string>,
    b: Option<string>,
    wavedBy: Option<seq<string>>,
    wavers: Option<seq<string>>,
    from: Option<string>,
    to: Option<string>,
    updatedAt: Option<Time>,
    matchedAt: Option<Time>,
    timestamp: Option<Time>)

  const EmptyWaveDoc := WaveDoc(None, None, None, None, None, None, None, None, None)

  /** A document of the `chats` collection (and of the wave button's
      `chat` collection, which uses `users` in place of `participants`).
      `lastMessage` is `Some(None)` when the field holds `null`. */
  datatype ChatDoc = ChatDoc(
    participants: Option<seq<string>>,
    users: Option<seq<string>>,
    createdAt: Option<Time>,
    lastMessageAt: Option<Time>,
    lastMessage: Option<Option<string>>)

  const EmptyChatDoc := ChatDoc(None, None, None, None, None)

  /** A document of the `users` collection: a stored profile, every field
      optional as in `Partial<UserProfile>`. */
  datatype ProfileDoc = ProfileDoc(
    uid: Option<string>,
    displayName: Option<string>,
    bio: Option<string>,
    photoURL: Option<string>,
    age: Option<int>,
    gender: Option<string>,
    interests: Option<seq<string>>,
    createdAt: Option<int>,
    updatedAt: Option<int>)

  const EmptyProfileDoc := ProfileDoc(None, None, None, None, None, None, None, None, None)

  /** The `arrayUnion(x)` field transform: `x` is appended unless the
      array already holds it. */
  function ArrayUnion(arr: seq<string>, x: string): (r: seq<string>)
    ensures x in r
    ensures forall y :: y in r <==> y in arr || y == x
    ensures |arr| <= |r| && r[..|arr|] == arr
  {
    if x in arr then arr else arr + [x]
  }

  /** The collections, each a map from document id to document. */
  datatype Store = Store(
    waves: map<string, WaveDoc>,
    chats: map<string, ChatDoc>,
    chatRooms: map<string, ChatDoc>,  // the `chat` collection
    users: map<string, ProfileDoc>)

  /** The shared database; every write replaces `store`. */
  class Database {
    var store: Store

    constructor (initial: Store)
      ensures store == initial
    {
      store := initial;
    }
  }
}
