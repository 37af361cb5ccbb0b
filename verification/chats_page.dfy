/** The user-id fallback of `app/chat/chats/page.tsx`: when no account is
    signed in, the page signs in anonymously, and once that has failed it
    keeps using a locally stored id for good. Sign-in is an oracle whose
    outcome is a parameter; the random id source is a parameter too. */
module ChatsPage {
  import opened Wrappers

  const FallbackKey := "authFallback"
  const LocalUidKey := "debugUid"

  /** The browser's `localStorage`: string keys to string values. */
  class LocalStorage {
    var items: map<string, string>

    constructor (items: map<string, string>)
      ensures this.items == items
    {
      this.items := items;
    }
  }

  /** What an anonymous sign-in attempt would give. */
  datatype SignIn = SignedIn(uid: string) | SignInFails

  /** `getItem(key)`: `null` when absent. */
  function GetItem(items: map<string, string>, key: string): Option<string>
  {
    if key in items then Some(items[key]) else None
  }

  /** A fresh local id: the random UUID when the platform gives a
      non-empty one, otherwise `"local-"` and the random suffix. */
  function FreshId(uuid: Option<string>, suffix: string): (id: string)
    ensures id != ""
    ensures uuid.Some? && uuid.value != "" ==> id == uuid.value
    ensures !(uuid.Some? && uuid.value != "") ==> id == "local-" + suffix
  {
    if uuid.Some? && uuid.value != "" then uuid.value else "local-" + suffix
  }

  /** Whether a stored id is there and non-empty. */
  predicate HasLocalUid(items: map<string, string>)
  {
    LocalUidKey in items && items[LocalUidKey] != ""
  }

  /** `ensureLocalUid`: the stored id when there is one, otherwise a
      fresh one, stored before it is returned. */
  method EnsureLocalUid(storage: LocalStorage, uuid: Option<string>, suffix: string) returns (id: string)
    modifies storage
    ensures id != ""
    ensures HasLocalUid(storage.items) && storage.items[LocalUidKey] == id
    ensures HasLocalUid(old(storage.items)) ==> id == old(storage.items)[LocalUidKey] && storage.items == old(storage.items)
    ensures !HasLocalUid(old(storage.items)) ==>
      id == FreshId(uuid, suffix) && storage.items == old(storage.items)[LocalUidKey := id]
  {
    var stored := GetItem(storage.items, LocalUidKey);
    if stored.Some? && stored.value != "" {
      id := stored.value;
    } else {
      id := FreshId(uuid, suffix);
      storage.items := storage.items[LocalUidKey := id];
    }
  }

  /** `getUidWithStickyFallback`: the local id when the fallback flag is
      set, without trying to sign in; otherwise the signed-in uid, or, when
      sign-in fails, the flag is set and the local id is used. `attempted`
      says whether sign-in was tried. */
  method GetUidWithStickyFallback(storage: LocalStorage, signIn: SignIn, uuid: Option<string>, suffix: string)
    returns (uid: string, attempted: bool)
    modifies storage
    ensures attempted <==> GetItem(old(storage.items), FallbackKey) != Some("1")
    ensures !attempted || signIn.SignInFails? ==>
      && GetItem(storage.items, FallbackKey) == Some("1")
      && HasLocalUid(storage.items) && uid == storage.items[LocalUidKey]
      && (HasLocalUid(old(storage.items)) ==> uid == old(storage.items)[LocalUidKey])
    ensures attempted && signIn.SignedIn? ==> uid == signIn.uid && storage.items == old(storage.items)
  {
    if GetItem(storage.items, FallbackKey) == Some("1") {
      uid := EnsureLocalUid(storage, uuid, suffix);
      attempted := false;
      return;
    }
    attempted := true;
    match signIn
    case SignedIn(u) =>
      uid := u;
    case SignInFails =>
      storage.items := storage.items[FallbackKey := "1"];
      uid := EnsureLocalUid(storage, uuid, suffix);
  }

  /** A second call to `ensureLocalUid` returns the id of the first,
      whatever the random sources give. */
  method EnsureLocalUidTwice(storage: LocalStorage, uuid1: Option<string>, suffix1: string,
                             uuid2: Option<string>, suffix2: string)
    returns (first: string, second: string)
    modifies storage
    ensures first == second
  {
    first := EnsureLocalUid(storage, uuid1, suffix1);
    second := EnsureLocalUid(storage, uuid2, suffix2);
  }

  /** After one failed sign-in every later call skips sign-in and
      returns the same local id, whatever sign-in would now give. */
  method FallbackIsSticky(storage: LocalStorage, later: SignIn, uuid1: Option<string>, suffix1: string,
                          uuid2: Option<string>, suffix2: string)
    returns (first: string, second: string, attemptedAgain: bool)
    requires GetItem(storage.items, FallbackKey) != Some("1")
    modifies storage
    ensures first == second && !attemptedAgain
  {
    var attempted;
    first, attempted := GetUidWithStickyFallback(storage, SignInFails, uuid1, suffix1);
    second, attemptedAgain := GetUidWithStickyFallback(storage, later, uuid2, suffix2);
  }
}
