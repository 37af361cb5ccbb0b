/** The wave button that the map's popups render (`components/WaveButton.tsx`):
    directional wave documents keyed `current_other`, a chat room keyed by
    the sorted `"_"`-joined pair, three pieces of UI state updated by the
    button's actions and by two document listeners, and four display
    branches. */
module WaveButton {
  import opened Wrappers
  import Text
  import opened Firestore

  /** The id of the wave this user sends: `${currentUid}_${otherUid}`. */
  function WaveId(currentUid: string, otherUid: string): string
  {
    currentUid + "_" + otherUid
  }

  /** Ids without `'_'` give the two directions distinct wave ids (with
      `'_'` they can collide: `"x"` and `"x_x"` both give `"x_x_x"`). */
  lemma WaveIdsDistinct(a: string, b: string)
    requires '_' !in a && '_' !in b && a != b
    ensures WaveId(a, b) != WaveId(b, a)
  {
    var s, t := WaveId(a, b), WaveId(b, a);
    if |a| < |b| {
      assert s[|a|] == '_' && t[|a|] == b[|a|];
    } else if |b| < |a| {
      assert t[|b|] == '_' && s[|b|] == a[|b|];
    } else {
      assert s[..|a|] == a && t[..|a|] == b;
    }
  }

  /** The id of the wave the other user sends back. */
  function ReverseWaveId(currentUid: string, otherUid: string): (r: string)
    ensures r == WaveId(otherUid, currentUid)
  {
    otherUid + "_" + currentUid
  }

  /** The chat room id: the two ids sorted and joined with `"_"`. */
  function ChatDocId(currentUid: string, otherUid: string): (r: string)
    ensures (Text.LessEq(currentUid, otherUid) && r == currentUid + "_" + otherUid)
         || (Text.LessEq(otherUid, currentUid) && r == otherUid + "_" + currentUid)
  {
    var sorted := Text.Sort2(currentUid, otherUid);
    assert sorted[1..] == [sorted[1]];
    assert Text.Join(sorted, "_") == sorted[0] + "_" + sorted[1];
    Text.Join(sorted, "_")
  }

  /** Both users' buttons use the same chat room. */
  lemma ChatDocIdSymmetric(a: string, b: string)
    ensures ChatDocId(a, b) == ChatDocId(b, a)
  {
    Text.Sort2Symmetric(a, b);
  }

  /** The four display branches, each guarded as in the markup. */
  datatype Branch = WaveShown | WaitingForReply | ChatNowShown | OpenChatShown

  predicate ShowsWave(hasWaved: bool, chatId: Option<string>) { !hasWaved && chatId.None? }
  predicate ShowsWaiting(hasWaved: bool, otherWaved: bool, chatId: Option<string>) { hasWaved && !otherWaved && chatId.None? }
  predicate ShowsChatNow(hasWaved: bool, otherWaved: bool, chatId: Option<string>) { hasWaved && otherWaved && chatId.None? }
  predicate ShowsOpenChat(chatId: Option<string>) { chatId.Some? }

  /** The branch whose guard holds; no state leaves the button empty or
      shows two branches. */
  function ActiveBranch(hasWaved: bool, otherWaved: bool, chatId: Option<string>): (b: Branch)
    ensures (b == WaveShown) == ShowsWave(hasWaved, chatId)
    ensures (b == WaitingForReply) == ShowsWaiting(hasWaved, otherWaved, chatId)
    ensures (b == ChatNowShown) == ShowsChatNow(hasWaved, otherWaved, chatId)
    ensures (b == OpenChatShown) == ShowsOpenChat(chatId)
  {
    if chatId.Some? then OpenChatShown
    else if !hasWaved then WaveShown
    else if otherWaved then ChatNowShown
    else WaitingForReply
  }

  /** The wave document `sendWave` writes (replacing any document there). */
  function SentWave(currentUid: string, otherUid: string, now: Time): WaveDoc
  {
    EmptyWaveDoc.(from := Some(currentUid), to := Some(otherUid), timestamp := Some(now))
  }

  /** The chat room `startChat` creates. */
  function NewChatRoom(currentUid: string, otherUid: string, now: Time): ChatDoc
  {
    EmptyChatDoc.(users := Some([currentUid, otherUid]), createdAt := Some(now))
  }

  /** Whether the reverse wave document exists and is addressed to the
      current user. */
  predicate OtherWavedIn(s: Store, currentUid: string, otherUid: string)
  {
    var rid := ReverseWaveId(currentUid, otherUid);
    rid in s.waves && s.waves[rid].to == Some(currentUid)
  }

  class Button {
    const currentUid: string
    const otherUid: string
    var hasWaved: bool
    var otherWaved: bool
    var chatId: Option<string>

    /** A set chat id is always this pair's chat room. */
    ghost predicate Valid()
      reads this
    {
      chatId.Some? ==> chatId.value == ChatDocId(currentUid, otherUid)
    }

    constructor (currentUid: string, otherUid: string)
      ensures this.currentUid == currentUid && this.otherUid == otherUid
      ensures !hasWaved && !otherWaved && chatId == None && Valid()
    {
      this.currentUid := currentUid;
      this.otherUid := otherUid;
      hasWaved, otherWaved, chatId := false, false, None;
    }

    function Display(): Branch
      reads this
    {
      ActiveBranch(hasWaved, otherWaved, chatId)
    }

    /** The listener on the reverse wave document. */
    method OnReverseWaveSnapshot(db: Database)
      requires Valid()
      modifies this`otherWaved
      ensures Valid()
      ensures otherWaved == OtherWavedIn(db.store, currentUid, otherUid)
    {
      var rid := ReverseWaveId(currentUid, otherUid);
      if rid in db.store.waves && db.store.waves[rid].to == Some(currentUid) {
        otherWaved := true;
      } else {
        otherWaved := false;
      }
    }

    /** The listener on the chat room: sets the chat id once the room
      exists and never clears it. */
    method OnChatSnapshot(db: Database)
      requires Valid()
      modifies this`chatId
      ensures Valid()
      ensures ChatDocId(currentUid, otherUid) in db.store.chatRooms ==> chatId == Some(ChatDocId(currentUid, otherUid))
      ensures ChatDocId(currentUid, otherUid) !in db.store.chatRooms ==> chatId == old(chatId)
    {
      if ChatDocId(currentUid, otherUid) in db.store.chatRooms {
        chatId := Some(ChatDocId(currentUid, otherUid));
      }
    }

    /** `sendWave`: a no-op once waved or once a chat exists; otherwise
      writes the wave and records that it was sent. */
    method SendWave(db: Database, now: Time)
      requires Valid()
      modifies this`hasWaved, db
      ensures Valid()
      ensures old(hasWaved) || old(chatId).Some? ==> db.store == old(db.store) && hasWaved == old(hasWaved)
      ensures !old(hasWaved) && old(chatId).None? ==>
        && db.store == old(db.store).(waves := old(db.store).waves[WaveId(currentUid, otherUid) := SentWave(currentUid, otherUid, now)])
        && hasWaved
    {
      if hasWaved || chatId.Some? {
        return;
      }
      db.store := db.store.(waves := db.store.waves[WaveId(currentUid, otherUid) := SentWave(currentUid, otherUid, now)]);
      hasWaved := true;
    }

    /** `startChat`: creates the chat room only when absent, then returns
      the route it navigates to. */
    method StartChat(db: Database, now: Time) returns (route: string)
      modifies db
      ensures route == "/chat/" + ChatDocId(currentUid, otherUid)
      ensures ChatDocId(currentUid, otherUid) in old(db.store.chatRooms) ==> db.store == old(db.store)
      ensures ChatDocId(currentUid, otherUid) !in old(db.store.chatRooms) ==>
        db.store == old(db.store).(chatRooms := old(db.store).chatRooms[ChatDocId(currentUid, otherUid) := NewChatRoom(currentUid, otherUid, now)])
    {
      var id := ChatDocId(currentUid, otherUid);
      if id !in db.store.chatRooms {
        db.store := db.store.(chatRooms := db.store.chatRooms[id := NewChatRoom(currentUid, otherUid, now)]);
      }
      route := "/chat/" + id;
    }
  }

  /** Two users' buttons: both wave, both listeners fire, and each shows
      "Chat now"; once one of them starts the chat and the chat listeners
      fire, both show "Open Chat" on the same room. */
  method MutualWaveScenario(db: Database, a: string, b: string, t1: Time, t2: Time, t3: Time)
    returns (ba: Button, bb: Button, route: string)
    requires '_' !in a && '_' !in b
    modifies db
    ensures ba.currentUid == a && bb.currentUid == b
    ensures ba.Display() == OpenChatShown && bb.Display() == OpenChatShown
    ensures ba.chatId == bb.chatId == Some(ChatDocId(a, b))
    ensures route == "/chat/" + ChatDocId(a, b) && ChatDocId(a, b) in db.store.chatRooms
  {
    if a != b {
      WaveIdsDistinct(a, b);
    }
    ba := new Button(a, b);
    bb := new Button(b, a);
    ba.SendWave(db, t1);
    bb.SendWave(db, t2);
    ba.OnReverseWaveSnapshot(db);
    bb.OnReverseWaveSnapshot(db);
    assert ba.Display() == ChatNowShown && bb.Display() == ChatNowShown;
    route := ba.StartChat(db, t3);
    ChatDocIdSymmetric(a, b);
    ba.OnChatSnapshot(db);
    bb.OnChatSnapshot(db);
  }
}
