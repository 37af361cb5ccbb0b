/** The non-transactional match protocol of `lib/chat.ts`. Every store
    call is a step of its own: a merge-write of the waver, a read back,
    an "ensure chat" read-then-create, and a `matchedAt` stamp. Run back
    to back, these steps give the sequential behaviour below. */
module Chat {
  import opened Wrappers
  import Text
  import opened Firestore
  import Social

  /** `twoPartyKey`: the same sorted, `"__"`-joined key as `pairKey`. */
  function TwoPartyKey(a: string, b: string): (r: string)
    ensures r == Social.PairKey(a, b)
  {
    Text.Join(Text.Sort2(a, b), "__")
  }

  lemma TwoPartyKeySymmetric(a: string, b: string)
    ensures TwoPartyKey(a, b) == TwoPartyKey(b, a)
  {
    Social.PairKeySymmetric(a, b);
  }

  /** The chat `ensureChatForPair(a, b)` writes: participants in call
      order, both timestamps from the same write. */
  function NewPairChat(a: string, b: string, now: Time): ChatDoc
  {
    EmptyChatDoc.(participants := Some([a, b]), createdAt := Some(now), lastMessageAt := Some(now))
  }

  /** The store after `ensureChatForPair(a, b)`. */
  function EnsureChat(s: Store, a: string, b: string, now: Time): Store
  {
    var chatId := TwoPartyKey(a, b);
    if chatId in s.chats then s else s.(chats := s.chats[chatId := NewPairChat(a, b, now)])
  }

  /** The wave document after the merge-write of `arrayUnion(a)` and
      `updatedAt`: created if absent, other fields kept. */
  function MergedWaveDoc(waves: map<string, WaveDoc>, pairId: string, a: string, now: Time): WaveDoc
  {
    var d := if pairId in waves then waves[pairId] else EmptyWaveDoc;
    d.(wavers := Some(ArrayUnion(if d.wavers.Some? then d.wavers.value else [], a)), updatedAt := Some(now))
  }

  /** The wavers read back: the `wavers` array, or none when the field is
      not an array. */
  function WaversOf(d: WaveDoc): seq<string>
  {
    if d.wavers.Some? then d.wavers.value else []
  }

  /** The store and result of `waveAndMaybeOpenChat(a, b)`, its three
      writes stamped `t1`, `t2` (the chat) and `t3` (`matchedAt`). */
  function WaveAndOpen(s: Store, a: string, b: string, t1: Time, t2: Time, t3: Time): (Store, Option<string>)
  {
    var pairId := TwoPartyKey(a, b);
    var merged := MergedWaveDoc(s.waves, pairId, a, t1);
    var s1 := s.(waves := s.waves[pairId := merged]);
    var wavers := WaversOf(merged);
    if a in wavers && b in wavers then
      var s2 := EnsureChat(s1, a, b, t2);
      (s2.(waves := s2.waves[pairId := s2.waves[pairId].(matchedAt := Some(t3))]), Some(pairId))
    else
      (s1, None)
  }

  /** `ensureChatForPair`: read the chat, create it only when absent, and
      return the pair key. */
  method EnsureChatForPair(db: Database, a: string, b: string, now: Time) returns (chatId: string)
    modifies db
    ensures chatId == TwoPartyKey(a, b)
    ensures db.store == EnsureChat(old(db.store), a, b, now)
  {
    chatId := TwoPartyKey(a, b);
    var present := chatId in db.store.chats;
    if !present {
      db.store := db.store.(chats := db.store.chats[chatId := NewPairChat(a, b, now)]);
    }
  }

  /** `setDoc(waveRef, {wavers: arrayUnion(a), updatedAt}, {merge: true})`. */
  method MergeWaver(db: Database, pairId: string, a: string, now: Time)
    modifies db
    ensures db.store == old(db.store).(waves := old(db.store).waves[pairId := MergedWaveDoc(old(db.store).waves, pairId, a, now)])
  {
    db.store := db.store.(waves := db.store.waves[pairId := MergedWaveDoc(db.store.waves, pairId, a, now)]);
  }

  /** `getDoc(waveRef)` and the `wavers` array it holds. */
  method ReadWavers(db: Database, pairId: string) returns (wavers: seq<string>)
    ensures pairId in db.store.waves ==> wavers == WaversOf(db.store.waves[pairId])
    ensures pairId !in db.store.waves ==> wavers == []
  {
    wavers := if pairId in db.store.waves then WaversOf(db.store.waves[pairId]) else [];
  }

  /** `waveAndMaybeOpenChat`: the chat id when both users have waved,
      `None` (`null`) otherwise. */
  method WaveAndMaybeOpenChat(db: Database, a: string, b: string, t1: Time, t2: Time, t3: Time)
    returns (chatId: Option<string>)
    modifies db
    ensures (db.store, chatId) == WaveAndOpen(old(db.store), a, b, t1, t2, t3)
  {
    var pairId := TwoPartyKey(a, b);
    MergeWaver(db, pairId, a, t1);
    var wavers := ReadWavers(db, pairId);
    var mutual := a in wavers && b in wavers;
    if mutual {
      var id := EnsureChatForPair(db, a, b, t2);
      db.store := db.store.(waves := db.store.waves[pairId := db.store.waves[pairId].(matchedAt := Some(t3))]);
      return Some(id);
    }
    return None;
  }

  // ---------------------------------------------------------------------
  // Properties

  /** `ensureChatForPair` creates a chat only when none exists, with the
      participants in call order; an existing chat is untouched. */
  lemma EnsureChatCreatesOnlyIfAbsent(s: Store, a: string, b: string, now: Time)
    ensures var id := TwoPartyKey(a, b);
      var t := EnsureChat(s, a, b, now);
      && id in t.chats
      && (id in s.chats ==> t == s)
      && (id !in s.chats ==> t.chats[id].participants == Some([a, b]) && t.chats[id].createdAt == Some(now))
      && t.waves == s.waves && t.chats.Keys == s.chats.Keys + {id}
  {
  }

  /** After the merge-write the wavers hold `a` and every earlier member,
      `a` is not added twice, and the document's other fields are kept. */
  lemma MergeKeepsWavers(waves: map<string, WaveDoc>, pairId: string, a: string, now: Time)
    ensures var before := if pairId in waves then WaversOf(waves[pairId]) else [];
      var d := MergedWaveDoc(waves, pairId, a, now);
      var after := WaversOf(d);
      && d.wavers.Some?
      && (forall x :: x in after <==> x in before || x == a)
      && (a in before ==> after == before)
      && (a !in before ==> after == before + [a])
      && (Social.NoDuplicates(before) ==> Social.NoDuplicates(after))
      && (pairId in waves ==> d.(wavers := waves[pairId].wavers, updatedAt := waves[pairId].updatedAt) == waves[pairId])
  {
  }

  /** The result is the pair key exactly when the wavers read back hold
      both users, and `null` otherwise. */
  lemma ChatIdIffMutual(s: Store, a: string, b: string, t1: Time, t2: Time, t3: Time)
    ensures var pairId := TwoPartyKey(a, b);
      var before := if pairId in s.waves then WaversOf(s.waves[pairId]) else [];
      var after := WaversOf(MergedWaveDoc(s.waves, pairId, a, t1));
      var r := WaveAndOpen(s, a, b, t1, t2, t3).1;
      && (r.Some? <==> a in after && b in after)
      && (r.Some? <==> b == a || b in before)
      && (r.Some? ==> r.value == pairId)
  {
  }

  /** `matchedAt` is written on the mutual path only, and on every call
      that takes it; a chat is created on that path only. */
  lemma MatchedAtOnlyWhenMutual(s: Store, a: string, b: string, t1: Time, t2: Time, t3: Time)
    ensures var pairId := TwoPartyKey(a, b);
      var (t, r) := WaveAndOpen(s, a, b, t1, t2, t3);
      && pairId in t.waves
      && (r.Some? ==> t.waves[pairId].matchedAt == Some(t3) && pairId in t.chats)
      && (r.None? ==> t.waves[pairId].matchedAt == (if pairId in s.waves then s.waves[pairId].matchedAt else None))
      && (r.None? ==> t.chats == s.chats)
  {
  }

  /** Run one after the other, `wave(a, b)` returns `null`, `wave(b, a)`
      returns the pair key and leaves a chat whose participants are in
      the second caller's order, and a further `wave(a, b)` returns the
      same key and keeps that chat. */
  lemma SequentialMutualWave(s: Store, a: string, b: string, t1: Time, t2: Time, t3: Time)
    requires a != b
    requires TwoPartyKey(a, b) !in s.waves && TwoPartyKey(a, b) !in s.chats
    ensures var key := TwoPartyKey(a, b);
      var w1 := WaveAndOpen(s, a, b, t1, t1, t1);
      var w2 := WaveAndOpen(w1.0, b, a, t2, t2, t2);
      var w3 := WaveAndOpen(w2.0, a, b, t3, t3, t3);
      && w1.1 == None && w2.1 == Some(key) && w3.1 == Some(key)
      && key in w2.0.chats && w2.0.chats[key] == NewPairChat(b, a, t2)
      && w3.0.chats == w2.0.chats
  {
    var key := TwoPartyKey(a, b);
    TwoPartyKeySymmetric(a, b);
    var w1 := WaveAndOpen(s, a, b, t1, t1, t1);
    ChatIdIffMutual(s, a, b, t1, t1, t1);
    MatchedAtOnlyWhenMutual(s, a, b, t1, t1, t1);
    assert WaversOf(w1.0.waves[key]) == [a];
    var w2 := WaveAndOpen(w1.0, b, a, t2, t2, t2);
    ChatIdIffMutual(w1.0, b, a, t2, t2, t2);
    assert w2.1 == Some(key);
    var w3 := WaveAndOpen(w2.0, a, b, t3, t3, t3);
    MergeKeepsWavers(w2.0.waves, key, a, t3);
    ChatIdIffMutual(w2.0, a, b, t3, t3, t3);
  }
}
