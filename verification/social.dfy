/** The transactional match protocol of `lib/social.ts`: a wave from one
    user to another is recorded in the pair's wave document, and once
    both users have waved the pair's chat document is created (or only
    touched). The transaction body runs as one atomic step on the store. */
module Social {
  import opened Wrappers
  import Text
  import opened Firestore

  /** `pairKey`: the two ids in ascending order, joined with `"__"`. */
  function PairKey(a: string, b: string): (r: string)
    ensures (Text.LessEq(a, b) && r == a + "__" + b) || (Text.LessEq(b, a) && r == b + "__" + a)
  {
    var sorted := Text.Sort2(a, b);
    assert sorted[1..] == [sorted[1]];
    assert Text.Join(sorted, "__") == sorted[0] + "__" + sorted[1];
    Text.Join(sorted, "__")
  }

  /** Both users compute the same key for their pair. */
  lemma PairKeySymmetric(a: string, b: string)
    ensures PairKey(a, b) == PairKey(b, a)
  {
    Text.Sort2Symmetric(a, b);
  }

  /** `WaveResult`: `WAVED`, or `CHAT_READY` with the chat's id. */
  datatype WaveResult = Waved | ChatReady(chatId: string)

  predicate NoDuplicates(s: seq<string>)
  {
    forall i, j :: 0 <= i < j < |s| ==> s[i] != s[j]
  }

  /** `[...new Set(s)]`: the first occurrence of each element, in order. */
  function Dedup(s: seq<string>): (r: seq<string>)
    ensures NoDuplicates(r)
    ensures forall x :: x in r <==> x in s
    ensures NoDuplicates(s) ==> r == s
  {
    if s == [] then []
    else
      var d := Dedup(s[..|s| - 1]);
      var x := s[|s| - 1];
      assert s == s[..|s| - 1] + [x];
      if x in d then d else d + [x]
  }

  /** The index of the first occurrence of `x` in `s`. */
  function FirstIndex(s: seq<string>, x: string): (i: nat)
    requires x in s
    ensures i < |s| && s[i] == x && x !in s[..i]
  {
    if s[0] == x then 0 else 1 + FirstIndex(s[1..], x)
  }

  /** Extending a list does not move the first occurrence of an element
      already in it. */
  lemma {:induction false} FirstIndexPrefix(p: seq<string>, q: seq<string>, x: string)
    requires x in p
    ensures FirstIndex(p + q, x) == FirstIndex(p, x)
  {
    if p[0] != x {
      assert (p + q)[1..] == p[1..] + q;
      FirstIndexPrefix(p[1..], q, x);
    }
  }

  /** `Dedup` lists the distinct elements in the order of their first
      occurrences, as iterating a `Set` built from `s` does. */
  lemma {:induction false} DedupKeepsFirstOrder(s: seq<string>)
    ensures forall i, j :: 0 <= i < j < |Dedup(s)| ==> FirstIndex(s, Dedup(s)[i]) < FirstIndex(s, Dedup(s)[j])
  {
    if s != [] {
      var p, x := s[..|s| - 1], s[|s| - 1];
      assert s == p + [x];
      DedupKeepsFirstOrder(p);
      var d := Dedup(p);
      forall y | y in d
        ensures FirstIndex(s, y) == FirstIndex(p, y)
      {
        FirstIndexPrefix(p, [x], y);
      }
      if x !in d {
        assert x !in p;
        assert FirstIndex(s, x) == |p| by {
          assert s[..|p|] == p;
        }
      }
    }
  }

  /** The wavers read from a stored wave document: its `wavedBy` array
      without duplicates, or nothing when the field is not an array. */
  function StoredWavedBy(d: WaveDoc): seq<string>
  {
    if d.wavedBy.Some? then Dedup(d.wavedBy.value) else []
  }

  /** `if (!wavedBy.includes(from)) wavedBy.push(from)`. */
  function AddWaver(ws: seq<string>, from: string): seq<string>
  {
    if from in ws then ws else ws + [from]
  }

  function NewWaveDoc(from: string, to: string, now: Time): WaveDoc
  {
    EmptyWaveDoc.(a := Some(from), b := Some(to), wavedBy := Some([from]), updatedAt := Some(now))
  }

  function NewChatDoc(from: string, to: string, now: Time): ChatDoc
  {
    EmptyChatDoc.(participants := Some(Text.Sort2(from, to)), createdAt := Some(now),
                  lastMessageAt := Some(now), lastMessage := Some(None))
  }

  datatype TxOutcome = TxOutcome(store: Store, result: WaveResult)

  /** The effect of one committed run of the transaction body of
      `sendWaveAndMaybeOpenChat(from, to)` at server time `now`. */
  function WaveTx(s: Store, from: string, to: string, now: Time): TxOutcome
  {
    var key := PairKey(from, to);
    if key !in s.waves then
      TxOutcome(s.(waves := s.waves[key := NewWaveDoc(from, to, now)]), Waved)
    else
      var wavedBy := AddWaver(StoredWavedBy(s.waves[key]), from);
      var s1 := s.(waves := s.waves[key := s.waves[key].(wavedBy := Some(wavedBy), updatedAt := Some(now))]);
      if from in wavedBy && to in wavedBy then
        var chat := if key in s.chats then s.chats[key].(lastMessageAt := Some(now)) else NewChatDoc(from, to, now);
        TxOutcome(s1.(chats := s1.chats[key := chat]), ChatReady(key))
      else
        TxOutcome(s1, Waved)
  }

  /** The transaction body as one atomic read-modify-write of the store.
      Both documents are read before anything is written (see the
      finding on `AsWrittenBodyOps`). */
  method SendWaveAndMaybeOpenChat(db: Database, fromUid: string, toUid: string, now: Time)
    returns (r: WaveResult)
    modifies db
    ensures db.store == WaveTx(old(db.store), fromUid, toUid, now).store
    ensures r == WaveTx(old(db.store), fromUid, toUid, now).result
  {
    var key := PairKey(fromUid, toUid);
    var snap := if key in db.store.waves then Some(db.store.waves[key]) else None;
    var chatSnap := if key in db.store.chats then Some(db.store.chats[key]) else None;
    if snap.None? {
      db.store := db.store.(waves := db.store.waves[key := NewWaveDoc(fromUid, toUid, now)]);
      return Waved;
    }
    var wavedBy: seq<string> := if snap.value.wavedBy.Some? then Dedup(snap.value.wavedBy.value) else [];
    if fromUid !in wavedBy {
      wavedBy := wavedBy + [fromUid];
    }
    db.store := db.store.(waves := db.store.waves[key := snap.value.(wavedBy := Some(wavedBy), updatedAt := Some(now))]);
    if fromUid in wavedBy && toUid in wavedBy {
      if chatSnap.None? {
        db.store := db.store.(chats := db.store.chats[key := NewChatDoc(fromUid, toUid, now)]);
      } else {
        db.store := db.store.(chats := db.store.chats[key := chatSnap.value.(lastMessageAt := Some(now))]);
      }
      return ChatReady(key);
    }
    return Waved;
  }

  // ---------------------------------------------------------------------
  // Properties of one wave

  /** A first wave creates the wave document with the waver alone and
      touches no chat. */
  lemma FirstWaveCreatesDoc(s: Store, from: string, to: string, now: Time)
    requires PairKey(from, to) !in s.waves
    ensures var t := WaveTx(s, from, to, now);
      && t.result == Waved
      && t.store.waves == s.waves[PairKey(from, to) := NewWaveDoc(from, to, now)]
      && t.store.waves[PairKey(from, to)].wavedBy == Some([from])
      && t.store.chats == s.chats
  {
  }

  /** On an existing wave document the new `wavedBy` holds every earlier
      member and the waver, each once, and nothing else. */
  lemma WavedByGrows(s: Store, from: string, to: string, now: Time)
    requires PairKey(from, to) in s.waves
    ensures var key := PairKey(from, to);
      var nw := WaveTx(s, from, to, now).store.waves[key].wavedBy;
      && nw.Some?
      && NoDuplicates(nw.value)
      && (forall x :: x in nw.value <==> x in StoredWavedBy(s.waves[key]) || x == from)
  {
  }

  /** Waving again changes nothing in the set of wavers. */
  lemma ReWaveKeepsWavedBy(s: Store, from: string, to: string, now: Time)
    requires PairKey(from, to) in s.waves
    requires s.waves[PairKey(from, to)].wavedBy.Some?
    requires NoDuplicates(s.waves[PairKey(from, to)].wavedBy.value)
    requires from in s.waves[PairKey(from, to)].wavedBy.value
    ensures var key := PairKey(from, to);
      WaveTx(s, from, to, now).store.waves[key].wavedBy == s.waves[key].wavedBy
  {
  }

  /** On an existing wave document the result is `CHAT_READY` with the
      pair key exactly when the updated `wavedBy` holds both users. */
  lemma ChatReadyIffMutual(s: Store, from: string, to: string, now: Time)
    requires PairKey(from, to) in s.waves
    ensures var key := PairKey(from, to);
      var t := WaveTx(s, from, to, now);
      var nw := t.store.waves[key].wavedBy.value;
      && (t.result.ChatReady? <==> from in nw && to in nw)
      && (t.result.ChatReady? <==> to == from || to in StoredWavedBy(s.waves[key]))
      && (t.result.ChatReady? ==> t.result.chatId == key && t.result.chatId == PairKey(to, from))
  {
    PairKeySymmetric(from, to);
  }

  /** A chat created by the transaction has the sorted pair as
      participants, both timestamps equal to `now`, and a null last
      message. */
  lemma ChatCreatedWhenAbsent(s: Store, from: string, to: string, now: Time)
    requires PairKey(from, to) !in s.chats
    requires WaveTx(s, from, to, now).result.ChatReady?
    ensures var c := WaveTx(s, from, to, now).store.chats[PairKey(from, to)];
      && c.participants == Some(Text.Sort2(from, to))
      && Text.LessEq(c.participants.value[0], c.participants.value[1])
      && c.createdAt == Some(now) && c.lastMessageAt == Some(now)
      && c.lastMessage == Some(None)
  {
  }

  /** An existing chat is never recreated: only `lastMessageAt` may
      change, and only on `CHAT_READY`. */
  lemma ExistingChatKept(s: Store, from: string, to: string, now: Time)
    requires PairKey(from, to) in s.chats
    ensures var key := PairKey(from, to);
      var t := WaveTx(s, from, to, now);
      && key in t.store.chats
      && t.store.chats[key] == s.chats[key].(lastMessageAt := t.store.chats[key].lastMessageAt)
      && t.store.chats[key].createdAt == s.chats[key].createdAt
      && (t.result.ChatReady? ==> t.store.chats[key].lastMessageAt == Some(now))
      && (t.result.Waved? ==> t.store.chats[key] == s.chats[key])
  {
  }

  /** A `WAVED` result never writes a chat document. */
  lemma WavedLeavesChats(s: Store, from: string, to: string, now: Time)
    requires WaveTx(s, from, to, now).result == Waved
    ensures WaveTx(s, from, to, now).store.chats == s.chats
  {
  }

  /** Only the pair's own documents change. */
  lemma OnlyPairDocsChange(s: Store, from: string, to: string, now: Time, k: string)
    requires k != PairKey(from, to)
    ensures var t := WaveTx(s, from, to, now).store;
      && (k in t.waves <==> k in s.waves) && (k in s.waves ==> t.waves[k] == s.waves[k])
      && (k in t.chats <==> k in s.chats) && (k in s.chats ==> t.chats[k] == s.chats[k])
      && t.chatRooms == s.chatRooms && t.users == s.users
  {
  }

  // ---------------------------------------------------------------------
  // Sequences of waves

  /** Waving twice from the same side yields `WAVED` both times, one
      waver, and no chat. */
  lemma OneSidedWaveIdempotent(s: Store, a: string, b: string, t1: Time, t2: Time)
    requires a != b
    requires PairKey(a, b) !in s.waves
    ensures var w1 := WaveTx(s, a, b, t1);
      var w2 := WaveTx(w1.store, a, b, t2);
      && w1.result == Waved && w2.result == Waved
      && w2.store.waves[PairKey(a, b)].wavedBy == Some([a])
      && w2.store.chats == s.chats
  {
    var key := PairKey(a, b);
    var w1 := WaveTx(s, a, b, t1);
    assert StoredWavedBy(w1.store.waves[key]) == [a] by {
      assert NoDuplicates([a]);
    }
  }

  /** A wave on an existing wave document that already lists the
      recipient answers with `CHAT_READY`: the pair's chat is created when
      absent and otherwise keeps its creation time, and no other chat
      appears. */
  lemma AnswerWave(s: Store, from: string, to: string, now: Time)
    requires PairKey(from, to) in s.waves
    requires to in StoredWavedBy(s.waves[PairKey(from, to)])
    ensures var key := PairKey(from, to);
      var t := WaveTx(s, from, to, now);
      && t.result == ChatReady(key)
      && t.store.chats.Keys == s.chats.Keys + {key}
      && (key !in s.chats ==> t.store.chats[key] == NewChatDoc(from, to, now))
      && (key in s.chats ==> t.store.chats[key].createdAt == s.chats[key].createdAt)
  {
  }

  /** After any wave on an existing wave document, the stored wavers are
      the earlier ones and the waver. */
  lemma WaveListsWaver(s: Store, from: string, to: string, now: Time)
    requires PairKey(from, to) in s.waves
    ensures var key := PairKey(from, to);
      var t := WaveTx(s, from, to, now);
      && key in t.store.waves
      && (forall x :: x in StoredWavedBy(t.store.waves[key]) <==> x in StoredWavedBy(s.waves[key]) || x == from)
  {
    var key := PairKey(from, to);
    WavedByGrows(s, from, to, now);
    var nw := WaveTx(s, from, to, now).store.waves[key].wavedBy.value;
    assert Dedup(nw) == nw;
  }

  /** `wave(a, b)` then `wave(b, a)` gives `WAVED` then `CHAT_READY` at the
      pair key; one more `wave(a, b)` gives the same `CHAT_READY` and keeps
      the chat's creation time. */
  lemma MutualWaveSequence(s: Store, a: string, b: string, t1: Time, t2: Time, t3: Time)
    requires PairKey(a, b) !in s.waves
    ensures var key := PairKey(a, b);
      var w1 := WaveTx(s, a, b, t1);
      var w2 := WaveTx(w1.store, b, a, t2);
      var w3 := WaveTx(w2.store, a, b, t3);
      && w1.result == Waved
      && w2.result == ChatReady(key)
      && w2.store.chats.Keys == s.chats.Keys + {key}
      && (key !in s.chats ==> w2.store.chats[key] == NewChatDoc(b, a, t2))
      && w3.result == ChatReady(key)
      && key in w3.store.chats
      && w3.store.chats[key].createdAt == w2.store.chats[key].createdAt
      && w3.store.chats.Keys == w2.store.chats.Keys
  {
    var key := PairKey(a, b);
    PairKeySymmetric(a, b);
    FirstWaveCreatesDoc(s, a, b, t1);
    var w1 := WaveTx(s, a, b, t1);
    assert StoredWavedBy(w1.store.waves[key]) == [a] by {
      assert NoDuplicates([a]);
    }
    AnswerWave(w1.store, b, a, t2);
    WaveListsWaver(w1.store, b, a, t2);
    var w2 := WaveTx(w1.store, b, a, t2);
    AnswerWave(w2.store, a, b, t3);
  }

  /** Two waves across the pair committed in either order: one result is
      `WAVED`, the other `CHAT_READY` with the pair key, and both orders
      leave the pair with exactly one chat, whose participants are the
      sorted pair and whose creation time is the second commit's. */
  lemma ConcurrentMutualWave(s: Store, a: string, b: string, ta: Time, tb: Time)
    requires PairKey(a, b) !in s.waves && PairKey(a, b) !in s.chats
    ensures var key := PairKey(a, b);
      var ab := WaveTx(WaveTx(s, a, b, ta).store, b, a, tb);
      var ba := WaveTx(WaveTx(s, b, a, tb).store, a, b, ta);
      && WaveTx(s, a, b, ta).result == Waved && ab.result == ChatReady(key)
      && WaveTx(s, b, a, tb).result == Waved && ba.result == ChatReady(key)
      && ab.store.chats.Keys == s.chats.Keys + {key}
      && ba.store.chats.Keys == s.chats.Keys + {key}
      && ab.store.chats[key].participants == ba.store.chats[key].participants == Some(Text.Sort2(a, b))
      && ab.store.chats[key].createdAt == Some(tb) && ba.store.chats[key].createdAt == Some(ta)
  {
    var key := PairKey(a, b);
    PairKeySymmetric(a, b);
    Text.Sort2Symmetric(a, b);
    MutualWaveSequence(s, a, b, ta, tb, tb);
    MutualWaveSequence(s, b, a, tb, ta, ta);
    var ab := WaveTx(WaveTx(s, a, b, ta).store, b, a, tb);
    var ba := WaveTx(WaveTx(s, b, a, tb).store, a, b, ta);
    assert ab.store.chats[key] == NewChatDoc(b, a, tb);
    assert ba.store.chats[key] == NewChatDoc(a, b, ta);
  }

  // ---------------------------------------------------------------------
  // The body as written: the order of its reads and writes

  /** The documents a transaction body touches. */
  datatype DocRef = WaveRef | ChatRef

  /** One read (`tx.get`) or write (`tx.set`/`tx.update`) of the body. */
  datatype TxOp = Get(ref: DocRef) | Put(ref: DocRef)

  /** A store transaction accepts a body only when every read precedes
      every write; otherwise the read fails and nothing commits. */
  predicate ReadsBeforeWrites(ops: seq<TxOp>)
  {
    forall i, j :: 0 <= i < j < |ops| && ops[i].Put? ==> !ops[j].Get?
  }

  /** Whether the committed body reaches its chat branch. */
  predicate Mutual(s: Store, from: string, to: string)
  {
    var key := PairKey(from, to);
    key in s.waves &&
    var ws := AddWaver(StoredWavedBy(s.waves[key]), from);
    from in ws && to in ws
  }

  /** The operations of the body in the order lib/social.ts issues them:
      on an existing wave document it updates that document before it
      reads the chat document. */
  function AsWrittenBodyOps(s: Store, from: string, to: string): seq<TxOp>
  {
    if PairKey(from, to) !in s.waves then [Get(WaveRef), Put(WaveRef)]
    else if Mutual(s, from, to) then [Get(WaveRef), Put(WaveRef), Get(ChatRef), Put(ChatRef)]
    else [Get(WaveRef), Put(WaveRef)]
  }

  /** The operations of `SendWaveAndMaybeOpenChat`: both reads first.
      The list is read off that method's statements (its two reads of
      the store at the top, then its writes on each path); nothing
      proves the two agree, so they must be kept in step by hand. */
  function CorrectedBodyOps(s: Store, from: string, to: string): seq<TxOp>
  {
    if PairKey(from, to) !in s.waves then [Get(WaveRef), Get(ChatRef), Put(WaveRef)]
    else if Mutual(s, from, to) then [Get(WaveRef), Get(ChatRef), Put(WaveRef), Put(ChatRef)]
    else [Get(WaveRef), Get(ChatRef), Put(WaveRef)]
  }

  /** The as-written body run by the store: `None` when the store refuses it. */
  function AsWrittenCommit(s: Store, from: string, to: string, now: Time): Option<TxOutcome>
  {
    if ReadsBeforeWrites(AsWrittenBodyOps(s, from, to)) then Some(WaveTx(s, from, to, now)) else None
  }

  /** As written, the mutual case is refused: a wave that would complete
      the match never commits, so `CHAT_READY` is never returned and no
      chat is ever created by this protocol. */
  lemma AsWrittenMutualWaveFails(s: Store, from: string, to: string, now: Time)
    ensures Mutual(s, from, to) ==> AsWrittenCommit(s, from, to, now) == None
    ensures AsWrittenCommit(s, from, to, now).Some? ==> AsWrittenCommit(s, from, to, now).value.result == Waved
  {
    var ops := AsWrittenBodyOps(s, from, to);
    if Mutual(s, from, to) {
      assert ops[1].Put? && ops[2].Get?;
    }
  }

  /** With the reads moved first, every run commits. */
  lemma CorrectedBodyCommits(s: Store, from: string, to: string)
    ensures ReadsBeforeWrites(CorrectedBodyOps(s, from, to))
  {
  }
}
