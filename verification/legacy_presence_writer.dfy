/** The older presence writer of `lib/presence.ts`: the same state
    machine as `PresenceWriter`, except that the fallback waits 4 s, a
    one-shot error keeps the fallback pending, and the disconnect action
    and the teardown write `state` and `lastSeen` but not `updatedAt`. */
module LegacyPresenceWriter {
  import opened Wrappers
  import opened Rtdb
  import Throttling
  import PresenceWriter

  const FallbackDelayMs := 4000

  class Writer {
    const db: Database
    const uid: string
    const throttleMs: int
    const insecure: bool
    var fallbackArmed: bool
    var fallbackDue: int
    var oneShotPending: bool
    var permissionPending: bool
    var watching: bool
    var last: int
    var cleanup: PresenceWriter.Cleanup
    ghost var samples: seq<int>    // client times of the watch samples delivered
    ghost var writtenAt: seq<int>  // client times of the watch samples written

    /** `last` and the written samples are those of the throttle rule
        applied to every sample delivered so far. */
    ghost predicate Valid()
      reads this`last, this`samples, this`writtenAt
    {
      && last == Throttling.LastAfter(samples, 0, throttleMs)
      && writtenAt == Throttling.Accepted(samples, 0, throttleMs)
    }

    /** Mounting the effect at client time `clientNow` and server time `now`. */
    constructor Mount(db: Database, uid: Option<string>, throttleMs: int, insecure: bool,
                      hasGeolocation: bool, hasPermissionsApi: bool, agent: string, clientNow: int, now: Time)
      modifies db
      ensures Valid() && this.db == db && this.throttleMs == throttleMs && this.insecure == insecure
      ensures samples == [] && writtenAt == [] && last == 0
      ensures !PresenceWriter.Truthy(uid) ==>
        && db.presence == old(db.presence) && db.onDisconnect == old(db.onDisconnect)
        && !fallbackArmed && !oneShotPending && !permissionPending && !watching && cleanup == PresenceWriter.NoCleanup
      ensures PresenceWriter.Truthy(uid) ==>
        && this.uid == uid.value
        && db.presence == old(db.presence)[uid.value := PresenceWriter.MountRecord(uid.value, agent, insecure, hasGeolocation, now)]
        && db.onDisconnect == old(db.onDisconnect)[uid.value := GoOffline(false)]
        && fallbackArmed && fallbackDue == clientNow + FallbackDelayMs
        && oneShotPending == hasGeolocation && watching == hasGeolocation
        && permissionPending == (hasGeolocation && hasPermissionsApi)
        && cleanup == (if hasGeolocation then PresenceWriter.FullTeardown else PresenceWriter.ClearTimerOnly)
    {
      this.db := db;
      this.uid := if uid.Some? then uid.value else "";
      this.throttleMs := throttleMs;
      this.insecure := insecure;
      var mounted := PresenceWriter.Truthy(uid);
      fallbackArmed := mounted;
      fallbackDue := clientNow + FallbackDelayMs;
      oneShotPending := mounted && hasGeolocation;
      permissionPending := mounted && hasGeolocation && hasPermissionsApi;
      watching := mounted && hasGeolocation;
      last := 0;
      cleanup := if !mounted then PresenceWriter.NoCleanup else if hasGeolocation then PresenceWriter.FullTeardown else PresenceWriter.ClearTimerOnly;
      samples, writtenAt := [], [];
      new;
      if mounted {
        var u := uid.value;
        db.presence := db.presence[u := Seed(u, agent, now)];
        db.onDisconnect := db.onDisconnect[u := GoOffline(false)];
        if insecure {
          db.presence := db.presence[u := WithNote(db.presence[u], InsecureNote, now)];
        }
        if !hasGeolocation {
          db.presence := db.presence[u := WithNote(db.presence[u], "geolocation_unavailable", now)];
        }
      }
    }

    /** The fallback timer firing at client time `clientNow`: while still
        pending and due, it writes the sentinel location, once. */
    method FallbackFires(clientNow: int, now: Time)
      modifies this`fallbackArmed, db`presence
      ensures old(fallbackArmed) && clientNow >= fallbackDue ==>
        && !fallbackArmed
        && db.presence == old(db.presence)[uid := Fallback(Current(old(db.presence), uid), now)]
      ensures !(old(fallbackArmed) && clientNow >= fallbackDue) ==>
        fallbackArmed == old(fallbackArmed) && db.presence == old(db.presence)
    {
      if fallbackArmed && clientNow >= fallbackDue {
        fallbackArmed := false;
        db.presence := db.presence[uid := Fallback(Current(db.presence, uid), now)];
      }
    }

    /** The one-shot request succeeding: the fallback is cancelled and the
        fix written, keeping the insecure-origin note when it applies. */
    method OneShotSuccess(p: Position, now: Time)
      modifies this`fallbackArmed, this`oneShotPending, db`presence
      ensures old(oneShotPending) ==>
        && !fallbackArmed && !oneShotPending
        && db.presence == old(db.presence)[uid := OneShotFix(Current(old(db.presence), uid), p,
                                                             if insecure then Some(InsecureNote) else None, now)]
      ensures !old(oneShotPending) ==>
        fallbackArmed == old(fallbackArmed) && !oneShotPending && db.presence == old(db.presence)
    {
      if oneShotPending {
        oneShotPending := false;
        fallbackArmed := false;
        var note := if insecure then Some(InsecureNote) else None;
        db.presence := db.presence[uid := OneShotFix(Current(db.presence, uid), p, note, now)];
      }
    }

    /** The one-shot request failing with `code`: only the note and
        `updatedAt` change, and the fallback stays pending. */
    method OneShotError(code: nat, now: Time)
      modifies this`oneShotPending, db`presence
      ensures !oneShotPending
      ensures old(oneShotPending) ==>
        db.presence == old(db.presence)[uid := WithNote(Current(old(db.presence), uid), GeoErrNote(code), now)]
      ensures !old(oneShotPending) ==> db.presence == old(db.presence)
    {
      if oneShotPending {
        oneShotPending := false;
        db.presence := db.presence[uid := WithNote(Current(db.presence, uid), GeoErrNote(code), now)];
      }
    }

    /** A watch sample at client time `clientNow`: written when it is at
        least `throttleMs` after the last written one, dropped otherwise. */
    method WatchSample(clientNow: int, p: Position, now: Time)
      requires Valid()
      modifies this`last, this`samples, this`writtenAt, db`presence
      ensures Valid()
      ensures !watching ==> samples == old(samples) && last == old(last) && db.presence == old(db.presence)
      ensures watching ==> samples == old(samples) + [clientNow]
      ensures watching && Throttling.Accepts(clientNow, old(last), throttleMs) ==>
        && last == clientNow && writtenAt == old(writtenAt) + [clientNow]
        && db.presence == old(db.presence)[uid := WatchFix(Current(old(db.presence), uid), p, now)]
      ensures watching && !Throttling.Accepts(clientNow, old(last), throttleMs) ==>
        last == old(last) && writtenAt == old(writtenAt) && db.presence == old(db.presence)
    {
      if !watching {
        return;
      }
      Throttling.AcceptedSnoc(samples, 0, throttleMs, clientNow);
      samples := samples + [clientNow];
      if clientNow - last < throttleMs {
        return;
      }
      last := clientNow;
      writtenAt := writtenAt + [clientNow];
      db.presence := db.presence[uid := WatchFix(Current(db.presence, uid), p, now)];
    }

    /** A watch error: only the note and `updatedAt` change. */
    method WatchError(code: nat, now: Time)
      modifies db`presence
      ensures watching ==> db.presence == old(db.presence)[uid := WithNote(Current(old(db.presence), uid), GeoErrNote(code), now)]
      ensures !watching ==> db.presence == old(db.presence)
    {
      if watching {
        db.presence := db.presence[uid := WithNote(Current(db.presence, uid), GeoErrNote(code), now)];
      }
    }

    /** The permission query answering with `state`. */
    method PermissionState(state: string, now: Time)
      modifies this`permissionPending, db`presence
      ensures !permissionPending
      ensures old(permissionPending) ==> db.presence == old(db.presence)[uid := WithPerm(Current(old(db.presence), uid), state, now)]
      ensures !old(permissionPending) ==> db.presence == old(db.presence)
    {
      if permissionPending {
        permissionPending := false;
        db.presence := db.presence[uid := WithPerm(Current(db.presence, uid), state, now)];
      }
    }

    /** The effect's cleanup: with geolocation it cancels the fallback,
        stops the watch and writes the record offline; without it only
        the fallback is cancelled. It runs at most once. */
    method Unmount(now: Time)
      modifies this`fallbackArmed, this`watching, this`cleanup, db`presence
      ensures cleanup == PresenceWriter.NoCleanup
      ensures old(cleanup) == PresenceWriter.FullTeardown ==>
        && !fallbackArmed && !watching
        && db.presence == old(db.presence)[uid := WentOffline(Current(old(db.presence), uid), now, false)]
      ensures old(cleanup) == PresenceWriter.ClearTimerOnly ==>
        !fallbackArmed && watching == old(watching) && db.presence == old(db.presence)
      ensures old(cleanup) == PresenceWriter.NoCleanup ==>
        fallbackArmed == old(fallbackArmed) && watching == old(watching) && db.presence == old(db.presence)
    {
      var pending := cleanup;
      cleanup := PresenceWriter.NoCleanup;
      if pending == PresenceWriter.FullTeardown {
        fallbackArmed := false;
        watching := false;
        db.presence := db.presence[uid := WentOffline(Current(db.presence, uid), now, false)];
      } else if pending == PresenceWriter.ClearTimerOnly {
        fallbackArmed := false;
      }
    }
  }

  /** The watch writes are at least `throttleMs` apart. */
  lemma WatchWritesSpaced(w: Writer)
    requires w.Valid()
    ensures forall i :: 0 < i < |w.writtenAt| ==> w.writtenAt[i] - w.writtenAt[i - 1] >= w.throttleMs
  {
    Throttling.AcceptedSpaced(w.samples, 0, w.throttleMs);
  }

  /** With the older writer a failed one-shot request leaves the fallback
      pending, so the sentinel location is still written when the timer
      fires. */
  method FallbackAfterOneShotError(db: Database, uid: string, agent: string, code: nat,
                                   clientNow: int, t0: Time, t1: Time, t2: Time)
    returns (w: Writer)
    requires uid != ""
    modifies db
    ensures uid in db.presence
    ensures db.presence[uid].lat == Some(SentinelLat) && db.presence[uid].lng == Some(SentinelLng)
    ensures db.presence[uid].note == Some("fallback") && db.presence[uid].state == Some("online")
  {
    w := new Writer.Mount(db, Some(uid), PresenceWriter.DefaultThrottleMs, false,
                          true, false, agent, clientNow, t0);
    w.OneShotError(code, t1);
    w.FallbackFires(clientNow + FallbackDelayMs, t2);
  }

  /** With the older writer the disconnect action leaves `updatedAt` as the
      last write set it. */
  method LegacyDisconnectKeepsUpdatedAt(db: Database, uid: string, agent: string,
                                        clientNow: int, t0: Time, t1: Time)
    returns (w: Writer)
    requires uid != ""
    modifies db
    ensures uid in db.presence && db.presence[uid].state == Some("offline")
    ensures db.presence[uid].lastSeen == Some(t1) && db.presence[uid].updatedAt == Some(t0)
  {
    w := new Writer.Mount(db, Some(uid), PresenceWriter.DefaultThrottleMs, false,
                          true, false, agent, clientNow, t0);
    db.Disconnect(uid, t1);
  }
}
