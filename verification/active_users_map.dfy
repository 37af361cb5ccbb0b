/** The presence side of `components/ActiveUsersMap.tsx`: the parse of a
    `presence` snapshot into the list of users with coordinates, the
    30-second staleness filter that builds the markers of the other users,
    the map centre, the viewer's own `writePresence` payload, and the
    seed/fallback/teardown behaviour of its location effect. */
module ActiveUsersMap {
  import opened Wrappers
  import opened Rtdb

  /** A user with coordinates, as the map keeps it. */
  datatype LiveUser = LiveUser(uid: string, lat: real, lng: real, acc: Option<real>,
                               updatedAt: Option<Time>, state: Option<string>)

  /** A presence snapshot's value: `None` for `null`, otherwise its
      entries in key order. */
  type Snapshot = Option<seq<(string, Presence)>>

  /** Whether an entry has both coordinates as numbers. */
  predicate HasCoords(e: (string, Presence))
  {
    e.1.lat.Some? && e.1.lng.Some?
  }

  /** The list entry of a record with coordinates; the uid is the key. */
  function ToLive(e: (string, Presence)): (u: LiveUser)
    requires HasCoords(e)
    ensures u.uid == e.0 && u.lat == e.1.lat.value && u.lng == e.1.lng.value
    ensures u.acc == e.1.acc && u.updatedAt == e.1.updatedAt && u.state == e.1.state
  {
    LiveUser(e.0, e.1.lat.value, e.1.lng.value, e.1.acc, e.1.updatedAt, e.1.state)
  }

  /** The users of a list of entries: those with coordinates, in order. */
  function LiveEntries(entries: seq<(string, Presence)>): seq<LiveUser>
  {
    if |entries| == 0 then []
    else
      var e := entries[|entries| - 1];
      LiveEntries(entries[..|entries| - 1]) + (if HasCoords(e) then [ToLive(e)] else [])
  }

  /** The snapshot listener's loop over the keys of the value. */
  method ParseSnapshot(val: Snapshot) returns (live: seq<LiveUser>)
    ensures val.None? ==> live == []
    ensures val.Some? ==> live == LiveEntries(val.value)
  {
    live := [];
    if val.Some? {
      var entries := val.value;
      var i := 0;
      while i < |entries|
        invariant 0 <= i <= |entries|
        invariant live == LiveEntries(entries[..i])
      {
        var e := entries[i];
        assert entries[..i + 1][..i] == entries[..i];
        if e.1.lat.Some? && e.1.lng.Some? {
          live := live + [LiveUser(e.0, e.1.lat.value, e.1.lng.value, e.1.acc, e.1.updatedAt, e.1.state)];
        }
        i := i + 1;
      }
      assert entries[..i] == entries;
    }
  }

  /** The parsed list holds exactly the entries with both coordinates,
      each under its own key. */
  lemma {:induction false} LiveEntriesExactly(entries: seq<(string, Presence)>, u: LiveUser)
    ensures u in LiveEntries(entries) <==>
      exists i :: 0 <= i < |entries| && HasCoords(entries[i]) && u == ToLive(entries[i])
  {
    if |entries| > 0 {
      var n := |entries| - 1;
      var init := entries[..n];
      LiveEntriesExactly(init, u);
      if u in LiveEntries(entries) {
        if u in LiveEntries(init) {
          var i :| 0 <= i < |init| && HasCoords(init[i]) && u == ToLive(init[i]);
          assert entries[i] == init[i];
        } else {
          assert HasCoords(entries[n]) && u == ToLive(entries[n]);
        }
      }
      if exists i :: 0 <= i < |entries| && HasCoords(entries[i]) && u == ToLive(entries[i]) {
        var i :| 0 <= i < |entries| && HasCoords(entries[i]) && u == ToLive(entries[i]);
        if i < n {
          assert init[i] == entries[i];
        }
      }
    }
  }

  /** The parse keeps the order of the keys and drops the rest:
      parsing two runs of entries gives the two parses one after the other. */
  lemma {:induction false} LiveEntriesAppend(a: seq<(string, Presence)>, b: seq<(string, Presence)>)
    ensures LiveEntries(a + b) == LiveEntries(a) + LiveEntries(b)
    decreases |b|
  {
    if |b| == 0 {
      assert a + b == a;
    } else {
      var n := |b| - 1;
      assert (a + b)[..|a + b| - 1] == a + b[..n];
      LiveEntriesAppend(a, b[..n]);
    }
  }

  /** The staleness window of the markers, in milliseconds. */
  const StaleAfterMs := 30000

  /** `u.updatedAt ? u.updatedAt * 1 : 0`. */
  function UpdatedOrZero(u: LiveUser): Time
  {
    if u.updatedAt.Some? then u.updatedAt.value else 0
  }

  /** The label given to a user at client time `now`; the stored state
      plays no part. */
  function Classify(u: LiveUser, now: Time): (r: LiveUser)
    ensures r.(state := u.state) == u
    ensures r.state == Some(if now - UpdatedOrZero(u) > StaleAfterMs then "offline" else "online")
  {
    u.(state := Some(if now - UpdatedOrZero(u) > StaleAfterMs then "offline" else "online"))
  }

  /** `.filter(u => u.uid !== uid)` */
  function ExcludeViewer(users: seq<LiveUser>, viewer: string): seq<LiveUser>
  {
    if |users| == 0 then []
    else (if users[0].uid != viewer then [users[0]] else []) + ExcludeViewer(users[1..], viewer)
  }

  /** `.map(...)` relabelling every user. */
  function ClassifyAll(users: seq<LiveUser>, now: Time): seq<LiveUser>
  {
    if |users| == 0 then [] else [Classify(users[0], now)] + ClassifyAll(users[1..], now)
  }

  /** `.filter(u => u.state === 'online')` */
  function KeepOnline(users: seq<LiveUser>): seq<LiveUser>
  {
    if |users| == 0 then []
    else (if users[0].state == Some("online") then [users[0]] else []) + KeepOnline(users[1..])
  }

  /** The users shown as markers to `viewer` at client time `now`. */
  function Others(users: seq<LiveUser>, viewer: string, now: Time): seq<LiveUser>
  {
    KeepOnline(ClassifyAll(ExcludeViewer(users, viewer), now))
  }

  /** Whether a user is recent enough to be shown. */
  predicate Fresh(u: LiveUser, now: Time)
  {
    now - UpdatedOrZero(u) <= StaleAfterMs
  }

  lemma {:induction false} ExcludeViewerMembers(users: seq<LiveUser>, viewer: string, u: LiveUser)
    ensures u in ExcludeViewer(users, viewer) <==> u in users && u.uid != viewer
  {
    if |users| > 0 {
      ExcludeViewerMembers(users[1..], viewer, u);
      assert users == [users[0]] + users[1..];
    }
  }

  lemma {:induction false} ClassifyAllMembers(users: seq<LiveUser>, now: Time, u: LiveUser)
    ensures u in ClassifyAll(users, now) <==> exists v :: v in users && u == Classify(v, now)
  {
    if |users| > 0 {
      ClassifyAllMembers(users[1..], now, u);
      assert users == [users[0]] + users[1..];
      if exists v :: v in users && u == Classify(v, now) {
        var v :| v in users && u == Classify(v, now);
        if v != users[0] {
          assert v in users[1..];
        }
      }
    }
  }

  lemma {:induction false} KeepOnlineMembers(users: seq<LiveUser>, u: LiveUser)
    ensures u in KeepOnline(users) <==> u in users && u.state == Some("online")
  {
    if |users| > 0 {
      KeepOnlineMembers(users[1..], u);
      assert users == [users[0]] + users[1..];
    }
  }

  /** A marker is shown for exactly the users other than the viewer whose
      `updatedAt` (0 when missing) is at most 30 s old, each relabelled
      online whatever its stored state. */
  lemma OthersExactly(users: seq<LiveUser>, viewer: string, now: Time, u: LiveUser)
    ensures u in Others(users, viewer, now) <==>
      exists v :: v in users && v.uid != viewer && Fresh(v, now) && u == v.(state := Some("online"))
  {
    var mine := ExcludeViewer(users, viewer);
    KeepOnlineMembers(ClassifyAll(mine, now), u);
    ClassifyAllMembers(mine, now, u);
    if exists v :: v in mine && u == Classify(v, now) {
      var v :| v in mine && u == Classify(v, now);
      ExcludeViewerMembers(users, viewer, v);
    }
    if exists v :: v in users && v.uid != viewer && Fresh(v, now) && u == v.(state := Some("online")) {
      var v :| v in users && v.uid != viewer && Fresh(v, now) && u == v.(state := Some("online"));
      ExcludeViewerMembers(users, viewer, v);
    }
  }

  /** The viewer never sees a marker of their own, and every marker is
      labelled online. */
  lemma OthersExcludeViewerAllOnline(users: seq<LiveUser>, viewer: string, now: Time)
    ensures forall u :: u in Others(users, viewer, now) ==> u.uid != viewer && u.state == Some("online")
  {
    forall u | u in Others(users, viewer, now)
      ensures u.uid != viewer && u.state == Some("online")
    {
      OthersExactly(users, viewer, now, u);
    }
  }

  /** The window boundary: an update exactly 30 000 ms old is shown, one
      30 001 ms old is not, and a missing `updatedAt` counts as 0. */
  lemma StalenessBoundary(u: LiveUser, viewer: string, now: Time)
    requires u.uid != viewer
    ensures u.updatedAt == Some(now - 30000) ==> Others([u], viewer, now) == [u.(state := Some("online"))]
    ensures u.updatedAt == Some(now - 30001) ==> Others([u], viewer, now) == []
    ensures u.updatedAt.None? ==> (Others([u], viewer, now) != [] <==> now <= 30000)
  {
    assert [u][1..] == [];
    assert ExcludeViewer([u], viewer) == [u];
    assert ClassifyAll([u], now) == [Classify(u, now)];
    assert KeepOnline([Classify(u, now)]) == (if Fresh(u, now) then [Classify(u, now)] else []);
  }

  lemma {:induction false} ExcludeViewerAppend(a: seq<LiveUser>, b: seq<LiveUser>, viewer: string)
    ensures ExcludeViewer(a + b, viewer) == ExcludeViewer(a, viewer) + ExcludeViewer(b, viewer)
  {
    if |a| > 0 {
      assert (a + b)[1..] == a[1..] + b;
      ExcludeViewerAppend(a[1..], b, viewer);
    } else {
      assert a + b == b;
    }
  }

  lemma {:induction false} ClassifyAllAppend(a: seq<LiveUser>, b: seq<LiveUser>, now: Time)
    ensures ClassifyAll(a + b, now) == ClassifyAll(a, now) + ClassifyAll(b, now)
  {
    if |a| > 0 {
      assert (a + b)[1..] == a[1..] + b;
      ClassifyAllAppend(a[1..], b, now);
    } else {
      assert a + b == b;
    }
  }

  lemma {:induction false} KeepOnlineAppend(a: seq<LiveUser>, b: seq<LiveUser>)
    ensures KeepOnline(a + b) == KeepOnline(a) + KeepOnline(b)
  {
    if |a| > 0 {
      assert (a + b)[1..] == a[1..] + b;
      KeepOnlineAppend(a[1..], b);
    } else {
      assert a + b == b;
    }
  }

  /** The filter keeps the input order: the markers of two runs of users
      are the markers of each run, one after the other. */
  lemma OthersAppend(a: seq<LiveUser>, b: seq<LiveUser>, viewer: string, now: Time)
    ensures Others(a + b, viewer, now) == Others(a, viewer, now) + Others(b, viewer, now)
  {
    ExcludeViewerAppend(a, b, viewer);
    ClassifyAllAppend(ExcludeViewer(a, viewer), ExcludeViewer(b, viewer), now);
    KeepOnlineAppend(ClassifyAll(ExcludeViewer(a, viewer), now), ClassifyAll(ExcludeViewer(b, viewer), now));
  }

  /** For one user, the stored `state` plays no part. */
  lemma OthersSingleIgnoresState(x: LiveUser, y: LiveUser, viewer: string, now: Time)
    requires x.(state := None) == y.(state := None)
    ensures Others([x], viewer, now) == Others([y], viewer, now)
  {
    assert [x][1..] == [] && [y][1..] == [];
    assert Classify(x, now) == Classify(y, now);
  }

  /** Two lists of users that differ at most in their stored `state`. */
  predicate SameButState(a: seq<LiveUser>, b: seq<LiveUser>)
  {
    |a| == |b| && forall i :: 0 <= i < |a| ==> a[i].(state := None) == b[i].(state := None)
  }

  lemma SameButStateTail(a: seq<LiveUser>, b: seq<LiveUser>)
    requires SameButState(a, b) && |a| > 0
    ensures SameButState(a[1..], b[1..]) && a[0].(state := None) == b[0].(state := None)
  {
    assert forall i :: 0 <= i < |a| - 1 ==> a[1..][i] == a[i + 1] && b[1..][i] == b[i + 1];
  }

  /** The stored `state` plays no part: two lists that differ only in it
      give the same markers. */
  lemma {:induction false} OthersIgnoreStoredState(a: seq<LiveUser>, b: seq<LiveUser>, viewer: string, now: Time)
    requires SameButState(a, b)
    ensures Others(a, viewer, now) == Others(b, viewer, now)
  {
    if |a| > 0 {
      SameButStateTail(a, b);
      OthersIgnoreStoredState(a[1..], b[1..], viewer, now);
      assert a == [a[0]] + a[1..] && b == [b[0]] + b[1..];
      OthersAppend([a[0]], a[1..], viewer, now);
      OthersAppend([b[0]], b[1..], viewer, now);
      OthersSingleIgnoresState(a[0], b[0], viewer, now);
    }
  }

  /** The default centre when the viewer's position is not known. */
  const DefaultCenter: (real, real) := (47.9185, 106.9177)

  /** `myPos || [47.9185, 106.9177]`. */
  function Center(myPos: Option<(real, real)>): (c: (real, real))
    ensures myPos.Some? ==> c == myPos.value
    ensures myPos.None? ==> c == DefaultCenter
  {
    myPos.GetOr(DefaultCenter)
  }

  /** The fallback timer's guard: reseed only when the seed has not
      succeeded and the position the effect saw was null. */
  predicate ShouldReseed(seededOnce: bool, capturedPos: Option<(real, real)>)
  {
    !seededOnce && capturedPos.None?
  }

  /** The `writePresence` update of the viewer's record: position, `acc`
      (0 when null or undefined), server time, `online`, and the viewer's
      uid; the other fields are kept. */
  function PresencePayload(r: Presence, uid: string, lat: real, lng: real, acc: Option<real>, now: Time): (r': Presence)
    ensures r'.lat == Some(lat) && r'.lng == Some(lng)
    ensures r'.acc == Some(if acc.Some? then acc.value else 0.0)
    ensures r'.updatedAt == Some(now) && r'.state == Some("online") && r'.uid == Some(uid)
    ensures r'.(lat := r.lat, lng := r.lng, acc := r.acc, updatedAt := r.updatedAt, state := r.state, uid := r.uid) == r
  {
    r.(lat := Some(lat), lng := Some(lng), acc := Some(acc.GetOr(0.0)),
       updatedAt := Some(now), state := Some("online"), uid := Some(uid))
  }

  /** The map component for the viewer `uid`: the subscribed user list,
      the known position, and the location effect's pending timer and
      watch. The effect runs once, at mount, when `myPos` is still null,
      and the fallback timer's closure reads that captured null rather
      than the current `myPos`. `cleanupRegistered` says whether the
      effect got as far as returning its cleanup. */
  class MapView {
    const db: Database
    const uid: string
    var users: seq<LiveUser>
    var myPos: Option<(real, real)>
    var seededOnce: bool
    var fallbackArmed: bool
    var watching: bool
    var mounted: bool
    var cleanupRegistered: bool

    /** Mounting: nothing known yet; with geolocation the seed request,
        the watch and the fallback timer start and the cleanup is
        registered; without it the effect returns early and registers
        nothing. */
    constructor Mount(db: Database, uid: string, hasGeolocation: bool)
      ensures this.db == db && this.uid == uid
      ensures users == [] && myPos.None? && !seededOnce && mounted
      ensures fallbackArmed == hasGeolocation && watching == hasGeolocation
      ensures cleanupRegistered == hasGeolocation
    {
      this.db := db;
      this.uid := uid;
      users := [];
      myPos := None;
      seededOnce := false;
      fallbackArmed := hasGeolocation;
      watching := hasGeolocation;
      mounted := true;
      cleanupRegistered := hasGeolocation;
    }

    /** A `presence` snapshot arriving replaces the user list. */
    method OnSnapshot(val: Snapshot)
      modifies this`users
      ensures val.None? ==> users == []
      ensures val.Some? ==> users == LiveEntries(val.value)
    {
      users := ParseSnapshot(val);
    }

    /** `writePresence(lat, lng, acc)`. */
    method WritePresence(lat: real, lng: real, acc: Option<real>, now: Time)
      modifies db`presence
      ensures db.presence == old(db.presence)[uid := PresencePayload(Current(old(db.presence), uid), uid, lat, lng, acc, now)]
      ensures db.presence[uid].state == Some("online") && db.presence[uid].uid == Some(uid)
    {
      db.presence := db.presence[uid := PresencePayload(Current(db.presence, uid), uid, lat, lng, acc, now)];
    }

    /** A fix from the seed request: the position is known, written, and
        the view is marked seeded. */
    method OnSeedFix(p: Position, now: Time)
      modifies this`myPos, this`seededOnce, db`presence
      ensures myPos == Some((p.lat, p.lng)) && seededOnce
      ensures db.presence == old(db.presence)[uid := PresencePayload(Current(old(db.presence), uid), uid, p.lat, p.lng, p.acc, now)]
    {
      myPos := Some((p.lat, p.lng));
      WritePresence(p.lat, p.lng, p.acc, now);
      seededOnce := true;
    }

    /** A fix from the watch or from a nudge: the position is known and
        written, the seeded flag is left as it was. */
    method OnFix(p: Position, now: Time)
      modifies this`myPos, db`presence
      ensures myPos == Some((p.lat, p.lng))
      ensures db.presence == old(db.presence)[uid := PresencePayload(Current(old(db.presence), uid), uid, p.lat, p.lng, p.acc, now)]
    {
      myPos := Some((p.lat, p.lng));
      WritePresence(p.lat, p.lng, p.acc, now);
    }

    /** The fallback timer firing: it asks for a new seed exactly when it
        is still pending and the guard holds for the position captured at
        mount, which was null. */
    method FallbackFires() returns (reseed: bool)
      modifies this`fallbackArmed
      ensures !fallbackArmed
      ensures reseed <==> old(fallbackArmed) && ShouldReseed(seededOnce, None)
    {
      reseed := fallbackArmed && !seededOnce;
      fallbackArmed := false;
    }

    /** Unmounting runs the effect's cleanup when one was registered: the
        timer and the watch stop and the viewer's record is removed.
        Without a registered cleanup nothing is removed. */
    method Unmount()
      modifies this`fallbackArmed, this`watching, this`mounted, db`presence
      ensures !mounted
      ensures old(cleanupRegistered) ==>
        !fallbackArmed && !watching && db.presence == old(db.presence) - {uid} && uid !in db.presence
      ensures !old(cleanupRegistered) ==>
        fallbackArmed == old(fallbackArmed) && watching == old(watching) && db.presence == old(db.presence)
    {
      mounted := false;
      if cleanupRegistered {
        fallbackArmed := false;
        watching := false;
        db.presence := db.presence - {uid};
      }
    }
  }

  /** The fallback guard reads the position captured when the effect
      ran, so a watch fix before the timer does not stop a reseed while
      the seed request has not succeeded. */
  method WatchFixDoesNotStopReseed(db: Database, uid: string, p: Position, now: Time)
    returns (reseed: bool)
    modifies db
    ensures reseed
  {
    var view := new MapView.Mount(db, uid, true);
    view.OnFix(p, now);
    reseed := view.FallbackFires();
  }

  /** Without geolocation the effect registers no cleanup, so leaving
      the map keeps the viewer's record. */
  method NoGeolocationKeepsRecord(db: Database, uid: string)
    modifies db
    ensures db.presence == old(db.presence)
  {
    var view := new MapView.Mount(db, uid, false);
    view.Unmount();
  }

  /** With geolocation, leaving the map removes the viewer's record. */
  method GeolocationUnmountRemovesRecord(db: Database, uid: string)
    modifies db
    ensures db.presence == old(db.presence) - {uid}
  {
    var view := new MapView.Mount(db, uid, true);
    view.Unmount();
  }

  /** Once the seed has succeeded, the fallback never reseeds. */
  method SeedStopsReseed(db: Database, uid: string, p: Position, now: Time)
    returns (reseed: bool)
    modifies db
    ensures !reseed
  {
    var view := new MapView.Mount(db, uid, true);
    view.OnSeedFix(p, now);
    reseed := view.FallbackFires();
  }
}
