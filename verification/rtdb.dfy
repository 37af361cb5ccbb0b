/** The realtime database's `presence/{uid}` records, the writes the
    presence code issues on them, and the server-side disconnect action.
    Coordinates and accuracies are opaque numbers; timestamps are
    abstract server clock values. */
module Rtdb {
  import opened Wrappers
  import Text

  type Time = int

  /** One `presence/{uid}` record. A field written as `null` is removed,
      so it reads as `None` like a field never written. */
  datatype Presence = Presence(
    uid: Option<string>,
    state: Option<string>,
    updatedAt: Option<Time>,
    agent: Option<string>,
    lat: Option<real>,
    lng: Option<real>,
    acc: Option<real>,
    hdg: Option<real>,
    spd: Option<real>,
    note: Option<string>,
    perm: Option<string>,
    lastSeen: Option<Time>)

  const Blank := Presence(None, None, None, None, None, None, None, None, None, None, None, None)

  /** The record at `uid`; an `update` on a missing record starts from an
      empty one. */
  function Current(m: map<string, Presence>, uid: string): Presence
  {
    if uid in m then m[uid] else Blank
  }

  /** A position sample as the geolocation callbacks deliver it; a
      heading or speed that is not a number is `None`. */
  datatype Position = Position(lat: real, lng: real, acc: Option<real>, hdg: Option<real>, spd: Option<real>)

  /** The fixed sentinel location and accuracy of the fallback write. */
  const SentinelLat: real := 47.918
  const SentinelLng: real := 106.917
  const SentinelAcc: real := 9999.0

  const InsecureNote := "insecure_origin_http"

  /** `geo_err_${err.code}`. */
  function GeoErrNote(code: nat): string
  {
    "geo_err_" + Text.DecimalString(code)
  }

  /** The seed `set`: it replaces the record, so no coordinates remain. */
  function Seed(uid: string, agent: string, now: Time): (r: Presence)
    ensures r.state == Some("online") && r.uid == Some(uid) && r.updatedAt == Some(now)
    ensures r.agent == Some(agent)
    ensures r.lat.None? && r.lng.None? && r.acc.None? && r.note.None?
    ensures r.hdg.None? && r.spd.None? && r.perm.None? && r.lastSeen.None?
  {
    Blank.(uid := Some(uid), state := Some("online"), updatedAt := Some(now), agent := Some(agent))
  }

  /** An update of `note` with `updatedAt` (the diagnostic writes):
      coordinates and `state` are kept. */
  function WithNote(r: Presence, note: string, now: Time): (r': Presence)
    ensures r'.note == Some(note) && r'.updatedAt == Some(now)
    ensures r'.(note := r.note, updatedAt := r.updatedAt) == r
  {
    r.(note := Some(note), updatedAt := Some(now))
  }

  /** The permission-state update. */
  function WithPerm(r: Presence, perm: string, now: Time): (r': Presence)
    ensures r'.perm == Some(perm) && r'.updatedAt == Some(now)
    ensures r'.(perm := r.perm, updatedAt := r.updatedAt) == r
  {
    r.(perm := Some(perm), updatedAt := Some(now))
  }

  /** The fallback write: the sentinel location, tagged `fallback`, online. */
  function Fallback(r: Presence, now: Time): (r': Presence)
    ensures r'.lat == Some(SentinelLat) && r'.lng == Some(SentinelLng) && r'.acc == Some(SentinelAcc)
    ensures r'.note == Some("fallback") && r'.state == Some("online") && r'.updatedAt == Some(now)
    ensures r'.uid == r.uid && r'.hdg == r.hdg && r'.spd == r.spd
    ensures r'.(lat := r.lat, lng := r.lng, acc := r.acc, note := r.note, state := r.state, updatedAt := r.updatedAt) == r
  {
    r.(lat := Some(SentinelLat), lng := Some(SentinelLng), acc := Some(SentinelAcc),
       note := Some("fallback"), state := Some("online"), updatedAt := Some(now))
  }

  /** The one-shot success write; a missing accuracy is written as 0. */
  function OneShotFix(r: Presence, p: Position, note: Option<string>, now: Time): (r': Presence)
    ensures r'.lat == Some(p.lat) && r'.lng == Some(p.lng) && r'.acc == Some(p.acc.GetOr(0.0))
    ensures r'.note == note && r'.state == Some("online") && r'.updatedAt == Some(now)
    ensures r'.hdg == r.hdg && r'.spd == r.spd && r'.uid == r.uid
    ensures r'.(lat := r.lat, lng := r.lng, acc := r.acc, note := r.note, state := r.state, updatedAt := r.updatedAt) == r
  {
    r.(lat := Some(p.lat), lng := Some(p.lng), acc := Some(p.acc.GetOr(0.0)),
       note := note, state := Some("online"), updatedAt := Some(now))
  }

  /** An accepted watch sample: position, heading and speed (null when
      not numbers), note cleared, online. */
  function WatchFix(r: Presence, p: Position, now: Time): (r': Presence)
    ensures r'.lat == Some(p.lat) && r'.lng == Some(p.lng) && r'.acc == Some(p.acc.GetOr(0.0))
    ensures r'.hdg == p.hdg && r'.spd == p.spd
    ensures r'.note.None? && r'.state == Some("online") && r'.updatedAt == Some(now)
    ensures r'.uid == r.uid && r'.agent == r.agent
    ensures r'.(lat := r.lat, lng := r.lng, acc := r.acc, hdg := r.hdg, spd := r.spd,
                note := r.note, state := r.state, updatedAt := r.updatedAt) == r
  {
    r.(lat := Some(p.lat), lng := Some(p.lng), acc := Some(p.acc.GetOr(0.0)),
       hdg := p.hdg, spd := p.spd, note := None, state := Some("online"), updatedAt := Some(now))
  }

  /** The offline write of a teardown or of the disconnect action:
      `state` offline and `lastSeen`, and `updatedAt` only when
      `stampUpdatedAt`. Coordinates are kept. */
  function WentOffline(r: Presence, now: Time, stampUpdatedAt: bool): (r': Presence)
    ensures r'.state == Some("offline") && r'.lastSeen == Some(now)
    ensures r'.updatedAt == (if stampUpdatedAt then Some(now) else r.updatedAt)
    ensures r'.lat == r.lat && r'.lng == r.lng && r'.acc == r.acc && r'.note == r.note
    ensures r'.(state := r.state, lastSeen := r.lastSeen, updatedAt := r.updatedAt) == r
  {
    r.(state := Some("offline"), lastSeen := Some(now),
       updatedAt := if stampUpdatedAt then Some(now) else r.updatedAt)
  }

  /** A registered `onDisconnect().update(...)`: the offline write, with
      or without `updatedAt`. */
  datatype DisconnectAction = GoOffline(stampUpdatedAt: bool)

  class Database {
    var presence: map<string, Presence>
    var onDisconnect: map<string, DisconnectAction>

    constructor (presence: map<string, Presence>)
      ensures this.presence == presence && onDisconnect == map[]
    {
      this.presence := presence;
      onDisconnect := map[];
    }

    /** The server's side of a lost connection: the action registered for
      `uid`, if any, is applied once and dropped. */
    method Disconnect(uid: string, now: Time)
      modifies this
      ensures uid in old(onDisconnect) ==>
        && presence == old(presence)[uid := WentOffline(Current(old(presence), uid), now, old(onDisconnect)[uid].stampUpdatedAt)]
        && presence[uid].state == Some("offline")
        && onDisconnect == old(onDisconnect) - {uid}
      ensures uid !in old(onDisconnect) ==> presence == old(presence) && onDisconnect == old(onDisconnect)
    {
      if uid in onDisconnect {
        presence := presence[uid := WentOffline(Current(presence, uid), now, onDisconnect[uid].stampUpdatedAt)];
        onDisconnect := onDisconnect - {uid};
      }
    }
  }
}
