/** The profile page of `app/profile/page.tsx`: loading the signed-in
    user's `users/{uid}` document into the form (or defaults from the
    auth account), normalising the form into the saved profile, and the
    comma-separated interests field. */
module Profile {
  import opened Wrappers
  import opened Firestore
  import Text

  /** The signed-in account as the auth hook reports it. */
  datatype AuthUser = AuthUser(uid: string, displayName: Option<string>, photoURL: Option<string>)

  /** The form when no profile document exists: the account's name and
      photo, or `""`. */
  function LoadDefault(u: AuthUser): (f: ProfileDoc)
    ensures f.displayName == Some(if u.displayName.Some? then u.displayName.value else "")
    ensures f.photoURL == Some(if u.photoURL.Some? then u.photoURL.value else "")
    ensures f.(displayName := None, photoURL := None) == EmptyProfileDoc
  {
    EmptyProfileDoc.(displayName := Some(u.displayName.GetOr("")), photoURL := Some(u.photoURL.GetOr("")))
  }

  /** `v || undefined`: the value when it is defined and not the falsy
      value of its type, otherwise undefined. */
  function Truthy<T(==)>(o: Option<T>, falsy: T): (r: Option<T>)
    ensures r.Some? <==> o.Some? && o.value != falsy
    ensures r.Some? ==> r == o
  {
    if o.Some? && o.value != falsy then o else None
  }

  /** The normalised profile that `save` writes for the form `form` at
      client time `now`. `None` is a field left undefined. */
  function SavePayload(u: AuthUser, form: ProfileDoc, now: Time): (p: ProfileDoc)
    // always present, defaulted
    ensures p.uid == Some(u.uid) && p.updatedAt == Some(now)
    ensures p.displayName.Some? && p.bio.Some? && p.photoURL.Some? && p.interests.Some? && p.createdAt.Some?
    ensures form.displayName.None? ==> p.displayName == Some("")
    ensures form.bio.None? ==> p.bio == Some("")
    ensures form.photoURL.None? ==> p.photoURL == Some("")
    ensures form.interests.None? ==> p.interests == Some([])
    // otherwise as typed
    ensures form.displayName.Some? ==> p.displayName == form.displayName
    ensures form.bio.Some? ==> p.bio == form.bio
    ensures form.photoURL.Some? ==> p.photoURL == form.photoURL
    ensures form.interests.Some? ==> p.interests == form.interests
    // falsy values become undefined
    ensures p.age.Some? <==> form.age.Some? && form.age.value != 0
    ensures p.age.Some? ==> p.age == form.age
    ensures p.gender.Some? <==> form.gender.Some? && form.gender.value != ""
    ensures p.gender.Some? ==> p.gender == form.gender
    // the creation time is kept when known, otherwise it is now
    ensures form.createdAt.Some? && form.createdAt.value != 0 ==> p.createdAt == form.createdAt
    ensures form.createdAt.None? || form.createdAt.value == 0 ==> p.createdAt == Some(now)
  {
    ProfileDoc(
      uid := Some(u.uid),
      displayName := Some(form.displayName.GetOr("")),
      bio := Some(form.bio.GetOr("")),
      photoURL := Some(form.photoURL.GetOr("")),
      age := Truthy(form.age, 0),
      gender := Truthy(form.gender, ""),
      interests := Some(form.interests.GetOr([])),
      createdAt := if Truthy(form.createdAt, 0).Some? then form.createdAt else Some(now),
      updatedAt := Some(now))
  }

  /** One field of a merge write: the written value when it is defined,
      otherwise the stored one. */
  function MergeField<T>(stored: Option<T>, written: Option<T>): (r: Option<T>)
    ensures written.Some? ==> r == written
    ensures written.None? ==> r == stored
  {
    if written.Some? then written else stored
  }

  /** `setDoc(ref, p, { merge: true })` over the stored document `d`:
      each field `p` defines replaces the stored one, the others stay. */
  function Merge(d: ProfileDoc, p: ProfileDoc): (r: ProfileDoc)
    ensures p.uid.Some? ==> r.uid == p.uid
    ensures p.uid.None? ==> r.uid == d.uid
    ensures p.age.Some? ==> r.age == p.age
    ensures p.age.None? ==> r.age == d.age
    ensures p.gender.Some? ==> r.gender == p.gender
    ensures p.gender.None? ==> r.gender == d.gender
    ensures p.createdAt.Some? ==> r.createdAt == p.createdAt
    ensures p.createdAt.None? ==> r.createdAt == d.createdAt
    ensures p.displayName.Some? ==> r.displayName == p.displayName
    ensures p.displayName.None? ==> r.displayName == d.displayName
    ensures p.bio.Some? ==> r.bio == p.bio
    ensures p.bio.None? ==> r.bio == d.bio
    ensures p.photoURL.Some? ==> r.photoURL == p.photoURL
    ensures p.photoURL.None? ==> r.photoURL == d.photoURL
    ensures p.interests.Some? ==> r.interests == p.interests
    ensures p.interests.None? ==> r.interests == d.interests
    ensures p.updatedAt.Some? ==> r.updatedAt == p.updatedAt
    ensures p.updatedAt.None? ==> r.updatedAt == d.updatedAt
  {
    ProfileDoc(
      uid := MergeField(d.uid, p.uid),
      displayName := MergeField(d.displayName, p.displayName),
      bio := MergeField(d.bio, p.bio),
      photoURL := MergeField(d.photoURL, p.photoURL),
      age := MergeField(d.age, p.age),
      gender := MergeField(d.gender, p.gender),
      interests := MergeField(d.interests, p.interests),
      createdAt := MergeField(d.createdAt, p.createdAt),
      updatedAt := MergeField(d.updatedAt, p.updatedAt))
  }

  /** A merge write that defines nothing leaves the stored document as it
      was. */
  lemma MergeNothing(d: ProfileDoc)
    ensures Merge(d, EmptyProfileDoc) == d
  {
  }

  /** Repeating a merge write changes nothing more. */
  lemma MergeIdempotent(d: ProfileDoc, p: ProfileDoc)
    ensures Merge(Merge(d, p), p) == Merge(d, p)
  {
  }

  /** Merging a document that defines every field replaces all of them. */
  lemma MergeSavedPayload(d: ProfileDoc, u: AuthUser, form: ProfileDoc, now: Time)
    requires form.age.Some? && form.age.value != 0 && form.gender.Some? && form.gender.value != ""
    ensures Merge(d, SavePayload(u, form, now)) == SavePayload(u, form, now)
  {
  }

  /** Whether Firestore accepts the payload: a field left `undefined`
      makes `setDoc` throw, and the payload of `save` leaves only `age`
      and `gender` possibly undefined. */
  predicate Writable(p: ProfileDoc)
  {
    p.uid.Some? && p.displayName.Some? && p.bio.Some? && p.photoURL.Some? && p.age.Some?
    && p.gender.Some? && p.interests.Some? && p.createdAt.Some? && p.updatedAt.Some?
  }

  /** A payload of `save` is accepted exactly when the form has a
      non-zero age and a non-empty gender. */
  lemma SavePayloadWritable(u: AuthUser, form: ProfileDoc, now: Time)
    ensures Writable(SavePayload(u, form, now)) <==>
      form.age.Some? && form.age.value != 0 && form.gender.Some? && form.gender.value != ""
  {
  }

  /** The stored profile of `uid`, empty when there is none. */
  function StoredProfile(s: Store, uid: string): ProfileDoc
  {
    if uid in s.users then s.users[uid] else EmptyProfileDoc
  }

  // ----- The interests field -----

  /** `.map(v => v.trim())` */
  function TrimAll(xs: seq<string>): (r: seq<string>)
    ensures |r| == |xs|
    ensures forall i :: 0 <= i < |r| ==> r[i] == Text.Trim(xs[i])
  {
    if |xs| == 0 then [] else [Text.Trim(xs[0])] + TrimAll(xs[1..])
  }

  /** `.filter(Boolean)` on strings: the non-empty ones, in order. */
  function NonEmpty(xs: seq<string>): (r: seq<string>)
    ensures forall x :: x in r <==> x in xs && x != ""
  {
    if |xs| == 0 then []
    else (if xs[0] != "" then [xs[0]] else []) + NonEmpty(xs[1..])
  }

  /** The interests typed as text: split at commas, each piece trimmed,
      empty pieces dropped. */
  function ParseInterests(text: string): (r: seq<string>)
    ensures forall x :: x in r ==> x != "" && Text.Trimmed(x) && ',' !in x
  {
    NonEmpty(TrimAll(Text.Split(text, ',')))
  }

  /** The interests shown in the field: joined with `", "`. */
  function FormatInterests(xs: seq<string>): string
  {
    Text.Join(xs, ", ")
  }

  lemma {:induction false} TrimAllAppend(a: seq<string>, b: seq<string>)
    ensures TrimAll(a + b) == TrimAll(a) + TrimAll(b)
  {
    if |a| > 0 {
      assert (a + b)[1..] == a[1..] + b;
      TrimAllAppend(a[1..], b);
    } else {
      assert a + b == b;
    }
  }

  lemma {:induction false} NonEmptyAppend(a: seq<string>, b: seq<string>)
    ensures NonEmpty(a + b) == NonEmpty(a) + NonEmpty(b)
  {
    if |a| > 0 {
      assert (a + b)[1..] == a[1..] + b;
      NonEmptyAppend(a[1..], b);
    } else {
      assert a + b == b;
    }
  }

  /** The interests keep the order of the text: the interests of two
      comma-separated parts are those of each part, one after the other. */
  lemma ParseAppend(a: string, b: string)
    ensures ParseInterests(a + [','] + b) == ParseInterests(a) + ParseInterests(b)
  {
    var pa, pb := Text.Split(a, ','), Text.Split(b, ',');
    Text.SplitAppend(a, ',', b);
    TrimAllAppend(pa, pb);
    NonEmptyAppend(TrimAll(pa), TrimAll(pb));
  }

  /** Spaces after a comma do not matter. */
  lemma ParseLeadingSpace(s: string)
    ensures ParseInterests(" " + s) == ParseInterests(s)
  {
    var ps := Text.Split(s, ',');
    var p := Text.Split(" " + s, ',');
    assert (" " + s)[0] == ' ' && (" " + s)[1..] == s;
    assert p == [" " + ps[0]] + ps[1..];
    Text.TrimLeadingSpace(ps[0]);
    assert ps == [ps[0]] + ps[1..];
    TrimAllAppend([" " + ps[0]], ps[1..]);
    TrimAllAppend([ps[0]], ps[1..]);
    assert TrimAll(p) == TrimAll(ps);
  }

  /** A single non-empty, trimmed, comma-free interest parses to itself. */
  lemma ParseSingle(x: string)
    requires x != "" && Text.Trimmed(x) && ',' !in x
    ensures ParseInterests(x) == [x]
  {
    Text.SplitNoSeparator(x, ',');
    assert TrimAll([x]) == [x];
    assert [x][1..] == [];
    assert NonEmpty([x]) == [x];
  }

  /** Formatting a list of non-empty, trimmed, comma-free interests and
      parsing the text gives the list back. */
  lemma {:induction false} InterestsRoundTrip(xs: seq<string>)
    requires forall i :: 0 <= i < |xs| ==> xs[i] != "" && Text.Trimmed(xs[i]) && ',' !in xs[i]
    ensures ParseInterests(FormatInterests(xs)) == xs
  {
    if |xs| == 0 {
      assert FormatInterests(xs) == "";
      assert Text.Split("", ',') == [""];
      assert TrimAll([""]) == [""];
      assert NonEmpty([""]) == [];
    } else if |xs| == 1 {
      assert FormatInterests(xs) == xs[0];
      ParseSingle(xs[0]);
    } else {
      var rest := FormatInterests(xs[1..]);
      assert FormatInterests(xs) == xs[0] + [','] + (" " + rest);
      calc {
        ParseInterests(FormatInterests(xs));
        ParseInterests(xs[0] + [','] + (" " + rest));
        { ParseAppend(xs[0], " " + rest); }
        ParseInterests(xs[0]) + ParseInterests(" " + rest);
        { ParseSingle(xs[0]); ParseLeadingSpace(rest); }
        [xs[0]] + ParseInterests(rest);
        { InterestsRoundTrip(xs[1..]); }
        [xs[0]] + xs[1..];
      }
    }
  }

  /** Re-parsing the text the field shows after an edit leaves the
      interests unchanged. */
  lemma ReparseStable(text: string)
    ensures ParseInterests(FormatInterests(ParseInterests(text))) == ParseInterests(text)
  {
    InterestsRoundTrip(ParseInterests(text));
  }

  // ----- The page -----

  /** The page's state: the form being edited and the saving flag, for
      the signed-in user `user` (none when signed out). */
  class ProfilePage {
    const db: Database
    const user: Option<AuthUser>
    var form: ProfileDoc
    var loading: bool

    constructor (db: Database, user: Option<AuthUser>)
      ensures this.db == db && this.user == user
      ensures form == EmptyProfileDoc && !loading
    {
      this.db := db;
      this.user := user;
      form := EmptyProfileDoc;
      loading := false;
    }

    /** `load`: the stored profile, or the account's defaults. */
    method Load()
      modifies this`form
      ensures user.None? ==> form == old(form)
      ensures user.Some? && user.value.uid in db.store.users ==> form == db.store.users[user.value.uid]
      ensures user.Some? && user.value.uid !in db.store.users ==> form == LoadDefault(user.value)
    {
      if user.None? {
        return;
      }
      var uid := user.value.uid;
      if uid in db.store.users {
        form := db.store.users[uid];
      } else {
        form := LoadDefault(user.value);
      }
    }

    /** The age input changing to the number `n` (`Number("")` is 0). */
    method EditAge(n: int)
      modifies this`form
      ensures form == old(form).(age := Some(n))
    {
      form := form.(age := Some(n));
    }

    /** The gender input changing to `g`. */
    method EditGender(g: string)
      modifies this`form
      ensures form == old(form).(gender := Some(g))
    {
      form := form.(gender := Some(g));
    }

    /** The interests input changing to `text`. */
    method EditInterests(text: string)
      modifies this`form
      ensures form == old(form).(interests := Some(ParseInterests(text)))
    {
      form := form.(interests := Some(ParseInterests(text)));
    }

    /** `save` at client time `now`: nothing when signed out; otherwise
        the normalised form is merged into `users/{uid}`. When the payload
        has an undefined field `setDoc` throws: nothing is stored and
        `loading` stays set. */
    method Save(now: Time)
      modifies this`loading, db`store
      ensures user.None? ==> db.store == old(db.store) && loading == old(loading)
      ensures user.Some? && Writable(SavePayload(user.value, form, now)) ==>
        && db.store == old(db.store).(users := old(db.store).users[user.value.uid :=
             Merge(StoredProfile(old(db.store), user.value.uid), SavePayload(user.value, form, now))])
        && !loading
      ensures user.Some? && !Writable(SavePayload(user.value, form, now)) ==>
        db.store == old(db.store) && loading
    {
      if user.None? {
        return;
      }
      loading := true;
      var uid := user.value.uid;
      var payload := SavePayload(user.value, form, now);
      if !Writable(payload) {
        return;
      }
      db.store := db.store.(users := db.store.users[uid := Merge(StoredProfile(db.store, uid), payload)]);
      loading := false;
    }

    /** `save` that also keeps the creation time it wrote in the form,
        so a later save on the same page does not move it. */
    method SaveKeepingCreatedAt(now: Time)
      modifies this`loading, this`form, db`store
      ensures user.None? ==> db.store == old(db.store) && loading == old(loading) && form == old(form)
      ensures user.Some? && Writable(SavePayload(user.value, old(form), now)) ==>
        && db.store == old(db.store).(users := old(db.store).users[user.value.uid :=
             Merge(StoredProfile(old(db.store), user.value.uid), SavePayload(user.value, old(form), now))])
        && form == old(form).(createdAt := SavePayload(user.value, old(form), now).createdAt)
        && !loading
      ensures user.Some? && !Writable(SavePayload(user.value, old(form), now)) ==>
        db.store == old(db.store) && form == old(form) && loading
    {
      if user.None? {
        return;
      }
      loading := true;
      var uid := user.value.uid;
      var payload := SavePayload(user.value, form, now);
      if !Writable(payload) {
        return;
      }
      db.store := db.store.(users := db.store.users[uid := Merge(StoredProfile(db.store, uid), payload)]);
      form := form.(createdAt := payload.createdAt);
      loading := false;
    }
  }

  /** As written: on a user without a profile document who fills in an
      age and a gender, two saves on the same page store the second
      save's time as `createdAt`. */
  method SecondSaveMovesCreatedAt(db: Database, u: AuthUser, age: int, gender: string, t1: Time, t2: Time)
    requires u.uid !in db.store.users && age != 0 && gender != ""
    modifies db
    ensures u.uid in db.store.users && db.store.users[u.uid].createdAt == Some(t2)
  {
    var page := new ProfilePage(db, Some(u));
    page.Load();
    page.EditAge(age);
    page.EditGender(gender);
    page.Save(t1);
    page.Save(t2);
  }

  /** As written: with no age filled in, the save is refused and nothing
      is stored. */
  method SaveWithoutAgeRefused(db: Database, u: AuthUser, t: Time)
    requires u.uid !in db.store.users
    modifies db
    ensures db.store == old(db.store)
  {
    var page := new ProfilePage(db, Some(u));
    page.Load();
    page.Save(t);
  }

  /** Corrected: the creation time stored by the first save survives
      every later save on the page. */
  method CreatedAtStable(db: Database, u: AuthUser, age: int, gender: string, t1: Time, t2: Time)
    requires u.uid !in db.store.users && age != 0 && gender != "" && t1 != 0
    modifies db
    ensures u.uid in db.store.users && db.store.users[u.uid].createdAt == Some(t1)
  {
    var page := new ProfilePage(db, Some(u));
    page.Load();
    page.EditAge(age);
    page.EditGender(gender);
    page.SaveKeepingCreatedAt(t1);
    page.SaveKeepingCreatedAt(t2);
  }
}
