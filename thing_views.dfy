/**
 * The thing endpoints (`core/views/things.py`): creating a thing, viewing,
 * updating and deleting one, and reserving and releasing it. The caller is
 * an authenticated user, so it is a row of the users table.
 *
 * Each view is a function on `State` and a method on the tables proved to
 * agree with it. Input validation of the create and update bodies (headline
 * sanitising, image ids) is not modelled: the bodies arrive validated.
 */
module ThingViews {
  import opened Wrappers
  import opened Lists
  import opened Bookings
  import opened Things
  import opened Collections
  import opened Users
  import opened Database

  // ---------------------------------------------------------------------------
  // Who may open a thing's page

  /** The thing is listed by some existing collection on the user's shared list. */
  predicate SharedWith(t: Thing, collections: map<string, Collection>, u: User) {
    exists i :: 0 <= i < |u.sharedCollections| && u.sharedCollections[i] in collections
      && t.code in collections[u.sharedCollections[i]].things
  }

  /**
   * `can_view_thing`: the owner, or a user with some existing shared
   * collection that lists the thing. Availability plays no part here.
   */
  predicate MayOpen(t: Thing, collections: map<string, Collection>, u: User) {
    Things.IsOwner(t, u.code) || SharedWith(t, collections, u)
  }

  /** `can_view_thing`, as the loop over the user's shared list that skips vanished collections. */
  method CanViewThing(t: Thing, collections: map<string, Collection>, u: User) returns (ok: bool)
    ensures ok <==> MayOpen(t, collections, u)
  {
    if Things.IsOwner(t, u.code) {
      return true;
    }
    var i := 0;
    while i < |u.sharedCollections|
      invariant 0 <= i <= |u.sharedCollections|
      invariant forall j :: 0 <= j < i ==> !(u.sharedCollections[j] in collections && t.code in collections[u.sharedCollections[j]].things)
    {
      var c := u.sharedCollections[i];
      if c in collections && t.code in collections[c].things {
        return true;
      }
      i := i + 1;
    }
    return false;
  }

  /**
   * The page check and the request check agree for available things when the
   * user's shared list records every collection the user is invited to: a
   * user whom the request check lets in may open the page. A thing its owner
   * has made unavailable still opens for those it is shared with, while the
   * request check turns them away.
   */
  lemma {:induction false} RequestViewImpliesPageView(t: Thing, collections: map<string, Collection>, u: User)
    requires forall k :: k in collections && IsInvited(collections[k], u.code) ==> k in u.sharedCollections
    ensures Things.CanView(t, collections, u.code) ==> MayOpen(t, collections, u)
    ensures MayOpen(t, collections, u) <==> MayOpen(t.(available := !t.available), collections, u)
  {
    if Things.CanView(t, collections, u.code) && !Things.IsOwner(t, u.code) {
      var k :| k in collections && IsInvited(collections[k], u.code) && t.code in collections[k].things;
      var i :| 0 <= i < |u.sharedCollections| && u.sharedCollections[i] == k;
      assert u.sharedCollections[i] in collections && t.code in collections[u.sharedCollections[i]].things;
    }
    var t' := t.(available := !t.available);
    if SharedWith(t', collections, u) {
      var i :| 0 <= i < |u.sharedCollections| && u.sharedCollections[i] in collections
        && t'.code in collections[u.sharedCollections[i]].things;
      assert t.code == t'.code;
    }
  }

  /** `ThingDetailView.get`: 404 for a missing thing, 403 for a caller who may not open it, else 200. */
  function GetThing(st: State, thingCode: string, caller: string): (s: Status)
    requires caller in st.users
    ensures s == NotFound <==> thingCode !in st.things
    ensures s == Forbidden <==> thingCode in st.things && !MayOpen(st.things[thingCode], st.collections, st.users[caller])
    ensures s == Ok <==> thingCode in st.things && MayOpen(st.things[thingCode], st.collections, st.users[caller])
  {
    if thingCode !in st.things then NotFound
    else if !MayOpen(st.things[thingCode], st.collections, st.users[caller]) then Forbidden
    else Ok
  }

  // ---------------------------------------------------------------------------
  // Updating

  /** The fields an update may carry (`ThingUpdateSerializer`, `partial=True`); an absent field is left alone. */
  datatype ThingPatch = ThingPatch(headline: Option<string>, status: Option<ThingStatus>, available: Option<bool>)

  /** `serializer.save()` on a partial update: each given field is written and no other. */
  function Patched(t: Thing, p: ThingPatch): (r: Thing)
    ensures r.code == t.code && r.owner == t.owner && r.thingType == t.thingType
    ensures r.deal == t.deal && r.faq == t.faq
    ensures r.headline == (if p.headline.Some? then p.headline.value else t.headline)
    ensures r.status == (if p.status.Some? then p.status.value else t.status)
    ensures r.available == (if p.available.Some? then p.available.value else t.available)
    ensures p == ThingPatch(None, None, None) ==> r == t
  {
    var t1 := if p.headline.Some? then t.(headline := p.headline.value) else t;
    var t2 := if p.status.Some? then t1.(status := p.status.value) else t1;
    if p.available.Some? then t2.(available := p.available.value) else t2
  }

  /** `ThingDetailView.put`: 404 for a missing thing, 403 for anyone but its owner, else the patch is saved. */
  function PutThing(st: State, thingCode: string, caller: string, p: ThingPatch): (o: (Status, State))
    ensures o.0 in {Ok, NotFound, Forbidden}
    ensures o.0 != Ok ==> o.1 == st
    ensures o.1 == st.(things := o.1.things) && o.1.things.Keys == st.things.Keys
  {
    if thingCode !in st.things then (NotFound, st)
    else if !Things.IsOwner(st.things[thingCode], caller) then (Forbidden, st)
    else (Ok, st.(things := st.things[thingCode := Patched(st.things[thingCode], p)]))
  }

  /** Only the owner changes a thing, and an update changes that thing alone. */
  lemma PutOnlyByOwner(st: State, thingCode: string, caller: string, p: ThingPatch)
    ensures var (s, st') := PutThing(st, thingCode, caller, p);
      && (s == Ok <==> thingCode in st.things && st.things[thingCode].owner == caller)
      && (s != Ok ==> st' == st)
      && st' == st.(things := st'.things) && st'.things.Keys == st.things.Keys
      && (forall k :: k in st.things && k != thingCode ==> st'.things[k] == st.things[k])
  {
  }

  method PutThingView(db: Db, thingCode: string, caller: string, p: ThingPatch) returns (status: Status)
    requires db.Valid()
    modifies db.things
    ensures db.Valid()
    ensures (status, db.Snapshot()) == PutThing(old(db.Snapshot()), thingCode, caller, p)
  {
    if thingCode !in db.things.rows {
      return NotFound;
    }
    var t := db.things.rows[thingCode];
    if !Things.IsOwner(t, caller) {
      return Forbidden;
    }
    if p.headline.Some? {
      t := t.(headline := p.headline.value);
    }
    if p.status.Some? {
      t := t.(status := p.status.value);
    }
    if p.available.Some? {
      t := t.(available := p.available.value);
    }
    db.things.Save(t);
    status := Ok;
  }

  // ---------------------------------------------------------------------------
  // Deleting

  /** A collection after the owner's thing is deleted: the code is removed from each of the caller's collections that lists it. */
  function Unlisted(c: Collection, thingCode: string, caller: string): Collection {
    if Collections.IsOwner(c, caller) && thingCode in c.things then WithoutThing(c, thingCode) else c
  }

  /**
   * `ThingDetailView.delete`: 404 for a missing thing, 403 for anyone but its
   * owner; otherwise the code leaves the caller's own list and each of the
   * caller's collections, the thing is deleted, and the answer is 204.
   */
  function DeleteThing(st: State, thingCode: string, caller: string): (o: (Status, State))
    requires caller in st.users
    ensures o.0 in {NoContent, NotFound, Forbidden}
    ensures o.0 != NoContent ==> o.1 == st
    ensures o.1 == st.(users := o.1.users, collections := o.1.collections, things := o.1.things)
    ensures o.0 == NoContent ==> o.1.things.Keys == st.things.Keys - {thingCode}
    ensures o.1.users.Keys == st.users.Keys && o.1.collections.Keys == st.collections.Keys
  {
    if thingCode !in st.things then (NotFound, st)
    else if !Things.IsOwner(st.things[thingCode], caller) then (Forbidden, st)
    else
      var u := st.users[caller];
      (NoContent, st.(
        users := st.users[caller := u.(things := RemoveFirst(u.things, thingCode))],
        collections := map k | k in st.collections :: Unlisted(st.collections[k], thingCode, caller),
        things := st.things - {thingCode}))
  }

  /**
   * After a delete by the owner the thing is gone and no duplicate-free list
   * of the owner's still names it; collections of other users and the
   * bookings are left as they were. Anyone else gets 403 and nothing changes.
   */
  lemma {:induction false} DeleteForgetsThing(st: State, thingCode: string, caller: string)
    requires caller in st.users
    ensures var (s, st') := DeleteThing(st, thingCode, caller);
      && (s == NoContent <==> thingCode in st.things && st.things[thingCode].owner == caller)
      && (s != NoContent ==> st' == st)
      && (s == NoContent ==>
            && thingCode !in st'.things && st'.things == st.things - {thingCode}
            && (NoDup(st.users[caller].things) ==> thingCode !in st'.users[caller].things)
            && st'.collections.Keys == st.collections.Keys
            && (forall k :: k in st.collections && Collections.Valid(st.collections[k]) && st.collections[k].owner == caller ==>
                  thingCode !in st'.collections[k].things)
            && (forall k :: k in st.collections && st.collections[k].owner != caller ==> st'.collections[k] == st.collections[k])
            && st'.bookings == st.bookings && st'.rsvps == st.rsvps && st'.faqs == st.faqs)
  {
    var (s, st') := DeleteThing(st, thingCode, caller);
    if s == NoContent {
      RemoveFirstFromNoDupIf(st.users[caller].things, thingCode);
      forall k | k in st.collections && Collections.Valid(st.collections[k]) && st.collections[k].owner == caller
        ensures thingCode !in st'.collections[k].things
      {
        RemovalsKeepValid(st.collections[k], thingCode, caller);
      }
    }
  }

  /** A duplicate-free list no longer holds an element once its first copy is removed. */
  lemma RemoveFirstFromNoDupIf(s: seq<string>, x: string)
    ensures NoDup(s) ==> x !in RemoveFirst(s, x)
  {
    if NoDup(s) {
      RemoveFirstFromNoDup(s, x);
    }
  }

  /** The loop over the collections owned by the caller that removes the deleted code from each one listing it. */
  method UnlistFromCollections(table: CollectionTable, thingCode: string, caller: string)
    requires table.Valid()
    modifies table
    ensures table.Valid()
    ensures table.rows == map k | k in old(table.rows) :: Unlisted(old(table.rows)[k], thingCode, caller)
  {
    ghost var before := table.rows;
    var pending := table.rows.Keys;
    while pending != {}
      invariant table.Valid()
      invariant pending <= before.Keys
      invariant table.rows.Keys == before.Keys
      invariant forall k :: k in before ==>
        table.rows[k] == if k in pending then before[k] else Unlisted(before[k], thingCode, caller)
      decreases |pending|
    {
      var k :| k in pending;
      var c := table.rows[k];
      if Collections.IsOwner(c, caller) && thingCode in c.things {
        table.RemoveThing(k, thingCode);
      }
      pending := pending - {k};
    }
  }

  method DeleteThingView(db: Db, thingCode: string, caller: string) returns (status: Status)
    requires db.Valid() && caller in db.users.rows
    modifies db.users, db.collections, db.things
    ensures db.Valid()
    ensures (status, db.Snapshot()) == DeleteThing(old(db.Snapshot()), thingCode, caller)
  {
    if thingCode !in db.things.rows {
      return NotFound;
    }
    if !Things.IsOwner(db.things.rows[thingCode], caller) {
      return Forbidden;
    }
    var u := db.users.rows[caller];
    if thingCode in u.things {
      db.users.RemoveThing(caller, thingCode);
    } else {
      assert db.users.rows == db.users.rows[caller := u.(things := RemoveFirst(u.things, thingCode))];
    }
    UnlistFromCollections(db.collections, thingCode, caller);
    db.things.Delete(thingCode);
    status := NoContent;
  }

  // ---------------------------------------------------------------------------
  // Reserving and releasing

  /** `ThingReserveView.post`: 404 for a missing thing, 400 for its owner, 400 when it is unavailable; else `reserve`. */
  function ReserveThing(st: State, thingCode: string, caller: string): (o: (Status, State))
    ensures o.0 in {Ok, NotFound, BadRequest}
    ensures o.0 != Ok ==> o.1 == st
    ensures o.1 == st.(things := o.1.things) && o.1.things.Keys == st.things.Keys
  {
    if thingCode !in st.things then (NotFound, st)
    else
      var t := st.things[thingCode];
      if Things.IsOwner(t, caller) then (BadRequest, st)
      else if !t.available then (BadRequest, st)
      else (Ok, st.(things := st.things[thingCode := Reserved(t, caller)]))
  }

  /** `ThingReleaseView.post`: 404 for a missing thing, 400 for a caller not in its deal; else `release`. */
  function ReleaseThing(st: State, thingCode: string, caller: string): (o: (Status, State))
    ensures o.0 in {Ok, NotFound, BadRequest}
    ensures o.0 != Ok ==> o.1 == st
    ensures o.1 == st.(things := o.1.things) && o.1.things.Keys == st.things.Keys
  {
    if thingCode !in st.things then (NotFound, st)
    else
      var t := st.things[thingCode];
      if caller !in t.deal then (BadRequest, st)
      else (Ok, st.(things := st.things[thingCode := Released(t, caller)]))
  }

  /**
   * A reservation makes the caller a holder and the thing unavailable, so a
   * second reservation, by anyone, is refused; the owner can never reserve.
   */
  lemma {:induction false} ReserveHoldsThing(st: State, thingCode: string, caller: string, other: string)
    ensures var (s, st') := ReserveThing(st, thingCode, caller);
      && (s == Ok <==> thingCode in st.things && st.things[thingCode].owner != caller && st.things[thingCode].available)
      && (s != Ok ==> st' == st)
      && (s == Ok ==> caller in st'.things[thingCode].deal)
      && (s == Ok && caller !in st.things[thingCode].deal ==> ReserveThing(st', thingCode, other) == (BadRequest, st'))
  {
  }

  /**
   * Reserving a thing nobody holds and then releasing it, by the same caller,
   * gives back the thing as it was before.
   */
  lemma {:induction false} ReserveThenReleaseRestores(st: State, thingCode: string, caller: string)
    requires thingCode in st.things && st.things[thingCode].deal == []
    requires ReserveThing(st, thingCode, caller).0 == Ok
    ensures var st' := ReserveThing(st, thingCode, caller).1;
      ReleaseThing(st', thingCode, caller) == (Ok, st)
  {
    var t := st.things[thingCode];
    ReserveThenRelease(t, caller);
    assert t.(available := true) == t;
    var st' := ReserveThing(st, thingCode, caller).1;
    assert st'.things[thingCode := t] == st.things;
  }

  /** A caller who holds nothing cannot release, and a release by a holder of a duplicate-free deal removes exactly that holder. */
  lemma {:induction false} ReleaseDropsHolder(st: State, thingCode: string, caller: string)
    requires thingCode in st.things && Things.Valid(st.things[thingCode])
    ensures var (s, st') := ReleaseThing(st, thingCode, caller);
      && (s == Ok <==> caller in st.things[thingCode].deal)
      && (s != Ok ==> st' == st)
      && (s == Ok ==>
            && caller !in st'.things[thingCode].deal && Things.Valid(st'.things[thingCode])
            && forall u :: u != caller ==> (u in st'.things[thingCode].deal <==> u in st.things[thingCode].deal))
  {
    if caller in st.things[thingCode].deal {
      ReleaseRemovesHolder(st.things[thingCode], caller);
    }
  }

  method ReserveThingView(db: Db, thingCode: string, caller: string) returns (status: Status)
    requires db.Valid()
    modifies db.things
    ensures db.Valid()
    ensures (status, db.Snapshot()) == ReserveThing(old(db.Snapshot()), thingCode, caller)
  {
    if thingCode !in db.things.rows {
      return NotFound;
    }
    var t := db.things.rows[thingCode];
    if Things.IsOwner(t, caller) {
      return BadRequest;
    }
    if !t.available {
      return BadRequest;
    }
    db.things.Reserve(thingCode, caller);
    status := Ok;
  }

  method ReleaseThingView(db: Db, thingCode: string, caller: string) returns (status: Status)
    requires db.Valid()
    modifies db.things
    ensures db.Valid()
    ensures (status, db.Snapshot()) == ReleaseThing(old(db.Snapshot()), thingCode, caller)
  {
    if thingCode !in db.things.rows {
      return NotFound;
    }
    if caller !in db.things.rows[thingCode].deal {
      return BadRequest;
    }
    db.things.Release(thingCode, caller);
    status := Ok;
  }

  // ---------------------------------------------------------------------------
  // Creating

  /**
   * `ThingListView.post` with a validated body and the drawn code: the new
   * thing is stored (a code already in use is 500), its code joins the
   * caller's list, and it joins the named collection only when that exists
   * and belongs to the caller; the answer is 201.
   */
  function CreateThing(st: State, caller: string, code: string, thingType: ThingType, headline: string,
                       collectionCode: Option<string>): (o: (Status, State))
    requires caller in st.users
    ensures o.0 in {Created, ServerError}
    ensures o.0 == ServerError <==> code in st.things
    ensures o.0 == ServerError ==> o.1 == st
    ensures o.1 == st.(things := o.1.things, users := o.1.users, collections := o.1.collections)
    ensures o.0 == Created ==> o.1.things.Keys == st.things.Keys + {code}
    ensures o.1.users.Keys == st.users.Keys && o.1.collections.Keys == st.collections.Keys
  {
    if code in st.things then (ServerError, st)
    else
      var t := NewThing(code, thingType, caller, headline);
      var u := st.users[caller];
      var st1 := st.(things := st.things[code := t], users := st.users[caller := u.(things := AppendIfAbsent(u.things, code))]);
      if collectionCode.Some? && collectionCode.value != "" && collectionCode.value in st.collections
         && Collections.IsOwner(st.collections[collectionCode.value], caller) then
        var c := collectionCode.value;
        (Created, st1.(collections := st.collections[c := WithThing(st.collections[c], code)]))
      else (Created, st1)
  }

  /**
   * A created thing belongs to the caller, is ACTIVE, available and unheld,
   * appears once in the caller's list and its owner may open it; a collection
   * changes only when it is the caller's own.
   */
  lemma {:induction false} CreatedThingIsOwners(st: State, caller: string, code: string, thingType: ThingType, headline: string,
                                                collectionCode: Option<string>)
    requires Keyed(st) && caller in st.users && code !in st.things
    ensures var (s, st') := CreateThing(st, caller, code, thingType, headline, collectionCode);
      && s == Created
      && code in st'.things && st'.things[code].owner == caller
      && st'.things[code].status == Active && st'.things[code].available && st'.things[code].deal == []
      && code in st'.users[caller].things
      && (NoDup(st.users[caller].things) ==> NoDup(st'.users[caller].things))
      && MayOpen(st'.things[code], st'.collections, st'.users[caller])
      && (forall k :: k in st.collections && (st.collections[k].owner != caller || collectionCode != Some(k)) ==>
            st'.collections[k] == st.collections[k])
      && st'.bookings == st.bookings && st'.rsvps == st.rsvps && st'.faqs == st.faqs
  {
    var t := NewThing(code, thingType, caller, headline);
    var u := st.users[caller];
    var u' := u.(things := AppendIfAbsent(u.things, code));
    var st1 := st.(things := st.things[code := t], users := st.users[caller := u']);
    assert u.code == caller;
    assert MayOpen(t, st1.collections, u') && MayOpen(t, st.collections, u');
    if collectionCode.Some? && collectionCode.value != "" && collectionCode.value in st.collections
       && Collections.IsOwner(st.collections[collectionCode.value], caller) {
      var c := collectionCode.value;
      assert CreateThing(st, caller, code, thingType, headline, collectionCode)
          == (Created, st1.(collections := st.collections[c := WithThing(st.collections[c], code)]));
    } else {
      assert CreateThing(st, caller, code, thingType, headline, collectionCode) == (Created, st1);
    }
  }

  method CreateThingView(db: Db, caller: string, code: string, thingType: ThingType, headline: string,
                         collectionCode: Option<string>) returns (status: Status)
    requires db.Valid() && caller in db.users.rows
    modifies db.things, db.users, db.collections
    ensures db.Valid()
    ensures (status, db.Snapshot()) == CreateThing(old(db.Snapshot()), caller, code, thingType, headline, collectionCode)
  {
    ghost var st0 := db.Snapshot();
    var t := NewThing(code, thingType, caller, headline);
    var ok := db.things.Insert(t);
    if !ok {
      return ServerError;
    }
    var u := db.users.rows[caller];
    if code !in u.things {
      db.users.AddThing(caller, code);
    } else {
      assert db.users.rows == db.users.rows[caller := u.(things := AppendIfAbsent(u.things, code))];
    }
    ghost var st1 := st0.(things := st0.things[code := t], users := st0.users[caller := u.(things := AppendIfAbsent(u.things, code))]);
    assert db.Snapshot() == st1;
    if collectionCode.Some? && collectionCode.value != "" && collectionCode.value in db.collections.rows {
      var c := db.collections.rows[collectionCode.value];
      if Collections.IsOwner(c, caller) {
        db.collections.AddThing(collectionCode.value, code);
        assert db.Snapshot() == st1.(collections := st0.collections[collectionCode.value := WithThing(c, code)]);
      }
    }
    status := Created;
  }
}
