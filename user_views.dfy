/**
 * The profile endpoints (`core/views/users.py`): who may see whose profile,
 * and what they see. Two users see each other exactly when one has invited
 * the other to a collection.
 */
module UserViews {
  import opened Wrappers
  import opened Collections
  import opened Users
  import opened Database
  import opened Validators

  /** Some collection owned by `owner` lists `guest` among its invites. */
  predicate HasInvited(collections: map<string, Collection>, owner: string, guest: string) {
    exists k :: k in collections && collections[k].owner == owner && guest in collections[k].invites
  }

  /**
   * `can_view_user(viewer, target)`: a user's own profile, the profile of
   * someone the viewer invited, and the profile of someone who invited the viewer.
   */
  predicate MayViewUser(collections: map<string, Collection>, viewer: string, target: string) {
    viewer == target || HasInvited(collections, viewer, target) || HasInvited(collections, target, viewer)
  }

  /** Whether some collection of `owner` invites `guest`, searched over the collections (the owner filter, then the loop). */
  method SearchInvites(collections: map<string, Collection>, owner: string, guest: string) returns (found: bool)
    ensures found <==> HasInvited(collections, owner, guest)
  {
    var pending := collections.Keys;
    while pending != {}
      invariant pending <= collections.Keys
      invariant forall k :: k in collections && k !in pending ==> !(collections[k].owner == owner && guest in collections[k].invites)
      decreases |pending|
    {
      var k :| k in pending;
      if collections[k].owner == owner && guest in collections[k].invites {
        return true;
      }
      pending := pending - {k};
    }
    return false;
  }

  /** `can_view_user`: the same user, then the viewer's collections, then the target's. */
  method CanViewUser(collections: map<string, Collection>, viewer: string, target: string) returns (ok: bool)
    ensures ok <==> MayViewUser(collections, viewer, target)
  {
    if viewer == target {
      return true;
    }
    ok := SearchInvites(collections, viewer, target);
    if ok {
      return;
    }
    ok := SearchInvites(collections, target, viewer);
  }

  /**
   * Seeing profiles is mutual, and an invitation to a collection is what
   * opens it: the owner and every invited user of a collection see each
   * other, and two distinct users with no invitation between them do not.
   */
  lemma {:induction false} ProfileVisibilityIsMutual(collections: map<string, Collection>, viewer: string, target: string)
    ensures MayViewUser(collections, viewer, target) <==> MayViewUser(collections, target, viewer)
    ensures forall k :: k in collections && target in collections[k].invites && collections[k].owner == viewer ==>
      MayViewUser(collections, viewer, target) && MayViewUser(collections, target, viewer)
    ensures viewer != target && (forall k :: k in collections ==>
        !(collections[k].owner == viewer && IsInvited(collections[k], target))
        && !(collections[k].owner == target && IsInvited(collections[k], viewer)))
      ==> !MayViewUser(collections, viewer, target)
  {
    if viewer != target && MayViewUser(collections, viewer, target) {
      if HasInvited(collections, viewer, target) {
        var k :| k in collections && collections[k].owner == viewer && target in collections[k].invites;
        assert IsInvited(collections[k], target);
      } else {
        var k :| k in collections && collections[k].owner == target && viewer in collections[k].invites;
        assert IsInvited(collections[k], viewer);
      }
    }
  }

  /** What a profile answer carries: the full profile with the email for oneself, the public one without it for anyone else. */
  datatype Profile =
    | FullProfile(code: string, email: string, name: string, lastActivity: int, sharedCollections: seq<string>, things: seq<string>)
    | PublicProfile(code: string, name: string)

  /** `UserDetailView.get`: 404 for a missing user, 403 for a profile the caller may not see, else the profile. */
  function GetUser(st: State, target: string, caller: string): (r: (Status, Option<Profile>))
    ensures r.0 == NotFound <==> target !in st.users
    ensures r.0 == Forbidden <==> target in st.users && !MayViewUser(st.collections, caller, target)
    ensures r.0 == Ok <==> r.1.Some?
    ensures r.1.Some? ==> r.1.value.code == st.users[target].code && r.1.value.name == st.users[target].name
    ensures r.1.Some? ==> (r.1.value.FullProfile? <==> caller == target)
    ensures r.1.Some? && r.1.value.FullProfile? ==> r.1.value.email == st.users[target].email
  {
    if target !in st.users then (NotFound, None)
    else if !MayViewUser(st.collections, caller, target) then (Forbidden, None)
    else
      var u := st.users[target];
      if caller == target then (Ok, Some(FullProfile(u.code, u.email, u.name, u.lastActivity, u.sharedCollections, u.things)))
      else (Ok, Some(PublicProfile(u.code, u.name)))
  }

  /** A user's email reaches nobody but the user: every profile another user receives lacks it. */
  lemma EmailStaysPrivate(st: State, target: string, caller: string)
    requires caller != target
    ensures GetUser(st, target, caller).1.None? || GetUser(st, target, caller).1.value.PublicProfile?
  {
  }

  /** The editable profile fields that `UserUpdateSerializer` accepts and this model keeps; an absent field is left alone. */
  datatype UserPatch = UserPatch(name: Option<string>)

  /** `User.user_name` is `CharField(max_length=32, blank=True)`. */
  const NameMaxLength: nat := 32

  /**
   * `UserDetailView.put`: 403 for anyone else's profile; 400 when the name
   * is refused by its field (longer than 32 characters after trimming, or
   * holding a NUL); otherwise the trimmed name, which may be blank, is saved.
   * Nothing is written unless the answer is 200.
   */
  function PutUser(st: State, target: string, caller: string, p: UserPatch): (r: (Status, State))
    requires caller in st.users
    ensures r.0 in {Ok, Forbidden, BadRequest}
    ensures r.0 == Forbidden <==> caller != target
    ensures r.0 == BadRequest <==>
      caller == target && p.name.Some? && (|Trim(p.name.value)| > NameMaxLength || '\0' in Trim(p.name.value))
    ensures r.0 != Ok ==> r.1 == st
    ensures r.1 == st.(users := r.1.users) && r.1.users.Keys == st.users.Keys
    ensures forall k :: k in st.users && k != target ==> r.1.users[k] == st.users[k]
    ensures r.0 == Ok ==>
      r.1.users[caller] == (if p.name.Some? then st.users[caller].(name := Trim(p.name.value)) else st.users[caller])
  {
    if caller != target then (Forbidden, st)
    else if p.name.None? then (Ok, st)
    else
      var name := Trim(p.name.value);
      if CharFieldText(p.name.value, NameMaxLength, true).None? then
        (BadRequest, st)
      else
        var u := st.users[caller].(name := name);
        (Ok, st.(users := st.users[caller := u]))
  }

  /**
   * Every name a successful update stores fits the column: at most 32
   * characters, no NUL, and no whitespace at either end; a name of nothing
   * but spaces clears it.
   */
  lemma {:induction false} StoredNameFits(st: State, caller: string, p: UserPatch)
    requires caller in st.users
    requires PutUser(st, caller, caller, p).0 == Ok && p.name.Some?
    ensures var n := PutUser(st, caller, caller, p).1.users[caller].name;
      && |n| <= NameMaxLength && '\0' !in n
      && (n == [] || (!IsWhitespace(n[0]) && !IsWhitespace(n[|n| - 1])))
      && (Trim(p.name.value) == [] ==> n == [])
  {
  }

  /** A name of 33 non-blank characters is refused with 400 and nothing changes. */
  lemma LongNameRefused(st: State, caller: string)
    requires caller in st.users
    ensures PutUser(st, caller, caller, UserPatch(Some(seq(33, _ => 'x')))) == (BadRequest, st)
  {
    var s: string := seq(33, _ => 'x');
    assert !IsWhitespace(s[0]) && !IsWhitespace(s[32]);
    assert TrimStart(s) == s && TrimEnd(s) == s;
  }
}
