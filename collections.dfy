/**
 * Collections (`core/models/collection.py`): a user's list of things, shared
 * with the users on its invite list.
 */
module Collections {
  import opened Lists

  datatype Collection = Collection(
    code: string,
    owner: string,
    headline: string,
    things: seq<string>,
    invites: seq<string>)

  /** A new collection: it holds no things and invites nobody. */
  function NewCollection(code: string, owner: string, headline: string): (c: Collection)
    ensures c.code == code && c.owner == owner && c.things == [] && c.invites == []
    ensures CanView(c, owner) && !IsInvited(c, owner)
  {
    Collection(code, owner, headline, [], [])
  }

  predicate IsOwner(c: Collection, user: string) { c.owner == user }

  predicate IsInvited(c: Collection, user: string) { user in c.invites }

  /** The owner and the invited users can see a collection. */
  predicate CanView(c: Collection, user: string) { IsOwner(c, user) || IsInvited(c, user) }

  /** Being the owner grants the view without putting the owner on the invite list; anyone else needs an invite. */
  lemma {:induction false} ViewRequiresOwnershipOrInvite(c: Collection, user: string)
    ensures CanView(c, user) && !IsOwner(c, user) ==> user in c.invites
    ensures c.invites == [] ==> (CanView(c, user) <==> user == c.owner)
    ensures CanView(WithInvite(c, user), user)
  {
  }

  /** Both lists are free of duplicates. */
  predicate Valid(c: Collection) { NoDup(c.things) && NoDup(c.invites) }

  /** `add_thing`: appends the thing unless it is already listed. */
  function WithThing(c: Collection, thingCode: string): (r: Collection)
    ensures thingCode in r.things
    ensures thingCode in c.things ==> r == c
    ensures r == c.(things := r.things)
    ensures forall x :: x in r.things <==> x in c.things || x == thingCode
    ensures Valid(c) ==> Valid(r)
  {
    c.(things := AppendIfAbsent(c.things, thingCode))
  }

  /** `remove_thing`: drops the thing, keeping the order of the others. */
  function WithoutThing(c: Collection, thingCode: string): (r: Collection)
    ensures thingCode !in c.things ==> r == c
    ensures r == c.(things := r.things)
    ensures multiset(r.things) == multiset(c.things) - multiset{thingCode}
  {
    RemoveFirstMultiset(c.things, thingCode);
    c.(things := RemoveFirst(c.things, thingCode))
  }

  /** `add_invite`: appends the user unless already invited. */
  function WithInvite(c: Collection, user: string): (r: Collection)
    ensures user in r.invites
    ensures user in c.invites ==> r == c
    ensures r == c.(invites := r.invites)
    ensures forall x :: x in r.invites <==> x in c.invites || x == user
    ensures Valid(c) ==> Valid(r)
  {
    c.(invites := AppendIfAbsent(c.invites, user))
  }

  /** `remove_invite`: drops the user, keeping the order of the others. */
  function WithoutInvite(c: Collection, user: string): (r: Collection)
    ensures user !in c.invites ==> r == c
    ensures r == c.(invites := r.invites)
    ensures multiset(r.invites) == multiset(c.invites) - multiset{user}
  {
    RemoveFirstMultiset(c.invites, user);
    c.(invites := RemoveFirst(c.invites, user))
  }

  /**
   * On a duplicate-free collection, removing an entry removes it completely,
   * keeps every other entry, and keeps both lists duplicate-free.
   */
  lemma {:induction false} RemovalsKeepValid(c: Collection, thingCode: string, user: string)
    requires Valid(c)
    ensures Valid(WithoutThing(c, thingCode)) && Valid(WithoutInvite(c, user))
    ensures thingCode !in WithoutThing(c, thingCode).things
    ensures forall x :: x != thingCode ==> (x in WithoutThing(c, thingCode).things <==> x in c.things)
    ensures user !in WithoutInvite(c, user).invites && !IsInvited(WithoutInvite(c, user), user)
    ensures forall x :: x != user ==> (x in WithoutInvite(c, user).invites <==> x in c.invites)
  {
    RemoveFirstFromNoDup(c.things, thingCode);
    RemoveFirstFromNoDup(c.invites, user);
  }

  /** A second `add_invite` of the same user changes nothing, and neither does a second `add_thing`. */
  lemma {:induction false} AddsAreIdempotent(c: Collection, thingCode: string, user: string)
    ensures WithInvite(WithInvite(c, user), user) == WithInvite(c, user)
    ensures WithThing(WithThing(c, thingCode), thingCode) == WithThing(c, thingCode)
  {
  }

  /** The collections table, keyed by collection code. */
  class CollectionTable {
    var rows: map<string, Collection>

    ghost predicate Valid()
      reads this
    {
      forall k :: k in rows ==> rows[k].code == k
    }

    constructor ()
      ensures Valid() && rows == map[]
    {
      rows := map[];
    }

    method AddThing(code: string, thingCode: string)
      requires Valid() && code in rows
      modifies this
      ensures Valid() && rows == old(rows)[code := WithThing(old(rows)[code], thingCode)]
    {
      var c := rows[code];
      if thingCode !in c.things {
        c := c.(things := c.things + [thingCode]);
        rows := rows[code := c];
      }
    }

    method RemoveThing(code: string, thingCode: string)
      requires Valid() && code in rows
      modifies this
      ensures Valid() && rows == old(rows)[code := WithoutThing(old(rows)[code], thingCode)]
    {
      var c := rows[code];
      if thingCode in c.things {
        c := c.(things := RemoveFirst(c.things, thingCode));
        rows := rows[code := c];
      }
    }

    method AddInvite(code: string, user: string)
      requires Valid() && code in rows
      modifies this
      ensures Valid() && rows == old(rows)[code := WithInvite(old(rows)[code], user)]
    {
      var c := rows[code];
      if user !in c.invites {
        c := c.(invites := c.invites + [user]);
        rows := rows[code := c];
      }
    }

    method RemoveInvite(code: string, user: string)
      requires Valid() && code in rows
      modifies this
      ensures Valid() && rows == old(rows)[code := WithoutInvite(old(rows)[code], user)]
    {
      var c := rows[code];
      if user in c.invites {
        c := c.(invites := RemoveFirst(c.invites, user));
        rows := rows[code := c];
      }
    }
  }
}
