/**
 * Things (`core/models/thing.py`): an item offered by its owner, with its
 * list of users holding a reservation (`thing_deal`) and its list of FAQ codes.
 */
module Things {
  import opened Lists
  import opened Bookings
  import opened Collections

  datatype ThingStatus = Active | Inactive | Taken

  datatype Thing = Thing(
    code: string,
    thingType: ThingType,
    owner: string,
    headline: string,
    status: ThingStatus,
    faq: seq<string>,
    deal: seq<string>,
    available: bool)

  /** A new thing: active, available, with no reservations and no FAQs; its type defaults to a gift. */
  function NewThing(code: string, thingType: ThingType, owner: string, headline: string): (t: Thing)
    ensures t.code == code && t.thingType == thingType && t.owner == owner && t.headline == headline
    ensures t.status == Active && t.available && t.deal == [] && t.faq == []
    ensures Valid(t)
  {
    Thing(code, thingType, owner, headline, Active, [], [], true)
  }

  const DefaultThingType: ThingType := GiftThing

  predicate IsOwner(t: Thing, user: string) { t.owner == user }

  /** The two list fields hold no duplicates. */
  predicate Valid(t: Thing) { NoDup(t.deal) && NoDup(t.faq) }

  /**
   * `reserve(user)`: a user not yet holding a reservation is appended to the
   * deal and the thing becomes unavailable; otherwise nothing changes.
   */
  function Reserved(t: Thing, user: string): (r: Thing)
    ensures user in r.deal
    ensures user in t.deal ==> r == t
    ensures user !in t.deal ==> r.deal == t.deal + [user] && !r.available
    ensures r == t.(deal := r.deal, available := r.available)
    ensures Valid(t) ==> Valid(r)
  {
    if user !in t.deal then t.(deal := t.deal + [user], available := false) else t
  }

  /**
   * `release(user)`: a user holding a reservation is removed from the deal,
   * and the thing becomes available again only when the deal is then empty;
   * otherwise nothing changes.
   */
  function Released(t: Thing, user: string): (r: Thing)
    ensures user !in t.deal ==> r == t
    ensures user in t.deal ==> multiset(r.deal) == multiset(t.deal) - multiset{user}
    ensures user in t.deal ==> r.available == (r.deal == [] || t.available)
    ensures r == t.(deal := r.deal, available := r.available)
  {
    if user in t.deal then
      var deal := RemoveFirst(t.deal, user);
      RemoveFirstMultiset(t.deal, user);
      t.(deal := deal, available := if deal == [] then true else t.available)
    else t
  }

  /**
   * On a duplicate-free deal, release removes the user completely and keeps
   * everyone else; the thing is available afterwards exactly when it was, or
   * when nobody holds it any more.
   */
  lemma {:induction false} ReleaseRemovesHolder(t: Thing, user: string)
    requires Valid(t) && user in t.deal
    ensures user !in Released(t, user).deal && Valid(Released(t, user))
    ensures forall u :: u != user ==> (u in Released(t, user).deal <==> u in t.deal)
    ensures Released(t, user).available <==> t.available || t.deal == [user]
  {
    RemoveFirstFromNoDup(t.deal, user);
    var d := RemoveFirst(t.deal, user);
    if d == [] {
      assert forall u :: u in t.deal ==> u == user;
      assert t.deal[0] == user;
      assert t.deal == [user];
    } else {
      assert t.deal != [user] by {
        var u := d[0];
        assert u in t.deal && u != user;
      }
    }
  }

  /** On a thing nobody holds, a reserve followed by a release by the same user leaves it available with an empty deal. */
  lemma {:induction false} ReserveThenRelease(t: Thing, user: string)
    requires t.deal == []
    ensures Released(Reserved(t, user), user) == t.(available := true)
  {
    assert Reserved(t, user).deal == [user];
    assert RemoveFirst([user], user) == [];
  }

  /** `add_faq`: appends the code unless already listed. */
  function WithFaq(t: Thing, faqCode: string): (r: Thing)
    ensures faqCode in r.faq
    ensures faqCode in t.faq ==> r == t
    ensures r == t.(faq := r.faq)
    ensures forall x :: x in r.faq <==> x in t.faq || x == faqCode
    ensures Valid(t) ==> Valid(r)
  {
    t.(faq := AppendIfAbsent(t.faq, faqCode))
  }

  /** `remove_faq`: drops the code, keeping the order of the others. */
  function WithoutFaq(t: Thing, faqCode: string): (r: Thing)
    ensures faqCode !in t.faq ==> r == t
    ensures r == t.(faq := r.faq)
    ensures multiset(r.faq) == multiset(t.faq) - multiset{faqCode}
  {
    RemoveFirstMultiset(t.faq, faqCode);
    t.(faq := RemoveFirst(t.faq, faqCode))
  }

  /** Adding a FAQ twice is the same as adding it once; removing it from a valid thing removes it completely. */
  lemma {:induction false} FaqListStaysDuplicateFree(t: Thing, faqCode: string)
    requires Valid(t)
    ensures WithFaq(WithFaq(t, faqCode), faqCode) == WithFaq(t, faqCode)
    ensures Valid(WithoutFaq(t, faqCode)) && faqCode !in WithoutFaq(t, faqCode).faq
  {
    RemoveFirstFromNoDup(t.faq, faqCode);
  }

  /**
   * Who may see a thing (used by requests, the calendar and the FAQ list):
   * its owner always; anyone else only while it is available and only if
   * invited to some collection that lists it.
   */
  predicate CanView(t: Thing, collections: map<string, Collection>, user: string) {
    || IsOwner(t, user)
    || (t.available && exists k :: k in collections && IsInvited(collections[k], user) && t.code in collections[k].things)
  }

  /** Hiding a thing hides it from everyone but its owner. */
  lemma HiddenThingOnlyOwnerSees(t: Thing, collections: map<string, Collection>, user: string)
    requires !t.available
    ensures CanView(t, collections, user) <==> user == t.owner
  {
  }

  /** The things table, keyed by thing code. */
  class ThingTable {
    var rows: map<string, Thing>

    ghost predicate Valid()
      reads this
    {
      forall k :: k in rows ==> rows[k].code == k
    }

    constructor ()
      ensures Valid() && rows == map[]
    {
      rows := map[];
    }

    /** Inserts a new thing; a code already in use violates the primary key and nothing is written. */
    method Insert(t: Thing) returns (ok: bool)
      requires Valid()
      modifies this
      ensures Valid()
      ensures ok <==> t.code !in old(rows)
      ensures rows == if ok then old(rows)[t.code := t] else old(rows)
    {
      ok := t.code !in rows;
      if ok {
        rows := rows[t.code := t];
      }
    }

    /** Saves a changed copy of an existing row. */
    method Save(t: Thing)
      requires Valid() && t.code in rows
      modifies this
      ensures Valid() && rows == old(rows)[t.code := t]
    {
      rows := rows[t.code := t];
    }

    method Reserve(code: string, user: string)
      requires Valid() && code in rows
      modifies this
      ensures Valid() && rows == old(rows)[code := Reserved(old(rows)[code], user)]
    {
      var t := rows[code];
      if user !in t.deal {
        t := t.(deal := t.deal + [user]);
        t := t.(available := false);
        rows := rows[code := t];
      }
    }

    method Release(code: string, user: string)
      requires Valid() && code in rows
      modifies this
      ensures Valid() && rows == old(rows)[code := Released(old(rows)[code], user)]
    {
      var t := rows[code];
      if user in t.deal {
        t := t.(deal := RemoveFirst(t.deal, user));
        if t.deal == [] {
          t := t.(available := true);
        }
        rows := rows[code := t];
      }
    }

    method AddFaq(code: string, faqCode: string)
      requires Valid() && code in rows
      modifies this
      ensures Valid() && rows == old(rows)[code := WithFaq(old(rows)[code], faqCode)]
    {
      var t := rows[code];
      if faqCode !in t.faq {
        t := t.(faq := t.faq + [faqCode]);
        rows := rows[code := t];
      }
    }

    method RemoveFaq(code: string, faqCode: string)
      requires Valid() && code in rows
      modifies this
      ensures Valid() && rows == old(rows)[code := WithoutFaq(old(rows)[code], faqCode)]
    {
      var t := rows[code];
      if faqCode in t.faq {
        t := t.(faq := RemoveFirst(t.faq, faqCode));
        rows := rows[code := t];
      }
    }

    /** `thing.delete()` */
    method Delete(code: string)
      requires Valid()
      modifies this
      ensures Valid() && rows == old(rows) - {code}
    {
      rows := rows - {code};
    }
  }
}
