/**
 * Users (`core/models/user.py`): the fields the core reads and writes: the
 * email links are sent to, the day of last activity, the list of collections
 * shared with the user and the list of the user's things.
 */
module Users {
  import opened Lists

  datatype User = User(
    code: string,
    email: string,
    name: string,
    lastActivity: int,
    sharedCollections: seq<string>,
    things: seq<string>)

  /** The users table, keyed by user code. Emails are unique. */
  class UserTable {
    var rows: map<string, User>

    ghost predicate Valid()
      reads this
    {
      && (forall k :: k in rows ==> rows[k].code == k)
      && (forall k, k' :: k in rows && k' in rows && rows[k].email == rows[k'].email ==> k == k')
    }

    constructor ()
      ensures Valid() && rows == map[]
    {
      rows := map[];
    }

    /** `update_last_activity()`: records `today` as the user's last active day. */
    method UpdateLastActivity(code: string, today: int)
      requires Valid() && code in rows
      modifies this
      ensures Valid() && rows == old(rows)[code := old(rows)[code].(lastActivity := today)]
    {
      rows := rows[code := rows[code].(lastActivity := today)];
    }

    /** Appends a collection to the user's shared list unless it is already there. */
    method AddSharedCollection(code: string, collectionCode: string)
      requires Valid() && code in rows
      modifies this
      ensures Valid()
      ensures rows == old(rows)[code := old(rows)[code].(sharedCollections := AppendIfAbsent(old(rows)[code].sharedCollections, collectionCode))]
    {
      var u := rows[code];
      if collectionCode !in u.sharedCollections {
        u := u.(sharedCollections := u.sharedCollections + [collectionCode]);
        rows := rows[code := u];
      }
    }

    /** Appends a thing to the user's list unless it is already there. */
    method AddThing(code: string, thingCode: string)
      requires Valid() && code in rows
      modifies this
      ensures Valid()
      ensures rows == old(rows)[code := old(rows)[code].(things := AppendIfAbsent(old(rows)[code].things, thingCode))]
    {
      var u := rows[code];
      if thingCode !in u.things {
        u := u.(things := u.things + [thingCode]);
        rows := rows[code := u];
      }
    }

    /** Removes a thing from the user's list when it is there. */
    method RemoveThing(code: string, thingCode: string)
      requires Valid() && code in rows
      modifies this
      ensures Valid()
      ensures rows == old(rows)[code := old(rows)[code].(things := RemoveFirst(old(rows)[code].things, thingCode))]
    {
      var u := rows[code];
      if thingCode in u.things {
        u := u.(things := RemoveFirst(u.things, thingCode));
        rows := rows[code := u];
      }
    }
  }
}
