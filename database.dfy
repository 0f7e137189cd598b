/**
 * The tables the core reads and writes, together. Every statement commits on
 * its own (there is no request-wide transaction), so a view that fails
 * half-way keeps the rows it has already written.
 */
module Database {
  import opened Bookings
  import opened Rsvps
  import opened Things
  import opened Collections
  import opened Users
  import opened Faqs

  /** The contents of all tables at one moment. */
  datatype State = State(
    bookings: seq<Booking>,
    things: map<string, Thing>,
    users: map<string, User>,
    collections: map<string, Collection>,
    rsvps: map<string, Rsvp>,
    faqs: map<string, Faq>)

  /** Every keyed table holds each row under its own code. */
  predicate Keyed(st: State) {
    && (forall k :: k in st.things ==> st.things[k].code == k)
    && (forall k :: k in st.users ==> st.users[k].code == k)
    && (forall k :: k in st.collections ==> st.collections[k].code == k)
    && (forall k :: k in st.rsvps ==> st.rsvps[k].code == k)
    && (forall k :: k in st.faqs ==> st.faqs[k].code == k)
  }

  /** The run of `expire_old_pending` at `now`: only the bookings table changes. */
  function Sweep(st: State, now: int): (r: State)
    ensures r == st.(bookings := r.bookings)
    ensures NoDoubleBooking(st.bookings) ==> NoDoubleBooking(r.bookings)
  {
    SweepOnlyExpiresStale(st.bookings, now);
    st.(bookings := Swept(st.bookings, now))
  }

  class Db {
    const bookings: BookingTable
    const things: ThingTable
    const users: UserTable
    const collections: CollectionTable
    const rsvps: RsvpTable
    const faqs: FaqTable

    ghost predicate Valid()
      reads this, bookings, things, users, collections, rsvps, faqs
    {
      && bookings.Valid() && things.Valid() && users.Valid()
      && collections.Valid() && rsvps.Valid() && faqs.Valid()
    }

    /** The current contents of all tables. */
    function Snapshot(): (st: State)
      reads this, bookings, things, users, collections, rsvps, faqs
      ensures Valid() ==> Keyed(st) && UniqueCodes(st.bookings)
    {
      State(bookings.rows, things.rows, users.rows, collections.rows, rsvps.rows, faqs.rows)
    }

    constructor ()
      ensures Valid() && Snapshot() == State([], map[], map[], map[], map[], map[])
    {
      bookings := new BookingTable();
      things := new ThingTable();
      users := new UserTable();
      collections := new CollectionTable();
      rsvps := new RsvpTable();
      faqs := new FaqTable();
    }

    /** The periodic sweep: expires stale bookings and touches no other table. */
    method ExpireOldPending(now: int) returns (count: nat)
      requires Valid()
      modifies bookings
      ensures Valid()
      ensures Snapshot() == Sweep(old(Snapshot()), now)
      ensures count == CountStale(old(bookings.rows), now)
    {
      count := bookings.ExpireOldPending(now);
    }
  }
}
