/**
 * The booking lifecycle state machine of BookingLogic: how the working booking is looked up,
 * and the commands addBook, removeBook, book, cancel, deliver and done, with their effect on the
 * shared availability counters of every book in the booking.
 *
 * Books are objects shared between bookings (the source's Book with its BookStat), so a
 * transition's per-book loop changes state that every other booking holding the same book sees.
 */
module BookingLogic {
  import opened Wrappers
  import opened Entities

  /** A catalogue book with its availability counters. */
  class Book {
    const id: int
    const keepPeriod: int
    var inStock: int
    var reserved: int

    constructor (id: int, keepPeriod: int, inStock: int, reserved: int)
      ensures this.id == id && this.keepPeriod == keepPeriod
      ensures this.inStock == inStock && this.reserved == reserved
    {
      this.id := id;
      this.keepPeriod := keepPeriod;
      this.inStock := inStock;
      this.reserved := reserved;
    }
  }

  /** Membership is decided by book id. */
  predicate HasBook(books: seq<Book>, id: int) {
    exists i :: 0 <= i < |books| && books[i].id == id
  }

  /** A booking's book list holds no book twice. */
  predicate DistinctIds(books: seq<Book>) {
    forall i, j :: 0 <= i < j < |books| ==> books[i].id != books[j].id
  }

  class Booking {
    var id: int
    const user: User
    var state: BookingState
    var located: Place
    var modified: Time
    var books: seq<Book>

    ghost predicate Valid()
      reads this
    {
      DistinctIds(books)
    }

    /**
     * Booking.Builder with only the user set: a NEW booking with no books. The id, place and time
     * it is given here are this model's choice.
     */
    constructor (user: User, now: Time)
      ensures Valid()
      ensures this.user == user && state == NEW && books == []
      ensures id == -1 && located == LIBRARY && modified == now
    {
      id := -1;
      this.user := user;
      state := NEW;
      located := LIBRARY;
      modified := now;
      books := [];
    }
  }

  /** The objects a transition may change: the booking and the books it holds. */
  ghost function Footprint(b: Booking?): set<object>
    reads b
  {
    if b == null then {} else {b as object} + set x | x in b.books :: x as object
  }

  /** The session attribute BOOKING: the user's working booking, null when there is none. */
  class BookingSlot {
    var booking: Booking?

    constructor ()
      ensures booking == null
    {
      booking := null;
    }
  }

  /** What the booking store writes for a booking. */
  datatype BookingRow = BookingRow(
    id: int, userId: int, state: BookingState, located: Place, modified: Time, bookIds: seq<int>)

  datatype StoreWrite = Created(row: BookingRow) | Updated(row: BookingRow)

  function BookIds(books: seq<Book>): (r: seq<int>)
    ensures |r| == |books| && forall i :: 0 <= i < |books| ==> r[i] == books[i].id
  {
    seq(|books|, i requires 0 <= i < |books| => books[i].id)
  }

  function Row(b: Booking): BookingRow
    reads b
  {
    BookingRow(b.id, b.user.id, b.state, b.located, b.modified, BookIds(b.books))
  }

  /**
   * The booking store: the bookings a read by id hands out, and the log of the rows written by
   * create and update.
   */
  class BookingStore {
    var records: map<int, Booking>
    var writes: seq<StoreWrite>

    ghost predicate Valid()
      reads this, records.Values
    {
      forall k :: k in records ==> records[k].Valid()
    }

    /** A booking read from a valid store is valid. */
    lemma RecordValid(k: int)
      requires Valid() && k in records
      ensures records[k].Valid()
    {
    }

    constructor (records: map<int, Booking>)
      requires forall k :: k in records ==> records[k].Valid()
      ensures Valid()
      ensures this.records == records && writes == []
    {
      this.records := records;
      writes := [];
    }

    method Create(b: Booking)
      modifies this
      ensures records == old(records)
      ensures writes == old(writes) + [Created(Row(b))]
    {
      writes := writes + [Created(Row(b))];
    }

    method Update(b: Booking)
      modifies this
      ensures records == old(records)
      ensures writes == old(writes) + [Updated(Row(b))]
    {
      writes := writes + [Updated(Row(b))];
    }
  }

  /** The catalogue read by bookDao.read(id): every book is filed under its own id. */
  predicate CatalogConsistent(catalog: map<int, Book>) {
    forall k :: k in catalog ==> catalog[k].id == k
  }

  // ---------------------------------------------------------------------------------------------
  // Availability counters

  datatype Stat = Stat(inStock: int, reserved: int)

  /** The counters of the books, in list order. */
  ghost function Stats(books: seq<Book>): (r: seq<Stat>)
    reads set b | b in books
    ensures |r| == |books|
    ensures forall i :: 0 <= i < |books| ==> r[i] == Stat(books[i].inStock, books[i].reserved)
  {
    if books == [] then []
    else
      assert forall b :: b in books[..|books| - 1] ==> b in books;
      Stats(books[..|books| - 1]) + [Stat(books[|books| - 1].inStock, books[|books| - 1].reserved)]
  }

  function TotalReserved(s: seq<Stat>): int {
    if s == [] then 0 else TotalReserved(s[..|s| - 1]) + s[|s| - 1].reserved
  }

  function TotalInStock(s: seq<Stat>): int {
    if s == [] then 0 else TotalInStock(s[..|s| - 1]) + s[|s| - 1].inStock
  }

  /** Moving every counter of a list by the same amounts moves the totals by that amount per book. */
  lemma {:induction false} TotalsShift(before: seq<Stat>, after: seq<Stat>, dInStock: int, dReserved: int)
    requires |after| == |before|
    requires forall i :: 0 <= i < |before| ==>
               after[i] == Stat(before[i].inStock + dInStock, before[i].reserved + dReserved)
    ensures TotalReserved(after) == TotalReserved(before) + |before| * dReserved
    ensures TotalInStock(after) == TotalInStock(before) + |before| * dInStock
  {
    if before != [] {
      var n := |before| - 1;
      TotalsShift(before[..n], after[..n], dInStock, dReserved);
    }
  }

  /**
   * The per-book loop of cancel, deliver and done: every book of the list has its counters moved
   * by the given amounts, and no other object changes.
   */
  method AdjustCounters(books: seq<Book>, dInStock: int, dReserved: int)
    requires DistinctIds(books)
    modifies set b | b in books
    ensures forall b :: b in books ==>
              b.inStock == old(b.inStock) + dInStock && b.reserved == old(b.reserved) + dReserved
    ensures TotalReserved(Stats(books)) == old(TotalReserved(Stats(books))) + |books| * dReserved
    ensures TotalInStock(Stats(books)) == old(TotalInStock(Stats(books))) + |books| * dInStock
  {
    ghost var before := Stats(books);
    for i := 0 to |books|
      invariant forall j :: 0 <= j < i ==>
                  books[j].inStock == old(books[j].inStock) + dInStock &&
                  books[j].reserved == old(books[j].reserved) + dReserved
      invariant forall j :: i <= j < |books| ==>
                  books[j].inStock == old(books[j].inStock) && books[j].reserved == old(books[j].reserved)
    {
      assert forall j :: 0 <= j < |books| && j != i ==> books[j].id != books[i].id;
      books[i].inStock := books[i].inStock + dInStock;
      books[i].reserved := books[i].reserved + dReserved;
    }
    forall b | b in books
      ensures b.inStock == old(b.inStock) + dInStock && b.reserved == old(b.reserved) + dReserved
    {
      var j :| 0 <= j < |books| && books[j] == b;
    }
    TotalsShift(before, Stats(books), dInStock, dReserved);
  }

  // ---------------------------------------------------------------------------------------------
  // The book list of a NEW booking

  /** Booking.addBook behind the membership test of addBook: append unless already a member. */
  function WithBook(books: seq<Book>, book: Book): (r: seq<Book>)
    ensures HasBook(r, book.id)
    ensures forall i :: 0 <= i < |books| ==> books[i] in r
    ensures forall i :: 0 <= i < |r| ==> r[i] in books || r[i] == book
    ensures |r| == if HasBook(books, book.id) then |books| else |books| + 1
    ensures DistinctIds(books) ==> DistinctIds(r)
  {
    if HasBook(books, book.id) then books
    else
      assert (books + [book])[|books|].id == book.id;
      books + [book]
  }

  /** Adding a book that is already a member leaves the list as it is. */
  lemma WithBookIdempotent(books: seq<Book>, book: Book)
    ensures WithBook(WithBook(books, book), book) == WithBook(books, book)
  {
  }

  /** Booking.removeBook: the list without the book of that id, in the same order. */
  function WithoutBook(books: seq<Book>, id: int): (r: seq<Book>)
    ensures |r| <= |books|
    ensures forall i :: 0 <= i < |r| ==> r[i].id != id
    ensures !HasBook(books, id) ==> r == books
  {
    if books == [] then []
    else if books[0].id == id then WithoutBook(books[1..], id)
    else [books[0]] + WithoutBook(books[1..], id)
  }

  /** Removal keeps exactly the other books: everything left was there, every other book stays. */
  lemma {:induction false} WithoutBookMembers(books: seq<Book>, id: int)
    ensures forall i :: 0 <= i < |WithoutBook(books, id)| ==> WithoutBook(books, id)[i] in books
    ensures forall i :: 0 <= i < |books| && books[i].id != id ==> books[i] in WithoutBook(books, id)
  {
    if books != [] {
      WithoutBookMembers(books[1..], id);
      assert books == [books[0]] + books[1..];
    }
  }

  /** Removal keeps the ids distinct. */
  lemma {:induction false} WithoutBookDistinct(books: seq<Book>, id: int)
    requires DistinctIds(books)
    ensures DistinctIds(WithoutBook(books, id))
  {
    if books != [] {
      var tail := books[1..];
      assert DistinctIds(tail) by {
        forall i, j | 0 <= i < j < |tail| ensures tail[i].id != tail[j].id {
          assert tail[i] == books[i + 1] && tail[j] == books[j + 1];
        }
      }
      WithoutBookDistinct(tail, id);
      if books[0].id != id {
        WithoutBookMembers(tail, id);
        var rest := WithoutBook(tail, id);
        forall i | 0 <= i < |rest| ensures rest[i].id != books[0].id {
          assert rest[i] in tail;
          var j :| 0 <= j < |tail| && tail[j] == rest[i];
          assert books[j + 1] == rest[i];
        }
      }
    }
  }

  // ---------------------------------------------------------------------------------------------
  // Lookup of the working booking

  /**
   * findBookingForUser: the booking in the session if there is one; otherwise, when creation is
   * requested, a fresh NEW booking for the user placed in the session, refused when the user has
   * an outstanding fine; otherwise null.
   */
  method FindBookingForUser(slot: BookingSlot, u: User, create: bool, now: Time)
    returns (r: Result<Booking?, Failure>)
    requires slot.booking != null ==> slot.booking.Valid()
    modifies slot
    ensures r.Ok? && r.value != null ==> r.value.Valid()
    ensures old(slot.booking) != null ==> r == Ok(old(slot.booking)) && slot.booking == old(slot.booking)
    ensures old(slot.booking) == null && create && u.fine > 0.0 ==>
              r == Err(Ajax(SC_FORBIDDEN, "error.illegal.user.state")) && slot.booking == null
    ensures old(slot.booking) == null && create && u.fine <= 0.0 ==>
              r.Ok? && r.value != null && fresh(r.value) && slot.booking == r.value &&
              r.value.user == u && r.value.state == NEW && r.value.books == [] && r.value.Valid()
    ensures old(slot.booking) == null && !create ==> r == Ok(null) && slot.booking == null
  {
    if slot.booking != null {
      return Ok(slot.booking);
    }
    if create {
      if u.fine > 0.0 {
        return Err(Ajax(SC_FORBIDDEN, "error.illegal.user.state"));
      }
      var booking := new Booking(u, now);
      slot.booking := booking;
      return Ok(booking);
    }
    return Ok(null);
  }

  /**
   * findBooking: a USER works on the session booking; a LIBRARIAN names a booking by id and it
   * must be in the store; for any other role there is no booking.
   */
  method FindBooking(slot: BookingSlot, u: User, create: bool, bookingId: Option<int>,
                     store: BookingStore, now: Time)
    returns (r: Result<Booking?, Failure>)
    requires slot.booking != null ==> slot.booking.Valid()
    requires store.Valid()
    modifies slot
    ensures r.Ok? && r.value != null ==> r.value.Valid()
    ensures u.role == Role.USER && old(slot.booking) != null ==>
              r == Ok(old(slot.booking)) && slot.booking == old(slot.booking)
    ensures u.role == Role.USER && old(slot.booking) == null && create && u.fine > 0.0 ==>
              r == Err(Ajax(SC_FORBIDDEN, "error.illegal.user.state")) && slot.booking == null
    ensures u.role == Role.USER && old(slot.booking) == null && create && u.fine <= 0.0 ==>
              r.Ok? && r.value != null && fresh(r.value) && slot.booking == r.value &&
              r.value.user == u && r.value.state == NEW && r.value.books == []
    ensures u.role == Role.USER && old(slot.booking) == null && !create ==> r == Ok(null) && slot.booking == null
    ensures u.role != Role.USER ==> slot.booking == old(slot.booking)
    ensures u.role == LIBRARIAN ==>
              if bookingId.Some? && bookingId.value in store.records
              then r == Ok(store.records[bookingId.value])
              else r == Err(Service("error.booking.not.found"))
    ensures u.role == ADMIN || u.role == UNKNOWN ==> r == Ok(null)
  {
    r := Ok(null);
    if u.role == Role.USER {
      r := FindBookingForUser(slot, u, create, now);
    } else if u.role == LIBRARIAN {
      var booking: Booking? := null;
      if bookingId.Some? && bookingId.value in store.records {
        store.RecordValid(bookingId.value);
        booking := store.records[bookingId.value];
      }
      if booking == null {
        return Err(Service("error.booking.not.found"));
      }
      r := Ok(booking);
    }
  }

  /**
   * nextPageLogic of BookingLogic: a saved booking search link wins; otherwise the session user
   * must be present, and a LIBRARIAN goes to the booking page, anyone else to the basket.
   */
  function BookingNextPage(attrs: map<string, Value>): (r: Result<string, Failure>)
    ensures StrAttr(attrs, KEY_BOOKING_SEARCH_LINK).Some? ==>
              r == Ok(StrAttr(attrs, KEY_BOOKING_SEARCH_LINK).value)
    ensures StrAttr(attrs, KEY_BOOKING_SEARCH_LINK).None? ==>
              (r.Ok? <==> UserAttr(attrs).Some?)
    ensures StrAttr(attrs, KEY_BOOKING_SEARCH_LINK).None? && r.Ok? ==>
              (r.value == PAGE_BOOKING <==> UserAttr(attrs).value.role == LIBRARIAN) &&
              (r.value == PAGE_BASKET <==> UserAttr(attrs).value.role != LIBRARIAN)
  {
    match StrAttr(attrs, KEY_BOOKING_SEARCH_LINK)
    case Some(page) => Ok(page)
    case None =>
      match UserAttr(attrs)
      case None => Err(InvalidParameter(KEY_USER))
      case Some(current) => Ok(if current.role == LIBRARIAN then PAGE_BOOKING else PAGE_BASKET)
  }

  // ---------------------------------------------------------------------------------------------
  // Commands

  /**
   * addBook on the booking findBooking(req, true) returned: checks the id parameter, the NEW
   * state and the book's existence, then appends the book unless it is already a member. Success
   * carries the output the source reports: the length of the book list.
   */
  method AddBook(booking: Booking?, bookId: Option<int>, catalog: map<int, Book>)
    returns (r: Result<int, Failure>)
    requires booking != null ==> booking.Valid()
    requires CatalogConsistent(catalog)
    modifies booking
    ensures bookId.None? ==> r == Err(Ajax(SC_BAD_REQUEST, "error.no.id.in.request"))
    ensures bookId.Some? && booking == null ==> r == Err(NullDereference("booking"))
    ensures bookId.Some? && booking != null && old(booking.state) != NEW ==>
              r == Err(Ajax(SC_BAD_REQUEST, "error.add.book.to.not.new.booking"))
    ensures bookId.Some? && booking != null && old(booking.state) == NEW && bookId.value !in catalog ==>
              r == Err(Ajax(SC_NOT_FOUND, "error.not.found"))
    ensures booking != null && r.Err? ==> booking.books == old(booking.books)
    ensures bookId.Some? && booking != null && old(booking.state) == NEW && bookId.value in catalog ==>
              booking.books == WithBook(old(booking.books), catalog[bookId.value]) &&
              r == Ok(|booking.books|)
    ensures booking != null ==>
              booking.Valid() && booking.state == old(booking.state) &&
              booking.located == old(booking.located) && booking.modified == old(booking.modified) &&
              booking.id == old(booking.id)
  {
    if bookId.None? {
      return Err(Ajax(SC_BAD_REQUEST, "error.no.id.in.request"));
    }
    var id := bookId.value;
    if booking == null {
      return Err(NullDereference("booking"));
    }
    if booking.state != NEW {
      return Err(Ajax(SC_BAD_REQUEST, "error.add.book.to.not.new.booking"));
    }
    if id !in catalog {
      return Err(Ajax(SC_NOT_FOUND, "error.not.found"));
    }
    var book := catalog[id];
    if !HasBook(booking.books, book.id) {
      booking.books := booking.books + [book];
    }
    r := Ok(|booking.books|);
  }

  /** Adding the same book twice leaves it in the booking exactly once. */
  method AddBookTwice(booking: Booking, id: int, catalog: map<int, Book>)
    requires booking.Valid() && booking.state == NEW
    requires CatalogConsistent(catalog) && id in catalog
    modifies booking
    ensures booking.books == WithBook(old(booking.books), catalog[id])
    ensures |set i | 0 <= i < |booking.books| && booking.books[i].id == id| == 1
  {
    var first := AddBook(booking, Some(id), catalog);
    var second := AddBook(booking, Some(id), catalog);
    WithBookIdempotent(old(booking.books), catalog[id]);
    var k :| 0 <= k < |booking.books| && booking.books[k].id == id;
    assert (set i | 0 <= i < |booking.books| && booking.books[i].id == id) == {k};
  }

  /**
   * removeBook on the booking findBooking(req) returned: checks the id parameter, a present
   * booking and the NEW state, then removes the book read by that id (nothing when the id names
   * no book).
   */
  method RemoveBook(booking: Booking?, bookId: Option<int>, catalog: map<int, Book>)
    returns (r: Result<string, Failure>)
    requires booking != null ==> booking.Valid()
    modifies booking
    ensures bookId.None? ==> r == Err(Service("error.no.id.in.request"))
    ensures bookId.Some? && booking == null ==> r == Err(Service("error.add.some.book"))
    ensures bookId.Some? && booking != null && old(booking.state) != NEW ==>
              r == Err(Service("error.remove.illegal.state"))
    ensures booking != null && r.Err? ==> booking.books == old(booking.books)
    ensures bookId.Some? && booking != null && old(booking.state) == NEW ==>
              r == Ok(PAGE_BASKET) &&
              booking.books == if bookId.value in catalog
                               then WithoutBook(old(booking.books), catalog[bookId.value].id)
                               else old(booking.books)
    ensures booking != null ==>
              booking.Valid() && booking.state == old(booking.state) &&
              booking.located == old(booking.located) && booking.modified == old(booking.modified) &&
              booking.id == old(booking.id)
  {
    if bookId.None? {
      return Err(Service("error.no.id.in.request"));
    }
    var id := bookId.value;
    if booking == null {
      return Err(Service("error.add.some.book"));
    }
    if booking.state != NEW {
      return Err(Service("error.remove.illegal.state"));
    }
    if id in catalog {
      WithoutBookDistinct(booking.books, catalog[id].id);
      booking.books := WithoutBook(booking.books, catalog[id].id);
    }
    r := Ok(PAGE_BASKET);
  }

  /**
   * The stock and reservation effect of a transition, with the new state, place and modified time
   * and the write of the booking's row.
   */
  method Transition(booking: Booking, target: BookingState, place: Place, dInStock: int, dReserved: int,
                    store: BookingStore, now: Time)
    requires booking.Valid()
    modifies Footprint(booking), store
    ensures booking.state == target && booking.modified == now
    ensures booking.located == place && booking.books == old(booking.books)
    ensures booking.id == old(booking.id) && booking.Valid()
    ensures forall b :: b in booking.books ==>
              b.inStock == old(b.inStock) + dInStock && b.reserved == old(b.reserved) + dReserved
    ensures TotalReserved(Stats(booking.books)) ==
              old(TotalReserved(Stats(booking.books))) + |booking.books| * dReserved
    ensures TotalInStock(Stats(booking.books)) ==
              old(TotalInStock(Stats(booking.books))) + |booking.books| * dInStock
    ensures store.records == old(store.records)
    ensures store.writes == old(store.writes) + [Updated(Row(booking))]
  {
    AdjustCounters(booking.books, dInStock, dReserved);
    Stamp(booking, target, place, store, now);
  }

  /** The new state and modified time of a transition, and the write of the booking's row. */
  method Stamp(booking: Booking, target: BookingState, place: Place, store: BookingStore, now: Time)
    modifies booking, store
    ensures booking.state == target && booking.modified == now
    ensures booking.located == place && booking.books == old(booking.books)
    ensures booking.id == old(booking.id)
    ensures store.records == old(store.records)
    ensures store.writes == old(store.writes) + [Updated(Row(booking))]
  {
    booking.state := target;
    booking.located := place;
    booking.modified := now;
    store.Update(booking);
  }

  /**
   * cancel: a NEW booking only loses its books (its state stays NEW and nothing is written); a
   * BOOKED booking releases one reservation per book, becomes CANCELED and is written; any other
   * state is refused.
   */
  method Cancel(booking: Booking?, attrs: map<string, Value>, store: BookingStore, now: Time)
    returns (r: Result<string, Failure>)
    requires booking != null ==> booking.Valid()
    modifies Footprint(booking), store
    ensures store.records == old(store.records)
    ensures booking == null ==>
              r == Err(Service("error.cancel.null.booking")) && store.writes == old(store.writes)
    ensures booking != null && old(booking.state) != NEW && old(booking.state) != BOOKED ==>
              r == Err(Service("error.cancel.illegal.state")) && unchanged(booking) &&
              unchanged(set b | b in old(booking.books)) && store.writes == old(store.writes)
    ensures booking != null && old(booking.state) == NEW ==>
              booking.books == [] && booking.state == NEW &&
              booking.modified == old(booking.modified) && booking.located == old(booking.located) &&
              unchanged(set b | b in old(booking.books)) && store.writes == old(store.writes) &&
              r == BookingNextPage(attrs)
    ensures booking != null && old(booking.state) == BOOKED ==>
              booking.state == CANCELED && booking.modified == now &&
              booking.located == old(booking.located) && booking.books == old(booking.books) &&
              (forall b :: b in booking.books ==>
                 b.reserved == old(b.reserved) - 1 && b.inStock == old(b.inStock)) &&
              TotalReserved(Stats(booking.books)) ==
                old(TotalReserved(Stats(booking.books))) - |booking.books| &&
              store.writes == old(store.writes) + [Updated(Row(booking))] &&
              r == BookingNextPage(attrs)
    ensures booking != null ==> booking.Valid() && booking.id == old(booking.id)
  {
    if booking == null {
      return Err(Service("error.cancel.null.booking"));
    }
    var state := booking.state;
    if state != NEW && state != BOOKED {
      return Err(Service("error.cancel.illegal.state"));
    }
    if state == NEW {
      booking.books := [];
      return BookingNextPage(attrs);
    }
    Transition(booking, CANCELED, booking.located, 0, -1, store, now);
    r := BookingNextPage(attrs);
  }

  /**
   * book: a NEW booking becomes BOOKED, gets a fresh modified time, is created in the store and
   * leaves the session. No book counter changes (the books are outside the frame).
   */
  method Commit(booking: Booking?, slot: BookingSlot, store: BookingStore, now: Time)
    returns (r: Result<string, Failure>)
    modifies booking, slot, store
    ensures store.records == old(store.records)
    ensures booking == null ==>
              r == Err(Service("error.booked.null.booking")) &&
              slot.booking == old(slot.booking) && store.writes == old(store.writes)
    ensures booking != null && old(booking.state) != NEW ==>
              r == Err(Service("error.booked.illegal.state")) && unchanged(booking) &&
              slot.booking == old(slot.booking) && store.writes == old(store.writes)
    ensures booking != null && old(booking.state) == NEW ==>
              booking.state == BOOKED && booking.modified == now &&
              booking.located == old(booking.located) && booking.books == old(booking.books) &&
              booking.id == old(booking.id) &&
              store.writes == old(store.writes) + [Created(Row(booking))] &&
              slot.booking == null && r == Ok(PAGE_BASKET)
  {
    if booking == null {
      return Err(Service("error.booked.null.booking"));
    }
    if booking.state != NEW {
      return Err(Service("error.booked.illegal.state"));
    }
    booking.state := BOOKED;
    booking.modified := now;
    store.Create(booking);
    slot.booking := null;
    r := Ok(PAGE_BASKET);
  }

  /**
   * deliver: a BOOKED booking becomes DELIVERED; every book loses one reservation and one copy
   * in stock; a subscription delivery moves the booking to the user, otherwise the place stays.
   */
  method Deliver(booking: Booking?, subscription: bool, attrs: map<string, Value>,
                 store: BookingStore, now: Time)
    returns (r: Result<string, Failure>)
    requires booking != null ==> booking.Valid()
    modifies Footprint(booking), store
    ensures store.records == old(store.records)
    ensures booking == null ==>
              r == Err(Service("error.deliver.null.booking")) && store.writes == old(store.writes)
    ensures booking != null && old(booking.state) != BOOKED ==>
              r == Err(Service("error.deliver.illegal.state")) && unchanged(booking) &&
              unchanged(set b | b in old(booking.books)) && store.writes == old(store.writes)
    ensures booking != null && old(booking.state) == BOOKED ==>
              booking.state == DELIVERED && booking.modified == now &&
              booking.located == (if subscription then Place.USER else old(booking.located)) &&
              booking.books == old(booking.books) &&
              (forall b :: b in booking.books ==>
                 b.reserved == old(b.reserved) - 1 && b.inStock == old(b.inStock) - 1) &&
              TotalReserved(Stats(booking.books)) ==
                old(TotalReserved(Stats(booking.books))) - |booking.books| &&
              TotalInStock(Stats(booking.books)) ==
                old(TotalInStock(Stats(booking.books))) - |booking.books| &&
              store.writes == old(store.writes) + [Updated(Row(booking))] &&
              r == BookingNextPage(attrs)
    ensures booking != null ==> booking.Valid() && booking.id == old(booking.id)
  {
    if booking == null {
      return Err(Service("error.deliver.null.booking"));
    }
    if booking.state != BOOKED {
      return Err(Service("error.deliver.illegal.state"));
    }
    var place := if subscription then Place.USER else booking.located;
    Transition(booking, DELIVERED, place, -1, -1, store, now);
    r := BookingNextPage(attrs);
  }

  /** done: a DELIVERED booking becomes DONE and every book goes back in stock. */
  method Done(booking: Booking?, attrs: map<string, Value>, store: BookingStore, now: Time)
    returns (r: Result<string, Failure>)
    requires booking != null ==> booking.Valid()
    modifies Footprint(booking), store
    ensures store.records == old(store.records)
    ensures booking == null ==>
              r == Err(Service("error.done.null.booking")) && store.writes == old(store.writes)
    ensures booking != null && old(booking.state) != DELIVERED ==>
              r == Err(Service("error.done.illegal.state")) && unchanged(booking) &&
              unchanged(set b | b in old(booking.books)) && store.writes == old(store.writes)
    ensures booking != null && old(booking.state) == DELIVERED ==>
              booking.state == DONE && booking.modified == now &&
              booking.located == old(booking.located) && booking.books == old(booking.books) &&
              (forall b :: b in booking.books ==>
                 b.inStock == old(b.inStock) + 1 && b.reserved == old(b.reserved)) &&
              TotalInStock(Stats(booking.books)) ==
                old(TotalInStock(Stats(booking.books))) + |booking.books| &&
              store.writes == old(store.writes) + [Updated(Row(booking))] &&
              r == BookingNextPage(attrs)
    ensures booking != null ==> booking.Valid() && booking.id == old(booking.id)
  {
    if booking == null {
      return Err(Service("error.done.null.booking"));
    }
    if booking.state != DELIVERED {
      return Err(Service("error.done.illegal.state"));
    }
    Transition(booking, DONE, booking.located, 1, 0, store, now);
    r := BookingNextPage(attrs);
  }

  /**
   * A booking delivered and then completed has every book back in stock, with one reservation
   * fewer than before.
   */
  method DeliverThenDone(booking: Booking, subscription: bool, attrs: map<string, Value>,
                         store: BookingStore, deliveredAt: Time, doneAt: Time)
    requires booking.Valid() && booking.state == BOOKED
    modifies Footprint(booking), store
    ensures booking.state == DONE && booking.books == old(booking.books)
    ensures forall b :: b in booking.books ==>
              b.inStock == old(b.inStock) && b.reserved == old(b.reserved) - 1
  {
    var delivered := Deliver(booking, subscription, attrs, store, deliveredAt);
    var done := Done(booking, attrs, store, doneAt);
  }

  // ---------------------------------------------------------------------------------------------
  // The basket: earlier bookings without the current one, sorted by state

  /** The position of a state in the declaration order of Booking.State. */
  function Rank(s: BookingState): nat {
    match s
    case NEW => 0
    case BOOKED => 1
    case CANCELED => 2
    case DELIVERED => 3
    case DONE => 4
  }

  /** The position of the first booking with the given id, or -1 when there is none. */
  function FirstIndexOf(rows: seq<BookingRow>, id: int): (k: int)
    ensures -1 <= k < |rows|
    ensures k == -1 <==> forall i :: 0 <= i < |rows| ==> rows[i].id != id
    ensures k >= 0 ==> rows[k].id == id && forall i :: 0 <= i < k ==> rows[i].id != id
  {
    if rows == [] then -1
    else if rows[0].id == id then 0
    else
      var k := FirstIndexOf(rows[1..], id);
      if k == -1 then
        assert forall i :: 1 <= i < |rows| ==> rows[i] == rows[1..][i - 1];
        -1
      else k + 1
  }

  /** List.remove(o): drops the first booking with the id of o, if any. */
  function RemoveFirst(rows: seq<BookingRow>, id: int): (r: seq<BookingRow>)
    ensures FirstIndexOf(rows, id) == -1 ==> r == rows
    ensures FirstIndexOf(rows, id) >= 0 ==>
              |r| == |rows| - 1 &&
              multiset(r) + multiset{rows[FirstIndexOf(rows, id)]} == multiset(rows)
  {
    var k := FirstIndexOf(rows, id);
    if k == -1 then rows
    else
      assert rows == rows[..k] + [rows[k]] + rows[k + 1..];
      rows[..k] + rows[k + 1..]
  }

  /** The bookings of one state, in list order. */
  function OfState(rows: seq<BookingRow>, s: BookingState): seq<BookingRow> {
    if rows == [] then []
    else if rows[0].state == s then [rows[0]] + OfState(rows[1..], s)
    else OfState(rows[1..], s)
  }

  /** List.sort(Comparator.comparing(Booking::getState)), a stable sort on the state. */
  function SortByState(rows: seq<BookingRow>): seq<BookingRow> {
    OfState(rows, NEW) + OfState(rows, BOOKED) + OfState(rows, CANCELED) +
    OfState(rows, DELIVERED) + OfState(rows, DONE)
  }

  predicate SortedByState(rows: seq<BookingRow>) {
    forall i, j :: 0 <= i < j < |rows| ==> Rank(rows[i].state) <= Rank(rows[j].state)
  }

  lemma {:induction false} OfStateMembers(rows: seq<BookingRow>, s: BookingState)
    ensures forall x :: x in OfState(rows, s) ==> x.state == s && x in rows
  {
    if rows != [] {
      OfStateMembers(rows[1..], s);
    }
  }

  lemma {:induction false} OfStateAppend(a: seq<BookingRow>, b: seq<BookingRow>, s: BookingState)
    ensures OfState(a + b, s) == OfState(a, s) + OfState(b, s)
  {
    if a == [] {
      assert a + b == b;
    } else {
      assert (a + b)[0] == a[0] && (a + b)[1..] == a[1..] + b;
      OfStateAppend(a[1..], b, s);
      var h := if a[0].state == s then [a[0]] else [];
      assert OfState(a + b, s) == h + OfState(a[1..] + b, s);
      assert OfState(a, s) == h + OfState(a[1..], s);
    }
  }

  lemma {:induction false} OfStateOfState(rows: seq<BookingRow>, s: BookingState, t: BookingState)
    ensures OfState(OfState(rows, t), s) == if s == t then OfState(rows, t) else []
  {
    if rows != [] {
      OfStateOfState(rows[1..], s, t);
    }
  }

  /** The buckets of the five states together hold every booking exactly as often as the list. */
  lemma {:induction false} OfStatePartition(rows: seq<BookingRow>)
    ensures multiset(OfState(rows, NEW)) + multiset(OfState(rows, BOOKED)) +
            multiset(OfState(rows, CANCELED)) + multiset(OfState(rows, DELIVERED)) +
            multiset(OfState(rows, DONE)) == multiset(rows)
  {
    if rows != [] {
      var x, tail := rows[0], rows[1..];
      OfStatePartition(tail);
      assert rows == [x] + tail;
      assert multiset(rows) == multiset{x} + multiset(tail);
      match x.state
      case NEW => assert OfState(rows, NEW) == [x] + OfState(tail, NEW);
      case BOOKED => assert OfState(rows, BOOKED) == [x] + OfState(tail, BOOKED);
      case CANCELED => assert OfState(rows, CANCELED) == [x] + OfState(tail, CANCELED);
      case DELIVERED => assert OfState(rows, DELIVERED) == [x] + OfState(tail, DELIVERED);
      case DONE => assert OfState(rows, DONE) == [x] + OfState(tail, DONE);
    }
  }

  /** Every booking appears as often in the sorted list as in the original. */
  lemma SortByStatePermutes(rows: seq<BookingRow>)
    ensures multiset(SortByState(rows)) == multiset(rows)
  {
    OfStatePartition(rows);
  }

  /** The sorted list has the states in declaration order. */
  lemma SortByStateSorted(rows: seq<BookingRow>)
    ensures SortedByState(SortByState(rows))
  {
    OfStateMembers(rows, NEW);
    OfStateMembers(rows, BOOKED);
    OfStateMembers(rows, CANCELED);
    OfStateMembers(rows, DELIVERED);
    OfStateMembers(rows, DONE);
    var r := SortByState(rows);
    forall i, j | 0 <= i < j < |r|
      ensures Rank(r[i].state) <= Rank(r[j].state)
    {
      var n0 := |OfState(rows, NEW)|;
      var n1 := n0 + |OfState(rows, BOOKED)|;
      var n2 := n1 + |OfState(rows, CANCELED)|;
      var n3 := n2 + |OfState(rows, DELIVERED)|;
      assert forall k :: 0 <= k < n0 ==> r[k] in OfState(rows, NEW);
      assert forall k :: n0 <= k < n1 ==> r[k] in OfState(rows, BOOKED);
      assert forall k :: n1 <= k < n2 ==> r[k] in OfState(rows, CANCELED);
      assert forall k :: n2 <= k < n3 ==> r[k] in OfState(rows, DELIVERED);
      assert forall k :: n3 <= k < |r| ==> r[k] in OfState(rows, DONE);
    }
  }

  /** The sort is stable: the bookings of each state keep their relative order. */
  lemma SortByStateStable(rows: seq<BookingRow>, s: BookingState)
    ensures OfState(SortByState(rows), s) == OfState(rows, s)
  {
    var a, b, c, d, e :=
      OfState(rows, NEW), OfState(rows, BOOKED), OfState(rows, CANCELED),
      OfState(rows, DELIVERED), OfState(rows, DONE);
    OfStateAppend(a + b + c + d, e, s);
    OfStateAppend(a + b + c, d, s);
    OfStateAppend(a + b, c, s);
    OfStateAppend(a, b, s);
    OfStateOfState(rows, s, NEW);
    OfStateOfState(rows, s, BOOKED);
    OfStateOfState(rows, s, CANCELED);
    OfStateOfState(rows, s, DELIVERED);
    OfStateOfState(rows, s, DONE);
  }

  /**
   * basket: only a USER has a basket; the list shown is the user's stored bookings without the
   * current one (by id), sorted by state.
   */
  function BasketHistory(role: Role, current: Option<int>, stored: seq<BookingRow>)
    : (r: Result<seq<BookingRow>, Failure>)
    ensures role != Role.USER ==> r == Err(Service("error.resource.forbidden"))
    ensures role == Role.USER ==> r.Ok? && SortedByState(r.value)
    ensures role == Role.USER && current.None? ==> multiset(r.value) == multiset(stored)
    ensures role == Role.USER && current.Some? ==>
              multiset(r.value) == multiset(RemoveFirst(stored, current.value))
    ensures role == Role.USER ==>
              var kept := if current.Some? then RemoveFirst(stored, current.value) else stored;
              r.value == SortByState(kept) && forall s :: OfState(r.value, s) == OfState(kept, s)
  {
    if role != Role.USER then Err(Service("error.resource.forbidden"))
    else
      var kept := if current.Some? then RemoveFirst(stored, current.value) else stored;
      SortByStateSorted(kept);
      SortByStatePermutes(kept);
      forall s ensures OfState(SortByState(kept), s) == OfState(kept, s) {
        SortByStateStable(kept, s);
      }
      Ok(SortByState(kept))
  }
}
