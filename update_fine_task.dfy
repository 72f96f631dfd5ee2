/**
 * The fine accrual task (UpdateFineTask): on every tick, for every user, the DELIVERED bookings
 * are scanned and a fine is added for every book kept past its allowance; the user's watermark
 * fineLastChecked moves to the time of the check only when the fine changed.
 */
module UpdateFineTask {
  import opened Wrappers
  import opened Entities

  /** The rate an uninitialised task holds. */
  const UNSET_RATE: real := -1.0

  /** A delivered booking as findDeliveredByUserID hands it out: what the fine reads of it. */
  datatype DeliveredBooking = DeliveredBooking(modified: Time, located: Place, keepPeriods: seq<int>)

  /** The start of the unchecked window: the later of the booking's change and the watermark. */
  function WindowStart(modified: Time, fineLastChecked: Time): (t: Time)
    ensures t >= modified && t >= fineLastChecked
    ensures t == modified || t == fineLastChecked
  {
    if modified > fineLastChecked then modified else fineLastChecked
  }

  /** The whole unchecked days of a booking at time now. */
  function PastDays(b: DeliveredBooking, fineLastChecked: Time, now: Time): int {
    DaysBetween(WindowStart(b.modified, fineLastChecked), now)
  }

  /** The days a book may be kept: its keep period when it is with the user, otherwise one. */
  function Allowance(located: Place, keepPeriod: int): int {
    if located == Place.USER then keepPeriod else 1
  }

  /** The fine one book adds: the days past its allowance times the rate, when there are any. */
  function BookFine(pastDays: int, allowance: int, rate: real): real {
    var fineDays := pastDays - allowance;
    if fineDays > 0 then fineDays as real * rate else 0.0
  }

  /** The fine the books of one booking add. */
  function BookingFine(pastDays: int, located: Place, keepPeriods: seq<int>, rate: real): real {
    if keepPeriods == [] then 0.0
    else
      var n := |keepPeriods| - 1;
      BookingFine(pastDays, located, keepPeriods[..n], rate) +
      BookFine(pastDays, Allowance(located, keepPeriods[n]), rate)
  }

  /** The fine all delivered bookings of a user add; every booking uses the same watermark. */
  function FineAdded(bookings: seq<DeliveredBooking>, fineLastChecked: Time, now: Time, rate: real): real {
    if bookings == [] then 0.0
    else
      var n := |bookings| - 1;
      var b := bookings[n];
      FineAdded(bookings[..n], fineLastChecked, now, rate) +
      BookingFine(PastDays(b, fineLastChecked, now), b.located, b.keepPeriods, rate)
  }

  /**
   * The user after checkUser at time now: the fine grows by FineAdded; when that changed the
   * fine, modified and fineLastChecked become now, otherwise the user is as it was.
   */
  function CheckedUser(u: User, bookings: seq<DeliveredBooking>, now: Time, rate: real): User {
    var fine := u.fine + FineAdded(bookings, u.fineLastChecked, now, rate);
    if fine != u.fine then u.(fine := fine, modified := now, fineLastChecked := now) else u
  }

  // ---------------------------------------------------------------------------------------------
  // Properties of the fine

  /** With a non-negative rate no book lowers the fine. */
  lemma {:induction false} BookingFineNonNegative(pastDays: int, located: Place, keepPeriods: seq<int>, rate: real)
    requires rate >= 0.0
    ensures BookingFine(pastDays, located, keepPeriods, rate) >= 0.0
  {
    if keepPeriods != [] {
      BookingFineNonNegative(pastDays, located, keepPeriods[..|keepPeriods| - 1], rate);
    }
  }

  lemma {:induction false} FineAddedNonNegative(bookings: seq<DeliveredBooking>, fineLastChecked: Time,
                                                now: Time, rate: real)
    requires rate >= 0.0
    ensures FineAdded(bookings, fineLastChecked, now, rate) >= 0.0
  {
    if bookings != [] {
      var n := |bookings| - 1;
      FineAddedNonNegative(bookings[..n], fineLastChecked, now, rate);
      BookingFineNonNegative(PastDays(bookings[n], fineLastChecked, now), bookings[n].located,
                             bookings[n].keepPeriods, rate);
    }
  }

  /** The fine never decreases when the rate is non-negative. */
  lemma FineNeverDecreases(u: User, bookings: seq<DeliveredBooking>, now: Time, rate: real)
    requires rate >= 0.0
    ensures CheckedUser(u, bookings, now, rate).fine >= u.fine
  {
    FineAddedNonNegative(bookings, u.fineLastChecked, now, rate);
  }

  /**
   * The watermark and modified time move, to now, exactly when the fine changed; otherwise the
   * user record is untouched. Identity, email and every other field never change.
   */
  lemma WatermarkMovesOnlyWithFine(u: User, bookings: seq<DeliveredBooking>, now: Time, rate: real)
    ensures var r := CheckedUser(u, bookings, now, rate);
            (r.fine == u.fine ==> r == u) &&
            (r.fine != u.fine ==> r.fineLastChecked == now && r.modified == now &&
                                  r == u.(fine := r.fine, modified := now, fineLastChecked := now))
  {
  }

  /** The fines of two lists of bookings add up: each booking is judged on its own. */
  lemma {:induction false} FineAddedAppend(a: seq<DeliveredBooking>, b: seq<DeliveredBooking>,
                                           fineLastChecked: Time, now: Time, rate: real)
    ensures FineAdded(a + b, fineLastChecked, now, rate) ==
            FineAdded(a, fineLastChecked, now, rate) + FineAdded(b, fineLastChecked, now, rate)
  {
    if b == [] {
      assert a + b == a;
    } else {
      var n := |b| - 1;
      assert (a + b)[..|a| + n] == a + b[..n];
      assert (a + b)[|a| + n] == b[n];
      FineAddedAppend(a, b[..n], fineLastChecked, now, rate);
    }
  }

  /** A window that starts at now holds no unchecked day, so no book with a non-negative keep period is fined. */
  lemma {:induction false} BookingFineZeroAtNow(pastDays: int, located: Place, keepPeriods: seq<int>, rate: real)
    requires pastDays <= 0
    requires forall k :: 0 <= k < |keepPeriods| ==> keepPeriods[k] >= 0
    ensures BookingFine(pastDays, located, keepPeriods, rate) == 0.0
  {
    if keepPeriods != [] {
      BookingFineZeroAtNow(pastDays, located, keepPeriods[..|keepPeriods| - 1], rate);
    }
  }

  predicate KeepPeriodsNonNegative(bookings: seq<DeliveredBooking>) {
    forall i, k :: 0 <= i < |bookings| && 0 <= k < |bookings[i].keepPeriods| ==>
      bookings[i].keepPeriods[k] >= 0
  }

  lemma {:induction false} FineAddedZeroAtWatermark(bookings: seq<DeliveredBooking>, now: Time, rate: real)
    requires KeepPeriodsNonNegative(bookings)
    ensures FineAdded(bookings, now, now, rate) == 0.0
  {
    if bookings != [] {
      var n := |bookings| - 1;
      assert KeepPeriodsNonNegative(bookings[..n]);
      FineAddedZeroAtWatermark(bookings[..n], now, rate);
      BookingFineZeroAtNow(PastDays(bookings[n], now, now), bookings[n].located, bookings[n].keepPeriods, rate);
    }
  }

  /**
   * Checking a user again at the same time adds nothing: after a fine the window starts at now,
   * and with no fine the inputs are the same as before.
   */
  lemma CheckUserIdempotent(u: User, bookings: seq<DeliveredBooking>, now: Time, rate: real)
    requires KeepPeriodsNonNegative(bookings)
    ensures CheckedUser(CheckedUser(u, bookings, now, rate), bookings, now, rate) ==
            CheckedUser(u, bookings, now, rate)
  {
    var once := CheckedUser(u, bookings, now, rate);
    if once != u {
      FineAddedZeroAtWatermark(bookings, now, rate);
    }
  }

  /** Both dates two days back, a reading-room booking of one book, rate 1: the fine becomes exactly 1. */
  lemma ScenarioTwoDaysOverdue(u: User, now: Time)
    requires u.fine == 0.0 && u.fineLastChecked == now - 2 * DayMillis
    ensures var r := CheckedUser(u, [DeliveredBooking(now - 2 * DayMillis, LIBRARY, [1])], now, 1.0);
            r.fine == 1.0 && r.fineLastChecked == now
  {
    var bs := [DeliveredBooking(now - 2 * DayMillis, LIBRARY, [1])];
    assert PastDays(bs[0], u.fineLastChecked, now) == 2;
    assert bs[..0] == [];
    assert bs[0].keepPeriods[..0] == [];
    assert BookingFine(2, LIBRARY, [1], 1.0) == 1.0;
    assert FineAdded(bs, u.fineLastChecked, now, 1.0) == 1.0;
  }

  /** A booking delivered just now gives no fine, whatever the user's watermark. */
  lemma ScenarioJustDelivered(u: User, now: Time)
    requires u.fineLastChecked == now - 2 * DayMillis
    ensures CheckedUser(u, [DeliveredBooking(now, LIBRARY, [1])], now, 1.0) == u
  {
    var bs := [DeliveredBooking(now, LIBRARY, [1])];
    assert PastDays(bs[0], u.fineLastChecked, now) == 0;
    assert bs[..0] == [];
    assert bs[0].keepPeriods[..0] == [];
    assert BookingFine(0, LIBRARY, [1], 1.0) == 0.0;
    assert FineAdded(bs, u.fineLastChecked, now, 1.0) == 0.0;
  }

  /** A user checked just now gets no fine, however old the booking. */
  lemma ScenarioCheckedToday(u: User, now: Time)
    requires u.fineLastChecked == now
    ensures CheckedUser(u, [DeliveredBooking(now - 2 * DayMillis, LIBRARY, [1])], now, 1.0) == u
  {
    var bs := [DeliveredBooking(now - 2 * DayMillis, LIBRARY, [1])];
    assert PastDays(bs[0], u.fineLastChecked, now) == 0;
    assert bs[..0] == [];
    assert bs[0].keepPeriods[..0] == [];
    assert BookingFine(0, LIBRARY, [1], 1.0) == 0.0;
    assert FineAdded(bs, u.fineLastChecked, now, 1.0) == 0.0;
  }

  // ---------------------------------------------------------------------------------------------
  // The per-user check

  /**
   * checkUser's scan: the watermark is read once before the booking loop; for every booking the
   * window starts at the later of its change and the watermark, and every book past its
   * allowance adds its fine to the user's fine.
   */
  method CheckUser(user: User, bookings: seq<DeliveredBooking>, rate: real, now: Time)
    returns (updated: User)
    ensures updated == CheckedUser(user, bookings, now, rate)
  {
    var oldFine := user.fine;
    var fine := user.fine;
    var fineLastChecked := user.fineLastChecked;
    for i := 0 to |bookings|
      invariant fine == oldFine + FineAdded(bookings[..i], fineLastChecked, now, rate)
    {
      var booking := bookings[i];
      var lastModified := if booking.modified > fineLastChecked then booking.modified else fineLastChecked;
      var pastDays := DaysBetween(lastModified, now);
      ghost var before := fine;
      for j := 0 to |booking.keepPeriods|
        invariant fine == before + BookingFine(pastDays, booking.located, booking.keepPeriods[..j], rate)
      {
        var keepPeriod := if booking.located == Place.USER then booking.keepPeriods[j] else 1;
        var fineDays := pastDays - keepPeriod;
        if fineDays > 0 {
          fine := fine + fineDays as real * rate;
        }
        assert booking.keepPeriods[..j + 1][..j] == booking.keepPeriods[..j];
      }
      assert booking.keepPeriods[..|booking.keepPeriods|] == booking.keepPeriods;
      assert bookings[..i + 1][..i] == bookings[..i];
    }
    assert bookings[..|bookings|] == bookings;
    updated := user.(fine := fine);
    if fine != oldFine {
      updated := updated.(modified := now, fineLastChecked := now);
    }
  }

  // ---------------------------------------------------------------------------------------------
  // The task

  /** The user store: rows by id; an update of a user in `failing` is refused by the store. */
  class UserStore {
    var rows: map<int, User>
    const failing: set<int>

    constructor (rows: map<int, User>, failing: set<int>)
      ensures this.rows == rows && this.failing == failing
    {
      this.rows := rows;
      this.failing := failing;
    }

    method Update(u: User) returns (ok: bool)
      modifies this
      ensures ok == (u.id !in failing)
      ensures rows == if ok then old(rows)[u.id := u] else old(rows)
    {
      ok := u.id !in failing;
      if ok {
        rows := rows[u.id := u];
      }
    }
  }

  /**
   * The store after one user is checked: the checked user is stored exactly when the user's
   * bookings were read (an entry in `delivered`), the fine changed and the write succeeded;
   * otherwise nothing changes.
   */
  function StoreAfterCheck(rows: map<int, User>, u: User, delivered: map<int, seq<DeliveredBooking>>,
                           failing: set<int>, now: Time, rate: real): (r: map<int, User>)
    ensures r.Keys == rows.Keys + (if r == rows then {} else {u.id})
    ensures r != rows ==>
              u.id in delivered && u.id !in failing &&
              r == rows[u.id := CheckedUser(u, delivered[u.id], now, rate)] &&
              CheckedUser(u, delivered[u.id], now, rate).fine != u.fine
    ensures u.id in delivered && u.id !in failing && CheckedUser(u, delivered[u.id], now, rate).fine != u.fine ==>
              r == rows[u.id := CheckedUser(u, delivered[u.id], now, rate)]
  {
    if u.id !in delivered then rows
    else
      var checked := CheckedUser(u, delivered[u.id], now, rate);
      if checked.fine != u.fine && u.id !in failing then rows[u.id := checked] else rows
  }

  /** The store after a tick over the users, the i-th user checked at clock(i). */
  function Tick(rows: map<int, User>, users: seq<User>, delivered: map<int, seq<DeliveredBooking>>,
                failing: set<int>, clock: nat -> Time, rate: real): map<int, User>
  {
    if users == [] then rows
    else
      var n := |users| - 1;
      StoreAfterCheck(Tick(rows, users[..n], delivered, failing, clock, rate), users[n],
                      delivered, failing, clock(n), rate)
  }

  /** A tick writes only the rows of the users it scanned; every other row stays as it was. */
  lemma {:induction false} TickTouchesOnlyScannedUsers(rows: map<int, User>, users: seq<User>,
                                                       delivered: map<int, seq<DeliveredBooking>>,
                                                       failing: set<int>, clock: nat -> Time, rate: real, id: int)
    requires forall i :: 0 <= i < |users| ==> users[i].id != id
    ensures var r := Tick(rows, users, delivered, failing, clock, rate);
            (id in r <==> id in rows) && (id in rows ==> r[id] == rows[id])
  {
    if users != [] {
      TickTouchesOnlyScannedUsers(rows, users[..|users| - 1], delivered, failing, clock, rate, id);
    }
  }

  /** Errors of init. */
  datatype InitError = NotSpecified | NotValidRate

  /** The init parameter as the context gives it: absent, not a number, or a number. */
  datatype RateParam = Missing | Unparsable | Rate(value: real)

  class FineTask {
    var finePerDay: real

    constructor ()
      ensures finePerDay == UNSET_RATE
    {
      finePerDay := UNSET_RATE;
    }

    /** init: a missing, malformed or negative rate is refused and the rate stays; 0 is accepted. */
    method Init(param: RateParam) returns (r: Outcome<InitError>)
      modifies this
      ensures param.Missing? ==> r == Fail(NotSpecified) && finePerDay == old(finePerDay)
      ensures param.Unparsable? ==> r == Fail(NotValidRate) && finePerDay == old(finePerDay)
      ensures param.Rate? && param.value < 0.0 ==> r == Fail(NotValidRate) && finePerDay == old(finePerDay)
      ensures param.Rate? && param.value >= 0.0 ==> r == Pass && finePerDay == param.value
    {
      match param
      case Missing => r := Fail(NotSpecified);
      case Unparsable => r := Fail(NotValidRate);
      case Rate(candidate) =>
        if candidate < 0.0 {
          r := Fail(NotValidRate);
        } else {
          finePerDay := candidate;
          r := Pass;
        }
    }

    /**
     * run: nothing happens before init or when the user list cannot be read; otherwise every
     * user is checked in turn and the store holds the result of the tick.
     */
    method Run(users: Option<seq<User>>, delivered: map<int, seq<DeliveredBooking>>,
               clock: nat -> Time, store: UserStore)
      modifies store
      ensures finePerDay == UNSET_RATE || users.None? ==> store.rows == old(store.rows)
      ensures finePerDay != UNSET_RATE && users.Some? ==>
                store.rows == Tick(old(store.rows), users.value, delivered, store.failing, clock, finePerDay)
    {
      if finePerDay == UNSET_RATE {
        return;
      }
      if users.None? {
        return;
      }
      var list := users.value;
      for i := 0 to |list|
        invariant store.rows == Tick(old(store.rows), list[..i], delivered, store.failing, clock, finePerDay)
      {
        assert list[..i + 1][..i] == list[..i];
        var user := list[i];
        if user.id in delivered {
          var updated := CheckUser(user, delivered[user.id], finePerDay, clock(i));
          if updated.fine != user.fine {
            var ok := store.Update(updated);
          }
        }
      }
      assert list[..|list|] == list;
    }
  }

  /** After init with a valid rate, run is no longer switched off. */
  method InitThenRun(rate: real, users: seq<User>, delivered: map<int, seq<DeliveredBooking>>,
                     clock: nat -> Time, store: UserStore)
    requires rate >= 0.0
    modifies store
    ensures store.rows == Tick(old(store.rows), users, delivered, store.failing, clock, rate)
  {
    var task := new FineTask();
    var outcome := task.Init(Rate(rate));
    task.Run(Some(users), delivered, clock, store);
  }
}
