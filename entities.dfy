/**
 * Entities shared by the booking state machine, the fine accrual task and the user rules:
 * the enumerations of the source's entity classes, the User record, timestamps and the
 * error conditions the command layer raises.
 */
module Entities {
  import opened Wrappers

  /** Timestamps are milliseconds since the epoch (the source's Calendar/Instant values). */
  type Time = int

  const DayMillis: int := 86_400_000

  /** User.Role */
  datatype Role = USER | LIBRARIAN | ADMIN | UNKNOWN

  /** User.State */
  datatype UserState = VALID | BLOCKED

  /** Booking.State; the basket's sort by state follows the order of these constructors. */
  datatype BookingState = NEW | BOOKED | CANCELED | DELIVERED | DONE

  /** Booking.Place: where the books of a delivered booking are. */
  datatype Place = LIBRARY | USER

  /** A language, identified by its code. */
  datatype Lang = Lang(code: string)

  /** The user record: the fields the core reads or writes. */
  datatype User = User(
    id: int,
    email: string,
    password: string,
    name: string,
    role: Role,
    state: UserState,
    fine: real,
    fineLastChecked: Time,
    modified: Time,
    preferredLang: Lang)

  /**
   * The error conditions of the command layer.
   *  - Service(key): a ServiceException with a message key;
   *  - Ajax(status, key): an AjaxException with an HTTP status and message key;
   *  - InvalidParameter(name): a request/session value missing or rejected by the validation helpers;
   *  - NullDereference(what): the source dereferences a null value (a NullPointerException).
   */
  datatype Failure =
    | Service(key: string)
    | Ajax(status: int, key: string)
    | InvalidParameter(name: string)
    | NullDereference(what: string)

  const SC_BAD_REQUEST: int := 400
  const SC_FORBIDDEN: int := 403
  const SC_NOT_FOUND: int := 404

  /** Page paths of the pages the core returns. */
  const PAGE_LOGIN: string := "/jsp/login.jsp"
  const PAGE_HOME: string := "/jsp/home.jsp"
  const PAGE_USERS: string := "/jsp/admin/users.jsp"
  const PAGE_BASKET: string := "/jsp/user/basket.jsp"
  const PAGE_BOOKING: string := "/jsp/librarian/booking.jsp"

  /**
   * ChronoUnit.DAYS.between(start, end): the whole days between two instants, truncated toward
   * zero, so negative when end is before start.
   */
  function DaysBetween(start: Time, end: Time): (r: int)
    ensures start <= end ==> 0 <= r && r * DayMillis <= end - start < (r + 1) * DayMillis
    ensures end < start ==> r <= 0 && -r * DayMillis <= start - end < (-r + 1) * DayMillis
  {
    if start <= end then (end - start) / DayMillis else -((start - end) / DayMillis)
  }

  /** Java's 32-bit int arithmetic: the value wrapped into [-2^31, 2^31). */
  function WrapInt32(x: int): (r: int)
    ensures -0x8000_0000 <= r < 0x8000_0000
    ensures (r - x) % 0x1_0000_0000 == 0
    ensures -0x8000_0000 <= x < 0x8000_0000 ==> r == x
  {
    (x + 0x8000_0000) % 0x1_0000_0000 - 0x8000_0000
  }

  /** A value held in an HTTP session attribute. */
  datatype Value =
    | IntValue(i: int)
    | StrValue(s: string)
    | UserValue(user: User)
    | LangValue(lang: Lang)
    | CaptchaValue(token: string)
    | ErrorValue(failure: Failure)

  /** Session attribute names. */
  const KEY_USER: string := "user"
  const KEY_LOGIN_TRIES_NUMBER: string := "loginTriesNumber"
  const KEY_CAPTCHA: string := "captcha"
  const KEY_PREFERRED_USER_LANG: string := "lang"
  const KEY_USER_ERROR: string := "userError"
  const KEY_PROCEED_USER: string := "proceedUser"
  const KEY_SAVED_USER_INPUT: string := "savedUserInput"
  const KEY_BOOKING_SEARCH_LINK: string := "bookingSearchLink"
  const KEY_USER_SEARCH_LINK: string := "userSearchLink"

  /** The string held under a key; None when the attribute is absent. */
  function StrAttr(attrs: map<string, Value>, key: string): (r: Option<string>)
    ensures r.Some? <==> key in attrs && attrs[key].StrValue?
    ensures r.Some? ==> attrs[key] == StrValue(r.value)
  {
    if key in attrs && attrs[key].StrValue? then Some(attrs[key].s) else None
  }

  /** The User held under KEY_USER; None when no user is logged in. */
  function UserAttr(attrs: map<string, Value>): (r: Option<User>)
    ensures r.Some? <==> KEY_USER in attrs && attrs[KEY_USER].UserValue?
    ensures r.Some? ==> attrs[KEY_USER] == UserValue(r.value)
  {
    if KEY_USER in attrs && attrs[KEY_USER].UserValue? then Some(attrs[KEY_USER].user) else None
  }
}
