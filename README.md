# Library booking, fines, user rules and author names — a Dafny model

This project models the decision core of a library web application:

- **The booking lifecycle** (`booking_logic.dfy`, module `BookingLogic`).
  - A `Booking` object holds a state (NEW, BOOKED, CANCELED, DELIVERED, DONE), a place (LIBRARY or USER), a `modified` time and a list of distinct `Book` objects.
  - Each `Book` carries the shared counters `inStock` and `reserved`.
  - The commands are addBook, removeBook, book (here `Commit`), cancel, deliver and done. They change these objects in place. The per-book loops that adjust the counters are a `for` loop over the shared `Book` objects.
  - The lookups decide which booking a command works on: the session slot for a USER, a store read by id for a LIBRARIAN.
  - The basket shows the user's earlier bookings without the current one, stably sorted by state.
- **The fine accrual task** (`update_fine_task.dfy`, module `UpdateFineTask`).
  - The fine one user accrues in a tick is a pure function (`CheckedUser`). The nested booking and book loops of `checkUser` are a method proved equal to it.
  - The `FineTask` class holds `finePerDay`. `Init` sets the rate; `Run` scans all users and writes to a `UserStore`.
- **The user rules** (`user_logic.dfy`, module `UserLogic`):
  - the edit permission;
  - the next page;
  - parsing the state text with Java's `equalsIgnoreCase`;
  - the login-attempt counter in Java `int` arithmetic and the captcha gate;
  - the order of authentication failures;
  - the login command on a `Session` object whose attribute map it changes;
  - email uniqueness on add and update;
  - the fields an update carries over;
  - the refusal to delete a user with a fine.
- **The author entity** (`author.dfy`, module `Authors`):
  - name lookups with fallback;
  - `setName` and its effect on the primary name;
  - the list-to-map conversion (a loop) and the map-to-list export, with their round trip;
  - equality and `String.hashCode` over UTF-16 code units.

`entities.dfy` holds the shared enumerations, the `User` record, timestamps, the whole-days function, Java `int` wrap-around, session values and the error conditions. `wrappers.dfy` holds `Option`, `Result` and `Outcome`.

Conventions:

- Time is integer milliseconds. `ChronoUnit.DAYS.between` is truncation toward zero of the difference divided by 86 400 000.
- Money (`fine`, `finePerDay`) is `real`.
- Every clock reading is a parameter: `now`, and in `Run` a function `clock` giving the reading taken for the i-th user.
- Every store answer is a parameter or a map:
  - `findByEmail` is `existed`, tied to the store by `FoundByEmail`;
  - `findDeliveredByUserID` is `delivered`, where a missing key means the read failed;
  - a failed user update is an id in `UserStore.failing`;
  - `getAll` is `Option<seq<User>>`.
- The password hash is an uninterpreted function parameter `hash`.
- Exceptions become `Result`/`Outcome` values carrying the message key the source throws.

Where the code does something its own comments and messages do not lead one to expect, the model follows the code:

- Cancelling a NEW booking only empties its book list. The state stays NEW and nothing is written (BookingLogic.java lines 314-317); it does not become CANCELED.
- Delivery decreases `reserved` (line 414), although the doc comment at BookingLogic.java lines 382-384 says it increases.
- `init` accepts a rate of 0 and refuses only negative rates (UpdateFineTask.java line 128). Its refusal message at line 136 asks for a "valid positive double value", yet 0 passes.
- Nothing in BookingLogic increases `reserved`. Counters are plain integers; their non-negativity is not an invariant.

## Model

| member | source | states |
|---|---|---|
| BookingLogic.AdjustCounters | src/main/java/library/model/command/BookingLogic.java:321-324 | the per-book loop (also lines 412-416 and 447-450) adds the given deltas to the counters of every member book, exactly once each, since the ids are distinct; the totals shift by the number of books times each delta; no other counter is in the frame |
| BookingLogic.Transition | src/main/java/library/model/command/BookingLogic.java:320-327 | the shared shape of cancel, deliver and done after their guards: new state and place, one counter delta per book, `modified := now`, one Updated row appended to the store log; books unchanged |
| BookingLogic.Stamp | src/main/java/library/model/command/BookingLogic.java:325-327 | the booking gets the new state, place and `modified`, keeps its id and books, and its row is appended to the store's log as an Updated write |
| BookingLogic.WithBook | src/main/java/library/model/command/BookingLogic.java:247-252 | membership by id is unchanged when the book is already there, otherwise the book is appended; the result holds the book, keeps every old book, and keeps ids distinct |
| BookingLogic.WithBookIdempotent | src/main/java/library/model/command/BookingLogic.java:247-252 | adding a book twice gives the same list as adding it once |
| BookingLogic.WithoutBook | src/main/java/library/model/command/BookingLogic.java:284-286 | no book with the id is left, the list does not grow, and a list without the id is returned as it is |
| BookingLogic.WithoutBookMembers | src/main/java/library/model/command/BookingLogic.java:284-286 | every book left was in the list, and every book with another id stays |
| BookingLogic.WithoutBookDistinct | src/main/java/library/model/command/BookingLogic.java:284-286 | removing a book keeps the ids of the booking distinct |
| BookingLogic.FindBookingForUser | src/main/java/library/model/command/BookingLogic.java:117-141 | a session booking is returned unchanged; otherwise, with create, a user with fine > 0 is refused with 403 "error.illegal.user.state", else a fresh NEW empty booking for that user is put in the slot; without create the result is null and the slot stays empty |
| BookingLogic.FindBooking | src/main/java/library/model/command/BookingLogic.java:84-112 | USER goes through the session slot; LIBRARIAN gets the stored booking for the id or "error.booking.not.found"; any other role gets null; a USER's slot keeps its booking, stays empty after a refusal or without create, and holds the new booking otherwise; only a USER lookup may change the slot; a booking returned from a store whose bookings hold distinct books holds distinct books |
| BookingLogic.BookingNextPage | src/main/java/library/model/command/BookingLogic.java:334-348 | a saved booking search link wins; otherwise a missing user is an error, a LIBRARIAN goes to the booking page and every other role to the basket |
| BookingLogic.AddBook | src/main/java/library/model/command/BookingLogic.java:224-256 | rejections in source order: missing id (400), null booking, not NEW (400), unknown book (404), each leaving the books unchanged; on success the books become `WithBook` of the old list and the output is the new length; state, place and modified never change |
| BookingLogic.AddBookTwice | src/main/java/library/model/command/BookingLogic.java:247-253 | two addBook calls with the same id leave exactly one book with that id |
| BookingLogic.RemoveBook | src/main/java/library/model/command/BookingLogic.java:263-290 | rejections in source order: missing id, null booking ("error.add.some.book"), not NEW; on success the book with that id is removed (nothing when the id names no book) and the basket page follows |
| BookingLogic.Cancel | src/main/java/library/model/command/BookingLogic.java:298-332 | null and states other than NEW/BOOKED are refused with nothing changed; NEW only empties the book list (state stays NEW, no write, no counter change); BOOKED releases one reservation per book (total reserved drops by the book count, stock untouched), becomes CANCELED, gets `modified := now` and is written |
| BookingLogic.Commit | src/main/java/library/model/command/BookingLogic.java:354-377 | null and non-NEW are refused with nothing changed; NEW becomes BOOKED with `modified := now`, a Created row is written and the session slot is cleared; no book counter is in the frame, so none changes |
| BookingLogic.Deliver | src/main/java/library/model/command/BookingLogic.java:391-424 | only BOOKED is accepted (null and others refused with nothing changed); every book loses one reservation and one copy in stock; place becomes USER exactly when subscription is set, otherwise stays; DELIVERED, `modified := now`, written |
| BookingLogic.Done | src/main/java/library/model/command/BookingLogic.java:434-457 | only DELIVERED is accepted (null and others refused with nothing changed); every book gains one copy in stock, reservations untouched; DONE, `modified := now`, written |
| BookingLogic.DeliverThenDone | src/main/java/library/model/command/BookingLogic.java:412-450 | deliver followed by done restores every book's stock and lowers its reservations by one |
| BookingLogic.BookingStore.Create | src/main/java/library/model/command/BookingLogic.java:373 | appends a Created snapshot row of the booking to the write log |
| BookingLogic.BookingStore.Update | src/main/java/library/model/command/BookingLogic.java:327 | appends an Updated snapshot row of the booking to the write log |
| BookingLogic.Booking.constructor | src/main/java/library/model/command/BookingLogic.java:133-135 | a built booking has the user, state NEW and no books |
| BookingLogic.FirstIndexOf | src/main/java/library/model/command/BookingLogic.java:205 | the index of the first booking with the id, or -1 exactly when none has it |
| BookingLogic.RemoveFirst | src/main/java/library/model/command/BookingLogic.java:204-205 | `List.remove`: without a match the list is unchanged, otherwise exactly the first match is gone (length one less, multiset minus that element) |
| BookingLogic.SortByStatePermutes | src/main/java/library/model/command/BookingLogic.java:206 | the sort by state is a permutation |
| BookingLogic.SortByStateSorted | src/main/java/library/model/command/BookingLogic.java:206 | the sort puts states in declaration order NEW, BOOKED, CANCELED, DELIVERED, DONE |
| BookingLogic.SortByStateStable | src/main/java/library/model/command/BookingLogic.java:206 | the sort is stable: within each state the order is the original order |
| BookingLogic.OfStatePartition | src/main/java/library/model/command/BookingLogic.java:206 | the five state buckets together hold every booking exactly as often as the list |
| BookingLogic.BasketHistory | src/main/java/library/model/command/BookingLogic.java:188-213 | a non-USER role is refused with "error.resource.forbidden"; for a USER the list is the stored bookings without the current one, as a multiset, sorted by state, and within each state in their stored order, as a stable sort keeps them |
| UpdateFineTask.WindowStart | src/main/java/library/model/tasks/UpdateFineTask.java:87-88 | the window start is the later of the booking's modified time and the user's watermark |
| UpdateFineTask.CheckUser | src/main/java/library/model/tasks/UpdateFineTask.java:70-115 | the nested booking/book loops, with the watermark read once before them, yield exactly `CheckedUser`: fine plus the sum over bookings and books of the positive day excess times the rate; modified and watermark set to now only if the fine changed |
| UpdateFineTask.FineAddedNonNegative | src/main/java/library/model/tasks/UpdateFineTask.java:92-101 | with a non-negative rate the added fine is never negative |
| UpdateFineTask.BookingFineNonNegative | src/main/java/library/model/tasks/UpdateFineTask.java:92-101 | with a non-negative rate no book of a booking lowers the fine |
| UpdateFineTask.FineNeverDecreases | src/main/java/library/model/tasks/UpdateFineTask.java:92-101 | with a non-negative rate the checked user's fine is at least the old fine |
| UpdateFineTask.WatermarkMovesOnlyWithFine | src/main/java/library/model/tasks/UpdateFineTask.java:106-114 | an unchanged fine leaves the user record identical; a changed fine sets modified and fineLastChecked to now and changes no other field |
| UpdateFineTask.FineAddedAppend | src/main/java/library/model/tasks/UpdateFineTask.java:84-104 | bookings are judged independently: the fine of a concatenation is the sum of the fines |
| UpdateFineTask.BookingFineZeroAtNow | src/main/java/library/model/tasks/UpdateFineTask.java:95-97 | with no unchecked day and keep periods >= 0 no book is fined |
| UpdateFineTask.FineAddedZeroAtWatermark | src/main/java/library/model/tasks/UpdateFineTask.java:87-97 | with the watermark at now and keep periods >= 0 nothing is added |
| UpdateFineTask.CheckUserIdempotent | src/main/java/library/model/tasks/UpdateFineTask.java:83-108 | checking the checked user again at the same time changes nothing (keep periods >= 0) |
| UpdateFineTask.ScenarioTwoDaysOverdue | src/test/java/library/model/tasks/UpdateFineTaskTest.java:64-74 | both dates two days back, one book with keep period 1, place not USER, rate 1: the fine becomes exactly 1.0 and the watermark moves to now |
| UpdateFineTask.ScenarioJustDelivered | src/test/java/library/model/tasks/UpdateFineTaskTest.java:76-87 | a booking modified now yields no fine and the user is unchanged |
| UpdateFineTask.ScenarioCheckedToday | src/test/java/library/model/tasks/UpdateFineTaskTest.java:89-100 | a watermark at now yields no fine and the user is unchanged |
| UpdateFineTask.UserStore.Update | src/main/java/library/model/tasks/UpdateFineTask.java:109-113 | a write either succeeds and stores the user under its id, or fails and leaves the rows unchanged |
| UpdateFineTask.StoreAfterCheck | src/main/java/library/model/tasks/UpdateFineTask.java:76-114 | one user's check stores the checked user at their id exactly when their bookings could be read, the fine changed and the write succeeded; otherwise the store is unchanged |
| UpdateFineTask.TickTouchesOnlyScannedUsers | src/main/java/library/model/tasks/UpdateFineTask.java:59-61 | a tick leaves every row of a user not in the scanned list as it was |
| UpdateFineTask.FineTask.constructor | src/main/java/library/model/tasks/UpdateFineTask.java:29 | a new task holds the unset rate -1 |
| UpdateFineTask.FineTask.Init | src/main/java/library/model/tasks/UpdateFineTask.java:118-139 | a missing parameter, an unparsable one or a negative rate is refused and the rate is unchanged; a rate >= 0, zero included, is stored |
| UpdateFineTask.FineTask.Run | src/main/java/library/model/tasks/UpdateFineTask.java:47-68 | with the unset rate, or when the user list cannot be read, the store is unchanged; otherwise every user is checked in list order, a user whose bookings cannot be read is skipped, and the store ends as `Tick` |
| UpdateFineTask.InitThenRun | src/main/java/library/model/tasks/UpdateFineTask.java:50-53 | after a successful init with a rate >= 0, run is no longer switched off |
| Entities.DaysBetween | src/main/java/library/model/tasks/UpdateFineTask.java:89 | whole days between two instants, truncated toward zero: bounded by the millisecond difference on both sides |
| Entities.WrapInt32 | src/main/java/library/model/command/UserLogic.java:195 | Java int arithmetic: the value lies in the 32-bit range, is congruent modulo 2^32 and is unchanged when already in range |
| UserLogic.CheckEditAllowed | src/main/java/library/model/command/UserLogic.java:376-383 | editing is allowed exactly when a current user exists that is the target or an ADMIN, and is otherwise refused with "error.resource.forbidden" |
| UserLogic.EditRules | src/main/java/library/model/command/UserLogic.java:376-383 | a user may always edit themselves; another user exactly when they are an ADMIN |
| UserLogic.NextPage | src/main/java/library/model/command/UserLogic.java:385-405 | the saved user search link wins; otherwise LOGIN exactly without a user, USERS exactly for an ADMIN, HOME exactly for another role |
| UserLogic.ParseState | src/main/java/library/model/command/UserLogic.java:226-230 | the state is VALID exactly when the text equals "valid" under Java's `equalsIgnoreCase`, which needs five characters; anything else is BLOCKED |
| UserLogic.ParseStateAscii | src/main/java/library/model/command/UserLogic.java:226-230 | on ASCII text the state is VALID exactly when the lower-cased text is "valid" |
| UserLogic.ParseStateValidExamples | src/main/java/library/model/command/UserLogic.java:226-227 | "valid", "VALID" and "Valid" read as VALID |
| UserLogic.ParseStateDottedI | src/main/java/library/model/command/UserLogic.java:226-227 | "VALİD", with the dotted capital I, reads as VALID, as Java's case mapping has it |
| UserLogic.ParseStateBlockedExamples | src/main/java/library/model/command/UserLogic.java:226-230 | "", "blocked", "valid " and "vaiid" read as BLOCKED |
| UserLogic.NextLoginTries | src/main/java/library/model/command/UserLogic.java:189-201 | the new counter is a Java int |
| UserLogic.CounterCountsAttempts | src/main/java/library/model/command/UserLogic.java:189-201 | from a session without a counter, the (k+1)-th attempt reads k+1 |
| UserLogic.CaptchaFromSecondAttempt | src/main/java/library/model/command/UserLogic.java:161-165 | the first attempt of a session needs no captcha; every later one does |
| UserLogic.CounterWraps | src/main/java/library/model/command/UserLogic.java:192-195 | after the largest int the counter wraps to the smallest, and the gate no longer asks for a captcha |
| UserLogic.CheckCaptcha | src/main/java/library/model/command/UserLogic.java:138-148 | the check passes exactly when the session holds a captcha and the request's non-empty answer is its token; a wrong answer is "error.in.captcha" |
| UserLogic.Authenticate | src/main/java/library/model/command/UserLogic.java:47-78 | success exactly for a known email, a matching hash and state VALID; unknown email and wrong hash fail alike with "error.incorrect.login"; correct credentials of a non-VALID user fail with "error.invalid.user.state" |
| UserLogic.UnknownEmailLooksLikeWrongPassword | src/main/java/library/model/command/UserLogic.java:53-62 | a wrong password is answered exactly as an unknown email is |
| UserLogic.LoginDecision | src/main/java/library/model/command/UserLogic.java:161-171 | above one attempt a failed captcha check is the result; success exactly when the gate passes, both parameters are present and authentication succeeds, and then the user is the stored VALID one |
| UserLogic.Session.LoginTriesNumber | src/main/java/library/model/command/UserLogic.java:189-201 | the counter is bumped and always written back |
| UserLogic.Session.Login | src/main/java/library/model/command/UserLogic.java:156-187 | on success the user and their language enter the session, the counter and captcha leave it, and HOME follows; on failure the bumped counter stays, the error is recorded and LOGIN follows |
| UserLogic.LoginResetsGate | src/main/java/library/model/command/UserLogic.java:173-176 | after a successful login there is no counter and no captcha, so the next attempt counts 1 |
| UserLogic.FoundByEmailUnique | src/main/java/library/model/command/UserLogic.java:95 | in a store with unique emails findByEmail has one answer |
| UserLogic.CheckEmailForAdd | src/main/java/library/model/command/UserLogic.java:95-98 | add accepts exactly an email nobody holds, otherwise "error.duplicated.user.email" |
| UserLogic.CheckEmailForUpdate | src/main/java/library/model/command/UserLogic.java:331-336 | update accepts exactly an email nobody else holds, otherwise "error.duplicated.user.email" |
| UserLogic.AddKeepsEmailsUnique | src/main/java/library/model/command/UserLogic.java:94-99 | storing a new user whose email passed the check keeps emails unique |
| UserLogic.OnlyHolderIsUpdated | src/main/java/library/model/command/UserLogic.java:331-336 | once the update's check passed, only the updated user holds the email |
| UserLogic.UpdateKeepsEmailsUnique | src/main/java/library/model/command/UserLogic.java:331-336 | storing an update whose email passed the check keeps emails unique |
| UserLogic.OwnEmailAccepted | src/main/java/library/model/command/UserLogic.java:333-334 | a user keeping their own email passes the update's check |
| UserLogic.ProceedUser | src/main/java/library/model/command/UserLogic.java:308 | the saved user is present exactly when the session holds a user under `proceedUser`, and is that user |
| UserLogic.NewVersion | src/main/java/library/model/command/UserLogic.java:310-329 | the new version keeps the old id, fine and watermark, keeps the old hash for an empty password, hashes any other, and takes every other field from the form |
| UserLogic.Session.ValidToUpdateUser | src/main/java/library/model/command/UserLogic.java:305-340 | a missing saved user is an error and leaves the session as it was; a refused form is its error and leaves in the session the partial input it saved, if it got that far; otherwise the saved input is removed, the new version replaces the saved user in the session, whether or not the update passes, and the update is refused with "error.duplicated.user.email" exactly when the email belongs to another user |
| UserLogic.RetryKeepsRefusedPassword | src/main/java/library/model/command/UserLogic.java:317-320 | since a refused attempt leaves its new version in the session, a retry with an empty password keeps the hash of the refused attempt's password |
| UserLogic.Delete | src/main/java/library/model/command/UserLogic.java:442-459 | succeeds exactly for a present id of a user without a fine, removing just that row and going to the next page; a user with a fine is refused with "error.cannot.delete.user.with.fine" |
| UserLogic.DeleteKeepsFinedUsers | src/main/java/library/model/command/UserLogic.java:449-455 | no successful delete loses a user with a fine, or any user other than the one named |
| Authors.ToMapKeys | src/main/java/library/model/entities/Author.java:65-71 | the converted map has exactly the list's languages as keys |
| Authors.ToMapLastWins | src/main/java/library/model/entities/Author.java:65-71 | a language's value is the name of its last entry in the list |
| Authors.Author.ConvertToMap | src/main/java/library/model/entities/Author.java:65-71 | the put loop builds exactly `ToMap` of the list |
| Authors.Author.SetI18Names | src/main/java/library/model/entities/Author.java:119-121 | the map is replaced by the converted list; the primary name stays |
| Authors.Author.GetI18NamesAsList | src/main/java/library/model/entities/Author.java:73-78 | one entry per key with its value, no language twice, and converting it back gives the map |
| Authors.ListRoundTrip | src/main/java/library/model/entities/Author.java:65-78 | converting the exported list reproduces the map exactly |
| Authors.Author.GetName | src/main/java/library/model/entities/Author.java:92-99 | the translation when present; otherwise the primary name with fallback and "" without |
| Authors.Author.GetNameDefault | src/main/java/library/model/entities/Author.java:88-90 | is the lookup with fallback: the translation, or the primary name |
| Authors.Author.SetName | src/main/java/library/model/entities/Author.java:101-113 | the translation for the language becomes s and no other translation changes; the primary name becomes s exactly when an existing translation for the language equalled it |
| Authors.SetThenGet | src/main/java/library/model/entities/Author.java:101-113 | after setName the language reads s; every other language with a translation reads as before; one without falls back to the new primary name |
| Authors.Author.constructor | src/main/java/library/model/entities/Author.java:22-26 | the author holds the given id, name and translations |
| Authors.EqualityIsNameEquality | src/main/java/library/model/entities/Author.java:131-142 | equality holds exactly for a non-null author with the same primary name, whatever the ids and translations, and equal authors hash alike |
| Authors.Author.Equals | src/main/java/library/model/entities/Author.java:131-138 | an author equals itself, and equals another object exactly when it is a non-null author with the same primary name |
| Authors.Author.HashCode | src/main/java/library/model/entities/Author.java:140-142 | the hash of the primary name, a Java int, 0 for an empty name |
| Authors.StringHash | src/main/java/library/model/entities/Author.java:140-142 | `String.hashCode` of a string is a Java int, 0 for the empty string |
| Authors.HashUnits | src/main/java/library/model/entities/Author.java:140-142 | String.hashCode over UTF-16 units is a Java int |
| Authors.StringHashExamples | src/main/java/library/model/entities/Author.java:140-142 | the hash of "" is 0, of "a" is 97, of "ab" is 3105 |

## Left out

- HTTP plumbing is not modelled: request parameter parsing (`Long.parseLong`, `Boolean.parseBoolean`), HTML escaping, the email format check and the validation helpers. A request value arrives as an `Option`: absent, or already validated.
- A session attribute of the wrong dynamic type would raise a ClassCastException in the source. The model reads it as absent.
- A null session user dereferenced by findBooking, basket, updateUserSavedInSession and similar code is not modelled. `FindBooking` takes the user as a value.
- Store failures (DaoException) are not modelled:
  - In BookingLogic and UserLogic, the DAOs are maps or write logs that always succeed.
  - In UpdateFineTask, only the failures the task itself handles are modelled (user list, booking list, update).
  - No atomicity between a booking write and its counter changes is claimed.
- The store's id generation on create, persistence internals, transactions and the DAO factory are left out.
- `PasswordUtil.genHash` is a function parameter. Its hashing failure path ("Password hashing issue", "error.password.generation") is left out.
- Captcha generation is left out; only the comparison of token and answer is modelled.
- `errorPageLogic` records the error; the message parameters it also stores (`userErrorParams`) are left out.
- `getValidParams` itself (reading role, name, state, email and the default language from the request) is left out. Its result arrives as a `ParsedForm`: the accepted user, or the failure with the partial input it had saved under `savedUserInput`. `ParseState` models its state-text test.
- The rest of add (parameter validation, empty-password check, captcha for anonymous sign-up) is left out. Only its duplicate-email check is modelled.
- The edit dispatch and `updateUserSavedInSession`, `logout`, `setLang`, `find`/pagination and `listBookInSubscription` are left out. They are plumbing or store pass-throughs.
- `Booking.addBook`, `Booking.removeBook` and `Book.equals` are defined outside the modelled files. Membership is by book id, and removing an id not in the catalog changes nothing.
- `basket` removes the current booking by Booking equality, which the source does not show; the model removes by id.
- The booking a `Booking.Builder` builds with only the user set is assumed to have id -1, place LIBRARY and `modified` equal to the time of the request; `Booking.Builder` is defined outside the modelled files.
- The order of `Booking.State`'s constants, which the basket's sort by state follows, is assumed to be NEW, BOOKED, CANCELED, DELIVERED, DONE; the enum is defined outside the modelled files.
- `Lang` is defined outside the modelled files. Two languages are assumed equal, and to hash alike as HashMap keys, exactly when their codes are equal.
- The booking store's reads (`records`) and its write log (`writes`) are not connected: a booking created or updated is not read back by a later lookup by id, as `dao.read` would.
- Logging is left out throughout.
- Floating point is left out. `fine` and `finePerDay` are Java doubles; the model uses exact `real` arithmetic, so a fine change too small to alter a double is still a change here.
- `Double.parseDouble` is left out. The rate parameter arrives as missing, unparsable or a number.
- Time is left out as such. Calendar and Instant become integer milliseconds. The task's clock reading per user is a parameter; a null `fineLastChecked` is not modelled.
- Task wiring, the scheduler, timer threads and the `volatile`/`synchronized` handling of `finePerDay` are left out; they are concurrency concerns.
- Author's `primaryLang`, `toString`, the builder's mutable map sharing and null names or translations are left out. Equality with an object of another class is left out too, since the model has only authors.
- UpdateFineTask.CheckUser: the user object is changed in place in the source, even when the write later fails. The model returns the new value, which the task writes or discards; `getAll` returns fresh objects every tick, so nothing else observes the difference.
- Authors.Author.GetI18NamesAsList: the order of the list is HashMap iteration order. The model leaves the order open and states only the contents.
