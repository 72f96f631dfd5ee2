/**
 * The user access and account rules of the user commands: who may edit whom, the login-attempt
 * counter and its captcha gate, the order of authentication failures, deletion of a user with a
 * fine, email uniqueness on add and update, the fields an update carries over, the parsing of the
 * state text and the choice of the next page.
 */
module UserLogic {
  import opened Wrappers
  import opened Entities

  /** The largest Java int: the counter's value before it is read. */
  const INT32_MAX: int := 0x7fff_ffff

  // ---------------------------------------------------------------------------------------------
  // Who may edit whom

  /**
   * checkIfUserIsAllowedToEditThis: editing is allowed only to a logged-in user who is the target
   * or an ADMIN.
   */
  function CheckEditAllowed(targetId: int, attrs: map<string, Value>): (r: Outcome<Failure>)
    ensures r.Pass? <==>
              UserAttr(attrs).Some? &&
              (UserAttr(attrs).value.id == targetId || UserAttr(attrs).value.role == ADMIN)
    ensures r.Fail? ==> r.error == Service("error.resource.forbidden")
  {
    match UserAttr(attrs)
    case None => Fail(Service("error.resource.forbidden"))
    case Some(current) =>
      if current.id != targetId && current.role != ADMIN then Fail(Service("error.resource.forbidden"))
      else Pass
  }

  /** A logged-in user may always edit themselves; only an ADMIN may edit somebody else. */
  lemma EditRules(current: User, targetId: int, attrs: map<string, Value>)
    requires UserAttr(attrs) == Some(current)
    ensures CheckEditAllowed(current.id, attrs).Pass?
    ensures targetId != current.id ==> (CheckEditAllowed(targetId, attrs).Pass? <==> current.role == ADMIN)
  {
  }

  // ---------------------------------------------------------------------------------------------
  // The next page

  /**
   * nextPageLogic: the saved user search link wins; otherwise LOGIN without a current user, USERS
   * for an ADMIN and HOME for every other role.
   */
  function NextPage(attrs: map<string, Value>): (page: string)
    ensures StrAttr(attrs, KEY_USER_SEARCH_LINK).Some? ==> page == StrAttr(attrs, KEY_USER_SEARCH_LINK).value
    ensures StrAttr(attrs, KEY_USER_SEARCH_LINK).None? ==>
              (page == PAGE_LOGIN <==> UserAttr(attrs).None?) &&
              (page == PAGE_USERS <==> UserAttr(attrs).Some? && UserAttr(attrs).value.role == ADMIN) &&
              (page == PAGE_HOME <==> UserAttr(attrs).Some? && UserAttr(attrs).value.role != ADMIN)
  {
    match StrAttr(attrs, KEY_USER_SEARCH_LINK)
    case Some(link) => link
    case None =>
      match UserAttr(attrs)
      case None => PAGE_LOGIN
      case Some(current) => if current.role == ADMIN then PAGE_USERS else PAGE_HOME
  }

  // ---------------------------------------------------------------------------------------------
  // The state text

  /**
   * The characters String.equalsIgnoreCase identifies with a lower-case ASCII letter: the letter,
   * its upper case and every character whose upper case, or the lower case of whose upper case,
   * is one of them (U+0130 and U+0131 for 'i', the Kelvin sign for 'k', the long s for 's').
   */
  function CaseVariants(letter: char): set<char> {
    if 'a' <= letter <= 'z' then
      var upper := (letter as int - 32) as char;
      if letter == 'i' then {letter, upper, 'İ', 'ı'}
      else if letter == 'k' then {letter, upper, 'K'}
      else if letter == 's' then {letter, upper, 'ſ'}
      else {letter, upper}
    else {letter}
  }

  /** String.equalsIgnoreCase against a lower-case ASCII word. */
  predicate EqualsIgnoreCase(text: string, word: string) {
    |text| == |word| && forall i :: 0 <= i < |text| ==> text[i] in CaseVariants(word[i])
  }

  /** The state text of the user form: "valid" in any letter case is VALID, anything else BLOCKED. */
  function ParseState(text: string): (st: UserState)
    ensures st == VALID <==> EqualsIgnoreCase(text, "valid")
    ensures st == VALID ==> |text| == 5
  {
    if EqualsIgnoreCase(text, "valid") then VALID else BLOCKED
  }

  /** ASCII lower-casing, an independent reference for the ASCII case. */
  function LowerAscii(c: char): char {
    if 'A' <= c <= 'Z' then (c as int + 32) as char else c
  }

  function LowerAsciiString(s: string): (r: string)
    ensures |r| == |s| && forall i :: 0 <= i < |s| ==> r[i] == LowerAscii(s[i])
  {
    if s == [] then [] else [LowerAscii(s[0])] + LowerAsciiString(s[1..])
  }

  predicate IsAscii(s: string) {
    forall i :: 0 <= i < |s| ==> s[i] < 128 as char
  }

  /** On ASCII text the state is VALID exactly when the text lower-cased is "valid". */
  lemma ParseStateAscii(text: string)
    requires IsAscii(text)
    ensures ParseState(text) == VALID <==> LowerAsciiString(text) == "valid"
  {
    var lowered := LowerAsciiString(text);
    if ParseState(text) == VALID {
      assert |lowered| == 5;
      forall i | 0 <= i < 5
        ensures lowered[i] == "valid"[i]
      {
        assert text[i] in CaseVariants("valid"[i]);
      }
    }
    if lowered == "valid" {
      forall i | 0 <= i < |text|
        ensures text[i] in CaseVariants("valid"[i])
      {
        assert LowerAscii(text[i]) == "valid"[i];
      }
    }
  }

  /** "valid" in any ASCII letter case reads as VALID. */
  lemma ParseStateValidExamples()
    ensures ParseState("valid") == VALID && ParseState("VALID") == VALID && ParseState("Valid") == VALID
  {
  }

  /** The dotted capital I counts as an 'i', as Java's case mapping has it. */
  lemma ParseStateDottedI()
    ensures ParseState("VALİD") == VALID
  {
  }

  /** The empty text, another word, trailing space and a wrong letter read as BLOCKED. */
  lemma ParseStateBlockedExamples()
    ensures ParseState("") == BLOCKED && ParseState("blocked") == BLOCKED && ParseState("valid ") == BLOCKED
    ensures ParseState("vaiid") == BLOCKED
  {
    assert "vaiid"[2] == 'i';
    assert 'i' !in CaseVariants('l');
  }

  // ---------------------------------------------------------------------------------------------
  // Login attempts and the captcha gate

  /**
   * getLoginTriesNumber's new value: 1 when no counter is stored, otherwise the stored counter
   * plus one in Java int arithmetic.
   */
  function NextLoginTries(attrs: map<string, Value>): (n: int)
    ensures -0x8000_0000 <= n <= INT32_MAX
  {
    if KEY_LOGIN_TRIES_NUMBER in attrs && attrs[KEY_LOGIN_TRIES_NUMBER].IntValue? then
      WrapInt32(attrs[KEY_LOGIN_TRIES_NUMBER].i + 1)
    else 1
  }

  /** The session after getLoginTriesNumber: the new counter written back. */
  function CountAttempt(attrs: map<string, Value>): map<string, Value> {
    attrs[KEY_LOGIN_TRIES_NUMBER := IntValue(NextLoginTries(attrs))]
  }

  /** The session after k attempts end without a successful login. */
  function AfterAttempts(attrs: map<string, Value>, k: nat): map<string, Value> {
    if k == 0 then attrs else CountAttempt(AfterAttempts(attrs, k - 1))
  }

  /** The counter counts the attempts of a session that holds none: the (k+1)-th attempt reads k+1. */
  lemma {:induction false} CounterCountsAttempts(attrs: map<string, Value>, k: nat)
    requires KEY_LOGIN_TRIES_NUMBER !in attrs
    requires k < INT32_MAX
    ensures NextLoginTries(AfterAttempts(attrs, k)) == k + 1
  {
    if k > 0 {
      CounterCountsAttempts(attrs, k - 1);
    }
  }

  /** The captcha gate: the first attempt of a session needs no captcha; every later one does. */
  lemma CaptchaFromSecondAttempt(attrs: map<string, Value>, k: nat)
    requires KEY_LOGIN_TRIES_NUMBER !in attrs
    requires k < INT32_MAX
    ensures NextLoginTries(AfterAttempts(attrs, k)) > 1 <==> k > 0
  {
    CounterCountsAttempts(attrs, k);
  }

  /** The counter is a Java int: after the largest int it wraps to the smallest, and the gate opens. */
  lemma CounterWraps(attrs: map<string, Value>)
    requires KEY_LOGIN_TRIES_NUMBER in attrs && attrs[KEY_LOGIN_TRIES_NUMBER] == IntValue(INT32_MAX)
    ensures NextLoginTries(attrs) == -0x8000_0000 && !(NextLoginTries(attrs) > 1)
  {
  }

  /**
   * checkCaptcha: the session must hold a captcha, the request a non-empty answer, and the answer
   * must be the captcha's token.
   */
  function CheckCaptcha(attrs: map<string, Value>, answer: Option<string>): (r: Outcome<Failure>)
    ensures r.Pass? <==>
              KEY_CAPTCHA in attrs && attrs[KEY_CAPTCHA].CaptchaValue? &&
              answer.Some? && answer.value != "" && answer.value == attrs[KEY_CAPTCHA].token
    ensures (r.Fail? && KEY_CAPTCHA in attrs && attrs[KEY_CAPTCHA].CaptchaValue? &&
             answer.Some? && answer.value != "") ==> r.error == Service("error.in.captcha")
  {
    if !(KEY_CAPTCHA in attrs && attrs[KEY_CAPTCHA].CaptchaValue?) then Fail(InvalidParameter(KEY_CAPTCHA))
    else if answer.None? || answer.value == "" then Fail(InvalidParameter(KEY_CAPTCHA))
    else if answer.value != attrs[KEY_CAPTCHA].token then Fail(Service("error.in.captcha"))
    else Pass
  }

  // ---------------------------------------------------------------------------------------------
  // Authentication

  /**
   * authenticateUser on the user findByEmail returned: an unknown email and a wrong password fail
   * alike; correct credentials of a user who is not VALID fail with their own key.
   */
  function Authenticate(existed: Option<User>, password: string, hash: string -> string): (r: Result<User, Failure>)
    ensures r.Ok? <==> existed.Some? && hash(password) == existed.value.password && existed.value.state == VALID
    ensures r.Ok? ==> r.value == existed.value
    ensures existed.None? || hash(password) != existed.value.password ==> r == Err(Service("error.incorrect.login"))
    ensures existed.Some? && hash(password) == existed.value.password && existed.value.state != VALID ==>
              r == Err(Service("error.invalid.user.state"))
  {
    if existed.None? then Err(Service("error.incorrect.login"))
    else if hash(password) != existed.value.password then Err(Service("error.incorrect.login"))
    else if existed.value.state != VALID then Err(Service("error.invalid.user.state"))
    else Ok(existed.value)
  }

  /** A wrong password is answered exactly as an unknown email is, whatever the user's state. */
  lemma UnknownEmailLooksLikeWrongPassword(u: User, password: string, hash: string -> string)
    requires hash(password) != u.password
    ensures Authenticate(Some(u), password, hash) == Authenticate(None, password, hash)
  {
  }

  /**
   * login's decision after the counter is read: the captcha when the counter exceeds 1, then the
   * email and password parameters, then authentication against findByEmail's answer.
   */
  function LoginDecision(attrs: map<string, Value>, tries: int, answer: Option<string>,
                         email: Option<string>, password: Option<string>,
                         existed: Option<User>, hash: string -> string): (r: Result<User, Failure>)
    ensures tries > 1 && CheckCaptcha(attrs, answer).Fail? ==> r == Err(CheckCaptcha(attrs, answer).error)
    ensures r.Ok? <==>
              (tries <= 1 || CheckCaptcha(attrs, answer).Pass?) && email.Some? && password.Some? &&
              Authenticate(existed, password.value, hash).Ok?
    ensures r.Ok? ==> existed == Some(r.value) && r.value.state == VALID
  {
    if tries > 1 && CheckCaptcha(attrs, answer).Fail? then Err(CheckCaptcha(attrs, answer).error)
    else if email.None? then Err(InvalidParameter("email"))
    else if password.None? then Err(InvalidParameter("password"))
    else Authenticate(existed, password.value, hash)
  }

  /** The attributes of an HTTP session, changed in place by the login command. */
  class Session {
    var attrs: map<string, Value>

    constructor (attrs: map<string, Value>)
      ensures this.attrs == attrs
    {
      this.attrs := attrs;
    }

    /** getLoginTriesNumber: the counter is bumped and always written back. */
    method LoginTriesNumber() returns (n: int)
      modifies this
      ensures n == NextLoginTries(old(attrs))
      ensures attrs == CountAttempt(old(attrs))
    {
      n := 1;
      if KEY_LOGIN_TRIES_NUMBER in attrs && attrs[KEY_LOGIN_TRIES_NUMBER].IntValue? {
        n := WrapInt32(attrs[KEY_LOGIN_TRIES_NUMBER].i + 1);
      }
      attrs := attrs[KEY_LOGIN_TRIES_NUMBER := IntValue(n)];
    }

    /**
     * login: on success the user and their language enter the session and the counter and captcha
     * leave it; on failure the counter stays bumped and the error is recorded. `existed` is
     * findByEmail's answer for the email parameter.
     */
    method Login(answer: Option<string>, email: Option<string>, password: Option<string>,
                 existed: Option<User>, hash: string -> string) returns (page: string)
      modifies this
      ensures var tries := NextLoginTries(old(attrs));
              var r := LoginDecision(CountAttempt(old(attrs)), tries, answer, email, password, existed, hash);
              (r.Ok? ==>
                 page == PAGE_HOME &&
                 attrs == CountAttempt(old(attrs))[KEY_USER := UserValue(r.value)]
                            [KEY_PREFERRED_USER_LANG := LangValue(r.value.preferredLang)]
                          - {KEY_LOGIN_TRIES_NUMBER, KEY_CAPTCHA}) &&
              (r.Err? ==>
                 page == PAGE_LOGIN &&
                 attrs == CountAttempt(old(attrs))[KEY_USER_ERROR := ErrorValue(r.error)])
    {
      var tries := LoginTriesNumber();
      var r := LoginDecision(attrs, tries, answer, email, password, existed, hash);
      match r
      case Ok(user) =>
        attrs := attrs[KEY_USER := UserValue(user)];
        attrs := attrs[KEY_PREFERRED_USER_LANG := LangValue(user.preferredLang)];
        attrs := attrs - {KEY_LOGIN_TRIES_NUMBER};
        attrs := attrs - {KEY_CAPTCHA};
        assert attrs == CountAttempt(old(attrs))[KEY_USER := UserValue(user)]
                          [KEY_PREFERRED_USER_LANG := LangValue(user.preferredLang)]
                        - {KEY_LOGIN_TRIES_NUMBER, KEY_CAPTCHA};
        page := PAGE_HOME;
      case Err(e) =>
        attrs := attrs[KEY_USER_ERROR := ErrorValue(e)];
        page := PAGE_LOGIN;
    }

    /**
     * getValidToUpdateUser on what getValidParams made of the request (`form`; `existed` is
     * findByEmail's answer for its email): the saved user must be present; the form's partial input
     * is kept in the session while it is checked and removed once it passes; the new version is
     * saved in the session before the password step and the email check, so it stays there when
     * the email belongs to another user.
     */
    method ValidToUpdateUser(form: ParsedForm, existed: Option<User>, hash: string -> string)
      returns (r: Result<User, Failure>)
      modifies this
      ensures ProceedUser(old(attrs)).None? ==> r == Err(InvalidParameter(KEY_PROCEED_USER)) && attrs == old(attrs)
      ensures ProceedUser(old(attrs)).Some? && form.Rejected? ==>
                r == Err(form.error) &&
                attrs == if form.saved.Some? then old(attrs)[KEY_SAVED_USER_INPUT := UserValue(form.saved.value)]
                         else old(attrs)
      ensures ProceedUser(old(attrs)).Some? && form.Accepted? ==>
                var u := NewVersion(ProceedUser(old(attrs)).value, form.user, hash);
                attrs == (old(attrs) - {KEY_SAVED_USER_INPUT})[KEY_PROCEED_USER := UserValue(u)] &&
                (if existed.None? || existed.value.id == u.id then r == Ok(u)
                 else r == Err(Service("error.duplicated.user.email")))
    {
      var proceed := ProceedUser(attrs);
      if proceed.None? {
        return Err(InvalidParameter(KEY_PROCEED_USER));
      }
      if form.Rejected? {
        if form.saved.Some? {
          attrs := attrs[KEY_SAVED_USER_INPUT := UserValue(form.saved.value)];
        }
        return Err(form.error);
      }
      attrs := attrs - {KEY_SAVED_USER_INPUT};
      var newVersion := NewVersion(proceed.value, form.user, hash);
      attrs := attrs[KEY_PROCEED_USER := UserValue(newVersion)];
      match CheckEmailForUpdate(existed, newVersion.id)
      case Fail(e) => r := Err(e);
      case Pass => r := Ok(newVersion);
    }
  }

  /** After a successful login the session holds no counter and no captcha, so the next login needs none. */
  lemma LoginResetsGate(before: map<string, Value>, user: User)
    ensures var after := CountAttempt(before)[KEY_USER := UserValue(user)]
                           [KEY_PREFERRED_USER_LANG := LangValue(user.preferredLang)]
                         - {KEY_LOGIN_TRIES_NUMBER, KEY_CAPTCHA};
            KEY_LOGIN_TRIES_NUMBER !in after && KEY_CAPTCHA !in after && NextLoginTries(after) == 1 &&
            UserAttr(after) == Some(user)
  {
  }

  // ---------------------------------------------------------------------------------------------
  // The user store

  /** The user store: rows by id, each row under its own id. */
  predicate IdsConsistent(rows: map<int, User>) {
    forall id :: id in rows ==> rows[id].id == id
  }

  /** No two users share an email. */
  predicate EmailsUnique(rows: map<int, User>) {
    forall a, b :: a in rows && b in rows && rows[a].email == rows[b].email ==> a == b
  }

  /** findByEmail's answer: the user with that email, or none when nobody has it. */
  predicate FoundByEmail(rows: map<int, User>, email: string, existed: Option<User>) {
    (existed.None? <==> forall id :: id in rows ==> rows[id].email != email) &&
    (existed.Some? ==> existed.value.id in rows && rows[existed.value.id] == existed.value &&
                       existed.value.email == email)
  }

  /** In a store with unique emails findByEmail has at most one answer. */
  lemma FoundByEmailUnique(rows: map<int, User>, email: string, a: Option<User>, b: Option<User>)
    requires IdsConsistent(rows) && EmailsUnique(rows)
    requires FoundByEmail(rows, email, a) && FoundByEmail(rows, email, b)
    ensures a == b
  {
    if a.Some? && b.Some? {
      assert rows[a.value.id].email == rows[b.value.id].email;
    }
  }

  /** add's duplicate check: any user already holding the email is a duplicate. */
  function CheckEmailForAdd(existed: Option<User>): (r: Outcome<Failure>)
    ensures r.Pass? <==> existed.None?
    ensures r.Fail? ==> r.error == Service("error.duplicated.user.email")
  {
    if existed.Some? then Fail(Service("error.duplicated.user.email")) else Pass
  }

  /** The update's duplicate check: the email may be held only by the user being updated. */
  function CheckEmailForUpdate(existed: Option<User>, id: int): (r: Outcome<Failure>)
    ensures r.Pass? <==> existed.None? || existed.value.id == id
    ensures r.Fail? ==> r.error == Service("error.duplicated.user.email")
  {
    if existed.Some? && existed.value.id != id then Fail(Service("error.duplicated.user.email")) else Pass
  }

  /** Adding a user whose email passed the duplicate check keeps emails unique. */
  lemma AddKeepsEmailsUnique(rows: map<int, User>, u: User, existed: Option<User>)
    requires EmailsUnique(rows)
    requires u.id !in rows
    requires FoundByEmail(rows, u.email, existed) && CheckEmailForAdd(existed).Pass?
    ensures EmailsUnique(rows[u.id := u])
  {
    var after := rows[u.id := u];
    forall a, b | a in after && b in after && after[a].email == after[b].email && a != u.id && b != u.id
      ensures a == b
    {
      assert rows[a].email == rows[b].email;
    }
  }

  /** Once the update's check passed, only the updated user may hold the email. */
  lemma OnlyHolderIsUpdated(rows: map<int, User>, u: User, existed: Option<User>)
    requires IdsConsistent(rows) && EmailsUnique(rows)
    requires FoundByEmail(rows, u.email, existed) && CheckEmailForUpdate(existed, u.id).Pass?
    ensures forall id :: id in rows && rows[id].email == u.email ==> id == u.id
  {
    forall id | id in rows && rows[id].email == u.email
      ensures id == u.id
    {
      if existed.Some? {
        assert rows[existed.value.id].email == rows[id].email;
      }
    }
  }

  /** Updating a user whose email passed the update's check keeps emails unique, the own email included. */
  lemma UpdateKeepsEmailsUnique(rows: map<int, User>, u: User, existed: Option<User>)
    requires IdsConsistent(rows) && EmailsUnique(rows)
    requires FoundByEmail(rows, u.email, existed) && CheckEmailForUpdate(existed, u.id).Pass?
    ensures EmailsUnique(rows[u.id := u])
  {
    OnlyHolderIsUpdated(rows, u, existed);
    var after := rows[u.id := u];
    forall a, b | a in after && b in after && after[a].email == after[b].email && a != u.id && b != u.id
      ensures a == b
    {
      assert rows[a].email == rows[b].email;
    }
  }

  /** A user keeping their own email passes the update's check. */
  lemma OwnEmailAccepted(rows: map<int, User>, u: User, existed: Option<User>)
    requires IdsConsistent(rows) && EmailsUnique(rows)
    requires u.id in rows && rows[u.id].email == u.email
    requires FoundByEmail(rows, u.email, existed)
    ensures CheckEmailForUpdate(existed, u.id).Pass?
  {
    if existed.Some? {
      assert rows[existed.value.id].email == rows[u.id].email;
    }
  }

  /** The user saved in the session under KEY_PROCEED_USER; None when the attribute is absent. */
  function ProceedUser(attrs: map<string, Value>): (r: Option<User>)
    ensures r.Some? <==> KEY_PROCEED_USER in attrs && attrs[KEY_PROCEED_USER].UserValue?
    ensures r.Some? ==> attrs[KEY_PROCEED_USER] == UserValue(r.value)
  {
    if KEY_PROCEED_USER in attrs && attrs[KEY_PROCEED_USER].UserValue? then Some(attrs[KEY_PROCEED_USER].user)
    else None
  }

  /**
   * What getValidParams leaves: the validated user, or the failure together with the partial input
   * it had saved in the session under KEY_SAVED_USER_INPUT before failing (None when it failed
   * before saving it, on an unknown role).
   */
  datatype ParsedForm = Accepted(user: User) | Rejected(error: Failure, saved: Option<User>)

  /**
   * The new version getValidToUpdateUser builds from the saved user and the form: the form's fields,
   * then the old id, watermark and fine; an empty password keeps the old hash, any other is hashed.
   */
  function NewVersion(oldVersion: User, form: User, hash: string -> string): (u: User)
    ensures u.id == oldVersion.id && u.fine == oldVersion.fine && u.fineLastChecked == oldVersion.fineLastChecked
    ensures u.password == if form.password == "" then oldVersion.password else hash(form.password)
    ensures u.email == form.email && u.name == form.name && u.role == form.role && u.state == form.state &&
            u.preferredLang == form.preferredLang && u.modified == form.modified
  {
    var u := form.(id := oldVersion.id, fineLastChecked := oldVersion.fineLastChecked, fine := oldVersion.fine);
    if u.password == "" then u.(password := oldVersion.password) else u.(password := hash(u.password))
  }

  /**
   * The new version replaces the saved user even when the update is refused, so a retry with an empty
   * password keeps the hash of the refused attempt's password, not the stored one.
   */
  lemma RetryKeepsRefusedPassword(saved: User, first: User, second: User, hash: string -> string)
    requires first.password != "" && second.password == ""
    ensures NewVersion(NewVersion(saved, first, hash), second, hash).password == hash(first.password)
    ensures NewVersion(NewVersion(saved, first, hash), second, hash).id == saved.id
  {
  }

  // ---------------------------------------------------------------------------------------------
  // Deletion

  /**
   * delete: the id parameter is required; a missing user is dereferenced; a user with a fine is
   * refused; otherwise the row goes and the next page follows.
   */
  function Delete(rows: map<int, User>, id: Option<int>, attrs: map<string, Value>)
    : (r: Result<(map<int, User>, string), Failure>)
    ensures r.Ok? <==> id.Some? && id.value in rows && !(rows[id.value].fine > 0.0)
    ensures r.Ok? ==> r.value.0 == rows - {id.value} && r.value.1 == NextPage(attrs)
    ensures id.Some? && id.value in rows && rows[id.value].fine > 0.0 ==>
              r == Err(Service("error.cannot.delete.user.with.fine"))
  {
    if id.None? then Err(InvalidParameter("id"))
    else if id.value !in rows then Err(NullDereference("toDelete"))
    else if rows[id.value].fine > 0.0 then Err(Service("error.cannot.delete.user.with.fine"))
    else Ok((rows - {id.value}, NextPage(attrs)))
  }

  /** No outcome of delete loses a user who has a fine, and a successful delete loses no one else. */
  lemma DeleteKeepsFinedUsers(rows: map<int, User>, id: Option<int>, attrs: map<string, Value>, other: int)
    requires other in rows
    requires rows[other].fine > 0.0 || id != Some(other)
    ensures Delete(rows, id, attrs).Ok? ==>
              other in Delete(rows, id, attrs).value.0 && Delete(rows, id, attrs).value.0[other] == rows[other]
  {
  }
}
