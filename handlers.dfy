/**
 * The decision logic of the web handlers: which CheckField calls each form makes,
 * the guard on path ids, and the order in which a handler validates, calls the
 * stores and updates the session. HTTP itself is reduced to a request value and
 * a response value.
 */
module Handlers {
  import opened Wrappers
  import opened Unicode
  import opened Database
  import opened Validator
  import Strconv
  import Users
  import Threads
  import Posts
  import Session
  import opened Queries

  // ---------------------------------------------------------------- messages

  const BlankMessage: String := "This field cannot be blank"
  const EmailMessage: String := "This field must be an email address"
  const PasswordMessage: String := "This field must be at least 8 characters long"
  const EmailTakenMessage: String := "Sorry, this email is aready in use, Plese try another. "
  const TitleTooLongMessage: String := "This field cannot be more than 100 characters long"
  const BodyTooLongMessage: String := "This field cannot be more than 1000 characters long"
  const BadCredentialsMessage: String := "Email or password incorrect"
  const SignupFlash: String := " Your signup was successful."
  const ThreadFlash: String := "Thread successfully created!"
  const LogoutFlash: String := "You've been logged out successfully!"

  /** fmt.Sprintf("Message %d successfully created!", id) */
  function MessageFlash(id: int): String {
    "Message " + Strconv.Itoa(id) + " successfully created!"
  }

  // ---------------------------------------------------------------- requests and responses

  /** What a handler reads from the request: whether ParseForm succeeds, the posted
      fields, and the {id} path segment. */
  datatype Request = Request(parses: bool, postForm: map<String, String>, pathValue: String)

  /** r.PostForm.Get(key): "" when the field is absent. */
  function FormValue(r: Request, key: String): String {
    if key in r.postForm then r.postForm[key] else ""
  }

  datatype Response =
    | FormPage(page: String, errors: Errors)             // the form again, 422
    | MessageFormPage(threadId: int, errors: Errors)     // the message form again, 422
    | NewMessagePage(threadId: int)                      // an empty message form, 200
    | AccountPage(user: User, flash: String)             // 200
    | ThreadPage(thread: Threads.Thread)                 // 200
    | HomePage(threads: seq<Threads.Thread>)             // 200
    | Redirect(location: String)                         // 303 See Other
    | NotFound                                           // 404
    | BadRequest                                         // 400
    | ServerError                                        // 500

  function Status(r: Response): nat {
    match r
    case FormPage(_, _) => 422
    case MessageFormPage(_, _) => 422
    case Redirect(_) => 303
    case NotFound => 404
    case BadRequest => 400
    case ServerError => 500
    case _ => 200
  }

  // ---------------------------------------------------------------- the path-id guard

  /** strconv.Atoi on the {id} segment, refusing anything below 1. */
  function PathId(segment: String): (r: Option<int>)
    ensures r.Some? ==> r.value >= 1 && Strconv.Atoi(segment) == Some(r.value)
    ensures r.None? ==> Strconv.Atoi(segment).None? || Strconv.Atoi(segment).value < 1
  {
    match Strconv.Atoi(segment)
    case None => None
    case Some(id) => if id < 1 then None else Some(id)
  }

  /** Every id the redirects produce passes the guard and names the same row. */
  lemma PathIdAcceptsRedirectIds(id: int)
    requires 1 <= id <= Strconv.MaxInt
    ensures PathId(Strconv.Itoa(id)) == Some(id)
  {
    Strconv.AtoiItoa(id);
  }

  /** Segments the guard turns away. */
  lemma PathIdRejects()
    ensures PathId("0") == None && PathId("-4") == None
    ensures PathId("") == None && PathId("abc") == None && PathId("1x") == None
    ensures PathId("12") == Some(12)
  {
    assert Strconv.DecimalValue("12") == 12 by { assert "12"[..1] == "1"; }
  }

  // ---------------------------------------------------------------- the forms' checks

  /** accountCreatePOST's five CheckField calls, in order. */
  function AccountChecks(username: String, email: String, password: String, isAddress: String -> bool): seq<Call> {
    [ Check(NotBlank(username), "name", BlankMessage),
      Check(NotBlank(email), "email", BlankMessage),
      Check(isAddress(email), "email", EmailMessage),
      Check(NotBlank(password), "password", BlankMessage),
      Check(StrongPassword(password), "password", PasswordMessage) ]
  }

  /** The two CheckField calls on a text that must be present and at most `limit` runes. */
  function BoundedTextChecks(key: String, value: String, limit: int, tooLong: String): seq<Call> {
    [ Check(NotBlank(value), key, BlankMessage),
      Check(MaxChars(value, limit), key, tooLong) ]
  }

  /** The sign-up form's errors after its five checks, the first check innermost. */
  function AccountFormErrors(username: String, email: String, password: String, isAddress: String -> bool): Errors {
    var c := AccountChecks(username, email, password, isAddress);
    Apply(Apply(Apply(Apply(Apply(NoErrors, c[0]), c[1]), c[2]), c[3]), c[4])
  }

  /** The errors of a bounded text field after its two checks. */
  function BoundedTextFormErrors(key: String, value: String, limit: int, tooLong: String): Errors {
    var c := BoundedTextChecks(key, value, limit, tooLong);
    Apply(Apply(NoErrors, c[0]), c[1])
  }

  function ThreadFormErrors(title: String): Errors {
    BoundedTextFormErrors("title", title, 100, TitleTooLongMessage)
  }

  function MessageFormErrors(body: String): Errors {
    BoundedTextFormErrors("body", body, 1000, BodyTooLongMessage)
  }

  /** Replaying the sign-up checks with the validator gives the form's errors. */
  lemma AccountChecksInOrder(username: String, email: String, password: String, isAddress: String -> bool)
    ensures ApplyAll(NoErrors, AccountChecks(username, email, password, isAddress)) ==
            AccountFormErrors(username, email, password, isAddress)
  {
    var c := AccountChecks(username, email, password, isAddress);
    assert c == [] + [c[0]] + [c[1]] + [c[2]] + [c[3]] + [c[4]];
    ApplyAllSnoc(NoErrors, [], c[0]);
    ApplyAllSnoc(NoErrors, [] + [c[0]], c[1]);
    ApplyAllSnoc(NoErrors, [] + [c[0]] + [c[1]], c[2]);
    ApplyAllSnoc(NoErrors, [] + [c[0]] + [c[1]] + [c[2]], c[3]);
    ApplyAllSnoc(NoErrors, [] + [c[0]] + [c[1]] + [c[2]] + [c[3]], c[4]);
  }

  /** Replaying a bounded text field's checks gives its errors. */
  lemma BoundedTextChecksInOrder(key: String, value: String, limit: int, tooLong: String)
    ensures ApplyAll(NoErrors, BoundedTextChecks(key, value, limit, tooLong)) ==
            BoundedTextFormErrors(key, value, limit, tooLong)
  {
    var c := BoundedTextChecks(key, value, limit, tooLong);
    assert c == [] + [c[0]] + [c[1]];
    ApplyAllSnoc(NoErrors, [], c[0]);
    ApplyAllSnoc(NoErrors, [] + [c[0]], c[1]);
  }

  /** The five checks' effect, for any outcome of each check. */
  lemma AccountErrorsFor(okName: bool, okEmail: bool, okAddress: bool, okPassword: bool, okStrong: bool)
    ensures var e := Apply(Apply(Apply(Apply(Apply(NoErrors,
                       Check(okName, "name", BlankMessage)),
                       Check(okEmail, "email", BlankMessage)),
                       Check(okAddress, "email", EmailMessage)),
                       Check(okPassword, "password", BlankMessage)),
                       Check(okStrong, "password", PasswordMessage));
      && e.nonFieldErrors == []
      && e.fieldErrors.Keys <= {"name", "email", "password"}
      && ("name" in e.fieldErrors <==> !okName)
      && ("name" in e.fieldErrors ==> e.fieldErrors["name"] == BlankMessage)
      && ("email" in e.fieldErrors <==> !okEmail || !okAddress)
      && ("email" in e.fieldErrors ==> e.fieldErrors["email"] == if okEmail then EmailMessage else BlankMessage)
      && ("password" in e.fieldErrors <==> !okPassword || !okStrong)
      && ("password" in e.fieldErrors ==>
            e.fieldErrors["password"] == if okPassword then PasswordMessage else BlankMessage)
  {
    var e1 := Apply(NoErrors, Check(okName, "name", BlankMessage));
    assert e1.fieldErrors == if okName then map[] else map["name" := BlankMessage];
    var e3 := Apply(Apply(e1, Check(okEmail, "email", BlankMessage)), Check(okAddress, "email", EmailMessage));
    assert e3.fieldErrors.Keys == e1.fieldErrors.Keys + (if okEmail && okAddress then {} else {"email"});
    assert "email" in e3.fieldErrors ==> e3.fieldErrors["email"] == if okEmail then EmailMessage else BlankMessage;
  }

  /**
   * The sign-up form's errors: "name" is blank-checked only; a blank email gets
   * only the blank message, never the format one; a non-blank password that is not
   * strong gets the length message. No other key and no non-field message appears.
   */
  lemma AccountErrors(username: String, email: String, password: String, isAddress: String -> bool)
    ensures var e := AccountFormErrors(username, email, password, isAddress);
      && e.nonFieldErrors == []
      && e.fieldErrors.Keys <= {"name", "email", "password"}
      && ("name" in e.fieldErrors <==> !NotBlank(username))
      && ("name" in e.fieldErrors ==> e.fieldErrors["name"] == BlankMessage)
      && ("email" in e.fieldErrors <==> !NotBlank(email) || !isAddress(email))
      && ("email" in e.fieldErrors ==>
            e.fieldErrors["email"] == if NotBlank(email) then EmailMessage else BlankMessage)
      && ("password" in e.fieldErrors <==> !NotBlank(password) || !StrongPassword(password))
      && ("password" in e.fieldErrors ==>
            e.fieldErrors["password"] == if NotBlank(password) then PasswordMessage else BlankMessage)
  {
    AccountErrorsFor(NotBlank(username), NotBlank(email), isAddress(email), NotBlank(password), StrongPassword(password));
  }

  /** The sign-up form is valid exactly when every field passes its checks. */
  lemma AccountFormValid(username: String, email: String, password: String, isAddress: String -> bool)
    ensures IsValid(AccountFormErrors(username, email, password, isAddress)) <==>
      NotBlank(username) && NotBlank(email) && isAddress(email) && NotBlank(password) && StrongPassword(password)
  {
    AccountErrors(username, email, password, isAddress);
    var e := AccountFormErrors(username, email, password, isAddress);
    if !IsValid(e) {
      var k :| k in e.fieldErrors;
    }
  }

  /** A bounded text field: one message at most, the blank one taking precedence,
      and the form is valid exactly when the text is present and short enough. */
  lemma BoundedTextErrors(key: String, value: String, limit: int, tooLong: String)
    ensures var e := BoundedTextFormErrors(key, value, limit, tooLong);
      && e.nonFieldErrors == []
      && e.fieldErrors.Keys <= {key}
      && (key in e.fieldErrors <==> !NotBlank(value) || |value| > limit)
      && (key in e.fieldErrors ==> e.fieldErrors[key] == if NotBlank(value) then tooLong else BlankMessage)
      && (IsValid(e) <==> NotBlank(value) && |value| <= limit)
  {
  }

  /** A thread title is accepted iff it is non-blank and at most 100 runes; a blank
      title gets only the blank message. */
  lemma ThreadTitleErrors(title: String)
    ensures var e := ThreadFormErrors(title);
      && (IsValid(e) <==> NotBlank(title) && |title| <= 100)
      && (!NotBlank(title) ==> e.fieldErrors == map["title" := BlankMessage])
      && (NotBlank(title) && |title| > 100 ==> e.fieldErrors == map["title" := TitleTooLongMessage])
  {
    BoundedTextErrors("title", title, 100, TitleTooLongMessage);
  }

  /** A message body is accepted iff it is non-blank and at most 1000 runes. */
  lemma MessageBodyErrors(body: String)
    ensures var e := MessageFormErrors(body);
      && (IsValid(e) <==> NotBlank(body) && |body| <= 1000)
      && (!NotBlank(body) ==> e.fieldErrors == map["body" := BlankMessage])
      && (NotBlank(body) && |body| > 1000 ==> e.fieldErrors == map["body" := BodyTooLongMessage])
  {
    BoundedTextErrors("body", body, 1000, BodyTooLongMessage);
  }

  // ---------------------------------------------------------------- building the forms

  /** The sign-up form after its five CheckField calls. */
  method AccountForm(username: String, email: String, password: String, isAddress: String -> bool)
    returns (form: Validator)
    ensures fresh(form)
    ensures form.State() == AccountFormErrors(username, email, password, isAddress)
  {
    form := new Validator();
    form.CheckField(NotBlank(username), "name", BlankMessage);
    form.CheckField(NotBlank(email), "email", BlankMessage);
    form.CheckField(isAddress(email), "email", EmailMessage);
    form.CheckField(NotBlank(password), "password", BlankMessage);
    var strong := CheckPassword(password);
    form.CheckField(strong, "password", PasswordMessage);
  }

  /** The new-thread form after its two CheckField calls. */
  method ThreadForm(title: String) returns (form: Validator)
    ensures fresh(form)
    ensures form.State() == ThreadFormErrors(title)
  {
    form := new Validator();
    form.CheckField(NotBlank(title), "title", BlankMessage);
    form.CheckField(MaxChars(title, 100), "title", TitleTooLongMessage);
  }

  /** The new-message form after its two CheckField calls. */
  method MessageForm(body: String) returns (form: Validator)
    ensures fresh(form)
    ensures form.State() == MessageFormErrors(body)
  {
    form := new Validator();
    form.CheckField(NotBlank(body), "body", BlankMessage);
    form.CheckField(MaxChars(body, 1000), "body", BodyTooLongMessage);
  }

  // ---------------------------------------------------------------- the application

  class Application {
    const users: Users.UserModel
    const threads: Threads.ThreadModel
    const posts: Posts.PostModel
    const session: Session.SessionManager

    constructor (users: Users.UserModel, threads: Threads.ThreadModel, posts: Posts.PostModel,
                 session: Session.SessionManager)
      ensures this.users == users && this.threads == threads && this.posts == posts && this.session == session
    {
      this.users := users;
      this.threads := threads;
      this.posts := posts;
      this.session := session;
    }

    /** The three stores share one well-formed database. */
    ghost predicate Wired()
      reads users.db
    {
      threads.db == users.db && posts.db == users.db && users.db.Valid()
    }

    /**
     * accountCreatePOST: validate, then look for the email (a lookup error counts as
     * "not found"), then insert; on success store the new id and a flash message in
     * the session and redirect to the new account. The token is not renewed.
     */
    method AccountCreatePost(r: Request, isAddress: String -> bool, existsQuery: Io, salt: nat, exec: Io, lastInsertId: Io)
      returns (resp: Response)
      requires Wired()
      modifies users.db, session
      ensures Wired()
      ensures users.db.threads == old(users.db.threads) && users.db.posts == old(users.db.posts)
      ensures session.token == old(session.token)
      ensures !r.parses ==>
        resp == ServerError && users.db.users == old(users.db.users)
        && session.values == old(session.values) && session.history == old(session.history)
      ensures r.parses ==>
        var username, email, password := FormValue(r, "username"), FormValue(r, "email"), FormValue(r, "password");
        var errs := AccountFormErrors(username, email, password, isAddress);
        var taken := Users.EmailExists(old(users.db.users), email, existsQuery).0;
        var hashed := users.hasher.generate(password, salt);
        var id := NextId(old(users.db.users), UserKey);
        && (!IsValid(errs) ==>
              resp == FormPage("account-create", errs) && users.db.users == old(users.db.users)
              && session.values == old(session.values) && session.history == old(session.history))
        && (IsValid(errs) && taken ==>
              resp == FormPage("account-create", WithFieldError(errs, "email", EmailTakenMessage))
              && users.db.users == old(users.db.users)
              && session.values == old(session.values) && session.history == old(session.history))
        && (IsValid(errs) && !taken ==>
              var signedUp := hashed.Hashed? && exec == Ready && !HasEmail(old(users.db.users), email)
                              && lastInsertId == Ready;
              && (signedUp ==>
                    && resp == Redirect("/account/view/" + Strconv.Itoa(id))
                    && users.db.users == old(users.db.users) + [User(id, username, email, hashed.digest)]
                    && session.values == old(session.values)[Session.AuthenticatedUserId := Session.IntValue(id)]
                                                            [Session.Flash := Session.StringValue(SignupFlash)]
                    && session.history == old(session.history)
                         + [Session.Stored(Session.AuthenticatedUserId, Session.IntValue(id)),
                            Session.Stored(Session.Flash, Session.StringValue(SignupFlash))])
              && (!signedUp ==>
                    && resp == ServerError && session.values == old(session.values)
                    && session.history == old(session.history)
                    && users.db.users
                         == if hashed.Hashed? && exec == Ready && !HasEmail(old(users.db.users), email)
                            then old(users.db.users) + [User(id, username, email, hashed.digest)]
                            else old(users.db.users)))
    {
      if !r.parses {
        return ServerError;
      }
      var username, email, password := FormValue(r, "username"), FormValue(r, "email"), FormValue(r, "password");
      var form := AccountForm(username, email, password, isAddress);
      if !form.Valid() {
        return FormPage("account-create", form.State());
      }
      var taken := users.Exists(email, existsQuery).0;
      if taken {
        form.AddFieldError("email", EmailTakenMessage);
        return FormPage("account-create", form.State());
      }
      var id, err := users.Insert(username, email, password, salt, exec, lastInsertId);
      if err.Some? {
        return ServerError;
      }
      session.Put(Session.AuthenticatedUserId, Session.IntValue(id));
      session.Put(Session.Flash, Session.StringValue(SignupFlash));
      return Redirect("/account/view/" + Strconv.Itoa(id));
    }

    /**
     * accountView: the guard, then the user; a missing user is a 404, any other
     * failure a 500. Showing the account pops the flash message.
     */
    method AccountView(r: Request, query: Io) returns (resp: Response)
      modifies session
      ensures session.token == old(session.token)
      ensures PathId(r.pathValue).None? ==>
        resp == NotFound && session.values == old(session.values) && session.history == old(session.history)
      ensures PathId(r.pathValue).Some? ==>
        match Users.GetUser(users.db.users, PathId(r.pathValue).value, query)
        case Failure(e) =>
          && resp == (if Is(e, ErrNoRecord) then NotFound else ServerError)
          && session.values == old(session.values) && session.history == old(session.history)
        case Success(u) =>
          var flash := if Session.Flash in old(session.values) && old(session.values)[Session.Flash].StringValue?
                       then old(session.values)[Session.Flash].s else [];
          && resp == AccountPage(u, flash)
          && session.values == old(session.values) - {Session.Flash}
    {
      var id := PathId(r.pathValue);
      if id.None? {
        return NotFound;
      }
      var got := users.Get(id.value, query);
      if got.Failure? {
        return if Is(got.error, ErrNoRecord) then NotFound else ServerError;
      }
      var flash := session.PopString(Session.Flash);
      return AccountPage(got.value, flash);
    }

    /**
     * threadCreatePOST: validate the title, then insert a thread authored by the
     * session's user id (0 when there is none: the author is not checked), then set
     * the flash message and redirect to the new thread.
     */
    method ThreadCreatePost(r: Request, now: int, exec: Io, lastInsertId: Io) returns (resp: Response)
      requires Wired()
      modifies users.db, session
      ensures Wired()
      ensures users.db.users == old(users.db.users) && users.db.posts == old(users.db.posts)
      ensures session.token == old(session.token)
      ensures !r.parses ==>
        resp == ServerError && users.db.threads == old(users.db.threads)
        && session.values == old(session.values) && session.history == old(session.history)
      ensures r.parses ==>
        var title := FormValue(r, "title");
        var errs := ThreadFormErrors(title);
        var id := NextId(old(users.db.threads), ThreadKey);
        && (!IsValid(errs) ==>
              resp == FormPage("thread-create", errs) && users.db.threads == old(users.db.threads)
              && session.values == old(session.values) && session.history == old(session.history))
        && (IsValid(errs) ==>
              && (exec.Broken? ==> users.db.threads == old(users.db.threads))
              && (exec == Ready ==>
                    users.db.threads == old(users.db.threads)
                      + [ThreadRow(id, title, old(session.GetInt(Session.AuthenticatedUserId)), now)])
              && (exec == Ready && lastInsertId == Ready ==>
                    && resp == Redirect("/thread/view/" + Strconv.Itoa(id))
                    && session.values == old(session.values)[Session.Flash := Session.StringValue(ThreadFlash)]
                    && session.history == old(session.history)
                         + [Session.Stored(Session.Flash, Session.StringValue(ThreadFlash))])
              && (!(exec == Ready && lastInsertId == Ready) ==>
                    resp == ServerError && session.values == old(session.values)
                    && session.history == old(session.history)))
    {
      if !r.parses {
        return ServerError;
      }
      var title := FormValue(r, "title");
      var form := ThreadForm(title);
      if !form.Valid() {
        return FormPage("thread-create", form.State());
      }
      var authorId := session.GetInt(Session.AuthenticatedUserId);
      var id, err := threads.Insert(title, authorId, now, exec, lastInsertId);
      if err.Some? {
        return ServerError;
      }
      session.Put(Session.Flash, Session.StringValue(ThreadFlash));
      return Redirect("/thread/view/" + Strconv.Itoa(id));
    }

    /**
     * threadView as written: the guard, then Get. Get never reports ErrNoRecord, so
     * the not-found branch is unreachable and a missing thread is a 500.
     */
    method ThreadView(r: Request, row: Io, postsFault: Threads.ReadFault) returns (resp: Response)
      ensures PathId(r.pathValue).None? ==> resp == NotFound
      ensures resp == NotFound ==> PathId(r.pathValue).None?
      ensures PathId(r.pathValue).Some? ==>
        var found := Threads.ThreadLookup(users.db.users, users.db.threads, PathId(r.pathValue).value);
        && (row.Broken? ==> resp == ServerError)
        && (row == Ready && found.None? ==> resp == ServerError)
        && (row == Ready && found.Some? ==>
              if Threads.PostsFail(users.db.users, users.db.posts, found.value.id, Asc, postsFault)
              then resp == ServerError
              else resp == ThreadPage(Threads.ThreadOf(found.value,
                             Threads.ThreadPosts(users.db.users, users.db.posts, found.value.id, Asc))))
      requires threads.db == users.db
    {
      var id := PathId(r.pathValue);
      if id.None? {
        return NotFound;
      }
      var t, err := threads.Get(id.value, row, postsFault);
      if err.Some? {
        return if Is(err.value, ErrNoRecord) then NotFound else ServerError;
      }
      return ThreadPage(t.value);
    }

    /** threadView over the corrected Get: a missing thread is a 404. */
    method ThreadViewIntended(r: Request, row: Io, postsFault: Threads.ReadFault) returns (resp: Response)
      requires threads.db == users.db
      ensures PathId(r.pathValue).None? ==> resp == NotFound
      ensures PathId(r.pathValue).Some? ==>
        var found := Threads.ThreadLookup(users.db.users, users.db.threads, PathId(r.pathValue).value);
        && (row.Broken? ==> resp == ServerError)
        && (row == Ready && found.None? ==> resp == NotFound)
        && (row == Ready && found.Some? ==>
              if Threads.PostsFail(users.db.users, users.db.posts, found.value.id, Asc, postsFault)
              then resp == ServerError
              else resp == ThreadPage(Threads.ThreadOf(found.value,
                             Threads.ThreadPosts(users.db.users, users.db.posts, found.value.id, Asc))))
    {
      var id := PathId(r.pathValue);
      if id.None? {
        return NotFound;
      }
      var t, err := threads.GetIntended(id.value, row, postsFault);
      if err.Some? {
        return if Is(err.value, ErrNoRecord) then NotFound else ServerError;
      }
      return ThreadPage(t.value);
    }

    /** postCreate: the guard, then an empty message form for that thread. */
    method PostCreate(r: Request) returns (resp: Response)
      ensures PathId(r.pathValue).None? ==> resp == NotFound
      ensures PathId(r.pathValue).Some? ==> resp == NewMessagePage(PathId(r.pathValue).value)
    {
      var id := PathId(r.pathValue);
      if id.None? {
        return NotFound;
      }
      return NewMessagePage(id.value);
    }

    /**
     * postCreatePOST: a form that does not parse is a 400; then the guard, then the
     * body's checks, then the insert under the session's user id; on success the
     * flash names the new post and the redirect goes back to the thread.
     */
    method PostCreatePost(r: Request, now: int, exec: Io, lastInsertId: Io) returns (resp: Response)
      requires Wired()
      modifies users.db, session
      ensures Wired()
      ensures users.db.users == old(users.db.users) && users.db.threads == old(users.db.threads)
      ensures session.token == old(session.token)
      ensures !r.parses || PathId(r.pathValue).None? ==>
        && resp == (if r.parses then NotFound else BadRequest)
        && users.db.posts == old(users.db.posts)
        && session.values == old(session.values) && session.history == old(session.history)
      ensures r.parses && PathId(r.pathValue).Some? ==>
        var threadId := PathId(r.pathValue).value;
        var body := FormValue(r, "body");
        var errs := MessageFormErrors(body);
        var id := NextId(old(users.db.posts), PostKey);
        && (!IsValid(errs) ==>
              resp == MessageFormPage(threadId, errs) && users.db.posts == old(users.db.posts)
              && session.values == old(session.values) && session.history == old(session.history))
        && (IsValid(errs) ==>
              && (exec.Broken? ==> users.db.posts == old(users.db.posts))
              && (exec == Ready ==>
                    users.db.posts == old(users.db.posts)
                      + [PostRow(id, body, old(session.GetInt(Session.AuthenticatedUserId)), threadId, now)])
              && (exec == Ready && lastInsertId == Ready ==>
                    && resp == Redirect("/thread/view/" + Strconv.Itoa(threadId))
                    && session.values == old(session.values)[Session.Flash := Session.StringValue(MessageFlash(id))]
                    && session.history == old(session.history)
                         + [Session.Stored(Session.Flash, Session.StringValue(MessageFlash(id)))])
              && (!(exec == Ready && lastInsertId == Ready) ==>
                    resp == ServerError && session.values == old(session.values)
                    && session.history == old(session.history)))
    {
      if !r.parses {
        return BadRequest;
      }
      var threadId := PathId(r.pathValue);
      if threadId.None? {
        return NotFound;
      }
      var body := FormValue(r, "body");
      var form := MessageForm(body);
      if !form.Valid() {
        return MessageFormPage(threadId.value, form.State());
      }
      var authorId := session.GetInt(Session.AuthenticatedUserId);
      var postId, err := posts.Insert(body, threadId.value, authorId, now, exec, lastInsertId);
      if err.Some? {
        return ServerError;
      }
      session.Put(Session.Flash, Session.StringValue(MessageFlash(postId)));
      return Redirect("/thread/view/" + Strconv.Itoa(threadId.value));
    }

    /**
     * userLoginPost: authenticate; bad credentials re-show the form with a "generic"
     * error, any other failure is a 500; on success the token is renewed first, and
     * only then is the user id stored.
     */
    method UserLoginPost(r: Request, query: Io, store: Io, newToken: String) returns (resp: Response)
      modifies session
      ensures session.values == old(session.values) || resp.Redirect?
      ensures !r.parses ==>
        resp == ServerError && session.token == old(session.token) && session.history == old(session.history)
      ensures r.parses ==>
        var outcome := Users.CheckCredentials(users.db.users, users.hasher, FormValue(r, "email"),
                                              FormValue(r, "password"), query);
        var id := outcome.0;
        && (outcome.1.Some? ==>
              && resp == (if Is(outcome.1.value, ErrInvalidCredentials)
                          then FormPage("login", WithFieldError(NoErrors, "generic", BadCredentialsMessage))
                          else ServerError)
              && session.values == old(session.values) && session.token == old(session.token)
              && session.history == old(session.history))
        && (outcome.1.None? && store.Broken? ==>
              resp == ServerError && session.values == old(session.values)
              && session.token == old(session.token) && session.history == old(session.history))
        && (outcome.1.None? && store == Ready ==>
              && resp == Redirect("/account/view/" + Strconv.Itoa(id))
              && session.token == newToken
              && session.values == old(session.values)[Session.AuthenticatedUserId := Session.IntValue(id)]
              && session.history == old(session.history)
                   + [Session.Renewed, Session.Stored(Session.AuthenticatedUserId, Session.IntValue(id))])
    {
      if !r.parses {
        return ServerError;
      }
      var email, password := FormValue(r, "email"), FormValue(r, "password");
      var form := new Validator();
      var outcome := users.Authenticate(email, password, query);
      var id, err := outcome.0, outcome.1;
      if err.Some? {
        if Is(err.value, ErrInvalidCredentials) {
          form.AddFieldError("generic", BadCredentialsMessage);
          return FormPage("login", form.State());
        }
        return ServerError;
      }
      var renewed := session.RenewToken(store, newToken);
      if renewed.Some? {
        return ServerError;
      }
      session.Put(Session.AuthenticatedUserId, Session.IntValue(id));
      return Redirect("/account/view/" + Strconv.Itoa(id));
    }

    /** userLogoutPost: renew the token, then drop the user id, then set the flash
        message; a renewal failure changes nothing. */
    method UserLogoutPost(store: Io, newToken: String) returns (resp: Response)
      modifies session
      ensures store.Broken? ==>
        resp == ServerError && session.values == old(session.values)
        && session.token == old(session.token) && session.history == old(session.history)
      ensures store == Ready ==>
        && resp == Redirect("/")
        && session.token == newToken
        && session.values == (old(session.values) - {Session.AuthenticatedUserId})
                               [Session.Flash := Session.StringValue(LogoutFlash)]
        && session.history == old(session.history)
             + [Session.Renewed, Session.Removed(Session.AuthenticatedUserId),
                Session.Stored(Session.Flash, Session.StringValue(LogoutFlash))]
    {
      var renewed := session.RenewToken(store, newToken);
      if renewed.Some? {
        return ServerError;
      }
      session.Remove(Session.AuthenticatedUserId);
      session.Put(Session.Flash, Session.StringValue(LogoutFlash));
      return Redirect("/");
    }

    /** home: the latest threads, or a 500 when any read fails. */
    method Home(fault: Threads.ReadFault, postFaults: map<int, Threads.ReadFault>) returns (resp: Response)
      requires threads.db == users.db
      ensures Threads.LatestsSucceed(users.db.users, users.db.threads, users.db.posts, fault, postFaults) ==>
        resp == HomePage(Threads.LatestThreads(users.db.users, users.db.threads, users.db.posts))
      ensures !Threads.LatestsSucceed(users.db.users, users.db.threads, users.db.posts, fault, postFaults) ==>
        resp == ServerError
    {
      var ts, err := threads.Latests(fault, postFaults);
      if err.Some? {
        return ServerError;
      }
      return HomePage(ts);
    }
  }
}
