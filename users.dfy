/**
 * The user store: accounts in the Users table, credential checks against bcrypt
 * hashes, and the email-uniqueness check the sign-up form relies on.
 */
module Users {
  import opened Wrappers
  import opened Unicode
  import opened Database

  /** What bcrypt.GenerateFromPassword returns. */
  datatype HashOutcome = Hashed(digest: String) | HashFailed(code: nat)

  /** What bcrypt.CompareHashAndPassword returns: nil, ErrMismatchedHashAndPassword,
      or another error (a malformed hash, say). */
  datatype CompareOutcome = Matches | Mismatched | CompareFailed(code: nat)

  /**
   * bcrypt, as the two functions the store calls. Both are left uninterpreted: the
   * salt GenerateFromPassword draws at random is an explicit argument, and what is
   * known about the pair is stated by Sound and Hiding below.
   */
  datatype Hasher = Hasher(
    generate: (String, nat) -> HashOutcome,
    compare: (String, String) -> CompareOutcome)

  /** A password matches every hash generated from it. */
  ghost predicate Sound(h: Hasher) {
    forall password, salt :: h.generate(password, salt).Hashed? ==>
      h.compare(h.generate(password, salt).digest, password) == Matches
  }

  /** A generated hash is never the plaintext itself. */
  ghost predicate Hiding(h: Hasher) {
    forall password, salt :: h.generate(password, salt).Hashed? ==>
      h.generate(password, salt).digest != password
  }

  /** SELECT ... FROM Users WHERE id = ?: the first row with that id. */
  function FindById(users: seq<User>, id: int): (r: Option<User>)
    ensures r.Some? <==> exists i :: 0 <= i < |users| && users[i].id == id
    ensures r.Some? ==> r.value in users && r.value.id == id
  {
    if users == [] then None
    else if users[0].id == id then Some(users[0])
    else FindById(users[1..], id)
  }

  /** SELECT ... FROM Users WHERE email = ?: the first row with that email. */
  function FindByEmail(users: seq<User>, email: String): (r: Option<User>)
    ensures r.Some? <==> HasEmail(users, email)
    ensures r.Some? ==> r.value in users && r.value.email == email
  {
    if users == [] then None
    else if users[0].email == email then Some(users[0])
    else
      var r := FindByEmail(users[1..], email);
      assert HasEmail(users, email) <==> HasEmail(users[1..], email) by {
        if HasEmail(users, email) {
          var i :| 0 <= i < |users| && users[i].email == email;
          assert users[1..][i - 1] == users[i];
        }
        if HasEmail(users[1..], email) {
          var i :| 0 <= i < |users| - 1 && users[1..][i].email == email;
          assert users[i + 1] == users[1..][i];
        }
      }
      r
  }

  /** With unique emails, the row found by email is the only one with that email. */
  lemma FindByEmailUnique(users: seq<User>, k: int)
    requires DistinctEmails(users)
    requires 0 <= k < |users|
    ensures FindByEmail(users, users[k].email) == Some(users[k])
  {
    var u := FindByEmail(users, users[k].email).value;
    var i :| 0 <= i < |users| && users[i] == u;
    assert i == k;
  }

  /** With unique ids, the row found by id is the only one with that id. */
  lemma FindByIdUnique(users: seq<User>, k: int)
    requires DistinctIds(users, UserKey)
    requires 0 <= k < |users|
    ensures FindById(users, users[k].id) == Some(users[k])
  {
    var u := FindById(users, users[k].id).value;
    var i :| 0 <= i < |users| && users[i] == u;
    assert UserKey(users[i]) == UserKey(users[k]);
  }

  /** UserModel.Get: ErrNoRecord when no row has the id, otherwise the whole row. */
  function GetUser(users: seq<User>, id: int, query: Io): (r: Result<User, Error>)
    ensures query.Broken? ==>
      r == Failure(Wrapped("querying user by ID", Sql(DriverFailure(query.code))))
    ensures query == Ready && r.Failure? ==> r.error == ErrNoRecord
    ensures query == Ready ==> (r.Success? <==> exists i :: 0 <= i < |users| && users[i].id == id)
    ensures r.Success? ==> r.value in users && r.value.id == id
  {
    if query.Broken? then Failure(Wrapped("querying user by ID", Sql(DriverFailure(query.code))))
    else match FindById(users, id)
      case None => Failure(ErrNoRecord)
      case Some(u) => Success(u)
  }

  /** UserModel.Exists: (true, nil) iff a row has exactly this email; absence is
      (false, nil); only a driver failure is an error. */
  function EmailExists(users: seq<User>, email: String, query: Io): (r: (bool, Option<Error>))
    ensures query == Ready ==> r == (HasEmail(users, email), None)
    ensures query.Broken? ==>
      r == (false, Some(Wrapped("checking email existence", Sql(DriverFailure(query.code)))))
  {
    if query.Broken? then (false, Some(Wrapped("checking email existence", Sql(DriverFailure(query.code)))))
    else match FindByEmail(users, email)
      case None => (false, None)
      case Some(_) => (true, None)
  }

  /**
   * UserModel.Authenticate. An unknown email and a wrong password give the same
   * ErrInvalidCredentials; a match gives the row's id; every error gives id 0.
   */
  function CheckCredentials(users: seq<User>, hasher: Hasher, email: String, password: String, query: Io)
    : (r: (int, Option<Error>))
    ensures r.1.Some? ==> r.0 == 0
    ensures r.1.None? ==>
      exists i :: 0 <= i < |users| && users[i].email == email && users[i].id == r.0
        && hasher.compare(users[i].hashedPassword, password) == Matches
    ensures query == Ready && !HasEmail(users, email) ==> r == (0, Some(ErrInvalidCredentials))
    ensures query.Broken? ==>
      r == (0, Some(Wrapped("querying user by email", Sql(DriverFailure(query.code)))))
  {
    if query.Broken? then (0, Some(Wrapped("querying user by email", Sql(DriverFailure(query.code)))))
    else match FindByEmail(users, email)
      case None => (0, Some(ErrInvalidCredentials))
      case Some(u) =>
        match hasher.compare(u.hashedPassword, password)
        case Matches => (u.id, None)
        case Mismatched => (0, Some(ErrInvalidCredentials))
        case CompareFailed(code) => (0, Some(Wrapped("verifying password", Bcrypt(code))))
  }

  /**
   * Authenticate on a stored row: the password that bcrypt accepts for the row's
   * hash logs in as that row; a mismatch is ErrInvalidCredentials; any other
   * bcrypt failure is wrapped with "verifying password".
   */
  lemma {:induction false} CheckCredentialsOfRow(users: seq<User>, hasher: Hasher, k: int, password: String)
    requires DistinctEmails(users)
    requires 0 <= k < |users|
    ensures hasher.compare(users[k].hashedPassword, password) == Matches ==>
      CheckCredentials(users, hasher, users[k].email, password, Ready) == (users[k].id, None)
    ensures hasher.compare(users[k].hashedPassword, password) == Mismatched ==>
      CheckCredentials(users, hasher, users[k].email, password, Ready) == (0, Some(ErrInvalidCredentials))
    ensures hasher.compare(users[k].hashedPassword, password).CompareFailed? ==>
      CheckCredentials(users, hasher, users[k].email, password, Ready)
        == (0, Some(Wrapped("verifying password", Bcrypt(hasher.compare(users[k].hashedPassword, password).code))))
  {
    FindByEmailUnique(users, k);
  }

  /** A wrong password for a known email is reported exactly like an unknown email. */
  lemma {:induction false} WrongPasswordLooksLikeUnknownEmail(
    users: seq<User>, hasher: Hasher, k: int, password: String, unknown: String)
    requires DistinctEmails(users)
    requires 0 <= k < |users|
    requires hasher.compare(users[k].hashedPassword, password) == Mismatched
    requires !HasEmail(users, unknown)
    ensures CheckCredentials(users, hasher, users[k].email, password, Ready)
         == CheckCredentials(users, hasher, unknown, password, Ready)
         == (0, Some(ErrInvalidCredentials))
  {
    FindByEmailUnique(users, k);
  }

  /**
   * After a row for (username, email, Hash(password)) is added with a fresh id to a
   * table in which the email was unused, Exists(email) is true, Get(id) returns that
   * row, Authenticate(email, password) returns id, and the stored hash is not the
   * plaintext.
   */
  lemma {:induction false} SignedUpUserCanLogIn(
    users: seq<User>, hasher: Hasher, username: String, email: String, password: String, salt: nat)
    requires DistinctIds(users, UserKey) && DistinctEmails(users)
    requires !HasEmail(users, email)
    requires Sound(hasher) && Hiding(hasher) && hasher.generate(password, salt).Hashed?
    ensures hasher.generate(password, salt).digest != password
    ensures var row := User(NextId(users, UserKey), username, email, hasher.generate(password, salt).digest);
      && EmailExists(users + [row], email, Ready) == (true, None)
      && GetUser(users + [row], row.id, Ready) == Success(row)
      && CheckCredentials(users + [row], hasher, email, password, Ready) == (row.id, None)
  {
    var row := User(NextId(users, UserKey), username, email, hasher.generate(password, salt).digest);
    var after := users + [row];
    assert after[|users|] == row;
    AppendFresh(users, UserKey, row);
    assert DistinctEmails(after) by {
      forall i, j | 0 <= i < j < |after| ensures after[i].email != after[j].email {
        if j == |users| {
          assert after[i] == users[i];
        } else {
          assert after[i] == users[i] && after[j] == users[j];
        }
      }
    }
    FindByEmailUnique(after, |users|);
    FindByIdUnique(after, |users|);
  }

  /** The user store, over the Users table of the shared database. */
  class UserModel {
    const db: Database
    const hasher: Hasher

    constructor (db: Database, hasher: Hasher)
      ensures this.db == db && this.hasher == hasher
    {
      this.db := db;
      this.hasher := hasher;
    }

    /**
     * Insert: hash, then INSERT (the UNIQUE email constraint may refuse it), then
     * LastInsertId. A failure at any step returns 0 and the wrapped error; only a
     * failure after the INSERT has gone through leaves the new row in the table.
     */
    method Insert(username: String, email: String, password: String, salt: nat, exec: Io, lastInsertId: Io)
      returns (id: int, err: Option<Error>)
      requires db.Valid()
      modifies db
      ensures db.Valid()
      ensures db.threads == old(db.threads) && db.posts == old(db.posts)
      ensures err.Some? ==> id == 0
      ensures hasher.generate(password, salt).HashFailed? ==>
        && db.users == old(db.users)
        && err == Some(Wrapped("hashing password", Bcrypt(hasher.generate(password, salt).code)))
      ensures hasher.generate(password, salt).Hashed? && exec.Broken? ==>
        && db.users == old(db.users)
        && err == Some(Wrapped("inserting new user in db", Sql(DriverFailure(exec.code))))
      ensures hasher.generate(password, salt).Hashed? && exec == Ready && HasEmail(old(db.users), email) ==>
        && db.users == old(db.users)
        && err == Some(Wrapped("inserting new user in db", Sql(UniqueViolation("Users.email"))))
      ensures hasher.generate(password, salt).Hashed? && exec == Ready && !HasEmail(old(db.users), email) ==>
        && db.users == old(db.users)
             + [User(NextId(old(db.users), UserKey), username, email, hasher.generate(password, salt).digest)]
        && (lastInsertId == Ready ==> id == NextId(old(db.users), UserKey) && err == None)
        && (lastInsertId.Broken? ==>
              err == Some(Wrapped("getting last user id", Sql(DriverFailure(lastInsertId.code)))))
    {
      var hashed := hasher.generate(password, salt);
      if hashed.HashFailed? {
        return 0, Some(Wrapped("hashing password", Bcrypt(hashed.code)));
      }
      if exec.Broken? {
        return 0, Some(Wrapped("inserting new user in db", Sql(DriverFailure(exec.code))));
      }
      if FindByEmail(db.users, email).Some? {
        return 0, Some(Wrapped("inserting new user in db", Sql(UniqueViolation("Users.email"))));
      }
      var row := User(NextId(db.users, UserKey), username, email, hashed.digest);
      AppendFresh(db.users, UserKey, row);
      ghost var before := db.users;
      db.users := db.users + [row];
      assert DistinctEmails(db.users) by {
        forall i, j | 0 <= i < j < |db.users| ensures db.users[i].email != db.users[j].email {
          if j == |before| {
            assert db.users[i] == before[i];
          } else {
            assert db.users[i] == before[i] && db.users[j] == before[j];
          }
        }
      }
      if lastInsertId.Broken? {
        return 0, Some(Wrapped("getting last user id", Sql(DriverFailure(lastInsertId.code))));
      }
      return row.id, None;
    }

    function Get(id: int, query: Io): (r: Result<User, Error>)
      reads db
    {
      GetUser(db.users, id, query)
    }

    function Exists(email: String, query: Io): (r: (bool, Option<Error>))
      reads db
    {
      EmailExists(db.users, email, query)
    }

    function Authenticate(email: String, password: String, query: Io): (r: (int, Option<Error>))
      reads db
    {
      CheckCredentials(db.users, hasher, email, password, query)
    }
  }
}
