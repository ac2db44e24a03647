/**
 * The SQLite database shared by the three stores: the Users, Threads and Posts
 * tables as sequences of rows in insertion (rowid) order, the errors the stores
 * return, and the outcome of a driver call, which the environment decides.
 */
module Database {
  import opened Unicode

  /** A Users row, and the User value the stores hand out. Joined authors carry
      an empty (nil) hashedPassword. */
  datatype User = User(id: int, username: String, email: String, hashedPassword: String)

  /** A Threads row; `created` is the CURRENT_TIMESTAMP of the insert. */
  datatype ThreadRow = ThreadRow(id: int, title: String, authorId: int, created: int)

  /** A Posts row. */
  datatype PostRow = PostRow(id: int, body: String, authorId: int, threadId: int, created: int)

  /** What the driver reports for one round trip to the database. */
  datatype Io = Ready | Broken(code: nat)

  /** Errors raised by the database itself. */
  datatype DbError =
    | NoRows                          // sql.ErrNoRows
    | UniqueViolation(column: String) // a UNIQUE constraint failed
    | DriverFailure(code: nat)        // any other I/O or driver error

  /** The error values the stores return. */
  datatype Error =
    | ErrNoRecord
    | ErrInvalidCredentials
    | Sql(cause: DbError)
    | Bcrypt(code: nat)                        // a bcrypt failure other than a mismatch
    | Wrapped(context: String, inner: Error)   // fmt.Errorf("<context>: %w", inner)

  /** errors.Is: the target is the error itself or somewhere down its %w chain. */
  predicate Is(e: Error, target: Error) {
    e == target || (e.Wrapped? && Is(e.inner, target))
  }

  function UserKey(u: User): int { u.id }
  function ThreadKey(t: ThreadRow): int { t.id }
  function PostKey(p: PostRow): int { p.id }

  /** INTEGER PRIMARY KEY: no two rows share an id. */
  predicate DistinctIds<T>(rows: seq<T>, key: T -> int) {
    forall i, j :: 0 <= i < j < |rows| ==> key(rows[i]) != key(rows[j])
  }

  /** email TEXT NOT NULL UNIQUE. */
  predicate DistinctEmails(users: seq<User>) {
    forall i, j :: 0 <= i < j < |users| ==> users[i].email != users[j].email
  }

  predicate HasEmail(users: seq<User>, email: String) {
    exists i :: 0 <= i < |users| && users[i].email == email
  }

  /** The id SQLite gives the next row: one more than the largest id in the table
      (1 for an empty table). Clients rely only on it being fresh and positive. */
  function NextId<T>(rows: seq<T>, key: T -> int): (id: int)
    ensures id >= 1
  {
    if rows == [] then 1
    else
      var rest := NextId(rows[..|rows| - 1], key);
      var last := key(rows[|rows| - 1]);
      if last < rest then rest else last + 1
  }

  /** The next id is above every id in the table, and it is 1 or one more than
      some id in the table. */
  lemma {:induction false} NextIdFresh<T>(rows: seq<T>, key: T -> int)
    ensures forall i :: 0 <= i < |rows| ==> key(rows[i]) < NextId(rows, key)
    ensures NextId(rows, key) == 1 || exists i :: 0 <= i < |rows| && key(rows[i]) + 1 == NextId(rows, key)
  {
    if rows != [] {
      var init := rows[..|rows| - 1];
      NextIdFresh(init, key);
      forall i | 0 <= i < |init| ensures init[i] == rows[i] { }
    }
  }

  /** Appending a row with a fresh id keeps the ids distinct. */
  lemma AppendFresh<T>(rows: seq<T>, key: T -> int, row: T)
    requires DistinctIds(rows, key)
    requires key(row) == NextId(rows, key)
    ensures DistinctIds(rows + [row], key)
  {
    var r := rows + [row];
    NextIdFresh(rows, key);
    forall i, j | 0 <= i < j < |r| ensures key(r[i]) != key(r[j]) {
      if j == |rows| {
        assert r[i] == rows[i];
      } else {
        assert r[i] == rows[i] && r[j] == rows[j];
      }
    }
  }

  /** The one *sql.DB handle the three stores share. */
  class Database {
    var users: seq<User>
    var threads: seq<ThreadRow>
    var posts: seq<PostRow>

    /** The constraints the schema declares and SQLite enforces (the REFERENCES
        clauses are not enforced: foreign keys are off). */
    ghost predicate Valid()
      reads this
    {
      && DistinctIds(users, UserKey)
      && DistinctEmails(users)
      && DistinctIds(threads, ThreadKey)
      && DistinctIds(posts, PostKey)
    }

    /** Tables just created by createTable. */
    constructor ()
      ensures Valid()
      ensures users == [] && threads == [] && posts == []
    {
      users, threads, posts := [], [], [];
    }
  }
}
