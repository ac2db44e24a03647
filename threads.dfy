/**
 * The thread store: inserting threads, and reading them back joined with their
 * authors and with their posts, as the SQL text of threads.go states.
 */
module Threads {
  import opened Wrappers
  import opened Unicode
  import opened Database
  import opened Queries
  import Strconv
  import Users

  datatype Post = Post(id: int, body: String, author: User, created: int)

  datatype Thread = Thread(id: int, title: String, author: User, created: int, posts: seq<Post>)

  /** One result row of the thread query or the post query: the row's id, its
      title or body, its created column, and U.id, U.username, U.email. */
  datatype Selected = Selected(id: int, text: String, created: int, userId: int, username: String, email: String)

  function Created(r: Selected): int { r.created }

  function PostCreated(p: Post): int { p.created }

  function ThreadCreated(t: Thread): int { t.created }

  /** The author a result row carries: the joined user, hashed password left nil. */
  function AuthorOf(r: Selected): User {
    User(r.userId, r.username, r.email, [])
  }

  /** The scan of one post row (p.Author = &u). */
  function PostOf(r: Selected): Post {
    Post(r.id, r.text, AuthorOf(r), r.created)
  }

  /** newThread's result for a scanned thread row and its loaded posts. */
  function ThreadOf(r: Selected, posts: seq<Post>): Thread {
    Thread(r.id, r.text, AuthorOf(r), r.created, posts)
  }

  // ---------------------------------------------------------------- the post query

  /** P.author_id = U.id AND P.thread_id = ? */
  predicate JoinsPost(users: seq<User>, p: PostRow, threadId: int) {
    p.threadId == threadId && Users.FindById(users, p.authorId).Some?
  }

  function SelectPost(users: seq<User>, p: PostRow): (r: Selected)
    requires Users.FindById(users, p.authorId).Some?
    ensures r.id == p.id && r.text == p.body && r.created == p.created && r.userId == p.authorId
  {
    var u := Users.FindById(users, p.authorId).value;
    Selected(p.id, p.body, p.created, u.id, u.username, u.email)
  }

  /** FROM Posts P, Users U WHERE P.author_id = U.id AND P.thread_id = ?, before ORDER BY. */
  function PostJoin(users: seq<User>, posts: seq<PostRow>, threadId: int): seq<Selected>
  {
    if posts == [] then []
    else
      var head := if JoinsPost(users, posts[0], threadId) then [SelectPost(users, posts[0])] else [];
      head + PostJoin(users, posts[1..], threadId)
  }

  /** The join yields one row per post of the thread whose author exists, and no other. */
  lemma {:induction false} PostJoinMembers(users: seq<User>, posts: seq<PostRow>, threadId: int)
    ensures forall x :: x in PostJoin(users, posts, threadId) <==>
      exists i :: 0 <= i < |posts| && JoinsPost(users, posts[i], threadId) && x == SelectPost(users, posts[i])
  {
    if posts != [] {
      PostJoinMembers(users, posts[1..], threadId);
      assert forall i :: 0 < i < |posts| ==> posts[i] == posts[1..][i - 1];
    }
  }

  /** With distinct post ids the join yields each row at most once. */
  lemma {:induction false} PostJoinOnce(users: seq<User>, posts: seq<PostRow>, threadId: int, x: Selected)
    requires DistinctIds(posts, PostKey)
    ensures multiset(PostJoin(users, posts, threadId))[x] <= 1
  {
    if posts != [] {
      var tail := posts[1..];
      forall i, j | 0 <= i < j < |tail| ensures PostKey(tail[i]) != PostKey(tail[j]) {
        assert tail[i] == posts[i + 1] && tail[j] == posts[j + 1];
      }
      PostJoinOnce(users, tail, threadId, x);
      var rest := PostJoin(users, tail, threadId);
      PostJoinMembers(users, tail, threadId);
      forall y | y in rest ensures y.id != posts[0].id {
        var i :| 0 <= i < |tail| && JoinsPost(users, tail[i], threadId) && y == SelectPost(users, tail[i]);
        assert tail[i] == posts[i + 1];
      }
      var head := if JoinsPost(users, posts[0], threadId) then [SelectPost(users, posts[0])] else [];
      assert PostJoin(users, posts, threadId) == head + rest;
      assert multiset(head + rest) == multiset(head) + multiset(rest);
    }
  }

  /** ... ORDER BY P.created <order>. */
  function PostQuery(users: seq<User>, posts: seq<PostRow>, threadId: int, order: Order): seq<Selected>
  {
    SortBy(PostJoin(users, posts, threadId), Created, order)
  }

  /** Every row of a query, scanned into a Post. */
  function PostsOf(rows: seq<Selected>): seq<Post> {
    seq(|rows|, k requires 0 <= k < |rows| => PostOf(rows[k]))
  }

  /** What getPosts returns when no read fails. */
  function ThreadPosts(users: seq<User>, posts: seq<PostRow>, threadId: int, order: Order): seq<Post> {
    PostsOf(PostQuery(users, posts, threadId, order))
  }

  // ---------------------------------------------------------------- the thread query

  /** T.author_id = U.id */
  predicate JoinsThread(users: seq<User>, t: ThreadRow) {
    Users.FindById(users, t.authorId).Some?
  }

  function SelectThread(users: seq<User>, t: ThreadRow): (r: Selected)
    requires JoinsThread(users, t)
    ensures r.id == t.id && r.text == t.title && r.created == t.created && r.userId == t.authorId
  {
    var u := Users.FindById(users, t.authorId).value;
    Selected(t.id, t.title, t.created, u.id, u.username, u.email)
  }

  /** FROM Threads T, Users U WHERE T.author_id = U.id, before ORDER BY. */
  function ThreadJoin(users: seq<User>, threads: seq<ThreadRow>): seq<Selected>
  {
    if threads == [] then []
    else
      var head := if JoinsThread(users, threads[0]) then [SelectThread(users, threads[0])] else [];
      head + ThreadJoin(users, threads[1..])
  }

  /** The join yields one row per thread whose author exists, and no other. */
  lemma {:induction false} ThreadJoinMembers(users: seq<User>, threads: seq<ThreadRow>)
    ensures forall x :: x in ThreadJoin(users, threads) <==>
      exists i :: 0 <= i < |threads| && JoinsThread(users, threads[i]) && x == SelectThread(users, threads[i])
  {
    if threads != [] {
      ThreadJoinMembers(users, threads[1..]);
      assert forall i :: 0 < i < |threads| ==> threads[i] == threads[1..][i - 1];
    }
  }

  /** The row QueryRow scans for Get: the first joined row with T.id = id. */
  function ThreadLookup(users: seq<User>, threads: seq<ThreadRow>, id: int): (r: Option<Selected>)
    ensures r.Some? <==> exists i :: 0 <= i < |threads| && threads[i].id == id && JoinsThread(users, threads[i])
    ensures r.Some? ==> exists i :: 0 <= i < |threads| && threads[i].id == id && JoinsThread(users, threads[i])
                                    && r.value == SelectThread(users, threads[i])
  {
    if threads == [] then None
    else if threads[0].id == id && JoinsThread(users, threads[0]) then Some(SelectThread(users, threads[0]))
    else
      var r := ThreadLookup(users, threads[1..], id);
      assert forall i :: 0 < i < |threads| ==> threads[i] == threads[1..][i - 1];
      r
  }

  /** The Latests query: ORDER BY T.created DESC LIMIT 9. */
  const LatestsLimit: nat := 9

  function LatestQuery(users: seq<User>, threads: seq<ThreadRow>): seq<Selected> {
    Limit(SortBy(ThreadJoin(users, threads), Created, Desc), LatestsLimit)
  }

  /** A thread row listed by Latests, with its posts newest first. */
  function WithNewestPosts(users: seq<User>, posts: seq<PostRow>, r: Selected): Thread {
    ThreadOf(r, ThreadPosts(users, posts, r.id, Desc))
  }

  /** Each listed thread row with its posts newest first. */
  function LoadedNewestFirst(users: seq<User>, posts: seq<PostRow>, rows: seq<Selected>): seq<Thread> {
    seq(|rows|, k requires 0 <= k < |rows| => WithNewestPosts(users, posts, rows[k]))
  }

  /** What Latests returns when no read fails. */
  function LatestThreads(users: seq<User>, threads: seq<ThreadRow>, posts: seq<PostRow>): seq<Thread> {
    LoadedNewestFirst(users, posts, LatestQuery(users, threads))
  }

  // ---------------------------------------------------------------- read failures

  /** Where reading a result set fails, if it does: the query itself, the scan of
      row `row`, or the final rows.Err(). */
  datatype ReadFault = NoFault | QueryFails(code: nat) | ScanFails(row: nat, code: nat) | IterationFails(code: nat)

  /** The error code hit while reading a result set of `rows` rows, if any. */
  function FaultHit(f: ReadFault, rows: nat): Option<nat> {
    match f
    case NoFault => None
    case QueryFails(code) => Some(code)
    case ScanFails(row, code) => if row < rows then Some(code) else None
    case IterationFails(code) => Some(code)
  }

  function PostFault(postFaults: map<int, ReadFault>, threadId: int): ReadFault {
    if threadId in postFaults then postFaults[threadId] else NoFault
  }

  /** Loading the posts of `threadId` in `order` fails under `f`. */
  predicate PostsFail(users: seq<User>, posts: seq<PostRow>, threadId: int, order: Order, f: ReadFault) {
    FaultHit(f, |PostQuery(users, posts, threadId, order)|).Some?
  }

  /** The posts of a thread row listed by Latests load without a failure. */
  predicate LoadsNewestFirst(users: seq<User>, posts: seq<PostRow>, r: Selected, postFaults: map<int, ReadFault>) {
    !PostsFail(users, posts, r.id, Desc, PostFault(postFaults, r.id))
  }

  /** Latests returns its threads, with no error, exactly when no read fails. */
  predicate LatestsSucceed(users: seq<User>, threads: seq<ThreadRow>, posts: seq<PostRow>,
                           fault: ReadFault, postFaults: map<int, ReadFault>) {
    var q := LatestQuery(users, threads);
    && FaultHit(fault, |q|).None?
    && forall k :: 0 <= k < |q| ==> LoadsNewestFirst(users, posts, q[k], postFaults)
  }

  /** The driver error loading the posts of `threadId` in `order` stops at under `f`. */
  function PostsError(users: seq<User>, posts: seq<PostRow>, threadId: int, order: Order, f: ReadFault): Error
    requires PostsFail(users, posts, threadId, order, f)
  {
    Sql(DriverFailure(FaultHit(f, |PostQuery(users, posts, threadId, order)|).value))
  }

  /**
   * The error the Latests loop stops with, reading `rows` from row `i` on: the
   * first row whose scan or whose posts fail, wrapped with "creating thread", or
   * else the final rows.Err(); None when every read succeeds.
   */
  function ScanError(users: seq<User>, posts: seq<PostRow>, rows: seq<Selected>, fault: ReadFault,
                     postFaults: map<int, ReadFault>, i: nat): Option<Error>
    requires i <= |rows|
    decreases |rows| - i
  {
    if i == |rows| then
      if fault.IterationFails? then
        Some(Wrapped("iterating over rows for latests threads", Sql(DriverFailure(fault.code))))
      else None
    else if fault.ScanFails? && fault.row == i then
      Some(Wrapped("creating thread", Wrapped("scanning row", Sql(DriverFailure(fault.code)))))
    else if !LoadsNewestFirst(users, posts, rows[i], postFaults) then
      Some(Wrapped("creating thread", Wrapped(PostsContext(rows[i].id),
        PostsError(users, posts, rows[i].id, Desc, PostFault(postFaults, rows[i].id)))))
    else ScanError(users, posts, rows, fault, postFaults, i + 1)
  }

  /** The Latests loop stops with no error exactly when no scan, no post loading
      and not the final rows.Err() fails from row `i` on. */
  lemma {:induction false} ScanErrorNone(users: seq<User>, posts: seq<PostRow>, rows: seq<Selected>,
                                         fault: ReadFault, postFaults: map<int, ReadFault>, i: nat)
    requires i <= |rows|
    requires !fault.QueryFails?
    ensures ScanError(users, posts, rows, fault, postFaults, i).None? <==>
      && !fault.IterationFails?
      && !(fault.ScanFails? && i <= fault.row < |rows|)
      && forall k :: i <= k < |rows| ==> LoadsNewestFirst(users, posts, rows[k], postFaults)
    decreases |rows| - i
  {
    if i < |rows| {
      ScanErrorNone(users, posts, rows, fault, postFaults, i + 1);
    }
  }

  /** fmt.Errorf("getting posts with thread id %v: %w", t.ID, err) */
  function PostsContext(threadId: int): String {
    "getting posts with thread id " + Strconv.Itoa(threadId)
  }

  // ---------------------------------------------------------------- what the queries promise

  /** A thread's posts are exactly its post rows whose author exists, each scanned
      with that author. */
  lemma ThreadPostsMembers(users: seq<User>, posts: seq<PostRow>, threadId: int, order: Order, p: Post)
    ensures p in ThreadPosts(users, posts, threadId, order) <==>
      exists i :: 0 <= i < |posts| && JoinsPost(users, posts[i], threadId) && p == PostOf(SelectPost(users, posts[i]))
  {
    var join := PostJoin(users, posts, threadId);
    var q := PostQuery(users, posts, threadId, order);
    PostJoinMembers(users, posts, threadId);
    if p in ThreadPosts(users, posts, threadId, order) {
      var k :| 0 <= k < |q| && p == PostOf(q[k]);
      SortByMembers(join, Created, order, q[k]);
    }
    if exists i :: 0 <= i < |posts| && JoinsPost(users, posts[i], threadId) && p == PostOf(SelectPost(users, posts[i])) {
      var i :| 0 <= i < |posts| && JoinsPost(users, posts[i], threadId) && p == PostOf(SelectPost(users, posts[i]));
      SortByMembers(join, Created, order, SelectPost(users, posts[i]));
      var k :| 0 <= k < |q| && q[k] == SelectPost(users, posts[i]);
      assert ThreadPosts(users, posts, threadId, order)[k] == p;
    }
  }

  /** getPosts lists no post row twice: ORDER BY permutes the join, which repeats
      no row when post ids are distinct. */
  lemma PostQueryOnce(users: seq<User>, posts: seq<PostRow>, threadId: int, order: Order, x: Selected)
    requires DistinctIds(posts, PostKey)
    ensures multiset(PostQuery(users, posts, threadId, order))[x] <= 1
  {
    SortByCorrect(PostJoin(users, posts, threadId), Created, order);
    PostJoinOnce(users, posts, threadId, x);
  }

  /** A scanned post is its row, authored by the row's user with no password hash. */
  lemma SelectedPostIsRow(users: seq<User>, row: PostRow)
    requires Users.FindById(users, row.authorId).Some?
    ensures var p := PostOf(SelectPost(users, row));
      && p.id == row.id && p.body == row.body && p.created == row.created
      && p.author.id == row.authorId && p.author.hashedPassword == []
      && exists u :: u in users && u.id == row.authorId && p.author == User(u.id, u.username, u.email, [])
  {
    var u := Users.FindById(users, row.authorId).value;
    assert u in users;
  }

  /** getPosts lists the posts in the requested order of their creation time. */
  lemma ThreadPostsOrdered(users: seq<User>, posts: seq<PostRow>, threadId: int, order: Order)
    ensures var ps := ThreadPosts(users, posts, threadId, order);
      forall i, j :: 0 <= i < j < |ps| ==>
        if order == Asc then ps[i].created <= ps[j].created else ps[i].created >= ps[j].created
  {
    var q := PostQuery(users, posts, threadId, order);
    var ps := ThreadPosts(users, posts, threadId, order);
    SortByCorrect(PostJoin(users, posts, threadId), Created, order);
    forall i, j | 0 <= i < j < |ps|
      ensures if order == Asc then ps[i].created <= ps[j].created else ps[i].created >= ps[j].created
    {
      SortedByMeaning(q, Created, order, i, j);
    }
  }

  /** The post join keeps its rows in table order, so rows inserted at strictly
      increasing times come out at strictly increasing times. */
  lemma {:induction false} PostJoinIncreasing(users: seq<User>, posts: seq<PostRow>, threadId: int)
    requires forall i, j :: 0 <= i < j < |posts| ==> posts[i].created < posts[j].created
    ensures StrictlyIncreasing(PostJoin(users, posts, threadId), Created)
  {
    if posts != [] {
      var rest := PostJoin(users, posts[1..], threadId);
      PostJoinIncreasing(users, posts[1..], threadId);
      PostJoinMembers(users, posts[1..], threadId);
      forall k | 0 <= k < |rest| ensures posts[0].created < rest[k].created {
        assert rest[k] in rest;
        var i :| 0 <= i < |posts[1..]| && JoinsPost(users, posts[1..][i], threadId)
                 && rest[k] == SelectPost(users, posts[1..][i]);
        assert posts[1..][i] == posts[i + 1];
      }
      var r := PostJoin(users, posts, threadId);
      if JoinsPost(users, posts[0], threadId) {
        forall i, j | 0 <= i < j < |r| ensures r[i].created < r[j].created {
          assert r[j] == rest[j - 1];
          if i > 0 {
            assert r[i] == rest[i - 1];
          }
        }
      }
    }
  }

  /** When a thread's posts were written at strictly increasing times, the newest-first
      listing that Latests builds is exactly the reverse of the oldest-first one Get builds. */
  lemma NewestFirstReversesOldestFirst(users: seq<User>, posts: seq<PostRow>, threadId: int)
    requires forall i, j :: 0 <= i < j < |posts| ==> posts[i].created < posts[j].created
    ensures ThreadPosts(users, posts, threadId, Desc) == Reverse(ThreadPosts(users, posts, threadId, Asc))
  {
    var join := PostJoin(users, posts, threadId);
    PostJoinIncreasing(users, posts, threadId);
    SortStrictlyIncreasing(join, Created);
    assert PostQuery(users, posts, threadId, Desc) == Reverse(join);
    assert PostQuery(users, posts, threadId, Asc) == join;
  }

  /** Latests lists at most nine threads: all joined threads when there are fewer. */
  lemma LatestThreadsCount(users: seq<User>, threads: seq<ThreadRow>, posts: seq<PostRow>)
    ensures var n := |ThreadJoin(users, threads)|;
      |LatestThreads(users, threads, posts)| == if n < 9 then n else 9
  {
  }

  /** Every listed thread is a thread row whose author exists, carrying that author
      and its own posts newest first. */
  lemma LatestThreadsMembers(users: seq<User>, threads: seq<ThreadRow>, posts: seq<PostRow>, k: int)
    requires 0 <= k < |LatestThreads(users, threads, posts)|
    ensures var t := LatestThreads(users, threads, posts)[k];
      && t.posts == ThreadPosts(users, posts, t.id, Desc)
      && exists i :: 0 <= i < |threads| && JoinsThread(users, threads[i])
           && t == ThreadOf(SelectThread(users, threads[i]), t.posts)
  {
    var join := ThreadJoin(users, threads);
    var q := LatestQuery(users, threads);
    ThreadJoinMembers(users, threads);
    SortByMembers(join, Created, Desc, q[k]);
  }

  /** Latests lists threads newest first. */
  lemma LatestThreadsNewestFirst(users: seq<User>, threads: seq<ThreadRow>, posts: seq<PostRow>)
    ensures var ts := LatestThreads(users, threads, posts);
      forall i, j :: 0 <= i < j < |ts| ==> ts[i].created >= ts[j].created
  {
    var sorted := SortBy(ThreadJoin(users, threads), Created, Desc);
    var ts := LatestThreads(users, threads, posts);
    SortByCorrect(ThreadJoin(users, threads), Created, Desc);
    forall i, j | 0 <= i < j < |ts| ensures ts[i].created >= ts[j].created {
      SortedByMeaning(sorted, Created, Desc, i, j);
    }
  }

  /** The nine latest: a thread row whose author exists is either listed, or nine
      threads are listed and it is no newer than the last of them. */
  lemma LatestThreadsAreTheNewest(users: seq<User>, threads: seq<ThreadRow>, posts: seq<PostRow>, i: int)
    requires 0 <= i < |threads| && JoinsThread(users, threads[i])
    ensures var ts := LatestThreads(users, threads, posts);
      || (exists k :: 0 <= k < |ts| && ts[k] == WithNewestPosts(users, posts, SelectThread(users, threads[i])))
      || (|ts| == 9 && threads[i].created <= ts[8].created)
  {
    var join := ThreadJoin(users, threads);
    var sorted := SortBy(join, Created, Desc);
    var ts := LatestThreads(users, threads, posts);
    var x := SelectThread(users, threads[i]);
    ThreadJoinMembers(users, threads);
    SortByMembers(join, Created, Desc, x);
    var m :| 0 <= m < |sorted| && sorted[m] == x;
    if m < 9 {
      assert ts[m] == WithNewestPosts(users, posts, x);
    } else {
      SortByCorrect(join, Created, Desc);
      SortedByMeaning(sorted, Created, Desc, 8, m);
      assert ts[8].created == sorted[8].created;
    }
  }

  // ---------------------------------------------------------------- the store

  class ThreadModel {
    const db: Database

    constructor (db: Database)
      ensures this.db == db
    {
      this.db := db;
    }

    /**
     * Insert: INSERT with CURRENT_TIMESTAMP (`now`), then LastInsertId. The author
     * id is not checked (foreign keys are off). A LastInsertId failure returns 0 and
     * an error although the row has been inserted.
     */
    method Insert(title: String, authorId: int, now: int, exec: Io, lastInsertId: Io)
      returns (id: int, err: Option<Error>)
      requires db.Valid()
      modifies db
      ensures db.Valid()
      ensures db.users == old(db.users) && db.posts == old(db.posts)
      ensures err.Some? ==> id == 0
      ensures exec.Broken? ==>
        && db.threads == old(db.threads)
        && err == Some(Wrapped("inserting new thread in db", Sql(DriverFailure(exec.code))))
      ensures exec == Ready ==>
        && db.threads == old(db.threads) + [ThreadRow(NextId(old(db.threads), ThreadKey), title, authorId, now)]
        && (lastInsertId == Ready ==> id == NextId(old(db.threads), ThreadKey) && err == None)
        && (lastInsertId.Broken? ==>
              err == Some(Wrapped("getting last thread id", Sql(DriverFailure(lastInsertId.code)))))
    {
      if exec.Broken? {
        return 0, Some(Wrapped("inserting new thread in db", Sql(DriverFailure(exec.code))));
      }
      var row := ThreadRow(NextId(db.threads, ThreadKey), title, authorId, now);
      AppendFresh(db.threads, ThreadKey, row);
      db.threads := db.threads + [row];
      if lastInsertId.Broken? {
        return 0, Some(Wrapped("getting last thread id", Sql(DriverFailure(lastInsertId.code))));
      }
      return row.id, None;
    }

    /** getPosts: run the post query and scan every row; any failure returns no posts
        and the driver's error as it is. */
    method GetPosts(threadId: int, order: Order, fault: ReadFault) returns (posts: seq<Post>, err: Option<Error>)
      ensures !PostsFail(db.users, db.posts, threadId, order, fault) ==>
        posts == ThreadPosts(db.users, db.posts, threadId, order) && err == None
      ensures PostsFail(db.users, db.posts, threadId, order, fault) ==>
        var code := FaultHit(fault, |PostQuery(db.users, db.posts, threadId, order)|).value;
        posts == [] && err == Some(Sql(DriverFailure(code)))
    {
      if fault.QueryFails? {
        return [], Some(Sql(DriverFailure(fault.code)));
      }
      var rows := PostQuery(db.users, db.posts, threadId, order);
      posts := [];
      var i := 0;
      while i < |rows|
        invariant 0 <= i <= |rows|
        invariant !(fault.ScanFails? && fault.row < i)
        invariant posts == PostsOf(rows[..i])
      {
        if fault.ScanFails? && fault.row == i {
          return [], Some(Sql(DriverFailure(fault.code)));
        }
        var r := rows[i];
        var p := Post(r.id, r.text, User(r.userId, r.username, r.email, []), r.created);
        posts := posts + [p];
        i := i + 1;
      }
      if fault.IterationFails? {
        return [], Some(Sql(DriverFailure(fault.code)));
      }
      assert rows[..i] == rows;
      err := None;
    }

    /** newThread: scan one thread row, then load its posts in `order`. */
    method NewThread(scanned: Result<Selected, DbError>, order: Order, postsFault: ReadFault)
      returns (t: Option<Thread>, err: Option<Error>)
      ensures t.Some? <==> err.None?
      ensures err.Some? ==> !Is(err.value, ErrNoRecord)
      ensures err.Some? && Is(err.value, Sql(NoRows)) <==> scanned == Failure(NoRows)
      ensures scanned.Failure? ==> err == Some(Wrapped("scanning row", Sql(scanned.error)))
      ensures scanned.Success? && PostsFail(db.users, db.posts, scanned.value.id, order, postsFault) ==>
        err == Some(Wrapped(PostsContext(scanned.value.id),
          Sql(DriverFailure(FaultHit(postsFault, |PostQuery(db.users, db.posts, scanned.value.id, order)|).value))))
      ensures scanned.Success? && !PostsFail(db.users, db.posts, scanned.value.id, order, postsFault) ==>
        t == Some(ThreadOf(scanned.value, ThreadPosts(db.users, db.posts, scanned.value.id, order)))
    {
      if scanned.Failure? {
        return None, Some(Wrapped("scanning row", Sql(scanned.error)));
      }
      var r := scanned.value;
      var posts, e := GetPosts(r.id, order, postsFault);
      if e.Some? {
        return None, Some(Wrapped(PostsContext(r.id), e.value));
      }
      t := Some(Thread(r.id, r.text, User(r.userId, r.username, r.email, []), r.created, posts));
      err := None;
    }

    /**
     * Get: the thread with this id whose author exists, with its posts oldest first.
     * A missing row is reported as the wrapped sql.ErrNoRows, never as ErrNoRecord.
     */
    method Get(id: int, row: Io, postsFault: ReadFault) returns (t: Option<Thread>, err: Option<Error>)
      ensures t.Some? <==> err.None?
      ensures err.Some? ==> !Is(err.value, ErrNoRecord)
      ensures err.Some? && Is(err.value, Sql(NoRows)) <==> row == Ready && ThreadLookup(db.users, db.threads, id).None?
      ensures row.Broken? ==>
        err == Some(Wrapped("creating new thread", Wrapped("scanning row", Sql(DriverFailure(row.code)))))
      ensures row == Ready && ThreadLookup(db.users, db.threads, id).None? ==>
        err == Some(Wrapped("creating new thread", Wrapped("scanning row", Sql(NoRows))))
      ensures row == Ready && ThreadLookup(db.users, db.threads, id).Some? ==>
        var r := ThreadLookup(db.users, db.threads, id).value;
        && (!PostsFail(db.users, db.posts, r.id, Asc, postsFault) ==>
              t == Some(ThreadOf(r, ThreadPosts(db.users, db.posts, r.id, Asc))))
        && (PostsFail(db.users, db.posts, r.id, Asc, postsFault) ==>
              err == Some(Wrapped("creating new thread",
                Wrapped(PostsContext(r.id), PostsError(db.users, db.posts, r.id, Asc, postsFault)))))
    {
      var scanned: Result<Selected, DbError>;
      if row.Broken? {
        scanned := Failure(DriverFailure(row.code));
      } else {
        match ThreadLookup(db.users, db.threads, id)
        case None => scanned := Failure(NoRows);
        case Some(r) => scanned := Success(r);
      }
      var e;
      t, e := NewThread(scanned, Asc, postsFault);
      if e.Some? {
        return None, Some(Wrapped("creating new thread", e.value));
      }
      err := None;
    }

    /**
     * Get as evidently intended, following UserModel.Get: a missing row is
     * reported as ErrNoRecord, so that callers can tell "no such thread" apart
     * from a failure. Everything else is as in Get.
     */
    method GetIntended(id: int, row: Io, postsFault: ReadFault) returns (t: Option<Thread>, err: Option<Error>)
      ensures t.Some? <==> err.None?
      ensures err.Some? && Is(err.value, ErrNoRecord) <==> row == Ready && ThreadLookup(db.users, db.threads, id).None?
      ensures row == Ready && ThreadLookup(db.users, db.threads, id).None? ==> err == Some(ErrNoRecord)
      ensures row.Broken? ==>
        err == Some(Wrapped("creating new thread", Wrapped("scanning row", Sql(DriverFailure(row.code)))))
      ensures row == Ready && ThreadLookup(db.users, db.threads, id).Some? ==>
        var r := ThreadLookup(db.users, db.threads, id).value;
        && (!PostsFail(db.users, db.posts, r.id, Asc, postsFault) ==>
              t == Some(ThreadOf(r, ThreadPosts(db.users, db.posts, r.id, Asc))))
        && (PostsFail(db.users, db.posts, r.id, Asc, postsFault) ==>
              err == Some(Wrapped("creating new thread",
                Wrapped(PostsContext(r.id), PostsError(db.users, db.posts, r.id, Asc, postsFault)))))
    {
      t, err := Get(id, row, postsFault);
      if err.Some? && Is(err.value, Sql(NoRows)) {
        t, err := None, Some(ErrNoRecord);
        return;
      }
    }

    /** The `for rows.Next()` loop of Latests over the rows the query returned. */
    method ScanLatests(rows: seq<Selected>, fault: ReadFault, postFaults: map<int, ReadFault>)
      returns (threads: seq<Thread>, err: Option<Error>)
      requires !fault.QueryFails?
      ensures err.Some? ==> threads == []
      ensures err.None? <==>
        FaultHit(fault, |rows|).None? && forall k :: 0 <= k < |rows| ==> LoadsNewestFirst(db.users, db.posts, rows[k], postFaults)
      ensures err.None? ==> threads == LoadedNewestFirst(db.users, db.posts, rows)
      ensures err == ScanError(db.users, db.posts, rows, fault, postFaults, 0)
    {
      ScanErrorNone(db.users, db.posts, rows, fault, postFaults, 0);
      threads := [];
      var i := 0;
      while i < |rows|
        invariant 0 <= i <= |rows|
        invariant |threads| == i
        invariant forall k :: 0 <= k < i ==> threads[k] == WithNewestPosts(db.users, db.posts, rows[k])
        invariant ScanError(db.users, db.posts, rows, fault, postFaults, 0)
               == ScanError(db.users, db.posts, rows, fault, postFaults, i)
      {
        var scanned := if fault.ScanFails? && fault.row == i then Failure(DriverFailure(fault.code))
                       else Success(rows[i]);
        var t, e := NewThread(scanned, Desc, PostFault(postFaults, rows[i].id));
        if e.Some? {
          return [], Some(Wrapped("creating thread", e.value));
        }
        assert t.value == WithNewestPosts(db.users, db.posts, rows[i]);
        threads := threads + [t.value];
        i := i + 1;
      }
      if fault.IterationFails? {
        return [], Some(Wrapped("iterating over rows for latests threads", Sql(DriverFailure(fault.code))));
      }
      err := None;
    }

    /**
     * Latests: at most 9 threads whose author exists, newest first, each with its
     * posts newest first. Any failure returns no threads at all.
     */
    method Latests(fault: ReadFault, postFaults: map<int, ReadFault>) returns (threads: seq<Thread>, err: Option<Error>)
      ensures err.Some? ==> threads == []
      ensures err.None? <==> LatestsSucceed(db.users, db.threads, db.posts, fault, postFaults)
      ensures err.None? ==> threads == LatestThreads(db.users, db.threads, db.posts)
      ensures fault.QueryFails? ==> err == Some(Wrapped("getting latests threads", Sql(DriverFailure(fault.code))))
      ensures !fault.QueryFails? ==>
        err == ScanError(db.users, db.posts, LatestQuery(db.users, db.threads), fault, postFaults, 0)
    {
      if fault.QueryFails? {
        return [], Some(Wrapped("getting latests threads", Sql(DriverFailure(fault.code))));
      }
      var rows := LatestQuery(db.users, db.threads);
      threads, err := ScanLatests(rows, fault, postFaults);
    }
  }
}
