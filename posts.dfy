/**
 * The post store: inserting a post into a thread. Reading posts back is the
 * thread store's post query.
 */
module Posts {
  import opened Wrappers
  import opened Unicode
  import opened Database
  import opened Queries
  import Threads

  class PostModel {
    const db: Database

    constructor (db: Database)
      ensures this.db == db
    {
      this.db := db;
    }

    /**
     * Insert: INSERT with CURRENT_TIMESTAMP (`now`), then LastInsertId. Neither the
     * thread nor the author is checked (foreign keys are off), and driver errors
     * are returned as they are, without context. A LastInsertId failure returns 0
     * and an error although the row has been inserted.
     */
    method Insert(body: String, threadId: int, authorId: int, now: int, exec: Io, lastInsertId: Io)
      returns (id: int, err: Option<Error>)
      requires db.Valid()
      modifies db
      ensures db.Valid()
      ensures db.users == old(db.users) && db.threads == old(db.threads)
      ensures err.Some? ==> id == 0
      ensures exec.Broken? ==>
        && db.posts == old(db.posts)
        && err == Some(Sql(DriverFailure(exec.code)))
      ensures exec == Ready ==>
        && db.posts == old(db.posts) + [PostRow(NextId(old(db.posts), PostKey), body, authorId, threadId, now)]
        && (lastInsertId == Ready ==> id == NextId(old(db.posts), PostKey) && err == None)
        && (lastInsertId.Broken? ==> err == Some(Sql(DriverFailure(lastInsertId.code))))
    {
      if exec.Broken? {
        return 0, Some(Sql(DriverFailure(exec.code)));
      }
      var row := PostRow(NextId(db.posts, PostKey), body, authorId, threadId, now);
      AppendFresh(db.posts, PostKey, row);
      db.posts := db.posts + [row];
      if lastInsertId.Broken? {
        return 0, Some(Sql(DriverFailure(lastInsertId.code)));
      }
      return row.id, None;
    }
  }

  /**
   * What one inserted row does to a thread's listing: the posts listed before are
   * still listed, and the new post is listed exactly when it belongs to that thread
   * and its author exists. Nothing else appears.
   */
  lemma InsertedPostListed(users: seq<User>, posts: seq<PostRow>, row: PostRow, threadId: int, order: Order, p: Threads.Post)
    ensures p in Threads.ThreadPosts(users, posts + [row], threadId, order) <==>
      || p in Threads.ThreadPosts(users, posts, threadId, order)
      || (Threads.JoinsPost(users, row, threadId) && p == Threads.PostOf(Threads.SelectPost(users, row)))
  {
    var after := posts + [row];
    Threads.ThreadPostsMembers(users, after, threadId, order, p);
    Threads.ThreadPostsMembers(users, posts, threadId, order, p);
    if p in Threads.ThreadPosts(users, posts, threadId, order) {
      var i :| 0 <= i < |posts| && Threads.JoinsPost(users, posts[i], threadId)
               && p == Threads.PostOf(Threads.SelectPost(users, posts[i]));
      assert after[i] == posts[i];
    }
    if Threads.JoinsPost(users, row, threadId) && p == Threads.PostOf(Threads.SelectPost(users, row)) {
      assert after[|posts|] == row;
    }
    if p in Threads.ThreadPosts(users, after, threadId, order) {
      var i :| 0 <= i < |after| && Threads.JoinsPost(users, after[i], threadId)
               && p == Threads.PostOf(Threads.SelectPost(users, after[i]));
      if i < |posts| {
        assert after[i] == posts[i];
      }
    }
  }
}
