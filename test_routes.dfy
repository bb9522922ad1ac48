/**
 * The fixture handlers of /api/test (src/routes/testRoutes.ts): `clear` empties the three
 * tables, `seed` empties them and inserts three users, three posts and three comments.
 */
module TestRoutes {
  import opened Entities

  /** The plain-text password every seeded user gets (stored as its digest). */
  const SEED_PASSWORD := "password123"

  /** The literal columns of the fixture rows. */
  const JOHN_EMAIL := "john@example.com"
  const JANE_EMAIL := "jane@example.com"
  const BOB_EMAIL := "bob@example.com"
  const JOHN_NAME := "John Doe"
  const JANE_NAME := "Jane Smith"
  const BOB_NAME := "Bob Johnson"
  const FIRST_TITLE := "First Post"
  const SECOND_TITLE := "Second Post"
  const DRAFT_TITLE := "Draft Post"
  const FIRST_CONTENT := "This is the first test post content."
  const SECOND_CONTENT := "This is the second test post content."
  const DRAFT_CONTENT := "This is a draft post that is not published yet."
  const GREAT_COMMENT := "Great post!"
  const LEARNED_COMMENT := "I learned a lot from this."
  const MORE_COMMENT := "Looking forward to more content like this!"

  /** The users `seed` creates, in order: John, Jane, Bob. */
  function SeedUsers(hash: string -> string): (rows: seq<User>)
    ensures |rows| == 3
  {
    [ User(JOHN_EMAIL, Some(JOHN_NAME), hash(SEED_PASSWORD)),
      User(JANE_EMAIL, Some(JANE_NAME), hash(SEED_PASSWORD)),
      User(BOB_EMAIL, Some(BOB_NAME), hash(SEED_PASSWORD)) ]
  }

  /** The posts `seed` creates for the ids its users got: two published, one draft by John. */
  function SeedPosts(users: seq<int>): (rows: seq<Post>)
    requires |users| == 3
    ensures |rows| == 3
  {
    [ Post(FIRST_TITLE, Some(FIRST_CONTENT), true, users[0]),
      Post(SECOND_TITLE, Some(SECOND_CONTENT), true, users[1]),
      Post(DRAFT_TITLE, Some(DRAFT_CONTENT), false, users[0]) ]
  }

  /** The comments `seed` creates for the ids its users and posts got. */
  function SeedComments(users: seq<int>, posts: seq<int>): (rows: seq<Comment>)
    requires |users| == 3 && |posts| == 3
    ensures |rows| == 3
  {
    [ Comment(GREAT_COMMENT, posts[0], users[1]),
      Comment(LEARNED_COMMENT, posts[0], users[2]),
      Comment(MORE_COMMENT, posts[1], users[0]) ]
  }

  /**
   * What `seed` answers: the rows the `create` calls returned, in creation order, each id
   * beside its row. These creates have no `select`, so the user rows carry the password digest.
   */
  datatype Seeded = Seeded(
    users: seq<int>, posts: seq<int>, comments: seq<int>,
    userRows: seq<User>, postRows: seq<Post>, commentRows: seq<Comment>)

  /** The answer of `seed` when its three batches got the ids from `u`, `p` and `c`. */
  function SeededFor(u: int, p: int, c: int, hash: string -> string): Seeded
  {
    var us, ps := [u, u + 1, u + 2], [p, p + 1, p + 2];
    Seeded(us, ps, [c, c + 1, c + 2], SeedUsers(hash), SeedPosts(us), SeedComments(us, ps))
  }

  /** Three rows stored under three consecutive autoincrement ids starting at `first`. */
  function Rows3<T>(first: int, rows: seq<T>): (m: map<int, T>)
    requires |rows| == 3
    ensures m.Keys == {first, first + 1, first + 2} && |m| == 3
    ensures m[first] == rows[0] && m[first + 1] == rows[1] && m[first + 2] == rows[2]
  {
    var m := map[first := rows[0], first + 1 := rows[1], first + 2 := rows[2]];
    assert m.Keys == {first, first + 1, first + 2};
    m
  }

  /** `Rows3` is what three inserts at consecutive ids leave in an empty table. */
  lemma Rows3Inserted<T>(first: int, rows: seq<T>)
    requires |rows| == 3
    ensures Rows3(first, rows) == map[][first := rows[0]][first + 1 := rows[1]][first + 2 := rows[2]]
  {
  }

  /**
   * POST /api/test/clear: comments, then posts, then users are deleted. `deleteMany`
   * leaves the autoincrement counters where they were.
   */
  function Clear(db: Db): (db': Db)
    ensures db'.users == map[] && db'.posts == map[] && db'.comments == map[]
    ensures db'.nextUserId == db.nextUserId && db'.nextPostId == db.nextPostId && db'.nextCommentId == db.nextCommentId
    ensures Wf(db') && Integrity(db')
  {
    db.(comments := map[], posts := map[], users := map[])
  }

  /**
   * The database `seed` leaves behind when the autoincrement counters stand at `u`, `p` and
   * `c`: the fixture rows under the next three ids of each table, each post referencing the
   * ids its users got and each comment the ids its post and author got.
   */
  function Fixture(u: int, p: int, c: int, hash: string -> string): Db
  {
    var users := [u, u + 1, u + 2];
    Db(Rows3(u, SeedUsers(hash)),
       Rows3(p, SeedPosts(users)),
       Rows3(c, SeedComments(users, [p, p + 1, p + 2])),
       u + 3, p + 3, c + 3)
  }

  /**
   * POST /api/test/seed: `Clear`, then the users, then the posts, then the comments, each
   * table taking ids from where its counter stands after the clear.
   */
  function Seed(db: Db, hash: string -> string): (o: Outcome<Seeded>)
    ensures o.response.Ok?
    ensures var ids := o.response.value;
      && |ids.users| == 3 && |ids.posts| == 3 && |ids.comments| == 3
      && |ids.userRows| == 3 && |ids.postRows| == 3 && |ids.commentRows| == 3
  {
    var cleared := Clear(db);
    var u, p, c := cleared.nextUserId, cleared.nextPostId, cleared.nextCommentId;
    Outcome(Fixture(u, p, c, hash), Ok(SeededFor(u, p, c, hash)))
  }

  /** `Fixture` spelled out table by table, for the ids a caller already holds. */
  lemma FixtureRows(u: int, p: int, c: int, hash: string -> string)
    ensures Fixture(u, p, c, hash) == Db(Rows3(u, SeedUsers(hash)), Rows3(p, SeedPosts([u, u + 1, u + 2])),
      Rows3(c, SeedComments([u, u + 1, u + 2], [p, p + 1, p + 2])), u + 3, p + 3, c + 3)
  {
  }

  /** `seed` stores `Fixture` for the counters it finds, and answers with the ids it used. */
  lemma SeedIsFixture(db: Db, hash: string -> string, u: int, p: int, c: int)
    requires u == db.nextUserId && p == db.nextPostId && c == db.nextCommentId
    ensures Seed(db, hash) == Outcome(Fixture(u, p, c, hash), Ok(SeededFor(u, p, c, hash)))
  {
  }

  /** The three seeded emails are distinct, so the seed never trips the unique email column. */
  lemma SeedEmailsDistinct(hash: string -> string)
    ensures var rows := SeedUsers(hash);
      rows[0].email != rows[1].email && rows[0].email != rows[2].email && rows[1].email != rows[2].email
  {
    var rows := SeedUsers(hash);
    assert rows[0].email[1] == 'o' && rows[1].email[1] == 'a';
    assert rows[2].email[0] == 'b' && rows[0].email[0] == 'j' && rows[1].email[0] == 'j';
  }

  /** Three users with pairwise distinct emails keep the email column unique. */
  lemma Rows3EmailsUnique(first: int, rows: seq<User>)
    requires |rows| == 3
    requires rows[0].email != rows[1].email && rows[0].email != rows[2].email && rows[1].email != rows[2].email
    ensures EmailsUnique(Rows3(first, rows))
  {
    var m := Rows3(first, rows);
    forall a, b | a in m && b in m && m[a].email == m[b].email ensures a == b {
      assert a - first in {0, 1, 2} && b - first in {0, 1, 2};
      assert m[a] == rows[a - first] && m[b] == rows[b - first];
    }
  }

  /** After `seed` the store is well formed and every reference points at a seeded row. */
  lemma SeedWellFormed(db: Db, hash: string -> string)
    ensures Wf(Seed(db, hash).db) && Integrity(Seed(db, hash).db)
  {
    FixtureWf(db.nextUserId, db.nextPostId, db.nextCommentId, hash);
    FixtureIntegrity(db.nextUserId, db.nextPostId, db.nextCommentId, hash);
  }

  lemma FixtureWf(u: int, p: int, c: int, hash: string -> string)
    ensures Wf(Fixture(u, p, c, hash))
  {
    var users, posts := [u, u + 1, u + 2], [p, p + 1, p + 2];
    FixtureRows(u, p, c, hash);
    SeedEmailsDistinct(hash);
    Rows3EmailsUnique(u, SeedUsers(hash));
    Rows3Below(u, SeedUsers(hash));
    Rows3Below(p, SeedPosts(users));
    Rows3Below(c, SeedComments(users, posts));
    PostRowsBelow(p, SeedPosts(users), u + 3);
    CommentRowsBelow(c, SeedComments(users, posts), p + 3, u + 3);
  }

  /** Three rows stored from `first` leave every id below `first + 3`. */
  lemma Rows3Below<T>(first: int, rows: seq<T>)
    requires |rows| == 3
    ensures KeysBelow(Rows3(first, rows), first + 3)
  {
  }

  /** Three posts whose authors are below `nextUser` keep that bound once stored. */
  lemma PostRowsBelow(first: int, rows: seq<Post>, nextUser: int)
    requires |rows| == 3 && forall i | 0 <= i < 3 :: rows[i].authorId < nextUser
    ensures var m := Rows3(first, rows); forall k | k in m :: m[k].authorId < nextUser
  {
  }

  /** Three comments whose posts and authors are below the counters keep those bounds once stored. */
  lemma CommentRowsBelow(first: int, rows: seq<Comment>, nextPost: int, nextUser: int)
    requires |rows| == 3 && forall i | 0 <= i < 3 :: rows[i].postId < nextPost && rows[i].authorId < nextUser
    ensures var m := Rows3(first, rows); forall k | k in m :: m[k].postId < nextPost && m[k].authorId < nextUser
  {
  }

  lemma FixtureIntegrity(u: int, p: int, c: int, hash: string -> string)
    ensures Integrity(Fixture(u, p, c, hash))
  {
  }

  /**
   * After `seed` each table holds exactly the three rows the handler created, under the ids
   * it answers with, in creation order; the posts reference the new user ids and the
   * comments the new post and user ids. The rows it answers are the rows it stored.
   */
  lemma SeedContents(db: Db, hash: string -> string)
    ensures var o := Seed(db, hash);
      var ids := o.response.value;
      var users, posts, comments := SeedUsers(hash), SeedPosts(ids.users), SeedComments(ids.users, ids.posts);
      && o.db.users.Keys == {ids.users[0], ids.users[1], ids.users[2]}
      && o.db.users[ids.users[0]] == users[0] && o.db.users[ids.users[1]] == users[1] && o.db.users[ids.users[2]] == users[2]
      && o.db.posts.Keys == {ids.posts[0], ids.posts[1], ids.posts[2]}
      && o.db.posts[ids.posts[0]] == posts[0] && o.db.posts[ids.posts[1]] == posts[1] && o.db.posts[ids.posts[2]] == posts[2]
      && o.db.comments.Keys == {ids.comments[0], ids.comments[1], ids.comments[2]}
      && o.db.comments[ids.comments[0]] == comments[0] && o.db.comments[ids.comments[1]] == comments[1]
      && o.db.comments[ids.comments[2]] == comments[2]
      && |o.db.users| == 3 && |o.db.posts| == 3 && |o.db.comments| == 3
      && ids.userRows == users && ids.postRows == posts && ids.commentRows == comments
  {
    var u, p, c := db.nextUserId, db.nextPostId, db.nextCommentId;
    assert Seed(db, hash) == Outcome(Fixture(u, p, c, hash), Ok(SeededFor(u, p, c, hash)));
    FixtureContents(u, p, c, hash);
  }

  lemma FixtureContents(u: int, p: int, c: int, hash: string -> string)
    ensures var d := Fixture(u, p, c, hash);
      var users, posts, comments := SeedUsers(hash), SeedPosts([u, u + 1, u + 2]), SeedComments([u, u + 1, u + 2], [p, p + 1, p + 2]);
      && d.users.Keys == {u, u + 1, u + 2}
      && d.users[u] == users[0] && d.users[u + 1] == users[1] && d.users[u + 2] == users[2]
      && d.posts.Keys == {p, p + 1, p + 2}
      && d.posts[p] == posts[0] && d.posts[p + 1] == posts[1] && d.posts[p + 2] == posts[2]
      && d.comments.Keys == {c, c + 1, c + 2}
      && d.comments[c] == comments[0] && d.comments[c + 1] == comments[1] && d.comments[c + 2] == comments[2]
      && |d.users| == 3 && |d.posts| == 3 && |d.comments| == 3
  {
  }

  /**
   * Unlike every handler of /api/users, `seed` answers full user rows: each carries the
   * digest of the fixture password.
   */
  lemma SeedShowsDigests(db: Db, hash: string -> string)
    ensures var rows := Seed(db, hash).response.value.userRows;
      forall i | 0 <= i < |rows| :: rows[i].password == hash(SEED_PASSWORD)
  {
    var rows := Seed(db, hash).response.value.userRows;
    assert rows == SeedUsers(hash);
  }

  /**
   * `clear` deletes in the only order that never leaves a dangling reference behind:
   * after each of its three steps referential integrity still holds.
   */
  lemma ClearStepsKeepIntegrity(db: Db)
    requires Integrity(db)
    ensures Integrity(db.(comments := map[]))
    ensures Integrity(db.(comments := map[], posts := map[]))
    ensures Integrity(db.(comments := map[], posts := map[], users := map[]))
  {
  }

  /** Seeding depends on the prior store only through its id counters: its rows are all discarded. */
  lemma SeedForgetsPriorRows(db1: Db, db2: Db, hash: string -> string)
    requires db1.nextUserId == db2.nextUserId && db1.nextPostId == db2.nextPostId && db1.nextCommentId == db2.nextCommentId
    ensures Seed(db1, hash) == Seed(db2, hash)
  {
    var u, p, c := db1.nextUserId, db1.nextPostId, db1.nextCommentId;
    SeedIsFixture(db1, hash, u, p, c);
    SeedIsFixture(db2, hash, u, p, c);
  }
}
