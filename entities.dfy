/**
 * The three tables of the entity store (User, Post, Comment), the autoincrement
 * counter of each, and the invariants the database keeps on them.
 */
module Entities {

  datatype Option<+T> = None | Some(value: T)

  /** A row of the User table; `password` holds the digest, never the plain text. */
  datatype User = User(email: string, name: Option<string>, password: string)

  /** A row of the Post table. */
  datatype Post = Post(title: string, content: Option<string>, published: bool, authorId: int)

  /** A row of the Comment table. */
  datatype Comment = Comment(content: string, postId: int, authorId: int)

  /** The whole database: each table keyed by id, and the next id each table will assign. */
  datatype Db = Db(
    users: map<int, User>,
    posts: map<int, Post>,
    comments: map<int, Comment>,
    nextUserId: int,
    nextPostId: int,
    nextCommentId: int)

  /** The database before any row was created: autoincrement ids start at 1. */
  const EMPTY: Db := Db(map[], map[], map[], 1, 1, 1)

  /** Which lookup failed; each handler answers it with status 404 and the text "<row> not found". */
  datatype Missing = UserMissing | PostMissing | AuthorMissing | CommentMissing

  /**
   * What a handler answers. `Conflict` is the 409 of user creation; `Failure` stands for
   * the error the database or bcrypt throws, which the handler's catch turns into 400.
   */
  datatype Response<+T> = Ok(value: T) | NotFound(missing: Missing) | Conflict | Failure

  /** The database after a handler ran, and what the handler answered. */
  datatype Outcome<+T> = Outcome(db: Db, response: Response<T>)

  /** JavaScript truthiness of an optional string field of a request body. */
  predicate Truthy(s: Option<string>)
  {
    s.Some? && s.value != ""
  }

  /** Every key of a table is below the id its autoincrement counter hands out next. */
  predicate KeysBelow<T>(m: map<int, T>, next: int)
  {
    forall k | k in m :: k < next
  }

  /** No row of `m'` is new or changed with respect to `m`. */
  predicate Submap<T(==)>(m': map<int, T>, m: map<int, T>)
  {
    forall k | k in m' :: k in m && m'[k] == m[k]
  }

  /** The email column is unique. */
  predicate EmailsUnique(users: map<int, User>)
  {
    forall a, b | a in users && b in users && users[a].email == users[b].email :: a == b
  }

  /** Some user other than `except` has email `email`. */
  predicate EmailHeldByOther(users: map<int, User>, except: int, email: string)
  {
    exists k | k in users && k != except :: users[k].email == email
  }

  /** Some user has email `email`: what `findUnique({where: {email}})` finds. */
  predicate EmailHeld(users: map<int, User>, email: string)
  {
    exists k | k in users :: users[k].email == email
  }

  /**
   * Every reference points at an id already handed out: a row is only created against a live
   * row, and autoincrement never hands an id out twice.
   */
  predicate RefsBelow(db: Db)
  {
    && (forall p | p in db.posts :: db.posts[p].authorId < db.nextUserId)
    && (forall c | c in db.comments :: db.comments[c].postId < db.nextPostId && db.comments[c].authorId < db.nextUserId)
  }

  /**
   * What the database guarantees of every state: autoincrement ids are fresh and never
   * reused, and emails are unique.
   */
  predicate Wf(db: Db)
  {
    && KeysBelow(db.users, db.nextUserId)
    && KeysBelow(db.posts, db.nextPostId)
    && KeysBelow(db.comments, db.nextCommentId)
    && RefsBelow(db)
    && EmailsUnique(db.users)
  }

  /** Referential integrity: every post's author and every comment's post and author are live rows. */
  predicate Integrity(db: Db)
  {
    && (forall p | p in db.posts :: db.posts[p].authorId in db.users)
    && (forall c | c in db.comments :: db.comments[c].postId in db.posts && db.comments[c].authorId in db.users)
  }

  /** The ids of the posts authored by `u`. */
  function PostsBy(posts: map<int, Post>, u: int): (ids: set<int>)
    ensures forall p :: p in ids <==> p in posts && posts[p].authorId == u
  {
    set p | p in posts && posts[p].authorId == u
  }
}
