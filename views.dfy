/**
 * The shapes the handlers answer with. The handlers of /api/users and the user summaries
 * embedded in posts and comments show a user only through `UserPublic`, which has no
 * password field: their `select` leaves the digest out. (`seed` is the exception: it answers
 * full rows.)
 * A listing is the set of the views it returns; the handlers leave the order to the database.
 */
module Views {
  import opened Entities

  /** A user as the API shows it: id, email and name (the timestamps are not modelled). */
  datatype UserPublic = UserPublic(id: int, email: string, name: Option<string>)

  /** The `post: {select: {id, title}}` summary embedded in a comment. */
  datatype PostSummary = PostSummary(id: int, title: string)

  /** A post with its author summary embedded (`include: {author: ...}`). */
  datatype PostView = PostView(
    id: int, title: string, content: Option<string>, published: bool, authorId: int,
    author: Option<UserPublic>)

  /** A comment's own columns, as `comments: true` embeds them in a post. */
  datatype CommentRow = CommentRow(id: int, content: string, postId: int, authorId: int)

  /** A comment with its author and post summaries embedded. */
  datatype CommentView = CommentView(
    id: int, content: string, postId: int, authorId: int,
    author: Option<UserPublic>, post: Option<PostSummary>)

  /** A post with its author and all of its comments, as `GET /api/posts/:id` answers. */
  datatype PostDetail = PostDetail(post: PostView, comments: set<CommentRow>)

  function PublicUser(users: map<int, User>, id: int): UserPublic
    requires id in users
  {
    UserPublic(id, users[id].email, users[id].name)
  }

  /** The embedded author summary: none when the referenced user row is gone. */
  function AuthorOf(users: map<int, User>, id: int): Option<UserPublic>
  {
    if id in users then Some(PublicUser(users, id)) else None
  }

  function PostSummaryOf(posts: map<int, Post>, id: int): Option<PostSummary>
  {
    if id in posts then Some(PostSummary(id, posts[id].title)) else None
  }

  function ViewPost(db: Db, id: int): PostView
    requires id in db.posts
  {
    var p := db.posts[id];
    PostView(id, p.title, p.content, p.published, p.authorId, AuthorOf(db.users, p.authorId))
  }

  function RowOf(comments: map<int, Comment>, id: int): CommentRow
    requires id in comments
  {
    var c := comments[id];
    CommentRow(id, c.content, c.postId, c.authorId)
  }

  function ViewComment(db: Db, id: int): CommentView
    requires id in db.comments
  {
    var c := db.comments[id];
    CommentView(id, c.content, c.postId, c.authorId, AuthorOf(db.users, c.authorId), PostSummaryOf(db.posts, c.postId))
  }

  /** Two keys of `m` never map to the same value. */
  ghost predicate Injective<V>(m: map<int, V>)
  {
    forall a, b | a in m && b in m && m[a] == m[b] :: a == b
  }

  /** An injective table of views has as many distinct views as keys. */
  lemma {:induction false} InjectiveValuesCard<V>(m: map<int, V>)
    requires Injective(m)
    ensures |m.Values| == |m|
    decreases |m|
  {
    if |m| > 0 {
      if forall j :: j !in m {
        assert false;
      }
      var k :| k in m;
      var rest := m - {k};
      forall v | v in m.Values ensures v in rest.Values || v == m[k] {
        if forall j :: j in m ==> m[j] != v {
          assert false;
        }
        var j :| j in m && m[j] == v;
        if j != k {
          assert rest[j] == v;
        }
      }
      assert m.Values == rest.Values + {m[k]};
      forall j | j in rest ensures rest[j] != m[k] {
        assert j != k;
      }
      assert m[k] !in rest.Values;
      InjectiveValuesCard(rest);
    }
  }
}
