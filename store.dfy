/**
 * The database the routers share, as one object whose tables the handlers update one Prisma
 * call at a time. Each handler method is proved to leave the store in the state, and to
 * answer what, the matching function of `UserRoutes`, `PostRoutes`, `CommentRoutes` or
 * `TestRoutes` gives for the state it started from; the properties of those functions then
 * hold of the store.
 */
module EntityStore {
  import opened Entities
  import opened Views
  import UserRoutes
  import PostRoutes
  import CommentRoutes
  import TestRoutes

  class Store {
    /** bcrypt with a fixed cost: the salt it draws is not modelled, so a digest is a function of the text. */
    const hash: string -> string

    var users: map<int, User>
    var posts: map<int, Post>
    var comments: map<int, Comment>
    var nextUserId: int
    var nextPostId: int
    var nextCommentId: int

    /** The tables and counters as a value. */
    function State(): Db
      reads this
    {
      Db(users, posts, comments, nextUserId, nextPostId, nextCommentId)
    }

    predicate Valid()
      reads this
    {
      Wf(State())
    }

    /** A fresh database: no rows, every counter at 1. */
    constructor (hash: string -> string)
      ensures Valid() && State() == EMPTY && this.hash == hash
    {
      this.hash := hash;
      users, posts, comments := map[], map[], map[];
      nextUserId, nextPostId, nextCommentId := 1, 1, 1;
    }

    /** `prisma.user.create`: the row gets the next id; the unique email column must accept it. */
    method InsertUser(u: User) returns (id: int)
      requires Valid() && !EmailHeld(users, u.email)
      modifies this
      ensures Valid()
      ensures id == old(nextUserId) && id !in old(users)
      ensures State() == old(State()).(users := old(users)[id := u], nextUserId := id + 1)
    {
      id := nextUserId;
      users := users[id := u];
      nextUserId := id + 1;
    }

    /** `prisma.post.create`: the row gets the next id; its author id was handed out before. */
    method InsertPost(p: Post) returns (id: int)
      requires Valid() && p.authorId < nextUserId
      modifies this
      ensures Valid()
      ensures id == old(nextPostId) && id !in old(posts)
      ensures State() == old(State()).(posts := old(posts)[id := p], nextPostId := id + 1)
    {
      id := nextPostId;
      posts := posts[id := p];
      nextPostId := id + 1;
    }

    /** `prisma.comment.create`: the row gets the next id; its post and author ids were handed out before. */
    method InsertComment(c: Comment) returns (id: int)
      requires Valid() && c.postId < nextPostId && c.authorId < nextUserId
      modifies this
      ensures Valid()
      ensures id == old(nextCommentId) && id !in old(comments)
      ensures State() == old(State()).(comments := old(comments)[id := c], nextCommentId := id + 1)
    {
      id := nextCommentId;
      comments := comments[id := c];
      nextCommentId := id + 1;
    }

    /** POST /api/users: look the email up, hash the password, create the row. */
    method CreateUser(email: Option<string>, name: Option<string>, password: Option<string>) returns (r: Response<UserPublic>)
      requires Valid()
      modifies this
      ensures Valid()
      ensures Outcome(State(), r) == UserRoutes.CreateUser(old(State()), hash, email, name, password)
    {
      if email.None? {
        return Failure;
      }
      if EmailHeld(users, email.value) {
        return Conflict;
      }
      if password.None? {
        return Failure;
      }
      var id := InsertUser(User(email.value, name, hash(password.value)));
      r := Ok(PublicUser(users, id));
    }

    /** PUT /api/users/:id: look the user up, collect the truthy fields, write them. */
    method UpdateUser(id: int, email: Option<string>, name: Option<string>, password: Option<string>) returns (r: Response<UserPublic>)
      requires Valid()
      modifies this
      ensures Valid()
      ensures Outcome(State(), r) == UserRoutes.UpdateUser(old(State()), hash, id, email, name, password)
    {
      if id !in users {
        return NotFound(UserMissing);
      }
      var u := users[id];
      if Truthy(email) {
        if EmailHeldByOther(users, id, email.value) {
          // the unique email column rejects the update
          return Failure;
        }
        u := u.(email := email.value);
      }
      if Truthy(name) {
        u := u.(name := name);
      }
      if Truthy(password) {
        u := u.(password := hash(password.value));
      }
      users := users[id := u];
      r := Ok(PublicUser(users, id));
    }

    /**
     * DELETE /api/users/:id: the comments by the user, then the comments on the user's posts
     * (when there are any), then the posts, then the user. With referential integrity before
     * the call, no step leaves a dangling reference, so no foreign key can reject one.
     */
    method DeleteUser(id: int) returns (r: Response<()>)
      requires Valid()
      modifies this
      ensures Valid()
      ensures Outcome(State(), r) == UserRoutes.DeleteUser(old(State()), id)
      ensures Integrity(old(State())) ==> Integrity(State())
    {
      if id !in users {
        return NotFound(UserMissing);
      }
      comments := UserRoutes.WithoutCommentsBy(comments, id);
      var userPosts := PostsBy(posts, id);
      if |userPosts| > 0 {
        comments := UserRoutes.WithoutCommentsOn(comments, userPosts);
      } else {
        UserRoutes.WithoutCommentsOnNothing(comments);
      }
      posts := UserRoutes.WithoutPostsBy(posts, id);
      users := users - {id};
      r := Ok(());
    }

    /** POST /api/posts: look the author up, then create the post. */
    method CreatePost(title: Option<string>, content: Option<string>, published: Option<bool>, authorId: int) returns (r: Response<PostView>)
      requires Valid()
      modifies this
      ensures Valid()
      ensures Outcome(State(), r) == PostRoutes.CreatePost(old(State()), title, content, published, authorId)
    {
      if authorId !in users {
        return NotFound(AuthorMissing);
      }
      if title.None? {
        return Failure;
      }
      var id := InsertPost(Post(title.value, content, published == Some(true), authorId));
      r := Ok(ViewPost(State(), id));
    }

    /** PUT /api/posts/:id: look the post up, then write the supplied fields. */
    method UpdatePost(id: int, title: Option<string>, content: Option<string>, published: Option<bool>) returns (r: Response<PostView>)
      requires Valid()
      modifies this
      ensures Valid()
      ensures Outcome(State(), r) == PostRoutes.UpdatePost(old(State()), id, title, content, published)
    {
      if id !in posts {
        return NotFound(PostMissing);
      }
      var p := posts[id];
      if title.Some? {
        p := p.(title := title.value);
      }
      if content.Some? {
        p := p.(content := content);
      }
      if published.Some? {
        p := p.(published := published.value);
      }
      posts := posts[id := p];
      r := Ok(ViewPost(State(), id));
    }

    /** DELETE /api/posts/:id: look the post up, then delete that row. */
    method DeletePost(id: int) returns (r: Response<()>)
      requires Valid()
      modifies this
      ensures Valid()
      ensures Outcome(State(), r) == PostRoutes.DeletePost(old(State()), id)
    {
      if id !in posts {
        return NotFound(PostMissing);
      }
      posts := posts - {id};
      r := Ok(());
    }

    /** POST /api/comments: look the post up, then the author, then create the comment. */
    method CreateComment(content: Option<string>, postId: int, authorId: int) returns (r: Response<CommentView>)
      requires Valid()
      modifies this
      ensures Valid()
      ensures Outcome(State(), r) == CommentRoutes.CreateComment(old(State()), content, postId, authorId)
    {
      if postId !in posts {
        return NotFound(PostMissing);
      }
      if authorId !in users {
        return NotFound(AuthorMissing);
      }
      if content.None? {
        return Failure;
      }
      var id := InsertComment(Comment(content.value, postId, authorId));
      r := Ok(ViewComment(State(), id));
    }

    /** PUT /api/comments/:id: look the comment up, then write the content if one is given. */
    method UpdateComment(id: int, content: Option<string>) returns (r: Response<CommentView>)
      requires Valid()
      modifies this
      ensures Valid()
      ensures Outcome(State(), r) == CommentRoutes.UpdateComment(old(State()), id, content)
    {
      if id !in comments {
        return NotFound(CommentMissing);
      }
      var c := comments[id];
      if content.Some? {
        c := c.(content := content.value);
      }
      comments := comments[id := c];
      r := Ok(ViewComment(State(), id));
    }

    /** DELETE /api/comments/:id: look the comment up, then delete that row. */
    method DeleteComment(id: int) returns (r: Response<()>)
      requires Valid()
      modifies this
      ensures Valid()
      ensures Outcome(State(), r) == CommentRoutes.DeleteComment(old(State()), id)
    {
      if id !in comments {
        return NotFound(CommentMissing);
      }
      comments := comments - {id};
      r := Ok(());
    }

    /** POST /api/test/clear: every comment, then every post, then every user. */
    method Clear()
      requires Valid()
      modifies this
      ensures Valid()
      ensures State() == TestRoutes.Clear(old(State()))
    {
      comments := map[];
      posts := map[];
      users := map[];
    }

    /** The three `create` calls of one `Promise.all` of `seed`, into a table `Clear` emptied, in array order. */
    method InsertUsers3(rows: seq<User>) returns (first: int)
      requires Valid() && users == map[] && |rows| == 3
      requires rows[0].email != rows[1].email && rows[0].email != rows[2].email && rows[1].email != rows[2].email
      modifies this
      ensures Valid()
      ensures first == old(nextUserId)
      ensures State() == old(State()).(users := TestRoutes.Rows3(first, rows), nextUserId := first + 3)
    {
      var a := InsertUser(rows[0]);
      var b := InsertUser(rows[1]);
      var c := InsertUser(rows[2]);
      first := a;
      TestRoutes.Rows3Inserted(a, rows);
    }

    method InsertPosts3(rows: seq<Post>) returns (first: int)
      requires Valid() && posts == map[] && |rows| == 3
      requires forall i | 0 <= i < 3 :: rows[i].authorId < nextUserId
      modifies this
      ensures Valid()
      ensures first == old(nextPostId)
      ensures State() == old(State()).(posts := TestRoutes.Rows3(first, rows), nextPostId := first + 3)
    {
      var a := InsertPost(rows[0]);
      var b := InsertPost(rows[1]);
      var c := InsertPost(rows[2]);
      first := a;
      TestRoutes.Rows3Inserted(a, rows);
    }

    method InsertComments3(rows: seq<Comment>) returns (first: int)
      requires Valid() && comments == map[] && |rows| == 3
      requires forall i | 0 <= i < 3 :: rows[i].postId < nextPostId && rows[i].authorId < nextUserId
      modifies this
      ensures Valid()
      ensures first == old(nextCommentId)
      ensures State() == old(State()).(comments := TestRoutes.Rows3(first, rows), nextCommentId := first + 3)
    {
      var a := InsertComment(rows[0]);
      var b := InsertComment(rows[1]);
      var c := InsertComment(rows[2]);
      first := a;
      TestRoutes.Rows3Inserted(a, rows);
    }

    /** POST /api/test/seed: `Clear`, then the users, the posts and the comments. */
    method Seed() returns (r: Response<TestRoutes.Seeded>)
      requires Valid()
      modifies this
      ensures Valid()
      ensures Outcome(State(), r) == TestRoutes.Seed(old(State()), hash)
    {
      ghost var start := State();
      Clear();
      TestRoutes.SeedEmailsDistinct(hash);
      var u := InsertUsers3(TestRoutes.SeedUsers(hash));
      var userIds := [u, u + 1, u + 2];
      var p := InsertPosts3(TestRoutes.SeedPosts(userIds));
      var postIds := [p, p + 1, p + 2];
      var c := InsertComments3(TestRoutes.SeedComments(userIds, postIds));
      r := Ok(TestRoutes.SeededFor(u, p, c, hash));
      assert State() == Db(TestRoutes.Rows3(u, TestRoutes.SeedUsers(hash)), TestRoutes.Rows3(p, TestRoutes.SeedPosts(userIds)),
        TestRoutes.Rows3(c, TestRoutes.SeedComments(userIds, postIds)), u + 3, p + 3, c + 3);
      TestRoutes.FixtureRows(u, p, c, hash);
      TestRoutes.SeedIsFixture(start, hash, u, p, c);
    }
  }
}
