/**
 * What the end-to-end suites observe after `seed`. `TestRoutes.SeedIsFixture` shows that
 * `seed` leaves `TestRoutes.Fixture(u, p, c, hash)` behind, where `u`, `p` and `c` are the
 * counters it found and hence the ids of John, of "First Post" and of the first comment; the
 * lemmas below are stated for every such store: the listings, the lookups and the updates
 * the suites perform, and the cascade of deleting the user who wrote most of the fixture.
 */
module Scenarios {
  import opened Entities
  import opened Views
  import UserRoutes
  import PostRoutes
  import TestRoutes

  /** GET /api/users after `seed`: three users, John, Jane and Bob. */
  lemma SeededUsersListed(u: int, p: int, c: int, hash: string -> string)
    ensures var r := UserRoutes.ListUsers(TestRoutes.Fixture(u, p, c, hash));
      && |r| == 3
      && (set v | v in r :: v.email) == {"john@example.com", "jane@example.com", "bob@example.com"}
  {
    var d := TestRoutes.Fixture(u, p, c, hash);
    TestRoutes.FixtureContents(u, p, c, hash);
    var r := UserRoutes.ListUsers(d);
    assert PublicUser(d.users, u) in r && PublicUser(d.users, u + 1) in r && PublicUser(d.users, u + 2) in r;
    var emails := set v | v in r :: v.email;
    forall e | e in emails ensures e in {"john@example.com", "jane@example.com", "bob@example.com"} {
      var v :| v in r && v.email == e;
      assert v.id == u || v.id == u + 1 || v.id == u + 2;
    }
  }

  /** GET /api/users/:id for the first seeded user: John, and no password. */
  lemma SeededJohnFound(u: int, p: int, c: int, hash: string -> string)
    ensures UserRoutes.GetUser(TestRoutes.Fixture(u, p, c, hash), u) == Ok(UserPublic(u, "john@example.com", Some("John Doe")))
  {
    TestRoutes.FixtureContents(u, p, c, hash);
  }

  /** GET /api/posts after `seed` lists the three fixture posts. */
  lemma SeededPostsListed(u: int, p: int, c: int, hash: string -> string)
    ensures var r := PostRoutes.ListPosts(TestRoutes.Fixture(u, p, c, hash), None);
      && |r| == 3
      && (set v | v in r :: v.title) == {"First Post", "Second Post", "Draft Post"}
  {
    var d := TestRoutes.Fixture(u, p, c, hash);
    TestRoutes.FixtureContents(u, p, c, hash);
    PostRoutes.ListAllPosts(d);
    var r := PostRoutes.ListPosts(d, None);
    assert ViewPost(d, p) in r && ViewPost(d, p + 1) in r && ViewPost(d, p + 2) in r;
    var titles := set v | v in r :: v.title;
    forall t | t in titles ensures t in {"First Post", "Second Post", "Draft Post"} {
      var v :| v in r && v.title == t;
      assert v.id == p || v.id == p + 1 || v.id == p + 2;
    }
  }

  /** GET /api/posts?published=true after `seed`: the two published posts, and only those. */
  lemma SeededPublishedListed(u: int, p: int, c: int, hash: string -> string)
    ensures var r := PostRoutes.ListPosts(TestRoutes.Fixture(u, p, c, hash), Some("true"));
      && |r| == 2
      && (forall v | v in r :: v.published)
  {
    var d := TestRoutes.Fixture(u, p, c, hash);
    TestRoutes.FixtureContents(u, p, c, hash);
    assert PostRoutes.SelectedIds(d.posts, Some("true")) == {p, p + 1};
  }

  /** GET /api/posts/:id for the first seeded post: its fields, John as its author, and its two comments. */
  lemma SeededFirstPostFound(u: int, p: int, c: int, hash: string -> string)
    ensures var r := PostRoutes.GetPost(TestRoutes.Fixture(u, p, c, hash), p);
      && r.Ok?
      && r.value.post == PostView(p, "First Post", Some("This is the first test post content."), true, u, Some(UserPublic(u, "john@example.com", Some("John Doe"))))
      && r.value.comments == {CommentRow(c, "Great post!", p, u + 1), CommentRow(c + 1, "I learned a lot from this.", p, u + 2)}
  {
    var d := TestRoutes.Fixture(u, p, c, hash);
    TestRoutes.FixtureContents(u, p, c, hash);
    var r := PostRoutes.GetPost(d, p);
    forall x | x in r.value.comments ensures x.id == c || x.id == c + 1 {
      assert x.id in d.comments && x.postId == p;
    }
  }

  /** POST /api/users with John's email after `seed`: 409, and nothing is created. */
  lemma SeededDuplicateEmail(u: int, p: int, c: int, hash: string -> string, name: Option<string>, password: Option<string>)
    ensures Wf(TestRoutes.Fixture(u, p, c, hash))
    ensures var d := TestRoutes.Fixture(u, p, c, hash);
      UserRoutes.CreateUser(d, hash, Some("john@example.com"), name, password) == Outcome(d, Conflict)
  {
    var d := TestRoutes.Fixture(u, p, c, hash);
    TestRoutes.FixtureWf(u, p, c, hash);
    TestRoutes.FixtureContents(u, p, c, hash);
    assert d.users[u].email == "john@example.com";
  }

  /** PUT /api/users/:id renaming Jane after `seed`: the name changes, the email stays. */
  lemma SeededRenameJane(u: int, p: int, c: int, hash: string -> string)
    ensures var d := TestRoutes.Fixture(u, p, c, hash);
      Wf(d) && UserRoutes.UpdateUser(d, hash, u + 1, None, Some("Updated Name"), None).response == Ok(UserPublic(u + 1, "jane@example.com", Some("Updated Name")))
  {
    TestRoutes.FixtureWf(u, p, c, hash);
    TestRoutes.FixtureContents(u, p, c, hash);
  }

  /**
   * DELETE /api/users/:id of John after `seed`: his two posts go; Jane, Bob and the second
   * post are left.
   */
  lemma SeededDeleteJohn(u: int, p: int, c: int, hash: string -> string)
    ensures var d := TestRoutes.Fixture(u, p, c, hash);
      && Wf(d)
      && var o := UserRoutes.DeleteUser(d, u);
      && o.response == Ok(())
      && o.db.users.Keys == {u + 1, u + 2}
      && o.db.posts.Keys == {p + 1}
  {
    var d := TestRoutes.Fixture(u, p, c, hash);
    TestRoutes.FixtureWf(u, p, c, hash);
    TestRoutes.FixtureContents(u, p, c, hash);
    assert PostsBy(d.posts, u) == {p, p + 2};
  }

  /**
   * The same delete empties the comment table: the two comments on John's first post go
   * with it, and his own comment on Jane's post goes because he wrote it.
   */
  lemma SeededDeleteJohnComments(u: int, p: int, c: int, hash: string -> string)
    ensures var d := TestRoutes.Fixture(u, p, c, hash);
      Wf(d) && UserRoutes.DeleteUser(d, u).db.comments == map[]
  {
    var d := TestRoutes.Fixture(u, p, c, hash);
    TestRoutes.FixtureWf(u, p, c, hash);
    TestRoutes.FixtureContents(u, p, c, hash);
  }

  /** DELETE /api/posts/:id of the draft after `seed`: GET of it then answers 404, and no comment is orphaned. */
  lemma SeededDeleteDraft(u: int, p: int, c: int, hash: string -> string)
    ensures var d := TestRoutes.Fixture(u, p, c, hash);
      && Wf(d)
      && var o := PostRoutes.DeletePost(d, p + 2);
      && o.response == Ok(())
      && PostRoutes.GetPost(o.db, p + 2) == NotFound(PostMissing)
      && Integrity(o.db)
  {
    var d := TestRoutes.Fixture(u, p, c, hash);
    TestRoutes.FixtureWf(u, p, c, hash);
    TestRoutes.FixtureContents(u, p, c, hash);
    var o := PostRoutes.DeletePost(d, p + 2);
    forall k | k in o.db.comments ensures o.db.comments[k].postId in o.db.posts && o.db.comments[k].authorId in o.db.users {
      assert k == c || k == c + 1 || k == c + 2;
    }
  }
}
