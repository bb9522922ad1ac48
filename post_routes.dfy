/**
 * The handlers of /api/posts (src/routes/postRoutes.ts): GET handlers as projections of the
 * Post table, POST, PUT and DELETE as the database they leave behind and the answer they send.
 */
module PostRoutes {
  import opened Entities
  import opened Views

  /**
   * The `where` of `GET /api/posts`: no filter without a `published` query, otherwise
   * `published === 'true'`, so every other value selects the unpublished posts.
   */
  predicate Selected(p: Post, published: Option<string>)
  {
    published.Some? ==> p.published == (published.value == "true")
  }

  /** The ids of the posts the `published` query selects. */
  function SelectedIds(posts: map<int, Post>, published: Option<string>): set<int>
  {
    set id | id in posts && Selected(posts[id], published)
  }

  /** GET /api/posts, each post with its author summary. */
  function ListPosts(db: Db, published: Option<string>): (r: set<PostView>)
    ensures forall v | v in r :: v.id in db.posts && v == ViewPost(db, v.id)
    ensures forall v | v in r :: published.Some? ==> v.published == (published.value == "true")
    ensures forall id | id in db.posts && Selected(db.posts[id], published) :: ViewPost(db, id) in r
    ensures |r| == |SelectedIds(db.posts, published)|
  {
    var views := map id | id in SelectedIds(db.posts, published) :: ViewPost(db, id);
    assert views.Keys == SelectedIds(db.posts, published);
    assert forall id | id in db.posts && Selected(db.posts[id], published) :: id in views && views[id] in views.Values;
    InjectiveValuesCard(views);
    views.Values
  }

  /** The rows of the comments on post `id`, as `comments: true` embeds them. */
  function CommentsOn(comments: map<int, Comment>, id: int): set<CommentRow>
  {
    set c | c in comments && comments[c].postId == id :: RowOf(comments, c)
  }

  /** GET /api/posts/:id, with the author summary and every comment on the post. */
  function GetPost(db: Db, id: int): (r: Response<PostDetail>)
    ensures r.Ok? <==> id in db.posts
    ensures !r.Ok? ==> r == NotFound(PostMissing)
    ensures r.Ok? ==> r.value.post == ViewPost(db, id) && r.value.post.author == AuthorOf(db.users, db.posts[id].authorId)
    ensures r.Ok? ==> forall x :: x in r.value.comments <==>
      x.id in db.comments && x == RowOf(db.comments, x.id) && x.postId == id
  {
    if id in db.posts then Ok(PostDetail(ViewPost(db, id), CommentsOn(db.comments, id))) else NotFound(PostMissing)
  }

  /**
   * POST /api/posts. The author is looked up first; then a missing title makes the insert
   * throw (400). `published || false` stores true only for a supplied true.
   */
  function CreatePost(db: Db, title: Option<string>, content: Option<string>, published: Option<bool>, authorId: int): (o: Outcome<PostView>)
    requires Wf(db)
    ensures Wf(o.db)
    ensures Integrity(db) ==> Integrity(o.db)
    ensures authorId !in db.users ==> o == Outcome(db, NotFound(AuthorMissing))
    ensures authorId in db.users && title.None? ==> o == Outcome(db, Failure)
    ensures o.response.Ok? <==> authorId in db.users && title.Some?
    ensures !o.response.Ok? ==> o.db == db
    ensures o.response.Ok? ==>
      var id := o.response.value.id;
      && id !in db.posts
      && o.db.posts.Keys == db.posts.Keys + {id}
      && (forall k | k in db.posts :: o.db.posts[k] == db.posts[k])
      && o.db.posts[id] == Post(title.value, content, published == Some(true), authorId)
      && o.response.value == ViewPost(o.db, id)
      && o.response.value.author == Some(PublicUser(db.users, authorId))
      && o.db.users == db.users && o.db.comments == db.comments
    ensures o.db.nextUserId == db.nextUserId && o.db.nextCommentId == db.nextCommentId
    ensures o.response.Ok? || o.response == NotFound(AuthorMissing) || o.response.Failure?
  {
    if authorId !in db.users then Outcome(db, NotFound(AuthorMissing))
    else if title.None? then Outcome(db, Failure)
    else
      var id := db.nextPostId;
      var db' := db.(posts := db.posts[id := Post(title.value, content, published == Some(true), authorId)], nextPostId := id + 1);
      Outcome(db', Ok(ViewPost(db', id)))
  }

  /**
   * PUT /api/posts/:id. Prisma skips the fields the body leaves out; the others are written
   * as given (a supplied false unpublishes). The author is never changed.
   */
  function UpdatePost(db: Db, id: int, title: Option<string>, content: Option<string>, published: Option<bool>): (o: Outcome<PostView>)
    requires Wf(db)
    ensures Wf(o.db)
    ensures Integrity(db) ==> Integrity(o.db)
    ensures o.response.Ok? <==> id in db.posts
    ensures !o.response.Ok? ==> o == Outcome(db, NotFound(PostMissing))
    ensures o.response.Ok? ==> id in db.posts && o.db.posts.Keys == db.posts.Keys
    ensures o.response.Ok? ==>
      var p := o.db.posts[id];
      && (forall k | k in db.posts && k != id :: o.db.posts[k] == db.posts[k])
      && p.title == (if title.Some? then title.value else db.posts[id].title)
      && p.content == (if content.Some? then content else db.posts[id].content)
      && p.published == (if published.Some? then published.value else db.posts[id].published)
      && p.authorId == db.posts[id].authorId
      && o.response.value == ViewPost(o.db, id)
      && o.db.users == db.users && o.db.comments == db.comments
    ensures o.db.nextUserId == db.nextUserId && o.db.nextPostId == db.nextPostId && o.db.nextCommentId == db.nextCommentId
  {
    if id !in db.posts then Outcome(db, NotFound(PostMissing))
    else
      var p := db.posts[id];
      var p' := Post(
        if title.Some? then title.value else p.title,
        if content.Some? then content else p.content,
        if published.Some? then published.value else p.published,
        p.authorId);
      var db' := db.(posts := db.posts[id := p']);
      Outcome(db', Ok(ViewPost(db', id)))
  }

  /** DELETE /api/posts/:id: removes that post only; the comments on it are not touched. */
  function DeletePost(db: Db, id: int): (o: Outcome<()>)
    requires Wf(db)
    ensures Wf(o.db)
    ensures o.response == if id in db.posts then Ok(()) else NotFound(PostMissing)
    ensures !o.response.Ok? ==> o.db == db
    ensures o.response.Ok? ==> o.db.posts.Keys == db.posts.Keys - {id}
    ensures Submap(o.db.posts, db.posts)
    ensures o.db.users == db.users && o.db.comments == db.comments
    ensures o.db.nextUserId == db.nextUserId && o.db.nextPostId == db.nextPostId && o.db.nextCommentId == db.nextCommentId
  {
    if id !in db.posts then Outcome(db, NotFound(PostMissing))
    else Outcome(db.(posts := db.posts - {id}), Ok(()))
  }

  /** With no `published` query every post is listed, one entry each. */
  lemma ListAllPosts(db: Db)
    ensures forall id | id in db.posts :: ViewPost(db, id) in ListPosts(db, None)
    ensures |ListPosts(db, None)| == |db.posts|
  {
    forall id | id in db.posts ensures id in SelectedIds(db.posts, None) {
      assert Selected(db.posts[id], None);
    }
    assert SelectedIds(db.posts, None) == db.posts.Keys;
  }

  /**
   * With a `published` query the listing holds exactly the posts whose flag equals
   * `query == "true"`; any other text selects the unpublished ones.
   */
  lemma ListFilteredPosts(db: Db, query: string, id: int)
    requires id in db.posts
    ensures ViewPost(db, id) in ListPosts(db, Some(query)) <==> db.posts[id].published == (query == "true")
  {
  }

  /** A created post is what GET then shows, with no comments yet. */
  lemma CreateThenGet(db: Db, title: Option<string>, content: Option<string>, published: Option<bool>, authorId: int)
    requires Wf(db)
    requires CreatePost(db, title, content, published, authorId).response.Ok?
    ensures var o := CreatePost(db, title, content, published, authorId);
      GetPost(o.db, o.response.value.id) == Ok(PostDetail(o.response.value, {}))
  {
    var o := CreatePost(db, title, content, published, authorId);
    var id := o.response.value.id;
    var r := GetPost(o.db, id);
    assert r.value.comments == {};
  }

  /** After a successful delete, GET of that post answers "Post not found". */
  lemma DeleteThenGet(db: Db, id: int)
    requires Wf(db)
    ensures GetPost(DeletePost(db, id).db, id) == NotFound(PostMissing)
  {
  }

  /**
   * Deleting a post does not keep referential integrity: a comment on it is left pointing
   * at a post that no longer exists.
   */
  lemma DeleteMayOrphanComments()
    ensures var db := Db(map[1 := User("a@example.com", None, "")], map[1 := Post("t", None, false, 1)],
                         map[1 := Comment("c", 1, 1)], 2, 2, 2);
      && Wf(db) && Integrity(db)
      && DeletePost(db, 1).response.Ok?
      && !Integrity(DeletePost(db, 1).db)
  {
    var db := Db(map[1 := User("a@example.com", None, "")], map[1 := Post("t", None, false, 1)],
                 map[1 := Comment("c", 1, 1)], 2, 2, 2);
    var after := DeletePost(db, 1).db;
    assert 1 in after.comments && after.comments[1].postId !in after.posts;
  }
}
