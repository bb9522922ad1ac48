/**
 * The handlers of /api/comments (src/routes/commentRoutes.ts): GET handlers as projections of
 * the Comment table, POST, PUT and DELETE as the database they leave behind and the answer
 * they send.
 */
module CommentRoutes {
  import opened Entities
  import opened Views

  /** The ids of the comments a `postId` query selects: all of them without one. */
  function SelectedIds(comments: map<int, Comment>, postId: Option<int>): set<int>
  {
    set c | c in comments && (postId.Some? ==> comments[c].postId == postId.value)
  }

  /**
   * GET /api/comments, each comment with its author and post summaries. `postId` is the
   * query after `Number`; an absent or empty query is `None`.
   */
  function ListComments(db: Db, postId: Option<int>): (r: set<CommentView>)
    ensures forall v | v in r :: v.id in db.comments && v == ViewComment(db, v.id)
    ensures forall v | v in r :: postId.Some? ==> v.postId == postId.value
    ensures forall c | c in db.comments && (postId.Some? ==> db.comments[c].postId == postId.value) :: ViewComment(db, c) in r
    ensures |r| == |SelectedIds(db.comments, postId)|
  {
    var views := map c | c in SelectedIds(db.comments, postId) :: ViewComment(db, c);
    assert views.Keys == SelectedIds(db.comments, postId);
    assert forall c | c in db.comments && (postId.Some? ==> db.comments[c].postId == postId.value) :: c in views && views[c] in views.Values;
    InjectiveValuesCard(views);
    views.Values
  }

  /** GET /api/comments/:id. */
  function GetComment(db: Db, id: int): (r: Response<CommentView>)
    ensures r.Ok? <==> id in db.comments
    ensures !r.Ok? ==> r == NotFound(CommentMissing)
    ensures r.Ok? ==>
      var c := db.comments[id];
      && r.value.id == id && r.value.content == c.content && r.value.postId == c.postId && r.value.authorId == c.authorId
      && r.value.author == AuthorOf(db.users, c.authorId) && r.value.post == PostSummaryOf(db.posts, c.postId)
  {
    if id in db.comments then Ok(ViewComment(db, id)) else NotFound(CommentMissing)
  }

  /**
   * POST /api/comments. The post is looked up before the author and the first miss is
   * answered; then a missing content makes the insert throw (400).
   */
  function CreateComment(db: Db, content: Option<string>, postId: int, authorId: int): (o: Outcome<CommentView>)
    requires Wf(db)
    ensures Wf(o.db)
    ensures Integrity(db) ==> Integrity(o.db)
    ensures postId !in db.posts ==> o == Outcome(db, NotFound(PostMissing))
    ensures postId in db.posts && authorId !in db.users ==> o == Outcome(db, NotFound(AuthorMissing))
    ensures postId in db.posts && authorId in db.users && content.None? ==> o == Outcome(db, Failure)
    ensures o.response.Ok? <==> postId in db.posts && authorId in db.users && content.Some?
    ensures !o.response.Ok? ==> o.db == db
    ensures o.response.Ok? ==>
      var id := o.response.value.id;
      && id !in db.comments
      && o.db.comments.Keys == db.comments.Keys + {id}
      && (forall k | k in db.comments :: o.db.comments[k] == db.comments[k])
      && o.db.comments[id] == Comment(content.value, postId, authorId)
      && o.response.value == ViewComment(o.db, id)
      && o.response.value.author.Some? && o.response.value.post.Some?
      && o.db.users == db.users && o.db.posts == db.posts
    ensures o.db.nextUserId == db.nextUserId && o.db.nextPostId == db.nextPostId
    ensures !o.response.Conflict?
  {
    if postId !in db.posts then Outcome(db, NotFound(PostMissing))
    else if authorId !in db.users then Outcome(db, NotFound(AuthorMissing))
    else if content.None? then Outcome(db, Failure)
    else
      var id := db.nextCommentId;
      var db' := db.(comments := db.comments[id := Comment(content.value, postId, authorId)], nextCommentId := id + 1);
      Outcome(db', Ok(ViewComment(db', id)))
  }

  /** PUT /api/comments/:id: only the content can change, and only when the body gives one. */
  function UpdateComment(db: Db, id: int, content: Option<string>): (o: Outcome<CommentView>)
    requires Wf(db)
    ensures Wf(o.db)
    ensures Integrity(db) ==> Integrity(o.db)
    ensures o.response.Ok? <==> id in db.comments
    ensures !o.response.Ok? ==> o == Outcome(db, NotFound(CommentMissing))
    ensures o.response.Ok? ==> id in db.comments && o.db.comments.Keys == db.comments.Keys
    ensures o.response.Ok? ==>
      var c := o.db.comments[id];
      && (forall k | k in db.comments && k != id :: o.db.comments[k] == db.comments[k])
      && c.content == (if content.Some? then content.value else db.comments[id].content)
      && c.postId == db.comments[id].postId && c.authorId == db.comments[id].authorId
      && o.response.value == ViewComment(o.db, id)
      && o.db.users == db.users && o.db.posts == db.posts
    ensures o.db.nextUserId == db.nextUserId && o.db.nextPostId == db.nextPostId && o.db.nextCommentId == db.nextCommentId
  {
    if id !in db.comments then Outcome(db, NotFound(CommentMissing))
    else
      var c := db.comments[id];
      var db' := db.(comments := db.comments[id := c.(content := if content.Some? then content.value else c.content)]);
      Outcome(db', Ok(ViewComment(db', id)))
  }

  /** DELETE /api/comments/:id: removes exactly that comment. */
  function DeleteComment(db: Db, id: int): (o: Outcome<()>)
    requires Wf(db)
    ensures Wf(o.db)
    ensures Integrity(db) ==> Integrity(o.db)
    ensures o.response == if id in db.comments then Ok(()) else NotFound(CommentMissing)
    ensures !o.response.Ok? ==> o.db == db
    ensures o.response.Ok? ==> o.db.comments.Keys == db.comments.Keys - {id}
    ensures Submap(o.db.comments, db.comments)
    ensures o.db.users == db.users && o.db.posts == db.posts
    ensures o.db.nextUserId == db.nextUserId && o.db.nextPostId == db.nextPostId && o.db.nextCommentId == db.nextCommentId
  {
    if id !in db.comments then Outcome(db, NotFound(CommentMissing))
    else Outcome(db.(comments := db.comments - {id}), Ok(()))
  }

  /** Without a `postId` query every comment is listed, one entry each; with one, exactly the comments on that post. */
  lemma ListAllComments(db: Db, postId: int)
    ensures forall id | id in db.comments :: ViewComment(db, id) in ListComments(db, Some(postId)) <==> db.comments[id].postId == postId
    ensures forall id | id in db.comments :: ViewComment(db, id) in ListComments(db, None)
  {
  }

  /** Without a `postId` query the listing has one entry per comment, whatever the table holds. */
  lemma ListAllCommentsLength(db: Db)
    ensures |ListComments(db, None)| == |db.comments|
  {
    assert SelectedIds(db.comments, None) == db.comments.Keys;
  }

  /** A created comment is what GET then shows, and what the listing filtered by its post holds. */
  lemma CreateThenGet(db: Db, content: Option<string>, postId: int, authorId: int)
    requires Wf(db)
    requires CreateComment(db, content, postId, authorId).response.Ok?
    ensures var o := CreateComment(db, content, postId, authorId);
      && GetComment(o.db, o.response.value.id) == o.response
      && o.response.value in ListComments(o.db, Some(postId))
  {
  }

  /** After a successful delete, GET of that comment answers "Comment not found". */
  lemma DeleteThenGet(db: Db, id: int)
    requires Wf(db)
    ensures GetComment(DeleteComment(db, id).db, id) == NotFound(CommentMissing)
  {
  }
}
