/**
 * The handlers of /api/users (src/routes/userRoutes.ts). The GET handlers are projections of
 * the User table; POST, PUT and DELETE are given as the database they leave behind and the
 * answer they send, which the methods of `EntityStore.Store` reach step by step.
 */
module UserRoutes {
  import opened Entities
  import opened Views

  /** GET /api/users. */
  function ListUsers(db: Db): (r: set<UserPublic>)
    ensures forall v | v in r :: v.id in db.users && v.email == db.users[v.id].email && v.name == db.users[v.id].name
    ensures forall id | id in db.users :: PublicUser(db.users, id) in r
    ensures |r| == |db.users|
  {
    var views := map id | id in db.users :: PublicUser(db.users, id);
    assert views.Keys == db.users.Keys;
    InjectiveValuesCard(views);
    views.Values
  }

  /** GET /api/users/:id. */
  function GetUser(db: Db, id: int): (r: Response<UserPublic>)
    ensures r.Ok? <==> id in db.users
    ensures r.Ok? ==> r.value.id == id && r.value.email == db.users[id].email && r.value.name == db.users[id].name
    ensures !r.Ok? ==> r == NotFound(UserMissing)
  {
    if id in db.users then Ok(PublicUser(db.users, id)) else NotFound(UserMissing)
  }

  /**
   * POST /api/users. The lookup by a missing email throws and bcrypt throws on a missing
   * password: both land in the catch and answer 400.
   */
  function CreateUser(db: Db, hash: string -> string, email: Option<string>, name: Option<string>, password: Option<string>): (o: Outcome<UserPublic>)
    requires Wf(db)
    ensures Wf(o.db)
    ensures Integrity(db) ==> Integrity(o.db)
    ensures email.Some? && EmailHeld(db.users, email.value) ==> o == Outcome(db, Conflict)
    ensures !o.response.Ok? && !(email.Some? && EmailHeld(db.users, email.value)) ==> o == Outcome(db, Failure)
    ensures o.response.Ok? <==> email.Some? && password.Some? && !EmailHeld(db.users, email.value)
    ensures !o.response.Ok? ==> o.db == db
    ensures o.response.Ok? ==>
      var id := o.response.value.id;
      && id !in db.users
      && o.db.users.Keys == db.users.Keys + {id}
      && (forall k | k in db.users :: o.db.users[k] == db.users[k])
      && o.db.users[id] == User(email.value, name, hash(password.value))
      && o.response.value == PublicUser(o.db.users, id)
      && o.db.posts == db.posts && o.db.comments == db.comments
    ensures o.db.nextPostId == db.nextPostId && o.db.nextCommentId == db.nextCommentId
    ensures !o.response.NotFound?
  {
    if email.None? then Outcome(db, Failure)
    else if EmailHeld(db.users, email.value) then Outcome(db, Conflict)
    else if password.None? then Outcome(db, Failure)
    else
      var id := db.nextUserId;
      var users := db.users[id := User(email.value, name, hash(password.value))];
      Outcome(db.(users := users, nextUserId := id + 1), Ok(PublicUser(users, id)))
  }

  /** The row `PUT /api/users/:id` writes: only truthy fields replace the old values. */
  function Patched(u: User, hash: string -> string, email: Option<string>, name: Option<string>, password: Option<string>): User
  {
    User(
      if Truthy(email) then email.value else u.email,
      if Truthy(name) then name else u.name,
      if Truthy(password) then hash(password.value) else u.password)
  }

  /**
   * PUT /api/users/:id. Only fields with a truthy value are written, the password re-hashed.
   * An email already held by another user violates the unique column: the update throws (400).
   */
  function UpdateUser(db: Db, hash: string -> string, id: int, email: Option<string>, name: Option<string>, password: Option<string>): (o: Outcome<UserPublic>)
    requires Wf(db)
    ensures Wf(o.db)
    ensures Integrity(db) ==> Integrity(o.db)
    ensures id !in db.users ==> o == Outcome(db, NotFound(UserMissing))
    ensures id in db.users && Truthy(email) && EmailHeldByOther(db.users, id, email.value) ==> o == Outcome(db, Failure)
    ensures o.response.Ok? <==> id in db.users && !(Truthy(email) && EmailHeldByOther(db.users, id, email.value))
    ensures !o.response.Ok? ==> o.db == db
    ensures o.response.Ok? ==> id in db.users && o.db.users.Keys == db.users.Keys
    ensures o.response.Ok? ==>
      var u := o.db.users[id];
      && (forall k | k in db.users && k != id :: o.db.users[k] == db.users[k])
      && u.email == (if Truthy(email) then email.value else db.users[id].email)
      && u.name == (if Truthy(name) then name else db.users[id].name)
      && u.password == (if Truthy(password) then hash(password.value) else db.users[id].password)
      && o.response.value == PublicUser(o.db.users, id)
      && o.db.posts == db.posts && o.db.comments == db.comments
    ensures o.db.nextUserId == db.nextUserId && o.db.nextPostId == db.nextPostId && o.db.nextCommentId == db.nextCommentId
    ensures !o.response.Conflict?
  {
    if id !in db.users then Outcome(db, NotFound(UserMissing))
    else if Truthy(email) && EmailHeldByOther(db.users, id, email.value) then Outcome(db, Failure)
    else
      var users := db.users[id := Patched(db.users[id], hash, email, name, password)];
      Outcome(db.(users := users), Ok(PublicUser(users, id)))
  }

  /** `comment.deleteMany({ where: { authorId: u } })`. */
  function WithoutCommentsBy(comments: map<int, Comment>, u: int): (m: map<int, Comment>)
    ensures Submap(m, comments)
    ensures forall c :: c in m <==> c in comments && comments[c].authorId != u
  {
    map c | c in comments && comments[c].authorId != u :: comments[c]
  }

  /** `comment.deleteMany({ where: { postId: { in: postIds } } })`. */
  function WithoutCommentsOn(comments: map<int, Comment>, postIds: set<int>): (m: map<int, Comment>)
    ensures Submap(m, comments)
    ensures forall c :: c in m <==> c in comments && comments[c].postId !in postIds
  {
    map c | c in comments && comments[c].postId !in postIds :: comments[c]
  }

  /** `post.deleteMany({ where: { authorId: u } })`. */
  function WithoutPostsBy(posts: map<int, Post>, u: int): (m: map<int, Post>)
    ensures Submap(m, posts)
    ensures forall p :: p in m <==> p in posts && posts[p].authorId != u
  {
    map p | p in posts && posts[p].authorId != u :: posts[p]
  }

  /**
   * DELETE /api/users/:id: the cascade removes the user's comments, the comments on the
   * user's posts, the user's posts and then the user.
   */
  function DeleteUser(db: Db, id: int): (o: Outcome<()>)
    requires Wf(db)
    ensures Wf(o.db)
    ensures Integrity(db) ==> Integrity(o.db)
    ensures o.response == if id in db.users then Ok(()) else NotFound(UserMissing)
    ensures !o.response.Ok? ==> o.db == db
    // nothing that refers to the user is left
    ensures o.response.Ok? ==>
      && id !in o.db.users
      && (forall p | p in o.db.posts :: o.db.posts[p].authorId != id)
      && (forall c | c in o.db.comments :: o.db.comments[c].authorId != id && o.db.comments[c].postId !in PostsBy(db.posts, id))
    // and nothing else is removed or changed
    ensures Submap(o.db.users, db.users) && Submap(o.db.posts, db.posts) && Submap(o.db.comments, db.comments)
    ensures forall u | u in db.users && u != id :: u in o.db.users
    ensures forall p | p in db.posts && db.posts[p].authorId != id :: p in o.db.posts
    ensures forall c | c in db.comments && db.comments[c].authorId != id && db.comments[c].postId !in PostsBy(db.posts, id) :: c in o.db.comments
    ensures o.db.nextUserId == db.nextUserId && o.db.nextPostId == db.nextPostId && o.db.nextCommentId == db.nextCommentId
  {
    if id !in db.users then Outcome(db, NotFound(UserMissing))
    else
      Outcome(db.(
        users := db.users - {id},
        posts := WithoutPostsBy(db.posts, id),
        comments := WithoutCommentsOn(WithoutCommentsBy(db.comments, id), PostsBy(db.posts, id))),
        Ok(()))
  }

  /**
   * The cascade runs in the only order the foreign keys accept: from a state with referential
   * integrity, each of its four steps leaves a state with referential integrity.
   */
  lemma DeleteStepsKeepIntegrity(db: Db, id: int)
    requires Integrity(db)
    ensures var step1 := db.(comments := WithoutCommentsBy(db.comments, id));
      var step2 := step1.(comments := WithoutCommentsOn(step1.comments, PostsBy(db.posts, id)));
      var step3 := step2.(posts := WithoutPostsBy(db.posts, id));
      var step4 := step3.(users := db.users - {id});
      Integrity(step1) && Integrity(step2) && Integrity(step3) && Integrity(step4)
  {
  }

  /** Deleting the comments on no post at all deletes nothing: the guard on `userPosts.length` changes no outcome. */
  lemma WithoutCommentsOnNothing(comments: map<int, Comment>)
    ensures WithoutCommentsOn(comments, {}) == comments
  {
  }

  /** A created user is what GET then shows, and the listing gains exactly that user. */
  lemma CreateThenGet(db: Db, hash: string -> string, email: Option<string>, name: Option<string>, password: Option<string>)
    requires Wf(db)
    requires CreateUser(db, hash, email, name, password).response.Ok?
    ensures var o := CreateUser(db, hash, email, name, password);
      && GetUser(o.db, o.response.value.id) == o.response
      && ListUsers(o.db) == ListUsers(db) + {o.response.value}
  {
    var o := CreateUser(db, hash, email, name, password);
    var id := o.response.value.id;
    assert o.db.users == db.users[id := o.db.users[id]];
    ListGainsInserted(db, o.db, id);
  }

  /** Adding a row under a fresh id adds exactly that user's view to the listing. */
  lemma ListGainsInserted(db: Db, db': Db, id: int)
    requires id !in db.users && id in db'.users && db'.users == db.users[id := db'.users[id]]
    ensures ListUsers(db') == ListUsers(db) + {PublicUser(db'.users, id)}
  {
    ListKeepsOthers(db, db');
    ListHasNoStrangers(db, db', id);
  }

  /** Every user listed is still listed once rows are only added. */
  lemma ListKeepsOthers(db: Db, db': Db)
    requires Submap(db.users, db'.users)
    ensures ListUsers(db) <= ListUsers(db')
  {
    forall w | w in ListUsers(db) ensures w in ListUsers(db') {
      assert w == PublicUser(db'.users, w.id);
    }
  }

  /** Every user listed after the insert was listed before it, or is the inserted one. */
  lemma ListHasNoStrangers(db: Db, db': Db, id: int)
    requires id in db'.users && db'.users == db.users[id := db'.users[id]]
    ensures ListUsers(db') <= ListUsers(db) + {PublicUser(db'.users, id)}
  {
    forall w | w in ListUsers(db') ensures w in ListUsers(db) + {PublicUser(db'.users, id)} {
      if w.id != id {
        assert w == PublicUser(db.users, w.id);
      }
    }
  }

  /** An update is what GET then shows. */
  lemma UpdateThenGet(db: Db, hash: string -> string, id: int, email: Option<string>, name: Option<string>, password: Option<string>)
    requires Wf(db)
    requires UpdateUser(db, hash, id, email, name, password).response.Ok?
    ensures var o := UpdateUser(db, hash, id, email, name, password);
      GetUser(o.db, id) == o.response
  {
  }

  /** Deleting a user twice: the second call finds nothing, and GET agrees. */
  lemma DeleteThenGet(db: Db, id: int)
    requires Wf(db)
    ensures var o := DeleteUser(db, id);
      && GetUser(o.db, id) == NotFound(UserMissing)
      && DeleteUser(o.db, id) == Outcome(o.db, NotFound(UserMissing))
  {
  }

  /**
   * The digest never reaches an answer: replacing any user's stored password changes
   * neither the listing nor any lookup by id.
   */
  lemma PasswordNotShown(db: Db, id: int, digest: string)
    requires id in db.users
    ensures var db' := db.(users := db.users[id := db.users[id].(password := digest)]);
      && ListUsers(db') == ListUsers(db)
      && forall k :: GetUser(db', k) == GetUser(db, k)
  {
    var db' := db.(users := db.users[id := db.users[id].(password := digest)]);
    forall v | v in ListUsers(db') ensures v in ListUsers(db) {
      assert v == PublicUser(db.users, v.id);
    }
    forall v | v in ListUsers(db) ensures v in ListUsers(db') {
      assert v == PublicUser(db'.users, v.id);
    }
  }

  /** GET by id answers exactly the entries of the listing. */
  lemma GetAgreesWithList(db: Db, v: UserPublic)
    ensures v in ListUsers(db) <==> GetUser(db, v.id) == Ok(v)
  {
  }
}
