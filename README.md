# Entity store of the users / posts / comments REST API

This project models the store behind a small Express + Prisma REST API. The store has three
tables:

- `User`: email (unique), optional name, password digest.
- `Post`: title, optional content, `published` flag, author id.
- `Comment`: content, post id, author id.

The model covers the CRUD handlers of `/api/users`, `/api/posts` and `/api/comments`, plus the
`/api/test/clear` and `/api/test/seed` fixture handlers.

Each handler appears twice:

- **As a function** from the database value `Entities.Db` to an `Outcome`, which pairs the
  database it leaves behind with what it answers. The answers are:
  - `Ok`
  - `NotFound` (which row was missing, and so which 404 text is sent)
  - `Conflict` (the 409 of duplicate emails)
  - `Failure`: the 400 the handler's `catch` sends when Prisma or bcrypt throws. This happens for
    a missing required field, or for an update to an email another user holds.

  Each function's contract states what the source promises: error cases, what changes, what
  does not, and the invariants kept. The invariants are:
  - `Wf`: fresh autoincrement ids, references below the counters, unique emails.
  - `Integrity`: every reference points at a live row.
- **As a method** of `EntityStore.Store`. This class holds the three tables and the
  autoincrement counters as fields. Each method updates them one Prisma call at a time, in the
  order of the source: look-ups first, then creates, updates and deletes. Each method is proved
  to reach exactly the state and answer the function gives. Examples:
  - `UpdateUser` builds the row field by field from the truthy fields.
  - `DeleteUser` runs the four-step manual cascade: comments by the user, comments on the user's
    posts (only when there are any), the posts, the user.
  - `Seed` clears the tables, then inserts users, posts and comments, each from the ids the
    previous step handed out, and answers the created rows.

Listings are modelled as the *set* of views returned, because the handlers leave the order to
the database. The handlers of `/api/users`, and the author summaries embedded in posts and
comments, show a user only as `Views.UserPublic`, which has no password field. `seed` is the
exception: its user creates have no `select`, so it answers full user rows, digests included
(`TestRoutes.SeedShowsDigests`).

The bcrypt hash is the parameter `hash: string -> string`. The clock, the network and Express are
not modelled.

Two behaviours of the code are worth naming:

- **`createUser` answers 400 when the email or the password is missing.** The lookup by a
  missing email, or bcrypt on a missing password, throws into the `catch` at
  src/routes/userRoutes.ts:209-211 (`Failure`).
- **`deletePost` removes only the post row** (src/routes/postRoutes.ts:344-346); the comments on
  it are not touched. `PostRoutes.DeleteMayOrphanComments` exhibits a state where, with no
  foreign key on a comment's post id, this leaves a comment pointing at a deleted post.

## Model

| member | source | states |
|---|---|---|
| `Views.InjectiveValuesCard` | src/routes/userRoutes.ts:71-81 | a table of views with no two keys showing the same view has as many views as rows; this is how a listing's length is tied to the number of rows it selects |
| `UserRoutes.ListUsers` | src/routes/userRoutes.ts:69-86 | GET /api/users: every user appears, each entry is some user's id, email and name, and there are exactly as many entries as users |
| `UserRoutes.GetUser` | src/routes/userRoutes.ts:111-137 | GET /api/users/:id answers the row's id, email and name exactly when the id is present, and "User not found" otherwise |
| `UserRoutes.PasswordNotShown` | src/routes/userRoutes.ts:114-125 | replacing any stored digest changes neither the listing nor any lookup: the password never reaches an answer |
| `UserRoutes.GetAgreesWithList` | src/routes/userRoutes.ts:69-137 | a view is in the listing if and only if GET by its id answers it |
| `UserRoutes.CreateUser` | src/routes/userRoutes.ts:173-212 | 409 and no change when the email is held; 400 and no change without email or password. Otherwise exactly one new row under a fresh id, holding that email, that name and `hash(password)`, with every other row and table untouched; `Wf` and `Integrity` are kept |
| `UserRoutes.CreateThenGet` | src/routes/userRoutes.ts:178-206 | after a successful create, GET of the new id answers the created user and the listing is the old listing plus that user |
| `UserRoutes.ListGainsInserted` | src/routes/userRoutes.ts:191-206 | a row added under a fresh id adds exactly that user's view to the listing, and nothing else |
| `UserRoutes.UpdateUser` | src/routes/userRoutes.ts:252-293 | 404 and no change for an absent id; 400 and no change when a truthy email is held by another user. Otherwise only that row changes: each truthy field replaces its value, the password re-hashed, and omitted or empty fields keep theirs. Never 409; `Wf` and `Integrity` kept |
| `UserRoutes.UpdateThenGet` | src/routes/userRoutes.ts:268-288 | after a successful update, GET answers what the update answered |
| `UserRoutes.WithoutCommentsBy` | src/routes/userRoutes.ts:330-332 | the first delete step keeps exactly the comments not written by the user, unchanged |
| `UserRoutes.WithoutCommentsOn` | src/routes/userRoutes.ts:341-347 | the second step keeps exactly the comments on none of the given posts, unchanged |
| `UserRoutes.WithoutPostsBy` | src/routes/userRoutes.ts:350-352 | the third step keeps exactly the posts by other authors, unchanged |
| `UserRoutes.DeleteUser` | src/routes/userRoutes.ts:314-361 | 404 and no change for an absent id. Otherwise the user, their posts, their comments and every comment on their posts are gone, and every other row survives unchanged; counters stay, and `Wf` and `Integrity` are kept |
| `UserRoutes.DeleteStepsKeepIntegrity` | src/routes/userRoutes.ts:329-357 | from a state with referential integrity, each of the four cascade steps leaves referential integrity, so no foreign key can reject any of them |
| `UserRoutes.WithoutCommentsOnNothing` | src/routes/userRoutes.ts:342-347 | the guard on `userPosts.length` changes no outcome: deleting comments on no posts deletes nothing |
| `UserRoutes.DeleteThenGet` | src/routes/userRoutes.ts:320-327 | after a delete, GET answers "User not found" and a second delete answers 404 without changing anything |
| `PostRoutes.ListPosts` | src/routes/postRoutes.ts:78-104 | GET /api/posts: every entry is a post selected by the `published` query, with its author summary; every selected post appears; the length is the number of selected posts |
| `PostRoutes.ListAllPosts` | src/routes/postRoutes.ts:82-87 | without a `published` query every post is listed and the length is the number of posts |
| `PostRoutes.ListFilteredPosts` | src/routes/postRoutes.ts:82-85 | with a query, a post is listed if and only if its flag equals `query == "true"`, so any other text selects the unpublished posts |
| `PostRoutes.GetPost` | src/routes/postRoutes.ts:129-155 | GET /api/posts/:id answers the post, its author summary and exactly the comments whose post id is that id when it is present, and "Post not found" otherwise |
| `PostRoutes.CreatePost` | src/routes/postRoutes.ts:193-230 | "Author not found" and no change when the author is not a live row, whatever the other fields; 400 and no change without a title. Otherwise exactly one new post under a fresh id, with that author, published only for a supplied true, and the author summary embedded; `Wf` and `Integrity` kept |
| `PostRoutes.CreateThenGet` | src/routes/postRoutes.ts:208-226 | after a successful create, GET of the new post answers it with no comments |
| `PostRoutes.UpdatePost` | src/routes/postRoutes.ts:270-308 | 404 and no change for an absent id. Otherwise only that post changes: supplied title, content and flag are written, omitted ones kept, and the id and author stay; `Wf` and `Integrity` kept |
| `PostRoutes.DeletePost` | src/routes/postRoutes.ts:329-352 | 404 and no change for an absent id; otherwise exactly that post is removed, and users and comments are untouched |
| `PostRoutes.DeleteThenGet` | src/routes/postRoutes.ts:334-346 | after a delete, GET of that post answers "Post not found" |
| `PostRoutes.DeleteMayOrphanComments` | src/routes/postRoutes.ts:344-346 | a well-formed state with referential integrity where a successful post delete leaves a comment pointing at the deleted post |
| `CommentRoutes.ListComments` | src/routes/commentRoutes.ts:77-109 | GET /api/comments: every entry is a comment on the queried post (any comment without a query), with author and post summaries; every such comment appears; the length is their number |
| `CommentRoutes.ListAllComments` | src/routes/commentRoutes.ts:81-86 | with a `postId` query a comment is listed if and only if it is on that post; without one every comment is listed |
| `CommentRoutes.ListAllCommentsLength` | src/routes/commentRoutes.ts:81-86 | without a `postId` query the listing has exactly one entry per comment, for every comment table, including an empty one |
| `CommentRoutes.GetComment` | src/routes/commentRoutes.ts:134-165 | GET /api/comments/:id answers the comment with its summaries when it is present, and "Comment not found" otherwise |
| `CommentRoutes.CreateComment` | src/routes/commentRoutes.ts:202-254 | "Post not found" and no change when the post is missing, even when the author is missing too; "Author not found" and no change for a live post and a missing author; 400 without content. Otherwise exactly one new comment with that content, post and author, both live; `Wf` and `Integrity` kept |
| `CommentRoutes.CreateThenGet` | src/routes/commentRoutes.ts:227-250 | after a successful create, GET answers the new comment and the listing filtered by its post contains it |
| `CommentRoutes.UpdateComment` | src/routes/commentRoutes.ts:290-332 | 404 and no change for an absent id; otherwise only that comment's content changes (when one is supplied), and its post and author stay |
| `CommentRoutes.DeleteComment` | src/routes/commentRoutes.ts:353-376 | 404 and no change for an absent id; otherwise exactly that comment is removed and nothing else changes; `Wf` and `Integrity` kept |
| `CommentRoutes.DeleteThenGet` | src/routes/commentRoutes.ts:358-370 | after a delete, GET of that comment answers "Comment not found" |
| `TestRoutes.SeedUsers` | src/routes/testRoutes.ts:48-70 | the three fixture users, John Doe, Jane Smith and Bob Johnson, with the digest of "password123" |
| `TestRoutes.SeedPosts` | src/routes/testRoutes.ts:73-98 | the three fixture posts: two published (by John and by Jane) and John's draft |
| `TestRoutes.SeedComments` | src/routes/testRoutes.ts:101-123 | the three fixture comments, two on the first post and one on the second |
| `TestRoutes.Rows3` | src/routes/testRoutes.ts:48-123 | three rows created in sequence occupy exactly the three consecutive ids from the counter, in array order |
| `TestRoutes.Rows3Inserted` | src/routes/testRoutes.ts:48-70 | three inserts at consecutive ids into an empty table leave exactly `Rows3` |
| `TestRoutes.Clear` | src/routes/testRoutes.ts:156-168 | POST /api/test/clear empties all three tables, leaves the counters, and keeps `Wf` and `Integrity` |
| `TestRoutes.ClearStepsKeepIntegrity` | src/routes/testRoutes.ts:159-161 | comments, then posts, then users: each wipe leaves referential integrity |
| `TestRoutes.Seed` | src/routes/testRoutes.ts:40-137 | POST /api/test/seed always succeeds and answers three created rows, with their ids, for each table |
| `TestRoutes.SeedShowsDigests` | src/routes/testRoutes.ts:48-70 | every user row `seed` answers carries the digest of "password123": the creates have no `select` |
| `TestRoutes.SeedEmailsDistinct` | src/routes/testRoutes.ts:51-65 | the three fixture emails are pairwise distinct |
| `TestRoutes.Rows3EmailsUnique` | src/routes/testRoutes.ts:48-70 | three users with pairwise distinct emails keep the email column unique |
| `TestRoutes.SeedWellFormed` | src/routes/testRoutes.ts:40-123 | after seeding, the store is well formed and every reference points at a seeded row |
| `TestRoutes.FixtureWf` | src/routes/testRoutes.ts:48-123 | the fixture has fresh ids, references below the counters and unique emails |
| `TestRoutes.FixtureIntegrity` | src/routes/testRoutes.ts:101-123 | every fixture post's author, and every fixture comment's post and author, is a fixture row |
| `TestRoutes.SeedContents` | src/routes/testRoutes.ts:48-132 | after seeding, each table holds exactly the three fixture rows under the ids answered, in creation order, and the rows answered are the rows stored |
| `TestRoutes.FixtureContents` | src/routes/testRoutes.ts:48-123 | the fixture, row by row: keys, values and three rows per table |
| `TestRoutes.SeedForgetsPriorRows` | src/routes/testRoutes.ts:43-45 | two stores with the same counters seed to the same result: earlier rows are all discarded |
| `Scenarios.SeededUsersListed` | __tests__/e2e/user.test.ts:17-30 | after seeding, the listing has three users with emails john@, jane@ and bob@example.com |
| `Scenarios.SeededJohnFound` | __tests__/e2e/user.test.ts:34-44 | after seeding, GET of the first user answers John's id, email and name |
| `Scenarios.SeededDuplicateEmail` | __tests__/e2e/user.test.ts:71-82 | after seeding, creating a user with John's email answers 409 and changes nothing |
| `Scenarios.SeededRenameJane` | __tests__/e2e/user.test.ts:86-98 | after seeding, renaming Jane answers the new name with her email unchanged |
| `Scenarios.SeededDeleteJohn` | src/routes/userRoutes.ts:329-357 | after seeding, deleting John leaves Jane, Bob and the second post |
| `Scenarios.SeededDeleteJohnComments` | src/routes/userRoutes.ts:329-357 | the same delete removes all three seeded comments |
| `Scenarios.SeededPostsListed` | __tests__/e2e/post.test.ts:17-30 | after seeding, the post listing has three posts titled "First Post", "Second Post" and "Draft Post" |
| `Scenarios.SeededPublishedListed` | __tests__/e2e/post.test.ts:32-43 | after seeding, `published=true` lists two posts, all published |
| `Scenarios.SeededFirstPostFound` | __tests__/e2e/post.test.ts:46-63 | after seeding, GET of the first post answers its title, content, flag, John as author and its two comments |
| `Scenarios.SeededDeleteDraft` | __tests__/e2e/post.test.ts:140-153 | after seeding, deleting the draft succeeds, GET of it answers 404, and referential integrity still holds |
| `EntityStore.Store.constructor` | __tests__/db-setup.ts:19-23 | a freshly reset database (`prisma db push --force-reset`): no rows, every counter at 1 |
| `EntityStore.Store.InsertUser` | src/routes/userRoutes.ts:191-196 | a create takes the next user id and adds exactly that row |
| `EntityStore.Store.InsertPost` | src/routes/postRoutes.ts:208-215 | a create takes the next post id and adds exactly that row |
| `EntityStore.Store.InsertComment` | src/routes/commentRoutes.ts:227-232 | a create takes the next comment id and adds exactly that row |
| `EntityStore.Store.CreateUser` | src/routes/userRoutes.ts:173-212 | the step-by-step handler reaches exactly the state and answer of `UserRoutes.CreateUser` |
| `EntityStore.Store.UpdateUser` | src/routes/userRoutes.ts:252-293 | building the update field by field reaches exactly `UserRoutes.UpdateUser` |
| `EntityStore.Store.DeleteUser` | src/routes/userRoutes.ts:314-361 | the four ordered deletions reach exactly `UserRoutes.DeleteUser`, and keep referential integrity |
| `EntityStore.Store.CreatePost` | src/routes/postRoutes.ts:193-230 | reaches exactly `PostRoutes.CreatePost` |
| `EntityStore.Store.UpdatePost` | src/routes/postRoutes.ts:270-308 | reaches exactly `PostRoutes.UpdatePost` |
| `EntityStore.Store.DeletePost` | src/routes/postRoutes.ts:329-352 | reaches exactly `PostRoutes.DeletePost` |
| `EntityStore.Store.CreateComment` | src/routes/commentRoutes.ts:202-254 | the post check, the author check and the insert reach exactly `CommentRoutes.CreateComment` |
| `EntityStore.Store.UpdateComment` | src/routes/commentRoutes.ts:290-332 | reaches exactly `CommentRoutes.UpdateComment` |
| `EntityStore.Store.DeleteComment` | src/routes/commentRoutes.ts:353-376 | reaches exactly `CommentRoutes.DeleteComment` |
| `EntityStore.Store.Clear` | src/routes/testRoutes.ts:156-168 | the three ordered wipes reach exactly `TestRoutes.Clear` |
| `EntityStore.Store.InsertUsers3` | src/routes/testRoutes.ts:48-70 | three user creates into the emptied table leave exactly `Rows3` from the counter |
| `EntityStore.Store.InsertPosts3` | src/routes/testRoutes.ts:73-98 | three post creates into the emptied table leave exactly `Rows3` from the counter |
| `EntityStore.Store.InsertComments3` | src/routes/testRoutes.ts:101-123 | three comment creates into the emptied table leave exactly `Rows3` from the counter |
| `EntityStore.Store.Seed` | src/routes/testRoutes.ts:40-137 | clearing, then the users, posts and comments each built from the previous step's ids, reaches exactly `TestRoutes.Seed` |

## Left out

- Express routing, middleware, CORS and the Swagger documentation (src/app.ts): transport plumbing. The routers are modelled as one explicit store object. Of the named imports in src/app.ts:6-9, only `getCommentRouter` is exported by its route file; the other three route files export a router by default. That wiring is not part of this model.
- HTTP status codes and JSON bodies: each is one `Response` constructor. The `error` texts are not modelled; a `NotFound` names the missing row, which decides its "… not found" text.
- The catch-all 500 answers of GET, DELETE, `clear` and `seed`: they stand for a failing database, which this model does not have.
- bcrypt (src/routes/userRoutes.ts:188, 271, src/routes/testRoutes.ts:53, 60, 67): modelled as a function parameter `hash`. The random salt bcrypt draws on every call is not modelled, so equal passwords give equal digests here. In particular `TestRoutes.SeedForgetsPriorRows` finds the digests of two seeds equal only because of this; the real seed stores fresh digests each time. No claim is made that a digest differs from its plain text, since nothing about the hash function is assumed.
- The Prisma client, its construction and its signal handlers (src/lib/prisma.ts), and context wiring (src/prepareContext.ts, src/index.ts): foreign library and process plumbing.
- `Promise.all` in `seed`: the three creates of each batch are modelled one after another in array order. Concurrent creates could take their ids in another order.
- The check-then-act race on email uniqueness: one request is modelled at a time. `UpdateUser`'s unique-constraint failure is modelled as the 400 the constraint raises.
- `Number()` coercion of path and query text, and of the `authorId` and `postId` body fields (src/routes/postRoutes.ts:199, 213, src/routes/commentRoutes.ts:208, 218): ids are integers. A non-numeric id (NaN) and the error Prisma raises for it are not modelled. An absent or empty `postId` query is `None`.
- Integer width: ids are unbounded integers. Prisma's `Int` column is 32-bit, so an id outside that range most likely makes the query throw (500 or 400), where the model answers `NotFound`. The counters are not bounded either.
- Request bodies are typed: a string field is `Option<string>`, a flag `Option<bool>`. JSON `null` is read as absent, and values of other JSON types are not modelled. This hides what Prisma does with an explicit `null` in an update, where the model keeps the old value and answers `Ok`:
  - `content: null` in PUT /api/posts/:id clears the post's content (src/routes/postRoutes.ts:288-292);
  - a null `title` or `published` there makes the update throw and answer 400;
  - a null `content` in PUT /api/comments/:id (src/routes/commentRoutes.ts:308-310) makes the update throw and answer 400.
- `createdAt` / `updatedAt` timestamps: omitted from rows and views.
- The database schema is not part of this model, and embedded author and post summaries are `Option` because such a row may be gone.
- `PostRoutes.DeletePost`: the model assumes no foreign key on a comment's post id, so deleting a post with comments succeeds and leaves them behind (`PostRoutes.DeleteMayOrphanComments`). Under a required relation with Prisma's default `Restrict`, the delete at src/routes/postRoutes.ts:344 would instead throw and answer 500 with no change. The model makes no integrity claim for this handler.
- `UserRoutes.ListUsers`, `PostRoutes.ListPosts`, `CommentRoutes.ListComments`, `PostRoutes.GetPost`: the order of the returned arrays (for `GetPost`, of its embedded `comments`) is not modelled. A listing is the set of its entries, plus its length.
- Transactions: the user-deletion cascade is not atomic in the source. The model treats each handler as running to completion, so partial cascades after a crash are not modelled. `UserRoutes.DeleteStepsKeepIntegrity` does show that every intermediate state keeps referential integrity.
