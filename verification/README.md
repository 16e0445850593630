# chirp posts router, modelled in Dafny

This project models the posts router of chirp, an emoji-only micro-blog
(`src/server/api/routers/posts.ts`). The router has two procedures:

- `getAll` is a public query. It fetches the newest posts (at most 100, newest
  first). It asks the identity provider for the users behind the posts' author
  ids, in one request. Each user is shaped into a public-safe record
  (`filterUserForClient`). Every post is then paired with its author. If any
  author is missing, or has no username, the whole query fails with
  `INTERNAL_SERVER_ERROR`.
- `create` is an authenticated mutation. Its input schema requires the content
  to be emoji and 1 to 280 code units long. It writes a post whose author is
  the signed-in user.

The model is pure, like the source. It lives in `posts.dfy` (module `Posts`),
with `wrappers.dfy` for `Option` and `Result` and `scenarios.dfy` for two
concrete feeds.

- Strings are `JsString`, a sequence of UTF-16 code units. JavaScript's
  `.length`, which the schema's `min`/`max` checks use, counts these.
- `FilterUserForClient` is `filterUserForClient`. `FilterUsers` is the `.map`
  over the lookup result.
- `FindIndex` and `Find` are `users.find(...)`.
- `AuthorPost` is the body of the `posts.map` callback: it finds the author,
  tests the username's truthiness and narrows it.
- `Join` is the `posts.map` itself. The first throw aborts it, so a `Failure`
  carries no partial result.
- `GetAll` is the `getAll` query. It takes the posts the store returned and the
  identity provider's user-list lookup as a function parameter.
- `FindManyContract` states the store's promise for the feed query: at most
  100 posts, with `createdAt` non-increasing.
- `ContentIssues` and `Create` are the `create` input schema and mutation. The
  schema library's emoji test is the parameter `isEmoji`.

Facts about the router that the model keeps:

- The lookup is sent every author id in post order, duplicates included; the
  ids are not de-duplicated.
- The lookup is made even when there are no posts.
- `create` returns nothing to its caller. `Create` returns the record handed
  to the store so that its owner and content can be stated.
- The pages call `api.posts.getById` (src/pages/post/[id].tsx:13) and
  `api.posts.getPostsByUserId` (src/pages/[slug].tsx:15), but this router
  defines neither procedure, so neither is modelled.

## Model

| member | source | states |
|---|---|---|
| `Posts.FilterUserForClientIsProjection` | src/server/api/routers/posts.ts:12-18 | The client record keeps `id` and `username` and copies `imageUrl` into `profilePicture`. Two users give the same client record exactly when they agree on those three fields, so no private field leaks. |
| `Posts.FindIndex` | src/server/api/routers/posts.ts:41 | The index `find` stops at: no earlier user has the id, the user at the index has it, and the index is the list length only when no user has it. |
| `Posts.Find` | src/server/api/routers/posts.ts:41 | A found user has the requested id and is the first user in the list with that id. Nothing is found exactly when no user has the id. |
| `Posts.JoinEntries` | src/server/api/routers/posts.ts:39-55 | On success there is exactly one entry per post, in input order, and entry i holds post i unchanged. Its author is the first user whose id is post i's `authorId`, with username present, non-empty and equal to that user's, and profile picture carried over. |
| `Posts.JoinSucceedsIff` | src/server/api/routers/posts.ts:41-45 | The join succeeds if and only if every post's author is found with a truthy username. Otherwise the whole batch fails with `INTERNAL_SERVER_ERROR` and no partial result. |
| `Posts.GetAllLooksUpAuthorIdsOnce` | src/server/api/routers/posts.ts:31-35 | The lookup argument is every post's `authorId` in post order, duplicates included. The query's result depends on the identity provider only through its answer to that one request. |
| `Posts.GetAllKeepsFeedOrder` | src/server/api/routers/posts.ts:22-55 | Given the store's contract (at most 100 posts, newest first), a successful feed has one entry per fetched post, in the fetched order. So it has at most 100 entries and is ordered by `post.createdAt` descending. |
| `Posts.GetAllSucceedsWhenAuthorsKnown` | src/server/api/routers/posts.ts:31-55 | If the identity provider returns a user for every author id and every returned user carrying one of those ids has a non-empty username, the query does not throw; other returned users do not matter. |
| `Posts.ContentIssues` | src/server/api/routers/posts.ts:61 | The schema reports non-emoji content, content under 1 code unit and content over 280 code units, each exactly when it holds. It reports nothing exactly when the content is valid. It reports no other issue, none twice, and the issues in the order the checks are declared (emoji, minimum, maximum). |
| `Posts.Create` | src/server/api/routers/posts.ts:58-73 | The mutation accepts exactly emoji content of 1 to 280 code units. Otherwise it fails with `BAD_REQUEST` carrying exactly the schema's issue list, which is non-empty. An accepted write has `authorId` equal to the context's `userId` and the input content unchanged. |
| `Posts.CreateLengthEdges` | src/server/api/routers/posts.ts:61 | For emoji content, lengths 0 and 281 are rejected with the single matching issue and lengths 1 and 280 are accepted. Non-emoji content of a valid length is rejected with the emoji issue alone. |
| `Scenarios.FeedWithKnownAuthors` | src/server/api/routers/posts.ts:21-56 | For two posts by two known authors, fetched newest first, the feed pairs each post with its own author, newest first. |
| `Scenarios.FeedWithUnknownAuthor` | src/server/api/routers/posts.ts:41-45 | If the identity provider omits one author, the whole feed fails with `INTERNAL_SERVER_ERROR`. |

## Left out

- The post store's `findMany` and `create` calls are external I/O. The fetched
  posts are an input, and `FindManyContract` is the promise assumed of them.
  The write itself is not performed. The store-assigned `id` and `createdAt`
  of the new post are not modelled.
- The identity provider's `getUserList` is external I/O and is a function
  parameter. Its own behaviour, such as which users it returns for a given id
  list, is not modelled. Any author it omits is treated as a missing author.
- The post record's fields (`id`, `authorId`, `content`, `createdAt`) are
  assumed, because the database schema is not part of this model. `createdAt`
  is an integer timestamp.
- The identity provider's user record has many private fields. `User` carries
  first name, last name and e-mail addresses as representatives of them.
- The schema library's emoji regular expression is not visible and is the
  parameter `isEmoji`.
- `console.log(users)` at line 37 is a side effect only.
- The router and procedure plumbing and the authentication of
  `privatePocedure` are framework code. The signed-in user's id is the
  `Context` parameter.
- The schema also rejects, with `BAD_REQUEST`, input whose `content` is
  missing or not a string, before its checks run. `CreateInput` holds a
  string, so that error path is not modelled.
- A rejected `findMany`, `getUserList` or `post.create` call throws and fails
  the procedure. The fetched posts are a plain input and `getUserList` is a
  total function, so those failures are not modelled.
- `create` returns `undefined` to its caller. The model returns the written
  record instead, so that the owner and content of the write can be stated.
- The UI files (`src/components/postview.tsx`, `src/components/layout.tsx`,
  `src/pages/_app.tsx` and the pages) are rendering only.
