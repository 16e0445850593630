/**
 * The posts router of the chirp micro-blog: the public `getAll` query, which
 * joins the newest posts with their authors' public identity records, and the
 * authenticated `create` mutation, which validates emoji-only content and
 * writes a new post for the signed-in user.
 *
 * The post store and the identity provider are outside the model: the posts
 * the store returns are an input constrained by `FindManyContract`, and the
 * identity provider's user-list lookup is a function parameter.
 */
module Posts {
  import opened Wrappers

  /** One UTF-16 code unit; JavaScript strings, and their `.length`, count these. */
  newtype CodeUnit = x: int | 0 <= x < 0x1_0000

  type JsString = seq<CodeUnit>

  /** A stored post; `createdAt` is the store-assigned timestamp. */
  datatype Post = Post(id: JsString, authorId: JsString, content: JsString, createdAt: int)

  /**
   * A user record as the identity provider returns it. Besides the three
   * public fields it carries private ones (names, e-mail addresses) that must
   * never reach a client.
   */
  datatype User = User(
    id: JsString,
    username: Option<JsString>,
    imageUrl: JsString,
    firstName: Option<JsString>,
    lastName: Option<JsString>,
    emailAddresses: seq<JsString>)

  /** The public-safe shape of a user. */
  datatype ClientUser = ClientUser(id: JsString, username: Option<JsString>, profilePicture: JsString)

  /** A client user whose username has been narrowed from optional to present. */
  datatype Author = Author(id: JsString, username: JsString, profilePicture: JsString)

  datatype AuthoredPost = AuthoredPost(post: Post, author: Author)

  /** The issues the input schema of `create` reports, in the order it checks them. */
  datatype Issue = NotEmoji | TooSmall(minimum: nat) | TooBig(maximum: nat)

  /** The position of an issue's check in the schema: emoji, then minimum, then maximum. */
  function IssueRank(issue: Issue): nat
  {
    match issue
    case NotEmoji => 0
    case TooSmall(_) => 1
    case TooBig(_) => 2
  }

  datatype Error = InternalServerError | BadRequest(issues: seq<Issue>)

  // ---------------------------------------------------------------------------
  // Shaping users for the client
  // ---------------------------------------------------------------------------

  function FilterUserForClient(user: User): ClientUser
  {
    ClientUser(user.id, user.username, user.imageUrl)
  }

  /**
   * The client shape is the projection of a user onto id, username and image
   * URL: those three are carried over, and two users yield the same client
   * record exactly when they agree on them, whatever their private fields.
   */
  lemma FilterUserForClientIsProjection(u: User, v: User)
    ensures FilterUserForClient(u).id == u.id
    ensures FilterUserForClient(u).username == u.username
    ensures FilterUserForClient(u).profilePicture == u.imageUrl
    ensures FilterUserForClient(u) == FilterUserForClient(v)
        <==> u.id == v.id && u.username == v.username && u.imageUrl == v.imageUrl
  {
  }

  /** `users.map(filterUserForClient)`. */
  function FilterUsers(users: seq<User>): seq<ClientUser>
  {
    seq(|users|, i requires 0 <= i < |users| => FilterUserForClient(users[i]))
  }

  // ---------------------------------------------------------------------------
  // The join of posts with their authors
  // ---------------------------------------------------------------------------

  /** `posts.map((post) => post.authorId)`: the argument of the user-list lookup. */
  function AuthorIds(posts: seq<Post>): seq<JsString>
  {
    seq(|posts|, i requires 0 <= i < |posts| => posts[i].authorId)
  }

  /**
   * The index `Array.prototype.find` stops at: the first user whose id equals
   * `id`, or `|users|` when there is none.
   */
  function FindIndex(users: seq<ClientUser>, id: JsString): (k: nat)
    ensures k <= |users|
    ensures forall j :: 0 <= j < k ==> users[j].id != id
    ensures k < |users| ==> users[k].id == id
  {
    if users == [] then 0
    else if users[0].id == id then 0
    else 1 + FindIndex(users[1..], id)
  }

  /** `users.find((user) => user.id === id)`, with `undefined` as `None`. */
  function Find(users: seq<ClientUser>, id: JsString): (found: Option<ClientUser>)
    ensures found.Some? ==> found.value.id == id
    ensures found.Some? ==>
      exists k :: 0 <= k < |users| && users[k] == found.value && forall j :: 0 <= j < k ==> users[j].id != id
    ensures found.None? <==> forall j :: 0 <= j < |users| ==> users[j].id != id
  {
    var k := FindIndex(users, id);
    if k < |users| then Some(users[k]) else None
  }

  /** JavaScript truthiness of a `string | null | undefined` username. */
  predicate Truthy(username: Option<JsString>)
  {
    username.Some? && username.value != []
  }

  /** The author lookup for `authorId` succeeds: a user is found and its username is truthy. */
  predicate Resolves(users: seq<ClientUser>, authorId: JsString)
  {
    var found := Find(users, authorId);
    found.Some? && Truthy(found.value.username)
  }

  /** `{ ...author, username: author.username }` once the username is known to be truthy. */
  function Narrow(user: ClientUser): Author
    requires Truthy(user.username)
  {
    Author(user.id, user.username.value, user.profilePicture)
  }

  /** The body of the `posts.map` callback: find the author, or throw. */
  function AuthorPost(users: seq<ClientUser>, post: Post): Result<AuthoredPost, Error>
  {
    var author := Find(users, post.authorId);
    if !(author.Some? && Truthy(author.value.username)) then Failure(InternalServerError)
    else Success(AuthoredPost(post, Narrow(author.value)))
  }

  /**
   * `posts.map(callback)`: the callback runs on each post in order, and the
   * first throw aborts the whole map, so no partial result is ever returned.
   */
  function Join(posts: seq<Post>, users: seq<ClientUser>): Result<seq<AuthoredPost>, Error>
    decreases |posts|
  {
    if posts == [] then Success([])
    else
      var head :- AuthorPost(users, posts[0]);
      var tail :- Join(posts[1..], users);
      Success([head] + tail)
  }

  /**
   * What a successful join puts at the place of `post`: the post itself, and
   * the first user whose id is the post's `authorId`, with its username present
   * and non-empty and its id and profile picture unchanged.
   */
  ghost predicate IsEntryFor(entry: AuthoredPost, post: Post, users: seq<ClientUser>)
  {
    && entry.post == post
    && var k := FindIndex(users, post.authorId);
    && k < |users|
    && entry.author.id == post.authorId
    && users[k].username == Some(entry.author.username)
    && entry.author.username != []
    && entry.author.profilePicture == users[k].profilePicture
  }

  /** On success the join has one entry per post, in input order, each with its author. */
  lemma {:induction false} JoinEntries(posts: seq<Post>, users: seq<ClientUser>)
    requires Join(posts, users).Success?
    ensures |Join(posts, users).value| == |posts|
    ensures forall i :: 0 <= i < |posts| ==> IsEntryFor(Join(posts, users).value[i], posts[i], users)
  {
    if posts != [] {
      JoinEntries(posts[1..], users);
      var r := Join(posts, users).value;
      var tail := Join(posts[1..], users).value;
      assert r == [AuthorPost(users, posts[0]).value] + tail;
      forall i | 0 <= i < |posts|
        ensures IsEntryFor(r[i], posts[i], users)
      {
        if i > 0 {
          assert r[i] == tail[i - 1] && posts[i] == posts[1..][i - 1];
        }
      }
    }
  }

  /**
   * The join succeeds exactly when every post's author is found with a truthy
   * username; otherwise the whole batch fails with INTERNAL_SERVER_ERROR.
   */
  lemma {:induction false} JoinSucceedsIff(posts: seq<Post>, users: seq<ClientUser>)
    ensures Join(posts, users).Success? <==> forall i :: 0 <= i < |posts| ==> Resolves(users, posts[i].authorId)
    ensures Join(posts, users).Failure? ==> Join(posts, users).error == InternalServerError
  {
    if posts != [] {
      JoinSucceedsIff(posts[1..], users);
      assert forall i :: 1 <= i < |posts| ==> posts[i] == posts[1..][i - 1];
      if !Resolves(users, posts[0].authorId) {
        assert Join(posts, users) == Failure(InternalServerError);
      } else if Join(posts[1..], users).Failure? {
        var i :| 0 <= i < |posts[1..]| && !Resolves(users, posts[1..][i].authorId);
        assert !Resolves(users, posts[i + 1].authorId);
      }
    }
  }

  // ---------------------------------------------------------------------------
  // getAll
  // ---------------------------------------------------------------------------

  /** The `take` bound of the feed query. */
  const FEED_LIMIT := 100

  /** Newest first: `createdAt` never increases along the sequence. */
  ghost predicate CreatedAtDescending(posts: seq<Post>)
  {
    forall i, j :: 0 <= i < j < |posts| ==> posts[i].createdAt >= posts[j].createdAt
  }

  /**
   * What the store promises for `findMany({ take: 100, orderBy: createdAt desc })`:
   * at most 100 posts, newest first.
   */
  ghost predicate FindManyContract(fetched: seq<Post>)
  {
    |fetched| <= FEED_LIMIT && CreatedAtDescending(fetched)
  }

  /**
   * The `getAll` query on the posts the store returned. `getUserList` stands
   * for the identity provider's user-list lookup, called once with the
   * posts' author ids.
   */
  function GetAll(fetched: seq<Post>, getUserList: seq<JsString> -> seq<User>): Result<seq<AuthoredPost>, Error>
  {
    var users := FilterUsers(getUserList(AuthorIds(fetched)));
    Join(fetched, users)
  }

  /**
   * `getAll` makes one user-list lookup, whose argument is the author id of
   * every fetched post in post order, duplicates included: the result depends
   * on the identity provider only through its answer to that one request.
   */
  lemma GetAllLooksUpAuthorIdsOnce(
    fetched: seq<Post>,
    getUserList: seq<JsString> -> seq<User>,
    otherGetUserList: seq<JsString> -> seq<User>)
    requires getUserList(AuthorIds(fetched)) == otherGetUserList(AuthorIds(fetched))
    ensures |AuthorIds(fetched)| == |fetched|
    ensures forall i :: 0 <= i < |fetched| ==> AuthorIds(fetched)[i] == fetched[i].authorId
    ensures GetAll(fetched, getUserList) == GetAll(fetched, otherGetUserList)
  {
  }

  /**
   * A successful feed keeps the store's contract: at most 100 entries, newest
   * post first, one entry per fetched post in the fetched order.
   */
  lemma GetAllKeepsFeedOrder(fetched: seq<Post>, getUserList: seq<JsString> -> seq<User>)
    requires FindManyContract(fetched)
    requires GetAll(fetched, getUserList).Success?
    ensures var feed := GetAll(fetched, getUserList).value;
      && |feed| == |fetched| <= FEED_LIMIT
      && (forall i :: 0 <= i < |feed| ==> feed[i].post == fetched[i])
      && (forall i, j :: 0 <= i < j < |feed| ==> feed[i].post.createdAt >= feed[j].post.createdAt)
  {
    JoinEntries(fetched, FilterUsers(getUserList(AuthorIds(fetched))));
  }

  /**
   * When the identity provider answers with a user for every author id and
   * every returned user with one of those ids has a non-empty username,
   * `getAll` does not throw; other returned users do not matter.
   */
  lemma GetAllSucceedsWhenAuthorsKnown(fetched: seq<Post>, getUserList: seq<JsString> -> seq<User>)
    requires forall i :: 0 <= i < |fetched| ==>
      exists j :: 0 <= j < |getUserList(AuthorIds(fetched))| && getUserList(AuthorIds(fetched))[j].id == fetched[i].authorId
    requires forall i, j ::
        0 <= i < |fetched| && 0 <= j < |getUserList(AuthorIds(fetched))| &&
        getUserList(AuthorIds(fetched))[j].id == fetched[i].authorId ==>
        Truthy(getUserList(AuthorIds(fetched))[j].username)
    ensures GetAll(fetched, getUserList).Success?
  {
    var raw := getUserList(AuthorIds(fetched));
    var users := FilterUsers(raw);
    forall i | 0 <= i < |fetched|
      ensures Resolves(users, fetched[i].authorId)
    {
      var j :| 0 <= j < |raw| && raw[j].id == fetched[i].authorId;
      assert users[j].id == fetched[i].authorId;
    }
    JoinSucceedsIff(fetched, users);
  }

  // ---------------------------------------------------------------------------
  // create
  // ---------------------------------------------------------------------------

  const CONTENT_MIN_LENGTH := 1
  const CONTENT_MAX_LENGTH := 280

  /** The authenticated request context: the signed-in user's id. */
  datatype Context = Context(userId: JsString)

  /** The validated input object `{ content }`. */
  datatype CreateInput = CreateInput(content: JsString)

  /** The `data` argument of the store's `post.create`. */
  datatype PostCreateData = PostCreateData(authorId: JsString, content: JsString)

  /**
   * The issues of `z.string().emoji().min(1).max(280)`: every failing check
   * reports one, in the order the checks are declared. `isEmoji` stands for
   * the emoji pattern of the schema library.
   */
  function ContentIssues(content: JsString, isEmoji: JsString -> bool): (issues: seq<Issue>)
    ensures NotEmoji in issues <==> !isEmoji(content)
    ensures TooSmall(CONTENT_MIN_LENGTH) in issues <==> |content| < CONTENT_MIN_LENGTH
    ensures TooBig(CONTENT_MAX_LENGTH) in issues <==> |content| > CONTENT_MAX_LENGTH
    ensures issues == [] <==> isEmoji(content) && CONTENT_MIN_LENGTH <= |content| <= CONTENT_MAX_LENGTH
    ensures forall x :: x in issues ==> x in [NotEmoji, TooSmall(CONTENT_MIN_LENGTH), TooBig(CONTENT_MAX_LENGTH)]
    ensures forall i, j :: 0 <= i < j < |issues| ==> IssueRank(issues[i]) < IssueRank(issues[j])
  {
    (if isEmoji(content) then [] else [NotEmoji])
    + (if |content| < CONTENT_MIN_LENGTH then [TooSmall(CONTENT_MIN_LENGTH)] else [])
    + (if |content| > CONTENT_MAX_LENGTH then [TooBig(CONTENT_MAX_LENGTH)] else [])
  }

  /**
   * The `create` mutation: input that fails the schema is rejected with
   * BAD_REQUEST before anything is written; otherwise the result is the record
   * handed to the store, owned by the signed-in user and holding the content
   * unchanged.
   */
  function Create(ctx: Context, input: CreateInput, isEmoji: JsString -> bool): (r: Result<PostCreateData, Error>)
    ensures r.Success? <==> isEmoji(input.content) && CONTENT_MIN_LENGTH <= |input.content| <= CONTENT_MAX_LENGTH
    ensures r.Success? ==> r.value.authorId == ctx.userId && r.value.content == input.content
    ensures r.Failure? ==> r.error == BadRequest(ContentIssues(input.content, isEmoji)) && r.error.issues != []
  {
    var issues := ContentIssues(input.content, isEmoji);
    if issues != [] then Failure(BadRequest(issues))
    else Success(PostCreateData(ctx.userId, input.content))
  }

  /**
   * The length bounds at their edges, for emoji content: 0 and 281 code units
   * are rejected, 1 and 280 accepted; non-emoji content is rejected even at a
   * valid length.
   */
  lemma CreateLengthEdges(ctx: Context, content: JsString, isEmoji: JsString -> bool)
    ensures isEmoji(content) && |content| == 0 ==>
      Create(ctx, CreateInput(content), isEmoji) == Failure(BadRequest([TooSmall(1)]))
    ensures isEmoji(content) && |content| == 281 ==>
      Create(ctx, CreateInput(content), isEmoji) == Failure(BadRequest([TooBig(280)]))
    ensures isEmoji(content) && (|content| == 1 || |content| == 280) ==>
      Create(ctx, CreateInput(content), isEmoji) == Success(PostCreateData(ctx.userId, content))
    ensures !isEmoji(content) && 1 <= |content| <= 280 ==>
      Create(ctx, CreateInput(content), isEmoji) == Failure(BadRequest([NotEmoji]))
  {
    var issues := ContentIssues(content, isEmoji);
    if isEmoji(content) && |content| == 0 {
      assert issues == [] + [TooSmall(1)] + [] == [TooSmall(1)];
    } else if isEmoji(content) && |content| == 281 {
      assert issues == [] + [] + [TooBig(280)] == [TooBig(280)];
    } else if !isEmoji(content) && 1 <= |content| <= 280 {
      assert issues == [NotEmoji] + [] + [] == [NotEmoji];
    }
  }
}
