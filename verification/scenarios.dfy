/**
 * Two concrete feeds: one where the identity provider knows both authors,
 * and one where it omits an author.
 */
module Scenarios {
  import opened Wrappers
  import opened Posts

  const AUTHOR_ONE: JsString := [0x41, 0x31]               // "A1"
  const AUTHOR_TWO: JsString := [0x41, 0x32]               // "A2"
  const ALICE: JsString := [0x61, 0x6C, 0x69, 0x63, 0x65]  // "alice"
  const BOB: JsString := [0x62, 0x6F, 0x62]                // "bob"
  const IMAGE_ONE: JsString := [0x31]                      // "1"
  const IMAGE_TWO: JsString := [0x32]                      // "2"

  /** "👍" and "🎉": each one emoji, two UTF-16 code units. */
  const THUMBS_UP: JsString := [0xD83D, 0xDC4D]
  const PARTY: JsString := [0xD83C, 0xDF89]

  const OLDER: Post := Post([0x50, 0x31], AUTHOR_ONE, THUMBS_UP, 10)
  const NEWER: Post := Post([0x50, 0x32], AUTHOR_TWO, PARTY, 20)

  const USER_ONE: User := User(AUTHOR_ONE, Some(ALICE), IMAGE_ONE, None, None, [])
  const USER_TWO: User := User(AUTHOR_TWO, Some(BOB), IMAGE_TWO, None, None, [])

  /** The store returns the newer post first; both authors resolve, in feed order. */
  lemma FeedWithKnownAuthors(getUserList: seq<JsString> -> seq<User>)
    requires getUserList([AUTHOR_TWO, AUTHOR_ONE]) == [USER_ONE, USER_TWO]
    ensures GetAll([NEWER, OLDER], getUserList)
         == Success([AuthoredPost(NEWER, Author(AUTHOR_TWO, BOB, IMAGE_TWO)),
                     AuthoredPost(OLDER, Author(AUTHOR_ONE, ALICE, IMAGE_ONE))])
  {
    assert AuthorIds([NEWER, OLDER]) == [AUTHOR_TWO, AUTHOR_ONE];
    var posts, users := [NEWER, OLDER], FilterUsers([USER_ONE, USER_TWO]);
    assert FindIndex(users, AUTHOR_TWO) == 1;
    assert FindIndex(users, AUTHOR_ONE) == 0;
    JoinSucceedsIff(posts, users);
    JoinEntries(posts, users);
    var feed := Join(posts, users).value;
    assert IsEntryFor(feed[0], NEWER, users) && IsEntryFor(feed[1], OLDER, users);
    assert feed[0] == AuthoredPost(NEWER, Author(AUTHOR_TWO, BOB, IMAGE_TWO));
    assert feed[1] == AuthoredPost(OLDER, Author(AUTHOR_ONE, ALICE, IMAGE_ONE));
    assert feed == [AuthoredPost(NEWER, Author(AUTHOR_TWO, BOB, IMAGE_TWO)),
                    AuthoredPost(OLDER, Author(AUTHOR_ONE, ALICE, IMAGE_ONE))];
    assert GetAll(posts, getUserList) == Join(posts, users);
  }

  /** An author the identity provider does not return fails the whole feed. */
  lemma FeedWithUnknownAuthor(getUserList: seq<JsString> -> seq<User>)
    requires getUserList([AUTHOR_TWO, AUTHOR_ONE]) == [USER_ONE]
    ensures GetAll([NEWER, OLDER], getUserList) == Failure(InternalServerError)
  {
    assert AuthorIds([NEWER, OLDER]) == [AUTHOR_TWO, AUTHOR_ONE];
    var users := FilterUsers([USER_ONE]);
    assert FindIndex(users, AUTHOR_TWO) == 1;
  }
}
