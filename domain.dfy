/**
 * The records the feed works on, in the shape the presentation layer
 * receives them once ids have been resolved to user records ("hydrated").
 * All of them are immutable values; the view-model replaces whole records.
 */
module Domain {
  import opened Wrappers

  datatype User = User(
    id: string,
    username: string,
    name: string,
    avatar: string,
    bio: string,
    website: Option<string>,
    posts: int,
    followers: int,
    following: int)

  datatype Comment = Comment(id: string, text: string, user: User, createdAt: string)

  datatype Post = Post(
    id: string,
    user: User,
    image: string,
    caption: string,
    location: Option<string>,
    aspectRatio: Option<string>,
    createdAt: string,
    likedBy: seq<string>,   // ids of the users who liked the post, in like order
    likeCount: int,
    comments: seq<Comment>) // in the order they were added

  datatype Story = Story(id: string, user: User, image: string, isLive: bool)

  datatype Suggestion = Suggestion(id: string, user: User, reason: string)

  /** No id occurs twice in the sequence. */
  predicate NoDuplicates(ids: seq<string>) {
    forall i, j :: 0 <= i < j < |ids| ==> ids[i] != ids[j]
  }
}
