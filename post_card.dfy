/**
 * The values a post card derives from its post and the signed-in user, and
 * the card's own state: the comment being typed and the bookmark flag.
 */
module PostCardView {
  import opened Wrappers
  import opened Text
  import opened Domain
  import opened Feed

  /** `post.likedBy.includes(currentUser.id)`: drives the heart and the Like/Unlike label. */
  predicate IsLiked(post: Post, currentUser: User): (r: bool)
    ensures r <==> exists i :: 0 <= i < |post.likedBy| && post.likedBy[i] == currentUser.id
  {
    currentUser.id in post.likedBy
  }

  /** Pressing the heart flips what the card shows. */
  lemma IsLikedFlips(post: Post, currentUser: User)
    ensures IsLiked(ToggleLikeOnPost(post, currentUser.id), currentUser) == !IsLiked(post, currentUser)
  {
  }

  /** `likedBy.find((id) => id !== currentId)`: the first liker who is not the viewer. */
  function PrimaryLiker(likedBy: seq<string>, currentId: string): (r: Option<string>)
    ensures r.None? <==> forall i :: 0 <= i < |likedBy| ==> likedBy[i] == currentId
    ensures r.Some? ==> exists k :: 0 <= k < |likedBy| && likedBy[k] == r.value && r.value != currentId &&
                                    forall j :: 0 <= j < k ==> likedBy[j] == currentId
  {
    if likedBy == [] then None
    else if likedBy[0] != currentId then
      Some(likedBy[0])
    else
      var r := PrimaryLiker(likedBy[1..], currentId);
      assert forall i :: 1 <= i < |likedBy| ==> likedBy[i] == likedBy[1..][i - 1];
      if r.Some? then
        assert exists k :: 1 <= k < |likedBy| && likedBy[k] == r.value &&
                           forall j :: 0 <= j < k ==> likedBy[j] == currentId by {
          var k :| 0 <= k < |likedBy[1..]| && likedBy[1..][k] == r.value &&
                   forall j :: 0 <= j < k ==> likedBy[1..][j] == currentId;
          assert likedBy[k + 1] == r.value;
        }
        r
      else r
  }

  /** The "Liked by ⟨username⟩ [and others]" line under the picture. */
  datatype LikedByLine = LikedByLine(liker: User, andOthers: bool)

  /**
   * The line appears when the first other liker resolves to a user record
   * (`getUserById`, a lookup this model takes as a parameter; an empty id is
   * falsy and is never looked up), and "and others" is added when more than
   * one id is in `likedBy`. The third clause (no line when every liker is
   * the viewer) follows from the fourth and `PrimaryLiker`'s contract; it is
   * kept because it is the case a reader looks for.
   */
  function LikedByLineFor(post: Post, currentUser: User, getUserById: string -> Option<User>): (r: Option<LikedByLine>)
    ensures r.Some? ==> var primary := PrimaryLiker(post.likedBy, currentUser.id);
                        primary.Some? && primary.value != "" && getUserById(primary.value) == Some(r.value.liker)
    ensures r.Some? ==> (r.value.andOthers <==> |post.likedBy| > 1)
    ensures (forall i :: 0 <= i < |post.likedBy| ==> post.likedBy[i] == currentUser.id) ==> r.None?
    ensures var primary := PrimaryLiker(post.likedBy, currentUser.id);
            r.None? <==> (primary.None? || primary.value == "" || getUserById(primary.value).None?)
  {
    var primary := PrimaryLiker(post.likedBy, currentUser.id);
    var primaryUser := if primary.Some? && primary.value != "" then getUserById(primary.value) else None;
    match primaryUser
    case None => None
    case Some(u) => Some(LikedByLine(u, |post.likedBy| > 1))
  }

  /** When "and others" is shown, `likedBy` holds at least two ids, at least one of them not the viewer's. */
  lemma AndOthersMeansTwoLikers(post: Post, currentUser: User, getUserById: string -> Option<User>)
    requires var line := LikedByLineFor(post, currentUser, getUserById); line.Some? && line.value.andOthers
    ensures |post.likedBy| >= 2
    ensures exists k :: 0 <= k < |post.likedBy| && post.likedBy[k] != currentUser.id
  {
  }

  /** `!commentText.trim()`: the Post button is disabled exactly for whitespace-only text. */
  function PostDisabled(commentText: string): (r: bool)
    ensures r <==> AllWhitespace(commentText)
  {
    TrimEmptyIff(commentText);
    Trim(commentText) == []
  }

  /** What a submit passes to `onAddComment`, if anything: the trimmed text, never empty. */
  function SubmitValue(commentText: string): (r: Option<string>)
    ensures r.None? <==> PostDisabled(commentText)
    ensures r.Some? ==> r.value != [] && IsTrimmed(r.value) && r.value == Trim(commentText)
  {
    var value := Trim(commentText);
    if value == [] then None else Some(value)
  }

  /**
   * What a card submits is accepted unchanged by the feed's own guard: the
   * feed appends a comment with exactly that text, since trimming again
   * changes nothing.
   */
  lemma SubmittedCommentReachesFeed(commentText: string, posts: seq<Post>, user: User, postId: string,
                                    now: nat, createdAt: string)
    requires SubmitValue(commentText).Some?
    ensures var v := SubmitValue(commentText).value;
            var r := AddComment(posts, Some(user), postId, v, now, createdAt);
            forall i :: 0 <= i < |posts| && posts[i].id == postId ==>
              r[i].comments == posts[i].comments + [NewComment(postId, v, user, now, createdAt)]
  {
    var v := SubmitValue(commentText).value;
    TrimOfTrimmed(v);
    TrimEmptyIff(v);
  }

  /** The call a card makes upward. */
  datatype AddCommentCall = AddCommentCall(postId: string, text: string)

  /** A mounted post card with its local state. */
  class PostCard {
    const post: Post
    const currentUser: User
    var commentText: string
    var isSaved: bool

    constructor (post: Post, currentUser: User)
      ensures this.post == post && this.currentUser == currentUser
      ensures commentText == "" && !isSaved
    {
      this.post := post;
      this.currentUser := currentUser;
      commentText := "";
      isSaved := false;
    }

    /** The input's `onChange`. */
    method ChangeCommentText(value: string)
      modifies this
      ensures commentText == value && isSaved == old(isSaved)
    {
      commentText := value;
    }

    /**
     * `handleSubmit`: whitespace-only text calls nothing and keeps the input;
     * otherwise the trimmed text goes to `onAddComment` once and the input is cleared.
     */
    method HandleSubmit() returns (call: Option<AddCommentCall>)
      modifies this
      ensures isSaved == old(isSaved)
      ensures AllWhitespace(old(commentText)) ==> call == None && commentText == old(commentText)
      ensures !AllWhitespace(old(commentText)) ==>
                call == Some(AddCommentCall(post.id, Trim(old(commentText)))) && commentText == ""
    {
      var value := SubmitValue(commentText);
      if value.None? {
        call := None;
        return;
      }
      call := Some(AddCommentCall(post.id, value.value));
      commentText := "";
    }

    /** The bookmark button: `setIsSaved((prev) => !prev)`. */
    method ToggleSaved()
      modifies this
      ensures isSaved == !old(isSaved) && commentText == old(commentText)
    {
      isSaved := !isSaved;
    }
  }
}
