/**
 * The feed reducers of the home page: toggling a like, appending a comment
 * and hiding the current user from the suggestion list. Each is a pure
 * function from the previous post list (or suggestion list) to the next;
 * the `Home` class below stores the results the way the page's state
 * setters do.
 */
module Feed {
  import opened Wrappers
  import opened Text
  import opened Domain

  // ---------------------------------------------------------------------
  // Liking
  // ---------------------------------------------------------------------

  /** `likedBy.filter((id) => id !== x)`. */
  function Without(ids: seq<string>, x: string): (r: seq<string>)
    ensures |r| <= |ids|
    ensures multiset(r) == multiset(ids)[x := 0]
    ensures forall y :: y in r <==> y in ids && y != x
  {
    if ids == [] then []
    else
      assert ids == [ids[0]] + ids[1..];
      if ids[0] == x then Without(ids[1..], x)
      else [ids[0]] + Without(ids[1..], x)
  }

  /** The filter keeps the relative order of what it keeps. */
  lemma {:induction false} WithoutAppend(a: seq<string>, b: seq<string>, x: string)
    ensures Without(a + b, x) == Without(a, x) + Without(b, x)
  {
    if a == [] {
      assert a + b == b;
    } else {
      assert (a + b)[1..] == a[1..] + b;
      WithoutAppend(a[1..], b, x);
    }
  }

  /** Filtering out an id that is not there changes nothing. */
  lemma {:induction false} WithoutAbsent(ids: seq<string>, x: string)
    requires x !in ids
    ensures Without(ids, x) == ids
  {
    if ids != [] {
      WithoutAbsent(ids[1..], x);
    }
  }

  lemma NoDuplicatesTail(ids: seq<string>)
    requires NoDuplicates(ids) && ids != []
    ensures NoDuplicates(ids[1..]) && ids[0] !in ids[1..]
  {
    var t := ids[1..];
    forall i, j | 0 <= i < j < |t| ensures t[i] != t[j] {
      assert t[i] == ids[i + 1] && t[j] == ids[j + 1];
    }
    forall k | 0 <= k < |t| ensures t[k] != ids[0] {
      assert t[k] == ids[k + 1];
    }
  }

  lemma NoDuplicatesCons(h: string, t: seq<string>)
    requires NoDuplicates(t) && h !in t
    ensures NoDuplicates([h] + t)
  {
    var s := [h] + t;
    forall i, j | 0 <= i < j < |s| ensures s[i] != s[j] {
      assert s[j] == t[j - 1];
      if i > 0 {
        assert s[i] == t[i - 1];
      }
    }
  }

  /** Filtering a duplicate-free list keeps it duplicate-free and removes exactly one entry if `x` was there. */
  lemma {:induction false} WithoutNoDuplicates(ids: seq<string>, x: string)
    requires NoDuplicates(ids)
    ensures NoDuplicates(Without(ids, x))
    ensures |Without(ids, x)| == if x in ids then |ids| - 1 else |ids|
  {
    if ids != [] {
      var t := ids[1..];
      assert ids == [ids[0]] + t;
      NoDuplicatesTail(ids);
      WithoutNoDuplicates(t, x);
      if ids[0] == x {
        WithoutAbsent(t, x);
      } else {
        NoDuplicatesCons(ids[0], Without(t, x));
      }
    }
  }

  /** The per-post transform of the like handler, for the acting user's id `uid`. */
  function ToggleLikeOnPost(p: Post, uid: string): (r: Post)
    ensures r == p.(likedBy := r.likedBy, likeCount := r.likeCount)
    ensures uid in r.likedBy <==> uid !in p.likedBy
    ensures uid !in p.likedBy ==> r.likedBy == p.likedBy + [uid] && r.likeCount == p.likeCount + 1
    ensures uid in p.likedBy ==>
              r.likedBy == Without(p.likedBy, uid) &&
              multiset(r.likedBy) == multiset(p.likedBy)[uid := 0] &&
              r.likeCount == (if p.likeCount > 0 then p.likeCount - 1 else 0)
    ensures p.likeCount >= 0 ==> r.likeCount >= 0
  {
    var hasLiked := uid in p.likedBy;
    var likedBy := if hasLiked then Without(p.likedBy, uid) else p.likedBy + [uid];
    p.(likedBy := likedBy,
       likeCount := if hasLiked then Max(0, p.likeCount - 1) else p.likeCount + 1)
  }

  /** `Math.max` on two integers. */
  function Max(a: int, b: int): (r: int)
    ensures r >= a && r >= b && (r == a || r == b)
  {
    if a >= b then a else b
  }

  /** Liking then unliking, from a state where the user had not liked, restores the post. */
  lemma ToggleTwiceRestores(p: Post, uid: string)
    requires uid !in p.likedBy
    requires p.likeCount >= 0
    ensures ToggleLikeOnPost(ToggleLikeOnPost(p, uid), uid) == p
  {
    WithoutAppend(p.likedBy, [uid], uid);
    WithoutAbsent(p.likedBy, uid);
  }

  /**
   * Unliking then liking, from a state where the user had liked, keeps the
   * set of likers and moves the user's single entry to the end.
   */
  lemma ToggleTwiceFromLiked(p: Post, uid: string)
    requires uid in p.likedBy
    ensures var q := ToggleLikeOnPost(ToggleLikeOnPost(p, uid), uid);
            q.likedBy == Without(p.likedBy, uid) + [uid] &&
            (forall y :: y in q.likedBy <==> y in p.likedBy) &&
            (p.likeCount >= 1 ==> q.likeCount == p.likeCount)
  {
  }

  /** The like count agrees with a duplicate-free list of likers. */
  predicate LikesConsistent(p: Post) {
    NoDuplicates(p.likedBy) && p.likeCount == |p.likedBy|
  }

  /** One toggle keeps a consistent post consistent. */
  lemma ToggleKeepsLikesConsistent(p: Post, uid: string)
    requires LikesConsistent(p)
    ensures LikesConsistent(ToggleLikeOnPost(p, uid))
  {
    var r := ToggleLikeOnPost(p, uid);
    if uid in p.likedBy {
      WithoutNoDuplicates(p.likedBy, uid);
    } else {
      var s := p.likedBy + [uid];
      forall i, j | 0 <= i < j < |s| ensures s[i] != s[j] {
        if j == |s| - 1 {
          assert s[i] == p.likedBy[i];
        } else {
          assert s[i] == p.likedBy[i] && s[j] == p.likedBy[j];
        }
      }
    }
  }

  /** `prev.map(...)` of the like handler: only posts whose id is `postId` are toggled. */
  function ToggleLikeWhere(posts: seq<Post>, postId: string, uid: string): (r: seq<Post>)
    ensures |r| == |posts|
    ensures forall i :: 0 <= i < |posts| ==>
              r[i] == if posts[i].id == postId then ToggleLikeOnPost(posts[i], uid) else posts[i]
  {
    if posts == [] then []
    else
      var head := if posts[0].id == postId then ToggleLikeOnPost(posts[0], uid) else posts[0];
      [head] + ToggleLikeWhere(posts[1..], postId, uid)
  }

  /** `handleToggleLike`: ignored when nobody is signed in. */
  function ToggleLike(posts: seq<Post>, currentUser: Option<User>, postId: string): (r: seq<Post>)
    ensures currentUser.None? ==> r == posts
    ensures |r| == |posts|
    ensures forall i :: 0 <= i < |posts| && posts[i].id != postId ==> r[i] == posts[i]
    ensures forall i :: 0 <= i < |posts| && posts[i].id == postId && currentUser.Some? ==>
              r[i] == ToggleLikeOnPost(posts[i], currentUser.value.id)
  {
    match currentUser
    case None => posts
    case Some(u) => ToggleLikeWhere(posts, postId, u.id)
  }

  /** Every post of the feed is like-consistent. */
  predicate FeedLikesConsistent(posts: seq<Post>) {
    forall i :: 0 <= i < |posts| ==> LikesConsistent(posts[i])
  }

  lemma ToggleLikeKeepsFeedConsistent(posts: seq<Post>, currentUser: Option<User>, postId: string)
    requires FeedLikesConsistent(posts)
    ensures FeedLikesConsistent(ToggleLike(posts, currentUser, postId))
  {
    var r := ToggleLike(posts, currentUser, postId);
    forall i | 0 <= i < |r| ensures LikesConsistent(r[i]) {
      if posts[i].id == postId && currentUser.Some? {
        ToggleKeepsLikesConsistent(posts[i], currentUser.value.id);
      }
    }
  }

  /** A like intent: who clicked, on which post. */
  datatype LikeIntent = LikeIntent(actor: Option<User>, postId: string)

  /** Like intents applied in the order the user triggers them. */
  function ApplyLikes(posts: seq<Post>, intents: seq<LikeIntent>): (r: seq<Post>)
    ensures |r| == |posts|
    decreases intents
  {
    if intents == [] then posts
    else ApplyLikes(ToggleLike(posts, intents[0].actor, intents[0].postId), intents[1..])
  }

  /** Any sequence of like intents, from any users, keeps every like count equal to the number of likers. */
  lemma {:induction false} ApplyLikesKeepsFeedConsistent(posts: seq<Post>, intents: seq<LikeIntent>)
    requires FeedLikesConsistent(posts)
    ensures FeedLikesConsistent(ApplyLikes(posts, intents))
    decreases intents
  {
    if intents != [] {
      ToggleLikeKeepsFeedConsistent(posts, intents[0].actor, intents[0].postId);
      ApplyLikesKeepsFeedConsistent(ToggleLike(posts, intents[0].actor, intents[0].postId), intents[1..]);
    }
  }

  // ---------------------------------------------------------------------
  // Commenting
  // ---------------------------------------------------------------------

  /** Decimal rendering of a non-negative integer, as a template literal prints `Date.now()`. */
  function Decimal(n: nat): (r: string)
    ensures |r| >= 1
    ensures forall i :: 0 <= i < |r| ==> '0' <= r[i] <= '9'
  {
    var d := [(('0' as int) + n % 10) as char];
    if n < 10 then d else Decimal(n / 10) + d
  }

  /** The comment the add-comment handler builds; `now` is `Date.now()`, `createdAt` the ISO time. */
  function NewComment(postId: string, text: string, user: User, now: nat, createdAt: string): (c: Comment)
    ensures c.text == text && c.user == user && c.createdAt == createdAt
    ensures |c.id| > 2 + |postId| && c.id[..2 + |postId|] == "c-" + postId
  {
    Comment("c-" + postId + "-" + Decimal(now), text, user, createdAt)
  }

  /** Different timestamps print differently. */
  lemma {:induction false} DecimalInjective(m: nat, n: nat)
    requires Decimal(m) == Decimal(n)
    ensures m == n
  {
    var dm, dn := Decimal(m), Decimal(n);
    assert dm[|dm| - 1] == dn[|dn| - 1];
    assert m % 10 == n % 10;
    // A single digit prints as one character, anything larger as at least two.
    assert m >= 10 <==> |dm| >= 2;
    assert n >= 10 <==> |dn| >= 2;
    if m >= 10 {
      assert Decimal(m / 10) == dm[..|dm| - 1] == dn[..|dn| - 1] == Decimal(n / 10);
      DecimalInjective(m / 10, n / 10);
    }
  }

  /** Two comments made for the same post get the same id only if they were made at the same `Date.now()`. */
  lemma NewCommentIdsDiffer(postId: string, text1: string, text2: string, user1: User, user2: User,
                            now1: nat, now2: nat, createdAt1: string, createdAt2: string)
    requires NewComment(postId, text1, user1, now1, createdAt1).id == NewComment(postId, text2, user2, now2, createdAt2).id
    ensures now1 == now2
  {
    var prefix := "c-" + postId + "-";
    assert (prefix + Decimal(now1))[|prefix|..] == Decimal(now1);
    assert (prefix + Decimal(now2))[|prefix|..] == Decimal(now2);
    DecimalInjective(now1, now2);
  }

  /** `prev.map(...)` of the comment handler: `c` goes at the end of each post whose id is `postId`. */
  function AppendCommentWhere(posts: seq<Post>, postId: string, c: Comment): (r: seq<Post>)
    ensures |r| == |posts|
    ensures forall i :: 0 <= i < |posts| ==>
              r[i] == if posts[i].id == postId then posts[i].(comments := posts[i].comments + [c]) else posts[i]
  {
    if posts == [] then []
    else
      var head := if posts[0].id == postId then posts[0].(comments := posts[0].comments + [c]) else posts[0];
      [head] + AppendCommentWhere(posts[1..], postId, c)
  }

  /**
   * `handleAddComment`: nothing happens without a signed-in user or when the
   * text is whitespace only; otherwise each post with id `postId` gets one
   * new comment at the end, carrying the trimmed text and the current user,
   * and nothing else changes.
   */
  function AddComment(posts: seq<Post>, currentUser: Option<User>, postId: string, text: string,
                      now: nat, createdAt: string): (r: seq<Post>)
    ensures currentUser.None? || AllWhitespace(text) ==> r == posts
    ensures |r| == |posts|
    ensures forall i :: 0 <= i < |posts| && posts[i].id != postId ==> r[i] == posts[i]
    ensures forall i :: 0 <= i < |posts| && posts[i].id == postId && currentUser.Some? && !AllWhitespace(text) ==>
              var n := |posts[i].comments|;
              r[i] == posts[i].(comments := r[i].comments) &&
              |r[i].comments| == n + 1 &&
              r[i].comments[..n] == posts[i].comments &&
              r[i].comments[n] == NewComment(postId, Trim(text), currentUser.value, now, createdAt) &&
              r[i].comments[n].text == Trim(text) &&
              r[i].comments[n].user == currentUser.value &&
              r[i].comments[n].createdAt == createdAt
  {
    TrimEmptyIff(text);
    match currentUser
    case None => posts
    case Some(u) =>
      var trimmed := Trim(text);
      if trimmed == [] then posts
      else
        var r := AppendCommentWhere(posts, postId, NewComment(postId, trimmed, u, now, createdAt));
        assert forall i :: 0 <= i < |posts| && posts[i].id == postId ==>
                 r[i].comments[..|posts[i].comments|] == posts[i].comments;
        r
  }

  /** What a stored comment's text satisfies: non-empty and already trimmed. */
  predicate CommentWellFormed(c: Comment) {
    c.text != [] && IsTrimmed(c.text)
  }

  predicate FeedCommentsWellFormed(posts: seq<Post>) {
    forall i, k :: 0 <= i < |posts| && 0 <= k < |posts[i].comments| ==> CommentWellFormed(posts[i].comments[k])
  }

  /** Adding a comment never stores an empty or untrimmed text. */
  lemma AddCommentKeepsCommentsWellFormed(posts: seq<Post>, currentUser: Option<User>, postId: string,
                                          text: string, now: nat, createdAt: string)
    requires FeedCommentsWellFormed(posts)
    ensures FeedCommentsWellFormed(AddComment(posts, currentUser, postId, text, now, createdAt))
  {
    var r := AddComment(posts, currentUser, postId, text, now, createdAt);
    TrimEmptyIff(text);
    forall i, k | 0 <= i < |r| && 0 <= k < |r[i].comments| ensures CommentWellFormed(r[i].comments[k]) {
      if posts[i].id == postId && currentUser.Some? && !AllWhitespace(text) {
        var n := |posts[i].comments|;
        if k < n {
          assert r[i].comments[k] == r[i].comments[..n][k];
        }
      }
    }
  }

  /** Adding a comment leaves every post's likes alone, so like-consistency survives it. */
  lemma AddCommentKeepsFeedLikesConsistent(posts: seq<Post>, currentUser: Option<User>, postId: string,
                                           text: string, now: nat, createdAt: string)
    requires FeedLikesConsistent(posts)
    ensures FeedLikesConsistent(AddComment(posts, currentUser, postId, text, now, createdAt))
  {
  }

  /** Toggling a like leaves every post's comments alone, so well-formed comments stay well-formed. */
  lemma ToggleLikeKeepsCommentsWellFormed(posts: seq<Post>, currentUser: Option<User>, postId: string)
    requires FeedCommentsWellFormed(posts)
    ensures FeedCommentsWellFormed(ToggleLike(posts, currentUser, postId))
  {
  }

  /** Toggling a like leaves a post's comments alone, whatever they are. */
  lemma ToggleLikeIgnoresComments(p: Post, uid: string, comments: seq<Comment>)
    ensures ToggleLikeOnPost(p.(comments := comments), uid) == ToggleLikeOnPost(p, uid).(comments := comments)
  {
  }

  /** Commenting does not touch likes and liking does not touch comments, so the two commute. */
  lemma ToggleLikeAddCommentCommute(posts: seq<Post>, currentUser: Option<User>, likedPostId: string,
                                    postId: string, text: string, now: nat, createdAt: string)
    ensures ToggleLike(AddComment(posts, currentUser, postId, text, now, createdAt), currentUser, likedPostId)
         == AddComment(ToggleLike(posts, currentUser, likedPostId), currentUser, postId, text, now, createdAt)
  {
    TrimEmptyIff(text);
    if currentUser.Some? && !AllWhitespace(text) {
      var uid := currentUser.value.id;
      var c := NewComment(postId, Trim(text), currentUser.value, now, createdAt);
      var added := AppendCommentWhere(posts, postId, c);
      var toggled := ToggleLikeWhere(posts, likedPostId, uid);
      var a := ToggleLikeWhere(added, likedPostId, uid);
      var b := AppendCommentWhere(toggled, postId, c);
      forall i | 0 <= i < |posts| ensures a[i] == b[i] {
        if posts[i].id == postId {
          ToggleLikeIgnoresComments(posts[i], uid, posts[i].comments + [c]);
        }
      }
      assert a == b;
    }
  }

  // ---------------------------------------------------------------------
  // Suggestions
  // ---------------------------------------------------------------------

  /** `suggestions.filter((s) => s.user.id !== uid)`. */
  function SuggestionsExcept(suggestions: seq<Suggestion>, uid: string): (r: seq<Suggestion>)
    ensures |r| <= |suggestions|
    ensures forall s :: s in r <==> s in suggestions && s.user.id != uid
  {
    if suggestions == [] then []
    else
      assert suggestions == [suggestions[0]] + suggestions[1..];
      var rest := SuggestionsExcept(suggestions[1..], uid);
      if suggestions[0].user.id == uid then rest else [suggestions[0]] + rest
  }

  /** The filter is order-preserving: it distributes over concatenation. */
  lemma {:induction false} SuggestionsExceptAppend(a: seq<Suggestion>, b: seq<Suggestion>, uid: string)
    ensures SuggestionsExcept(a + b, uid) == SuggestionsExcept(a, uid) + SuggestionsExcept(b, uid)
  {
    if a == [] {
      assert a + b == b;
    } else {
      assert (a + b)[1..] == a[1..] + b;
      SuggestionsExceptAppend(a[1..], b, uid);
    }
  }

  /** When no suggestion is about `uid` the list comes back whole. */
  lemma {:induction false} SuggestionsExceptNone(suggestions: seq<Suggestion>, uid: string)
    requires forall i :: 0 <= i < |suggestions| ==> suggestions[i].user.id != uid
    ensures SuggestionsExcept(suggestions, uid) == suggestions
  {
    if suggestions != [] {
      SuggestionsExceptNone(suggestions[1..], uid);
    }
  }

  /** `filteredSuggestions`: the whole list when nobody is signed in, otherwise those about someone else. */
  function FilteredSuggestions(suggestions: seq<Suggestion>, currentUser: Option<User>): (r: seq<Suggestion>)
    ensures currentUser.None? ==> r == suggestions
    ensures currentUser.Some? ==> r == SuggestionsExcept(suggestions, currentUser.value.id)
    ensures currentUser.Some? ==> forall s :: s in r <==> s in suggestions && s.user.id != currentUser.value.id
  {
    match currentUser
    case None => suggestions
    case Some(u) => SuggestionsExcept(suggestions, u.id)
  }

  // ---------------------------------------------------------------------
  // Session state
  // ---------------------------------------------------------------------

  /** The home page's state: who is signed in, the working copy of the feed, and the create dialog. */
  class Home {
    var currentUser: Option<User>
    var showCreateModal: bool
    var feedPosts: seq<Post>
    const stories: seq<Story>
    const suggestions: seq<Suggestion>

    /** The feed invariants every handler keeps: like counts match the likers, comment texts are trimmed and non-empty. */
    ghost predicate Valid()
      reads this
    {
      FeedLikesConsistent(feedPosts) && FeedCommentsWellFormed(feedPosts)
    }

    /** Mounting: nobody signed in, dialog closed, feed and side lists as hydrated from the fixtures. */
    constructor (hydratedPosts: seq<Post>, hydratedStories: seq<Story>, hydratedSuggestions: seq<Suggestion>)
      ensures currentUser == None && !showCreateModal
      ensures feedPosts == hydratedPosts && stories == hydratedStories && suggestions == hydratedSuggestions
      ensures FeedLikesConsistent(hydratedPosts) && FeedCommentsWellFormed(hydratedPosts) ==> Valid()
    {
      currentUser := None;
      showCreateModal := false;
      feedPosts := hydratedPosts;
      stories := hydratedStories;
      suggestions := hydratedSuggestions;
    }

    method HandleToggleLike(postId: string)
      modifies this
      ensures feedPosts == ToggleLike(old(feedPosts), currentUser, postId)
      ensures currentUser == old(currentUser) && showCreateModal == old(showCreateModal)
      ensures old(Valid()) ==> Valid()
    {
      if Valid() {
        ToggleLikeKeepsFeedConsistent(feedPosts, currentUser, postId);
        ToggleLikeKeepsCommentsWellFormed(feedPosts, currentUser, postId);
      }
      feedPosts := ToggleLike(feedPosts, currentUser, postId);
    }

    method HandleAddComment(postId: string, text: string, now: nat, createdAt: string)
      modifies this
      ensures feedPosts == AddComment(old(feedPosts), currentUser, postId, text, now, createdAt)
      ensures currentUser == old(currentUser) && showCreateModal == old(showCreateModal)
      ensures old(Valid()) ==> Valid()
    {
      if Valid() {
        AddCommentKeepsCommentsWellFormed(feedPosts, currentUser, postId, text, now, createdAt);
        AddCommentKeepsFeedLikesConsistent(feedPosts, currentUser, postId, text, now, createdAt);
      }
      feedPosts := AddComment(feedPosts, currentUser, postId, text, now, createdAt);
    }

    /** The suggestion list handed to the side panel. */
    function ShownSuggestions(): (r: seq<Suggestion>)
      reads this
      ensures currentUser.None? ==> r == suggestions
      ensures currentUser.Some? ==> r == SuggestionsExcept(suggestions, currentUser.value.id)
      ensures currentUser.Some? ==> forall s :: s in r <==> s in suggestions && s.user.id != currentUser.value.id
    {
      FilteredSuggestions(suggestions, currentUser)
    }

    /** `onSelectUser={setCurrentUser}`; the chooser may hand over `undefined`, which reads as signed out. */
    method SelectUser(user: Option<User>)
      modifies this
      ensures currentUser == user
      ensures feedPosts == old(feedPosts) && showCreateModal == old(showCreateModal)
      ensures old(Valid()) ==> Valid()
    {
      currentUser := user;
    }

    method Logout()
      modifies this
      ensures currentUser == None
      ensures feedPosts == old(feedPosts) && showCreateModal == old(showCreateModal)
      ensures old(Valid()) ==> Valid()
    {
      currentUser := None;
    }

    method OpenCreateModal()
      modifies this
      ensures showCreateModal
      ensures currentUser == old(currentUser) && feedPosts == old(feedPosts)
      ensures old(Valid()) ==> Valid()
    {
      showCreateModal := true;
    }

    method CloseCreateModal()
      modifies this
      ensures !showCreateModal
      ensures currentUser == old(currentUser) && feedPosts == old(feedPosts)
      ensures old(Valid()) ==> Valid()
    {
      showCreateModal := false;
    }
  }
}
