# Feed view-model of the "Moments" demo app

This project models the logic of a demo photo-feed web app that holds all
of its data in memory. The home page keeps three pieces of session state:
the signed-in demo user, the working copy of the post list, and whether the
create dialog is open. Two reducers change the post list. Toggle-like adds
or removes the user's id in a post's `likedBy` and moves `likeCount` with it.
Add-comment appends a comment with the trimmed text. The suggestion panel
shows the suggestions about other users. Each post card derives its heart
state, a "Liked by … and others" line and the Post-button state, and keeps
its own comment draft and bookmark flag. The sign-in screen picks a demo
account by username.

Modules, one per source file plus shared ones:

- `Wrappers`: `Option`, standing for `null`/`undefined`.
- `Text`: JavaScript's `String.prototype.trim`. It strips ECMAScript
  WhiteSpace and LineTerminator characters (`IsWhitespace`).
- `Domain`: the hydrated records (`User`, `Post`, `Comment`, `Story`,
  `Suggestion`).
- `Feed` (`page.tsx`): the reducers as pure functions, plus class `Home`
  holding the page's state. Its handlers store the reducers' results.
- `PostCardView` (`PostCard.tsx`): the derived values, plus class `PostCard`
  for the card's local state.
- `Auth` (`AuthScreen.tsx`): the account lookup, plus class `AuthScreen`
  for the `username`/`error` state.

Inputs that are not computed here are parameters:

- `Date.now()` is `now: nat`.
- `new Date().toISOString()` is `createdAt: string`.
- `getUserById` is a function parameter `string -> Option<User>`.
- The hydrated posts, stories and suggestions are arguments of the `Home`
  constructor.

Two behaviours of the code are worth stating plainly:

- A non-empty username that matches no account is not rejected. Submit
  falls back to the first account (`AuthScreen.tsx:18-19`). With no
  accounts at all, it passes `undefined` (`None`) upward.
- The code does not keep `likeCount == |likedBy|` by itself. The model
  proves the weaker true statement: a toggle preserves "`likedBy` has no
  duplicates and `likeCount` equals its length" (`ToggleKeepsLikesConsistent`,
  `ApplyLikesKeepsFeedConsistent`). After an unlike, `likeCount` is floored
  at zero, not recomputed. If the user had not liked the post and
  `likeCount >= 0`, like then unlike restores the post exactly
  (`ToggleTwiceRestores`). If the user had liked it, unlike then like keeps
  the same likers and, when `likeCount >= 1`, the same count
  (`ToggleTwiceFromLiked`). A negative count is not restored: like then
  unlike takes `-3` to `0`.
- The feed invariants (consistent like counts, non-empty trimmed comment
  texts) are bundled as `Home.Valid()`. Every handler of `Home` keeps it.

## Model

| member | source | states |
|---|---|---|
| Text.TrimStartIndex | webapp/src/app/page.tsx:42 | everything before the start of the trimmed text is whitespace, and the character at the start is not |
| Text.TrimEndIndex | webapp/src/app/page.tsx:42 | the end is not before the start; everything from the end on is whitespace, and the last kept character is not |
| Text.Trim | webapp/src/app/page.tsx:42 | the trimmed text has no whitespace at either end |
| Text.TrimIsSlice | webapp/src/app/page.tsx:42 | the trimmed text is a contiguous slice of the input with only whitespace on either side |
| Text.TrimEmptyIff | webapp/src/app/page.tsx:42-43 | the trimmed text is empty iff the input is all whitespace |
| Text.TrimOfTrimmed | webapp/src/app/components/PostCard.tsx:39 | text with no whitespace at either end trims to itself |
| Text.TrimIdempotent | webapp/src/app/components/PostCard.tsx:39 | trimming twice equals trimming once |
| Feed.Without | webapp/src/app/page.tsx:29 | removing an id gives the multiset of the input with every copy of that id gone, so exactly the other ids remain |
| Feed.WithoutAppend | webapp/src/app/page.tsx:29 | the filter keeps order: it distributes over concatenation |
| Feed.WithoutAbsent | webapp/src/app/page.tsx:29 | removing an id that is not present changes nothing |
| Feed.WithoutNoDuplicates | webapp/src/app/page.tsx:29 | on a duplicate-free list the filter stays duplicate-free and shortens the list by one iff the id was present |
| Feed.Max | webapp/src/app/page.tsx:34 | `Math.max`: the result is at least both arguments and is one of them |
| Feed.ToggleLikeOnPost | webapp/src/app/page.tsx:27-35 | only `likedBy` and `likeCount` change; the user's membership flips; a like appends the id at the end and adds 1; an unlike is the order-preserving filter that removes every copy, and floors the count at 0; a non-negative count stays non-negative |
| Feed.ToggleTwiceRestores | webapp/src/app/page.tsx:27-34 | if the user had not liked and the count is non-negative, like then unlike gives back the same post |
| Feed.ToggleTwiceFromLiked | webapp/src/app/page.tsx:27-30 | if the user had liked, unlike then like keeps the same set of likers, moves the user to the end, and gives back the like count when it was at least 1 |
| Feed.ToggleKeepsLikesConsistent | webapp/src/app/page.tsx:27-34 | a toggle keeps "no duplicate likers and count equals number of likers" |
| Feed.ToggleLikeWhere | webapp/src/app/page.tsx:24-36 | same length and order; posts with `postId` are toggled and all other posts are returned unchanged |
| Feed.ToggleLike | webapp/src/app/page.tsx:22-38 | with no signed-in user the list is exactly unchanged; otherwise only posts with `postId` change, toggled for the current user's id |
| Feed.ToggleLikeKeepsFeedConsistent | webapp/src/app/page.tsx:24-36 | the handler keeps every post like-consistent if all were |
| Feed.ApplyLikes | webapp/src/app/page.tsx:22-38 | applying like intents in order keeps the feed length |
| Feed.ApplyLikesKeepsFeedConsistent | webapp/src/app/page.tsx:22-38 | any sequence of toggles by any users keeps every post like-consistent |
| Feed.Decimal | webapp/src/app/page.tsx:48 | the rendered timestamp is a non-empty string of decimal digits |
| Feed.NewComment | webapp/src/app/page.tsx:47-52 | the comment carries the given text, user and time, and its id starts with `c-` and the post id |
| Feed.DecimalInjective | webapp/src/app/page.tsx:48 | different timestamps print as different digit strings |
| Feed.NewCommentIdsDiffer | webapp/src/app/page.tsx:48 | two comment ids for the same post are equal only if they were made at the same `Date.now()` |
| Feed.AppendCommentWhere | webapp/src/app/page.tsx:44-57 | same length; each post with `postId` gets the comment at the end of its comments and keeps its other fields; all other posts are unchanged |
| Feed.AddComment | webapp/src/app/page.tsx:40-59 | no-op without a user or for whitespace-only text; otherwise each post with `postId` gains exactly one last comment, the one `NewComment` builds from the trimmed text, the current user and the given time (so its id carries `Date.now()`); its earlier comments, its other fields and all other posts are unchanged |
| Feed.AddCommentKeepsCommentsWellFormed | webapp/src/app/page.tsx:42-55 | after adding a comment, every stored comment text is still non-empty and trimmed |
| Feed.AddCommentKeepsFeedLikesConsistent | webapp/src/app/page.tsx:53-56 | adding a comment keeps every post like-consistent |
| Feed.ToggleLikeKeepsCommentsWellFormed | webapp/src/app/page.tsx:31-35 | toggling a like keeps every stored comment text non-empty and trimmed |
| Feed.ToggleLikeIgnoresComments | webapp/src/app/page.tsx:31-35 | toggling a like gives the same post whatever its comments are |
| Feed.ToggleLikeAddCommentCommute | webapp/src/app/page.tsx:22-59 | toggling a like and adding a comment commute on the post list |
| Feed.SuggestionsExcept | webapp/src/app/page.tsx:63 | a suggestion is kept iff it is in the input and about someone other than `uid` |
| Feed.SuggestionsExceptAppend | webapp/src/app/page.tsx:63 | the filter preserves order: it distributes over concatenation |
| Feed.SuggestionsExceptNone | webapp/src/app/page.tsx:63 | if no suggestion is about `uid` the list comes back whole |
| Feed.FilteredSuggestions | webapp/src/app/page.tsx:61-64 | with no user, the whole list; otherwise the order-preserving filter, which holds exactly the suggestions about other users |
| Feed.Home.constructor | webapp/src/app/page.tsx:15-20 | nobody is signed in, the dialog is closed, and the feed and side lists are the hydrated ones; hydrated posts that meet the feed invariants give a valid state |
| Feed.Home.HandleToggleLike | webapp/src/app/page.tsx:22-38 | the feed becomes `ToggleLike` of the old feed; user and dialog are unchanged; `Valid()` is preserved |
| Feed.Home.HandleAddComment | webapp/src/app/page.tsx:40-59 | the feed becomes `AddComment` of the old feed; user and dialog are unchanged; `Valid()` is preserved |
| Feed.Home.ShownSuggestions | webapp/src/app/page.tsx:61-64 | the panel gets all suggestions when signed out, and otherwise the order-preserving filter of those about other users |
| Feed.Home.SelectUser | webapp/src/app/page.tsx:108 | the chooser's callback sets the current user and nothing else; `Valid()` is preserved |
| Feed.Home.Logout | webapp/src/app/page.tsx:76 | logout clears the current user and leaves the feed and dialog alone; `Valid()` is preserved |
| Feed.Home.OpenCreateModal | webapp/src/app/page.tsx:75 | the dialog opens; user and feed are unchanged; `Valid()` is preserved |
| Feed.Home.CloseCreateModal | webapp/src/app/page.tsx:68 | the dialog closes; user and feed are unchanged; `Valid()` is preserved |
| PostCardView.IsLiked | webapp/src/app/components/PostCard.tsx:33 | the post counts as liked iff some entry of `likedBy` is the viewer's id |
| PostCardView.IsLikedFlips | webapp/src/app/components/PostCard.tsx:33 | the heart state after a toggle is the opposite of before |
| PostCardView.PrimaryLiker | webapp/src/app/components/PostCard.tsx:34 | none iff every liker is the viewer; otherwise the first id in `likedBy` that differs from the viewer's |
| PostCardView.LikedByLineFor | webapp/src/app/components/PostCard.tsx:148-152 | the line shows exactly when the primary liker is non-empty and resolves to a user, and that user is shown; "and others" iff `likedBy` holds more than one id; no line when every liker is the viewer |
| PostCardView.AndOthersMeansTwoLikers | webapp/src/app/components/PostCard.tsx:148-152 | "and others" implies at least two ids in `likedBy`, one of them not the viewer's |
| PostCardView.PostDisabled | webapp/src/app/components/PostCard.tsx:191 | the Post button is disabled iff the draft is all whitespace |
| PostCardView.SubmitValue | webapp/src/app/components/PostCard.tsx:39-40 | nothing is submitted iff the button is disabled; a submitted value is the trimmed draft, non-empty and trimmed |
| PostCardView.SubmittedCommentReachesFeed | webapp/src/app/components/PostCard.tsx:39-41 | what a card submits passes the feed's own guard unchanged: each matching post gains exactly a comment with that text |
| PostCardView.PostCard.constructor | webapp/src/app/components/PostCard.tsx:30-31 | a new card has an empty draft and is not saved |
| PostCardView.PostCard.ChangeCommentText | webapp/src/app/components/PostCard.tsx:186 | typing replaces the draft and leaves the saved flag alone |
| PostCardView.PostCard.HandleSubmit | webapp/src/app/components/PostCard.tsx:37-43 | a whitespace-only draft calls nothing and is kept; otherwise `onAddComment(post.id, trim(draft))` is called once and the draft is cleared |
| PostCardView.PostCard.ToggleSaved | webapp/src/app/components/PostCard.tsx:131 | the Save button negates `isSaved` and leaves the draft alone |
| Auth.FindByUsername | webapp/src/app/components/AuthScreen.tsx:18 | none iff no account has that username; otherwise the first account that has it |
| Auth.SelectedAccount | webapp/src/app/components/AuthScreen.tsx:18-19 | the first matching account; else the first account if there is one; else none; a selected account is one of the accounts |
| Auth.ClickThenSubmitSelects | webapp/src/app/components/AuthScreen.tsx:53-56 | with distinct usernames, submitting the username of account `i` selects exactly account `i` |
| Auth.AuthScreen.constructor | webapp/src/app/components/AuthScreen.tsx:13-14 | the screen starts with an empty username and no message |
| Auth.AuthScreen.HandleSubmit | webapp/src/app/components/AuthScreen.tsx:16-26 | an empty username sets "Choose one of the demo accounts to continue." and calls nothing; any other username clears the message and passes the selected account up |
| Auth.AuthScreen.ClickAccount | webapp/src/app/components/AuthScreen.tsx:53-56 | clicking an account sets the username to that account's username and clears the message |

## Left out

- Rendering: JSX, styling, images, links, icons and the "Liked by" text
  layout. These are presentation only.
- The other components (`NavSidebar`, `StoriesBar`, `SuggestionsPanel`,
  `CreateModal`) and `layout.tsx`. They are markup over props and have no
  logic of their own.
- The profile page (`profile/[username]/page.tsx:18-25`). It decodes the
  route parameter and looks the user up by username. It calls `notFound()`
  when nobody matches, and it filters the hydrated posts by author. This
  lookup and this filter are outside the modelled core.
- Hydration, the fixture data, `getUserById`, `formatCompactNumber` and
  `formatRelativeTime` live in `lib/utils`, which is not part of this model.
  Their results are parameters.
- React state and reactivity. A handler is modelled as reading the current
  fields and writing the new ones. Batching, re-render timing and stale
  closures are not modelled.
- Feed.AddComment: the source reads the clock once per matching post. The
  model uses one `now`/`createdAt` for all of them. This only matters when
  two posts share an id.
- Feed.Decimal: prints a non-negative integer. It does not model JavaScript's
  formatting of fractional or very large numbers, which `Date.now()` never
  produces.
- Numbers (`likeCount`, counters) are unbounded integers. The source uses
  IEEE doubles, which behave differently only beyond 2^53.
- Strings are sequences of Unicode scalar values, while JavaScript strings
  are UTF-16 code units. `Trim` agrees with `trim` on well-formed text,
  because every whitespace code point is in the Basic Multilingual Plane.
  Text holding lone surrogates cannot be represented.
- The relative-time and compact-number labels on the card are left out.
  They are formatting done outside the core.
