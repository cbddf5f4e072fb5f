# Togetherly client core in Dafny

This project models the state machines of Togetherly, a photo-sharing web client. The client is a React front end over a hosted relational store. The model covers:

- the follow relationship: the follow-status hook and the profile page's follow button and counters;
- liking a post, both locally and backed by the `likes` table;
- the follow-request button in search results, and the follow-requests page;
- the search filter;
- sending a chat message, including the route guard for an unknown conversation;
- posting a comment and reloading the comment list;
- the sign-in / sign-up checks, the image-post checks, and the avatar initials and sizes.

How the source becomes Dafny:

- **The store.** Each table is a sequence of rows inside a `Store.Table` object, with the rows viewed as a multiset.
  - An insert appends one row.
  - A delete filtered on both columns removes every equal row.
  - A count is the length of a filter.
  - Every write and every query takes a success flag. This lets each page's error policy be stated: the follow hook and the like card ignore errors, while the profile page applies a change only on success.
- **Components.** A component whose handlers assign state becomes a class. Each handler becomes a method whose `ensures` states the whole new state.
- **Handlers with a loading flag.** A handler that sets a loading flag around an `await` is split in two: a `Begin…` method up to the `await` and a `Finish…` method after it. A combined method runs both. This makes "the flag is set while the write is in flight" a postcondition.
- **Pure code.** Pure code, such as the filter, the check chain, the initials and the button labels, becomes functions with lemmas about them.
- **Toasts and navigation.** Notifications (`toast.success`, `toast.info`, `toast.error`) and navigation targets are returned as values.

The main results:

- **Follow and like toggles.** On a table holding each pair at most once, a successful toggle moves every count that includes the pair by exactly the ±1 the page applies locally. The point lookup then finds the pair exactly when the toggle was a follow or like.
  - The profile page therefore keeps showing the table's exact state through `HandleFollow`, whether the write succeeds or fails.
  - The like card and the follow hook keep showing it exactly when the write succeeds.
- **The follow-request button.** It has three reachable states from any start. After the first click its request flag alternates, and it never reaches "following".
- **Accept and decline.** Both drop every request with the id. Any run of them leaves an order-preserving sub-list.
- **The search filter.** It returns an order-preserving sub-list and ignores case in the query and in the fields. A blank query shows everyone. A non-blank query is searched untrimmed.
- **Chat messages and comments.** A message or comment that is appended carries the trimmed text of a non-blank composer, and the composer is then cleared. A blank composer changes nothing.

## Model

| member | source | states |
|---|---|---|
| Store.Apply | src/hooks/useFollowStatus.ts:34-46 | a rejected write changes nothing; an accepted insert adds exactly one copy of the row to the table's multiset; an accepted delete filtered on the pair removes every copy of it and nothing else |
| Store.Table.Perform | src/hooks/useFollowStatus.ts:35-44 | the table's rows after issuing a write are exactly `Apply` of the write and the store's answer |
| Store.MaybeSingle | src/hooks/useFollowStatus.ts:19-26 | `.maybeSingle()` returns the row exactly when the query succeeds and the row stands at exactly one index of the table; with two or more copies it finds nothing |
| Store.MaybeSingleFindsUnique | src/hooks/useFollowStatus.ts:19-26 | when every pair occurs at most once, `.maybeSingle()` finds the pair exactly when the query succeeds and the pair is present |
| Store.ApplyKeepsUnique | src/hooks/useFollowStatus.ts:34-46 | deleting a pair, or inserting one that is absent, keeps every pair at most once in the table |
| Store.LookupAfterWrite | src/hooks/useFollowStatus.ts:34-46 | right after a successful write the lookup finds the pair exactly when the write was an insert of an absent pair |
| Store.ToggleWrite | src/hooks/useFollowStatus.ts:34-45 | a toggle deletes the pair exactly when it is shown as present, and inserts it otherwise |
| Store.CountAfterWrite | src/pages/UserProfile.tsx:94-101 | a successful insert raises a filtered count by one when the row passes the filter; a delete lowers it by the number of copies removed |
| Store.OptimisticCount | src/pages/UserProfile.tsx:116-129 | on a table with each pair at most once, a successful toggle that saw the pair's presence correctly moves any count that includes the pair by exactly -1 (present) or +1 (absent) |
| Store.InsertThenDeleteRestores | src/hooks/useFollowStatus.ts:34-46 | inserting an absent pair and then deleting it gives back the original table |
| Store.ToggleTwiceRestores | src/hooks/useFollowStatus.ts:34-46 | from an absent pair, two successful toggles leave the table as it was; in between the lookup finds the pair |
| Follows.OptimisticFollowerCount | src/pages/UserProfile.tsx:116-129 | the page's ±1 on the follower counter equals a fresh follower count after a successful follow or unfollow on a table with each pair at most once |
| Follows.FollowingUntouched | src/pages/UserProfile.tsx:104-134 | a follow or unfollow by someone else never changes a user's following count |
| Follows.DuplicateHidesEdge | src/hooks/useFollowStatus.ts:19-26 | once a pair is stored twice, the `.maybeSingle()` lookup no longer reports it |
| Follows.FollowUnfollowScenario | src/hooks/useFollowStatus.ts:29-49 | on an empty table, a follow then an unfollow read "following", then not; the target's counts read followers 1 / following 0, then 0 / 0 |
| Follows.FollowersOf | src/pages/UserProfile.tsx:96 | the exact count never exceeds the number of rows and is 0 exactly when no row names the user as the one followed |
| Follows.FollowingOf | src/pages/UserProfile.tsx:97 | the exact count never exceeds the number of rows and is 0 exactly when no row names the user as the follower |
| Follows.ToggleKeepsCounts | src/pages/UserProfile.tsx:104-134 | a successful toggle of a non-self edge, issued from a status that matched a table with each pair at most once, flips the edge's presence, keeps each pair at most once, moves the followed user's follower count by exactly ±1 and leaves that user's following count alone |
| FollowStatus.FollowStatusHook.constructor | src/hooks/useFollowStatus.ts:5-8 | the hook starts not following and not loading |
| FollowStatus.FollowStatusHook.Edge | src/hooks/useFollowStatus.ts:22-23 | the pair the hook reads and writes is (viewer, target) |
| FollowStatus.FollowStatusHook.CheckFollowStatus | src/hooks/useFollowStatus.ts:16-27 | with a viewer and a non-empty target the status is set to the `.maybeSingle()` result for (viewer, target); otherwise it is unchanged |
| FollowStatus.FollowStatusHook.OnMount | src/hooks/useFollowStatus.ts:10-14 | the mount effect checks the status only for a viewer and a non-empty target that differs from the viewer |
| FollowStatus.FollowStatusHook.BeginToggle | src/hooks/useFollowStatus.ts:29-34 | with no viewer or no target no write is issued and nothing changes; otherwise loading is on and the write deletes the pair when following and inserts it when not |
| FollowStatus.FollowStatusHook.FinishToggle | src/hooks/useFollowStatus.ts:34-48 | the store applies the write if it accepts it; the status becomes "following" exactly for an insert whatever the store answered; loading is off |
| FollowStatus.FollowStatusHook.ToggleFollow | src/hooks/useFollowStatus.ts:29-49 | without viewer or target nothing changes; otherwise the status flips regardless of the store's answer, loading ends off, and the table gets the toggle's write; a status that matched the table still matches it exactly when the write succeeded |
| FollowStatus.ToggleTwice | src/hooks/useFollowStatus.ts:34-46 | from "not following" with no edge, two toggles whose writes succeed restore the table and end not following and not loading |
| UserProfile.ProfilePage.constructor | src/pages/UserProfile.tsx:26-35 | the page starts not following, with both counters at 0 and no follow in progress |
| UserProfile.ProfilePage.Edge | src/pages/UserProfile.tsx:86-88 | the pair the page reads and writes is (viewer, profile user) |
| UserProfile.ProfilePage.IsOwnProfile | src/pages/UserProfile.tsx:150 | the profile is the viewer's own exactly when someone is signed in and the follow pair would join the viewer to themself |
| UserProfile.ProfilePage.OffersFollow | src/pages/UserProfile.tsx:175 | the follow handler is offered exactly when no one is signed in or the pair joins two different users, so no self-follow can be written |
| UserProfile.ProfilePage.CheckFollowStatus | src/pages/UserProfile.tsx:81-92 | a signed-in viewer's status is the `.maybeSingle()` result for (viewer, profile user); signed out it is unchanged |
| UserProfile.ProfilePage.FetchFollowCounts | src/pages/UserProfile.tsx:94-102 | followers is the number of rows naming the user as followed, following the number naming the user as follower, each 0 when its count failed |
| UserProfile.ProfilePage.OnMount | src/pages/UserProfile.tsx:37-44 | an empty route parameter changes nothing; otherwise status and counts are fetched, and when all three queries succeed on a table with each pair at most once the page shows exactly the table's state |
| UserProfile.ProfilePage.BeginFollow | src/pages/UserProfile.tsx:104-107 | signed out no write is issued and nothing changes; otherwise the follow is in progress and the write deletes the pair when following and inserts it when not |
| UserProfile.ProfilePage.FinishFollow | src/pages/UserProfile.tsx:109-133 | on success the status follows the write, the follower counter moves by exactly +1 or -1 with no floor at 0, and "Following!" or "Unfollowed" is shown; on an error status and counter are unchanged and nothing is shown; the following counter never changes and the follow ends not in progress |
| UserProfile.ProfilePage.HandleFollow | src/pages/UserProfile.tsx:104-134 | signed out it is a no-op; otherwise the status and follower counter change only on success and by exactly one, and the notice is "Following!" after a follow, "Unfollowed" after an unfollow, and absent on an error; on a profile that is not the viewer's own, a page that showed a table with each pair at most once still shows it exactly afterwards, whether the write succeeds or fails |
| LikeCounter.ToggleMovesByOne | src/components/post/PostCard.tsx:35-38 | a heart click moves the counter by -1 when it was liked and +1 when not |
| LikeCounter.ToggleTwiceRestores | src/components/post/PostCard.tsx:35-38 | two heart clicks restore both the like and the counter |
| LikeCounter.DoubleTapOnlyLikes | src/components/post/PostCard.tsx:40-44 | a double tap adds exactly one like to an unliked post, and a second double tap changes nothing more |
| LikeCounter.Toggled | src/components/post/PostCard.tsx:36-37 | a heart click flips the like and leaves the number of likes from other people unchanged |
| LikeCounter.DoubleTapped | src/components/post/PostCard.tsx:40-44 | a double tap always ends liked, leaves a liked post as it is, and leaves the number of likes from other people unchanged |
| PostCard.PostCard.constructor | src/components/post/PostCard.tsx:27-33 | like and save start from the props, defaulting to false; the counter starts at the post's like count; no heart overlay |
| PostCard.PostCard.HandleLike | src/components/post/PostCard.tsx:35-38 | the local like state becomes the toggled state |
| PostCard.PostCard.HandleDoubleTap | src/components/post/PostCard.tsx:40-47 | the local like state becomes the double-tapped state and the heart overlay is on |
| PostCard.PostCard.ToggleSaved | src/components/post/PostCard.tsx:102 | the save flag flips and the like state is outside its frame |
| PostCardWithComments.OptimisticLikeCount | src/components/post/PostCardWithComments.tsx:62-74 | on a table with each pair at most once, a successful like or unlike that saw the heart correctly moves the post's like count by exactly the card's local ±1 |
| PostCardWithComments.LikesOf | src/components/post/PostCardWithComments.tsx:55-59 | the exact count never exceeds the number of rows and is 0 exactly when no like names the post |
| PostCardWithComments.LikeablePost.constructor | src/components/post/PostCardWithComments.tsx:30-36 | the card starts unliked, unsaved, with zero likes and comments, no heart overlay and comments hidden |
| PostCardWithComments.LikeablePost.MyLike | src/components/post/PostCardWithComments.tsx:66-70 | the row the card reads and writes is (post, viewer) |
| PostCardWithComments.LikeablePost.FetchLikeStatus | src/components/post/PostCardWithComments.tsx:43-52 | a signed-in viewer's heart is the `.maybeSingle()` result for (post, viewer); signed out it is unchanged |
| PostCardWithComments.LikeablePost.FetchLikesCount | src/components/post/PostCardWithComments.tsx:54-60 | the counter is the number of like rows of the post, or 0 when the count failed |
| PostCardWithComments.LikeablePost.OnMount | src/components/post/PostCardWithComments.tsx:38-41 | the mount effect runs both fetches with the same results as each alone |
| PostCardWithComments.LikeablePost.HandleLike | src/components/post/PostCardWithComments.tsx:62-74 | signed out nothing changes; signed in the table gets the delete or insert for (post, viewer) and the local state toggles whatever the store answered; a card that showed a table with each pair at most once still shows it exactly when the write succeeded |
| PostCardWithComments.LikeablePost.HandleDoubleTap | src/components/post/PostCardWithComments.tsx:76-84 | for a signed-in viewer on an unliked post one like row is written and the state is double-tapped; a liked post or a signed-out viewer keeps the like state and the table; the heart overlay is on in every case |
| PostCardWithComments.LikeablePost.ToggleSaved | src/components/post/PostCardWithComments.tsx:144 | the save flag flips |
| PostCardWithComments.LikeablePost.ToggleComments | src/components/post/PostCardWithComments.tsx:137 | the comment panel's visibility flips |
| PostCardWithComments.LikeablePost.ViewComments | src/components/post/PostCardWithComments.tsx:169 | the comment panel is shown |
| PostCardWithComments.LikeablePost.SetCommentsCount | src/components/post/PostCardWithComments.tsx:180 | the comment counter takes the count the comment section reports |
| UserSearchItem.Clicked | src/components/search/UserSearchItem.tsx:28-38 | a click never yields "following"; from following it keeps the request flag, otherwise it flips the request flag |
| UserSearchItem.Clicks | src/components/search/UserSearchItem.tsx:28-40 | the button shows "following" after a run of clicks only when the run is empty and it started following |
| UserSearchItem.ClicksAlternate | src/components/search/UserSearchItem.tsx:28-40 | after one click or more the request flag alternates with the parity of the clicks, offset by whether the start was following |
| UserSearchItem.ReachableStates | src/components/search/UserSearchItem.tsx:28-40 | any number of clicks only ever shows the start state, "requested" or "neither" |
| UserSearchItem.TwoClicksFromNeither | src/components/search/UserSearchItem.tsx:32-37 | from "neither", one click gives "requested" and two return to "neither" |
| UserSearchItem.NeverShowsFollowing | src/components/search/UserSearchItem.tsx:57 | after one click or more the label is never "Following" |
| UserSearchItem.Label | src/components/search/UserSearchItem.tsx:57 | the label is "Following" exactly when following, "Requested" exactly when requested but not following, and "Follow" exactly when neither |
| UserSearchItem.Variant | src/components/search/UserSearchItem.tsx:53 | the variant is "default" exactly when the label is "Follow", and "secondary" otherwise |
| UserSearchItem.GradientMarksFollow | src/components/search/UserSearchItem.tsx:55 | the gradient style is used exactly when the label is "Follow" and the variant "default" |
| UserSearchItem.SearchItem.constructor | src/components/search/UserSearchItem.tsx:21-26 | both flags start from the props and default to false; no callback has been made |
| UserSearchItem.SearchItem.HandleFollow | src/components/search/UserSearchItem.tsx:28-40 | the state steps by `Clicked`; the branch's notice is raised; the `onFollow` callback, when supplied, receives the item's id exactly once per click |
| Requests.Find | src/pages/Requests.tsx:39 | the lookup finds nothing exactly when no request has the id, and otherwise the first request with it |
| Seqs.FilterMultiset | src/pages/Requests.tsx:40 | `Array.prototype.filter` keeps each accepted element exactly as many times as the list holds it and drops every rejected one |
| Requests.RemoveRequest | src/pages/Requests.tsx:40 | the result is an order-preserving sub-list that keeps every request with another id as many times as the list holds it, and drops every request with the id |
| Requests.RemoveAbsent | src/pages/Requests.tsx:40 | an id that no request has leaves the list unchanged |
| Requests.NoticeNamesRequester | src/pages/Requests.tsx:39-47 | the accept and decline notices name the user of the first request with the clicked id |
| Requests.RemovalsShrink | src/pages/Requests.tsx:36-47 | any run of accepts and declines leaves an order-preserving sub-list of the start that holds none of the handled ids |
| Requests.PendingHeader | src/pages/Requests.tsx:57 | the header starts with the count in decimal and ends in "s" exactly when the count is not 1 |
| Requests.PendingHeaderShowsCount | src/pages/Requests.tsx:57 | the header's leading digits read back as the count and are followed by a space |
| Requests.RequestsPage.constructor | src/pages/Requests.tsx:36 | the page starts with the four mock requests |
| Requests.RequestsPage.HandleAccept | src/pages/Requests.tsx:38-42 | the list loses every request with the id; the notice names the first such request's user, or reads "undefined" |
| Requests.RequestsPage.HandleDecline | src/pages/Requests.tsx:44-48 | the same change to the list as accepting; only the notice differs |
| Search.MatchesQuery | src/pages/Search.tsx:77-79 | a user matches exactly when the query occurs, ignoring ASCII case, at some position of the username or of the bio when there is one |
| Search.FilteredUsers | src/pages/Search.tsx:71-81 | the result is always an order-preserving sub-list; a blank query gives every user; otherwise it keeps each matching user as many times as the list holds it and drops every other user |
| Search.QueryCaseIgnored | src/pages/Search.tsx:75 | lower- or upper-casing the query first gives the same list |
| Search.FieldCaseIgnored | src/pages/Search.tsx:78-79 | changing the case of a username or bio does not change whether it matches |
| Search.NoBioMatchesByName | src/pages/Search.tsx:79 | a user without a bio matches exactly when the username does |
| Search.LeadingSpaceIsSearched | src/pages/Search.tsx:72-75 | a query that starts with a space matches only a user whose username or bio holds a space: the query is not trimmed |
| Search.UntrimmedQueryExample | src/pages/Search.tsx:72-78 | "sarah" finds sarah.design, while " sarah" does not match that username |
| Search.ClearedQuery | src/pages/Search.tsx:83-85 | clearing the search sets a blank query |
| Search.ClearShowsAll | src/pages/Search.tsx:83-85 | after clearing the search every user is listed in order |
| Text.Trim | src/pages/Chat.tsx:61 | the trimmed text is the input with its leading and trailing white space removed, and only that: a contiguous slice with all white space before and after it, no white space at its ends, and empty exactly when the input is all white space |
| Text.TrimIsDetermined | src/pages/Chat.tsx:61 | any slice with only white space around it and none at its own ends is the trimmed text, so the contract above pins the result |
| Text.TrimIdempotent | src/pages/Chat.tsx:65 | trimming twice gives the same as trimming once |
| Text.IncludesIffOccurs | src/pages/Search.tsx:78 | `includes` holds exactly when the substring occurs at some position |
| Text.IncludesIgnoringCase | src/pages/Search.tsx:78-79 | searching the lower-cased text for the lower-cased query finds exactly the positions where the query occurs up to ASCII case |
| Text.DecimalRoundTrip | src/pages/Requests.tsx:57 | the decimal rendering of a count reads back as that count |
| Chat.RouteAsWritten | src/pages/Chat.tsx:49-58 | as written: a thread exactly for a conversation of the table; a render failure exactly for an id inherited from `Object.prototype`; a redirect to /messages otherwise |
| Chat.PrototypeKeyBreaksRoute | src/pages/Chat.tsx:49-58 | "constructor" is not a conversation, yet the route as written renders and fails instead of redirecting |
| Chat.Route | src/pages/Chat.tsx:49-58 | corrected: a thread exactly for a conversation of the table, and a redirect to /messages for every other id, never a failure |
| Chat.RoutesAgreeOffPrototype | src/pages/Chat.tsx:49-58 | the written and the corrected route differ exactly on ids inherited from `Object.prototype` |
| Chat.ChatPage.constructor | src/pages/Chat.tsx:45-46 | the thread starts with the three mock messages and an empty composer |
| Chat.ChatPage.SetInput | src/pages/Chat.tsx:140 | the composer holds the typed text |
| Chat.ChatPage.SendDisabled | src/pages/Chat.tsx:147 | the send button is disabled exactly when the composer holds only white space |
| Chat.ChatPage.HandleSend | src/pages/Chat.tsx:60-72 | a blank composer, the case where send is disabled, changes nothing; otherwise exactly one message of mine with the trimmed text is appended after the unchanged earlier ones and the composer is cleared; every added message is mine with trimmed, non-empty text |
| CommentSection.CommentsOf | src/components/post/CommentSection.tsx:53-54 | the post's comments are an order-preserving sub-list of the table that keeps every row of the post as many times as the table holds it and no row of another post |
| CommentSection.CommentsAfterInsert | src/components/post/CommentSection.tsx:74-85 | a comment inserted on this post appears last in its reloaded list; one on another post leaves the list alone |
| CommentSection.CommentSection.constructor | src/components/post/CommentSection.tsx:29-33 | the section starts empty, not loading and not submitting |
| CommentSection.CommentSection.SetInput | src/components/post/CommentSection.tsx:132 | the composer holds the typed text |
| CommentSection.CommentSection.SubmitDisabled | src/components/post/CommentSection.tsx:140 | the post button is disabled exactly when the composer holds only white space or a submit is in flight |
| CommentSection.CommentSection.BeginFetch | src/components/post/CommentSection.tsx:40 | loading is on while the query runs |
| CommentSection.CommentSection.FinishFetch | src/components/post/CommentSection.tsx:56-64 | on success the list is the post's comments and their number is reported once; on an error the list is unchanged and nothing is reported; loading ends off |
| CommentSection.CommentSection.FetchComments | src/components/post/CommentSection.tsx:39-65 | both halves of the fetch, with the same result |
| CommentSection.CommentSection.BeginSubmit | src/components/post/CommentSection.tsx:67-79 | nothing is inserted exactly when the composer is blank or no one is signed in; otherwise submitting is on and the row carries the post, the viewer and the trimmed, non-empty text |
| CommentSection.CommentSection.FinishSubmit | src/components/post/CommentSection.tsx:80-86 | an insert error keeps the typed text and the list and shows "Failed to post comment"; success clears the composer and reloads the list; submitting ends off |
| CommentSection.CommentSection.HandleSubmit | src/components/post/CommentSection.tsx:67-87 | a blank composer or a signed-out viewer changes nothing; otherwise the trimmed comment is inserted and submitting ends. An insert error keeps the text, the list and the reported counts and shows "Failed to post comment". Success clears the composer, shows nothing and ends loading; a successful reload shows the post's comments and reports their number once, and on a list that showed the table that is the old list plus the new comment; a failed reload keeps the list and reports nothing |
| Auth.Validate | src/pages/Auth.tsx:24-32 | "Please fill in all fields" exactly when email or password is empty; "Please enter a username" exactly when both are present, the mode is sign-up and the username is empty; no error otherwise |
| Auth.LoginIgnoresUsername | src/pages/Auth.tsx:29 | in sign-in mode the username never affects the checks |
| Auth.SignUpIsStricter | src/pages/Auth.tsx:24-32 | every form sign-up accepts, sign-in accepts too |
| Auth.WelcomeText | src/pages/Auth.tsx:39 | the notice is "Welcome back!" exactly in sign-in mode |
| Auth.AuthPage.constructor | src/pages/Auth.tsx:11-18 | the page starts in sign-in mode, with the password hidden, not loading and an empty form |
| Auth.AuthPage.SetEmail | src/pages/Auth.tsx:82-83 | only the email field of the form changes |
| Auth.AuthPage.SetPassword | src/pages/Auth.tsx:97-98 | only the password field of the form changes |
| Auth.AuthPage.SetUsername | src/pages/Auth.tsx:67-68 | only the username field of the form changes |
| Auth.AuthPage.BeginSubmit | src/pages/Auth.tsx:21-34 | a failing check reports its error and loading never starts; a passing one starts loading; the mode of the submitted form is handed on |
| Auth.AuthPage.FinishSubmit | src/pages/Auth.tsx:36-40 | loading ends, the welcome of the mode the form was submitted in is shown (whatever the mode is now) and the app goes to "/" |
| Auth.AuthPage.HandleSubmit | src/pages/Auth.tsx:21-41 | a failing check gives its error, no navigation and no loading change; a passing one ends not loading with the mode's welcome and goes to "/" |
| Auth.AuthPage.ToggleMode | src/pages/Auth.tsx:137 | the mode flips and the form is outside its frame |
| Auth.AuthPage.TogglePasswordVisibility | src/pages/Auth.tsx:104 | the password visibility flips |
| CreatePost.MimeGuardExamples | src/pages/CreatePost.tsx:19 | the MIME guard is a case-sensitive prefix test: "image/png" passes; "IMAGE/PNG", "text/plain" and an empty type fail |
| CreatePost.IsImage | src/pages/CreatePost.tsx:19 | a file passes the MIME guard exactly when its type is "image/" followed by anything |
| CreatePost.FakePath | src/pages/CreatePost.tsx:100-105 | the value a file input takes once a file is picked is never empty and ends in the file's name |
| CreatePost.CreatePostPage.constructor | src/pages/CreatePost.tsx:10-12 | no image, empty caption, not posting |
| CreatePost.CreatePostPage.SetCaption | src/pages/CreatePost.tsx:113 | the caption holds the typed text |
| CreatePost.CreatePostPage.HandleImageSelect | src/pages/CreatePost.tsx:16-29 | the file input's value becomes the picked file, or "" when none is picked; no file leaves the image unchanged; a non-image file leaves it unchanged and shows "Please select an image file"; an image becomes the preview |
| CreatePost.ResetLetsSameFileFireAgain | src/pages/CreatePost.tsx:31-36 | picking the file the input already holds fires no change event, while after the input is reset to "" the same pick fires again |
| CreatePost.CreatePostPage.HandleRemoveImage | src/pages/CreatePost.tsx:31-36 | the image is cleared and the file input's value is "" |
| CreatePost.CreatePostPage.ShareDisabled | src/pages/CreatePost.tsx:60 | the share button is enabled exactly when an image is selected and no post is in progress, so an enabled button never reports "Please select an image" |
| CreatePost.CreatePostPage.BeginPost | src/pages/CreatePost.tsx:38-44 | without an image "Please select an image" is reported and posting never starts; with one, posting starts |
| CreatePost.CreatePostPage.FinishPost | src/pages/CreatePost.tsx:46-49 | posting ends, "Post shared successfully!" is shown and the app goes to "/" |
| CreatePost.CreatePostPage.HandlePost | src/pages/CreatePost.tsx:38-50 | without an image an error, no navigation and no posting change; with one, posting ends off with the success notice and the app goes to "/" |
| UserAvatar.Initials | src/components/ui/UserAvatar.tsx:26 | the initials are the first two characters of the username, or all of a shorter one, each upper-cased |
| UserAvatar.InitialsIgnoreTail | src/components/ui/UserAvatar.tsx:26 | characters after the second never affect the initials |
| UserAvatar.ShortNameInitials | src/components/ui/UserAvatar.tsx:26 | a name shorter than two characters is upper-cased whole; an empty name gives empty initials |
| UserAvatar.InitialsIgnoreCase | src/components/ui/UserAvatar.tsx:26 | a name and its lower-cased spelling have the same initials |
| UserAvatar.ClassFor | src/components/ui/UserAvatar.tsx:22 | no size prop gives the "md" class; a given size gives its own class |
| UserAvatar.SizeClass | src/components/ui/UserAvatar.tsx:12-17 | every size class gives the avatar the same height and width, so it is square |
| UserAvatar.SizeClassesDistinct | src/components/ui/UserAvatar.tsx:12-17 | the four sizes map to four different class strings |

## Behaviour of the code worth noting

In each case below the model follows the code.

- **The status lookup.** It uses `.maybeSingle()`, which returns an error and no data when two or more rows match. The status is therefore "following" when exactly one row exists, not when at least one does. `Store.MaybeSingle` models this. `Follows.DuplicateHidesEdge` shows the consequence: once a pair is stored twice, the lookup stops finding it. Under uniqueness the two readings agree (`Store.MaybeSingleFindsUnique`).
- **The hook's toggle** has no self-follow check. Only the mount effect compares the viewer with the target.
- **The profile page's follower counter** is decremented with no floor, so it can go below zero if it was already out of step.
- **The follow hook and the backed like card** never inspect the store's answer to a write.

## Left out

- The hosted store client, its row-level security and any uniqueness constraint. Tables are sequences of rows, and each write or query outcome is an input flag. Uniqueness is stated as an assumption (`Store.Unique`) where a result needs it.
- Row ids and `created_at` are left out. The comment list's `created_at` ordering is taken to be table order.
- The profile join in the comment query (`profiles!comments_user_id_fkey`). Only the comment's own columns are modelled.
- Toasts, `navigate`, `console.log` and `scrollIntoView`. Toasts and navigation targets are returned as values; the others are not modelled.
- JSX rendering and CSS, apart from the button labels, variants and avatar size classes.
- The files that only lay out or route pages (`App.tsx`, the layout, profile, message-list and request-item components), and the pages that show only static mock data (`Home.tsx`, `Profile.tsx`, `Messages.tsx`).
- `fetchProfile` and `fetchPosts` on the profile page, which only load display data.
- Time: `Date.now()` message ids, `toLocaleTimeString` timestamps and `formatDistanceToNow`. Ids and timestamps are inputs.
- Browser asynchrony:
  - The `FileReader` load is taken to complete at once.
  - The simulated 1.5 s delays are the split between `Begin…` and `Finish…`.
  - The comment reload, which `handleSubmit` does not wait for, runs to its end inside `FinishSubmit`.
- PostCardWithComments.LikeablePost.HandleDoubleTap: the 600 ms timer that hides the heart overlay is not modelled, so `showHeart` is never reset; this holds for PostCard.PostCard.HandleDoubleTap too.
- Concurrency: `Promise.all` in `fetchFollowCounts` (its two counts are taken from the same table state), clicks overlapping an in-flight write, and changes by other sessions.
- Text:
  - `toLowerCase` and `toUpperCase` map only ASCII letters.
  - Strings are sequences of Unicode scalar values, not UTF-16 code units, so `slice(0, 2)` on a name that starts with an astral character differs.
- The file dialog: a pick sets the input's value to `C:\fakepath\` plus the file's name, as browsers report it, and a cancelled dialog clears it. The browser's own rule for firing `change` is reduced to "the value changed".
- The caption's `maxLength={500}` limit, which the browser enforces, not this code. The caption is stored but `handlePost` never sends it.
- The avatar picture itself, `showStory` and `className`.

## Findings

| source | as written | input that shows it | evidently intended | confidence | as-written member | corrected member |
|---|---|---|---|---|---|---|
| src/pages/Chat.tsx:49-58 | the conversation is looked up as `mockConversations[id]` on a plain object, and only a falsy result redirects | the route `/messages/constructor`: the lookup yields the inherited `Object` constructor, which is truthy; `conversation.username` is then `undefined` and the avatar's `username.slice(0, 2)` throws | any id that is not a conversation of the table redirects to `/messages` | not executed | Chat.RouteAsWritten | Chat.Route |
