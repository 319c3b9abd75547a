# social-mvp screen components in Dafny

This project models the client-side screen components of social-mvp, a small
social network built with React and Supabase. It covers:

- the home feed: keyset pages, like and comment tallies, optimistic like
  toggling, owner deletion and live updates;
- the direct-message window and the conversation lists;
- comments, the comment box and the post composer;
- the profile editor, the avatar, the follow button, a user's post list, the
  notification bell and the site header.

Each component that keeps React state is a Dafny `class`:

- Its fields are the component's `useState` variables, one each.
- Each event handler or effect is a method. The `modifies` clause names exactly
  the fields the handler may set, and every other field stays unchanged.
- Whatever the handler receives from the network is a parameter of the method:
  query rows, an error message, a public URL, the clock. Whatever the handler
  sends out is an out-parameter: the insert or update payload, the storage
  path, an alert text, a navigation target, a "fetch this next" flag.

Each pure rule of a component is a function, and the lemmas state what the
component promises about it. The rules include list updaters, count merges,
the username rule, path building, initials, badges and sorting.

A few building blocks are shared (`Common`, `Entities`, `UriEncoding`):

- the JavaScript string semantics the components rely on: truthiness, `||`,
  `??`, `trim` with the ECMAScript white-space set, `split`/`pop`, decimal
  printing and `Number()`;
- the row types and the profile-cache and tally loops.

Module per source file:

| module | file |
|---|---|
| `PostFeed` | `src/components/PostFeed.tsx` |
| `ChatWindow` | `src/components/chat/ChatWindow.tsx` |
| `ConversationsList` | `src/components/chat/ConversationsList.tsx` |
| `Sidebar` | `src/components/ConversationsSidebar.tsx` |
| `CommentList` | `src/components/CommentList.tsx` |
| `CommentBox` | `src/components/CommentBox.tsx` |
| `PostComposer` | `src/components/PostComposer.tsx` |
| `ProfileEditor` | `src/components/ProfileEditor.tsx` |
| `ProfileAvatar` | `src/components/ProfileAvatar.tsx` |
| `FollowButton` | `src/components/FollowButton.tsx` |
| `UserPostList` | `src/components/UserPostList.tsx` |
| `NotificationBell` | `src/components/NotificationBell.tsx` |
| `Header` | `src/components/Header.tsx` |

Timestamps are integers ordered like the instants they denote. Post, comment,
message and conversation ids are naturals. User ids are strings.

## Model

| member | source | states |
|---|---|---|
| Common.Trim | social-mvp/src/components/CommentBox.tsx:18 | `trim()`: the input with its leading and trailing white space cut off; empty exactly when the input is all white space, and no white space at either end |
| Common.IsSpace | social-mvp/src/components/CommentBox.tsx:18 | the ECMAScript white-space and line-terminator set that `trim` and `\s` use; no letter, digit, '-', '.' or '_' is in it |
| Common.TrimIdempotent | social-mvp/src/components/CommentBox.tsx:18 | trimming twice is trimming once |
| Common.TrimOrNull | social-mvp/src/components/ProfileEditor.tsx:102-104 | `s.trim() \|\| null`: null exactly for a blank string, else the trimmed string |
| Common.Split | social-mvp/src/components/ProfileAvatar.tsx:19 | `split(sep)`: at least one piece, and no piece contains the separator |
| Common.JoinSplit | social-mvp/src/components/ProfileAvatar.tsx:19 | joining the pieces of a split with the separator gives back the string |
| Common.Extension | social-mvp/src/components/ProfileEditor.tsx:72 | `name.split('.').pop() \|\| 'jpg'`: a non-empty extension without a dot |
| Common.IsImageType | social-mvp/src/components/PostComposer.tsx:27 | `f.type.startsWith('image/')` |
| Common.WithinSizeLimit | social-mvp/src/components/PostComposer.tsx:31 | not over 5 * 1024 * 1024, that is at most 5242880 bytes |
| Common.ExtensionOfDotted | social-mvp/src/components/PostComposer.tsx:63 | a name ending in `.ext` has extension `ext` |
| Common.ToLower | social-mvp/src/components/ProfileEditor.tsx:92 | `toLowerCase()`: the same length, each character lower-cased |
| Common.NatToString | social-mvp/src/components/NotificationBell.tsx:64 | a number prints as a non-empty string of decimal digits |
| Common.ParseNatToString | social-mvp/src/components/chat/ConversationsList.tsx:17 | `Number()` of a printed number is that number |
| Common.NatToStringInjective | social-mvp/src/components/chat/ConversationsList.tsx:83 | different numbers print differently |
| Common.Distinct | social-mvp/src/components/PostFeed.tsx:85 | `Array.from(new Set(xs))`: exactly the elements of the list, none twice |
| Common.DistinctKeepsFirstOrder | social-mvp/src/components/PostFeed.tsx:85 | insertion order: of two distinct elements, the earlier occurs in the input before any occurrence of the later |
| Common.DistinctOfDistinct | social-mvp/src/components/PostFeed.tsx:85 | a list without duplicates is its own distinct list |
| Common.Without | social-mvp/src/components/PostFeed.tsx:267 | `filter(x => key(x) !== k)`: no element with key `k` remains, every other element stays |
| Common.WithoutAppend | social-mvp/src/components/PostFeed.tsx:236-240 | filtering distributes over concatenation, so marking an id busy and unmarking it again is unmarking it in the old list |
| Common.WithoutKeepsUnique | social-mvp/src/components/PostFeed.tsx:244 | filtering keeps keys unique |
| Entities.OtherParticipant | social-mvp/src/components/chat/ChatWindow.tsx:38 | `user_a === me ? user_b : user_a`: one of the two, never `me` when `me` takes part in a conversation of two different users |
| Entities.ProfileIndex | social-mvp/src/components/PostFeed.tsx:159-160 | the profile map built from rows: every row's id is a key, each entry is a row with that id |
| Entities.ProfileIndexLastWins | social-mvp/src/components/PostFeed.tsx:160 | a later row with the same id overwrites an earlier one |
| Entities.IndexProfiles | social-mvp/src/components/CommentList.tsx:75-76 | the for-loop builds exactly ProfileIndex, keyed by the rows' ids |
| Entities.Tally | social-mvp/src/components/PostFeed.tsx:170-178 | the counting loop: keys are the ids that occur, each count is the number of rows with that id |
| UriEncoding.Encode | social-mvp/src/components/Header.tsx:43 | `encodeURIComponent`: never shorter, and only URI-safe characters |
| UriEncoding.EncodeAppend | social-mvp/src/components/Header.tsx:54 | encoding distributes over concatenation |
| UriEncoding.EncodeIdentity | social-mvp/src/components/Header.tsx:43 | a string of unreserved characters encodes to itself |
| ProfileAvatar.DisplayName | social-mvp/src/components/ProfileAvatar.tsx:17 | full name if non-empty, else username if non-empty, else "User"; never empty |
| ProfileAvatar.FirstChars | social-mvp/src/components/ProfileAvatar.tsx:18-21 | `map(p => p[0]).join('')`: one character per non-empty word, an empty word giving nothing |
| ProfileAvatar.TakeTwo | social-mvp/src/components/ProfileAvatar.tsx:22 | `slice(0, 2)`: the prefix of length min(2, length) |
| ProfileAvatar.Initials | social-mvp/src/components/ProfileAvatar.tsx:18-23 | each character the upper-cased first character of a successive space-separated word, at most 2 under the ASCII case mapping (see Left out) |
| ProfileAvatar.InitialsOfTwoWords | social-mvp/src/components/ProfileAvatar.tsx:18-23 | "Ann Lee" style names give both first letters, upper-cased |
| ProfileAvatar.InitialsOfOneWord | social-mvp/src/components/ProfileAvatar.tsx:18-23 | a single word gives its first letter, upper-cased |
| ProfileAvatar.InitialsSkipLeadingSpace | social-mvp/src/components/ProfileAvatar.tsx:19-21 | a leading space adds an empty word, which contributes nothing |
| ProfileAvatar.Render | social-mvp/src/components/ProfileAvatar.tsx:25-46 | an image exactly when the avatar URL is non-empty, otherwise the initials badge; both labelled with the display name |
| ProfileAvatar.RenderAnonymous | social-mvp/src/components/ProfileAvatar.tsx:17-23 | no profile shows the badge "U" titled "User" |
| PostFeed.FreshRows | social-mvp/src/components/PostFeed.tsx:117-118 | the page rows whose id is not yet listed, and only those |
| PostFeed.FreshRowsAppend | social-mvp/src/components/PostFeed.tsx:118 | the fresh rows keep the page's order |
| PostFeed.AppendFreshKeepsUnique | social-mvp/src/components/PostFeed.tsx:117-121 | appending the fresh rows of a page with distinct ids never lists an id twice |
| PostFeed.CursorAfter | social-mvp/src/components/PostFeed.tsx:120-129 | the cursor moves to the last new row and stays put when none arrived |
| PostFeed.LivePrepend | social-mvp/src/components/PostFeed.tsx:256 | a live post goes in front only if its id is absent; the id is listed afterwards |
| PostFeed.LivePrependKeepsUnique | social-mvp/src/components/PostFeed.tsx:256 | a live insert never lists an id twice |
| PostFeed.Bumped | social-mvp/src/components/PostFeed.tsx:275 | `(m[k] ?? 0) + 1` at `k`, every other count kept |
| PostFeed.Dropped | social-mvp/src/components/PostFeed.tsx:285 | `max(0, (m[k] ?? 0) - 1)` at `k`, every other count kept |
| PostFeed.MergeTally | social-mvp/src/components/PostFeed.tsx:180-181 | `{...m, ...tally}`: a post with returned rows gets their number, every other key keeps its count |
| PostFeed.MergeOfTally | social-mvp/src/components/PostFeed.tsx:170-181 | merging the loop's tally is MergeTally |
| PostFeed.MarkLiked | social-mvp/src/components/PostFeed.tsx:184-197 | for a signed-in user, a non-empty id list and a successful query, every returned post becomes liked; otherwise nothing changes; no flag is ever cleared |
| PostFeed.AsWrittenFirstPageSkipsLiked | social-mvp/src/components/PostFeed.tsx:55-59 | the mount closure's null user means the first page's liked flags never load, where the signed-in user's would |
| PostFeed.Optimistic | social-mvp/src/components/PostFeed.tsx:208-212 | the flag flips and the count moves by one toward it, never below 0 |
| PostFeed.ToggleLikeAsWritten | social-mvp/src/components/PostFeed.tsx:200-233 | toggleLike as written: success gives the optimistic state, failure restores the flag |
| PostFeed.AsWrittenRollback | social-mvp/src/components/PostFeed.tsx:214-231 | the written rollback restores the state exactly unless an unlike of a liked post showing 0 fails |
| PostFeed.AsWrittenRollbackInflates | social-mvp/src/components/PostFeed.tsx:220-223 | a failed unlike of a liked post showing 0 likes ends showing 1 |
| PostFeed.ToggleLike | social-mvp/src/components/PostFeed.tsx:200-233 | toggleLike as intended: success flips and moves by one (clamped at 0), failure restores both flag and count |
| PostFeed.ToggleTwice | social-mvp/src/components/PostFeed.tsx:208-212 | two successful toggles return to the start exactly unless a liked post showed 0 likes |
| PostFeed.Feed.constructor | social-mvp/src/components/PostFeed.tsx:28-52 | every state variable starts at its initial value |
| PostFeed.Feed.UserLoaded | social-mvp/src/components/PostFeed.tsx:55-56 | the signed-in user's id is stored |
| PostFeed.Feed.FirstPageLoaded | social-mvp/src/components/PostFeed.tsx:61-91 | error: empty list, no more pages. Success: the rows, hasMore iff exactly 10 rows, the cursor at the last row, the ids and distinct authors to fetch next; loading ends |
| PostFeed.Feed.FetchMore | social-mvp/src/components/PostFeed.tsx:93-133 | no-op without more pages, without a cursor or while loading. Otherwise the old list plus exactly the fresh rows in page order, the cursor after them, hasMore iff the raw page had 10 rows |
| PostFeed.Feed.ProfilesLoaded | social-mvp/src/components/PostFeed.tsx:152-162 | fetched profiles overwrite cached ones with the same id; an error changes nothing |
| PostFeed.Feed.CountsLoaded | social-mvp/src/components/PostFeed.tsx:164-182 | like and comment counts are merged with the per-post tallies of the returned rows |
| PostFeed.Feed.LikedStateLoaded | social-mvp/src/components/PostFeed.tsx:184-197 | runs only for a signed-in current user and a non-empty id list; the flags become MarkLiked of the old ones (the intended behaviour for the first page, see Left out) |
| PostFeed.Feed.ToggleLikeClicked | social-mvp/src/components/PostFeed.tsx:200-233 | signed out: alert and nothing changes; otherwise flag and count become those of ToggleLike, the intended rollback (see Left out) |
| PostFeed.Feed.DeleteConfirmed | social-mvp/src/components/PostFeed.tsx:235-245 | failure: alert, the id is no longer busy, the post stays. Success: confirmation closed, the post removed, the busy mark kept; ids stay unique |
| PostFeed.Feed.ConfirmToggled | social-mvp/src/components/PostFeed.tsx:363 | the Delete button opens the confirmation, or closes it if it was open for that post |
| PostFeed.Feed.ConfirmCancelled | social-mvp/src/components/PostFeed.tsx:439 | Cancel closes the confirmation |
| PostFeed.Feed.CommentsToggled | social-mvp/src/components/PostFeed.tsx:403 | the Comment button opens or closes the post's comments |
| PostFeed.Feed.CommentAdded | social-mvp/src/components/PostFeed.tsx:418-421 | one more comment and one more refresh tick for the post |
| PostFeed.Feed.LivePostInserted | social-mvp/src/components/PostFeed.tsx:252-261 | prepended only if absent, its counts reset to 0, its author fetched if not cached; ids stay unique |
| PostFeed.Feed.LivePostDeleted | social-mvp/src/components/PostFeed.tsx:263-269 | every post with the id is removed; ids stay unique |
| PostFeed.Feed.LiveLikeInserted | social-mvp/src/components/PostFeed.tsx:271-280 | one more like; the flag is set only when the liker is the signed-in user |
| PostFeed.Feed.LiveLikeDeleted | social-mvp/src/components/PostFeed.tsx:281-290 | one like fewer, clamped at 0; the flag is cleared only when the liker is the signed-in user |
| PostFeed.Feed.LiveCommentInserted | social-mvp/src/components/PostFeed.tsx:292-301 | one more comment; the open comment list reloads |
| PostFeed.Feed.LiveCommentDeleted | social-mvp/src/components/PostFeed.tsx:302-311 | one comment fewer, clamped at 0; the open comment list reloads |
| ChatWindow.OtherId | social-mvp/src/components/chat/ChatWindow.tsx:36-39 | unknown until both user and conversation are known, then the other participant |
| ChatWindow.Before | social-mvp/src/components/chat/ChatWindow.tsx:118 | the `or` filter: exactly the messages strictly before the cursor |
| ChatWindow.BeforePosition | social-mvp/src/components/chat/ChatWindow.tsx:118 | in the ascending store, the messages before the k-th are the first k |
| ChatWindow.FirstPageAsWritten | social-mvp/src/components/chat/ChatWindow.tsx:66-72 | the first-page query as written: the oldest 40 |
| ChatWindow.OlderPageAsWritten | social-mvp/src/components/chat/ChatWindow.tsx:119-126 | the older-page query as written: the oldest 40 before the cursor |
| ChatWindow.AsWrittenHidesNewest | social-mvp/src/components/chat/ChatWindow.tsx:66-78 | with over 40 messages the newest is never shown and "Load earlier" finds nothing |
| ChatWindow.FirstPage | social-mvp/src/components/chat/ChatWindow.tsx:66-73 | the first page as intended: the newest 40, oldest first, ending with the newest message |
| ChatWindow.OlderPage | social-mvp/src/components/chat/ChatWindow.tsx:118-127 | the older page as intended: the 40 messages right before the cursor, oldest first |
| ChatWindow.OlderPageExtendsWindow | social-mvp/src/components/chat/ChatWindow.tsx:127-131 | prepending the older page to a window keeps it a contiguous, ordered tail of the conversation, starting up to 40 earlier |
| ChatWindow.AppendNew | social-mvp/src/components/chat/ChatWindow.tsx:100 | a live message is appended only if no message has its id |
| ChatWindow.AppendNewKeepsUnique | social-mvp/src/components/chat/ChatWindow.tsx:100 | a live message never lists an id twice |
| ChatWindow.UploadPath | social-mvp/src/components/chat/ChatWindow.tsx:151-152 | `{me}/dm/{conversation}/{now}.{ext}`: in the user's folder, ending in the file's extension |
| ChatWindow.Chat.constructor | social-mvp/src/components/chat/ChatWindow.tsx:22-34 | every state variable starts at its initial value |
| ChatWindow.Chat.UserLoaded | social-mvp/src/components/chat/ChatWindow.tsx:41-43 | the signed-in user's id is stored |
| ChatWindow.Chat.Load | social-mvp/src/components/chat/ChatWindow.tsx:46-91 | runs only with a conversation id and a user; a missing conversation only ends loading; otherwise the conversation, the other profile and FirstPage, the intended newest 40 (see Left out), are shown, hasOlder iff 40 came, cursor at the first, read pointer at the last |
| ChatWindow.Chat.ShowFirstPage | social-mvp/src/components/chat/ChatWindow.tsx:73-86 | the page becomes the list, hasOlder iff it is full, cursor at its first message, read pointer at its last |
| ChatWindow.Chat.LiveMessage | social-mvp/src/components/chat/ChatWindow.tsx:98-109 | appended unless its id is listed; the read pointer moves only for one's own message |
| ChatWindow.Chat.LoadOlder | social-mvp/src/components/chat/ChatWindow.tsx:116-133 | no-op without a cursor; the batch is OlderPage, the intended 40 before the cursor (see Left out); an empty batch ends the history and keeps the list; otherwise the batch goes in front, the cursor moves to its first message, hasOlder iff 40 came |
| ChatWindow.Chat.PickFile | social-mvp/src/components/chat/ChatWindow.tsx:135-142 | taken only if an image of at most 5 MB; too large alerts "Image must be under 5MB"; a non-image is ignored |
| ChatWindow.Chat.TextChanged | social-mvp/src/components/chat/ChatWindow.tsx:252 | the text is stored |
| ChatWindow.Chat.PreviewRemoved | social-mvp/src/components/chat/ChatWindow.tsx:261 | the preview and the file are dropped |
| ChatWindow.Chat.Send | social-mvp/src/components/chat/ChatWindow.tsx:144-175 | needs a user and non-blank text or a file. An upload error alerts and keeps the composer. Otherwise the trimmed text (null when blank) and image URL are inserted, and text, file and preview are cleared whether or not the insert failed |
| ConversationsList.RawId | social-mvp/src/components/chat/ConversationsList.tsx:16 | the route parameter, or the first of a list |
| ConversationsList.ActiveId | social-mvp/src/components/chat/ConversationsList.tsx:15-18 | `id ? Number(id) : null`, absent for a missing, empty or non-numeric id |
| ConversationsList.ActiveIdOfRoute | social-mvp/src/components/chat/ConversationsList.tsx:15-18 | the route `/messages/{n}` gives `n` |
| ConversationsList.ActiveRowUnique | social-mvp/src/components/chat/ConversationsList.tsx:83 | on a chat route exactly the addressed conversation's row is active |
| ConversationsList.IsActive | social-mvp/src/components/chat/ConversationsList.tsx:83 | a row is active only when the id parameter names it or the path is a chat route |
| ConversationsList.OtherIds | social-mvp/src/components/chat/ConversationsList.tsx:41 | the other participant of each conversation, in order |
| ConversationsList.PeopleIds | social-mvp/src/components/chat/ConversationsList.tsx:41 | every other participant once, in order of first appearance (Distinct of OtherIds); empty exactly when there are no conversations |
| ConversationsList.RowName | social-mvp/src/components/chat/ConversationsList.tsx:80-82 | the row's display name, "User" when the profile is missing |
| ConversationsList.Conversations.constructor | social-mvp/src/components/chat/ConversationsList.tsx:20-23 | every state variable starts at its initial value |
| ConversationsList.Conversations.UserLoaded | social-mvp/src/components/chat/ConversationsList.tsx:25-30 | the user is stored; a refresh starts only for a signed-in user |
| ConversationsList.Conversations.Refreshed | social-mvp/src/components/chat/ConversationsList.tsx:31-53 | error: empty rows, loading ends. Success: the rows and the distinct other ids; with none, people empty and loading ends |
| ConversationsList.Conversations.PeopleFetched | social-mvp/src/components/chat/ConversationsList.tsx:43-53 | the people map is rebuilt from the returned profiles alone; loading ends |
| Sidebar.UnreadInc | social-mvp/src/components/ConversationsSidebar.tsx:73 | 1 exactly when the user is known and is not the sender, else 0 |
| Sidebar.Find | social-mvp/src/components/ConversationsSidebar.tsx:72 | `find`: present iff some row has the id, and then the row at an index before which no row has it |
| Sidebar.BumpedRow | social-mvp/src/components/ConversationsSidebar.tsx:74-87 | a known conversation keeps its fields, takes the message time and adds the increment; an unknown one starts with the increment |
| Sidebar.Bump | social-mvp/src/components/ConversationsSidebar.tsx:71-88 | the bumped row at index 0, then the other rows in their order, the id nowhere else |
| Sidebar.BumpKeepsUnique | social-mvp/src/components/ConversationsSidebar.tsx:71-88 | conversation ids stay distinct |
| Sidebar.BumpUnread | social-mvp/src/components/ConversationsSidebar.tsx:73-86 | the count rises by one iff the user is known and not the sender, otherwise stays |
| Sidebar.InsertPermutes | social-mvp/src/components/ConversationsSidebar.tsx:101 | an insertion step adds exactly the one row |
| Sidebar.InsertSorted | social-mvp/src/components/ConversationsSidebar.tsx:101 | an insertion step keeps rows newest first |
| Sidebar.SortByRecency | social-mvp/src/components/ConversationsSidebar.tsx:100-103 | the stable sort: a permutation of the rows, newest first |
| Sidebar.SortSortedUnchanged | social-mvp/src/components/ConversationsSidebar.tsx:101 | sorting rows that are already newest first changes nothing, so equal times keep their order |
| Sidebar.InsertRow | social-mvp/src/components/ConversationsSidebar.tsx:101 | the scanning insertion computes Insert |
| Sidebar.OtherIds | social-mvp/src/components/ConversationsSidebar.tsx:50 | the rows' other-participant ids, in order and with repeats (the handler applies Distinct) |
| Sidebar.Sidebar.constructor | social-mvp/src/components/ConversationsSidebar.tsx:32-34 | every state variable starts at its initial value |
| Sidebar.Sidebar.UserLoaded | social-mvp/src/components/ConversationsSidebar.tsx:37-39 | the signed-in user's id is stored |
| Sidebar.Sidebar.Loaded | social-mvp/src/components/ConversationsSidebar.tsx:42-60 | error: nothing changes. Success: the rows, the distinct other ids; fetched profiles join the cache but never replace a cached entry |
| Sidebar.Sidebar.LiveMessage | social-mvp/src/components/ConversationsSidebar.tsx:67-90 | the rows become Bump of the old rows |
| Sidebar.Sidebar.SortRows | social-mvp/src/components/ConversationsSidebar.tsx:100-103 | the state array itself is sorted newest first, a permutation of the old rows |
| CommentList.AppendComment | social-mvp/src/components/CommentList.tsx:88 | appended at the end with no dedup; a null list becomes a one-element list |
| CommentList.DropComment | social-mvp/src/components/CommentList.tsx:103 | every comment with the id removed; a null list stays null |
| CommentList.CommentAuthors | social-mvp/src/components/CommentList.tsx:67 | the comments' author ids, in order |
| CommentList.ChangedId | social-mvp/src/components/CommentList.tsx:118 | `np?.id \|\| op?.id` |
| CommentList.MergeProfile | social-mvp/src/components/CommentList.tsx:120-128 | each field is the new value if non-null, else the cached one, else null |
| CommentList.ApplyProfileChange | social-mvp/src/components/CommentList.tsx:115-129 | no id: cache unchanged; otherwise only that id's entry is replaced by the merge |
| CommentList.ProfileChangeIdempotent | social-mvp/src/components/CommentList.tsx:120-128 | applying the same live change twice equals applying it once |
| CommentList.Comments.constructor | social-mvp/src/components/CommentList.tsx:32-36 | every state variable starts at its initial value |
| CommentList.Comments.UserLoaded | social-mvp/src/components/CommentList.tsx:38-40 | the signed-in user's id is stored |
| CommentList.Comments.Fetched | social-mvp/src/components/CommentList.tsx:47-67 | error: empty list and empty cache. Success: the rows and their distinct authors to fetch; loading ends |
| CommentList.Comments.ProfilesFetched | social-mvp/src/components/CommentList.tsx:68-78 | fetched profiles overwrite cached ones; an error changes nothing |
| CommentList.Comments.LiveInserted | social-mvp/src/components/CommentList.tsx:86-89 | appended; its author is fetched iff not cached |
| CommentList.Comments.AuthorFetched | social-mvp/src/components/CommentList.tsx:90-95 | a returned profile is cached under the author id |
| CommentList.Comments.LiveDeleted | social-mvp/src/components/CommentList.tsx:99-105 | the list becomes DropComment of the old list |
| CommentList.Comments.LiveProfileChanged | social-mvp/src/components/CommentList.tsx:113-129 | the cache becomes ApplyProfileChange of the old cache |
| CommentList.Comments.DeleteClicked | social-mvp/src/components/CommentList.tsx:135-144 | busy while deleting. Error: alert, unmarked, the comment kept. Success: the comment removed |
| CommentBox.SubmitDisabled | social-mvp/src/components/CommentBox.tsx:57 | disabled exactly while submitting or when the text is blank |
| CommentBox.ButtonText | social-mvp/src/components/CommentBox.tsx:60 | "Posting…" exactly while submitting |
| CommentBox.Box.constructor | social-mvp/src/components/CommentBox.tsx:13-15 | empty text, not loading, no error |
| CommentBox.Box.TextChanged | social-mvp/src/components/CommentBox.tsx:50 | the text is stored |
| CommentBox.Box.Submit | social-mvp/src/components/CommentBox.tsx:17-43 | blank text: nothing. No user: "Please sign in to comment.". Otherwise the trimmed body is inserted; success clears the text and notifies, an error keeps the text and shows it; loading ends false |
| PostComposer.DashRuns | social-mvp/src/components/PostComposer.tsx:64 | `replace(/\s+/g, '-')`: no white space left, never longer |
| PostComposer.DashRunsNoSpace | social-mvp/src/components/PostComposer.tsx:64 | a name without white space is unchanged |
| PostComposer.DashRunsJoin | social-mvp/src/components/PostComposer.tsx:64 | a white-space run of any length becomes one '-' |
| PostComposer.SanitizeName | social-mvp/src/components/PostComposer.tsx:64 | no white space and no upper-case letter, never longer |
| PostComposer.SanitizeIdempotent | social-mvp/src/components/PostComposer.tsx:64 | sanitising twice is sanitising once |
| PostComposer.UploadPath | social-mvp/src/components/PostComposer.tsx:65 | `{user}/{now}-{name}`: in the user's folder, no white space after it |
| PostComposer.Composer.constructor | social-mvp/src/components/PostComposer.tsx:8-14 | every state variable starts at its initial value |
| PostComposer.Composer.ContentChanged | social-mvp/src/components/PostComposer.tsx:105 | the text is stored |
| PostComposer.Composer.PickFile | social-mvp/src/components/PostComposer.tsx:23-38 | a non-image or a file over 5 MB sets its message and keeps the chosen file; a good one clears the error and is taken |
| PostComposer.Composer.ClearImage | social-mvp/src/components/PostComposer.tsx:40-44 | the file and the preview are dropped |
| PostComposer.Composer.HandlePost | social-mvp/src/components/PostComposer.tsx:46-99 | needs non-blank text or a file. No user: "Please sign in first.". An upload or insert error keeps the content and shows it. Success inserts the trimmed text (null for image-only) and clears content, file and preview; posting ends false |
| ProfileEditor.CanEdit | social-mvp/src/components/ProfileEditor.tsx:45 | the form is shown exactly when the signed-in user's non-empty id is the profile's id |
| ProfileEditor.IsUsernameChar | social-mvp/src/components/ProfileEditor.tsx:93 | one character of `[a-z0-9_.]`: never white space, its own lower case |
| ProfileEditor.ValidUsername | social-mvp/src/components/ProfileEditor.tsx:93 | the pattern `^[a-z0-9_.]{3,20}$`: at least 3 characters, no white space at either end |
| ProfileEditor.NormalizeUsername | social-mvp/src/components/ProfileEditor.tsx:92 | trimmed and lower-cased, null exactly when blank |
| ProfileEditor.UsernameError | social-mvp/src/components/ProfileEditor.tsx:93-95 | the fixed message exactly for a non-null name that is not 3–20 of a–z, 0–9, '_', '.' |
| ProfileEditor.TrimOfTrimmed | social-mvp/src/components/ProfileEditor.tsx:92 | a string without white space at either end is its own trim |
| ProfileEditor.NormalizeIdempotent | social-mvp/src/components/ProfileEditor.tsx:92 | normalising a normalised name changes nothing |
| ProfileEditor.ValidIsNormal | social-mvp/src/components/ProfileEditor.tsx:92-93 | a name matching the pattern survives normalisation unchanged |
| ProfileEditor.AvatarPath | social-mvp/src/components/ProfileEditor.tsx:72-73 | `avatars/{userId}.{ext}` |
| ProfileEditor.AvatarPathForDotted | social-mvp/src/components/ProfileEditor.tsx:72-73 | a file `x.ext` is stored at `avatars/{userId}.ext` |
| ProfileEditor.Editor.constructor | social-mvp/src/components/ProfileEditor.tsx:23-32 | the form starts from the initial profile, empty strings for missing text |
| ProfileEditor.Editor.UserLoaded | social-mvp/src/components/ProfileEditor.tsx:34-36 | the signed-in user's id is stored |
| ProfileEditor.Editor.FieldsEdited | social-mvp/src/components/ProfileEditor.tsx:152-171 | the three text fields are stored |
| ProfileEditor.Editor.PickFile | social-mvp/src/components/ProfileEditor.tsx:53-68 | owner only; a non-image or a file over 5 MB sets its message and keeps the chosen file; a good one clears the error and is taken |
| ProfileEditor.Editor.Save | social-mvp/src/components/ProfileEditor.tsx:86-126 | owner only. A bad name fails with the fixed message before any remote call. The upload runs only with a file. Success sends trimmed-or-null fields with the new avatar (the current one without a file), shows "Saved!" and drops the file. Any error shows its message or "Failed to save"; saving ends false |
| ProfileEditor.Editor.Upload | social-mvp/src/components/ProfileEditor.tsx:70-119 | the upload (only with a file) and the update of save, with the path, the payload and the new state |
| FollowButton.MayToggle | social-mvp/src/components/FollowButton.tsx:58-63 | a signed-in user with a non-empty id who is not the target |
| FollowButton.RunsInitialCheck | social-mvp/src/components/FollowButton.tsx:17 | a truthy uid, a non-empty target and uid ≠ target; never where the button is hidden |
| FollowButton.Button | social-mvp/src/components/FollowButton.tsx:88-102 | nothing for a signed-out user or on one's own profile; otherwise the text and title for the state |
| FollowButton.Follower.constructor | social-mvp/src/components/FollowButton.tsx:7-9 | every state variable starts at its initial value |
| FollowButton.Follower.UserLoaded | social-mvp/src/components/FollowButton.tsx:13-19 | the user is stored; the check runs only for a signed-in user who is not the (non-empty) target |
| FollowButton.Follower.FollowChecked | social-mvp/src/components/FollowButton.tsx:47-55 | following iff a row came back |
| FollowButton.Follower.Toggle | social-mvp/src/components/FollowButton.tsx:57-86 | signed out: alert, nothing changes; own profile: nothing changes. Otherwise the matching request is issued; success flips isFollowing, failure keeps it and alerts; loading ends false |
| FollowButton.Follower.LiveFollowed | social-mvp/src/components/FollowButton.tsx:24-30 | set to following only when the follower is the signed-in user |
| FollowButton.Follower.LiveUnfollowed | social-mvp/src/components/FollowButton.tsx:31-37 | set to not following only when the follower is the signed-in user |
| UserPostList.WithoutIsSubsequence | social-mvp/src/components/UserPostList.tsx:30 | filtering keeps the survivors in their order |
| UserPostList.PrependPost | social-mvp/src/components/UserPostList.tsx:24 | in front with no dedup; a null list becomes a one-element list |
| UserPostList.DropPost | social-mvp/src/components/UserPostList.tsx:30 | every post with the id removed, the rest in order; null stays null |
| UserPostList.Render | social-mvp/src/components/UserPostList.tsx:54-55 | loading, empty for a null or empty list, the posts otherwise |
| UserPostList.Posts.constructor | social-mvp/src/components/UserPostList.tsx:15-16 | a null list, loading |
| UserPostList.Posts.Fetched | social-mvp/src/components/UserPostList.tsx:38-52 | error: empty list; success: the rows (empty for null data); loading ends false |
| UserPostList.Posts.LiveInserted | social-mvp/src/components/UserPostList.tsx:22-25 | the list becomes PrependPost of the old list |
| UserPostList.Posts.LiveDeleted | social-mvp/src/components/UserPostList.tsx:26-32 | the list becomes DropPost of the old list |
| NotificationBell.SmallNumberDigits | social-mvp/src/components/NotificationBell.tsx:64 | numbers up to 99 print in at most two digits |
| NotificationBell.BadgeLabel | social-mvp/src/components/NotificationBell.tsx:59-65 | shown iff unread > 0; "99+" above 99, else the number, which reads back as the count |
| NotificationBell.BadgeDistinguishes | social-mvp/src/components/NotificationBell.tsx:64 | different counts up to 99 get different badges, none of them "99+" |
| NotificationBell.Bell.constructor | social-mvp/src/components/NotificationBell.tsx:11-12 | no user, 0 unread |
| NotificationBell.Bell.UserLoaded | social-mvp/src/components/NotificationBell.tsx:14-19 | the user is stored; no refresh without a user |
| NotificationBell.Bell.LiveChange | social-mvp/src/components/NotificationBell.tsx:30-36 | a live change refreshes only for a user |
| NotificationBell.Bell.Refreshed | social-mvp/src/components/NotificationBell.tsx:20-27 | the exact count; null is stored as 0 |
| NotificationBell.Bell.PathChanged | social-mvp/src/components/NotificationBell.tsx:43-45 | visiting /notifications clears the count; other paths keep it |
| Header.ProfileHref | social-mvp/src/components/Header.tsx:42-43 | login page when signed out, `/u/{username}` with a username, `/profile/{id}` otherwise |
| Header.ValidUsernameHref | social-mvp/src/components/Header.tsx:43 | a username the editor accepts appears in its link unescaped |
| Header.SearchHref | social-mvp/src/components/Header.tsx:54 | `/explore?q={encoded term}&t=users` |
| Header.TotalUnread | social-mvp/src/components/Header.tsx:66 | the sum of the rows' unread counts, missing as 0: positive iff some row has unread, at least each row's count |
| Header.TotalUnreadAppend | social-mvp/src/components/Header.tsx:66 | the total of a concatenation is the sum of the totals |
| Header.TotalUnreadSwap | social-mvp/src/components/Header.tsx:66 | the order of the overview does not change the total |
| Header.DmBadge | social-mvp/src/components/Header.tsx:147-149 | shown iff the total is positive, with the total as its text |
| Header.Bar.constructor | social-mvp/src/components/Header.tsx:12-15 | every state variable starts at its initial value |
| Header.Bar.UserChanged | social-mvp/src/components/Header.tsx:18-32 | the user is stored; signed in: the username is fetched; signed out: cleared; the unread badge is reloaded on every auth state change and not on the initial lookup |
| Header.Bar.UsernameFetched | social-mvp/src/components/Header.tsx:37-40 | the fetched username, null for a missing row |
| Header.Bar.QueryChanged | social-mvp/src/components/Header.tsx:100 | the query is stored |
| Header.Bar.OnSearch | social-mvp/src/components/Header.tsx:50-56 | a blank query does nothing; otherwise navigates with the trimmed term and clears the box |
| Header.Bar.DmUnreadLoaded | social-mvp/src/components/Header.tsx:59-68 | an error gives 0; otherwise the total, which is positive iff some row has unread |

## Left out

- Supabase calls: queries, inserts, updates, RPCs, storage and auth are not modelled. Each call's outcome is a method parameter (rows, an error message, a public URL). A null `data` on a successful query is taken as no rows, as the components' `?? []` does.
- Realtime channels: subscription set-up and teardown are not modelled. Each delivered event is a method.
- Concurrency: async handlers are not interleaved. Each handler runs as one atomic step, with all its remote outcomes given up front.
- Stale closures: the model's handlers read current state, because the effects that read `currentUserId`, `openCommentId`, `profiles` and `me` re-subscribe when those change. The code differs in two places. The follows subscription in `FollowButton.tsx:23-37` depends only on `targetUserId`, so its handlers compare against the value of `me` at mount, which is null; FollowButton.Follower.LiveFollowed and FollowButton.Follower.LiveUnfollowed therefore state the intended behaviour. The feed's mount effect (`PostFeed.tsx:55-59`) runs the first render's fetchFirst, whose fetchLikedState sees a null `currentUserId`; see the PostFeed.Feed.LikedStateLoaded line below.
- Browser I/O: `alert` is an out-parameter text, and router navigation is a returned path. The model leaves out scrolling (`ChatWindow.tsx:177-186`), object URLs (a preview is a boolean), the IntersectionObserver that calls fetchMore, and `console.error`.
- Time and focus: `Date.now()` is a parameter. `Date` parsing and `toLocaleString` are not modelled; timestamps are integers.
- Strings: string positions are code points, not UTF-16 code units. `toLowerCase`/`toUpperCase` are modelled for ASCII letters only, one character to one.
- ProfileAvatar.Initials: the bound of two characters holds only under the ASCII case mapping. JavaScript's `toUpperCase` runs after `slice(0, 2)` (`ProfileAvatar.tsx:22-23`) and can lengthen a character ('ß' becomes "SS"), so the name "ß b" gets the three-character initials "SSB".
- Numbers: `Number(id)` is modelled only for strings of decimal digits. Other numeric forms ("1e3", " 7", "0x1F") give no active row.
- PostFeed.Feed.ToggleLikeClicked: the optimistic intermediate state before the remote call returns is not modelled. The method gives the state after the call, and Optimistic states the intermediate step.
- PostFeed.Feed.ToggleLikeClicked: the method states the intended rollback (ToggleLike), the corrected half of the first Findings row. The code's rollback is ToggleLikeAsWritten: for a liked post showing 0 likes whose unlike fails, the code leaves the count at 1 where the method gives 0.
- PostFeed.Feed.LikedStateLoaded: the method reads the current user, which is the intended behaviour and the corrected half of the third Findings row. For the first page the code's call sees MountUserId (null) and never runs, so the first page's liked flags are not loaded (AsWrittenFirstPageSkipsLiked); for later pages the call sees the current user, as modelled.
- ChatWindow.Chat.Load: the method shows FirstPage, the intended newest 40, the corrected half of the second Findings row. The code's ascending limit-40 query gives FirstPageAsWritten, the oldest 40: with 41 messages the code lists messages 1-40 where the method lists 2-41.
- ChatWindow.Chat.LoadOlder: the method prepends OlderPage, the intended 40 right before the cursor, the corrected half of the second Findings row. The code's query gives OlderPageAsWritten, the oldest 40 before the cursor: with 100 messages and the cursor at message 81, the code returns messages 1-40 where the method returns 41-80.
- Sidebar.BumpedRow: for an unknown conversation the code stores the conversation id (a number) in `other_id` when the message is not counted as unread. The model stores its decimal string.
- Header.Bar.DmUnreadLoaded: the code would throw on null `data` from a successful RPC. The model sums an empty list instead.
- PostComposer.Composer.HandlePost: the `ext` computed at `PostComposer.tsx:63` is never used by the code, and the model leaves it out too.
- ChatWindow.Chat.ShowFirstPage, ProfileEditor.Editor.Upload and Sidebar.InsertRow are parts of the handlers they serve. They are not separate operations of the component.
- JSX rendering and styling are not modelled, beyond the choices that decide what is shown: the avatar, badges, button texts and the post list view.
- `MarkReadEffect.tsx` is not part of this model, because it only calls an RPC. The message-read upserts are returned as the read pointer.

## Findings

| source | as written | input that shows it | evidently intended | confidence | as-written member | corrected member |
|---|---|---|---|---|---|---|
| social-mvp/src/components/PostFeed.tsx:214-231 | a failed unlike adds 1 back to the count after the optimistic step clamped it at 0 | a post liked by the user whose count shows 0 (the counts arrived before the like did); the unlike fails; the count shows 1 | a failed remote call restores the flag and the count shown before the click | not executed | PostFeed.AsWrittenRollbackInflates | PostFeed.ToggleLike |
| social-mvp/src/components/chat/ChatWindow.tsx:66-75 | the first page and the older page are both queried ascending with a limit of 40, which gives the oldest 40 | a conversation with 41 messages: the window shows messages 1-40, message 41 never appears, and "Load earlier" from message 1 finds nothing | the newest 40 messages, oldest first, with older pages reaching back 40 at a time | not executed | ChatWindow.AsWrittenHidesNewest | ChatWindow.OlderPageExtendsWindow |
| social-mvp/src/components/PostFeed.tsx:55-59 | the mount effect calls the first render's fetchFirst, whose fetchLikedState (line 87) reads that render's `currentUserId`, which is null (line 185), so it returns before querying | a signed-in user who liked a post on the first page: the post's heart stays unfilled until a live like event or a toggle | the first page's liked flags load for the signed-in user, as they do for later pages | not executed | PostFeed.AsWrittenFirstPageSkipsLiked | PostFeed.Feed.LikedStateLoaded |
