# CubaComunica: a verified model of the social-app core

CubaComunica is a small Twitter-like social application. Its backend is Django REST, with four apps:

- `blog`: posts, comments, likes and shares;
- `users`: a custom user model, following, registration and JWT login;
- `noti`: notifications;
- `chat`: a personal WebSocket chat.

Its client is written in React. This project models the rules of that core in Dafny and proves properties about them.

The model has four parts.

**The client session** (`credential_store`, `session_gateway`, `user_api`, `private_route`).
- The browser's `localStorage` is a class whose field is a `map<string, string>`.
- `storeAuthData` and `clearAuthData` are methods that update that map in place.
- The `authAxios` request interceptor is a method that does the following:
  - it replaces the request headers with the Bearer header;
  - it decides, from the `exp` claim and the current time in milliseconds, whether the access token must be renewed;
  - it makes at most one refresh call;
  - it stores the renewed pair or wipes the store.
- Login, register and logout are methods on the same store.
- The route guard is a function of the store.

**The server state** (`database`, `user_models`, `blog_models`, `noti_models`, `chat_models`, `user_manager`, `blog_views`, `user_views`, `noti_views`, `chat`).
- The database is a value of tables:
  - users, posts, comments and notifications, kept newest first;
  - chat rows, in the order they were saved;
  - the `liked`, `shared` and `following` many-to-many relations, as sets of pairs.
- `Valid` holds when keys are unique, foreign keys resolve, usernames and emails are unique, and the tables are ordered.
- Each view is a function from the tables to the new tables and the view's answer:
  - like and share toggles, with their `get_or_create` notification;
  - comment creation;
  - follow;
  - registration, with its checks in order;
  - recommendation; search;
  - the read and unread notification lists; "mark all read";
  - chat history.
- A `Db` class holds the current tables. Its methods apply those functions; each promises that a valid database stays valid, as the `*Valid` lemmas about those functions show.
- Cascading deletes of posts and users are functions on the tables.

**Serializers, permissions and routes** (`blog_serializers`, `user_serializers`, `blog_permissions`, `routing`, `blog_urls`, `user_urls`).
- Derived fields are functions of the tables: counts, membership flags, claims, field lists.
- The owner-only write permission is a predicate.
- Each URL table is an ordered list of patterns resolved by first match.

**Client form helpers** (`form_data`, `post_form`, `profile_form`, `comment_forms`, `post_reactions`, `sidebar_link`).
- The `FormData` buffer is a class holding an ordered entry list.
- The submit handlers are methods that append entries to it in the source's order.
- The highlight predicates use JavaScript's loose equality. The notification badge is capped at `+99`.

Everything the core reaches outside itself is a parameter of the model:

| Outside dependency | Parameter |
|---|---|
| The JWT decoder | `decode`, a partial function |
| The refresh and login replies | `renew` and `answer` |
| Password hashing | `hash` |
| `validate_email` | `validEmail` |
| `normalize_email` | `normalize` |
| The media URL of a stored file (`.url`) | `media` |
| `request.build_absolute_uri` | `absolute` |
| The case folding behind `icontains` | `fold` |
| The clock | `now` |

## Model

| member | source | states |
|---|---|---|
| BlogPermissions.PermissionCases | blog/permissions.py:31-33 | GET, HEAD and OPTIONS are always permitted; any other method is permitted exactly when the requester owns the object |
| BlogPermissions.NonOwnerCannotWrite | blog/permissions.py:31-33 | PUT, PATCH and DELETE by anyone but the owner are refused |
| BlogSerializers.UsersOf | blog/models.py:22-23 | the users related to a post are exactly those whose (user, post) pair is in the many-to-many table |
| BlogSerializers.ILiked | blog/serializers.py:182 | `iliked` is true exactly when the requesting user is among the post's likers |
| BlogSerializers.IShared | blog/serializers.py:194 | `ishared` is true exactly when the requesting user is among the post's sharers |
| BlogSerializers.MyPostOut | blog/serializers.py:51-99 | built without the request, as the `get_user_*` views do: the author's username, the relative avatar and image URLs, `liked`/`shared` are the related users, the counts are their sizes, no `iliked`/`ishared`, and `parent` holds exactly the ids of the post's comments |
| BlogSerializers.PostOutFor | blog/serializers.py:118-194 | the fields of `MyPostSerializer` except `image`, which the generic views render as the absolute URL of the stored file (or none without one); plus `iliked`/`ishared` telling whether the requester is in `liked`/`shared` |
| BlogSerializers.MyPostFieldsDropFlags | blog/serializers.py:58-63 | `MyPostSerializer`'s field list is `PostSerializer`'s (lines 129-132) without `iliked` and `ishared`, in the same order |
| BlogSerializers.NewPostHasNoReactions | blog/serializers.py:87 | a freshly saved post serializes with no likers, no sharers and both counts 0 |
| BlogSerializers.CommentOutOf | blog/serializers.py:17-22 | every model field of the comment, with `user` the commenter's username and `avatar` their avatar URL |
| BlogUrls.OnlyEmptyPathListsPosts | blog/urls.py:6 | the empty path, and no other, resolves to `PostList` |
| BlogUrls.DigitsReachPostDetail | blog/urls.py:9 | `<digits>/` resolves to `PostDetail` with the digits' decimal value as `pk` |
| BlogUrls.SharedDigitsReachShareToggle | blog/urls.py:18 | `shared/<digits>/` resolves to the share toggle, because that route comes before `shared/<str:username>/` |
| BlogUrls.SharedNameReachesUserShared | blog/urls.py:24 | `shared/<segment>/` with a segment that is not all digits resolves to `get_user_shared` with that username |
| BlogUrls.UserSharedNeverGetsDigits | blog/urls.py:18-24 | any path that reaches `get_user_shared` passes a username that is not all digits, so such a user's shares are unreachable |
| BlogUrls.CommentsPathReachesCommentList | blog/urls.py:27 | `comments/<digits>/` resolves to `CommentList` with that `pk` |
| BlogUrls.CommentPathReachesCommentDetail | blog/urls.py:30 | `comment/<digits>/` resolves to `CommentDetail` with that `pk` |
| BlogUrls.FirstTwoSegmentMatches | blog/urls.py:6-15 | which of the first five patterns a two-segment path matches, each as an if-and-only-if on its segments |
| BlogUrls.LastTwoSegmentMatches | blog/urls.py:18-30 | which of the last four patterns a two-segment path matches, each as an if-and-only-if on its segments |
| BlogUrls.ResolveTwoSegments | blog/urls.py:4-31 | a two-segment path resolves to the first pattern it matches, with that pattern's converted argument |
| Routing.FirstMatch | blog/urls.py:4-31 | the chosen pattern matches the path and no earlier one does; with no choice, no pattern matches |
| Routing.ResolvedRoute | users/urls.py:5-26 | a resolved path names the first matching pattern and the arguments its converters read |
| Routing.MatchesTwo | blog/urls.py:12 | a two-segment path matches a two-piece pattern exactly when each piece accepts its segment |
| Routing.MatchesOne | blog/urls.py:9 | a one-segment path matches a one-piece pattern exactly when the piece accepts it |
| BlogViews.GetOrCreate | blog/views.py:69 | `get_or_create`: with two or more matches it raises `MultipleObjectsReturned`, with one it changes nothing, with none it inserts the row; only the notification table changes, and afterwards exactly one row matches |
| BlogViews.GetOrCreateValid | blog/views.py:69 | a notification between existing users about an existing post keeps the database consistent |
| BlogViews.Toggled | blog/views.py:63-70 | a toggle that succeeds answers `{'status': 'ok'}` |
| BlogViews.ToggleFlips | blog/views.py:63-67 | a toggle on an existing post flips exactly the requester's pair in its relation, leaves the other relation and every other table except the notifications alone, and a missing post raises `DoesNotExist` with nothing changed |
| BlogViews.ToggleTwiceRestores | blog/views.py:64-67 | toggling twice gives back the relation it started from |
| BlogViews.NoNotiOnRemoveOrOwnPost | blog/views.py:64-68 | an unlike/unshare, or a like/share of one's own post, adds no notification and answers ok |
| BlogViews.AddNotifiesAuthorOnce | blog/views.py:67-69 | a like/share of someone else's post leaves exactly one notification of its kind from the requester to the author about the post |
| BlogViews.NotiForFits | blog/views.py:69 | a notification created for one `get_or_create` query matches another query only when the two are the same |
| BlogViews.GetOrCreateKeepsAtMostOne | blog/views.py:69 | `get_or_create` never makes any query match twice that matched at most once |
| BlogViews.ToggleKeepsAtMostOne | blog/views.py:63-69 | like/unlike cycles never duplicate a notification |
| BlogViews.WithPairsValid | blog/views.py:65-67 | replacing a relation with pairs of existing users and posts keeps the database consistent |
| BlogViews.ToggleValid | blog/views.py:63-93 | a toggle by an existing user keeps the database consistent, whichever way it ends |
| BlogViews.Toggle | blog/views.py:63-93 | the database method's new tables and reply are those of `Toggled`, and a valid database stays valid when the requester exists |
| BlogViews.Like | blog/views.py:52-70 | `like` is the toggle on the `liked` relation with kind 'le gusto tu publicación', and keeps a valid database valid |
| BlogViews.Shared | blog/views.py:75-93 | `shared` is the toggle on the `shared` relation with kind 'compartió tu publicación', and keeps a valid database valid |
| BlogViews.CommentErrors | blog/views.py:224-228 | a missing post raises `DoesNotExist` and a missing `body` raises `KeyError('body')`, both before anything is written |
| BlogViews.CommentAddsOne | blog/views.py:226-235 | past the checks exactly one comment is added, the post's comment count grows by one, no other table but the notifications changes (users, posts, reactions, following and chats stay), and the response carries the body, the requester's username and the post |
| BlogViews.CommentTouchesOnlyNotis | blog/views.py:231-233 | past the checks the tables are those after saving the comment, up to the notifications |
| BlogViews.CommentNotifiesAuthorOnce | blog/views.py:232-233 | commenting on someone else's post leaves exactly one 'Comentó tu publicación' notification to the author, and none on one's own post |
| BlogViews.CommentValid | blog/views.py:224-235 | commenting as an existing user keeps the database consistent, whichever way it ends |
| BlogViews.CreateComment | blog/views.py:213-235 | the database method's new tables and reply are those of `CommentCreated`, and a valid database stays valid when the commenter exists |
| BlogViews.PostComments | blog/views.py:208-211 | a missing post raises; otherwise the result holds exactly the comments on that post |
| BlogViews.UserPosts | blog/views.py:109-111 | the named user must exist (else `DoesNotExist`); the result holds exactly the posts the user wrote, liked or shared (the same shape at lines 26-28 and 44-46) |
| BlogViews.UserPostsNewestFirst | blog/models.py:26-27 | the user post lists come newest first |
| BlogViews.UserNamedIsUnique | users/models.py:89 | with unique usernames, looking a user up by name finds the user who has it |
| BlogViews.LikeShowsInLikes | blog/views.py:27 | after a like the post is in the user's likes list, and after an unlike it is not |
| UserViews.FollowFlips | users/views.py:33-39 | an unknown username raises `DoesNotExist` with nothing changed; otherwise exactly the requester's pair for the target flips, and no table but the following pairs and the notifications changes |
| UserViews.FollowNotifiesOnlyOnFollow | users/views.py:35-47 | an unfollow answers 'Ya no lo sigues' and adds no notification; a follow saves and answers one unread 'te empezó a seguir' notification from the requester to the target |
| UserViews.FollowCycleAccumulates | users/views.py:35-45 | a follow then an unfollow restores the following pairs but leaves one more notification, because a follow does not use `get_or_create` |
| UserViews.FollowValid | users/views.py:32-47 | a follow by an existing user keeps the database consistent |
| UserViews.Follow | users/views.py:18-47 | the database method's new tables and reply are those of `Followed`, and a valid database stays valid when the requester exists |
| UserViews.Recommended | users/views.py:64-65 | at most five users, each with another username and not followed by the requester, a prefix of the candidates in table order, and all of them when there are five or fewer |
| UserViews.RecoNeverSuggestsMe | users/views.py:64 | in a consistent database the requester is never recommended |
| UserViews.RecoDropsOnlyLaterCandidates | users/views.py:65 | each of the first five candidates is recommended |
| UserViews.Searched | users/views.py:87-93 | without `query` the list is empty; otherwise exactly the users whose folded username contains the folded query |
| UserViews.SearchFindsOccurrences | users/views.py:89 | a user is found exactly when the query occurs at some position of the username |
| UserViews.EmptyQueryFindsEveryone | users/views.py:89 | an empty query finds every user |
| UserViews.UserListsNewestFirst | users/models.py:105-106 | search and recommendation lists come newest-joined first |
| UserViews.RegisterCheckOrder | users/views.py:159-167 | a taken username answers 'El nombre de usuario ya está en uso.' before any email check; then a malformed email, then a taken email, each with its message and nothing written |
| UserViews.RefusedRegistrationChangesNothing | users/views.py:156-167 | a registration that raises or answers a message leaves the database as it was |
| UserViews.RegistrationCreatesOne | users/views.py:169-175 | a successful registration adds exactly one user with the given username and email and the hashed password, answers those three values, and leaves every other table and counter as it was |
| UserViews.RegistrationValid | users/views.py:156-175 | registration keeps the database consistent, unique usernames and emails included |
| UserViews.Register | users/views.py:143-175 | the database method's new tables and reply are those of `Registration`, and a valid database stays valid |
| UserSerializers.FollowersOf | users/models.py:92 | the followers of a user (`obj.followed`) are exactly the first members of the following pairs that point at them |
| UserSerializers.FollowingOf | users/models.py:92 | the users a user follows are exactly the second members of that user's following pairs |
| UserSerializers.FollowingIsDirected | users/models.py:92 | `symmetrical=False`: b is followed by a exactly when a is a follower of b, and one pair gives no reverse pair |
| UserSerializers.IFollow | users/serializers.py:87-88 | `i_follow` holds exactly when the requester is among the object's followers, equivalently the object is among those the requester follows |
| UserSerializers.Entries | users/models.py:110 | one `{'username', 'avatar'}` entry per row, in row order, with the avatar's URL |
| UserSerializers.FollowedUsernamesPerFollower | users/models.py:109-110 | in a consistent database `followed_usernames` has exactly one entry per follower, and every follower has an entry |
| UserSerializers.FollowerRowsAreFollowers | users/models.py:110 | the follower rows are as many as the followers, because user ids are unique |
| UserSerializers.FollowerRowsImage | users/models.py:110 | the ids of the follower rows are exactly the followers |
| UserSerializers.UserOutFor | users/serializers.py:65-124 | `i_follow`, `followers` and `following` from the following pairs, the user's own id, username and email, the absolute URLs of the avatar and cover image, and the relative ones of `followed_usernames` |
| UserSerializers.Patched | users/serializers.py:65-75 | an update never changes `username`, `email`, `id`, the password or the flags; each writable field (`name`, `bio`, `avatar`, `cover_image`, `date_joined`) takes the sent value or keeps its own |
| UserSerializers.ReadOnlyPatchIsIgnored | users/serializers.py:65-66 | a request that sends only `username` and `email` changes nothing |
| UserSerializers.SearchOutFor | users/serializers.py:19-37 | exactly `name`, `username`, the avatar's absolute URL (the views pass the request) and `i_follow` |
| UserSerializers.SearchOutAgreesWithUserOut | users/serializers.py:36-37 | a search row shows the same name, username, avatar and `i_follow` as the profile row (lines 87-88) |
| UserSerializers.TokenClaims | users/serializers.py:141-147 | the access token carries the user's username and avatar URL besides simplejwt's `user_id`, whose decimal digits read back as the id, and `exp` |
| UserSerializers.StoredTokenIdentity | users/serializers.py:144-145 | storing a pair issued for a user writes that user's name, id and avatar into the browser store |
| UserSerializers.MyUserOut | users/serializers.py:159-161 | the registration answer is the username, the email and the stored (hashed) password |
| UserModels.NewUserDefaults | users/models.py:89-98 | a user built without extra fields has blank name and bio, the default avatar and cover, joins now and has neither flag; given fields are kept |
| UserManager.CreatedUser | users/models.py:29-37 | a missing or empty email raises the `ValueError` with its message and saves nothing; otherwise the normalized email and hashed password are saved, unless a unique constraint raises `IntegrityError` |
| UserManager.WithFlagDefaults | users/models.py:51-52 | `setdefault` keeps a flag the caller gave and fills in the default only when it is absent |
| UserManager.CreatedFlags | users/models.py:51-69 | `create_user` defaults both flags to off and `create_superuser` to on, a given value winning in both |
| UserManager.SuperuserMayLackStaff | users/models.py:67-69 | `create_superuser(is_staff=False)` creates a superuser without staff status, since nothing checks the flags |
| UserManager.CreatedUserValid | users/models.py:29-37 | account creation keeps the database consistent |
| UserManager.CreateUser | users/models.py:17-37 | the database method saves and returns what `CreatedUser` gives, changes nothing when it raises, and keeps a valid database valid |
| Database.EmptyValid | blog/models.py:19-27 | the empty database satisfies every consistency rule: foreign keys, unique keys, unique usernames and emails, newest-first orderings |
| Database.UserNamed | blog/views.py:26 | `User.objects.get(username=…)` finds a user with that username, or raises `DoesNotExist` exactly when no user has it |
| Database.PostWithId | blog/views.py:63 | `Post.objects.get(pk=…)` finds the post with that id, or raises `DoesNotExist` exactly when there is none |
| Database.InsertUser | users/models.py:89-90 | saving a user raises `IntegrityError` exactly when the username or the email is taken; otherwise the user gets the next id and takes its place in the `-date_joined` order |
| Database.InsertedKeyIsNew | blog/models.py:4 | the next primary key is not in use |
| Database.InsertImage | blog/models.py:4 | saving a row adds exactly its key to the table's keys |
| Database.ReferencesWiden | blog/models.py:19 | foreign keys stay valid when no referring row changes and no key disappears |
| Database.WithFollowingValid | users/models.py:92 | following pairs between existing users keep the database consistent |
| Database.WithReactionsValid | blog/models.py:22-23 | like and share pairs of existing users and posts keep the database consistent |
| Database.InsertUserValid | users/models.py:89-106 | saving a user the unique constraints accept keeps the database consistent |
| Database.InsertPostValid | blog/models.py:19-27 | saving a post by an existing user keeps the database consistent |
| Database.InsertPostReferences | blog/models.py:19 | a new post's author foreign key names an existing user and no other reference is affected |
| Database.InsertCommentValid | blog/models.py:42-48 | saving a comment by an existing user on an existing post keeps the database consistent |
| Database.InsertCommentReferences | blog/models.py:42-43 | a new comment's user and post foreign keys name existing rows |
| Database.InsertNotiValid | noti/models.py:22-30 | saving a notification whose users, post and comment exist keeps the database consistent |
| Database.InsertNotiReferences | noti/models.py:22-25 | a new notification's foreign keys name existing rows |
| Database.NotiReferencesWiden | noti/models.py:22-25 | a notification's references stay valid while no key disappears |
| Database.FilterImage | blog/models.py:19 | a kept row's key remains among the keys after a deletion, and no key is added |
| Database.FilterKeysBelow | blog/models.py:4 | deleting rows keeps every key below the next one |
| Database.DeletePostLeavesNoComments | blog/models.py:43 | `on_delete=CASCADE`: after a post is deleted no comment, like or share refers to it |
| Database.DeletePostValid | blog/views.py:153-155 | deleting a post through `PostDetail`, with its cascade, keeps the database consistent |
| Database.DeletePostReferences | noti/models.py:24-25 | after a post deletion every remaining foreign key still names a row |
| Database.DeletePostSurvivors | blog/models.py:43 | a post deletion takes no other post and only that post's comments |
| Database.DeleteUserLeavesNoTrace | noti/models.py:22-23 | after a user is deleted no post, comment, notification, following pair, like or share refers to them |
| Database.DeleteUserValid | users/views.py:118-122 | deleting a user through `UserDetailView`, with its cascade, keeps the database consistent |
| Database.DeleteUserKeys | users/views.py:118-122 | a user deletion keeps primary keys unique and below their sequences |
| Database.DeleteUserReferences | blog/models.py:42-43 | after a user deletion every remaining foreign key still names a row |
| Database.DeleteUserSurvivors | blog/models.py:19 | a user deletion takes only that user, their posts and the comments that go with them |
| Database.Db.constructor | blog/models.py:4 | the server's database starts empty |
| NotiModels.NewNoti | noti/models.py:21-27 | a saved notification has the given type, users, post and timestamp, no comment, and is unread |
| NotiViews.ReadNotis | noti/views.py:23-26 | `noti` returns exactly the requester's read notifications |
| NotiViews.UnreadNotis | noti/views.py:43-46 | `noti_no_l` returns exactly the requester's unread notifications |
| NotiViews.ReadUnreadPartition | noti/views.py:24-44 | each of the requester's notifications is in exactly one of the two lists, and the two lists together are as long as all of them |
| NotiViews.MarkedRead | noti/views.py:64-67 | the table after `noti_read` has the same rows in the same places, each marked as `noti_read` saves it |
| NotiViews.NothingUnreadAfterMarking | noti/views.py:63-67 | afterwards the requester has no unread notification and every one they have is read |
| NotiViews.MarkKeepsAddressees | noti/views.py:66 | marking keeps who each notification is for |
| NotiViews.MarkChangesOnlyIsRead | noti/views.py:66-67 | marking changes only `is_read`, only on the requester's unread rows, and only to read |
| NotiViews.MarkIdempotent | noti/views.py:64-67 | marking twice is marking once |
| NotiViews.MarkValid | noti/views.py:63-67 | marking keeps the database consistent |
| NotiViews.MarkKeepsOrder | noti/models.py:29-30 | marking keeps the `-created_at` order |
| NotiViews.MarkKeepsReferences | noti/views.py:66-67 | marking keeps every foreign key valid |
| NotiViews.NotiRead | noti/views.py:50-68 | the loop over the requester's unread rows leaves the table `MarkedRead` gives, answers 'Leido' and keeps a valid database valid |
| Ordered.InsertPos | blog/models.py:26-27 | a new row goes after every strictly newer row and before the first row that is not newer |
| Ordered.InsertNewestShape | blog/models.py:26-27 | the table after a save is the rows before the insertion point, the new row, then the rest |
| Ordered.InsertNewestOrdered | blog/models.py:26-27 | saving a row keeps the table newest first |
| Ordered.InsertNewestContents | blog/models.py:26-27 | saving a row keeps every row there was and adds exactly that one |
| Ordered.InsertNewestMembers | blog/models.py:26-27 | the rows after a save are the old rows and the saved one |
| Ordered.InsertNewestInjective | users/models.py:89-90 | a unique column stays unique when the saved row's value is new |
| Ordered.InsertNewestKeyed | blog/models.py:4 | a fresh primary key keeps the keys unique and below the next one |
| Ordered.InsertNewestCount | blog/views.py:209 | a query over the new table counts the saved row once more exactly when it matches |
| Ordered.FilterNewestFirst | blog/models.py:47-48 | a filtered queryset over an ordered table is ordered |
| Seqs.Filter | blog/views.py:27 | `filter` returns only rows of the table that match, returns every matching row, and is never longer than the table |
| Seqs.FilterMultiplicity | blog/views.py:27 | each matching row is kept as many times as it occurs and every other row is dropped |
| Seqs.FilterPairwise | blog/models.py:26-27 | a filter keeps the relative order of the rows it keeps: any relation between every earlier and later row of the table, newest-first order among them, still holds of the result |
| Seqs.Take | users/views.py:65 | the slice `[:5]` is a prefix of at most five rows, the whole list when it is shorter |
| Seqs.FilterKeepsAll | users/views.py:89 | a filter every row satisfies keeps the whole table |
| Seqs.FilterSplits | noti/views.py:24-44 | a filter and its complement split the table |
| Seqs.FilterInjective | users/models.py:89 | a filter keeps a unique column unique |
| Seqs.InjectiveImageSize | users/models.py:110 | a table whose ids are unique has as many rows as ids |
| Chat.RoomNameOrdered | chat/consumers.py:32-35 | the room is the smaller username, a dash and the larger one, so both directions of a conversation share it |
| Chat.RoomNamesCanCollide | chat/consumers.py:32-35 | the pairs ("a-b", "c") and ("a", "b-c") get the same room, because usernames may hold a dash |
| Chat.CanalIsGroupName | chat/views.py:27-32 | the history view's `canal` is the consumer's group name for the same pair, whichever user asks |
| Chat.History | chat/views.py:25-35 | the named user must exist (else `DoesNotExist`); the answer is exactly the saved messages of the pair's channel |
| Chat.Echo | chat/consumers.py:82-89 | the frame sent down the socket is a 'chat_message_echo' with the event's message and username |
| Chat.EchoInjective | chat/consumers.py:82-89 | two events of the same kind with the same echo are equal, so the echo loses nothing |
| Chat.PersonalChatConsumer.constructor | chat/consumers.py:6 | a consumer starts with no names set |
| Chat.PersonalChatConsumer.Connect | chat/consumers.py:29-37 | `connect` records both path arguments and sets the room and group names from them |
| Chat.PersonalChatConsumer.Receive | chat/consumers.py:56-69 | a missing 'message' or 'username' raises `KeyError` with nothing saved; otherwise the message is saved under the group name and the 'chat_message' event goes to that group, and its echo (chat_message, lines 82-89) carries the message and username the client sent |
| Chat.SavedMessageShowsInHistory | chat/views.py:35 | a message a connected consumer saved shows in the history each of the two users asks for about the other |
| CredentialStore.Stored | frontend/src/api/localStorage.js:7-18 | both tokens are written; the username, user id and avatar come from the decoded access token, or stay as they were when decoding throws after the token writes; no other key changes |
| CredentialStore.StoredIdempotent | frontend/src/api/localStorage.js:7-18 | storing the same response twice leaves the store as storing it once |
| CredentialStore.StoredIdentityIgnoresPrevious | frontend/src/api/localStorage.js:13-17 | when the token decodes, the session keys depend only on the response, not on what the store held |
| CredentialStore.Store.constructor | frontend/src/api/localStorage.js:10 | the store starts with the items it is given |
| CredentialStore.Store.GetItem | frontend/src/api/localStorage.js:13 | `getItem` is `null` exactly for an absent key and otherwise the stored value |
| CredentialStore.Store.SetItem | frontend/src/api/localStorage.js:10-11 | `setItem` writes exactly that key |
| CredentialStore.Store.Clear | frontend/src/api/localStorage.js:24 | `clear` empties the store |
| CredentialStore.Store.StoreAuthData | frontend/src/api/localStorage.js:7-18 | five writes in source order leave the store `Stored` describes, and report whether `jwtDecode` returned |
| CredentialStore.Store.ClearAuthData | frontend/src/api/localStorage.js:23-25 | the whole store is emptied, not only the session keys |
| SessionGateway.Intercepted | frontend/src/api/useAxios.js:32-62 | the headers are replaced by the Bearer header from the token read on entry; an undecodable token rejects the request; a refresh call is made at most once and exactly when the expiry is less than five minutes away, carrying the stored refresh token through `guestAxios`; without renewal nothing changes; a stored renewal holds the new pair; a failed one empties the store and navigates to /login while the request still goes out |
| SessionGateway.Intercept | frontend/src/api/useAxios.js:32-62 | the interceptor on the global store leaves the store and effects `Intercepted` gives |
| SessionGateway.ExactlyFiveMinutesLeftIsNotRenewed | frontend/src/api/useAxios.js:45 | the comparison is strict: a token exactly five minutes from expiry is not renewed, one millisecond later it is |
| SessionGateway.ExpiredTokenIsRenewed | frontend/src/api/useAxios.js:45 | an already expired token is still sent through the renewal branch |
| SessionGateway.MissingExpiryIsNeverRenewed | frontend/src/api/useAxios.js:41-45 | a token without `exp` gives an invalid Date, the comparison is false and it is never renewed |
| SessionGateway.RenewedSessionIsNotRenewedAgain | frontend/src/api/useAxios.js:45-50 | after a stored renewal, a later request at least five minutes before the new expiry makes no refresh call and changes nothing |
| PrivateRoute.Guard | frontend/src/components/PrivateRoute.jsx:14-16 | the nested route renders exactly when `user_id` is stored and non-empty; otherwise a replacing redirect to /login |
| PrivateRoute.GuardIgnoresTokens | frontend/src/components/PrivateRoute.jsx:14 | the guard ignores the tokens: replacing or removing them never changes its decision |
| PrivateRoute.GuardAfterClear | frontend/src/components/PrivateRoute.jsx:16 | after the store is cleared the guard redirects to /login |
| PrivateRoute.GuardAfterLogin | frontend/src/components/PrivateRoute.jsx:14-16 | a login whose token decodes to a non-empty user id navigates home and opens the guarded pages |
| PrivateRoute.GuardKeepsStaleIdentity | frontend/src/api/localStorage.js:10-17 | when a new token does not decode, the guard's decision is the one the previous identity gave |
| PrivateRoute.GuardAfterFailedRenewal | frontend/src/api/useAxios.js:51-55 | a failed renewal locks the guarded pages |
| UserApi.AppPathOf | frontend/src/api/users.js:5 | every client path built on `/users/` hands the rest to the users app's patterns |
| UserApi.FollowPathReachesFollowView | frontend/src/api/users.js:11-12 | `follow(u)` reaches the follow toggle for `u` |
| UserApi.UserDataPathResolution | frontend/src/api/users.js:50-62 | `getUserData(u)` and `userProfile(u)` reach user detail for `u`, except for 'reco', 'register', 'login' and 'refresh', whose fixed patterns come first |
| UserApi.UpdateTargetsStoredUser | frontend/src/api/users.js:38-42 | `updateUserData` writes to the stored username's profile, and to a user called "null" when none is stored |
| UserApi.SearchPathCarriesRawQuery | frontend/src/api/users.js:29-30 | `q(query)` reaches the search view, and the query text after `?query=` is exactly what was typed, not URL-encoded |
| UserApi.LoggedIn | frontend/src/api/users.js:83-91 | one post to `/users/login/` through `guestAxios`; home opens exactly when the answer was stored without an exception, otherwise 'Credenciales invalidas' is toasted; an answer is stored even when its token then fails to decode |
| UserApi.RegisteredIn | frontend/src/api/users.js:69-77 | one post to `/users/register/`; an answer with a non-empty `username` logs in with the same form data; a message body is toasted as it is; a failed post toasts 'Ocurrió un error'; nothing else touches the store |
| UserApi.LoginReq | frontend/src/api/users.js:83-91 | the method on the global store leaves the store and effects `LoggedIn` gives |
| UserApi.RegisterReq | frontend/src/api/users.js:69-77 | the method on the global store leaves the store and effects `RegisteredIn` gives |
| UserApi.Logout | frontend/src/api/users.js:96-98 | logging out empties the whole store |
| UserApi.FailedLoginChangesNothing | frontend/src/api/users.js:88-90 | a failed login post toasts the error and does nothing else |
| UserApi.RejectedRegistrationKeepsStore | frontend/src/api/users.js:73-76 | a registration refused by a message, or one whose post fails, never touches the store and never navigates |
| UserUrls.OneSegmentSkipsTwoPieceRoutes | users/urls.py:7-10 | neither two-piece pattern matches a one-segment path |
| UserUrls.SingleSegmentResolution | users/urls.py:13-25 | a single segment reaches its fixed pattern when its name is reserved, and user detail with that username otherwise |
| UserUrls.ReservedResolution | users/urls.py:13-22 | 'reco', 'register', 'login' and 'refresh' each reach their own view |
| UserUrls.DetailResolution | users/urls.py:25 | any other single segment reaches user detail with that username |
| UserUrls.ReservedNamesNeverReachDetail | users/urls.py:13-25 | a user called 'reco', 'register', 'login' or 'refresh' cannot be reached through user detail |
| UserUrls.RefreshPathReachesRefresh | users/urls.py:22 | `refresh/` is simplejwt's refresh view |
| UserUrls.DetailPathsHaveOneSegment | users/urls.py:25 | whatever path reaches user detail is one non-reserved segment, and the view gets that segment |
| UserUrls.FollowPathReachesFollow | users/urls.py:7 | `follow/<name>/` is the follow toggle for that name, whatever the name |
| UserUrls.SearchPathReachesSearch | users/urls.py:10 | `u/search/` is the search view |
| FormDataBuffer.LastValue | frontend/src/components/AddPost.jsx:49-52 | the value a server reading the form by key receives is absent exactly when no entry has the key, and is one of that key's entries |
| FormDataBuffer.LastValueOfAppend | frontend/src/components/AddPost.jsx:51 | an entry appended later under the same key hides every earlier one |
| FormDataBuffer.Keys | frontend/src/components/EditProfile.jsx:48-51 | the keys of a form, one per entry, in order |
| FormDataBuffer.FormData.constructor | frontend/src/components/AddPost.jsx:47 | `new FormData()` is empty |
| FormDataBuffer.FormData.Append | frontend/src/components/AddPost.jsx:49 | `append` adds one entry at the end and keeps the earlier ones |
| PostForm.PostEntries | frontend/src/components/AddPost.jsx:49-53 | the typed content always comes first; with an image a second `content` entry holding U+3164 and the `image` entry follow |
| PostForm.ContentTheServerReads | frontend/src/components/AddPost.jsx:49-53 | a server that reads the last `content` gets the typed text without an image but the invisible U+3164 with one |
| PostForm.AddPostForm.constructor | frontend/src/components/AddPost.jsx:38-41 | the form starts with empty content and no image |
| PostForm.AddPostForm.Submit | frontend/src/components/AddPost.jsx:45-56 | a submit sends the entries `PostEntries` gives, without any check on the values, and resets the form |
| PostForm.AddPostForm.Settle | frontend/src/components/AddPost.jsx:29-35 | success invalidates 'posts' and toasts 'Publicaste! 🥳'; failure toasts 'Algo ha ido mal!' |
| ProfileForm.ProfileEntries | frontend/src/components/EditProfile.jsx:48-51 | `name` and `bio` always come first, `''` for a falsy one, then `avatar` and `cover_image` only when chosen |
| ProfileForm.ProfileKeys | frontend/src/components/EditProfile.jsx:48-51 | the keys are name, bio and the chosen pictures in that order; a picture not chosen is absent from the form |
| ProfileForm.BuildProfileData | frontend/src/components/EditProfile.jsx:46-51 | the four conditional appends leave exactly the entries `ProfileEntries` gives |
| ProfileForm.EditProfileForm.constructor | frontend/src/components/EditProfile.jsx:38-43 | the dialog opens with the user's name and bio and no pictures chosen |
| ProfileForm.EditProfileForm.Submit | frontend/src/components/EditProfile.jsx:44-54 | a submit sends the form data and keeps the values |
| ProfileForm.EditProfileForm.Settle | frontend/src/components/EditProfile.jsx:24-33 | the dialog closes either way and the form's values and chosen pictures stay; success invalidates ['user', username] and toasts 'Perfil actualizado'; failure toasts the error's message and then 'Algo ha ido mal!' |
| CommentForms.AddCommentForm.constructor | frontend/src/components/AddComment.jsx:38-45 | the form starts with an empty body for its post |
| CommentForms.AddCommentForm.Submit | frontend/src/components/AddComment.jsx:47-55 | an empty body only toasts 'Escribe algo .. '; any other body, blanks included, is sent with the post's id and the form is reset |
| CommentForms.AddCommentForm.Settle | frontend/src/components/AddComment.jsx:29-34 | success passes the toast text 'Comentaste! 🥳' to the invalidation, as written; failure toasts 'Algo ha ido mal!' |
| CommentForms.CommentedKeyIsNotComments | frontend/src/components/AddComment.jsx:30 | that invalidation argument is not the 'comments' the edit form passes (EditComment.jsx line 29) |
| CommentForms.EditCommentForm.constructor | frontend/src/components/EditComment.jsx:51-54 | the dialog starts from the comment's current body |
| CommentForms.EditCommentForm.Submit | frontend/src/components/EditComment.jsx:55-57 | an empty body only toasts 'El comentario no puede estar vacío..'; otherwise the comment's id, the body and its post are sent |
| CommentForms.EditCommentForm.Settle | frontend/src/components/EditComment.jsx:28-36 | the dialog closes either way; success invalidates 'comments' and toasts 'Comentario actualizado'; failure toasts 'Algo ha ido mal!' |
| CommentForms.BlankBodiesPass | frontend/src/components/AddComment.jsx:49 | only the empty body is refused: a body of blanks passes both forms' checks |
| PostReactions.JsNumber | frontend/src/components/Like.jsx:36 | the number `==` compares a numeric id with: 0 for the empty string, the decimal value of a digit string, and no number for a string with another character |
| PostReactions.FoundByNumber | frontend/src/components/Like.jsx:35-41 | `found` holds exactly when the stored id converts to a number among the post's ids |
| PostReactions.FoundStoredId | frontend/src/components/Shared.jsx:34-40 | with the id stored at sign-in, `found` holds exactly when the user is among the ids |
| PostReactions.LooseEqualityEdges | frontend/src/components/Like.jsx:36 | loose equality ignores leading zeros ("05" finds 5), reads an empty stored id as 0, and a missing one finds nothing |
| PostReactions.HeartColour | frontend/src/components/Like.jsx:46 | the heart is red exactly when `iliked` is truthy or `found` holds, and white otherwise |
| PostReactions.RetweetColour | frontend/src/components/Shared.jsx:46 | the share icon is green exactly when `ishared` is truthy or `found` holds, and white otherwise |
| PostReactions.NoStoredUserOnlyFlag | frontend/src/components/Like.jsx:21 | with no stored user only the serializer's flag lights an icon |
| PostReactions.HighlightMatchesTables | frontend/src/components/Like.jsx:35-46 | for a post serialized by either serializer, the heart is red exactly when the signed-in user's like pair is in the database, and the share icon green exactly when their share pair is |
| PostReactions.ReactionIcon.constructor | frontend/src/components/Like.jsx:21 | an icon starts having sent nothing |
| PostReactions.ReactionIcon.Click | frontend/src/components/Like.jsx:45 | a click calls the mutation with the post's id and nothing else |
| PostReactions.ReactionIcon.Settle | frontend/src/components/Like.jsx:27-32 | success invalidates 'posts'; failure toasts the error's message |
| SidebarLink.Badge | frontend/src/components/SidebarLink.jsx:26-29 | a badge shows exactly for a positive count: its numeral below 99, '+99' from 99 up |
| SidebarLink.Render | frontend/src/components/SidebarLink.jsx:21-29 | the entry links to its target, shows its text and carries the badge for its count |
| SidebarLink.BadgeIsShort | frontend/src/components/SidebarLink.jsx:29 | a badge never takes more than three characters |
| SidebarLink.BadgeSaturates | frontend/src/components/SidebarLink.jsx:29 | two positive counts give the same badge exactly when they are equal or both at least 99 |
| Strings.LessTotal | chat/consumers.py:32 | Python's `>` on two different usernames holds one way or the other, so every pair gets one room name |
| Strings.LessAsymmetric | chat/views.py:27 | no two usernames are each greater than the other |
| Strings.ContainsAt | users/views.py:89 | `icontains` is the existence of an occurrence at some position |
| Strings.NatToString | frontend/src/api/localStorage.js:16 | the stored `user_id` is a run of digits without a leading zero |
| Strings.DecimalRoundTrip | frontend/src/api/localStorage.js:16 | the stored numeral of an id reads back as that id |
| Strings.SplitJoin | blog/urls.py:9 | splitting a path at `/` undoes joining its segments |
| Strings.JoinSplit | blog/urls.py:9 | joining the segments gives back the path |

## Behaviour of the client session worth knowing

- **Renewals are not shared.** The interceptor in `frontend/src/api/useAxios.js` does not share renewals among concurrent requests. Every invocation decides on its own and makes its own refresh call. The model therefore covers one invocation at a time. Its guarantee is "at most one refresh call per invocation".
- **The request carries the token read on entry.** The interceptor builds the header from the token it read on entry, before any renewal (`useAxios.js:33-37`). A renewal therefore never reaches the request that triggered it.
- **Writes are not atomic.** `storeAuthData` writes one key after another, and the model keeps that order. `CredentialStore.Stored`, which `CredentialStore.Store.StoreAuthData` follows, states the partial outcome: when the new access token does not decode, `access` and `refresh` are already overwritten and the identity keys keep their old values.

## Left out

- Concurrency:
  - interleaved interceptor invocations;
  - concurrent requests against the database;
  - transactions. A view's writes are applied in order and, if it fails midway, nothing is rolled back;
  - Channels group membership, `channel_layer` delivery, `disconnect` and its un-awaited `group_discard`.
  
  Each has no sequential counterpart.
- I/O and foreign code become parameters of the model. These are the JWT decoder, the network replies of login, register and refresh, password hashing, `validate_email`, `normalize_email`, the media URL of a file and its absolute form, the case folding of `icontains`, and the clock. Their own behaviour is not part of this model.
- Refresh body key: whether simplejwt's `TokenRefreshView` accepts the `oldRefresh` key that the refresh call posts is not visible. The refresh outcome is therefore an input.
- Browser navigation is recorded as the path navigated to. Toasts are recorded as their text. Any effect on the page itself, such as the page reload on `window.location`, is not modelled. The server's logging of the channel name (`print(canal)` in chat/views.py) is left out too.
- react-query: an invalidation is recorded as the argument passed to `invalidateQueries`. How react-query matches that argument against cached queries is not modelled, including the bare string the new-comment form passes. The same holds for the caching, retries and refetching that follow.
- Field lengths: the declared maximum lengths (140 characters for post content and comment bodies, 40 for a notification type, 50 for a chat row's `username`, `message` and `canal`) appear as constants, but no operation checks them. `CommentList.create` saves a `Comment` directly without a serializer, and whether the database then rejects a longer body depends on the database backend, which is not part of this model. The same holds for `Chat.PersonalChatConsumer.Receive`, which saves a chat row directly: its `canal` is `chat_` and two usernames of up to 200 characters each, so it can exceed 50.
- PostList, PostDetail and CommentDetail: the generic list, create, retrieve and update behaviour of these views is Django REST framework code and is not modelled, and neither is CommentDetail's destroy. Of PostDetail's destroy, the permission check and the response are left out. The cascade it triggers is modelled as `Database.DeletePost`. Apart from that cascade, only the owner-only permission and the comment listing of a post are modelled.
- UserDetailView: of its destroy, the permission check and the response are left out. The permission check comes from `users/permissions.py` and is not part of this model. The cascade is modelled as `Database.DeleteUser`.
- Pagination (`backend.pagination.CustomPagination`), `users/permissions.py`, the project-level `backend/urls.py` prefixes and `settings.py` are not part of this model. Querysets are therefore modelled unpaginated, and paths relative to their app.
- `noti/serializers.py` and `chat/serializers.py` only pass fields through, so their output is not modelled. `chat/models.py` appears only as the `ChatRow` record.
- The chat consumer's `receive` gets the message already parsed, as a map of strings. Malformed JSON is not modelled.
- Rendering is not modelled: JSX, CSS, the image preview through `FileReader`, the Formik wiring beyond the submit handlers, and the pages and components with no decision logic. Those components are the search box, the comment list, the profile tabs, the follow button and `Chat.jsx`'s message switch.
- `frontend/src/api/blog.js`, `noti.js` and `chat.js` are thin wrappers around axios calls and are not modelled.
- PostReactions.JsNumber: it is weaker than JavaScript's ToNumber. It maps the empty string to 0 and a string of decimal digits to its value. Every other string maps to no number, including strings with surrounding whitespace, a sign, a fraction, an exponent or a hexadecimal prefix, although ToNumber gives some of them a number. The stored `user_id` is always the decimal numeral of a user id, so loose equality against it is decided exactly. `PostReactions.FoundStoredId` states this.
- Chat.RoomName: it is modelled as written. Usernames may contain `-`, so the pairs ("a-b", "c") and ("a", "b-c") share a room, as `Chat.RoomNamesCanCollide` shows. The model does not correct this, because the room name is also the key under which history is stored.
- CommentForms.AddCommentForm.Settle: it is modelled as written. After a successful new comment, it invalidates with the toast's text (`'Comentaste! 🥳'`) where the edit form uses `'comments'`.
- PostForm.AddPostForm.Submit: it is modelled as written. With an image, the form sends a second `content` entry holding the invisible character U+3164. A server that reads the last value for a key, as Django's `QueryDict` does, stores that character and not the typed text.
