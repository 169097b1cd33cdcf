# ToDo app stores and decision rules, in Dafny

This project models the state logic of a browser-only productivity app. Users keep
tasks with deadlines and post short messages ("tweets"). They like posts, follow each
other and join interest communities. Sign-in works against credentials stored on the
device.

The state lives in four stores:

- **Tasks** (`Todos.TodoStore`): a list of tasks. A task can be completed and reopened, and its deadline can be rescheduled once through the date picker. The store also lists upcoming and completed tasks, computes a week's completion statistics, and deletes an owner's tasks.
- **Social** (`Social.SocialStore`): a newest-first list of posts with their likers, plus a list of follow edges. It adds and deletes posts, toggles likes, follows and unfollows users, and answers follower, following, liked and visible queries. It also purges everything a user authored, along with every edge that touches them.
- **Communities** (`Communities.CommunityStore`): a list of communities with their member lists. No user may belong to more than five communities at once; a join beyond that is refused and changes nothing.
- **Auth** (`Auth.AuthStore`): the signed-in user, the "signed in" flag, and the credentials of every account registered on this device, keyed by email.

Above the stores sit three pages:

- **Layout** (`Layout`): renaming behind a length guard, and account deletion. Deletion clears the user's tasks, posts, follow edges and memberships, then the session and credential.
- **Sign-in page** (`AuthPage`): the password rule, and what sign-in and registration do with the stored credentials.
- **Task page** (`Dashboard`): the display order, the "days left" badge, which controls a task offers, and the two task forms.

Each store is a class whose fields are the store's collections. Each mutator is a method. Its postcondition states the new state as a pure function of the old one, and that function's own contract says what changes and what stays. Each getter is a function of the store. Three kinds of values enter as parameters:

- The current time, as an integer number of milliseconds.
- Fresh identifiers, which the app draws from `crypto.randomUUID()`.
- The bounds of the week whose statistics are asked for.

The generic list filter and count used throughout live in `Common`. `Filter` is characterised completely: it keeps order, and each value occurs as often as in the input if it passes, and not at all otherwise. `Count` is the length of that filter.

Behaviours of the code worth knowing, all modelled as the code has them:

- Deleting an account leaves the user's likes on other people's posts.
- The completion statistics use whatever week bounds they are given; the app computes them with date-fns' default, Sunday-start weeks, not Monday to Sunday.
- Toggling a like off and on again restores the same set of likers but moves the user to the end (`Social.ToggleLikeTwiceFromLiked`).
- Every sign-in rewrites the stored password with the one just checked, so nothing changes (`AuthPage.SignInKeepsCredentials`). It also mints a new user identifier and restores the name as the part of the email before '@'.
- Tasks added from the task page have the owner `''`, so account deletion does not remove them.

## Model

| member | source | states |
|---|---|---|
| Common.Filter | src/stores/todoStore.ts:136-139 | the kept elements form a subsequence of the input, and each value occurs exactly as often as in the input when it passes the test and not at all otherwise |
| Common.Count | src/stores/communityStore.ts:73-74 | the number of passing elements is the length of the filter, at most the input length, and zero exactly when no element passes |
| Common.FilterAppend | src/stores/todoStore.ts:136-139 | filtering a concatenation is the concatenation of the filtered parts |
| Common.FilterKeepsAll | src/stores/todoStore.ts:136-139 | a filter every element passes returns its input unchanged |
| Common.CountOneChange | src/stores/communityStore.ts:47-60 | changing one element of a list raises a count by at most one |
| Common.CountMonotone | src/stores/communityStore.ts:63-70 | a pointwise weaker test over a list of equal length never counts more |
| Todos.NewTodo | src/stores/todoStore.ts:44-57 | a new task is open, not rescheduled, carries the given fields (including any completion time passed in), id and creation time, is owned by the given user or by '', and is consistent exactly when no completion time was passed |
| Todos.Toggled | src/stores/todoStore.ts:62-69 | the completion flag flips; the completion time is now exactly when completed and absent otherwise; nothing else changes |
| Todos.ToggleAll | src/stores/todoStore.ts:60-71 | each task with the given id becomes exactly its Toggled form (flag flipped, completion time set or cleared, nothing else changed); every other task and every id stays |
| Todos.ApplyPatch | src/stores/todoStore.ts:87 | the spread `{ ...todo, ...updates }`: each of the nine fields takes the patch's value when the patch supplies it and keeps the task's value otherwise |
| Todos.RescheduleAll | src/stores/todoStore.ts:74-81 | a matching task not yet rescheduled gets the new deadline and is marked rescheduled; all other tasks, including already-rescheduled ones, stay |
| Todos.PatchAll | src/stores/todoStore.ts:84-89 | every matching task becomes exactly ApplyPatch of it, whatever its reschedule flag; other tasks stay |
| Todos.WithoutOwner | src/stores/todoStore.ts:136-139 | exactly the tasks of other owners remain, in order and with their multiplicities |
| Todos.CompletionRate | src/stores/todoStore.ts:131 | the rate is completed/total when there are tasks and exactly 0 otherwise, and lies in [0, 1] |
| Todos.StatsOf | src/stores/todoStore.ts:111-133 | the total is the number of tasks created or completed in the week, and the completed count the number of those whose flag is set; completed ≤ total ≤ list length; the rate is completed/total or 0; the total is 0 exactly when no task is in the week |
| Todos.StatsIgnoreOtherWeeks | src/stores/todoStore.ts:119-123 | a task neither created nor completed in the week does not move any statistic |
| Todos.StatsCountInWeek | src/stores/todoStore.ts:119-126 | any task created or completed in the week adds one to the total, and one to the completed count exactly when its flag is set (so an open task, or one completed after the week, counts only towards the total or by its flag) |
| Todos.RescheduleOnce | src/stores/todoStore.ts:77-78 | a second reschedule, with any date, changes nothing |
| Todos.ToggleTwiceRestoresOpen | src/stores/todoStore.ts:60-71 | when every task with the id is open and has no completion time, toggling twice gives back exactly the original list |
| Todos.DeleteAbsentOwner | src/stores/todoStore.ts:136-139 | deleting for an owner with no tasks leaves the list unchanged |
| Todos.DeleteKeepsOthers | src/stores/todoStore.ts:136-139 | another owner's task stays at its place between the filtered parts before and after it |
| Todos.TodoStore.constructor | src/stores/todoStore.ts:41 | the store starts with no tasks |
| Todos.TodoStore.AddTodo | src/stores/todoStore.ts:44-57 | exactly one new task is appended and the old ones are unchanged; a consistent list stays consistent exactly when no completion time is passed in |
| Todos.TodoStore.ToggleTodo | src/stores/todoStore.ts:60-71 | the list becomes ToggleAll of the old one; consistency is preserved |
| Todos.TodoStore.UpdateDeadline | src/stores/todoStore.ts:74-81 | the list becomes RescheduleAll of the old one; consistency is preserved |
| Todos.TodoStore.UpdateTodo | src/stores/todoStore.ts:84-89 | the list becomes PatchAll of the old one; consistency is preserved by patches that leave the completion fields alone |
| Todos.TodoStore.DeleteTodosByUser | src/stores/todoStore.ts:136-139 | the list becomes WithoutOwner of the old one; consistency is preserved |
| Todos.TodoStore.GetUpcomingTodos | src/stores/todoStore.ts:92-102 | exactly the open tasks due in [now, now + 3 days], in list order, with their multiplicities |
| Todos.TodoStore.GetCompletedTodos | src/stores/todoStore.ts:105-108 | exactly the completed tasks, in list order, with their multiplicities |
| Todos.TodoStore.GetWeeklyStats | src/stores/todoStore.ts:111-133 | the total counts the tasks created or completed in the week and the completed count those of them whose flag is set; completed ≤ total ≤ number of tasks; the total is 0 exactly when no task is in the week; the rate is completed/total or exactly 0 |
| Social.ToggledLikes | src/stores/socialStore.ts:78-80 | a present liker is removed everywhere and the other likers keep their order and counts; an absent one is appended |
| Social.ToggleLikeTwice | src/stores/socialStore.ts:72-84 | liking and then unliking gives back exactly the original likes |
| Social.ToggleLikeTwiceFromLiked | src/stores/socialStore.ts:72-84 | on a likes list without repeats that holds the user, unliking and then liking keeps the same likers and length, with the user last |
| Social.ToggleLikeKeepsNoDuplicates | src/stores/socialStore.ts:72-84 | a likes list without repeats keeps none after a toggle |
| Social.ToggleLikeIn | src/stores/socialStore.ts:72-84 | only the posts with the given id change, and only in their likes |
| Social.WithoutTweet | src/stores/socialStore.ts:66-69 | exactly the posts with other ids remain, in order, with their multiplicities |
| Social.WithoutEdge | src/stores/socialStore.ts:93-98 | every copy of the edge goes and every other edge keeps its count and order |
| Social.WithoutAuthor | src/stores/socialStore.ts:125 | exactly the posts by other authors remain, in order, likes untouched |
| Social.WithoutEdgesOf | src/stores/socialStore.ts:126-128 | exactly the edges with the user at neither end remain, in order |
| Social.Followers | src/stores/socialStore.ts:101-104 | each follower appears once per edge pointing at the user |
| Social.Following | src/stores/socialStore.ts:107-110 | each followed user appears once per edge starting at the user |
| Social.FollowThenUnfollow | src/stores/socialStore.ts:87-98 | unfollowing after a follow gives the same edges as unfollowing before it |
| Social.FollowTwiceCountsTwice | src/stores/socialStore.ts:87-90 | following twice lists the follower twice more than before |
| Social.SocialStore.constructor | src/stores/socialStore.ts:43-44 | the store starts with no posts and no edges |
| Social.SocialStore.AddTweet | src/stores/socialStore.ts:47-63 | one new post with no likes is put in front of the old posts; the edges stay |
| Social.SocialStore.DeleteTweet | src/stores/socialStore.ts:66-69 | the posts become WithoutTweet of the old ones; the edges stay |
| Social.SocialStore.ToggleLike | src/stores/socialStore.ts:72-84 | the posts become ToggleLikeIn of the old ones; the edges stay |
| Social.SocialStore.FollowUser | src/stores/socialStore.ts:87-90 | the edge is appended even when already present; the posts stay |
| Social.SocialStore.UnfollowUser | src/stores/socialStore.ts:93-98 | the edges become WithoutEdge of the old ones; the posts stay |
| Social.SocialStore.DeleteUserContent | src/stores/socialStore.ts:123-129 | the posts become WithoutAuthor and the edges WithoutEdgesOf of the old ones |
| Social.SocialStore.GetFollowers | src/stores/socialStore.ts:101-104 | each user is listed once per edge from them to the given user, so listed exactly when such an edge exists |
| Social.SocialStore.GetFollowing | src/stores/socialStore.ts:107-110 | each user is listed once per edge from the given user to them, so listed exactly when such an edge exists |
| Social.SocialStore.GetLikedTweets | src/stores/socialStore.ts:113-114 | exactly the posts whose likes contain the user, in order |
| Social.SocialStore.GetVisibleTweets | src/stores/socialStore.ts:117-120 | exactly the public posts and the viewer's own private ones, in order; with no viewer, only public posts |
| Communities.MembershipCount | src/stores/communityStore.ts:73-74 | the number of communities whose member list contains the user, each counted once; at most the number of communities; zero exactly when none lists them |
| Communities.NewCommunity | src/stores/communityStore.ts:37-42 | a new community has the given fields, id and time, and no members |
| Communities.JoinAt | src/stores/communityStore.ts:54-58 | the user is appended to the members of the matching community, even if already there; the others stay |
| Communities.WithoutMember | src/stores/communityStore.ts:67 | every occurrence of the user goes; the other members keep their counts and order |
| Communities.LeaveAt | src/stores/communityStore.ts:63-70 | the user is removed from the matching community only |
| Communities.LeaveAll | src/stores/communityStore.ts:77-83 | the user is removed from every community; all other fields stay |
| Communities.JoinCount | src/stores/communityStore.ts:47-60 | with distinct ids a join adds at most one to the joiner's count and nothing to anyone else's |
| Communities.RejoinKeepsCount | src/stores/communityStore.ts:73-74 | re-joining a community one is in does not change one's count |
| Communities.LeaveCount | src/stores/communityStore.ts:63-70 | leaving never raises the leaver's count and leaves everyone else's alone |
| Communities.LeaveAllCount | src/stores/communityStore.ts:77-83 | afterwards the user belongs to nothing, and other counts are unchanged |
| Communities.CommunityStore.constructor | src/stores/communityStore.ts:29 | the store starts with no communities |
| Communities.CommunityStore.AddCommunity | src/stores/communityStore.ts:33-44 | one memberless community is appended; ids stay distinct and the five-community cap still holds |
| Communities.CommunityStore.JoinCommunity | src/stores/communityStore.ts:47-60 | at five or more memberships the join is refused with nothing changed; otherwise the list becomes JoinAt; the cap holds afterwards |
| Communities.CommunityStore.LeaveCommunity | src/stores/communityStore.ts:63-70 | the list becomes LeaveAt of the old one; the cap holds |
| Communities.CommunityStore.GetUserCommunityCount | src/stores/communityStore.ts:73-74 | the number of communities whose member list contains the user; at most the number of communities, and zero exactly when no community lists the user |
| Communities.CommunityStore.RemoveUserFromAllCommunities | src/stores/communityStore.ts:77-83 | the list becomes LeaveAll of the old one and no community lists the user |
| Auth.Upsert | src/stores/authStore.ts:42-45 | the entry is added or its password overwritten; no other entry changes; keys still match emails |
| Auth.UpsertSamePassword | src/stores/authStore.ts:38-46 | re-storing the stored password changes nothing |
| Auth.AuthStore.constructor | src/stores/authStore.ts:34-36 | nobody is signed in and no credentials exist |
| Auth.AuthStore.Login | src/stores/authStore.ts:38-46 | the user is signed in and the password upserted under their email |
| Auth.AuthStore.Logout | src/stores/authStore.ts:48 | the session ends; credentials stay |
| Auth.AuthStore.UpdateUsername | src/stores/authStore.ts:50-53 | only the signed-in user's name changes; without a user nothing changes |
| Auth.AuthStore.GetCredentials | src/stores/authStore.ts:55 | the entry filed under the email, or none exactly when there is none |
| Auth.AuthStore.DeleteAccount | src/stores/authStore.ts:57-68 | with no user nothing changes; otherwise the session ends and only that email's credential is dropped; the flag keeps tracking the user |
| Layout.Trim | src/components/Layout.tsx:36-37 | the result is a contiguous slice of the name with only white space outside it; empty exactly when the name is all white space; otherwise starts and ends with non-white-space |
| Layout.TrimIdempotent | src/components/Layout.tsx:36-37 | trimming a trimmed name changes nothing |
| Layout.HandleUpdateName | src/components/Layout.tsx:35-43 | renames to the trimmed name exactly when it is not blank and the typed name is at most 10 long; too long gives an error and blank is ignored, both with no change |
| Layout.HandleDeleteAccount | src/components/Layout.tsx:45-56 | with no user nothing changes; otherwise tasks, posts, edges, memberships and the session are cleared in that order; no task, post, follow edge or membership under the current id remains, and nothing of others is lost (the user's likes, and records under ids from earlier sign-ins, stay) |
| AuthPage.PasswordAccepted | src/pages/Auth.tsx:14-17 | a password passes exactly when it has at least 8 ASCII letters or digits only, with at least one letter and one digit |
| AuthPage.FormAccepted | src/pages/Auth.tsx:12-19 | a form passes exactly when its password follows that rule and a name, when given, is not empty |
| AuthPage.ScanPatternMeaning | src/pages/Auth.tsx:17 | the pattern scan accepts exactly the letter-or-digit strings that complete both lookaheads and the length |
| AuthPage.LocalPart | src/pages/Auth.tsx:49 | the prefix of the email before the first '@', or all of it |
| AuthPage.Submit | src/pages/Auth.tsx:41-66 | invalid forms are refused; sign-in calls login exactly when the password matches, with the name from the stored email; registration calls login exactly when the email is new, with the given name or the email's local part; a valid form that does not log in is refused with the mode's own reason (wrong email or password, email already registered); every login gets the fresh id |
| AuthPage.SignInKeepsCredentials | src/pages/Auth.tsx:49 | a successful sign-in leaves the stored credentials as they were |
| AuthPage.RegisterThenSignIn | src/pages/Auth.tsx:41-66 | after registering, the same email and password sign in, with the email's local part as the name and a new id |
| Dashboard.CompareTodos | src/pages/Dashboard.tsx:137-142 | negative exactly when the first task is open and the second completed, or both agree on completion and the first is due earlier; zero exactly when they agree on completion and deadline |
| Dashboard.InsertTodo | src/pages/Dashboard.tsx:137-142 | inserting into a list in display order keeps it in order and adds exactly the task |
| Dashboard.SortedTodos | src/pages/Dashboard.tsx:137-142 | a permutation of the tasks with every open task before every completed one, and deadlines ascending within each group |
| Dashboard.DifferenceInDays | src/pages/Dashboard.tsx:166 | whole days between two instants, truncated toward zero |
| Dashboard.RemainingDays | src/pages/Dashboard.tsx:164-171 | a label exactly when the whole-day difference is 0 to 3, and then the label is "あと", the digit of that difference, and "日" |
| Dashboard.RemainingDaysWindow | src/pages/Dashboard.tsx:164-171 | a label exactly for deadlines from under a day ago to under four days ahead |
| Dashboard.JustOverdueReadsZero | src/pages/Dashboard.tsx:164-171 | a deadline passed less than a day ago still reads "0 days left" |
| Dashboard.DaysLeftBadge | src/pages/Dashboard.tsx:272-276 | the badge shows only on open tasks whose deadline is in that window |
| Dashboard.OffersEdit | src/pages/Dashboard.tsx:252 | the edit button shows exactly on a task not flagged completed; on a task whose completion time matches its flag, that is exactly when it has no completion time |
| Dashboard.OffersReschedule | src/pages/Dashboard.tsx:260 | the date picker shows exactly when the edit button does and the task was never rescheduled |
| Dashboard.PickerOfferedOnce | src/pages/Dashboard.tsx:252-265 | after the picker is used on a task it is no longer offered, while the edit button's presence is unchanged |
| Dashboard.EditPatch | src/pages/Dashboard.tsx:37-41 | applying the dialog's patch to any task replaces title, description and deadline and changes nothing else |
| Dashboard.EditKeepsPickerOffer | src/pages/Dashboard.tsx:36-44 | editing sets title, description and deadline but does not spend the one-shot reschedule |
| Dashboard.SubmitEdit | src/pages/Dashboard.tsx:36-44 | the edit dialog patches the task and keeps completion times consistent |
| Dashboard.SubmitNewTask | src/pages/Dashboard.tsx:153-162 | one new task is appended, owned by '' |
| Dashboard.OwnerlessTasksOutliveDeletion | src/pages/Dashboard.tsx:154-158 | ownerless tasks survive deleting any account with a non-empty id |

## Left out

- Persistence: the stores' mirroring to browser storage and the reloading of dates from it are not modelled.
- Rendering, toasts, modals, navigation and form wiring are not modelled. The toast on Mondays showing the previous week's rounded percentage is left out because it is floating-point display.
- Time and identifiers: `new Date()` and `crypto.randomUUID()` are parameters. Community ids are assumed distinct; nothing assumes task or post ids are.
- Dates are integers of milliseconds. The date-fns helpers that compute week bounds are not modelled: the week bounds are parameters. Time zones and daylight-saving days are ignored.
- The sign-in form's email-format check is a library validator and is not modelled: `AuthPage.FormAccepted` covers only the password and name.
- Layout.HandleDeleteAccount: the cascade uses the current user id only. The user's likes on other people's posts stay, and because every sign-in mints a new id, posts, follow edges and memberships made under the ids of earlier sign-ins stay too.
- Layout.HandleUpdateName: lengths count characters, while the app counts UTF-16 code units, so names with characters outside the basic plane can be judged differently.
- Social.Followers and Social.Following (and the store's GetFollowers and GetFollowing): the contracts state each user's multiplicity, not that the list comes in edge order.
- Dashboard.SortedTodos: states the order and the permutation but not that ties keep their original order.
- Todos.CompletionRate: the rate is an exact rational (`real`), while the app computes a double-precision division, so rounding is not modelled; Todos.StatsOf and Todos.TodoStore.GetWeeklyStats carry this rate.
- Todos.TodoStore.AddTodo: `addTodo`'s argument type lets a caller pass a completion time for a new open task, which would break the link between flag and time; the model takes it as a parameter and promises consistency only when none is passed (the task page passes none).
- Todos.TodoStore.UpdateTodo: an arbitrary patch may break the link between the completion flag and the completion time, so that invariant is promised only for patches that leave both alone (the only patch the app sends).
- The remaining pages (achievements, tips, the social, likes and community views) are view wiring over the stores, and app.tsx and the build configuration are routing and configuration. None of them are modelled.
- The community store's `userCommunities` field is never read or written, so it is not modelled.
