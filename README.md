# Osarebito: a verified model of the backend routes, the community board and the image tool

Osarebito is a fan-and-creator community site. This project models its core in Dafny and proves what the code promises:

- **Backend routes** (`osarebito-backend/app/routes/users.py`, `posts.py`, `misc.py` and `app/utils.py`):
  - registration and login;
  - the follow / interest / block graph, profiles and user searches;
  - posts, the ranked feeds, reactions, bookmarks, comments, best answers and reports, with report points and the semiban;
  - direct and group messages, fan posts, appeals, shared materials and the material box, polls and schedules.
- **Community board** (`coding_reference/community/`), a Flask blueprint:
  - the age and ban decorators;
  - the tag cleaner of the post form;
  - creating, editing and deleting posts and comments, with edit histories;
  - best answers;
  - reports with danger points and the automatic ban at 15;
  - likes, bookmarks and favourite tags;
  - who may see a post and who may comment on it;
  - the bookmark feed with its paging;
  - the mention search, the notification dropdown, comment likes and poll votes.
- **Image tool** (`osarebito-frontend/src/app/imagetool/page.tsx`): the optional "AI protection" noise written into the RGBA buffer in place, then JPEG encoding with a quality that backs off until the file is at most 2 MiB.

How the model is built:

- Each stored table is a `seq` of records held by a class: `Records.Store` for the backend and `CommunityRecords.Site` for the board.
- A route that changes tables is a method with a `modifies` clause on those fields. Its `ensures` ties the new state and the reply to a pure step function, `...Step`, which returns either the error the route raises or the new tables with the reply. `mark_as_best_answer` can still fail after its commit, so its step returns the new tables with a reply that may itself be an error. The lemmas are stated about those step functions.
- Read-only routes are functions, or methods that keep the source's loops.
- The image tool's passes are methods over an `array<int>`, each proved equal to a function of the old buffer.

One module per source file; shared list operations are in `Lists`, and the result types are in `Wrappers`.

## Model

| member | source | states |
|---|---|---|
| Records.FindUser | osarebito-backend/app/routes/posts.py:42 | `next(u for u in users if ...)`: the first user with the id, and none exactly when no user has it |
| Records.FindPost | osarebito-backend/app/routes/posts.py:145 | the first post with the id, and none exactly when no post has it |
| Records.Mask | osarebito-backend/app/routes/posts.py:104-106 | the copy keeps id, time, likes, retweets, category, flag and tags; the author reads "匿名" exactly for an anonymous post |
| Records.CollectMasked | osarebito-backend/app/routes/posts.py:100-107 | the loop collects the masked copies of exactly the posts it keeps, in table order |
| Utils.ReportWeight | osarebito-backend/app/utils.py:20 | every role, listed or not, weighs 1 in a report |
| Utils.RoleTables | osarebito-backend/app/utils.py:19-21 | three allowed roles, all of them weighted, and four distinct report categories |
| Utils.AddAchievement | osarebito-backend/app/utils.py:26-30 | the name is unlocked afterwards, appended only when new, earlier achievements kept in order, nothing else touched, well-formedness kept |
| Utils.AddAchievementIdempotent | osarebito-backend/app/utils.py:29-30 | unlocking the same achievement twice is unlocking it once |
| Utils.RemoveSensitiveFields | osarebito-backend/app/utils.py:33-38 | the public copy plus the three dropped fields gives back the user: nothing else is lost |
| Utils.RemoveSensitiveFieldsHides | osarebito-backend/app/utils.py:35-37 | the public copy does not depend on the password, report points or semi-ban |
| Utils.RemoveSensitiveFieldsInjective | osarebito-backend/app/utils.py:33-38 | two users with the same public copy differ at most in the three dropped fields |
| Utils.SemibanWindow | osarebito-backend/app/utils.py:41-48 | a semi-ban holds only for a well-formed end time still in the future: it held at every earlier time and ends for good at that time |
| Utils.IsSemibanned | osarebito-backend/app/utils.py:41-48 | semi-banned exactly when a well-formed end time is stored and lies after now |
| Users.RegisterStep | osarebito-backend/app/routes/users.py:27-53 | 400 for a role outside the three and for a taken id, and these are the only failures; otherwise exactly one blank user with the given fields is appended and the table stays valid |
| Users.Register | osarebito-backend/app/routes/users.py:27-53 | the stored users become what `RegisterStep` gives; on an error nothing changes |
| Users.RegisterTwice | osarebito-backend/app/routes/users.py:32-33 | once an id is registered, a second registration with the same id fails with 400 whatever else it carries |
| Users.Login | osarebito-backend/app/routes/users.py:56-62 | "logged in" exactly when some user has both the id and the password, and 401 otherwise |
| Users.FollowStep | osarebito-backend/app/routes/users.py:82-111 | 400 for following oneself, 404 for a missing user, 403 "Blocked" exactly when either blocks the other; user ids unchanged |
| Users.FollowEffects | osarebito-backend/app/routes/users.py:93-109 | the two users are different rows; each id is appended only if absent; a notification is added only for a new follower; every other user is unchanged |
| Users.Follow | osarebito-backend/app/routes/users.py:82-111 | the stored users become what `FollowStep` gives; on an error nothing changes |
| Users.FollowKeepsValid | osarebito-backend/app/routes/users.py:93-100 | valid users stay valid, and each edge is listed exactly once afterwards |
| Users.FollowIdempotent | osarebito-backend/app/routes/users.py:96-101 | following again changes nothing, not even the notifications |
| Users.FollowAgain | osarebito-backend/app/routes/users.py:96-101 | when both edges are already there and nobody blocks, the follow leaves the table as it was |
| Users.UnfollowStep | osarebito-backend/app/routes/users.py:114-128 | 404 exactly when either user is missing; otherwise the first occurrence of each edge is removed and nothing else changes |
| Users.Unfollow | osarebito-backend/app/routes/users.py:114-128 | the stored users become what `UnfollowStep` gives |
| Users.UnfollowRemovesEdges | osarebito-backend/app/routes/users.py:123-126 | on a valid table both edges are gone afterwards and the table stays valid |
| Users.UnfollowWithoutEdge | osarebito-backend/app/routes/users.py:123-126 | unfollowing someone one does not follow changes nothing |
| Users.InterestStep | osarebito-backend/app/routes/users.py:131-144 | 400 for oneself, 404 exactly when a user is missing; otherwise the id is appended to the target's list if absent |
| Users.AddInterest | osarebito-backend/app/routes/users.py:131-144 | the stored users become what `InterestStep` gives |
| Users.UninterestStep | osarebito-backend/app/routes/users.py:147-157 | 404 exactly when the target is missing (the requester is not looked up); otherwise the first occurrence is removed |
| Users.RemoveInterest | osarebito-backend/app/routes/users.py:147-157 | the stored users become what `UninterestStep` gives |
| Users.InterestKeepsValid | osarebito-backend/app/routes/users.py:140-155 | both routes keep the users valid |
| Users.InterestRoundTrip | osarebito-backend/app/routes/users.py:131-157 | after an interest the id is listed; the uninterest that follows removes it, and restores the table when it was not listed before |
| Users.BlockStep | osarebito-backend/app/routes/users.py:160-177 | 400 for blocking oneself, 404 exactly when a user is missing, user ids unchanged |
| Users.BlockChanges | osarebito-backend/app/routes/users.py:169-176 | a repeated block changes nothing; a new one appends the id to the blocks and drops the follow edge between the two in this direction only; other users unchanged |
| Users.Block | osarebito-backend/app/routes/users.py:160-177 | the stored users become what `BlockStep` gives |
| Users.BlockEffects | osarebito-backend/app/routes/users.py:160-177 | valid users stay valid, the id is blocked exactly once, the reverse edge stays, and a follow in either direction now fails with 403 |
| Users.BlockedBothWays | osarebito-backend/app/routes/users.py:91-92 | one block is enough to refuse a follow in both directions |
| Users.UnblockStep | osarebito-backend/app/routes/users.py:180-190 | 404 exactly when the caller is missing (the target is not looked up); otherwise the first occurrence is removed from the blocks |
| Users.Unblock | osarebito-backend/app/routes/users.py:180-190 | the stored users become what `UnblockStep` gives |
| Users.UnblockIdempotent | osarebito-backend/app/routes/users.py:186-189 | on a valid table the target is no longer blocked, and unblocking again changes nothing |
| Users.GetUser | osarebito-backend/app/routes/users.py:65-79 | 404 exactly for a missing user; the public copy, whose profile is empty for a stranger when it is private, or when it is for followers and the viewer is not one, and whole otherwise |
| Users.PublicWhere | osarebito-backend/app/routes/users.py:201 | the public copies of exactly the users the condition keeps |
| Users.MutualFollowers | osarebito-backend/app/routes/users.py:193-202 | 404 when either user is missing; otherwise exactly the users who follow the target and whom the caller follows |
| Users.ListFollowers | osarebito-backend/app/routes/users.py:205-224 | 404 for a missing user; otherwise exactly the users in the followers (or following) list |
| Users.SearchUsers | osarebito-backend/app/routes/users.py:246-255 | exactly the users whose lower-cased id or name contains the lower-cased query |
| Users.SearchUsersEmptyQuery | osarebito-backend/app/routes/users.py:249-253 | the empty query lists every user, in table order |
| Users.WithProfile | osarebito-backend/app/routes/users.py:266 | the chosen profile is replaced, the other two and the rest of the user are kept |
| Users.Merge | osarebito-backend/app/routes/users.py:264-265 | `dict.update` with the set, non-null fields: those win, every other old key stays, no other key appears |
| Users.MergeIdempotent | osarebito-backend/app/routes/users.py:265 | sending the same update twice is sending it once |
| Users.UpdateProfileStep | osarebito-backend/app/routes/users.py:258-269 | 404 exactly for a missing user; otherwise only that user's chosen profile changes, to the merge |
| Users.UpdateProfile | osarebito-backend/app/routes/users.py:258-269 | the stored users become what `UpdateProfileStep` gives, for each of the three profile routes |
| Users.GetCollabProfile | osarebito-backend/app/routes/users.py:272-278 | 404 exactly for a missing user; otherwise the stored collaboration profile of the first user with that id |
| Users.GetCreatorProfile | osarebito-backend/app/routes/users.py:295-305 | 404 exactly for a missing user; the owner sees the profile, anyone else sees it only when it is public (the default) |
| Users.UpdateThenGet | osarebito-backend/app/routes/users.py:281-292 | after a collaboration update the read returns the merge, unsent keys keep their values, and the creator profile is untouched |
| Users.SearchCreatorProfiles | osarebito-backend/app/routes/users.py:322-336 | the loop yields exactly the public creator profiles whose joined skills, equipment and software contain the keyword, and none that is not public; it fails with 500 exactly when some public profile holds a value `" ".join` cannot take |
| Users.Words | osarebito-backend/app/routes/users.py:331 | `prof.get(key, []) or []` as joined: none when absent, a list's own items; it fails with 500 exactly for a non-zero number or `true` |
| Users.CreatorText | osarebito-backend/app/routes/users.py:331 | the skills, equipment and software words joined and space separated; it fails exactly when one of the three cannot be joined |
| Users.PublicStep | osarebito-backend/app/routes/users.py:327-335 | one more user either adds its public copy at the end or adds nothing |
| Users.BookmarkFeed | osarebito-backend/app/routes/users.py:233-243 | newest id first; each listed item is the masked copy of a stored post whose id is bookmarked, every such post is listed, and the list is a permutation of those masked copies |
| Users.Bookmarked | osarebito-backend/app/routes/users.py:238-240 | the per-post test `p["id"] in ids` of the bookmark loop |
| Users.ListBookmarks | osarebito-backend/app/routes/users.py:227-243 | 404 exactly for a missing user; otherwise the loop's result is that user's `BookmarkFeed` |
| Posts.CreatePostStep | osarebito-backend/app/routes/posts.py:39-69 | 404 for an unknown author and 403 while semi-banned, and only these; otherwise one post is appended with an id above every existing id, the request's fields, no likes, retweets or best answer, created now; user ids unchanged |
| Posts.CreatePost | osarebito-backend/app/routes/posts.py:39-69 | the stored users and posts become what `CreatePostStep` gives; on an error nothing changes |
| Posts.CreatePostKeepsInvariants | osarebito-backend/app/routes/posts.py:48-67 | post ids stay unique and users stay valid |
| Posts.CreatePostAchievement | osarebito-backend/app/routes/posts.py:48-67 | the author's first post unlocks "初投稿" for that user alone; any later post leaves the users as they were |
| Posts.AfterAnonymousFilter | osarebito-backend/app/routes/posts.py:88-91 | the category filter followed by the anonymous filter keeps exactly the posts passing both |
| Posts.AfterFeedFilter | osarebito-backend/app/routes/posts.py:92-99 | the feed branch keeps exactly the posts passing the feed condition |
| Posts.BlockedForViewer | osarebito-backend/app/routes/posts.py:81-103 | the block filter: a known viewer blocks the author, or the author blocks the viewer |
| Posts.Shown | osarebito-backend/app/routes/posts.py:88-103 | the listing condition, one clause per query parameter: category, anonymity, following or user feed, and the block filter |
| Posts.KeptPostsShown | osarebito-backend/app/routes/posts.py:81-103 | the whole chain of filters, block check included, keeps exactly the posts `Shown` describes |
| Posts.ListPosts | osarebito-backend/app/routes/posts.py:72-109 | 404 exactly for the following feed of an unknown user; otherwise newest first and a permutation of the masked shown posts |
| Posts.ListPostsMembers | osarebito-backend/app/routes/posts.py:100-107 | every listed item is the mask of a shown stored post; an anonymous one reads "匿名"; none is by a user the viewer blocks or who blocks the viewer |
| Posts.RecommendedUsers | osarebito-backend/app/routes/posts.py:112-116 | five users (or all when fewer), most followers first, drawn without repetition from the public copies of the stored users (a sub-multiset) |
| Posts.RecommendedUsersTop | osarebito-backend/app/routes/posts.py:115-116 | a user left out has no more followers than anyone recommended |
| Posts.RecommendedUsersTies | osarebito-backend/app/routes/posts.py:115-116 | ties keep table order: the recommended users with a given follower count are the first few users with that count, in table order, as the stable `sorted` gives |
| Posts.TrendingPosts | osarebito-backend/app/routes/posts.py:129-139 | ten posts (or all when fewer), highest likes plus retweets first, drawn without repetition from the masked stored posts (a sub-multiset) |
| Posts.TrendingPostsTop | osarebito-backend/app/routes/posts.py:132-134 | a post left out scores no more than any listed one |
| Posts.TrendingPostsTies | osarebito-backend/app/routes/posts.py:132-134 | ties keep table order: the listed posts with a given score are the first few posts with that score, in table order, as the stable `list.sort` gives |
| Posts.Score | osarebito-backend/app/routes/posts.py:132 | the trending key: number of likes plus number of retweets |
| Posts.PopularTagsOf | osarebito-backend/app/routes/posts.py:119-126 | at most ten tags, highest count first, each named once with its true number of occurrences over all posts, drawn from the counter's items (a sub-multiset) |
| Posts.PopularTagsTop | osarebito-backend/app/routes/posts.py:126 | a tag is listed, or ten tags are and each occurs at least as often |
| Posts.PopularTagsTies | osarebito-backend/app/routes/posts.py:119-126 | ties keep first-seen order: the listed tags with a given count are the first few counter items with that count, as `Counter.most_common` gives |
| Posts.TallyOne | osarebito-backend/app/routes/posts.py:125 | one `counter[t] += 1` keeps the counter in step with the tags seen: keys in order of first appearance, each with its count |
| Posts.Tally | osarebito-backend/app/routes/posts.py:124-125 | the inner loop extends the tally by one post's tags |
| Posts.TallyPosts | osarebito-backend/app/routes/posts.py:122-125 | the nested loops tally every tag of every post |
| Posts.CounterItems | osarebito-backend/app/routes/posts.py:126 | the counter's items in insertion order with their counts |
| Posts.PopularTags | osarebito-backend/app/routes/posts.py:119-126 | the imperative route returns `PopularTagsOf` |
| Posts.GetPost | osarebito-backend/app/routes/posts.py:142-151 | 404 exactly when no post has the id; otherwise the masked first post with it |
| Posts.TagFeed | osarebito-backend/app/routes/posts.py:154-165 | highest id first; each listed item is the masked copy of a stored post carrying the tag, every such post is listed, and the list is a permutation of those masked copies |
| Posts.PostsByTag | osarebito-backend/app/routes/posts.py:154-165 | the loop's result is `TagFeed` |
| Posts.ListLikers | osarebito-backend/app/routes/posts.py:252-260 | 404 exactly for a missing post; otherwise the public copies of exactly the users who liked it |
| Posts.ListComments | osarebito-backend/app/routes/posts.py:263-267 | exactly the comments on the post |
| Posts.ReactStep | osarebito-backend/app/routes/posts.py:168-217 | 404 exactly for a missing post; otherwise the like (or retweet) list gains the id if absent, or loses its first occurrence, and the count is the new length |
| Posts.React | osarebito-backend/app/routes/posts.py:168-217 | the stored posts become what `ReactStep` gives |
| Posts.ReactIdempotent | osarebito-backend/app/routes/posts.py:173-189 | liking twice is liking once; unliking twice is unliking once when the list has no repeats |
| Posts.ReactRoundTrip | osarebito-backend/app/routes/posts.py:168-191 | a like by a new user followed by the unlike restores the posts and the count |
| Posts.BookmarkStep | osarebito-backend/app/routes/posts.py:220-249 | 404 for a missing post, then 404 for a missing user, and only these; otherwise the bookmark list gains or loses the id and the count is its length |
| Posts.Bookmark | osarebito-backend/app/routes/posts.py:220-249 | the stored users become what `BookmarkStep` gives |
| Posts.BookmarkRoundTrip | osarebito-backend/app/routes/posts.py:220-249 | a new bookmark followed by the unbookmark restores the users, and the table stays valid between |
| Posts.CreateCommentStep | osarebito-backend/app/routes/posts.py:270-296 | 404 post, 404 user, 403 semi-banned, in this order and only these; otherwise one comment with a fresh id above all is appended with the request's fields |
| Posts.CreateComment | osarebito-backend/app/routes/posts.py:270-296 | the stored users and comments become what `CreateCommentStep` gives |
| Posts.CreateCommentKeepsInvariants | osarebito-backend/app/routes/posts.py:282-295 | comment ids stay unique, users stay valid, and the first comment unlocks "初コメント" while later ones change no user |
| Posts.BestAnswerStep | osarebito-backend/app/routes/posts.py:299-315 | 404 post, 403 for anyone but the author, 404 for a comment not on the post; otherwise only that post's best answer changes, cleared when it was this comment and set to it otherwise |
| Posts.SetBestAnswer | osarebito-backend/app/routes/posts.py:299-315 | the stored posts become what `BestAnswerStep` gives |
| Posts.BestAnswerToggle | osarebito-backend/app/routes/posts.py:310-313 | a second call succeeds again and undoes the first when the best answer was unset or this comment; a first call onto another answer sets this one |
| Posts.TargetAuthor | osarebito-backend/app/routes/posts.py:320-364 | the reported post (or comment, lines 361-364) is found exactly when it exists |
| Posts.Penalize | osarebito-backend/app/routes/posts.py:349-353 | points rise by the weight; at three they reset to 0 and a seven-day semi-ban starts; nothing else about the user changes |
| Posts.ReportStep | osarebito-backend/app/routes/posts.py:318-397 | for a post or a comment: 404 target, 404 reporter, 400 category, 400 already reported, in this order, and it succeeds exactly when none applies |
| Posts.ReportGate | osarebito-backend/app/routes/posts.py:320-335 | when every check passes, the target's author and the reporter's row |
| Posts.ReportRecorded | osarebito-backend/app/routes/posts.py:336-356 | "reported"; exactly one report appended with an id above all and the request's fields, the reason defaulting to ""; user ids unchanged |
| Posts.FileReport | osarebito-backend/app/routes/posts.py:318-397 | the stored users and reports become what `ReportStep` gives |
| Posts.ReportKeepsInvariants | osarebito-backend/app/routes/posts.py:331-346 | users stay valid, and the same report again is refused as already reported |
| Posts.ReportPenalty | osarebito-backend/app/routes/posts.py:347-353 | only the author's row changes: one more point, or at the threshold points reset and a semi-ban in force now |
| Misc.SendMessageStep | osarebito-backend/app/routes/misc.py:49-80 | 404 sender, 403 semi-banned, 404 receiver, 403 a block either way, in this order, and it succeeds exactly when none applies; one message with an id above all is appended and the receiver alone gets one "message" notification naming it |
| Misc.SendMessage | osarebito-backend/app/routes/misc.py:49-80 | the stored users and messages become what `SendMessageStep` gives |
| Misc.SendMessageKeepsInvariants | osarebito-backend/app/routes/misc.py:62-78 | users stay valid and message ids unique; the receiver has exactly one more notification, pointing at the new message; no one else changes |
| Misc.GetMessages | osarebito-backend/app/routes/misc.py:83-98 | 404 when either user is missing, 403 on a block either way, and only these; otherwise exactly the messages between the two in either direction, ascending id |
| Misc.CreateGroupStep | osarebito-backend/app/routes/misc.py:137-148 | 404 exactly when some member is unknown; otherwise one group with the name, the members and an id above all is appended |
| Misc.CreateGroup | osarebito-backend/app/routes/misc.py:137-148 | the stored groups become what `CreateGroupStep` gives |
| Misc.ListGroups | osarebito-backend/app/routes/misc.py:151-155 | exactly the groups that list the user as a member |
| Misc.GroupMessages | osarebito-backend/app/routes/misc.py:158-163 | exactly the group's messages, ascending id |
| Misc.SendGroupMessageStep | osarebito-backend/app/routes/misc.py:166-184 | 403 "Not a member" exactly when the group is missing or the sender is not in it; otherwise one message with an id above all is appended |
| Misc.SendGroupMessage | osarebito-backend/app/routes/misc.py:166-184 | the stored group messages become what `SendGroupMessageStep` gives |
| Misc.SendGroupMessageByMember | osarebito-backend/app/routes/misc.py:169-171 | every group message stays sent by a member of its group |
| Misc.ListFanPosts | osarebito-backend/app/routes/misc.py:216-226 | 404 unknown viewer, 403 for any role but the fan role, and only these; otherwise all fan posts, highest id first |
| Misc.CreateFanPostStep | osarebito-backend/app/routes/misc.py:229-247 | 404 unknown author, 403 for any role but the fan role; otherwise one fan post with an id above all is appended |
| Misc.CreateFanPost | osarebito-backend/app/routes/misc.py:229-247 | the stored fan posts become what `CreateFanPostStep` gives |
| Misc.CreateFanPostKeepsFanAuthored | osarebito-backend/app/routes/misc.py:235-245 | every fan post stays written by a user with the fan role |
| Misc.CreateAppealStep | osarebito-backend/app/routes/misc.py:250-271 | 404 unknown user, 400 not semi-banned, 400 already pending, in this order and only these; otherwise one pending appeal with an id above all is appended |
| Misc.CreateAppeal | osarebito-backend/app/routes/misc.py:250-271 | the stored appeals become what `CreateAppealStep` gives |
| Misc.CreateAppealKeepsInvariants | osarebito-backend/app/routes/misc.py:259-269 | appeal ids stay unique and each user keeps at most one pending appeal |
| Misc.ResolveAppealStep | osarebito-backend/app/routes/misc.py:274-294 | 404 missing, 400 already resolved, 400 for an action that is neither approve nor reject in any case, and only these; reject marks it rejected; approve clears the user's semi-ban and marks it approved, or leaves it pending when the user is gone |
| Misc.ResolveAppeal | osarebito-backend/app/routes/misc.py:274-294 | the stored users and appeals become what `ResolveAppealStep` gives |
| Misc.ResolveAppealFinal | osarebito-backend/app/routes/misc.py:280-289 | a resolved appeal cannot be resolved again, and after an approval the user is not semi-banned at any time |
| Misc.FilteredMaterialsShown | osarebito-backend/app/routes/misc.py:307-316 | the keyword filter followed by the category filter keeps exactly the materials passing both |
| Misc.ListMaterials | osarebito-backend/app/routes/misc.py:304-318 | exactly the materials whose title or description contains the keyword ignoring case and whose category matches, each filter skipped when empty, highest id first |
| Misc.MaterialBoxStep | osarebito-backend/app/routes/misc.py:342-368 | save: 404 for a missing material, then 404 user; unsave checks only the user; the box gains the id if absent or loses its first occurrence, and the count is its new size |
| Misc.MaterialBox | osarebito-backend/app/routes/misc.py:342-368 | the stored users become what `MaterialBoxStep` gives |
| Misc.MaterialBoxRoundTrip | osarebito-backend/app/routes/misc.py:351-366 | saving a new material then unsaving it restores the users and the count, keeping the table valid |
| Misc.ListMaterialBox | osarebito-backend/app/routes/misc.py:371-381 | 404 exactly for a missing user; otherwise exactly the materials in the box, highest id first, as a permutation of the stored materials whose id is in the box |
| Misc.CreatePollStep | osarebito-backend/app/routes/misc.py:391-412 | 404 unknown author, 403 for any role but the performer role; otherwise one poll with an id above all and one empty voter list per option is appended |
| Misc.CreatePoll | osarebito-backend/app/routes/misc.py:391-412 | the stored polls become what `CreatePollStep` gives |
| Misc.VotePollStep | osarebito-backend/app/routes/misc.py:424-442 | 404 poll, 404 user, 400 for an option outside the options, in this order; otherwise the voter is taken out of every list and appended to the chosen one, and the counts are the list lengths |
| Misc.CastValid | osarebito-backend/app/routes/misc.py:435-440 | after a vote the voter is in the chosen list only, the lists stay duplicate-free and disjoint, the voters are the old ones plus this one, and the counts add up to the number of distinct voters |
| Misc.Cast | osarebito-backend/app/routes/misc.py:435-440 | the voter lists after a vote: the voter taken out of every list, then appended to the chosen one |
| Misc.VotePoll | osarebito-backend/app/routes/misc.py:424-442 | the stored polls become what `VotePollStep` gives |
| Misc.ClearVoter | osarebito-backend/app/routes/misc.py:435-437 | the loop removes the voter's first occurrence from every list holding it |
| Misc.VoteKeepsValid | osarebito-backend/app/routes/misc.py:433-440 | a vote on a valid poll leaves it valid with the voter on exactly the chosen option and counts summing to the distinct voters |
| Misc.CreateScheduleStep | osarebito-backend/app/routes/misc.py:445-464 | 404 exactly for an unknown author; otherwise one schedule with the events, the template or "default" when none or empty, and an id above all is appended |
| Misc.CreateSchedule | osarebito-backend/app/routes/misc.py:445-464 | the stored schedules become what `CreateScheduleStep` gives |
| Misc.TotalIsVoters | osarebito-backend/app/routes/misc.py:440 | on valid voter lists the counts add up to the number of distinct voters |
| CommunityRecords.FindUser | coding_reference/community/views.py:85 | the first user row with the id, and none exactly when no row has it |
| CommunityRecords.FindPost | coding_reference/community/views.py:84 | `get_or_404`: the first post with the id, and none (the 404) exactly when no post has it |
| CommunityRecords.FindComment | coding_reference/community/comment_routes.py:14 | the first comment with the id, and none (the 404) exactly when no comment has it |
| CommunityRecords.FindOption | coding_reference/community/poll_routes.py:13 | the first poll option with the id, and none (the 404) exactly when no option has it |
| CommunityRecords.FindTag | coding_reference/community/social_routes.py:97 | `filter_by(name=...).first()`: the first tag with the name, and none exactly when no tag has it |
| CommunityRecords.Viewer | coding_reference/community/views.py:64 | the session's user row when one exists, anonymous otherwise |
| CommunityRecords.Notify | coding_reference/community/social_routes.py:31-33 | one unread notification for the recipient, stamped now, with an id above every earlier one; earlier notifications unchanged |
| CommunityGuards.CalculateAge | coding_reference/community/decorators.py:6-11 | no age without a birthdate; otherwise the age is the number of birthdays reached: the last one is not after today and the next one is |
| CommunityGuards.AgeCountsBirthdays | coding_reference/community/decorators.py:10 | the `n`-th birthday has been reached exactly when `n` is at most the age |
| CommunityGuards.AgeOnBirthday | coding_reference/community/decorators.py:10 | on the `n`-th birthday the age is exactly `n` |
| CommunityGuards.AgeMonotone | coding_reference/community/decorators.py:9-10 | a later day never gives a smaller age |
| CommunityGuards.AgeVerified | coding_reference/community/decorators.py:13-23 | anonymous callers and callers with a birthdate pass; everyone else is redirected to `community.verify_age` |
| CommunityGuards.CheckBanned | coding_reference/community/decorators.py:25-32 | a banned signed-in caller is redirected to `main.top_page`; everyone else passes |
| CommunityGuards.SignedIn | coding_reference/community/api_routes.py:88 | the route goes on exactly when the session names a user, and then with that user's row |
| CommunityGuards.Admit | coding_reference/community/decorators.py:13-32 | a route behind the three decorators runs exactly for a signed-in, age-verified, unbanned caller, with that caller's row |
| CommunityGuards.AdmitOrder | coding_reference/community/decorators.py:13-32 | admission holds exactly for a signed-in caller with a birthdate who is not banned; otherwise the first failing check answers: 401, then the age redirect, then the ban redirect |
| CommunityText.Leading | coding_reference/community/forms.py:55 | the length of the longest prefix whose characters all satisfy the predicate |
| CommunityText.Trailing | coding_reference/community/forms.py:55 | the length of the longest suffix whose characters all satisfy the predicate |
| CommunityText.LStrip | coding_reference/community/forms.py:59-60 | a suffix of the input that starts with a non-matching character, all of whose dropped characters match |
| CommunityText.Strip | coding_reference/community/forms.py:55 | `str.strip()`: no whitespace at either end, no new characters, and a string without whitespace is unchanged |
| CommunityText.StripPadded | coding_reference/community/forms.py:55 | stripping removes exactly the whitespace padding around a string that has none at its ends |
| CommunityText.SplitOn | coding_reference/community/forms.py:55 | `split`: at least one piece, and no piece holds a separator or a character outside the input |
| CommunityText.SplitPrefix | coding_reference/community/forms.py:55 | a separator-free prefix joins the first piece of the split of the rest |
| CommunityText.SplitJoin | coding_reference/community/forms.py:54-55 | splitting separator-free pieces joined with a separator gives the pieces back |
| CommunityText.JoinSplit | coding_reference/community/forms.py:54-55 | joining the pieces of a split on a single separator character gives the string back |
| CommunityForms.Collapse | coding_reference/community/forms.py:54 | `re.sub(r'[\s,、]+', ',')`: the result holds no whitespace and no `、` |
| CommunityForms.TagList | coding_reference/community/forms.py:54-55 | every listed tag is non-empty and free of separators |
| CommunityForms.DropHash | coding_reference/community/forms.py:59-60 | exactly one leading `#` is removed; a tag without one is unchanged |
| CommunityForms.CleanedTags | coding_reference/community/forms.py:43-65 | an empty or missing field gives no tags; every cleaned tag is non-empty and free of separators |
| CommunityForms.CleanTags | coding_reference/community/forms.py:43-65 | the loop builds exactly the cleaned tag list |
| CommunityForms.DropHashClean | coding_reference/community/forms.py:58-60 | dropping a `#` never brings a separator into a tag |
| CommunityForms.CleanStep | coding_reference/community/forms.py:58-63 | one more tag appends its `#`-less form when that is non-empty and nothing otherwise |
| CommunityForms.CollapsePrefix | coding_reference/community/forms.py:54 | a separator-free prefix passes through the substitution unchanged |
| CommunityForms.CollapseJoin | coding_reference/community/forms.py:54 | separator-free words joined by spaces become the same words joined by commas |
| CommunityForms.ShownNames | coding_reference/community/forms.py:59-60 | writing `#` before each name and dropping it again gives the names back |
| CommunityForms.TagListOfJoin | coding_reference/community/forms.py:54-55 | splitting non-empty separator-free words joined by spaces gives the words back |
| CommunityForms.StripAll | coding_reference/community/forms.py:55 | blank-filtering and stripping change nothing on non-empty separator-free words |
| CommunityForms.CleanedTagsRoundTrip | coding_reference/community/forms.py:43-65 | names shown as space-separated `#name` words are cleaned back to exactly the same names, order and duplicates kept |
| CommunityForms.SingleTag | coding_reference/community/forms.py:58-63 | a single separator-free word gives its `#`-less form, or nothing when that is empty |
| CommunityForms.OneHashRemoved | coding_reference/community/forms.py:59-60 | only one `#` is removed: `##a` gives `#a` |
| CommunityForms.LoneHashDropped | coding_reference/community/forms.py:62-63 | a lone `#` leaves an empty tag, which is dropped |
| CommunityModeration.Points | coding_reference/community/moderation_routes.py:43-50 | staff reporting a fan adds 5, a fan reporting staff adds 1, every other pair adds 2 |
| CommunityModeration.Penalize | coding_reference/community/moderation_routes.py:54-58 | danger points (none counting as 0) grow by exactly the points; the user is banned afterwards exactly when they already were or now reach 15; nothing else changes |
| CommunityModeration.Danger | coding_reference/community/moderation_routes.py:54 | `danger_points or 0` |
| CommunityModeration.AlreadyReported | coding_reference/community/moderation_routes.py:34-42 | a report by the same reporter about the same user, post and comment already exists |
| CommunityModeration.Target | coding_reference/community/moderation_routes.py:16-27 | a reported user is a stored user and exists only when a post or a comment id was given; 404 exactly when the given post id (or, without one, the given comment id) names nothing |
| CommunityModeration.FinalRedirect | coding_reference/community/moderation_routes.py:77-79 | the final redirect fails exactly when `target_post` was never bound |
| CommunityModeration.ReportFlow | coding_reference/community/moderation_routes.py:9-79 | the route with the binding of `target_post` as a parameter, so that the as-written and the corrected flows share every other step |
| CommunityModeration.ReportStepAsWritten | coding_reference/community/moderation_routes.py:9-79 | the route as written: `target_post` bound only in the valid-form branch |
| CommunityModeration.ReportStep | coding_reference/community/moderation_routes.py:9-79 | failures are 401, a redirect or 404; it succeeds exactly for an admitted caller whose form is invalid or whose target exists; a successful report keeps the user count and either keeps the reports or appends exactly one |
| CommunityModeration.InvalidFormAsWrittenFails | coding_reference/community/moderation_routes.py:72-77 | as written, an admitted caller's invalid form reaches line 77 with `target_post` unbound and the route fails |
| CommunityModeration.InvalidFormRedirects | coding_reference/community/moderation_routes.py:72-79 | with `target_post` bound first, an invalid form changes nothing and redirects to the board index |
| CommunityModeration.FileReport | coding_reference/community/moderation_routes.py:9-79 | the users and reports tables end as the report step says: on an admitted caller's invalid form or existing target, its new tables; on failure, unchanged |
| CommunityModeration.ReportMonotone | coding_reference/community/moderation_routes.py:42-58 | a report never lowers anyone's danger points, never lifts a ban, keeps ids, and keeps "banned whenever at 15 or more" |
| CommunityModeration.PenalizeKeeps | coding_reference/community/moderation_routes.py:54-58 | penalizing one user by non-negative points keeps the ban rule for everyone and changes no other user |
| CommunityModeration.ReportPointsOnce | coding_reference/community/moderation_routes.py:34-69 | an admitted caller's valid report on another user's existing post or comment is recorded, a repeat included; points are added only on the first report of the same target by the same reporter, and only to the reported user |
| CommunityModeration.InvalidReportChangesNothing | coding_reference/community/moderation_routes.py:29-31 | reporting nobody or oneself changes nothing and goes back to the referrer |
| CommunityComments.EditCommentStep | coding_reference/community/comment_routes.py:9-33 | 404 for a missing comment; success exactly for the author or an admin; only that comment changes, and only its content |
| CommunityComments.EditComment | coding_reference/community/comment_routes.py:9-33 | the comments and histories end as the edit step says on success and stay unchanged on failure |
| CommunityComments.EditHistoryOnChange | coding_reference/community/comment_routes.py:21-28 | one history row with the old content is added exactly when the content changes |
| CommunityComments.EditCommentIdempotent | coding_reference/community/comment_routes.py:21-31 | repeating the same edit changes nothing more |
| CommunityComments.FindCommentUpdate | coding_reference/community/comment_routes.py:30 | updating a comment in place keeps it findable at the same position |
| CommunityComments.DeleteCommentStep | coding_reference/community/comment_routes.py:38-51 | 404 for a missing comment; it succeeds exactly for the author or an admin; the comment is removed from its position and the redirect goes to its post |
| CommunityComments.DeleteComment | coding_reference/community/comment_routes.py:38-51 | the comments end as the delete step says: the comment removed when its author or an admin asks, unchanged on failure |
| CommunityComments.DeleteCommentRemovesOnlyIt | coding_reference/community/comment_routes.py:48 | afterwards the comment is gone, there is one comment fewer, and every other comment remains |
| CommunityComments.Cleared | coding_reference/community/comment_routes.py:63 | a comment on the post loses its best-answer flag; any other comment is unchanged |
| CommunityComments.ClearBest | coding_reference/community/comment_routes.py:63 | the bulk update clears the flag on every comment of the post and touches no other |
| CommunityComments.ClearBestAnswers | coding_reference/community/comment_routes.py:63 | the loop leaves the comments exactly as the bulk update says |
| CommunityComments.BestAnswerStep | coding_reference/community/comment_routes.py:53-70 | it commits exactly for a signed-in caller who is the post's author or an admin, on an existing comment whose post exists; the chosen comment is flagged and every other comment of the post is cleared; after the commit the reply fails with 500 exactly when the comment's author row is missing |
| CommunityComments.MarkBestAnswer | coding_reference/community/comment_routes.py:53-70 | the comments end as the best-answer step says: the new flags stored whenever it commits, even when the reply then fails; unchanged when it refuses |
| CommunityComments.BestAnswerUnique | coding_reference/community/comment_routes.py:62-66 | afterwards the chosen comment is the only best answer of its post, and comments on other posts are untouched |
| CommunityPosts.Status | coding_reference/community/post_routes.py:25 | the post is a draft exactly when the draft button was pressed, published otherwise |
| CommunityPosts.Extension | coding_reference/community/post_routes.py:31 | `rsplit('.', 1)[1]`: no extension exactly when the name has no dot (the `IndexError`); otherwise the dot-free text after the last dot |
| CommunityPosts.MediaType | coding_reference/community/post_routes.py:31-35 | a name without a dot fails; otherwise "image" exactly for a png, jpg, jpeg, gif or webp extension in any case, "other" for every other |
| CommunityPosts.Usernames | coding_reference/community/post_routes.py:67 | every listed name is non-empty and holds no comma |
| CommunityPosts.Accessible | coding_reference/community/post_routes.py:69-70 | `username.in_(...)`: exactly the ids of the users whose name is listed |
| CommunityPosts.AccessibleFromForm | coding_reference/community/post_routes.py:66-70 | a post that is not private, or has no names, grants nobody; a private one grants exactly the users named in the field |
| CommunityPosts.StoredMedia | coding_reference/community/post_routes.py:28-39 | without an upload the media stay as they were; a saved file succeeds exactly when its name has a dot, and is then stored with its media type |
| CommunityPosts.PostIds | coding_reference/community/post_routes.py:72 | the id column of the posts table, position by position |
| CommunityPosts.Drafted | coding_reference/community/post_routes.py:41-70 | the new post carries the caller, the time, the content, the status, the media, the cleaned tags, the granted users and exactly the chosen categories that exist |
| CommunityPosts.NewPostStep | coding_reference/community/post_routes.py:15-82 | 400 for an invalid form, 400 with the message for a refused upload, 500 for an upload whose name has no dot; a signed-in caller's valid form with a stored upload succeeds, appending exactly one post, as drafted, with a fresh id |
| CommunityPosts.NewPost | coding_reference/community/post_routes.py:15-82 | the posts table ends as the new-post step says: one post added for a signed-in caller's valid form and stored upload, unchanged on failure |
| CommunityPosts.NewPostKeepsIdsUnique | coding_reference/community/post_routes.py:72-73 | creating a post keeps post ids unique |
| CommunityPosts.ResubmitUnchanged | coding_reference/community/post_routes.py:117-154 | editing a post with the form it was created from gives the same post back |
| CommunityPosts.Edited | coding_reference/community/post_routes.py:117-154 | id, author and creation time are kept; content, status, tags, granted users and categories come from the form |
| CommunityPosts.EditPostStep | coding_reference/community/post_routes.py:95-165 | 404 for a missing post, 403 for anyone but the author or an admin, then 400 for an invalid form; with a stored upload the edit succeeds; only that post changes, to the edited form, and one history row is added exactly when the content changes |
| CommunityPosts.EditPost | coding_reference/community/post_routes.py:95-165 | the posts and histories end as the edit step says: the author's or an admin's valid edit stored, unchanged on failure |
| CommunityPosts.EditReplacesTags | coding_reference/community/post_routes.py:140-154 | tags and granted users are cleared before refilling: the old ones never survive an edit |
| CommunityPosts.EditPublicClearsAccess | coding_reference/community/post_routes.py:150-151 | an edit to a visibility other than private grants nobody |
| CommunityPosts.DeletePostStep | coding_reference/community/post_routes.py:178-199 | 404 for a missing post, 403 for others; the author or an admin succeeds, the post is removed from its position and its id reported |
| CommunityPosts.DeletePost | coding_reference/community/post_routes.py:178-199 | the posts table ends as the delete step says: the post removed when its author or an admin asks, unchanged on failure |
| CommunityPosts.DeletePostRemoves | coding_reference/community/post_routes.py:193 | afterwards the post is gone and there is one post fewer |
| CommunityPosts.Spaced | coding_reference/community/post_routes.py:173 | the pieces of the `', '` join: the first name, then each later one after a space |
| CommunityPosts.CommaSpaceJoin | coding_reference/community/post_routes.py:173 | `', '.join(names)` as a "," join of the spaced names |
| CommunityPosts.SpacedCommaFree | coding_reference/community/post_routes.py:173 | no piece of the shown names holds a comma |
| CommunityPosts.SpacedStrip | coding_reference/community/post_routes.py:173 | stripping each piece gives the name back |
| CommunityPosts.UsernamesRoundTrip | coding_reference/community/post_routes.py:151-173 | the names shown in the edit form are read back as exactly the same names |
| CommunityPosts.PermissionsRoundTrip | coding_reference/community/post_routes.py:118-168 | the comment permissions stored with `','.join` are shown in the form as exactly the chosen ones |
| CommunityPosts.ShownPermissions | coding_reference/community/post_routes.py:168 | the permissions shown in the edit form: the stored string split on ",", none when it is empty |
| CommunitySocial.Toggle | coding_reference/community/social_routes.py:21-28 | an absent item is added; on a duplicate-free list membership flips and stays duplicate-free; every other item keeps its membership |
| CommunitySocial.ToggleTwice | coding_reference/community/social_routes.py:21-28 | toggling twice restores the membership, and restores the list exactly when the item was absent |
| CommunitySocial.Likers | coding_reference/community/social_routes.py:51 | `post.liked_by.count()`: never more than the number of users |
| CommunitySocial.LikersUpdate | coding_reference/community/social_routes.py:51 | replacing one user moves the like count by exactly that user's change |
| CommunitySocial.Own | coding_reference/community/social_routes.py:22 | the position of the caller's own row |
| CommunitySocial.LikePostStep | coding_reference/community/social_routes.py:10-65 | success needs an admitted caller and an existing post, and a missing post gives 404; on an existing post it succeeds exactly unless it is a new like on someone else's post whose author row is missing |
| CommunitySocial.LikeEffects | coding_reference/community/social_routes.py:20-51 | the reply says "liked" exactly when the caller had not liked the post; only the caller's liked list is toggled; the count is the likers afterwards; the author is notified only of a new like by someone else |
| CommunitySocial.LikePost | coding_reference/community/social_routes.py:10-65 | the users and notifications end as the like step says: the flip stored for an admitted caller on an existing post, unchanged on failure |
| CommunitySocial.LikeCountMoves | coding_reference/community/social_routes.py:51 | the count goes up by one on a like and down by one on an unlike |
| CommunitySocial.NoSelfNotification | coding_reference/community/social_routes.py:29-30 | liking one's own post, or unliking, notifies nobody |
| CommunitySocial.AdmitAfterUpdate | coding_reference/community/social_routes.py:22-26 | changing the caller's lists keeps the caller admitted, with the new row |
| CommunitySocial.LikeTwiceRestores | coding_reference/community/social_routes.py:20-28 | a like followed by a second call is an unlike that restores the users |
| CommunitySocial.UnlikeStep | coding_reference/community/social_routes.py:21-24 | a caller who had liked the post unlikes it, and only their liked list changes |
| CommunitySocial.BookmarkStep | coding_reference/community/social_routes.py:68-85 | 404 for a missing post, success for an admitted caller on an existing post; the status is "bookmarked" exactly when the post was not bookmarked and "unbookmarked" otherwise; only the caller's bookmarks are toggled |
| CommunitySocial.BookmarkPost | coding_reference/community/social_routes.py:68-85 | the users end as the bookmark step says: the toggle stored for an admitted caller on an existing post, unchanged on failure |
| CommunitySocial.TagName | coding_reference/community/social_routes.py:93 | `strip().lstrip('#')`: the result starts with no `#`, ends with no whitespace, and holds only characters of the input |
| CommunitySocial.SuffixMembers | coding_reference/community/social_routes.py:93 | a suffix holds only characters of the string |
| CommunitySocial.TagNameOfHashed | coding_reference/community/social_routes.py:93 | a plain name written as `#name` with whitespace around cleans back to the name |
| CommunitySocial.OneHashStripped | coding_reference/community/social_routes.py:93 | one leading `#` before a name that does not start with `#` is all that `lstrip('#')` removes |
| CommunitySocial.TagIds | coding_reference/community/social_routes.py:97-101 | the id column of the tag table, position by position |
| CommunitySocial.FavoriteTagStep | coding_reference/community/social_routes.py:88-110 | 400 exactly when the name cleans to nothing, success otherwise for a signed-in caller; the tag exists afterwards, created only when missing; the reply says favorited exactly when it was not; only the caller's favourites are toggled |
| CommunitySocial.FavoriteTag | coding_reference/community/social_routes.py:88-110 | the users and tags end as the favourite step says: the toggle stored for a signed-in caller's non-empty name, unchanged on failure |
| CommunitySocial.NewTagIsFavorited | coding_reference/community/social_routes.py:98-110 | a tag created by the call is new to the table and ends favorited |
| CommunitySocial.NewTagLands | coding_reference/community/social_routes.py:98-101 | a new tag gets an unused id and is found at the end of the table |
| CommunityViews.Flags | coding_reference/community/views.py:43-48 | anonymous-only exactly for the "anonymous" mode; a role filter exactly for the vtuber, fan and creator feeds, equal to the feed |
| CommunityViews.BoardGuard | coding_reference/community/views.py:31-33 | the board opens for visitors and for users with a birthdate |
| CommunityViews.DetailGuard | coding_reference/community/views.py:80-88 | the post opens exactly when the viewer passes the decorators, the post exists, the viewer may see it, and for a signed-in viewer the author exists with no block either way; then it is the post asked for; a visible-check failure is 403 |
| CommunityViews.MaySee | coding_reference/community/views.py:85-86 | the private-post rule: a signed-in author or a granted user |
| CommunityViews.PrivateIsPrivate | coding_reference/community/views.py:85-86 | a private post opens only for a signed-in author or a granted user |
| CommunityViews.BlockHides | coding_reference/community/views.py:87-88 | a post whose author blocks or is blocked by the viewer never opens |
| CommunityViews.MayComment | coding_reference/community/views.py:94-103 | commenting needs an allowed role, no ban and age 14 or more; a role not allowed gives the role message |
| CommunityViews.AllowedRoles | coding_reference/community/views.py:94 | the allowed roles, read as the stored permission string split on "," |
| CommunityViews.CommentGate | coding_reference/community/views.py:90-103 | the comment checks pass exactly for a post that opens, a valid form and a signed-in commenter who may comment; a visitor fails with 500 |
| CommunityViews.CommentStep | coding_reference/community/views.py:80-137 | it succeeds exactly for a post that opens, a valid form and a signed-in commenter who may comment; a visitor fails with 500 |
| CommunityViews.NewComment | coding_reference/community/views.py:105-110 | the new comment: an id above every stored one, the post, the commenter, the form's parent id as given (none only for the empty field), the content |
| CommunityViews.CommentAdded | coding_reference/community/views.py:105-121 | one comment is appended with a fresh id, the post, the commenter, the content and the form's parent id as given; the author is notified exactly when someone else comments |
| CommunityViews.PostComment | coding_reference/community/views.py:80-137 | the comments and notifications end as the comment step says: the comment stored whenever the checks pass, unchanged on failure |
| CommunityViews.BannedNeverReachesCommentRules | coding_reference/community/views.py:82 | a banned user is stopped by the ban decorator before any comment rule |
| CommunityViews.OwnPostNoNotification | coding_reference/community/views.py:114 | commenting on one's own post notifies nobody |
| CommunityViews.ReplyNotTopLevel | coding_reference/community/views.py:109-142 | a comment whose form carries a parent id, zero included, never appears among the post's top-level comments |
| CommunityViews.UnderFourteenRefused | coding_reference/community/views.py:102-103 | a commenter under 14 is always refused |
| CommunityViews.TopLevelComments | coding_reference/community/views.py:142 | exactly the post's comments without a parent, each once, oldest first |
| CommunityApi.Suggest | coding_reference/community/api_routes.py:36-41 | the suggestion's key is "username (user_id)", its value the user_id, and for a user with a profile its avatar is the profile image's static URL |
| CommunityApi.AvatarUrl | coding_reference/community/api_routes.py:41 | the static URL of a profile picture |
| CommunityApi.SearchUsers | coding_reference/community/api_routes.py:12-46 | nothing for a visitor or a blank query; a 500 only when some matching user has no profile, and never when all matches have one; otherwise at most 10 suggestions, each of a matching user with a profile, and every match when fewer than 10 match |
| CommunityApi.SearchFacts | coding_reference/community/api_routes.py:24-44 | each of the first ten taken is a stored matching user whose entry is its own, and when at most 10 match all are suggested |
| CommunityApi.SearchExcludesSelfAndAdmin | coding_reference/community/api_routes.py:26-32 | in a successful search, neither "admin" nor the caller is ever suggested |
| CommunityApi.SearchIgnoresCase | coding_reference/community/api_routes.py:29-30 | `ilike`: a lower-cased query gives the same suggestions |
| CommunityApi.LowerIdempotent | coding_reference/community/api_routes.py:29-30 | lower-casing keeps the length and twice is once |
| CommunityApi.SortKeeps | coding_reference/community/api_routes.py:57 | sorting a group by time keeps it one group |
| CommunityApi.PartsOrdered | coding_reference/community/api_routes.py:57 | unread notifications newest first, then read ones newest first, is in dropdown order |
| CommunityApi.Ordered | coding_reference/community/api_routes.py:57 | the same notifications, unread before read and newest first within each |
| CommunityApi.PartitionMultiset | coding_reference/community/api_routes.py:57 | the unread and the read notifications together are all of them |
| CommunityApi.TakeIsTop | coding_reference/community/api_routes.py:57 | a notification left out of the first `k` comes after all of them |
| CommunityApi.MineOrdered | coding_reference/community/api_routes.py:57 | exactly the caller's notifications, in dropdown order |
| CommunityApi.Listed | coding_reference/community/api_routes.py:57 | at most 20 of the caller's notifications in dropdown order; any left out comes after a full list of 20 |
| CommunityApi.FewUnreadAllListed | coding_reference/community/api_routes.py:57 | with at most 20 unread, every unread notification is listed |
| CommunityApi.MarkedRead | coding_reference/community/api_routes.py:63-64 | exactly the listed notifications become read; nothing else changes |
| CommunityApi.MarkRead | coding_reference/community/api_routes.py:63-65 | the loop leaves the notifications as the marking says |
| CommunityApi.NotificationsStep | coding_reference/community/api_routes.py:49-82 | visitors are refused; the listed notifications are marked read and returned read; the count is the unread left afterwards |
| CommunityApi.Notifications | coding_reference/community/api_routes.py:49-82 | the notifications end as the dropdown step says on success and stay unchanged on failure |
| CommunityApi.FewUnreadAllCleared | coding_reference/community/api_routes.py:57-68 | with at most 20 unread, the count afterwards is 0 |
| CommunityApi.CommentLikers | coding_reference/community/api_routes.py:106 | never more than the number of users |
| CommunityApi.LikeCommentStep | coding_reference/community/api_routes.py:85-106 | 404 first for a missing comment, then 401 for a visitor, success otherwise; the reply says liked exactly when the caller had not liked it; only the caller's list is toggled; the count is the likers afterwards |
| CommunityApi.LikeComment | coding_reference/community/api_routes.py:85-106 | the users end as the comment-like step says: the toggle stored for a signed-in caller on an existing comment, unchanged on failure |
| CommunityFeeds.Forbidden | coding_reference/community/feeds.py:26-28 | exactly the users the caller blocks and the users who block the caller |
| CommunityFeeds.Chain | coding_reference/community/feeds.py:23-34 | exactly the bookmarked posts whose author is not forbidden and that are not adult unless the caller shows adult posts |
| CommunityFeeds.Listable | coding_reference/community/feeds.py:23-34 | a post belongs in the list: bookmarked, by an author not forbidden, and not adult unless the caller shows adult posts |
| CommunityFeeds.Ordered | coding_reference/community/feeds.py:37 | the same posts, each once, newest first |
| CommunityFeeds.Start | coding_reference/community/feeds.py:37 | page `n` from 1 starts at `(n - 1) * 100`; a page below 1 starts at 0 |
| CommunityFeeds.Page | coding_reference/community/feeds.py:37 | `paginate(per_page=100, error_out=False)`: at most 100 consecutive posts from the page's start, a full page when enough remain, empty past the end, order kept |
| CommunityFeeds.BookmarksPage | coding_reference/community/feeds.py:10-40 | only an admitted caller gets a page; it holds at most 100 listable posts, newest first |
| CommunityFeeds.OrderedPage | coding_reference/community/feeds.py:37 | a page of the ordered list holds only listable posts, newest first |
| CommunityFeeds.LowPageIsFirst | coding_reference/community/feeds.py:37 | a page number below 1 shows page 1 |
| CommunityFeeds.PagesInOrder | coding_reference/community/feeds.py:37 | everything on one page is at least as new as everything on the next |
| CommunityFeeds.EveryBookmarkPaged | coding_reference/community/feeds.py:23-37 | every listable bookmarked post appears on some page |
| CommunityFeeds.OnPage | coding_reference/community/feeds.py:37 | position `i` of the list lies on page `i / 100 + 1` |
| CommunityFeeds.ForbiddenGuardRedundant | coding_reference/community/feeds.py:29-30 | filtering on an empty set of authors keeps every post, so the `if forbidden_ids` guard changes nothing |
| CommunityPolls.VoteAsWrittenFails | coding_reference/community/poll_routes.py:4-13 | as written, every admitted call fails on the name `PollOption`, which the file never imports |
| CommunityPolls.VoteFlow | coding_reference/community/poll_routes.py:4-29 | the route with the binding of the model names as a parameter, so that the as-written and the corrected flows share every other step |
| CommunityPolls.VoteAsWritten | coding_reference/community/poll_routes.py:4-29 | the route as written, with `PollOption` and `Vote` unbound |
| CommunityPolls.VoteStep | coding_reference/community/poll_routes.py:8-29 | 404 for a missing option, success for an admitted caller on an existing option; a caller who already voted in the poll changes nothing and is told so; otherwise exactly one vote for the option is appended |
| CommunityPolls.VotedAfterwards | coding_reference/community/poll_routes.py:16-27 | after an admitted caller's vote on an existing option, the caller has voted in the poll |
| CommunityPolls.VoteKeepsOnePerPoll | coding_reference/community/poll_routes.py:16-27 | "at most one vote per user per poll" is kept |
| CommunityPolls.CastVote | coding_reference/community/poll_routes.py:8-29 | the votes end as the vote step says: one vote stored for an admitted caller's first vote in the poll, unchanged otherwise |
| ImageTool.Clamp | osarebito-frontend/src/app/imagetool/page.tsx:5-7 | the value limited to [0, 255]: kept inside, 0 below, 255 above |
| ImageTool.ClampIdempotentMonotone | osarebito-frontend/src/app/imagetool/page.tsx:5-7 | clamping twice is clamping once, and clamping keeps order |
| ImageTool.ToByte | osarebito-frontend/src/app/imagetool/page.tsx:60-62 | storing into the RGBA buffer gives a byte: 0 at or below 0, 255 at or above 255, within half a unit of the value in between, and the even neighbour at an exact tie |
| ImageTool.ToByteExact | osarebito-frontend/src/app/imagetool/page.tsx:47-49 | a whole value in [0, 255] is stored unchanged |
| ImageTool.Rand | osarebito-frontend/src/app/imagetool/page.tsx:9-11 | a draw in [0, 1) gives an integer between `min` and `max` inclusive |
| ImageTool.RandCovers | osarebito-frontend/src/app/imagetool/page.tsx:9-11 | every integer between `min` and `max` is the result of some draw |
| ImageTool.Nudge | osarebito-frontend/src/app/imagetool/page.tsx:47 | a channel moved by `rand(-5, 5)` and clamped is a byte within 5 of a byte input |
| ImageTool.Jittered | osarebito-frontend/src/app/imagetool/page.tsx:46-50 | the jittered buffer has the input's length |
| ImageTool.JitterBounds | osarebito-frontend/src/app/imagetool/page.tsx:46-50 | alpha bytes are untouched; every colour byte ends in [0, 255], and within 5 of its old value when that was a byte |
| ImageTool.JitterPixel | osarebito-frontend/src/app/imagetool/page.tsx:47-49 | pixel `p` uses draws `3p`, `3p + 1`, `3p + 2` for red, green and blue and keeps its alpha |
| ImageTool.Jitter | osarebito-frontend/src/app/imagetool/page.tsx:46-50 | the loop leaves the buffer exactly jittered |
| ImageTool.NudgePixel | osarebito-frontend/src/app/imagetool/page.tsx:47-49 | one pixel's three colour bytes are nudged in place and nothing else changes |
| ImageTool.Blend | osarebito-frontend/src/app/imagetool/page.tsx:54-62 | `0.95 * was + 0.05 * noise`, stored as a byte: within half a unit of the mix and between the old value and the noise |
| ImageTool.Dotted | osarebito-frontend/src/app/imagetool/page.tsx:53-64 | the dotted buffer has the input's length |
| ImageTool.DotBounds | osarebito-frontend/src/app/imagetool/page.tsx:56-64 | bytes off the 5-pixel grid and all alpha bytes are untouched; colour bytes on the grid end in [0, 255] |
| ImageTool.OneNoisePerDot | osarebito-frontend/src/app/imagetool/page.tsx:58-62 | the three colour bytes of a grid pixel are blended with one shared noise value in [0, 255] |
| ImageTool.Dot | osarebito-frontend/src/app/imagetool/page.tsx:56-64 | the nested loops leave the buffer exactly dotted |
| ImageTool.DotRow | osarebito-frontend/src/app/imagetool/page.tsx:57-63 | the inner loop completes one grid row |
| ImageTool.BlendPixel | osarebito-frontend/src/app/imagetool/page.tsx:60-62 | one pixel's three colour bytes are blended in place and nothing else changes |
| ImageTool.DotPixel | osarebito-frontend/src/app/imagetool/page.tsx:58 | a grid pixel's index is inside the buffer; its red, green and blue bytes are on the grid and its alpha is not |
| ImageTool.Noised | osarebito-frontend/src/app/imagetool/page.tsx:41-68 | the protected buffer has the input's length |
| ImageTool.NoisedBounds | osarebito-frontend/src/app/imagetool/page.tsx:41-68 | alpha is untouched; colour bytes end in [0, 255]; off the grid each stays within 5 of its old byte |
| ImageTool.Attempts | osarebito-frontend/src/app/imagetool/page.tsx:71-81 | the qualities tried start at the first quality |
| ImageTool.AttemptsShape | osarebito-frontend/src/app/imagetool/page.tsx:71-81 | qualities fall by 5 hundredths a step; every quality but the last was too large and above 0.30; the last fits or is at most 0.30 |
| ImageTool.AtMostFourteen | osarebito-frontend/src/app/imagetool/page.tsx:71-81 | at most 14 encodes, and the last quality is at least 0.27 |
| ImageTool.OneEncodeIffFits | osarebito-frontend/src/app/imagetool/page.tsx:72-76 | exactly one encode happens when the image fits in 2 MiB at 0.92 |
| ImageTool.NothingFits | osarebito-frontend/src/app/imagetool/page.tsx:76-81 | when no quality fits, 14 encodes end at 0.27 |
| ImageTool.BackOff | osarebito-frontend/src/app/imagetool/page.tsx:71-82 | the loop tries exactly the back-off qualities and returns the blob of the last one |
| ImageTool.BackOffStep | osarebito-frontend/src/app/imagetool/page.tsx:76-80 | one more round of the loop extends the qualities tried as the back-off says |
| ImageTool.CompressImage | osarebito-frontend/src/app/imagetool/page.tsx:13-83 | without protection the pixels are unchanged, with it they are exactly noised; the blob is the back-off's result on those pixels |

## Left out

**Persistence and I/O**
- Persistence (the JSON and database loaders and savers in `osarebito-backend/app/crud.py` and `db.py`, and the ORM session of the board) is I/O. Each table is an in-memory `seq` that a route reads and reassigns.
- WebSocket broadcasts, connection tracking and every `socketio.emit` are concurrency and I/O. The routes' table changes are modelled; the messages they push are not.
- `datetime.utcnow()`, `date.today()` and ISO timestamps are clock reads and formats. They are parameters: `now` in seconds, and `today` as a `Date`.
- An unparsable `semiban_until` is the value `Malformed`.

**Backend code that cannot run as written**
- `posts.py` imports `get_post` and `update_post` from `crud.py`, and `schedule_broadcast` from `utils.py`; none of them is defined there. It also redefines `get_post` as a route, so the like and retweet routes would edit the masked copy that route returns.
  - The model gives these routes their evident meaning: the one list of the stored post is updated.
- `misc.py`'s `load_schedules`, `save_schedules` and `generate_schedule_image` are not defined in the modules it imports from, and the image is foreign code. `Misc.CreateSchedule` models the stored record only.

**Request shapes and text handling**
- `users.py` imports `CreatorProfileUpdate` (line 8) and `misc.py` imports `ScheduleCreate` (line 15); `models.py` defines neither, so both modules fail at import. The model treats their routes as loaded.
- Route order is not modelled. `GET /users/search` (`users.py:246`) is registered after `GET /users/{user_id}` (`users.py:65`), so the framework sends it there: 404 "User not found" unless some user's id is "search". `GET /posts/by_tag` (`posts.py:154`) comes after `GET /posts/{post_id}` (`posts.py:142`), so it answers 422 because "by_tag" is not an integer. `Users.SearchUsers` and `Posts.PostsByTag` model the handlers themselves, as if reachable.
- `osarebito-backend/app/models.py` does not match the routes: `ReportCreate` has no category and `PostCreate` has no image, but the routes read both. The model follows the routes.
- `Lists.Lower` lower-cases ASCII letters only; Python's `lower()` and SQL `ilike` fold all of Unicode. Every case-insensitive search (`Users.SearchUsers`, `Users.SearchCreatorProfiles`, `Misc.ListMaterials`, `CommunityApi.SearchUsers`) inherits this.
- Users.SearchCreatorProfiles: a non-empty JSON object stored under `skills`, `equipment` or `software` gives its keys, in insertion order, to `" ".join`. The model's objects are unordered maps, so such a value gives no words. A stored list is a list of strings by type, so a list holding a non-string (a `TypeError` in the source) is not modelled.
- `CommunityViews.CommentForm` holds the hidden `parent_id` field as an optional integer, with none for the empty field. A value that is not a number is not modelled.
- `CommunityApi.SearchUsers`: `%` and `_` in the query are matched literally, not as `LIKE` wildcards. The ten rows `limit(10)` returns are taken in table order, since the query has no `order_by`.
- `CommunityText.IsSpace` lists a fixed set of whitespace characters for `str.isspace()` and `\s`: the ASCII ones, 0x1C-0x1F, and the Unicode space and line/paragraph separators.

**Flask and ORM machinery of the board**
- Templates, `flash`, redirect URLs and JSON bodies are left out. A redirect is its endpoint name, and a reply is the fields the routes compute.
- `@limiter.limit('10 per minute')` keeps state outside the request and is not modelled.
- Model methods whose code is not shown are modelled as functions with the evident meaning:
  - `add_notification` appends one unread row with the next id (`CommunityRecords.Notify`);
  - `get_allowed_comment_roles` splits the stored permission string on `,`;
  - `is_liked_by`, `is_bookmarked_by`, `is_favoriting_tag` and `is_blocking` are list membership;
  - `favorite_tag` and `unfavorite_tag` toggle a list;
  - `new_notifications` counts unread rows.
- `process_mentions` and `get_posts_for_board` are not shown: comment mentions and the board listing are not modelled. Only the flags `board_index` derives are (`CommunityViews.Flags`).
- CommunityComments.EditComment: takes the new content as a `string`. A POST without a `content` field gives `None` in the source, which would be stored; that case is not modelled.
- `save_picture` and `os.remove` are file I/O. The upload's outcome is the parameter `Upload` (none, saved under a name, refused with a message, crashed).
- Autoincrement keys are `NextId`: one more than the largest id in the table.
- Relationships hold each row at most once. The model uses lists, so the lemmas that need this require `NoDup`:
  - `CommunitySocial.LikeCountMoves`;
  - `CommunitySocial.Toggle`'s flip clause;
  - `CommunityApi.LikeCommentStep`'s membership clause;
  - `Posts.ReactIdempotent` for removal.
- `CommunityPosts.NewPostStep` and `CommunityPosts.EditPostStep` store tags on the post as cleaned names. The `Tag` rows that `new_post` and `edit_post` create for unseen names are not added to the tag table.
- `CommunityPolls.VoteStep`: the `Poll` table is not modelled. An option carries its poll id, and the reply names the poll instead of redirecting to the poll's post.
- `CommunityViews.MayComment` accepts a user without a birthdate, where Python would fail comparing `None` with 14. Such a user never gets this far, because `age_verified` redirects them first.

**Board routes not modelled**
- `verify_age` and `drafts` only store a birthdate or filter a list for a template.
- `post_history` and `likers_modal_content` are only queries that render templates.
- `settings_routes.py` repeats the tag normalisation of `favorite_tag_action` (`CommunitySocial.TagName`). `posts_api.py` and `__init__.py` are serialisation and wiring.

**Backend routes not modelled**
- These `misc.py` routes are plain reads or appends with no rule beyond a lookup:
  - `get_notifications`, `get_achievements` and `tutorial_tasks`;
  - `list_jobs` and `create_job`;
  - `list_appeals`;
  - `create_material`;
  - `list_polls` and `get_poll`;
  - `get_schedule_image`.

**Image tool**
- `FileReader`, image decoding, the canvas and `toBlob` are browser APIs. The pixels are an `array<int>`, and the JPEG encoder is a size function of the pixels and the quality.
- `ImageTool.CompressImage`: `getImageData` returns a copy of the canvas that `putImageData` writes back. The model treats the buffer as the canvas itself, and the encoder reads it after the passes.
- `Math.random()` is a sequence of draws in [0, 1), consumed in the order the loops call `rand`.
- Qualities are in hundredths. The code encodes at 0.92, 0.87, ..., 0.32 and 0.27: at most 14 encodes, ending at 0.27. The model follows the code; a description of the tool as 13 attempts ending at 0.30 does not match the loop.
- `ImageTool.Blend` is computed exactly on reals. The browser's floating-point product is not modelled.
- `ImageTool.BackOff` and `ImageTool.CompressImage` also return the qualities tried. That out-parameter has no counterpart in the source; it states the loop's history.

## Findings

| source | as written | input that shows it | evidently intended | confidence | as-written member | corrected member |
|---|---|---|---|---|---|---|
| coding_reference/community/moderation_routes.py:77 | `target_post` is bound only inside `if form.validate_on_submit():`, and line 77 reads it on every path | a signed-in, age-verified, unbanned user submits a report form that fails validation | flash the form errors and redirect to the board index | not executed | CommunityModeration.InvalidFormAsWrittenFails | CommunityModeration.InvalidFormRedirects |
| coding_reference/community/poll_routes.py:13 | the route uses `PollOption` and `Vote`, but line 4 imports `Poll`, `PollChoice` and `PollVote`, so the name lookup fails | any admitted user voting for any option | look up the option, refuse a second vote in the same poll, otherwise add one vote | not executed | CommunityPolls.VoteAsWrittenFails | CommunityPolls.VoteKeepsOnePerPoll |
