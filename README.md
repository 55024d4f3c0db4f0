# A verified model of the chat application's core

This project models, in Dafny, the core of a Spring Boot chat application and the browser
scripts that go with it. It covers:

- chat rooms: listings, membership, join requests, invitations and the room-icon checks;
- one-to-one random matching: the service, the match entity and the swipe/destiny
  controller;
- direct messages and their WebSocket handlers;
- friendships and friend codes;
- online presence;
- user profiles: the profile entity and service, and profile creation;
- reports;
- the Gemini chat history and the Leonardo avatar prompts;
- multi-tab sessions;
- the login redirect interceptor and the global exception handler;
- in the browser: the CSRF helper, the unread-message notifications and the service worker.

Each source file is one module. A service's repositories become value tables (a
sequence or a map) held as fields of a class. Each operation is a method with `modifies
this`. Its `ensures` give the new state in terms of specification functions (for the
WebSocket handlers, which act through the services, the tables they change, and that
the others are unchanged on failure), and lemmas prove what the application relies on about those functions:

- symmetry of look-ups between two users;
- idempotence of joins and likes;
- round trips for ids and tokens;
- counts that agree with filtered lists;
- caches that keep only the current name.

Loops in the source stay loops, proved against those functions with invariants.

Shared modules:

- `Wrappers` holds `Option` and `Result`.
- `Ids` holds the id and time types.
- `Collections` holds filters, counts, a descending sort and map totals.
- `Text` holds the string operations:
  - Java `trim`;
  - split;
  - ASCII case mapping;
  - prefix and substring tests;
  - decimal rendering and parsing with Java's `Long`/`Integer` bounds.
- `Uploads` holds the upload limits shared by avatars and room icons.

Time is an integer count of milliseconds passed in as `now`. Random draws, UUIDs, network
answers and AI replies are parameters. Nothing in the model performs I/O.

## Model

| member | source | states |
|---|---|---|
| ChatRoomEntity.ChatRoom.constructor | src/main/java/com/example/chatapp/entity/ChatRoom.java:33-68 | a new room is public and has no users |
| ChatRoomEntity.ChatRoom.AddUser | src/main/java/com/example/chatapp/entity/ChatRoom.java:145-148 | the user joins the room's set and the room joins the user's set; both sides agree afterwards, and a repeated add changes nothing |
| ChatRoomEntity.ChatRoom.RemoveUser | src/main/java/com/example/chatapp/entity/ChatRoom.java:151-154 | both sides of the link are dropped and agree afterwards; nothing else about the room changes |
| ChatRooms.FindRoom | src/main/java/com/example/chatapp/service/ChatRoomService.java:287-289 | the result is the first position holding that id, and None exactly when no room has it |
| ChatRooms.FindAppended | src/main/java/com/example/chatapp/service/ChatRoomService.java:177-201 | a room appended under a fresh id is found at the new last position |
| ChatRooms.UserChatRooms | src/main/java/com/example/chatapp/service/ChatRoomService.java:58-64 | an unknown user gets no rooms; otherwise exactly the rooms having the user as a member, in table order |
| ChatRooms.AvailablePublicRooms | src/main/java/com/example/chatapp/service/ChatRoomService.java:69-84 | an unknown user gets nothing; otherwise exactly the public rooms the user is not in, in table order |
| ChatRooms.SearchAvailablePublicRooms | src/main/java/com/example/chatapp/service/ChatRoomService.java:89-100 | a missing or blank keyword gives all available rooms; otherwise exactly the available rooms whose lower-cased name contains the lower-cased keyword, in order |
| ChatRooms.FindExistingPrivateRoom | src/main/java/com/example/chatapp/service/ChatRoomService.java:397-406 | the first room that is PRIVATE or RANDOM and holds exactly the two users; None exactly when there is no such room |
| ChatRooms.Joined | src/main/java/com/example/chatapp/service/ChatRoomService.java:245-262 | an unknown room id leaves the table as it was; otherwise that room's members become the old ones plus the user, and every other room is unchanged |
| ChatRooms.Left | src/main/java/com/example/chatapp/service/ChatRoomService.java:267-282 | an unknown room id leaves the table as it was; otherwise that room's members become the old ones minus the user, and every other room is unchanged |
| ChatRooms.Deactivated | src/main/java/com/example/chatapp/service/ChatRoomService.java:376-385 | the named room has no members afterwards and every other room is unchanged; an unknown id changes nothing |
| ChatRooms.JoinedIdempotent | src/main/java/com/example/chatapp/service/ChatRoomService.java:245-262 | joining twice is the same as joining once |
| ChatRooms.JoinedMakesMember | src/main/java/com/example/chatapp/service/ChatRoomService.java:245-262 | after a join the user is a member; that room's members are the old ones plus the user, and the other rooms are unchanged |
| ChatRooms.LeftUndoesJoined | src/main/java/com/example/chatapp/service/ChatRoomService.java:245-282 | a non-member who joins and then leaves restores the table exactly |
| ChatRooms.ResolvePendingSettles | src/main/java/com/example/chatapp/service/ChatRoomService.java:528-639 | approving or rejecting leaves no pending request for the pair; only those requests change, and only in status |
| ChatRooms.DropPendingSettles | src/main/java/com/example/chatapp/service/ChatRoomService.java:445-480 | cancelling deletes exactly the pair's pending requests, keeps the others in order, and shortens the table when there was one |
| ChatRooms.ResolvePendingRequests | src/main/java/com/example/chatapp/service/ChatRoomService.java:555-562 | the loop's result is the table with each of the pair's pending requests moved to the new status; the flag says whether there was any |
| ChatRooms.DropPendingStep | src/main/java/com/example/chatapp/service/ChatRoomService.java:465-471 | one more request through the cancel loop adds it to the kept list exactly when it is not the pair's pending request |
| ChatRooms.DeletePendingRequests | src/main/java/com/example/chatapp/service/ChatRoomService.java:465-471 | the cancel loop keeps exactly the requests that are not the pair's pending ones; the flag says whether there was any |
| ChatRooms.IconExtensionAsWritten | src/main/java/com/example/chatapp/service/ChatRoomService.java:861-865 | as written, a file name without a dot fails with an index error instead of a disallowed-type error |
| ChatRooms.IconExtensionAsWrittenFailsWithoutDot | src/main/java/com/example/chatapp/service/ChatRoomService.java:861-865 | the name "photo" reaches the index error |
| ChatRooms.IconExtension | src/main/java/com/example/chatapp/service/ChatRoomService.java:861-865 | an accepted extension is one of .jpg/.jpeg/.png/.gif and ends the lower-cased name; every failure, including a name with no dot, is a disallowed type |
| ChatRooms.IconExtensionAgreesWithDot | src/main/java/com/example/chatapp/service/ChatRoomService.java:861-865 | the corrected and the as-written test agree on every name with a dot, and differ only on names without one |
| ChatRooms.ValidateRoomIcon | src/main/java/com/example/chatapp/service/ChatRoomService.java:835-865 | an accepted icon belongs to an existing room created by the caller, is between 1 byte and 5 MB, and has an allowed extension; a missing room is reported first; as written, a name without a dot fails with an index error rather than a file-type error |
| ChatRooms.ChatRoomService.JoinChatRoom | src/main/java/com/example/chatapp/service/ChatRoomService.java:245-262 | a registered user joins the existing room; nothing else changes |
| ChatRooms.ChatRoomService.LeaveChatRoom | src/main/java/com/example/chatapp/service/ChatRoomService.java:267-282 | a registered user leaves the room; nothing else changes |
| ChatRooms.ChatRoomService.CreateChatRoom | src/main/java/com/example/chatapp/service/ChatRoomService.java:177-201 | an unknown creator is an error; otherwise a new room with a fresh id is appended, owned by the creator and with the creator as its only member |
| ChatRooms.ChatRoomService.CreatePublicChatRoom | src/main/java/com/example/chatapp/service/ChatRoomService.java:163-172 | the short form creates a public room without a description, and fails exactly for an unknown creator |
| ChatRooms.ChatRoomService.CreatePrivateRoom | src/main/java/com/example/chatapp/service/ChatRoomService.java:328-339 | a PRIVATE room holding only its creator is appended under a fresh id |
| ChatRooms.ChatRoomService.AddUserToRoom | src/main/java/com/example/chatapp/service/ChatRoomService.java:344-355 | true exactly when the room exists and the user was not in it; the table is `Joined` |
| ChatRooms.ChatRoomService.RemoveUserFromRoom | src/main/java/com/example/chatapp/service/ChatRoomService.java:360-371 | true exactly when the room exists and the user was in it; the table is `Left` |
| ChatRooms.ChatRoomService.DeactivateRoom | src/main/java/com/example/chatapp/service/ChatRoomService.java:376-385 | the table becomes `Deactivated` |
| ChatRooms.ChatRoomService.DeleteChatRoom | src/main/java/com/example/chatapp/service/ChatRoomService.java:294-313 | the room is removed, and true is returned, exactly when it exists and the caller created it or is "admin"; otherwise nothing changes |
| ChatRooms.ChatRoomService.RequestJoinRoom | src/main/java/com/example/chatapp/service/ChatRoomService.java:206-240 | errors in source order: room or user missing, already a member, already pending; otherwise exactly one PENDING request is appended |
| ChatRooms.ChatRoomService.CancelJoinRequest | src/main/java/com/example/chatapp/service/ChatRoomService.java:445-480 | errors for a missing room or user, no request, or none pending; otherwise the pair's pending requests are deleted |
| ChatRooms.ChatRoomService.DecisionCheck | src/main/java/com/example/chatapp/service/ChatRoomService.java:528-552 | passes only when the room, applicant and creator exist, the caller is the room's creator, and the applicant has a request |
| ChatRooms.ChatRoomService.ApproveJoinRequest | src/main/java/com/example/chatapp/service/ChatRoomService.java:528-572 | after the checks, the pair's pending requests become APPROVED and the applicant joins; with none pending it fails and nothing changes |
| ChatRooms.ChatRoomService.RejectJoinRequest | src/main/java/com/example/chatapp/service/ChatRoomService.java:577-639 | after the checks, the pair's pending requests become REJECTED; membership is untouched |
| ChatRooms.ChatRoomService.InviteUserToRoom | src/main/java/com/example/chatapp/service/ChatRoomService.java:644-679 | errors for a missing room, inviter or invitee, an invitee already a member, or one already invited; otherwise one PENDING invitation is stored under a fresh id |
| ChatRooms.ChatRoomService.InvitationCheck | src/main/java/com/example/chatapp/service/ChatRoomService.java:722-741 | passes only for an existing invitation addressed to the caller that is still pending |
| ChatRooms.ChatRoomService.AcceptInvitation | src/main/java/com/example/chatapp/service/ChatRoomService.java:722-754 | the invitation becomes ACCEPTED at `now` and the invitee joins the room; on error nothing changes |
| ChatRooms.ChatRoomService.RejectInvitation | src/main/java/com/example/chatapp/service/ChatRoomService.java:759-788 | the invitation becomes REJECTED at `now`; membership is untouched |
| RandomMatches.NewMatch | src/main/java/com/example/chatapp/entity/RandomMatch.java:29-75 | a new match is ACTIVE, has no messages, is neither ended nor timed, and was matched and created at `now` |
| RandomMatches.OtherUser | src/main/java/com/example/chatapp/entity/RandomMatch.java:204-211 | either participant gets the other one, user1 checked first; anyone else gets nothing |
| RandomMatches.OtherUserSymmetric | src/main/java/com/example/chatapp/entity/RandomMatch.java:204-215 | in a match of two distinct users, the other user's other user is the caller, and never the caller themself |
| RandomMatches.TruncDiv | src/main/java/com/example/chatapp/entity/RandomMatch.java:233-238 | Java's long division: the quotient is truncated toward zero, so the remainder has the dividend's sign and is smaller than the divisor |
| RandomMatches.MinutesBetweenWhole | src/main/java/com/example/chatapp/entity/RandomMatch.java:233-238 | for an end at or after the start, the duration is the number of whole minutes elapsed |
| RandomMatches.WithDuration | src/main/java/com/example/chatapp/entity/RandomMatch.java:233-238 | only the duration changes: with an end at or after the start it is the number of whole minutes elapsed, with an earlier end it is not positive; without an end nothing changes |
| RandomMatches.WithStatus | src/main/java/com/example/chatapp/entity/RandomMatch.java:114-122 | ENDED and ABANDONED also stamp the end time and the duration; ACTIVE and TIMEOUT change only the status and update time |
| RandomMatches.EndedBy | src/main/java/com/example/chatapp/entity/RandomMatch.java:226-231 | the match is ENDED, by that user, at `now`, with the elapsed minutes; the participants, room and count are kept |
| RandomMatches.WithMessage | src/main/java/com/example/chatapp/entity/RandomMatch.java:221-224 | the message count goes up by one and the update time is `now`; id, participants, room, status, end, ender, duration and creation times are kept |
| RandomMatches.EndedByIdempotent | src/main/java/com/example/chatapp/entity/RandomMatch.java:226-238 | ending a match twice at the same moment is the same as ending it once |
| RandomMatches.EndingLeavesInactive | src/main/java/com/example/chatapp/entity/RandomMatch.java:114-122 | neither ending nor abandoning nor timing out can leave a match active |
| RandomMatches.RandomMatch.constructor | src/main/java/com/example/chatapp/entity/RandomMatch.java:56-75 | the entity's fields are those of `NewMatch` |
| RandomMatches.RandomMatch.GetOtherUser | src/main/java/com/example/chatapp/entity/RandomMatch.java:204-211 | the entity answers as `OtherUser` on its fields |
| RandomMatches.RandomMatch.InvolvesUser | src/main/java/com/example/chatapp/entity/RandomMatch.java:213-215 | true exactly for the two participants |
| RandomMatches.RandomMatch.SetStatus | src/main/java/com/example/chatapp/entity/RandomMatch.java:114-122 | the fields become `WithStatus` of the old ones |
| RandomMatches.RandomMatch.EndMatch | src/main/java/com/example/chatapp/entity/RandomMatch.java:226-231 | the fields become `EndedBy` of the old ones |
| RandomMatches.RandomMatch.IncrementMessageCount | src/main/java/com/example/chatapp/entity/RandomMatch.java:221-224 | the fields become `WithMessage` of the old ones |
| RandomMatches.RandomMatch.CalculateDuration | src/main/java/com/example/chatapp/entity/RandomMatch.java:233-238 | the fields become `WithDuration` of the old ones |
| RandomMatching.Tokens | src/main/java/com/example/chatapp/service/RandomMatchingService.java:163-171 | every trimmed, non-empty piece of the lower-cased text is a tag, and no tag is empty |
| RandomMatching.TextSimilarity | src/main/java/com/example/chatapp/service/RandomMatchingService.java:158-184 | 0 for a missing or blank text or an empty tag set; otherwise the Jaccard index \|A∩B\|/\|A∪B\| of the two tag sets, between 0 and 1 |
| RandomMatching.TextSimilaritySymmetric | src/main/java/com/example/chatapp/service/RandomMatchingService.java:158-184 | the similarity does not depend on the order of the texts |
| RandomMatching.JaccardFull | src/main/java/com/example/chatapp/service/RandomMatchingService.java:177-183 | intersection and union have the same size exactly when the sets are equal |
| RandomMatching.TextSimilarityFull | src/main/java/com/example/chatapp/service/RandomMatchingService.java:158-184 | two non-blank texts score 1 exactly when they have the same non-empty tag set |
| RandomMatching.TextSimilarityDisjoint | src/main/java/com/example/chatapp/service/RandomMatchingService.java:177-183 | tag sets with nothing in common score 0 |
| RandomMatching.AgeOrderIndex | src/main/java/com/example/chatapp/service/RandomMatchingService.java:141-150 | the position in the age order; -1 exactly for NOT_SPECIFIED, otherwise the group's ordinal |
| RandomMatching.UnspecifiedAdjacentToTeensAsWritten | src/main/java/com/example/chatapp/service/RandomMatchingService.java:140-153 | as written, NOT_SPECIFIED (index -1) counts as adjacent to TEENS (index 0), in both orders |
| RandomMatching.AdjacencyProperties | src/main/java/com/example/chatapp/service/RandomMatchingService.java:140-153 | the corrected relation is symmetric and irreflexive; NOT_SPECIFIED has no neighbour; the relation agrees with the code when both groups are specified |
| RandomMatching.AreAdjacentAgeGroupsAsWritten | src/main/java/com/example/chatapp/service/RandomMatchingService.java:140-153 | defined as the code computes it: the list positions (-1 for NOT_SPECIFIED) differ by exactly one |
| RandomMatching.AreAdjacentAgeGroups | src/main/java/com/example/chatapp/service/RandomMatchingService.java:140-153 | the corrected relation: both groups specified and their positions differ by exactly one |
| RandomMatching.AgePoints | src/main/java/com/example/chatapp/service/RandomMatchingService.java:97-108 | the age term counts only when both groups are set; then 20 for equal groups, 10 exactly when the code's adjacency test accepts the pair, else 0; so NOT_SPECIFIED with TEENS gives 10, as the code computes it |
| RandomMatching.MatchesBetween | src/main/java/com/example/chatapp/repository/RandomMatchRepository.java:53 | exactly the matches of the pair, in either order |
| RandomMatching.HasExistingMatch | src/main/java/com/example/chatapp/service/RandomMatchingService.java:76-88 | the loop answers true exactly when some match of the pair has a chat room |
| RandomMatching.TopCount | src/main/java/com/example/chatapp/service/RandomMatchingService.java:67 | the size of the top group is a third of the candidates, at least one and at most all of them |
| RandomMatching.FindBestMatch | src/main/java/com/example/chatapp/service/RandomMatchingService.java:41-71 | nothing exactly when every candidate already shares a room with the user; otherwise an eligible candidate, and fewer eligible candidates than the top group score strictly higher |
| RandomMatching.HigherScoredBefore | src/main/java/com/example/chatapp/service/RandomMatchingService.java:63-68 | in a descending order, at most k candidates score higher than the one at position k |
| RandomMatching.MatchesForUser | src/main/java/com/example/chatapp/repository/RandomMatchRepository.java:20-21 | exactly the matches the user takes part in |
| RandomMatching.Partners | src/main/java/com/example/chatapp/service/RandomMatchingService.java:369-370 | each partner of the user appears once, and every partner of some match appears |
| RandomMatching.GroupOf | src/main/java/com/example/chatapp/service/RandomMatchingService.java:369-370 | a group holds exactly the user's matches with that partner |
| RandomMatching.Latest | src/main/java/com/example/chatapp/service/RandomMatchingService.java:379-381 | the chosen match is in the group and no match in it was created later |
| RandomMatching.Summaries | src/main/java/com/example/chatapp/service/RandomMatchingService.java:373-390 | one entry per partner, in partner order |
| RandomMatching.SummariesDescribeGroups | src/main/java/com/example/chatapp/service/RandomMatchingService.java:383-389 | each entry records its group's size, latest match, message total and number of active matches |
| RandomMatching.GroupedMatchHistory | src/main/java/com/example/chatapp/service/RandomMatchingService.java:365-393 | every match of the user is in the entry for its partner; partners are distinct; each entry describes its group; entries are newest first |
| RandomMatching.PartnersHaveGroups | src/main/java/com/example/chatapp/service/RandomMatchingService.java:369-370 | every partner's group is non-empty |
| RandomMatching.EveryPartnerGrouped | src/main/java/com/example/chatapp/service/RandomMatchingService.java:369-376 | every match of the user has an entry for its partner |
| RandomMatching.DistinctPartnersAfterSort | src/main/java/com/example/chatapp/service/RandomMatchingService.java:391-392 | sorting the entries keeps the partners distinct |
| RandomMatching.GroupCountAtMostOne | src/main/java/com/example/chatapp/service/RandomMatchingService.java:369-376 | with distinct partners, no entry occurs twice |
| RandomMatching.FindMatch | src/main/java/com/example/chatapp/service/RandomMatchingService.java:305-306 | the result is a position holding that id, and None exactly when no match has it |
| RandomMatching.TimedOutAt | src/main/java/com/example/chatapp/service/RandomMatchingService.java:436-437 | a timed-out match is TIMEOUT and ended at `now`; its duration, count, room and participants are kept |
| RandomMatching.DeactivateAll | src/main/java/com/example/chatapp/service/RandomMatchingService.java:441-443 | deactivating a list of rooms keeps the room table's size |
| RandomMatching.TimeoutStep | src/main/java/com/example/chatapp/service/RandomMatchingService.java:435-437 | a match that times out becomes TIMEOUT and inactive; any other match is unchanged |
| RandomMatching.TimedOutRoomsStep | src/main/java/com/example/chatapp/service/RandomMatchingService.java:435-444 | one more match adds its room to the list exactly when it times out and has a room |
| RandomMatching.DeactivateAllStep | src/main/java/com/example/chatapp/service/RandomMatchingService.java:441-443 | deactivating one more room is one more `Deactivated` |
| RandomMatching.DeactivateStep | src/main/java/com/example/chatapp/service/RandomMatchingService.java:435-444 | the room table after one more match of the timeout loop |
| RandomMatching.AbandonedBy | src/main/java/com/example/chatapp/service/RandomMatchingService.java:330-332 | an abandoned match is ABANDONED, by the user, at `now`, with its duration, and keeps its room |
| RandomMatching.RandomMatchingService.CreateMatch | src/main/java/com/example/chatapp/service/RandomMatchingService.java:189-193 | one new ACTIVE match without a room is appended under a fresh id |
| RandomMatching.RandomMatchingService.FindRandomMatch | src/main/java/com/example/chatapp/service/RandomMatchingService.java:268-283 | with no one available nothing changes; otherwise a new match with the drawn candidate is appended |
| RandomMatching.RandomMatchingService.EndMatch | src/main/java/com/example/chatapp/service/RandomMatchingService.java:304-321 | errors for an unknown match or a caller outside it, changing nothing; otherwise the match is stored as `EndedBy` the caller at `now` with its update time stamped `now` by the save, and its room, if any, loses its members; in every case the room service's users, join requests, invitations and id counters, and the next match id, are unchanged |
| RandomMatching.RandomMatchingService.LeaveMatch | src/main/java/com/example/chatapp/service/RandomMatchingService.java:326-340 | more than one active match is the query's error; exactly one is abandoned and the user leaves its room; none changes nothing; in every case the room service's users, join requests, invitations and id counters, and the next match id, are unchanged |
| RandomMatching.RandomMatchingService.IncrementMessageCount | src/main/java/com/example/chatapp/service/RandomMatchingService.java:345-351 | the room's single match gains a message when active; several matches are the query's error; otherwise nothing changes |
| RandomMatching.RandomMatchingService.ProcessTimedOutMatches | src/main/java/com/example/chatapp/service/RandomMatchingService.java:431-445 | every ACTIVE match without messages made before the threshold becomes TIMEOUT and its room is deactivated; every other match is unchanged; the room service's users, join requests, invitations and id counters, and the next match id, are unchanged |
| RandomMatching.RandomMatchingService.TimeoutOne | src/main/java/com/example/chatapp/service/RandomMatchingService.java:435-444 | one turn of the loop: the match takes `TimeoutStep`, and its room is deactivated exactly when it times out; the room service's users, join requests, invitations and id counters, and the next match id, are unchanged |
| RandomMatchingView.TagSet | src/main/java/com/example/chatapp/controller/RandomMatchingController.java:667-675 | a missing or empty text has no tags; otherwise every trimmed, non-empty piece is a tag, case kept |
| RandomMatchingView.TagsAreTrimmed | src/main/java/com/example/chatapp/controller/RandomMatchingController.java:670-673 | every tag is non-empty and already trimmed |
| RandomMatchingView.TokensAreLowerCasedTags | src/main/java/com/example/chatapp/controller/RandomMatchingController.java:667-675 | the similarity tokens of the matching service are the tags of the lower-cased text |
| RandomMatchingView.ParseTags | src/main/java/com/example/chatapp/controller/RandomMatchingController.java:667-675 | the loop builds exactly `TagSet` |
| RandomMatchingView.CountCommonTags | src/main/java/com/example/chatapp/controller/RandomMatchingController.java:678-684 | the count is the size of the intersection, so at most either set's size |
| RandomMatchingView.CommonStep | src/main/java/com/example/chatapp/controller/RandomMatchingController.java:680-682 | one more tag walked adds one exactly when the caller has it |
| RandomMatchingView.AgeRank | src/main/java/com/example/chatapp/controller/RandomMatchingController.java:694-695 | 99 exactly when there is no age group, otherwise the ordinal |
| RandomMatchingView.AgeDifference | src/main/java/com/example/chatapp/controller/RandomMatchingController.java:687-697 | with two birth dates, the whole days between them; otherwise a multiple of 3650 that is 0 exactly when the age groups are equal |
| RandomMatchingView.AgeDifferenceSymmetric | src/main/java/com/example/chatapp/controller/RandomMatchingController.java:687-697 | the difference does not depend on the order of the profiles |
| RandomMatchingView.AgeDifferenceWholeDays | src/main/java/com/example/chatapp/controller/RandomMatchingController.java:688-691 | with two birth dates the result is the number of whole days between them |
| RandomMatchingView.MissingAgeGroupRanksLast | src/main/java/com/example/chatapp/controller/RandomMatchingController.java:693-696 | without birth dates, a candidate with an age group is always nearer than one without |
| RandomMatchingView.NearnessPoints | src/main/java/com/example/chatapp/controller/RandomMatchingController.java:713-714 | at most 20; 20 exactly under 183 days; 0 exactly from 3660 days |
| RandomMatchingView.DestinyScore | src/main/java/com/example/chatapp/controller/RandomMatchingController.java:700-727 | between 15 per common tag and 70 more than that; at least 30 for the same location |
| RandomMatchingView.DestinyLocationBonus | src/main/java/com/example/chatapp/controller/RandomMatchingController.java:705-707 | moving a candidate to the caller's location adds exactly 30 |
| RandomMatchingView.DestinyScoreOfTwin | src/main/java/com/example/chatapp/controller/RandomMatchingController.java:700-727 | a candidate equal to the caller in location, age group and chat style gets the maximum for its common tags |
| RandomMatchingView.SortCandidates | src/main/java/com/example/chatapp/controller/RandomMatchingController.java:309-353 | the result is a permutation; "nearby" puts same-location first; "hobby" orders by most common tags; "age" by nearest; "destiny" by highest score; any other type keeps the list |
| RandomMatchingView.MutualLikes | src/main/java/com/example/chatapp/repository/MatchLikeRepository.java:26-29 | exactly the users who liked the caller back |
| RandomMatchingView.MutualLikesSymmetric | src/main/java/com/example/chatapp/repository/MatchLikeRepository.java:26-35 | b is a mutual like of a exactly when a is one of b |
| RandomMatchingView.WithLike | src/main/java/com/example/chatapp/controller/RandomMatchingController.java:484-486 | the like is present afterwards; nothing else is added; an existing like leaves the table as it was |
| RandomMatchingView.WithLikeIdempotent | src/main/java/com/example/chatapp/controller/RandomMatchingController.java:484-486 | liking twice is liking once |
| RandomMatchingView.WithLikeKeepsDistinct | src/main/java/com/example/chatapp/controller/RandomMatchingController.java:484-486 | no like is ever stored twice |
| RandomMatchingView.LikeTable.SendLike | src/main/java/com/example/chatapp/controller/RandomMatchingController.java:484-488 | the table becomes `WithLike`; the answer is mutual exactly when the target had already liked the caller, or is the caller |
| RandomMatchingView.ExcludedUsers | src/main/java/com/example/chatapp/controller/RandomMatchingController.java:292-304 | exactly the friends, followed users, followers and mutual likes |
| RandomMatchingView.SwipeCandidates | src/main/java/com/example/chatapp/controller/RandomMatchingController.java:286-307 | exactly the profiles with matching photos whose owner is not excluded, in their original order |
| Friendships.FindBetween | src/main/java/com/example/chatapp/service/FriendshipService.java:35 | the first position holding a relation between the two users, in either direction; None exactly when there is none |
| Friendships.FindBetweenAt | src/main/java/com/example/chatapp/service/FriendshipService.java:35 | the first relation of the pair is the one found |
| Friendships.Relation | src/main/java/com/example/chatapp/service/FriendshipService.java:35 | a relation found connects the two users; None exactly when no relation does |
| Friendships.FindBetweenSymmetric | src/main/java/com/example/chatapp/service/FriendshipService.java:182-184 | the lookup does not depend on the order of the two users |
| Friendships.RemovalKeepsIndex | src/main/java/com/example/chatapp/service/FriendshipService.java:104-114 | deleting a relation keeps one relation per pair and distinct ids |
| Friendships.StatusText | src/main/java/com/example/chatapp/service/FriendshipService.java:190-221 | "self" exactly for one user; "none" exactly without a relation; "friends" and "declined" exactly for an accepted or declined relation; "sent_request" and "received_request" exactly for a pending relation requested by the first or by the other user; "blocked_by_you" and "blocked_by_them" exactly for a blocked relation whose requester is the first or the other user |
| Friendships.StatusTextMirror | src/main/java/com/example/chatapp/service/FriendshipService.java:190-221 | a sent request reads as received from the other side, and a block by you as a block by them; "none", "friends" and "declined" read the same both ways |
| Friendships.CanSendFriendRequest | src/main/java/com/example/chatapp/service/FriendshipService.java:262-274 | a request may be sent exactly when the status reads "none" or "declined" |
| Friendships.AreFriends | src/main/java/com/example/chatapp/service/FriendshipService.java:243-247 | for two different users, true exactly when the status reads "friends"; the answer does not depend on the order of the users |
| Friendships.IsBlocked | src/main/java/com/example/chatapp/service/FriendshipService.java:253-256 | for two different users, true exactly when the status reads "blocked_by_you" or "blocked_by_them"; the answer does not depend on the order of the users |
| Friendships.Reset | src/main/java/com/example/chatapp/service/FriendshipService.java:44-56 | afterwards the pair has one relation with that requester, addressee and status; an existing row keeps its id and place, otherwise a new row is appended; other pairs are untouched |
| Friendships.ResetKeepsOnePerPair | src/main/java/com/example/chatapp/service/FriendshipService.java:119-138 | rewriting a pair's relation keeps one relation per pair |
| Friendships.RequestReadsAsSent | src/main/java/com/example/chatapp/service/FriendshipService.java:28-57 | after a request the sender reads "sent_request" and the addressee "received_request" |
| Friendships.BlockReadsAsBlocked | src/main/java/com/example/chatapp/service/FriendshipService.java:119-138 | after a block the blocker reads "blocked_by_you", the other "blocked_by_them", and neither may send a request |
| Friendships.Friends | src/main/java/com/example/chatapp/service/FriendshipService.java:144-149 | as the query is written: exactly the other users of every relation that involves the user, whatever its status, and no more entries than relations |
| Friendships.FriendsSymmetric | src/main/java/com/example/chatapp/repository/FriendshipRepository.java:75-76 | as written, any relation between two different users puts each in the other's list |
| Friendships.AcceptedFriends | src/main/java/com/example/chatapp/repository/FriendshipRepository.java:76 | the list the query's name promises: exactly the other users of the ACCEPTED relations that involve the user, each of them also in the list as written |
| Friendships.AcceptedFriendsSymmetric | src/main/java/com/example/chatapp/service/FriendshipService.java:144-149 | two different users who are friends each appear in the other's accepted list |
| Friendships.PendingRequestListedAsWritten | src/main/java/com/example/chatapp/repository/FriendshipRepository.java:75-76 | a pending request from a to b lists a among b's friends as written, and not in the accepted list |
| Friendships.FindById | src/main/java/com/example/chatapp/service/FriendshipService.java:63-64 | the position of the relation with that id; None exactly when there is none |
| Friendships.ResponseCheck | src/main/java/com/example/chatapp/service/FriendshipService.java:62-74 | errors for an unknown id, a caller who is not the addressee, or a relation no longer PENDING; success gives the relation's position |
| Friendships.FriendshipService.Store | src/main/java/com/example/chatapp/service/FriendshipService.java:44-56 | the table becomes `Reset` under the next fresh id |
| Friendships.FriendshipService.SendFriendRequest | src/main/java/com/example/chatapp/service/FriendshipService.java:28-57 | succeeds exactly when `canSendFriendRequest` allows it; the errors for oneself and for PENDING, ACCEPTED and BLOCKED relations are the source's; a DECLINED relation or none becomes a PENDING request from the caller |
| Friendships.FriendshipService.Respond | src/main/java/com/example/chatapp/service/FriendshipService.java:62-99 | after the checks only that relation's status changes, to ACCEPTED or DECLINED |
| Friendships.FriendshipService.RemoveFriend | src/main/java/com/example/chatapp/service/FriendshipService.java:104-114 | succeeds exactly for an existing relation that involves the caller, and then deletes exactly that row |
| Friendships.FriendshipService.BlockUser | src/main/java/com/example/chatapp/service/FriendshipService.java:119-138 | fails exactly for blocking oneself; otherwise the pair's relation becomes BLOCKED with the blocker as requester |
| OnlineUsers.UsersWithStatus | src/main/java/com/example/chatapp/service/OnlineUserService.java:245-248 | exactly the counted users that have an entry with that status |
| OnlineUsers.InitialCountsTotal | src/main/java/com/example/chatapp/service/OnlineUserService.java:240-243 | the three starting counts add up to zero |
| OnlineUsers.CountStep | src/main/java/com/example/chatapp/service/OnlineUserService.java:245-248 | counting one more user adds one to that user's status and nothing to any other |
| OnlineUsers.NothingTallied | src/main/java/com/example/chatapp/service/OnlineUserService.java:240-243 | before the loop the table with online, away and busy at zero describes nobody counted |
| OnlineUsers.StatusCountsMeaning | src/main/java/com/example/chatapp/service/OnlineUserService.java:239-251 | the table holds online, away and busy and every counted user's status, each with the number of counted users having it |
| OnlineUsers.CountedHaveStatus | src/main/java/com/example/chatapp/service/OnlineUserService.java:245-248 | a status that some counted user has is a key of the count table |
| OnlineUsers.MoveOne | src/main/java/com/example/chatapp/service/OnlineUserService.java:245 | one user moves from the users still to count to the counted ones, and the number left goes down |
| OnlineUsers.TallyOne | src/main/java/com/example/chatapp/service/OnlineUserService.java:246-247 | one loop turn keeps the table describing the counted users |
| OnlineUsers.TallyStep | src/main/java/com/example/chatapp/service/OnlineUserService.java:246-247 | one more user raises that user's status by one, adding the status when it is new |
| OnlineUsers.OnlineAmong | src/main/java/com/example/chatapp/service/OnlineUserService.java:217-221 | exactly the entries of the named users who are online, at most one per name |
| OnlineUsers.OnlineUserService.SetUserOnline | src/main/java/com/example/chatapp/service/OnlineUserService.java:83-105 | a known user's entry is stored, replacing any earlier one, as "online" at `now` with the session; an unknown user changes nothing |
| OnlineUsers.OnlineUserService.SetUserOffline | src/main/java/com/example/chatapp/service/OnlineUserService.java:110-128 | the entry is removed; the answer says whether there was one |
| OnlineUsers.OnlineUserService.UpdateUserStatus | src/main/java/com/example/chatapp/service/OnlineUserService.java:133-149 | an existing entry takes the status and `now`; an absent user is not added |
| OnlineUsers.OnlineUserService.UpdateUserActivity | src/main/java/com/example/chatapp/service/OnlineUserService.java:154-159 | only the activity time of an existing entry changes |
| OnlineUsers.OnlineUserService.IsUserOnline | src/main/java/com/example/chatapp/service/OnlineUserService.java:171-173 | true exactly for a user with an entry |
| OnlineUsers.OnlineUserService.UserStatus | src/main/java/com/example/chatapp/service/OnlineUserService.java:178-196 | "offline" for an unknown or absent user, otherwise the stored status |
| OnlineUsers.OnlineUserService.OnlineFriends | src/main/java/com/example/chatapp/service/OnlineUserService.java:208-227 | only online entries, and every online friend's entry |
| OnlineUsers.OnlineUserService.CountByStatus | src/main/java/com/example/chatapp/service/OnlineUserService.java:239-251 | the loop builds exactly the status count table, and its counts add up to the number of online users |
| OnlineUsers.OnlineUserService.SetUserOfflineBySessionId | src/main/java/com/example/chatapp/service/OnlineUserService.java:299-313 | nothing happens exactly when no entry has that session; otherwise one user with it is removed and named |
| OnlineUsers.OnlineUserService.CleanupInactiveUsers | src/main/java/com/example/chatapp/service/OnlineUserService.java:318-330 | exactly the users active within 30 minutes of `now` remain, unchanged |
| Notifications.MessageRoomId | src/main/resources/static/js/notifications.js:113 | a present, non-zero `chatRoomId` is the room; otherwise `roomId` is |
| Notifications.TabTitle | src/main/resources/static/js/notifications.js:281-290 | the plain title when nothing is unread; otherwise "(N) " before it; the title starts with "(" exactly when something is unread |
| Notifications.TabTitleShowsCount | src/main/resources/static/js/notifications.js:281-290 | the digits between the parentheses read back as the total |
| Notifications.BadgeText | src/main/resources/static/js/notifications.js:253-276 | no badge for 0; "99+" above 99; otherwise the count |
| Notifications.BadgeCapsAt99 | src/main/resources/static/js/notifications.js:267 | the badge reads "99+" exactly when the count is above 99 |
| Notifications.ChatNotificationManager.constructor | src/main/resources/static/js/notifications.js:7-20 | no unread counts, no notification yet, and the plain title |
| Notifications.ChatNotificationManager.GetUnreadCount | src/main/resources/static/js/notifications.js:489-491 | the stored count, and 0 for a room without one |
| Notifications.ChatNotificationManager.GetTotalUnreadCount | src/main/resources/static/js/notifications.js:482-484 | the loop's sum is the total of all room counts |
| Notifications.ChatNotificationManager.UpdateTabTitle | src/main/resources/static/js/notifications.js:281-290 | the title shows the current total and nothing else changes |
| Notifications.ChatNotificationManager.IncrementUnreadCount | src/main/resources/static/js/notifications.js:232-239 | one more unread message in that room and none elsewhere, so the total grows by one; the title follows |
| Notifications.ChatNotificationManager.ClearUnreadCount | src/main/resources/static/js/notifications.js:244-248 | the room's count is dropped, so it reads 0, and the total falls by what it was; the title follows |
| Notifications.ChatNotificationManager.NotifyNewMessage | src/main/resources/static/js/notifications.js:112-146 | notifies exactly for a message from another room, from someone else, and at least 2000 ms after the last notification; then the time is recorded and that room gains one unread message; otherwise nothing changes |
| CsrfHelper.JsTrim | src/main/resources/static/js/csrf-helper.js:14 | JavaScript `trim`: the result is a slice of the input that neither starts nor ends with an ECMAScript WhiteSpace or LineTerminator code point, and only such code points are removed on each side |
| CsrfHelper.JsTrimUnchanged | src/main/resources/static/js/csrf-helper.js:14 | `trim` leaves a string without space at either end alone |
| CsrfHelper.CookieValue | src/main/resources/static/js/csrf-helper.js:14-16 | a piece yields a value exactly when, after JavaScript `trim`, it starts with "XSRF-TOKEN=" |
| CsrfHelper.CookieValueSplits | src/main/resources/static/js/csrf-helper.js:14-16 | that value is what follows the cookie name in the trimmed piece |
| CsrfHelper.CookieValues | src/main/resources/static/js/csrf-helper.js:12-14 | one cookie test per piece of the split string, in the same order |
| CsrfHelper.FirstSome | src/main/resources/static/js/csrf-helper.js:13-19 | the index of the first present value, with none before it; none exactly when no value is present |
| CsrfHelper.TokenIn | src/main/resources/static/js/csrf-helper.js:12-19 | no token exactly when no piece passes the cookie test; otherwise the value of a passing piece with only failing pieces before it |
| CsrfHelper.TokenAt | src/main/resources/static/js/csrf-helper.js:13-17 | the first piece that passes the test gives the token |
| CsrfHelper.GetCsrfToken | src/main/resources/static/js/csrf-helper.js:9-20 | the loop returns the token of the first matching piece, or null; the token holds no ';' |
| CsrfHelper.TokenHasNoSeparator | src/main/resources/static/js/csrf-helper.js:12-16 | a token never contains the cookie separator |
| CsrfHelper.TokenFound | src/main/resources/static/js/csrf-helper.js:9-20 | a cookie "XSRF-TOKEN=t" behind unrelated cookies reads back as t (round trip) |
| CsrfHelper.TokenAfter | src/main/resources/static/js/csrf-helper.js:13-17 | a matching piece behind failing pieces gives its own value |
| CsrfHelper.CookieOfToken | src/main/resources/static/js/csrf-helper.js:14-16 | "XSRF-TOKEN=" followed by a token that does not end in a JavaScript space passes the test with that token |
| CsrfHelper.MergedOptions | src/main/resources/static/js/csrf-helper.js:30-42 | method and body kept; credentials default to "same-origin"; the caller's headers kept; the header "X-XSRF-TOKEN" is set to the token exactly when there is a token and a method other than GET in any letter case, and otherwise the headers are unchanged |
| CsrfHelper.GetNeverAddsHeader | src/main/resources/static/js/csrf-helper.js:40 | GET, "get" or no method never gains the header |
| CsrfHelper.CsrfFetch | src/main/resources/static/js/csrf-helper.js:26-46 | what is handed to the original `fetch` is the merged options for the cookie's token |
| CsrfHelper.CsrfRequest.constructor | src/main/resources/static/js/csrf-helper.js:49-50 | a request starts with no remembered method and no headers |
| CsrfHelper.CsrfRequest.Open | src/main/resources/static/js/csrf-helper.js:52-55 | the method is remembered; headers untouched |
| CsrfHelper.Combined | src/main/resources/static/js/csrf-helper.js:60 | the value a header holds once another is added: the new value when the header was not set, else the earlier value, ", " and the new one |
| CsrfHelper.CsrfRequest.SetRequestHeader | src/main/resources/static/js/csrf-helper.js:60 | the named header now holds the combined value; no other header changes and the remembered method is kept |
| CsrfHelper.CsrfRequest.Send | src/main/resources/static/js/csrf-helper.js:57-63 | the header is added under the same rule as the `fetch` wrapper, on the remembered method, combined with any value already set for it; otherwise headers are unchanged |
| ServiceWorker.PutAll | src/main/resources/static/sw.js:33 | the stored URLs are the old ones plus the listed ones; an unlisted URL keeps its entry; every stored value is one of the given responses or the old entry |
| ServiceWorker.PutAllLastWins | src/main/resources/static/sw.js:33 | in the model's `PutAll`, each URL ends with the response of its last occurrence in the list; the install list has no duplicates, so each URL there gets its own response |
| ServiceWorker.Responses | src/main/resources/static/sw.js:33 | the responses `addAll` stores, one per accepted fetch, in order |
| ServiceWorker.Match | src/main/resources/static/sw.js:47-52 | a hit exactly when some cache holds the URL; the answer is that URL's response in the first cache, in creation order, that holds it |
| ServiceWorker.Survivors | src/main/resources/static/sw.js:82-86 | only the current cache name is kept by activation |
| ServiceWorker.SurvivorsOfDistinct | src/main/resources/static/sw.js:80-89 | over distinct names, activation leaves the current name alone, or nothing when it was absent |
| ServiceWorker.Without | src/main/resources/static/sw.js:85 | deleting a name removes exactly that name and keeps the names distinct |
| ServiceWorker.ServiceWorker.constructor | src/main/resources/static/sw.js:28-36 | the cache storage starts empty |
| ServiceWorker.ServiceWorker.Open | src/main/resources/static/sw.js:30 | `caches.open`: the current cache exists afterwards, created empty and named last when it was missing; other caches untouched |
| ServiceWorker.ServiceWorker.AddAll | src/main/resources/static/sw.js:33 | `cache.addAll`: all-or-nothing; when every fetch is 2xx the current cache gains all URLs, otherwise it is unchanged and the result is false |
| ServiceWorker.ServiceWorker.OpenAndAddAll | src/main/resources/static/sw.js:29-34 | opening then adding: the current cache exists and holds the URLs exactly when every fetch succeeded; other caches untouched |
| ServiceWorker.ServiceWorker.Install | src/main/resources/static/sw.js:28-36 | the install handler stores the application shell in "chat-app-v11" when all of its fetches succeed, and changes no other cache |
| ServiceWorker.ServiceWorker.HandleFetch | src/main/resources/static/sw.js:39-75 | "manual" requests go to the network and change nothing; a request other than GET never hits the cache and is never stored (a cacheable answer only opens the current cache); a GET cache hit is answered from the cache and changes nothing; a GET miss returns the network result, and stores it in the current cache only when it is a 200, basic, unredirected response; a network error is passed on |
| ServiceWorker.ServiceWorker.Delete | src/main/resources/static/sw.js:85 | `caches.delete`: that name and its entries are gone, nothing else changes |
| ServiceWorker.ServiceWorker.DeleteIfStale | src/main/resources/static/sw.js:82-87 | one loop step: a stale name is deleted, the current one kept |
| ServiceWorker.ServiceWorker.Activate | src/main/resources/static/sw.js:78-91 | afterwards only "chat-app-v11" remains, with its entries unchanged, or nothing when it did not exist |
| ServiceWorker.OnlyCurrentSurvives | src/main/resources/static/sw.js:80-89 | whatever caches existed before, activation leaves at most the current one, with the same entries |
| ServiceWorker.ActivateStep | src/main/resources/static/sw.js:82-87 | each step of the activation loop keeps the processed names as survivors followed by the unvisited ones |
| DirectConversations.OtherUser | src/main/java/com/example/chatapp/entity/DirectMessageConversation.java:121-131 | null for a null user or a non-participant; user2 for user1 (checked first) and user1 for user2 |
| DirectConversations.ContainsUser | src/main/java/com/example/chatapp/entity/DirectMessageConversation.java:113-116 | defined as: the user is set as user1 or as user2 |
| DirectConversations.OtherUserSwaps | src/main/java/com/example/chatapp/entity/DirectMessageConversation.java:121-131 | with both participants set, each participant's other user is the other participant |
| DirectConversations.OtherUserIffContains | src/main/java/com/example/chatapp/entity/DirectMessageConversation.java:113-131 | a user has an other user exactly when `containsUser` holds, and the other user's other user is the user again |
| DirectMessages.FindByUsers | src/main/java/com/example/chatapp/repository/DirectMessageConversationRepository.java:19-22 | a conversation between the two in either order, or none exactly when no stored conversation joins them |
| DirectMessages.FindByUsersSymmetric | src/main/java/com/example/chatapp/repository/DirectMessageConversationRepository.java:19-22 | the lookup does not depend on the order of the two users |
| DirectMessages.FindConversation | src/main/java/com/example/chatapp/service/DirectMessageService.java:71-72 | the stored conversation with that id, or none when no conversation has it |
| DirectMessages.UnreadCount | src/main/java/com/example/chatapp/repository/DirectMessageRepository.java:25-30 | zero exactly when no message of that conversation addressed to the user is unread |
| DirectMessages.AllUnreadCount | src/main/java/com/example/chatapp/repository/DirectMessageRepository.java:35-38 | zero exactly when no message addressed to the user is unread |
| DirectMessages.MarkRead | src/main/java/com/example/chatapp/repository/DirectMessageRepository.java:43-49 | exactly the unread messages of that conversation addressed to the user become read, with `readAt` set to the given time; every other message is unchanged |
| DirectMessages.MarkReadClears | src/main/java/com/example/chatapp/repository/DirectMessageRepository.java:25-49 | after marking, that conversation has nothing unread for the user, and every other conversation's and user's unread count is unchanged |
| DirectMessages.UserConversations | src/main/java/com/example/chatapp/repository/DirectMessageConversationRepository.java:27-30 | exactly the conversations the user takes part in, latest message first |
| DirectMessages.RowOf | src/main/java/com/example/chatapp/service/DirectMessageService.java:107-122 | a listing row names the conversation, the other participant, the last-message time, and its unread count for the user |
| DirectMessages.Rows | src/main/java/com/example/chatapp/service/DirectMessageService.java:107-123 | one row per conversation, in order |
| DirectMessages.MessageRows | src/main/java/com/example/chatapp/service/DirectMessageService.java:183-195 | one row per message, in order, each the `RowFor` of its message |
| DirectMessages.RowFor | src/main/java/com/example/chatapp/service/DirectMessageService.java:183-195 | a message row carries the message id and send time, and is flagged as own exactly when the caller sent it |
| DirectMessages.RowsCoverConversations | src/main/java/com/example/chatapp/service/DirectMessageService.java:101-124 | every listed conversation gets its own row in the listing |
| DirectMessages.ConversationListing | src/main/java/com/example/chatapp/service/DirectMessageService.java:101-124 | one row per conversation of the user, with non-increasing last-message times; row i is the row of the i-th conversation latest first; every conversation of the user has its row |
| DirectMessages.MessagesOf | src/main/java/com/example/chatapp/service/DirectMessageService.java:180 | exactly the messages of that conversation |
| DirectMessages.SortedMessages | src/main/java/com/example/chatapp/service/DirectMessageService.java:180 | a permutation of the conversation's messages, in non-decreasing send time |
| DirectMessages.RowsCoverMessages | src/main/java/com/example/chatapp/service/DirectMessageService.java:180-195 | every listed message gets its own row, with its own flag for the reader |
| DirectMessages.MessageListing | src/main/java/com/example/chatapp/service/DirectMessageService.java:180-195 | one row per message of the conversation, in non-decreasing send time; row i is the row of the i-th message by send time; every message of the conversation has its row |
| DirectMessages.UpdateLast | src/main/java/com/example/chatapp/service/DirectMessageService.java:88-91 | only the conversation with that id takes the new last-message time, content and sender |
| DirectMessages.DirectMessageService.constructor | src/main/java/com/example/chatapp/service/DirectMessageService.java:43-65 | no conversations and no messages over the given users |
| DirectMessages.DirectMessageService.AtMostOnePerPair | src/main/java/com/example/chatapp/service/DirectMessageService.java:50-64 | because new conversations are stored only when none exists, `findByUsers` never finds two |
| DirectMessages.DirectMessageService.GetOrCreateConversation | src/main/java/com/example/chatapp/service/DirectMessageService.java:43-65 | an unknown first, then second, user is an error; an existing conversation between the two is returned and nothing changes; otherwise one new conversation is appended with the smaller id as user1; the result always joins the two |
| DirectMessages.DirectMessageService.SendMessage | src/main/java/com/example/chatapp/service/DirectMessageService.java:70-96 | unknown conversation, unknown sender, and a sender outside the conversation are errors in that order and change nothing; it succeeds exactly otherwise, and then one unread message with no read time, to the other participant, is appended and only that conversation's last-message summary changes |
| DirectMessages.DirectMessageService.GetUserConversations | src/main/java/com/example/chatapp/service/DirectMessageService.java:101-124 | an unknown user is an error; otherwise one row per conversation of the user, with non-increasing last-message times, row i the `RowOf` the i-th of `UserConversations` (its id, other user and unread count); every conversation of the user has its row |
| DirectMessages.DirectMessageService.GetFriendsConversations | src/main/java/com/example/chatapp/service/DirectMessageService.java:129-164 | an unknown user is an error; otherwise exactly the user's conversations whose other participant is a friend, in the order of the full listing |
| DirectMessages.DirectMessageService.Participant | src/main/java/com/example/chatapp/service/DirectMessageService.java:170-179 | conversation not found, then user not found, then access denied when the user takes no part; otherwise the conversation, which contains the user |
| DirectMessages.DirectMessageService.GetConversationMessages | src/main/java/com/example/chatapp/service/DirectMessageService.java:169-196 | fails exactly when the participant guard fails; otherwise one row per message of the conversation, in non-decreasing send time, each the `RowFor` of a message of that conversation, and every such message has its row |
| DirectMessages.DirectMessageService.MarkConversationAsRead | src/main/java/com/example/chatapp/service/DirectMessageService.java:200-213 | fails exactly when the participant guard fails, changing nothing; otherwise the messages are marked read at the given time and nothing in that conversation is unread for the user |
| DirectMessages.DirectMessageService.GetTotalUnreadCount | src/main/java/com/example/chatapp/service/DirectMessageService.java:218-223 | an unknown user is an error; otherwise the user's unread messages across all conversations |
| DirectMessages.DirectMessageService.GetConversationInfo | src/main/java/com/example/chatapp/service/DirectMessageService.java:228-248 | fails exactly when the participant guard fails; otherwise the conversation id and the other participant |
| DmWebSocket.GetLongValue | src/main/java/com/example/chatapp/controller/DirectMessageWebSocketController.java:171-189 | missing or other values give null; a Long or an Integer gives itself; a String gives its `Long.parseLong` value or null |
| DmWebSocket.StringIdRoundTrip | src/main/java/com/example/chatapp/controller/DirectMessageWebSocketController.java:181-186 | an id sent as its decimal string reads back as the same number |
| DmWebSocket.SendRequest | src/main/java/com/example/chatapp/controller/DirectMessageWebSocketController.java:47-62 | accepted exactly when there is a user, a conversation id, and a string content that is not blank, and then yields that id and content |
| DmWebSocket.SendDirectMessage | src/main/java/com/example/chatapp/controller/DirectMessageWebSocketController.java:45-113 | frames go out exactly for a valid request from a known user with a non-negative id who takes part in that existing conversation; then one unread message from the sender with that content, conversation and time is appended, addressed to the other participant, and delivered on "/queue/dm" to the sender and then the receiver; otherwise nothing is sent and nothing changes |
| DmWebSocket.ReadRequest | src/main/java/com/example/chatapp/controller/DirectMessageWebSocketController.java:122-141 | accepted exactly for a signed-in, known user and a readable conversation id, and then yields that id and the user |
| DmWebSocket.MarkAsRead | src/main/java/com/example/chatapp/controller/DirectMessageWebSocketController.java:119-168 | for an accepted request from a participant of that conversation, its messages are marked read at `now` for them, and one read notice goes on "/queue/dm-read" to the other participant exactly when that user exists; any other request sends nothing and changes nothing; conversations and users never change |
| Messages.Wrap32 | src/main/java/com/example/chatapp/service/MessageService.java:127 | Java `int` arithmetic: a 32-bit value, equal to the exact value when that fits |
| Messages.RoomMessages | src/main/java/com/example/chatapp/service/MessageService.java:113-116 | exactly the room's messages, as a permutation of the filtered list, in ascending send time; none for a null room id |
| Messages.HistoryStart | src/main/java/com/example/chatapp/service/MessageService.java:126-128 | the skip `max(0, size - limit)` in 32-bit arithmetic, capped at the size: a non-negative limit keeps the last `min(limit, size)`, other non-positive limits keep none, and `Integer.MIN_VALUE` keeps all |
| Messages.GetChatHistory | src/main/java/com/example/chatapp/service/MessageService.java:98-142 | a failed query gives the empty list; otherwise a suffix of the room's ascending history, of length `min(limit, size)` for a non-negative limit, with only messages of that room |
| Messages.SuffixOf | src/main/java/com/example/chatapp/service/MessageService.java:126-128 | skipping a prefix keeps the order and the messages, and leaves a suffix |
| Messages.MinLimitKeepsAll | src/main/java/com/example/chatapp/service/MessageService.java:127 | a limit of `Integer.MIN_VALUE` returns the whole history, because `size - limit` wraps negative |
| Messages.NonPositiveLimitEmpty | src/main/java/com/example/chatapp/service/MessageService.java:127 | any other non-positive limit returns nothing |
| Messages.FindUser | src/main/java/com/example/chatapp/service/MessageService.java:48-51 | the user with that name, or none exactly when no user has it |
| Messages.FindRoom | src/main/java/com/example/chatapp/service/MessageService.java:57 | the room with that id, or none exactly when no room has it |
| Messages.MessageService.constructor | src/main/java/com/example/chatapp/service/MessageService.java:39-93 | the given users and rooms, with no messages |
| Messages.MessageService.CreateDefaultChatRoom | src/main/java/com/example/chatapp/service/MessageService.java:154-181 | one new room named "メインチャット" is appended, created by "admin" if present, else by the first user, else by a "system" user added for it; messages unchanged |
| Messages.MessageService.SaveMessage | src/main/java/com/example/chatapp/service/MessageService.java:39-93 | an unknown sender is an error and changes nothing; otherwise the message is appended with that sender, content and `now`, in the requested room when it exists, else the first room, else a new default room; users never change |
| MultiSession.Fresh | src/main/java/com/example/chatapp/util/MultiSessionUtil.java:105-108 | exactly the tabs used within the last hour, with their entries unchanged |
| MultiSession.FreshMonotone | src/main/java/com/example/chatapp/util/MultiSessionUtil.java:101-109 | a cleanup is idempotent, and a later cleanup subsumes an earlier one |
| MultiSession.TabsOf | src/main/java/com/example/chatapp/util/MultiSessionUtil.java:123-125 | exactly the tabs signed in as that user |
| MultiSession.SignInCount | src/main/java/com/example/chatapp/util/MultiSessionUtil.java:75-81 | signing a tab in as a user adds one to that user's tab count; signing it in as someone else leaves the count alone |
| MultiSession.MultiSessionUtil.constructor | src/main/java/com/example/chatapp/util/MultiSessionUtil.java:13 | no tabs |
| MultiSession.MultiSessionUtil.CreateTabSession | src/main/java/com/example/chatapp/util/MultiSessionUtil.java:51-59 | the id is "tab-" and eight UUID characters (12 characters in all); that tab is stored with the session, no user and `now`, and no other entry changes |
| MultiSession.MultiSessionUtil.GetTabSession | src/main/java/com/example/chatapp/util/MultiSessionUtil.java:64-70 | a known tab is returned with its access time set to `now`, stored back; an unknown tab gives null and changes nothing |
| MultiSession.MultiSessionUtil.SetTabUser | src/main/java/com/example/chatapp/util/MultiSessionUtil.java:75-81 | a known tab takes the user and `now`; an unknown tab changes nothing |
| MultiSession.MultiSessionUtil.GetTabUser | src/main/java/com/example/chatapp/util/MultiSessionUtil.java:86-89 | null for an unknown tab; otherwise that tab's user |
| MultiSession.MultiSessionUtil.RemoveTabSession | src/main/java/com/example/chatapp/util/MultiSessionUtil.java:94-96 | the tab is gone, so its user reads null; nothing else changes |
| MultiSession.MultiSessionUtil.CleanupOldSessions | src/main/java/com/example/chatapp/util/MultiSessionUtil.java:101-109 | exactly the tabs unused for more than an hour are removed |
| MultiSession.MultiSessionUtil.GetAllTabSessions | src/main/java/com/example/chatapp/util/MultiSessionUtil.java:114-116 | a copy holding the same entries as the table |
| MultiSession.MultiSessionUtil.GetUserTabCount | src/main/java/com/example/chatapp/util/MultiSessionUtil.java:121-126 | 0 for a null name; otherwise the number of tabs signed in as that user, never more than the tab count |
| UserProfiles.NewProfile | src/main/java/com/example/chatapp/entity/UserProfile.java:35-51 | a new profile belongs to the user, shows the username, and is offline, public, searchable and open to random matching, with no avatar, age group, chat style or favourites |
| UserProfiles.DisplayNameOrUsername | src/main/java/com/example/chatapp/entity/UserProfile.java:386-390 | a non-empty display name, else the owner's username, else "Unknown User" |
| UserProfiles.NewProfileShowsUsername | src/main/java/com/example/chatapp/entity/UserProfile.java:99-103 | a new profile is shown under its owner's username |
| UserProfiles.AvatarUrlOrDefault | src/main/java/com/example/chatapp/entity/UserProfile.java:380-384 | never empty: the profile's own non-empty URL, else "/images/default-avatar.svg" |
| UserProfiles.FreshProfileIsOffline | src/main/java/com/example/chatapp/entity/UserProfile.java:35 | a new profile is not online and shows the default avatar |
| UserProfiles.IsOnline | src/main/java/com/example/chatapp/entity/UserProfile.java:392-394 | defined as: the online status is ONLINE |
| UserProfiles.AgeOrdinal | src/main/java/com/example/chatapp/entity/UserProfile.java:339-345 | `ordinal()` of the age group: at most 5, and 5 exactly for NOT_SPECIFIED |
| ProfileService.FileExtension | src/main/java/com/example/chatapp/service/UserProfileService.java:316-322 | "" exactly when the name has no '.'; otherwise a suffix of the name that starts at its last '.' |
| ProfileService.IsAllowedExtension | src/main/java/com/example/chatapp/service/UserProfileService.java:109-115 | the loop's flag is set exactly when the extension is one of the four extensions ".jpg", ".jpeg", ".png", ".gif" |
| ProfileService.ValidateAvatar | src/main/java/com/example/chatapp/service/UserProfileService.java:91-119 | an empty file, then a file over 5 MB, then a null name, then an extension outside the list are rejected, in that order; otherwise the lower-cased extension is accepted |
| ProfileService.AcceptedAvatarEndsWithExtension | src/main/java/com/example/chatapp/service/UserProfileService.java:106-119 | an accepted name has a dot and, lower-cased, ends with the accepted extension |
| ProfileService.CanViewProfile | src/main/java/com/example/chatapp/service/UserProfileService.java:327-349 | false without a profile or a viewer; true for the owner; otherwise true exactly when the profile is not PRIVATE (FRIENDS_ONLY does not check friendship) |
| ProfileService.HiddenOnlyWhenPrivate | src/main/java/com/example/chatapp/service/UserProfileService.java:327-349 | a hidden profile is PRIVATE and not the viewer's own |
| ProfileService.UpdatedProfile | src/main/java/com/example/chatapp/service/UserProfileService.java:55-80 | the submitted form's fields are copied; owner, avatar, online status and photo list are kept |
| ProfileService.UpdatedProfileIdempotent | src/main/java/com/example/chatapp/service/UserProfileService.java:55-80 | submitting the same form twice is the same as once, and resubmitting the stored values changes nothing |
| ProfileService.AvailableForRandomMatching | src/main/java/com/example/chatapp/service/UserProfileService.java:186-242 | the candidates in order, minus friends, users the caller blocked, and users with a pending request either way |
| ProfileService.RandomMatchingBase | src/main/java/com/example/chatapp/repository/UserProfileRepository.java:25-26 | the profiles open to random matching whose owner is not the caller, in order |
| ProfileService.CallerNeverCandidate | src/main/java/com/example/chatapp/service/UserProfileService.java:186-242 | the caller never appears among the candidates, and every candidate allows random matching |
| ProfileService.AvatarUrl | src/main/java/com/example/chatapp/service/UserProfileService.java:131-141 | the URL is under "/uploads/avatars/" and ends with the extension |
| ProfileService.ProfileStore.constructor | src/main/java/com/example/chatapp/service/UserProfileService.java:40-50 | no profiles |
| ProfileService.ProfileStore.GetOrCreateProfile | src/main/java/com/example/chatapp/service/UserProfileService.java:40-50 | the stored profile and no change, or a new default profile that is stored; either way the table then holds the result |
| ProfileService.ProfileStore.UpdateProfile | src/main/java/com/example/chatapp/service/UserProfileService.java:55-80 | the stored (or new) profile with the form's fields copied is stored and returned; no other profile changes |
| ProfileService.ProfileStore.UploadAvatar | src/main/java/com/example/chatapp/service/UserProfileService.java:85-150 | a rejected file changes nothing; otherwise only the user's profile changes, to one whose avatar URL is "/uploads/avatars/<id>_<uuid><extension>" with an allowed extension |
| ProfileService.ProfileStore.SetAvatarUrl | src/main/java/com/example/chatapp/service/UserProfileService.java:140-145 | the stored (or new) profile takes the URL and is stored; no other profile changes |
| Users.FindById | src/main/java/com/example/chatapp/service/UserService.java:76-77 | the user with that id, or none exactly when nobody has it |
| Users.FindByFriendCode | src/main/java/com/example/chatapp/service/UserService.java:90 | a user holding that friend code, or none exactly when nobody holds it |
| Users.SearchUsers | src/main/java/com/example/chatapp/service/UserService.java:71-105 | the user whose id the query parses to; else, for a well-formed friend code, its holder; else every user whose name contains the query ignoring case, in table order |
| Users.SearchFromTable | src/main/java/com/example/chatapp/service/UserService.java:71-105 | the search never returns a user that is not in the table |
| Users.IdBeatsFriendCode | src/main/java/com/example/chatapp/service/UserService.java:75-81 | a query naming a user's id finds exactly that user, even if the same digits are someone's friend code |
| Users.RegisteredAppend | src/main/java/com/example/chatapp/service/UserService.java:29-48 | an account with a fresh username, email and friend code keeps usernames, emails and friend codes unique |
| Users.FriendCodesInUse | src/main/java/com/example/chatapp/service/UserService.java:42 | exactly the friend codes some user holds |
| Users.UserService.constructor | src/main/java/com/example/chatapp/service/UserService.java:29-48 | no users |
| Users.UserService.RegisterUser | src/main/java/com/example/chatapp/service/UserService.java:29-48 | a taken username, then a taken email, is refused and nothing changes; with both free, registration fails, with FriendCodeExhausted, exactly when each of the first 100 draws gives a code already in use; otherwise one account is appended with the hashed password and the first drawn code nobody held, and all three stay unique |
| FriendCodes.GenerateRandomCode | src/main/java/com/example/chatapp/service/FriendCodeService.java:42-44 | every draw gives a well-formed eight-digit code, and distinct draws give distinct codes |
| FriendCodes.IsValidFriendCodeFormat | src/main/java/com/example/chatapp/service/FriendCodeService.java:49-55 | defined as: a code is present and lies between 10000000 and 99999999 inclusive; null is not valid |
| FriendCodes.EveryCodeReachable | src/main/java/com/example/chatapp/service/FriendCodeService.java:42-55 | every well-formed code is the code of some draw |
| FriendCodes.GenerateUniqueFriendCode | src/main/java/com/example/chatapp/service/FriendCodeService.java:22-37 | fails exactly when the first 100 draws are all in use; otherwise the first unused draw among them, a well-formed code nobody holds |
| Reports.ReportsAgainst | src/main/java/com/example/chatapp/repository/ReportRepository.java:20 | exactly the reports about that user, in stored order |
| Reports.ReportsBy | src/main/java/com/example/chatapp/repository/ReportRepository.java:17 | exactly the reports that user made, in stored order |
| Reports.ReportsInStatus | src/main/java/com/example/chatapp/repository/ReportRepository.java:26 | a permutation of the reports in that status, newest first |
| Reports.ReportersOf | src/main/java/com/example/chatapp/repository/ReportRepository.java:35-36 | exactly the users who reported that user |
| Reports.DistinctReportersCount | src/main/java/com/example/chatapp/service/ReportService.java:24-32 | because each reporter reports a user at most once, the distinct-reporter count equals the number of reports against the user |
| Reports.OnePerPairTail | src/main/java/com/example/chatapp/service/ReportService.java:24-32 | the one-report-per-pair rule holds for every suffix of the table |
| Reports.ReportersOfCons | src/main/java/com/example/chatapp/repository/ReportRepository.java:35-36 | the reporters of a user are the first report's reporter (when it is about the user) and those of the rest |
| Reports.IndexOfReport | src/main/java/com/example/chatapp/service/ReportService.java:56 | the first position holding that id, or none exactly when no report has it |
| Reports.ReportService.constructor | src/main/java/com/example/chatapp/service/ReportService.java:20-21 | no reports |
| Reports.ReportService.CreateReport | src/main/java/com/example/chatapp/service/ReportService.java:24-32 | refused exactly when the reporter already reported that user, in any status, changing nothing; otherwise one pending report is appended with the given fields; either way the pair is reported afterwards and the one-per-pair rule holds |
| Reports.ReportService.UpdateReportStatus | src/main/java/com/example/chatapp/service/ReportService.java:55-66 | an unknown id gives null and changes nothing; otherwise exactly the report with that id takes the status, `now`, the resolver and the note, and is returned |
| Reports.ReportService.GetReportsByReporter | src/main/java/com/example/chatapp/service/ReportService.java:35-37 | exactly the reports that user made |
| Reports.ReportService.GetReportsByReportedUser | src/main/java/com/example/chatapp/service/ReportService.java:40-42 | exactly the reports about that user |
| Reports.ReportService.GetReportsByStatus | src/main/java/com/example/chatapp/service/ReportService.java:45-47 | only reports in that status, newest first |
| Reports.ReportService.GetPendingReports | src/main/java/com/example/chatapp/service/ReportService.java:50-52 | the status listing for PENDING: only pending reports, newest first |
| Reports.ReportService.GetReportCountForUser | src/main/java/com/example/chatapp/service/ReportService.java:79-81 | the number of reports against the user, zero exactly when nobody reported them |
| Reports.ReportService.HasAlreadyReported | src/main/java/com/example/chatapp/service/ReportService.java:84-86 | defined as: some stored report has that reporter and that reported user, in any status |
| Gemini.UserNameLines | src/main/java/com/example/chatapp/service/GeminiService.java:55-58 | the lines naming the user are present exactly for a non-null, non-empty name |
| Gemini.RelationshipLine | src/main/java/com/example/chatapp/service/GeminiService.java:61-68 | a line exactly for "friend", "lover", "senior", "junior", "teacher" or "family" |
| Gemini.GenderLine | src/main/java/com/example/chatapp/service/GeminiService.java:71-75 | a line exactly for "male", "female" or "neutral" |
| Gemini.AgeGroupLine | src/main/java/com/example/chatapp/service/GeminiService.java:78-83 | a line exactly for "teen", "twenties", "thirties" or "forties" |
| Gemini.PersonalityLine | src/main/java/com/example/chatapp/service/GeminiService.java:86-93 | a line exactly for the six recognised personalities |
| Gemini.SpeakingStyleLine | src/main/java/com/example/chatapp/service/GeminiService.java:96-101 | a line exactly for "casual", "polite", "formal" or "dialect" |
| Gemini.BuildSystemPrompt | src/main/java/com/example/chatapp/service/GeminiService.java:43-110 | the fixed assistant prompt without a persona; otherwise it starts with the character header (named "AI" when the name is null), names the user when known, and ends with the fixed rules |
| Gemini.BarePersonaPrompt | src/main/java/com/example/chatapp/service/GeminiService.java:43-110 | with no recognised setting and no user name, the prompt is the header followed by the rules |
| Gemini.SystemEntry | src/main/java/com/example/chatapp/service/GeminiService.java:140-142 | the first entry is a user entry whose one text starts with "【システム指示】" |
| Gemini.ChatUserName | src/main/java/com/example/chatapp/service/GeminiService.java:126-132 | the profile's non-empty display name, else the username |
| Gemini.Trimmed | src/main/java/com/example/chatapp/service/GeminiService.java:173-176 | at most 22 entries; a history within the cap is untouched; the first two entries and the latest twenty survive |
| Gemini.TrimHistory | src/main/java/com/example/chatapp/service/GeminiService.java:174-176 | the loop that removes index 2 while over 22 entries ends with exactly `Trimmed` |
| Gemini.IntroStep | src/main/java/com/example/chatapp/service/GeminiService.java:138-156 | only an empty history with a completed persona changes: it becomes the system entry and the intro reply, or stays empty when the intro call fails |
| Gemini.ErrorText | src/main/java/com/example/chatapp/service/GeminiService.java:186-192 | the invalid-key text exactly for a message containing "401"; the rate-limit text exactly for one containing "429" but not "401"; otherwise the error prefix with the message or "不明なエラー" |
| Gemini.ExtractReplyText | src/main/java/com/example/chatapp/service/GeminiService.java:222-243 | the fixed no-response text for a null body; the first part's text of the first candidate when the candidate list and that candidate's part list are present and non-empty; otherwise the unparsable-response text |
| Gemini.ExtractReplyBody | src/main/java/com/example/chatapp/service/GeminiService.java:222-243 | a response carrying one reply gives that reply back |
| Gemini.DisplayOf | src/main/java/com/example/chatapp/service/GeminiService.java:264-279 | entries without parts and system instructions are hidden; otherwise the role is "user" or "ai" |
| Gemini.DisplayHistory | src/main/java/com/example/chatapp/service/GeminiService.java:255-282 | no more entries than the history, each with role "user" or "ai" and never a system instruction |
| Gemini.DisplayHistoryAppend | src/main/java/com/example/chatapp/service/GeminiService.java:262-280 | the display of a joined history is the join of the displays |
| Gemini.ChatTurnDisplay | src/main/java/com/example/chatapp/service/GeminiService.java:158-178 | a successful turn shows as the user's message followed by the AI's reply |
| Gemini.SystemEntryHidden | src/main/java/com/example/chatapp/service/GeminiService.java:138-156 | after the intro step, only the intro shows; the system instruction never does |
| Gemini.OpeningSurvivesTurns | src/main/java/com/example/chatapp/service/GeminiService.java:173-176 | over any run of turns the history stays within 22 entries and keeps its first two entries |
| Gemini.Introduce | src/main/java/com/example/chatapp/service/GeminiService.java:138-156 | the intro step on an empty history; after a reply there are two entries and the first is hidden from display |
| Gemini.ReplyTurn | src/main/java/com/example/chatapp/service/GeminiService.java:158-193 | a reply is appended after the message, the history trimmed and the reply returned; a failure takes the message off again and returns the error text |
| Gemini.GeminiService.constructor | src/main/java/com/example/chatapp/service/GeminiService.java:36-38 | the key and no histories |
| Gemini.GeminiService.IsConfigured | src/main/java/com/example/chatapp/service/GeminiService.java:36-38 | defined as: a key is present and not empty |
| Gemini.GeminiService.HistoryOf | src/main/java/com/example/chatapp/service/GeminiService.java:135 | a user without a history has the empty one |
| Gemini.GeminiService.Chat | src/main/java/com/example/chatapp/service/GeminiService.java:115-194 | without a key, the setup message and no change; otherwise only this user's history changes: the intro step, then either the reply appended and trimmed, or, on failure, the intro-step history and the error text |
| Gemini.GeminiService.ClearHistory | src/main/java/com/example/chatapp/service/GeminiService.java:248-250 | the user's history is dropped and then displays as empty |
| Gemini.GeminiService.GetHistory | src/main/java/com/example/chatapp/service/GeminiService.java:255-282 | empty for a user without a history, and never longer than the history |
| Leonardo.GenderPhrase | src/main/java/com/example/chatapp/service/LeonardoService.java:65-69 | never empty; the androgynous phrase exactly for anything but "male" and "female" |
| Leonardo.AgePhrase | src/main/java/com/example/chatapp/service/LeonardoService.java:72-77 | a phrase exactly for "teen", "twenties", "thirties" or "forties" |
| Leonardo.PersonalityPhrase | src/main/java/com/example/chatapp/service/LeonardoService.java:80-87 | a phrase exactly for the six recognised personalities |
| Leonardo.BuildPrompt | src/main/java/com/example/chatapp/service/LeonardoService.java:58-93 | starts with the fixed style, contains the gender phrase, and ends with the fixed quality tail |
| Leonardo.BarePrompt | src/main/java/com/example/chatapp/service/LeonardoService.java:58-93 | null or unrecognised settings give the style, the androgynous phrase and the tail, nothing else |
| Leonardo.FirstDecisive | src/main/java/com/example/chatapp/service/LeonardoService.java:139-180 | the first poll that is a finished generation with images or a failed one, with none before it; none exactly when no poll is decisive |
| Leonardo.UrlsOf | src/main/java/com/example/chatapp/service/LeonardoService.java:210-254 | no URLs when no poll is decisive or the first decisive one failed; otherwise the image URLs of the first finished generation |
| Leonardo.WaitForGenerationAndGetUrl | src/main/java/com/example/chatapp/service/LeonardoService.java:139-180 | within 30 polls, the first URL of the first finished generation, or null when it failed or the polls ran out |
| Leonardo.WaitForGenerationAndGetUrls | src/main/java/com/example/chatapp/service/LeonardoService.java:210-254 | within 60 polls, every URL of the first finished generation, or the empty list |
| Leonardo.UndecidedGivesNothing | src/main/java/com/example/chatapp/service/LeonardoService.java:139-180 | polls that never finish or fail give nothing |
| Leonardo.SingleIsFirstOfMany | src/main/java/com/example/chatapp/service/LeonardoService.java:139-254 | a generation decided within the first 30 polls gives both waiting loops the same outcome |
| Leonardo.IsConfigured | src/main/java/com/example/chatapp/service/LeonardoService.java:23-25 | defined as: a key is present and not empty |
| Leonardo.GenerateAvatar | src/main/java/com/example/chatapp/service/LeonardoService.java:30-53 | without a key nothing is sent and the result is null; otherwise exactly the built prompt is sent, and the URL is null without a generation id, else the polling's first URL |
| Leonardo.GenerateAvatars | src/main/java/com/example/chatapp/service/LeonardoService.java:185-204 | the same guards with the empty list, otherwise the polling's URLs |
| LoginRedirect.PreHandle | src/main/java/com/example/chatapp/config/LoginRedirectInterceptor.java:22-42 | allowed paths and signed-in users proceed; a request is redirected to "/login" exactly when its path is not allowed and nobody is signed in (an anonymous authentication counts as nobody) |
| LoginRedirect.AlwaysAllowed | src/main/java/com/example/chatapp/config/LoginRedirectInterceptor.java:46-58 | defined as the fixed allow-list: the static prefixes "/css/", "/js/", "/images/", "/icon-", "/api/auth/" and the exact paths "/manifest.json", "/sw.js", "/apple-touch-icon.png", "/login", "/register", "/profile/create", "/error", "/passreset" |
| LoginRedirect.IsAllowedPath | src/main/java/com/example/chatapp/config/LoginRedirectInterceptor.java:44-73 | defined as the fixed list, plus "/login/..." and "/icon-generator.html" in debug mode, plus "/h2-console/..." when the H2 console is on |
| LoginRedirect.IsAuthenticated | src/main/java/com/example/chatapp/config/LoginRedirectInterceptor.java:32-33 | defined as: an authentication is present, authenticated, and not named "anonymousUser" |
| LoginRedirect.SwitchesOnlyWiden | src/main/java/com/example/chatapp/config/LoginRedirectInterceptor.java:44-73 | the debug and H2-console switches only add paths; with both off the allow-list is the fixed list |
| LoginRedirect.DebugAddsOnlyLoginSubpaths | src/main/java/com/example/chatapp/config/LoginRedirectInterceptor.java:60-65 | debug mode in effect adds only paths under "/login/", since "/icon-generator.html" already starts with "/icon-" |
| LoginRedirect.LoginPagesProceed | src/main/java/com/example/chatapp/config/LoginRedirectInterceptor.java:36 | "/login" and "/register" always proceed |
| LoginRedirect.AnonymousRedirected | src/main/java/com/example/chatapp/config/LoginRedirectInterceptor.java:32-39 | a path outside the allow-list is redirected with no authentication or the anonymous one |
| ExceptionHandling.HandleNotFound | src/main/java/com/example/chatapp/config/GlobalExceptionHandler.java:18-29 | a 404 exactly for a static resource; every other missing path redirects to "/login" |
| ExceptionHandling.IsStaticResource | src/main/java/com/example/chatapp/config/GlobalExceptionHandler.java:58-71 | defined as: under "/css/", "/js/" or "/images/", ending in ".css", ".js", ".png", ".jpg", ".jpeg", ".gif" or ".ico", or exactly "/manifest.json" or "/sw.js" |
| ExceptionHandling.HandleAuthenticationException | src/main/java/com/example/chatapp/config/GlobalExceptionHandler.java:34-37 | always a redirect to "/login" |
| ExceptionHandling.HandleGenericException | src/main/java/com/example/chatapp/config/GlobalExceptionHandler.java:42-53 | the "error/500" view exactly on "/login" and "/register"; elsewhere the view "redirect:/login" |
| ExceptionHandling.NoLoginLoop | src/main/java/com/example/chatapp/config/GlobalExceptionHandler.java:46-49 | the generic error handler never redirects the login page to itself |
| ExceptionHandling.StaticPrefixesAllowed | src/main/java/com/example/chatapp/config/GlobalExceptionHandler.java:58-71 | the static directories and files are also on the interceptor's allow-list, and a missing one gets a 404 |
| ProfileCreation.TrimmedTags | src/main/java/com/example/chatapp/controller/ProfileCreationController.java:99-102 | no more tags than pieces, and none empty |
| ProfileCreation.TrimmedTagsMembers | src/main/java/com/example/chatapp/controller/ProfileCreationController.java:99-102 | a tag is listed exactly when it is the non-empty trim of some piece |
| ProfileCreation.TrimOfSomeStep | src/main/java/com/example/chatapp/controller/ProfileCreationController.java:99-102 | some piece trims to the tag exactly when the first one does or one of the rest does |
| ProfileCreation.TagList | src/main/java/com/example/chatapp/controller/ProfileCreationController.java:99-102 | every tag is non-empty and holds no comma |
| ProfileCreation.TagListMatchesTagSet | src/main/java/com/example/chatapp/controller/ProfileCreationController.java:99-102 | as a set, the tags counted here are the tags random matching reads from the same favourite things |
| ProfileCreation.Uses | src/main/java/com/example/chatapp/controller/ProfileCreationController.java:104 | how often a tag occurs: zero exactly when it is absent, never more than the list length |
| ProfileCreation.RecordedCounts | src/main/java/com/example/chatapp/controller/ProfileCreationController.java:104-109 | counting a tag list raises each tag's count by its number of occurrences, creates exactly the new tags, and leaves other tags alone |
| ProfileCreation.Bump | src/main/java/com/example/chatapp/controller/ProfileCreationController.java:104-109 | the intended single use of a tag: its count rises by exactly one (an unknown tag from zero), the tag is added, and every other tag keeps its count |
| ProfileCreation.Recorded | src/main/java/com/example/chatapp/controller/ProfileCreationController.java:104-109 | the intended counting of a tag list keeps the known tags and adds exactly the listed ones |
| ProfileCreation.BumpAsWritten | src/main/java/com/example/chatapp/controller/ProfileCreationController.java:104-108 | one use as the code does it: a known tag rises by one, a new tag rises by two over zero (created at 1, then incremented); other tags keep their counts |
| ProfileCreation.RecordedAsWritten | src/main/java/com/example/chatapp/controller/ProfileCreationController.java:104-109 | the code's tag loop keeps the known tags and adds exactly the listed ones |
| ProfileCreation.RecordedAsWrittenCounts | src/main/java/com/example/chatapp/controller/ProfileCreationController.java:104-109 | as written, each tag's count rises by its number of occurrences, plus one more when the tag was new; tags not listed keep their counts |
| ProfileCreation.Filled | src/main/java/com/example/chatapp/controller/ProfileCreationController.java:86-97 | the profile takes the display name, the bio when given, and the favourite things exactly when they are given and not blank (else ""); owner, avatar, online status, privacy, age group and chat style are kept |
| ProfileCreation.NewTagCountedTwiceAsWritten | src/main/java/com/example/chatapp/controller/ProfileCreationController.java:105-107 | a tag named once for the first time ends with count 2 as written, and 1 in the corrected count |
| ProfileCreation.FirstProfileDefaults | src/main/java/com/example/chatapp/controller/ProfileCreationController.java:86-92 | a first profile keeps the new-profile defaults: offline, public, searchable, open to random matching, no avatar |
| ProfileCreation.ShowProfileCreationPage | src/main/java/com/example/chatapp/controller/ProfileCreationController.java:38-68 | the form exactly for a session-marked user who exists; otherwise the login redirect |
| ProfileCreation.ProfileCreationController.constructor | src/main/java/com/example/chatapp/controller/ProfileCreationController.java:29-36 | the given profile and tag tables and session marker, nobody signed in |
| ProfileCreation.ProfileCreationController.RecordTagUses | src/main/java/com/example/chatapp/controller/ProfileCreationController.java:104-109 | the tag loop leaves the tag table as `RecordedAsWritten` of the list, the code's own counting; nothing else changes |
| ProfileCreation.ProfileCreationController.RecordFavorites | src/main/java/com/example/chatapp/controller/ProfileCreationController.java:95-112 | the tag table becomes `RecordedAsWritten` of the trimmed, non-empty comma pieces exactly when the favourite things are given and not blank, and is unchanged otherwise |
| ProfileCreation.ProfileCreationController.CreateProfile | src/main/java/com/example/chatapp/controller/ProfileCreationController.java:70-135 | without a marked, known user nothing changes and the login redirect follows; otherwise only that user's profile changes, taking the form fields, the tags are counted as the code counts them (a new tag starts at two), the user is signed in, the marker is removed, and the home redirect follows |
| ChatRoomEntity.User.constructor | src/main/java/com/example/chatapp/entity/User.java:61-65 | a new user has the given username and belongs to no room |
| ChatRooms.ChatRoomService.constructor | src/main/java/com/example/chatapp/service/ChatRoomService.java:31-44 | an empty service over the given accounts: no rooms, no join requests, no invitations, and the service invariant holds |
| Friendships.FriendshipService.constructor | src/main/java/com/example/chatapp/service/FriendshipService.java:17-21 | an empty friendship table that satisfies the one-relation-per-pair invariant |
| OnlineUsers.OnlineUserService.constructor | src/main/java/com/example/chatapp/service/OnlineUserService.java:34 | nobody is online, and the invariant holds |
| RandomMatching.RandomMatchingService.constructor | src/main/java/com/example/chatapp/service/RandomMatchingService.java:20-34 | no matches yet, over the given room service, with the invariant holding |
| RandomMatchingView.LikeTable.constructor | src/main/java/com/example/chatapp/controller/RandomMatchingController.java:43-44 | an empty like table, which holds no like twice |
| Text.Trim | src/main/java/com/example/chatapp/controller/ProfileCreationController.java:100 | Java `trim`: the result is a slice of the input with no blank character (code at most U+0020) at either end, and only blank characters are removed on each side |
| Text.BlankIffAllBlankChars | src/main/java/com/example/chatapp/controller/DirectMessageWebSocketController.java:59 | `trim().isEmpty()` holds exactly when every character is blank |
| Text.TrimIdempotent | src/main/java/com/example/chatapp/service/RandomMatchingService.java:163-166 | trimming an already trimmed string changes nothing |
| Text.Split | src/main/java/com/example/chatapp/controller/ProfileCreationController.java:99 | at least one piece, and no piece contains the separator |
| Text.JoinSplit | src/main/java/com/example/chatapp/controller/ProfileCreationController.java:99 | the pieces joined with the separator give the input back |
| Text.ToLower | src/main/java/com/example/chatapp/service/ChatRoomService.java:96-98 | same length; each character is the ASCII lower-case of the input's |
| Text.LastIndexOf | src/main/java/com/example/chatapp/service/UserProfileService.java:317 | -1 exactly when the character is absent; otherwise a position holding it with no later one |
| Text.PositionalValueSnoc | src/main/java/com/example/chatapp/service/UserService.java:76 | appending a digit to a digit string multiplies its positional value by ten and adds the digit |
| Text.DigitsValueIsPositional | src/main/java/com/example/chatapp/service/UserService.java:76 | the digit-by-digit value used by the parser equals the positional value (each digit times the power of ten of its place) |
| Text.ParseInteger | src/main/java/com/example/chatapp/service/UserService.java:76-88 | parsing succeeds exactly for an optional sign followed by at least one decimal digit whose signed positional value lies in the range, and then yields that value; anything else is a format error |
| Text.SignedDigitsIff | src/main/java/com/example/chatapp/service/UserService.java:76-88 | a string is an optional sign and digits exactly when what follows the sign is a non-empty string of digits |
| Text.ParseLong | src/main/java/com/example/chatapp/service/UserService.java:76 | succeeds exactly for an optional sign and decimal digits whose signed value lies within Java's `long` range, and yields that value |
| Text.ParseInt | src/main/java/com/example/chatapp/service/UserService.java:88 | succeeds exactly for an optional sign and decimal digits whose signed value lies within Java's `int` range, and yields that value |
| Text.ParseLongNatToString | src/main/java/com/example/chatapp/controller/DirectMessageWebSocketController.java:183 | a number in `long` range, written in decimal, parses back to itself |

## Left out

- Browser and page glue: the DOM, sounds, desktop notifications, badges and toasts of `notifications.js` (`notifyUserJoined`, `notifyUserLeft`, the permission prompt). `kawaii-theme.js`, `pwa.js` and `prevent-double-submit.js` are not part of this model.
- Network and AI calls. The Gemini and Leonardo HTTP requests, their JSON bodies and the `Thread.sleep` between polls are replaced by parameters: the reply or failure, the generation id, and the sequence of poll answers.
- `GeminiService.generateGreeting` is not modelled. It is a single AI call with no state of its own.
- Thin controllers, Spring configuration and security plumbing are not modelled. The exceptions are the handlers named above: profile creation, the random-matching view, the WebSocket direct-message handlers, the login interceptor and the exception handler.
- Repositories are not modelled as queries. Each is a value table, and each query is a filter over it. An `ORDER BY` becomes a sort on the key. The model proves the order and that no row is lost or added; it does not fix the order of rows with equal keys, which the database leaves open and `List.sort` keeps stable.
- `MessageService.getAllChatHistory` and `getMessagesByChatRoom` are the repository query `findByChatRoomIdOrderBySentAtAsc`, which `Messages.RoomMessages` models. The debug printing and the wrapping of repository exceptions are not modelled.
- `convertToDto` and the other DTO conversions, logging and debug output are not modelled.
- File I/O in `uploadRoomIcon` and `uploadAvatar` is not modelled. The upload directory, the file write and the UUID file name are left out; the validation and the stored URL are modelled.
- Randomness, UUIDs, clocks and the password encoder are parameters: the draw, the generated name, `now` in milliseconds, and the encoded password.
- Concurrency is not modelled. The `ConcurrentHashMap`s of `OnlineUserService`, `MultiSessionUtil` and `GeminiService` are sequential maps.
- `OnlineUserService` broadcasts of status changes and counts over the messaging template are not modelled. The direct-message handlers model the template as the list of deliveries.
- The top-10 favourite-tag listing is a repository query and is not modelled.
- Text: case mapping covers ASCII letters only. Strings are sequences of characters with no Unicode case folding.
- Text.ParseLong: decimal digits are the ASCII digits '0' to '9'. `Long.parseLong` takes digits through `Character.digit`, which also accepts other Unicode decimal digits such as fullwidth "１２"; the model rejects them. `DmWebSocket.GetLongValue` and `Users.SearchUsers` inherit this.
- Text.ParseInt: the same ASCII-only digits as `Text.ParseLong`; `Integer.parseInt` also accepts other Unicode decimal digits.
- Java `String.split` drops trailing empty strings. `Text.Split` keeps them. Every caller trims and discards empty pieces, so the results are the same.
- Integer widths: Java `long` ids and timestamps are unbounded integers. Java `int` arithmetic is written out where it can wrap, as `Messages.Wrap32` does for the history start. Tag usage counts are unbounded; `usageCount + 1` overflowing at 2^31 is not modelled.
- RandomMatches.WithDuration: the `(int)` cast of the minute count is not modelled. Durations beyond 2^31 minutes are out of range.
- RandomMatching.FindBestMatch: the floating-point compatibility score is replaced by an integer score function passed in. The selection rules over that score are modelled: eligibility, the top candidates, and the random pick among them.
- RandomMatching.GroupedMatchHistory: the source groups through a `HashMap`, so the order of groups with equal latest times is unspecified there. The model does not state an order among groups with equal latest times either.
- Friendships.FindBetween: `FriendshipRepository.java` looks up a relation only from follower to following. The service uses it as a lookup in either direction, and the model follows the service. `Friendship.java` as shown has no status enum or requester/addressee fields, which `FriendshipService` relies on; the status machine is modelled abstractly over those fields.
- Friendships.FriendshipService.SendFriendRequest: a brand-new relation is stored as PENDING. At `FriendshipService.java:55` the service builds it with `new Friendship(requester, addressee)` and sets no status. That constructor (`Friendship.java:54-58`) sets only the two users, so as written the new row carries the entity's default status string "ACCEPTED" (line 40). The model follows the service's own status machine, which reads a new request as pending (`getPendingRequests`, `acceptFriendRequest`); `RequestReadsAsSent` depends on this.
- Users.FindByFriendCode: friend codes are taken to be unique, which `generateUniqueFriendCode` ensures for codes it issues.
- ChatRooms.ValidateRoomIcon: the creator check compares the room's creator id with the caller's id. The source compares usernames, which are unique.
- Gemini.ReplyTurn: an API answer whose text is null makes `Map.of` throw, and the source then handles it as a failed call. The model has no null answer; such an answer is passed in as a failure.
- ServiceWorker.ServiceWorker.HandleFetch: `sw.js` routes only on `redirect === 'manual'`, and the model adds no routing of its own. The method name is taken as already normalised (`fetch` upper-cases "get" to "GET"); the other request fields the Cache API compares (the `Vary` header, query options) are not modelled, so matching is by URL for GET requests.
- ServiceWorker.ServiceWorker.AddAll: `cache.addAll` rejects a batch that names the same request twice (InvalidStateError); the model would store the last response instead. The install list has no duplicate URL, so `Install` is unaffected.
- CsrfHelper.GetCsrfToken: `decodeURIComponent` is taken as already applied to the cookie string. A malformed escape, which would throw, is not modelled.
- CsrfHelper.CsrfRequest.SetRequestHeader: header names are compared exactly. `XMLHttpRequest` compares them without regard to ASCII case and rejects forbidden names and calls outside the OPENED state; none of that is modelled.

## Findings

| source | as written | input that shows it | evidently intended | confidence | as-written member | corrected member |
|---|---|---|---|---|---|---|
| src/main/java/com/example/chatapp/service/RandomMatchingService.java:140-153 | `indexOf` gives -1 for NOT_SPECIFIED, and `abs(-1 - 0) == 1`, so NOT_SPECIFIED counts as adjacent to TEENS | age groups NOT_SPECIFIED and TEENS | only two specified, neighbouring age groups are adjacent | not executed | RandomMatching.UnspecifiedAdjacentToTeensAsWritten | RandomMatching.AdjacencyProperties |
| src/main/java/com/example/chatapp/service/ChatRoomService.java:861-865 | `substring(lastIndexOf("."))` on a name without a dot is `substring(-1)`, which throws an index error | file name "photo" | a name without an extension is refused as a disallowed file type | not executed | ChatRooms.IconExtensionAsWrittenFailsWithoutDot | ChatRooms.IconExtensionAgreesWithDot |
| src/main/java/com/example/chatapp/controller/ProfileCreationController.java:104-107 | a new tag is built by `new FavoriteTag(name)` with a count of 1 (entity/FavoriteTag.java:21-24) and is then incremented, so its first use counts 2 | a profile naming the new tag "x" once | each use of a tag adds exactly one to its count | not executed | ProfileCreation.NewTagCountedTwiceAsWritten | ProfileCreation.RecordedCounts |
| src/main/java/com/example/chatapp/repository/FriendshipRepository.java:75-76 | `findAcceptedFriendships` selects every relation in which the user is either side, with no status filter, and `getFriends` lists the other user of each | a pending request from user a to user b; `getFriends(b)` lists a | only users with an ACCEPTED relation are friends, as the query's name says | not executed | Friendships.PendingRequestListedAsWritten | Friendships.AcceptedFriends |

The operations themselves follow the code as written: `AgePoints` uses `AreAdjacentAgeGroupsAsWritten`, `ValidateRoomIcon` uses `IconExtensionAsWritten`, the tag loop of `CreateProfile` uses `BumpAsWritten`, and `getFriends` is `Friends`, the query without a status filter. The corrected members state what the code evidently intends, with their properties proved beside them.
