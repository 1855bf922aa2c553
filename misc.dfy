/** The remaining backend routes: direct and group messages, fan posts, appeals against a
    semiban, shared materials and the material box, polls and schedules. */
module Misc {
  import opened Wrappers
  import opened Lists
  import opened Records
  import opened Utils

  // ---------------------------------------------------------------- direct messages

  /** The body of `POST /messages`. */
  datatype MessageCreate = MessageCreate(senderId: UserId, receiverId: UserId, content: string)

  function MessageId(m: Message): int { m.id }

  /** Ascending id order, as a descending order on the negated id. */
  function NegMessageId(m: Message): int { -m.id }

  predicate UniqueMessageIds(messages: seq<Message>)
  {
    forall i, j :: 0 <= i < j < |messages| ==> messages[i].id != messages[j].id
  }

  /** `POST /messages`: sender exists (404), is not semibanned (403), receiver exists (404),
      neither blocks the other (403); then one message with the next id is appended and the
      receiver gets one "message" notification. */
  function SendMessageStep(users: seq<User>, messages: seq<Message>, msg: MessageCreate, now: int)
    : (r: Outcome<((seq<User>, seq<Message>), Message)>)
    ensures !UserExists(users, msg.senderId) ==> r == Err(404, "Sender not found")
    ensures (UserExists(users, msg.senderId) && IsSemibanned(users[FindUser(users, msg.senderId).value], now))
            ==> r == Err(403, "Temporarily banned")
    ensures (UserExists(users, msg.senderId) && !IsSemibanned(users[FindUser(users, msg.senderId).value], now)
             && !UserExists(users, msg.receiverId)) ==> r == Err(404, "Receiver not found")
    ensures r.Ok? <==> UserExists(users, msg.senderId) && UserExists(users, msg.receiverId)
                       && !IsSemibanned(users[FindUser(users, msg.senderId).value], now)
                       && msg.receiverId !in users[FindUser(users, msg.senderId).value].blocks
                       && msg.senderId !in users[FindUser(users, msg.receiverId).value].blocks
    ensures (r.Err? && UserExists(users, msg.senderId) && UserExists(users, msg.receiverId)
             && !IsSemibanned(users[FindUser(users, msg.senderId).value], now)) ==> r == Err(403, "Blocked")
    ensures r.Ok? ==> var ((users', messages'), item) := r.value;
      var k := FindUser(users, msg.receiverId).value;
      && messages' == messages + [item]
      && item == Message(item.id, msg.senderId, msg.receiverId, msg.content, now)
      && (forall i :: 0 <= i < |messages| ==> messages[i].id < item.id)
      && users' == users[k := users[k].(notifications := users[k].notifications
                                         + [Notification("message", msg.senderId, Some(item.id), now)])]
  {
    var s := FindUser(users, msg.senderId);
    if s.None? then Err(404, "Sender not found")
    else if IsSemibanned(users[s.value], now) then Err(403, "Temporarily banned")
    else
      var t := FindUser(users, msg.receiverId);
      if t.None? then Err(404, "Receiver not found")
      else if msg.receiverId in users[s.value].blocks || msg.senderId in users[t.value].blocks then Err(403, "Blocked")
      else
        var item := Message(NextId(Map(messages, MessageId)), msg.senderId, msg.receiverId, msg.content, now);
        var note := Notification("message", msg.senderId, Some(item.id), now);
        var receiver := users[t.value];
        Ok(((users[t.value := receiver.(notifications := receiver.notifications + [note])], messages + [item]), item))
  }

  method SendMessage(db: Store, msg: MessageCreate, now: int) returns (r: Outcome<Message>)
    modifies db`users, db`messages
    ensures Settles(SendMessageStep(old(db.users), old(db.messages), msg, now),
                    (old(db.users), old(db.messages)), (db.users, db.messages), r)
  {
    var s := FindUser(db.users, msg.senderId);
    if s.None? {
      return Err(404, "Sender not found");
    }
    if IsSemibanned(db.users[s.value], now) {
      return Err(403, "Temporarily banned");
    }
    var t := FindUser(db.users, msg.receiverId);
    if t.None? {
      return Err(404, "Receiver not found");
    }
    if msg.receiverId in db.users[s.value].blocks || msg.senderId in db.users[t.value].blocks {
      return Err(403, "Blocked");
    }
    var item := Message(NextId(Map(db.messages, MessageId)), msg.senderId, msg.receiverId, msg.content, now);
    db.messages := db.messages + [item];
    var receiver := db.users[t.value];
    var notes := receiver.notifications + [Notification("message", msg.senderId, Some(item.id), now)];
    db.users := db.users[t.value := receiver.(notifications := notes)];
    r := Ok(item);
  }

  /** Sending keeps message ids unique and the users table valid, and adds exactly one
      notification, to the receiver, pointing at the new message. */
  lemma SendMessageKeepsInvariants(users: seq<User>, messages: seq<Message>, msg: MessageCreate, now: int)
    requires ValidUsers(users) && UniqueMessageIds(messages)
    requires SendMessageStep(users, messages, msg, now).Ok?
    ensures var ((users', messages'), item) := SendMessageStep(users, messages, msg, now).value;
      var k := FindUser(users, msg.receiverId).value;
      && ValidUsers(users') && UniqueMessageIds(messages')
      && |users'[k].notifications| == |users[k].notifications| + 1
      && users'[k].notifications[|users[k].notifications|].messageId == Some(item.id)
      && (forall j :: 0 <= j < |users| && j != k ==> users'[j] == users[j])
  {
    var users' := SendMessageStep(users, messages, msg, now).value.0.0;
    var k := FindUser(users, msg.receiverId).value;
    SameIdsUpdate(users, k, users'[k]);
    SameIdsValid(users, users');
  }

  /** A message of the conversation between `a` and `b`, in either direction. */
  predicate Between(m: Message, a: UserId, b: UserId)
  {
    (m.senderId == a && m.receiverId == b) || (m.senderId == b && m.receiverId == a)
  }

  function Conversation(a: UserId, b: UserId): Message -> bool
  {
    (m: Message) => Between(m, a, b)
  }

  /** `GET /messages/{user_id}/with/{other_id}`: both users must exist (404) and neither may
      block the other (403); the reply is the conversation in ascending id order. */
  function GetMessages(users: seq<User>, messages: seq<Message>, userId: UserId, otherId: UserId)
    : (r: Outcome<seq<Message>>)
    ensures !UserExists(users, userId) || !UserExists(users, otherId) ==> r == Err(404, "User not found")
    ensures r.Ok? <==> UserExists(users, userId) && UserExists(users, otherId)
                       && otherId !in users[FindUser(users, userId).value].blocks
                       && userId !in users[FindUser(users, otherId).value].blocks
    ensures r.Err? && UserExists(users, userId) && UserExists(users, otherId) ==> r == Err(403, "Blocked")
    ensures r.Ok? ==> forall i, j :: 0 <= i < j < |r.value| ==> r.value[i].id <= r.value[j].id
    ensures r.Ok? ==> multiset(r.value) == multiset(Filter(messages, Conversation(userId, otherId)))
    ensures r.Ok? ==> forall m :: m in r.value <==> m in messages && Between(m, userId, otherId)
  {
    var me, other := FindUser(users, userId), FindUser(users, otherId);
    if me.None? || other.None? then Err(404, "User not found")
    else if otherId in users[me.value].blocks || userId in users[other.value].blocks then Err(403, "Blocked")
    else
      var convo := Filter(messages, Conversation(userId, otherId));
      var r := SortDesc(convo, NegMessageId);
      SortedMembers(convo, NegMessageId);
      assert forall i, j :: 0 <= i < j < |r| ==> NegMessageId(r[i]) >= NegMessageId(r[j]);
      Ok(r)
  }

  // ---------------------------------------------------------------- groups

  /** The body of `POST /groups`. */
  datatype GroupCreate = GroupCreate(name: string, members: seq<UserId>)

  function GroupId(g: Group): int { g.id }

  /** `POST /groups`: every member must be a known user (404); the group gets the next id. */
  function CreateGroupStep(users: seq<User>, groups: seq<Group>, req: GroupCreate)
    : (r: Outcome<(seq<Group>, Group)>)
    ensures r.Err? <==> exists m :: m in req.members && !UserExists(users, m)
    ensures r.Err? ==> r == Err(404, "Member not found")
    ensures r.Ok? ==> var (groups', item) := r.value;
      && groups' == groups + [item]
      && item == Group(item.id, req.name, req.members)
      && forall i :: 0 <= i < |groups| ==> groups[i].id < item.id
  {
    if exists m :: m in req.members && !UserExists(users, m) then Err(404, "Member not found")
    else
      var item := Group(NextId(Map(groups, GroupId)), req.name, req.members);
      Ok((groups + [item], item))
  }

  method CreateGroup(db: Store, req: GroupCreate) returns (r: Outcome<Group>)
    modifies db`groups
    ensures Settles(CreateGroupStep(db.users, old(db.groups), req), old(db.groups), db.groups, r)
  {
    var i := 0;
    while i < |req.members|
      invariant 0 <= i <= |req.members|
      invariant forall k :: 0 <= k < i ==> UserExists(db.users, req.members[k])
    {
      if !UserExists(db.users, req.members[i]) {
        return Err(404, "Member not found");
      }
      i := i + 1;
    }
    var item := Group(NextId(Map(db.groups, GroupId)), req.name, req.members);
    db.groups := db.groups + [item];
    r := Ok(item);
  }

  /** `GET /groups/{user_id}`: the groups the user belongs to, in table order. */
  function ListGroups(groups: seq<Group>, userId: UserId): (r: seq<Group>)
    ensures forall g :: g in r <==> g in groups && userId in g.members
    ensures |r| <= |groups|
  {
    Filter(groups, (g: Group) => userId in g.members)
  }

  function GroupMessageId(m: GroupMessage): int { m.id }

  function NegGroupMessageId(m: GroupMessage): int { -m.id }

  function InGroup(groupId: int): GroupMessage -> bool
  {
    (m: GroupMessage) => m.groupId == groupId
  }

  /** `GET /groups/{group_id}/messages`: the group's messages in ascending id order (no check
      that the group exists). */
  function GroupMessages(msgs: seq<GroupMessage>, groupId: int): (r: seq<GroupMessage>)
    ensures forall i, j :: 0 <= i < j < |r| ==> r[i].id <= r[j].id
    ensures multiset(r) == multiset(Filter(msgs, InGroup(groupId)))
    ensures forall m :: m in r <==> m in msgs && m.groupId == groupId
  {
    var kept := Filter(msgs, InGroup(groupId));
    var r := SortDesc(kept, NegGroupMessageId);
    SortedMembers(kept, NegGroupMessageId);
    assert forall i, j :: 0 <= i < j < |r| ==> NegGroupMessageId(r[i]) >= NegGroupMessageId(r[j]);
    r
  }

  /** The body of `POST /groups/{group_id}/messages`. */
  datatype GroupMessageCreate = GroupMessageCreate(senderId: UserId, content: string)

  /** `POST /groups/{group_id}/messages`: 403 unless the group exists and the sender is one of
      its members; the message gets the next id. */
  function SendGroupMessageStep(groups: seq<Group>, msgs: seq<GroupMessage>, groupId: int,
                                req: GroupMessageCreate, now: int)
    : (r: Outcome<(seq<GroupMessage>, GroupMessage)>)
    ensures var g := FindFirst(groups, (x: Group) => x.id == groupId);
      r.Ok? <==> g.Some? && req.senderId in groups[g.value].members
    ensures r.Err? ==> r == Err(403, "Not a member")
    ensures r.Ok? ==> var (msgs', item) := r.value;
      && msgs' == msgs + [item]
      && item == GroupMessage(item.id, groupId, req.senderId, req.content, now)
      && forall i :: 0 <= i < |msgs| ==> msgs[i].id < item.id
  {
    var g := FindFirst(groups, (x: Group) => x.id == groupId);
    if g.None? || req.senderId !in groups[g.value].members then Err(403, "Not a member")
    else
      var item := GroupMessage(NextId(Map(msgs, GroupMessageId)), groupId, req.senderId, req.content, now);
      Ok((msgs + [item], item))
  }

  method SendGroupMessage(db: Store, groupId: int, req: GroupMessageCreate, now: int) returns (r: Outcome<GroupMessage>)
    modifies db`groupMessages
    ensures Settles(SendGroupMessageStep(db.groups, old(db.groupMessages), groupId, req, now),
                    old(db.groupMessages), db.groupMessages, r)
  {
    var g := FindFirst(db.groups, (x: Group) => x.id == groupId);
    if g.None? || req.senderId !in db.groups[g.value].members {
      return Err(403, "Not a member");
    }
    var item := GroupMessage(NextId(Map(db.groupMessages, GroupMessageId)), groupId, req.senderId, req.content, now);
    db.groupMessages := db.groupMessages + [item];
    r := Ok(item);
  }

  /** Every stored group message was sent by a member of its group: the guard keeps this. */
  predicate SentByMembers(groups: seq<Group>, msgs: seq<GroupMessage>)
  {
    forall m :: m in msgs ==> exists g :: g in groups && g.id == m.groupId && m.senderId in g.members
  }

  lemma SendGroupMessageByMember(groups: seq<Group>, msgs: seq<GroupMessage>, groupId: int,
                                 req: GroupMessageCreate, now: int)
    requires SentByMembers(groups, msgs)
    requires SendGroupMessageStep(groups, msgs, groupId, req, now).Ok?
    ensures SentByMembers(groups, SendGroupMessageStep(groups, msgs, groupId, req, now).value.0)
  {
    var g := FindFirst(groups, (x: Group) => x.id == groupId).value;
    assert groups[g] in groups;
  }

  // ---------------------------------------------------------------- fan posts

  /** The body of `POST /fan_posts`. */
  datatype FanPostCreate = FanPostCreate(authorId: UserId, content: string)

  function FanPostId(p: FanPost): int { p.id }

  /** `GET /fan_posts`: only a known user (404) whose role is the fan role (403) may read;
      the reply is every fan post, highest id first. */
  function ListFanPosts(users: seq<User>, fanPosts: seq<FanPost>, viewerId: UserId): (r: Outcome<seq<FanPost>>)
    ensures !UserExists(users, viewerId) ==> r == Err(404, "User not found")
    ensures r.Ok? <==> UserExists(users, viewerId) && users[FindUser(users, viewerId).value].role == RoleFan
    ensures r.Err? && UserExists(users, viewerId) ==> r == Err(403, "Only fans can view")
    ensures r.Ok? ==> SortedDesc(r.value, FanPostId) && multiset(r.value) == multiset(fanPosts)
  {
    var v := FindUser(users, viewerId);
    if v.None? then Err(404, "User not found")
    else if users[v.value].role != RoleFan then Err(403, "Only fans can view")
    else Ok(SortDesc(fanPosts, FanPostId))
  }

  /** `POST /fan_posts`: only a known user (404) with the fan role (403) may post. */
  function CreateFanPostStep(users: seq<User>, fanPosts: seq<FanPost>, req: FanPostCreate, now: int)
    : (r: Outcome<(seq<FanPost>, FanPost)>)
    ensures !UserExists(users, req.authorId) ==> r == Err(404, "User not found")
    ensures r.Ok? <==> UserExists(users, req.authorId) && users[FindUser(users, req.authorId).value].role == RoleFan
    ensures r.Err? && UserExists(users, req.authorId) ==> r == Err(403, "Only fans can post")
    ensures r.Ok? ==> var (fanPosts', item) := r.value;
      && fanPosts' == fanPosts + [item]
      && item == FanPost(item.id, req.authorId, req.content, now)
      && forall i :: 0 <= i < |fanPosts| ==> fanPosts[i].id < item.id
  {
    var u := FindUser(users, req.authorId);
    if u.None? then Err(404, "User not found")
    else if users[u.value].role != RoleFan then Err(403, "Only fans can post")
    else
      var item := FanPost(NextId(Map(fanPosts, FanPostId)), req.authorId, req.content, now);
      Ok((fanPosts + [item], item))
  }

  method CreateFanPost(db: Store, req: FanPostCreate, now: int) returns (r: Outcome<FanPost>)
    modifies db`fanPosts
    ensures Settles(CreateFanPostStep(db.users, old(db.fanPosts), req, now), old(db.fanPosts), db.fanPosts, r)
  {
    var u := FindUser(db.users, req.authorId);
    if u.None? {
      return Err(404, "User not found");
    }
    if db.users[u.value].role != RoleFan {
      return Err(403, "Only fans can post");
    }
    var item := FanPost(NextId(Map(db.fanPosts, FanPostId)), req.authorId, req.content, now);
    db.fanPosts := db.fanPosts + [item];
    r := Ok(item);
  }

  /** Every fan post is by a user whose role is the fan role (as long as roles do not change). */
  predicate FanAuthored(users: seq<User>, fanPosts: seq<FanPost>)
  {
    forall p :: p in fanPosts ==> UserExists(users, p.authorId) && users[FindUser(users, p.authorId).value].role == RoleFan
  }

  lemma CreateFanPostKeepsFanAuthored(users: seq<User>, fanPosts: seq<FanPost>, req: FanPostCreate, now: int)
    requires FanAuthored(users, fanPosts)
    requires CreateFanPostStep(users, fanPosts, req, now).Ok?
    ensures FanAuthored(users, CreateFanPostStep(users, fanPosts, req, now).value.0)
  {
  }

  // ---------------------------------------------------------------- appeals

  /** The body of `POST /appeals`. */
  datatype AppealCreate = AppealCreate(userId: UserId, message: string)

  function AppealId(a: Appeal): int { a.id }

  predicate UniqueAppealIds(appeals: seq<Appeal>)
  {
    forall i, j :: 0 <= i < j < |appeals| ==> appeals[i].id != appeals[j].id
  }

  predicate HasPending(appeals: seq<Appeal>, userId: UserId)
  {
    exists a :: a in appeals && a.userId == userId && a.status == "pending"
  }

  /** No user has two pending appeals. */
  predicate OnePendingEach(appeals: seq<Appeal>)
  {
    forall i, j :: 0 <= i < j < |appeals| && appeals[i].userId == appeals[j].userId ==>
      !(appeals[i].status == "pending" && appeals[j].status == "pending")
  }

  /** `POST /appeals`: a known user (404) who is semibanned now (400) and has no pending
      appeal (400) files one, pending, with the next id. */
  function CreateAppealStep(users: seq<User>, appeals: seq<Appeal>, req: AppealCreate, now: int)
    : (r: Outcome<(seq<Appeal>, Appeal)>)
    ensures !UserExists(users, req.userId) ==> r == Err(404, "User not found")
    ensures (UserExists(users, req.userId) && !IsSemibanned(users[FindUser(users, req.userId).value], now))
            ==> r == Err(400, "Not semibanned")
    ensures r.Ok? <==> UserExists(users, req.userId) && IsSemibanned(users[FindUser(users, req.userId).value], now)
                       && !HasPending(appeals, req.userId)
    ensures r.Err? && UserExists(users, req.userId) && IsSemibanned(users[FindUser(users, req.userId).value], now)
            ==> r == Err(400, "Already appealed")
    ensures r.Ok? ==> var (appeals', item) := r.value;
      && appeals' == appeals + [item]
      && item == Appeal(item.id, req.userId, req.message, "pending", now)
      && forall i :: 0 <= i < |appeals| ==> appeals[i].id < item.id
  {
    var u := FindUser(users, req.userId);
    if u.None? then Err(404, "User not found")
    else if !IsSemibanned(users[u.value], now) then Err(400, "Not semibanned")
    else if HasPending(appeals, req.userId) then Err(400, "Already appealed")
    else
      var item := Appeal(NextId(Map(appeals, AppealId)), req.userId, req.message, "pending", now);
      Ok((appeals + [item], item))
  }

  method CreateAppeal(db: Store, req: AppealCreate, now: int) returns (r: Outcome<Appeal>)
    modifies db`appeals
    ensures Settles(CreateAppealStep(db.users, old(db.appeals), req, now), old(db.appeals), db.appeals, r)
  {
    var u := FindUser(db.users, req.userId);
    if u.None? {
      return Err(404, "User not found");
    }
    if !IsSemibanned(db.users[u.value], now) {
      return Err(400, "Not semibanned");
    }
    if HasPending(db.appeals, req.userId) {
      return Err(400, "Already appealed");
    }
    var item := Appeal(NextId(Map(db.appeals, AppealId)), req.userId, req.message, "pending", now);
    db.appeals := db.appeals + [item];
    r := Ok(item);
  }

  /** Filing keeps appeal ids unique and at most one pending appeal per user. */
  lemma CreateAppealKeepsInvariants(users: seq<User>, appeals: seq<Appeal>, req: AppealCreate, now: int)
    requires UniqueAppealIds(appeals) && OnePendingEach(appeals)
    requires CreateAppealStep(users, appeals, req, now).Ok?
    ensures var appeals' := CreateAppealStep(users, appeals, req, now).value.0;
      UniqueAppealIds(appeals') && OnePendingEach(appeals')
  {
    var appeals' := CreateAppealStep(users, appeals, req, now).value.0;
    forall i, j | 0 <= i < j < |appeals'| && appeals'[i].userId == appeals'[j].userId
      ensures !(appeals'[i].status == "pending" && appeals'[j].status == "pending")
    {
      if j == |appeals| {
        assert appeals[i] in appeals;
      }
    }
  }

  /** `POST /appeals/{appeal_id}/resolve`: the appeal must exist (404) and be pending (400),
      and the action, lower-cased, must be "approve" or "reject" (400). Approving a user who
      exists marks the appeal approved and lifts the semiban; rejecting marks it rejected;
      approving an appeal whose user is gone changes nothing. The reply is the status. */
  function ResolveAppealStep(users: seq<User>, appeals: seq<Appeal>, appealId: int, action: string)
    : (r: Outcome<((seq<User>, seq<Appeal>), string)>)
    ensures var i := FindFirst(appeals, (a: Appeal) => a.id == appealId);
      && (i.None? ==> r == Err(404, "Appeal not found"))
      && (i.Some? && appeals[i.value].status != "pending" ==> r == Err(400, "Already resolved"))
      && (r.Ok? <==> i.Some? && appeals[i.value].status == "pending" && Lower(action) in {"approve", "reject"})
      && (r.Err? && i.Some? && appeals[i.value].status == "pending" ==> r == Err(400, "Invalid action"))
    ensures r.Ok? ==> var i := FindFirst(appeals, (a: Appeal) => a.id == appealId).value;
      var ((users', appeals'), status) := r.value;
      var u := FindUser(users, appeals[i].userId);
      && appeals' == appeals[i := appeals[i].(status := status)]
      && (Lower(action) == "reject" ==> status == "rejected" && users' == users)
      && (Lower(action) == "approve" && u.None? ==> status == "pending" && users' == users)
      && (Lower(action) == "approve" && u.Some? ==>
            status == "approved" && users' == users[u.value := users[u.value].(semibanUntil := NotSet)])
  {
    var i := FindFirst(appeals, (a: Appeal) => a.id == appealId);
    if i.None? then Err(404, "Appeal not found")
    else
      var appeal := appeals[i.value];
      if appeal.status != "pending" then Err(400, "Already resolved")
      else
        var act := Lower(action);
        if act !in {"approve", "reject"} then Err(400, "Invalid action")
        else
          var u := FindUser(users, appeal.userId);
          if act == "approve" && u.Some? then
            var approved := appeal.(status := "approved");
            Ok(((users[u.value := users[u.value].(semibanUntil := NotSet)], appeals[i.value := approved]), "approved"))
          else if act == "reject" then
            Ok(((users, appeals[i.value := appeal.(status := "rejected")]), "rejected"))
          else
            assert appeals[i.value := appeal] == appeals;
            Ok(((users, appeals), "pending"))
  }

  method ResolveAppeal(db: Store, appealId: int, action: string) returns (r: Outcome<string>)
    modifies db`users, db`appeals
    ensures Settles(ResolveAppealStep(old(db.users), old(db.appeals), appealId, action),
                    (old(db.users), old(db.appeals)), (db.users, db.appeals), r)
  {
    var i := FindFirst(db.appeals, (a: Appeal) => a.id == appealId);
    if i.None? {
      return Err(404, "Appeal not found");
    }
    var appeal := db.appeals[i.value];
    if appeal.status != "pending" {
      return Err(400, "Already resolved");
    }
    var act := Lower(action);
    if act !in {"approve", "reject"} {
      return Err(400, "Invalid action");
    }
    var u := FindUser(db.users, appeal.userId);
    if act == "approve" && u.Some? {
      appeal := appeal.(status := "approved");
      db.users := db.users[u.value := db.users[u.value].(semibanUntil := NotSet)];
    } else if act == "reject" {
      appeal := appeal.(status := "rejected");
    }
    db.appeals := db.appeals[i.value := appeal];
    r := Ok(appeal.status);
  }

  /** The appeal state machine: a resolved appeal cannot be resolved again, and an approved
      one leaves its user free of any semiban, at any time. */
  lemma ResolveAppealFinal(users: seq<User>, appeals: seq<Appeal>, appealId: int, action: string,
                           action2: string, later: int)
    requires ResolveAppealStep(users, appeals, appealId, action).Ok?
    ensures var ((users', appeals'), status) := ResolveAppealStep(users, appeals, appealId, action).value;
      && (status != "pending" ==> ResolveAppealStep(users', appeals', appealId, action2) == Err(400, "Already resolved"))
      && (status == "approved" ==> !IsSemibanned(users'[FindUser(users, appeals[FindFirst(appeals, (a: Appeal) => a.id == appealId).value].userId).value], later))
  {
    var i := FindFirst(appeals, (a: Appeal) => a.id == appealId).value;
    var appeals' := ResolveAppealStep(users, appeals, appealId, action).value.0.1;
    assert forall j :: 0 <= j < |appeals| ==> appeals'[j].id == appeals[j].id;
    assert FindFirst(appeals', (a: Appeal) => a.id == appealId) == Some(i);
  }

  // ---------------------------------------------------------------- materials

  function MaterialId(m: Material): int { m.id }

  /** The keyword occurs in the title or the description, ignoring ASCII case. */
  predicate KeywordHit(m: Material, keyword: string)
  {
    Contains(Lower(m.title), Lower(keyword)) || Contains(Lower(m.description), Lower(keyword))
  }

  /** Which materials `GET /materials` lists: a non-empty keyword must hit, a non-empty
      category must match exactly. */
  predicate MaterialShown(m: Material, keyword: Option<string>, category: Option<string>)
  {
    && (keyword.Some? && keyword.value != "" ==> KeywordHit(m, keyword.value))
    && (category.Some? && category.value != "" ==> m.category == category.value)
  }

  function MaterialShownBy(keyword: Option<string>, category: Option<string>): Material -> bool
  {
    (m: Material) => MaterialShown(m, keyword, category)
  }

  function ByKeyword(keyword: Option<string>): Material -> bool
  {
    (m: Material) => keyword.Some? && KeywordHit(m, keyword.value)
  }

  function ByMaterialCategory(category: Option<string>): Material -> bool
  {
    (m: Material) => category.Some? && m.category == category.value
  }

  /** The two filters of `list_materials`, applied in turn. */
  function FilteredMaterials(materials: seq<Material>, keyword: Option<string>, category: Option<string>): seq<Material>
  {
    var ms := if keyword.Some? && keyword.value != "" then Filter(materials, ByKeyword(keyword)) else materials;
    if category.Some? && category.value != "" then Filter(ms, ByMaterialCategory(category)) else ms
  }

  lemma FilteredMaterialsShown(materials: seq<Material>, keyword: Option<string>, category: Option<string>)
    ensures FilteredMaterials(materials, keyword, category) == Filter(materials, MaterialShownBy(keyword, category))
  {
    var kw := keyword.Some? && keyword.value != "";
    var cat := category.Some? && category.value != "";
    var c1 := (m: Material) => kw ==> ByKeyword(keyword)(m);
    var c2 := (m: Material) => cat ==> ByMaterialCategory(category)(m);
    var ms := if kw then Filter(materials, ByKeyword(keyword)) else materials;
    FilterIf(materials, kw, ByKeyword(keyword), c1);
    FilterIf(ms, cat, ByMaterialCategory(category), c2);
    FilterFilter(materials, c1, c2, MaterialShownBy(keyword, category));
  }

  /** `GET /materials`: the matching materials, highest id first. */
  function ListMaterials(materials: seq<Material>, keyword: Option<string>, category: Option<string>)
    : (r: seq<Material>)
    ensures SortedDesc(r, MaterialId)
    ensures multiset(r) == multiset(Filter(materials, MaterialShownBy(keyword, category)))
    ensures forall m :: m in r <==> m in materials && MaterialShown(m, keyword, category)
  {
    FilteredMaterialsShown(materials, keyword, category);
    var shown := Filter(materials, MaterialShownBy(keyword, category));
    var r := SortDesc(FilteredMaterials(materials, keyword, category), MaterialId);
    forall m
      ensures m in r <==> m in materials && MaterialShown(m, keyword, category)
    {
      assert m in r <==> m in multiset(r);
      assert m in shown <==> m in multiset(shown);
      assert MaterialShownBy(keyword, category)(m) == MaterialShown(m, keyword, category);
    }
    r
  }

  /** The material box: `save` (material must exist, then the user) appends the id when
      absent, `unsave` (user only) drops it when present; the reply is the box size. */
  function MaterialBoxStep(users: seq<User>, materials: seq<Material>, materialId: int, userId: UserId, save: bool)
    : (r: Outcome<(seq<User>, int)>)
    ensures save && !(exists m :: m in materials && m.id == materialId) ==> r == Err(404, "Material not found")
    ensures r.Ok? <==> (save ==> exists m :: m in materials && m.id == materialId) && UserExists(users, userId)
    ensures r.Err? && (save ==> exists m :: m in materials && m.id == materialId) ==> r == Err(404, "User not found")
    ensures r.Ok? ==> var i := FindUser(users, userId).value;
      var (users', n) := r.value;
      var after := AddOrRemove(users[i].materialBox, materialId, save);
      users' == users[i := users[i].(materialBox := after)] && n == |after|
  {
    if save && !(exists m :: m in materials && m.id == materialId) then Err(404, "Material not found")
    else
      var u := FindUser(users, userId);
      if u.None? then Err(404, "User not found")
      else
        var box := AddOrRemove(users[u.value].materialBox, materialId, save);
        Ok((users[u.value := users[u.value].(materialBox := box)], |box|))
  }

  method MaterialBox(db: Store, materialId: int, userId: UserId, save: bool) returns (r: Outcome<int>)
    modifies db`users
    ensures Settles(MaterialBoxStep(old(db.users), db.materials, materialId, userId, save), old(db.users), db.users, r)
  {
    if save && !(exists m :: m in db.materials && m.id == materialId) {
      return Err(404, "Material not found");
    }
    var u := FindUser(db.users, userId);
    if u.None? {
      return Err(404, "User not found");
    }
    var user := db.users[u.value];
    var box := user.materialBox;
    if save {
      if materialId !in box {
        box := box + [materialId];
      }
    } else if materialId in box {
      box := RemoveFirst(box, materialId);
    }
    db.users := db.users[u.value := user.(materialBox := box)];
    r := Ok(|box|);
  }

  /** The box stays duplicate-free (the table stays valid), and saving a material that was
      not in the box, then unsaving it, restores the table. */
  lemma MaterialBoxRoundTrip(users: seq<User>, materials: seq<Material>, materialId: int, userId: UserId)
    requires ValidUsers(users)
    requires MaterialBoxStep(users, materials, materialId, userId, true).Ok?
    requires materialId !in users[FindUser(users, userId).value].materialBox
    ensures var users' := MaterialBoxStep(users, materials, materialId, userId, true).value.0;
      && ValidUsers(users')
      && MaterialBoxStep(users', materials, materialId, userId, false) == Ok((users, |users[FindUser(users, userId).value].materialBox|))
  {
    var i := FindUser(users, userId).value;
    var users' := MaterialBoxStep(users, materials, materialId, userId, true).value.0;
    SameIdsUpdate(users, i, users'[i]);
    SameIdsValid(users, users');
    SameIdsFind(users, users', userId);
    AddThenRemove(users[i].materialBox, materialId);
    assert users'[i := users[i]] == users;
  }

  function InBox(box: seq<int>): Material -> bool
  {
    (m: Material) => m.id in box
  }

  /** `GET /users/{user_id}/material_box`: the user's saved materials, highest id first. */
  function ListMaterialBox(users: seq<User>, materials: seq<Material>, userId: UserId): (r: Outcome<seq<Material>>)
    ensures r.Err? <==> !UserExists(users, userId)
    ensures r.Err? ==> r == Err(404, "User not found")
    ensures r.Ok? ==> SortedDesc(r.value, MaterialId)
    ensures r.Ok? ==> forall m :: m in r.value <==> m in materials && m.id in users[FindUser(users, userId).value].materialBox
    ensures r.Ok? ==> multiset(r.value) == multiset(Filter(materials, InBox(users[FindUser(users, userId).value].materialBox)))
  {
    var u := FindUser(users, userId);
    if u.None? then Err(404, "User not found")
    else
      var kept := Filter(materials, InBox(users[u.value].materialBox));
      var r := SortDesc(kept, MaterialId);
      assert forall m :: m in r <==> m in multiset(kept);
      Ok(r)
  }

  // ---------------------------------------------------------------- polls

  /** The body of `POST /polls`. */
  datatype PollCreate = PollCreate(authorId: UserId, question: string, options: seq<string>)

  function PollId(p: Poll): int { p.id }

  /** `POST /polls`: only a known user (404) with the performer role (403) creates a poll;
      it starts with one empty voter list per option. */
  function CreatePollStep(users: seq<User>, polls: seq<Poll>, req: PollCreate, now: int)
    : (r: Outcome<(seq<Poll>, Poll)>)
    ensures !UserExists(users, req.authorId) ==> r == Err(404, "User not found")
    ensures r.Ok? <==> UserExists(users, req.authorId) && users[FindUser(users, req.authorId).value].role == RolePerformer
    ensures r.Err? && UserExists(users, req.authorId) ==> r == Err(403, "Only performers can create")
    ensures r.Ok? ==> var (polls', item) := r.value;
      && polls' == polls + [item]
      && item.authorId == req.authorId && item.question == req.question && item.options == req.options
      && item.createdAt == now
      && |item.votes| == |req.options| && (forall k :: 0 <= k < |item.votes| ==> item.votes[k] == [])
      && forall i :: 0 <= i < |polls| ==> polls[i].id < item.id
  {
    var u := FindUser(users, req.authorId);
    if u.None? then Err(404, "User not found")
    else if users[u.value].role != RolePerformer then Err(403, "Only performers can create")
    else
      var votes := seq(|req.options|, _ => []);
      var item := Poll(NextId(Map(polls, PollId)), req.authorId, req.question, req.options, votes, now);
      Ok((polls + [item], item))
  }

  method CreatePoll(db: Store, req: PollCreate, now: int) returns (r: Outcome<Poll>)
    modifies db`polls
    ensures Settles(CreatePollStep(db.users, old(db.polls), req, now), old(db.polls), db.polls, r)
  {
    var u := FindUser(db.users, req.authorId);
    if u.None? {
      return Err(404, "User not found");
    }
    if db.users[u.value].role != RolePerformer {
      return Err(403, "Only performers can create");
    }
    var votes := seq(|req.options|, _ => []);
    var item := Poll(NextId(Map(db.polls, PollId)), req.authorId, req.question, req.options, votes, now);
    db.polls := db.polls + [item];
    r := Ok(item);
  }

  /** Every voter list without duplicates, and no voter in two lists. */
  predicate ValidVotes(votes: seq<seq<UserId>>)
  {
    && (forall k :: 0 <= k < |votes| ==> NoDup(votes[k]))
    && (forall k, l, x :: 0 <= k < l < |votes| && x in votes[k] ==> x !in votes[l])
  }

  /** Everyone who voted. */
  function Voters(votes: seq<seq<UserId>>): set<UserId>
  {
    if votes == [] then {} else (set x | x in votes[0]) + Voters(votes[1..])
  }

  /** The sum of the counts. */
  function TotalVotes(votes: seq<seq<UserId>>): nat
  {
    if votes == [] then 0 else |votes[0]| + TotalVotes(votes[1..])
  }

  lemma {:induction false} VotersMembers(votes: seq<seq<UserId>>, x: UserId)
    ensures x in Voters(votes) <==> exists k :: 0 <= k < |votes| && x in votes[k]
  {
    if votes != [] {
      VotersMembers(votes[1..], x);
      if x in Voters(votes[1..]) {
        var k :| 0 <= k < |votes[1..]| && x in votes[1..][k];
        assert x in votes[k + 1];
      }
      forall k | 1 <= k < |votes| && x in votes[k] ensures x in Voters(votes[1..]) {
        assert x in votes[1..][k - 1];
      }
    }
  }

  /** With distinct voters, the counts add up to the number of voters. */
  lemma {:induction false} TotalIsVoters(votes: seq<seq<UserId>>)
    requires ValidVotes(votes)
    ensures TotalVotes(votes) == |Voters(votes)|
  {
    if votes != [] {
      var rest := votes[1..];
      assert ValidVotes(rest) by {
        forall k | 0 <= k < |rest| ensures NoDup(rest[k]) {
          assert rest[k] == votes[k + 1];
        }
        forall k, l, x | 0 <= k < l < |rest| && x in rest[k] ensures x !in rest[l] {
          assert rest[k] == votes[k + 1] && rest[l] == votes[l + 1];
        }
      }
      TotalIsVoters(rest);
      NoDupCard(votes[0]);
      var first := set x | x in votes[0];
      forall x | x in first ensures x !in Voters(rest) {
        VotersMembers(rest, x);
        forall k | 0 <= k < |rest| ensures x !in rest[k] {
          assert rest[k] == votes[k + 1];
        }
      }
      assert first * Voters(rest) == {};
    }
  }

  /** Each list with the voter's first occurrence removed, as `voters.remove(user_id)`. */
  function Unvoted(votes: seq<seq<UserId>>, userId: UserId): (r: seq<seq<UserId>>)
    ensures |r| == |votes|
    ensures forall k :: 0 <= k < |r| ==> r[k] == AddOrRemove(votes[k], userId, false)
  {
    seq(|votes|, k requires 0 <= k < |votes| => AddOrRemove(votes[k], userId, false))
  }

  function Counts(votes: seq<seq<UserId>>): (r: seq<int>)
    ensures |r| == |votes| && forall k :: 0 <= k < |r| ==> r[k] == |votes[k]|
  {
    seq(|votes|, k requires 0 <= k < |votes| => |votes[k]|)
  }

  /** `POST /polls/{poll_id}/vote`: the poll must exist (404), then the user (404), and the
      option must be an index of the options (400). The voter is removed from every list and
      appended to the chosen one; the reply is the count per option. A stored poll with fewer
      voter lists than options fails with an internal error, as the list index would. */
  function VotePollStep(users: seq<User>, polls: seq<Poll>, pollId: int, userId: UserId, option: int)
    : (r: Outcome<(seq<Poll>, seq<int>)>)
    ensures var i := FindFirst(polls, (p: Poll) => p.id == pollId);
      && (i.None? ==> r == Err(404, "Poll not found"))
      && (i.Some? && !UserExists(users, userId) ==> r == Err(404, "User not found"))
      && ((i.Some? && UserExists(users, userId) && !(0 <= option < |polls[i.value].options|))
            ==> r == Err(400, "Invalid option"))
      && (r.Ok? <==> i.Some? && UserExists(users, userId) && 0 <= option < |polls[i.value].options|
                     && option < |polls[i.value].votes|)
    ensures r.Ok? ==> var i := FindFirst(polls, (p: Poll) => p.id == pollId).value;
      var (polls', counts) := r.value;
      && polls' == polls[i := polls[i].(votes := Cast(polls[i].votes, userId, option))]
      && counts == Counts(polls'[i].votes)
  {
    var i := FindFirst(polls, (p: Poll) => p.id == pollId);
    if i.None? then Err(404, "Poll not found")
    else if !UserExists(users, userId) then Err(404, "User not found")
    else
      var poll := polls[i.value];
      if option < 0 || option >= |poll.options| then Err(400, "Invalid option")
      else if option >= |poll.votes| then Err(500, "Internal Server Error")
      else
        var votes := Cast(poll.votes, userId, option);
        Ok((polls[i.value := poll.(votes := votes)], Counts(votes)))
  }

  /** The voter lists after a vote: the voter taken out of every list, then appended to the
      chosen one. */
  function Cast(votes: seq<seq<UserId>>, userId: UserId, option: nat): seq<seq<UserId>>
    requires option < |votes|
  {
    var cleared := Unvoted(votes, userId);
    cleared[option := cleared[option] + [userId]]
  }

  /** After a vote the voter is in the chosen list only, the lists stay valid, the voters are
      the old ones plus this one, and the counts add up to the number of voters. */
  lemma CastValid(votes: seq<seq<UserId>>, userId: UserId, option: nat)
    requires option < |votes| && ValidVotes(votes)
    ensures var votes' := Cast(votes, userId, option);
      && ValidVotes(votes')
      && (forall k :: 0 <= k < |votes'| ==> (userId in votes'[k] <==> k == option))
      && Voters(votes') == Voters(votes) + {userId}
      && TotalVotes(votes') == |Voters(votes')|
  {
    var cleared := Unvoted(votes, userId);
    var votes' := Cast(votes, userId, option);
    forall k | 0 <= k < |votes'| ensures NoDup(votes'[k]) && (userId in votes'[k] <==> k == option) {
      assert NoDup(cleared[k]) && userId !in cleared[k];
      if k == option {
        assert votes'[k] == cleared[k] + [userId];
      }
    }
    forall k, l, x | 0 <= k < l < |votes'| && x in votes'[k] ensures x !in votes'[l] {
      if x != userId {
        assert x in votes[k];
      }
    }
    forall x ensures x in Voters(votes') <==> x in Voters(votes) + {userId} {
      VotersMembers(votes', x);
      VotersMembers(votes, x);
      if x != userId && x in Voters(votes) {
        var k :| 0 <= k < |votes| && x in votes[k];
        assert x in votes'[k];
      }
      if x in Voters(votes') && x != userId {
        var k :| 0 <= k < |votes'| && x in votes'[k];
        assert x in votes[k];
      }
      if x == userId {
        assert x in votes'[option];
      }
    }
    TotalIsVoters(votes');
  }

  method VotePoll(db: Store, pollId: int, userId: UserId, option: int) returns (r: Outcome<seq<int>>)
    modifies db`polls
    ensures Settles(VotePollStep(db.users, old(db.polls), pollId, userId, option), old(db.polls), db.polls, r)
  {
    var i := FindFirst(db.polls, (p: Poll) => p.id == pollId);
    if i.None? {
      return Err(404, "Poll not found");
    }
    if !UserExists(db.users, userId) {
      return Err(404, "User not found");
    }
    var poll := db.polls[i.value];
    if option < 0 || option >= |poll.options| {
      return Err(400, "Invalid option");
    }
    var votes := ClearVoter(poll.votes, userId);
    if option >= |votes| {
      return Err(500, "Internal Server Error");
    }
    votes := votes[option := votes[option] + [userId]];
    assert votes == Cast(poll.votes, userId, option);
    db.polls := db.polls[i.value := poll.(votes := votes)];
    r := Ok(Counts(votes));
  }

  /** The loop of `vote_poll`: `voters.remove(user_id)` on every list holding the voter. */
  method ClearVoter(votes: seq<seq<UserId>>, userId: UserId) returns (cleared: seq<seq<UserId>>)
    ensures cleared == Unvoted(votes, userId)
  {
    cleared := votes;
    for k := 0 to |votes|
      invariant |cleared| == |votes|
      invariant forall j :: 0 <= j < k ==> cleared[j] == AddOrRemove(votes[j], userId, false)
      invariant forall j :: k <= j < |votes| ==> cleared[j] == votes[j]
    {
      if userId in cleared[k] {
        cleared := cleared[k := RemoveFirst(cleared[k], userId)];
      }
    }
  }

  /** A vote keeps the poll's voter lists valid (see `CastValid`). */
  lemma VoteKeepsValid(users: seq<User>, polls: seq<Poll>, pollId: int, userId: UserId, option: int)
    requires VotePollStep(users, polls, pollId, userId, option).Ok?
    requires ValidVotes(polls[FindFirst(polls, (p: Poll) => p.id == pollId).value].votes)
    ensures var i := FindFirst(polls, (p: Poll) => p.id == pollId).value;
      var votes' := VotePollStep(users, polls, pollId, userId, option).value.0[i].votes;
      && ValidVotes(votes')
      && (forall k :: 0 <= k < |votes'| ==> (userId in votes'[k] <==> k == option))
      && Voters(votes') == Voters(polls[i].votes) + {userId}
      && TotalVotes(votes') == |Voters(votes')|
  {
    var i := FindFirst(polls, (p: Poll) => p.id == pollId).value;
    CastValid(polls[i].votes, userId, option);
  }

  // ---------------------------------------------------------------- schedules

  /** The body of `POST /schedules`. */
  datatype ScheduleCreate = ScheduleCreate(authorId: UserId, events: seq<Dict>, template: Option<string>)

  function ScheduleId(s: Schedule): int { s.id }

  /** `POST /schedules`: a known author (404) stores the events with the given template, or
      "default" when none or an empty one is given, under the next id. */
  function CreateScheduleStep(users: seq<User>, schedules: seq<Schedule>, req: ScheduleCreate, now: int)
    : (r: Outcome<(seq<Schedule>, Schedule)>)
    ensures r.Err? <==> !UserExists(users, req.authorId)
    ensures r.Err? ==> r == Err(404, "User not found")
    ensures r.Ok? ==> var (schedules', item) := r.value;
      && schedules' == schedules + [item]
      && item.authorId == req.authorId && item.events == req.events && item.createdAt == now
      && item.template == (if req.template.Some? && req.template.value != "" then req.template.value else "default")
      && item.template != ""
      && forall i :: 0 <= i < |schedules| ==> schedules[i].id < item.id
  {
    if !UserExists(users, req.authorId) then Err(404, "User not found")
    else
      var template := if req.template.Some? && req.template.value != "" then req.template.value else "default";
      var item := Schedule(NextId(Map(schedules, ScheduleId)), req.authorId, req.events, template, now);
      Ok((schedules + [item], item))
  }

  method CreateSchedule(db: Store, req: ScheduleCreate, now: int) returns (r: Outcome<Schedule>)
    modifies db`schedules
    ensures Settles(CreateScheduleStep(db.users, old(db.schedules), req, now), old(db.schedules), db.schedules, r)
  {
    if !UserExists(db.users, req.authorId) {
      return Err(404, "User not found");
    }
    var template := if req.template.Some? && req.template.value != "" then req.template.value else "default";
    var item := Schedule(NextId(Map(db.schedules, ScheduleId)), req.authorId, req.events, template, now);
    db.schedules := db.schedules + [item];
    r := Ok(item);
  }
}
