/** The user routes of the backend: registration, login, the follow / interest / block
    graph, profile visibility, profile merges and the user searches.
    Routes that change the users table are methods on the `Store`, each bound by its
    `ensures` to a transition function over the table; the lemmas are about those
    functions. Read-only routes are functions over the tables, or methods with the
    source's loops. */
module Users {
  import opened Wrappers
  import opened Lists
  import opened Records
  import opened Utils

  // ---------------------------------------------------------------- register / login

  /** The record `register` stores: the request's fields, an empty profile of each kind,
      empty relation lists, no report points and no semiban. */
  function NewUser(email: string, userId: UserId, username: string, password: string, role: string, now: int): User
  {
    User(email, userId, username, password, role, now, map[], map[], map[],
         [], [], [], [], [], [], 0, NotSet, [], [])
  }

  /** A record in the state `register` leaves it in. */
  predicate Blank(u: User)
  {
    && u.profile == map[] && u.collabProfile == map[] && u.creatorProfile == map[]
    && u.followers == [] && u.following == [] && u.interested == [] && u.bookmarks == []
    && u.notifications == [] && u.achievements == [] && u.blocks == [] && u.materialBox == []
    && u.reportPoints == 0 && u.semibanUntil == NotSet
  }

  function RegisterStep(users: seq<User>, email: string, userId: UserId, username: string,
                        password: string, role: string, now: int): (r: Outcome<(seq<User>, string)>)
    ensures role !in AllowedRoles ==> r == Err(400, "Invalid role")
    ensures role in AllowedRoles && UserExists(users, userId) ==> r == Err(400, "User ID already exists")
    ensures r.Ok? <==> role in AllowedRoles && !UserExists(users, userId)
    ensures r.Ok? ==> |r.value.0| == |users| + 1 && r.value.0[..|users|] == users
    ensures r.Ok? ==> var u := r.value.0[|users|];
      && Blank(u) && u.userId == userId && u.email == email && u.username == username
      && u.password == password && u.role == role && u.createdAt == now
    ensures r.Ok? && ValidUsers(users) ==> ValidUsers(r.value.0)
  {
    if role !in AllowedRoles then Err(400, "Invalid role")
    else if UserExists(users, userId) then Err(400, "User ID already exists")
    else
      var users' := users + [NewUser(email, userId, username, password, role, now)];
      assert users'[..|users|] == users;
      Ok((users', "registered"))
  }

  /** `POST /register`. */
  method Register(db: Store, email: string, userId: UserId, username: string,
                  password: string, role: string, now: int) returns (r: Outcome<string>)
    modifies db`users
    ensures Settles(RegisterStep(old(db.users), email, userId, username, password, role, now), old(db.users), db.users, r)
  {
    if role !in AllowedRoles {
      return Err(400, "Invalid role");
    }
    if UserExists(db.users, userId) {
      return Err(400, "User ID already exists");
    }
    db.users := db.users + [NewUser(email, userId, username, password, role, now)];
    r := Ok("registered");
  }

  /** Once registered, a user id cannot be registered again: ids stay unique. */
  lemma RegisterTwice(users: seq<User>, email: string, userId: UserId, username: string,
                      password: string, role: string, now: int,
                      email2: string, username2: string, password2: string, role2: string, later: int)
    requires RegisterStep(users, email, userId, username, password, role, now).Ok?
    requires role2 in AllowedRoles
    ensures RegisterStep(RegisterStep(users, email, userId, username, password, role, now).value.0,
                         email2, userId, username2, password2, role2, later)
         == Err(400, "User ID already exists")
  {
    var users' := RegisterStep(users, email, userId, username, password, role, now).value.0;
    assert users'[|users|].userId == userId;
  }

  /** `POST /login`: succeeds iff some user has this id and this password. */
  method Login(users: seq<User>, userId: UserId, password: string) returns (r: Outcome<string>)
    ensures r.Ok? <==> exists i :: 0 <= i < |users| && users[i].userId == userId && users[i].password == password
    ensures r.Ok? ==> r.value == "logged in"
    ensures r.Err? ==> r == Err(401, "Invalid credentials")
  {
    var i := 0;
    while i < |users|
      invariant 0 <= i <= |users|
      invariant forall j :: 0 <= j < i ==> !(users[j].userId == userId && users[j].password == password)
    {
      if users[i].userId == userId && users[i].password == password {
        return Ok("logged in");
      }
      i := i + 1;
    }
    r := Err(401, "Invalid credentials");
  }

  // ---------------------------------------------------------------- follow / unfollow

  function FollowNote(followerId: UserId, now: int): Notification
  {
    Notification("follow", followerId, None, now)
  }

  /** Blocked in either direction. */
  predicate EitherBlocks(a: User, b: User)
  {
    b.userId in a.blocks || a.userId in b.blocks
  }

  function FollowStep(users: seq<User>, targetId: UserId, followerId: UserId, now: int): (r: Outcome<(seq<User>, string)>)
    ensures targetId == followerId ==> r == Err(400, "Cannot follow yourself")
    ensures targetId != followerId && (!UserExists(users, targetId) || !UserExists(users, followerId))
            ==> r == Err(404, "User not found")
    ensures targetId != followerId && UserExists(users, targetId) && UserExists(users, followerId)
            ==> (r.Err? <==> EitherBlocks(users[FindUser(users, targetId).value], users[FindUser(users, followerId).value]))
    ensures r.Err? && r.status == 403 ==> r.detail == "Blocked"
    ensures r.Ok? ==> SameIds(users, r.value.0) && r.value.1 == "followed"
  {
    if targetId == followerId then Err(400, "Cannot follow yourself")
    else
      var t, f := FindUser(users, targetId), FindUser(users, followerId);
      if t.None? || f.None? then Err(404, "User not found")
      else
        var target, follower := users[t.value], users[f.value];
        if targetId in follower.blocks || followerId in target.blocks then Err(403, "Blocked")
        else
          var isNew := followerId !in target.followers;
          var target' := target.(followers := AppendIfAbsent(target.followers, followerId),
                                 notifications := if isNew then target.notifications + [FollowNote(followerId, now)]
                                                  else target.notifications);
          var follower' := follower.(following := AppendIfAbsent(follower.following, targetId));
          SameIdsUpdate(users, t.value, target');
          SameIdsUpdate(users[t.value := target'], f.value, follower');
          Ok((users[t.value := target'][f.value := follower'], "followed"))
  }

  /** A follow adds the follower to the target's followers and the target to the follower's
      following, each at most once, notifies the target only of a new follower, and leaves
      every other field and every other user as it was. */
  lemma FollowEffects(users: seq<User>, targetId: UserId, followerId: UserId, now: int)
    requires FollowStep(users, targetId, followerId, now).Ok?
    ensures var users' := FollowStep(users, targetId, followerId, now).value.0;
      var ti, fi := FindUser(users, targetId).value, FindUser(users, followerId).value;
      && ti != fi
      && users'[ti] == users[ti].(followers := users'[ti].followers, notifications := users'[ti].notifications)
      && users'[fi] == users[fi].(following := users'[fi].following)
      && users'[ti].followers == AppendIfAbsent(users[ti].followers, followerId)
      && users'[fi].following == AppendIfAbsent(users[fi].following, targetId)
      && users'[ti].notifications
         == (if followerId in users[ti].followers then users[ti].notifications
             else users[ti].notifications + [FollowNote(followerId, now)])
      && forall k :: 0 <= k < |users| && k != ti && k != fi ==> users'[k] == users[k]
  {
  }

  /** `POST /users/{target_id}/follow`. */
  method Follow(db: Store, targetId: UserId, followerId: UserId, now: int) returns (r: Outcome<string>)
    modifies db`users
    ensures Settles(FollowStep(old(db.users), targetId, followerId, now), old(db.users), db.users, r)
  {
    if targetId == followerId {
      return Err(400, "Cannot follow yourself");
    }
    var t := FindUser(db.users, targetId);
    var f := FindUser(db.users, followerId);
    if t.None? || f.None? {
      return Err(404, "User not found");
    }
    var target, follower := db.users[t.value], db.users[f.value];
    if targetId in follower.blocks || followerId in target.blocks {
      return Err(403, "Blocked");
    }
    var followers := target.followers;
    var following := follower.following;
    var isNew := false;
    if followerId !in followers {
      followers := followers + [followerId];
      isNew := true;
    }
    if targetId !in following {
      following := following + [targetId];
    }
    var notes := target.notifications;
    if isNew {
      notes := notes + [FollowNote(followerId, now)];
    }
    target := target.(followers := followers, notifications := notes);
    follower := follower.(following := following);
    db.users := db.users[t.value := target][f.value := follower];
    r := Ok("followed");
  }

  /** Follow keeps the table invariant; afterwards each edge is stored exactly once. */
  lemma FollowKeepsValid(users: seq<User>, targetId: UserId, followerId: UserId, now: int)
    requires ValidUsers(users)
    requires FollowStep(users, targetId, followerId, now).Ok?
    ensures var users' := FollowStep(users, targetId, followerId, now).value.0;
      && ValidUsers(users')
      && Count(users'[FindUser(users, targetId).value].followers, followerId) == 1
      && Count(users'[FindUser(users, followerId).value].following, targetId) == 1
  {
    var users' := FollowStep(users, targetId, followerId, now).value.0;
    var ti, fi := FindUser(users, targetId).value, FindUser(users, followerId).value;
    FollowEffects(users, targetId, followerId, now);
    forall k | 0 <= k < |users'| ensures WellFormed(users'[k]) {
      assert WellFormed(users[k]);
    }
    SameIdsValid(users, users');
    CountUnique(users'[ti].followers, followerId);
    CountUnique(users'[fi].following, targetId);
  }

  /** Following twice is following once: the second call stores nothing new and sends no
      second notification. */
  lemma FollowIdempotent(users: seq<User>, targetId: UserId, followerId: UserId, now: int, later: int)
    requires FollowStep(users, targetId, followerId, now).Ok?
    ensures var users' := FollowStep(users, targetId, followerId, now).value.0;
      FollowStep(users', targetId, followerId, later) == Ok((users', "followed"))
  {
    var users' := FollowStep(users, targetId, followerId, now).value.0;
    FollowEffects(users, targetId, followerId, now);
    SameIdsFind(users, users', targetId);
    SameIdsFind(users, users', followerId);
    var ti, fi := FindUser(users, targetId).value, FindUser(users, followerId).value;
    assert users'[ti].blocks == users[ti].blocks && users'[fi].blocks == users[fi].blocks;
    FollowAgain(users', targetId, followerId, later, ti, fi);
  }

  /** A follow whose two edges are already stored changes nothing. */
  lemma FollowAgain(users: seq<User>, targetId: UserId, followerId: UserId, now: int, ti: nat, fi: nat)
    requires targetId != followerId
    requires FindUser(users, targetId) == Some(ti) && FindUser(users, followerId) == Some(fi)
    requires targetId !in users[fi].blocks && followerId !in users[ti].blocks
    requires followerId in users[ti].followers && targetId in users[fi].following
    ensures FollowStep(users, targetId, followerId, now) == Ok((users, "followed"))
  {
    assert users[ti].(followers := users[ti].followers, notifications := users[ti].notifications) == users[ti];
    assert users[fi].(following := users[fi].following) == users[fi];
    assert users[ti := users[ti]][fi := users[fi]] == users;
  }

  function UnfollowStep(users: seq<User>, targetId: UserId, followerId: UserId): (r: Outcome<(seq<User>, string)>)
    ensures r.Err? <==> !UserExists(users, targetId) || !UserExists(users, followerId)
    ensures r.Err? ==> r == Err(404, "User not found")
    ensures r.Ok? ==> SameIds(users, r.value.0) && r.value.1 == "unfollowed"
    ensures r.Ok? ==> var ti, fi := FindUser(users, targetId).value, FindUser(users, followerId).value;
      && r.value.0[ti].followers == RemoveFirst(users[ti].followers, followerId)
      && r.value.0[fi].following == RemoveFirst(users[fi].following, targetId)
      && r.value.0[ti] == users[ti].(followers := r.value.0[ti].followers, following := r.value.0[ti].following)
      && r.value.0[fi] == users[fi].(followers := r.value.0[fi].followers, following := r.value.0[fi].following)
      && forall k :: 0 <= k < |users| && k != ti && k != fi ==> r.value.0[k] == users[k]
  {
    var t, f := FindUser(users, targetId), FindUser(users, followerId);
    if t.None? || f.None? then Err(404, "User not found")
    else
      // The two lookups may find the same record (a user unfollowing themselves):
      // the second update reads the record the first one wrote.
      var target := users[t.value];
      var users1 := users[t.value := target.(followers := RemoveFirst(target.followers, followerId))];
      var follower := users1[f.value];
      var users2 := users1[f.value := follower.(following := RemoveFirst(follower.following, targetId))];
      SameIdsUpdate(users, t.value, users1[t.value]);
      SameIdsUpdate(users1, f.value, users2[f.value]);
      Ok((users2, "unfollowed"))
  }

  /** `POST /users/{target_id}/unfollow`. */
  method Unfollow(db: Store, targetId: UserId, followerId: UserId) returns (r: Outcome<string>)
    modifies db`users
    ensures Settles(UnfollowStep(old(db.users), targetId, followerId), old(db.users), db.users, r)
  {
    var t := FindUser(db.users, targetId);
    var f := FindUser(db.users, followerId);
    if t.None? || f.None? {
      return Err(404, "User not found");
    }
    var target := db.users[t.value];
    var followers := target.followers;
    if followerId in followers {
      followers := RemoveFirst(followers, followerId);
    }
    db.users := db.users[t.value := target.(followers := followers)];
    var follower := db.users[f.value];
    var following := follower.following;
    if targetId in following {
      following := RemoveFirst(following, targetId);
    }
    db.users := db.users[f.value := follower.(following := following)];
    r := Ok("unfollowed");
  }

  /** After unfollow neither edge is stored and the table invariant holds. */
  lemma UnfollowRemovesEdges(users: seq<User>, targetId: UserId, followerId: UserId)
    requires ValidUsers(users)
    requires UnfollowStep(users, targetId, followerId).Ok?
    ensures var users' := UnfollowStep(users, targetId, followerId).value.0;
      var ti, fi := FindUser(users, targetId).value, FindUser(users, followerId).value;
      && ValidUsers(users')
      && followerId !in users'[ti].followers && targetId !in users'[fi].following
  {
    var users' := UnfollowStep(users, targetId, followerId).value.0;
    var ti, fi := FindUser(users, targetId).value, FindUser(users, followerId).value;
    assert WellFormed(users[ti]) && WellFormed(users[fi]);
    RemoveFirstNoDup(users[ti].followers, followerId);
    RemoveFirstNoDup(users[fi].following, targetId);
    forall k | 0 <= k < |users'| ensures WellFormed(users'[k]) {
      assert WellFormed(users[k]);
    }
    SameIdsValid(users, users');
  }

  /** Without an edge in either list, unfollow leaves the table as it was. */
  lemma UnfollowWithoutEdge(users: seq<User>, targetId: UserId, followerId: UserId)
    requires UnfollowStep(users, targetId, followerId).Ok?
    requires followerId !in users[FindUser(users, targetId).value].followers
    requires targetId !in users[FindUser(users, followerId).value].following
    ensures UnfollowStep(users, targetId, followerId).value.0 == users
  {
    var ti := FindUser(users, targetId).value;
    assert users[ti := users[ti]] == users;
  }

  // ---------------------------------------------------------------- interest

  function InterestStep(users: seq<User>, targetId: UserId, userId: UserId): (r: Outcome<(seq<User>, string)>)
    ensures targetId == userId ==> r == Err(400, "Cannot interest yourself")
    ensures targetId != userId ==> (r.Err? <==> !UserExists(users, targetId) || !UserExists(users, userId))
    ensures targetId != userId && r.Err? ==> r == Err(404, "User not found")
    ensures r.Ok? ==> var ti := FindUser(users, targetId).value;
      && SameIds(users, r.value.0) && r.value.1 == "interested"
      && r.value.0 == users[ti := users[ti].(interested := AppendIfAbsent(users[ti].interested, userId))]
  {
    if targetId == userId then Err(400, "Cannot interest yourself")
    else
      var t, q := FindUser(users, targetId), FindUser(users, userId);
      if t.None? || q.None? then Err(404, "User not found")
      else
        var target := users[t.value];
        Ok((users[t.value := target.(interested := AppendIfAbsent(target.interested, userId))], "interested"))
  }

  /** `POST /users/{target_id}/interest`. */
  method AddInterest(db: Store, targetId: UserId, userId: UserId) returns (r: Outcome<string>)
    modifies db`users
    ensures Settles(InterestStep(old(db.users), targetId, userId), old(db.users), db.users, r)
  {
    if targetId == userId {
      return Err(400, "Cannot interest yourself");
    }
    var t := FindUser(db.users, targetId);
    var q := FindUser(db.users, userId);
    if t.None? || q.None? {
      return Err(404, "User not found");
    }
    var target := db.users[t.value];
    var lst := target.interested;
    if userId !in lst {
      lst := lst + [userId];
    }
    db.users := db.users[t.value := target.(interested := lst)];
    r := Ok("interested");
  }

  /** `POST /users/{target_id}/uninterest`: the requester is not looked up. */
  function UninterestStep(users: seq<User>, targetId: UserId, userId: UserId): (r: Outcome<(seq<User>, string)>)
    ensures r.Err? <==> !UserExists(users, targetId)
    ensures r.Err? ==> r == Err(404, "User not found")
    ensures r.Ok? ==> var ti := FindUser(users, targetId).value;
      && r.value.1 == "uninterested"
      && r.value.0 == users[ti := users[ti].(interested := RemoveFirst(users[ti].interested, userId))]
  {
    var t := FindUser(users, targetId);
    if t.None? then Err(404, "User not found")
    else
      var target := users[t.value];
      Ok((users[t.value := target.(interested := RemoveFirst(target.interested, userId))], "uninterested"))
  }

  method RemoveInterest(db: Store, targetId: UserId, userId: UserId) returns (r: Outcome<string>)
    modifies db`users
    ensures Settles(UninterestStep(old(db.users), targetId, userId), old(db.users), db.users, r)
  {
    var t := FindUser(db.users, targetId);
    if t.None? {
      return Err(404, "User not found");
    }
    var target := db.users[t.value];
    var lst := target.interested;
    if userId in lst {
      lst := RemoveFirst(lst, userId);
    }
    db.users := db.users[t.value := target.(interested := lst)];
    r := Ok("uninterested");
  }

  /** Interest and uninterest keep the table invariant. */
  lemma InterestKeepsValid(users: seq<User>, targetId: UserId, userId: UserId)
    requires ValidUsers(users)
    ensures InterestStep(users, targetId, userId).Ok? ==> ValidUsers(InterestStep(users, targetId, userId).value.0)
    ensures UninterestStep(users, targetId, userId).Ok? ==> ValidUsers(UninterestStep(users, targetId, userId).value.0)
  {
    var ti := FindUser(users, targetId);
    if ti.Some? {
      var u := users[ti.value];
      assert WellFormed(u);
      RemoveFirstNoDup(u.interested, userId);
      var a := users[ti.value := u.(interested := AppendIfAbsent(u.interested, userId))];
      var b := users[ti.value := u.(interested := RemoveFirst(u.interested, userId))];
      SameIdsUpdate(users, ti.value, a[ti.value]);
      SameIdsUpdate(users, ti.value, b[ti.value]);
      forall k | 0 <= k < |users| ensures WellFormed(a[k]) && WellFormed(b[k]) {
        assert WellFormed(users[k]);
      }
      SameIdsValid(users, a);
      SameIdsValid(users, b);
    }
  }

  /** Uninterest undoes interest: the requester leaves the target's list, and when they
      were not interested before, the table is back where it started. */
  lemma {:induction false} InterestRoundTrip(users: seq<User>, targetId: UserId, userId: UserId)
    requires ValidUsers(users)
    requires InterestStep(users, targetId, userId).Ok?
    ensures var users' := InterestStep(users, targetId, userId).value.0;
      var ti := FindUser(users, targetId).value;
      && userId in users'[ti].interested
      && UninterestStep(users', targetId, userId).Ok?
      && userId !in UninterestStep(users', targetId, userId).value.0[ti].interested
      && (userId !in users[ti].interested ==> UninterestStep(users', targetId, userId).value.0 == users)
  {
    var users' := InterestStep(users, targetId, userId).value.0;
    var ti := FindUser(users, targetId).value;
    InterestKeepsValid(users, targetId, userId);
    SameIdsFind(users, users', targetId);
    assert WellFormed(users'[ti]);
    RemoveFirstNoDup(users'[ti].interested, userId);
    if userId !in users[ti].interested {
      RemoveFirstAppended(users[ti].interested, userId);
      assert users[ti := users[ti]] == users;
    }
  }

  // ---------------------------------------------------------------- block / unblock

  function BlockStep(users: seq<User>, targetId: UserId, userId: UserId): (r: Outcome<(seq<User>, string)>)
    ensures targetId == userId ==> r == Err(400, "Cannot block yourself")
    ensures targetId != userId ==> (r.Err? <==> !UserExists(users, targetId) || !UserExists(users, userId))
    ensures targetId != userId && r.Err? ==> r == Err(404, "User not found")
    ensures r.Ok? ==> SameIds(users, r.value.0) && r.value.1 == "blocked"
  {
    if targetId == userId then Err(400, "Cannot block yourself")
    else
      var t, m := FindUser(users, targetId), FindUser(users, userId);
      if t.None? || m.None? then Err(404, "User not found")
      else
        var target, me := users[t.value], users[m.value];
        if targetId in me.blocks then Ok((users, "blocked"))
        else
          var me' := me.(blocks := me.blocks + [targetId], following := RemoveFirst(me.following, targetId));
          var target' := target.(followers := RemoveFirst(target.followers, userId));
          SameIdsUpdate(users, m.value, me');
          SameIdsUpdate(users[m.value := me'], t.value, target');
          Ok((users[m.value := me'][t.value := target'], "blocked"))
  }

  /** A repeated block changes nothing; a first block appends the target to the blocker's
      blocks, drops the blocker's follow of the target and the target's record of that
      follower, and touches no other field and no other user. */
  lemma BlockChanges(users: seq<User>, targetId: UserId, userId: UserId)
    requires BlockStep(users, targetId, userId).Ok?
    ensures var users' := BlockStep(users, targetId, userId).value.0;
      var ti, mi := FindUser(users, targetId).value, FindUser(users, userId).value;
      && ti != mi
      && (targetId in users[mi].blocks ==> users' == users)
      && (targetId !in users[mi].blocks ==>
            && users'[mi] == users[mi].(blocks := users[mi].blocks + [targetId],
                                        following := RemoveFirst(users[mi].following, targetId))
            && users'[ti] == users[ti].(followers := RemoveFirst(users[ti].followers, userId)))
      && forall k :: 0 <= k < |users| && k != ti && k != mi ==> users'[k] == users[k]
  {
  }

  /** `POST /users/{target_id}/block`. */
  method Block(db: Store, targetId: UserId, userId: UserId) returns (r: Outcome<string>)
    modifies db`users
    ensures Settles(BlockStep(old(db.users), targetId, userId), old(db.users), db.users, r)
  {
    if targetId == userId {
      return Err(400, "Cannot block yourself");
    }
    var t := FindUser(db.users, targetId);
    var m := FindUser(db.users, userId);
    if t.None? || m.None? {
      return Err(404, "User not found");
    }
    var target, me := db.users[t.value], db.users[m.value];
    var blocks := me.blocks;
    if targetId !in blocks {
      blocks := blocks + [targetId];
      var following := me.following;
      if targetId in following {
        following := RemoveFirst(following, targetId);
      }
      var followers := target.followers;
      if userId in followers {
        followers := RemoveFirst(followers, userId);
      }
      db.users := db.users[m.value := me.(blocks := blocks, following := following)]
                          [t.value := target.(followers := followers)];
    }
    r := Ok("blocked");
  }

  /** Block keeps the table invariant and stores the target once in the blocker's list; a
      first block removes the blocker's follow of the target; block leaves the target's follow of the blocker
      as it was, and from then on follow fails in both directions. */
  lemma BlockEffects(users: seq<User>, targetId: UserId, userId: UserId, now: int)
    requires ValidUsers(users)
    requires BlockStep(users, targetId, userId).Ok?
    ensures var users' := BlockStep(users, targetId, userId).value.0;
      var ti, mi := FindUser(users, targetId).value, FindUser(users, userId).value;
      && ValidUsers(users')
      && Count(users'[mi].blocks, targetId) == 1
      && (targetId !in users[mi].blocks ==> targetId !in users'[mi].following && userId !in users'[ti].followers)
      && users'[ti].following == users[ti].following && users'[mi].followers == users[mi].followers
      && FollowStep(users', targetId, userId, now) == Err(403, "Blocked")
      && FollowStep(users', userId, targetId, now) == Err(403, "Blocked")
  {
    var users' := BlockStep(users, targetId, userId).value.0;
    var ti, mi := FindUser(users, targetId).value, FindUser(users, userId).value;
    BlockChanges(users, targetId, userId);
    assert WellFormed(users[ti]) && WellFormed(users[mi]);
    RemoveFirstMembers(users[mi].following, targetId);
    RemoveFirstMembers(users[ti].followers, userId);
    if targetId !in users[mi].blocks {
      assert NoDup(users'[mi].blocks) by {
        assert users'[mi].blocks == AppendIfAbsent(users[mi].blocks, targetId);
      }
    }
    forall k | 0 <= k < |users'| ensures WellFormed(users'[k]) {
      assert WellFormed(users[k]);
    }
    SameIdsValid(users, users');
    CountUnique(users'[mi].blocks, targetId);
    SameIdsFind(users, users', targetId);
    SameIdsFind(users, users', userId);
    BlockedBothWays(users', targetId, userId, now, ti, mi);
  }

  /** Once one user blocks another, follow fails between them in either direction. */
  lemma BlockedBothWays(users: seq<User>, targetId: UserId, userId: UserId, now: int, ti: nat, mi: nat)
    requires targetId != userId
    requires FindUser(users, targetId) == Some(ti) && FindUser(users, userId) == Some(mi)
    requires targetId in users[mi].blocks
    ensures FollowStep(users, targetId, userId, now) == Err(403, "Blocked")
    ensures FollowStep(users, userId, targetId, now) == Err(403, "Blocked")
  {
  }

  /** `POST /users/{target_id}/unblock`: only the caller is looked up. */
  function UnblockStep(users: seq<User>, targetId: UserId, userId: UserId): (r: Outcome<(seq<User>, string)>)
    ensures r.Err? <==> !UserExists(users, userId)
    ensures r.Err? ==> r == Err(404, "User not found")
    ensures r.Ok? ==> var mi := FindUser(users, userId).value;
      && r.value.1 == "unblocked"
      && r.value.0 == users[mi := users[mi].(blocks := RemoveFirst(users[mi].blocks, targetId))]
  {
    var m := FindUser(users, userId);
    if m.None? then Err(404, "User not found")
    else
      var me := users[m.value];
      Ok((users[m.value := me.(blocks := RemoveFirst(me.blocks, targetId))], "unblocked"))
  }

  method Unblock(db: Store, targetId: UserId, userId: UserId) returns (r: Outcome<string>)
    modifies db`users
    ensures Settles(UnblockStep(old(db.users), targetId, userId), old(db.users), db.users, r)
  {
    var m := FindUser(db.users, userId);
    if m.None? {
      return Err(404, "User not found");
    }
    var me := db.users[m.value];
    var blocks := me.blocks;
    if targetId in blocks {
      blocks := RemoveFirst(blocks, targetId);
    }
    db.users := db.users[m.value := me.(blocks := blocks)];
    r := Ok("unblocked");
  }

  /** Unblock keeps the invariant, leaves the target out of the caller's blocks, and a
      second unblock changes nothing. */
  lemma UnblockIdempotent(users: seq<User>, targetId: UserId, userId: UserId)
    requires ValidUsers(users)
    requires UnblockStep(users, targetId, userId).Ok?
    ensures var users' := UnblockStep(users, targetId, userId).value.0;
      && ValidUsers(users')
      && targetId !in users'[FindUser(users, userId).value].blocks
      && UnblockStep(users', targetId, userId) == Ok((users', "unblocked"))
  {
    var users' := UnblockStep(users, targetId, userId).value.0;
    var mi := FindUser(users, userId).value;
    assert WellFormed(users[mi]);
    RemoveFirstMembers(users[mi].blocks, targetId);
    forall k | 0 <= k < |users'| ensures WellFormed(users'[k]) {
      assert WellFormed(users[k]);
    }
    SameIdsValid(users, users');
    SameIdsFind(users, users', userId);
    assert users'[mi := users'[mi]] == users';
  }

  // ---------------------------------------------------------------- visibility

  /** `profile.get("visibility", "public")`. */
  function Visibility(d: Dict): Json
  {
    if "visibility" in d then d["visibility"] else JStr("public")
  }

  /** `GET /users/{user_id}`: the public view of the user, with the profile emptied for a
      viewer the profile's visibility excludes. */
  function GetUser(users: seq<User>, userId: UserId, viewer: Option<UserId>): (r: Outcome<PublicUser>)
    ensures r.Err? <==> !UserExists(users, userId)
    ensures r.Err? ==> r == Err(404, "User not found")
    ensures r.Ok? ==> var u := users[FindUser(users, userId).value];
      && r.value == RemoveSensitiveFields(u).(profile := r.value.profile)
      && (viewer == Some(userId) ==> r.value.profile == u.profile)
      && (viewer != Some(userId) && Visibility(u.profile) == JStr("private") ==> r.value.profile == map[])
      && ((viewer != Some(userId) && Visibility(u.profile) == JStr("followers")
           && (viewer.None? || viewer.value !in u.followers)) ==> r.value.profile == map[])
      && (Visibility(u.profile) != JStr("private") && Visibility(u.profile) != JStr("followers") ==> r.value.profile == u.profile)
      && (viewer.Some? && viewer.value in u.followers && Visibility(u.profile) != JStr("private") ==> r.value.profile == u.profile)
  {
    var i := FindUser(users, userId);
    if i.None? then Err(404, "User not found")
    else
      var u := users[i.value];
      var result := RemoveSensitiveFields(u);
      var vis := Visibility(result.profile);
      if viewer != Some(userId) && (vis == JStr("private") || (vis == JStr("followers") && !(viewer.Some? && viewer.value in u.followers)))
      then Ok(result.(profile := map[]))
      else Ok(result)
  }

  /** `[remove_sensitive_fields(u) for u in users if keep(u)]`; every filter below reads
      public fields only, so it is stated on the public view. */
  function PublicWhere(users: seq<User>, keep: PublicUser -> bool): (r: seq<PublicUser>)
    ensures |r| <= |users|
    ensures forall p :: p in r <==> p in Map(users, RemoveSensitiveFields) && keep(p)
  {
    Filter(Map(users, RemoveSensitiveFields), keep)
  }

  /** `GET /users/{user_id}/mutual_followers`: the users who follow the target and whom
      the caller follows. */
  function MutualFollowers(users: seq<User>, userId: UserId, myId: UserId): (r: Outcome<seq<PublicUser>>)
    ensures r.Err? <==> !UserExists(users, userId) || !UserExists(users, myId)
    ensures r.Err? ==> r == Err(404, "User not found")
    ensures r.Ok? ==> var target, me := users[FindUser(users, userId).value], users[FindUser(users, myId).value];
      forall p :: p in r.value <==> p in Map(users, RemoveSensitiveFields) && p.userId in target.followers && p.userId in me.following
  {
    var t, m := FindUser(users, userId), FindUser(users, myId);
    if t.None? || m.None? then Err(404, "User not found")
    else
      var target, me := users[t.value], users[m.value];
      Ok(PublicWhere(users, (p: PublicUser) => p.userId in target.followers && p.userId in me.following))
  }

  /** `GET /users/{user_id}/followers` and `/following`: the stored users whose id is in
      the target's followers (or following) list, in table order. */
  function ListFollowers(users: seq<User>, userId: UserId, following: bool): (r: Outcome<seq<PublicUser>>)
    ensures r.Err? <==> !UserExists(users, userId)
    ensures r.Err? ==> r == Err(404, "User not found")
    ensures r.Ok? ==> var target := users[FindUser(users, userId).value];
      var ids := if following then target.following else target.followers;
      forall p :: p in r.value <==> p in Map(users, RemoveSensitiveFields) && p.userId in ids
  {
    var t := FindUser(users, userId);
    if t.None? then Err(404, "User not found")
    else
      var ids := if following then users[t.value].following else users[t.value].followers;
      Ok(PublicWhere(users, (p: PublicUser) => p.userId in ids))
  }

  /** Case-insensitive `query in user_id or query in username`. */
  predicate MatchesQuery(p: PublicUser, query: string)
  {
    Contains(Lower(p.userId), Lower(query)) || Contains(Lower(p.username), Lower(query))
  }

  /** `GET /users/search`. */
  function SearchUsers(users: seq<User>, query: string): (r: seq<PublicUser>)
    ensures forall p :: p in r <==> p in Map(users, RemoveSensitiveFields) && MatchesQuery(p, query)
  {
    PublicWhere(users, (p: PublicUser) => MatchesQuery(p, query))
  }

  /** The empty query is contained in every id, so it returns every user. */
  lemma SearchUsersEmptyQuery(users: seq<User>)
    ensures SearchUsers(users, "") == Map(users, RemoveSensitiveFields)
  {
    var all := Map(users, RemoveSensitiveFields);
    var keep := (p: PublicUser) => MatchesQuery(p, "");
    forall i | 0 <= i < |all| ensures keep(all[i]) {
      assert Lower("") == "";
      assert "" <= Lower(all[i].userId);
    }
    FilterAll(all, keep);
  }

  // ---------------------------------------------------------------- profiles

  /** The three profile dictionaries of a user, each with its own update route. */
  datatype ProfileKind = MainProfile | CollabProfile | CreatorProfile

  function ProfileOf(u: User, kind: ProfileKind): Dict
  {
    match kind
    case MainProfile => u.profile
    case CollabProfile => u.collabProfile
    case CreatorProfile => u.creatorProfile
  }

  function WithProfile(u: User, kind: ProfileKind, d: Dict): (r: User)
    ensures ProfileOf(r, kind) == d
    ensures forall k :: k != kind ==> ProfileOf(r, k) == ProfileOf(u, k)
    ensures r.userId == u.userId && r.followers == u.followers && r.achievements == u.achievements
  {
    match kind
    case MainProfile => u.(profile := d)
    case CollabProfile => u.(collabProfile := d)
    case CreatorProfile => u.(creatorProfile := d)
  }

  /** `prof.update({k: v for k, v in data.items() if v is not None})`: `data` holds the
      fields the request set, `None` for an explicit null. */
  function Merge(prof: Dict, data: map<string, Option<Json>>): (r: Dict)
    ensures forall k :: k in data && data[k].Some? ==> k in r && r[k] == data[k].value
    ensures forall k :: k in prof && !(k in data && data[k].Some?) ==> k in r && r[k] == prof[k]
    ensures forall k :: k in r ==> k in prof || (k in data && data[k].Some?)
  {
    prof + map k | k in data && data[k].Some? :: data[k].value
  }

  lemma MergeIdempotent(prof: Dict, data: map<string, Option<Json>>)
    ensures Merge(Merge(prof, data), data) == Merge(prof, data)
  {
  }

  function UpdateProfileStep(users: seq<User>, userId: UserId, kind: ProfileKind, data: map<string, Option<Json>>): (r: Outcome<(seq<User>, string)>)
    ensures r.Err? <==> !UserExists(users, userId)
    ensures r.Err? ==> r == Err(404, "User not found")
    ensures r.Ok? ==> var i := FindUser(users, userId).value;
      && r.value.1 == "updated"
      && r.value.0 == users[i := WithProfile(users[i], kind, Merge(ProfileOf(users[i], kind), data))]
  {
    var i := FindUser(users, userId);
    if i.None? then Err(404, "User not found")
    else
      var u := users[i.value];
      Ok((users[i.value := WithProfile(u, kind, Merge(ProfileOf(u, kind), data))], "updated"))
  }

  /** `PUT /users/{user_id}/profile`, `/collab_profile` and `/creator_profile`. */
  method UpdateProfile(db: Store, userId: UserId, kind: ProfileKind, data: map<string, Option<Json>>) returns (r: Outcome<string>)
    modifies db`users
    ensures Settles(UpdateProfileStep(old(db.users), userId, kind, data), old(db.users), db.users, r)
  {
    var i := 0;
    while i < |db.users|
      invariant 0 <= i <= |db.users|
      invariant forall j :: 0 <= j < i ==> db.users[j].userId != userId
    {
      if db.users[i].userId == userId {
        var u := db.users[i];
        var prof := Merge(ProfileOf(u, kind), data);
        db.users := db.users[i := WithProfile(u, kind, prof)];
        return Ok("updated");
      }
      i := i + 1;
    }
    r := Err(404, "User not found");
  }

  /** `GET /users/{user_id}/collab_profile`. */
  function GetCollabProfile(users: seq<User>, userId: UserId): (r: Outcome<Dict>)
    ensures r.Err? <==> !UserExists(users, userId)
    ensures r.Err? ==> r == Err(404, "User not found")
    ensures r.Ok? ==> exists i :: 0 <= i < |users| && users[i].userId == userId && r.value == users[i].collabProfile
                                  && forall j :: 0 <= j < i ==> users[j].userId != userId
  {
    var i := FindUser(users, userId);
    if i.None? then Err(404, "User not found") else Ok(users[i.value].collabProfile)
  }

  /** `GET /users/{user_id}/creator_profile`: the owner always sees it, anyone else only
      when its visibility is public. */
  function GetCreatorProfile(users: seq<User>, userId: UserId, viewer: Option<UserId>): (r: Outcome<Dict>)
    ensures r.Err? <==> !UserExists(users, userId)
    ensures r.Err? ==> r == Err(404, "User not found")
    ensures r.Ok? ==> var prof := users[FindUser(users, userId).value].creatorProfile;
      && (viewer == Some(userId) ==> r.value == prof)
      && (viewer != Some(userId) ==> r.value == (if Visibility(prof) == JStr("public") then prof else map[]))
  {
    var i := FindUser(users, userId);
    if i.None? then Err(404, "User not found")
    else
      var prof := users[i.value].creatorProfile;
      if viewer != Some(userId) && Visibility(prof) != JStr("public") then Ok(map[]) else Ok(prof)
  }

  /** A profile update is read back by the matching getter, with every key the request
      did not set left as it was. */
  lemma UpdateThenGet(users: seq<User>, userId: UserId, data: map<string, Option<Json>>, key: string)
    requires UpdateProfileStep(users, userId, CollabProfile, data).Ok?
    ensures var users' := UpdateProfileStep(users, userId, CollabProfile, data).value.0;
      var before := users[FindUser(users, userId).value].collabProfile;
      && GetCollabProfile(users', userId) == Ok(Merge(before, data))
      && (key in before && !(key in data && data[key].Some?) ==> key in Merge(before, data) && Merge(before, data)[key] == before[key])
      && GetCreatorProfile(users', userId, Some(userId)) == GetCreatorProfile(users, userId, Some(userId))
  {
    var users' := UpdateProfileStep(users, userId, CollabProfile, data).value.0;
    var i := FindUser(users, userId).value;
    assert SameIds(users, users');
    SameIdsFind(users, users', userId);
  }

  // ---------------------------------------------------------------- creator search

  /** `" ".join(parts)`. */
  function Join(parts: seq<string>): string
  {
    if parts == [] then ""
    else if |parts| == 1 then parts[0]
    else parts[0] + " " + Join(parts[1..])
  }

  /** What `" ".join` raises when handed a value it cannot iterate. */
  const JoinFailed: string := "TypeError: can only join an iterable"

  /** `prof.get(key, []) or []` as the strings `" ".join` takes from it: a list as is, a
      string its characters, an absent or falsy value (null, false, 0, "", an empty object)
      nothing; a non-zero number or `true` cannot be joined. A non-empty object stands for
      no words here (its keys are not modelled). */
  function Words(prof: Dict, key: string): (r: Outcome<seq<string>>)
    ensures r.Err? <==> key in prof && (prof[key] == JBool(true) || (prof[key].JInt? && prof[key].n != 0))
    ensures r.Err? ==> r == Err(500, JoinFailed)
    ensures key !in prof ==> r == Ok([])
    ensures key in prof && prof[key].JList? ==> r == Ok(prof[key].items)
  {
    if key !in prof then Ok([])
    else match prof[key]
      case JList(items) => Ok(items)
      case JStr(s) => Ok(seq(|s|, i requires 0 <= i < |s| => [s[i]]))
      case JInt(n) => if n == 0 then Ok([]) else Err(500, JoinFailed)
      case JBool(b) => if b then Err(500, JoinFailed) else Ok([])
      case _ => Ok([])
  }

  /** The text the keyword is searched in: skills, equipment and software, space
      separated; it fails when any of the three cannot be joined. */
  function CreatorText(prof: Dict): (r: Outcome<string>)
    ensures r.Err? <==> Words(prof, "skills").Err? || Words(prof, "equipment").Err? || Words(prof, "software").Err?
    ensures r.Ok? ==> r.value == Join(Words(prof, "skills").value) + " " + Join(Words(prof, "equipment").value)
                                 + " " + Join(Words(prof, "software").value)
  {
    match (Words(prof, "skills"), Words(prof, "equipment"), Words(prof, "software"))
    case (Ok(a), Ok(b), Ok(c)) => Ok(Join(a) + " " + Join(b) + " " + Join(c))
    case _ => Err(500, JoinFailed)
  }

  /** A public creator profile whose text contains the keyword, case-insensitively. */
  predicate CreatorHit(p: PublicUser, keyword: string)
  {
    var text := CreatorText(p.creatorProfile);
    Visibility(p.creatorProfile) == JStr("public") && text.Ok? && Contains(Lower(text.value), Lower(keyword))
  }

  /** A public creator profile whose text cannot be built. */
  predicate Unjoinable(p: PublicUser)
  {
    Visibility(p.creatorProfile) == JStr("public") && CreatorText(p.creatorProfile).Err?
  }

  /** `GET /creator_profiles/search`: the public creator profiles that match, in table
      order; a public profile whose words cannot be joined fails the whole request. */
  method SearchCreatorProfiles(users: seq<User>, keyword: string) returns (r: Outcome<seq<PublicUser>>)
    ensures r.Err? <==> exists k :: 0 <= k < |users| && Unjoinable(RemoveSensitiveFields(users[k]))
    ensures r.Err? ==> r == Err(500, JoinFailed)
    ensures r.Ok? ==> r.value == PublicWhere(users, (p: PublicUser) => CreatorHit(p, keyword))
    ensures r.Ok? ==> forall p :: p in r.value ==> Visibility(p.creatorProfile) == JStr("public")
  {
    var kw := Lower(keyword);
    var hit := (p: PublicUser) => CreatorHit(p, keyword);
    var found: seq<PublicUser> := [];
    for i := 0 to |users|
      invariant found == PublicWhere(users[..i], hit)
      invariant forall k :: 0 <= k < i ==> !Unjoinable(RemoveSensitiveFields(users[k]))
    {
      var u := users[i];
      var prof := u.creatorProfile;
      PublicStep(users, i, hit);
      if Visibility(prof) == JStr("public") {
        var texts := CreatorText(prof);
        if texts.Err? {
          assert Unjoinable(RemoveSensitiveFields(users[i]));
          return Err(500, JoinFailed);
        }
        if Contains(Lower(texts.value), kw) {
          var item := RemoveSensitiveFields(u);
          found := found + [item];
        }
      }
    }
    assert users[..|users|] == users;
    r := Ok(found);
  }

  /** One more user adds its public view exactly when that view is kept. */
  lemma PublicStep(users: seq<User>, i: nat, keep: PublicUser -> bool)
    requires i < |users|
    ensures PublicWhere(users[..i + 1], keep)
         == PublicWhere(users[..i], keep) + (if keep(RemoveSensitiveFields(users[i])) then [RemoveSensitiveFields(users[i])] else [])
  {
    assert users[..i + 1] == users[..i] + [users[i]];
    MapSnoc(users[..i], users[i], RemoveSensitiveFields);
    FilterSnoc(Map(users[..i], RemoveSensitiveFields), RemoveSensitiveFields(users[i]), keep);
  }

  // ---------------------------------------------------------------- bookmarks

  /** `p["id"] in ids`: the test `list_bookmarks` applies to each post. */
  function Bookmarked(ids: seq<int>): Post -> bool
  {
    (p: Post) => p.id in ids
  }

  /** The bookmarked posts, masked, newest id first. */
  function BookmarkFeed(posts: seq<Post>, bookmarks: seq<int>): (r: seq<Post>)
    ensures SortedDesc(r, (p: Post) => p.id)
    ensures forall i :: 0 <= i < |r| ==> r[i].id in bookmarks
    ensures forall p :: p in posts && p.id in bookmarks ==> Mask(p) in r
    ensures forall x :: x in r ==> exists p :: p in posts && p.id in bookmarks && x == Mask(p)
    ensures multiset(r) == multiset(Map(Filter(posts, Bookmarked(bookmarks)), Mask))
  {
    var r := SortDesc(Map(Filter(posts, Bookmarked(bookmarks)), Mask), (p: Post) => p.id);
    SortedMasked(posts, Bookmarked(bookmarks), (p: Post) => p.id);
    forall i | 0 <= i < |r| ensures r[i].id in bookmarks {
      assert r[i] in r;
      var p :| p in posts && Bookmarked(bookmarks)(p) && r[i] == Mask(p);
    }
    r
  }


  /** `GET /users/{user_id}/bookmarks`. */
  method ListBookmarks(users: seq<User>, posts: seq<Post>, userId: UserId) returns (r: Outcome<seq<Post>>)
    ensures r.Err? <==> !UserExists(users, userId)
    ensures r.Err? ==> r == Err(404, "User not found")
    ensures r.Ok? ==> r.value == BookmarkFeed(posts, users[FindUser(users, userId).value].bookmarks)
  {
    var found := FindUser(users, userId);
    if found.None? {
      return Err(404, "User not found");
    }
    var ids := users[found.value].bookmarks;
    var result := CollectMasked(posts, Bookmarked(ids));
    r := Ok(SortDesc(result, (p: Post) => p.id));
  }
}
