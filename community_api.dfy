/** The board's JSON endpoints: the mention autocomplete `search_users`, the notification
    dropdown `notifications`, and `like_comment_api`. */
module CommunityApi {
  import opened Wrappers
  import opened Lists
  import opened CommunityText
  import opened CommunityRecords
  import opened CommunitySocial

  // ---------------------------------------------------------------- search_users

  const SearchLimit: nat := 10

  /** `column.ilike('%term%')`: the term occurs in the value, ignoring case. */
  predicate ILike(value: string, term: string)
  {
    Contains(Lower(value), Lower(term))
  }

  /** The filter of `search_users`: not the admin account, the term in the handle or the
      name, and not the caller. */
  predicate Matches(u: User, meId: int, term: string)
  {
    u.username != "admin" && (ILike(u.handle, term) || ILike(u.username, term)) && u.id != meId
  }

  function MatchesFn(meId: int, term: string): User -> bool
  {
    (u: User) => Matches(u, meId, term)
  }

  /** One autocomplete entry. */
  datatype Suggestion = Suggestion(key: string, value: string, username: string, userId: string, avatar: string)

  /** `url_for('static', filename='profile_pics/' + image_file)`. */
  function AvatarUrl(imageFile: string): string
  {
    "/static/profile_pics/" + imageFile
  }

  /** The entry for a user; the avatar is only built for users that have a profile, since
      reading `user.profile.image_file` of a user without one raises. */
  function Suggest(u: User): (s: Suggestion)
    ensures s.value == u.handle && s.userId == u.handle && s.username == u.username
    ensures s.key == u.username + " (" + u.handle + ")"
    ensures u.profileImage.Some? ==> s.avatar == AvatarUrl(u.profileImage.value)
  {
    Suggestion(u.username + " (" + u.handle + ")", u.handle, u.username, u.handle,
               if u.profileImage.Some? then AvatarUrl(u.profileImage.value) else "")
  }

  const NoProfile := "AttributeError: 'NoneType' object has no attribute 'image_file'"

  /** `search_users`: nothing for an anonymous caller or a blank query; otherwise the first
      ten matching users, in table order, or a 500 when one of them has no profile. */
  function SearchUsers(users: seq<User>, session: Option<int>, q: string): (r: Outcome<seq<Suggestion>>)
    ensures Viewer(users, session).None? || Strip(q) == [] ==> r == Ok([])
    ensures r.Err? ==> r == Err(500, NoProfile)
    ensures r.Err? ==> exists u :: u in users && Matches(u, session.value, Strip(q)) && u.profileImage.None?
    ensures (Viewer(users, session).Some? &&
             forall u :: u in users && Matches(u, session.value, Strip(q)) ==> u.profileImage.Some?) ==> r.Ok?
    ensures r.Ok? ==> |r.value| <= SearchLimit
    ensures r.Ok? ==> forall k :: 0 <= k < |r.value| ==>
      exists u :: u in users && Matches(u, session.value, Strip(q)) && u.profileImage.Some? && r.value[k] == Suggest(u)
    ensures r.Ok? && Viewer(users, session).Some? && Strip(q) != [] ==>
      |r.value| == SearchLimit || forall u :: u in users && Matches(u, session.value, Strip(q)) ==> Suggest(u) in r.value
  {
    var term := Strip(q);
    var viewer := Viewer(users, session);
    if viewer.None? || term == [] then Ok([])
    else
      var found := Filter(users, MatchesFn(viewer.value.id, term));
      var t := Take(found, SearchLimit);
      SearchFacts(users, viewer.value.id, term);
      if exists k :: 0 <= k < |t| && t[k].profileImage.None? then
        Err(500, NoProfile)
      else
        var r := Map(t, Suggest);
        assert forall k :: 0 <= k < |r| ==>
          t[k] in users && Matches(t[k], session.value, term) && t[k].profileImage.Some? && r[k] == Suggest(t[k]);
        Ok(r)
  }

  /** What the first ten of the matching users give: each is a matching user, with no more
      than ten matches every match is among them, and their entries are theirs. */
  lemma SearchFacts(users: seq<User>, meId: int, term: string)
    ensures var found := Filter(users, MatchesFn(meId, term));
      var t := Take(found, SearchLimit);
      var r := Map(t, Suggest);
      && (forall k :: 0 <= k < |t| ==> t[k] in users && Matches(t[k], meId, term) && r[k] == Suggest(t[k]))
      && (|found| <= SearchLimit ==> forall u :: u in users && Matches(u, meId, term) ==> Suggest(u) in r)
  {
    var found := Filter(users, MatchesFn(meId, term));
    var t := Take(found, SearchLimit);
    var r := Map(t, Suggest);
    forall k | 0 <= k < |t| ensures t[k] in users && Matches(t[k], meId, term) {
      assert t[k] in found;
      assert MatchesFn(meId, term)(t[k]);
    }
    if |found| <= SearchLimit {
      forall u | u in users && Matches(u, meId, term) ensures Suggest(u) in r {
        assert MatchesFn(meId, term)(u);
        assert u in found;
        var k :| 0 <= k < |found| && found[k] == u;
        assert r[k] == Suggest(u);
      }
    }
  }

  /** A user never finds themself, nor the admin account (handles being unique). */
  lemma SearchExcludesSelfAndAdmin(users: seq<User>, session: Option<int>, q: string, k: nat)
    requires forall u, v :: u in users && v in users && u.handle == v.handle ==> u == v
    requires SearchUsers(users, session, q).Ok? && k < |SearchUsers(users, session, q).value|
    ensures SearchUsers(users, session, q).value[k].username != "admin"
    ensures forall u :: u in users && u.id == session.value ==> SearchUsers(users, session, q).value[k] != Suggest(u)
  {
    var r := SearchUsers(users, session, q).value;
    var me := Viewer(users, session).value.id;
    var term := Strip(q);
    var w :| w in users && Matches(w, me, term) && w.profileImage.Some? && r[k] == Suggest(w);
    forall u | u in users && u.id == session.value ensures r[k] != Suggest(u) {
      assert u.handle != w.handle;
      assert Suggest(u).value != r[k].value;
    }
  }

  /** Case does not matter: the query in upper or lower case finds the same users. */
  lemma SearchIgnoresCase(users: seq<User>, session: Option<int>, q: string)
    requires forall i :: 0 <= i < |q| ==> !IsSpace(q[i]) && !IsSpace(LowerChar(q[i]))
    ensures SearchUsers(users, session, Lower(q)) == SearchUsers(users, session, q)
  {
    LowerIdempotent(q);
    assert Strip(Lower(q)) == Lower(q) by {
      assert forall c :: c in Lower(q) ==> !IsSpace(c) by {
        forall c | c in Lower(q) ensures !IsSpace(c) {
          var i :| 0 <= i < |Lower(q)| && Lower(q)[i] == c;
        }
      }
    }
    assert Strip(q) == q;
    if Viewer(users, session).Some? && q != [] {
      var me := Viewer(users, session).value.id;
      FilterExt(users, MatchesFn(me, Lower(q)), MatchesFn(me, q));
    }
  }

  lemma {:induction false} LowerIdempotent(s: string)
    ensures |Lower(s)| == |s| && Lower(Lower(s)) == Lower(s)
  {
    if s != [] {
      LowerIdempotent(s[1..]);
    }
  }

  // ---------------------------------------------------------------- notifications

  const NotificationLimit: nat := 20

  function Ts(n: Notification): int
  {
    n.timestamp
  }

  function OwnedBy(userId: int): Notification -> bool
  {
    (n: Notification) => n.userId == userId
  }

  function UnreadFn(n: Notification): bool
  {
    !n.isRead
  }

  function ReadFn(n: Notification): bool
  {
    n.isRead
  }

  /** `a` comes no later than `b` in `order_by(is_read.asc(), timestamp.desc())`. */
  predicate NoLater(a: Notification, b: Notification)
  {
    (!a.isRead && b.isRead) || (a.isRead == b.isRead && a.timestamp >= b.timestamp)
  }

  /** Sorting keeps a property every element has. */
  lemma SortKeeps(s: seq<Notification>, read: bool)
    requires forall x :: x in s ==> x.isRead == read
    ensures forall i :: 0 <= i < |SortDesc(s, Ts)| ==> SortDesc(s, Ts)[i].isRead == read
  {
    var r := SortDesc(s, Ts);
    forall i | 0 <= i < |r| ensures r[i].isRead == read {
      assert r[i] in multiset(r);
    }
  }

  /** An unread part followed by a read part, each newest first, is in dropdown order. */
  lemma PartsOrdered(u: seq<Notification>, d: seq<Notification>)
    requires forall i :: 0 <= i < |u| ==> !u[i].isRead
    requires forall i :: 0 <= i < |d| ==> d[i].isRead
    requires SortedDesc(u, Ts) && SortedDesc(d, Ts)
    ensures forall i, j :: 0 <= i < j < |u + d| ==> NoLater((u + d)[i], (u + d)[j])
  {
    forall i, j | 0 <= i < j < |u + d| ensures NoLater((u + d)[i], (u + d)[j]) {
      if j < |u| {
        assert Ts(u[i]) >= Ts(u[j]);
      } else if i >= |u| {
        assert Ts(d[i - |u|]) >= Ts(d[j - |u|]);
      }
    }
  }

  /** The user's notifications in dropdown order: unread first, each part newest first. */
  function Ordered(mine: seq<Notification>): (r: seq<Notification>)
    ensures multiset(r) == multiset(mine)
    ensures forall i, j :: 0 <= i < j < |r| ==> NoLater(r[i], r[j])
  {
    var unread := Filter(mine, UnreadFn);
    var read := Filter(mine, ReadFn);
    PartitionMultiset(mine);
    SortKeeps(unread, false);
    SortKeeps(read, true);
    PartsOrdered(SortDesc(unread, Ts), SortDesc(read, Ts));
    SortDesc(unread, Ts) + SortDesc(read, Ts)
  }

  /** Splitting into unread and read loses nothing. */
  lemma PartitionMultiset(s: seq<Notification>)
    ensures multiset(Filter(s, UnreadFn)) + multiset(Filter(s, ReadFn)) == multiset(s)
  {
    forall x ensures (multiset(Filter(s, UnreadFn)) + multiset(Filter(s, ReadFn)))[x] == multiset(s)[x] {
      FilterCount(s, UnreadFn, x);
      FilterCount(s, ReadFn, x);
    }
  }

  /** The first `k` of an ordered list come no later than anything left out. */
  lemma TakeIsTop(o: seq<Notification>, n: Notification, k: nat)
    requires forall i, j :: 0 <= i < j < |o| ==> NoLater(o[i], o[j])
    requires n in o && n !in Take(o, k)
    ensures |Take(o, k)| == k && forall i :: 0 <= i < k ==> NoLater(Take(o, k)[i], n)
  {
    var i :| 0 <= i < |o| && o[i] == n;
    var t := Take(o, k);
    assert forall j :: 0 <= j < |t| ==> t[j] != n;
    assert |t| <= i;
  }

  /** The caller's notifications, in dropdown order. */
  function MineOrdered(notifications: seq<Notification>, userId: int): (o: seq<Notification>)
    ensures forall i, j :: 0 <= i < j < |o| ==> NoLater(o[i], o[j])
    ensures forall n :: n in o <==> n in notifications && n.userId == userId
  {
    var mine := Filter(notifications, OwnedBy(userId));
    var o := Ordered(mine);
    assert forall n :: n in o <==> n in mine by {
      forall n ensures n in o <==> n in mine {
        assert n in o <==> n in multiset(o);
        assert n in mine <==> n in multiset(mine);
      }
    }
    o
  }

  /** The notifications the dropdown shows: the first twenty of the caller's, in order. */
  function Listed(notifications: seq<Notification>, userId: int): (r: seq<Notification>)
    ensures |r| <= NotificationLimit
    ensures forall k :: 0 <= k < |r| ==> r[k] in notifications && r[k].userId == userId
    ensures forall i, j :: 0 <= i < j < |r| ==> NoLater(r[i], r[j])
    ensures forall n :: n in notifications && n.userId == userId && n !in r ==>
      |r| == NotificationLimit && forall k :: 0 <= k < |r| ==> NoLater(r[k], n)
  {
    var o := MineOrdered(notifications, userId);
    var r := Take(o, NotificationLimit);
    assert forall k :: 0 <= k < |r| ==> r[k] in o by {
      forall k | 0 <= k < |r| ensures r[k] in o {
        assert r[k] == o[k];
      }
    }
    forall n | n in notifications && n.userId == userId && n !in r
      ensures |r| == NotificationLimit && forall k :: 0 <= k < |r| ==> NoLater(r[k], n)
    {
      TakeIsTop(o, n, NotificationLimit);
    }
    r
  }

  /** With at most twenty unread notifications, every one of them is listed. */
  lemma FewUnreadAllListed(notifications: seq<Notification>, userId: int, n: Notification)
    requires n in notifications && n.userId == userId && !n.isRead
    requires |Filter(Filter(notifications, OwnedBy(userId)), UnreadFn)| <= NotificationLimit
    ensures n in Listed(notifications, userId)
  {
    var mine := Filter(notifications, OwnedBy(userId));
    var unread := Filter(mine, UnreadFn);
    var u := SortDesc(unread, Ts);
    assert n in unread;
    assert n in multiset(u);
    var i :| 0 <= i < |u| && u[i] == n;
    var o := Ordered(mine);
    assert o == MineOrdered(notifications, userId);
    assert o == u + SortDesc(Filter(mine, ReadFn), Ts);
    assert o[i] == n;
    assert Take(o, NotificationLimit)[i] == n;
  }

  /** The rows after the listed ones are marked read: a row whose id is listed. */
  function MarkedRead(notifications: seq<Notification>, ids: seq<int>): (r: seq<Notification>)
    ensures |r| == |notifications|
    ensures forall k :: 0 <= k < |r| ==> r[k] == if notifications[k].id in ids then notifications[k].(isRead := true) else notifications[k]
  {
    seq(|notifications|, k requires 0 <= k < |notifications| =>
      if notifications[k].id in ids then notifications[k].(isRead := true) else notifications[k])
  }

  /** `for n in notifications: n.is_read = True`, on the table rows. */
  method MarkRead(site: Site, ids: seq<int>)
    modifies site`notifications
    ensures site.notifications == MarkedRead(old(site.notifications), ids)
  {
    var k := 0;
    ghost var before := site.notifications;
    while k < |site.notifications|
      invariant 0 <= k <= |site.notifications| == |before|
      invariant forall j :: 0 <= j < k ==> site.notifications[j] == MarkedRead(before, ids)[j]
      invariant forall j :: k <= j < |before| ==> site.notifications[j] == before[j]
    {
      if site.notifications[k].id in ids {
        site.notifications := site.notifications[k := site.notifications[k].(isRead := true)];
      }
      k := k + 1;
    }
  }

  /** How many of the user's notifications are unread (`new_notifications()`, a model
      method outside this model, taken to count them). */
  function UnreadCount(notifications: seq<Notification>, userId: int): nat
  {
    |Filter(Filter(notifications, OwnedBy(userId)), UnreadFn)|
  }

  /** The dropdown's JSON: the listed items, shown as read, and the unread count left. */
  datatype Dropdown = Dropdown(items: seq<Notification>, unreadCount: nat)

  /** `notifications`: signed in only; the listed rows are marked read, and the reply shows
      them with the count of what is still unread. */
  function NotificationsStep(users: seq<User>, notifications: seq<Notification>, session: Option<int>)
    : (r: Outcome<(seq<Notification>, Dropdown)>)
    ensures r.Ok? <==> Viewer(users, session).Some?
    ensures r.Ok? ==>
      var listed := Listed(notifications, session.value);
      var ids := Map(listed, NotificationIdOf);
      && r.value.0 == MarkedRead(notifications, ids)
      && |r.value.1.items| == |listed| <= NotificationLimit
      && (forall k :: 0 <= k < |listed| ==> r.value.1.items[k] == listed[k].(isRead := true))
      && r.value.1.unreadCount == UnreadCount(r.value.0, session.value)
  {
    match Viewer(users, session)
    case None => Err(401, "login required")
    case Some(me) =>
      var listed := Listed(notifications, me.id);
      var notifications' := MarkedRead(notifications, Map(listed, NotificationIdOf));
      Ok((notifications', Dropdown(Map(listed, MarkAsRead), UnreadCount(notifications', me.id))))
  }

  function MarkAsRead(n: Notification): Notification
  {
    n.(isRead := true)
  }

  method Notifications(site: Site, session: Option<int>) returns (r: Outcome<Dropdown>)
    modifies site`notifications
    ensures Settles(NotificationsStep(site.users, old(site.notifications), session),
                    old(site.notifications), site.notifications, r)
  {
    var viewer := Viewer(site.users, session);
    if viewer.None? {
      return Err(401, "login required");
    }
    var listed := Listed(site.notifications, viewer.value.id);
    MarkRead(site, Map(listed, NotificationIdOf));
    r := Ok(Dropdown(Map(listed, MarkAsRead), UnreadCount(site.notifications, viewer.value.id)));
  }

  /** Opening the dropdown with at most twenty unread notifications leaves none unread. */
  lemma FewUnreadAllCleared(users: seq<User>, notifications: seq<Notification>, session: Option<int>)
    requires NotificationsStep(users, notifications, session).Ok?
    requires UnreadCount(notifications, session.value) <= NotificationLimit
    ensures NotificationsStep(users, notifications, session).value.1.unreadCount == 0
  {
    var me := session.value;
    var listed := Listed(notifications, me);
    var ids := Map(listed, NotificationIdOf);
    var after := MarkedRead(notifications, ids);
    var left := Filter(Filter(after, OwnedBy(me)), UnreadFn);
    if left != [] {
      assert left[0] in left;
      var k :| 0 <= k < |after| && after[k] == left[0];
      var n := notifications[k];
      assert n.userId == me && !n.isRead && n.id !in ids;
      FewUnreadAllListed(notifications, me, n);
      assert false;
    }
  }

  // ---------------------------------------------------------------- like_comment_api

  /** `comment.likes.count()`: how many users have the comment among their liked comments. */
  function CommentLikers(users: seq<User>, commentId: int): (n: nat)
    ensures n <= |users|
  {
    if users == [] then 0
    else (if commentId in users[0].likedComments then 1 else 0) + CommentLikers(users[1..], commentId)
  }

  /** `like_comment_api`: no decorators; 404 for a missing comment comes before the 401 for
      an anonymous caller; the caller's liked comments flip, and the reply says which way. */
  function LikeCommentStep(users: seq<User>, comments: seq<Comment>, session: Option<int>, commentId: int)
    : (r: Outcome<(seq<User>, LikeReply)>)
    ensures FindComment(comments, commentId).None? ==> r == Err(404, "Not Found")
    ensures FindComment(comments, commentId).Some? && Viewer(users, session).None? ==> r == Err(401, "Not authenticated")
    ensures FindComment(comments, commentId).Some? && Viewer(users, session).Some? ==> r.Ok?
    ensures r.Ok? ==>
      var me := Viewer(users, session).value;
      var j := Own(users, me);
      && |r.value.0| == |users|
      && (r.value.1.liked <==> commentId !in me.likedComments)
      && (r.value.1.liked ==> commentId in r.value.0[j].likedComments)
      && (NoDup(me.likedComments) ==> (commentId in r.value.0[j].likedComments <==> r.value.1.liked))
      && (forall k :: 0 <= k < |users| && k != j ==> r.value.0[k] == users[k])
      && r.value.0[j] == users[j].(likedComments := Toggle(users[j].likedComments, commentId))
      && r.value.1.likesCount == CommentLikers(r.value.0, commentId)
  {
    match FindComment(comments, commentId)
    case None => Err(404, "Not Found")
    case Some(_) =>
      match Viewer(users, session)
      case None => Err(401, "Not authenticated")
      case Some(me) =>
        var j := Own(users, me);
        var users' := users[j := users[j].(likedComments := Toggle(users[j].likedComments, commentId))];
        Ok((users', LikeReply(commentId !in users[j].likedComments, CommentLikers(users', commentId))))
  }

  method LikeComment(site: Site, session: Option<int>, commentId: int) returns (r: Outcome<LikeReply>)
    modifies site`users
    ensures Settles(LikeCommentStep(old(site.users), site.comments, session, commentId), old(site.users), site.users, r)
  {
    if FindComment(site.comments, commentId).None? {
      return Err(404, "Not Found");
    }
    var viewer := Viewer(site.users, session);
    if viewer.None? {
      return Err(401, "Not authenticated");
    }
    var j := Own(site.users, viewer.value);
    var liked := commentId !in site.users[j].likedComments;
    site.users := site.users[j := site.users[j].(likedComments := Toggle(site.users[j].likedComments, commentId))];
    r := Ok(LikeReply(liked, CommentLikers(site.users, commentId)));
  }
}
