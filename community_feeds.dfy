/** `bookmarks`: the caller's bookmarked posts, without the posts of blocked or blocking
    users, without adult posts unless the caller shows them, newest first, 100 a page. */
module CommunityFeeds {
  import opened Wrappers
  import opened Lists
  import opened CommunityRecords
  import opened CommunityGuards

  const PerPage: nat := 100

  /** The users the caller must not see: those they block and those who block them. */
  function Forbidden(users: seq<User>, me: User): (ids: seq<int>)
    ensures forall id :: id in ids <==> id in me.blocking || exists u :: u in users && u.id == id && me.id in u.blocking
  {
    var blockers := Filter(users, BlocksMe(me.id));
    var ids := Map(blockers, UserIdOf);
    forall id ensures id in ids <==> exists u :: u in users && u.id == id && me.id in u.blocking {
      if id in ids {
        var k :| 0 <= k < |ids| && ids[k] == id;
        assert blockers[k] in blockers;
      }
      if exists u :: u in users && u.id == id && me.id in u.blocking {
        var u :| u in users && u.id == id && me.id in u.blocking;
        assert u in blockers;
        var k :| 0 <= k < |blockers| && blockers[k] == u;
        assert ids[k] == id;
      }
    }
    me.blocking + ids
  }

  function BlocksMe(meId: int): User -> bool
  {
    (u: User) => meId in u.blocking
  }

  function UserIdOf(u: User): int
  {
    u.id
  }

  function Bookmarked(me: User): Post -> bool
  {
    (p: Post) => p.id in me.bookmarkedPosts
  }

  function NotBy(ids: seq<int>): Post -> bool
  {
    (p: Post) => p.authorId !in ids
  }

  function NotAdult(p: Post): bool
  {
    !p.isAdult
  }

  function Created(p: Post): int
  {
    p.createdAt
  }

  /** A post belongs in the caller's bookmark list. */
  predicate Listable(users: seq<User>, me: User, p: Post)
  {
    p.id in me.bookmarkedPosts && p.authorId !in Forbidden(users, me) && (me.showAdult || !p.isAdult)
  }

  /** The query before paging, as the route builds it: the bookmarks, then (when anyone is
      forbidden) the block filter, then (unless adult posts are shown) the adult filter. */
  function Chain(users: seq<User>, posts: seq<Post>, me: User): (r: seq<Post>)
    ensures forall p :: p in r <==> p in posts && Listable(users, me, p)
  {
    var forbidden := Forbidden(users, me);
    var q1 := Filter(posts, Bookmarked(me));
    var q2 := if forbidden != [] then Filter(q1, NotBy(forbidden)) else q1;
    var q3 := if !me.showAdult then Filter(q2, NotAdult) else q2;
    q3
  }

  /** The list before paging, newest first. */
  function Ordered(users: seq<User>, posts: seq<Post>, me: User): (r: seq<Post>)
    ensures SortedDesc(r, Created)
    ensures multiset(r) == multiset(Chain(users, posts, me))
    ensures forall p :: p in r <==> p in posts && Listable(users, me, p)
  {
    var c := Chain(users, posts, me);
    var r := SortDesc(c, Created);
    assert forall p :: p in r <==> p in c by {
      forall p ensures p in r <==> p in c {
        assert p in r <==> p in multiset(r);
        assert p in c <==> p in multiset(c);
      }
    }
    r
  }

  /** Where a page starts: a page below 1 is page 1. */
  function Start(page: int): (start: nat)
    ensures page >= 1 ==> start == (page - 1) * PerPage
    ensures page < 1 ==> start == 0
  {
    if page < 1 then 0 else (page - 1) * 100
  }

  /** `paginate(page=page, per_page=100, error_out=False)`: a page below 1 is page 1, a
      page past the end is empty. */
  function Page(s: seq<Post>, page: int): (r: seq<Post>)
    ensures |r| <= PerPage
    ensures forall k :: 0 <= k < |r| ==> Start(page) + k < |s| && r[k] == s[Start(page) + k]
    ensures Start(page) < |s| ==> |r| == (if Start(page) + PerPage >= |s| then |s| - Start(page) else PerPage)
    ensures forall k :: 0 <= k < |r| ==> r[k] in s
    ensures SortedDesc(s, Created) ==> SortedDesc(r, Created)
  {
    var start := Start(page);
    if start >= |s| then []
    else if start + PerPage >= |s| then s[start..]
    else s[start..start + PerPage]
  }

  /** `bookmarks`: the three decorators, then one page of the ordered list. */
  function BookmarksPage(users: seq<User>, posts: seq<Post>, session: Option<int>, page: int): (r: Outcome<seq<Post>>)
    ensures r.Ok? <==> Admit(users, session).Ok?
    ensures r.Ok? ==> |r.value| <= PerPage
    ensures r.Ok? ==> forall k :: 0 <= k < |r.value| ==>
      r.value[k] in posts && Listable(users, Admit(users, session).value, r.value[k])
    ensures r.Ok? ==> forall i, j :: 0 <= i < j < |r.value| ==> r.value[i].createdAt >= r.value[j].createdAt
  {
    match Admit(users, session)
    case Err(code, detail) => Err(code, detail)
    case Ok(me) =>
      OrderedPage(users, posts, me, page);
      Ok(Page(Ordered(users, posts, me), page))
  }

  /** A page of the ordered list holds listable posts only, newest first. */
  lemma OrderedPage(users: seq<User>, posts: seq<Post>, me: User, page: int)
    ensures var r := Page(Ordered(users, posts, me), page);
      && |r| <= PerPage
      && (forall k :: 0 <= k < |r| ==> r[k] in posts && Listable(users, me, r[k]))
      && (forall i, j :: 0 <= i < j < |r| ==> r[i].createdAt >= r[j].createdAt)
  {
    var o := Ordered(users, posts, me);
    var r := Page(o, page);
    forall k | 0 <= k < |r| ensures r[k] in posts && Listable(users, me, r[k]) {
      assert r[k] in o;
    }
    assert forall i, j :: 0 <= i < j < |r| ==> Created(r[i]) >= Created(r[j]);
  }

  /** A page below 1 shows the first page. */
  lemma LowPageIsFirst(users: seq<User>, posts: seq<Post>, session: Option<int>, page: int)
    requires page < 1
    ensures BookmarksPage(users, posts, session, page) == BookmarksPage(users, posts, session, 1)
  {
  }

  /** Pages follow one another in time: everything on page `n` is at least as new as
      everything on page `n + 1`. */
  lemma PagesInOrder(users: seq<User>, posts: seq<Post>, session: Option<int>, n: int, a: Post, b: Post)
    requires n >= 1 && BookmarksPage(users, posts, session, n).Ok?
    requires a in BookmarksPage(users, posts, session, n).value
    requires b in BookmarksPage(users, posts, session, n + 1).value
    ensures a.createdAt >= b.createdAt
  {
    var me := Admit(users, session).value;
    var o := Ordered(users, posts, me);
    var ra := Page(o, n);
    var rb := Page(o, n + 1);
    var i :| 0 <= i < |ra| && ra[i] == a;
    var j :| 0 <= j < |rb| && rb[j] == b;
    assert Start(n + 1) == Start(n) + 100;
    assert ra[i] == o[Start(n) + i];
    assert rb[j] == o[Start(n + 1) + j];
  }

  /** Every listable post shows up on some page. */
  lemma EveryBookmarkPaged(users: seq<User>, posts: seq<Post>, session: Option<int>, p: Post)
    requires Admit(users, session).Ok?
    requires p in posts && Listable(users, Admit(users, session).value, p)
    ensures exists n :: 1 <= n && p in BookmarksPage(users, posts, session, n).value
  {
    var me := Admit(users, session).value;
    var o := Ordered(users, posts, me);
    var i :| 0 <= i < |o| && o[i] == p;
    var n := OnPage(o, i);
    assert BookmarksPage(users, posts, session, n).value == Page(o, n);
  }

  /** Position `i` of a list lies on page `i / 100 + 1`. */
  lemma OnPage(s: seq<Post>, i: nat) returns (n: int)
    requires i < |s|
    ensures 1 <= n && s[i] in Page(s, n)
  {
    var q := i / 100;
    assert q * 100 <= i < q * 100 + 100;
    assert Start(q + 1) == q * 100;
    n := q + 1;
    var r := Page(s, n);
    assert i - q * 100 < |r|;
    assert r[i - q * 100] == s[i];
  }

  /** The `if forbidden_ids:` guard changes nothing: filtering on an empty list of authors
      keeps every post. */
  lemma ForbiddenGuardRedundant(s: seq<Post>)
    ensures Filter(s, NotBy([])) == s
  {
    FilterAll(s, NotBy([]));
  }
}
