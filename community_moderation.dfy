/** `report` of the community board: a signed-in user reports a post or a comment; the
    author of the target collects danger points weighted by the two roles, and is banned
    automatically once the points reach 15. */
module CommunityModeration {
  import opened Wrappers
  import opened Lists
  import opened CommunityRecords
  import opened CommunityGuards

  const BanThreshold: int := 15

  /** The roles that are not fans: performers and workers. */
  predicate IsStaffRole(role: string)
  {
    role == "creator" || role == "vtuber"
  }

  /** Points for one report: 5 when a creator or vtuber reports a fan, 1 when a fan reports a
      creator or vtuber, 2 for every other pair of roles. */
  function Points(reporterRole: string, reportedRole: string): (p: int)
    ensures IsStaffRole(reporterRole) && reportedRole == "fan" ==> p == 5
    ensures reporterRole == "fan" && IsStaffRole(reportedRole) ==> p == 1
    ensures (!(IsStaffRole(reporterRole) && reportedRole == "fan")
             && !(reporterRole == "fan" && IsStaffRole(reportedRole))) ==> p == 2
  {
    if IsStaffRole(reporterRole) && reportedRole == "fan" then 5
    else if reporterRole == "fan" && IsStaffRole(reportedRole) then 1
    else 2
  }

  /** `user.danger_points or 0`. */
  function Danger(u: User): int
  {
    if u.dangerPoints.Some? then u.dangerPoints.value else 0
  }

  /** Adds the points and bans at the threshold; a ban is never lifted here. */
  function Penalize(u: User, points: int): (u': User)
    ensures Danger(u') == Danger(u) + points
    ensures u'.isBanned <==> u.isBanned || Danger(u') >= BanThreshold
    ensures u' == u.(dangerPoints := u'.dangerPoints, isBanned := u'.isBanned)
  {
    var total := Danger(u) + points;
    u.(dangerPoints := Some(total), isBanned := u.isBanned || total >= BanThreshold)
  }

  /** The submitted report form: whether it validates, the two optional target ids as
      `request.form.get(..., type=int)` yields them, and the text fields. */
  datatype ReportForm = ReportForm(
    valid: bool, postId: Option<int>, commentId: Option<int>, reason: string, details: string)

  /** `if post_id:`: a present, non-zero id. */
  predicate Given(id: Option<int>)
  {
    id.Some? && id.value != 0
  }

  /** Where the route redirects. */
  datatype Redirect = ToPostDetail(postId: int) | ToBoardIndex | ToReferrer

  /** The reported user and the post to return to: the post's author, or the comment's
      author and its post; neither when no target id is given. */
  function Target(users: seq<User>, posts: seq<Post>, comments: seq<Comment>, form: ReportForm)
    : (r: Outcome<(Option<User>, Option<int>)>)
    ensures r.Ok? && r.value.0.Some? ==> r.value.0.value in users
    ensures r.Ok? && r.value.0.Some? ==> Given(form.postId) || Given(form.commentId)
    ensures r.Err? <==> if Given(form.postId) then FindPost(posts, form.postId.value).None?
                        else Given(form.commentId) && FindComment(comments, form.commentId.value).None?
  {
    if Given(form.postId) then
      match FindPost(posts, form.postId.value)
      case None => Err(404, "Not Found")
      case Some(i) =>
        var author := FindUser(users, posts[i].authorId);
        Ok((if author.Some? then Some(users[author.value]) else None, Some(posts[i].id)))
    else if Given(form.commentId) then
      match FindComment(comments, form.commentId.value)
      case None => Err(404, "Not Found")
      case Some(i) =>
        var c := comments[i];
        var author := FindUser(users, c.authorId);
        Ok((if author.Some? then Some(users[author.value]) else None,
            if FindPost(posts, c.postId).Some? then Some(c.postId) else None))
    else Ok((None, None))
  }

  /** The reporter already filed a report with this reported user and these two ids. */
  predicate AlreadyReported(reports: seq<Report>, me: int, reported: int, form: ReportForm)
  {
    exists k :: 0 <= k < |reports| && reports[k].reporterId == me && reports[k].reportedUserId == reported
      && reports[k].postId == form.postId && reports[k].commentId == form.commentId
  }

  /** The final `if target_post:` redirect. As written, `target_post` is bound only inside
      the valid-form branch, so an invalid form reaches it unbound. */
  datatype Local<T> = Unbound | Bound(value: T)

  function FinalRedirect(targetPost: Local<Option<int>>): (r: Outcome<Redirect>)
    ensures targetPost.Unbound? <==> r.Err?
  {
    match targetPost
    case Unbound => Err(500, "UnboundLocalError: target_post")
    case Bound(None) => Ok(ToBoardIndex)
    case Bound(Some(p)) => Ok(ToPostDetail(p))
  }

  /** The route, parameterised by whether `target_post` is bound before the form is
      validated (`bindFirst`); the tables changed are users and reports. */
  function ReportFlow(users: seq<User>, posts: seq<Post>, comments: seq<Comment>, reports: seq<Report>,
                      session: Option<int>, form: ReportForm, bindFirst: bool)
    : (r: Outcome<((seq<User>, seq<Report>), Redirect)>)
  {
    match Admit(users, session)
    case Err(code, detail) => Err(code, detail)
    case Ok(me) =>
      if !form.valid then
        match FinalRedirect(if bindFirst then Bound(None) else Unbound)
        case Err(code, detail) => Err(code, detail)
        case Ok(to) => Ok(((users, reports), to))
      else
        match Target(users, posts, comments, form)
        case Err(code, detail) => Err(code, detail)
        case Ok((reported, targetPost)) =>
          if reported.None? || reported.value.id == me.id then Ok(((users, reports), ToReferrer))
          else
            var victim := reported.value;
            var j := FindUser(users, victim.id).value;
            var users' :=
              if AlreadyReported(reports, me.id, victim.id, form) then users
              else users[j := Penalize(users[j], Points(me.role, victim.role))];
            var record := Report(me.id, victim.id, form.postId, form.commentId, form.reason, form.details);
            Ok(((users', reports + [record]), if targetPost.Some? then ToPostDetail(targetPost.value) else ToBoardIndex))
  }

  /** `report` as written (moderation_routes.py). */
  function ReportStepAsWritten(users: seq<User>, posts: seq<Post>, comments: seq<Comment>, reports: seq<Report>,
                               session: Option<int>, form: ReportForm)
    : Outcome<((seq<User>, seq<Report>), Redirect)>
  {
    ReportFlow(users, posts, comments, reports, session, form, false)
  }

  /** `report` with `target_post` bound to None at the start, as the final redirect evidently
      intends; the rest of the model uses this one. */
  function ReportStep(users: seq<User>, posts: seq<Post>, comments: seq<Comment>, reports: seq<Report>,
                      session: Option<int>, form: ReportForm)
    : (r: Outcome<((seq<User>, seq<Report>), Redirect)>)
    ensures r.Err? ==> r.status in {401, 302, 404}
    ensures r.Ok? <==> Admit(users, session).Ok? && (!form.valid || Target(users, posts, comments, form).Ok?)
    ensures r.Ok? ==> var (users', reports') := r.value.0;
      |users'| == |users| && (reports' == reports || (|reports'| == |reports| + 1 && reports'[..|reports|] == reports))
  {
    ReportFlow(users, posts, comments, reports, session, form, true)
  }

  /** As written, every admitted request whose form does not validate fails with an
      UnboundLocalError instead of redirecting. */
  lemma InvalidFormAsWrittenFails(users: seq<User>, posts: seq<Post>, comments: seq<Comment>, reports: seq<Report>,
                                  session: Option<int>, form: ReportForm)
    requires Admit(users, session).Ok? && !form.valid
    ensures ReportStepAsWritten(users, posts, comments, reports, session, form) == Err(500, "UnboundLocalError: target_post")
  {
  }

  /** With `target_post` bound first, an invalid form changes nothing and returns to the
      board. */
  lemma InvalidFormRedirects(users: seq<User>, posts: seq<Post>, comments: seq<Comment>, reports: seq<Report>,
                             session: Option<int>, form: ReportForm)
    requires Admit(users, session).Ok? && !form.valid
    ensures ReportStep(users, posts, comments, reports, session, form) == Ok(((users, reports), ToBoardIndex))
  {
  }

  method FileReport(site: Site, session: Option<int>, form: ReportForm) returns (r: Outcome<Redirect>)
    modifies site`users, site`reports
    ensures Settles(ReportStep(old(site.users), site.posts, site.comments, old(site.reports), session, form),
                    (old(site.users), old(site.reports)), (site.users, site.reports), r)
  {
    var admitted := Admit(site.users, session);
    if admitted.Err? {
      return Err(admitted.status, admitted.detail);
    }
    var me := admitted.value;
    var targetPost: Option<int> := None;
    if !form.valid {
      return Ok(ToBoardIndex);
    }
    var target := Target(site.users, site.posts, site.comments, form);
    if target.Err? {
      return Err(target.status, target.detail);
    }
    var reported := target.value.0;
    targetPost := target.value.1;
    if reported.None? || reported.value.id == me.id {
      return Ok(ToReferrer);
    }
    var victim := reported.value;
    var j := FindUser(site.users, victim.id).value;
    if !AlreadyReported(site.reports, me.id, victim.id, form) {
      site.users := site.users[j := Penalize(site.users[j], Points(me.role, victim.role))];
    }
    site.reports := site.reports + [Report(me.id, victim.id, form.postId, form.commentId, form.reason, form.details)];
    r := if targetPost.Some? then Ok(ToPostDetail(targetPost.value)) else Ok(ToBoardIndex);
  }

  // ------------------------------------------------------------- what a report does

  /** Every ban the points call for is in place. */
  predicate BanConsistent(users: seq<User>)
  {
    forall k :: 0 <= k < |users| ==> Danger(users[k]) >= BanThreshold ==> users[k].isBanned
  }

  /** A report never lowers anyone's points, never lifts a ban, keeps every ban the points
      call for, and records a report whenever it goes through — a repeat included. */
  lemma ReportMonotone(users: seq<User>, posts: seq<Post>, comments: seq<Comment>, reports: seq<Report>,
                       session: Option<int>, form: ReportForm)
    requires ReportStep(users, posts, comments, reports, session, form).Ok?
    requires BanConsistent(users)
    ensures var (users', _) := ReportStep(users, posts, comments, reports, session, form).value.0;
      |users'| == |users| && BanConsistent(users')
      && forall k :: 0 <= k < |users| ==>
           users'[k].id == users[k].id && Danger(users'[k]) >= Danger(users[k])
           && (users[k].isBanned ==> users'[k].isBanned)
  {
    var me := Admit(users, session).value;
    var users' := ReportStep(users, posts, comments, reports, session, form).value.0.0;
    if users' != users {
      var victim := Target(users, posts, comments, form).value.0.value;
      var j := FindUser(users, victim.id).value;
      assert users' == users[j := Penalize(users[j], Points(me.role, victim.role))];
      PenalizeKeeps(users, j, Points(me.role, victim.role));
    }
  }

  /** Penalising one user by a non-negative amount raises no one's points less than
      before, lifts no ban, and keeps every ban the points call for. */
  lemma PenalizeKeeps(users: seq<User>, j: nat, points: int)
    requires j < |users| && points >= 0 && BanConsistent(users)
    ensures var users' := users[j := Penalize(users[j], points)];
      BanConsistent(users')
      && forall k :: 0 <= k < |users| ==>
           users'[k].id == users[k].id && Danger(users'[k]) >= Danger(users[k])
           && (users[k].isBanned ==> users'[k].isBanned)
  {
  }

  /** A valid report on another user's post or comment adds one record; the points rise
      by the role weight on the first such report only, and only for the reported user. */
  lemma ReportPointsOnce(users: seq<User>, posts: seq<Post>, comments: seq<Comment>, reports: seq<Report>,
                         session: Option<int>, form: ReportForm)
    requires UniqueUserIds(users)
    requires Admit(users, session).Ok?
    requires form.valid
    requires var t := Target(users, posts, comments, form);
      t.Ok? && t.value.0.Some? && t.value.0.value.id != session.value
    ensures var me := Admit(users, session).value;
      var victim := Target(users, posts, comments, form).value.0.value;
      var (users', reports') := ReportStep(users, posts, comments, reports, session, form).value.0;
      && reports' == reports + [Report(me.id, victim.id, form.postId, form.commentId, form.reason, form.details)]
      && (AlreadyReported(reports, me.id, victim.id, form) ==> users' == users)
      && (!AlreadyReported(reports, me.id, victim.id, form) ==>
            forall k :: 0 <= k < |users| ==>
              users'[k] == if users[k].id == victim.id then Penalize(users[k], Points(me.role, victim.role)) else users[k])
  {
    var victim := Target(users, posts, comments, form).value.0.value;
    var j := FindUser(users, victim.id).value;
    assert users[j] == victim;
  }

  /** A report with no target, or on one's own content, changes nothing. */
  lemma InvalidReportChangesNothing(users: seq<User>, posts: seq<Post>, comments: seq<Comment>, reports: seq<Report>,
                                    session: Option<int>, form: ReportForm)
    requires ReportStep(users, posts, comments, reports, session, form).Ok?
    requires form.valid
    requires var t := Target(users, posts, comments, form);
      t.Ok? && (t.value.0.None? || t.value.0.value.id == session.value)
    ensures ReportStep(users, posts, comments, reports, session, form) == Ok(((users, reports), ToReferrer))
  {
  }
}
