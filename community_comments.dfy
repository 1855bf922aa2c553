/** The comment routes of the community board: `edit_comment` (keeping the old text in an
    edit history), `delete_comment`, and `mark_as_best_answer`. */
module CommunityComments {
  import opened Wrappers
  import opened Lists
  import opened CommunityRecords
  import opened CommunityGuards

  // ---------------------------------------------------------------- edit_comment

  /** `edit_comment` on POST: the decorators, then the comment must exist (404) and the caller
      must be its author or an admin (403). The old text goes to the history only when the
      text changes; the comment then holds the submitted text. The reply is the post to
      return to. */
  function EditCommentStep(users: seq<User>, comments: seq<Comment>, histories: seq<EditHistory>,
                           session: Option<int>, commentId: int, newContent: string)
    : (r: Outcome<((seq<Comment>, seq<EditHistory>), int)>)
    ensures Admit(users, session).Ok? && FindComment(comments, commentId).None? ==> r == Err(404, "Not Found")
    ensures r.Ok? ==> Admit(users, session).Ok? && FindComment(comments, commentId).Some?
    ensures r.Ok? ==> MayModify(comments[FindComment(comments, commentId).value].authorId, Admit(users, session).value)
    ensures (Admit(users, session).Ok? && FindComment(comments, commentId).Some?
             && MayModify(comments[FindComment(comments, commentId).value].authorId, Admit(users, session).value)) ==> r.Ok?
    ensures r.Ok? ==> var i := FindComment(comments, commentId).value;
      var (comments', histories') := r.value.0;
      |comments'| == |comments| && comments'[i].content == newContent && r.value.1 == comments[i].postId
      && (forall k :: 0 <= k < |comments| && k != i ==> comments'[k] == comments[k])
      && comments'[i] == comments[i].(content := newContent)
  {
    match Admit(users, session)
    case Err(code, detail) => Err(code, detail)
    case Ok(me) =>
      match FindComment(comments, commentId)
      case None => Err(404, "Not Found")
      case Some(i) =>
        var c := comments[i];
        if !MayModify(c.authorId, me) then Err(403, "Forbidden")
        else
          var histories' := if c.content != newContent then histories + [EditHistory(c.content, c.id, "Comment")] else histories;
          Ok(((comments[i := c.(content := newContent)], histories'), c.postId))
  }

  method EditComment(site: Site, session: Option<int>, commentId: int, newContent: string) returns (r: Outcome<int>)
    modifies site`comments, site`histories
    ensures Settles(EditCommentStep(site.users, old(site.comments), old(site.histories), session, commentId, newContent),
                    (old(site.comments), old(site.histories)), (site.comments, site.histories), r)
  {
    var admitted := Admit(site.users, session);
    if admitted.Err? {
      return Err(admitted.status, admitted.detail);
    }
    var found := FindComment(site.comments, commentId);
    if found.None? {
      return Err(404, "Not Found");
    }
    var c := site.comments[found.value];
    if !MayModify(c.authorId, admitted.value) {
      return Err(403, "Forbidden");
    }
    if c.content != newContent {
      site.histories := site.histories + [EditHistory(c.content, c.id, "Comment")];
    }
    site.comments := site.comments[found.value := c.(content := newContent)];
    r := Ok(c.postId);
  }

  /** A history record, holding the text before the edit, is added exactly when the text
      changes. */
  lemma EditHistoryOnChange(users: seq<User>, comments: seq<Comment>, histories: seq<EditHistory>,
                            session: Option<int>, commentId: int, newContent: string)
    requires EditCommentStep(users, comments, histories, session, commentId, newContent).Ok?
    ensures var before := comments[FindComment(comments, commentId).value];
      var histories' := EditCommentStep(users, comments, histories, session, commentId, newContent).value.0.1;
      && (before.content != newContent ==> histories' == histories + [EditHistory(before.content, commentId, "Comment")])
      && (before.content == newContent ==> histories' == histories)
  {
  }

  /** Submitting the same text again changes nothing and records no history. */
  lemma EditCommentIdempotent(users: seq<User>, comments: seq<Comment>, histories: seq<EditHistory>,
                              session: Option<int>, commentId: int, newContent: string)
    requires EditCommentStep(users, comments, histories, session, commentId, newContent).Ok?
    ensures var (comments', histories') := EditCommentStep(users, comments, histories, session, commentId, newContent).value.0;
      EditCommentStep(users, comments', histories', session, commentId, newContent)
        == Ok(((comments', histories'), comments[FindComment(comments, commentId).value].postId))
  {
    var i := FindComment(comments, commentId).value;
    var comments' := EditCommentStep(users, comments, histories, session, commentId, newContent).value.0.0;
    FindCommentUpdate(comments, i, comments'[i], commentId);
    assert comments'[i := comments'[i].(content := newContent)] == comments';
  }

  /** Replacing a comment by one with the same id leaves every lookup by that id pointing at
      the same position. */
  lemma FindCommentUpdate(comments: seq<Comment>, i: nat, c: Comment, id: int)
    requires i < |comments| && c.id == comments[i].id
    requires FindComment(comments, id) == Some(i)
    ensures FindComment(comments[i := c], id) == Some(i)
  {
    var cs := comments[i := c];
    assert forall j :: 0 <= j < i ==> cs[j].id != id;
    assert cs[i].id == id;
  }

  // ---------------------------------------------------------------- delete_comment

  /** `delete_comment`: the decorators, 404 for a missing comment, 403 unless the caller is its
      author or an admin; then the comment's row is removed. The reply is the post it was on. */
  function DeleteCommentStep(users: seq<User>, comments: seq<Comment>, session: Option<int>, commentId: int)
    : (r: Outcome<(seq<Comment>, int)>)
    ensures r.Ok? ==> Admit(users, session).Ok? && FindComment(comments, commentId).Some?
    ensures r.Ok? ==> MayModify(comments[FindComment(comments, commentId).value].authorId, Admit(users, session).value)
    ensures r.Ok? ==> var i := FindComment(comments, commentId).value;
      r.value.0 == comments[..i] + comments[i + 1..] && r.value.1 == comments[i].postId
    ensures Admit(users, session).Ok? && FindComment(comments, commentId).None? ==> r == Err(404, "Not Found")
    ensures (Admit(users, session).Ok? && FindComment(comments, commentId).Some?
             && MayModify(comments[FindComment(comments, commentId).value].authorId, Admit(users, session).value)) ==> r.Ok?
  {
    match Admit(users, session)
    case Err(code, detail) => Err(code, detail)
    case Ok(me) =>
      match FindComment(comments, commentId)
      case None => Err(404, "Not Found")
      case Some(i) =>
        if !MayModify(comments[i].authorId, me) then Err(403, "Forbidden")
        else Ok((comments[..i] + comments[i + 1..], comments[i].postId))
  }

  method DeleteComment(site: Site, session: Option<int>, commentId: int) returns (r: Outcome<int>)
    modifies site`comments
    ensures Settles(DeleteCommentStep(site.users, old(site.comments), session, commentId), old(site.comments), site.comments, r)
  {
    var admitted := Admit(site.users, session);
    if admitted.Err? {
      return Err(admitted.status, admitted.detail);
    }
    var found := FindComment(site.comments, commentId);
    if found.None? {
      return Err(404, "Not Found");
    }
    var i := found.value;
    var postId := site.comments[i].postId;
    if !MayModify(site.comments[i].authorId, admitted.value) {
      return Err(403, "Forbidden");
    }
    site.comments := site.comments[..i] + site.comments[i + 1..];
    r := Ok(postId);
  }

  /** After a delete the comment is gone and every other comment is still there. */
  lemma DeleteCommentRemovesOnlyIt(users: seq<User>, comments: seq<Comment>, session: Option<int>, commentId: int)
    requires UniqueCommentIds(comments)
    requires DeleteCommentStep(users, comments, session, commentId).Ok?
    ensures var comments' := DeleteCommentStep(users, comments, session, commentId).value.0;
      FindComment(comments', commentId).None?
      && |comments'| == |comments| - 1
      && forall c :: c in comments && c.id != commentId ==> c in comments'
  {
    var i := FindComment(comments, commentId).value;
    var comments' := comments[..i] + comments[i + 1..];
    forall j | 0 <= j < |comments'| ensures comments'[j].id != commentId {
      if j < i {
        assert comments'[j] == comments[j];
      } else {
        assert comments'[j] == comments[j + 1];
      }
    }
    forall c | c in comments && c.id != commentId ensures c in comments' {
      var k :| 0 <= k < |comments| && comments[k] == c;
      if k < i {
        assert comments'[k] == c;
      } else {
        assert k != i;
        assert comments'[k - 1] == c;
      }
    }
  }

  // ---------------------------------------------------------------- mark_as_best_answer

  /** The bulk update `filter_by(post_id=..., is_best_answer=True).update({'is_best_answer': False})`
      on one row. */
  function Cleared(c: Comment, postId: int): (c': Comment)
    ensures c'.postId == postId ==> !c'.isBestAnswer
    ensures c'.postId != postId ==> c' == c
    ensures c' == c.(isBestAnswer := c'.isBestAnswer)
  {
    if c.postId == postId && c.isBestAnswer then c.(isBestAnswer := false) else c
  }

  /** The bulk update on the whole table. */
  function ClearBest(comments: seq<Comment>, postId: int): (r: seq<Comment>)
    ensures |r| == |comments|
    ensures forall k :: 0 <= k < |r| ==> r[k] == Cleared(comments[k], postId)
  {
    seq(|comments|, k requires 0 <= k < |comments| => Cleared(comments[k], postId))
  }

  /** The bulk update as the loop over the rows that it performs. */
  method ClearBestAnswers(site: Site, postId: int)
    modifies site`comments
    ensures site.comments == ClearBest(old(site.comments), postId)
  {
    ghost var before := site.comments;
    var k := 0;
    while k < |site.comments|
      invariant 0 <= k <= |site.comments| == |before|
      invariant forall j :: 0 <= j < k ==> site.comments[j] == Cleared(before[j], postId)
      invariant forall j :: k <= j < |before| ==> site.comments[j] == before[j]
    {
      var row := site.comments[k];
      if row.postId == postId && row.isBestAnswer {
        site.comments := site.comments[k := row.(isBestAnswer := false)];
      }
      k := k + 1;
    }
  }

  /** `mark_as_best_answer`: only `login_required`; the comment must exist (404); its post's
      author or an admin may act (403 otherwise). Every best answer on the post is cleared,
      then the chosen comment is set, and the change is committed. A comment whose post row
      is missing fails as `post.author` does on None, before anything changes. Only after the
      commit is the comment's author read for the message, so a comment whose author row is
      missing leaves the new flags stored and still answers with an error. */
  function BestAnswerStep(users: seq<User>, posts: seq<Post>, comments: seq<Comment>, session: Option<int>, commentId: int)
    : (r: Outcome<(seq<Comment>, Outcome<int>)>)
    ensures r.Ok? ==> SignedIn(users, session).Ok? && FindComment(comments, commentId).Some?
    ensures r.Ok? <==>
      && SignedIn(users, session).Ok? && FindComment(comments, commentId).Some?
      && var c := comments[FindComment(comments, commentId).value];
         FindPost(posts, c.postId).Some? && MayModify(posts[FindPost(posts, c.postId).value].authorId, SignedIn(users, session).value)
    ensures SignedIn(users, session).Ok? && FindComment(comments, commentId).None? ==> r == Err(404, "Not Found")
    ensures r.Ok? ==> var i := FindComment(comments, commentId).value;
      var comments' := r.value.0;
      |comments'| == |comments| && comments'[i] == comments[i].(isBestAnswer := true)
      && (forall k :: 0 <= k < |comments| && k != i ==> comments'[k] == Cleared(comments[k], comments[i].postId))
      && (r.value.1.Ok? <==> FindUser(users, comments[i].authorId).Some?)
      && (r.value.1.Ok? ==> r.value.1.value == comments[i].postId)
  {
    match SignedIn(users, session)
    case Err(code, detail) => Err(code, detail)
    case Ok(me) =>
      match FindComment(comments, commentId)
      case None => Err(404, "Not Found")
      case Some(i) =>
        var c := comments[i];
        match FindPost(posts, c.postId)
        case None => Err(500, "AttributeError: 'NoneType' object has no attribute 'author'")
        case Some(p) =>
          if !MayModify(posts[p].authorId, me) then Err(403, "Forbidden")
          else
            var reply := if FindUser(users, c.authorId).None?
              then Err(500, "AttributeError: 'NoneType' object has no attribute 'username'")
              else Ok(c.postId);
            Ok((ClearBest(comments, c.postId)[i := c.(isBestAnswer := true)], reply))
  }

  method MarkBestAnswer(site: Site, session: Option<int>, commentId: int) returns (r: Outcome<int>)
    modifies site`comments
    ensures SettlesCommitted(BestAnswerStep(site.users, site.posts, old(site.comments), session, commentId),
                             old(site.comments), site.comments, r)
  {
    var signedIn := SignedIn(site.users, session);
    if signedIn.Err? {
      return Err(signedIn.status, signedIn.detail);
    }
    var found := FindComment(site.comments, commentId);
    if found.None? {
      return Err(404, "Not Found");
    }
    var i := found.value;
    var c := site.comments[i];
    var p := FindPost(site.posts, c.postId);
    if p.None? {
      return Err(500, "AttributeError: 'NoneType' object has no attribute 'author'");
    }
    if !MayModify(site.posts[p.value].authorId, signedIn.value) {
      return Err(403, "Forbidden");
    }
    ClearBestAnswers(site, c.postId);
    site.comments := site.comments[i := c.(isBestAnswer := true)];
    if FindUser(site.users, c.authorId).None? {
      return Err(500, "AttributeError: 'NoneType' object has no attribute 'username'");
    }
    r := Ok(c.postId);
  }

  /** After `mark_as_best_answer` the chosen comment is the one best answer of its post, and
      comments on other posts are untouched. */
  lemma BestAnswerUnique(users: seq<User>, posts: seq<Post>, comments: seq<Comment>, session: Option<int>, commentId: int)
    requires BestAnswerStep(users, posts, comments, session, commentId).Ok?
    ensures var i := FindComment(comments, commentId).value;
      var postId := comments[i].postId;
      var comments' := BestAnswerStep(users, posts, comments, session, commentId).value.0;
      && (forall k :: 0 <= k < |comments'| && comments'[k].postId == postId ==> (comments'[k].isBestAnswer <==> k == i))
      && (forall k :: 0 <= k < |comments'| && comments'[k].postId != postId ==> comments'[k] == comments[k])
  {
  }
}
