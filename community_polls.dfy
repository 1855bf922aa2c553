/** `vote`: a signed-in user votes for one option of a poll, at most once per poll. */
module CommunityPolls {
  import opened Wrappers
  import opened CommunityRecords
  import opened CommunityGuards

  /** What the route tells the voter: the poll was already voted in, or the vote for the
      option (named by its text) was recorded. */
  datatype VoteReply = AlreadyVoted(pollId: int) | Voted(pollId: int, text: string)

  /** The user has a vote on some option of the poll: the join of votes and options. */
  predicate VotedIn(votes: seq<Vote>, options: seq<PollOption>, userId: int, pollId: int)
  {
    exists i, k :: 0 <= i < |votes| && 0 <= k < |options| && votes[i].userId == userId
      && options[k].id == votes[i].optionId && options[k].pollId == pollId
  }

  /** Two option ids belong to the same poll. */
  predicate SamePoll(options: seq<PollOption>, a: int, b: int)
  {
    exists k, l :: 0 <= k < |options| && 0 <= l < |options| && options[k].id == a && options[l].id == b
      && options[k].pollId == options[l].pollId
  }

  /** No user has two votes in one poll. */
  predicate OneVotePerPoll(votes: seq<Vote>, options: seq<PollOption>)
  {
    forall i, j :: 0 <= i < j < |votes| && votes[i].userId == votes[j].userId ==>
      !SamePoll(options, votes[i].optionId, votes[j].optionId)
  }

  predicate UniqueOptionIds(options: seq<PollOption>)
  {
    forall k, l :: 0 <= k < l < |options| ==> options[k].id != options[l].id
  }

  /** The route, parameterised by whether the names it uses are bound: as written the
      module imports `Poll`, `PollChoice` and `PollVote` but uses `PollOption` and `Vote`,
      so the first lookup raises `NameError`. */
  function VoteFlow(users: seq<User>, options: seq<PollOption>, votes: seq<Vote>, session: Option<int>,
                    optionId: int, namesBound: bool)
    : (r: Outcome<(seq<Vote>, VoteReply)>)
  {
    match Admit(users, session)
    case Err(code, detail) => Err(code, detail)
    case Ok(me) =>
      if !namesBound then Err(500, "NameError: name 'PollOption' is not defined")
      else
        match FindOption(options, optionId)
        case None => Err(404, "Not Found")
        case Some(k) =>
          var option := options[k];
          if VotedIn(votes, options, me.id, option.pollId) then Ok((votes, AlreadyVoted(option.pollId)))
          else Ok((votes + [Vote(me.id, optionId)], Voted(option.pollId, option.text)))
  }

  /** `vote` as written (poll_routes.py). */
  function VoteAsWritten(users: seq<User>, options: seq<PollOption>, votes: seq<Vote>, session: Option<int>, optionId: int)
    : Outcome<(seq<Vote>, VoteReply)>
  {
    VoteFlow(users, options, votes, session, optionId, false)
  }

  /** As written, every request that gets past the decorators fails, and no vote is ever
      recorded. */
  lemma VoteAsWrittenFails(users: seq<User>, options: seq<PollOption>, votes: seq<Vote>, session: Option<int>, optionId: int)
    requires Admit(users, session).Ok?
    ensures VoteAsWritten(users, options, votes, session, optionId) == Err(500, "NameError: name 'PollOption' is not defined")
  {
  }

  /** `vote` with `PollOption` and `Vote` imported, as the body evidently intends: 404 for a
      missing option; no new vote when the user already voted on any option of the same
      poll; otherwise exactly one vote for (user, option). */
  function VoteStep(users: seq<User>, options: seq<PollOption>, votes: seq<Vote>, session: Option<int>, optionId: int)
    : (r: Outcome<(seq<Vote>, VoteReply)>)
    ensures r.Ok? ==> Admit(users, session).Ok? && FindOption(options, optionId).Some?
    ensures Admit(users, session).Ok? && FindOption(options, optionId).None? ==> r == Err(404, "Not Found")
    ensures Admit(users, session).Ok? && FindOption(options, optionId).Some? ==> r.Ok?
    ensures r.Ok? ==>
      var me := Admit(users, session).value;
      var option := options[FindOption(options, optionId).value];
      && (VotedIn(votes, options, me.id, option.pollId) ==> r.value == (votes, AlreadyVoted(option.pollId)))
      && (!VotedIn(votes, options, me.id, option.pollId) ==>
            r.value == (votes + [Vote(me.id, optionId)], Voted(option.pollId, option.text)))
  {
    VoteFlow(users, options, votes, session, optionId, true)
  }

  /** After an admitted vote on an existing option the user has a vote in that poll,
      whichever way the call went. */
  lemma VotedAfterwards(users: seq<User>, options: seq<PollOption>, votes: seq<Vote>, session: Option<int>, optionId: int)
    requires Admit(users, session).Ok? && FindOption(options, optionId).Some?
    ensures var k := FindOption(options, optionId).value;
      VotedIn(VoteStep(users, options, votes, session, optionId).value.0, options, session.value, options[k].pollId)
  {
    var me := Admit(users, session).value;
    var k := FindOption(options, optionId).value;
    var votes' := VoteStep(users, options, votes, session, optionId).value.0;
    if !VotedIn(votes, options, me.id, options[k].pollId) {
      assert votes'[|votes|] == Vote(me.id, optionId);
    }
  }

  /** Voting keeps every user at one vote per poll. */
  lemma VoteKeepsOnePerPoll(users: seq<User>, options: seq<PollOption>, votes: seq<Vote>, session: Option<int>, optionId: int)
    requires UniqueOptionIds(options)
    requires OneVotePerPoll(votes, options)
    requires VoteStep(users, options, votes, session, optionId).Ok?
    ensures OneVotePerPoll(VoteStep(users, options, votes, session, optionId).value.0, options)
  {
    var me := Admit(users, session).value;
    var k := FindOption(options, optionId).value;
    var votes' := VoteStep(users, options, votes, session, optionId).value.0;
    if !VotedIn(votes, options, me.id, options[k].pollId) {
      forall i, j | 0 <= i < j < |votes'| && votes'[i].userId == votes'[j].userId
        ensures !SamePoll(options, votes'[i].optionId, votes'[j].optionId)
      {
        if j == |votes| {
          assert votes'[j] == Vote(me.id, optionId) && votes'[i] == votes[i];
          forall a, b | (0 <= a < |options| && 0 <= b < |options| && options[a].id == votes[i].optionId
                         && options[b].id == optionId)
            ensures options[a].pollId != options[b].pollId
          {
            assert b == k;
            assert votes[i].userId == me.id;
          }
        } else {
          assert votes'[i] == votes[i] && votes'[j] == votes[j];
        }
      }
    }
  }

  method CastVote(site: Site, session: Option<int>, optionId: int) returns (r: Outcome<VoteReply>)
    modifies site`votes
    ensures Settles(VoteStep(site.users, site.options, old(site.votes), session, optionId), old(site.votes), site.votes, r)
  {
    var admitted := Admit(site.users, session);
    if admitted.Err? {
      return Err(admitted.status, admitted.detail);
    }
    var found := FindOption(site.options, optionId);
    if found.None? {
      return Err(404, "Not Found");
    }
    var option := site.options[found.value];
    if VotedIn(site.votes, site.options, admitted.value.id, option.pollId) {
      return Ok(AlreadyVoted(option.pollId));
    }
    site.votes := site.votes + [Vote(admitted.value.id, optionId)];
    r := Ok(Voted(option.pollId, option.text));
  }
}
