/** Viewing a post with its vote tally (posts.py). */
module Posts {
  import opened Common
  import opened Tables
  import opened Models
  import opened Utils

  /** The response (`PostViewSchema`): the post, its score and the caller's own vote. */
  datatype PostView = PostView(post: Post, interactions: nat, userVote: Option<bool>)

  function OnPost(postId: int): PostInteraction -> bool
  {
    (i: PostInteraction) => i.postId == postId
  }

  function IsUpvote(i: PostInteraction): bool
  {
    i.vote
  }

  function UpvoteOn(postId: int): PostInteraction -> bool
  {
    (i: PostInteraction) => i.postId == postId && i.vote
  }

  /** `query(PostInteraction).filter(PostInteraction.post_id == postId).all()`. */
  function InteractionsOf(table: seq<PostInteraction>, postId: int): (r: seq<PostInteraction>)
    ensures |r| <= |table|
    ensures forall i :: 0 <= i < |r| ==> r[i] in table && r[i].postId == postId
    ensures forall i :: 0 <= i < |table| && table[i].postId == postId ==> table[i] in r
  {
    Filter(table, OnPost(postId))
  }

  /** `sum([interaction.vote for interaction in interactions])`: a Python
      boolean adds 1 when true and 0 when false, so a downvote does not
      lower the score. */
  function Votes(interactions: seq<PostInteraction>): (score: nat)
    ensures score <= |interactions|
    ensures interactions == [] ==> score == 0
  {
    if interactions == [] then 0
    else (if interactions[0].vote then 1 else 0) + Votes(interactions[1..])
  }

  /** The score counts the upvotes. */
  lemma {:induction false} VotesCountsUpvotes(interactions: seq<PostInteraction>)
    ensures Votes(interactions) == |Filter(interactions, IsUpvote)|
  {
    if interactions != [] {
      VotesCountsUpvotes(interactions[1..]);
    }
  }

  /** The score reaches the number of interactions exactly when every one of them is an upvote. */
  lemma {:induction false} VotesAllUp(interactions: seq<PostInteraction>)
    ensures Votes(interactions) == |interactions| <==> forall i :: 0 <= i < |interactions| ==> interactions[i].vote
  {
    if interactions != [] {
      VotesAllUp(interactions[1..]);
      assert forall i :: 1 <= i < |interactions| ==> interactions[i] == interactions[1..][i - 1];
    }
  }

  /** Taking one interaction out of the list lowers the score by its own contribution. */
  lemma {:induction false} VotesRemove(s: seq<PostInteraction>, j: int)
    requires 0 <= j < |s|
    ensures Votes(s) == (if s[j].vote then 1 else 0) + Votes(s[..j] + s[j + 1..])
  {
    if j > 0 {
      VotesRemove(s[1..], j - 1);
      assert s[1..][..j - 1] + s[1..][j..] == (s[..j] + s[j + 1..])[1..];
    } else {
      assert s[..0] + s[1..] == s[1..];
    }
  }

  /** The score does not depend on the order of the interactions. */
  lemma {:induction false} VotesPermutation(a: seq<PostInteraction>, b: seq<PostInteraction>)
    requires multiset(a) == multiset(b)
    ensures Votes(a) == Votes(b)
    decreases |a|
  {
    if a == [] {
      assert |b| == |multiset(b)| == 0;
    } else {
      var x := a[0];
      assert x in multiset(b);
      var j :| 0 <= j < |b| && b[j] == x;
      var rest := b[..j] + b[j + 1..];
      assert b == b[..j] + [b[j]] + b[j + 1..];
      assert a == [x] + a[1..];
      assert multiset(rest) == multiset(b) - multiset{x};
      assert multiset(a[1..]) == multiset(a) - multiset{x};
      VotesPermutation(a[1..], rest);
      VotesRemove(b, j);
    }
  }

  /** Only the requested post's upvotes count toward its score. */
  lemma ScoreCountsUpvotesOnPost(table: seq<PostInteraction>, postId: int)
    ensures Votes(InteractionsOf(table, postId)) == |Filter(table, UpvoteOn(postId))|
  {
    VotesCountsUpvotes(InteractionsOf(table, postId));
    FilterFilter(table, OnPost(postId), IsUpvote, UpvoteOn(postId));
  }

  /** A new interaction changes a post's score only when it is an upvote on that post. */
  lemma ScoreAppend(table: seq<PostInteraction>, x: PostInteraction, postId: int)
    ensures Votes(InteractionsOf(table + [x], postId))
         == Votes(InteractionsOf(table, postId)) + (if x.postId == postId && x.vote then 1 else 0)
  {
    ScoreCountsUpvotesOnPost(table + [x], postId);
    ScoreCountsUpvotesOnPost(table, postId);
    FilterSnoc(table, x, UpvoteOn(postId));
  }

  /** The vote of the last interaction by `userId`, or `None` when there is none. */
  function LastVote(interactions: seq<PostInteraction>, userId: int): (r: Option<bool>)
    ensures r.Some? ==>
      exists i :: 0 <= i < |interactions| && interactions[i].userId == userId && interactions[i].vote == r.value
  {
    if interactions == [] then None
    else if interactions[|interactions| - 1].userId == userId then Some(interactions[|interactions| - 1].vote)
    else
      var prefix := interactions[..|interactions| - 1];
      assert forall i :: 0 <= i < |prefix| ==> prefix[i] == interactions[i];
      LastVote(prefix, userId)
  }

  /** There is no own vote exactly when no interaction is the caller's. */
  lemma {:induction false} LastVoteNone(interactions: seq<PostInteraction>, userId: int)
    ensures LastVote(interactions, userId).None? <==>
      forall i :: 0 <= i < |interactions| ==> interactions[i].userId != userId
  {
    if interactions != [] {
      var n := |interactions| - 1;
      LastVoteNone(interactions[..n], userId);
      assert forall i :: 0 <= i < n ==> interactions[..n][i] == interactions[i];
    }
  }

  /** Of several interactions by the caller, the last in list order wins. */
  lemma {:induction false} LastVoteIsLastMatch(interactions: seq<PostInteraction>, userId: int, j: int)
    requires 0 <= j < |interactions| && interactions[j].userId == userId
    requires forall k :: j < k < |interactions| ==> interactions[k].userId != userId
    ensures LastVote(interactions, userId) == Some(interactions[j].vote)
  {
    var n := |interactions| - 1;
    if j < n {
      LastVoteIsLastMatch(interactions[..n], userId, j);
    }
  }

  /** The loop of get_post_data that finds the caller's own vote: every
      match overwrites the one before. */
  method FindUserVote(interactions: seq<PostInteraction>, userId: int) returns (userInteraction: Option<bool>)
    ensures userInteraction == LastVote(interactions, userId)
  {
    userInteraction := None;
    for i := 0 to |interactions|
      invariant userInteraction == LastVote(interactions[..i], userId)
    {
      assert interactions[..i + 1][..i] == interactions[..i];
      if interactions[i].userId == userId {
        userInteraction := Some(interactions[i].vote);
      }
    }
    assert interactions[..|interactions|] == interactions;
  }

  /** get_post_data: 404 for a missing post or a post whose topic is missing,
      the tally for a topic the user may see, and 403 otherwise (with no
      tally computed). */
  method GetPostData(posts: seq<Post>, topics: seq<Topic>, table: seq<PostInteraction>, user: User,
                     postId: int, canSee: (User, Topic) -> bool) returns (r: Result<PostView, ApiError>)
    ensures PostById(posts, postId).None? ==> r == Err(NotFound)
    ensures PostById(posts, postId).Some? && TopicById(topics, PostById(posts, postId).value.topicId).None?
      ==> r == Err(NotFound)
    ensures r.Ok? ==>
      && PostById(posts, postId).Some?
      && r.value.post == PostById(posts, postId).value
      && TopicById(topics, r.value.post.topicId).Some?
      && canSee(user, TopicById(topics, r.value.post.topicId).value)
      && r.value.interactions == Votes(InteractionsOf(table, postId))
      && r.value.userVote == LastVote(InteractionsOf(table, postId), user.id)
    ensures r.Err? && PostById(posts, postId).Some? && TopicById(topics, PostById(posts, postId).value.topicId).Some?
      ==> r == Err(AccessDenied) && !canSee(user, TopicById(topics, PostById(posts, postId).value.topicId).value)
  {
    var post := PostById(posts, postId);
    if post.None? {
      return Err(NotFound);
    }
    var topic := TopicById(topics, post.value.topicId);
    if topic.None? {
      return Err(NotFound);
    }
    if canSee(user, topic.value) {
      var interactions := InteractionsOf(table, postId);
      var votes := if interactions != [] then Votes(interactions) else 0;
      var userInteraction := FindUserVote(interactions, user.id);
      return Ok(PostView(post.value, votes, userInteraction));
    }
    return Err(AccessDenied);
  }

  /** Three voters, two up and one down: the score is 2, not the 1 an
      up-minus-down tally would give, and a fourth user has no own vote. */
  lemma ThreeVotersScenario(post: int)
    ensures var s := [PostInteraction(1, true, post, 10), PostInteraction(2, true, post, 11),
                      PostInteraction(3, false, post, 12)];
      Votes(s) == 2 && LastVote(s, 13) == None
  {
    var s := [PostInteraction(1, true, post, 10), PostInteraction(2, true, post, 11),
              PostInteraction(3, false, post, 12)];
    assert Votes(s[1..][1..]) == 0 by {
      assert s[1..][1..] == [s[2]];
      assert s[1..][1..][1..] == [];
    }
    assert Votes(s[1..]) == 1;
    LastVoteNone(s, 13);
  }
}
