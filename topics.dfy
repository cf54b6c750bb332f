/** Listing a topic's posts and adding a post (topics.py). Which topics a
    user may see is the parameter `canSee`: can_user_see_topic is not
    defined in utils.py. */
module Topics {
  import opened Common
  import opened Tables
  import opened Models
  import opened Utils

  /** The response row (`PostSchema`). */
  datatype PostSchema = PostSchema(id: int, content: string, userId: int, topicId: int, categoryId: int)

  function InTopic(topicId: int): Post -> bool
  {
    (p: Post) => p.topicId == topicId
  }

  function ByUser(userId: int): Post -> bool
  {
    (p: Post) => p.userId == userId
  }

  /** `query(Post).filter(Post.topic_id == topicId).all()`. */
  function PostsInTopic(posts: seq<Post>, topicId: int): (r: seq<Post>)
    ensures |r| <= |posts|
    ensures forall i :: 0 <= i < |r| ==> r[i] in posts && r[i].topicId == topicId
    ensures forall i :: 0 <= i < |posts| && posts[i].topicId == topicId ==> posts[i] in r
  {
    Filter(posts, InTopic(topicId))
  }

  /** get_posts_in_topic: 404 for a missing topic; the topic's posts in
      stored order when the user may see it; an empty list (not an error)
      when the user may not. */
  function GetPostsInTopic(topics: seq<Topic>, posts: seq<Post>, user: User, topicId: int,
                           canSee: (User, Topic) -> bool): (r: Result<seq<Post>, ApiError>)
    ensures r.Err? <==> forall i :: 0 <= i < |topics| ==> topics[i].id != topicId
    ensures r.Err? ==> r.error == NotFound
    ensures r.Ok? && !canSee(user, TopicById(topics, topicId).value) ==> r.value == []
    ensures r.Ok? && canSee(user, TopicById(topics, topicId).value) ==> r.value == PostsInTopic(posts, topicId)
  {
    var topic := TopicById(topics, topicId);
    if topic.None? then Err(NotFound)
    else if canSee(user, topic.value) then Ok(PostsInTopic(posts, topicId))
    else Ok([])
  }

  /** The listing keeps stored order. */
  lemma PostsInTopicKeepsOrder(a: seq<Post>, b: seq<Post>, topicId: int)
    ensures PostsInTopic(a + b, topicId) == PostsInTopic(a, topicId) + PostsInTopic(b, topicId)
  {
    FilterAppend(a, b, InTopic(topicId));
  }

  /** The row add_post builds. It leaves `title` out. */
  function NewPost(id: int, content: string, user: User, topic: Topic): (p: Post)
    ensures p.userId == user.id && p.topicId == topic.id && p.categoryId == topic.categoryId
    ensures p.content == content && p.title.None?
  {
    Post(id, None, content, user.id, topic.id, topic.categoryId)
  }

  /** Every post is tagged with the category of the topic it is in. */
  ghost predicate CategoriesAgree(posts: seq<Post>, topics: seq<Topic>)
  {
    forall i :: 0 <= i < |posts| ==>
      TopicById(topics, posts[i].topicId).Some? &&
      TopicById(topics, posts[i].topicId).value.categoryId == posts[i].categoryId
  }

  /** A post appended with the category of its topic keeps the tagging consistent. */
  lemma CategoriesAgreeAppend(posts: seq<Post>, topics: seq<Topic>, post: Post)
    requires CategoriesAgree(posts, topics)
    requires TopicById(topics, post.topicId).Some? && TopicById(topics, post.topicId).value.categoryId == post.categoryId
    ensures CategoriesAgree(posts + [post], topics)
  {
  }

  /** `query(Post).filter(Post.user_id == userId).all()[-1]`; `None` where
      Python would raise `IndexError` on an empty list. */
  function LastPostBy(posts: seq<Post>, userId: int): (r: Option<Post>)
    ensures r.None? <==> forall i :: 0 <= i < |posts| ==> posts[i].userId != userId
    ensures r.Some? ==> r.value in posts && r.value.userId == userId
    ensures r.Some? ==>
      exists i :: 0 <= i < |posts| && posts[i] == r.value && forall k :: i < k < |posts| ==> posts[k].userId != userId
  {
    var mine := Filter(posts, ByUser(userId));
    if mine == [] then None
    else
      FilterLastMatchExists(posts, ByUser(userId));
      Some(mine[|mine| - 1])
  }

  /** After a post is appended, it is the last of its author's posts in stored order. */
  lemma NewPostIsAuthorsLast(posts: seq<Post>, post: Post, userId: int)
    requires post.userId == userId
    ensures LastPostBy(posts + [post], userId) == Some(post)
  {
    FilterSnoc(posts, post, ByUser(userId));
  }

  /** The posts table `add_post` inserts into. */
  class PostTable {
    var rows: seq<Post>
    /** The next value of the `id` autoincrement. */
    var nextId: int

    ghost predicate Valid()
      reads this
    {
      && (forall i :: 0 <= i < |rows| ==> rows[i].id < nextId)
      && (forall i, j :: 0 <= i < j < |rows| ==> rows[i].id != rows[j].id)
    }

    constructor ()
      ensures Valid() && rows == []
    {
      rows := [];
      nextId := 1;
    }

    /** add_post: 404 for a missing topic and 403 for an invisible one, both
        inserting nothing; otherwise exactly one post is appended, in the
        topic and its category, and the response carries the id of the
        caller's last stored post, which is the new one. */
    method AddPost(topics: seq<Topic>, user: User, topicId: int, content: string,
                   canSee: (User, Topic) -> bool) returns (r: Result<PostSchema, ApiError>)
      requires Valid()
      modifies this
      ensures Valid()
      ensures TopicById(topics, topicId).None? ==> r == Err(NotFound)
      ensures TopicById(topics, topicId).Some? && !canSee(user, TopicById(topics, topicId).value)
        ==> r == Err(AccessDenied)
      ensures r.Err? ==> rows == old(rows) && nextId == old(nextId)
      ensures r.Ok? <==> TopicById(topics, topicId).Some? && canSee(user, TopicById(topics, topicId).value)
      ensures r.Ok? ==>
        var topic := TopicById(topics, topicId).value;
        && canSee(user, topic)
        && rows == old(rows) + [NewPost(old(nextId), content, user, topic)]
        && r.value == PostSchema(old(nextId), content, user.id, topic.id, topic.categoryId)
      ensures CategoriesAgree(old(rows), topics) ==> CategoriesAgree(rows, topics)
    {
      var topic := TopicById(topics, topicId);
      if topic.None? {
        return Err(NotFound);
      }
      if !canSee(user, topic.value) {
        return Err(AccessDenied);
      }
      var t := topic.value;
      var post := NewPost(nextId, content, user, t);
      assert TopicById(topics, post.topicId) == topic;
      if CategoriesAgree(rows, topics) {
        CategoriesAgreeAppend(rows, topics, post);
      }
      var stored := rows + [post];
      NewPostIsAuthorsLast(rows, post, user.id);
      var entry := LastPostBy(stored, user.id);
      rows := stored;
      nextId := nextId + 1;
      r := Ok(PostSchema(entry.value.id, content, user.id, t.id, t.categoryId));
    }
  }
}
