/** The rows of the forum's tables, one datatype per mapped class of
    models.py. A nullable column is an `Option`; a column declared
    `nullable=False` is a plain value. Column defaults are the constants
    below, and the `Default...` functions build the row the database stores
    when an insert leaves the defaulted columns out. */
module Models {
  import opened Common
  import opened Tables

  /** A calendar day (the `Date` column type), counted from some epoch. */
  type Day = int

  /** `users`: username and email are unique; admin is a nullable boolean. */
  datatype User = User(
    id: int,
    username: string,
    hashedPassword: string,
    email: string,
    age: int,
    nickname: Option<string>,
    registrationDate: Day,
    admin: Option<bool>)

  /** `categories`: visibility and locked are nullable booleans. */
  datatype Category = Category(
    id: int,
    name: string,
    description: string,
    visibility: Option<bool>,
    locked: Option<bool>)

  /** `topics`: always owned by a user and filed under a category. */
  datatype Topic = Topic(
    id: int,
    title: string,
    description: Option<string>,
    locked: Option<bool>,
    userId: int,
    categoryId: int)

  /** `posts`: always owned by a user, under a topic, and tagged with a
      category. `title` is declared non-null; it is `None` only in a row
      built by a handler that leaves it out (which the database refuses). */
  datatype Post = Post(
    id: int,
    title: Option<string>,
    content: string,
    userId: int,
    topicId: int,
    categoryId: int)

  /** `replies`: `replyId` is a nullable reference to another reply. */
  datatype Reply = Reply(id: int, postId: int, replyId: Option<int>, userId: int)

  /** One user's vote on a topic, a post or a reply; `vote` is never null. */
  datatype TopicInteraction = TopicInteraction(id: int, vote: bool, topicId: int, userId: int)
  datatype PostInteraction = PostInteraction(id: int, vote: bool, postId: int, userId: int)
  datatype ReplyInteraction = ReplyInteraction(id: int, vote: bool, replyId: int, userId: int)

  /** `category_access_privileges`: `permissionType` is tri-state. */
  datatype CategoryAccessPrivilege = CategoryAccessPrivilege(
    id: int,
    userId: int,
    categoryId: int,
    permissionType: Option<bool>)

  const AdminDefault := false
  const VisibilityDefault := true
  const LockedDefault := false
  const VoteDefault := true
  const PermissionTypeDefault := false

  /** Python truthiness of a nullable boolean column: NULL counts as false. */
  predicate Truthy(b: Option<bool>)
  {
    b == Some(true)
  }

  predicate IsAdmin(u: User)
  {
    Truthy(u.admin)
  }

  /** A user inserted without `admin` and `registration_date`. */
  function DefaultUser(id: int, username: string, hashedPassword: string, email: string,
                       age: int, nickname: Option<string>, today: Day): (u: User)
    ensures !IsAdmin(u) && u.admin.Some?
    ensures u.registrationDate == today
    ensures u.username == username && u.email == email && u.hashedPassword == hashedPassword
  {
    User(id, username, hashedPassword, email, age, nickname, today, Some(AdminDefault))
  }

  /** A category inserted without `visibility` and `locked`. */
  function DefaultCategory(id: int, name: string, description: string): (c: Category)
    ensures Truthy(c.visibility) && c.locked == Some(false)
    ensures c.name == name && c.description == description
  {
    Category(id, name, description, Some(VisibilityDefault), Some(LockedDefault))
  }

  /** A topic inserted without `locked`. */
  function DefaultTopic(id: int, title: string, description: Option<string>,
                        userId: int, categoryId: int): (t: Topic)
    ensures !Truthy(t.locked) && t.locked.Some?
  {
    Topic(id, title, description, Some(LockedDefault), userId, categoryId)
  }

  /** Interactions inserted without `vote` are upvotes. */
  function DefaultTopicInteraction(id: int, topicId: int, userId: int): (i: TopicInteraction)
    ensures i.vote
  {
    TopicInteraction(id, VoteDefault, topicId, userId)
  }

  function DefaultPostInteraction(id: int, postId: int, userId: int): (i: PostInteraction)
    ensures i.vote
  {
    PostInteraction(id, VoteDefault, postId, userId)
  }

  function DefaultReplyInteraction(id: int, replyId: int, userId: int): (i: ReplyInteraction)
    ensures i.vote
  {
    ReplyInteraction(id, VoteDefault, replyId, userId)
  }

  /** A privilege inserted without `permission_type` denies (explicit false, not NULL). */
  function DefaultPrivilege(id: int, userId: int, categoryId: int): (p: CategoryAccessPrivilege)
    ensures p.permissionType == Some(false)
  {
    CategoryAccessPrivilege(id, userId, categoryId, Some(PermissionTypeDefault))
  }

  /** A reply is top-level under its post exactly when it has no parent reply. */
  predicate IsTopLevel(r: Reply)
  {
    r.replyId.None?
  }

  /** Every parent reference in a replies table names a stored reply. */
  ghost predicate ParentsStored(replies: seq<Reply>)
  {
    forall i :: 0 <= i < |replies| && replies[i].replyId.Some? ==>
      exists j :: 0 <= j < |replies| && replies[j].id == replies[i].replyId.value
  }

  /** The unique constraints on `users.username` and `users.email`, and the
      primary key, over a table whose next autoincrement value is `nextId`. */
  ghost predicate UsersWellFormed(users: seq<User>, nextId: int)
  {
    && (forall i :: 0 <= i < |users| ==> users[i].id < nextId)
    && (forall i, j :: 0 <= i < j < |users| ==> users[i].id != users[j].id)
    && (forall i, j :: 0 <= i < j < |users| ==> users[i].username != users[j].username)
    && (forall i, j :: 0 <= i < j < |users| ==> users[i].email != users[j].email)
  }

  // Row predicates, built by named functions so that every query over a
  // table mentions the same predicate value.

  function HasUsername(name: string): User -> bool
  {
    (u: User) => u.username == name
  }

  function HasEmail(email: string): User -> bool
  {
    (u: User) => u.email == email
  }

  function CategoryNamed(name: string): Category -> bool
  {
    (c: Category) => c.name == name
  }

  function TopicWithId(id: int): Topic -> bool
  {
    (t: Topic) => t.id == id
  }

  function PostWithId(id: int): Post -> bool
  {
    (p: Post) => p.id == id
  }

  function UserByName(users: seq<User>, name: string): Option<User>
  {
    Find(users, HasUsername(name))
  }

  function TopicById(topics: seq<Topic>, id: int): Option<Topic>
  {
    Find(topics, TopicWithId(id))
  }

  function PostById(posts: seq<Post>, id: int): Option<Post>
  {
    Find(posts, PostWithId(id))
  }

  function CategoryByName(categories: seq<Category>, name: string): Option<Category>
  {
    Find(categories, CategoryNamed(name))
  }
}
