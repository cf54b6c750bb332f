# Forum backend: a Dafny model of its decision and aggregation logic

This project models the handler logic of a small forum backend built on FastAPI and SQLAlchemy. It covers:

- registration and login;
- access tokens and the two authentication dependencies (`get_current_user`, `get_admin`);
- listing and adding categories;
- listing a topic's posts and adding a post;
- viewing a post with its vote tally.

Each table is a Dafny sequence of rows in stored order. A query `filter(...).all()` is `Tables.Filter`, and `filter(...).first()` is `Tables.Find`. The handlers that only read are functions over these sequences, except `get_post_data`: it is the method `Posts.GetPostData`, because its loop is a method. The three handlers that insert rows (`register_user`, `add_category`, `add_post`) are methods of table classes (`Auth.UserTable`, `Categories.CategoryTable`, `Topics.PostTable`). Each class holds its rows and the next autoincrement id. The loop in `get_post_data` that finds the caller's own vote is a method with a loop invariant (`Posts.FindUserVote`).

One module per source file: `Models` (models.py), `Utils` (utils.py), `Auth` (auth.py), `Categories` (categories.py), `Topics` (topics.py), `Posts` (posts.py). Two helper modules sit under them: `Common` (Option, Result, Outcome) and `Tables` (the queries and their lemmas).

Things the model takes as parameters, because their code is not part of this model:

- `hash: string -> string` stands for `hash_password`, which is SHA-256 as a hex digest. The model assumes nothing about it.
- `canSee: (User, Category) -> bool` and `canSee: (User, Topic) -> bool` stand for `can_user_see_category` and `can_user_see_topic`. The handlers import these from utils.py, but utils.py does not define them. So no rule of them (admin bypass, privilege rows) is modelled. The same holds for `not_found` and `access_denied`, which are the constructors `Utils.NotFound` and `Utils.AccessDenied`.
- `jwt.encode` is kept symbolic: `Utils.Token` holds the claims, the key and the algorithm it signs with.
- `jwt.decode` is the outcome it reports, the datatype `Utils.Decoded`: expired signature, another invalid token, or a payload.
- The clock is a parameter. `now` is `datetime.utcnow().timestamp()` in whole seconds, and `today` is `date.today()`.
- schemas.py does not define `PostViewSchema`, `PostSchema` or `CategorySchema`. Their fields are taken from the calls that build them.

Two behaviours of the code are easy to misread. The model follows the code in both:

- The score is `sum` over the `vote` booleans, so a downvote adds 0. It is not upvotes minus downvotes. `Posts.ThreeVotersScenario` shows that two upvotes and one downvote score 2.
- Nothing in the code writes interaction rows, and no constraint limits a user to one row per post. So the caller's vote is the vote of the caller's LAST interaction in list order.

## Model

| member | source | states |
|---|---|---|
| Models.DefaultUser | models.py:7-17 | a user row stored without `admin` gets admin = false (not NULL), so the user is not an admin; `registration_date` is the insert day |
| Models.DefaultCategory | models.py:29-36 | a category stored without `visibility`/`locked` is visible and unlocked |
| Models.DefaultTopic | models.py:42-50 | a topic stored without `locked` is unlocked (false, not NULL) |
| Models.DefaultTopicInteraction | models.py:87-93 | a topic interaction stored without `vote` is an upvote |
| Models.DefaultPostInteraction | models.py:98-104 | a post interaction stored without `vote` is an upvote |
| Models.DefaultReplyInteraction | models.py:109-115 | a reply interaction stored without `vote` is an upvote |
| Models.DefaultPrivilege | models.py:144-150 | a privilege stored without `permission_type` holds an explicit false, which is distinct from NULL |
| Utils.VerifyPassword | utils.py:21-22 | a password verifies against a stored digest exactly when that digest is the password's hash |
| Utils.VerifyPasswordMeaning | utils.py:18-22 | a password always verifies against its own digest; with no salt, two passwords with the same digest are accepted by exactly the same stored digests |
| Utils.CreateAccessToken | utils.py:24-29 | the payload has the keys of `data` plus `exp`; every other key keeps its value; `exp` is now + 28 800 s, overwriting any given `exp`; signed with "test-key"/HS256 |
| Utils.AuthFailure.Error | utils.py:34-53 | every refusal is a 401; the detail is "Token has expired" exactly for an expired token, and every other failure is a 401 with "Invalid credentials" |
| Utils.GetCurrentUser | utils.py:31-54 | an expired token, an invalid token and a missing or falsy `sub` are told apart; success happens exactly when `sub` is a non-empty string naming a stored user, and the user returned is stored and has username `sub`; a truthy `sub` that fails is the unknown-user failure |
| Utils.GetAdmin | utils.py:56-64 | the caller is returned unchanged exactly when `admin` is true; NULL or false gives 403 with its message |
| Auth.VerifyUnique | auth.py:13-20 | passes exactly when no stored user has the username or the email; otherwise a 400 "Invalid credentials" |
| Auth.NewUser | auth.py:34-44 | the new user is not an admin, has the form's username and email, and the form's password verifies against the stored digest |
| Auth.NewUserIsDefaultRow | auth.py:36-44 | the row built equals the row the column defaults give, with `registration_date` defaulted to the day |
| Auth.LoginUserAsWritten | auth.py:52-66 | as written, login fails with an uncaught exception exactly when no user has the username |
| Auth.LoginUser | auth.py:52-66 | a token is issued exactly when the first user with that username has the password's digest; otherwise 400; the token's `sub` is the submitted username and its type is "bearer" |
| Auth.LoginCorrectionAgrees | auth.py:60-63 | the corrected login differs from the code only where the code crashes, and there it answers 400 |
| Auth.UnknownUsernameCrashes | auth.py:60-63 | on an empty users table any login crashes as written, and gets 400 when corrected |
| Auth.LoginAfterRegister | auth.py:28-66 | after a registration passes the uniqueness check, logging in with its username and password issues the token for that username |
| Auth.IssuedTokenAuthenticates | auth.py:65-66 | the decoded payload of an issued token authenticates as a user with the submitted username, when that username is non-empty |
| Auth.EmptyUsernameTokenRejected | utils.py:43-45 | a token issued to the empty username never authenticates: its subject is falsy |
| Auth.UserTable.RegisterUser | auth.py:28-50 | the uniqueness check runs before the insert: a refused registration leaves the table as it was; an accepted one appends exactly the new user row; unique ids, usernames and emails are preserved |
| Categories.GetCategories | categories.py:16-24 | the result holds exactly the categories the user may see, and is no longer than the table |
| Categories.GetCategoriesKeepsOrder | categories.py:17-22 | listing keeps stored order: the listing of two runs of rows is the concatenation of their listings |
| Categories.GetCategoriesAllVisible | categories.py:17-22 | a user who may see every category gets the whole table in stored order |
| Categories.NewCategory | categories.py:35-41 | the new category has the given id, name and description, is visible and unlocked, and equals the row the column defaults give |
| Categories.CategoryTable.AddCategory | categories.py:26-49 | a non-admin gets 403 and a taken name gets 400, both inserting nothing; otherwise one visible, unlocked row is appended; the response echoes name and description with the new row's id; pairwise-distinct names stay distinct |
| Topics.PostsInTopic | topics.py:29-30 | the result holds only stored posts whose `topic_id` is the topic's id, every such post, and no more rows than the table |
| Topics.PostsInTopicKeepsOrder | topics.py:29-30 | the posts of a topic are listed in stored order |
| Topics.GetPostsInTopic | topics.py:16-32 | not_found exactly when no topic has the id; a visible topic gives its posts; an invisible topic gives an empty list, not an error |
| Topics.NewPost | topics.py:52-58 | the new post belongs to the caller, to the topic, and to the topic's category |
| Topics.CategoriesAgreeAppend | topics.py:52-60 | appending a post tagged with its topic's category keeps every post tagged with its topic's category |
| Topics.LastPostBy | topics.py:64 | the result is the user's post at the last index where the user has a post, in stored order; there is none exactly when the user has no post |
| Topics.NewPostIsAuthorsLast | topics.py:60-64 | after the insert, the caller's last stored post is the new post |
| Topics.PostTable.AddPost | topics.py:35-70 | not_found for a missing topic and access_denied for an invisible one, both inserting nothing; it succeeds exactly when the topic exists and is visible, and then exactly one post is appended; the response carries the new post's id and echoes the content; category tagging stays consistent |
| Tables.Filter | posts.py:32 | `.filter(p).all()` returns only stored rows that satisfy `p`, every stored row that satisfies `p`, and no more rows than the table |
| Tables.Find | posts.py:21 | `.filter(p).first()` is absent exactly when no row satisfies `p`; otherwise it is a stored row that satisfies `p` |
| Tables.FindFirstMatch | posts.py:21 | `.first()` returns a row exactly when that row stands at the first matching index |
| Tables.FilterLastAt | topics.py:64 | the last row of `.all()` is the row at the last matching index |
| Posts.InteractionsOf | posts.py:32 | the post's interactions are stored rows with its `post_id`, and every stored row with its `post_id` is among them |
| Posts.Votes | posts.py:33 | the score lies between 0 and the number of interactions, and is 0 with no interactions |
| Posts.VotesCountsUpvotes | posts.py:33 | the score is the number of interactions whose vote is true; downvotes add nothing |
| Posts.VotesRemove | posts.py:33 | removing one interaction lowers the score by one exactly when it was an upvote |
| Posts.VotesAllUp | posts.py:33 | the score equals the number of interactions exactly when all of them are upvotes |
| Posts.VotesPermutation | posts.py:32-33 | the score is unchanged by any reordering of the interactions |
| Posts.ScoreCountsUpvotesOnPost | posts.py:32-33 | the score of a post is the number of upvote rows in the whole table whose `post_id` is the post's |
| Posts.ScoreAppend | posts.py:32-33 | a new interaction raises a post's score by one exactly when it is an upvote on that post; otherwise the score is unchanged |
| Posts.LastVote | posts.py:35-39 | a vote that is found is the vote of some interaction with the caller's user id |
| Posts.LastVoteNone | posts.py:35-39 | the caller's vote is absent exactly when no interaction has the caller's user id |
| Posts.LastVoteIsLastMatch | posts.py:35-39 | when several interactions are the caller's, the caller's vote is that of the last one in list order |
| Posts.FindUserVote | posts.py:35-39 | the loop computes the vote of the caller's last interaction, or absent |
| Posts.GetPostData | posts.py:14-49 | not_found for a missing post and for a post whose topic is missing; a visible topic gives the post, its score and the caller's vote; otherwise access_denied |
| Posts.ThreeVotersScenario | posts.py:33 | two upvotes and one downvote score 2, and a fourth user has no vote |

## Findings

| source | as written | input that shows it | evidently intended | confidence | as-written member | corrected member |
|---|---|---|---|---|---|---|
| auth.py:62 | the tuple `(user, verify_password(password, user.hashed_password))` is built before `all` runs, so `user.hashed_password` is read from `None` when no user has the username | any username when the users table has no user with it, e.g. an empty table (`Auth.UnknownUsernameCrashes`) | an unknown username is answered with the same 400 "Invalid credentials" as a wrong password | high, not executed | Auth.LoginUserAsWritten | Auth.LoginUser |

The lemmas that link login to registration and authentication (`Auth.LoginAfterRegister`, `Auth.IssuedTokenAuthenticates`, `Auth.EmptyUsernameTokenRejected`) use the corrected login.

## Left out

- hash_password: SHA-256 is the parameter `hash`. The model proves nothing that needs collision resistance. So "a password does not verify against the digest of a different password" is not stated.
- The hash column: `hashed_password` is `String(45)`, but utils.py stores a 64-character hex digest. The database is PostgreSQL (db.py:13-14), which refuses a 64-character value in a `varchar(45)` column. So against the real schema every registration fails at `db.commit()` (auth.py:46), and the scenario of `Auth.LoginAfterRegister` cannot happen there. Database constraint failures are not modelled: the model stores the digest as it is.
- The post title: `Post.title` is declared non-null, but add_post does not set it. In the model the new row has `title = None`; the database would refuse the insert. This is why `Post.title` is an `Option`.
- Token expiry: `jwt.decode` and its expiry check are foreign. The model takes the decode outcome as input and does not relate `exp` to the time of decoding.
- The token's `exp` is a float; the model uses whole seconds. `datetime.utcnow().timestamp()` reads a naive UTC time as local time. So `now` is the true epoch time only on a server that runs in UTC; the model does not model the offset.
- Utils.GetCurrentUser: a `sub` that is a non-empty string or a non-zero number is truthy. The model treats a non-string subject as matching no username. It does not model how the database would compare a number with a varchar column.
- can_user_see_category, can_user_see_topic, not_found and access_denied: not defined in utils.py, so they are not part of this model beyond the parameters and error constructors above.
- Writing votes: no handler creates, changes or deletes interaction rows.
- Conversations and direct messages (models.py:120-142): schema only, with no behaviour, not modelled.
- Relationships: `relationship(...)` back-references are not modelled. Reply's nullable parent reference is `Reply.replyId`; `Models.ParentsStored` and `Models.IsTopLevel` describe it.
- Unique constraints: each table class keeps its primary key as an invariant (ids are distinct and below the next id). Only the users table also keeps its other unique constraints (`username`, `email`). Category names are unique only by add_category's check; that fact is an `ensures` of `Categories.CategoryTable.AddCategory`.
- Query order: nothing orders a query. The model takes stored order as query order, so `.first()` is the first stored match and `.all()[-1]` the last.
- HTTP: status codes, headers, form parsing and response validation are not modelled, beyond keeping the error kinds distinct.
- Transactions: none are modelled. Each handler is one step over the tables.
- auth.py's own verify_password (auth.py:22-26) is the same as utils.py's, so it is modelled once, as Utils.VerifyPassword.
- db.py, main.py and admin.py (session setup, router wiring, and a copy of get_admin's result into a response) are not part of this model.
