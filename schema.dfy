/** The rows of the `users` and `connections` tables. */
module Schema {
  import opened Wrappers

  type UserId = int

  /** An ISO-8601 text, as the `created_at` columns hold it. */
  type Timestamp = string

  /** The three values the handlers ever write into `connections.status`. */
  datatype Status = Pending | Accepted | Rejected

  /** A directed request from `userId` (requester) to `connectedUserId` (receiver). */
  datatype Connection = Connection(
    id: int,
    userId: UserId,
    connectedUserId: UserId,
    status: Status,
    createdAt: Timestamp)

  /** A `users` row, credential hash included. */
  datatype UserRow = UserRow(
    id: UserId,
    name: string,
    email: string,
    password: string,
    headline: Option<string>,
    bio: Option<string>,
    avatar: Option<string>,
    location: Option<string>,
    company: Option<string>,
    position: Option<string>,
    createdAt: Timestamp)

  /** The columns the connection listings select from `users`. */
  datatype PublicProfile = PublicProfile(
    id: UserId,
    name: string,
    headline: Option<string>,
    avatar: Option<string>,
    location: Option<string>,
    company: Option<string>,
    position: Option<string>)

  /** The users table as a map from primary key to row: each row sits under its own id. */
  predicate KeyedById(users: map<UserId, UserRow>) {
    forall k :: k in users ==> users[k].id == k
  }

  function ProfileOf(u: UserRow): PublicProfile {
    PublicProfile(u.id, u.name, u.headline, u.avatar, u.location, u.company, u.position)
  }
}
