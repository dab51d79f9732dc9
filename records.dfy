/** The records of internal/model that the core passes around, with times as
    integer instants. */
module Records {

  /** An instant; only the order of instants matters to the core. */
  type Time = int

  /** The zero value time.Time{} that CreateArticleHandler stores. */
  const ZeroTime: Time := 0

  /** A row of the users table (model.UserTableDB). */
  datatype UserRow = UserRow(
    id: string,
    username: string,
    email: string,
    passwordHash: string,
    passwordSalt: string,
    bio: string,
    image: string,
    createdAt: Time,
    updatedAt: Time)

  /** A user without the password verifier (model.User). */
  datatype User = User(
    id: string,
    username: string,
    email: string,
    bio: string,
    image: string,
    createdAt: Time,
    updatedAt: Time)

  /** A row of the tokens table (model.UserAuthToken). */
  datatype TokenRow = TokenRow(id: string, token: string, createdAt: Time, endDate: Time, uid: string)

  /** A row of the subscriptions table: sub_id follows target_user_id. */
  datatype Edge = Edge(follower: string, followed: string)

  /** A row of the article table (model.DBArticle). */
  datatype Article = Article(
    slug: string,
    title: string,
    description: string,
    body: string,
    tagList: seq<string>,
    createdAt: Time,
    updatedAt: Time,
    favoritesCount: int,
    author: string)

  /** A password verifier as stored: base64 hash and base64 salt (security.PasswordObj). */
  datatype Verifier = Verifier(hash: string, salt: string)

  /** The row without its password verifier. */
  function ApiView(u: UserRow): User
  {
    User(u.id, u.username, u.email, u.bio, u.image, u.createdAt, u.updatedAt)
  }
}
