/** What a handler writes back: a status code with either an error message
    (HandleError and http.Error) or one of the JSON bodies of internal/model.
    The JSON text itself is not modelled, only the values it carries. */
module Http {
  import opened Records

  const StatusOK: int := 200
  const StatusCreated: int := 201
  const StatusBadRequest: int := 400
  const StatusUnauthorized: int := 401
  const StatusNotFound: int := 404
  const StatusUnprocessableEntity: int := 422
  const StatusInternalServerError: int := 500

  /** model.UserResponse: the user's public fields and an access token. */
  datatype UserResponse = UserResponse(
    id: string,
    email: string,
    username: string,
    bio: string,
    image: string,
    createdAt: Time,
    updatedAt: Time,
    token: string)

  /** model.Profile. */
  datatype Profile = Profile(
    id: string,
    username: string,
    bio: string,
    image: string,
    following: bool,
    createdAt: Time,
    updatedAt: Time)

  /** model.DBArticleResponseWithAuthorUsername. */
  datatype ArticleView = ArticleView(
    slug: string,
    title: string,
    description: string,
    body: string,
    tagList: seq<string>,
    createdAt: Time,
    updatedAt: Time,
    favorited: bool,
    favoritesCount: int,
    authorUsername: string)

  datatype Response =
    | ErrorReply(status: int, message: string)
    | UserReply(status: int, user: UserResponse)
    | ProfileReply(status: int, profile: Profile)
    | ArticleReply(status: int, article: ArticleView)
    | ArticlesReply(status: int, articles: seq<Article>, articlesCount: int)
    | EmptyReply(status: int)

  /** The profile of `u` as the profile handlers build it. */
  function ProfileOf(u: UserRow, following: bool): Profile
  {
    Profile(u.id, u.username, u.bio, u.image, following, u.createdAt, u.updatedAt)
  }
}
