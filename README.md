# Conduit API core in Dafny

This project models the core of a RealWorld ("Conduit") back end written in
Go. The core consists of:

- the PostgreSQL-backed user and article storages;
- the authentication middleware;
- the user, profile and article HTTP handlers;
- the slug builder.

The database is modelled as in-memory tables. Each storage is a class whose
fields are those tables, held as sequences of rows in table order:

- `UserStorage` has users, tokens and subscriptions;
- `ArticleStorage` has articles.

Single-row queries are functions that read the tables. The article
listings are methods, because their source is a loop over the result rows.
Writes are methods that change the tables. Each call that reaches the database takes a fault flag that stands for
a driver error. Crypto, the clock and the validator's email rule come in as
parameters:

- `derive` stands for Argon2id hashing with a random salt;
- `verify` stands for password comparison;
- `mint` stands for `GenerateToken`;
- `decode` stands for PASETO decryption together with the expiry check;
- `isEmail` stands for the validator's email rule;
- `now` is the current time.

A handler returns a `Response`: the status code, plus the message or the
values the JSON body carries.

Modules, one per component:

| module | component |
|---|---|
| `Wrappers` | Option and Result |
| `Tables` | `Filter` and `First`: what `WHERE` and `QueryRow` do to a table |
| `Records` | the model records |
| `Errors` | the repository's sentinel errors and `errors.Is` |
| `Slug` | the slug builder |
| `UserRepository` | the user storage |
| `ArticleRepository` | the article storage |
| `Http` | responses |
| `Middleware` | the authentication gate |
| `UserHandlers`, `ProfileHandlers`, `ArticleHandlers` | the HTTP handlers |

## Model

| member | source | states |
|---|---|---|
| Errors.ErrorsIs | internal/repository/errors.go:5-11 | errors.Is finds a package sentinel only in that same sentinel. No freshly allocated error value is ever found. |
| Tables.Filter | internal/repository/user.go:208-231 | The rows a WHERE clause keeps are exactly the rows in the table that satisfy it. Nothing is added. All rows are kept iff every row satisfies the clause. |
| Tables.First | internal/repository/user.go:349-375 | QueryRow gives None iff no row matches. Otherwise it gives the earliest matching row in table order. |
| Tables.FilterConjunction | internal/repository/article.go:152-172 | Filtering by a conjunction equals filtering by each conjunct in turn. |
| Tables.FirstOfUnique | internal/repository/user.go:137-179 | When exactly one row matches, QueryRow returns that row. |
| Slug.ToLower | internal/pkg/slug.go:9 | Lower-casing keeps the length and leaves no upper-case letter. Every other character stays where it was. Each upper-case letter becomes its lower-case form. |
| Slug.ReplaceAllRemoves | internal/pkg/slug.go:10-18 | The result holds only characters of the input other than the replaced one, and characters of the replacement. So replacing a character with text that does not contain it removes every occurrence of it. |
| Slug.FormatInt | internal/pkg/slug.go:19 | `%d` of a non-negative index is all decimal digits, and they read back as the index. A negative index gives a minus sign, then digits that read back as its absolute value. |
| Slug.TitlePartIsNormalized | internal/pkg/slug.go:9-18 | The chain of ReplaceAll calls equals a single pass over the title. That pass lower-cases letters, turns each space into a dash and deletes the eight punctuation characters. |
| Slug.TitlePartClean | internal/pkg/slug.go:9-18 | The title part of a slug has no space, no upper-case ASCII letter and none of the deleted characters. |
| Slug.SlugShape | internal/pkg/slug.go:8-21 | Every slug is the normalized title, then a dash, then the decimal index. |
| Slug.SlugIndexRoundTrip | internal/pkg/slug.go:19-20 | For a non-negative index, the number after the slug's last dash is the index it was built with. |
| Slug.SlugifyInjective | internal/pkg/slug.go:8-21 | Two non-negative indices give the same slug only when the indices are equal and the titles normalize alike. |
| Slug.NormalizedConcat | internal/pkg/slug.go:10-18 | The one-pass title transformation works on each part of a title separately: the result for a concatenation is the concatenation of the results. |
| Slug.NormalizedSeparator | internal/pkg/slug.go:10-18 | Wherever it stands, each space becomes its own dash and each deleted character vanishes without joining its neighbours. So runs of spaces are not collapsed, and "a . b" gives "a--b". |
| UserRepository.ClassifyWriteError | internal/repository/user.go:78-94 | A unique violation on users_email_key or users_username_key maps to the matching sentinel, in both directions. Every other failure is a wrapped error. |
| UserRepository.Violation | internal/repository/user.go:72-98 | A row collides with the table iff it shares an id, an email or a username with a stored row. The constraint it reports names a row that really collides. |
| UserRepository.UserStorage.constructor | internal/repository/user.go:38-40 | A new storage is empty and valid. |
| UserRepository.UserStorage.AddUser | internal/repository/user.go:72-98 | The insert appends the row with the id and timestamps the database assigns, unless it collides or fails. A collision is reported through ClassifyWriteError. The unique keys stay unique. |
| UserRepository.UserStorage.RegisterUser | internal/repository/user.go:42-70 | A failed derivation gives "failed to generate password". Registration succeeds iff the verifier is derived, the insert does not fail and nothing collides. On success exactly the new row with empty bio and image is appended. EmailAlreadyExists and UsernameAlreadyExists each name a real clash. |
| UserRepository.UserStorage.GetUserForApi | internal/repository/user.go:100-135 | An empty id is an error. Otherwise it returns the stored user with that id, minus the verifier. UserNotFound is returned iff no row has the id. |
| UserRepository.UserStorage.GetUserForAuth | internal/repository/user.go:137-179 | It looks up by email when one is given, otherwise by username. Both empty is an error. A found row is stored and has the key it was looked up by. UserNotFound is returned iff no row has that key. |
| UserRepository.UserStorage.GetUserForUpdate | internal/repository/user.go:181-206 | It returns the full stored row with this id. With an id and no fault it succeeds iff such a row exists. UserNotFound is returned iff there is none. |
| UserRepository.UserStorage.DeleteUser | internal/repository/user.go:208-231 | Both keys empty is an error. A failing exec gives "failed to delete user". Otherwise it succeeds iff some row matches the email or the username, and then exactly the matching rows are gone. If none matches, the table is unchanged and the result is UserNotFound. |
| UserRepository.UserStorage.UpdateUser | internal/repository/user.go:233-265 | It rewrites the row with u's id: the six columns and updated_at. All other rows are unchanged. A missing id gives UserNotFound. With the row present and no fault, it succeeds iff u clashes with no other row. A clash gives the error ClassifyWriteError makes of the clashing constraint: EmailAlreadyExists or UsernameAlreadyExists. Keys stay unique. |
| UserRepository.UserStorage.AddToken | internal/repository/user.go:267-290 | An empty token or user id is an error. Otherwise the token row is appended iff the insert succeeds. Every stored token row has a non-empty token and user id. |
| UserRepository.UserStorage.GetToken | internal/repository/user.go:292-322 | It returns a stored row that holds the token. With a token and no fault it succeeds iff some row holds it. TokenIsNotFound is returned iff no row holds it. |
| UserRepository.UserStorage.DeleteToken | internal/repository/user.go:324-347 | It removes exactly the rows holding the token. It succeeds iff some row held it. TokenIsNotFound is returned iff none did. |
| UserRepository.UserStorage.FindTokenByUID | internal/repository/user.go:349-375 | It returns a stored token row of the user. With a user id and no fault it succeeds iff the user has a token row. ErrNoResult is returned iff the user has none. |
| UserRepository.UserStorage.FollowUser | internal/repository/user.go:377-395 | With both ids present and no fault, the edge follower -> followed is appended. Otherwise the table is unchanged. |
| UserRepository.UserStorage.UnFollowUser | internal/repository/user.go:397-420 | It removes every matching edge. It succeeds iff the edge existed. "subscription not found" is returned iff it did not. |
| UserRepository.UserStorage.CheckFollow | internal/repository/user.go:422-446 | With both ids present and no fault, it answers whether the edge is stored. |
| UserRepository.AuthLookupByUsername | internal/repository/user.go:137-179 | Since usernames are unique, a lookup by a stored user's non-empty username returns exactly that row. |
| UserRepository.AuthLookupByEmail | internal/repository/user.go:137-179 | Since emails are unique, a lookup by a stored user's non-empty email returns exactly that row. |
| UserRepository.FilterKeepsUnique | internal/repository/user.go:208-231 | Deleting rows keeps the users' id, email and username unique. |
| UserRepository.UpdatePreservesUnique | internal/repository/user.go:233-265 | Rewriting one row with keys that clash with no other row keeps the keys unique. |
| ArticleRepository.ArticleStorage.constructor | internal/repository/article.go:58-60 | A new storage is empty and valid. |
| ArticleRepository.ArticleStorage.IsSlugExists | internal/repository/article.go:43-56 | It answers "free" iff no row has the slug and the probe does not fail. A failing probe answers "taken". |
| ArticleRepository.ArticleStorage.CreateArticle | internal/repository/article.go:62-72 | The row is appended, with the default favorites count, iff its slug is free and the insert does not fail. Slugs stay unique. |
| ArticleRepository.ArticleStorage.DeleteArticle | internal/repository/article.go:74-84 | It removes exactly the row with the slug. An absent slug is no error and changes nothing. |
| ArticleRepository.ArticleStorage.UpdateArticle | internal/repository/article.go:188-198 | It rewrites title, description, body, tags and updated_at of the row with the article's slug. Every other row and column is unchanged. |
| ArticleRepository.ArticleStorage.GetArticleBySlug | internal/repository/article.go:174-186 | It returns the stored row with the slug. It fails iff none exists or the query fails. |
| ArticleRepository.SlugLookupFindsRow | internal/repository/article.go:174-186 | Because slugs are unique, looking up a stored article by its slug returns exactly that article. |
| ArticleRepository.ArticleStorage.List | internal/repository/article.go:86-106 | Without a fault the loop returns exactly the selected rows in table order. It fails iff the query fails or a scan fails at a selected row. A broken result stream is not an error: the source never calls rows.Err(), so the loop ends early and the rows fetched so far come back as a success. Any success is a prefix of the selected rows, and it is shorter only when the stream broke. |
| ArticleRepository.DeliveredMembers | internal/repository/article.go:96-105 | Every row a listing delivers is a stored row its query matches. With an unbroken stream, every such row is delivered. |
| ArticleRepository.ArticleStorage.GetArticles | internal/repository/article.go:86-106 | Without a fault it returns the whole table. It fails, with its own operation name, iff the query fails or a scan fails at a row. A broken stream gives a success holding only the rows before the break, which is a prefix of the table. |
| ArticleRepository.ArticleStorage.GetArticlesByAuthor | internal/repository/article.go:108-128 | Without a fault it returns exactly the rows by the author, in table order. It fails iff the query fails or a scan fails at a selected row. Any success holds only such rows. A broken stream cuts the result short at the break instead of failing. |
| ArticleRepository.ArticleStorage.GetArticlesByTag | internal/repository/article.go:130-150 | Without a fault it returns exactly the rows whose tag list contains the tag, in table order. It fails iff the query fails or a scan fails at a selected row. Any success holds only such rows. A broken stream cuts the result short at the break instead of failing. |
| ArticleRepository.ArticleStorage.GetArticlesByAuthorAndTag | internal/repository/article.go:152-172 | Without a fault it returns exactly the rows by the author that carry the tag, in table order. It fails iff the query fails or a scan fails at a selected row. Any success holds only such rows. A broken stream cuts the result short at the break instead of failing. |
| ArticleRepository.AuthorAndTagIsIntersection | internal/repository/article.go:152-172 | The combined query equals the tag query applied to the author query's result. |
| ArticleRepository.SelectAll | internal/repository/article.go:88 | The unconditioned query selects the whole table. |
| ArticleRepository.FilterKeepsSlugsUnique | internal/repository/article.go:74-84 | Deleting rows keeps slugs unique. |
| ArticleRepository.FilterAllKept | internal/repository/article.go:74-84 | Deleting a slug no row has leaves the table unchanged. |
| Middleware.AuthMiddleware | internal/handlers/middleware.go:12-51 | An empty header gives 401. A header of 1 to 5 bytes panics. Bad decryption or expiry gives 401, and so does a failed token lookup. The request is admitted iff the stored token row's uid equals the decoded uid and it ends after now. A decoded token whose stored row has another uid or has expired gives 401 "Invalid or expired token". An admitted uid holds a live stored token. |
| Middleware.UnknownTokenRejected | internal/handlers/middleware.go:32-39 | A token with no stored row is never admitted. |
| UserHandlers.AsWrittenNeverMints | internal/handlers/userHandlers.go:156-169 | As written, the token branch never mints. Every lookup error, ErrNoResult included, gives 422. |
| UserHandlers.IntendedMintsExactlyOnNoResult | internal/handlers/userHandlers.go:156-169 | With the ErrNoResult sentinel, the branch mints iff the lookup found no token. |
| UserHandlers.ObtainToken | internal/handlers/userHandlers.go:156-169 | A stored token is reused. A mint is stored and returned. Any failure gives 422 with tokens unchanged. A returned token is always a stored token of the user. As written, tokens never change. |
| UserHandlers.UserRegisterHandler | internal/handlers/userHandlers.go:21-81 | A bad body or failed validation gives 422. 201 is returned iff the verifier is derived, nothing collides and no storage call fails. The 201 response carries the new user, and both the new user row and its new token row are stored. A failed insert gives 422 with both tables unchanged. A failed lookup or token write after the insert gives 422, leaving the new row stored with no token. |
| UserHandlers.GetUserHandler | internal/handlers/userHandlers.go:83-117 | 200 is returned iff the user and a token of the user are found. The 200 response is exactly the caller's stored row, without the verifier, plus a stored token of the caller. |
| UserHandlers.LoginUserHandler | internal/handlers/userHandlers.go:119-186 | 401 "Invalid credentials" is returned iff a valid request names no user or a wrong password. Otherwise the token branch decides. A 200 response carries the user with that email, whose password checks, and a stored token of theirs. |
| UserHandlers.Merged | internal/handlers/userHandlers.go:216-228 | Each of email, username, bio and image takes the payload's value when it is non-empty and keeps the stored value otherwise. Id, verifier and timestamps stay. |
| UserHandlers.MergeFields | internal/handlers/userHandlers.go:216-228 | The field-by-field overwrite yields Merged. |
| UserHandlers.MergeIdempotent | internal/handlers/userHandlers.go:216-228 | Applying a payload twice equals applying it once. |
| UserHandlers.MergeEmptyPayload | internal/handlers/userHandlers.go:216-228 | An all-empty payload changes nothing. |
| UserHandlers.WriteBackAndAnswer | internal/handlers/userHandlers.go:229-266 | A failed or clashing write gives 400 with nothing changed. Otherwise the caller's row is rewritten and the token branch decides the answer: a stored token gives 200, a mint gives 200 with the new token stored, and any failure gives 422 with the row still rewritten. |
| UserHandlers.UpdateUserHandler | internal/handlers/userHandlers.go:188-267 | A bad body gives 422. A failed read gives 401. After that the outcome is the full case analysis of WriteBackAndAnswer for the merged record. A failed write gives 400 with nothing changed. A 200 response carries the merged record with the pre-update timestamps, and the response token is stored for the caller. |
| UserHandlers.AdmittedCallerHasToken | internal/handlers/middleware.go:32-51 | A caller the gate admits holds a stored token row, so the token lookup of the update handler finds one unless that row is deleted in between. |
| UserHandlers.UpdateWithoutTokenAsWritten | internal/handlers/userHandlers.go:237-250 | As written, if the caller's token rows are gone by the time of the lookup, an update that clashes with nothing is answered 422. The row has been rewritten anyway, and no token is added. The gate lets no caller without a token row through, so this happens only when the row is deleted between the gate and the lookup, as with a concurrent logout. |
| UserHandlers.UpdateWithoutTokenIntended | internal/handlers/userHandlers.go:237-250 | With the sentinel, the same update, with the token rows gone by the time of the lookup, answers 200 with the updated record and a freshly minted token. The row is rewritten and the token is stored. |
| UserHandlers.LogoutHandler | internal/handlers/userHandlers.go:269-289 | A failed token lookup gives 401. A failed delete gives 400. Otherwise the response is 200 and exactly the rows holding the looked-up token are gone. |
| UserHandlers.LoginAfterLogoutAsWritten | internal/handlers/userHandlers.go:156-169 | As written, a user with one token who logs out and logs in again with the right password is answered 422 and has no token left. |
| UserHandlers.LoginAfterLogoutIntended | internal/handlers/userHandlers.go:156-169 | With the sentinel, the same sequence gives 200 with a freshly minted token, and that token is stored. |
| ProfileHandlers.LookupFailure | internal/handlers/profileHandler.go:143-152 | 404 is returned iff the lookup error is ErrUserNotFound. Every other error gives 500 "Internal server error". |
| ProfileHandlers.FollowHandler | internal/handlers/profileHandler.go:13-63 | A missing name gives 400. A failed lookup goes through LookupFailure. On success the edge is appended and the target's profile is returned with following set. A failed write gives 500 with nothing changed. |
| ProfileHandlers.UnFollowHandler | internal/handlers/profileHandler.go:65-115 | It succeeds iff the edge existed, and then exactly that edge is gone. The profile is returned as not followed. Otherwise the response is 500 and nothing changes. |
| ProfileHandlers.FollowingFlag | internal/handlers/profileHandler.go:154-162 | The flag is false without a caller or when the check fails. Otherwise it is true iff the edge is stored. |
| ProfileHandlers.CheckProfileHandler | internal/handlers/profileHandler.go:117-182 | A 200 response carries the stored user with that username and the following flag. Otherwise the response is 400, 404 or 500, as for follow. |
| ProfileHandlers.FollowThenView | internal/handlers/profileHandler.go:13-63 | After following a user, their profile shows following. |
| ProfileHandlers.UnfollowThenView | internal/handlers/profileHandler.go:65-115 | After unfollowing a followed user, their profile shows not following. |
| ArticleHandlers.Probe | internal/handlers/articleHandler.go:33 | The probe answers "taken" exactly for slugs in the table or in the set whose probe fails. |
| ArticleHandlers.FindFreeSlug | internal/handlers/articleHandler.go:29-40 | The loop ends at the least index whose slug the probe calls free. Every smaller index from 1 was taken. The index is at most one more than the number of blocked slugs. |
| ArticleHandlers.CreateArticleHandler | internal/handlers/articleHandler.go:11-84 | An unknown user gives 401. A bad body gives 422. Otherwise the row is stored under the first free slug, with zero timestamps and favorites 0. The 201 response is stamped now and shows favorited false and count 0. It answers 201 iff the user exists, the body decodes and the insert does not fail. A failed insert gives 422 "Failed to create article" with the table unchanged. |
| ArticleHandlers.QueryFor | internal/handlers/articleHandler.go:96-127 | An empty author or tag drops that filter. The selected query matches a row iff the row meets both given filters. |
| ArticleHandlers.ListingFor | internal/handlers/articleHandler.go:95-127 | The listing the form values select fails iff that query's listing fails. Otherwise it delivers that query's rows, cut short only by a broken stream. The 500 message is the one that belongs to that query. |
| ArticleHandlers.GetArticleHandler | internal/handlers/articleHandler.go:86-142 | Without a fault it returns 200 with exactly the rows meeting the given filters, in table order, and their count. It answers 500, with the message of the listing it ran, iff the listing's query fails or a scan fails at a selected row. A broken stream still gives 200, with the rows fetched before the break. |

## Left out

- Lower-casing covers ASCII letters only. Go's strings.ToLower lower-cases all of Unicode, and Go strings are bytes where the model uses characters.
- JSON encoding and decoding are not modelled. A body that does not decode is `None`, and a response carries values rather than text. In particular, GetArticles on an empty table gives a nil slice, which Go encodes as `null`; the model returns an empty sequence.
- The validator's message text is not modelled: every validation failure answers with one fixed message. The email rule is the `isEmail` parameter.
- Argon2id, PASETO encryption, token expiry inside PASETO, random salts and the clock are parameters. internal/security is not part of this model.
- ArticleHandlers.FindFreeSlug: the probe and the insert are not atomic in the source. Concurrent requests can pick the same slug, and the model does not capture that race. The slugs whose probe fails are a finite set, so the loop always ends; a probe that fails on every slug would loop forever in the source.
- UserRepository.Violation: when several unique keys collide at once, the order in which PostgreSQL reports them is a model choice (primary key, then email, then username). The table schema is not part of this model.
- Queries without ORDER BY return rows in table order. PostgreSQL makes no such promise.
- The defaults the schema assigns are not modelled from the schema: ids, timestamps and the token end date are parameters, and favorites_count is taken to default to 0.
- Error wrapping texts are kept only as far as the handlers depend on them. Errors from pgx are one `Failed` value with the wrapping context.
- UserRepository.UserStorage.AddToken: the "token not added" branch (zero rows affected by an INSERT) cannot be reached and is not modelled.
- Middleware.AuthMiddleware: the source cuts off the first six bytes of the header without checking them. The model cuts off the first six characters, which differ from bytes only for non-ASCII headers. With the documented `Bearer <token>` form, six bytes leave a leading space in front of the token, and that string is what gets decoded. A header shorter than six is a `Panic` outcome rather than a modelled crash. Logging is left out.
- UserRepository.UserStorage.GetUserForAuth, UserRepository.UserStorage.GetToken, UserRepository.UserStorage.CheckFollow: the source reads with `if rows.Next()` and never checks `rows.Err()` (user.go:166, 309, 438). A driver error during iteration therefore reaches the caller as UserNotFound, TokenIsNotFound or `false`, which the profile handlers answer with 404 rather than 500. The model sends every fault to `Failed` instead.
- UserRepository.UserStorage.FollowUser: following the same user twice stores two edges in the model. The schema is not part of this model, and the source itself does not prevent a second edge, so one edge per ordered pair is not stated.
- The router (internal/app), the handler constructors and HandleError's JSON wrapper are not part of this model.

## Findings

| source | as written | input that shows it | evidently intended | confidence | as-written member | corrected member |
|---|---|---|---|---|---|---|
| internal/handlers/userHandlers.go:157 | `errors.Is(err, errors.New("no result"))` compares with a freshly allocated error, so it is always false and the mint branch is dead. | A user logs out and then logs in again with the right password: FindTokenByUID returns ErrNoResult and the response is 422 "Failed to retrieve authentication token". | `errors.Is(err, repository.ErrNoResult)`, which mints and stores a new token. | not executed | UserHandlers.LoginAfterLogoutAsWritten | UserHandlers.LoginAfterLogoutIntended |
| internal/handlers/userHandlers.go:238 | The same `errors.Is` test against a freshly allocated error, in the update handler, after the row has already been written. | Reachable only if the caller's token rows are deleted between the gate and line 237, for example by a logout from another session running at the same time: the row is rewritten, FindTokenByUID returns ErrNoResult, and the answer is 422 "Failed to retrieve authentication token". Without such a race the gate guarantees a token row (UserHandlers.AdmittedCallerHasToken). | `errors.Is(err, repository.ErrNoResult)`: the update answers 200 with a new, stored token. | not executed | UserHandlers.UpdateWithoutTokenAsWritten | UserHandlers.UpdateWithoutTokenIntended |
