/** The article handlers of internal/handlers/articleHandler.go: creating an
    article under a fresh slug, and listing articles by author and tag. */
module ArticleHandlers {
  import opened Wrappers
  import opened Records
  import opened Errors
  import opened Slug
  import opened UserRepository
  import opened ArticleRepository
  import opened Http

  // ---------------------------------------------------------------------
  // Slug allocation

  /** The values f takes on 1 to n. */
  function Image(f: int -> string, n: nat): set<string>
  {
    if n == 0 then {} else Image(f, n - 1) + {f(n)}
  }

  lemma {:induction false} ImageMembers(f: int -> string, n: nat, s: string)
    ensures s in Image(f, n) <==> exists i :: 1 <= i <= n && f(i) == s
  {
    if n > 0 {
      ImageMembers(f, n - 1, s);
    }
  }

  /** Injective on the indices from 1 up. */
  ghost predicate InjectiveFromOne(f: int -> string)
  {
    forall i, j :: 1 <= i && 1 <= j && f(i) == f(j) ==> i == j
  }

  /** An f that is injective on the indices from 1 up takes n different
      values on 1 to n. */
  lemma {:induction false} ImageCount(f: int -> string, n: nat)
    requires InjectiveFromOne(f)
    ensures |Image(f, n)| == n
  {
    if n > 0 {
      ImageCount(f, n - 1);
      ImageMembers(f, n - 1, f(n));
      assert f(n) !in Image(f, n - 1);
    }
  }

  /** One more blocked probe: the probed values stay inside `blocked`, and
      there are as many of them as probes, so the count of probes is bounded
      by the size of `blocked`. */
  lemma ProbeStep(f: int -> string, n: nat, blocked: set<string>)
    requires InjectiveFromOne(f)
    requires Image(f, n) <= blocked && f(n + 1) in blocked
    ensures Image(f, n + 1) <= blocked
    ensures n + 1 <= |blocked|
  {
    ImageCount(f, n + 1);
    SubsetCardinality(Image(f, n + 1), blocked);
  }

  /** The slugs the existence probe reports as taken: those of stored rows,
      and those whose probe fails (IsSlugExists answers true on a failure). */
  function Blocked(articles: ArticleStorage, probeFaults: set<string>): set<string>
    reads articles
  {
    probeFaults + set a | a in articles.rows :: a.slug
  }

  /** The existence probe at `slug`, failing when the slug is in probeFaults. */
  function Probe(articles: ArticleStorage, probeFaults: set<string>, slug: string): (taken: bool)
    reads articles
    ensures taken <==> slug in Blocked(articles, probeFaults)
  {
    articles.IsSlugExists(slug, slug in probeFaults)
  }

  /** The probe loop of CreateArticleHandler: try indices 1, 2, ... until
      the probe answers "free". It ends, at the least free index, which is at
      most one more than the number of blocked slugs. */
  method FindFreeSlug(articles: ArticleStorage, title: string, probeFaults: set<string>)
    returns (slug: string, index: int)
    ensures index >= 1 && slug == Slugify(title, index)
    ensures !Probe(articles, probeFaults, slug)
    ensures forall i :: 1 <= i < index ==> Probe(articles, probeFaults, Slugify(title, i))
    ensures index <= |Blocked(articles, probeFaults)| + 1
  {
    ghost var blocked := Blocked(articles, probeFaults);
    ghost var probed := (i: int) => Slugify(title, i);
    ProbesInjective(title, probed);
    index := 1;
    slug := Slugify(title, index);
    var shouldFindSlug := true;
    while shouldFindSlug
      invariant index >= 1 && slug == Slugify(title, index)
      invariant Image(probed, index - 1) <= blocked
      invariant index - 1 <= |blocked|
      invariant !shouldFindSlug ==> !Probe(articles, probeFaults, slug)
      decreases if shouldFindSlug then |blocked| + 2 - index else 0
    {
      shouldFindSlug := articles.IsSlugExists(slug, slug in probeFaults);
      if shouldFindSlug {
        assert probed(index) == slug;
        ProbeStep(probed, index - 1, blocked);
        index := index + 1;
        slug := Slugify(title, index);
      } else {
        shouldFindSlug := false;
      }
    }
    ProbedAreBlocked(articles, probeFaults, title, probed, index - 1);
  }

  /** The probe sequence of one title never repeats a slug. */
  lemma ProbesInjective(title: string, f: int -> string)
    requires forall i :: f(i) == Slugify(title, i)
    ensures InjectiveFromOne(f)
  {
    forall i, j | 1 <= i && 1 <= j && f(i) == f(j) ensures i == j {
      SlugifyInjective(title, title, i, j);
    }
  }

  /** Every slug in the image of the probe sequence is one the probe
      reports as taken. */
  lemma ProbedAreBlocked(articles: ArticleStorage, probeFaults: set<string>, title: string,
                         f: int -> string, n: nat)
    requires forall i :: f(i) == Slugify(title, i)
    requires Image(f, n) <= Blocked(articles, probeFaults)
    ensures forall i :: 1 <= i <= n ==> Probe(articles, probeFaults, Slugify(title, i))
  {
    forall i | 1 <= i <= n ensures Probe(articles, probeFaults, Slugify(title, i)) {
      ImageMembers(f, n, f(i));
    }
  }

  lemma SubsetCardinality<T>(a: set<T>, b: set<T>)
    requires a <= b
    ensures |a| <= |b|
  {
    if a != {} {
      var x :| x in a;
      SubsetCardinality(a - {x}, b - {x});
    }
  }

  // ---------------------------------------------------------------------
  // CreateArticleHandler

  datatype CreateRequest = CreateRequest(title: string, description: string, body: string, tagList: seq<string>)

  /** The row CreateArticleHandler stores: the request's fields, the
      caller's username as author, a zero favorites count and zero
      timestamps. */
  function NewArticle(req: CreateRequest, slug: string, author: string): Article
  {
    Article(slug, req.title, req.description, req.body, req.tagList, ZeroTime, ZeroTime, 0, author)
  }

  /** CreateArticleHandler: find the caller (401 when that fails), decode the
      body (422), allocate the slug, insert the row (422 on failure) and
      answer 201 with the article, stamped `now` in the answer only. */
  method CreateArticleHandler(users: UserStorage, articles: ArticleStorage, uid: string,
                              body: Option<CreateRequest>, probeFaults: set<string>, now: Time,
                              userFault: bool, insertFault: bool)
    returns (resp: Response)
    requires articles.Valid()
    modifies articles
    ensures articles.Valid()
    ensures users.GetUserForApi(uid, userFault).Err? ==>
      resp == ErrorReply(StatusUnauthorized, "User not found") && articles.rows == old(articles.rows)
    ensures users.GetUserForApi(uid, userFault).Ok? && body.None? ==>
      resp == ErrorReply(StatusUnprocessableEntity, "Failed to decode request body") && articles.rows == old(articles.rows)
    ensures resp.status == StatusCreated ==>
      body.Some? && users.GetUserForApi(uid, userFault).Ok? && resp.ArticleReply? &&
      var author := users.GetUserForApi(uid, userFault).value.username;
      var req := body.value;
      var slug := resp.article.slug;
      (exists index :: index >= 1 && slug == Slugify(req.title, index) &&
        forall i :: 1 <= i < index ==> old(Probe(articles, probeFaults, Slugify(req.title, i)))) &&
      slug !in old(Blocked(articles, probeFaults)) &&
      articles.rows == old(articles.rows) + [NewArticle(req, slug, author)] &&
      resp.article == ArticleView(slug, req.title, req.description, req.body, req.tagList, now, now, false, 0, author)
    ensures resp.status != StatusCreated ==> resp.ErrorReply? && articles.rows == old(articles.rows)
    ensures users.GetUserForApi(uid, userFault).Ok? && body.Some? && !insertFault ==> resp.status == StatusCreated
    ensures users.GetUserForApi(uid, userFault).Ok? && body.Some? && insertFault ==>
      resp == ErrorReply(StatusUnprocessableEntity, "Failed to create article") && articles.rows == old(articles.rows)
  {
    var user := users.GetUserForApi(uid, userFault);
    if user.Err? {
      return ErrorReply(StatusUnauthorized, "User not found");
    }
    if body.None? {
      return ErrorReply(StatusUnprocessableEntity, "Failed to decode request body");
    }
    var req := body.value;
    var slug, index := FindFreeSlug(articles, req.title, probeFaults);
    var article := NewArticle(req, slug, user.value.username);
    var err := articles.CreateArticle(article, insertFault);
    if err.Some? {
      return ErrorReply(StatusUnprocessableEntity, "Failed to create article");
    }
    resp := ArticleReply(StatusCreated, ArticleView(slug, article.title, article.description, article.body,
                                                    article.tagList, now, now, false, 0, user.value.username));
  }

  // ---------------------------------------------------------------------
  // GetArticleHandler

  /** The query GetArticleHandler runs for the `author` and `tag` form
      values: an empty value means that filter is absent. */
  function QueryFor(author: string, tag: string): (q: Query)
    ensures forall a :: Matches(q, a) <==> (author == "" || a.author == author) && (tag == "" || tag in a.tagList)
  {
    if author == "" && tag == "" then All
    else if author != "" && tag != "" then ByAuthorAndTag(author, tag)
    else if author != "" then ByAuthor(author)
    else ByTag(tag)
  }

  /** The 500 message of each listing GetArticleHandler can run. */
  function ListingFailure(q: Query): string
  {
    match q
    case All => "Failed to get articles"
    case ByAuthor(_) => "Failed to get articles by author"
    case ByTag(_) => "Failed to get articles by tag"
    case ByAuthorAndTag(_, _) => "Failed to get articles by author and tag"
  }

  /** GetArticleHandler: run the query the filters select and answer 200
      with the rows and their count, or 500 when the listing fails. A
      broken result stream is not noticed: the answer is 200 with the rows
      delivered before it broke. */
  method GetArticleHandler(articles: ArticleStorage, author: string, tag: string, fault: ReadFault)
    returns (resp: Response)
    ensures fault == NoFault ==>
      resp == ArticlesReply(StatusOK, Selected(articles.rows, QueryFor(author, tag)),
                            |Selected(articles.rows, QueryFor(author, tag))|)
    ensures resp.ArticlesReply? ==>
      resp.status == StatusOK && resp.articlesCount == |resp.articles| &&
      resp.articles == Delivered(articles.rows, QueryFor(author, tag), fault)
    ensures resp.ArticlesReply? ==>
      forall a :: a in resp.articles ==>
        a in articles.rows && (author == "" || a.author == author) && (tag == "" || tag in a.tagList)
    ensures resp.ArticlesReply? && !fault.StreamEndsAt? ==>
      forall a :: a in resp.articles <==>
        a in articles.rows && (author == "" || a.author == author) && (tag == "" || tag in a.tagList)
    ensures !resp.ArticlesReply? ==> resp == ErrorReply(StatusInternalServerError, ListingFailure(QueryFor(author, tag)))
    ensures resp.status == StatusInternalServerError <==> ListingFails(articles.rows, QueryFor(author, tag), fault)
  {
    var listed, failure := ListingFor(articles, author, tag, fault);
    if listed.Err? {
      return ErrorReply(StatusInternalServerError, failure);
    }
    DeliveredMembers(articles.rows, QueryFor(author, tag), fault);
    resp := ArticlesReply(StatusOK, listed.value, |listed.value|);
  }

  /** The choice of listing in GetArticleHandler: the query the form values
      select, run through the repository method for it, with the 500
      message that goes with it. */
  method ListingFor(articles: ArticleStorage, author: string, tag: string, fault: ReadFault)
    returns (listed: Result<seq<Article>, RepoError>, failure: string)
    ensures listed.Err? <==> ListingFails(articles.rows, QueryFor(author, tag), fault)
    ensures listed.Ok? ==> listed.value == Delivered(articles.rows, QueryFor(author, tag), fault)
    ensures failure == ListingFailure(QueryFor(author, tag))
  {
    if author == "" && tag == "" {
      listed := articles.GetArticles(fault);
      failure := "Failed to get articles";
    } else if author != "" && tag != "" {
      listed := articles.GetArticlesByAuthorAndTag(author, tag, fault);
      failure := "Failed to get articles by author and tag";
    } else if author != "" {
      listed := articles.GetArticlesByAuthor(author, fault);
      failure := "Failed to get articles by author";
    } else {
      listed := articles.GetArticlesByTag(tag, fault);
      failure := "Failed to get articles by tag";
    }
  }
}
