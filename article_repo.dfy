/** The article storage of internal/repository/article.go over an in-memory
    `article` table. Every error it returns wraps a driver error with the
    name of the operation, so the model reports `Failed(<operation>)`. */
module ArticleRepository {
  import opened Wrappers
  import opened Tables
  import opened Records
  import opened Errors

  /** The favorites_count a freshly inserted row gets: the INSERT does not
      name the column, so the table's default applies. */
  const FavoritesDefault: int := 0

  /** The WHERE clause of the four listing queries. */
  datatype Query =
    | All
    | ByAuthor(author: string)
    | ByTag(tag: string)
    | ByAuthorAndTag(author: string, tag: string)

  /** Whether a row satisfies the query; `taglist @> ARRAY[tag]` holds when
      the tag occurs in the row's tag list. */
  predicate Matches(q: Query, a: Article)
  {
    match q
    case All => true
    case ByAuthor(author) => a.author == author
    case ByTag(tag) => tag in a.tagList
    case ByAuthorAndTag(author, tag) => a.author == author && tag in a.tagList
  }

  /** The rows a query selects, in table order. */
  function Selected(rows: seq<Article>, q: Query): seq<Article>
  {
    Filter(rows, (a: Article) => Matches(q, a))
  }

  /** The operation name a listing wraps its errors with. */
  function ListingOp(q: Query): string
  {
    match q
    case All => "repository.PostgresArticleStorage.GetArticles"
    case ByAuthor(_) => "repository.PostgresArticleStorage.GetArticlesByAuthor"
    case ByTag(_) => "repository.PostgresArticleStorage.GetArticlesByTag"
    case ByAuthorAndTag(_, _) => "repository.PostgresArticleStorage.GetArticlesByAuthorAndTag"
  }

  /** How a read can fail: the query itself, the scan of the row at a given
      position of the result, or the stream of result rows, which breaks
      before the row at a given position is fetched. */
  datatype ReadFault = NoFault | QueryFails | ScanFailsAt(row: nat) | StreamEndsAt(row: nat)

  /** Whether a listing with query `q` fails under `fault`: the query fails,
      or the scan fails at a row the query selects. */
  predicate ListingFails(rows: seq<Article>, q: Query, fault: ReadFault)
  {
    fault == QueryFails || (fault.ScanFailsAt? && fault.row < |Selected(rows, q)|)
  }

  /** What a listing that does not fail hands back: the selected rows, cut
      short where the stream breaks. The listings never consult rows.Err(),
      so a broken stream ends the `for rows.Next()` loop as if the result
      had no more rows. */
  function Delivered(rows: seq<Article>, q: Query, fault: ReadFault): (d: seq<Article>)
    ensures d <= Selected(rows, q)
    ensures |d| < |Selected(rows, q)| ==> fault.StreamEndsAt? && |d| == fault.row
  {
    var selected := Selected(rows, q);
    if fault.StreamEndsAt? && fault.row < |selected| then selected[..fault.row] else selected
  }

  /** Every row a listing delivers is a stored row the query matches; with
      an unbroken stream, every such row is delivered. */
  lemma DeliveredMembers(rows: seq<Article>, q: Query, fault: ReadFault)
    ensures forall a :: a in Delivered(rows, q, fault) ==> a in rows && Matches(q, a)
    ensures !fault.StreamEndsAt? ==> forall a :: a in Delivered(rows, q, fault) <==> a in rows && Matches(q, a)
  {
    forall a | a in Delivered(rows, q, fault) ensures a in Selected(rows, q) {
      var i :| 0 <= i < |Delivered(rows, q, fault)| && Delivered(rows, q, fault)[i] == a;
      assert Selected(rows, q)[i] == a;
    }
  }

  /** The row an UPDATE ... WHERE slug = $6 leaves behind. */
  function Revised(stored: Article, a: Article): Article
  {
    stored.(title := a.title, description := a.description, body := a.body,
            tagList := a.tagList, updatedAt := a.updatedAt)
  }

  /** Slugs are the table's unique key. */
  ghost predicate UniqueSlugs(rows: seq<Article>)
  {
    forall i, j :: 0 <= i < j < |rows| ==> rows[i].slug != rows[j].slug
  }

  class ArticleStorage {
    var rows: seq<Article>

    ghost predicate Valid()
      reads this
    {
      UniqueSlugs(rows)
    }

    constructor ()
      ensures Valid() && rows == []
    {
      rows := [];
    }

    /** IsSlugExists as written: true when a row has this slug, and true as
        well when the probe fails (`fault`) for any reason other than "no
        rows"; false only when no row has the slug. */
    function IsSlugExists(slug: string, fault: bool): (r: bool)
      reads this
      ensures !r <==> !fault && forall a :: a in rows ==> a.slug != slug
      ensures (exists a :: a in rows && a.slug == slug) ==> r
    {
      fault || exists a :: a in rows && a.slug == slug
    }

    /** CreateArticle: insert the row, with the default favorites count; a
        taken slug or a failing exec leaves the table as it was. */
    method CreateArticle(a: Article, fault: bool) returns (err: Option<RepoError>)
      requires Valid()
      modifies this
      ensures Valid()
      ensures err.None? <==> !fault && forall b :: b in old(rows) ==> b.slug != a.slug
      ensures err.None? ==> rows == old(rows) + [a.(favoritesCount := FavoritesDefault)]
      ensures err.Some? ==> err == Some(Failed("repository.PostgresArticleStorage.CreateArticle")) && rows == old(rows)
    {
      if fault || exists b :: b in rows && b.slug == a.slug {
        return Some(Failed("repository.PostgresArticleStorage.CreateArticle"));
      }
      rows := rows + [a.(favoritesCount := FavoritesDefault)];
      err := None;
    }

    /** DeleteArticle: remove the row with this slug; an absent slug is not
        an error. */
    method DeleteArticle(slug: string, fault: bool) returns (err: Option<RepoError>)
      requires Valid()
      modifies this
      ensures Valid()
      ensures err.None? <==> !fault
      ensures err.None? ==> rows == Filter(old(rows), (a: Article) => a.slug != slug)
      ensures err.None? ==> forall a :: a in rows <==> a in old(rows) && a.slug != slug
      ensures err.None? && (forall a :: a in old(rows) ==> a.slug != slug) ==> rows == old(rows)
      ensures err.Some? ==> rows == old(rows)
    {
      if fault {
        return Some(Failed("repository.PostgresArticleStorage.DeleteArticle"));
      }
      FilterKeepsSlugsUnique(rows, (a: Article) => a.slug != slug);
      FilterAllKept(rows, (a: Article) => a.slug != slug);
      rows := Filter(rows, (a: Article) => a.slug != slug);
      err := None;
    }

    /** UpdateArticle: rewrite title, description, body, tag list and
        updated_at of the row whose slug is a's; slug, author, created_at and
        favorites count stay, and a missing slug changes nothing and is not
        an error. */
    method UpdateArticle(a: Article, fault: bool) returns (err: Option<RepoError>)
      requires Valid()
      modifies this
      ensures Valid()
      ensures err.None? <==> !fault
      ensures |rows| == |old(rows)|
      ensures forall k :: 0 <= k < |rows| ==>
        rows[k] == if err.None? && old(rows)[k].slug == a.slug then Revised(old(rows)[k], a) else old(rows)[k]
      ensures forall k :: 0 <= k < |rows| ==>
        rows[k].slug == old(rows)[k].slug && rows[k].author == old(rows)[k].author &&
        rows[k].createdAt == old(rows)[k].createdAt && rows[k].favoritesCount == old(rows)[k].favoritesCount
    {
      if fault {
        return Some(Failed("repository.PostgresArticleStorage.UpdateArticle"));
      }
      var before := rows;
      rows := seq(|before|, k requires 0 <= k < |before| =>
        if before[k].slug == a.slug then Revised(before[k], a) else before[k]);
      err := None;
    }

    /** GetArticleBySlug: the row with this slug; none is an error. */
    function GetArticleBySlug(slug: string, fault: bool): (r: Result<Article, RepoError>)
      reads this
      ensures r.Ok? ==> r.value in rows && r.value.slug == slug
      ensures r.Err? <==> fault || forall a :: a in rows ==> a.slug != slug
      ensures r.Err? ==> r.error == Failed("repository.PostgresArticleStorage.GetArticleBySlug")
    {
      if fault then Err(Failed("repository.PostgresArticleStorage.GetArticleBySlug"))
      else match First(rows, (a: Article) => a.slug == slug)
        case None => Err(Failed("repository.PostgresArticleStorage.GetArticleBySlug"))
        case Some(a) => Ok(a)
    }

    /** The `for rows.Next()` loop shared by the four listings: fetch the
        selected rows one by one, scan them and append them. A failing query
        or a failing scan aborts the listing with no rows; a broken stream
        ends the loop early and the rows so far are returned as a success. */
    method List(q: Query, fault: ReadFault) returns (r: Result<seq<Article>, RepoError>)
      ensures r.Err? <==> ListingFails(rows, q, fault)
      ensures r.Err? ==> r == Err(Failed(ListingOp(q)))
      ensures r.Ok? ==> r.value == Delivered(rows, q, fault)
      ensures fault == NoFault ==> r == Ok(Selected(rows, q))
    {
      if fault == QueryFails {
        return Err(Failed(ListingOp(q)));
      }
      var selected := Selected(rows, q);
      var articles: seq<Article> := [];
      var k := 0;
      while k < |selected|
        invariant 0 <= k <= |selected|
        invariant articles == selected[..k]
        invariant fault.ScanFailsAt? ==> fault.row >= k
        invariant fault.StreamEndsAt? ==> fault.row >= k
      {
        if fault == StreamEndsAt(k) {
          return Ok(articles);
        }
        if fault == ScanFailsAt(k) {
          return Err(Failed(ListingOp(q)));
        }
        articles := articles + [selected[k]];
        k := k + 1;
      }
      assert selected[..k] == selected;
      r := Ok(articles);
    }

    /** GetArticles: every row. */
    method GetArticles(fault: ReadFault) returns (r: Result<seq<Article>, RepoError>)
      ensures fault == NoFault ==> r == Ok(rows)
      ensures r.Ok? ==> r.value == Delivered(rows, All, fault) && r.value <= rows
      ensures r.Ok? && |r.value| < |rows| ==> fault.StreamEndsAt?
      ensures r.Err? <==> ListingFails(rows, All, fault)
      ensures r.Err? ==> r == Err(Failed(ListingOp(All)))
    {
      SelectAll(rows);
      r := List(All, fault);
    }

    /** GetArticlesByAuthor: exactly the rows whose author is the argument. */
    method GetArticlesByAuthor(author: string, fault: ReadFault) returns (r: Result<seq<Article>, RepoError>)
      ensures fault == NoFault ==> r == Ok(Selected(rows, ByAuthor(author)))
      ensures r.Ok? ==> r.value == Delivered(rows, ByAuthor(author), fault)
      ensures r.Ok? ==> forall a :: a in r.value ==> a in rows && a.author == author
      ensures r.Ok? && !fault.StreamEndsAt? ==> forall a :: a in r.value <==> a in rows && a.author == author
      ensures r.Err? <==> ListingFails(rows, ByAuthor(author), fault)
      ensures r.Err? ==> r == Err(Failed(ListingOp(ByAuthor(author))))
    {
      r := List(ByAuthor(author), fault);
    }

    /** GetArticlesByTag: exactly the rows whose tag list holds the tag. */
    method GetArticlesByTag(tag: string, fault: ReadFault) returns (r: Result<seq<Article>, RepoError>)
      ensures fault == NoFault ==> r == Ok(Selected(rows, ByTag(tag)))
      ensures r.Ok? ==> r.value == Delivered(rows, ByTag(tag), fault)
      ensures r.Ok? ==> forall a :: a in r.value ==> a in rows && tag in a.tagList
      ensures r.Ok? && !fault.StreamEndsAt? ==> forall a :: a in r.value <==> a in rows && tag in a.tagList
      ensures r.Err? <==> ListingFails(rows, ByTag(tag), fault)
      ensures r.Err? ==> r == Err(Failed(ListingOp(ByTag(tag))))
    {
      r := List(ByTag(tag), fault);
    }

    /** GetArticlesByAuthorAndTag: the rows both filters keep. */
    method GetArticlesByAuthorAndTag(author: string, tag: string, fault: ReadFault)
      returns (r: Result<seq<Article>, RepoError>)
      ensures fault == NoFault ==> r == Ok(Selected(Selected(rows, ByAuthor(author)), ByTag(tag)))
      ensures r.Ok? ==> r.value == Delivered(rows, ByAuthorAndTag(author, tag), fault)
      ensures r.Ok? ==> forall a :: a in r.value ==> a in rows && a.author == author && tag in a.tagList
      ensures r.Ok? && !fault.StreamEndsAt? ==>
        forall a :: a in r.value <==> a in rows && a.author == author && tag in a.tagList
      ensures r.Err? <==> ListingFails(rows, ByAuthorAndTag(author, tag), fault)
      ensures r.Err? ==> r == Err(Failed(ListingOp(ByAuthorAndTag(author, tag))))
    {
      AuthorAndTagIsIntersection(rows, author, tag);
      r := List(ByAuthorAndTag(author, tag), fault);
    }
  }

  /** Because slugs are unique, looking a stored article up by its slug
      returns exactly that row. */
  lemma SlugLookupFindsRow(store: ArticleStorage, a: Article)
    requires store.Valid() && a in store.rows
    ensures store.GetArticleBySlug(a.slug, false) == Ok(a)
  {
    var i :| 0 <= i < |store.rows| && store.rows[i] == a;
    forall b | b in store.rows && b.slug == a.slug ensures b == a {
      var j :| 0 <= j < |store.rows| && store.rows[j] == b;
      assert i == j;
    }
    FirstOfUnique(store.rows, (b: Article) => b.slug == a.slug, a);
  }

  /** The author-and-tag query selects what the tag query selects from the
      author query's result: the intersection of the two filters, in table
      order. */
  lemma AuthorAndTagIsIntersection(rows: seq<Article>, author: string, tag: string)
    ensures Selected(rows, ByAuthorAndTag(author, tag)) == Selected(Selected(rows, ByAuthor(author)), ByTag(tag))
  {
    FilterConjunction(rows, (a: Article) => Matches(ByAuthor(author), a),
      (a: Article) => Matches(ByTag(tag), a), (a: Article) => Matches(ByAuthorAndTag(author, tag), a));
  }

  /** The unconditioned query returns the whole table. */
  lemma {:induction false} SelectAll(rows: seq<Article>)
    ensures Selected(rows, All) == rows
  {
    if rows != [] {
      SelectAll(rows[1..]);
      assert Selected(rows, All) == [rows[0]] + Selected(rows[1..], All);
    }
  }

  lemma {:induction false} FilterKeepsSlugsUnique(rows: seq<Article>, keep: Article -> bool)
    requires UniqueSlugs(rows)
    ensures UniqueSlugs(Filter(rows, keep))
  {
    if rows != [] {
      assert UniqueSlugs(rows[1..]) by {
        forall i, j | 0 <= i < j < |rows[1..]| ensures rows[1..][i].slug != rows[1..][j].slug {
          assert rows[1..][i] == rows[i + 1] && rows[1..][j] == rows[j + 1];
        }
      }
      FilterKeepsSlugsUnique(rows[1..], keep);
      if keep(rows[0]) {
        forall x | x in Filter(rows[1..], keep) ensures x.slug != rows[0].slug {
          var k :| 1 <= k < |rows| && rows[k] == x;
        }
      }
    }
  }

  /** Filtering with a predicate every row satisfies changes nothing. */
  lemma {:induction false} FilterAllKept<T(!new)>(s: seq<T>, keep: T -> bool)
    ensures (forall x :: x in s ==> keep(x)) ==> Filter(s, keep) == s
  {
    if s != [] && forall x :: x in s ==> keep(x) {
      FilterAllKept(s[1..], keep);
      assert forall x :: x in s[1..] ==> x in s;
    }
  }
}
