/** The read-only views of `sitecontent/views.py`: the service, project
    and blog listings and the blog detail page. Each is a function of the
    stored records (a sequence per table, in storage order) and of the
    query string; what is handed to the template is the result. */
module Views {
  import opened Wrappers
  import opened Strings
  import opened Sorting
  import opened Content
  import opened Pagination
  import opened Digits

  /** `request.GET`: each query parameter with its (last) value. */
  type Query = map<string, string>

  /** `(request.GET.get(key) or "").strip()`. */
  function Param(get: Query, key: string): (v: string)
    ensures key !in get ==> v == []
    ensures NoEdgeSpace(v)
  {
    var raw := if key in get then get[key] else [];
    StripSpec(raw);
    Strip(raw)
  }

  // ---------------------------------------------------------------------
  // services_list

  /** `Q(title__icontains=q) | Q(excerpt__icontains=q) | Q(body__icontains=q)`. */
  predicate ServiceMatches(s: Service, q: string) {
    IContains(s.title, q) || IContains(s.excerpt, q) || IContains(s.body, q)
  }

  /** The search is applied only for a non-empty `q`. */
  predicate ServiceSelected(s: Service, q: string) {
    q == [] || ServiceMatches(s, q)
  }

  /** `-updated` is honoured; `title` and anything else order by title. */
  function ServiceOrderFor(sort: string): (o: ServiceOrder)
    ensures o == ServiceUpdatedDesc <==> sort == "-updated"
  {
    if sort == "-updated" then ServiceUpdatedDesc else ServiceTitle
  }

  /** `services_list`: exactly the services matching the stripped `q`
      (all of them when `q` is blank), each once per stored row, in the
      order the stripped `sort` selects. */
  function ServicesList(services: seq<Service>, get: Query): (r: seq<Service>)
    ensures forall x :: multiset(r)[x] == if ServiceSelected(x, Param(get, "q")) then multiset(services)[x] else 0
    ensures Param(get, "sort") == "-updated" ==> forall i, j :: 0 <= i < j < |r| ==> r[i].updated >= r[j].updated
    ensures Param(get, "sort") != "-updated" ==> forall i, j :: 0 <= i < j < |r| ==> LexLe(r[i].title, r[j].title)
  {
    var q := Param(get, "q");
    var o := ServiceOrderFor(Param(get, "sort"));
    ServiceLePreorder(o);
    Select(services, (s: Service) => ServiceSelected(s, q), ServiceLe(o))
  }

  /** A blank (or all-whitespace) `q` leaves every service in the list. */
  lemma ServicesBlankQueryKeepsAll(services: seq<Service>, get: Query)
    requires Param(get, "q") == []
    ensures multiset(ServicesList(services, get)) == multiset(services)
  {
    var r := ServicesList(services, get);
    forall x ensures multiset(r)[x] == multiset(services)[x] {
    }
  }

  // ---------------------------------------------------------------------
  // projects_list

  /** The free-text search over six fields. */
  predicate ProjectMatches(p: Project, q: string) {
    || IContains(p.title, q) || IContains(p.client, q) || IContains(p.location, q)
    || IContains(p.context, q) || IContains(p.solution, q) || IContains(p.results, q)
  }

  /** The search and the three field filters, each applied only when its
      parameter is not blank, and all of them together. */
  predicate ProjectSelected(p: Project, q: string, client: string, location: string, year: string) {
    && (q == [] || ProjectMatches(p, q))
    && (client == [] || IContains(p.client, client))
    && (location == [] || IContains(p.location, location))
    && (year == [] || IContains(p.year, year))
  }

  /** The allow-list `-year`, `year`, `title`, `-created`; anything else
      orders by `-created, title`. */
  function ProjectOrderFor(sort: string): (o: ProjectOrder)
    ensures sort == "-year" ==> o == ProjectYearDesc
    ensures sort == "year" ==> o == ProjectYear
    ensures sort == "title" ==> o == ProjectTitle
    ensures sort == "-created" ==> o == ProjectCreatedDesc
    ensures sort !in {"-year", "year", "title", "-created"} ==> o == ProjectCreatedDescTitle
  {
    if sort == "-year" then ProjectYearDesc
    else if sort == "year" then ProjectYear
    else if sort == "title" then ProjectTitle
    else if sort == "-created" then ProjectCreatedDesc
    else ProjectCreatedDescTitle
  }

  function ProjectsSelectedBy(get: Query): Project -> bool {
    var q, client, location, year := Param(get, "q"), Param(get, "client"), Param(get, "location"), Param(get, "year");
    (p: Project) => ProjectSelected(p, q, client, location, year)
  }

  /** The project query set before pagination: the projects that pass the
      search and every filter given, each once per stored row, in the
      chosen order. It never holds a project that is not stored. */
  function ProjectsQuery(projects: seq<Project>, get: Query): (r: seq<Project>)
    ensures forall x :: multiset(r)[x] == if ProjectsSelectedBy(get)(x) then multiset(projects)[x] else 0
    ensures forall x :: x in r ==> x in projects
    ensures SortedBy(r, ProjectLe(ProjectOrderFor(Param(get, "sort"))))
  {
    var o := ProjectOrderFor(Param(get, "sort"));
    ProjectLePreorder(o);
    Select(projects, ProjectsSelectedBy(get), ProjectLe(o))
  }

  /** `projects_list`: the page of the query set that `page` (default
      `"1"`, not stripped) selects, nine projects at most; the first page
      when there is no page parameter. */
  function ProjectsList(projects: seq<Project>, get: Query): (p: Page<Project>)
    ensures p.numPages == NumPages(|ProjectsQuery(projects, get)|)
    ensures 1 <= p.number <= p.numPages
    ensures |p.items| <= PerPage
    ensures p.items == PageItems(ProjectsQuery(projects, get), p.number)
    ensures "page" !in get ==> p.number == 1
  {
    var qs := ProjectsQuery(projects, get);
    var page := if "page" in get then get["page"] else "1";
    DefaultPageIsFirst(|qs|);
    Paginate(qs, Some(page))
  }

  // ---------------------------------------------------------------------
  // blog_list

  predicate PostMatches(p: Post, q: string) {
    IContains(p.title, q) || IContains(p.body, q)
  }

  /** The year to filter on: a non-empty string of decimal digits (of any
      script) that `int` accepts, read as `int` reads it; anything else
      leaves the year unfiltered. */
  function YearValue(year: string): (v: Option<nat>)
    ensures v.Some? <==> year != [] && |year| <= MaxDigits && AllDecimal(year)
    ensures v.Some? ==> ParseInt(year) == Some(v.value as int)
  {
    if year != [] && |year| <= MaxDigits && AllDecimal(year) then
      ParseIntDecimal(year);
      Some(DecimalsValue(year))
    else None
  }

  /** Published, matching `q` when it is not blank, and of the given year when one is given. */
  predicate PostSelected(p: Post, q: string, year: Option<nat>) {
    && p.published
    && (q == [] || PostMatches(p, q))
    && (year.None? || p.pubDate.year == year.value)
  }

  /** `-pub_date`, `pub_date` and `title` are honoured; anything else keeps
      the model's default order, `-pub_date`. */
  function PostOrderFor(sort: string): (o: PostOrder)
    ensures sort == "pub_date" ==> o == PostPubDate
    ensures sort == "title" ==> o == PostTitle
    ensures sort != "pub_date" && sort != "title" ==> o == PostPubDateDesc
  {
    if sort == "pub_date" then PostPubDate
    else if sort == "title" then PostTitle
    else PostPubDateDesc
  }

  /** The blog query set for the search `q`, the year filter `year` and the sort key `sort`. */
  function BlogQueryWith(posts: seq<Post>, q: string, year: Option<nat>, sort: string): (r: seq<Post>)
    ensures forall x :: multiset(r)[x] == if PostSelected(x, q, year) then multiset(posts)[x] else 0
    ensures forall x :: x in r ==> x in posts && x.published
    ensures SortedBy(r, PostLe(PostOrderFor(sort)))
  {
    var o := PostOrderFor(sort);
    PostLePreorder(o);
    Select(posts, (p: Post) => PostSelected(p, q, year), PostLe(o))
  }

  datatype BlogPage = BlogPage(page: Page<Post>, isPaginated: bool)

  /** The page of `qs` that `page` selects (no parameter: the first), and
      `is_paginated`, which is `page_obj.has_other_pages()`. */
  function BlogPageOf(qs: seq<Post>, get: Query): (b: BlogPage)
    ensures b.page.numPages == NumPages(|qs|)
    ensures 1 <= b.page.number <= b.page.numPages
    ensures |b.page.items| <= PerPage
    ensures b.page.items == PageItems(qs, b.page.number)
    ensures "page" !in get ==> b.page.number == 1
    ensures b.isPaginated <==> b.page.numPages > 1
  {
    var p := Paginate(qs, if "page" in get then Some(get["page"]) else None);
    BlogPage(p, p.number > 1 || p.number < p.numPages)
  }

  /** `blog_list` with the year filter as evidently intended: only
      published posts; the search when `q` is not blank; the year filter
      when `year` is a string of decimal digits, keeping the posts of
      exactly that year. */
  function BlogList(posts: seq<Post>, get: Query): (b: BlogPage)
    ensures var qs := BlogQueryWith(posts, Param(get, "q"), YearValue(Param(get, "year")), Param(get, "sort"));
      && b.page.numPages == NumPages(|qs|)
      && 1 <= b.page.number <= b.page.numPages
      && b.page.items == PageItems(qs, b.page.number)
    ensures forall x :: x in b.page.items ==> x in posts && x.published
    ensures |b.page.items| <= PerPage
    ensures b.isPaginated <==> b.page.numPages > 1
  {
    var qs := BlogQueryWith(posts, Param(get, "q"), YearValue(Param(get, "year")), Param(get, "sort"));
    BlogPageOf(qs, get)
  }

  // The year filter as written: `year.isdigit()` guards `int(year)`, and the
  // year lookup then builds the dates 1 January and 31 December of that year.

  /** `str.isdigit()`: not empty, and every character a digit in the
      Unicode sense (decimal digits of every script, and also the
      superscripts, circled digits and the like, which `int` refuses). */
  predicate PyIsDigitString(s: string) {
    s != [] && forall i :: 0 <= i < |s| ==> IsDigitChar(s[i])
  }

  /** What the code does with `year`: no filter when `isdigit()` is false;
      a `ValueError` (a server error) when `int()` refuses the digits or
      the year lies outside the 1..9999 that dates can hold; otherwise a
      filter on that year. */
  function YearFilterAsWritten(year: string): (r: Result<Option<nat>, string>)
    ensures r.Failure? <==> PyIsDigitString(year) && (YearValue(year).None? || YearValue(year).value < 1 || YearValue(year).value > 9999)
    ensures r.Success? ==> r.value == YearValue(year)
  {
    if !PyIsDigitString(year) then
      assert !(year != [] && |year| <= MaxDigits && AllDecimal(year));
      Success(None)
    else
      YearRead(year);
      match ParseInt(year)
      case None => Failure("invalid literal for int() with base 10")
      case Some(v) =>
        if v < 1 || v > 9999 then Failure("year is out of range")
        else Success(Some(v as nat))
  }

  /** On a string that `isdigit()` accepts, `int()` succeeds exactly when
      every character is a decimal digit and there are no more of them
      than the limit. */
  lemma YearRead(year: string)
    requires PyIsDigitString(year)
    ensures ParseInt(year).Some? <==> AllDecimal(year) && |year| <= MaxDigits
    ensures AllDecimal(year) && |year| <= MaxDigits ==> ParseInt(year) == Some(DecimalsValue(year) as int)
  {
    if AllDecimal(year) {
      ParseIntDecimal(year);
    } else {
      var k :| 0 <= k < |year| && !IsDecimal(year[k]);
      OtherDigitPlacement(year[k]);
      assert !IntChar(year[k]);
    }
  }

  /** `blog_list` as written: a server error for the years above. */
  function BlogListAsWritten(posts: seq<Post>, get: Query): (r: Result<BlogPage, string>)
    ensures r.Success? ==> r.value == BlogList(posts, get)
  {
    match YearFilterAsWritten(Param(get, "year"))
    case Failure(e) => Failure(e)
    case Success(year) =>
      var qs := BlogQueryWith(posts, Param(get, "q"), year, Param(get, "sort"));
      Success(BlogPageOf(qs, get))
  }

  /** `?year=²` passes `isdigit()` and then makes `int()` raise: the page
      fails, where the intended listing simply leaves the year unfiltered. */
  lemma SuperscriptYearFails(posts: seq<Post>)
    ensures BlogListAsWritten(posts, map["year" := "\U{B2}"]).Failure?
    ensures BlogList(posts, map["year" := "\U{B2}"]).page.items
      == PageItems(BlogQueryWith(posts, [], None, []), 1)
  {
    var get := map["year" := "\U{B2}"];
    YearParam(get, "\U{B2}");
    assert !AllDecimal("\U{B2}") by {
      assert !IsDecimal("\U{B2}"[0]);
    }
    assert YearFilterAsWritten("\U{B2}").Failure?;
    FirstBlogPage(posts, get, None);
  }

  /** `?year=` followed by more decimal digits than `int()` accepts, such as
      4297 zeros and `2023`, passes `isdigit()` and then makes `int()`
      raise: the page fails, where the intended listing leaves the year
      unfiltered. */
  lemma OverlongYearFails(posts: seq<Post>, year: string)
    requires AllDecimal(year) && |year| > MaxDigits
    ensures YearFilterAsWritten(year).Failure?
    ensures YearValue(year) == None
    ensures BlogList(posts, map["year" := year]).page.items
      == PageItems(BlogQueryWith(posts, [], None, []), 1)
  {
    assert year[0] in year;
    assert PyIsDigitString(year);
    var get := map["year" := year];
    YearParam(get, year);
    FirstBlogPage(posts, get, None);
  }

  /** `?year=٢٠٢٣` (Arabic-Indic digits) passes `isdigit()` and `int()`
      reads it as 2023: both versions filter on that year. */
  lemma ArabicIndicYear(posts: seq<Post>)
    ensures YearValue("\U{662}\U{660}\U{662}\U{663}") == Some(2023)
    ensures BlogListAsWritten(posts, map["year" := "\U{662}\U{660}\U{662}\U{663}"])
      == Success(BlogList(posts, map["year" := "\U{662}\U{660}\U{662}\U{663}"]))
  {
    var y := "\U{662}\U{660}\U{662}\U{663}";
    ArabicIndicValue();
    YearParam(map["year" := y], y);
  }

  lemma ArabicIndicValue()
    ensures AllDecimal("\U{662}\U{660}\U{662}\U{663}")
    ensures DecimalsValue("\U{662}\U{660}\U{662}\U{663}") == 2023
  {
    var y := "\U{662}\U{660}\U{662}\U{663}";
    assert y[..3] == "\U{662}\U{660}\U{662}" && y[..3][..2] == "\U{662}\U{660}" && y[..3][..2][..1] == "\U{662}";
    assert DecimalValue('\U{660}') == Some(0) && DecimalValue('\U{662}') == Some(2) && DecimalValue('\U{663}') == Some(3);
    assert DecimalsValue("\U{662}") == 2;
    assert DecimalsValue("\U{662}\U{660}") == 20;
    assert DecimalsValue("\U{662}\U{660}\U{662}") == 202;
  }

  /** `?year=0` passes `isdigit()` and `int()`, and then the year lookup
      cannot build a date in year 0: the page fails, where the intended
      listing shows the (empty) list of posts of year 0. */
  lemma YearZeroFails(posts: seq<Post>)
    ensures BlogListAsWritten(posts, map["year" := "0"]).Failure?
    ensures BlogList(posts, map["year" := "0"]).page.items
      == PageItems(BlogQueryWith(posts, [], Some(0), []), 1)
  {
    var get := map["year" := "0"];
    YearParam(get, "0");
    assert AllDecimal("0") && DecimalsValue("0") == 0;
    assert YearFilterAsWritten("0").Failure?;
    FirstBlogPage(posts, get, Some(0));
  }

  /** A query holding only a year: no search, no sort, no page. */
  lemma YearParam(get: Query, year: string)
    requires get == map["year" := year]
    requires year != [] && NoEdgeSpace(year)
    ensures Param(get, "year") == year
    ensures Param(get, "q") == [] && Param(get, "sort") == [] && "page" !in get
  {
    StripIdentity(year);
  }

  /** Without a search, a sort key or a page, the intended listing shows
      the first page of the published posts that the year filter keeps. */
  lemma FirstBlogPage(posts: seq<Post>, get: Query, year: Option<nat>)
    requires Param(get, "q") == [] && Param(get, "sort") == [] && "page" !in get
    requires YearValue(Param(get, "year")) == year
    ensures BlogList(posts, get).page.items == PageItems(BlogQueryWith(posts, [], year, []), 1)
  {
  }

  // ---------------------------------------------------------------------
  // blog_detail

  /** `a` is strictly earlier than `b`. */
  predicate DateLt(a: Date, b: Date) {
    !DateLe(b, a)
  }

  /** `get_object_or_404(Post, slug=slug, published=True)`; `None` is the 404.
      Slugs are unique, so at most one post qualifies. */
  function FindPublished(posts: seq<Post>, slug: string): (r: Option<Post>)
    ensures r.Some? ==> r.value in posts && r.value.slug == slug && r.value.published
    ensures r.None? ==> forall i :: 0 <= i < |posts| ==> !(posts[i].slug == slug && posts[i].published)
  {
    if posts == [] then None
    else if posts[0].slug == slug && posts[0].published then Some(posts[0])
    else
      var r := FindPublished(posts[1..], slug);
      assert forall i :: 1 <= i < |posts| ==> posts[i] == posts[1..][i - 1];
      r
  }

  /** `.first()`. */
  function First<T>(s: seq<T>): (r: Option<T>)
    ensures r.Some? <==> s != []
    ensures r.Some? ==> r.value == s[0]
  {
    if s == [] then None else Some(s[0])
  }

  function Earlier(d: Date): Post -> bool {
    (p: Post) => p.published && DateLt(p.pubDate, d)
  }

  function Later(d: Date): Post -> bool {
    (p: Post) => p.published && DateLt(d, p.pubDate)
  }

  /** `prev_post`: a published post dated strictly before `d`, and among
      those one with the latest date; `None` exactly when there is none. */
  function PrevPost(posts: seq<Post>, d: Date): (r: Option<Post>)
    ensures r.Some? ==> r.value in posts && r.value.published && DateLt(r.value.pubDate, d)
    ensures r.Some? ==> forall p :: p in posts && Earlier(d)(p) ==> DateLe(p.pubDate, r.value.pubDate)
    ensures r.None? <==> forall p :: p in posts ==> !Earlier(d)(p)
  {
    var le := PostLe(PostPubDateDesc);
    PostLePreorder(PostPubDateDesc);
    var c := Select(posts, Earlier(d), le);
    SortedFirstLeast(c, le);
    First(c)
  }

  /** `next_post`: a published post dated strictly after `d`, and among
      those one with the earliest date; `None` exactly when there is none. */
  function NextPost(posts: seq<Post>, d: Date): (r: Option<Post>)
    ensures r.Some? ==> r.value in posts && r.value.published && DateLt(d, r.value.pubDate)
    ensures r.Some? ==> forall p :: p in posts && Later(d)(p) ==> DateLe(r.value.pubDate, p.pubDate)
    ensures r.None? <==> forall p :: p in posts ==> !Later(d)(p)
  {
    var le := PostLe(PostPubDate);
    PostLePreorder(PostPubDate);
    var c := Select(posts, Later(d), le);
    SortedFirstLeast(c, le);
    First(c)
  }

  function OtherPublished(pk: int): Post -> bool {
    (p: Post) => p.published && p.pk != pk
  }

  /** `recent_posts`: at most five published posts other than the one with
      primary key `pk`, newest first; a qualifying post is left out only
      when five are shown, none of them older than it. */
  function RecentPosts(posts: seq<Post>, pk: int): (r: seq<Post>)
    ensures |r| <= 5
    ensures multiset(r) <= multiset(posts)
    ensures forall i :: 0 <= i < |r| ==> r[i] in posts && r[i].published && r[i].pk != pk
    ensures forall i, j :: 0 <= i < j < |r| ==> DateLe(r[j].pubDate, r[i].pubDate)
    ensures forall p :: OtherPublished(pk)(p) && multiset(r)[p] < multiset(posts)[p] ==>
      |r| == 5 && forall i :: 0 <= i < |r| ==> DateLe(p.pubDate, r[i].pubDate)
  {
    var le := PostLe(PostPubDateDesc);
    PostLePreorder(PostPubDateDesc);
    var c := Select(posts, OtherPublished(pk), le);
    RecentTopFive(posts, pk, c);
    Take(c, 5)
  }

  lemma RecentTopFive(posts: seq<Post>, pk: int, c: seq<Post>)
    requires forall x :: x in c <==> x in posts && OtherPublished(pk)(x)
    requires forall x :: multiset(c)[x] == if OtherPublished(pk)(x) then multiset(posts)[x] else 0
    requires SortedBy(c, PostLe(PostPubDateDesc))
    ensures var r := Take(c, 5);
      && (forall i :: 0 <= i < |r| ==> r[i] in posts && r[i].published && r[i].pk != pk)
      && (forall i, j :: 0 <= i < j < |r| ==> DateLe(r[j].pubDate, r[i].pubDate))
      && (forall p :: OtherPublished(pk)(p) && multiset(r)[p] < multiset(posts)[p] ==>
            |r| == 5 && forall i :: 0 <= i < |r| ==> DateLe(p.pubDate, r[i].pubDate))
  {
    var le := PostLe(PostPubDateDesc);
    var r := Take(c, 5);
    forall i | 0 <= i < |r| ensures r[i] in posts && r[i].published && r[i].pk != pk {
      assert r[i] == c[i] && c[i] in c;
    }
    forall i, j | 0 <= i < j < |r| ensures DateLe(r[j].pubDate, r[i].pubDate) {
      assert le(c[i], c[j]);
    }
    forall p | OtherPublished(pk)(p) && multiset(r)[p] < multiset(posts)[p]
      ensures |r| == 5 && forall i :: 0 <= i < |r| ==> DateLe(p.pubDate, r[i].pubDate)
    {
      TakeTopK(c, 5, p, le);
      assert forall i :: 0 <= i < |r| ==> le(r[i], p);
    }
  }

  datatype Detail = Detail(post: Post, prev: Option<Post>, next: Option<Post>, recent: seq<Post>)

  /** `blog_detail`: a 404 (`None`) unless a published post has the slug;
      otherwise that post with its neighbours in date order and the recent posts. */
  function BlogDetail(posts: seq<Post>, slug: string): (r: Option<Detail>)
    ensures r.None? <==> forall i :: 0 <= i < |posts| ==> !(posts[i].slug == slug && posts[i].published)
    ensures r.Some? ==> r.value.post in posts && r.value.post.slug == slug && r.value.post.published
    ensures r.Some? ==> r.value.prev == PrevPost(posts, r.value.post.pubDate)
    ensures r.Some? ==> r.value.next == NextPost(posts, r.value.post.pubDate)
    ensures r.Some? ==> r.value.recent == RecentPosts(posts, r.value.post.pk)
  {
    match FindPublished(posts, slug)
    case None => None
    case Some(post) =>
      Some(Detail(post, PrevPost(posts, post.pubDate), NextPost(posts, post.pubDate), RecentPosts(posts, post.pk)))
  }
}
