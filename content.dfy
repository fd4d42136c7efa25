/** The content records the public views read (`sitecontent/models.py`),
    as plain values, and the orderings their ORDER BY clauses name. Each
    table is a sequence of records in storage (primary-key) order. */
module Content {
  import opened Strings
  import opened Sorting

  /** A calendar date (`DateField`); ordered by year, then month, then day. */
  datatype Date = Date(year: int, month: int, day: int)

  predicate DateLe(a: Date, b: Date) {
    a.year < b.year || (a.year == b.year && (a.month < b.month || (a.month == b.month && a.day <= b.day)))
  }

  /** Timestamps `created` (set on insert) and `updated` (set on every save) are instants, here integers. */
  datatype Service = Service(
    title: string, slug: string, excerpt: string, body: string, icon: string,
    created: int, updated: int)

  datatype Project = Project(
    title: string, slug: string, client: string, location: string, year: string,
    context: string, solution: string, results: string,
    created: int, updated: int)

  datatype Post = Post(
    pk: int, title: string, slug: string, body: string, published: bool, pubDate: Date,
    created: int, updated: int)

  datatype Partner = Partner(name: string, website: string)

  datatype HomeSettings = HomeSettings(
    heroTitle: string, heroSubtitle: string, heroCtaLabel: string, heroCtaUrl: string,
    stat1Label: string, stat1Value: string,
    stat2Label: string, stat2Value: string,
    stat3Label: string, stat3Value: string)

  /** The row `HomeSettings.objects.create()` inserts: every field at its declared default. */
  const DefaultHomeSettings := HomeSettings(
    "Ingénierie • Industriel • TP", "", "Demander un devis", "#contact",
    "Années d'expérience", "10+",
    "Projets livrés", "50+",
    "Partenaires", "TCA…")

  /** The orderings the service views use: `title` and `-updated`. */
  datatype ServiceOrder = ServiceTitle | ServiceUpdatedDesc

  function ServiceLe(o: ServiceOrder): (Service, Service) -> bool {
    (a: Service, b: Service) =>
      match o
      case ServiceTitle => LexLe(a.title, b.title)
      case ServiceUpdatedDesc => a.updated >= b.updated
  }

  /** The orderings the project views use: `-year`, `year`, `title`,
      `-created`, and the default `-created, title`. */
  datatype ProjectOrder = ProjectYearDesc | ProjectYear | ProjectTitle | ProjectCreatedDesc | ProjectCreatedDescTitle

  function ProjectLe(o: ProjectOrder): (Project, Project) -> bool {
    (a: Project, b: Project) =>
      match o
      case ProjectYearDesc => LexLe(b.year, a.year)
      case ProjectYear => LexLe(a.year, b.year)
      case ProjectTitle => LexLe(a.title, b.title)
      case ProjectCreatedDesc => a.created >= b.created
      case ProjectCreatedDescTitle => a.created > b.created || (a.created == b.created && LexLe(a.title, b.title))
  }

  /** The orderings the blog views use: `-pub_date` (the model's default), `pub_date` and `title`. */
  datatype PostOrder = PostPubDateDesc | PostPubDate | PostTitle

  function PostLe(o: PostOrder): (Post, Post) -> bool {
    (a: Post, b: Post) =>
      match o
      case PostPubDateDesc => DateLe(b.pubDate, a.pubDate)
      case PostPubDate => DateLe(a.pubDate, b.pubDate)
      case PostTitle => LexLe(a.title, b.title)
  }

  /** Partners are listed by `name`. */
  function PartnerLe(): (Partner, Partner) -> bool {
    (a: Partner, b: Partner) => LexLe(a.name, b.name)
  }

  lemma ServiceLePreorder(o: ServiceOrder)
    ensures TotalPreorder(ServiceLe(o))
  {
    forall a: Service, b: Service ensures ServiceLe(o)(a, b) || ServiceLe(o)(b, a) {
      LexLeTotal(a.title, b.title);
    }
    forall a: Service, b: Service, c: Service | ServiceLe(o)(a, b) && ServiceLe(o)(b, c)
      ensures ServiceLe(o)(a, c)
    {
      if o == ServiceTitle {
        LexLeTransitive(a.title, b.title, c.title);
      }
    }
  }

  lemma ProjectLePreorder(o: ProjectOrder)
    ensures TotalPreorder(ProjectLe(o))
  {
    forall a: Project, b: Project ensures ProjectLe(o)(a, b) || ProjectLe(o)(b, a) {
      LexLeTotal(a.year, b.year);
      LexLeTotal(a.title, b.title);
    }
    forall a: Project, b: Project, c: Project | ProjectLe(o)(a, b) && ProjectLe(o)(b, c)
      ensures ProjectLe(o)(a, c)
    {
      match o
      case ProjectYearDesc => LexLeTransitive(c.year, b.year, a.year);
      case ProjectYear => LexLeTransitive(a.year, b.year, c.year);
      case ProjectTitle => LexLeTransitive(a.title, b.title, c.title);
      case ProjectCreatedDesc =>
      case ProjectCreatedDescTitle =>
        if a.created == b.created == c.created {
          LexLeTransitive(a.title, b.title, c.title);
        }
    }
  }

  lemma PostLePreorder(o: PostOrder)
    ensures TotalPreorder(PostLe(o))
  {
    forall a: Post, b: Post ensures PostLe(o)(a, b) || PostLe(o)(b, a) {
      LexLeTotal(a.title, b.title);
    }
    forall a: Post, b: Post, c: Post | PostLe(o)(a, b) && PostLe(o)(b, c)
      ensures PostLe(o)(a, c)
    {
      if o == PostTitle {
        LexLeTransitive(a.title, b.title, c.title);
      }
    }
  }

  lemma PartnerLePreorder()
    ensures TotalPreorder(PartnerLe())
  {
    forall a: Partner, b: Partner ensures PartnerLe()(a, b) || PartnerLe()(b, a) {
      LexLeTotal(a.name, b.name);
    }
    forall a: Partner, b: Partner, c: Partner | PartnerLe()(a, b) && PartnerLe()(b, c)
      ensures PartnerLe()(a, c)
    {
      LexLeTransitive(a.name, b.name, c.name);
    }
  }
}
