/** The `home` view: the single `HomeSettings` row, created with its
    defaults on the first visit, and the short lists shown on the page. */
module HomeView {
  import opened Strings
  import opened Sorting
  import opened Content

  /** The `HomeSettings` table, its rows in primary-key order. */
  class HomeSettingsTable {
    var rows: seq<HomeSettings>

    constructor(initial: seq<HomeSettings>)
      ensures rows == initial
    {
      rows := initial;
    }

    /** `HomeSettings.objects.first() or HomeSettings.objects.create()`:
        the first row when there is one, and nothing changes; otherwise a
        new row with every field at its default, which is returned. */
    method FirstOrCreate() returns (s: HomeSettings)
      modifies this
      ensures old(rows) != [] ==> rows == old(rows) && s == old(rows)[0]
      ensures old(rows) == [] ==> rows == [DefaultHomeSettings] && s == DefaultHomeSettings
    {
      if rows != [] {
        s := rows[0];
      } else {
        rows := rows + [DefaultHomeSettings];
        s := DefaultHomeSettings;
      }
    }
  }

  datatype HomeLists = HomeLists(
    services: seq<Service>, projects: seq<Project>, partners: seq<Partner>, posts: seq<Post>)

  function All<T>(): T -> bool {
    (x: T) => true
  }

  function Published(): Post -> bool {
    (p: Post) => p.published
  }

  /** `Service.objects.all()[:6]`: the first six services by title. */
  function HomeServices(services: seq<Service>): (r: seq<Service>)
    ensures |r| <= 6 && SortedBy(r, ServiceLe(ServiceTitle))
    ensures multiset(r) <= multiset(services)
    ensures forall i :: 0 <= i < |r| ==> r[i] in services
    ensures forall x :: multiset(r)[x] < multiset(services)[x] ==>
      |r| == 6 && forall i :: 0 <= i < 6 ==> LexLe(r[i].title, x.title)
  {
    ServiceLePreorder(ServiceTitle);
    TopK(services, All(), ServiceLe(ServiceTitle), 6)
  }

  /** `Project.objects.all()[:6]`: the six newest projects. */
  function HomeProjects(projects: seq<Project>): (r: seq<Project>)
    ensures |r| <= 6 && SortedBy(r, ProjectLe(ProjectCreatedDesc))
    ensures multiset(r) <= multiset(projects)
    ensures forall i :: 0 <= i < |r| ==> r[i] in projects
    ensures forall x :: multiset(r)[x] < multiset(projects)[x] ==>
      |r| == 6 && forall i :: 0 <= i < 6 ==> r[i].created >= x.created
  {
    ProjectLePreorder(ProjectCreatedDesc);
    TopK(projects, All(), ProjectLe(ProjectCreatedDesc), 6)
  }

  /** `Partner.objects.all()`: every partner, by name. */
  function HomePartners(partners: seq<Partner>): (r: seq<Partner>)
    ensures multiset(r) == multiset(partners) && SortedBy(r, PartnerLe())
  {
    PartnerLePreorder();
    var ps := Select(partners, All(), PartnerLe());
    assert forall x :: multiset(ps)[x] == multiset(partners)[x];
    ps
  }

  /** `Post.objects.filter(published=True)[:3]`: the three newest published posts. */
  function HomePosts(posts: seq<Post>): (r: seq<Post>)
    ensures |r| <= 3 && SortedBy(r, PostLe(PostPubDateDesc))
    ensures multiset(r) <= multiset(posts)
    ensures forall i :: 0 <= i < |r| ==> r[i] in posts && r[i].published
    ensures forall x: Post :: x.published && multiset(r)[x] < multiset(posts)[x] ==>
      |r| == 3 && forall i :: 0 <= i < 3 ==> DateLe(x.pubDate, r[i].pubDate)
  {
    PostLePreorder(PostPubDateDesc);
    TopK(posts, Published(), PostLe(PostPubDateDesc), 3)
  }

  /** The lists of the home page, each in its model's default order. */
  function Lists(services: seq<Service>, projects: seq<Project>, partners: seq<Partner>, posts: seq<Post>): HomeLists {
    HomeLists(HomeServices(services), HomeProjects(projects), HomePartners(partners), HomePosts(posts))
  }

  datatype HomeContext = HomeContext(settings: HomeSettings, lists: HomeLists)

  /** `home`: reads (or first creates) the settings row and the lists.
      The settings table gains a row only when it was empty. */
  method Home(table: HomeSettingsTable, services: seq<Service>, projects: seq<Project>,
              partners: seq<Partner>, posts: seq<Post>) returns (ctx: HomeContext)
    modifies table
    ensures table.rows != [] && ctx.settings == table.rows[0]
    ensures old(table.rows) != [] ==> table.rows == old(table.rows)
    ensures old(table.rows) == [] ==> table.rows == [DefaultHomeSettings]
    ensures ctx.lists == Lists(services, projects, partners, posts)
  {
    var settings := table.FirstOrCreate();
    ctx := HomeContext(settings, Lists(services, projects, partners, posts));
  }
}
