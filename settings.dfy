/** The environment-driven part of `config/settings.py`: the two boolean
    flags, the two comma-separated lists, the cookie flags derived from
    `DEBUG`, and the choice of database. The process environment is a map
    from variable names to values, and `BASE_DIR` is a parameter. */
module Settings {
  import opened Strings

  type Env = map<string, string>

  /** `os.environ.get(key, default)`. */
  function EnvGet(env: Env, key: string, default: string): (v: string)
    ensures key in env ==> v == env[key]
    ensures key !in env ==> v == default
  {
    if key in env then env[key] else default
  }

  /** Membership in `("1", "true", "True")`: nothing else counts as true. */
  predicate Truthy(v: string) {
    v == "1" || v == "true" || v == "True"
  }

  /** The pieces of a split list, each stripped, the empty ones dropped:
      an item is kept exactly when it is the non-empty strip of a piece. */
  function StripNonEmpty(parts: seq<string>): (r: seq<string>)
    ensures |r| <= |parts|
    ensures forall x :: x in r <==> x != [] && exists k :: 0 <= k < |parts| && Strip(parts[k]) == x
  {
    if parts == [] then []
    else
      var h := Strip(parts[0]);
      var rest := StripNonEmpty(parts[1..]);
      if h != [] then [h] + rest else rest
  }

  /** `[x.strip() for x in s.split(",") if x.strip()]`: every item is
      non-empty, has no whitespace at either end and holds no comma. */
  function ParseList(s: string): (r: seq<string>)
    ensures forall k :: 0 <= k < |r| ==> CleanItem(r[k])
  {
    var parts := Split(s, ',');
    StripNonEmptyClean(parts);
    StripNonEmpty(parts)
  }

  /** An item that `ParseList` can produce and that survives a round trip. */
  predicate CleanItem(x: string) {
    x != [] && NoEdgeSpace(x) && ',' !in x
  }

  /** Stripping only removes characters. */
  lemma StripKeeps(s: string, c: char)
    requires c in Strip(s)
    ensures c in s
  {
    StripSpec(s);
    var i, j :| 0 <= i <= j <= |s| && Strip(s) == s[i..j];
    var k :| 0 <= k < |Strip(s)| && Strip(s)[k] == c;
    assert s[i + k] == c;
  }

  lemma {:induction false} StripNonEmptyClean(parts: seq<string>)
    requires forall k :: 0 <= k < |parts| ==> ',' !in parts[k]
    ensures forall k :: 0 <= k < |StripNonEmpty(parts)| ==> CleanItem(StripNonEmpty(parts)[k])
  {
    if parts != [] {
      StripNonEmptyClean(parts[1..]);
      var h := Strip(parts[0]);
      StripSpec(parts[0]);
      if ',' in h {
        StripKeeps(parts[0], ',');
      }
    }
  }

  lemma {:induction false} StripNonEmptyIdentity(items: seq<string>)
    requires forall k :: 0 <= k < |items| ==> CleanItem(items[k])
    ensures StripNonEmpty(items) == items
  {
    if items != [] {
      StripNonEmptyIdentity(items[1..]);
      StripIdentity(items[0]);
      assert [items[0]] + items[1..] == items;
    }
  }

  /** An item is listed exactly when it is the non-empty strip of one of
      the comma-separated pieces. */
  lemma ParseListMembers(s: string, x: string)
    ensures x in ParseList(s) <==> x != [] && exists p :: p in Split(s, ',') && Strip(p) == x
  {
    var parts := Split(s, ',');
    assert ParseList(s) == StripNonEmpty(parts);
    if x in ParseList(s) {
      var k :| 0 <= k < |parts| && Strip(parts[k]) == x;
      assert parts[k] in parts;
    }
    if x != [] && exists p :: p in parts && Strip(p) == x {
      var p :| p in parts && Strip(p) == x;
      var k :| 0 <= k < |parts| && parts[k] == p;
    }
  }

  /** The pieces are handled one after the other: the items of `a + b` are
      those of `a` followed by those of `b`. */
  lemma {:induction false} StripNonEmptyAppend(a: seq<string>, b: seq<string>)
    ensures StripNonEmpty(a + b) == StripNonEmpty(a) + StripNonEmpty(b)
  {
    if a == [] {
      assert a + b == b;
    } else {
      assert (a + b)[0] == a[0] && (a + b)[1..] == a[1..] + b;
      StripNonEmptyAppend(a[1..], b);
    }
  }

  /** A text without a comma is one piece: its strip, or nothing when that is blank. */
  lemma ParseListPiece(p: string)
    requires ',' !in p
    ensures ParseList(p) == if Strip(p) == [] then [] else [Strip(p)]
  {
    SplitNoSep(p, ',');
    assert [p][1..] == [];
  }

  /** The items of `a,b` are the items of `a` followed by those of `b`:
      the list keeps the order of the text and drops only blank pieces. */
  lemma ParseListComma(a: string, b: string)
    ensures ParseList(a + "," + b) == ParseList(a) + ParseList(b)
  {
    SplitConcat(a, b, ',');
    StripNonEmptyAppend(Split(a, ','), Split(b, ','));
  }

  /** Writing clean items with commas between them and parsing the result
      gives the items back, in order. */
  lemma ParseListJoin(items: seq<string>)
    requires forall k :: 0 <= k < |items| ==> CleanItem(items[k])
    ensures ParseList(Join(items, ",")) == items
  {
    if items == [] {
      assert Split([], ',') == [[]];
      assert Strip([]) == [];
    } else {
      SplitJoin(items, ',');
      StripNonEmptyIdentity(items);
    }
  }

  /** Parsing is idempotent: a parsed list written back with commas parses to itself. */
  lemma ParseListIdempotent(s: string)
    ensures ParseList(Join(ParseList(s), ",")) == ParseList(s)
  {
    ParseListJoin(ParseList(s));
  }

  /** Which database `DATABASES["default"]` describes. */
  datatype Database =
    | Postgres(name: string, user: string, password: string, host: string, port: string)
    | Sqlite(path: string)

  datatype Config = Config(
    secretKey: string,
    debug: bool,
    allowedHosts: seq<string>,
    csrfTrustedOrigins: seq<string>,
    secureSslRedirect: bool,
    sessionCookieSecure: bool,
    csrfCookieSecure: bool,
    database: Database,
    emailBackend: string,
    defaultFromEmail: string)

  /** `DEBUG`: true exactly when the variable is set to `1`, `true` or
      `True`; unset, it reads as `False`. */
  function Debug(env: Env): (b: bool)
    ensures b <==> "DEBUG" in env && Truthy(env["DEBUG"])
  {
    Truthy(EnvGet(env, "DEBUG", "False"))
  }

  /** `SECURE_SSL_REDIRECT`: the same truth values as `DEBUG`, but on when unset. */
  function SecureSslRedirect(env: Env): (b: bool)
    ensures b <==> "SECURE_SSL_REDIRECT" !in env || Truthy(env["SECURE_SSL_REDIRECT"])
  {
    Truthy(EnvGet(env, "SECURE_SSL_REDIRECT", "1"))
  }

  /** `ALLOWED_HOSTS`: the comma-separated list in the environment, or the
      two local hosts when it is not set; never a blank or padded host. */
  function AllowedHosts(env: Env): (r: seq<string>)
    ensures "ALLOWED_HOSTS" in env ==> r == ParseList(env["ALLOWED_HOSTS"])
    ensures "ALLOWED_HOSTS" !in env ==> r == ["localhost", "127.0.0.1"]
    ensures forall k :: 0 <= k < |r| ==> CleanItem(r[k])
  {
    DefaultHosts();
    ParseList(EnvGet(env, "ALLOWED_HOSTS", "localhost,127.0.0.1"))
  }

  /** `CSRF_TRUSTED_ORIGINS`: the comma-separated list in the environment,
      or the two local origins when it is not set; never a blank or padded
      origin. */
  function CsrfTrustedOrigins(env: Env): (r: seq<string>)
    ensures "CSRF_TRUSTED_ORIGINS" in env ==> r == ParseList(env["CSRF_TRUSTED_ORIGINS"])
    ensures "CSRF_TRUSTED_ORIGINS" !in env ==> r == ["http://localhost", "http://127.0.0.1"]
    ensures forall k :: 0 <= k < |r| ==> CleanItem(r[k])
  {
    DefaultOrigins();
    ParseList(EnvGet(env, "CSRF_TRUSTED_ORIGINS", "http://localhost,http://127.0.0.1"))
  }

  /** PostgreSQL, with each connection setting read from the environment,
      exactly when `DB_ENGINE` is `postgres`; otherwise the SQLite file
      `db.sqlite3` under the project directory. */
  function SelectDatabase(env: Env, baseDir: string): (d: Database)
    ensures d.Postgres? <==> "DB_ENGINE" in env && env["DB_ENGINE"] == "postgres"
    ensures d.Sqlite? ==> d.path == baseDir + "/db.sqlite3"
  {
    if EnvGet(env, "DB_ENGINE", "") == "postgres" then
      Postgres(
        EnvGet(env, "DB_NAME", "annoor"),
        EnvGet(env, "DB_USER", "annoor"),
        EnvGet(env, "DB_PASSWORD", ""),
        EnvGet(env, "DB_HOST", "db"),
        EnvGet(env, "DB_PORT", "5432"))
    else
      Sqlite(baseDir + "/db.sqlite3")
  }

  /** The settings module evaluated in the environment `env`. Both cookies
      are marked secure exactly when `DEBUG` is off. */
  function Load(env: Env, baseDir: string): (c: Config)
    ensures c.sessionCookieSecure == !c.debug && c.csrfCookieSecure == !c.debug
    ensures c.debug <==> "DEBUG" in env && Truthy(env["DEBUG"])
    ensures forall k :: 0 <= k < |c.allowedHosts| ==> CleanItem(c.allowedHosts[k])
    ensures forall k :: 0 <= k < |c.csrfTrustedOrigins| ==> CleanItem(c.csrfTrustedOrigins[k])
  {
    var debug := Debug(env);
    Config(
      EnvGet(env, "SECRET_KEY", "django-insecure-change-me-in-prod"),
      debug,
      AllowedHosts(env),
      CsrfTrustedOrigins(env),
      SecureSslRedirect(env),
      !debug,
      !debug,
      SelectDatabase(env, baseDir),
      EnvGet(env, "EMAIL_BACKEND", "django.core.mail.backends.console.EmailBackend"),
      EnvGet(env, "DEFAULT_FROM_EMAIL", "contact@annoor.tech"))
  }

  /** With nothing set in the environment: debugging off, the two local
      hosts and origins, HTTPS redirection and secure cookies on, SQLite. */
  lemma LoadDefaults(baseDir: string)
    ensures Load(map[], baseDir) == Config(
      "django-insecure-change-me-in-prod",
      false,
      ["localhost", "127.0.0.1"],
      ["http://localhost", "http://127.0.0.1"],
      true, true, true,
      Sqlite(baseDir + "/db.sqlite3"),
      "django.core.mail.backends.console.EmailBackend",
      "contact@annoor.tech")
  {
  }

  lemma DefaultHosts()
    ensures ParseList("localhost,127.0.0.1") == ["localhost", "127.0.0.1"]
  {
    var a, b := "localhost", "127.0.0.1";
    assert CleanItem(a) && CleanItem(b);
    assert "localhost,127.0.0.1" == a + "," + b;
    DefaultList(a, b);
  }

  lemma DefaultOrigins()
    ensures ParseList("http://localhost,http://127.0.0.1") == ["http://localhost", "http://127.0.0.1"]
  {
    var a, b := "http://localhost", "http://127.0.0.1";
    assert CleanItem(a) && CleanItem(b);
    assert "http://localhost,http://127.0.0.1" == a + "," + b;
    DefaultList(a, b);
  }

  /** A two-item default written as `a,b` parses to `[a, b]`. */
  lemma DefaultList(a: string, b: string)
    requires CleanItem(a) && CleanItem(b)
    ensures ParseList(a + "," + b) == [a, b]
  {
    var items := [a, b];
    assert Join(items, ",") == a + "," + b by {
      assert items[1..] == [b];
    }
    ParseListJoin(items);
  }
}
