/**
 * `ProjectGenerator`: checks the project name, builds the template context
 * (with a fresh secret key), and writes a Django project tree below
 * `<cwd>/<project_name>` through `_write`, which resolves every relative
 * path and refuses the ones that fail a string-prefix check.
 *
 * Rendering a Jinja2 template is an uninterpreted `Renderer` (None stands
 * for `TemplateNotFound`); the random choices behind the secret key are a
 * `draw` function; the working directory is a string parameter.
 */
module Generator {
  import opened Results
  import opened Text
  import opened Paths
  import opened FileTree

  // ---------------------------------------------------------------------
  // The project name
  // ---------------------------------------------------------------------

  predicate IsAsciiLetter(c: char) {
    'a' <= c <= 'z' || 'A' <= c <= 'Z'
  }

  /** `[a-zA-Z0-9_]` */
  predicate IsWordChar(c: char) {
    IsAsciiLetter(c) || IsAsciiDigit(c) || c == '_'
  }

  /** The whole of `s` matches `[a-zA-Z_][a-zA-Z0-9_]*`. */
  predicate IsIdentifier(s: string) {
    && |s| >= 1
    && (IsAsciiLetter(s[0]) || s[0] == '_')
    && forall k :: 1 <= k < |s| ==> IsWordChar(s[k])
  }

  /**
   * `re.match(r'^[a-zA-Z_][a-zA-Z0-9_]*$', s)` as Python evaluates it:
   * `$` also matches just before a newline that ends the string, so an
   * identifier followed by one `"\n"` is accepted too.
   */
  predicate NameRegexMatches(s: string) {
    IsIdentifier(s) || (|s| >= 2 && s[|s| - 1] == '\n' && IsIdentifier(s[..|s| - 1]))
  }

  /** The as-written check accepts `"blog\n"`, which is not an identifier. */
  lemma NameRegexAcceptsTrailingNewline()
    ensures NameRegexMatches("blog\n") && !IsIdentifier("blog\n")
  {
    assert "blog\n"[..4] == "blog";
  }

  /** An identifier is one plain path segment: no `/` and no `.` in it. */
  lemma IdentifierIsSegment(s: string)
    requires IsIdentifier(s)
    ensures IsSegment(s) && '/' !in s && '.' !in s
  {
    assert s[0] != '.';
    forall k | 0 <= k < |s| ensures s[k] != '/' && s[k] != '.' {
    }
  }

  // ---------------------------------------------------------------------
  // The secret key
  // ---------------------------------------------------------------------

  const Lowercase: string := "abcdefghijklmnopqrstuvwxyz"
  const Uppercase: string := "ABCDEFGHIJKLMNOPQRSTUVWXYZ"
  const Digits: string := "0123456789"
  const Punctuation: string := "!\"#$%&'()*+,-./:;<=>?@[\\]^_`{|}~"

  /** `string.ascii_letters + string.digits + string.punctuation` */
  const Alphabet: string := Lowercase + Uppercase + Digits + Punctuation

  /** `n` characters, the i-th one being `chars[draw(i) % |chars|]`. */
  function Choices(chars: string, n: nat, draw: nat -> nat): (r: string)
    requires chars != []
    ensures |r| == n && forall k :: 0 <= k < n ==> r[k] in chars
  {
    seq(n, i requires 0 <= i < n => chars[draw(i) % |chars|])
  }

  /**
   * `''.join(secrets.choice(alphabet) for _ in range(50))`, where the i-th
   * choice picks the character at `draw(i)` (modulo the alphabet's size).
   */
  function SecretKey(draw: nat -> nat): (key: string)
    ensures |key| == 50
    ensures forall k :: 0 <= k < |key| ==> key[k] in Alphabet
  {
    Choices(Alphabet, 50, draw)
  }

  /** The alphabet: 94 characters, every one printable ASCII other than space. */
  lemma AlphabetIsPrintable()
    ensures |Alphabet| == 94
    ensures forall k :: 0 <= k < |Alphabet| ==> '!' <= Alphabet[k] <= '~'
  {
    LettersPrintable();
    DigitsPrintable();
    PunctuationPrintable();
    PrintableConcat(Lowercase, Uppercase);
    PrintableConcat(Lowercase + Uppercase, Digits);
    PrintableConcat(Lowercase + Uppercase + Digits, Punctuation);
  }

  /** Every character of `s` is printable ASCII other than space. */
  predicate Printable(s: string) {
    forall k :: 0 <= k < |s| ==> '!' <= s[k] <= '~'
  }

  lemma LettersPrintable()
    ensures Printable(Lowercase) && Printable(Uppercase)
  {
  }

  lemma DigitsPrintable()
    ensures Printable(Digits)
  {
  }

  lemma PunctuationPrintable()
    ensures Printable(Punctuation)
  {
  }

  lemma PrintableConcat(a: string, b: string)
    requires Printable(a) && Printable(b)
    ensures Printable(a + b)
  {
    forall k | |a| <= k < |a + b| ensures '!' <= (a + b)[k] <= '~' {
      assert (a + b)[k] == b[k - |a|];
    }
  }

  ghost function IndexIn(c: char, s: string): (k: nat)
    requires c in s
    ensures k < |s| && s[k] == c
  {
    var k :| 0 <= k < |s| && s[k] == c; k
  }

  /** Every string over `chars` is the outcome of some draw. */
  lemma EveryChoiceCanBeDrawn(chars: string, key: string)
    requires chars != [] && forall k :: 0 <= k < |key| ==> key[k] in chars
    ensures exists draw :: Choices(chars, |key|, draw) == key
  {
    var draw := (i: nat) => if i < |key| then IndexIn(key[i], chars) else 0;
    var drawn := Choices(chars, |key|, draw);
    assert drawn == key by {
      forall i | 0 <= i < |key| ensures drawn[i] == key[i] {
        var k := IndexIn(key[i], chars);
        assert draw(i) == k && k % |chars| == k;
      }
    }
  }

  /**
   * The key is constrained only by its length and alphabet: every
   * 50-character string over the alphabet is the key of some draw.
   */
  lemma EveryKeyCanBeDrawn(key: string)
    requires |key| == 50 && forall k :: 0 <= k < |key| ==> key[k] in Alphabet
    ensures exists draw :: SecretKey(draw) == key
  {
    EveryChoiceCanBeDrawn(Alphabet, key);
    var draw :| Choices(Alphabet, |key|, draw) == key;
    assert SecretKey(draw) == key;
  }

  // ---------------------------------------------------------------------
  // Options and template context
  // ---------------------------------------------------------------------

  /** The constructor's arguments (defaults: "mvp", "fbv", "sqlite", "core", false). */
  datatype Options = Options(
    projectName: string,
    projectType: string,
    viewStyle: string,
    database: string,
    appName: string,
    withDocker: bool)

  /** The dictionary handed to every template. */
  datatype Context = Context(
    projectName: string,
    appName: string,
    projectType: string,
    viewStyle: string,
    database: string,
    secretKey: string,
    isApi: bool,
    isMvp: bool,
    isCbv: bool,
    isFbv: bool,
    isPostgresql: bool,
    isSqlite: bool,
    isDocker: bool)

  /**
   * The context: the options as given, the secret key, and flags that hold
   * exactly when the corresponding option has the named value.
   */
  function MakeContext(o: Options, secretKey: string): (c: Context)
    ensures c.projectName == o.projectName && c.appName == o.appName
    ensures c.projectType == o.projectType && c.viewStyle == o.viewStyle
    ensures c.database == o.database && c.secretKey == secretKey
    ensures c.isApi <==> o.projectType == "api"
    ensures c.isMvp <==> o.projectType == "mvp"
    ensures c.isCbv <==> o.viewStyle == "cbv"
    ensures c.isFbv <==> o.viewStyle == "fbv"
    ensures c.isPostgresql <==> o.database == "postgresql"
    ensures c.isSqlite <==> o.database == "sqlite"
    ensures c.isDocker <==> o.withDocker
  {
    Context(o.projectName, o.appName, o.projectType, o.viewStyle, o.database, secretKey,
      o.projectType == "api", o.projectType == "mvp",
      o.viewStyle == "cbv", o.viewStyle == "fbv",
      o.database == "postgresql", o.database == "sqlite",
      o.withDocker)
  }

  /**
   * The flags of each pair never hold together, and an option value outside
   * the known ones (say project type "rest") leaves both flags false.
   */
  lemma ContextFlagsExclusive(o: Options, secretKey: string)
    ensures var c := MakeContext(o, secretKey);
      && !(c.isApi && c.isMvp) && !(c.isCbv && c.isFbv) && !(c.isPostgresql && c.isSqlite)
      && (o.projectType !in {"api", "mvp"} ==> !c.isApi && !c.isMvp)
  {
  }

  // ---------------------------------------------------------------------
  // What the generator writes
  // ---------------------------------------------------------------------

  /** `template_name -> template.render(**context)`; None is `TemplateNotFound`. */
  type Renderer = (string, Context) -> Option<string>

  /** Where a file's content comes from: the empty string or a template. */
  datatype Source = Blank | Template(name: string)

  /**
   * One `_write` call: the relative path given as its `/`-separated parts
   * (`f"{app}/views.py"` is the parts `[app, "views.py"]`), and its content.
   */
  datatype Entry = Entry(parts: seq<string>, source: Source)

  /** The relative path string passed to `_write`. */
  function Rel(e: Entry): string {
    Join(e.parts, "/")
  }

  /** `_create_root_files` */
  function RootPlan(): seq<Entry> {
    [ Entry(["manage.py"], Template("manage.py.j2")),
      Entry(["requirements.txt"], Template("requirements.txt.j2")),
      Entry([".env.example"], Template(".env.example.j2")),
      Entry([".gitignore"], Template(".gitignore.j2")) ]
  }

  /** `_create_project_config`: the package named after the project. */
  function ConfigPlan(project: string): seq<Entry> {
    [ Entry([project, "__init__.py"], Blank),
      Entry([project, "settings.py"], Template("project/settings.py.j2")),
      Entry([project, "urls.py"], Template("project/urls.py.j2")),
      Entry([project, "wsgi.py"], Template("project/wsgi.py.j2")),
      Entry([project, "asgi.py"], Template("project/asgi.py.j2")) ]
  }

  /** The template `<app>/views.py` is rendered from. */
  function ViewsTemplate(projectType: string, viewStyle: string): string {
    if projectType == "api" then
      (if viewStyle == "cbv" then "app/views_api_cbv.py.j2" else "app/views_api_fbv.py.j2")
    else
      (if viewStyle == "cbv" then "app/views_cbv.py.j2" else "app/views_fbv.py.j2")
  }

  /** `_create_app`: five fixed modules, then views and the api or mvp extras. */
  function AppPlan(app: string, projectType: string, viewStyle: string): seq<Entry> {
    AppModulesPlan(app) + AppViewsPlan(app, projectType, viewStyle)
  }

  /** The modules every app gets. */
  function AppModulesPlan(app: string): seq<Entry> {
    [ Entry([app, "__init__.py"], Blank),
      Entry([app, "admin.py"], Template("app/admin.py.j2")),
      Entry([app, "apps.py"], Template("app/apps.py.j2")),
      Entry([app, "models.py"], Template("app/models.py.j2")),
      Entry([app, "tests.py"], Template("app/tests.py.j2")) ]
  }

  /** Views, then serializers and urls for an api project, or urls and forms for any other. */
  function AppViewsPlan(app: string, projectType: string, viewStyle: string): seq<Entry> {
    if projectType == "api" then
      [ Entry([app, "views.py"], Template(ViewsTemplate(projectType, viewStyle))),
        Entry([app, "serializers.py"], Template("app/serializers.py.j2")),
        Entry([app, "urls.py"], Template("app/urls_api.py.j2")) ]
    else
      [ Entry([app, "views.py"], Template(ViewsTemplate(projectType, viewStyle))),
        Entry([app, "urls.py"], Template("app/urls_mvp.py.j2")),
        Entry([app, "forms.py"], Template("app/forms.py.j2")) ]
  }

  /** `_create_templates`: the three HTML pages under `<app>/templates/<app>`. */
  function TemplatesPlan(app: string): seq<Entry> {
    [ Entry([app, "templates", app, "base.html"], Template("html/base.html.j2")),
      Entry([app, "templates", app, "home.html"], Template("html/home.html.j2")),
      Entry([app, "templates", app, "about.html"], Template("html/about.html.j2")) ]
  }

  /** `_create_static_files` */
  function StaticPlan(): seq<Entry> {
    [ Entry(["static", "css", "style.css"], Template("static/style.css.j2")) ]
  }

  /** `_create_docker_files`: `entrypoint.sh` only for PostgreSQL. */
  function DockerPlan(database: string): seq<Entry> {
    [ Entry(["Dockerfile"], Template("Dockerfile.j2")),
      Entry(["docker-compose.yml"], Template("docker-compose.yml.j2")),
      Entry([".dockerignore"], Template(".dockerignore.j2")) ]
    + (if database == "postgresql" then [Entry(["entrypoint.sh"], Template("entrypoint.sh.j2"))] else [])
  }

  /** `generate` after its guard: every `_write` call, in order. */
  function GeneratePlan(o: Options): seq<Entry> {
    RootPlan() + ConfigPlan(o.projectName) + AppPlan(o.appName, o.projectType, o.viewStyle)
    + (if o.withDocker then DockerPlan(o.database) else [])
    + (if o.projectType == "mvp" then TemplatesPlan(o.appName) + StaticPlan() else [])
  }

  // ---------------------------------------------------------------------
  // What the writes do
  // ---------------------------------------------------------------------

  datatype Error =
    | InvalidName(name: string)          // ValueError from the constructor
    | AlreadyExists(dir: Path)           // FileExistsError from generate
    | PathTraversal(rel: string)         // ValueError from _write
    | TemplateNotFound(template: string) // from the template environment
    | OsError(cause: FsError)            // from mkdir or write_text

  /** The filesystem after an operation, and whether it raised. */
  datatype Effect = Effect(disk: Disk, outcome: Outcome<Error>)

  /**
   * `_write(rel, content)` under the output directory `out`: resolve, apply
   * the prefix check, make the parent directories, write the file.
   */
  function WriteEffect(d: Disk, out: Path, rel: string, content: string): Effect {
    var full := Resolve(out, rel);
    if !PassesPrefixCheck(full, out) then Effect(d, Fail(PathTraversal(rel)))
    else match MakeDirsResult(d, Parent(full))
      case Err(e) => Effect(d, Fail(OsError(e)))
      case Ok(d1) =>
        match WriteTextResult(d1, full, content)
        case Err(e) => Effect(d1, Fail(OsError(e)))
        case Ok(d2) => Effect(d2, Pass)
  }

  /** The content of an entry; None when its template is not found. */
  function Content(render: Renderer, ctx: Context, s: Source): Option<string> {
    match s
    case Blank => Some("")
    case Template(n) => render(n, ctx)
  }

  /** `self._write(rel, self._render(name))`: the render comes first. */
  function EntryEffect(d: Disk, out: Path, render: Renderer, ctx: Context, e: Entry): Effect {
    match Content(render, ctx, e.source)
    case None => Effect(d, Fail(TemplateNotFound(e.source.name)))
    case Some(c) => WriteEffect(d, out, Rel(e), c)
  }

  /** The entries in order, stopping at the first one that raises. */
  function RunPlan(d: Disk, out: Path, render: Renderer, ctx: Context, plan: seq<Entry>): Effect
    decreases |plan|
  {
    if plan == [] then Effect(d, Pass)
    else
      var first := EntryEffect(d, out, render, ctx, plan[0]);
      if first.outcome.Fail? then first else RunPlan(first.disk, out, render, ctx, plan[1..])
  }

  /** Continue with `plan` after `e` unless `e` raised. */
  function Then(e: Effect, out: Path, render: Renderer, ctx: Context, plan: seq<Entry>): Effect {
    if e.outcome.Fail? then e else RunPlan(e.disk, out, render, ctx, plan)
  }

  /** `generate`: refuse an existing output directory, then run the plan. */
  function GenerateEffect(d: Disk, out: Path, render: Renderer, ctx: Context, o: Options): Effect {
    if Exists(d, out) then Effect(d, Fail(AlreadyExists(out)))
    else RunPlan(d, out, render, ctx, GeneratePlan(o))
  }

  /** Running a plan from its k-th entry: that entry, then the rest. */
  lemma RunPlanAt(d: Disk, out: Path, render: Renderer, ctx: Context, plan: seq<Entry>, k: nat)
    requires k < |plan|
    ensures RunPlan(d, out, render, ctx, plan[k..])
      == Then(EntryEffect(d, out, render, ctx, plan[k]), out, render, ctx, plan[k + 1..])
    ensures plan[|plan|..] == []
  {
    assert plan[k..][0] == plan[k];
    assert plan[k..][1..] == plan[k + 1..];
  }

  /** Running two plans one after the other is running their concatenation. */
  lemma {:induction false} RunPlanAppend(d: Disk, out: Path, render: Renderer, ctx: Context, p: seq<Entry>, q: seq<Entry>)
    ensures RunPlan(d, out, render, ctx, p + q) == Then(RunPlan(d, out, render, ctx, p), out, render, ctx, q)
    decreases |p|
  {
    if p == [] {
      assert p + q == q;
    } else {
      assert (p + q)[0] == p[0];
      assert (p + q)[1..] == p[1..] + q;
      var first := EntryEffect(d, out, render, ctx, p[0]);
      if first.outcome.Pass? {
        RunPlanAppend(first.disk, out, render, ctx, p[1..], q);
      }
    }
  }

  // ---------------------------------------------------------------------
  // The generator object
  // ---------------------------------------------------------------------

  class ProjectGenerator {
    const projectName: string
    const projectType: string
    const viewStyle: string
    const database: string
    const appName: string
    const withDocker: bool
    /** `Path(os.getcwd()).resolve() / project_name` */
    const outputDir: Path
    const context: Context
    const render: Renderer
    /** The filesystem written to. */
    const fs: FileSystem

    function Opts(): Options {
      Options(projectName, projectType, viewStyle, database, appName, withDocker)
    }

    /**
     * `__init__` for a name that passes the check; `Create` below is the
     * constructor call that may raise.
     */
    constructor (projectName: string, projectType: string, viewStyle: string, database: string,
      appName: string, withDocker: bool, cwd: string, render: Renderer, draw: nat -> nat, fs: FileSystem)
      requires IsIdentifier(projectName)
      ensures Opts() == Options(projectName, projectType, viewStyle, database, appName, withDocker)
      ensures outputDir == Resolve([], cwd) + [projectName]
      ensures context == MakeContext(Opts(), SecretKey(draw))
      ensures this.render == render && this.fs == fs
    {
      this.projectName := projectName;
      this.projectType := projectType;
      this.viewStyle := viewStyle;
      this.database := database;
      this.appName := appName;
      this.withDocker := withDocker;
      this.outputDir := Resolve([], cwd) + [projectName];
      this.render := render;
      this.fs := fs;
      this.context := MakeContext(
        Options(projectName, projectType, viewStyle, database, appName, withDocker), SecretKey(draw));
    }

    /** `ProjectGenerator(...)`: raises `ValueError` exactly for a name that is not an identifier. */
    static method Create(projectName: string, projectType: string, viewStyle: string, database: string,
      appName: string, withDocker: bool, cwd: string, render: Renderer, draw: nat -> nat, fs: FileSystem)
      returns (r: Result<ProjectGenerator, Error>)
      ensures r.Err? <==> !IsIdentifier(projectName)
      ensures r.Err? ==> r.error == InvalidName(projectName)
      ensures r.Ok? ==> fresh(r.value)
      ensures r.Ok? ==> r.value.Opts() == Options(projectName, projectType, viewStyle, database, appName, withDocker)
      ensures r.Ok? ==> r.value.outputDir == Resolve([], cwd) + [projectName]
      ensures r.Ok? ==> r.value.context == MakeContext(r.value.Opts(), SecretKey(draw))
      ensures r.Ok? ==> r.value.render == render && r.value.fs == fs
    {
      if !IsIdentifier(projectName) {
        return Err(InvalidName(projectName));
      }
      var g := new ProjectGenerator(projectName, projectType, viewStyle, database, appName,
        withDocker, cwd, render, draw, fs);
      return Ok(g);
    }

    /** `_write(rel, content)` */
    method Write(rel: string, content: string) returns (o: Outcome<Error>)
      modifies fs
      ensures Effect(fs.Snapshot(), o) == WriteEffect(old(fs.Snapshot()), outputDir, rel, content)
    {
      var full := Resolve(outputDir, rel);
      if !StartsWith(PathString(full), PathString(outputDir)) {
        return Fail(PathTraversal(rel));
      }
      var m := fs.MakeDirs(Parent(full));
      if m.Fail? {
        return Fail(OsError(m.error));
      }
      var w := fs.WriteText(full, content);
      if w.Fail? {
        return Fail(OsError(w.error));
      }
      return Pass;
    }

    /** `_write(rel, _render(name))`, or `_write(rel, "")` for a blank entry. */
    method WriteEntry(e: Entry) returns (o: Outcome<Error>)
      modifies fs
      ensures Effect(fs.Snapshot(), o) == EntryEffect(old(fs.Snapshot()), outputDir, render, context, e)
    {
      var content := Content(render, context, e.source);
      if content.None? {
        return Fail(TemplateNotFound(e.source.name));
      }
      o := Write(Rel(e), content.value);
    }

    /** `_create_root_files` */
    method CreateRootFiles() returns (o: Outcome<Error>)
      modifies fs
      ensures Effect(fs.Snapshot(), o) == RunPlan(old(fs.Snapshot()), outputDir, render, context, RootPlan())
    {
      var p := RootPlan();
      RunPlanAt(fs.Snapshot(), outputDir, render, context, p, 0);
      o := WriteEntry(p[0]);
      if o.Fail? { return; }
      RunPlanAt(fs.Snapshot(), outputDir, render, context, p, 1);
      o := WriteEntry(p[1]);
      if o.Fail? { return; }
      RunPlanAt(fs.Snapshot(), outputDir, render, context, p, 2);
      o := WriteEntry(p[2]);
      if o.Fail? { return; }
      RunPlanAt(fs.Snapshot(), outputDir, render, context, p, 3);
      o := WriteEntry(p[3]);
    }

    /** `_create_project_config` */
    method CreateProjectConfig() returns (o: Outcome<Error>)
      modifies fs
      ensures Effect(fs.Snapshot(), o) == RunPlan(old(fs.Snapshot()), outputDir, render, context, ConfigPlan(projectName))
    {
      var p := ConfigPlan(projectName);
      RunPlanAt(fs.Snapshot(), outputDir, render, context, p, 0);
      o := WriteEntry(p[0]);
      if o.Fail? { return; }
      RunPlanAt(fs.Snapshot(), outputDir, render, context, p, 1);
      o := WriteEntry(p[1]);
      if o.Fail? { return; }
      RunPlanAt(fs.Snapshot(), outputDir, render, context, p, 2);
      o := WriteEntry(p[2]);
      if o.Fail? { return; }
      RunPlanAt(fs.Snapshot(), outputDir, render, context, p, 3);
      o := WriteEntry(p[3]);
      if o.Fail? { return; }
      RunPlanAt(fs.Snapshot(), outputDir, render, context, p, 4);
      o := WriteEntry(p[4]);
    }

    /** `_create_app`: the entries after the fifth depend on the project type and view style. */
    method CreateApp() returns (o: Outcome<Error>)
      modifies fs
      ensures Effect(fs.Snapshot(), o)
        == RunPlan(old(fs.Snapshot()), outputDir, render, context, AppPlan(appName, projectType, viewStyle))
    {
      var p := AppModulesPlan(appName);
      var q := AppViewsPlan(appName, projectType, viewStyle);
      RunPlanAppend(fs.Snapshot(), outputDir, render, context, p, q);
      RunPlanAt(fs.Snapshot(), outputDir, render, context, p, 0);
      o := WriteEntry(p[0]);
      if o.Fail? { return; }
      RunPlanAt(fs.Snapshot(), outputDir, render, context, p, 1);
      o := WriteEntry(p[1]);
      if o.Fail? { return; }
      RunPlanAt(fs.Snapshot(), outputDir, render, context, p, 2);
      o := WriteEntry(p[2]);
      if o.Fail? { return; }
      RunPlanAt(fs.Snapshot(), outputDir, render, context, p, 3);
      o := WriteEntry(p[3]);
      if o.Fail? { return; }
      RunPlanAt(fs.Snapshot(), outputDir, render, context, p, 4);
      o := WriteEntry(p[4]);
      if o.Fail? { return; }
      RunPlanAt(fs.Snapshot(), outputDir, render, context, q, 0);
      o := WriteEntry(q[0]);
      if o.Fail? { return; }
      RunPlanAt(fs.Snapshot(), outputDir, render, context, q, 1);
      o := WriteEntry(q[1]);
      if o.Fail? { return; }
      RunPlanAt(fs.Snapshot(), outputDir, render, context, q, 2);
      o := WriteEntry(q[2]);
    }

    /** `_create_templates` */
    method CreateTemplates() returns (o: Outcome<Error>)
      modifies fs
      ensures Effect(fs.Snapshot(), o) == RunPlan(old(fs.Snapshot()), outputDir, render, context, TemplatesPlan(appName))
    {
      var p := TemplatesPlan(appName);
      RunPlanAt(fs.Snapshot(), outputDir, render, context, p, 0);
      o := WriteEntry(p[0]);
      if o.Fail? { return; }
      RunPlanAt(fs.Snapshot(), outputDir, render, context, p, 1);
      o := WriteEntry(p[1]);
      if o.Fail? { return; }
      RunPlanAt(fs.Snapshot(), outputDir, render, context, p, 2);
      o := WriteEntry(p[2]);
    }

    /** `_create_static_files` */
    method CreateStaticFiles() returns (o: Outcome<Error>)
      modifies fs
      ensures Effect(fs.Snapshot(), o) == RunPlan(old(fs.Snapshot()), outputDir, render, context, StaticPlan())
    {
      var p := StaticPlan();
      RunPlanAt(fs.Snapshot(), outputDir, render, context, p, 0);
      o := WriteEntry(p[0]);
    }

    /** `_create_docker_files` */
    method CreateDockerFiles() returns (o: Outcome<Error>)
      modifies fs
      ensures Effect(fs.Snapshot(), o) == RunPlan(old(fs.Snapshot()), outputDir, render, context, DockerPlan(database))
    {
      var p := DockerPlan(database);
      RunPlanAt(fs.Snapshot(), outputDir, render, context, p, 0);
      o := WriteEntry(p[0]);
      if o.Fail? { return; }
      RunPlanAt(fs.Snapshot(), outputDir, render, context, p, 1);
      o := WriteEntry(p[1]);
      if o.Fail? { return; }
      RunPlanAt(fs.Snapshot(), outputDir, render, context, p, 2);
      o := WriteEntry(p[2]);
      if o.Fail? { return; }
      if database == "postgresql" {
        RunPlanAt(fs.Snapshot(), outputDir, render, context, p, 3);
        o := WriteEntry(p[3]);
      }
    }

    /** `generate` */
    method Generate() returns (o: Outcome<Error>)
      modifies fs
      ensures Effect(fs.Snapshot(), o) == GenerateEffect(old(fs.Snapshot()), outputDir, render, context, Opts())
    {
      if fs.PathExists(outputDir) {
        return Fail(AlreadyExists(outputDir));
      }
      ghost var d0 := fs.Snapshot();
      var root := RootPlan();
      var config := ConfigPlan(projectName);
      var app := AppPlan(appName, projectType, viewStyle);
      var docker := if withDocker then DockerPlan(database) else [];
      var mvp := if projectType == "mvp" then TemplatesPlan(appName) + StaticPlan() else [];
      assert GeneratePlan(Opts()) == root + config + app + docker + mvp;
      RunPlanAppend(d0, outputDir, render, context, root, config);
      RunPlanAppend(d0, outputDir, render, context, root + config, app);
      RunPlanAppend(d0, outputDir, render, context, root + config + app, docker);
      RunPlanAppend(d0, outputDir, render, context, root + config + app + docker, mvp);

      o := CreateRootFiles();
      if o.Fail? { return; }
      o := CreateProjectConfig();
      if o.Fail? { return; }
      o := CreateApp();
      if o.Fail? { return; }
      ghost var d3 := fs.Snapshot();
      assert RunPlan(d3, outputDir, render, context, []) == Effect(d3, Pass);
      if withDocker {
        o := CreateDockerFiles();
        if o.Fail? { return; }
      }
      ghost var d4 := fs.Snapshot();
      if projectType == "mvp" {
        RunPlanAppend(d4, outputDir, render, context, TemplatesPlan(appName), StaticPlan());
        o := CreateTemplates();
        if o.Fail? { return; }
        o := CreateStaticFiles();
      }
    }
  }
}
