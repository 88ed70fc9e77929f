/**
 * What a run of the generator leaves on disk: the effect of one `_write`,
 * of a plan of writes, and of `generate`; which files the plan names for
 * each combination of options; where the writes land.
 */
module GeneratorProperties {
  import opened Results
  import opened Text
  import opened Paths
  import opened FileTree
  import opened Generator

  // ---------------------------------------------------------------------
  // One `_write`
  // ---------------------------------------------------------------------

  /** In a well-formed tree every directory above a directory is one too. */
  lemma {:induction false} DirAncestorsAreDirs(d: Disk, p: Path)
    requires Valid(d) && p in d.dirs
    ensures Ancestors(p) <= d.dirs
    decreases |p|
  {
    if p != [] {
      DirAncestorsAreDirs(d, Parent(p));
      forall q | q in Ancestors(p) ensures q in d.dirs {
        var k :| 0 <= k <= |p| && q == p[..k];
        if k < |p| {
          assert q == Parent(p)[..k];
        } else {
          assert q == p;
        }
      }
    } else {
      forall q | q in Ancestors(p) ensures q in d.dirs {
        assert q == [];
      }
    }
  }

  /** No file lies on the way to `p`, `p` excluded. */
  predicate PathClear(d: Disk, p: Path) {
    forall k :: 0 <= k < |p| ==> p[..k] !in d.files
  }

  /**
   * In a well-formed tree, `_write` succeeds exactly when the resolved path
   * passes the prefix check, is not a directory, and has no file above it.
   */
  lemma WriteSucceedsExactly(d: Disk, out: Path, rel: string, c: string)
    requires Valid(d)
    ensures var full := Resolve(out, rel);
      (WriteEffect(d, out, rel, c).outcome.Pass?
       <==> PassesPrefixCheck(full, out) && full !in d.dirs && PathClear(d, full))
  {
    var full := Resolve(out, rel);
    if PassesPrefixCheck(full, out) && full != [] {
      var par := Parent(full);
      assert PathClear(d, full) <==> par !in d.files && !FileAbove(d, par) by {
        assert full[..|par|] == par;
        forall k | 0 <= k < |par| ensures full[..k] == par[..k] {}
      }
      if MakeDirsResult(d, par).Ok? {
        var d1 := MakeDirsResult(d, par).value;
        assert full !in Ancestors(par);
        assert par == par[..|par|];
      }
    }
  }

  /**
   * `_write` that passes the check: the target afterwards holds exactly the
   * content, every other file is as before, the target's parent directories
   * exist, and the only new directories are those parents.
   */
  lemma WriteSucceeds(d: Disk, out: Path, rel: string, c: string)
    requires Valid(d) && WriteEffect(d, out, rel, c).outcome.Pass?
    ensures var full := Resolve(out, rel); var e := WriteEffect(d, out, rel, c).disk;
      && e.files == d.files[full := c]
      && e.dirs == d.dirs + Ancestors(Parent(full))
      && Valid(e)
  {
    var full := Resolve(out, rel);
    MakeDirsValid(d, Parent(full));
    var d1 := MakeDirsResult(d, Parent(full)).value;
    WriteTextValid(d1, full, c);
  }

  /**
   * `_write` that raises changes nothing: a path rejected by the check, and
   * also a failing `mkdir` or `write_text`, leave the tree as it was.
   */
  lemma WriteFailsCleanly(d: Disk, out: Path, rel: string, c: string)
    requires Valid(d) && WriteEffect(d, out, rel, c).outcome.Fail?
    ensures WriteEffect(d, out, rel, c).disk == d
    ensures !PassesPrefixCheck(Resolve(out, rel), out)
      ==> WriteEffect(d, out, rel, c).outcome == Fail(PathTraversal(rel))
  {
    var full := Resolve(out, rel);
    if PassesPrefixCheck(full, out) && MakeDirsResult(d, Parent(full)).Ok? {
      var d1 := MakeDirsResult(d, Parent(full)).value;
      // write_text failed after mkdir: the target is the root or a directory,
      // so its parents were already there
      assert full == [] || full in d.dirs by {
        assert full != [] ==> Parent(full) in d1.dirs by {
          assert Parent(full)[..|Parent(full)|] == Parent(full);
        }
        assert full != [] && full !in d.dirs ==> full !in Ancestors(Parent(full));
      }
      if full != [] {
        DirAncestorsAreDirs(d, full);
        DirAncestorsAreDirs(d, Parent(full));
      }
      assert d1.dirs == d.dirs;
    }
  }

  // ---------------------------------------------------------------------
  // A plan of writes
  // ---------------------------------------------------------------------

  /** The entry's content, or "" when its template is missing. */
  function ContentOr(render: Renderer, ctx: Context, s: Source): string {
    match Content(render, ctx, s)
    case None => ""
    case Some(c) => c
  }

  /** The files a plan writes, a later write to the same path overriding an earlier one. */
  function Written(out: Path, render: Renderer, ctx: Context, plan: seq<Entry>): map<Path, string>
    decreases |plan|
  {
    if plan == [] then map[]
    else
      map[Resolve(out, Rel(plan[0])) := ContentOr(render, ctx, plan[0].source)]
      + Written(out, render, ctx, plan[1..])
  }

  lemma EntryEffectOk(d: Disk, out: Path, render: Renderer, ctx: Context, e: Entry)
    requires Valid(d) && EntryEffect(d, out, render, ctx, e).outcome.Pass?
    ensures var r := EntryEffect(d, out, render, ctx, e);
      && r.disk.files == d.files[Resolve(out, Rel(e)) := ContentOr(render, ctx, e.source)]
      && d.dirs <= r.disk.dirs && Valid(r.disk)
  {
    WriteSucceeds(d, out, Rel(e), ContentOr(render, ctx, e.source));
  }

  lemma EntryEffectFail(d: Disk, out: Path, render: Renderer, ctx: Context, e: Entry)
    requires Valid(d) && EntryEffect(d, out, render, ctx, e).outcome.Fail?
    ensures EntryEffect(d, out, render, ctx, e).disk == d
  {
    if Content(render, ctx, e.source).Some? {
      WriteFailsCleanly(d, out, Rel(e), ContentOr(render, ctx, e.source));
    }
  }

  /** Running a plan keeps the tree well formed and never removes a directory. */
  lemma {:induction false} RunPlanValid(d: Disk, out: Path, render: Renderer, ctx: Context, plan: seq<Entry>)
    requires Valid(d)
    ensures Valid(RunPlan(d, out, render, ctx, plan).disk)
    ensures d.dirs <= RunPlan(d, out, render, ctx, plan).disk.dirs
    decreases |plan|
  {
    if plan != [] {
      var first := EntryEffect(d, out, render, ctx, plan[0]);
      if first.outcome.Pass? {
        EntryEffectOk(d, out, render, ctx, plan[0]);
        RunPlanValid(first.disk, out, render, ctx, plan[1..]);
      } else {
        EntryEffectFail(d, out, render, ctx, plan[0]);
      }
    }
  }

  /**
   * A plan that runs to the end leaves exactly the files there were before,
   * overridden by the ones it wrote.
   */
  lemma {:induction false} RunPlanWrites(d: Disk, out: Path, render: Renderer, ctx: Context, plan: seq<Entry>)
    requires Valid(d) && RunPlan(d, out, render, ctx, plan).outcome.Pass?
    ensures RunPlan(d, out, render, ctx, plan).disk.files == d.files + Written(out, render, ctx, plan)
    decreases |plan|
  {
    if plan != [] {
      var first := EntryEffect(d, out, render, ctx, plan[0]);
      EntryEffectOk(d, out, render, ctx, plan[0]);
      RunPlanWrites(first.disk, out, render, ctx, plan[1..]);
      var k := Resolve(out, Rel(plan[0]));
      var v := ContentOr(render, ctx, plan[0].source);
      var w := Written(out, render, ctx, plan[1..]);
      MapOverride(d.files, k, v, w);
    }
  }

  lemma MapOverride<K, V>(m: map<K, V>, k: K, v: V, w: map<K, V>)
    ensures m[k := v] + w == m + (map[k := v] + w)
  {
  }

  /** A plan raises only the errors of `_write` and the template lookup. */
  lemma {:induction false} RunPlanNeverAlreadyExists(d: Disk, out: Path, render: Renderer, ctx: Context, plan: seq<Entry>)
    ensures !RunPlan(d, out, render, ctx, plan).outcome.Fail?
      || !RunPlan(d, out, render, ctx, plan).outcome.error.AlreadyExists?
    decreases |plan|
  {
    if plan != [] {
      var first := EntryEffect(d, out, render, ctx, plan[0]);
      if first.outcome.Pass? {
        RunPlanNeverAlreadyExists(first.disk, out, render, ctx, plan[1..]);
      }
    }
  }

  // ---------------------------------------------------------------------
  // `generate`
  // ---------------------------------------------------------------------

  /**
   * `generate` raises `FileExistsError` exactly when the output directory
   * exists, and then the filesystem is unchanged.
   */
  lemma GenerateRefusesExisting(d: Disk, out: Path, render: Renderer, ctx: Context, o: Options)
    ensures GenerateEffect(d, out, render, ctx, o).outcome == Fail(AlreadyExists(out)) <==> Exists(d, out)
    ensures Exists(d, out) ==> GenerateEffect(d, out, render, ctx, o).disk == d
  {
    RunPlanNeverAlreadyExists(d, out, render, ctx, GeneratePlan(o));
  }

  // ---------------------------------------------------------------------
  // The plan's paths
  // ---------------------------------------------------------------------

  /** Every entry has a non-empty list of plain segments. */
  predicate PlainPlan(plan: seq<Entry>) {
    forall k :: 0 <= k < |plan| ==> |plan[k].parts| >= 1 && IsResolved(plan[k].parts)
  }

  lemma PlainAppend(p: seq<Entry>, q: seq<Entry>)
    requires PlainPlan(p) && PlainPlan(q)
    ensures PlainPlan(p + q)
  {
    forall k | 0 <= k < |p + q| ensures |(p + q)[k].parts| >= 1 && IsResolved((p + q)[k].parts) {
      if k >= |p| { assert (p + q)[k] == q[k - |p|]; }
    }
  }

  lemma RootPlanPlain()
    ensures PlainPlan(RootPlan())
  {
  }

  lemma ConfigPlanPlain(project: string)
    requires IsSegment(project)
    ensures PlainPlan(ConfigPlan(project))
  {
  }

  lemma AppPlanPlain(app: string, projectType: string, viewStyle: string)
    requires IsSegment(app)
    ensures PlainPlan(AppPlan(app, projectType, viewStyle))
  {
    AppModulesPlain(app);
    AppViewsPlain(app, projectType, viewStyle);
    PlainAppend(AppModulesPlan(app), AppViewsPlan(app, projectType, viewStyle));
  }

  lemma AppModulesPlain(app: string)
    requires IsSegment(app)
    ensures PlainPlan(AppModulesPlan(app))
  {
  }

  lemma AppViewsPlain(app: string, projectType: string, viewStyle: string)
    requires IsSegment(app)
    ensures PlainPlan(AppViewsPlan(app, projectType, viewStyle))
  {
    if projectType == "api" {
      assert PlainPlan(AppViewsPlan(app, projectType, viewStyle));
    } else {
      assert PlainPlan(AppViewsPlan(app, projectType, viewStyle));
    }
  }

  lemma DockerPlanPlain(database: string)
    ensures PlainPlan(DockerPlan(database))
  {
  }

  lemma MvpPlanPlain(app: string)
    requires IsSegment(app)
    ensures PlainPlan(TemplatesPlan(app) + StaticPlan())
  {
    assert PlainPlan(TemplatesPlan(app));
    assert PlainPlan(StaticPlan());
    PlainAppend(TemplatesPlan(app), StaticPlan());
  }

  /** With plain project and app names every path the generator emits is plain. */
  lemma GeneratePlanPlain(o: Options)
    requires IsSegment(o.projectName) && IsSegment(o.appName)
    ensures PlainPlan(GeneratePlan(o))
  {
    var root := RootPlan();
    var config := ConfigPlan(o.projectName);
    var app := AppPlan(o.appName, o.projectType, o.viewStyle);
    var docker := if o.withDocker then DockerPlan(o.database) else [];
    var mvp := if o.projectType == "mvp" then TemplatesPlan(o.appName) + StaticPlan() else [];
    RootPlanPlain();
    ConfigPlanPlain(o.projectName);
    AppPlanPlain(o.appName, o.projectType, o.viewStyle);
    if o.withDocker { DockerPlanPlain(o.database); }
    if o.projectType == "mvp" { MvpPlanPlain(o.appName); }
    PlainAppend(root, config);
    PlainAppend(root + config, app);
    PlainAppend(root + config + app, docker);
    PlainAppend(root + config + app + docker, mvp);
    assert GeneratePlan(o) == root + config + app + docker + mvp;
  }

  /**
   * Containment for the paths the generator emits: each resolves to the
   * output directory extended by its parts, lies inside the output
   * directory, and passes the prefix check.
   */
  lemma EmittedPathsInside(out: Path, plan: seq<Entry>)
    requires PlainPlan(plan)
    ensures forall k :: 0 <= k < |plan| ==>
      && Resolve(out, Rel(plan[k])) == out + plan[k].parts
      && Within(Resolve(out, Rel(plan[k])), out)
      && PassesPrefixCheck(Resolve(out, Rel(plan[k])), out)
  {
    forall k | 0 <= k < |plan|
      ensures Resolve(out, Rel(plan[k])) == out + plan[k].parts
      ensures Within(Resolve(out, Rel(plan[k])), out)
      ensures PassesPrefixCheck(Resolve(out, Rel(plan[k])), out)
    {
      ResolvePlain(out, plan[k].parts);
      WithinPassesCheck(out + plan[k].parts, out);
    }
  }

  /** The relative paths (as parts) a plan writes. */
  function PartsOf(plan: seq<Entry>): set<seq<string>>
    decreases |plan|
  {
    if plan == [] then {} else {plan[0].parts} + PartsOf(plan[1..])
  }

  /** The source of the last entry written at `parts`, if any. */
  function Lookup(plan: seq<Entry>, parts: seq<string>): (r: Option<Source>)
    ensures r.Some? <==> parts in PartsOf(plan)
    decreases |plan|
  {
    if plan == [] then None
    else
      var later := Lookup(plan[1..], parts);
      if later.Some? then later
      else if plan[0].parts == parts then Some(plan[0].source)
      else None
  }

  /** How many entries write at `parts`. */
  function Count(plan: seq<Entry>, parts: seq<string>): nat
    decreases |plan|
  {
    if plan == [] then 0
    else (if plan[0].parts == parts then 1 else 0) + Count(plan[1..], parts)
  }

  lemma {:induction false} PlanAppend(p: seq<Entry>, q: seq<Entry>, parts: seq<string>)
    ensures PartsOf(p + q) == PartsOf(p) + PartsOf(q)
    ensures Lookup(p + q, parts) == if Lookup(q, parts).Some? then Lookup(q, parts) else Lookup(p, parts)
    ensures Count(p + q, parts) == Count(p, parts) + Count(q, parts)
    decreases |p|
  {
    if p == [] {
      assert p + q == q;
    } else {
      assert (p + q)[0] == p[0];
      assert (p + q)[1..] == p[1..] + q;
      PlanAppend(p[1..], q, parts);
    }
  }

  /** The plan functions from the k-th entry on: that entry, then the rest. */
  lemma PlanAt(plan: seq<Entry>, k: nat, parts: seq<string>)
    requires k < |plan|
    ensures PartsOf(plan[k..]) == {plan[k].parts} + PartsOf(plan[k + 1..])
    ensures Lookup(plan[k..], parts)
      == if Lookup(plan[k + 1..], parts).Some? then Lookup(plan[k + 1..], parts)
         else if plan[k].parts == parts then Some(plan[k].source) else None
    ensures Count(plan[k..], parts) == (if plan[k].parts == parts then 1 else 0) + Count(plan[k + 1..], parts)
    ensures plan[0..] == plan && plan[|plan|..] == []
  {
    assert plan[k..][0] == plan[k];
    assert plan[k..][1..] == plan[k + 1..];
  }

  /**
   * On a plain plan, the written map holds exactly the plan's paths below
   * `out`, and each with the content of the last entry written there.
   */
  lemma {:induction false} WrittenAt(out: Path, render: Renderer, ctx: Context, plan: seq<Entry>, parts: seq<string>)
    requires PlainPlan(plan)
    ensures out + parts in Written(out, render, ctx, plan) <==> parts in PartsOf(plan)
    ensures Lookup(plan, parts).Some? ==>
      Written(out, render, ctx, plan)[out + parts] == ContentOr(render, ctx, Lookup(plan, parts).value)
    decreases |plan|
  {
    if plan != [] {
      assert PlainPlan(plan[1..]) by {
        forall k | 0 <= k < |plan| - 1 ensures plan[1..][k] == plan[k + 1] {}
      }
      WrittenAt(out, render, ctx, plan[1..], parts);
      ResolvePlain(out, plan[0].parts);
      assert out + plan[0].parts == out + parts <==> plan[0].parts == parts by {
        if out + plan[0].parts == out + parts {
          assert plan[0].parts == (out + plan[0].parts)[|out|..];
          assert parts == (out + parts)[|out|..];
        }
      }
    }
  }

  // ---------------------------------------------------------------------
  // Which files, for which options
  // ---------------------------------------------------------------------

  function RootFiles(): set<seq<string>> {
    {["manage.py"], ["requirements.txt"], [".env.example"], [".gitignore"]}
  }

  function ConfigFiles(project: string): set<seq<string>> {
    {[project, "__init__.py"], [project, "settings.py"], [project, "urls.py"],
     [project, "wsgi.py"], [project, "asgi.py"]}
  }

  /** The app's modules: `serializers.py` for an api project, `forms.py` otherwise. */
  function AppFiles(app: string, projectType: string): set<seq<string>> {
    {[app, "__init__.py"], [app, "admin.py"], [app, "apps.py"], [app, "models.py"],
     [app, "tests.py"], [app, "views.py"], [app, "urls.py"]}
    + (if projectType == "api" then {[app, "serializers.py"]} else {[app, "forms.py"]})
  }

  function DockerFiles(database: string): set<seq<string>> {
    {["Dockerfile"], ["docker-compose.yml"], [".dockerignore"]}
    + (if database == "postgresql" then {["entrypoint.sh"]} else {})
  }

  function MvpFiles(app: string): set<seq<string>> {
    {[app, "templates", app, "base.html"], [app, "templates", app, "home.html"],
     [app, "templates", app, "about.html"], ["static", "css", "style.css"]}
  }

  /** The files of a project, as a set, for every combination of options. */
  function ExpectedFiles(o: Options): set<seq<string>> {
    RootFiles() + ConfigFiles(o.projectName) + AppFiles(o.appName, o.projectType)
    + (if o.withDocker then DockerFiles(o.database) else {})
    + (if o.projectType == "mvp" then MvpFiles(o.appName) else {})
  }

  lemma RootPlanFiles()
    ensures PartsOf(RootPlan()) == RootFiles()
  {
  }

  lemma ConfigPlanFiles(project: string)
    ensures PartsOf(ConfigPlan(project)) == ConfigFiles(project)
  {
    var p := ConfigPlan(project);
    PlanAt(p, 0, []); PlanAt(p, 1, []); PlanAt(p, 2, []); PlanAt(p, 3, []); PlanAt(p, 4, []);
  }

  lemma AppPlanFiles(app: string, projectType: string, viewStyle: string)
    ensures PartsOf(AppPlan(app, projectType, viewStyle)) == AppFiles(app, projectType)
  {
    AppModulesFiles(app);
    AppViewsFiles(app, projectType, viewStyle);
    PlanAppend(AppModulesPlan(app), AppViewsPlan(app, projectType, viewStyle), []);
  }

  lemma AppModulesFiles(app: string)
    ensures PartsOf(AppModulesPlan(app))
      == {[app, "__init__.py"], [app, "admin.py"], [app, "apps.py"], [app, "models.py"], [app, "tests.py"]}
  {
    var p := AppModulesPlan(app);
    PlanAt(p, 0, []); PlanAt(p, 1, []); PlanAt(p, 2, []); PlanAt(p, 3, []); PlanAt(p, 4, []);
  }

  lemma AppViewsFiles(app: string, projectType: string, viewStyle: string)
    ensures PartsOf(AppViewsPlan(app, projectType, viewStyle))
      == {[app, "views.py"], [app, "urls.py"]} + (if projectType == "api" then {[app, "serializers.py"]} else {[app, "forms.py"]})
  {
    var q := AppViewsPlan(app, projectType, viewStyle);
    PlanAt(q, 0, []); PlanAt(q, 1, []); PlanAt(q, 2, []);
  }

  lemma DockerPlanFiles(database: string)
    ensures PartsOf(DockerPlan(database)) == DockerFiles(database)
  {
    var p := DockerPlan(database);
    PlanAt(p, 0, []); PlanAt(p, 1, []); PlanAt(p, 2, []);
    if database == "postgresql" { PlanAt(p, 3, []); }
  }

  lemma MvpPlanFiles(app: string)
    ensures PartsOf(TemplatesPlan(app) + StaticPlan()) == MvpFiles(app)
  {
    var p := TemplatesPlan(app) + StaticPlan();
    PlanAt(p, 0, []); PlanAt(p, 1, []); PlanAt(p, 2, []); PlanAt(p, 3, []);
  }

  /** The paths of what `generate` writes form exactly `ExpectedFiles`. */
  lemma GeneratedFiles(o: Options)
    ensures PartsOf(GeneratePlan(o)) == ExpectedFiles(o)
  {
    var root := RootPlan();
    var config := ConfigPlan(o.projectName);
    var app := AppPlan(o.appName, o.projectType, o.viewStyle);
    var docker := if o.withDocker then DockerPlan(o.database) else [];
    var mvp := if o.projectType == "mvp" then TemplatesPlan(o.appName) + StaticPlan() else [];
    RootPlanFiles();
    ConfigPlanFiles(o.projectName);
    AppPlanFiles(o.appName, o.projectType, o.viewStyle);
    DockerPlanFiles(o.database);
    MvpPlanFiles(o.appName);
    PlanAppend(root, config, []);
    PlanAppend(root + config, app, []);
    PlanAppend(root + config + app, docker, []);
    PlanAppend(root + config + app + docker, mvp, []);
    assert GeneratePlan(o) == root + config + app + docker + mvp;
  }

  /** The root, config and app modules are written whatever the options. */
  lemma AlwaysWritten(o: Options)
    ensures RootFiles() + ConfigFiles(o.projectName) <= ExpectedFiles(o)
    ensures forall f | f in {"__init__.py", "admin.py", "apps.py", "models.py", "tests.py", "views.py", "urls.py"} ::
      [o.appName, f] in ExpectedFiles(o)
  {
  }

  /** Membership in `ExpectedFiles`, component by component. */
  lemma InExpected(o: Options, x: seq<string>)
    ensures x in ExpectedFiles(o) <==>
      || x in RootFiles() || x in ConfigFiles(o.projectName) || x in AppFiles(o.appName, o.projectType)
      || (o.withDocker && x in DockerFiles(o.database))
      || (o.projectType == "mvp" && x in MvpFiles(o.appName))
  {
  }

  /** `serializers.py` exactly for an api project, `forms.py` exactly for any other. */
  lemma ApiOrFormsModule(o: Options)
    ensures [o.appName, "serializers.py"] in ExpectedFiles(o) <==> o.projectType == "api"
    ensures [o.appName, "forms.py"] in ExpectedFiles(o) <==> o.projectType != "api"
  {
    AppModuleIff(o, "serializers.py");
    AppModuleIff(o, "forms.py");
  }

  lemma AppModuleIff(o: Options, f: string)
    requires f == "serializers.py" || f == "forms.py"
    ensures [o.appName, f] in ExpectedFiles(o) <==> (if f == "forms.py" then o.projectType != "api" else o.projectType == "api")
  {
    var x := [o.appName, f];
    assert x !in RootFiles() && x !in ConfigFiles(o.projectName);
    assert x !in DockerFiles(o.database) && x !in MvpFiles(o.appName);
    assert (x in AppFiles(o.appName, o.projectType)) == if f == "forms.py" then o.projectType != "api" else o.projectType == "api";
    InExpected(o, x);
  }

  /** The three Docker files exactly when Docker is asked for. */
  lemma DockerFilesIff(o: Options)
    ensures ["Dockerfile"] in ExpectedFiles(o) <==> o.withDocker
    ensures ["docker-compose.yml"] in ExpectedFiles(o) <==> o.withDocker
    ensures [".dockerignore"] in ExpectedFiles(o) <==> o.withDocker
  {
    DockerFileIff(o, ["Dockerfile"]);
    DockerFileIff(o, ["docker-compose.yml"]);
    DockerFileIff(o, [".dockerignore"]);
  }

  lemma DockerFileIff(o: Options, x: seq<string>)
    requires x == ["Dockerfile"] || x == ["docker-compose.yml"] || x == [".dockerignore"]
    ensures x in ExpectedFiles(o) <==> o.withDocker
  {
    assert x !in RootFiles() && x !in ConfigFiles(o.projectName);
    assert x !in AppFiles(o.appName, o.projectType) && x !in MvpFiles(o.appName);
    assert x in DockerFiles(o.database);
    InExpected(o, x);
  }

  /** `entrypoint.sh` exactly when Docker is asked for with PostgreSQL. */
  lemma EntrypointIff(o: Options)
    ensures ["entrypoint.sh"] in ExpectedFiles(o) <==> o.withDocker && o.database == "postgresql"
  {
    var x := ["entrypoint.sh"];
    assert x !in RootFiles() && x !in ConfigFiles(o.projectName);
    assert x !in AppFiles(o.appName, o.projectType) && x !in MvpFiles(o.appName);
    assert x in DockerFiles(o.database) <==> o.database == "postgresql";
    InExpected(o, x);
  }

  /**
   * The HTML pages and the stylesheet exactly for project type "mvp" (and
   * so not for a type that is neither "api" nor "mvp", whose app still gets
   * the mvp-style modules).
   */
  lemma MvpFilesIff(o: Options)
    ensures [o.appName, "templates", o.appName, "base.html"] in ExpectedFiles(o) <==> o.projectType == "mvp"
    ensures [o.appName, "templates", o.appName, "home.html"] in ExpectedFiles(o) <==> o.projectType == "mvp"
    ensures [o.appName, "templates", o.appName, "about.html"] in ExpectedFiles(o) <==> o.projectType == "mvp"
    ensures ["static", "css", "style.css"] in ExpectedFiles(o) <==> o.projectType == "mvp"
  {
    var a := o.appName;
    forall x | x in MvpFiles(a)
      ensures x !in RootFiles() && x !in ConfigFiles(o.projectName)
      ensures x !in AppFiles(a, o.projectType) && x !in DockerFiles(o.database)
    {
      assert |x| >= 3;
    }
    InExpected(o, [a, "templates", a, "base.html"]);
    InExpected(o, [a, "templates", a, "home.html"]);
    InExpected(o, [a, "templates", a, "about.html"]);
    InExpected(o, ["static", "css", "style.css"]);
  }

  lemma MvpFilesDeep(app: string)
    ensures forall x :: x in MvpFiles(app) ==> |x| >= 3
  {
  }

  /** `Count` and `Lookup` for a plan of which no entry writes at `parts`. */
  lemma {:induction false} Untouched(plan: seq<Entry>, parts: seq<string>)
    requires parts !in PartsOf(plan)
    ensures Count(plan, parts) == 0 && Lookup(plan, parts) == None
    decreases |plan|
  {
    if plan != [] {
      Untouched(plan[1..], parts);
    }
  }

  lemma AppendUntouched(p: seq<Entry>, q: seq<Entry>, parts: seq<string>)
    requires parts !in PartsOf(q)
    ensures Lookup(p + q, parts) == Lookup(p, parts) && Count(p + q, parts) == Count(p, parts)
  {
    PlanAppend(p, q, parts);
    Untouched(q, parts);
  }

  lemma PrependUntouched(p: seq<Entry>, q: seq<Entry>, parts: seq<string>)
    requires parts !in PartsOf(p)
    ensures Lookup(p + q, parts) == Lookup(q, parts) && Count(p + q, parts) == Count(q, parts)
  {
    PlanAppend(p, q, parts);
    Untouched(p, parts);
  }

  /** The docker and mvp parts of the plan. */
  function DockerPart(o: Options): seq<Entry> {
    if o.withDocker then DockerPlan(o.database) else []
  }

  function MvpPart(o: Options): seq<Entry> {
    if o.projectType == "mvp" then TemplatesPlan(o.appName) + StaticPlan() else []
  }

  /** No root, Docker or mvp entry writes an app or project module. */
  lemma OutsidePackages(o: Options, parts: seq<string>)
    requires |parts| == 2 && parts[1] in {"__init__.py", "urls.py", "views.py"}
    ensures parts !in PartsOf(RootPlan()) && parts !in PartsOf(DockerPart(o)) && parts !in PartsOf(MvpPart(o))
  {
    RootPlanFiles();
    DockerPlanFiles(o.database);
    if o.projectType == "mvp" {
      MvpPlanFiles(o.appName);
      MvpFilesDeep(o.appName);
    }
  }

  /**
   * The entries that can write at an app or project path all come from
   * the config and app packages.
   */
  lemma SourcesOfPlan(o: Options, parts: seq<string>)
    requires |parts| == 2 && parts[1] in {"__init__.py", "urls.py", "views.py"}
    ensures var plan := GeneratePlan(o);
      var app := AppPlan(o.appName, o.projectType, o.viewStyle);
      var config := ConfigPlan(o.projectName);
      && Lookup(plan, parts) == (if Lookup(app, parts).Some? then Lookup(app, parts) else Lookup(config, parts))
      && Count(plan, parts) == Count(config, parts) + Count(app, parts)
  {
    var root := RootPlan();
    var config := ConfigPlan(o.projectName);
    var app := AppPlan(o.appName, o.projectType, o.viewStyle);
    OutsidePackages(o, parts);
    var rc := root + config;
    var rca := rc + app;
    var rcad := rca + DockerPart(o);
    assert GeneratePlan(o) == rcad + MvpPart(o);
    AppendUntouched(rcad, MvpPart(o), parts);
    AppendUntouched(rca, DockerPart(o), parts);
    PlanAppend(rc, app, parts);
    PrependUntouched(root, config, parts);
  }

  lemma ConfigSources(project: string, f: string)
    ensures Lookup(ConfigPlan(project), [project, f]) ==
      if f == "__init__.py" then Some(Blank)
      else if f == "urls.py" then Some(Template("project/urls.py.j2"))
      else Lookup(ConfigPlan(project), [project, f])
    ensures f in {"__init__.py", "urls.py"} ==> Count(ConfigPlan(project), [project, f]) == 1
    ensures f == "views.py" ==> Count(ConfigPlan(project), [project, f]) == 0
  {
    var p := ConfigPlan(project);
    var x := [project, f];
    FiveEntries(p, x);
  }

  /** Lookup and Count on a plan of five entries, spelled out. */
  lemma FiveEntries(p: seq<Entry>, x: seq<string>)
    requires |p| == 5
    ensures Lookup(p, x)
      == if p[4].parts == x then Some(p[4].source)
         else if p[3].parts == x then Some(p[3].source)
         else if p[2].parts == x then Some(p[2].source)
         else if p[1].parts == x then Some(p[1].source)
         else if p[0].parts == x then Some(p[0].source)
         else None
    ensures Count(p, x)
      == (if p[0].parts == x then 1 else 0) + (if p[1].parts == x then 1 else 0)
       + (if p[2].parts == x then 1 else 0) + (if p[3].parts == x then 1 else 0)
       + (if p[4].parts == x then 1 else 0)
  {
    PlanAt(p, 0, x); PlanAt(p, 1, x); PlanAt(p, 2, x); PlanAt(p, 3, x); PlanAt(p, 4, x);
  }

  lemma AppSources(o: Options, f: string)
    ensures var app := AppPlan(o.appName, o.projectType, o.viewStyle); var x := [o.appName, f];
      && (f == "__init__.py" ==> Lookup(app, x) == Some(Blank) && Count(app, x) == 1)
      && (f == "views.py" ==>
            Lookup(app, x) == Some(Template(ViewsTemplate(o.projectType, o.viewStyle))) && Count(app, x) == 1)
      && (f == "urls.py" ==>
            && Count(app, x) == 1
            && Lookup(app, x) == Some(Template(if o.projectType == "api" then "app/urls_api.py.j2" else "app/urls_mvp.py.j2")))
  {
    var x := [o.appName, f];
    AppModulesSources(o.appName, f);
    AppViewsSources(o.appName, o.projectType, o.viewStyle, f);
    PlanAppend(AppModulesPlan(o.appName), AppViewsPlan(o.appName, o.projectType, o.viewStyle), x);
  }

  lemma AppModulesSources(app: string, f: string)
    ensures var p := AppModulesPlan(app); var x := [app, f];
      && (f == "__init__.py" ==> Lookup(p, x) == Some(Blank) && Count(p, x) == 1)
      && (f in {"views.py", "urls.py"} ==> Lookup(p, x) == None && Count(p, x) == 0)
  {
    var p := AppModulesPlan(app);
    var x := [app, f];
    FiveEntries(p, x);
  }

  lemma AppViewsSources(app: string, projectType: string, viewStyle: string, f: string)
    ensures var q := AppViewsPlan(app, projectType, viewStyle); var x := [app, f];
      && (f == "__init__.py" ==> Lookup(q, x) == None && Count(q, x) == 0)
      && (f == "views.py" ==> Lookup(q, x) == Some(Template(ViewsTemplate(projectType, viewStyle))) && Count(q, x) == 1)
      && (f == "urls.py" ==>
            && Count(q, x) == 1
            && Lookup(q, x) == Some(Template(if projectType == "api" then "app/urls_api.py.j2" else "app/urls_mvp.py.j2")))
  {
    var q := AppViewsPlan(app, projectType, viewStyle);
    var x := [app, f];
    PlanAt(q, 0, x); PlanAt(q, 1, x); PlanAt(q, 2, x);
  }

  /**
   * `<app>/views.py` is written once, from the template chosen by project
   * type and view style.
   */
  lemma ViewsWrittenOnce(o: Options)
    ensures Lookup(GeneratePlan(o), [o.appName, "views.py"])
      == Some(Template(ViewsTemplate(o.projectType, o.viewStyle)))
    ensures Count(GeneratePlan(o), [o.appName, "views.py"]) == 1
    ensures ViewsTemplate(o.projectType, o.viewStyle)
      in {"app/views_api_cbv.py.j2", "app/views_api_fbv.py.j2", "app/views_cbv.py.j2", "app/views_fbv.py.j2"}
  {
    SourcesOfPlan(o, [o.appName, "views.py"]);
    AppSources(o, "views.py");
    ConfigPlanFiles(o.projectName);
    Untouched(ConfigPlan(o.projectName), [o.appName, "views.py"]);
  }

  /** Both `__init__.py` files are empty. */
  lemma InitFilesBlank(o: Options)
    ensures Lookup(GeneratePlan(o), [o.projectName, "__init__.py"]) == Some(Blank)
    ensures Lookup(GeneratePlan(o), [o.appName, "__init__.py"]) == Some(Blank)
  {
    AppInitBlank(o);
    if o.projectName != o.appName {
      ProjectInitBlank(o);
    }
  }

  lemma AppInitBlank(o: Options)
    ensures Lookup(GeneratePlan(o), [o.appName, "__init__.py"]) == Some(Blank)
  {
    SourcesOfPlan(o, [o.appName, "__init__.py"]);
    AppSources(o, "__init__.py");
  }

  lemma ProjectInitBlank(o: Options)
    requires o.projectName != o.appName
    ensures Lookup(GeneratePlan(o), [o.projectName, "__init__.py"]) == Some(Blank)
  {
    var x := [o.projectName, "__init__.py"];
    SourcesOfPlan(o, x);
    ConfigSources(o.projectName, "__init__.py");
    AppPlanFiles(o.appName, o.projectType, o.viewStyle);
    Untouched(AppPlan(o.appName, o.projectType, o.viewStyle), x);
  }

  /**
   * A project named like its app: config and app share one directory, so
   * `__init__.py` and `urls.py` are written twice and the app's `urls.py`
   * overrides the project's. With distinct names the project's `urls.py`
   * stays.
   */
  lemma SameNameCollision(o: Options)
    ensures o.projectName == o.appName ==>
      && Count(GeneratePlan(o), [o.appName, "urls.py"]) == 2
      && Count(GeneratePlan(o), [o.appName, "__init__.py"]) == 2
      && Lookup(GeneratePlan(o), [o.appName, "urls.py"])
        == Some(Template(if o.projectType == "api" then "app/urls_api.py.j2" else "app/urls_mvp.py.j2"))
    ensures o.projectName != o.appName ==>
      && Count(GeneratePlan(o), [o.projectName, "urls.py"]) == 1
      && Lookup(GeneratePlan(o), [o.projectName, "urls.py"]) == Some(Template("project/urls.py.j2"))
  {
    if o.projectName == o.appName {
      SharedModule(o, "urls.py");
      SharedModule(o, "__init__.py");
    } else {
      ProjectUrlsKept(o);
    }
  }

  /** With one directory for both packages, a module both write is written twice, the app's last. */
  lemma SharedModule(o: Options, f: string)
    requires o.projectName == o.appName && f in {"__init__.py", "urls.py"}
    ensures Count(GeneratePlan(o), [o.appName, f]) == 2
    ensures f == "urls.py" ==>
      Lookup(GeneratePlan(o), [o.appName, f])
        == Some(Template(if o.projectType == "api" then "app/urls_api.py.j2" else "app/urls_mvp.py.j2"))
  {
    SourcesOfPlan(o, [o.appName, f]);
    ConfigSources(o.projectName, f);
    AppSources(o, f);
  }

  lemma ProjectUrlsKept(o: Options)
    requires o.projectName != o.appName
    ensures Count(GeneratePlan(o), [o.projectName, "urls.py"]) == 1
    ensures Lookup(GeneratePlan(o), [o.projectName, "urls.py"]) == Some(Template("project/urls.py.j2"))
  {
    var x := [o.projectName, "urls.py"];
    SourcesOfPlan(o, x);
    ConfigSources(o.projectName, "urls.py");
    AppPlanFiles(o.appName, o.projectType, o.viewStyle);
    Untouched(AppPlan(o.appName, o.projectType, o.viewStyle), x);
  }

  /**
   * A plain plan that runs to the end under an output directory that did
   * not exist: below it there is exactly one file per path of the plan,
   * holding the content of its last write.
   */
  lemma RunPlanLeaves(d: Disk, out: Path, render: Renderer, ctx: Context, plan: seq<Entry>)
    requires Valid(d) && !Exists(d, out) && PlainPlan(plan)
    requires RunPlan(d, out, render, ctx, plan).outcome.Pass?
    ensures var e := RunPlan(d, out, render, ctx, plan).disk;
      && (forall parts :: out + parts in e.files <==> parts in PartsOf(plan))
      && (forall parts :: parts in PartsOf(plan) ==>
            e.files[out + parts] == ContentOr(render, ctx, Lookup(plan, parts).value))
  {
    var e := RunPlan(d, out, render, ctx, plan).disk;
    RunPlanWrites(d, out, render, ctx, plan);
    forall parts ensures out + parts in e.files <==> parts in PartsOf(plan) {
      WrittenAt(out, render, ctx, plan, parts);
      assert Within(out + parts, out);
      NothingBelowMissing(d, out, out + parts);
    }
    forall parts | parts in PartsOf(plan)
      ensures e.files[out + parts] == ContentOr(render, ctx, Lookup(plan, parts).value)
    {
      WrittenAt(out, render, ctx, plan, parts);
    }
  }

  /** A plan of plain relative paths writes nothing outside the output directory. */
  lemma {:induction false} WrittenInside(out: Path, render: Renderer, ctx: Context, plan: seq<Entry>)
    requires PlainPlan(plan)
    ensures forall p :: p in Written(out, render, ctx, plan) ==> Within(p, out)
    decreases |plan|
  {
    if plan != [] {
      ResolvePlain(out, plan[0].parts);
      assert PlainPlan(plan[1..]) by {
        forall k | 0 <= k < |plan[1..]| ensures |plan[1..][k].parts| >= 1 && IsResolved(plan[1..][k].parts) {
          assert plan[1..][k] == plan[k + 1];
        }
      }
      WrittenInside(out, render, ctx, plan[1..]);
    }
  }

  /**
   * A `generate` that completes on a well-formed tree, with plain project
   * and app names: the tree stays well formed, the files outside the output
   * directory are as before, and below it there is exactly one file per
   * path of `ExpectedFiles`, holding the content of its last write.
   */
  lemma GenerateLeaves(d: Disk, out: Path, render: Renderer, ctx: Context, o: Options)
    requires Valid(d) && IsSegment(o.projectName) && IsSegment(o.appName)
    requires GenerateEffect(d, out, render, ctx, o).outcome.Pass?
    ensures var e := GenerateEffect(d, out, render, ctx, o).disk;
      && Valid(e)
      && e.files == d.files + Written(out, render, ctx, GeneratePlan(o))
      && (forall p :: !Within(p, out) ==>
            (p in e.files <==> p in d.files) && (p in d.files ==> e.files[p] == d.files[p]))
      && (forall parts :: out + parts in e.files <==> parts in ExpectedFiles(o))
      && (forall parts :: parts in ExpectedFiles(o) ==>
            && Lookup(GeneratePlan(o), parts).Some?
            && e.files[out + parts] == ContentOr(render, ctx, Lookup(GeneratePlan(o), parts).value))
  {
    var plan := GeneratePlan(o);
    assert !Exists(d, out);
    RunPlanValid(d, out, render, ctx, plan);
    RunPlanWrites(d, out, render, ctx, plan);
    GeneratePlanPlain(o);
    GeneratedFiles(o);
    RunPlanLeaves(d, out, render, ctx, plan);
    WrittenInside(out, render, ctx, plan);
  }

  /**
   * `app_name` is not checked: under the output directory `P/name` an app
   * named `../name<suffix>` puts its `__init__.py` into the sibling
   * directory `P/name<suffix>`, and the prefix check lets it through.
   */
  lemma UnvalidatedAppNameEscapes(parent: Path, suffix: string, o: Options)
    requires IsResolved(parent) && IsSegment(o.projectName)
    requires suffix != [] && IsSegment(o.projectName + suffix)
    requires o.appName == "../" + o.projectName + suffix
    ensures var e := Entry([o.appName, "__init__.py"], Blank);
      var out := parent + [o.projectName];
      var full := Resolve(out, Rel(e));
      && e in GeneratePlan(o)
      && full == parent + [o.projectName + suffix, "__init__.py"]
      && PassesPrefixCheck(full, out)
      && !Within(full, out)
  {
    var name := o.projectName;
    var e := Entry([o.appName, "__init__.py"], Blank);
    AppInitRel(o.appName, name + suffix);
    SiblingDirectoryPassesCheck(parent, name, suffix, ["__init__.py"]);
    assert parent + [name + suffix] + ["__init__.py"] == parent + [name + suffix, "__init__.py"];
    AppInitPlanned(o);
  }

  lemma AppInitRel(app: string, sibling: string)
    requires app == "../" + sibling
    ensures Rel(Entry([app, "__init__.py"], Blank)) == Join([".."] + [sibling] + ["__init__.py"], "/")
  {
    var e := Entry([app, "__init__.py"], Blank);
    var segs := [".."] + [sibling] + ["__init__.py"];
    assert e.parts[1..] == ["__init__.py"];
    assert Join(e.parts[1..], "/") == "__init__.py";
    assert Rel(e) == app + "/" + "__init__.py";
    assert segs[1..] == [sibling, "__init__.py"];
    assert segs[1..][1..] == ["__init__.py"];
    assert Join(segs, "/") == ".." + "/" + (sibling + "/" + "__init__.py");
  }

  lemma AppInitPlanned(o: Options)
    ensures Entry([o.appName, "__init__.py"], Blank) in GeneratePlan(o)
  {
    var head := RootPlan() + ConfigPlan(o.projectName);
    var app := AppPlan(o.appName, o.projectType, o.viewStyle);
    assert app[0] == Entry([o.appName, "__init__.py"], Blank);
    assert (head + app)[|head|] == app[0];
    assert GeneratePlan(o)[|head|] == (head + app)[|head|];
  }
}
