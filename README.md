# django-kickstartx in Dafny

A model of the two pieces of django-kickstartx that carry logic of their own.

1. **`ProjectGenerator`** (`django_kickstart/generator.py`) scaffolds a Django
   project. It checks the project name and builds the template context: the
   option strings, boolean flags derived from them and a 50-character secret
   key. It refuses an output directory that already exists. It then renders a
   fixed set of Jinja2 templates and writes them below `<cwd>/<project_name>`.
   Every write goes through `_write`. `_write` resolves the path, applies a
   string-prefix check, creates the parent directories and writes the file.
2. **The release helpers** (`release.py`) are text transforms. They find
   `__version__ = "X.Y.Z"`, bump the patch number, rewrite the version in a
   file, collect changelog entries from the lines typed at the prompt, and
   insert a new release section into `CHANGELOG.md`.

Files:

- `results.dfy`: `Option`, `Result` and `Outcome` (success or an error,
  for Python functions that return `None`).
- `text.dfy`: the Python `str` operations the source uses. These are
  `startswith`, `in`/`find`, `split`, `split(sep, 1)`, `join`, `replace`
  (including the empty-pattern case) and `strip` with Python's whitespace
  set.
- `paths.dfy`: POSIX paths as segment sequences. It covers `base / rel`,
  `resolve()` as lexical normalisation, `str(path)`, `parent`, and the
  `startswith` check of `_write`. That check is kept exactly as written and
  characterised precisely.
- `filetree.dfy`: a filesystem of files and directories. It specifies
  `mkdir(parents=True, exist_ok=True)` and `write_text` on a `Disk` value. The
  mutable `FileSystem` class implements them.
- `generator.dfy`: the name check, the secret key, the context, the write
  plan of each `_create_*` method, the effect of `_write` and `generate` as
  functions, and the `ProjectGenerator` class. Each class method is proved
  equal to its effect function.
- `generator_properties.dfy`: what one `_write`, a plan of writes and
  `generate` leave on disk. It also holds the file-set truth table over
  `(project_type, view_style, database, with_docker)`, containment of the
  emitted paths, the `project_name == app_name` collision and the
  unvalidated `app_name`.
- `release.dfy`: the release helpers. The `prompt_changelog` loop and the
  `+=` loop of `update_changelog_file` are methods. Each is proved equal to
  a recursive function, and the properties are proved about those
  functions.

Modelling choices:

- `project_type`, `view_style` and `database` stay strings, as in the
  source. The app branch tests `== "api"` and the HTML/static branch tests
  `== "mvp"`. So a project type such as `"rest"` gets the mvp app modules but
  no HTML templates or stylesheet, and the model keeps that.
- Rendering is a function parameter `Renderer = (name, Context) -> Option<string>`.
  `None` stands for a template that cannot be loaded.
- `secrets.choice` is a parameter `draw: nat -> nat`. The i-th key character
  is `alphabet[draw(i) % 94]`. The key is constrained only by its length and
  alphabet, and every such key is the outcome of some draw.
- `os.getcwd()` is a string parameter. `resolve()` is lexical: `.` and empty
  segments stay put, `..` climbs one level and never above `/`, and there
  are no symbolic links.
- The clock (`date.today()`) is a parameter. So is the changelog's
  existing content, with `None` meaning the file is missing. `input()` is a
  sequence of inputs, each a line or Ctrl+C. Running out of inputs stands
  for the `EOFError` that the script does not catch.
- `app_name` is not validated, as in the source. The lemmas about the file
  set hold for any app name. The lemmas about what lands on disk assume
  that the app name is a plain path segment.

## Model

| member | source | states |
|---|---|---|
| `Generator.NameRegexAcceptsTrailingNewline` | django_kickstart/generator.py:28 | The as-written `re.match` with `^…$` accepts `"blog\n"`, which is not an identifier |
| `Generator.IdentifierIsSegment` | django_kickstart/generator.py:27-32 | An accepted name is one plain path segment: no `/`, no `.`, not `..` |
| `Generator.ProjectGenerator.Create` | django_kickstart/generator.py:18-65 | Construction fails with `InvalidName` exactly when the name is not an identifier. On success the fields are the arguments, the output directory is `resolve(cwd)/name`, and the context is built from the options and a drawn key |
| `Generator.ProjectGenerator.constructor` | django_kickstart/generator.py:34-65 | Sets the options, `output_dir = resolve(cwd) / project_name` and the context with a fresh secret key |
| `Generator.SecretKey` | django_kickstart/generator.py:47-49 | The key has 50 characters, each one from letters + digits + punctuation |
| `Generator.AlphabetIsPrintable` | django_kickstart/generator.py:48 | The alphabet has 94 characters, all printable ASCII other than space |
| `Generator.EveryKeyCanBeDrawn` | django_kickstart/generator.py:47-49 | Length and alphabet are the only constraints: every 50-character string over the alphabet is the key of some draw |
| `Generator.MakeContext` | django_kickstart/generator.py:51-65 | The context holds the options and the key. `is_api`, `is_mvp`, `is_cbv`, `is_fbv`, `is_postgresql` and `is_sqlite` each hold iff their option equals the named string. `is_docker == with_docker` |
| `Generator.ContextFlagsExclusive` | django_kickstart/generator.py:58-63 | The two flags of each pair never both hold. A project type other than `api`/`mvp` sets neither flag |
| `Generator.RunPlanAppend` | django_kickstart/generator.py:76-84 | Running two write plans in turn is running their concatenation. The second plan is skipped once the first raises |
| `Generator.ProjectGenerator.Write` | django_kickstart/generator.py:91-102 | `_write`: the new filesystem and outcome are exactly `WriteEffect`, which resolves, prefix-checks, runs `mkdir` and then `write_text` |
| `Generator.ProjectGenerator.WriteEntry` | django_kickstart/generator.py:86-89 | `_write(rel, _render(name))`: a template that cannot be loaded raises before anything is written |
| `Generator.ProjectGenerator.CreateRootFiles` | django_kickstart/generator.py:104-109 | Writes manage.py, requirements.txt, .env.example and .gitignore in order, stopping at the first error |
| `Generator.ProjectGenerator.CreateProjectConfig` | django_kickstart/generator.py:111-119 | Writes `<project>/{__init__,settings,urls,wsgi,asgi}.py`, with `__init__.py` empty |
| `Generator.ProjectGenerator.CreateApp` | django_kickstart/generator.py:121-145 | Writes the five app modules, then views plus serializers+urls_api for `api`, or views plus urls_mvp+forms otherwise |
| `Generator.ProjectGenerator.CreateTemplates` | django_kickstart/generator.py:147-154 | Writes base/home/about.html under `<app>/templates/<app>` |
| `Generator.ProjectGenerator.CreateStaticFiles` | django_kickstart/generator.py:156-158 | Writes static/css/style.css |
| `Generator.ProjectGenerator.CreateDockerFiles` | django_kickstart/generator.py:160-166 | Writes Dockerfile, docker-compose.yml and .dockerignore, plus entrypoint.sh only for `postgresql` |
| `Generator.ProjectGenerator.Generate` | django_kickstart/generator.py:67-84 | `generate`: the new filesystem and outcome are exactly `GenerateEffect`. That is the existence guard, then root, config, app, docker if requested, and templates+static if `mvp` |
| `FileTree.MakeDirsResult` | django_kickstart/generator.py:101 | `mkdir(parents=True, exist_ok=True)` fails iff the path or one of its ancestors is a file. Otherwise it adds exactly the path and its ancestors as directories |
| `FileTree.WriteTextResult` | django_kickstart/generator.py:102 | `write_text` succeeds iff the target is not a directory and its parent is one. Then it sets exactly that file's content |
| `FileTree.MakeDirsValid` | django_kickstart/generator.py:101 | `mkdir` keeps the tree well formed |
| `FileTree.NothingBelowMissing` | django_kickstart/generator.py:70-74 | In a well-formed tree nothing exists below a missing directory. So a fresh output directory has no files under it |
| `FileTree.FileSystem.MakeDirs` | django_kickstart/generator.py:101 | The mutable `mkdir` follows `MakeDirsResult` and changes nothing on failure |
| `FileTree.FileSystem.WriteText` | django_kickstart/generator.py:102 | The mutable `write_text` follows `WriteTextResult` and changes nothing on failure |
| `Paths.Resolve` | django_kickstart/generator.py:93 | `(base / rel).resolve()` of a resolved base is resolved |
| `Paths.ResolveAbsolute` | django_kickstart/generator.py:93 | An absolute `rel` replaces the base: the result does not depend on the base |
| `Paths.ResolvePlain` | django_kickstart/generator.py:93 | A relative path of plain segments resolves to the base extended by them, which lies inside the base |
| `Paths.ResolvePathString` | django_kickstart/generator.py:93 | Resolving the printed form of a resolved path gives that path back |
| `Paths.WithinPassesCheck` | django_kickstart/generator.py:95-99 | The string check never rejects a path that is really inside the output directory |
| `Paths.PrefixCheckExactly` | django_kickstart/generator.py:96 | `str(full).startswith(str(out))` holds iff all segments of `out` but the last match exactly and the last one is a string prefix of the matching segment |
| `Paths.SiblingDirectoryPassesCheck` | django_kickstart/generator.py:93-99 | Under `P/name`, `../name<suffix>/…` resolves into the sibling `P/name<suffix>`, passes the check, and is not inside the output directory |
| `Paths.TraversalCheckExactly` | django_kickstart/generator.py:93-99 | Climbing out of every level (`../../etc/passwd`) lands on the target itself, which passes the check only under the condition of `PrefixCheckExactly` |
| `GeneratorProperties.WriteSucceedsExactly` | django_kickstart/generator.py:93-102 | On a well-formed tree `_write` succeeds iff the resolved path passes the check, is not a directory and has no file above it |
| `GeneratorProperties.WriteSucceeds` | django_kickstart/generator.py:101-102 | After a successful `_write` the target holds exactly the content and no other file changes. Its parent directories exist and are the only new ones, and the tree stays well formed |
| `GeneratorProperties.WriteFailsCleanly` | django_kickstart/generator.py:95-99 | A `_write` that raises leaves the filesystem unchanged. A path that fails the check raises `ValueError` (path traversal) |
| `GeneratorProperties.RunPlanValid` | django_kickstart/generator.py:76-84 | A run of writes keeps the tree well formed and removes no directory |
| `GeneratorProperties.RunPlanWrites` | django_kickstart/generator.py:76-84 | A run of writes that completes changes the files exactly by the plan's writes, with a later write to a path overriding an earlier one |
| `GeneratorProperties.GenerateRefusesExisting` | django_kickstart/generator.py:70-74 | `generate` raises `FileExistsError` iff the output directory exists, and then the filesystem is unchanged |
| `GeneratorProperties.EmittedPathsInside` | django_kickstart/generator.py:93-99 | Every path the generator emits, for plain names, resolves to the output directory extended by its parts. It lies inside that directory and passes the check |
| `GeneratorProperties.GeneratedFiles` | django_kickstart/generator.py:76-84 | The paths `generate` writes are exactly `ExpectedFiles(options)`, for all options |
| `GeneratorProperties.AlwaysWritten` | django_kickstart/generator.py:104-129 | The root files, the config package and the seven app modules through `urls.py` are written whatever the options |
| `GeneratorProperties.ApiOrFormsModule` | django_kickstart/generator.py:131-145 | `serializers.py` is written iff `project_type == "api"`, and `forms.py` iff it is not |
| `GeneratorProperties.ViewsWrittenOnce` | django_kickstart/generator.py:131-143 | `<app>/views.py` is written once, from the one of four templates chosen by `(type == "api", view_style == "cbv")` |
| `GeneratorProperties.DockerFilesIff` | django_kickstart/generator.py:79-80 | Dockerfile, docker-compose.yml and .dockerignore are written iff `with_docker` |
| `GeneratorProperties.EntrypointIff` | django_kickstart/generator.py:160-166 | entrypoint.sh is written iff `with_docker` and `database == "postgresql"` |
| `GeneratorProperties.MvpFilesIff` | django_kickstart/generator.py:82-84 | The three HTML templates and style.css are written iff `project_type == "mvp"` |
| `GeneratorProperties.InitFilesBlank` | django_kickstart/generator.py:115-125 | Both `__init__.py` files are written with empty content |
| `GeneratorProperties.SameNameCollision` | django_kickstart/generator.py:113-138 | With `project_name == app_name`, `__init__.py` and `urls.py` are written twice and the app's `urls.py` wins. With distinct names the project's `urls.py` stays |
| `GeneratorProperties.GenerateLeaves` | django_kickstart/generator.py:67-102 | A completed `generate` on a well-formed tree keeps it well formed and changes only files under the output directory. Below it lies exactly one file per expected path, holding its last rendered content |
| `GeneratorProperties.UnvalidatedAppNameEscapes` | django_kickstart/generator.py:24-38 | `app_name = "../<project><suffix>"` puts `__init__.py` into a sibling of the output directory, and the prefix check lets it through |
| `Release.GetCurrentVersion` | release.py:9-16 | The result is always a dotted three-part decimal version. Failure is `ValueError` (version not found) |
| `Release.VersionAtMatches` | release.py:13 | The scan at an index captures `v` iff `__version__ = "v"` with `v` matching `\d+\.\d+\.\d+` starts there |
| `Release.FirstMatchIsCurrentVersion` | release.py:13-16 | The version returned is the group of the first occurrence of the pattern |
| `Release.NoMatchIsError` | release.py:13-15 | `get_current_version` fails iff the pattern occurs nowhere in the content |
| `Release.ParseFormatVersion` | release.py:20-21 | Formatting three integers as `a.b.c` and parsing back with `map(int, split("."))` gives them back |
| `Release.IncrementPatchVersion` | release.py:18-21 | Fails iff the input does not unpack into three integers. Otherwise the result parses back to the same major and minor and to patch + 1 |
| `Release.IncrementDecimalVersion` | release.py:18-21 | For `a.b.c` with decimal pieces the increment succeeds. The result is the canonical text `f"{a}.{b}.{c + 1}"`, parses back to `(a, b, c + 1)` and is again a three-part decimal version |
| `Release.FormattedIsVersion` | release.py:21 | The f-string of three non-negative numbers is a version the lookup pattern captures |
| `Release.VersionLineFound` | release.py:13-16 | A file whose version line holds a version yields exactly that version on lookup |
| `Release.FoundVersionIncrements` | release.py:13-21 | Any version `get_current_version` returns is accepted by `increment_patch_version` |
| `Release.IncrementFoundAgain` | release.py:9-21 | The release cycle repeats: the incremented version, written as a version line, is found again by `get_current_version` |
| `Release.UpdateFileVersionSpec` | release.py:28 | `content.replace(old, new)` is the content split at non-overlapping occurrences of `old`, left to right, and joined with `new`. Content without `old` is unchanged, and replacing `old` by itself changes nothing |
| `Text.ReplaceIsJoinOfSplit` | release.py:28 | `s.replace(a, b) == b.join(s.split(a))` for a non-empty `a` |
| `Text.SplitOnce` | release.py:84 | `split("---", 1)` gives the text before the first rule, with no rule in it, and the rest. Without a rule it gives `[s]` |
| `Text.StripSpec` | release.py:51 | `strip()` removes the whitespace padding: the result neither starts nor ends with whitespace, and it is empty iff the line is all whitespace |
| `Release.PromptChangelog` | release.py:48-59 | The loop returns exactly `CollectEntries(inputs)` |
| `Release.CollectEntriesAt` | release.py:48-57 | At the first input that is Ctrl+C or blank after stripping, the loop cancels or returns the stripped lines before it, in order |
| `Release.CollectEntriesEnded` | release.py:48-54 | Inputs that all carry text run out before the loop stops (`EOFError`) |
| `Release.EntriesShape` | release.py:48-54 | A returned list is ended by a blank line and equals the stripped lines before it. Each entry is non-empty and its own `strip()` |
| `Release.BuildNewEntry` | release.py:70-72 | The `+=` loop builds the heading followed by one `- e\n` line per entry, in order |
| `Release.BulletsRecoverable` | release.py:70-72 | Splitting the bullet block at newlines gives back `- e` for each one-line entry, in order |
| `Release.UpdateChangelogFile` | release.py:61-93 | The method returns exactly `UpdatedChangelog` |
| `Release.NoEntriesNoWrite` | release.py:63-65 | The changelog is left untouched iff there are no entries |
| `Release.InsertedAfterFirstRule` | release.py:83-85 | With a `---`, the result is the prefix before the first rule, the rule, the new section and the remainder. Cutting the section out recovers the old content |
| `Release.InsertedOnTop` | release.py:86-88 | Without a `---` the result is the section, a newline and the old content, which can be read back from it |
| `Release.CreatedWithHeader` | release.py:74-77 | A missing changelog becomes the fixed header ending in `---`, followed by the section |

## Left out

- Jinja2 loading and rendering: they are a foreign library. Rendering is an uninterpreted parameter. A template that cannot be loaded or rendered is one error kind.
- `Path.resolve()` on a real filesystem: symbolic links are not followed. A leading `//`, which POSIX keeps as a distinct root, is treated like `/`.
- Operating-system failures other than the ones that follow from the tree's shape are not modelled. These are permissions, a full disk, and encoding errors in `write_text`.
- `Generator.SecretKey`: does not state that keys differ between runs, because the randomness of `secrets.choice` is a parameter and distinctness is only probable.
- The executable bit on `entrypoint.sh`: the source never sets it, and the model has no permissions.
- The race between the existence check and the first write: the model is single-threaded.
- `django_kickstart/cli.py` (prompts, coloured output, exit codes) and `django_kickstart/venv_utils.py` (virtual environment and pip subprocesses) are not part of this model.
- `release.py` `main`, `run_command`, `shutil.rmtree`, the clock, printing and the file reads and writes: they are processes and I/O around the pure transforms. The transforms take and return content instead.
- Release.GetCurrentVersion and Release.ParseVersion: treat only ASCII `0`-`9` as digits. Python's `\d` and `int()` also accept other Unicode decimal digits.

## Findings

| source | as written | input that shows it | evidently intended | confidence | as-written member | corrected member |
|---|---|---|---|---|---|---|
| django_kickstart/generator.py:28 | `re.match(r'^[a-zA-Z_][a-zA-Z0-9_]*$', name)`: `$` also matches before a final newline | `project_name = "blog\n"` is accepted, and the output directory becomes `blog` followed by a newline | names made only of letters, digits and underscores (a full match, as the error message says) | high (reasoned about the regex semantics; not executed) | `Generator.NameRegexAcceptsTrailingNewline` | `Generator.ProjectGenerator.Create` |
