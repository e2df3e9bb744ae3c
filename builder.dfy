/** The bootstrapper: when enabled, it finds the solution of the analysed
    directory and turns every eligible project of that solution into a
    module of the root project, with its directories, its files, and the
    properties the analysers of that module need. */
module VisualStudioProjectBuilder {
  import opened Text
  import opened VisualStudioProject
  import opened VisualStudioProjectParser
  import opened VisualStudioAssemblyLocator

  const ModulesKey := "sonar.modules"
  const EnableKey := "sonar.visualstudio.enable"
  const SolutionKey := "sonar.visualstudio.solution"
  const OldSkippedProjectsKey := "sonar.visualstudio.skippedProjects"
  const SkippedProjectPatternKey := "sonar.visualstudio.skippedProjectPattern"
  const TestProjectPatternKey := "sonar.visualstudio.testProjectPattern"
  const SkipIfNotBuiltKey := "sonar.visualstudio.skipIfNotBuilt"
  const ProjectKeyStrategyKey := "sonar.visualstudio.projectKeyStrategy"

  const FxCopCsAssemblyKey := "sonar.cs.fxcop.assembly"
  const FxCopVbNetAssemblyKey := "sonar.vbnet.fxcop.assembly"
  const ReSharperSolutionFileKey := "sonar.resharper.solutionFile"
  const ReSharperProjectNameKey := "sonar.resharper.projectName"
  const StyleCopProjectFilePathKey := "sonar.stylecop.projectFilePath"

  /** Settings.getBoolean: set, and equal to `true` ignoring case. */
  predicate GetBoolean(settings: Settings, key: string) {
    key in settings && Lower(settings[key]) == "true"
  }

  /** String.matches: the whole of the first argument matches the regular
      expression given as the second. Regular expressions are not part of
      this model; the host's matcher is a parameter. */
  type RegexMatcher = (string, string) -> bool

  /** A project as the solution file lists it: its name and its path
      relative to the solution's directory. */
  datatype SolutionProject = SolutionProject(name: string, path: string)

  /** What the host provides: the settings, the regular files with their
      times, the XML events of each project file, the projects listed by
      each solution file, and the regular-expression matcher. */
  datatype Environment = Environment(
    settings: Settings,
    fs: FileSystem,
    readProject: string -> seq<Event>,
    readSolution: string -> seq<SolutionProject>,
    matches: RegexMatcher)

  datatype BuildError =
    /** Several `.sln` files and no solution setting to choose among them. */
    | SeveralSolutionFiles(dir: string)
    /** The modules of the analysis are already configured by hand. */
    | ModulesPropertySet
    /** No project of the solution became a module. */
    | NoProjectsFound
    /** A project file could not be read. */
    | InvalidProjectFile(error: ParseError)

  /** How a build that did not fail ended. */
  datatype Outcome = Disabled | NoSolution | Built(solutionFile: string)

  // ---------------------------------------------------------------------
  // Settings-derived decisions

  /** A pattern setting that is set and whose regular expression matches
      `value`; an unset pattern matches nothing. */
  predicate MatchesPropertyRegex(settings: Settings, matches: RegexMatcher, key: string, value: string) {
    key in settings && matches(value, settings[key])
  }

  predicate IsTestProject(settings: Settings, matches: RegexMatcher, projectName: string) {
    MatchesPropertyRegex(settings, matches, TestProjectPatternKey, projectName)
  }

  predicate IsSkippedProjectByPattern(settings: Settings, matches: RegexMatcher, projectName: string) {
    MatchesPropertyRegex(settings, matches, SkippedProjectPatternKey, projectName)
  }

  predicate SkipNotBuildProjects(settings: Settings) {
    GetBoolean(settings, SkipIfNotBuiltKey)
  }

  /** C#, VB.NET and C++ project files, recognised by their extension
      without regard to case. */
  predicate IsSupportedProjectType(path: string) {
    var p := Lower(path);
    EndsWith(p, ".csproj") || EndsWith(p, ".vbproj") || EndsWith(p, ".vcxproj")
  }

  /** The extension test ignores case: a path and its lower-cased form are
      accepted alike. */
  lemma SupportedProjectTypeIgnoresCase(path: string)
    ensures IsSupportedProjectType(Lower(path)) == IsSupportedProjectType(path)
  {
    LowerIdempotent(path);
  }

  /** `App.CSPROJ`, `Lib.VbProj` and `Native.vcxproj` are accepted. */
  lemma SupportedProjectTypes()
    ensures IsSupportedProjectType("App.CSPROJ") && IsSupportedProjectType("Lib.VbProj")
    ensures IsSupportedProjectType("Native.vcxproj")
  {
    assert Lower("App.CSPROJ")[3..] == ".csproj";
    assert Lower("Lib.VbProj")[3..] == ".vbproj";
    assert Lower("Native.vcxproj")[6..] == ".vcxproj";
  }

  /** `Setup.wixproj` (a WiX installer project) is not accepted. */
  lemma WixProjectUnsupported()
    ensures !IsSupportedProjectType("Setup.wixproj")
  {
    var p := Lower("Setup.wixproj");
    assert p == "setup.wixproj";
    assert p[6..] != ".csproj" && p[6..] != ".vbproj";
    assert p[5..] != ".vcxproj";
  }

  /** The names of the deprecated comma-separated skip list, empty pieces
      dropped; no names when the setting is absent. */
  function SkippedProjectsByNames(settings: Settings): (r: set<string>)
    ensures OldSkippedProjectsKey !in settings ==> r == {}
    ensures forall x :: x in r ==> x != "" && ',' !in x
  {
    if OldSkippedProjectsKey in settings then
      set x | x in Tokens(settings[OldSkippedProjectsKey], ',')
    else {}
  }

  /** A list written as names joined by commas is read back as exactly
      those names. */
  lemma SkippedNamesOfJoin(settings: Settings, names: seq<string>)
    requires names != []
    requires forall k :: 0 <= k < |names| ==> names[k] != "" && ',' !in names[k]
    requires OldSkippedProjectsKey in settings && settings[OldSkippedProjectsKey] == Join(names, ',')
    ensures SkippedProjectsByNames(settings) == set x | x in names
  {
    TokensOfJoin(names, ',');
    assert Tokens(settings[OldSkippedProjectsKey], ',') == names;
  }

  /** The root key of the modules: under the deprecated `unsafe` strategy,
      the part of the root key before its first `:` (the key itself when it
      has none); otherwise the root key unchanged. */
  function ProjectKey(settings: Settings, projectKey: string): (r: string)
    ensures StartsWith(projectKey, r)
    ensures GetString(settings, ProjectKeyStrategyKey) == Some("unsafe") && ':' in projectKey ==>
              |r| < |projectKey| && projectKey[|r|] == ':' && ':' !in r
    ensures GetString(settings, ProjectKeyStrategyKey) != Some("unsafe") || ':' !in projectKey ==>
              r == projectKey
  {
    if GetString(settings, ProjectKeyStrategyKey) == Some("unsafe") && ':' in projectKey then
      projectKey[..IndexOf(projectKey, ':')]
    else projectKey
  }

  /** Shortening a key a second time changes nothing. */
  lemma ProjectKeyIdempotent(settings: Settings, projectKey: string)
    ensures ProjectKey(settings, ProjectKey(settings, projectKey)) == ProjectKey(settings, projectKey)
  {
  }

  /** A combining diacritical mark (U+0300 to U+036F). */
  predicate IsCombiningMark(c: char) {
    '\U{0300}' <= c <= '\U{036F}'
  }

  function EscapeChar(c: char): char {
    if c == ' ' || c == '+' then '_' else c
  }

  /** The project name made safe for a key: combining marks removed, and
      spaces and plus signs replaced by underscores. */
  function EscapeProjectName(projectName: string): (r: string)
    ensures |r| <= |projectName|
    ensures forall k :: 0 <= k < |r| ==> r[k] != ' ' && r[k] != '+' && !IsCombiningMark(r[k])
    ensures (forall k :: 0 <= k < |projectName| ==> !IsCombiningMark(projectName[k])) ==>
              |r| == |projectName| && forall k :: 0 <= k < |r| ==> r[k] == EscapeChar(projectName[k])
  {
    if projectName == [] then []
    else
      (if IsCombiningMark(projectName[0]) then [] else [EscapeChar(projectName[0])])
      + EscapeProjectName(projectName[1..])
  }

  /** Escaping an escaped name changes nothing. */
  lemma {:induction false} EscapeProjectNameIdempotent(projectName: string)
    ensures EscapeProjectName(EscapeProjectName(projectName)) == EscapeProjectName(projectName)
  {
    var e := EscapeProjectName(projectName);
    assert forall k :: 0 <= k < |e| ==> EscapeChar(e[k]) == e[k];
    assert EscapeProjectName(e) == e by { EscapeKeepsSafe(e); }
  }

  /** A name without marks, spaces or plus signs is its own escape. */
  lemma {:induction false} EscapeKeepsSafe(name: string)
    requires forall k :: 0 <= k < |name| ==> name[k] != ' ' && name[k] != '+' && !IsCombiningMark(name[k])
    ensures EscapeProjectName(name) == name
  {
    if name != [] {
      EscapeKeepsSafe(name[1..]);
      assert name == [name[0]] + name[1..];
    }
  }

  /** `A b+` becomes `A_b_`. */
  lemma EscapeExample()
    ensures EscapeProjectName("A b+") == "A_b_"
  {
    assert EscapeProjectName("") == "";
    assert EscapeProjectName("+") == "_";
    assert EscapeProjectName("b+") == "b_";
    assert EscapeProjectName(" b+") == "_b_";
  }

  // ---------------------------------------------------------------------
  // Paths

  /** new File(dir, relativePath) with backslashes turned into slashes. */
  function RelativePathFile(dir: Option<string>, relativePath: string): string {
    ChildPath(dir, ReplaceChar(relativePath, '\\', '/'))
  }

  /** The names left after resolving `.`, `..` and empty segments in order,
      as a canonical path has them; `..` at the top stays at the top. */
  function Resolve(segments: seq<string>): (r: seq<string>)
    ensures forall k :: 0 <= k < |r| ==> r[k] != "" && r[k] != "." && r[k] != ".."
    decreases |segments|
  {
    if segments == [] then []
    else
      var r := Resolve(segments[..|segments| - 1]);
      var last := segments[|segments| - 1];
      if last == "" || last == "." then r
      else if last == ".." then (if r == [] then [] else r[..|r| - 1])
      else r + [last]
  }

  /** The segments of a canonical path, reading `\` and `/` alike. */
  function CanonicalSegments(path: string): seq<string> {
    Resolve(Fields(ReplaceChar(path, '\\', '/'), '/'))
  }

  /** The canonical file lies strictly below the canonical folder. */
  predicate IsInSourceDir(file: string, folder: string) {
    var f := CanonicalSegments(file);
    var d := CanonicalSegments(folder);
    |d| < |f| && f[..|d|] == d
  }

  /** Resolving segments that hold no `..` after others is resolving each
      part on its own. */
  lemma {:induction false} ResolveAppend(xs: seq<string>, ys: seq<string>)
    requires ".." !in ys
    ensures Resolve(xs + ys) == Resolve(xs) + Resolve(ys)
    decreases |ys|
  {
    if ys == [] {
      assert xs + ys == xs;
    } else {
      var init := ys[..|ys| - 1];
      var last := ys[|ys| - 1];
      assert last != "..";
      assert (xs + ys)[..|xs + ys| - 1] == xs + init;
      assert (xs + ys)[|xs + ys| - 1] == last;
      assert ".." !in init by { assert forall y :: y in init ==> y in ys; }
      ResolveAppend(xs, init);
      if last != "" && last != "." {
        assert Resolve(ys) == Resolve(init) + [last];
        assert Resolve(xs + ys) == Resolve(xs + init) + [last];
      }
    }
  }

  /** Without `..`, every real name survives resolution. */
  lemma {:induction false} ResolveKeepsNames(ys: seq<string>)
    requires ".." !in ys
    ensures forall y :: y in ys && y != "" && y != "." ==> y in Resolve(ys)
    decreases |ys|
  {
    if ys != [] {
      var init := ys[..|ys| - 1];
      assert ".." !in init by { assert forall y :: y in init ==> y in ys; }
      ResolveKeepsNames(init);
      assert forall y :: y in ys ==> y in init || y == ys[|ys| - 1];
    }
  }

  /** Replacing a character distributes over `a + "/" + b`. */
  lemma ReplaceAroundSlash(a: string, b: string)
    ensures ReplaceChar(a + "/" + b, '\\', '/') == ReplaceChar(a, '\\', '/') + "/" + ReplaceChar(b, '\\', '/')
  {
  }

  /** A relative path naming something and holding no `..` segment stays in
      the directory it is resolved against. */
  lemma InsideWithoutParentSteps(dir: string, relativePath: string)
    requires var segs := Fields(ReplaceChar(relativePath, '\\', '/'), '/');
             ".." !in segs && exists k :: 0 <= k < |segs| && segs[k] != "" && segs[k] != "."
    ensures IsInSourceDir(RelativePathFile(Some(dir), relativePath), dir)
  {
    var rel := ReplaceChar(relativePath, '\\', '/');
    var file := RelativePathFile(Some(dir), relativePath);
    assert file == dir + "/" + rel;
    ReplaceAroundSlash(dir, rel);
    assert ReplaceChar(rel, '\\', '/') == rel;
    var d := ReplaceChar(dir, '\\', '/');
    FieldsOfConcat(d, rel, '/');
    var segs := Fields(rel, '/');
    ResolveAppend(Fields(d, '/'), segs);
    var k :| 0 <= k < |segs| && segs[k] != "" && segs[k] != ".";
    ResolveKeepsNames(segs);
    assert segs[k] in Resolve(segs);
  }

  /** Resolving `..` then a name replaces the last name. */
  lemma ResolveParentThenName(segments: seq<string>, name: string)
    requires Resolve(segments) != []
    requires name !in {"", ".", ".."}
    ensures Resolve(segments + ["..", name])
            == Resolve(segments)[..|Resolve(segments)| - 1] + [name]
  {
    var withParent := segments + [".."];
    assert (segments + ["..", name])[..|segments| + 1] == withParent;
    assert withParent[..|segments|] == segments;
  }

  /** The segments of `dir` joined with `..\name`. */
  lemma ParentStepSegments(dir: string, name: string)
    requires '/' !in name && '\\' !in name
    ensures Fields(ReplaceChar(RelativePathFile(Some(dir), "..\\" + name), '\\', '/'), '/')
            == Fields(ReplaceChar(dir, '\\', '/'), '/') + ["..", name]
  {
    var rel := ReplaceChar("..\\" + name, '\\', '/');
    assert rel == ".." + "/" + name;
    ReplaceAroundSlash(dir, rel);
    assert ReplaceChar(rel, '\\', '/') == rel;
    FieldsOfConcat(ReplaceChar(dir, '\\', '/'), rel, '/');
    FieldsOfConcat("..", name, '/');
    assert Fields("..", '/') == [".."];
    assert Fields(name, '/') == [name];
  }

  /** `..\name` leaves a directory that is not the top. */
  lemma ParentStepLeaves(dir: string, name: string)
    requires CanonicalSegments(dir) != []
    requires '/' !in name && '\\' !in name && name !in {"", ".", ".."}
    ensures !IsInSourceDir(RelativePathFile(Some(dir), "..\\" + name), dir)
  {
    ParentStepSegments(dir, name);
    ResolveParentThenName(Fields(ReplaceChar(dir, '\\', '/'), '/'), name);
  }

  // ---------------------------------------------------------------------
  // Solution file

  /** The `.sln` files directly inside `dir`. */
  function SolutionFilesIn(fs: FileSystem, dir: string): set<string> {
    set p | p in fs && StartsWith(p, dir + "/") && '/' !in p[|dir| + 1..] && EndsWith(p, ".sln")
  }

  lemma OnlyElement(s: set<string>, a: string, b: string)
    requires |s| == 1 && a in s && b in s
    ensures a == b
  {
    assert |s - {a}| == 0;
    assert b !in s - {a};
  }

  /** The solution to analyse: the solution setting resolved against the
      base directory when it is non-empty; otherwise the only `.sln` file of
      the base directory, none when there is none, and an error when there
      are several. */
  function GetSolutionFile(settings: Settings, fs: FileSystem, baseDir: string): (r: Result<Option<string>, BuildError>)
    ensures NullToEmpty(GetString(settings, SolutionKey)) != "" ==>
              r == Ok(Some(ChildPath(Some(baseDir), settings[SolutionKey])))
    ensures NullToEmpty(GetString(settings, SolutionKey)) == "" ==>
              && (r == Ok(None) <==> SolutionFilesIn(fs, baseDir) == {})
              && (r.Err? <==> |SolutionFilesIn(fs, baseDir)| > 1)
              && (r.Err? ==> r.error == SeveralSolutionFiles(baseDir))
              && (r.Ok? && r.value.Some? ==> SolutionFilesIn(fs, baseDir) == {r.value.value})
    ensures r.Ok? && r.value.Some? ==> StartsWith(r.value.value, baseDir + "/") && '/' in r.value.value
  {
    var solutionPath := GetString(settings, SolutionKey);
    if NullToEmpty(solutionPath) != "" then
      var p := ChildPath(Some(baseDir), solutionPath.value);
      assert p[|baseDir|] == '/';
      Ok(Some(p))
    else
      var found := SolutionFilesIn(fs, baseDir);
      if found == {} then Ok(None)
      else if |found| == 1 then
        var f :| f in found;
        assert forall g :: g in found ==> g == f by {
          forall g | g in found { OnlyElement(found, f, g); }
        }
        assert found == {f};
        assert f[|baseDir|] == '/';
        Ok(Some(f))
      else Err(SeveralSolutionFiles(baseDir))
  }

  // ---------------------------------------------------------------------
  // Per-project decision

  datatype SkipReason =
    | UnsupportedProjectType
    | ListedAsSkipped
    | MatchesSkipPattern
    | ProjectFileMissing
    | NotBuilt

  /** A project that becomes a module: its name, project file, declared
      files and located assembly. */
  datatype Entry = Entry(name: string, projectFile: string, files: seq<string>, assembly: Option<string>)

  datatype Decision = Skip(reason: SkipReason) | Add(entry: Entry) | Fail(error: ParseError)

  /** The checks made on one project of the solution, in their order. */
  function Decide(env: Environment, skipped: set<string>, solutionFile: string, project: SolutionProject): (d: Decision)
    requires '/' in solutionFile
    ensures d.Add? ==> d.entry.name == project.name && d.entry.projectFile in env.fs && '/' in d.entry.projectFile
  {
    if !IsSupportedProjectType(project.path) then Skip(UnsupportedProjectType)
    else if project.name in skipped then Skip(ListedAsSkipped)
    else if IsSkippedProjectByPattern(env.settings, env.matches, project.name) then Skip(MatchesSkipPattern)
    else
      var projectFile := RelativePathFile(ParentDir(solutionFile), project.path);
      if projectFile !in env.fs then Skip(ProjectFileMissing)
      else
        match Run(projectFile, env.readProject(projectFile))
        case Err(e) => Fail(e)
        case Ok(s) =>
          var assembly := Locate(env.settings, env.fs, projectFile, s.outputType, s.assemblyName,
                                 s.propertyGroupConditions, s.outputPaths);
          if SkipNotBuildProjects(env.settings) && assembly.None? then Skip(NotBuilt)
          else Add(Entry(project.name, projectFile, s.files, assembly))
  }

  /** Each reason to skip a project is given exactly when every earlier check
      has passed and its own fails: the project type, then the skip list,
      then the skip pattern, then the project file's existence, then
      parsing, then the built assembly. A project file is only read once all
      of the first four checks pass. An added project carries its parsed
      files and the assembly located for it. */
  lemma DecisionOrder(env: Environment, skipped: set<string>, solutionFile: string, project: SolutionProject)
    requires '/' in solutionFile
    ensures var d := Decide(env, skipped, solutionFile, project);
            var supported := IsSupportedProjectType(project.path);
            var listed := project.name in skipped;
            var patterned := IsSkippedProjectByPattern(env.settings, env.matches, project.name);
            var projectFile := RelativePathFile(ParentDir(solutionFile), project.path);
            var present := projectFile in env.fs;
            var run := Run(projectFile, env.readProject(projectFile));
            var assembly := if run.Ok? then Locate(env.settings, env.fs, projectFile, run.value.outputType,
                                                   run.value.assemblyName, run.value.propertyGroupConditions,
                                                   run.value.outputPaths)
                            else None;
            && (d == Skip(UnsupportedProjectType) <==> !supported)
            && (d == Skip(ListedAsSkipped) <==> supported && listed)
            && (d == Skip(MatchesSkipPattern) <==> supported && !listed && patterned)
            && (d == Skip(ProjectFileMissing) <==> supported && !listed && !patterned && !present)
            && (d.Fail? <==> supported && !listed && !patterned && present && run.Err?)
            && (d.Fail? ==> d.error == run.error)
            && (d == Skip(NotBuilt) <==> supported && !listed && !patterned && present && run.Ok?
                                         && SkipNotBuildProjects(env.settings) && assembly.None?)
            && (d.Add? <==> supported && !listed && !patterned && present && run.Ok?
                            && !(SkipNotBuildProjects(env.settings) && assembly.None?))
            && (d.Add? ==> d.entry == Entry(project.name, projectFile, run.value.files, assembly))
  {
  }

  /** The decision taken for each project of the solution, in order. */
  function Decisions(env: Environment, skipped: set<string>, solutionFile: string,
                     projects: seq<SolutionProject>): (ds: seq<Decision>)
    requires '/' in solutionFile
    ensures |ds| == |projects|
    decreases |projects|
  {
    if projects == [] then []
    else Decisions(env, skipped, solutionFile, projects[..|projects| - 1])
         + [Decide(env, skipped, solutionFile, projects[|projects| - 1])]
  }

  /** One decision per project, each taken for the project at its position. */
  lemma {:induction false} DecisionsAt(env: Environment, skipped: set<string>, solutionFile: string,
                                       projects: seq<SolutionProject>)
    requires '/' in solutionFile
    ensures forall k :: 0 <= k < |projects| ==>
              Decisions(env, skipped, solutionFile, projects)[k] == Decide(env, skipped, solutionFile, projects[k])
    decreases |projects|
  {
    if projects != [] {
      DecisionsAt(env, skipped, solutionFile, projects[..|projects| - 1]);
    }
  }

  /** The modules planned from a sequence of decisions, and the parse error
      that stopped the scan, if any. */
  datatype Plan = Plan(entries: seq<Entry>, failure: Option<ParseError>)

  /** The plan after one more decision: nothing more is looked at once a
      project has failed; otherwise a skipped project changes nothing, an
      added one is appended and a failing one records its error. */
  function NextPlan(p: Plan, d: Decision): Plan {
    if p.failure.Some? then p
    else
      match d
      case Skip(_) => p
      case Add(e) => Plan(p.entries + [e], None)
      case Fail(error) => Plan(p.entries, Some(error))
  }

  function PlanOf(ds: seq<Decision>): Plan
    decreases |ds|
  {
    if ds == [] then Plan([], None) else NextPlan(PlanOf(ds[..|ds| - 1]), ds[|ds| - 1])
  }

  lemma PlanOfPrefix(ds: seq<Decision>, i: nat)
    requires i < |ds|
    ensures PlanOf(ds[..i + 1]) == NextPlan(PlanOf(ds[..i]), ds[i])
  {
    assert ds[..i + 1][..i] == ds[..i];
  }

  /** The planned modules are the accepted projects: every entry comes from
      a decision to add it, and when no project failed, every decision to
      add a project has its entry. A failure is the error of the first
      project that failed. PlanInOrder adds order and multiplicity. */
  lemma {:induction false} PlanIsAcceptedProjects(ds: seq<Decision>)
    ensures var p := PlanOf(ds);
            && (forall j :: 0 <= j < |p.entries| ==> Add(p.entries[j]) in ds)
            && (p.failure.None? ==>
                  forall k :: 0 <= k < |ds| ==> !ds[k].Fail? && (ds[k].Add? ==> ds[k].entry in p.entries))
            && (p.failure.Some? ==>
                  exists k :: 0 <= k < |ds| && ds[k] == Fail(p.failure.value)
                              && forall j :: 0 <= j < k ==> !ds[j].Fail?)
    decreases |ds|
  {
    if ds != [] {
      var front := ds[..|ds| - 1];
      PlanIsAcceptedProjects(front);
      var p := PlanOf(front);
      var q := PlanOf(ds);
      assert forall k :: 0 <= k < |front| ==> front[k] == ds[k];
      assert forall d :: d in front ==> d in ds;
      if p.failure.Some? {
        var k :| 0 <= k < |front| && front[k] == Fail(p.failure.value) && forall j :: 0 <= j < k ==> !front[j].Fail?;
        assert ds[k] == Fail(q.failure.value);
      } else if ds[|ds| - 1].Add? {
        assert q.entries == p.entries + [ds[|ds| - 1].entry];
        forall j | 0 <= j < |q.entries|
          ensures Add(q.entries[j]) in ds
        {
          if j < |p.entries| {
            assert q.entries[j] == p.entries[j];
          } else {
            assert ds[|ds| - 1] == Add(q.entries[j]);
          }
        }
      } else if ds[|ds| - 1].Fail? {
        assert ds[|ds| - 1] == Fail(q.failure.value);
      }
    }
  }

  /** The entries of the decisions to add a project, in order. */
  function AcceptedEntries(ds: seq<Decision>): seq<Entry>
    decreases |ds|
  {
    if ds == [] then []
    else AcceptedEntries(ds[..|ds| - 1]) + if ds[|ds| - 1].Add? then [ds[|ds| - 1].entry] else []
  }

  /** The planned modules are, in solution order, the entries of the
      projects added before the first failure, or of all projects added when
      none failed. */
  lemma {:induction false} PlanInOrder(ds: seq<Decision>)
    ensures var p := PlanOf(ds);
            && (p.failure.None? ==> p.entries == AcceptedEntries(ds))
            && (p.failure.Some? ==>
                  exists k :: 0 <= k < |ds| && ds[k] == Fail(p.failure.value)
                              && (forall j :: 0 <= j < k ==> !ds[j].Fail?)
                              && p.entries == AcceptedEntries(ds[..k]))
    decreases |ds|
  {
    if ds != [] {
      var front := ds[..|ds| - 1];
      var last := ds[|ds| - 1];
      PlanInOrder(front);
      var p := PlanOf(front);
      assert PlanOf(ds) == NextPlan(p, last);
      if p.failure.Some? {
        var k :| 0 <= k < |front| && front[k] == Fail(p.failure.value)
                 && (forall j :: 0 <= j < k ==> !front[j].Fail?)
                 && p.entries == AcceptedEntries(front[..k]);
        assert front[..k] == ds[..k];
        assert ds[k] == front[k];
        assert forall j :: 0 <= j < k ==> ds[j] == front[j];
      } else if last.Fail? {
        var k := |ds| - 1;
        PlanIsAcceptedProjects(front);
        assert ds[..k] == front;
        assert forall j :: 0 <= j < k ==> ds[j] == front[j];
        assert ds[k] == Fail(PlanOf(ds).failure.value);
      } else {
        assert AcceptedEntries(ds) == AcceptedEntries(front) + if last.Add? then [last.entry] else [];
      }
    }
  }

  /** Once a project has failed, the rest of the solution is not looked at. */
  lemma {:induction false} PlanStopsAtFailure(ds: seq<Decision>, i: nat)
    requires i <= |ds|
    requires PlanOf(ds[..i]).failure.Some?
    ensures PlanOf(ds) == PlanOf(ds[..i])
    decreases |ds|
  {
    if |ds| > i {
      assert ds[..|ds| - 1][..i] == ds[..i];
      PlanStopsAtFailure(ds[..|ds| - 1], i);
    } else {
      assert ds[..i] == ds;
    }
  }

  // ---------------------------------------------------------------------
  // Modules

  /** The settings `name.x` among `keys`, as the module's own settings `x`:
      each key is looked at in turn, in no particular order (distinct keys
      give distinct suffixes, so the order does not matter). */
  ghost function ForwardedOf(settings: Settings, name: string, keys: set<string>): map<string, string>
    requires keys <= settings.Keys
    decreases keys
  {
    if keys == {} then map[]
    else
      var k :| k in keys;
      var rest := ForwardedOf(settings, name, keys - {k});
      if StartsWith(k, name + ".") then rest[k[|name| + 1..] := settings[k]] else rest
  }

  /** The settings `name.x` of a module named `name`, as the module's own
      settings `x`; ForwardedContents states what it holds. */
  ghost function Forwarded(settings: Settings, name: string): map<string, string> {
    ForwardedOf(settings, name, settings.Keys)
  }

  lemma {:induction false} ForwardedOfContents(settings: Settings, name: string, keys: set<string>)
    requires keys <= settings.Keys
    ensures var r := ForwardedOf(settings, name, keys);
            && (forall s :: s in r <==> name + "." + s in keys)
            && (forall s :: s in r ==> r[s] == settings[name + "." + s])
    decreases keys
  {
    if keys != {} {
      forall j | j in keys
        ensures var r := ForwardedOf(settings, name, keys - {j});
                && (forall s :: s in r <==> name + "." + s in keys - {j})
                && (forall s :: s in r ==> r[s] == settings[name + "." + s])
      {
        ForwardedOfContents(settings, name, keys - {j});
      }
      var prefix := name + ".";
      forall j | j in keys && StartsWith(j, prefix) ensures j == prefix + j[|prefix|..] {
      }
      forall j, s | j in keys && prefix + s == j ensures StartsWith(j, prefix) && j[|prefix|..] == s {
        assert (prefix + s)[..|prefix|] == prefix;
      }
    }
  }

  /** The module's setting `x` is there exactly when the setting `name.x`
      is, and has its value. */
  lemma ForwardedContents(settings: Settings, name: string)
    ensures var r := Forwarded(settings, name);
            && (forall s :: s in r <==> name + "." + s in settings)
            && (forall s :: s in r ==> r[s] == settings[name + "." + s])
  {
    ForwardedOfContents(settings, name, settings.Keys);
  }

  /** Setting one key changes the forwarded settings of a module only when
      the key is one of that module's, and then only at its suffix. */
  lemma ForwardedUpdate(settings: Settings, name: string, k: string, v: string)
    ensures Forwarded(settings[k := v], name)
            == if StartsWith(k, name + ".") then Forwarded(settings, name)[k[|name| + 1..] := v]
               else Forwarded(settings, name)
  {
    ForwardedContents(settings[k := v], name);
    ForwardedContents(settings, name);
    var prefix := name + ".";
    if StartsWith(k, prefix) {
      assert k == prefix + k[|prefix|..];
    } else {
      forall s ensures prefix + s != k {
        assert (prefix + s)[..|prefix|] == prefix;
      }
    }
  }

  /** The settings a module ends up with: its forwarded settings, then the
      FxCop assembly when one was located, then the ReSharper and StyleCop
      settings; a later setting overrides an earlier one of the same key. */
  ghost function ModuleProperties(settings: Settings, name: string, projectFile: string, assembly: Option<string>,
                            solutionFile: string): map<string, string>
  {
    var forwarded := Forwarded(settings, name);
    var withFxCop :=
      if assembly.Some? then forwarded[FxCopCsAssemblyKey := assembly.value][FxCopVbNetAssemblyKey := assembly.value]
      else forwarded;
    withFxCop[ReSharperSolutionFileKey := solutionFile][ReSharperProjectNameKey := name]
             [StyleCopProjectFilePathKey := projectFile]
  }

  predicate IsAnalyserKey(k: string) {
    k in {FxCopCsAssemblyKey, FxCopVbNetAssemblyKey, ReSharperSolutionFileKey, ReSharperProjectNameKey,
          StyleCopProjectFilePathKey}
  }

  /** What a module's settings hold: the solution file, project name and
      project file for ReSharper and StyleCop; the assembly for FxCop when
      one was located (otherwise whatever was forwarded under those keys);
      and under every other key exactly the module's forwarded settings. */
  lemma ModulePropertiesContents(settings: Settings, name: string, projectFile: string, assembly: Option<string>,
                                 solutionFile: string)
    ensures var r := ModuleProperties(settings, name, projectFile, assembly, solutionFile);
            && r[ReSharperSolutionFileKey] == solutionFile
            && r[ReSharperProjectNameKey] == name
            && r[StyleCopProjectFilePathKey] == projectFile
            && (assembly.Some? ==> r[FxCopCsAssemblyKey] == assembly.value
                                   && r[FxCopVbNetAssemblyKey] == assembly.value)
            && (assembly.None? ==> (FxCopCsAssemblyKey in r <==> name + "." + FxCopCsAssemblyKey in settings))
            && (forall k :: !IsAnalyserKey(k) ==>
                  (k in r <==> name + "." + k in settings)
                  && (k in r ==> r[k] == settings[name + "." + k]))
  {
    ForwardedContents(settings, name);
  }

  /** The files of the project that exist and lie inside its directory,
      among the first `n` declared, in declaration order. */
  function KeptFiles(fs: FileSystem, dir: string, files: seq<string>, n: nat): (r: seq<string>)
    requires n <= |files|
    ensures |r| <= n
    ensures forall k :: 0 <= k < |r| ==> r[k] in fs && IsInSourceDir(r[k], dir)
  {
    if n == 0 then []
    else
      var r := KeptFiles(fs, dir, files, n - 1);
      var file := RelativePathFile(Some(dir), files[n - 1]);
      if file !in fs || !IsInSourceDir(file, dir) then r else r + [file]
  }

  /** A path is kept exactly when it is one of the declared files, resolved
      against the project directory, that exists and lies inside it. */
  lemma {:induction false} KeptFilesExactly(fs: FileSystem, dir: string, files: seq<string>, n: nat, path: string)
    requires n <= |files|
    ensures path in KeptFiles(fs, dir, files, n) <==>
              path in fs && IsInSourceDir(path, dir)
              && exists k :: 0 <= k < n && path == RelativePathFile(Some(dir), files[k])
  {
    if n > 0 {
      KeptFilesExactly(fs, dir, files, n - 1, path);
      var before := KeptFiles(fs, dir, files, n - 1);
      var file := RelativePathFile(Some(dir), files[n - 1]);
      var keep := file in fs && IsInSourceDir(file, dir);
      assert KeptFiles(fs, dir, files, n) == if keep then before + [file] else before;
      assert (exists k :: 0 <= k < n && path == RelativePathFile(Some(dir), files[k]))
             <==> (exists k :: 0 <= k < n - 1 && path == RelativePathFile(Some(dir), files[k])) || path == file;
    }
  }

  /** A module of the analysis, as the host's project definition holds it.
      Its key, name and directories are set once, when it is created; its
      files and settings are added afterwards. */
  class Module {
    const key: string
    const name: string
    const baseDir: string
    const workDir: string
    const sourceDirs: seq<string>
    const testDirs: seq<string>
    var sourceFiles: seq<string>
    var testFiles: seq<string>
    var properties: map<string, string>

    constructor (key: string, name: string, baseDir: string, workDir: string,
                 sourceDirs: seq<string>, testDirs: seq<string>)
      ensures this.key == key && this.name == name
      ensures this.baseDir == baseDir && this.workDir == workDir
      ensures this.sourceDirs == sourceDirs && this.testDirs == testDirs
      ensures sourceFiles == [] && testFiles == [] && properties == map[]
    {
      this.key := key;
      this.name := name;
      this.baseDir := baseDir;
      this.workDir := workDir;
      this.sourceDirs := sourceDirs;
      this.testDirs := testDirs;
      sourceFiles := [];
      testFiles := [];
      properties := map[];
    }
  }

  /** The root project: the solution's directory, with its modules. */
  class RootProject {
    const key: string
    const baseDir: string
    const workDir: string
    var sourceDirs: seq<string>
    var subProjects: seq<Module>

    constructor (key: string, baseDir: string, workDir: string, sourceDirs: seq<string>)
      ensures this.key == key && this.baseDir == baseDir && this.workDir == workDir
      ensures this.sourceDirs == sourceDirs && subProjects == []
    {
      this.key := key;
      this.baseDir := baseDir;
      this.workDir := workDir;
      this.sourceDirs := sourceDirs;
      subProjects := [];
    }

    method ResetSourceDirs()
      modifies this`sourceDirs
      ensures sourceDirs == []
    {
      sourceDirs := [];
    }

    method AddSubProject(moduleDef: Module)
      modifies this`subProjects
      ensures subProjects == old(subProjects) + [moduleDef]
    {
      subProjects := subProjects + [moduleDef];
    }
  }

  lemma EmptyUnion(a: map<string, string>)
    ensures map[] + a == a
  {
  }

  lemma UnionUpdate(a: map<string, string>, b: map<string, string>, x: string, v: string)
    ensures (a + b)[x := v] == a + b[x := v]
  {
  }

  lemma RemoveOneLess(settings: Settings, remaining: set<string>, k: string)
    requires k in remaining && remaining <= settings.Keys
    ensures (settings - remaining)[k := settings[k]] == settings - (remaining - {k})
  {
  }

  /** One more setting looked at by ForwardModuleProperties. */
  lemma ForwardOne(base: map<string, string>, settings: Settings, remaining: set<string>, name: string, k: string)
    requires k in remaining && remaining <= settings.Keys
    ensures var before := base + Forwarded(settings - remaining, name);
            (if StartsWith(k, name + ".") then before[k[|name| + 1..] := settings[k]] else before)
            == base + Forwarded(settings - (remaining - {k}), name)
  {
    ForwardedUpdate(settings - remaining, name, k, settings[k]);
    RemoveOneLess(settings, remaining, k);
    if StartsWith(k, name + ".") {
      UnionUpdate(base, Forwarded(settings - remaining, name), k[|name| + 1..], settings[k]);
    }
  }

  /** Copies the settings `name.x` into the module as `x`, for every setting
      whose key starts with the module's name and a dot. */
  method ForwardModuleProperties(settings: Settings, moduleDef: Module)
    modifies moduleDef`properties
    ensures moduleDef.properties == old(moduleDef.properties) + Forwarded(settings, moduleDef.name)
  {
    var remaining := settings.Keys;
    while remaining != {}
      invariant remaining <= settings.Keys
      invariant moduleDef.properties == old(moduleDef.properties) + Forwarded(settings - remaining, moduleDef.name)
      decreases |remaining|
    {
      var k :| k in remaining;
      ForwardOne(old(moduleDef.properties), settings, remaining, moduleDef.name, k);
      if StartsWith(k, moduleDef.name + ".") {
        moduleDef.properties := moduleDef.properties[k[|moduleDef.name| + 1..] := settings[k]];
      }
      remaining := remaining - {k};
    }
    assert settings - remaining == settings;
  }

  /** With a located assembly, points both FxCop analysers at it. */
  method SetFxCopProperties(moduleDef: Module, assembly: Option<string>)
    modifies moduleDef`properties
    ensures moduleDef.properties
            == if assembly.Some? then old(moduleDef.properties)[FxCopCsAssemblyKey := assembly.value]
                                                            [FxCopVbNetAssemblyKey := assembly.value]
               else old(moduleDef.properties)
  {
    if assembly.None? {
      return;
    }
    moduleDef.properties := moduleDef.properties[FxCopCsAssemblyKey := assembly.value];
    moduleDef.properties := moduleDef.properties[FxCopVbNetAssemblyKey := assembly.value];
  }

  method SetReSharperProperties(moduleDef: Module, projectName: string, solutionFile: string)
    modifies moduleDef`properties
    ensures moduleDef.properties
            == old(moduleDef.properties)[ReSharperSolutionFileKey := solutionFile][ReSharperProjectNameKey := projectName]
  {
    moduleDef.properties := moduleDef.properties[ReSharperSolutionFileKey := solutionFile];
    moduleDef.properties := moduleDef.properties[ReSharperProjectNameKey := projectName];
  }

  method SetStyleCopProperties(moduleDef: Module, projectFile: string)
    modifies moduleDef`properties
    ensures moduleDef.properties == old(moduleDef.properties)[StyleCopProjectFilePathKey := projectFile]
  {
    moduleDef.properties := moduleDef.properties[StyleCopProjectFilePathKey := projectFile];
  }

  /** What the builder makes of one project: a module's key, name,
      directories, files and settings. */
  datatype ModuleSpec = ModuleSpec(key: string, name: string, baseDir: string, workDir: string,
                                   sourceDirs: seq<string>, testDirs: seq<string>,
                                   sourceFiles: seq<string>, testFiles: seq<string>,
                                   properties: map<string, string>)

  /** A module's key: the root's key as the key strategy gives it, a colon
      and the escaped project name. */
  function ModuleKey(settings: Settings, rootKey: string, name: string): string {
    ProjectKey(settings, rootKey) + ":" + EscapeProjectName(name)
  }

  /** A module's work directory: under the root's, named after the root
      key (colons made underscores) and the escaped project name. */
  function ModuleWorkDir(rootKey: string, rootWorkDir: string, name: string): string {
    ChildPath(Some(rootWorkDir), ReplaceChar(rootKey, ':', '_') + "_" + EscapeProjectName(name))
  }

  /** The module built for the entry `e`, under the root project with key
      `rootKey` and work directory `rootWorkDir`. Its directory is the
      project file's; a test project has it as test directory and its kept
      files as test files, any other project as source directory and
      source files. ExpectedShape states what it holds. */
  ghost function Expected(env: Environment, rootKey: string, rootWorkDir: string, solutionFile: string, e: Entry): ModuleSpec {
    var dir := NullToEmpty(ParentDir(e.projectFile));
    var isTest := IsTestProject(env.settings, env.matches, e.name);
    var kept := KeptFiles(env.fs, dir, e.files, |e.files|);
    ModuleSpec(ModuleKey(env.settings, rootKey, e.name), e.name, dir, ModuleWorkDir(rootKey, rootWorkDir, e.name),
               if isTest then [] else [dir], if isTest then [dir] else [],
               if isTest then [] else kept, if isTest then kept else [],
               ModuleProperties(env.settings, e.name, e.projectFile, e.assembly, solutionFile))
  }

  /** What the module built for an entry holds. Its key is the root's key
      (as the key strategy gives it), a colon and a name free of spaces,
      plus signs and combining marks; its work directory lies under the
      root's. The project file's directory is its only source directory, or
      its only test directory for a test project. Its source files (test
      files for a test project) are exactly the declared files that exist
      and lie inside that directory. Its settings hold the solution file,
      the project name and the project file for the analysers and, under
      every other key `x`, exactly the setting `name.x`. */
  lemma ExpectedShape(env: Environment, rootKey: string, rootWorkDir: string, solutionFile: string, e: Entry)
    ensures var v := Expected(env, rootKey, rootWorkDir, solutionFile, e);
            var isTest := IsTestProject(env.settings, env.matches, e.name);
            var prefix := ProjectKey(env.settings, rootKey) + ":";
            var files := if isTest then v.testFiles else v.sourceFiles;
            && v.name == e.name
            && v.baseDir == NullToEmpty(ParentDir(e.projectFile))
            && StartsWith(v.key, prefix)
            && (forall k :: |prefix| <= k < |v.key| ==>
                  v.key[k] != ' ' && v.key[k] != '+' && !IsCombiningMark(v.key[k]))
            && StartsWith(v.workDir, rootWorkDir + "/")
            && (isTest ==> v.testDirs == [v.baseDir] && v.sourceDirs == [] && v.sourceFiles == [])
            && (!isTest ==> v.sourceDirs == [v.baseDir] && v.testDirs == [] && v.testFiles == [])
            && (forall p :: p in files <==>
                  p in env.fs && IsInSourceDir(p, v.baseDir)
                  && exists k :: 0 <= k < |e.files| && p == RelativePathFile(Some(v.baseDir), e.files[k]))
            && v.properties[ReSharperSolutionFileKey] == solutionFile
            && v.properties[ReSharperProjectNameKey] == e.name
            && v.properties[StyleCopProjectFilePathKey] == e.projectFile
            && (forall x :: !IsAnalyserKey(x) ==>
                  (x in v.properties <==> e.name + "." + x in env.settings)
                  && (x in v.properties ==> v.properties[x] == env.settings[e.name + "." + x]))
  {
    var v := Expected(env, rootKey, rootWorkDir, solutionFile, e);
    var prefix := ProjectKey(env.settings, rootKey) + ":";
    assert v.key == prefix + EscapeProjectName(e.name);
    assert v.key[..|prefix|] == prefix;
    forall k | |prefix| <= k < |v.key|
      ensures v.key[k] != ' ' && v.key[k] != '+' && !IsCombiningMark(v.key[k])
    {
      assert v.key[k] == EscapeProjectName(e.name)[k - |prefix|];
    }
    assert v.workDir[..|rootWorkDir + "/"|] == rootWorkDir + "/";
    forall p {
      KeptFilesExactly(env.fs, v.baseDir, e.files, |e.files|, p);
    }
    ModulePropertiesContents(env.settings, e.name, e.projectFile, e.assembly, solutionFile);
  }

  /** The module `m` holds exactly what `v` says. */
  predicate Holds(m: Module, v: ModuleSpec)
    reads m
  {
    && m.key == v.key && m.name == v.name && m.baseDir == v.baseDir && m.workDir == v.workDir
    && m.sourceDirs == v.sourceDirs && m.testDirs == v.testDirs
    && m.sourceFiles == v.sourceFiles && m.testFiles == v.testFiles
    && m.properties == v.properties
  }

  /** The modules built for a sequence of entries, in order. */
  ghost function Specs(env: Environment, rootKey: string, rootWorkDir: string, solutionFile: string,
                 es: seq<Entry>): (vs: seq<ModuleSpec>)
    ensures |vs| == |es|
  {
    seq(|es|, k requires 0 <= k < |es| => Expected(env, rootKey, rootWorkDir, solutionFile, es[k]))
  }

  lemma SpecsAppend(env: Environment, rootKey: string, rootWorkDir: string, solutionFile: string,
                    es: seq<Entry>, e: Entry)
    ensures Specs(env, rootKey, rootWorkDir, solutionFile, es + [e])
            == Specs(env, rootKey, rootWorkDir, solutionFile, es) + [Expected(env, rootKey, rootWorkDir, solutionFile, e)]
  {
  }

  /** Each module of `ms` holds what the spec at its position says. */
  predicate AllHold(ms: seq<Module>, vs: seq<ModuleSpec>)
    reads ms
  {
    |ms| == |vs| && forall k :: 0 <= k < |ms| ==> Holds(ms[k], vs[k])
  }

  lemma AllHoldAppend(ms: seq<Module>, vs: seq<ModuleSpec>, m: Module, v: ModuleSpec)
    requires AllHold(ms, vs) && Holds(m, v)
    ensures AllHold(ms + [m], vs + [v])
  {
  }

  /** The files loop of buildModule: each declared file, resolved against
      the project directory, that exists and lies inside it is added, as a
      test file of a test project and as a source file otherwise. */
  method AddProjectFiles(moduleDef: Module, fs: FileSystem, dir: string, files: seq<string>, isTestProject: bool)
    requires moduleDef.sourceFiles == [] && moduleDef.testFiles == []
    modifies moduleDef`sourceFiles, moduleDef`testFiles
    ensures moduleDef.sourceFiles == (if isTestProject then [] else KeptFiles(fs, dir, files, |files|))
    ensures moduleDef.testFiles == (if isTestProject then KeptFiles(fs, dir, files, |files|) else [])
  {
    for i := 0 to |files|
      invariant moduleDef.sourceFiles == (if isTestProject then [] else KeptFiles(fs, dir, files, i))
      invariant moduleDef.testFiles == (if isTestProject then KeptFiles(fs, dir, files, i) else [])
    {
      var file := RelativePathFile(Some(dir), files[i]);
      if file !in fs {
      } else if !IsInSourceDir(file, dir) {
      } else if isTestProject {
        moduleDef.testFiles := moduleDef.testFiles + [file];
      } else {
        moduleDef.sourceFiles := moduleDef.sourceFiles + [file];
      }
    }
  }

  /** The first part of buildModule: creates the module with its key,
      name, base and work directories and, depending on whether it is a
      test project, its source or test directory, and attaches it to the
      root. */
  method CreateModule(root: RootProject, env: Environment, projectName: string, projectFile: string)
    returns (moduleDef: Module)
    requires '/' in projectFile
    modifies root`subProjects
    ensures fresh(moduleDef)
    ensures root.subProjects == old(root.subProjects) + [moduleDef]
    ensures var dir := ParentDir(projectFile).value;
            var isTest := IsTestProject(env.settings, env.matches, projectName);
            && moduleDef.key == ModuleKey(env.settings, root.key, projectName)
            && moduleDef.name == projectName
            && moduleDef.baseDir == dir
            && moduleDef.workDir == ModuleWorkDir(root.key, root.workDir, projectName)
            && moduleDef.sourceDirs == (if isTest then [] else [dir])
            && moduleDef.testDirs == (if isTest then [dir] else [])
    ensures moduleDef.sourceFiles == [] && moduleDef.testFiles == [] && moduleDef.properties == map[]
  {
    var escapedProjectName := EscapeProjectName(projectName);
    var dir := ParentDir(projectFile).value;
    var isTestProject := IsTestProject(env.settings, env.matches, projectName);
    moduleDef := new Module(ProjectKey(env.settings, root.key) + ":" + escapedProjectName, projectName, dir,
                            ChildPath(Some(root.workDir), ReplaceChar(root.key, ':', '_') + "_" + escapedProjectName),
                            if isTestProject then [] else [dir], if isTestProject then [dir] else []);
    root.AddSubProject(moduleDef);
  }

  /** The last part of buildModule: the forwarded settings, then the FxCop,
      ReSharper and StyleCop settings, given to a module that has none. */
  method SetModuleProperties(settings: Settings, moduleDef: Module, projectFile: string,
                             assembly: Option<string>, solutionFile: string)
    requires moduleDef.properties == map[]
    modifies moduleDef`properties
    ensures moduleDef.properties == ModuleProperties(settings, moduleDef.name, projectFile, assembly, solutionFile)
  {
    ForwardModuleProperties(settings, moduleDef);
    EmptyUnion(Forwarded(settings, moduleDef.name));
    SetFxCopProperties(moduleDef, assembly);
    SetReSharperProperties(moduleDef, moduleDef.name, solutionFile);
    SetStyleCopProperties(moduleDef, projectFile);
  }

  /** Creates the module of one project, attaches it to the root, and fills
      in its directories, files and settings. */
  method BuildModule(root: RootProject, env: Environment, projectName: string, projectFile: string,
                     files: seq<string>, assembly: Option<string>, solutionFile: string) returns (moduleDef: Module)
    requires '/' in projectFile
    modifies root`subProjects
    ensures fresh(moduleDef)
    ensures root.subProjects == old(root.subProjects) + [moduleDef]
    ensures Holds(moduleDef, Expected(env, root.key, root.workDir, solutionFile,
                                      Entry(projectName, projectFile, files, assembly)))
  {
    moduleDef := CreateModule(root, env, projectName, projectFile);
    var isTestProject := IsTestProject(env.settings, env.matches, projectName);
    AddProjectFiles(moduleDef, env.fs, ParentDir(projectFile).value, files, isTestProject);
    SetModuleProperties(env.settings, moduleDef, projectFile, assembly, solutionFile);
  }

  /** One pass of the loop of build: the project is checked as Decide
      says; a project that is added becomes a new module of the root, a
      project file that cannot be read is reported, and any other project
      leaves the root as it was. */
  method VisitProject(root: RootProject, env: Environment, skipped: set<string>, solutionFile: string,
                      projects: seq<SolutionProject>, i: nat, ghost ds: seq<Decision>)
    returns (failure: Option<ParseError>, added: Option<Module>)
    requires '/' in solutionFile
    requires i < |projects| && ds == Decisions(env, skipped, solutionFile, projects)
    modifies root`subProjects
    ensures ds[i].Skip? ==> failure.None? && added.None?
    ensures ds[i].Fail? ==> failure == Some(ds[i].error) && added.None?
    ensures ds[i].Add? ==> failure.None? && added.Some?
                           && Holds(added.value, Expected(env, root.key, root.workDir, solutionFile, ds[i].entry))
    ensures added.None? ==> root.subProjects == old(root.subProjects)
    ensures added.Some? ==> fresh(added.value) && root.subProjects == old(root.subProjects) + [added.value]
  {
    DecisionsAt(env, skipped, solutionFile, projects);
    var solutionProject := projects[i];
    failure, added := None, None;
    if !IsSupportedProjectType(solutionProject.path) {
      return;
    }
    if solutionProject.name in skipped {
      return;
    }
    if IsSkippedProjectByPattern(env.settings, env.matches, solutionProject.name) {
      return;
    }
    var projectFile := RelativePathFile(ParentDir(solutionFile), solutionProject.path);
    if projectFile !in env.fs {
      return;
    }
    var parsed := ParseProject(projectFile, env.readProject(projectFile));
    if parsed.Err? {
      return Some(parsed.error), None;
    }
    var project := parsed.value;
    var assembly := LocateAssembly(env.settings, env.fs, projectFile, project);
    if SkipNotBuildProjects(env.settings) && assembly.None? {
      return;
    }
    var moduleDef := BuildModule(root, env, solutionProject.name, projectFile, project.files, assembly,
                                 solutionFile);
    added := Some(moduleDef);
  }

  /** One turn of build's loop over the solution's projects: visits
      project `i` and accounts for what it attached. `before` are the
      modules the root had before the loop, `modules` the ones the loop
      has attached so far. */
  method BuildStep(root: RootProject, env: Environment, skipped: set<string>, solutionFile: string,
                   projects: seq<SolutionProject>, i: nat, ghost ds: seq<Decision>,
                   ghost before: seq<Module>, ghost modules: seq<Module>)
    returns (failure: Option<ParseError>, added: Option<Module>)
    requires '/' in solutionFile
    requires i < |projects| && ds == Decisions(env, skipped, solutionFile, projects)
    requires PlanOf(ds[..i]).failure.None?
    requires root.subProjects == before + modules
    requires AllHold(modules, Specs(env, root.key, root.workDir, solutionFile, PlanOf(ds[..i]).entries))
    modifies root`subProjects
    ensures failure.Some? ==> added.None? && root.subProjects == before + modules
                              && PlanOf(ds) == Plan(PlanOf(ds[..i]).entries, failure)
    ensures failure.None? ==> PlanOf(ds[..i + 1]).failure.None?
    ensures failure.None? && added.None? ==>
              && root.subProjects == before + modules
              && PlanOf(ds[..i + 1]).entries == PlanOf(ds[..i]).entries
    ensures added.Some? ==>
              && fresh(added.value)
              && root.subProjects == before + (modules + [added.value])
              && AllHold(modules + [added.value], Specs(env, root.key, root.workDir, solutionFile, PlanOf(ds[..i + 1]).entries))
  {
    ghost var plan := PlanOf(ds[..i]);
    PlanOfPrefix(ds, i);
    failure, added := VisitProject(root, env, skipped, solutionFile, projects, i, ds);
    if failure.Some? {
      PlanStopsAtFailure(ds, i + 1);
    } else if added.Some? {
      SpecsAppend(env, root.key, root.workDir, solutionFile, plan.entries, ds[i].entry);
      AllHoldAppend(modules, Specs(env, root.key, root.workDir, solutionFile, plan.entries), added.value,
                    Expected(env, root.key, root.workDir, solutionFile, ds[i].entry));
      assert before + modules + [added.value] == before + (modules + [added.value]);
    }
  }

  // ---------------------------------------------------------------------
  // The build

  /** The loop of build over the solution's projects: the planned modules
      are attached in solution order; the loop fails at the first project
      file that cannot be read (keeping the modules attached before it),
      and fails when no module was attached. */
  method BuildModules(root: RootProject, env: Environment, solutionFile: string) returns (r: Result<Outcome, BuildError>)
    requires '/' in solutionFile
    modifies root`subProjects
    ensures var projects := env.readSolution(solutionFile);
            var plan := PlanOf(Decisions(env, SkippedProjectsByNames(env.settings), solutionFile, projects));
            var before := |old(root.subProjects)|;
            && before <= |root.subProjects|
            && root.subProjects[..before] == old(root.subProjects)
            && (forall m :: m in root.subProjects[before..] ==> fresh(m))
            && AllHold(root.subProjects[before..], Specs(env, root.key, root.workDir, solutionFile, plan.entries))
            && r == (if plan.failure.Some? then Err(InvalidProjectFile(plan.failure.value))
                     else if plan.entries == [] then Err(NoProjectsFound)
                     else Ok(Built(solutionFile)))
  {
    var skipped := SkippedProjectsByNames(env.settings);
    var hasModules := false;
    var projects := env.readSolution(solutionFile);
    ghost var before := root.subProjects;
    ghost var modules: seq<Module> := [];
    ghost var ds := Decisions(env, skipped, solutionFile, projects);
    for i := 0 to |projects|
      invariant PlanOf(ds[..i]).failure.None?
      invariant root.subProjects == before + modules
      invariant forall m :: m in modules ==> fresh(m)
      invariant AllHold(modules, Specs(env, root.key, root.workDir, solutionFile, PlanOf(ds[..i]).entries))
      invariant hasModules <==> PlanOf(ds[..i]).entries != []
    {
      var failure, added := BuildStep(root, env, skipped, solutionFile, projects, i, ds, before, modules);
      if failure.Some? {
        assert (before + modules)[|before|..] == modules;
        return Err(InvalidProjectFile(failure.value));
      }
      if added.Some? {
        hasModules := true;
        modules := modules + [added.value];
      }
    }
    assert ds[..|projects|] == ds;
    assert (before + modules)[|before|..] == modules;
    if !hasModules {
      return Err(NoProjectsFound);
    }
    return Ok(Built(solutionFile));
  }

  /** VisualStudioProjectBuilder.build. Disabled: nothing happens. No
      solution: nothing happens. A solution together with hand-configured
      modules is an error. Otherwise the root's source directories are
      cleared and the solution's modules are attached as BuildModules
      says. */
  method Build(root: RootProject, env: Environment) returns (r: Result<Outcome, BuildError>)
    modifies root`sourceDirs, root`subProjects
    ensures !GetBoolean(env.settings, EnableKey) ==> r == Ok(Disabled) && unchanged(root)
    ensures GetBoolean(env.settings, EnableKey) ==>
              var solution := GetSolutionFile(env.settings, env.fs, root.baseDir);
              && (solution.Err? ==> r == Err(solution.error) && unchanged(root))
              && (solution == Ok(None) ==> r == Ok(NoSolution) && unchanged(root))
              && (solution.Ok? && solution.value.Some? && ModulesKey in env.settings ==>
                    r == Err(ModulesPropertySet) && unchanged(root))
    ensures GetBoolean(env.settings, EnableKey) && GetSolutionFile(env.settings, env.fs, root.baseDir).Ok?
            && GetSolutionFile(env.settings, env.fs, root.baseDir).value.Some? && ModulesKey !in env.settings ==>
              var solutionFile := GetSolutionFile(env.settings, env.fs, root.baseDir).value.value;
              var projects := env.readSolution(solutionFile);
              var plan := PlanOf(Decisions(env, SkippedProjectsByNames(env.settings), solutionFile, projects));
              var before := |old(root.subProjects)|;
              && root.sourceDirs == []
              && before <= |root.subProjects|
              && root.subProjects[..before] == old(root.subProjects)
              && (forall m :: m in root.subProjects[before..] ==> fresh(m))
              && AllHold(root.subProjects[before..], Specs(env, root.key, root.workDir, solutionFile, plan.entries))
              && r == (if plan.failure.Some? then Err(InvalidProjectFile(plan.failure.value))
                       else if plan.entries == [] then Err(NoProjectsFound)
                       else Ok(Built(solutionFile)))
  {
    if !GetBoolean(env.settings, EnableKey) {
      return Ok(Disabled);
    }
    var solution := GetSolutionFile(env.settings, env.fs, root.baseDir);
    if solution.Err? {
      return Err(solution.error);
    }
    if solution.value.None? {
      return Ok(NoSolution);
    }
    var solutionFile := solution.value.value;
    if ModulesKey in env.settings {
      return Err(ModulesPropertySet);
    }
    root.ResetSourceDirs();
    r := BuildModules(root, env, solutionFile);
  }
}
